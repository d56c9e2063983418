/** The configuration dictionaries of machine specs: string keys mapped to
    string values, kept in insertion order, with Python `dict` semantics for
    assignment (`d[k] = v`) and `dict.update`. */
module Settings {
  import opened Wrappers

  datatype Setting = Setting(key: string, value: string)

  /** An insertion-ordered dictionary; a well-formed one has Distinct keys. */
  type Dict = seq<Setting>

  predicate Distinct(d: Dict) {
    forall i, j :: 0 <= i < j < |d| ==> d[i].key != d[j].key
  }

  /** `d.get(k)`: the value stored under `k`, if any. */
  function Get(d: Dict, k: string): (r: Option<string>)
    ensures r.None? <==> forall i :: 0 <= i < |d| ==> d[i].key != k
    ensures Distinct(d) ==> forall i :: 0 <= i < |d| && d[i].key == k ==> r == Some(d[i].value)
  {
    if d == [] then None
    else if d[0].key == k then Some(d[0].value)
    else Get(d[1..], k)
  }

  /** `d[k] = v`: an existing key keeps its position and takes the new value;
      a new key is appended at the end. */
  function Put(d: Dict, k: string, v: string): (r: Dict)
    requires Distinct(d)
    ensures Distinct(r)
    ensures |r| == if Get(d, k).Some? then |d| else |d| + 1
    ensures forall i :: 0 <= i < |d| ==> r[i] == if d[i].key == k then Setting(k, v) else d[i]
    ensures Get(d, k).None? ==> r[|d|] == Setting(k, v)
    ensures Get(r, k) == Some(v)
    ensures forall k' :: k' != k ==> Get(r, k') == Get(d, k')
  {
    if Get(d, k).Some? then
      var r := seq(|d|, i requires 0 <= i < |d| => if d[i].key == k then Setting(k, v) else d[i]);
      r
    else
      var r := d + [Setting(k, v)];
      assert r[|d|].key == k;
      r
  }

  /** `d.update(other)`: the entries of `other` are assigned in order, so the
      caller's entries win over the ones already in `d`. */
  function Update(d: Dict, other: Dict): (r: Dict)
    requires Distinct(d) && Distinct(other)
    ensures Distinct(r)
    ensures forall k :: Get(r, k) == if Get(other, k).Some? then Get(other, k) else Get(d, k)
    decreases |other|
  {
    if other == [] then d
    else Update(Put(d, other[0].key, other[0].value), other[1..])
  }
}
