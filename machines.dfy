/** One database server of a service: the container environment derived from
    its spec, and the readiness decision of `await_started`
    (boltkit/server/__init__.py, lines 101-187). Docker itself is not part of
    this model: what the container reports is an input. */
module Machines {
  import opened Wrappers
  import opened Settings
  import opened MachineSpecs

  datatype Auth = Auth(user: string, password: string)

  // ---------------------------------------------------------------------------
  // Environment-variable names: `"NEO4J_" + key.replace("_", "__").replace(".", "_")`

  /** `s.replace(c, with)` for a one-character pattern. */
  function Replace(s: string, c: char, with: string): string {
    if s == [] then [] else (if s[0] == c then with else [s[0]]) + Replace(s[1..], c, with)
  }

  lemma {:induction false} ReplaceConcat(a: string, b: string, c: char, with: string)
    ensures Replace(a + b, c, with) == Replace(a, c, with) + Replace(b, c, with)
  {
    if a == [] {
      assert a + b == b;
    } else {
      assert (a + b)[1..] == a[1..] + b;
      ReplaceConcat(a[1..], b, c, with);
    }
  }

  /** The environment variable that carries config key `k`. */
  function EnvKey(k: string): string {
    "NEO4J_" + Replace(Replace(k, '_', "__"), '.', "_")
  }

  /** The two replacements, done one character at a time. */
  function EscapeChars(k: string): string {
    if k == [] then []
    else (if k[0] == '_' then "__" else if k[0] == '.' then "_" else [k[0]]) + EscapeChars(k[1..])
  }

  lemma {:induction false} EscapeByCharacters(k: string)
    ensures Replace(Replace(k, '_', "__"), '.', "_") == EscapeChars(k)
  {
    if k != [] {
      var head := if k[0] == '_' then "__" else [k[0]];
      assert Replace(k, '_', "__") == head + Replace(k[1..], '_', "__");
      ReplaceConcat(head, Replace(k[1..], '_', "__"), '.', "_");
      assert Replace(head, '.', "_") == if k[0] == '_' then "__" else if k[0] == '.' then "_" else [k[0]];
      EscapeByCharacters(k[1..]);
    }
  }

  /** Reads an escaped key back: "__" is an underscore, a lone "_" a dot. */
  function Unescape(e: string): string
    decreases |e|
  {
    if e == [] then []
    else if e[0] == '_' && 2 <= |e| && e[1] == '_' then "_" + Unescape(e[2..])
    else if e[0] == '_' then "." + Unescape(e[1..])
    else [e[0]] + Unescape(e[1..])
  }

  /** A key in which no dot is followed by a dot or an underscore: the keys
      for which the translation can be read back. */
  predicate Unambiguous(k: string) {
    forall i :: 0 <= i < |k| - 1 && k[i] == '.' ==> k[i + 1] != '.' && k[i + 1] != '_'
  }

  lemma {:induction false} UnescapeEscape(k: string)
    requires Unambiguous(k)
    ensures Unescape(EscapeChars(k)) == k
  {
    if k != [] {
      var rest := EscapeChars(k[1..]);
      assert Unambiguous(k[1..]) by {
        forall i | 0 <= i < |k[1..]| - 1 && k[1..][i] == '.'
          ensures k[1..][i + 1] != '.' && k[1..][i + 1] != '_'
        {
          assert k[i + 1] == '.';
        }
      }
      UnescapeEscape(k[1..]);
      assert k == [k[0]] + k[1..];
      if k[0] == '_' {
        assert EscapeChars(k) == "__" + rest;
        assert ("__" + rest)[2..] == rest;
        assert Unescape("__" + rest) == "_" + Unescape(rest);
      } else if k[0] == '.' {
        assert EscapeChars(k) == "_" + rest;
        assert ("_" + rest)[1..] == rest;
        if |k| >= 2 {
          assert k[1] != '.' && k[1] != '_';
          assert rest == [k[1]] + EscapeChars(k[1..][1..]);
        }
        assert Unescape("_" + rest) == "." + Unescape(rest);
      } else {
        assert EscapeChars(k) == [k[0]] + rest;
        assert ([k[0]] + rest)[1..] == rest;
        assert Unescape([k[0]] + rest) == [k[0]] + Unescape(rest);
      }
    }
  }

  /** Unambiguous keys get distinct environment variables. */
  lemma EnvKeyInjective(a: string, b: string)
    requires Unambiguous(a) && Unambiguous(b) && EnvKey(a) == EnvKey(b)
    ensures a == b
  {
    EscapeByCharacters(a);
    EscapeByCharacters(b);
    assert EnvKey(a)[6..] == EscapeChars(a);
    assert EnvKey(b)[6..] == EscapeChars(b);
    UnescapeEscape(a);
    UnescapeEscape(b);
  }

  /** Without that condition two keys can share a variable. */
  lemma EnvKeyCollision()
    ensures EnvKey("a._b") == EnvKey("a_.b") == "NEO4J_a___b"
  {
    EscapeByCharacters("a._b");
    EscapeByCharacters("a_.b");
    assert EscapeChars("b") == "b";
    assert EscapeChars("_b") == "__b";
    assert EscapeChars("._b") == "___b";
    assert EscapeChars(".b") == "_b";
    assert EscapeChars("_.b") == "___b";
  }

  // ---------------------------------------------------------------------------
  // The container environment

  /** `part in s` for strings. */
  predicate Contains(s: string, part: string) {
    exists i :: 0 <= i <= |s| && part <= s[i..]
  }

  /** The variables set before the config is translated: the credentials
      and, for an enterprise image, the licence acceptance. */
  function BaseEnvironment(auth: Option<Auth>, image: string): map<string, string> {
    var withAuth := if auth.Some? then map["NEO4J_AUTH" := auth.value.user + "/" + auth.value.password]
                    else map[];
    if Contains(image, "enterprise") then withAuth["NEO4J_ACCEPT_LICENSE_AGREEMENT" := "yes"] else withAuth
  }

  /** `env` after translating the entries of `config` in order. */
  function ApplyConfig(env: map<string, string>, config: Dict): map<string, string>
    decreases |config|
  {
    if config == [] then env
    else
      var last := config[|config| - 1];
      ApplyConfig(env, config[..|config| - 1])[EnvKey(last.key) := last.value]
  }

  /** The environment loop of `Neo4jMachine.__init__`. */
  method BuildEnvironment(auth: Option<Auth>, image: string, config: Dict)
    returns (env: map<string, string>)
    ensures env == ApplyConfig(BaseEnvironment(auth, image), config)
  {
    env := map[];
    if auth.Some? {
      env := env["NEO4J_AUTH" := auth.value.user + "/" + auth.value.password];
    }
    if Contains(image, "enterprise") {
      env := env["NEO4J_ACCEPT_LICENSE_AGREEMENT" := "yes"];
    }
    var i := 0;
    while i < |config|
      invariant 0 <= i <= |config|
      invariant env == ApplyConfig(BaseEnvironment(auth, image), config[..i])
    {
      assert config[..i + 1][..i] == config[..i];
      env := env[EnvKey(config[i].key) := config[i].value];
      i := i + 1;
    }
    assert config[..i] == config;
  }

  predicate AllUnambiguous(config: Dict) {
    forall i :: 0 <= i < |config| ==> Unambiguous(config[i].key)
  }

  /** Every setting reaches the container under its translated name, with
      its value. */
  lemma {:induction false} ConfigInEnvironment(env: map<string, string>, config: Dict, k: string)
    requires Distinct(config) && AllUnambiguous(config) && Get(config, k).Some?
    ensures EnvKey(k) in ApplyConfig(env, config)
    ensures ApplyConfig(env, config)[EnvKey(k)] == Get(config, k).value
    decreases |config|
  {
    var n := |config|;
    var last := config[n - 1];
    var prefix := config[..n - 1];
    assert ApplyConfig(env, config) == ApplyConfig(env, prefix)[EnvKey(last.key) := last.value];
    var i :| 0 <= i < n && config[i].key == k;
    if last.key == k {
      assert Get(config, k) == Some(last.value);
    } else {
      assert i < n - 1 && prefix[i] == config[i];
      assert Distinct(prefix);
      assert Get(prefix, k) == Some(config[i].value) == Get(config, k);
      assert Unambiguous(k) && Unambiguous(last.key) by {
        assert config[n - 1] == last;
      }
      if EnvKey(last.key) == EnvKey(k) {
        EnvKeyInjective(last.key, k);
      }
      ConfigInEnvironment(env, prefix, k);
    }
  }

  /** The environment holds exactly the base variables and the translated
      config keys. */
  lemma {:induction false} EnvironmentKeys(env: map<string, string>, config: Dict)
    ensures ApplyConfig(env, config).Keys
         == env.Keys + set i | 0 <= i < |config| :: EnvKey(config[i].key)
    decreases |config|
  {
    if config != [] {
      var n := |config|;
      var prefix := config[..n - 1];
      EnvironmentKeys(env, prefix);
      assert (set i | 0 <= i < n :: EnvKey(config[i].key))
          == (set i | 0 <= i < n - 1 :: EnvKey(prefix[i].key)) + {EnvKey(config[n - 1].key)};
    }
  }

  /** A variable no setting translates to keeps its base value. */
  lemma {:induction false} BaseVariableKept(env: map<string, string>, config: Dict, k: string)
    requires k in env && forall i :: 0 <= i < |config| ==> EnvKey(config[i].key) != k
    ensures k in ApplyConfig(env, config) && ApplyConfig(env, config)[k] == env[k]
    decreases |config|
  {
    if config != [] {
      BaseVariableKept(env, config[..|config| - 1], k);
    }
  }

  /** An escaped key without an underscore is the key itself. */
  lemma {:induction false} EscapeWithoutUnderscore(k: string)
    requires '_' !in EscapeChars(k)
    ensures EscapeChars(k) == k
    decreases |k|
  {
    if k != [] {
      var head := if k[0] == '_' then "__" else if k[0] == '.' then "_" else [k[0]];
      assert EscapeChars(k) == head + EscapeChars(k[1..]);
      assert head[0] in EscapeChars(k);
      EscapeWithoutUnderscore(k[1..]);
    }
  }

  /** Only the setting `AUTH` is translated to the credentials variable. */
  lemma AuthVariable(k: string)
    requires EnvKey(k) == "NEO4J_AUTH"
    ensures k == "AUTH"
  {
    EscapeByCharacters(k);
    assert EscapeChars(k) == EnvKey(k)[6..] == "AUTH";
    EscapeWithoutUnderscore(k);
  }

  // ---------------------------------------------------------------------------
  // Readiness

  /** What `await_started` observes of the container: its status after the
      first reload, whether the ping raised OSError, and the state it reports
      after the second reload (read only when the ping failed). */
  datatype Observation = Observation(status: string, pingOk: bool, stateAfterFailedPing: string)

  /** The readiness decision of `await_started`: 1 for a running container
      that answers, -1 for one that exited after a failed ping; otherwise
      `ready` keeps the value it had. */
  function NextReadiness(ready: int, o: Observation): int {
    if o.status != "running" then ready
    else if o.pingOk then 1
    else if o.stateAfterFailedPing == "exited" then -1
    else ready
  }

  /** From a fresh machine, the three outcomes and their causes. */
  lemma ReadinessOfNewMachine(o: Observation)
    ensures NextReadiness(0, o) == 1 <==> o.status == "running" && o.pingOk
    ensures NextReadiness(0, o) == -1 <==>
              o.status == "running" && !o.pingOk && o.stateAfterFailedPing == "exited"
    ensures NextReadiness(0, o) == 0 <==>
              o.status != "running" || (!o.pingOk && o.stateAfterFailedPing != "exited")
  {
  }

  /** A machine bound to a spec. `ready` is 0 (unknown), 1 (ready) or -1
      (exited). */
  class Machine {
    const spec: Spec
    const image: string
    const auth: Option<Auth>
    /** The container's environment follows from its credentials, image and spec. */
    const environment: map<string, string> := ApplyConfig(BaseEnvironment(auth, image), spec.config)
    var ready: int

    constructor (spec: Spec, image: string, auth: Option<Auth>)
      ensures this.spec == spec && this.image == image && this.auth == auth
      ensures environment == ApplyConfig(BaseEnvironment(auth, image), spec.config)
      ensures ready == 0
    {
      this.spec := spec;
      this.image := image;
      this.auth := auth;
      ready := 0;
      new;
      var env := BuildEnvironment(auth, image, spec.config);
      assert env == environment;
    }

    method AwaitStarted(o: Observation)
      modifies this
      ensures ready == NextReadiness(old(ready), o)
    {
      if o.status == "running" {
        if o.pingOk {
          ready := 1;
        } else if o.stateAfterFailedPing == "exited" {
          ready := -1;
        }
      }
    }
  }
}
