/** The interactive console of a service (`Neo4jService.console` and the
    `console_*` commands, boltkit/server/__init__.py lines 345-475 and
    610-667), with the read and write callbacks replaced by a sequence of
    inputs and a sequence of outcomes. */
module Console {
  import opened Wrappers
  import opened MachineSpecs
  import opened Machines
  import opened Allocation
  import opened Routing
  import opened Topology
  import opened Services

  /** The console commands, one per key of `console_index`. */
  datatype Command =
    | CmdEnv | CmdExit | CmdHelp | CmdLogs | CmdLs | CmdPing | CmdRt
    | CmdAddCore | CmdAddReplica | CmdRm

  /** `console_index[word]`: the commands every service registers, and the
      three a cluster adds on top. */
  function Lookup(kind: Kind, word: string): Option<Command> {
    if word == "env" then Some(CmdEnv)
    else if word == "exit" then Some(CmdExit)
    else if word == "help" then Some(CmdHelp)
    else if word == "logs" then Some(CmdLogs)
    else if word == "ls" then Some(CmdLs)
    else if word == "ping" then Some(CmdPing)
    else if word == "rt" then Some(CmdRt)
    else if kind == StandaloneKind then None
    else if word == "add-core" then Some(CmdAddCore)
    else if word == "add-replica" then Some(CmdAddReplica)
    else if word == "rm" then Some(CmdRm)
    else None
  }

  /** The words `help` lists. */
  function Words(kind: Kind): (r: set<string>)
    ensures forall w :: w in r <==> Lookup(kind, w).Some?
  {
    var common := {"env", "exit", "help", "logs", "ls", "ping", "rt"};
    if kind == StandaloneKind then common else common + {"add-core", "add-replica", "rm"}
  }

  /** A cluster's console knows every standalone command and exactly three
      more, which change the topology. */
  lemma ClusterExtendsStandalone(word: string)
    ensures Lookup(StandaloneKind, word).Some? ==> Lookup(ClusterKind, word) == Lookup(StandaloneKind, word)
    ensures Lookup(ClusterKind, word) != Lookup(StandaloneKind, word) <==>
      word == "add-core" || word == "add-replica" || word == "rm"
    ensures Lookup(StandaloneKind, word) != Some(CmdAddCore) && Lookup(StandaloneKind, word) != Some(CmdAddReplica)
    ensures Lookup(StandaloneKind, word) != Some(CmdRm)
  {
  }

  /** What the console loop does with one line's words. */
  datatype Dispatch = NoCommand | Unknown | Run(cmd: Command)

  /** An empty line has no `console_args[0]` (an `IndexError`, which the
      loop does not catch); a word missing from the index is a `KeyError`. */
  function Classify(kind: Kind, args: seq<string>): (d: Dispatch)
    ensures d == NoCommand <==> args == []
    ensures d.Run? <==> args != [] && Lookup(kind, args[0]).Some?
    ensures d.Run? ==> Lookup(kind, args[0]) == Some(d.cmd)
  {
    if args == [] then NoCommand
    else if Lookup(kind, args[0]).None? then Unknown
    else Run(Lookup(kind, args[0]).value)
  }

  /** One line the user typed, split into words, and what the outside
      world answers while the command runs: how a new machine comes up,
      and the records the routing procedure returns. */
  datatype Input = Input(args: seq<string>, observation: Observation, records: seq<RoutingRecord>)

  /** What one command leaves behind. `Crashed` is an exception that
      escapes the console loop; `Exited` is `SystemExit`. */
  datatype Outcome =
    | Crashed
    | Exited
    | Wrote(lines: seq<string>)
    | ShowedEnv(env: Environment)
    | ShowedHelp(words: set<string>)
    | Listed(rows: seq<Row>)
    | Targeted(targets: seq<Machine?>, lines: seq<string>)
    | ShowedRouting(cache: RoutingCache)

  predicate Stops(o: Outcome) {
    o == Crashed || o == Exited
  }

  /** The server name `ping` and `logs` act on. */
  function TargetName(args: seq<string>): string {
    if |args| > 1 then args[1] else "a"
  }

  /** `console_env`: `env()` fails on a `None` router. */
  method ShowEnv(s: Service) returns (outcome: Outcome)
    requires s.Valid()
    ensures outcome == if s.Env().Some? then ShowedEnv(s.Env().value) else Crashed
  {
    var e := s.Env();
    outcome := if e.Some? then ShowedEnv(e.value) else Crashed;
  }

  /** The commands that only read the service. */
  predicate ReadOnly(cmd: Command) {
    cmd !in {CmdRt, CmdAddCore, CmdAddReplica, CmdRm}
  }

  /** What a read-only command shows, given the service's kind,
      credentials, entries and routing cache. */
  ghost predicate Inspected(kind: Kind, auth: Auth, slots: seq<Slot>, cache: Option<RoutingCache>,
                            cmd: Command, args: seq<string>, outcome: Outcome)
  {
    var env := EnvOf(RoutersOf(kind, slots, cache), auth);
    && (cmd == CmdExit ==> outcome == Exited)
    && (cmd == CmdHelp ==> outcome == ShowedHelp(Words(kind)))
    && (cmd == CmdEnv ==> outcome == if env.Some? then ShowedEnv(env.value) else Crashed)
    && (cmd == CmdLs ==>
          outcome.Listed? && |outcome.rows| == |slots| &&
          forall i :: 0 <= i < |slots| ==> outcome.rows[i] == ListRow(slots[i], cache))
    && (cmd in {CmdPing, CmdLogs} ==>
          var targets := MachinesOf(NamedSlots(slots, TargetName(args)));
          outcome == Targeted(targets, if targets == [] then NotFound(TargetName(args)) else []))
  }

  /** `env`, `exit`, `help`, `ls`, `ping` and `logs`. */
  method Inspect(s: Service, cmd: Command, args: seq<string>) returns (outcome: Outcome)
    requires s.Valid() && ReadOnly(cmd)
    ensures Inspected(s.kind, s.auth, s.machines, s.routing, cmd, args, outcome)
  {
    match cmd
    case CmdEnv =>
      outcome := ShowEnv(s);
    case CmdExit =>
      outcome := Exited;
    case CmdHelp =>
      outcome := ShowedHelp(Words(s.kind));
    case CmdLs =>
      var rows := s.List();
      outcome := Listed(rows);
    case CmdPing =>
      var name, targets, lines := s.Targets(args);
      outcome := Targeted(targets, lines);
    case CmdLogs =>
      var name, targets, lines := s.Targets(args);
      outcome := Targeted(targets, lines);
  }

  /** The state of a service that the console commands change. */
  datatype Snapshot = Snapshot(machines: seq<Slot>, freeCores: seq<Spec>, freeReplicas: seq<Spec>,
                               routing: Option<RoutingCache>)

  function SnapshotOf(s: Service): Snapshot
    reads s
  {
    Snapshot(s.machines, s.freeCores, s.freeReplicas, s.routing)
  }

  /** What a command that changes the service did, from the state `b`
      before to the state `a` after. */
  ghost predicate Changed(kind: Kind, b: Snapshot, cmd: Command, input: Input, outcome: Outcome, a: Snapshot) {
    && (cmd == CmdRt ==>
          var routers := RoutersOf(kind, b.machines, b.routing);
          && a.machines == b.machines && a.freeCores == b.freeCores && a.freeReplicas == b.freeReplicas
          && (null in routers ==> a.routing == b.routing && outcome == Crashed)
          && (null !in routers && input.records == [] ==>
                a.routing == b.routing && outcome == Wrote(["Cannot obtain routing information"]))
          && (null !in routers && input.records != [] ==>
                var cache := ResolvedCache(b.machines, input.records[0]);
                && a.routing == Some(cache)
                && outcome == if null in cache.routers + cache.readers + cache.writers
                              then Crashed else ShowedRouting(cache)))
    && (cmd in {CmdAddCore, CmdAddReplica} ==>
          var role := if cmd == CmdAddCore then Core else Replica;
          var pool := PoolOf(b.freeCores, b.freeReplicas, role);
          && kind == ClusterKind && a.routing == b.routing
          && (|SpecsOfRole(b.machines, role)| >= MaxOf(role) ==>
                && a == b
                && outcome == Wrote(["A maximum of " + NatToString(MaxOf(role)) + " " + RoleWord(role) + "s is permitted"]))
          && (|SpecsOfRole(b.machines, role)| < MaxOf(role) ==>
                && pool != [] && Grown(b.machines, a.machines, pool[0])
                && PoolOf(a.freeCores, a.freeReplicas, role) == pool[1..]
                && PoolOf(a.freeCores, a.freeReplicas, Other(role)) == PoolOf(b.freeCores, b.freeReplicas, Other(role))
                && outcome == Wrote(["Added " + RoleWord(role) + " server '" + FqName(pool[0]) + "'"])))
    && (cmd == CmdRm ==>
          && kind == ClusterKind && a.routing == b.routing
          && (|input.args| < 2 ==> outcome == Crashed && a == b)
          && (|input.args| >= 2 ==>
                var removed := Removed(b.machines, input.args[1], b.routing);
                && a.machines == Kept(b.machines, input.args[1], b.routing)
                && a.freeCores == b.freeCores + SpecsOfRole(removed, Core)
                && a.freeReplicas == b.freeReplicas + SpecsOfRole(removed, Replica)
                && outcome == Wrote(if removed == [] then NotFound(input.args[1]) else [])))
  }

  /** `rt`, `add-core`, `add-replica` and `rm`. */
  method Change(s: Service, cmd: Command, input: Input) returns (outcome: Outcome)
    requires s.Valid() && !ReadOnly(cmd)
    requires cmd != CmdRt ==> s.kind == ClusterKind
    modifies s
    ensures s.Valid()
    ensures Changed(s.kind, old(SnapshotOf(s)), cmd, input, outcome, SnapshotOf(s))
    ensures cmd in {CmdAddCore, CmdAddReplica} && |s.machines| > |old(s.machines)| ==>
      && fresh(s.machines[|old(s.machines)|].machine)
      && s.machines[|old(s.machines)|].machine.ready == NextReadiness(0, input.observation)
  {
    match cmd
    case CmdRt =>
      var r := s.UpdateRoutingInfo(input.records);
      if r == RouterMissing {
        outcome := Crashed;
      } else if r == NoRoutingInfo {
        outcome := Wrote(["Cannot obtain routing information"]);
      } else {
        var cache := s.routing.value;
        outcome := if null in cache.routers + cache.readers + cache.writers then Crashed else ShowedRouting(cache);
      }
    case CmdAddCore =>
      var line := s.Add(Core, input.observation);
      outcome := Wrote([line]);
    case CmdAddReplica =>
      var line := s.Add(Replica, input.observation);
      outcome := Wrote([line]);
    case CmdRm =>
      if |input.args| < 2 {
        outcome := Crashed;
      } else {
        var lines := s.Remove(input.args[1]);
        outcome := Wrote(lines);
      }
  }

  /** What one turn of the console loop did: an empty line escapes the loop,
      an unknown word writes `ERROR!`, a read-only command shows the state
      it found and leaves it, and a changing command does what `Changed`
      says. */
  ghost predicate Turn(kind: Kind, auth: Auth, before: Snapshot, input: Input, outcome: Outcome, after: Snapshot) {
    match Classify(kind, input.args)
    case NoCommand => outcome == Crashed && after == before
    case Unknown => outcome == Wrote(["ERROR!"]) && after == before
    case Run(cmd) =>
      if ReadOnly(cmd) then
        after == before && Inspected(kind, auth, before.machines, before.routing, cmd, input.args, outcome)
      else
        Changed(kind, before, cmd, input, outcome, after)
  }

  /** One turn of the console loop. */
  method Step(s: Service, input: Input) returns (outcome: Outcome)
    requires s.Valid()
    modifies s
    ensures s.Valid()
    ensures Turn(s.kind, s.auth, old(SnapshotOf(s)), input, outcome, SnapshotOf(s))
  {
    var d := Classify(s.kind, input.args);
    if d == NoCommand {
      outcome := Crashed;
    } else if d == Unknown {
      outcome := Wrote(["ERROR!"]);
    } else if ReadOnly(d.cmd) {
      outcome := Inspect(s, d.cmd, input.args);
    } else {
      outcome := Change(s, d.cmd, input);
    }
  }

  /** A turn that did not stop the loop extends the trace of the turns
      before it. */
  lemma TraceExtend(kind: Kind, auth: Auth, states: seq<Snapshot>, inputs: seq<Input>, outcomes: seq<Outcome>,
                    i: nat, outcome: Outcome, after: Snapshot)
    requires |outcomes| == |states| == i + 1 && i < |inputs|
    requires forall k :: 0 <= k <= i ==> !Stops(outcomes[k])
    requires forall k :: 0 <= k < i ==> Turn(kind, auth, states[k], inputs[k], outcomes[k + 1], states[k + 1])
    requires Turn(kind, auth, states[i], inputs[i], outcome, after)
    ensures forall k :: 0 <= k < i + 1 ==> !Stops((outcomes + [outcome])[k])
    ensures forall k :: 0 <= k < i + 1 ==>
      Turn(kind, auth, (states + [after])[k], inputs[k], (outcomes + [outcome])[k + 1], (states + [after])[k + 1])
  {
  }

  /** `console(read, write)`: show the environment, then run one command
      per input until one of them escapes the loop or the inputs run out.
      `states` holds the service's state before each outcome after the
      first, and its state at the end. */
  method Session(s: Service, inputs: seq<Input>) returns (outcomes: seq<Outcome>, ghost states: seq<Snapshot>)
    requires s.Valid()
    modifies s
    ensures s.Valid()
    ensures 1 <= |outcomes| <= |inputs| + 1
    ensures outcomes[0] == if old(s.Env()).Some? then ShowedEnv(old(s.Env()).value) else Crashed
    ensures forall i :: 0 <= i < |outcomes| - 1 ==> !Stops(outcomes[i])
    ensures |outcomes| < |inputs| + 1 ==> Stops(outcomes[|outcomes| - 1])
    ensures |states| == |outcomes| && states[0] == old(SnapshotOf(s)) && states[|states| - 1] == SnapshotOf(s)
    ensures forall i :: 0 <= i < |outcomes| - 1 ==>
      Turn(s.kind, s.auth, states[i], inputs[i], outcomes[i + 1], states[i + 1])
  {
    var first := ShowEnv(s);
    outcomes := [first];
    states := [SnapshotOf(s)];
    var i := 0;
    while i < |inputs| && !Stops(outcomes[i])
      invariant 0 <= i <= |inputs| && |outcomes| == |states| == i + 1 && outcomes[0] == first
      invariant s.Valid()
      invariant states[0] == old(SnapshotOf(s)) && states[i] == SnapshotOf(s)
      invariant forall k :: 0 <= k < i ==> !Stops(outcomes[k])
      invariant forall k :: 0 <= k < i ==> Turn(s.kind, s.auth, states[k], inputs[k], outcomes[k + 1], states[k + 1])
    {
      var outcome := Step(s, inputs[i]);
      ghost var after := SnapshotOf(s);
      TraceExtend(s.kind, s.auth, states, inputs, outcomes, i, outcome, after);
      outcomes := outcomes + [outcome];
      states := states + [after];
      i := i + 1;
    }
  }
}
