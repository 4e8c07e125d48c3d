/**
 The autocoder is correct: what the wiring it emits builds at start-up agrees with the topology
 and with the ground dictionary, and passes the checks it emits with it.
 */
module AutocoderCorrect {
  import opened Wrappers
  import opened Words
  import opened MissionFsm
  import opened Topology
  import opened Autocoder
  import Hub = CommandHub
  import Hubs

  // ---------------------------------------------------------------- which topologies

  ghost predicate DistinctInstances(cs: seq<Component>) {
    forall i, j :: 0 <= i < j < |cs| ==> cs[i].inst != cs[j].inst
  }

  ghost predicate DistinctNames(cmds: seq<Command>) {
    forall i, j :: 0 <= i < j < |cmds| ==> cmds[i].name != cmds[j].name
  }

  /** The numbers fit their 32-bit literals, and no component has the number that the hub reserves. */
  ghost predicate NumbersFit(t: Topology) {
    && (forall i :: 0 <= i < |t.components| ==> t.components[i].id.Some? && 0 < t.components[i].id.value < TWO32)
    && (forall j :: 0 <= j < |t.commands| ==> t.commands[j].opcode < TWO32)
  }

  /** The tables that the components fill are large enough, */
  predicate PortsFit(t: Topology) {
    && Routed(t.components, t.commands, |t.components|) <= Hub.MAX_COMMAND_ROUTES
    && Stagings(t.components, |t.components|) <= Hubs.MAX_INPUTS
  }

  /** and those that the custom lines add to. */
  predicate ListenersFit(t: Topology) {
    && 2 + TelemLines(t.custom, |t.custom|) <= Hubs.MAX_LISTENERS
    && 2 + EventLines(t.custom, |t.custom|) <= Hubs.MAX_LISTENERS
  }

  /** The generated wiring connects output `p`. */
  ghost predicate Generated(t: Topology, p: Port) {
    || p == RADIO_COMMANDS
    || exists i :: 0 <= i < |t.components| && GeneratedBy(t.components[i], p)
  }

  predicate GeneratedBy(c: Component, p: Port) {
    && p.inst == c.inst
    && (Staged(c.inst) == Some(p.member) || (!IsSystem(c.inst) && (p.member.TelemetryOut? || p.member.RoutePort?)))
  }

  /** Custom lines set the sources that are checked for. */
  ghost predicate SourcesGiven(t: Topology) {
    && (ChecksMissionSource(t) ==> SetMissionStateSource in t.custom)
    && (ChecksThresholds(t) ==> SetBatteryThresholdSources in t.custom)
  }

  /** No custom line reconnects what was generated. */
  ghost predicate KeepsOut(t: Topology) {
    forall k :: 0 <= k < |t.custom| && t.custom[k].Wire? ==> !Generated(t, t.custom[k].src)
  }

  /** The class is absent or a non-empty text. */
  predicate ClassGiven(cmd: Command) {
    cmd.opClass.Absent? || (cmd.opClass.Text? && cmd.opClass.text != "")
  }

  ghost predicate ClassesGiven(cmds: seq<Command>) {
    forall j :: 0 <= j < |cmds| ==> ClassGiven(cmds[j])
  }

  /** Accepted, with names and numbers that mean one thing each. */
  ghost predicate Sound(t: Topology) {
    Accepted(t) && NumbersFit(t) && DistinctInstances(t.components) && ClassesGiven(t.commands)
  }

  ghost predicate Wirable(t: Topology) {
    Sound(t) && PortsFit(t) && KeepsOut(t)
  }

  ghost predicate Deployable(t: Topology) {
    && Wirable(t) && SourcesGiven(t) && ListenersFit(t)
    && |t.commands| <= Hub.MAX_COMMAND_POLICIES
  }

  /** A small topology that can be deployed. */
  lemma {:induction false} DeployableExists()
    ensures Deployable(Topology([Component(Some(40), "Sequencer", "Sequencer", "seq")],
                                [Command("PURGE", Some(40), 5, Text("RESTRICTED"), "")], [], []))
  {
    var t := Topology([Component(Some(40), "Sequencer", "Sequencer", "seq")],
                      [Command("PURGE", Some(40), 5, Text("RESTRICTED"), "")], [], []);
    assert t.components[0].id == Some(40);
    assert Known(t.components, 1, t.commands[0].target);
    assert Routed(t.components, t.commands, 0) == 0 && Stagings(t.components, 0) == 0;
  }

  // ---------------------------------------------------------------- reading a list of statements

  function Pick<T>(ss: seq<Stmt>, f: Stmt -> Option<T>): seq<T> {
    if ss == [] then []
    else
      var picked, x := Pick(ss[..|ss| - 1], f), f(ss[|ss| - 1]);
      if x.Some? then picked + [x.value] else picked
  }

  lemma {:induction false} PickConcat<T>(a: seq<Stmt>, b: seq<Stmt>, f: Stmt -> Option<T>)
    ensures Pick(a + b, f) == Pick(a, f) + Pick(b, f)
  {
    if b == [] {
      assert a + b == a;
    } else {
      assert (a + b)[..|a + b| - 1] == a + b[..|b| - 1];
      PickConcat(a, b[..|b| - 1], f);
    }
  }

  lemma {:induction false} PickNone<T>(ss: seq<Stmt>, f: Stmt -> Option<T>)
    requires forall s :: s in ss ==> f(s).None?
    ensures Pick(ss, f) == []
  {
    if ss != [] {
      PickNone(ss[..|ss| - 1], f);
    }
  }

  lemma {:induction false} PickNext<T>(ss: seq<Stmt>, s: Stmt, f: Stmt -> Option<T>)
    ensures Pick(ss + [s], f) == Pick(ss, f) + if f(s).Some? then [f(s).value] else []
  {
    assert (ss + [s])[..|ss|] == ss;
  }

  lemma {:induction false} PickTwo<T>(a: Stmt, b: Stmt, f: Stmt -> Option<T>)
    requires f(a).Some? && f(b).Some?
    ensures Pick([a, b], f) == [f(a).value, f(b).value]
  {
    assert [a, b] == [a] + [b] && [a] == [] + [a];
    PickNext([a], b, f);
    PickNext([], a, f);
  }

  function InputOf(s: Stmt): Option<Port> {
    if s.ConnectInput? then Some(s.src) else None
  }

  function TelemListenerOf(s: Stmt): Option<Port> {
    if s.TelemListener? then Some(s.dst) else None
  }

  function EventListenerOf(s: Stmt): Option<Port> {
    if s.EventListener? then Some(s.dst) else None
  }

  function EventSourceOf(s: Stmt): Option<Port> {
    if s.EventSource? then Some(s.port) else None
  }

  // ---------------------------------------------------------------- what the machine has after a list

  lemma {:induction false} PoliciesNext(ps: seq<Hub.Policy>, p: Hub.Policy)
    ensures Hub.WithPolicies([], ps + [p]) == Hub.WithPolicy(Hub.WithPolicies([], ps), p).0
  {
    assert (ps + [p])[..|ps|] == ps;
  }

  lemma {:induction false} RoutesNext(rs: seq<Hub.Route<Port>>, r: Hub.Route<Port>)
    ensures Hub.WithRoutes([], rs + [r]) == Hub.WithRoute(Hub.WithRoutes([], rs), r.compId, Some(r.port)).0
  {
    assert (rs + [r])[..|rs|] == rs;
  }

  /** What one statement does to the two tables of the command hub. */
  lemma {:induction false} DoTables(net: Net, s: Stmt)
    requires Compiles(s)
    ensures Do(net, s).policies ==
      if PolicyOf(s).Some? then Hub.WithPolicy(net.policies, PolicyOf(s).value).0 else net.policies
    ensures Do(net, s).routes ==
      if RouteOf(s).Some? then Hub.WithRoute(net.routes, RouteOf(s).value.compId, Some(RouteOf(s).value.port)).0
        else net.routes
  {
  }

  lemma {:induction false} ExecPolicies(ss: seq<Stmt>)
    requires AllCompile(ss)
    ensures Exec(ss).policies == Hub.WithPolicies([], Pick(ss, PolicyOf))
  {
    if ss != [] {
      var init, s := ss[..|ss| - 1], ss[|ss| - 1];
      ExecPolicies(init);
      DoTables(Exec(init), s);
      if PolicyOf(s).Some? {
        PoliciesNext(Pick(init, PolicyOf), PolicyOf(s).value);
      }
    }
  }

  lemma {:induction false} ExecRoutes(ss: seq<Stmt>)
    requires AllCompile(ss)
    ensures Exec(ss).routes == Hub.WithRoutes([], Pick(ss, RouteOf))
  {
    if ss != [] {
      var init, s := ss[..|ss| - 1], ss[|ss| - 1];
      ExecRoutes(init);
      DoTables(Exec(init), s);
      if RouteOf(s).Some? {
        RoutesNext(Pick(init, RouteOf), RouteOf(s).value);
      }
    }
  }

  lemma {:induction false} ExecInputs(ss: seq<Stmt>)
    requires AllCompile(ss) && |Pick(ss, InputOf)| <= Hubs.MAX_INPUTS
    ensures Exec(ss).inputs == Pick(ss, InputOf)
  {
    if ss != [] {
      ExecInputs(ss[..|ss| - 1]);
    }
  }

  lemma {:induction false} ExecTelemListeners(ss: seq<Stmt>)
    requires AllCompile(ss) && |Pick(ss, TelemListenerOf)| <= Hubs.MAX_LISTENERS
    ensures Exec(ss).telemListeners == Pick(ss, TelemListenerOf)
  {
    if ss != [] {
      ExecTelemListeners(ss[..|ss| - 1]);
    }
  }

  lemma {:induction false} ExecEventListeners(ss: seq<Stmt>)
    requires AllCompile(ss) && |Pick(ss, EventListenerOf)| <= Hubs.MAX_LISTENERS
    ensures Exec(ss).eventListeners == Pick(ss, EventListenerOf)
  {
    if ss != [] {
      ExecEventListeners(ss[..|ss| - 1]);
    }
  }

  lemma {:induction false} ExecEventSources(ss: seq<Stmt>)
    requires AllCompile(ss) && |Pick(ss, EventSourceOf)| <= Hubs.MAX_INPUTS
    ensures Exec(ss).eventSources == Pick(ss, EventSourceOf)
  {
    if ss != [] {
      ExecEventSources(ss[..|ss| - 1]);
    }
  }

  lemma {:induction false} ExecFlags(ss: seq<Stmt>)
    requires AllCompile(ss)
    ensures Exec(ss).missionSource <==> MissionSource in ss
    ensures Exec(ss).thresholdSources <==> ThresholdSources in ss
  {
    if ss != [] {
      var init, s := ss[..|ss| - 1], ss[|ss| - 1];
      ExecFlags(init);
      assert ss == init + [s];
    }
  }

  /** An output that every connection sends to the same place ends up there. */
  lemma {:induction false} LinkFixed(ss: seq<Stmt>, o: Port, d: Port)
    requires AllCompile(ss) && Connect(o, d) in ss && ConnectInput(o) !in ss
    requires forall s :: s in ss && s.Connect? && s.src == o ==> s.dst == d
    ensures Linked(Exec(ss), o, d)
  {
    var init, s := ss[..|ss| - 1], ss[|ss| - 1];
    assert ss == init + [s];
    if s != Connect(o, d) {
      LinkFixed(init, o, d);
    }
  }

  ghost predicate Distinct(xs: seq<Port>) {
    forall i, j :: 0 <= i < j < |xs| ==> xs[i] != xs[j]
  }

  /** A link stays until its output is connected again. */
  lemma {:induction false} DoKeepsLink(net: Net, s: Stmt, o: Port, d: Port)
    requires Compiles(s) && Linked(net, o, d) && (s.Connect? || s.ConnectInput? ==> s.src != o)
    ensures Linked(Do(net, s), o, d)
  {
  }

  /** The k-th telemetry source feeds the k-th input of the hub. */
  lemma {:induction false} InputLinked(ss: seq<Stmt>, k: nat)
    requires AllCompile(ss) && k < |Pick(ss, InputOf)| <= Hubs.MAX_INPUTS
    requires Distinct(Pick(ss, InputOf))
    requires forall s :: s in ss && s.Connect? ==> s.src !in Pick(ss, InputOf)
    ensures Linked(Exec(ss), Pick(ss, InputOf)[k], Port("telem_hub", HubInput(k)))
  {
    var init, s := ss[..|ss| - 1], ss[|ss| - 1];
    assert ss == init + [s];
    var xs, xs' := Pick(ss, InputOf), Pick(init, InputOf);
    ExecInputs(init);
    assert forall i :: 0 <= i < |xs'| ==> xs'[i] == xs[i];
    if k < |xs'| {
      InputLinked(init, k);
      assert s.ConnectInput? ==> xs[|xs'|] == s.src;
      DoKeepsLink(Exec(init), s, xs[k], Port("telem_hub", HubInput(k)));
    }
  }

  // ---------------------------------------------------------------- what the topology asks for

  /** The telemetry sources, in order. */
  function InputPorts(cs: seq<Component>, n: nat): (xs: seq<Port>)
    requires n <= |cs|
    ensures |xs| == Apps(cs, n)
  {
    if n == 0 then []
    else if IsSystem(cs[n - 1].inst) then InputPorts(cs, n - 1)
    else InputPorts(cs, n - 1) + [Port(cs[n - 1].inst, TelemetryOut)]
  }

  /** The event sources, in order. */
  function StagingPorts(cs: seq<Component>, n: nat): (xs: seq<Port>)
    requires n <= |cs|
    ensures |xs| == Stagings(cs, n)
  {
    if n == 0 then []
    else if Staged(cs[n - 1].inst).None? then StagingPorts(cs, n - 1)
    else StagingPorts(cs, n - 1) + [Port(cs[n - 1].inst, Staging)]
  }

  /** A route for every component that some command targets and that is not part of the system. */
  function RouteList(cs: seq<Component>, cmds: seq<Command>, n: nat): (rs: seq<Hub.Route<Port>>)
    requires n <= |cs| && forall i :: 0 <= i < |cs| ==> cs[i].id.Some? && cs[i].id.value < TWO32
    ensures |rs| == Routed(cs, cmds, n)
  {
    if n == 0 then []
    else if !IsRouted(cs[n - 1], cmds) then RouteList(cs, cmds, n - 1)
    else RouteList(cs, cmds, n - 1) + [Hub.Route(cs[n - 1].id.value, Port(cs[n - 1].inst, RoutePort))]
  }

  /** The class a command is declared with; a command without one is operational. */
  function Declared(cmd: Command): OpClass {
    var c := ParseClass(ClassText(cmd));
    if c.Some? then c.value else OPERATIONAL
  }

  ghost predicate Declarable(cmds: seq<Command>) {
    forall j :: 0 <= j < |cmds| ==>
      && cmds[j].target.Some? && cmds[j].target.value < TWO32 && cmds[j].opcode < TWO32
      && OpClassOk(cmds[j]) && ClassGiven(cmds[j])
  }

  function PolicyList(cmds: seq<Command>, n: nat): (ps: seq<Hub.Policy>)
    requires n <= |cmds| && Declarable(cmds)
    ensures |ps| == n
    ensures forall j :: 0 <= j < n ==> ps[j] == Hub.Policy(cmds[j].target.value, cmds[j].opcode, Declared(cmds[j]))
  {
    if n == 0 then []
    else PolicyList(cmds, n - 1) + [Hub.Policy(cmds[n - 1].target.value, cmds[n - 1].opcode, Declared(cmds[n - 1]))]
  }

  // ---------------------------------------------------------------- each section asks for it

  ghost predicate TelemOnly(ss: seq<Stmt>) {
    forall s :: s in ss ==> s.TelemListener? || s.ConnectInput?
  }

  ghost predicate PolicyOnly(ss: seq<Stmt>) {
    forall s :: s in ss ==> s.RegisterPolicy? && Compiles(s)
  }

  ghost predicate RouteOnly(ss: seq<Stmt>) {
    forall s :: s in ss ==> (s.Connect? || s.RegisterRoute?) && Compiles(s)
  }

  ghost predicate EventOnly(ss: seq<Stmt>) {
    forall s :: s in ss ==> s.EventListener? || s.Connect? || s.EventSource?
  }

  ghost predicate CustomOnly(ss: seq<Stmt>) {
    forall s :: s in ss ==>
      s.TelemListener? || s.EventListener? || s.Connect? || s.MissionSource? || s.ThresholdSources? || s.Verbatim?
  }

  lemma {:induction false} TelemKinds(cs: seq<Component>, n: nat)
    requires n <= |cs|
    ensures TelemOnly(TelemWires(cs, n))
  {
    if n > 0 {
      TelemKinds(cs, n - 1);
    }
  }

  lemma {:induction false} TelemInputs(cs: seq<Component>, n: nat)
    requires n <= |cs|
    ensures Pick(TelemWires(cs, n), InputOf) == InputPorts(cs, n)
  {
    if n == 0 {
      PickNone(TelemWires(cs, 0), InputOf);
    } else {
      TelemInputs(cs, n - 1);
      if IsSystem(cs[n - 1].inst) {
        assert TelemWires(cs, n) == TelemWires(cs, n - 1);
      } else {
        PickNext(TelemWires(cs, n - 1), ConnectInput(Port(cs[n - 1].inst, TelemetryOut)), InputOf);
      }
    }
  }

  lemma {:induction false} TelemListeners(cs: seq<Component>, n: nat)
    requires n <= |cs|
    ensures Pick(TelemWires(cs, n), TelemListenerOf) == [Port("radio", TelemIn), Port("recorder", TelemetryIn)]
  {
    if n == 0 {
      PickTwo(TelemListener(Port("radio", TelemIn)), TelemListener(Port("recorder", TelemetryIn)), TelemListenerOf);
    } else {
      TelemListeners(cs, n - 1);
      if IsSystem(cs[n - 1].inst) {
        assert TelemWires(cs, n) == TelemWires(cs, n - 1);
      } else {
        PickNext(TelemWires(cs, n - 1), ConnectInput(Port(cs[n - 1].inst, TelemetryOut)), TelemListenerOf);
      }
    }
  }

  lemma {:induction false} PolicyWireCompiles(cmds: seq<Command>, j: nat)
    requires Declarable(cmds) && j < |cmds|
    ensures Compiles(PolicyWire(cmds[j])) && PolicyWire(cmds[j]).RegisterPolicy?
    ensures PolicyOf(PolicyWire(cmds[j])) == Some(Hub.Policy(cmds[j].target.value, cmds[j].opcode, Declared(cmds[j])))
  {
  }

  lemma {:induction false} PolicySection(cmds: seq<Command>, n: nat)
    requires n <= |cmds| && Declarable(cmds)
    ensures PolicyOnly(PolicyWires(cmds, n))
    ensures Pick(PolicyWires(cmds, n), PolicyOf) == PolicyList(cmds, n)
  {
    if n > 0 {
      PolicySection(cmds, n - 1);
      PolicyWireCompiles(cmds, n - 1);
      PickNext(PolicyWires(cmds, n - 1), PolicyWire(cmds[n - 1]), PolicyOf);
    }
  }

  lemma {:induction false} RouteSection(cs: seq<Component>, cmds: seq<Command>, n: nat)
    requires n <= |cs| && forall i :: 0 <= i < |cs| ==> cs[i].id.Some? && cs[i].id.value < TWO32
    ensures Pick(RouteWires(cs, cmds, n), RouteOf) == RouteList(cs, cmds, n)
  {
    if n > 0 {
      RouteSection(cs, cmds, n - 1);
      var before, c := RouteWires(cs, cmds, n - 1), cs[n - 1];
      if IsRouted(c, cmds) {
        var link, route := Connect(Port(c.inst, RoutePort), Port(c.inst, CmdIn)),
          RegisterRoute(c.id.value, Port(c.inst, RoutePort));
        assert RouteWires(cs, cmds, n) == before + [link] + [route];
        PickNext(before, link, RouteOf);
        PickNext(before + [link], route, RouteOf);
      } else {
        assert RouteWires(cs, cmds, n) == before;
      }
    } else {
      PickNone(RouteWires(cs, cmds, 0), RouteOf);
    }
  }

  lemma {:induction false} RouteKinds(cs: seq<Component>, cmds: seq<Command>, n: nat)
    requires n <= |cs| && forall i :: 0 <= i < |cs| ==> cs[i].id.Some? && cs[i].id.value < TWO32
    ensures RouteOnly(RouteWires(cs, cmds, n))
  {
    if n > 0 {
      RouteKinds(cs, cmds, n - 1);
    }
  }

  lemma {:induction false} EventKinds(cs: seq<Component>, n: nat)
    requires n <= |cs|
    ensures EventOnly(EventWires(cs, n))
  {
    if n > 0 {
      EventKinds(cs, n - 1);
    }
  }

  /** The two statements of one component, as a reader `f` sees them. */
  lemma {:induction false} PickEventWire<T>(cs: seq<Component>, n: nat, f: Stmt -> Option<T>)
    requires 0 < n <= |cs| && Staged(cs[n - 1].inst).Some?
    requires f(EventWire(cs[n - 1])[0]).None?
    ensures var before, x := Pick(EventWires(cs, n - 1), f), f(EventWire(cs[n - 1])[1]);
      Pick(EventWires(cs, n), f) == if x.Some? then before + [x.value] else before
  {
    var before, wire := EventWires(cs, n - 1), EventWire(cs[n - 1]);
    assert EventWires(cs, n) == before + [wire[0]] + [wire[1]];
    PickNext(before, wire[0], f);
    PickNext(before + [wire[0]], wire[1], f);
    assert Pick(before, f) + [] == Pick(before, f);
  }

  lemma {:induction false} EventListenerSection(cs: seq<Component>, n: nat)
    requires n <= |cs|
    ensures Pick(EventWires(cs, n), EventListenerOf) == [Port("radio", EventIn), Port("recorder", EventIn)]
  {
    if n == 0 {
      PickTwo(EventListener(Port("radio", EventIn)), EventListener(Port("recorder", EventIn)), EventListenerOf);
    } else {
      EventListenerSection(cs, n - 1);
      if Staged(cs[n - 1].inst).Some? {
        PickEventWire(cs, n, EventListenerOf);
      } else {
        assert EventWires(cs, n) == EventWires(cs, n - 1);
      }
    }
  }

  lemma {:induction false} EventSection(cs: seq<Component>, n: nat)
    requires n <= |cs|
    ensures Pick(EventWires(cs, n), EventSourceOf) == StagingPorts(cs, n)
  {
    if n == 0 {
      PickNone(EventWires(cs, 0), EventSourceOf);
    } else {
      EventSection(cs, n - 1);
      var m := Staged(cs[n - 1].inst);
      if m.None? {
        assert EventWires(cs, n) == EventWires(cs, n - 1);
      } else {
        var staging := Port(cs[n - 1].inst, Staging);
        assert EventWire(cs[n - 1])[1] == EventSource(staging);
        PickEventWire(cs, n, EventSourceOf);
        assert Pick(EventWires(cs, n), EventSourceOf) == StagingPorts(cs, n - 1) + [staging];
      }
    }
  }

  lemma {:induction false} CustomKinds(lines: seq<CustomLine>, n: nat)
    requires n <= |lines|
    ensures CustomOnly(CustomWires(lines, n))
  {
    if n > 0 {
      CustomKinds(lines, n - 1);
    }
  }

  /** The ports that the custom lines add as listeners, in order. */
  function TelemPorts(lines: seq<CustomLine>, n: nat): (xs: seq<Port>)
    requires n <= |lines|
    ensures |xs| == TelemLines(lines, n)
  {
    if n == 0 then []
    else TelemPorts(lines, n - 1) + if lines[n - 1].AddTelemListener? then [lines[n - 1].dst] else []
  }

  function EventPorts(lines: seq<CustomLine>, n: nat): (xs: seq<Port>)
    requires n <= |lines|
    ensures |xs| == EventLines(lines, n)
  {
    if n == 0 then []
    else EventPorts(lines, n - 1) + if lines[n - 1].AddEventListener? then [lines[n - 1].dst] else []
  }

  lemma {:induction false} CustomListeners(lines: seq<CustomLine>, n: nat)
    requires n <= |lines|
    ensures Pick(CustomWires(lines, n), TelemListenerOf) == TelemPorts(lines, n)
    ensures Pick(CustomWires(lines, n), EventListenerOf) == EventPorts(lines, n)
  {
    if n > 0 {
      CustomListeners(lines, n - 1);
      PickNext(CustomWires(lines, n - 1), CustomWire(lines[n - 1]), TelemListenerOf);
      PickNext(CustomWires(lines, n - 1), CustomWire(lines[n - 1]), EventListenerOf);
    }
  }

  /** A section that holds nothing to pick may be skipped, */
  lemma {:induction false} SkipAfter<T>(a: seq<Stmt>, b: seq<Stmt>, f: Stmt -> Option<T>)
    requires Pick(b, f) == []
    ensures Pick(a + b, f) == Pick(a, f)
  {
    PickConcat(a, b, f);
    assert Pick(a, f) + [] == Pick(a, f);
  }

  /** before another as well as after it. */
  lemma {:induction false} SkipBefore<T>(a: seq<Stmt>, b: seq<Stmt>, f: Stmt -> Option<T>)
    requires Pick(a, f) == []
    ensures Pick(a + b, f) == Pick(b, f)
  {
    PickConcat(a, b, f);
    assert [] + Pick(b, f) == Pick(b, f);
  }

  lemma {:induction false} SectionsCompile(a: seq<Stmt>, b: seq<Stmt>, c: seq<Stmt>, d: seq<Stmt>, e: seq<Stmt>)
    requires TelemOnly(a) && PolicyOnly(b) && RouteOnly(c) && EventOnly(d) && CustomOnly(e)
    ensures AllCompile(a + b + c + d + e)
  {
    var ss := a + b + c + d + e;
    forall k | 0 <= k < |ss|
      ensures Compiles(ss[k])
    {
      assert ss[k] in ss;
    }
  }

  lemma {:induction false} SectionPolicies(a: seq<Stmt>, b: seq<Stmt>, c: seq<Stmt>, d: seq<Stmt>, e: seq<Stmt>)
    requires TelemOnly(a) && RouteOnly(c) && EventOnly(d) && CustomOnly(e)
    ensures Pick(a + b + c + d + e, PolicyOf) == Pick(b, PolicyOf)
  {
    PickNone(a, PolicyOf);
    PickNone(c, PolicyOf);
    PickNone(d, PolicyOf);
    PickNone(e, PolicyOf);
    SkipAfter(a + b + c + d, e, PolicyOf);
    SkipAfter(a + b + c, d, PolicyOf);
    SkipAfter(a + b, c, PolicyOf);
    SkipBefore(a, b, PolicyOf);
  }

  lemma {:induction false} SectionRoutes(a: seq<Stmt>, b: seq<Stmt>, c: seq<Stmt>, d: seq<Stmt>, e: seq<Stmt>)
    requires TelemOnly(a) && PolicyOnly(b) && EventOnly(d) && CustomOnly(e)
    ensures Pick(a + b + c + d + e, RouteOf) == Pick(c, RouteOf)
  {
    PickNone(a, RouteOf);
    PickNone(b, RouteOf);
    PickNone(d, RouteOf);
    PickNone(e, RouteOf);
    SkipAfter(a + b + c + d, e, RouteOf);
    SkipAfter(a + b + c, d, RouteOf);
    SkipAfter(a, b, RouteOf);
    SkipBefore(a + b, c, RouteOf);
  }

  lemma {:induction false} SectionInputs(a: seq<Stmt>, b: seq<Stmt>, c: seq<Stmt>, d: seq<Stmt>, e: seq<Stmt>)
    requires PolicyOnly(b) && RouteOnly(c) && EventOnly(d) && CustomOnly(e)
    ensures Pick(a + b + c + d + e, InputOf) == Pick(a, InputOf)
  {
    PickNone(b, InputOf);
    PickNone(c, InputOf);
    PickNone(d, InputOf);
    PickNone(e, InputOf);
    SkipAfter(a + b + c + d, e, InputOf);
    SkipAfter(a + b + c, d, InputOf);
    SkipAfter(a + b, c, InputOf);
    SkipAfter(a, b, InputOf);
  }

  lemma {:induction false} SectionTelemListeners(a: seq<Stmt>, b: seq<Stmt>, c: seq<Stmt>, d: seq<Stmt>, e: seq<Stmt>)
    requires PolicyOnly(b) && RouteOnly(c) && EventOnly(d)
    ensures Pick(a + b + c + d + e, TelemListenerOf) == Pick(a, TelemListenerOf) + Pick(e, TelemListenerOf)
  {
    PickNone(b, TelemListenerOf);
    PickNone(c, TelemListenerOf);
    PickNone(d, TelemListenerOf);
    SkipAfter(a + b + c, d, TelemListenerOf);
    SkipAfter(a + b, c, TelemListenerOf);
    SkipAfter(a, b, TelemListenerOf);
    PickConcat(a + b + c + d, e, TelemListenerOf);
  }

  lemma {:induction false} SectionEventListeners(a: seq<Stmt>, b: seq<Stmt>, c: seq<Stmt>, d: seq<Stmt>, e: seq<Stmt>)
    requires TelemOnly(a) && PolicyOnly(b) && RouteOnly(c)
    ensures Pick(a + b + c + d + e, EventListenerOf) == Pick(d, EventListenerOf) + Pick(e, EventListenerOf)
  {
    PickNone(a, EventListenerOf);
    PickNone(b, EventListenerOf);
    PickNone(c, EventListenerOf);
    SkipAfter(a, b, EventListenerOf);
    SkipAfter(a + b, c, EventListenerOf);
    SkipBefore(a + b + c, d, EventListenerOf);
    PickConcat(a + b + c + d, e, EventListenerOf);
  }

  lemma {:induction false} SectionEventSources(a: seq<Stmt>, b: seq<Stmt>, c: seq<Stmt>, d: seq<Stmt>, e: seq<Stmt>)
    requires TelemOnly(a) && PolicyOnly(b) && RouteOnly(c) && CustomOnly(e)
    ensures Pick(a + b + c + d + e, EventSourceOf) == Pick(d, EventSourceOf)
  {
    PickNone(a, EventSourceOf);
    PickNone(b, EventSourceOf);
    PickNone(c, EventSourceOf);
    PickNone(e, EventSourceOf);
    SkipAfter(a, b, EventSourceOf);
    SkipAfter(a + b, c, EventSourceOf);
    SkipBefore(a + b + c, d, EventSourceOf);
    SkipAfter(a + b + c + d, e, EventSourceOf);
  }

  // ---------------------------------------------------------------- the tables

  ghost predicate Numbered(cs: seq<Component>) {
    forall i :: 0 <= i < |cs| ==> cs[i].id.Some? && cs[i].id.value < TWO32
  }

  lemma {:induction false} SoundDeclares(t: Topology)
    requires Sound(t)
    ensures Declarable(t.commands) && Targets(t.commands) && Numbered(t.components)
  {
    forall j | 0 <= j < |t.commands|
      ensures t.commands[j].target.Some? && t.commands[j].target.value < TWO32
    {
      assert Known(t.components, |t.components|, t.commands[j].target);
    }
  }

  lemma {:induction false} Sections(t: Topology)
    requires Declarable(t.commands) && Targets(t.commands) && Numbered(t.components)
    ensures TelemOnly(TelemWires(t.components, |t.components|))
    ensures PolicyOnly(PolicyWires(t.commands, |t.commands|))
    ensures RouteOnly(RouteWires(t.components, t.commands, |t.components|))
    ensures EventOnly(EventWires(t.components, |t.components|))
    ensures CustomOnly(CustomWires(t.custom, |t.custom|))
    ensures AllCompile(Wiring(t))
  {
    TelemKinds(t.components, |t.components|);
    PolicySection(t.commands, |t.commands|);
    RouteKinds(t.components, t.commands, |t.components|);
    EventKinds(t.components, |t.components|);
    CustomKinds(t.custom, |t.custom|);
    SectionsCompile(
      TelemWires(t.components, |t.components|), PolicyWires(t.commands, |t.commands|),
      RouteWires(t.components, t.commands, |t.components|), EventWires(t.components, |t.components|),
      CustomWires(t.custom, |t.custom|));
  }

  /** The policy table is filled from the declared commands alone, in their order. */
  lemma {:induction false} PolicyTable(t: Topology)
    requires Declarable(t.commands) && Targets(t.commands) && Numbered(t.components)
    ensures AllCompile(Wiring(t))
    ensures Exec(Wiring(t)).policies == Hub.WithPolicies([], PolicyList(t.commands, |t.commands|))
  {
    Sections(t);
    SectionPolicies(
      TelemWires(t.components, |t.components|), PolicyWires(t.commands, |t.commands|),
      RouteWires(t.components, t.commands, |t.components|), EventWires(t.components, |t.components|),
      CustomWires(t.custom, |t.custom|));
    PolicySection(t.commands, |t.commands|);
    ExecPolicies(Wiring(t));
  }

  /** The route table is filled from the components that commands target. */
  lemma {:induction false} RouteTable(t: Topology)
    requires Declarable(t.commands) && Targets(t.commands) && Numbered(t.components)
    ensures AllCompile(Wiring(t))
    ensures Exec(Wiring(t)).routes == Hub.WithRoutes([], RouteList(t.components, t.commands, |t.components|))
  {
    Sections(t);
    SectionRoutes(
      TelemWires(t.components, |t.components|), PolicyWires(t.commands, |t.commands|),
      RouteWires(t.components, t.commands, |t.components|), EventWires(t.components, |t.components|),
      CustomWires(t.custom, |t.custom|));
    RouteSection(t.components, t.commands, |t.components|);
    ExecRoutes(Wiring(t));
  }

  lemma {:induction false} InputTable(t: Topology)
    requires Declarable(t.commands) && Targets(t.commands) && Numbered(t.components)
    requires Apps(t.components, |t.components|) <= Hubs.MAX_INPUTS
    ensures AllCompile(Wiring(t)) && Pick(Wiring(t), InputOf) == InputPorts(t.components, |t.components|)
    ensures Exec(Wiring(t)).inputs == InputPorts(t.components, |t.components|)
  {
    Sections(t);
    SectionInputs(
      TelemWires(t.components, |t.components|), PolicyWires(t.commands, |t.commands|),
      RouteWires(t.components, t.commands, |t.components|), EventWires(t.components, |t.components|),
      CustomWires(t.custom, |t.custom|));
    TelemInputs(t.components, |t.components|);
    ExecInputs(Wiring(t));
  }

  /** Both hubs send to the radio and the recorder first, and to the custom listeners after them, in order. */
  lemma {:induction false} ListenerTables(t: Topology)
    requires Declarable(t.commands) && Targets(t.commands) && Numbered(t.components)
    requires ListenersFit(t)
    ensures AllCompile(Wiring(t))
    ensures var net := Exec(Wiring(t));
      && net.telemListeners == [Port("radio", TelemIn), Port("recorder", TelemetryIn)] +
        TelemPorts(t.custom, |t.custom|)
      && net.eventListeners == [Port("radio", EventIn), Port("recorder", EventIn)] + EventPorts(t.custom, |t.custom|)
  {
    Sections(t);
    var a, b := TelemWires(t.components, |t.components|), PolicyWires(t.commands, |t.commands|);
    var c, d := RouteWires(t.components, t.commands, |t.components|), EventWires(t.components, |t.components|);
    var e := CustomWires(t.custom, |t.custom|);
    SectionTelemListeners(a, b, c, d, e);
    SectionEventListeners(a, b, c, d, e);
    TelemListeners(t.components, |t.components|);
    EventListenerSection(t.components, |t.components|);
    CustomListeners(t.custom, |t.custom|);
    ExecTelemListeners(Wiring(t));
    ExecEventListeners(Wiring(t));
  }

  lemma {:induction false} EventSourceTable(t: Topology)
    requires Declarable(t.commands) && Targets(t.commands) && Numbered(t.components)
    requires Stagings(t.components, |t.components|) <= Hubs.MAX_INPUTS
    ensures AllCompile(Wiring(t))
    ensures Exec(Wiring(t)).eventSources == StagingPorts(t.components, |t.components|)
  {
    Sections(t);
    SectionEventSources(
      TelemWires(t.components, |t.components|), PolicyWires(t.commands, |t.commands|),
      RouteWires(t.components, t.commands, |t.components|), EventWires(t.components, |t.components|),
      CustomWires(t.custom, |t.custom|));
    EventSection(t.components, |t.components|);
    ExecEventSources(Wiring(t));
  }

  // ---------------------------------------------------------------- commands

  /** The command is the one for `target` and `opcode`. */
  predicate Names(cmd: Command, target: u32, opcode: u32) {
    cmd.target == Some(target) && cmd.opcode == opcode
  }

  ghost predicate DistinctCommands(cmds: seq<Command>) {
    forall i, j :: 0 <= i < j < |cmds| ==> cmds[i].target != cmds[j].target || cmds[i].opcode != cmds[j].opcode
  }

  lemma {:induction false} DeclaredIsFound(cmds: seq<Command>, j: nat)
    requires Declarable(cmds) && DistinctCommands(cmds) && j < |cmds|
    ensures Hub.Lookup(PolicyList(cmds, |cmds|), cmds[j].target.value, cmds[j].opcode) == Some(Declared(cmds[j]))
  {
    var ps := PolicyList(cmds, |cmds|);
    var i := Hub.PolicyIndex(ps, cmds[j].target.value, cmds[j].opcode);
    assert ps[j].target == cmds[j].target.value && ps[j].opcode == cmds[j].opcode;
    assert i == j;
  }

  lemma {:induction false} FoundIsDeclared(cmds: seq<Command>, target: u32, opcode: u32)
    requires Declarable(cmds) && Hub.Lookup(PolicyList(cmds, |cmds|), target, opcode).Some?
    ensures exists j :: 0 <= j < |cmds| && Names(cmds[j], target, opcode)
  {
    var i := Hub.PolicyIndex(PolicyList(cmds, |cmds|), target, opcode);
    assert Names(cmds[i], target, opcode);
  }

  /** For every topology that can be deployed: the hub classifies each declared command as declared. */
  lemma {:induction false} CommandsClassified(t: Topology, j: nat)
    requires Deployable(t) && j < |t.commands|
    ensures Targets(t.commands) && AllCompile(Wiring(t)) && Declarable(t.commands)
    ensures Hub.Lookup(Exec(Wiring(t)).policies, t.commands[j].target.value, t.commands[j].opcode)
      == Some(Declared(t.commands[j]))
  {
    SoundDeclares(t);
    PolicyTable(t);
    DeclaredIsFound(t.commands, j);
    assert Known(t.components, |t.components|, t.commands[j].target);
    LookupFromEmpty(PolicyList(t.commands, |t.commands|), t.commands[j].target.value, t.commands[j].opcode);
  }

  /** And it has a class for no other command, so that any other is treated as operational. */
  lemma {:induction false} OnlyDeclaredClassified(t: Topology, target: u32, opcode: u32)
    requires Deployable(t) && target != 0
    requires forall j :: 0 <= j < |t.commands| ==> !Names(t.commands[j], target, opcode)
    ensures Targets(t.commands) && AllCompile(Wiring(t))
    ensures Hub.Lookup(Exec(Wiring(t)).policies, target, opcode) == None
  {
    SoundDeclares(t);
    PolicyTable(t);
    LookupFromEmpty(PolicyList(t.commands, |t.commands|), target, opcode);
    if Hub.Lookup(PolicyList(t.commands, |t.commands|), target, opcode).Some? {
      FoundIsDeclared(t.commands, target, opcode);
      assert false;
    }
  }

  lemma {:induction false} LookupFromEmpty(ps: seq<Hub.Policy>, target: u32, opcode: u32)
    requires |ps| <= Hub.MAX_COMMAND_POLICIES && target != 0
    ensures Hub.Lookup(Hub.WithPolicies([], ps), target, opcode) == Hub.Lookup(ps, target, opcode)
  {
    Hub.FirstRegisteredWins([], ps, target, opcode);
    assert [] + ps == ps;
  }

  /** The route is that of a component which some command targets. */
  ghost predicate RouteOfSome(cs: seq<Component>, cmds: seq<Command>, n: nat, r: Hub.Route<Port>)
    requires n <= |cs|
  {
    exists i :: 0 <= i < n && cs[i].id == Some(r.compId) && IsRouted(cs[i], cmds)
                && r.port == Port(cs[i].inst, RoutePort)
  }

  lemma {:induction false} RoutesFromComponents(cs: seq<Component>, cmds: seq<Command>, n: nat)
    requires n <= |cs| && Numbered(cs)
    ensures forall r :: r in RouteList(cs, cmds, n) ==> RouteOfSome(cs, cmds, n, r)
  {
    if n > 0 {
      RoutesFromComponents(cs, cmds, n - 1);
      forall r | r in RouteList(cs, cmds, n)
        ensures RouteOfSome(cs, cmds, n, r)
      {
        if r in RouteList(cs, cmds, n - 1) {
          assert RouteOfSome(cs, cmds, n - 1, r);
        } else {
          assert cs[n - 1].id == Some(r.compId);
        }
      }
    }
  }

  ghost predicate DistinctRoutes(rs: seq<Hub.Route<Port>>) {
    forall i, j :: 0 <= i < j < |rs| ==> rs[i].compId != rs[j].compId
  }

  lemma {:induction false} RoutesDistinct(cs: seq<Component>, cmds: seq<Command>, n: nat)
    requires n <= |cs| && Numbered(cs) && ComponentsOk(cs, |cs|)
    ensures DistinctRoutes(RouteList(cs, cmds, n))
  {
    if n > 0 {
      RoutesDistinct(cs, cmds, n - 1);
      RoutesFromComponents(cs, cmds, n - 1);
      var before := RouteList(cs, cmds, n - 1);
      forall i | 0 <= i < |before|
        ensures Some(before[i].compId) != cs[n - 1].id
      {
        assert before[i] in before && RouteOfSome(cs, cmds, n - 1, before[i]);
        var k :| 0 <= k < n - 1 && cs[k].id == Some(before[i].compId);
      }
      if IsRouted(cs[n - 1], cmds) {
        var last := Hub.Route(cs[n - 1].id.value, Port(cs[n - 1].inst, RoutePort));
        assert RouteList(cs, cmds, n) == before + [last];
      } else {
        assert RouteList(cs, cmds, n) == before;
      }
    }
  }

  lemma {:induction false} RouteListed(cs: seq<Component>, cmds: seq<Command>, n: nat, i: nat)
    requires i < n <= |cs| && Numbered(cs) && IsRouted(cs[i], cmds)
    ensures Hub.Route(cs[i].id.value, Port(cs[i].inst, RoutePort)) in RouteList(cs, cmds, n)
    decreases n
  {
    if i < n - 1 {
      RouteListed(cs, cmds, n - 1, i);
    }
  }

  lemma {:induction false} RoutesInstalled(t: Topology)
    requires Sound(t) && PortsFit(t)
    ensures Targets(t.commands) && AllCompile(Wiring(t)) && Numbered(t.components)
    ensures Exec(Wiring(t)).routes == RouteList(t.components, t.commands, |t.components|)
  {
    SoundDeclares(t);
    RouteTable(t);
    RoutesDistinct(t.components, t.commands, |t.components|);
    var rs := RouteList(t.components, t.commands, |t.components|);
    assert [] + rs == rs;
    Hub.DistinctRoutesRegistered([], rs);
  }

  // ---------------------------------------------------------------- the port graph

  /** Where the generated wiring sends an output that is not a telemetry source. */
  function Target(p: Port): Port {
    if p == RADIO_COMMANDS then HUB_COMMANDS
    else if p.member.RoutePort? then Port(p.inst, CmdIn)
    else Port(p.inst, Staging)
  }

  ghost predicate Follows(cs: seq<Component>, s: Stmt) {
    s.Connect? ==>
      && s.dst == Target(s.src) && !s.src.member.TelemetryOut?
      && (s.src == RADIO_COMMANDS || exists i :: 0 <= i < |cs| && GeneratedBy(cs[i], s.src))
  }

  lemma {:induction false} RouteLinks(cs: seq<Component>, cmds: seq<Command>, n: nat)
    requires n <= |cs| && Numbered(cs)
    ensures forall s :: s in RouteWires(cs, cmds, n) ==> Follows(cs, s)
    ensures Connect(RADIO_COMMANDS, HUB_COMMANDS) in RouteWires(cs, cmds, n)
  {
    if n > 0 {
      RouteLinks(cs, cmds, n - 1);
      var c := cs[n - 1];
      if IsRouted(c, cmds) {
        assert GeneratedBy(c, Port(c.inst, RoutePort));
        assert Follows(cs, Connect(Port(c.inst, RoutePort), Port(c.inst, CmdIn)));
      }
    }
  }

  lemma {:induction false} RouteLinked(cs: seq<Component>, cmds: seq<Command>, n: nat, i: nat)
    requires i < n <= |cs| && Numbered(cs) && IsRouted(cs[i], cmds)
    ensures Connect(Port(cs[i].inst, RoutePort), Port(cs[i].inst, CmdIn)) in RouteWires(cs, cmds, n)
    decreases n
  {
    if i < n - 1 {
      RouteLinked(cs, cmds, n - 1, i);
    }
  }

  lemma {:induction false} EventLinked(cs: seq<Component>, n: nat, i: nat)
    requires i < n <= |cs| && Staged(cs[i].inst).Some?
    ensures Connect(Port(cs[i].inst, Staged(cs[i].inst).value), Port(cs[i].inst, Staging)) in EventWires(cs, n)
    decreases n
  {
    if i < n - 1 {
      EventLinked(cs, n - 1, i);
    }
  }

  lemma {:induction false} EventLinks(cs: seq<Component>, n: nat)
    requires n <= |cs|
    ensures forall s :: s in EventWires(cs, n) ==> Follows(cs, s)
  {
    if n > 0 {
      EventLinks(cs, n - 1);
      var c := cs[n - 1];
      if Staged(c.inst).Some? {
        var src := Port(c.inst, Staged(c.inst).value);
        assert GeneratedBy(c, src);
        assert Follows(cs, Connect(src, Port(c.inst, Staging)));
      }
    }
  }

  lemma {:induction false} CustomKeepsOut(t: Topology, n: nat)
    requires n <= |t.custom| && KeepsOut(t)
    ensures forall s :: s in CustomWires(t.custom, n) && s.Connect? ==> !Generated(t, s.src)
  {
    if n > 0 {
      CustomKeepsOut(t, n - 1);
    }
  }

  /** Every connection of the wiring goes where it should, or concerns an output that was not generated. */
  lemma {:induction false} WiringLinks(t: Topology)
    requires Wirable(t)
    ensures Targets(t.commands)
    ensures forall s :: s in Wiring(t) && s.Connect? ==> Follows(t.components, s) || !Generated(t, s.src)
  {
    SoundDeclares(t);
    var cs := t.components;
    Sections(t);
    RouteLinks(cs, t.commands, |cs|);
    EventLinks(cs, |cs|);
    CustomKeepsOut(t, |t.custom|);
    InSections(
      TelemWires(cs, |cs|), PolicyWires(t.commands, |t.commands|), RouteWires(cs, t.commands, |cs|),
      EventWires(cs, |cs|), CustomWires(t.custom, |t.custom|));
  }

  lemma {:induction false} InSections(a: seq<Stmt>, b: seq<Stmt>, c: seq<Stmt>, d: seq<Stmt>, e: seq<Stmt>)
    ensures forall s :: s in a + b + c + d + e <==> s in a || s in b || s in c || s in d || s in e
  {
  }

  lemma {:induction false} PickHas<T>(ss: seq<Stmt>, f: Stmt -> Option<T>, s: Stmt)
    requires s in ss && f(s).Some?
    ensures f(s).value in Pick(ss, f)
  {
    var n := |ss| - 1;
    assert ss == ss[..n] + [ss[n]];
    if s != ss[n] {
      PickHas(ss[..n], f, s);
    }
  }

  /** The port is the telemetry output of some application. */
  ghost predicate InputOfSome(cs: seq<Component>, n: nat, x: Port)
    requires n <= |cs|
  {
    x.member == TelemetryOut && exists i :: 0 <= i < n && !IsSystem(cs[i].inst) && cs[i].inst == x.inst
  }

  lemma {:induction false} InputPortsFromApps(cs: seq<Component>, n: nat)
    requires n <= |cs|
    ensures forall x :: x in InputPorts(cs, n) ==> InputOfSome(cs, n, x)
  {
    if n > 0 {
      InputPortsFromApps(cs, n - 1);
      forall x | x in InputPorts(cs, n)
        ensures InputOfSome(cs, n, x)
      {
        if x in InputPorts(cs, n - 1) {
          assert InputOfSome(cs, n - 1, x);
        } else {
          assert cs[n - 1].inst == x.inst;
        }
      }
    }
  }

  lemma {:induction false} InputPortsDistinct(cs: seq<Component>, n: nat)
    requires n <= |cs| && DistinctInstances(cs)
    ensures Distinct(InputPorts(cs, n))
  {
    if n > 0 {
      InputPortsDistinct(cs, n - 1);
      InputPortsFromApps(cs, n - 1);
      var before := InputPorts(cs, n - 1);
      forall k | 0 <= k < |before|
        ensures before[k].inst != cs[n - 1].inst
      {
        assert before[k] in before && InputOfSome(cs, n - 1, before[k]);
      }
    }
  }

  /** Component `i` is the source that the counter had reached. */
  lemma {:induction false} InputPortAt(cs: seq<Component>, n: nat, i: nat)
    requires i < n <= |cs| && !IsSystem(cs[i].inst)
    ensures Apps(cs, i) < Apps(cs, n) && InputPorts(cs, n)[Apps(cs, i)] == Port(cs[i].inst, TelemetryOut)
    decreases n
  {
    if i < n - 1 {
      InputPortAt(cs, n - 1, i);
    }
  }

  /** A generated connection is what it says, however often the wiring makes it. */
  lemma {:induction false} GeneratedLinked(t: Topology, o: Port)
    requires Wirable(t) && Generated(t, o) && !o.member.TelemetryOut?
    requires Targets(t.commands) && AllCompile(Wiring(t)) && Connect(o, Target(o)) in Wiring(t)
    ensures Linked(Exec(Wiring(t)), o, Target(o))
  {
    WiringLinks(t);
    SoundDeclares(t);
    StagingsCoverApps(t.components, |t.components|);
    InputTable(t);
    InputPortsFromApps(t.components, |t.components|);
    if ConnectInput(o) in Wiring(t) {
      PickHas(Wiring(t), InputOf, ConnectInput(o));
    }
    LinkFixed(Wiring(t), o, Target(o));
  }

  lemma {:induction false} StagingsCoverApps(cs: seq<Component>, n: nat)
    requires n <= |cs|
    ensures Apps(cs, n) <= Stagings(cs, n)
  {
    if n > 0 {
      StagingsCoverApps(cs, n - 1);
    }
  }

  /**
   Every command for an application is routed to that application: the hub finds a route for the
   target, and the port of that route is connected to the target's command input.
   */
  lemma {:induction false} CommandsRouted(t: Topology, j: nat, i: nat)
    requires Wirable(t) && j < |t.commands| && i < |t.components|
    requires t.commands[j].target == t.components[i].id && !IsSystem(t.components[i].inst)
    ensures Targets(t.commands) && AllCompile(Wiring(t)) && t.components[i].id.Some? && t.components[i].id.value < TWO32
    ensures var net := Exec(Wiring(t));
      var k := Hub.RouteIndex(net.routes, t.components[i].id.value);
      && k < |net.routes|
      && Linked(net, net.routes[k].port, Port(t.components[i].inst, CmdIn))
  {
    var cs, c := t.components, t.components[i];
    RoutesInstalled(t);
    assert Targeted(t.commands, c.id);
    RouteListed(cs, t.commands, |cs|, i);
    var rs := RouteList(cs, t.commands, |cs|);
    RoutesDistinct(cs, t.commands, |cs|);
    var route := Hub.Route(c.id.value, Port(c.inst, RoutePort));
    var at :| 0 <= at < |rs| && rs[at] == route;
    var k := Hub.RouteIndex(rs, c.id.value);
    assert k == at;
    RouteWired(t, i);
  }

  lemma {:induction false} RouteWired(t: Topology, i: nat)
    requires Wirable(t) && i < |t.components| && IsRouted(t.components[i], t.commands)
    ensures Targets(t.commands) && AllCompile(Wiring(t))
    ensures Linked(Exec(Wiring(t)), Port(t.components[i].inst, RoutePort), Port(t.components[i].inst, CmdIn))
  {
    var cs, o := t.components, Port(t.components[i].inst, RoutePort);
    SoundDeclares(t);
    Sections(t);
    RouteLinked(cs, t.commands, |cs|, i);
    InWiring(t);
    assert GeneratedBy(cs[i], o);
    GeneratedLinked(t, o);
  }

  lemma {:induction false} InWiring(t: Topology)
    requires Targets(t.commands)
    ensures forall s :: s in RouteWires(t.components, t.commands, |t.components|) ==> s in Wiring(t)
    ensures forall s :: s in EventWires(t.components, |t.components|) ==> s in Wiring(t)
    ensures forall s :: s in CustomWires(t.custom, |t.custom|) ==> s in Wiring(t)
  {
  }

  lemma {:induction false} EventWired(t: Topology, i: nat)
    requires Wirable(t) && i < |t.components| && Staged(t.components[i].inst).Some?
    ensures Targets(t.commands) && AllCompile(Wiring(t))
    ensures Linked(Exec(Wiring(t)), Port(t.components[i].inst, Staged(t.components[i].inst).value),
                   Port(t.components[i].inst, Staging))
  {
    var cs, o := t.components, Port(t.components[i].inst, Staged(t.components[i].inst).value);
    SoundDeclares(t);
    Sections(t);
    EventLinked(cs, |cs|, i);
    InWiring(t);
    assert GeneratedBy(cs[i], o);
    GeneratedLinked(t, o);
  }

  lemma {:induction false} RadioWired(t: Topology)
    requires Wirable(t)
    ensures Targets(t.commands) && AllCompile(Wiring(t)) && Linked(Exec(Wiring(t)), RADIO_COMMANDS, HUB_COMMANDS)
  {
    SoundDeclares(t);
    Sections(t);
    RouteLinks(t.components, t.commands, |t.components|);
    InWiring(t);
    GeneratedLinked(t, RADIO_COMMANDS);
  }

  lemma {:induction false} TelemetryWired(t: Topology, i: nat)
    requires Wirable(t) && i < |t.components| && !IsSystem(t.components[i].inst)
    ensures Targets(t.commands) && AllCompile(Wiring(t))
    ensures Holds(Exec(Wiring(t)), InputConnected(Apps(t.components, i), Port(t.components[i].inst, TelemetryOut)))
  {
    var cs := t.components;
    SoundDeclares(t);
    StagingsCoverApps(cs, |cs|);
    InputTable(t);
    InputPortsDistinct(cs, |cs|);
    InputPortAt(cs, |cs|, i);
    TelemetryUntouched(t);
    InputLinked(Wiring(t), Apps(cs, i));
  }

  /** No connection of the wiring touches a telemetry source. */
  lemma {:induction false} TelemetryUntouched(t: Topology)
    requires Wirable(t)
    ensures Targets(t.commands)
    ensures forall s :: s in Wiring(t) && s.Connect? ==> s.src !in InputPorts(t.components, |t.components|)
  {
    var cs := t.components;
    WiringLinks(t);
    InputPortsFromApps(cs, |cs|);
    forall s | s in Wiring(t) && s.Connect?
      ensures s.src !in InputPorts(cs, |cs|)
    {
      if s.src in InputPorts(cs, |cs|) {
        assert InputOfSome(cs, |cs|, s.src);
        var i :| 0 <= i < |cs| && !IsSystem(cs[i].inst) && cs[i].inst == s.src.inst;
        assert GeneratedBy(cs[i], s.src);
        assert false;
      }
    }
  }

  // ---------------------------------------------------------------- the emitted checks

  /** A check on the links that the components bring about. */
  ghost predicate OfComponent(cs: seq<Component>, cmds: seq<Command>, c: Check) {
    exists i :: 0 <= i < |cs| && CheckedFor(cs, cmds, i, c)
  }

  predicate CheckedFor(cs: seq<Component>, cmds: seq<Command>, i: nat, c: Check)
    requires i < |cs|
  {
    || (!IsSystem(cs[i].inst) && c == InputConnected(Apps(cs, i), Port(cs[i].inst, TelemetryOut)))
    || (IsRouted(cs[i], cmds) && c == IsConnectedTo(Port(cs[i].inst, RoutePort), Port(cs[i].inst, CmdIn)))
    || (Staged(cs[i].inst).Some?
        && c == IsConnectedTo(Port(cs[i].inst, Staged(cs[i].inst).value), Port(cs[i].inst, Staging)))
  }

  lemma {:induction false} TelemChecksOfComponents(cs: seq<Component>, cmds: seq<Command>, n: nat)
    requires n <= |cs|
    ensures forall c :: c in TelemChecks(cs, n) ==> OfComponent(cs, cmds, c)
  {
    if n > 0 {
      TelemChecksOfComponents(cs, cmds, n - 1);
      assert !IsSystem(cs[n - 1].inst) ==>
        CheckedFor(cs, cmds, n - 1, InputConnected(Apps(cs, n - 1), Port(cs[n - 1].inst, TelemetryOut)));
    }
  }

  lemma {:induction false} RouteChecksOfComponents(cs: seq<Component>, cmds: seq<Command>, n: nat)
    requires n <= |cs|
    ensures forall c :: c in RouteChecks(cs, cmds, n) ==> OfComponent(cs, cmds, c)
  {
    if n > 0 {
      RouteChecksOfComponents(cs, cmds, n - 1);
      assert IsRouted(cs[n - 1], cmds) ==>
        CheckedFor(cs, cmds, n - 1, IsConnectedTo(Port(cs[n - 1].inst, RoutePort), Port(cs[n - 1].inst, CmdIn)));
    }
  }

  lemma {:induction false} EventChecksOfComponents(cs: seq<Component>, cmds: seq<Command>, n: nat)
    requires n <= |cs|
    ensures forall c :: c in EventChecks(cs, n) ==> OfComponent(cs, cmds, c)
  {
    if n > 0 {
      EventChecksOfComponents(cs, cmds, n - 1);
      var m := Staged(cs[n - 1].inst);
      assert m.Some? ==>
        CheckedFor(cs, cmds, n - 1, IsConnectedTo(Port(cs[n - 1].inst, m.value), Port(cs[n - 1].inst, Staging)));
    }
  }

  lemma {:induction false} ComponentCheckHolds(t: Topology, c: Check)
    requires Wirable(t) && OfComponent(t.components, t.commands, c)
    ensures Targets(t.commands) && AllCompile(Wiring(t)) && Holds(Exec(Wiring(t)), c)
  {
    var cs := t.components;
    var i :| 0 <= i < |cs| && CheckedFor(cs, t.commands, i, c);
    if !IsSystem(cs[i].inst) && c == InputConnected(Apps(cs, i), Port(cs[i].inst, TelemetryOut)) {
      TelemetryWired(t, i);
    } else if IsRouted(cs[i], t.commands) && c == IsConnectedTo(Port(cs[i].inst, RoutePort), Port(cs[i].inst, CmdIn)) {
      RouteWired(t, i);
    } else {
      EventWired(t, i);
    }
  }

  /** A check that is not about one component. */
  ghost predicate OfSystem(t: Topology, c: Check) {
    || c == IsConnectedTo(RADIO_COMMANDS, HUB_COMMANDS)
    || c == InputsAtLeast(Apps(t.components, |t.components|))
    || c == TelemListenersAtLeast(2 + TelemLines(t.custom, |t.custom|))
    || c == RoutesAtLeast(Routed(t.components, t.commands, |t.components|))
    || (c == HasMissionSource && ChecksMissionSource(t))
    || (c == HasThresholdSources && ChecksThresholds(t))
    || c == EventSourcesAtLeast(Stagings(t.components, |t.components|))
    || c == EventListenersAtLeast(2 + EventLines(t.custom, |t.custom|))
  }

  predicate Bounded(net: Net) {
    && |net.telemListeners| <= Hubs.MAX_LISTENERS && |net.eventListeners| <= Hubs.MAX_LISTENERS
    && |net.eventSources| <= Hubs.MAX_INPUTS && |net.routes| <= Hub.MAX_COMMAND_ROUTES
  }

  lemma {:induction false} DoBounded(net: Net, s: Stmt)
    requires Bounded(net) && Compiles(s)
    ensures Bounded(Do(net, s))
  {
  }

  /** No table of the machine grows past its capacity. */
  lemma {:induction false} TablesBounded(ss: seq<Stmt>)
    requires AllCompile(ss)
    ensures Bounded(Exec(ss))
  {
    if ss != [] {
      TablesBounded(ss[..|ss| - 1]);
      DoBounded(Exec(ss[..|ss| - 1]), ss[|ss| - 1]);
    }
  }

  /** The counting checks on the tables. */
  ghost predicate CountsHold(t: Topology, net: Net) {
    && Holds(net, TelemListenersAtLeast(2 + TelemLines(t.custom, |t.custom|)))
    && Holds(net, EventListenersAtLeast(2 + EventLines(t.custom, |t.custom|)))
    && Holds(net, RoutesAtLeast(Routed(t.components, t.commands, |t.components|)))
    && Holds(net, EventSourcesAtLeast(Stagings(t.components, |t.components|)))
  }

  lemma {:induction false} ListenerCounts(t: Topology)
    requires Sound(t) && ListenersFit(t)
    ensures Targets(t.commands) && AllCompile(Wiring(t))
    ensures Holds(Exec(Wiring(t)), TelemListenersAtLeast(2 + TelemLines(t.custom, |t.custom|)))
    ensures Holds(Exec(Wiring(t)), EventListenersAtLeast(2 + EventLines(t.custom, |t.custom|)))
  {
    SoundDeclares(t);
    ListenerTables(t);
  }

  lemma {:induction false} PortCounts(t: Topology)
    requires Sound(t) && PortsFit(t)
    ensures Targets(t.commands) && AllCompile(Wiring(t))
    ensures Holds(Exec(Wiring(t)), InputsAtLeast(Apps(t.components, |t.components|)))
    ensures Holds(Exec(Wiring(t)), RoutesAtLeast(Routed(t.components, t.commands, |t.components|)))
    ensures Holds(Exec(Wiring(t)), EventSourcesAtLeast(Stagings(t.components, |t.components|)))
  {
    SoundDeclares(t);
    StagingsCoverApps(t.components, |t.components|);
    InputTable(t);
    RoutesInstalled(t);
    EventSourceTable(t);
  }

  /** They hold if and only if the tables are large enough. */
  lemma {:induction false} CountsHoldIff(t: Topology)
    requires Sound(t)
    ensures Targets(t.commands) && AllCompile(Wiring(t))
    ensures CountsHold(t, Exec(Wiring(t))) <==> PortsFit(t) && ListenersFit(t)
  {
    SoundDeclares(t);
    Sections(t);
    TablesBounded(Wiring(t));
    if PortsFit(t) && ListenersFit(t) {
      ListenerCounts(t);
      PortCounts(t);
    }
  }

  /** The checks for the two sources hold if and only if custom lines set them. */
  lemma {:induction false} SourcesHoldIff(t: Topology)
    requires Sound(t)
    ensures Targets(t.commands) && AllCompile(Wiring(t))
    ensures Exec(Wiring(t)).missionSource <==> SetMissionStateSource in t.custom
    ensures Exec(Wiring(t)).thresholdSources <==> SetBatteryThresholdSources in t.custom
  {
    SoundDeclares(t);
    Sections(t);
    ExecFlags(Wiring(t));
    var cs := t.components;
    InSections(
      TelemWires(cs, |cs|), PolicyWires(t.commands, |t.commands|), RouteWires(cs, t.commands, |cs|),
      EventWires(cs, |cs|), CustomWires(t.custom, |t.custom|));
    CustomWireFrom(t.custom, |t.custom|);
    if SetMissionStateSource in t.custom {
      CustomLineRuns(t, SetMissionStateSource);
    }
    if SetBatteryThresholdSources in t.custom {
      CustomLineRuns(t, SetBatteryThresholdSources);
    }
  }

  lemma {:induction false} CustomWireFrom(lines: seq<CustomLine>, n: nat)
    requires n <= |lines|
    ensures MissionSource in CustomWires(lines, n) ==> SetMissionStateSource in lines
    ensures ThresholdSources in CustomWires(lines, n) ==> SetBatteryThresholdSources in lines
  {
    if n > 0 {
      CustomWireFrom(lines, n - 1);
    }
  }

  lemma {:induction false} CustomLineRuns(t: Topology, line: CustomLine)
    requires Targets(t.commands) && line in t.custom
    ensures CustomWire(line) in Wiring(t)
  {
    var k :| 0 <= k < |t.custom| && t.custom[k] == line;
    CustomWireAt(t.custom, |t.custom|, k);
    InWiring(t);
  }

  lemma {:induction false} CustomWireAt(lines: seq<CustomLine>, n: nat, k: nat)
    requires k < n <= |lines|
    ensures CustomWire(lines[k]) in CustomWires(lines, n)
    decreases n
  {
    if k < n - 1 {
      CustomWireAt(lines, n - 1, k);
    }
  }

  /** Where the last of the first `n` custom lines that connects output `o` sends it. */
  function LastWire(lines: seq<CustomLine>, n: nat, o: Port): Option<Port>
    requires n <= |lines|
  {
    if n == 0 then None
    else if lines[n - 1].Wire? && lines[n - 1].src == o then Some(lines[n - 1].dst)
    else LastWire(lines, n - 1, o)
  }

  /** The custom lines leave output `o` alone, or send it to `d` as well in the end. */
  predicate Agrees(lines: seq<CustomLine>, o: Port, d: Port) {
    LastWire(lines, |lines|, o) == None || LastWire(lines, |lines|, o) == Some(d)
  }

  /** What the custom lines, run after `pre`, do to inputs and links. */
  lemma {:induction false} CustomTail(pre: seq<Stmt>, lines: seq<CustomLine>, n: nat, o: Port, d: Port)
    requires AllCompile(pre) && n <= |lines| && Linked(Exec(pre), o, d)
    ensures AllCompile(pre + CustomWires(lines, n))
    ensures Exec(pre + CustomWires(lines, n)).inputs == Exec(pre).inputs
    ensures var x := LastWire(lines, n, o);
      Linked(Exec(pre + CustomWires(lines, n)), o, if x.Some? then x.value else d)
  {
    if n == 0 {
      assert pre + CustomWires(lines, 0) == pre;
    } else {
      var ss, s := pre + CustomWires(lines, n - 1), CustomWire(lines[n - 1]);
      CustomTail(pre, lines, n - 1, o, d);
      assert pre + CustomWires(lines, n) == ss + [s] && (ss + [s])[..|ss|] == ss;
      CustomNext(Exec(ss), lines[n - 1], o);
    }
  }

  lemma {:induction false} CustomNext(net: Net, line: CustomLine, o: Port)
    requires o in net.links
    ensures Compiles(CustomWire(line))
    ensures var net' := Do(net, CustomWire(line));
      && net'.inputs == net.inputs && o in net'.links
      && net'.links[o] == if line.Wire? && line.src == o then line.dst else net.links[o]
  {
  }

  /** The output that a check on a link is about, and where it should lead. */
  predicate IsLink(c: Check) {
    c.IsConnectedTo? || c.InputConnected?
  }

  function LinkEnd(c: Check): Port
    requires IsLink(c)
  {
    if c.IsConnectedTo? then c.dst else Port("telem_hub", HubInput(c.index))
  }

  /** Without the custom lines every link that is checked is made. */
  lemma {:induction false} LinkCheckHolds(t: Topology, c: Check)
    requires Sound(t) && PortsFit(t) && IsLink(c)
    requires OfComponent(t.components, t.commands, c) || c == IsConnectedTo(RADIO_COMMANDS, HUB_COMMANDS)
    ensures var bare := t.(custom := []);
      Targets(bare.commands) && AllCompile(Wiring(bare)) && Holds(Exec(Wiring(bare)), c)
  {
    var bare := t.(custom := []);
    assert Wirable(bare);
    if c == IsConnectedTo(RADIO_COMMANDS, HUB_COMMANDS) {
      RadioWired(bare);
    } else {
      ComponentCheckHolds(bare, c);
    }
  }

  lemma {:induction false} BareFirst(t: Topology)
    requires Targets(t.commands)
    ensures Wiring(t.(custom := [])) + CustomWires(t.custom, |t.custom|) == Wiring(t)
  {
    assert CustomWires([], 0) == [];
  }

  /** With them it is there if and only if their last word on that output agrees. */
  lemma {:induction false} LinkCheckIff(t: Topology, c: Check)
    requires Sound(t) && PortsFit(t) && IsLink(c)
    requires OfComponent(t.components, t.commands, c) || c == IsConnectedTo(RADIO_COMMANDS, HUB_COMMANDS)
    ensures Targets(t.commands) && AllCompile(Wiring(t))
    ensures Holds(Exec(Wiring(t)), c) <==> Agrees(t.custom, c.src, LinkEnd(c))
  {
    LinkCheckHolds(t, c);
    var pre := Wiring(t.(custom := []));
    BareFirst(t);
    assert Linked(Exec(pre), c.src, LinkEnd(c));
    CustomTail(pre, t.custom, |t.custom|, c.src, LinkEnd(c));
    assert Holds(Exec(Wiring(t)), c) <==> Linked(Exec(Wiring(t)), c.src, LinkEnd(c));
  }

  /** The custom lines agree with every link that is checked. */
  ghost predicate LinksAgree(t: Topology) {
    forall c :: c in Checks(t) && IsLink(c) ==> Agrees(t.custom, c.src, LinkEnd(c))
  }

  lemma {:induction false} ChecksAre(t: Topology, c: Check)
    requires c in Checks(t)
    ensures OfSystem(t, c) || OfComponent(t.components, t.commands, c)
  {
    var cs := t.components;
    TelemChecksOfComponents(cs, t.commands, |cs|);
    RouteChecksOfComponents(cs, t.commands, |cs|);
    EventChecksOfComponents(cs, t.commands, |cs|);
  }

  /** The checks that every program has. */
  lemma {:induction false} ChecksHave(t: Topology)
    ensures TelemListenersAtLeast(2 + TelemLines(t.custom, |t.custom|)) in Checks(t)
    ensures EventListenersAtLeast(2 + EventLines(t.custom, |t.custom|)) in Checks(t)
    ensures RoutesAtLeast(Routed(t.components, t.commands, |t.components|)) in Checks(t)
    ensures EventSourcesAtLeast(Stagings(t.components, |t.components|)) in Checks(t)
    ensures ChecksMissionSource(t) ==> HasMissionSource in Checks(t)
    ensures ChecksThresholds(t) ==> HasThresholdSources in Checks(t)
  {
    var cs := t.components;
    var first := [IsConnectedTo(RADIO_COMMANDS, HUB_COMMANDS), InputsAtLeast(Apps(cs, |cs|)),
                  TelemListenersAtLeast(2 + TelemLines(t.custom, |t.custom|)),
                  RoutesAtLeast(Routed(cs, t.commands, |cs|))];
    var last := [EventSourcesAtLeast(Stagings(cs, |cs|)), EventListenersAtLeast(2 + EventLines(t.custom, |t.custom|))];
    assert first[2] in first && first[3] in first && last[0] in last && last[1] in last;
  }

  lemma {:induction false} SystemCheckHolds(t: Topology, c: Check)
    requires Sound(t) && PortsFit(t) && ListenersFit(t) && SourcesGiven(t) && OfSystem(t, c) && !IsLink(c)
    ensures Targets(t.commands) && AllCompile(Wiring(t)) && Holds(Exec(Wiring(t)), c)
  {
    ListenerCounts(t);
    PortCounts(t);
    SourcesHoldIff(t);
  }

  lemma {:induction false} CheckHolds(t: Topology, c: Check)
    requires Sound(t) && PortsFit(t) && ListenersFit(t) && SourcesGiven(t) && LinksAgree(t) && c in Checks(t)
    ensures Targets(t.commands) && AllCompile(Wiring(t)) && Holds(Exec(Wiring(t)), c)
  {
    ChecksAre(t, c);
    if IsLink(c) {
      LinkCheckIff(t, c);
    } else {
      SystemCheckHolds(t, c);
    }
  }

  /** What the generated `verify` returns. */
  ghost predicate Passes(net: Net, checks: seq<Check>) {
    forall c :: c in checks ==> Holds(net, c)
  }

  lemma {:induction false} PassesOne(net: Net, checks: seq<Check>, c: Check)
    requires Passes(net, checks) && c in checks
    ensures Holds(net, c)
  {
  }

  lemma {:induction false} CountsNeeded(t: Topology, net: Net, checks: seq<Check>)
    requires Passes(net, checks)
    requires TelemListenersAtLeast(2 + TelemLines(t.custom, |t.custom|)) in checks
    requires EventListenersAtLeast(2 + EventLines(t.custom, |t.custom|)) in checks
    requires RoutesAtLeast(Routed(t.components, t.commands, |t.components|)) in checks
    requires EventSourcesAtLeast(Stagings(t.components, |t.components|)) in checks
    ensures CountsHold(t, net)
  {
  }

  lemma {:induction false} SourcesNeeded(t: Topology)
    requires Sound(t) && Targets(t.commands) && AllCompile(Wiring(t)) && Passes(Exec(Wiring(t)), Checks(t))
    ensures SourcesGiven(t)
  {
    ChecksHave(t);
    SourcesHoldIff(t);
    if ChecksMissionSource(t) {
      PassesOne(Exec(Wiring(t)), Checks(t), HasMissionSource);
    }
    if ChecksThresholds(t) {
      PassesOne(Exec(Wiring(t)), Checks(t), HasThresholdSources);
    }
  }

  lemma {:induction false} LinksNeeded(t: Topology)
    requires Sound(t) && PortsFit(t) && Targets(t.commands) && AllCompile(Wiring(t))
    requires Passes(Exec(Wiring(t)), Checks(t))
    ensures LinksAgree(t)
  {
    forall c | c in Checks(t) && IsLink(c)
      ensures Agrees(t.custom, c.src, LinkEnd(c))
    {
      PassesOne(Exec(Wiring(t)), Checks(t), c);
      LinkNeeded(t, c);
    }
  }

  lemma {:induction false} LinkNeeded(t: Topology, c: Check)
    requires Sound(t) && PortsFit(t) && Targets(t.commands) && AllCompile(Wiring(t))
    requires c in Checks(t) && IsLink(c) && Holds(Exec(Wiring(t)), c)
    ensures Agrees(t.custom, c.src, LinkEnd(c))
  {
    ChecksAre(t, c);
    LinkCheckIff(t, c);
  }

  /**
   When the generated `verify` returns true at start-up, exactly: the tables are large enough, the
   custom lines set the sources that are checked for, and the last word of the custom lines on
   every output that is checked agrees with the generated connection.
   */
  lemma {:induction false} VerifyHoldsIff(t: Topology)
    requires Sound(t)
    ensures Targets(t.commands) && AllCompile(Rendered(t).wire)
    ensures Passes(Exec(Rendered(t).wire), Rendered(t).checks)
      <==> PortsFit(t) && ListenersFit(t) && SourcesGiven(t) && LinksAgree(t)
  {
    SoundDeclares(t);
    Sections(t);
    if Passes(Exec(Wiring(t)), Checks(t)) {
      ChecksHave(t);
      CountsNeeded(t, Exec(Wiring(t)), Checks(t));
      CountsHoldIff(t);
      SourcesNeeded(t);
      LinksNeeded(t);
    } else if PortsFit(t) && ListenersFit(t) && SourcesGiven(t) && LinksAgree(t) {
      forall c | c in Checks(t)
        ensures Holds(Exec(Wiring(t)), c)
      {
        CheckHolds(t, c);
      }
    }
  }

  /** What can be deployed passes its own checks. */
  lemma {:induction false} VerifyHolds(t: Topology)
    requires Deployable(t)
    ensures Targets(t.commands) && AllCompile(Rendered(t).wire)
    ensures Passes(Exec(Rendered(t).wire), Rendered(t).checks)
  {
    forall c | c in Checks(t) && IsLink(c)
      ensures Agrees(t.custom, c.src, LinkEnd(c))
    {
      ChecksAre(t, c);
      assert Generated(t, c.src) by {
        if c != IsConnectedTo(RADIO_COMMANDS, HUB_COMMANDS) {
          var i :| 0 <= i < |t.components| && CheckedFor(t.components, t.commands, i, c);
          assert GeneratedBy(t.components[i], c.src);
        }
      }
      NoWire(t, |t.custom|, c.src);
    }
    VerifyHoldsIff(t);
  }

  lemma {:induction false} NoWire(t: Topology, n: nat, o: Port)
    requires KeepsOut(t) && Generated(t, o) && n <= |t.custom|
    ensures LastWire(t.custom, n, o) == None
  {
    if n > 0 {
      NoWire(t, n - 1, o);
    }
  }

  // ---------------------------------------------------------------- the ground dictionary

  lemma {:induction false} DictionaryEntry(cmds: seq<Command>, n: nat, j: nat)
    requires j < n <= |cmds| && Targets(cmds) && DistinctNames(cmds)
    ensures cmds[j].name in DictCommands(cmds, n) && DictCommands(cmds, n)[cmds[j].name] == EntryOf(cmds[j])
    decreases n
  {
    if j < n - 1 {
      DictionaryEntry(cmds, n - 1, j);
    }
  }

  /**
   Ground and flight agree: under every command's name the dictionary has its target and opcode,
   and the class it shows is the one that the hub enforces.
   */
  lemma {:induction false} DictionaryAgrees(t: Topology, j: nat)
    requires Deployable(t) && DistinctNames(t.commands) && j < |t.commands|
    ensures Targets(t.commands) && AllCompile(Wiring(t))
    ensures var d := DictCommands(t.commands, |t.commands|);
      && t.commands[j].name in d
      && Some(d[t.commands[j].name].target) == t.commands[j].target
        && d[t.commands[j].name].opcode == t.commands[j].opcode
      && d[t.commands[j].name].target < TWO32 && d[t.commands[j].name].opcode < TWO32
      && d[t.commands[j].name].opClass.Some?
      && Hub.Lookup(Exec(Wiring(t)).policies, d[t.commands[j].name].target, d[t.commands[j].name].opcode)
         == ParseClass(d[t.commands[j].name].opClass.value)
  {
    CommandsClassified(t, j);
    DictionaryEntry(t.commands, |t.commands|, j);
    PolicyWireCompiles(t.commands, j);
  }

  // ---------------------------------------------------------------- the class without a value

  /**
   A class that is null or empty passes validation, and the registration emitted for it names a
   class that does not exist. Exactly: of an accepted topology whose numbers fit, the emitted
   registrations name classes that exist if and only if every class is absent or a non-empty
   text. This is about the registrations alone; that members are declared, and once each, is a
   different matter (`RepeatedInstanceAccepted`).
   */
  lemma {:induction false} RegistrationsCompileIff(t: Topology)
    requires Accepted(t) && NumbersFit(t)
    ensures Targets(t.commands)
    ensures AllCompile(Wiring(t)) <==> ClassesGiven(t.commands)
  {
    forall j | 0 <= j < |t.commands|
      ensures t.commands[j].target.Some? && t.commands[j].target.value < TWO32
    {
      assert Known(t.components, |t.components|, t.commands[j].target);
    }
    if ClassesGiven(t.commands) {
      assert Declarable(t.commands) && Numbered(t.components);
      Sections(t);
    } else {
      var j :| 0 <= j < |t.commands| && !ClassGiven(t.commands[j]);
      PolicyWireAt(t.commands, |t.commands|, j);
      assert !Compiles(PolicyWire(t.commands[j]));
      assert PolicyWire(t.commands[j]) in Wiring(t);
    }
  }

  /** A command whose class has no value is accepted, and its registration does not compile. */
  lemma {:induction false} NullClassAccepted()
    ensures var t := Topology([Component(Some(40), "Sequencer", "Sequencer", "seq")],
                              [Command("PURGE", Some(40), 5, Null, "")], [], []);
      Accepted(t) && NumbersFit(t) && Targets(t.commands) && !AllCompile(Wiring(t))
  {
    var t := Topology([Component(Some(40), "Sequencer", "Sequencer", "seq")],
                      [Command("PURGE", Some(40), 5, Null, "")], [], []);
    assert t.components[0].id == Some(40);
    assert Known(t.components, 1, t.commands[0].target);
    RegistrationsCompileIff(t);
    assert !ClassGiven(t.commands[0]);
  }

  /** Two components of one instance name are accepted too, although they would be one member declared twice. */
  lemma {:induction false} RepeatedInstanceAccepted()
    ensures var t := Topology([Component(Some(40), "A", "A", "x"), Component(Some(41), "B", "B", "x")], [], [], []);
      Accepted(t) && NumbersFit(t) && ClassesGiven(t.commands) && !DistinctInstances(t.components)
  {
    var t := Topology([Component(Some(40), "A", "A", "x"), Component(Some(41), "B", "B", "x")], [], [], []);
    assert t.components[0].inst == t.components[1].inst;
  }

  lemma {:induction false} PolicyWireAt(cmds: seq<Command>, n: nat, j: nat)
    requires j < n <= |cmds| && Targets(cmds)
    ensures PolicyWire(cmds[j]) in PolicyWires(cmds, n)
    decreases n
  {
    if j < n - 1 {
      PolicyWireAt(cmds, n - 1, j);
    }
  }
}
