/**
 The autocoder's back end, `tools/autocoder.py`: a compiler from a topology to wiring
 statements, and what those statements mean when the flight software starts.

 The meaning of the emitted text is a machine: the tables of the command hub as module
 CommandHub fills them, the tables of the two other hubs, and the graph of connected ports.
 */
module Autocoder {
  import opened Wrappers
  import opened Words
  import opened MissionFsm
  import opened Topology
  import Bridge = TelemetryBridge
  import Hub = CommandHub
  import Hubs

  const SYSTEM_INSTS := {"watchdog", "telem_hub", "cmd_hub", "event_hub", "radio", "recorder"}
  const THRESHOLD_PARAMS := {"emergency_battery_pct", "safe_mode_battery_pct", "degraded_battery_pct"}

  // ---------------------------------------------------------------- the target language

  datatype Stmt =
    | Connect(src: Port, dst: Port)
    | ConnectInput(src: Port)
    | TelemListener(dst: Port)
    | EventListener(dst: Port)
    | EventSource(port: Port)
    | RegisterPolicy(target: nat, opcode: nat, opClass: string)
    | RegisterRoute(id: nat, port: Port)
    | MissionSource
    | ThresholdSources
    | Verbatim

  function ParseClass(s: string): Option<OpClass> {
    if s == "HOUSEKEEPING" then Some(HOUSEKEEPING)
    else if s == "OPERATIONAL" then Some(OPERATIONAL)
    else if s == "RESTRICTED" then Some(RESTRICTED)
    else None
  }

  /** The numbers are 32-bit literals and the class is an enumerator that exists. */
  predicate Compiles(s: Stmt) {
    && (s.RegisterPolicy? ==> s.target < TWO32 && s.opcode < TWO32 && ParseClass(s.opClass).Some?)
    && (s.RegisterRoute? ==> s.id < TWO32)
  }

  /** What the wiring builds. */
  datatype Net = Net(
    links: map<Port, Port>, inputs: seq<Port>, telemListeners: seq<Port>,
    eventListeners: seq<Port>, eventSources: seq<Port>,
    policies: seq<Hub.Policy>, routes: seq<Hub.Route<Port>>, missionSource: bool, thresholdSources: bool)

  const NOTHING := Net(map[], [], [], [], [], [], [], false, false)

  function Capped(xs: seq<Port>, room: nat, x: Port): seq<Port> {
    if |xs| < room then xs + [x] else xs
  }

  function PolicyOf(s: Stmt): Option<Hub.Policy> {
    if s.RegisterPolicy? && Compiles(s) then Some(Hub.Policy(s.target, s.opcode, ParseClass(s.opClass).value)) else None
  }

  function RouteOf(s: Stmt): Option<Hub.Route<Port>> {
    if s.RegisterRoute? && Compiles(s) then Some(Hub.Route(s.id, s.port)) else None
  }

  function Do(net: Net, s: Stmt): Net
    requires Compiles(s)
  {
    match s
    case Connect(src, dst) => net.(links := net.links[src := dst])
    case ConnectInput(src) =>
      if |net.inputs| >= Hubs.MAX_INPUTS then net
      else net.(links := net.links[src := Port("telem_hub", HubInput(|net.inputs|))], inputs := net.inputs + [src])
    case TelemListener(dst) => net.(telemListeners := Capped(net.telemListeners, Hubs.MAX_LISTENERS, dst))
    case EventListener(dst) => net.(eventListeners := Capped(net.eventListeners, Hubs.MAX_LISTENERS, dst))
    case EventSource(port) => net.(eventSources := Capped(net.eventSources, Hubs.MAX_INPUTS, port))
    case RegisterPolicy(_, _, _) => net.(policies := Hub.WithPolicy(net.policies, PolicyOf(s).value).0)
    case RegisterRoute(id, port) => net.(routes := Hub.WithRoute(net.routes, id, Some(port)).0)
    case MissionSource => net.(missionSource := true)
    case ThresholdSources => net.(thresholdSources := true)
    case Verbatim => net
  }

  predicate AllCompile(ss: seq<Stmt>) {
    forall k :: 0 <= k < |ss| ==> Compiles(ss[k])
  }

  function Exec(ss: seq<Stmt>): Net
    requires AllCompile(ss)
  {
    if ss == [] then NOTHING else Do(Exec(ss[..|ss| - 1]), ss[|ss| - 1])
  }

  /** The checks of the generated `verify`. */
  datatype Check =
    | IsConnectedTo(src: Port, dst: Port)
    | InputConnected(index: nat, src: Port)
    | InputsAtLeast(n: nat)
    | TelemListenersAtLeast(n: nat)
    | RoutesAtLeast(n: nat)
    | EventSourcesAtLeast(n: nat)
    | EventListenersAtLeast(n: nat)
    | HasMissionSource
    | HasThresholdSources

  predicate Linked(net: Net, src: Port, dst: Port) {
    src in net.links && net.links[src] == dst
  }

  predicate Holds(net: Net, c: Check) {
    match c
    case IsConnectedTo(src, dst) => Linked(net, src, dst)
    case InputConnected(i, src) => i < |net.inputs| && Linked(net, src, Port("telem_hub", HubInput(i)))
    case InputsAtLeast(n) => |net.inputs| >= n
    case TelemListenersAtLeast(n) => |net.telemListeners| >= n
    case RoutesAtLeast(n) => |net.routes| >= n
    case EventSourcesAtLeast(n) => |net.eventSources| >= n
    case EventListenersAtLeast(n) => |net.eventListeners| >= n
    case HasMissionSource => net.missionSource
    case HasThresholdSources => net.thresholdSources
  }

  datatype Program = Program(wire: seq<Stmt>, checks: seq<Check>)

  // ---------------------------------------------------------------- the compiler

  predicate IsSystem(inst: string) {
    inst in SYSTEM_INSTS
  }

  const RADIO_COMMANDS := Port("radio", CommandOut)
  const HUB_COMMANDS := Port("cmd_hub", CmdInput)

  predicate Targeted(cmds: seq<Command>, id: Option<nat>) {
    exists j :: 0 <= j < |cmds| && cmds[j].target == id
  }

  predicate IsRouted(c: Component, cmds: seq<Command>) {
    !IsSystem(c.inst) && Targeted(cmds, c.id)
  }

  /** The output whose events a component stages for the event hub, if it has one. */
  function Staged(inst: string): Option<Member> {
    if inst == "cmd_hub" then Some(AckOut)
    else if inst == "watchdog" || !IsSystem(inst) then Some(EventOut)
    else None
  }

  /** What one component contributes to each of the lists. */
  function TelemWire(c: Component): seq<Stmt> {
    if IsSystem(c.inst) then [] else [ConnectInput(Port(c.inst, TelemetryOut))]
  }

  function RouteWire(c: Component, cmds: seq<Command>): seq<Stmt> {
    if !IsRouted(c, cmds) || c.id.None? then []
    else [Connect(Port(c.inst, RoutePort), Port(c.inst, CmdIn)), RegisterRoute(c.id.value, Port(c.inst, RoutePort))]
  }

  function EventWire(c: Component): seq<Stmt> {
    var m := Staged(c.inst);
    if m.None? then []
    else [Connect(Port(c.inst, m.value), Port(c.inst, Staging)), EventSource(Port(c.inst, Staging))]
  }

  function TelemWires(cs: seq<Component>, n: nat): seq<Stmt>
    requires n <= |cs|
  {
    if n == 0 then [TelemListener(Port("radio", TelemIn)), TelemListener(Port("recorder", TelemetryIn))]
    else TelemWires(cs, n - 1) + TelemWire(cs[n - 1])
  }

  function RouteWires(cs: seq<Component>, cmds: seq<Command>, n: nat): seq<Stmt>
    requires n <= |cs|
  {
    if n == 0 then [Connect(RADIO_COMMANDS, HUB_COMMANDS)]
    else RouteWires(cs, cmds, n - 1) + RouteWire(cs[n - 1], cmds)
  }

  function EventWires(cs: seq<Component>, n: nat): seq<Stmt>
    requires n <= |cs|
  {
    if n == 0 then [EventListener(Port("radio", EventIn)), EventListener(Port("recorder", EventIn))]
    else EventWires(cs, n - 1) + EventWire(cs[n - 1])
  }

  /** The class in upper case: an absent one is OPERATIONAL, an accepted text is in upper case already. */
  function ClassText(cmd: Command): string {
    match cmd.opClass
    case Absent => "OPERATIONAL"
    case Null => "NONE"
    case Text(text) => text
  }

  function PolicyWire(cmd: Command): Stmt
    requires cmd.target.Some?
  {
    RegisterPolicy(cmd.target.value, cmd.opcode, ClassText(cmd))
  }

  ghost predicate Targets(cmds: seq<Command>) {
    forall j :: 0 <= j < |cmds| ==> cmds[j].target.Some?
  }

  function PolicyWires(cmds: seq<Command>, n: nat): seq<Stmt>
    requires n <= |cmds| && Targets(cmds)
  {
    if n == 0 then [] else PolicyWires(cmds, n - 1) + [PolicyWire(cmds[n - 1])]
  }

  function CustomWire(line: CustomLine): Stmt {
    match line
    case SetMissionStateSource => MissionSource
    case SetBatteryThresholdSources => ThresholdSources
    case AddTelemListener(dst) => TelemListener(dst)
    case AddEventListener(dst) => EventListener(dst)
    case Wire(src, dst) => Connect(src, dst)
    case OtherLine => Verbatim
  }

  function CustomWires(lines: seq<CustomLine>, n: nat): seq<Stmt>
    requires n <= |lines|
  {
    if n == 0 then [] else CustomWires(lines, n - 1) + [CustomWire(lines[n - 1])]
  }

  /** Telemetry, commands, events, and then the custom lines. */
  function Wiring(t: Topology): seq<Stmt>
    requires Targets(t.commands)
  {
    var cs := t.components;
    TelemWires(cs, |cs|) + PolicyWires(t.commands, |t.commands|) + RouteWires(cs, t.commands, |cs|)
    + EventWires(cs, |cs|) + CustomWires(t.custom, |t.custom|)
  }

  function Apps(cs: seq<Component>, n: nat): nat
    requires n <= |cs|
  {
    if n == 0 then 0 else Apps(cs, n - 1) + if IsSystem(cs[n - 1].inst) then 0 else 1
  }

  function Routed(cs: seq<Component>, cmds: seq<Command>, n: nat): nat
    requires n <= |cs|
  {
    if n == 0 then 0 else Routed(cs, cmds, n - 1) + if IsRouted(cs[n - 1], cmds) then 1 else 0
  }

  function Stagings(cs: seq<Component>, n: nat): nat
    requires n <= |cs|
  {
    if n == 0 then 0 else Stagings(cs, n - 1) + if Staged(cs[n - 1].inst).Some? then 1 else 0
  }

  function TelemLines(lines: seq<CustomLine>, n: nat): nat
    requires n <= |lines|
  {
    if n == 0 then 0 else TelemLines(lines, n - 1) + if lines[n - 1].AddTelemListener? then 1 else 0
  }

  function EventLines(lines: seq<CustomLine>, n: nat): nat
    requires n <= |lines|
  {
    if n == 0 then 0 else EventLines(lines, n - 1) + if lines[n - 1].AddEventListener? then 1 else 0
  }

  function TelemChecks(cs: seq<Component>, n: nat): seq<Check>
    requires n <= |cs|
  {
    if n == 0 then []
    else
      TelemChecks(cs, n - 1)
      + if IsSystem(cs[n - 1].inst) then [] else [InputConnected(Apps(cs, n - 1), Port(cs[n - 1].inst, TelemetryOut))]
  }

  function RouteChecks(cs: seq<Component>, cmds: seq<Command>, n: nat): seq<Check>
    requires n <= |cs|
  {
    if n == 0 then []
    else
      RouteChecks(cs, cmds, n - 1)
      + if IsRouted(cs[n - 1], cmds)
        then [IsConnectedTo(Port(cs[n - 1].inst, RoutePort), Port(cs[n - 1].inst, CmdIn))] else []
  }

  function EventChecks(cs: seq<Component>, n: nat): seq<Check>
    requires n <= |cs|
  {
    if n == 0 then []
    else
      var m := Staged(cs[n - 1].inst);
      EventChecks(cs, n - 1)
      + if m.Some? then [IsConnectedTo(Port(cs[n - 1].inst, m.value), Port(cs[n - 1].inst, Staging))] else []
  }

  predicate HasInst(cs: seq<Component>, inst: string) {
    exists i :: 0 <= i < |cs| && cs[i].inst == inst
  }

  predicate HasTmr(ps: seq<Param>, name: string) {
    exists i :: 0 <= i < |ps| && ps[i].name == name && ps[i].tmr
  }

  predicate ChecksMissionSource(t: Topology) {
    HasInst(t.components, "cmd_hub") && HasInst(t.components, "watchdog")
  }

  predicate ChecksThresholds(t: Topology) {
    HasInst(t.components, "watchdog") && forall name :: name in THRESHOLD_PARAMS ==> HasTmr(t.params, name)
  }

  function Checks(t: Topology): seq<Check> {
    var cs := t.components;
    [IsConnectedTo(RADIO_COMMANDS, HUB_COMMANDS), InputsAtLeast(Apps(cs, |cs|)),
     TelemListenersAtLeast(2 + TelemLines(t.custom, |t.custom|)), RoutesAtLeast(Routed(cs, t.commands, |cs|))]
    + (if ChecksMissionSource(t) then [HasMissionSource] else [])
    + (if ChecksThresholds(t) then [HasThresholdSources] else [])
    + TelemChecks(cs, |cs|) + RouteChecks(cs, t.commands, |cs|) + EventChecks(cs, |cs|)
    + [EventSourcesAtLeast(Stagings(cs, |cs|)), EventListenersAtLeast(2 + EventLines(t.custom, |t.custom|))]
  }

  function Rendered(t: Topology): Program
    requires Targets(t.commands)
  {
    Program(Wiring(t), Checks(t))
  }

  /** What the pass over the components fills: lists and counters. */
  datatype Lists = Lists(
    telem: seq<Stmt>, routes: seq<Stmt>, events: seq<Stmt>,
    telemChecks: seq<Check>, routeChecks: seq<Check>, eventChecks: seq<Check>,
    inputCount: nat, routeCount: nat, stagingCount: nat)

  function ListsOf(cs: seq<Component>, cmds: seq<Command>, n: nat): Lists
    requires n <= |cs|
  {
    Lists(TelemWires(cs, n), RouteWires(cs, cmds, n), EventWires(cs, n),
          TelemChecks(cs, n), RouteChecks(cs, cmds, n), EventChecks(cs, n),
          Apps(cs, n), Routed(cs, cmds, n), Stagings(cs, n))
  }

  method RenderComponents(cs: seq<Component>, cmds: seq<Command>) returns (l: Lists)
    requires forall i :: 0 <= i < |cs| ==> cs[i].id.Some?
    ensures l == ListsOf(cs, cmds, |cs|)
  {
    var routes := [Connect(RADIO_COMMANDS, HUB_COMMANDS)];
    var telem := [TelemListener(Port("radio", TelemIn)), TelemListener(Port("recorder", TelemetryIn))];
    var events := [EventListener(Port("radio", EventIn)), EventListener(Port("recorder", EventIn))];
    var telemChecks: seq<Check>, routeChecks: seq<Check>, eventChecks: seq<Check> := [], [], [];
    var inputCount, routeCount, stagingCount := 0, 0, 0;
    for i := 0 to |cs|
      invariant Lists(telem, routes, events, telemChecks, routeChecks, eventChecks, inputCount, routeCount,
        stagingCount)
             == ListsOf(cs, cmds, i)
    {
      var c := cs[i];
      if !IsSystem(c.inst) {
        telem := telem + [ConnectInput(Port(c.inst, TelemetryOut))];
        telemChecks := telemChecks + [InputConnected(inputCount, Port(c.inst, TelemetryOut))];
        inputCount := inputCount + 1;
        if Targeted(cmds, c.id) {
          routes := routes + [Connect(Port(c.inst, RoutePort), Port(c.inst, CmdIn)),
                              RegisterRoute(c.id.value, Port(c.inst, RoutePort))];
          routeChecks := routeChecks + [IsConnectedTo(Port(c.inst, RoutePort), Port(c.inst, CmdIn))];
          routeCount := routeCount + 1;
        }
      }
      var m := Staged(c.inst);
      if m.Some? {
        events := events + [Connect(Port(c.inst, m.value), Port(c.inst, Staging)), EventSource(Port(c.inst, Staging))];
        eventChecks := eventChecks + [IsConnectedTo(Port(c.inst, m.value), Port(c.inst, Staging))];
        stagingCount := stagingCount + 1;
      }
    }
    l := Lists(telem, routes, events, telemChecks, routeChecks, eventChecks, inputCount, routeCount, stagingCount);
  }

  method RenderPolicies(cmds: seq<Command>) returns (wires: seq<Stmt>)
    requires Targets(cmds)
    ensures wires == PolicyWires(cmds, |cmds|)
  {
    wires := [];
    for j := 0 to |cmds|
      invariant wires == PolicyWires(cmds, j)
    {
      wires := wires + [PolicyWire(cmds[j])];
    }
  }

  method RenderCustom(lines: seq<CustomLine>) returns (wires: seq<Stmt>, telemListeners: nat, eventListeners: nat)
    ensures wires == CustomWires(lines, |lines|)
    ensures telemListeners == 2 + TelemLines(lines, |lines|) && eventListeners == 2 + EventLines(lines, |lines|)
  {
    wires, telemListeners, eventListeners := [], 2, 2;
    for k := 0 to |lines|
      invariant wires == CustomWires(lines, k)
      invariant telemListeners == 2 + TelemLines(lines, k) && eventListeners == 2 + EventLines(lines, k)
    {
      wires := wires + [CustomWire(lines[k])];
      if lines[k].AddTelemListener? {
        telemListeners := telemListeners + 1;
      }
      if lines[k].AddEventListener? {
        eventListeners := eventListeners + 1;
      }
    }
  }

  /** The generator as the script runs it. */
  method RenderTopo(t: Topology) returns (p: Program)
    requires Targets(t.commands) && forall i :: 0 <= i < |t.components| ==> t.components[i].id.Some?
    ensures p == Rendered(t)
  {
    var l := RenderComponents(t.components, t.commands);
    var policies := RenderPolicies(t.commands);
    var custom, telemListeners, eventListeners := RenderCustom(t.custom);
    var checks := [IsConnectedTo(RADIO_COMMANDS, HUB_COMMANDS), InputsAtLeast(l.inputCount),
                   TelemListenersAtLeast(telemListeners), RoutesAtLeast(l.routeCount)]
                  + (if ChecksMissionSource(t) then [HasMissionSource] else [])
                  + (if ChecksThresholds(t) then [HasThresholdSources] else [])
                  + l.telemChecks + l.routeChecks + l.eventChecks
                  + [EventSourcesAtLeast(l.stagingCount), EventListenersAtLeast(eventListeners)];
    p := Program(l.telem + policies + l.routes + l.events + custom, checks);
  }

  // ---------------------------------------------------------------- the ground dictionary

  /** An entry; the class of a command whose key has no value is null. */
  datatype DictEntry = DictEntry(target: nat, opcode: nat, opClass: Option<string>, description: string, apid: nat)

  function EntryOf(cmd: Command): DictEntry
    requires cmd.target.Some?
  {
    DictEntry(cmd.target.value, cmd.opcode, if cmd.opClass.Null? then None else Some(ClassText(cmd)),
              cmd.description, Bridge.APID_COMMAND)
  }

  /** A later command of the same name replaces an earlier one. */
  function DictCommands(cmds: seq<Command>, n: nat): map<string, DictEntry>
    requires n <= |cmds| && Targets(cmds)
  {
    if n == 0 then map[] else DictCommands(cmds, n - 1)[cmds[n - 1].name := EntryOf(cmds[n - 1])]
  }

  method RenderDict(cmds: seq<Command>) returns (d: map<string, DictEntry>)
    requires Targets(cmds)
    ensures d == DictCommands(cmds, |cmds|)
  {
    d := map[];
    for j := 0 to |cmds|
      invariant d == DictCommands(cmds, j)
    {
      d := d[cmds[j].name := EntryOf(cmds[j])];
    }
  }
}
