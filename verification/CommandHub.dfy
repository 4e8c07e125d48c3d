/**
 The command router: `src/CommandHub.hpp`. Its tables are filled at start-up; each step then
 drains the command queue and ends every command in one of four ways.

 As in module Hubs, the ports outside the hub are a map from port names to queue values. The
 acknowledgement queue is only counted: `ackRoom` is how many events it still takes, none when
 it is not connected.
 */
module CommandHub {
  import opened Wrappers
  import opened Words
  import opened MissionFsm
  import opened Port
  import opened Hubs

  const MAX_COMMAND_ROUTES := 32
  const MAX_COMMAND_POLICIES := 256

  /** The argument is the bit pattern of the packet's float. */
  datatype Command = Command(target: u32, opcode: u32, argument: u32)

  // ---------------------------------------------------------------- tables

  /** A route to the output port of a component. */
  datatype Route<P> = Route(compId: u32, port: P)

  datatype Policy = Policy(target: u32, opcode: u32, opClass: OpClass)

  /** While the hub runs, all that matters of an output port is the input it is connected to. */
  datatype Tables = Tables(routes: seq<Route<Option<PortId>>>, policies: seq<Policy>)

  /** The position of the first route to `compId`, or the number of routes. */
  function RouteIndex<P>(routes: seq<Route<P>>, compId: u32): (i: nat)
    ensures i <= |routes|
    ensures i < |routes| ==> routes[i].compId == compId
    ensures forall k :: 0 <= k < i ==> routes[k].compId != compId
  {
    if routes == [] || routes[0].compId == compId then 0 else 1 + RouteIndex(routes[1..], compId)
  }

  function PolicyIndex(policies: seq<Policy>, target: u32, opcode: u32): (i: nat)
    ensures i <= |policies|
    ensures i < |policies| ==> policies[i].target == target && policies[i].opcode == opcode
    ensures forall k :: 0 <= k < i ==> !(policies[k].target == target && policies[k].opcode == opcode)
  {
    if policies == [] || (policies[0].target == target && policies[0].opcode == opcode) then 0
    else 1 + PolicyIndex(policies[1..], target, opcode)
  }

  /** A null port, a repeated component and a full table are each refused and cost an error. */
  function WithRoute<P>(routes: seq<Route<P>>, compId: u32, port: Option<P>): (r: (seq<Route<P>>, bool)) {
    if port.None? || RouteIndex(routes, compId) < |routes| || |routes| >= MAX_COMMAND_ROUTES then (routes, false)
    else (routes + [Route(compId, port.value)], true)
  }

  /** The first policy for a command stays; repeating it is an error only if it differs. */
  function WithPolicy(policies: seq<Policy>, p: Policy): (r: (seq<Policy>, bool)) {
    var i := PolicyIndex(policies, p.target, p.opcode);
    if p.target == 0 then (policies, false)
    else if i < |policies| then (policies, policies[i].opClass == p.opClass)
    else if |policies| >= MAX_COMMAND_POLICIES then (policies, false)
    else (policies + [p], true)
  }

  function Lookup(policies: seq<Policy>, target: u32, opcode: u32): Option<OpClass> {
    var i := PolicyIndex(policies, target, opcode);
    if i < |policies| then Some(policies[i].opClass) else None
  }

  /** A command nobody registered is operational. */
  function Classify(policies: seq<Policy>, cmd: Command): OpClass {
    var found := Lookup(policies, cmd.target, cmd.opcode);
    if found.Some? then found.value else OPERATIONAL
  }

  function WithPolicies(policies: seq<Policy>, ps: seq<Policy>): seq<Policy> {
    if ps == [] then policies else WithPolicy(WithPolicies(policies, ps[..|ps| - 1]), ps[|ps| - 1]).0
  }

  function WithRoutes<P>(routes: seq<Route<P>>, rs: seq<Route<P>>): seq<Route<P>> {
    if rs == [] then routes
    else WithRoute(WithRoutes(routes, rs[..|rs| - 1]), rs[|rs| - 1].compId, Some(rs[|rs| - 1].port)).0
  }

  lemma {:induction false} PolicyIndexAppend(a: seq<Policy>, b: seq<Policy>, target: u32, opcode: u32)
    ensures var i := PolicyIndex(a, target, opcode);
      PolicyIndex(a + b, target, opcode) == if i < |a| then i else |a| + PolicyIndex(b, target, opcode)
  {
    if a == [] {
      assert a + b == b;
    } else {
      assert (a + b)[1..] == a[1..] + b;
      PolicyIndexAppend(a[1..], b, target, opcode);
    }
  }

  /** One registration changes the class of no command but its own, and of its own only if it had none. */
  lemma {:induction false} WithPolicyLookup(policies: seq<Policy>, p: Policy, target: u32, opcode: u32)
    ensures Lookup(WithPolicy(policies, p).0, target, opcode) ==
      if p.target == target && p.opcode == opcode && target != 0
         && Lookup(policies, target, opcode).None? && |policies| < MAX_COMMAND_POLICIES
      then Some(p.opClass) else Lookup(policies, target, opcode)
  {
    PolicyIndexAppend(policies, [p], target, opcode);
  }

  /**
   Registering a list into a table that has room for it: every command with a nonzero target is
   found as the first entry for it, in the table and then in the list.
   */
  lemma {:induction false} FirstRegisteredWins(policies: seq<Policy>, ps: seq<Policy>, target: u32, opcode: u32)
    requires |policies| + |ps| <= MAX_COMMAND_POLICIES && target != 0
    ensures Lookup(WithPolicies(policies, ps), target, opcode) == Lookup(policies + ps, target, opcode)
    ensures |WithPolicies(policies, ps)| <= |policies| + |ps|
  {
    if ps == [] {
      assert policies + ps == policies;
    } else {
      var init, last := ps[..|ps| - 1], ps[|ps| - 1];
      FirstRegisteredWins(policies, init, target, opcode);
      WithPolicyLookup(WithPolicies(policies, init), last, target, opcode);
      assert policies + ps == policies + init + [last];
      PolicyIndexAppend(policies + init, [last], target, opcode);
    }
  }

  /** Routes to distinct components all go in, in order, as long as there is room. */
  lemma {:induction false} DistinctRoutesRegistered<P>(routes: seq<Route<P>>, rs: seq<Route<P>>)
    requires |routes| + |rs| <= MAX_COMMAND_ROUTES
    requires forall i, j :: 0 <= i < j < |routes + rs| ==> (routes + rs)[i].compId != (routes + rs)[j].compId
    ensures WithRoutes(routes, rs) == routes + rs
  {
    if rs == [] {
      assert routes + rs == routes;
    } else {
      var init, last := rs[..|rs| - 1], rs[|rs| - 1];
      var before := routes + init;
      assert routes + rs == before + [last];
      assert forall i :: 0 <= i < |before| ==> before[i] == (routes + rs)[i] && before[i].compId != last.compId by {
        assert (routes + rs)[|before|] == last;
      }
      DistinctRoutesRegistered(routes, init);
    }
  }

  // ---------------------------------------------------------------- dispatch

  datatype Outcome = Delivered | Busy | NotFound | Blocked

  /** What became of a command: the mission state it was judged in, its end, and whether that was acknowledged. */
  datatype Record = Record(cmd: Command, mission: Option<MissionState>, outcome: Outcome, acked: bool)

  /** Everything the hub changes when it dispatches. `log` is what it did so far. */
  datatype State = State(ports: Ports<Command>, ackRoom: nat, errors: u32, log: seq<Record>)

  ghost predicate Wired(t: Tables, ports: Ports<Command>) {
    forall r :: r in t.routes && r.port.Some? ==> r.port.value in ports
  }

  function Dest(t: Tables, compId: u32): Option<PortId> {
    var i := RouteIndex(t.routes, compId);
    if i < |t.routes| then t.routes[i].port else None
  }

  function Accepts(ports: Ports<Command>, dest: Option<PortId>): bool {
    dest.Some? && dest.value in ports && |ports[dest.value].items| < QUEUE_DEPTH
  }

  function Decide(t: Tables, mission: Option<MissionState>, ports: Ports<Command>, cmd: Command): Outcome {
    if mission.Some? && !IsAllowed(Rank(mission.value), Classify(t.policies, cmd)) then Blocked
    else if RouteIndex(t.routes, cmd.target) == |t.routes| then NotFound
    else if Accepts(ports, Dest(t, cmd.target)) then Delivered
    else Busy
  }

  /** What sending `cmd` does to the ports: a full queue counts the refusal. */
  function Offered(ports: Ports<Command>, dest: Option<PortId>, cmd: Command): (r: Ports<Command>)
    ensures r.Keys == ports.Keys
  {
    if dest.Some? && dest.value in ports
    then ports[dest.value := Pushed(ports[dest.value], QUEUE_DEPTH, cmd)] else ports
  }

  function Cost(r: Record): nat {
    (if r.outcome == Delivered then 0 else 1) + (if r.acked then 0 else 1)
  }

  function Dispatch(t: Tables, mission: Option<MissionState>, h: State, cmd: Command): (r: State)
    ensures r.ports.Keys == h.ports.Keys
  {
    var outcome := Decide(t, mission, h.ports, cmd);
    var record := Record(cmd, mission, outcome, h.ackRoom > 0);
    State(if outcome == Delivered || outcome == Busy then Offered(h.ports, Dest(t, cmd.target), cmd) else h.ports,
          if h.ackRoom > 0 then h.ackRoom - 1 else 0,
          (h.errors + Cost(record)) % TWO32,
          h.log + [record])
  }

  function DispatchAll(t: Tables, mission: Option<MissionState>, h: State, cmds: seq<Command>, n: nat): (r: State)
    requires n <= |cmds|
    ensures r.ports.Keys == h.ports.Keys
  {
    if n == 0 then h else Dispatch(t, mission, DispatchAll(t, mission, h, cmds, n - 1), cmds[n - 1])
  }

  // ---------------------------------------------------------------- the class

  class Hub {
    var routes: seq<Route<Option<PortId>>>
    var policies: seq<Policy>
    var watched: bool
    var ports: Ports<Command>
    var ackRoom: nat
    var errors: u32
    ghost var log: seq<Record>

    ghost predicate Valid()
      reads this
    {
      && |routes| <= MAX_COMMAND_ROUTES && |policies| <= MAX_COMMAND_POLICIES
      && (forall i, j :: 0 <= i < j < |routes| ==> routes[i].compId != routes[j].compId)
      && (forall i, j :: 0 <= i < j < |policies| ==>
           policies[i].target != policies[j].target || policies[i].opcode != policies[j].opcode)
    }

    ghost function Table(): Tables
      reads this
    {
      Tables(routes, policies)
    }

    ghost function Value(): State
      reads this
    {
      State(ports, ackRoom, errors, log)
    }

    constructor (ports: Ports<Command>, ackRoom: nat)
      ensures Valid() && !watched && Table() == Tables([], [])
      ensures Value() == State(ports, ackRoom, 0, [])
    {
      routes, policies, watched := [], [], false;
      this.ports, this.ackRoom, errors, log := ports, ackRoom, 0, [];
    }

    method RegisterRoute(compId: u32, port: Option<Option<PortId>>)
      requires Valid()
      modifies `routes, `errors
      ensures Valid()
      ensures var (kept, ok) := WithRoute(old(routes), compId, port);
        routes == kept && errors == if ok then old(errors) else Bump(old(errors))
    {
      if port.None? {
        errors := Bump(errors);
        return;
      }
      for i := 0 to |routes|
        invariant forall k :: 0 <= k < i ==> routes[k].compId != compId
        invariant routes == old(routes) && errors == old(errors)
      {
        if routes[i].compId == compId {
          errors := Bump(errors);
          return;
        }
      }
      if |routes| < MAX_COMMAND_ROUTES {
        routes := routes + [Route(compId, port.value)];
      } else {
        errors := Bump(errors);
      }
    }

    method RegisterCommandPolicy(target: u32, opcode: u32, opClass: OpClass)
      requires Valid()
      modifies `policies, `errors
      ensures Valid()
      ensures var (kept, ok) := WithPolicy(old(policies), Policy(target, opcode, opClass));
        policies == kept && errors == if ok then old(errors) else Bump(old(errors))
    {
      if target == 0 {
        errors := Bump(errors);
        return;
      }
      for i := 0 to |policies|
        invariant forall k :: 0 <= k < i ==> !(policies[k].target == target && policies[k].opcode == opcode)
        invariant policies == old(policies) && errors == old(errors)
      {
        if policies[i].target == target && policies[i].opcode == opcode {
          if policies[i].opClass != opClass {
            errors := Bump(errors);
          }
          return;
        }
      }
      if |policies| >= MAX_COMMAND_POLICIES {
        errors := Bump(errors);
        return;
      }
      policies := policies + [Policy(target, opcode, opClass)];
    }

    method SetMissionStateSource(connected: bool)
      modifies `watched
      ensures watched == connected
    {
      watched := connected;
    }

    method ClassifyCommand(cmd: Command) returns (c: OpClass)
      ensures c == Classify(policies, cmd)
    {
      for i := 0 to |policies|
        invariant forall k :: 0 <= k < i ==> !(policies[k].target == cmd.target && policies[k].opcode == cmd.opcode)
      {
        if policies[i].target == cmd.target && policies[i].opcode == cmd.opcode {
          return policies[i].opClass;
        }
      }
      c := OPERATIONAL;
    }

    /** Send an acknowledgement; an error when it finds no room. */
    method Ack() returns (sent: bool)
      modifies `ackRoom, `errors
      ensures sent == (old(ackRoom) > 0)
      ensures ackRoom == if sent then old(ackRoom) - 1 else 0
      ensures errors == if sent then old(errors) else Bump(old(errors))
    {
      if ackRoom > 0 {
        ackRoom := ackRoom - 1;
        return true;
      }
      errors := Bump(errors);
      sent := false;
    }

    /** `OutputPort::send` on route `i`. */
    method SendOn(i: nat, cmd: Command) returns (sent: bool)
      requires i < |routes|
      modifies `ports
      ensures sent == Accepts(old(ports), routes[i].port)
      ensures ports == Offered(old(ports), routes[i].port, cmd)
    {
      var dest := routes[i].port;
      if dest.None? || dest.value !in ports {
        return false;
      }
      sent := |ports[dest.value].items| < QUEUE_DEPTH;
      ports := ports[dest.value := Pushed(ports[dest.value], QUEUE_DEPTH, cmd)];
    }

    /** Acknowledge, count the failure if it was one, and note what became of the command. */
    method Conclude(cmd: Command, ghost seen: Option<MissionState>, outcome: Outcome)
      modifies `ackRoom, `errors, `log
      ensures var record := Record(cmd, seen, outcome, old(ackRoom) > 0);
        && ackRoom == (if old(ackRoom) > 0 then old(ackRoom) - 1 else 0)
        && errors == (old(errors) + Cost(record)) % TWO32 && log == old(log) + [record]
    {
      CounterAdd(errors, 1, 1);
      var sent := Ack();
      if outcome != Delivered {
        errors := Bump(errors);
      }
      log := log + [Record(cmd, seen, outcome, sent)];
    }

    method FindRoute(target: u32) returns (i: nat)
      ensures i == RouteIndex(routes, target)
    {
      i := 0;
      while i < |routes|
        invariant i <= |routes| && forall k :: 0 <= k < i ==> routes[k].compId != target
      {
        if routes[i].compId == target {
          return;
        }
        i := i + 1;
      }
    }

    /** Dispatch one command in the mission state that the watchdog reports at this moment. */
    method DispatchCommand(cmd: Command, mission: MissionState)
      requires Valid()
      modifies `ports, `ackRoom, `errors, `log
      ensures Value() == Dispatch(Table(), if watched then Some(mission) else None, old(Value()), cmd)
    {
      ghost var seen := if watched then Some(mission) else None;
      if watched {
        var c := ClassifyCommand(cmd);
        if !IsAllowed(Rank(mission), c) {
          Conclude(cmd, seen, Blocked);
          return;
        }
      }
      var i := FindRoute(cmd.target);
      if i == |routes| {
        Conclude(cmd, seen, NotFound);
        return;
      }
      var ok := SendOn(i, cmd);
      Conclude(cmd, seen, if ok then Delivered else Busy);
    }

    /** Drain the command queue, which holds `cmds`, while the mission state stays what it is. */
    method Step(cmds: seq<Command>, mission: MissionState)
      requires Valid()
      modifies `ports, `ackRoom, `errors, `log
      ensures Value() == DispatchAll(Table(), if watched then Some(mission) else None, old(Value()), cmds, |cmds|)
    {
      for k := 0 to |cmds|
        invariant Value() == DispatchAll(Table(), if watched then Some(mission) else None, old(Value()), cmds, k)
      {
        DispatchCommand(cmds[k], mission);
      }
    }
  }

  // ---------------------------------------------------------------- what a dispatch means

  /**
   A command is delivered exactly when its class is allowed in the state, a route leads to its
   target, and the queue at the end of it has room; it then is the last item of that queue, and
   no other queue changed.
   */
  lemma {:induction false} DeliveredIff(t: Tables, mission: Option<MissionState>, h: State, cmd: Command)
    ensures var r := Dispatch(t, mission, h, cmd);
      var delivered := r.log[|h.log|].outcome == Delivered;
      && (delivered <==>
            && (mission.None? || IsAllowed(Rank(mission.value), Classify(t.policies, cmd)))
            && (exists i :: 0 <= i < |t.routes| && t.routes[i].compId == cmd.target)
            && Accepts(h.ports, Dest(t, cmd.target)))
      && (forall p :: p in h.ports ==>
            r.ports[p].items == h.ports[p].items + if delivered && Dest(t, cmd.target) == Some(p) then [cmd] else [])
  {
    var i := RouteIndex(t.routes, cmd.target);
    forall p | p in h.ports
      ensures h.ports[p].items + [] == h.ports[p].items
    {
    }
  }

  /** Undelivered commands and failed acknowledgements since the log began. */
  function Failures(log: seq<Record>): nat {
    if log == [] then 0 else Failures(log[..|log| - 1]) + Cost(log[|log| - 1])
  }
}
