/**
 The watchdog and the command hub together: every interleaving of supervision steps, uplinked
 commands, single turns of the hub's dispatch loop, and components consuming what was
 delivered to them. The hub reads the mission state once per command, and what its failures
 cost is what the watchdog reads as the hub's health.
 */
module FlightSystem {
  import opened Wrappers
  import opened Words
  import opened MissionFsm
  import opened Port
  import opened Hubs
  import opened CommandHub
  import W = Watchdog

  // ---------------------------------------------------------------- the system

  /** The wiring of both; `hub` is the hub's own position in the watchdog's table. */
  datatype Plant = Plant(g: W.Wiring, t: Tables, hub: nat)

  /** `accepted` and `taken` remember what entered the hub's queue and what left each port. */
  datatype Flight = Flight(
    wd: W.State, hub: State, inbox: Fifo<Command>, accepted: seq<Command>, taken: map<PortId, seq<Command>>)

  datatype Happening =
    | Supervision(h: W.Happening)
    | Uplinked(cmd: Command)
    | HubTurn
    | AckRoom(n: nat)
    | Consumed(p: PortId)

  /** The hub has no thread of its own, so the watchdog never clears its errors. */
  ghost predicate Built(y: Plant, f: Flight) {
    && W.Fits(y.g, f.wd) && y.hub < |y.g.active| && !y.g.active[y.hub]
    && f.taken.Keys == f.hub.ports.Keys
  }

  ghost predicate Possible(y: Plant, h: Happening) {
    h.Supervision? ==> W.Possible(y.g, h.h)
  }

  function Uplink(f: Flight, cmd: Command): Flight {
    f.(inbox := Pushed(f.inbox, QUEUE_DEPTH, cmd),
       accepted := f.accepted + if |f.inbox.items| < QUEUE_DEPTH then [cmd] else [])
  }

  function Turn(y: Plant, f: Flight): Flight
    requires Built(y, f) && f.inbox.items != []
  {
    var cmd := f.inbox.items[0];
    var h := Dispatch(y.t, Some(f.wd.mission), f.hub, cmd);
    f.(hub := h, inbox := f.inbox.(items := f.inbox.items[1..]),
       wd := W.AddErrors(f.wd, y.hub, Cost(h.log[|f.hub.log|])))
  }

  function Take(f: Flight, p: PortId): Flight
    requires p in f.hub.ports && f.hub.ports[p].items != [] && p in f.taken
  {
    var q := f.hub.ports[p];
    f.(hub := f.hub.(ports := f.hub.ports[p := q.(items := q.items[1..])]),
       taken := f.taken[p := f.taken[p] + [q.items[0]]])
  }

  function After(y: Plant, f: Flight, h: Happening): (r: Flight)
    requires Built(y, f) && Possible(y, h)
    ensures Built(y, r)
  {
    match h
    case Supervision(h) => f.(wd := W.After(y.g, f.wd, h))
    case Uplinked(cmd) => Uplink(f, cmd)
    case HubTurn => if f.inbox.items == [] then f else Turn(y, f)
    case AckRoom(n) => f.(hub := f.hub.(ackRoom := n))
    case Consumed(p) => if p in f.hub.ports && f.hub.ports[p].items != [] then Take(f, p) else f
  }

  ghost predicate AllPossible(y: Plant, hs: seq<Happening>) {
    forall k :: 0 <= k < |hs| ==> Possible(y, hs[k])
  }

  function Run(y: Plant, f: Flight, hs: seq<Happening>): (r: Flight)
    requires Built(y, f) && AllPossible(y, hs)
    ensures Built(y, r)
    decreases |hs|
  {
    if hs == [] then f else After(y, Run(y, f, hs[..|hs| - 1]), hs[|hs| - 1])
  }

  // ---------------------------------------------------------------- the invariant

  function Commands(log: seq<Record>): seq<Command> {
    if log == [] then [] else Commands(log[..|log| - 1]) + [log[|log| - 1].cmd]
  }

  /** What the records say was delivered to port `p`. */
  function DeliveredTo(t: Tables, log: seq<Record>, p: PortId): seq<Command> {
    if log == [] then []
    else
      var r := log[|log| - 1];
      DeliveredTo(t, log[..|log| - 1], p) +
        if r.outcome == Delivered && Dest(t, r.cmd.target) == Some(p) then [r.cmd] else []
  }

  /** A record's outcome agrees with the policy of its command, in the state it was judged in. */
  ghost predicate Justified(t: Tables, r: Record) {
    && r.mission.Some?
    && (r.outcome == Blocked <==> !IsAllowed(Rank(r.mission.value), Classify(t.policies, r.cmd)))
    && (r.outcome == Delivered ==> Dest(t, r.cmd.target).Some?)
    && (r.outcome == NotFound ==> RouteIndex(t.routes, r.cmd.target) == |t.routes|)
  }

  ghost predicate AllJustified(t: Tables, log: seq<Record>) {
    forall k :: 0 <= k < |log| ==> Justified(t, log[k])
  }

  ghost predicate Ports(y: Plant, f: Flight)
    requires Built(y, f)
  {
    forall p :: p in f.hub.ports ==> f.taken[p] + f.hub.ports[p].items == DeliveredTo(y.t, f.hub.log, p)
  }

  ghost predicate Inv(y: Plant, f: Flight, errors0: u32)
    requires Built(y, f)
  {
    && f.accepted == Commands(f.hub.log) + f.inbox.items
    && f.hub.errors == (errors0 + Failures(f.hub.log)) % TWO32
    && f.wd.errors[y.hub] >= Failures(f.hub.log)
    && AllJustified(y.t, f.hub.log)
    && Ports(y, f)
  }

  /** A system in which nothing was uplinked yet. */
  ghost predicate Fresh(y: Plant, f: Flight)
    requires Built(y, f)
  {
    && f.hub.log == [] && f.inbox.items == [] && f.accepted == []
    && (forall p :: p in f.hub.ports ==> f.hub.ports[p].items == [] && f.taken[p] == [])
  }

  // ---------------------------------------------------------------- one happening keeps it

  lemma {:induction false} TurnRecord(y: Plant, f: Flight)
    requires Built(y, f) && f.inbox.items != []
    ensures var cmd, log := f.inbox.items[0], Turn(y, f).hub.log;
      && |log| == |f.hub.log| + 1 && log[..|f.hub.log|] == f.hub.log
      && log[|f.hub.log|].cmd == cmd && log[|f.hub.log|].mission == Some(f.wd.mission)
      && Justified(y.t, log[|f.hub.log|])
  {
  }

  lemma {:induction false} TurnKeepsPorts(y: Plant, f: Flight)
    requires Built(y, f) && f.inbox.items != [] && Ports(y, f)
    ensures Ports(y, Turn(y, f))
  {
    var r := Turn(y, f);
    var cmd := f.inbox.items[0];
    DeliveredIff(y.t, Some(f.wd.mission), f.hub, cmd);
    TurnRecord(y, f);
    forall p | p in r.hub.ports
      ensures r.taken[p] + r.hub.ports[p].items == DeliveredTo(y.t, r.hub.log, p)
    {
      var news := if r.hub.log[|f.hub.log|].outcome == Delivered && Dest(y.t, cmd.target) == Some(p) then [cmd] else [];
      assert r.hub.ports[p].items == f.hub.ports[p].items + news;
      assert f.taken[p] + (f.hub.ports[p].items + news) == f.taken[p] + f.hub.ports[p].items + news;
    }
  }

  lemma {:induction false} LogGrows(log: seq<Record>, r: Record)
    ensures Commands(log + [r]) == Commands(log) + [r.cmd] && Failures(log + [r]) == Failures(log) + Cost(r)
  {
    assert (log + [r])[..|log|] == log;
  }

  lemma {:induction false} HeadMoves(done: seq<Command>, items: seq<Command>)
    requires items != []
    ensures done + items == done + [items[0]] + items[1..]
  {
  }

  lemma {:induction false} TurnKeepsInv(y: Plant, f: Flight, errors0: u32)
    requires Built(y, f) && f.inbox.items != [] && Inv(y, f, errors0)
    ensures Inv(y, Turn(y, f), errors0)
  {
    var log, record := f.hub.log, Turn(y, f).hub.log[|f.hub.log|];
    TurnRecord(y, f);
    TurnKeepsPorts(y, f);
    LogGrows(log, record);
    HeadMoves(Commands(log), f.inbox.items);
    CounterAdd(errors0, Failures(log), Cost(record));
  }

  lemma {:induction false} TakeKeepsInv(y: Plant, f: Flight, p: PortId, errors0: u32)
    requires Built(y, f) && Inv(y, f, errors0) && p in f.hub.ports && f.hub.ports[p].items != []
    ensures Inv(y, Take(f, p), errors0)
  {
    var items := f.hub.ports[p].items;
    assert f.taken[p] + items == f.taken[p] + [items[0]] + items[1..];
  }

  lemma {:induction false} SupervisionKeepsInv(y: Plant, f: Flight, h: W.Happening, errors0: u32)
    requires Built(y, f) && W.Possible(y.g, h) && Inv(y, f, errors0)
    ensures Inv(y, f.(wd := W.After(y.g, f.wd, h)), errors0)
  {
    W.PassiveOnlyGrows(y.g, f.wd, [h], y.hub);
    assert W.Run(y.g, f.wd, [h][..0]) == f.wd;
    assert W.Run(y.g, f.wd, [h]) == W.After(y.g, f.wd, h);
  }

  lemma {:induction false} AfterKeepsInv(y: Plant, f: Flight, h: Happening, errors0: u32)
    requires Built(y, f) && Possible(y, h) && Inv(y, f, errors0)
    ensures Inv(y, After(y, f, h), errors0)
  {
    match h
    case Supervision(h) => SupervisionKeepsInv(y, f, h, errors0);
    case Uplinked(cmd) =>
      assert Commands(f.hub.log) + (f.inbox.items + [cmd]) == Commands(f.hub.log) + f.inbox.items + [cmd];
    case HubTurn =>
      if f.inbox.items != [] {
        TurnKeepsInv(y, f, errors0);
      }
    case AckRoom(_) =>
    case Consumed(p) =>
      if p in f.hub.ports && f.hub.ports[p].items != [] {
        TakeKeepsInv(y, f, p, errors0);
      }
  }

  // ---------------------------------------------------------------- runs

  /**
   Over every run from a fresh system: the commands accepted into the queue are, in order, the
   recorded ones followed by those still queued, so each that was consumed ended in exactly one
   outcome; a delivered one was allowed by the first policy registered for it in the state it was
   judged in, and a blocked one was not; each port received the commands recorded as delivered to
   it, once and in order; and the hub's counter grew by the undelivered commands and failed
   acknowledgements.
   */
  lemma {:induction false} CommandsAccountedFor(y: Plant, f: Flight, hs: seq<Happening>)
    requires Built(y, f) && Fresh(y, f) && AllPossible(y, hs)
    ensures Inv(y, Run(y, f, hs), f.hub.errors)
    decreases |hs|
  {
    if hs == [] {
      assert Commands(f.hub.log) + f.inbox.items == [];
    } else {
      CommandsAccountedFor(y, f, hs[..|hs| - 1]);
      AfterKeepsInv(y, Run(y, f, hs[..|hs| - 1]), hs[|hs| - 1], f.hub.errors);
    }
  }

  /** Once EMERGENCY is entered, every command that is consumed after that is blocked. */
  lemma {:induction false} NothingDeliveredInEmergency(y: Plant, f: Flight, hs: seq<Happening>)
    requires Built(y, f) && AllPossible(y, hs) && f.wd.mission == EMERGENCY
    ensures var r := Run(y, f, hs);
      && r.wd.mission == EMERGENCY && |f.hub.log| <= |r.hub.log| && r.hub.log[..|f.hub.log|] == f.hub.log
      && forall k :: |f.hub.log| <= k < |r.hub.log| ==> r.hub.log[k].outcome == Blocked
    decreases |hs|
  {
    if hs != [] {
      NothingDeliveredInEmergency(y, f, hs[..|hs| - 1]);
      var r, h := Run(y, f, hs[..|hs| - 1]), hs[|hs| - 1];
      match h
      case Supervision(h) => W.StepKeepsEmergency(y.g, r.wd, h);
      case HubTurn =>
        if r.inbox.items != [] {
          TurnRecord(y, r);
        }
      case _ =>
    }
  }

  /**
   The loop from the hub back to the watchdog: after three undelivered commands or failed
   acknowledgements, no later supervision step ends in NOMINAL while the hub is monitored and its
   counter has not wrapped.
   */
  lemma {:induction false} HubFailuresBlockNominal(y: Plant, f: Flight, hs: seq<Happening>, input: W.Input, slot: nat)
    requires Built(y, f) && Fresh(y, f) && AllPossible(y, hs) && W.Suits(y.g, input)
    requires slot < |y.g.monitored| && y.g.monitored[slot] == Some(y.hub)
    requires Failures(Run(y, f, hs).hub.log) >= 3
    requires W.Step(y.g, Run(y, f, hs).wd, input).errors[y.hub] < TWO32
    ensures Rank(W.Step(y.g, Run(y, f, hs).wd, input).mission) >= Rank(DEGRADED)
  {
    CommandsAccountedFor(y, f, hs);
    W.FaultySlotBlocksNominal(y.g, Run(y, f, hs).wd, input, slot, y.hub);
  }
}
