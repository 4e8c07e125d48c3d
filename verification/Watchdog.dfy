/**
 The FDIR supervisor: what a step of `src/WatchdogComponent.hpp` does, with the error
 counters of `src/Component.hpp`, and what holds over its runs. Battery levels and
 thresholds are reals. The class that executes these steps is in WatchdogComponent.dfy.

 Components are positions in a table; a monitored slot names one, and so does `self`, since
 the watchdog may be told to monitor itself. An error counter is kept as the number of errors
 since it was last cleared, and read modulo 2^32 as the code does. Errors recorded by other
 threads are inputs: `noise` is added to a slot's component just before its report is read.
 */
module Watchdog {
  import opened Wrappers
  import opened Words
  import opened MissionFsm
  import opened TmrStore

  const MAX_RESTARTS := 3
  const HEARTBEAT_INTERVAL := 10
  const PARAM_CHECK_INTERVAL := 30
  const WARNING_THRESHOLD := 3
  const CRITICAL_THRESHOLD := 10
  const BATT_MAX := 100.0

  // ---------------------------------------------------------------- thresholds

  type Copies = s: seq<real> | |s| == 3 witness [0.0, 0.0, 0.0]

  /** The redundant stores of the three configured thresholds. */
  datatype Sources = Sources(emergency: Copies, safeMode: Copies, degraded: Copies)

  datatype Thresholds = Thresholds(emergency: real, safeMode: real, degraded: real, recover: real)

  const DEFAULTS := Thresholds(2.0, 5.0, 15.0, 17.0)

  predicate Sane(t: Thresholds) {
    0.0 < t.emergency < t.safeMode < t.degraded <= BATT_MAX
  }

  function Voted(s: Sources): Thresholds {
    var degraded := Vote(s.degraded);
    Thresholds(Vote(s.emergency), Vote(s.safeMode), degraded,
               if degraded + 2.0 > BATT_MAX then BATT_MAX else degraded + 2.0)
  }

  /** The thresholds in force: the voted configuration when it is set and sane, else the defaults. */
  function Effective(sources: Option<Sources>): (t: Thresholds)
    ensures Sane(t) && t.recover == if t.degraded + 2.0 > BATT_MAX then BATT_MAX else t.degraded + 2.0
  {
    if sources.Some? && Sane(Voted(sources.value)) then Voted(sources.value) else DEFAULTS
  }

  /** The stores after a read or a scrub: the vote is unchanged, so the thresholds are. */
  function HealAll(sources: Option<Sources>): (r: Option<Sources>)
    ensures Effective(r) == Effective(sources)
    ensures r.Some? == sources.Some? && (r.Some? ==> Voted(r.value) == Voted(sources.value))
  {
    match sources
    case None => None
    case Some(s) => Some(Sources(Healed(s.emergency), Healed(s.safeMode), Healed(s.degraded)))
  }

  // ---------------------------------------------------------------- state

  /** How the watchdog is wired: which components have a thread, and which it supervises. */
  datatype Wiring = Wiring(active: seq<bool>, self: nat, monitored: seq<Option<nat>>)

  ghost predicate Wired(g: Wiring) {
    && g.self < |g.active|
    && forall i :: 0 <= i < |g.monitored| && g.monitored[i].Some? ==> g.monitored[i].value < |g.active|
  }

  datatype State = State(
    mission: MissionState, cycles: u32, lastSoc: real, faultLatched: bool,
    errors: seq<nat>, restarts: seq<nat>, eventRoom: nat, sources: Option<Sources>)

  ghost predicate Fits(g: Wiring, w: State) {
    Wired(g) && |w.errors| == |g.active| && |w.restarts| == |g.monitored|
  }

  /** Counters only went up. */
  ghost predicate Grew(a: seq<nat>, b: seq<nat>) {
    |a| == |b| && forall c :: 0 <= c < |a| ==> a[c] <= b[c]
  }

  /** Nothing but the event queue, the error counters and the mission state differs. */
  ghost predicate OnlyReported(w: State, r: State) {
    && r.cycles == w.cycles && r.lastSoc == w.lastSoc && r.faultLatched == w.faultLatched
    && r.restarts == w.restarts && r.sources == w.sources && Grew(w.errors, r.errors)
  }

  function AddErrors(w: State, c: nat, n: nat): (r: State)
    requires c < |w.errors|
    ensures OnlyReported(w, r) && r.mission == w.mission
  {
    w.(errors := w.errors[c := w.errors[c] + n])
  }

  /** How many of `n` events find no room. */
  function Lost(room: nat, n: nat): nat {
    if n <= room then 0 else n - room
  }

  /** `n` calls of `emit`: an event that finds no room costs the watchdog an error. */
  function Emit(g: Wiring, w: State, n: nat): (r: State)
    requires Fits(g, w)
    ensures Fits(g, r) && OnlyReported(w, r) && r.mission == w.mission
  {
    w.(eventRoom := Lost(n, w.eventRoom), errors := w.errors[g.self := w.errors[g.self] + Lost(w.eventRoom, n)])
  }

  function Worse(a: MissionState, b: MissionState): (r: MissionState)
    ensures Rank(r) >= Rank(a) && Rank(r) >= Rank(b) && (r == a || r == b)
  {
    if Rank(b) > Rank(a) then b else a
  }

  function Escalate(g: Wiring, w: State, next: MissionState): (r: State)
    requires Fits(g, w)
    ensures Fits(g, r) && OnlyReported(w, r) && r.mission == Worse(w.mission, next)
  {
    Emit(g, w.(mission := Worse(w.mission, next)), if Rank(next) > Rank(w.mission) then 1 else 0)
  }

  /** Report, then escalate. */
  function Alarm(g: Wiring, w: State, next: MissionState): (r: State)
    requires Fits(g, w)
    ensures Fits(g, r) && OnlyReported(w, r) && r.mission == Worse(w.mission, next)
  {
    Escalate(g, Emit(g, w, 1), next)
  }

  // ---------------------------------------------------------------- battery

  /** What a read or a scrub of the three stores leaves behind. */
  function Scrub(w: State): State {
    w.(sources := HealAll(w.sources))
  }

  /** Reading the thresholds heals the stores and reports a configuration fault once. */
  function ReadThresholds(g: Wiring, w: State): (r: State)
    requires Fits(g, w)
    ensures Fits(g, r) && r.mission == w.mission && r.restarts == w.restarts && Grew(w.errors, r.errors)
    ensures r.lastSoc == w.lastSoc && r.cycles == w.cycles && Effective(r.sources) == Effective(w.sources)
  {
    if w.sources.None? then w
    else
      var healed := Scrub(w);
      if !Sane(Voted(w.sources.value)) then
        if w.faultLatched then healed else AddErrors(Emit(g, healed, 1), g.self, 1).(faultLatched := true)
      else if w.faultLatched then Emit(g, healed, 1).(faultLatched := false)
      else healed
  }

  /** The state that a battery level calls for; BOOT when it calls for none. */
  function Demanded(t: Thresholds, batt: real): MissionState {
    if batt <= t.emergency then EMERGENCY
    else if batt <= t.safeMode then SAFE_MODE
    else if batt <= t.degraded then DEGRADED
    else BOOT
  }

  function ProcessBattery(g: Wiring, w: State, batt: real): (r: State)
    requires Fits(g, w)
    ensures Fits(g, r) && r.restarts == w.restarts && Grew(w.errors, r.errors) && r.cycles == w.cycles
    ensures r.lastSoc == batt && Effective(r.sources) == Effective(w.sources)
    ensures r.mission == Worse(w.mission, Demanded(Effective(w.sources), batt))
  {
    var next := Demanded(Effective(w.sources), batt);
    var w' := ReadThresholds(g, w).(lastSoc := batt);
    if next == BOOT then w' else Alarm(g, w', next)
  }

  /** The level that recovery is judged by when the queue was drained. */
  function LastOf(samples: seq<real>, before: real): real {
    if samples == [] then before else samples[|samples| - 1]
  }

  /** The most severe of a state and what `n` samples demand. */
  function WorstOf(t: Thresholds, m: MissionState, samples: seq<real>, n: nat): MissionState
    requires n <= |samples|
  {
    if n == 0 then m else Worse(WorstOf(t, m, samples, n - 1), Demanded(t, samples[n - 1]))
  }

  /** The loop of `checkBattery` over the first `n` samples of the queue. */
  function CheckBattery(g: Wiring, w: State, samples: seq<real>, n: nat): (r: State)
    requires Fits(g, w) && n <= |samples|
    ensures Fits(g, r) && r.restarts == w.restarts && Grew(w.errors, r.errors) && r.cycles == w.cycles
    ensures r.lastSoc == (if n == 0 then w.lastSoc else samples[n - 1]) && Effective(r.sources) == Effective(w.sources)
    ensures r.mission == WorstOf(Effective(w.sources), w.mission, samples, n)
    ensures Rank(r.mission) >= Rank(w.mission)
    ensures n > 0 ==> Rank(r.mission) >= Rank(Demanded(Effective(w.sources), r.lastSoc))
  {
    if n == 0 then w else ProcessBattery(g, CheckBattery(g, w, samples, n - 1), samples[n - 1])
  }

  // ---------------------------------------------------------------- subsystems

  datatype Health = Nominal | Warning | Critical

  function ReportHealth(errors: nat): Health {
    var errs := errors % TWO32;
    if errs >= CRITICAL_THRESHOLD then Critical else if errs >= WARNING_THRESHOLD then Warning else Nominal
  }

  function HealthAt(g: Wiring, w: State, i: nat): Health
    requires Fits(g, w) && i < |g.monitored|
  {
    if g.monitored[i].Some? then ReportHealth(w.errors[g.monitored[i].value]) else Nominal
  }

  /** Errors that other threads recorded before the report of slot `i` is read. */
  function Noisy(g: Wiring, w: State, noise: seq<nat>, i: nat): (r: State)
    requires Fits(g, w) && i < |g.monitored| == |noise|
    ensures Fits(g, r) && OnlyReported(w, r) && r.mission == w.mission
  {
    if g.monitored[i].Some? then AddErrors(w, g.monitored[i].value, noise[i]) else w
  }

  /** Clear the errors of component `c` on behalf of slot `i`, and charge its budget. */
  function Restart(w: State, i: nat, c: nat): State
    requires i < |w.restarts| && c < |w.errors|
  {
    w.(restarts := w.restarts[i := w.restarts[i] + 1], errors := w.errors[c := 0])
  }

  function HandleCritical(g: Wiring, w: State, i: nat): (r: State)
    requires Fits(g, w) && i < |g.monitored| && g.monitored[i].Some?
    ensures Fits(g, r) && r.cycles == w.cycles && r.lastSoc == w.lastSoc && r.sources == w.sources
    ensures Rank(r.mission) >= Rank(w.mission)
  {
    var c := g.monitored[i].value;
    var w' := Emit(g, w, 1);
    if !g.active[c] then w'
    else if w.restarts[i] < MAX_RESTARTS then Emit(g, Restart(w', i, c), 1)
    else Alarm(g, w', EMERGENCY)
  }

  function CheckSlot(g: Wiring, w: State, noise: seq<nat>, i: nat): (r: State)
    requires Fits(g, w) && i < |g.monitored| == |noise|
    ensures Fits(g, r) && r.cycles == w.cycles && r.lastSoc == w.lastSoc && r.sources == w.sources
    ensures Rank(r.mission) >= Rank(w.mission)
  {
    var w' := Noisy(g, w, noise, i);
    match HealthAt(g, w', i)
    case Critical => HandleCritical(g, w', i)
    case Warning => Emit(g, w', 1)
    case Nominal => w'
  }

  /** What a stretch of a run may do to the budget of slot `i`: spend it, up to the limit. */
  ghost predicate Charged(g: Wiring, w: State, r: State, i: nat)
    requires Fits(g, w) && Fits(g, r) && i < |g.monitored|
  {
    w.restarts[i] <= r.restarts[i] && (w.restarts[i] <= MAX_RESTARTS ==> r.restarts[i] <= MAX_RESTARTS)
  }

  /** A counter falls only for a component with a thread, and only if one of its slots was charged. */
  ghost predicate Accounted(g: Wiring, w: State, r: State, c: nat)
    requires Fits(g, w) && Fits(g, r) && c < |g.active|
  {
    r.errors[c] < w.errors[c] ==> g.active[c] && exists i :: PaidBy(g, w, r, c, i)
  }

  ghost predicate PaidBy(g: Wiring, w: State, r: State, c: nat, i: int)
    requires Fits(g, w) && Fits(g, r)
  {
    0 <= i < |g.monitored| && g.monitored[i] == Some(c) && w.restarts[i] < r.restarts[i]
  }

  ghost predicate RestartsPaid(g: Wiring, w: State, r: State)
    requires Fits(g, w) && Fits(g, r)
  {
    && (forall i: nat :: i < |g.monitored| ==> Charged(g, w, r, i))
    && (forall c: nat :: c < |g.active| ==> Accounted(g, w, r, c))
  }

  lemma {:induction false} PaidTransitive(g: Wiring, a: State, b: State, c: State)
    requires Fits(g, a) && Fits(g, b) && Fits(g, c) && RestartsPaid(g, a, b) && RestartsPaid(g, b, c)
    ensures RestartsPaid(g, a, c)
  {
    forall i: nat | i < |g.monitored|
      ensures Charged(g, a, c, i)
    {
      assert Charged(g, a, b, i) && Charged(g, b, c, i);
    }
    forall k: nat | k < |g.active|
      ensures Accounted(g, a, c, k)
    {
      assert Accounted(g, a, b, k) && Accounted(g, b, c, k);
      if b.errors[k] < a.errors[k] {
        var i :| PaidBy(g, a, b, k, i);
        assert Charged(g, b, c, i) && PaidBy(g, a, c, k, i);
      } else if c.errors[k] < b.errors[k] {
        var i :| PaidBy(g, b, c, k, i);
        assert Charged(g, a, b, i) && PaidBy(g, a, c, k, i);
      }
    }
  }

  lemma {:induction false} HandleCriticalPaid(g: Wiring, w: State, i: nat)
    requires Fits(g, w) && i < |g.monitored| && g.monitored[i].Some?
    ensures RestartsPaid(g, w, HandleCritical(g, w, i))
  {
    var c := g.monitored[i].value;
    var w' := Emit(g, w, 1);
    if g.active[c] && w.restarts[i] < MAX_RESTARTS {
      var r := Emit(g, Restart(w', i, c), 1);
      assert PaidBy(g, w, r, c, i);
    }
  }

  lemma {:induction false} CheckSlotPaid(g: Wiring, w: State, noise: seq<nat>, i: nat)
    requires Fits(g, w) && i < |g.monitored| == |noise|
    ensures RestartsPaid(g, w, CheckSlot(g, w, noise, i))
  {
    var w' := Noisy(g, w, noise, i);
    if HealthAt(g, w', i).Critical? {
      HandleCriticalPaid(g, w', i);
      PaidTransitive(g, w, w', HandleCritical(g, w', i));
    }
  }

  /** A pass over the slots: its state, and whether a critical or a warning report was seen. */
  datatype Sweep = Sweep(w: State, critical: bool, warning: bool)

  ghost predicate Later(g: Wiring, s: Sweep, r: Sweep) {
    && Fits(g, s.w) && Fits(g, r.w) && RestartsPaid(g, s.w, r.w)
    && r.w.cycles == s.w.cycles && r.w.lastSoc == s.w.lastSoc && r.w.sources == s.w.sources
    && Rank(r.w.mission) >= Rank(s.w.mission)
    && (s.critical ==> r.critical) && (s.warning ==> r.warning)
  }

  function Swept(g: Wiring, s: Sweep, noise: seq<nat>, i: nat): (r: Sweep)
    requires Fits(g, s.w) && i < |g.monitored| == |noise|
    ensures Fits(g, r.w) && r.w.cycles == s.w.cycles && r.w.lastSoc == s.w.lastSoc && r.w.sources == s.w.sources
    ensures Rank(r.w.mission) >= Rank(s.w.mission)
  {
    var health := HealthAt(g, Noisy(g, s.w, noise, i), i);
    Sweep(CheckSlot(g, s.w, noise, i), s.critical || health.Critical?, s.warning || health.Warning?)
  }

  /** The loop of `checkSubsystems` over the first `n` slots. */
  function SweepOf(g: Wiring, w: State, noise: seq<nat>, n: nat): (r: Sweep)
    requires Fits(g, w) && n <= |g.monitored| == |noise|
    ensures Fits(g, r.w) && r.w.cycles == w.cycles && r.w.lastSoc == w.lastSoc && r.w.sources == w.sources
    ensures Rank(r.w.mission) >= Rank(w.mission)
  {
    if n == 0 then Sweep(w, false, false) else Swept(g, SweepOf(g, w, noise, n - 1), noise, n - 1)
  }

  lemma {:induction false} SweptLater(g: Wiring, a: Sweep, s: Sweep, noise: seq<nat>, i: nat)
    requires Later(g, a, s) && i < |g.monitored| == |noise|
    ensures Later(g, a, Swept(g, s, noise, i))
  {
    CheckSlotPaid(g, s.w, noise, i);
    PaidTransitive(g, a.w, s.w, CheckSlot(g, s.w, noise, i));
  }

  lemma {:induction false} LaterSelf(g: Wiring, s: Sweep)
    requires Fits(g, s.w)
    ensures Later(g, s, s)
  {
  }

  /** What a pass found in its first `m` slots, it keeps. */
  lemma {:induction false} SweepLater(g: Wiring, w: State, noise: seq<nat>, m: nat, n: nat)
    requires Fits(g, w) && m <= n <= |g.monitored| == |noise|
    ensures Later(g, SweepOf(g, w, noise, m), SweepOf(g, w, noise, n))
    decreases n - m
  {
    if m == n {
      LaterSelf(g, SweepOf(g, w, noise, m));
    } else {
      var a, s := SweepOf(g, w, noise, m), SweepOf(g, w, noise, n - 1);
      SweepLater(g, w, noise, m, n - 1);
      SweptLater(g, a, s, noise, n - 1);
      assert SweepOf(g, w, noise, n) == Swept(g, s, noise, n - 1);
    }
  }

  /** The state that slot `i` of a pass reports from. */
  function SeenBy(g: Wiring, w: State, noise: seq<nat>, i: nat): (r: State)
    requires Fits(g, w) && i < |g.monitored| == |noise|
    ensures Fits(g, r)
  {
    Noisy(g, SweepOf(g, w, noise, i).w, noise, i)
  }

  function CheckSubsystems(g: Wiring, w: State, noise: seq<nat>): (r: State)
    requires Fits(g, w) && |g.monitored| == |noise|
    ensures Fits(g, r) && r.cycles == w.cycles && r.lastSoc == w.lastSoc && r.sources == w.sources
    ensures var s := SweepOf(g, w, noise, |noise|);
      && r.restarts == s.w.restarts && Grew(s.w.errors, r.errors) && Rank(r.mission) >= Rank(s.w.mission)
      && (s.critical || s.warning ==> Rank(r.mission) >= Rank(DEGRADED))
  {
    var s := SweepOf(g, w, noise, |noise|);
    if s.critical then Escalate(g, s.w, SAFE_MODE) else if s.warning then Escalate(g, s.w, DEGRADED) else s.w
  }

  // ---------------------------------------------------------------- recovery

  datatype Poll = Poll(w: State, allNominal: bool)

  /** The loop of `tryRecoverNominal` over the first `n` slots: it stops at the first that is not nominal. */
  function PollOf(g: Wiring, w: State, noise: seq<nat>, n: nat): (r: Poll)
    requires Fits(g, w) && n <= |g.monitored| == |noise|
    ensures Fits(g, r.w) && OnlyReported(w, r.w) && r.w.mission == w.mission
  {
    if n == 0 then Poll(w, true)
    else
      var p := PollOf(g, w, noise, n - 1);
      if !p.allNominal then p
      else
        var w' := Noisy(g, p.w, noise, n - 1);
        Poll(w', HealthAt(g, w', n - 1).Nominal?)
  }

  predicate Recoverable(s: MissionState) {
    s == DEGRADED || s == SAFE_MODE
  }

  function TryRecover(g: Wiring, w: State, noise: seq<nat>): (r: State)
    requires Fits(g, w) && |g.monitored| == |noise|
    ensures Fits(g, r) && r.restarts == w.restarts && Grew(w.errors, r.errors) && r.cycles == w.cycles
    ensures r.lastSoc == w.lastSoc && Effective(r.sources) == Effective(w.sources)
    ensures r.mission == w.mission || (Recoverable(w.mission) && r.mission == NOMINAL)
  {
    if !Recoverable(w.mission) then w
    else
      var p := PollOf(g, w, noise, |noise|);
      var w' := ReadThresholds(g, p.w);
      if p.allNominal && w.lastSoc > Effective(w.sources).recover then Emit(g, w', 1).(mission := NOMINAL) else w'
  }

  // ---------------------------------------------------------------- one step

  /** What a step takes from outside. */
  datatype Input = Input(
    samples: seq<real>, checkNoise: seq<nat>, pollNoise: seq<nat>, paramsIntact: bool, scrubbed: bool)

  ghost predicate Suits(g: Wiring, input: Input) {
    |input.checkNoise| == |input.pollNoise| == |g.monitored|
  }

  function PeriodicChecks(g: Wiring, w: State, paramsIntact: bool, scrubbed: bool): (r: State)
    requires Fits(g, w)
    ensures Fits(g, r) && r.restarts == w.restarts && Grew(w.errors, r.errors) && r.cycles == w.cycles
    ensures r.lastSoc == w.lastSoc && Effective(r.sources) == Effective(w.sources)
    ensures r.mission == if w.cycles % PARAM_CHECK_INTERVAL == 0 && !paramsIntact
                         then Worse(w.mission, SAFE_MODE) else w.mission
  {
    if w.cycles % PARAM_CHECK_INTERVAL != 0 then w
    else
      var w' := if paramsIntact then w else Alarm(g, w, SAFE_MODE);
      if scrubbed then Scrub(w') else w'
  }

  function Heartbeat(g: Wiring, w: State): (r: State)
    requires Fits(g, w)
    ensures Fits(g, r) && OnlyReported(w, r) && r.mission == w.mission
  {
    if w.cycles % HEARTBEAT_INTERVAL == 0 then Emit(g, w, 1) else w
  }

  /** The state when the battery queue is drained. */
  function Drained(g: Wiring, w: State, input: Input): (r: State)
    requires Fits(g, w)
    ensures Fits(g, r) && r.cycles == Bump(w.cycles) && Effective(r.sources) == Effective(w.sources)
    ensures r.restarts == w.restarts && Grew(w.errors, r.errors) && Rank(r.mission) >= Rank(w.mission)
    ensures r.lastSoc == LastOf(input.samples, w.lastSoc)
    ensures input.samples != [] ==> Rank(r.mission) >= Rank(Demanded(Effective(w.sources), r.lastSoc))
  {
    CheckBattery(g, w.(cycles := Bump(w.cycles)), input.samples, |input.samples|)
  }

  /** The state when the supervision passes are over and recovery is considered. */
  function Supervised(g: Wiring, w: State, input: Input): (r: State)
    requires Fits(g, w) && Suits(g, input)
    ensures Fits(g, r) && r.cycles == Bump(w.cycles) && Effective(r.sources) == Effective(w.sources)
    ensures r.lastSoc == LastOf(input.samples, w.lastSoc)
    ensures Rank(r.mission) >= Rank(Drained(g, w, input).mission)
  {
    CheckSubsystems(g, Drained(g, w, input), input.checkNoise)
  }

  /** What follows the supervision passes. */
  function Concluded(g: Wiring, w: State, input: Input): (r: State)
    requires Fits(g, w) && Suits(g, input)
    ensures Fits(g, r) && r.restarts == w.restarts && Grew(w.errors, r.errors)
    ensures Rank(r.mission) >= Rank(TryRecover(g, w, input.pollNoise).mission)
  {
    var w' := TryRecover(g, w, input.pollNoise);
    Heartbeat(g, PeriodicChecks(g, w', input.paramsIntact, input.scrubbed))
  }

  function Step(g: Wiring, w: State, input: Input): (r: State)
    requires Fits(g, w) && Suits(g, input)
    ensures Fits(g, r)
  {
    Concluded(g, Supervised(g, w, input), input)
  }

  // ---------------------------------------------------------------- battery safety

  /**
   Whatever the stores hold, a step that consumed samples ends at least as severe as its last
   sample demands of the thresholds in force, and recovery within the step cannot undo it.
   */
  lemma {:induction false} BatterySafety(g: Wiring, w: State, input: Input)
    requires Fits(g, w) && Suits(g, input) && input.samples != []
    ensures var t, soc := Effective(w.sources), input.samples[|input.samples| - 1];
      var s := Step(g, w, input).mission;
      && (soc <= t.emergency ==> s == EMERGENCY)
      && (soc <= t.safeMode ==> Rank(s) >= Rank(SAFE_MODE))
      && (soc <= t.degraded ==> Rank(s) >= Rank(DEGRADED))
  {
    var seen := Supervised(g, w, input);
    assert Rank(seen.mission) >= Rank(Demanded(Effective(w.sources), seen.lastSoc));
    DemandStands(g, seen, input);
  }

  /** Recovery and what follows it do not undo what the last level demands. */
  lemma {:induction false} DemandStands(g: Wiring, seen: State, input: Input)
    requires Fits(g, seen) && Suits(g, input)
    requires Rank(seen.mission) >= Rank(Demanded(Effective(seen.sources), seen.lastSoc))
    ensures Rank(Concluded(g, seen, input).mission) >= Rank(Demanded(Effective(seen.sources), seen.lastSoc))
  {
    var t := Effective(seen.sources);
    assert seen.lastSoc > t.recover ==> Demanded(t, seen.lastSoc) == BOOT;
  }

  /** Slot `i` reports nominal when the recovery pass comes to it. */
  predicate PolledNominal(g: Wiring, w: State, noise: seq<nat>, i: nat)
    requires Fits(g, w) && i < |g.monitored| == |noise|
  {
    HealthAt(g, Noisy(g, PollOf(g, w, noise, i).w, noise, i), i).Nominal?
  }

  /** The state that the supervision passes found can be lifted, and everything polled allows it. */
  ghost predicate Recovers(g: Wiring, seen: State, noise: seq<nat>)
    requires Fits(g, seen) && |g.monitored| == |noise|
  {
    && Recoverable(seen.mission) && seen.lastSoc > Effective(seen.sources).recover
    && forall i :: 0 <= i < |g.monitored| ==> PolledNominal(g, seen, noise, i)
  }

  lemma {:induction false} RecoveredMission(g: Wiring, seen: State, noise: seq<nat>)
    requires Fits(g, seen) && |g.monitored| == |noise|
    ensures TryRecover(g, seen, noise).mission == if Recovers(g, seen, noise) then NOMINAL else seen.mission
  {
    PollNominal(g, seen, noise, |noise|);
  }

  /** The step runs the parameter check, and it fails. */
  predicate ParamAlarm(w: State, input: Input) {
    Bump(w.cycles) % PARAM_CHECK_INTERVAL == 0 && !input.paramsIntact
  }

  /**
   Recovery, exactly. What its checks found is lifted if and only if it was DEGRADED or
   SAFE_MODE, every slot it polls reports nominal, and the last level seen is above the recovery
   threshold in force, which is never more than 100; a failed parameter check then raises the
   state again. So a step ends in NOMINAL in exactly two ways, whatever was entered within it
   or before it: its checks found nothing or were lifted, and no parameter check failed.
   */
  lemma {:induction false} RecoveryExactly(g: Wiring, w: State, input: Input)
    requires Fits(g, w) && Suits(g, input)
    ensures var seen, t := Supervised(g, w, input), Effective(w.sources);
      && seen.lastSoc == LastOf(input.samples, w.lastSoc) && Effective(seen.sources) == t
      && t.recover == (if t.degraded + 2.0 > 100.0 then 100.0 else t.degraded + 2.0)
      && var checked := if Recovers(g, seen, input.pollNoise) then NOMINAL else seen.mission;
      && Step(g, w, input).mission == (if ParamAlarm(w, input) then Worse(checked, SAFE_MODE) else checked)
      && (Step(g, w, input).mission == NOMINAL <==>
            !ParamAlarm(w, input) && (seen.mission == NOMINAL || Recovers(g, seen, input.pollNoise)))
  {
    var seen := Supervised(g, w, input);
    RecoveredMission(g, seen, input.pollNoise);
    assert TryRecover(g, seen, input.pollNoise).cycles == Bump(w.cycles);
  }

  lemma {:induction false} PollNominal(g: Wiring, w: State, noise: seq<nat>, n: nat)
    requires Fits(g, w) && n <= |g.monitored| == |noise|
    ensures PollOf(g, w, noise, n).allNominal
      <==> forall i :: 0 <= i < n ==> PolledNominal(g, w, noise, i)
  {
    if n > 0 {
      PollNominal(g, w, noise, n - 1);
      assert PollOf(g, w, noise, n - 1).allNominal ==>
        (PollOf(g, w, noise, n).allNominal <==> PolledNominal(g, w, noise, n - 1));
    }
  }

  lemma {:induction false} WorstKept(t: Thresholds, m: MissionState, samples: seq<real>, n: nat, k: nat)
    requires k < n <= |samples|
    ensures Rank(WorstOf(t, m, samples, n)) >= Rank(Demanded(t, samples[k]))
    decreases n
  {
    if k < n - 1 {
      WorstKept(t, m, samples, n - 1, k);
    }
  }

  /**
   Not only the last sample counts: after the step the state is at least as severe as every sample
   of the step demands, unless the step recovers; and no recovery undoes the demand for EMERGENCY.
   */
  lemma {:induction false} EverySampleCounts(g: Wiring, w: State, input: Input, k: nat)
    requires Fits(g, w) && Suits(g, input) && k < |input.samples|
    ensures var t, soc, s := Effective(w.sources), input.samples[k], Step(g, w, input).mission;
      && (soc <= t.emergency ==> s == EMERGENCY)
      && (Rank(s) >= Rank(Demanded(t, soc)) || Recovers(g, Supervised(g, w, input), input.pollNoise))
  {
    SampleDrained(g, w, input, k);
    RecoveryExactly(g, w, input);
    var seen := Supervised(g, w, input);
    assert Rank(seen.mission) >= Rank(Demanded(Effective(w.sources), input.samples[k]));
    assert seen.mission == EMERGENCY ==> !Recovers(g, seen, input.pollNoise);
  }

  lemma {:induction false} SampleDrained(g: Wiring, w: State, input: Input, k: nat)
    requires Fits(g, w) && Suits(g, input) && k < |input.samples|
    ensures Rank(Supervised(g, w, input).mission) >= Rank(Demanded(Effective(w.sources), input.samples[k]))
  {
    WorstKept(Effective(w.sources), w.mission, input.samples, |input.samples|, k);
  }

  // ---------------------------------------------------------------- runs

  /**
   What happens to the watchdog after `init`: a step, or something outside it. The stores are
   written or upset, the event queue is drained or filled, components record errors.
   */
  datatype Happening =
    | Stepped(input: Input)
    | Stored(sources: Option<Sources>)
    | Room(eventRoom: nat)
    | Erred(c: nat, n: nat)

  ghost predicate Possible(g: Wiring, h: Happening) {
    match h
    case Stepped(input) => Suits(g, input)
    case Erred(c, _) => c < |g.active|
    case _ => true
  }

  function After(g: Wiring, w: State, h: Happening): (r: State)
    requires Fits(g, w) && Possible(g, h)
    ensures Fits(g, r)
  {
    match h
    case Stepped(input) => Step(g, w, input)
    case Stored(sources) => w.(sources := sources)
    case Room(eventRoom) => w.(eventRoom := eventRoom)
    case Erred(c, n) => AddErrors(w, c, n)
  }

  ghost predicate AllPossible(g: Wiring, hs: seq<Happening>) {
    forall k :: 0 <= k < |hs| ==> Possible(g, hs[k])
  }

  function Run(g: Wiring, w: State, hs: seq<Happening>): (r: State)
    requires Fits(g, w) && AllPossible(g, hs)
    ensures Fits(g, r)
    decreases |hs|
  {
    if hs == [] then w else After(g, Run(g, w, hs[..|hs| - 1]), hs[|hs| - 1])
  }

  /** No run leaves EMERGENCY. */
  lemma {:induction false} EmergencyIsFinal(g: Wiring, w: State, hs: seq<Happening>)
    requires Fits(g, w) && AllPossible(g, hs) && w.mission == EMERGENCY
    ensures Run(g, w, hs).mission == EMERGENCY
    decreases |hs|
  {
    if hs != [] {
      EmergencyIsFinal(g, w, hs[..|hs| - 1]);
      StepKeepsEmergency(g, Run(g, w, hs[..|hs| - 1]), hs[|hs| - 1]);
    }
  }

  lemma {:induction false} StepKeepsEmergency(g: Wiring, w: State, h: Happening)
    requires Fits(g, w) && Possible(g, h) && w.mission == EMERGENCY
    ensures After(g, w, h).mission == EMERGENCY
  {
    if h.Stepped? {
      assert Rank(Supervised(g, w, h.input).mission) == 4;
    }
  }

  // ---------------------------------------------------------------- restarts

  /** One step never restarts beyond the budget, and clears no counter without paying. */
  lemma {:induction false} StepPaid(g: Wiring, w: State, input: Input)
    requires Fits(g, w) && Suits(g, input)
    ensures RestartsPaid(g, w, Step(g, w, input))
  {
    var w1 := Drained(g, w, input);
    var s := SweepOf(g, w1, input.checkNoise, |input.checkNoise|);
    SweepLater(g, w1, input.checkNoise, 0, |input.checkNoise|);
    PaidTransitive(g, w, w1, s.w);
    PaidTransitive(g, w, s.w, Step(g, w, input));
  }

  /** Over any run each slot is restarted at most three times in all. */
  lemma {:induction false} RestartBudget(g: Wiring, w: State, hs: seq<Happening>)
    requires Fits(g, w) && AllPossible(g, hs)
    ensures RestartsPaid(g, w, Run(g, w, hs))
    decreases |hs|
  {
    if hs != [] {
      var w' := Run(g, w, hs[..|hs| - 1]);
      RestartBudget(g, w, hs[..|hs| - 1]);
      if hs[|hs| - 1].Stepped? {
        StepPaid(g, w', hs[|hs| - 1].input);
      }
      PaidTransitive(g, w, w', Run(g, w, hs));
    }
  }

  /**
   A critical report of an active component whose restart budget is spent leaves the step in
   EMERGENCY.
   */
  lemma {:induction false} BudgetSpentIsEmergency(g: Wiring, w: State, input: Input, i: nat)
    requires Fits(g, w) && Suits(g, input) && i < |g.monitored|
    requires g.monitored[i].Some? && g.active[g.monitored[i].value]
    requires var seen := SeenBy(g, Drained(g, w, input), input.checkNoise, i);
      seen.restarts[i] >= MAX_RESTARTS && HealthAt(g, seen, i).Critical?
    ensures Step(g, w, input).mission == EMERGENCY
  {
    SpentSweep(g, Drained(g, w, input), input.checkNoise, i);
    assert Rank(Supervised(g, w, input).mission) == 4;
  }

  lemma {:induction false} SpentSweep(g: Wiring, w: State, noise: seq<nat>, i: nat)
    requires Fits(g, w) && i < |g.monitored| == |noise|
    requires g.monitored[i].Some? && g.active[g.monitored[i].value]
    requires SeenBy(g, w, noise, i).restarts[i] >= MAX_RESTARTS && HealthAt(g, SeenBy(g, w, noise, i), i).Critical?
    ensures Rank(SweepOf(g, w, noise, |noise|).w.mission) == 4
  {
    SpentSlot(g, SweepOf(g, w, noise, i), noise, i);
    SweepLater(g, w, noise, i + 1, |noise|);
  }

  lemma {:induction false} SpentSlot(g: Wiring, s: Sweep, noise: seq<nat>, i: nat)
    requires Fits(g, s.w) && i < |g.monitored| == |noise|
    requires g.monitored[i].Some? && g.active[g.monitored[i].value]
    requires Noisy(g, s.w, noise, i).restarts[i] >= MAX_RESTARTS && HealthAt(g, Noisy(g, s.w, noise, i), i).Critical?
    ensures Rank(Swept(g, s, noise, i).w.mission) >= Rank(EMERGENCY)
  {
  }

  // ---------------------------------------------------------------- passive components

  /** The errors of a component without a thread are never cleared. */
  lemma {:induction false} PassiveOnlyGrows(g: Wiring, w: State, hs: seq<Happening>, c: nat)
    requires Fits(g, w) && AllPossible(g, hs) && c < |g.active| && !g.active[c]
    ensures w.errors[c] <= Run(g, w, hs).errors[c]
  {
    RestartBudget(g, w, hs);
    assert Accounted(g, w, Run(g, w, hs), c);
  }

  /** A step that meets a monitored passive component with three errors, not wrapped, cannot end in NOMINAL. */
  lemma {:induction false} FaultySlotBlocksNominal(g: Wiring, w: State, input: Input, i: nat, c: nat)
    requires Fits(g, w) && Suits(g, input)
    requires i < |g.monitored| && g.monitored[i] == Some(c) && !g.active[c]
    requires WARNING_THRESHOLD <= w.errors[c] && Step(g, w, input).errors[c] < TWO32
    ensures Rank(Step(g, w, input).mission) >= Rank(DEGRADED)
  {
    var w2 := Supervised(g, w, input);
    FaultySlotSeen(g, Drained(g, w, input), input.checkNoise, i, c);
    if Recoverable(w2.mission) {
      PollBlocked(g, w2, input.pollNoise, i, c);
    }
  }

  lemma {:induction false} SmallMod32(x: nat)
    requires x < TWO32
    ensures x % TWO32 == x
  {
  }

  lemma {:induction false} FaultySlotSeen(g: Wiring, w: State, noise: seq<nat>, i: nat, c: nat)
    requires Fits(g, w) && |g.monitored| == |noise|
    requires i < |g.monitored| && g.monitored[i] == Some(c) && !g.active[c]
    requires WARNING_THRESHOLD <= w.errors[c] && CheckSubsystems(g, w, noise).errors[c] < TWO32
    ensures WARNING_THRESHOLD <= CheckSubsystems(g, w, noise).errors[c]
    ensures Rank(CheckSubsystems(g, w, noise).mission) >= Rank(DEGRADED)
  {
    SweepLater(g, w, noise, i + 1, |noise|);
    assert Accounted(g, SweepOf(g, w, noise, i + 1).w, SweepOf(g, w, noise, |noise|).w, c);
    SweepLater(g, w, noise, 0, i);
    assert Accounted(g, w, SweepOf(g, w, noise, i).w, c);
    FaultySlot(g, SweepOf(g, w, noise, i), noise, i, c);
  }

  lemma {:induction false} FaultySlot(g: Wiring, s: Sweep, noise: seq<nat>, i: nat, c: nat)
    requires Fits(g, s.w) && |g.monitored| == |noise|
    requires i < |g.monitored| && g.monitored[i] == Some(c) && !g.active[c]
    requires WARNING_THRESHOLD <= s.w.errors[c] && Swept(g, s, noise, i).w.errors[c] < TWO32
    ensures WARNING_THRESHOLD <= Swept(g, s, noise, i).w.errors[c]
    ensures Swept(g, s, noise, i).critical || Swept(g, s, noise, i).warning
  {
    var seen := Noisy(g, s.w, noise, i);
    assert seen.errors[c] <= CheckSlot(g, s.w, noise, i).errors[c];
    SmallMod32(seen.errors[c]);
  }

  lemma {:induction false} PollBlocked(g: Wiring, w: State, noise: seq<nat>, i: nat, c: nat)
    requires Fits(g, w) && |g.monitored| == |noise| && i < |g.monitored| && g.monitored[i] == Some(c)
    requires WARNING_THRESHOLD <= w.errors[c] && PollOf(g, w, noise, |noise|).w.errors[c] < TWO32
    ensures !PollOf(g, w, noise, |noise|).allNominal
  {
    if PollOf(g, w, noise, |noise|).allNominal {
      PollNominal(g, w, noise, |noise|);
      assert PolledNominal(g, w, noise, i);
      PollGrows(g, w, noise, i, |noise|, c);
      var seen := Noisy(g, PollOf(g, w, noise, i).w, noise, i);
      SmallMod32(seen.errors[c]);
      assert false;
    }
  }

  lemma {:induction false} PollGrows(g: Wiring, w: State, noise: seq<nat>, i: nat, n: nat, c: nat)
    requires Fits(g, w) && i < n <= |g.monitored| == |noise| && c < |g.active|
    requires PollOf(g, w, noise, n).allNominal
    ensures w.errors[c] <= Noisy(g, PollOf(g, w, noise, i).w, noise, i).errors[c] <= PollOf(g, w, noise, n).w.errors[c]
    decreases n - i
  {
    if i + 1 < n {
      PollGrows(g, w, noise, i, n - 1, c);
    }
  }

  /**
   Once a monitored component without a thread has three errors, no later step of any run ends
   in NOMINAL, as long as its counter does not wrap.
   */
  lemma {:induction false} PassiveFaultBlocksNominal(g: Wiring, w: State, hs: seq<Happening>, input: Input, i: nat,
    c: nat)
    requires Fits(g, w) && AllPossible(g, hs) && Suits(g, input)
    requires i < |g.monitored| && g.monitored[i] == Some(c) && !g.active[c]
    requires WARNING_THRESHOLD <= w.errors[c]
    requires Step(g, Run(g, w, hs), input).errors[c] < TWO32
    ensures Rank(Step(g, Run(g, w, hs), input).mission) >= Rank(DEGRADED)
  {
    PassiveOnlyGrows(g, w, hs, c);
    FaultySlotBlocksNominal(g, Run(g, w, hs), input, i, c);
  }

  // ---------------------------------------------------------------- parameters and thresholds

  /** A failed parameter check leaves the step at least in SAFE_MODE, whatever recovery did before it. */
  lemma {:induction false} ParamFaultIsSafeMode(g: Wiring, w: State, input: Input)
    requires Fits(g, w) && Suits(g, input) && !input.paramsIntact
    requires Bump(w.cycles) % PARAM_CHECK_INTERVAL == 0
    ensures Rank(Step(g, w, input).mission) >= Rank(SAFE_MODE)
  {
    assert TryRecover(g, Supervised(g, w, input), input.pollNoise).cycles == Bump(w.cycles);
  }

  /** An upset of any one copy of each threshold changes nothing that is in force. */
  lemma {:induction false} ThresholdsSurviveUpsets(
    emergency: real, safeMode: real, degraded: real, i: nat, j: nat, k: nat, x: real, y: real, z: real)
    requires i < 3 && j < 3 && k < 3
    ensures
      var sound := Sources([emergency, emergency, emergency], [safeMode, safeMode, safeMode],
        [degraded, degraded, degraded]);
      var upset := Sources(sound.emergency[i := x], sound.safeMode[j := y], sound.degraded[k := z]);
      Effective(Some(upset)) == Effective(Some(sound)) && HealAll(Some(upset)) == Some(sound)
  {
    SingleUpsetHealed(emergency, i, x);
    SingleUpsetHealed(safeMode, j, y);
    SingleUpsetHealed(degraded, k, z);
  }

  /** A configuration fault, or its repair, is reported once: reading again changes nothing. */
  lemma {:induction false} FaultReportedOnce(g: Wiring, w: State)
    requires Fits(g, w)
    ensures ReadThresholds(g, ReadThresholds(g, w)) == ReadThresholds(g, w)
  {
    var r := ReadThresholds(g, w);
    if w.sources.Some? {
      assert HealAll(HealAll(w.sources)) == HealAll(w.sources);
      assert r.sources == HealAll(w.sources);
    }
  }

  // ---------------------------------------------------------------- what does not hold

  /**
   SAFE_MODE entered for a component with a thread can be lifted in the step that entered it:
   the restart clears the errors before the recovery pass polls them.
   */
  lemma {:induction false} RestartedComponentRecoversAtOnce()
    ensures
      var g := Wiring([false, true], 0, [Some(1)]);
      var w := State(NOMINAL, 0, 90.0, false, [0, 10], [0], 8, None);
      var input := Input([], [0], [0], true, false);
      Fits(g, w) && Suits(g, input)
      && Supervised(g, w, input).mission == SAFE_MODE && Step(g, w, input).mission == NOMINAL
  {
    var g := Wiring([false, true], 0, [Some(1)]);
    var w := State(NOMINAL, 0, 90.0, false, [0, 10], [0], 8, None);
    var input := Input([], [0], [0], true, false);
    var w1 := w.(cycles := 1);
    assert CheckBattery(g, w1, [], 0) == w1;
    var seen := Noisy(g, w1, [0], 0);
    assert HealthAt(g, seen, 0).Critical?;
    var s := SweepOf(g, w1, [0], 1);
    assert s.critical && s.w.mission == NOMINAL;
    assert s.w.errors == [0, 0];
    var w2 := Supervised(g, w, input);
    assert w2.errors == [0, 0] && w2.mission == SAFE_MODE;
    assert PollOf(g, w2, [0], 0) == Poll(w2, true);
    assert PollOf(g, w2, [0], 1).allNominal;
  }

  /** SAFE_MODE entered for a parameter mismatch can be lifted by the next step. */
  lemma {:induction false} ParamFaultLiftedNextStep()
    ensures
      var g := Wiring([false], 0, []);
      var w := State(NOMINAL, 29, 90.0, false, [0], [], 8, None);
      var bad, good := Input([], [], [], false, false), Input([], [], [], true, false);
      Fits(g, w) && Suits(g, bad) && Suits(g, good)
      && Step(g, w, bad).mission == SAFE_MODE && Step(g, Step(g, w, bad), good).mission == NOMINAL
  {
    var g := Wiring([false], 0, []);
    var w := State(NOMINAL, 29, 90.0, false, [0], [], 8, None);
    var bad, good := Input([], [], [], false, false), Input([], [], [], true, false);
    assert Supervised(g, w, bad).mission == NOMINAL;
    var s := Step(g, w, bad);
    assert s.mission == SAFE_MODE && s.cycles == 30 && s.lastSoc == 90.0;
    assert Supervised(g, s, good).mission == SAFE_MODE;
    assert PollOf(g, Supervised(g, s, good), [], 0).allNominal;
  }
}
