/**
 The supervisor as the code runs it: `WatchdogComponent` updates its fields in place, and each
 of its methods does to the state what module Watchdog says.
 */
module WatchdogComponent {
  import opened Wrappers
  import opened Words
  import opened MissionFsm
  import TmrStore
  import W = Watchdog

  const MAX_MONITORED_SUBSYSTEMS := 32

  class Component {
    const active: seq<bool>
    const self: nat
    var errors: seq<nat>
    var eventRoom: nat
    var monitored: seq<Option<nat>>
    var restartCounts: seq<nat>
    var missionState: MissionState
    var cycles: u32
    var lastBattSoc: real
    var faultLatched: bool
    var emergencySrc: TmrStore.Store?<real>
    var safeModeSrc: TmrStore.Store?<real>
    var degradedSrc: TmrStore.Store?<real>

    ghost predicate Valid()
      reads this, Stores()
    {
      && StoresValid()
      && |monitored| <= MAX_MONITORED_SUBSYSTEMS && W.Fits(Wiring(), State())
    }

    ghost function Stores(): set<TmrStore.Store<real>>
      reads this
    {
      if HasThresholdSources() then {emergencySrc, safeModeSrc, degradedSrc} else {}
    }

    ghost predicate StoresValid()
      reads this, Stores()
    {
      HasThresholdSources() ==> emergencySrc.Valid() && safeModeSrc.Valid() && degradedSrc.Valid()
    }

    predicate HasThresholdSources()
      reads this
    {
      emergencySrc != null && safeModeSrc != null && degradedSrc != null
    }

    ghost function Wiring(): W.Wiring
      reads this
    {
      W.Wiring(active, self, monitored)
    }

    ghost function Sources(): Option<W.Sources>
      reads this, Stores()
      requires StoresValid()
    {
      if HasThresholdSources() then
        Some(W.Sources(emergencySrc.copies, safeModeSrc.copies, degradedSrc.copies))
      else None
    }

    ghost function State(): W.State
      reads this, Stores()
      requires StoresValid()
    {
      W.State(missionState, cycles, lastBattSoc, faultLatched, errors, restartCounts, eventRoom, Sources())
    }

    constructor (active: seq<bool>, self: nat)
      requires self < |active|
      ensures Valid() && Wiring() == W.Wiring(active, self, [])
      ensures State() == W.State(BOOT, 0, 100.0, false, seq(|active|, _ => 0), [], 0, None)
    {
      this.active, this.self := active, self;
      errors, eventRoom := seq(|active|, _ => 0), 0;
      monitored, restartCounts := [], [];
      missionState, cycles, lastBattSoc, faultLatched := BOOT, 0, 100.0, false;
      emergencySrc, safeModeSrc, degradedSrc := null, null, null;
    }

    /** Registration beyond the table is ignored. */
    method RegisterSubsystem(comp: Option<nat>)
      requires Valid() && (comp.Some? ==> comp.value < |active|)
      modifies `monitored, `restartCounts
      ensures Valid()
      ensures var room := |old(monitored)| < MAX_MONITORED_SUBSYSTEMS;
        && monitored == (if room then old(monitored) + [comp] else old(monitored))
        && State() == old(State()).(restarts := if room then old(restartCounts) + [0] else old(restartCounts))
    {
      if |monitored| < MAX_MONITORED_SUBSYSTEMS {
        monitored := monitored + [comp];
        restartCounts := restartCounts + [0];
      }
    }

    method SetBatteryThresholdSources(
      emergency: TmrStore.Store?<real>, safeMode: TmrStore.Store?<real>, degraded: TmrStore.Store?<real>)
      requires Valid()
      requires emergency != null ==> emergency.Valid()
      requires safeMode != null ==> safeMode.Valid()
      requires degraded != null ==> degraded.Valid()
      modifies `emergencySrc, `safeModeSrc, `degradedSrc
      ensures Valid() && State() == old(State()).(sources := Sources())
      ensures Sources() == if emergency == null || safeMode == null || degraded == null then None
                           else Some(W.Sources(emergency.copies, safeMode.copies, degraded.copies))
    {
      emergencySrc, safeModeSrc, degradedSrc := emergency, safeMode, degraded;
    }

    method Init()
      requires Valid()
      modifies `missionState, `lastBattSoc, `eventRoom, `errors
      ensures Valid() && State() == W.Emit(Wiring(), old(State()).(mission := NOMINAL, lastSoc := 100.0), 1)
    {
      missionState := NOMINAL;
      lastBattSoc := 100.0;
      Emit();
    }

    method RecordError(c: nat, n: nat)
      requires Valid() && c < |active|
      modifies `errors
      ensures Valid() && State() == W.AddErrors(old(State()), c, n)
    {
      errors := errors[c := errors[c] + n];
    }

    method Emit()
      requires Valid()
      modifies `eventRoom, `errors
      ensures Valid() && State() == W.Emit(Wiring(), old(State()), 1)
    {
      if eventRoom > 0 {
        eventRoom := eventRoom - 1;
        assert errors == errors[self := errors[self] + 0];
      } else {
        RecordError(self, 1);
      }
    }

    method Escalate(next: MissionState)
      requires Valid()
      modifies `missionState, `eventRoom, `errors
      ensures Valid() && State() == W.Escalate(Wiring(), old(State()), next)
    {
      if Rank(next) > Rank(missionState) {
        missionState := next;
        Emit();
      } else {
        assert errors == errors[self := errors[self] + 0];
      }
    }

    method Alarm(next: MissionState)
      requires Valid()
      modifies `missionState, `eventRoom, `errors
      ensures Valid() && State() == W.Alarm(Wiring(), old(State()), next)
    {
      Emit();
      Escalate(next);
    }

    /** Read the configured thresholds, healing their stores. */
    method ReadStores() returns (t: W.Thresholds)
      requires Valid() && HasThresholdSources()
      modifies Stores()
      ensures Valid() && State() == W.Scrub(old(State()))
      ensures t == W.Voted(old(Sources()).value)
    {
      var emergency := emergencySrc.Read();
      var safeMode := safeModeSrc.Read();
      var degraded := degradedSrc.Read();
      var recover := degraded + 2.0;
      if recover > W.BATT_MAX {
        recover := W.BATT_MAX;
      }
      t := W.Thresholds(emergency, safeMode, degraded, recover);
      assert Sources() == W.HealAll(old(Sources()));
    }

    method CurrentBatteryThresholds() returns (t: W.Thresholds)
      requires Valid()
      modifies `faultLatched, `eventRoom, `errors, Stores()
      ensures Valid() && State() == W.ReadThresholds(Wiring(), old(State()))
      ensures t == W.Effective(old(Sources()))
    {
      t := W.DEFAULTS;
      if !HasThresholdSources() {
        return;
      }
      var configured := ReadStores();
      if !W.Sane(configured) {
        if !faultLatched {
          Emit();
          RecordError(self, 1);
          faultLatched := true;
        }
        return;
      }
      if faultLatched {
        Emit();
        faultLatched := false;
      }
      t := configured;
    }

    method ProcessBattery(batt: real)
      requires Valid()
      modifies `missionState, `lastBattSoc, `faultLatched, `eventRoom, `errors, Stores()
      ensures Valid() && State() == W.ProcessBattery(Wiring(), old(State()), batt)
    {
      var t := CurrentBatteryThresholds();
      lastBattSoc := batt;
      if batt <= t.emergency {
        Alarm(EMERGENCY);
      } else if batt <= t.safeMode {
        Alarm(SAFE_MODE);
      } else if batt <= t.degraded {
        Alarm(DEGRADED);
      }
    }

    /** Drain the battery port, whose queue holds `samples`. */
    method CheckBattery(samples: seq<real>)
      requires Valid()
      modifies `missionState, `lastBattSoc, `faultLatched, `eventRoom, `errors, Stores()
      ensures Valid() && State() == W.CheckBattery(Wiring(), old(State()), samples, |samples|)
    {
      for k := 0 to |samples|
        invariant Valid() && State() == W.CheckBattery(Wiring(), old(State()), samples, k)
      {
        ghost var before := State();
        ProcessBattery(samples[k]);
        assert State() == W.ProcessBattery(Wiring(), before, samples[k]);
      }
    }

    /** The health of slot `i`, after other threads recorded `noise` errors on its component. */
    method ReportHealth(i: nat, noise: seq<nat>) returns (h: W.Health)
      requires Valid() && i < |monitored| == |noise| && monitored[i].Some?
      modifies `errors
      ensures Valid() && State() == W.Noisy(Wiring(), old(State()), noise, i)
      ensures h == W.HealthAt(Wiring(), State(), i)
    {
      var c := monitored[i].value;
      RecordError(c, noise[i]);
      var errs := errors[c] % TWO32;
      h := if errs >= W.CRITICAL_THRESHOLD then W.Critical
           else if errs >= W.WARNING_THRESHOLD then W.Warning else W.Nominal;
    }

    method HandleCritical(i: nat)
      requires Valid() && i < |monitored| && monitored[i].Some?
      modifies `missionState, `restartCounts, `eventRoom, `errors
      ensures Valid() && State() == W.HandleCritical(Wiring(), old(State()), i)
    {
      var c := monitored[i].value;
      Emit();
      if active[c] {
        if restartCounts[i] < W.MAX_RESTARTS {
          restartCounts := restartCounts[i := restartCounts[i] + 1];
          errors := errors[c := 0];
          Emit();
        } else {
          Alarm(EMERGENCY);
        }
      }
    }

    method CheckSlot(i: nat, noise: seq<nat>) returns (h: W.Health)
      requires Valid() && i < |monitored| == |noise|
      modifies `missionState, `restartCounts, `eventRoom, `errors
      ensures Valid() && State() == W.CheckSlot(Wiring(), old(State()), noise, i)
      ensures h == W.HealthAt(Wiring(), W.Noisy(Wiring(), old(State()), noise, i), i)
    {
      h := W.Nominal;
      if monitored[i].None? {
        return;
      }
      h := ReportHealth(i, noise);
      if h.Critical? {
        HandleCritical(i);
      } else if h.Warning? {
        Emit();
      }
    }

    method CheckSubsystems(noise: seq<nat>)
      requires Valid() && |monitored| == |noise|
      modifies `missionState, `restartCounts, `eventRoom, `errors
      ensures Valid() && State() == W.CheckSubsystems(Wiring(), old(State()), noise)
    {
      var anyCritical, anyWarning := false, false;
      for i := 0 to |monitored|
        invariant Valid()
        invariant W.Sweep(State(), anyCritical, anyWarning) == W.SweepOf(Wiring(), old(State()), noise, i)
      {
        var h := CheckSlot(i, noise);
        if h.Critical? {
          anyCritical := true;
        } else if h.Warning? {
          anyWarning := true;
        }
      }
      if anyCritical {
        Escalate(SAFE_MODE);
      } else if anyWarning {
        Escalate(DEGRADED);
      }
    }

    /** Poll every slot until one is not nominal. */
    method AllNominal(noise: seq<nat>) returns (allNominal: bool)
      requires Valid() && |monitored| == |noise|
      modifies `errors
      ensures Valid() && W.Poll(State(), allNominal) == W.PollOf(Wiring(), old(State()), noise, |noise|)
    {
      allNominal := true;
      var i := 0;
      while i < |monitored|
        invariant 0 <= i <= |monitored| && Valid() && allNominal
        invariant W.Poll(State(), true) == W.PollOf(Wiring(), old(State()), noise, i)
      {
        if monitored[i].Some? {
          var h := ReportHealth(i, noise);
          if !h.Nominal? {
            allNominal := false;
            PollStops(Wiring(), old(State()), noise, i + 1, |noise|);
            return;
          }
        }
        i := i + 1;
      }
    }

    method TryRecoverNominal(noise: seq<nat>)
      requires Valid() && |monitored| == |noise|
      modifies `missionState, `faultLatched, `eventRoom, `errors, Stores()
      ensures Valid() && State() == W.TryRecover(Wiring(), old(State()), noise)
    {
      if missionState != DEGRADED && missionState != SAFE_MODE {
        return;
      }
      var allNominal := AllNominal(noise);
      ghost var polled := State();
      var t := CurrentBatteryThresholds();
      assert State() == W.ReadThresholds(Wiring(), polled);
      if allNominal && lastBattSoc > t.recover {
        Emit();
        missionState := NOMINAL;
      }
    }

    /** What the registry's scrub does to the stores, when they are registered with it. */
    method ScrubStores()
      requires Valid()
      modifies Stores()
      ensures Valid() && State() == W.Scrub(old(State()))
    {
      if HasThresholdSources() {
        emergencySrc.Scrub();
        safeModeSrc.Scrub();
        degradedSrc.Scrub();
        assert Sources() == W.HealAll(old(Sources()));
      }
    }

    /** Every thirtieth cycle: the parameter check and the scrub. */
    method PeriodicChecks(paramsIntact: bool, scrubbed: bool)
      requires Valid()
      modifies `missionState, `eventRoom, `errors, Stores()
      ensures Valid() && State() == W.PeriodicChecks(Wiring(), old(State()), paramsIntact, scrubbed)
    {
      if cycles % W.PARAM_CHECK_INTERVAL == 0 {
        if !paramsIntact {
          Alarm(SAFE_MODE);
        }
        if scrubbed {
          ScrubStores();
        }
      }
    }

    method Heartbeat()
      requires Valid()
      modifies `eventRoom, `errors
      ensures Valid() && State() == W.Heartbeat(Wiring(), old(State()))
    {
      if cycles % W.HEARTBEAT_INTERVAL == 0 {
        Emit();
      }
    }

    method Supervise(input: W.Input)
      requires Valid() && W.Suits(Wiring(), input)
      modifies `missionState, `cycles, `lastBattSoc, `faultLatched, `restartCounts, `eventRoom, `errors, Stores()
      ensures Valid() && State() == W.Supervised(Wiring(), old(State()), input)
    {
      cycles := Bump(cycles);
      CheckBattery(input.samples);
      CheckSubsystems(input.checkNoise);
    }

    method Conclude(input: W.Input)
      requires Valid() && W.Suits(Wiring(), input)
      modifies `missionState, `faultLatched, `eventRoom, `errors, Stores()
      ensures Valid() && State() == W.Concluded(Wiring(), old(State()), input)
    {
      TryRecoverNominal(input.pollNoise);
      PeriodicChecks(input.paramsIntact, input.scrubbed);
      Heartbeat();
    }

    method Step(input: W.Input)
      requires Valid() && W.Suits(Wiring(), input)
      modifies `missionState, `cycles, `lastBattSoc, `faultLatched, `restartCounts, `eventRoom, `errors, Stores()
      ensures Valid() && State() == W.Step(Wiring(), old(State()), input)
    {
      Supervise(input);
      Conclude(input);
    }
  }

  lemma {:induction false} PollStops(g: W.Wiring, w: W.State, noise: seq<nat>, m: nat, n: nat)
    requires W.Fits(g, w) && m <= n <= |g.monitored| == |noise| && !W.PollOf(g, w, noise, m).allNominal
    ensures W.PollOf(g, w, noise, n) == W.PollOf(g, w, noise, m)
    decreases n - m
  {
    if m < n {
      PollStops(g, w, noise, m, n - 1);
    }
  }
}
