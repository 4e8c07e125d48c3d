/**
 The command gate of `src/MissionFsm.hpp`.
 */
module MissionFsm {

  datatype MissionState = BOOT | NOMINAL | DEGRADED | SAFE_MODE | EMERGENCY

  datatype OpClass = HOUSEKEEPING | OPERATIONAL | RESTRICTED

  /** The value of the enumeration, which orders the states by severity. */
  function Rank(s: MissionState): (r: nat)
    ensures r <= 4
  {
    match s
    case BOOT => 0
    case NOMINAL => 1
    case DEGRADED => 2
    case SAFE_MODE => 3
    case EMERGENCY => 4
  }

  predicate IsAllowed(stateRaw: nat, cls: OpClass) {
    if stateRaw == 0 then cls == HOUSEKEEPING
    else if stateRaw == 1 then true
    else if stateRaw == 2 then cls == HOUSEKEEPING || cls == OPERATIONAL
    else if stateRaw == 3 then cls == HOUSEKEEPING
    else false
  }

  /**
   The table as the header comments promise it, class by class: housekeeping everywhere but
   in EMERGENCY, operational in NOMINAL and DEGRADED only, restricted in NOMINAL only.
   */
  lemma {:induction false} PolicyByClass(s: MissionState)
    ensures IsAllowed(Rank(s), HOUSEKEEPING) <==> s != EMERGENCY
    ensures IsAllowed(Rank(s), OPERATIONAL) <==> s == NOMINAL || s == DEGRADED
    ensures IsAllowed(Rank(s), RESTRICTED) <==> s == NOMINAL
  {
  }

  /** Getting worse never opens the gate: outside BOOT the allowed classes shrink with severity. */
  lemma {:induction false} GateClosesWithSeverity(s: MissionState, worse: MissionState, cls: OpClass)
    requires s != BOOT && Rank(s) <= Rank(worse) && IsAllowed(Rank(worse), cls)
    ensures IsAllowed(Rank(s), cls)
  {
  }
}
