/**
 What a component tells the rest of the system, `src/Component.hpp`: events and telemetry through
 ports that may refuse them, and an error counter that counts the refusals too.
 */
module Health {
  import opened Words

  datatype Severity = INFO | WARNING | CRITICAL

  datatype Report = Report(severity: Severity, message: string)

  /**
   The error counter, the free room of the event queue, and the reports it took. `issued` and
   `faults` only record the past: all reports, and all errors that are not refused reports.
   */
  datatype Outlet = Outlet(errors: u32, room: nat, delivered: seq<Report>, issued: nat, faults: nat)

  function RecordError(o: Outlet): Outlet {
    o.(errors := Bump(o.errors), faults := o.faults + 1)
  }

  /** `publishEvent`: a report that finds no room costs an error. */
  function Publish(o: Outlet, severity: Severity, message: string): Outlet {
    var o' := o.(issued := o.issued + 1);
    if o.room == 0 then o'.(errors := Bump(o.errors))
    else o'.(room := o.room - 1, delivered := o.delivered + [Report(severity, message)])
  }

  /** The telemetry frame at the end of a step. */
  function Show(o: Outlet, ok: bool): Outlet {
    if ok then o else RecordError(o)
  }

  function Fresh(room: nat): (o: Outlet)
    ensures Accounted(o)
  {
    Outlet(0, room, [], 0, 0)
  }

  /** The counter is exact: faults and refused reports, nothing else. */
  ghost predicate Accounted(o: Outlet) {
    |o.delivered| <= o.issued && o.errors == (o.faults + (o.issued - |o.delivered|)) % TWO32
  }

  lemma {:induction false} RecordErrorAccounted(o: Outlet)
    requires Accounted(o)
    ensures Accounted(RecordError(o))
  {
    CounterAdd(0, o.faults + (o.issued - |o.delivered|), 1);
  }

  lemma {:induction false} PublishAccounted(o: Outlet, severity: Severity, message: string)
    requires Accounted(o)
    ensures Accounted(Publish(o, severity, message))
  {
    CounterAdd(0, o.faults + (o.issued - |o.delivered|), 1);
  }
}
