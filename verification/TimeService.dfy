/**
 The monotone UTC clock of `src/TimeService.hpp`: any number of threads in the
 compare-and-swap loop of `getUtcUnixMs`, while the offset is changed at will and the swap
 may fail spuriously. Milliseconds are unbounded integers.
 */
module TimeService {

  type Thread = nat

  function Max(a: int, b: int): int {
    if a < b then b else a
  }

  /** `(utc_ms < 0) ? 0 : utc_ms`. */
  function RawUtc(met: int, offset: int): (r: nat) {
    if met + offset < 0 then 0 else met + offset
  }

  // ---------------------------------------------------------------- the loop alone

  /**
   One call, told what the shared cell holds at the first load and at each failed attempt;
   the attempt after those succeeds.
   */
  method GetUtcUnixMs(met: int, offset: int, first: nat, failures: seq<nat>) returns (candidate: nat)
    requires forall i :: 0 <= i < |failures| ==> first <= failures[i]
    requires forall i, j :: 0 <= i < j < |failures| ==> failures[i] <= failures[j]
    ensures candidate == Max(RawUtc(met, offset), if failures == [] then first else failures[|failures| - 1])
  {
    candidate := RawUtc(met, offset);
    var last, k := first, 0;
    while true
      invariant k <= |failures| && last == if k == 0 then first else failures[k - 1]
      invariant RawUtc(met, offset) <= candidate
      invariant candidate == RawUtc(met, offset) || candidate <= last
      decreases |failures| - k
    {
      if candidate < last {
        candidate := last;
      }
      if k == |failures| {
        return;
      }
      last, k := failures[k], k + 1;
    }
  }

  // ---------------------------------------------------------------- all threads

  datatype Pc =
    | Idle
    | NeedMet(started: nat)
    | NeedOffset(started: nat, met: nat)
    | NeedLast(started: nat, raw: nat)
    | Clamp(started: nat, raw: nat, candidate: nat, last: nat)
    | Swap(started: nat, raw: nat, candidate: nat, last: nat)
    | Committed(started: nat, commit: nat, value: nat)

  /** One successful swap: the thread's own raw time, the cell before, and the cell after. */
  datatype Commit = Commit(raw: nat, before: nat, value: nat)

  /** One return: how many calls had returned when this one began, its own commit, its value. */
  datatype Return = Return(started: nat, commit: nat, value: nat)

  datatype State = State(met: nat, offset: int, cell: nat, pcs: map<Thread, Pc>, commits: seq<Commit>,
    returned: seq<Return>)

  datatype Step =
    | Tick(elapsed: nat)
    | SetOffset(offset: int)
    | Begin(thread: Thread)
    | Advance(thread: Thread, spurious: bool)

  function PcOf(s: State, t: Thread): Pc {
    if t in s.pcs then s.pcs[t] else Idle
  }

  predicate Enabled(s: State, step: Step) {
    match step
    case Begin(t) => PcOf(s, t).Idle?
    case Advance(t, _) => !PcOf(s, t).Idle?
    case _ => true
  }

  function Next(s: State, step: Step): State
    requires Enabled(s, step)
  {
    match step
    case Tick(elapsed) => s.(met := s.met + elapsed)
    case SetOffset(offset) => s.(offset := offset)
    case Begin(t) => s.(pcs := s.pcs[t := NeedMet(|s.returned|)])
    case Advance(t, spurious) =>
      match PcOf(s, t)
      case Idle => s
      case NeedMet(k) => s.(pcs := s.pcs[t := NeedOffset(k, s.met)])
      case NeedOffset(k, met) => s.(pcs := s.pcs[t := NeedLast(k, RawUtc(met, s.offset))])
      case NeedLast(k, raw) => s.(pcs := s.pcs[t := Clamp(k, raw, raw, s.cell)])
      case Clamp(k, raw, c, last) => s.(pcs := s.pcs[t := Swap(k, raw, if c < last then last else c, last)])
      case Swap(k, raw, c, last) =>
        if s.cell == last && !spurious
        then s.(cell := c, pcs := s.pcs[t := Committed(k, |s.commits|, c)],
          commits := s.commits + [Commit(raw, s.cell, c)])
        else s.(pcs := s.pcs[t := Clamp(k, raw, c, s.cell)])
      case Committed(k, n, v) => s.(pcs := s.pcs[t := Idle], returned := s.returned + [Return(k, n, v)])
  }

  predicate Initial(s: State) {
    s.cell == 0 && s.pcs == map[] && s.commits == [] && s.returned == []
  }

  // ---------------------------------------------------------------- invariant

  /** Every value returned so far, up to the `k`-th, is at most `v`. */
  ghost predicate AtLeastReturned(s: State, k: nat, v: nat) {
    k <= |s.returned| && forall i :: 0 <= i < k ==> s.returned[i].value <= v
  }

  ghost predicate Started(s: State, pc: Pc) {
    !pc.Idle? ==> AtLeastReturned(s, pc.started, s.cell)
  }

  ghost predicate Knows(s: State, pc: Pc) {
    match pc
    case Clamp(_, raw, c, last) => raw <= c && (c == raw || c <= last) && last <= s.cell
    case Swap(_, raw, c, last) => raw <= c && last <= c && (c == raw || c <= last) && last <= s.cell
    case Committed(k, n, v) =>
      AtLeastReturned(s, k, v) && v <= s.cell && n < |s.commits| && s.commits[n].value == v
    case _ => true
  }

  /** The cell before the `i`-th commit. */
  function CellBefore(commits: seq<Commit>, i: nat): nat
    requires i <= |commits|
  {
    if i == 0 then 0 else commits[i - 1].value
  }

  ghost predicate Chain(commits: seq<Commit>) {
    forall i {:trigger CellBefore(commits, i)} :: 0 <= i < |commits| ==>
      && commits[i].value == Max(commits[i].raw, commits[i].before)
      && commits[i].before == CellBefore(commits, i)
  }

  ghost predicate CommitsOk(s: State) {
    Chain(s.commits) && s.cell == CellBefore(s.commits, |s.commits|)
  }

  /** A call that began after another had returned does not return less. */
  ghost predicate ReturnsOk(s: State) {
    forall j :: 0 <= j < |s.returned| ==>
      s.returned[j].started <= j
      && s.returned[j].value <= s.cell
      && s.returned[j].commit < |s.commits| && s.commits[s.returned[j].commit].value == s.returned[j].value
      && forall i :: 0 <= i < s.returned[j].started ==> s.returned[i].value <= s.returned[j].value
  }

  ghost predicate Inv(s: State) {
    && CommitsOk(s) && ReturnsOk(s)
    && (forall t: Thread :: Started(s, PcOf(s, t)))
    && (forall t: Thread :: Knows(s, PcOf(s, t)))
  }

  lemma {:induction false} InitialInv(s: State)
    requires Initial(s)
    ensures Inv(s)
  {
  }

  lemma {:induction false} CellNeverDecreases(s: State, step: Step)
    requires Inv(s) && Enabled(s, step)
    ensures s.cell <= Next(s, step).cell
  {
    if step.Advance? {
      assert Knows(s, PcOf(s, step.thread));
    }
  }

  /** The logs only grow, and keep what they hold. */
  lemma {:induction false} LogsGrow(s: State, step: Step)
    requires Enabled(s, step)
    ensures |s.returned| <= |Next(s, step).returned| && |s.commits| <= |Next(s, step).commits|
    ensures forall i :: 0 <= i < |s.returned| ==> Next(s, step).returned[i] == s.returned[i]
    ensures forall i :: 0 <= i < |s.commits| ==> Next(s, step).commits[i] == s.commits[i]
  {
  }

  lemma {:induction false} ThreadStarted(s: State, step: Step, t: Thread)
    requires Inv(s) && Enabled(s, step)
    ensures Started(Next(s, step), PcOf(Next(s, step), t))
  {
    CellNeverDecreases(s, step);
    LogsGrow(s, step);
    assert Started(s, PcOf(s, t)) && Knows(s, PcOf(s, t));
  }

  lemma {:induction false} ThreadKnows(s: State, step: Step, t: Thread)
    requires Inv(s) && Enabled(s, step)
    ensures Started(Next(s, step), PcOf(Next(s, step), t)) && Knows(Next(s, step), PcOf(Next(s, step), t))
  {
    CellNeverDecreases(s, step);
    LogsGrow(s, step);
    ThreadStarted(s, step, t);
    assert Started(s, PcOf(s, t)) && Knows(s, PcOf(s, t));
    var s' := Next(s, step);
    if PcOf(s', t) == PcOf(s, t) {
      KnowsLater(s, s', PcOf(s, t));
    }
  }

  /** What a thread knows stays true while the cell and the logs grow. */
  lemma {:induction false} KnowsLater(s: State, s': State, pc: Pc)
    requires Knows(s, pc) && s.cell <= s'.cell
    requires |s.returned| <= |s'.returned| && |s.commits| <= |s'.commits|
    requires forall i :: 0 <= i < |s.returned| ==> s'.returned[i] == s.returned[i]
    requires forall i :: 0 <= i < |s.commits| ==> s'.commits[i] == s.commits[i]
    ensures Knows(s', pc)
  {
  }

  lemma {:induction false} LogsNext(s: State, step: Step)
    requires Inv(s) && Enabled(s, step)
    ensures CommitsOk(Next(s, step)) && ReturnsOk(Next(s, step))
  {
    CellNeverDecreases(s, step);
    if step.Advance? {
      assert Knows(s, PcOf(s, step.thread)) && Started(s, PcOf(s, step.thread));
    }
    var s' := Next(s, step);
    forall i | 0 <= i < |s'.commits|
      ensures s'.commits[i].value == Max(s'.commits[i].raw, s'.commits[i].before)
      ensures s'.commits[i].before == CellBefore(s'.commits, i)
    {
      assert CellBefore(s'.commits, i) == CellBefore(s.commits, i);
    }
  }

  lemma {:induction false} NextInv(s: State, step: Step)
    requires Inv(s) && Enabled(s, step)
    ensures Inv(Next(s, step))
  {
    LogsNext(s, step);
    forall t: Thread
      ensures Started(Next(s, step), PcOf(Next(s, step), t)) && Knows(Next(s, step), PcOf(Next(s, step), t))
    {
      ThreadKnows(s, step, t);
    }
  }

  // ---------------------------------------------------------------- runs

  ghost predicate Runs(s: State, steps: seq<Step>)
    decreases |steps|
  {
    steps != [] ==> Enabled(s, steps[0]) && Runs(Next(s, steps[0]), steps[1..])
  }

  function Final(s: State, steps: seq<Step>): State
    requires Runs(s, steps)
    decreases |steps|
  {
    if steps == [] then s else Final(Next(s, steps[0]), steps[1..])
  }

  lemma {:induction false} RunInv(s: State, steps: seq<Step>)
    requires Inv(s) && Runs(s, steps)
    ensures Inv(Final(s, steps)) && s.cell <= Final(s, steps).cell
    decreases |steps|
  {
    if steps != [] {
      NextInv(s, steps[0]);
      CellNeverDecreases(s, steps[0]);
      RunInv(Next(s, steps[0]), steps[1..]);
    }
  }

  lemma {:induction false} CommitsSorted(commits: seq<Commit>, i: nat, j: nat)
    requires Chain(commits) && i <= j < |commits|
    ensures commits[i].value <= commits[j].value
    decreases j
  {
    if i < j {
      CommitsSorted(commits, i, j - 1);
      assert CellBefore(commits, j) == commits[j - 1].value;
    }
  }

  /**
   Over every run of any number of threads: the committed values never decrease, each commit
   is the larger of the caller's own raw time and the value committed before it, each call
   returns its commit, and a call that begins after another returned never returns less.
   */
  lemma {:induction false} UtcIsMonotone(s: State, steps: seq<Step>)
    requires Initial(s) && Runs(s, steps)
    ensures var e := Final(s, steps);
      && (forall i, j :: 0 <= i <= j < |e.commits| ==> e.commits[i].value <= e.commits[j].value)
      && (forall i :: 0 < i < |e.commits| ==> e.commits[i].value == Max(e.commits[i].raw, e.commits[i - 1].value))
      && (forall j :: 0 <= j < |e.returned| ==>
            e.returned[j].commit < |e.commits| && e.returned[j].value == e.commits[e.returned[j].commit].value)
      && (forall i, j :: 0 <= i < j < |e.returned| && i < e.returned[j].started ==>
            e.returned[i].value <= e.returned[j].value)
  {
    InitialInv(s);
    RunInv(s, steps);
    var e := Final(s, steps);
    forall i | 0 < i < |e.commits| ensures e.commits[i].value == Max(e.commits[i].raw, e.commits[i - 1].value) {
      assert CellBefore(e.commits, i) == e.commits[i - 1].value;
    }
    forall i, j | 0 <= i <= j < |e.commits| ensures e.commits[i].value <= e.commits[j].value {
      CommitsSorted(e.commits, i, j);
    }
  }
}
