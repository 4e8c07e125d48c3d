/**
 The delay scheduler: `src/CommandSequencerComponent.hpp`. It keeps release times in the 32-bit
 mission clock, which wraps; this module proves its timing against the unbounded clock.

 A clock reading is the number of milliseconds since the epoch, and the code sees it modulo
 2^32. A float argument is a real, or nothing when it is not finite.
 */
module CommandSequencer {
  import opened Wrappers
  import opened Words
  import opened Counting
  import opened Health

  const MAX_SCHEDULED := 16
  const HALF := 0x8000_0000

  const OP_SET_TARGET := 1
  const OP_SET_OPCODE := 2
  const OP_SET_ARGUMENT := 3
  const OP_COMMIT_DELAY_SECONDS := 4
  const OP_CLEAR_QUEUE := 5

  datatype Command = Command(target: u32, opcode: u32, argument: Option<real>)

  // ---------------------------------------------------------------- the wrapping clock

  /** Unsigned 32-bit subtraction. */
  function Elapsed(now: u32, release: u32): u32 {
    if now >= release then now - release else now - release + TWO32
  }

  predicate IsDue(now: u32, release: u32) {
    Elapsed(now, release) < HALF
  }

  /** The release time that a commit at `at` stores. */
  function ReleaseOf(at: nat, delay: u32): u32 {
    (at % TWO32 + delay) % TWO32
  }

  lemma {:induction false} ElapsedSince(t: nat, at: nat, delay: u32)
    ensures Elapsed(t % TWO32, ReleaseOf(at, delay)) == (t - at - delay) % TWO32
  {
  }

  /** Across any number of wraps: a scan less than half a turn past the due time judges it rightly. */
  lemma {:induction false} DueIff(t: nat, at: nat, delay: u32)
    requires at <= t && delay <= HALF && t - (at + delay) < HALF
    ensures IsDue(t % TWO32, ReleaseOf(at, delay)) <==> at + delay <= t
  {
    ElapsedSince(t, at, delay);
  }

  /** A commit is never released early if and only if its delay is at most half a turn. */
  lemma {:induction false} NeverEarlyIff(at: nat, delay: u32)
    ensures (forall t: nat :: at <= t < at + delay ==> !IsDue(t % TWO32, ReleaseOf(at, delay))) <==> delay <= HALF
  {
    if delay <= HALF {
      forall t: nat | at <= t < at + delay
        ensures !IsDue(t % TWO32, ReleaseOf(at, delay))
      {
        DueIff(t, at, delay);
      }
    } else {
      ElapsedSince(at, at, delay);
      assert IsDue(at % TWO32, ReleaseOf(at, delay));
    }
  }

  // ---------------------------------------------------------------- state and history

  /** A slot of the queue. The code does not keep `id`, the number of the commit that filled it. */
  datatype Entry = Entry(active: bool, release: u32, cmd: Command, id: nat)

  /** A commit: what, when, with which delay, into which slot, and after how many scans. */
  datatype Commit = Commit(cmd: Command, at: nat, delay: u32, slot: nat, before: nat)

  /** What became of a commit: `scan` and `before` count the scans so far. */
  datatype Fate = Queued | Attempted(scan: nat, sent: bool) | Cleared(before: nat)

  /** `scans` are the clock readings of the scans so far, `clock` is the last reading of any kind. */
  datatype History = History(start: nat, clock: nat, commits: seq<Commit>, fates: seq<Fate>, scans: seq<nat>)

  datatype State = State(queue: seq<Entry>, staged: Command, h: History)

  function FreeSlot(queue: seq<Entry>): (i: nat)
    ensures i <= |queue|
    ensures i < |queue| ==> !queue[i].active
    ensures forall k :: 0 <= k < i ==> queue[k].active
  {
    if queue == [] || !queue[0].active then 0 else 1 + FreeSlot(queue[1..])
  }

  /** `scheduleCommandInMs` with the clock at `now`; refused when no slot is free. */
  function Schedule(s: State, cmd: Command, delay: u32, now: nat): (r: State)
    ensures Held(s) ==> Held(r)
  {
    var i := FreeSlot(s.queue);
    if i == |s.queue| then s.(h := s.h.(clock := now))
    else
      var id := |s.h.commits|;
      s.(queue := s.queue[i := Entry(true, ReleaseOf(now, delay), cmd, id)],
         h := s.h.(clock := now, commits := s.h.commits + [Commit(cmd, now, delay, i, |s.h.scans|)],
                   fates := s.h.fates + [Queued]))
  }

  function Deactivated(queue: seq<Entry>): seq<Entry> {
    seq(|queue|, i requires 0 <= i < |queue| => queue[i].(active := false))
  }

  function Clear(s: State, now: nat): (r: State)
    ensures Held(s) ==> Held(r)
  {
    var fates := s.h.fates;
    s.(queue := Deactivated(s.queue),
       h := s.h.(clock := now, fates := seq(|fates|, i requires 0 <= i < |fates| =>
         if fates[i].Queued? then Cleared(|s.h.scans|) else fates[i])))
  }

  function ToNonNegativeUint(value: Option<real>): u32 {
    if value.None? || value.value <= 0.0 then 0
    else if value.value >= 4294967295.0 then 0xFFFF_FFFF
    else value.value.Floor
  }

  /** Seconds to milliseconds, saturating; what is negative or not finite is no delay. */
  function DelayMs(seconds: Option<real>): u32 {
    var ms := (if seconds.None? || seconds.value < 0.0 then 0.0 else seconds.value) * 1000.0;
    if ms >= 4294967295.0 then 0xFFFF_FFFF else ms.Floor
  }

  function Handle(s: State, cmd: Command, now: nat): (r: State)
    ensures Held(s) ==> Held(r)
  {
    if cmd.opcode == OP_SET_TARGET then
      s.(staged := s.staged.(target := ToNonNegativeUint(cmd.argument)), h := s.h.(clock := now))
    else if cmd.opcode == OP_SET_OPCODE then
      s.(staged := s.staged.(opcode := ToNonNegativeUint(cmd.argument)), h := s.h.(clock := now))
    else if cmd.opcode == OP_SET_ARGUMENT then
      s.(staged := s.staged.(argument := cmd.argument), h := s.h.(clock := now))
    else if cmd.opcode == OP_COMMIT_DELAY_SECONDS then Schedule(s, s.staged, DelayMs(cmd.argument), now)
    else if cmd.opcode == OP_CLEAR_QUEUE then Clear(s, now)
    else s.(h := s.h.(clock := now))
  }

  /** Slot `i` is due: its command is sent, or fails to be, and the slot is free again. */
  function Attempt(s: State, i: nat, sent: bool): State
    requires i < |s.queue| && s.queue[i].id < |s.h.fates| && s.h.scans != []
  {
    s.(queue := s.queue[i := s.queue[i].(active := false)],
       h := s.h.(fates := s.h.fates[s.queue[i].id := Attempted(|s.h.scans| - 1, sent)]))
  }

  /** Every slot in use holds a commit of the history. */
  ghost predicate Held(s: State) {
    |s.queue| == MAX_SCHEDULED && |s.h.fates| == |s.h.commits|
    && forall i :: 0 <= i < |s.queue| && s.queue[i].active ==> s.queue[i].id < |s.h.fates|
  }

  function ScanSlot(s: State, i: nat, now: nat, sent: bool): (r: State)
    requires Held(s) && i < MAX_SCHEDULED && s.h.scans != []
    ensures Held(r) && |r.h.fates| == |s.h.fates| && r.h == s.h.(fates := r.h.fates)
    ensures forall j :: 0 <= j < MAX_SCHEDULED && j != i ==> r.queue[j] == s.queue[j]
  {
    if s.queue[i].active && IsDue(now % TWO32, s.queue[i].release) then Attempt(s, i, sent) else s
  }

  /** The scan of a step at clock reading `now`, over the first `n` slots; `sends` are the port's answers. */
  function ScanOf(s: State, now: nat, sends: seq<bool>, n: nat): (r: State)
    requires Held(s) && n <= MAX_SCHEDULED == |sends|
    ensures Held(r) && |r.h.fates| == |s.h.fates| && r.h.scans == s.h.scans + [now] && r.h.commits == s.h.commits
    ensures r.h.clock == now && r.h.start == s.h.start
    ensures forall i :: n <= i < MAX_SCHEDULED ==> r.queue[i] == s.queue[i]
  {
    if n == 0 then s.(h := s.h.(clock := now, scans := s.h.scans + [now]))
    else
      ScanSlot(ScanOf(s, now, sends, n - 1), n - 1, now, sends[n - 1])
  }

  // ---------------------------------------------------------------- what runs keep

  function Due(c: Commit): nat {
    c.at + c.delay
  }

  predicate Timely(c: Commit) {
    c.delay <= HALF
  }

  /** No scan from the commit up to scan number `k` was at or after the due time. */
  ghost predicate NotDueBefore(h: History, c: Commit, k: nat)
    requires k <= |h.scans|
  {
    forall j: nat :: c.before <= j < k ==> h.scans[j] < Due(c)
  }

  ghost predicate SlotOk(s: State, i: nat)
    requires Held(s) && i < MAX_SCHEDULED
  {
    var e := s.queue[i];
    e.active ==>
      && s.h.fates[e.id] == Queued && s.h.commits[e.id].slot == i && e.cmd == s.h.commits[e.id].cmd
      && e.release == ReleaseOf(s.h.commits[e.id].at, s.h.commits[e.id].delay)
  }

  /**
   What the history says of commit `id`, when the last scan has passed the first `n` slots. A
   commit that was attempted was attempted by the first scan at or after its due time.
   */
  ghost predicate FateOk(s: State, id: nat, n: nat)
    requires Held(s) && id < |s.h.commits|
  {
    var c, k := s.h.commits[id], |s.h.scans|;
    && c.slot < MAX_SCHEDULED && c.before <= k && c.at <= s.h.clock && LastBefore(s.h, c.before) <= c.at
    && match s.h.fates[id]
       case Queued =>
         && s.queue[c.slot].active && s.queue[c.slot].id == id
         && (n <= c.slot ==> c.before < k)
         && (Timely(c) ==> NotDueBefore(s.h, c, if n <= c.slot && k > 0 then k - 1 else k))
       case Attempted(scan, _) =>
         && c.before <= scan < k
         && (Timely(c) ==> Due(c) <= s.h.scans[scan] && NotDueBefore(s.h, c, scan))
       case Cleared(before) =>
         && c.before <= before <= k
         && (Timely(c) ==> NotDueBefore(s.h, c, before))
  }

  /** The reading of the scan before number `k`, or of the start. */
  function LastBefore(h: History, k: nat): nat
    requires k <= |h.scans|
  {
    if k == 0 then h.start else h.scans[k - 1]
  }

  ghost predicate ClockOk(h: History) {
    && h.start <= h.clock
    && forall j :: 0 <= j < |h.scans| ==> LastBefore(h, j) <= h.scans[j] <= h.clock
  }

  ghost predicate Inv(s: State, n: nat) {
    && Held(s) && ClockOk(s.h)
    && (forall i: nat :: i < MAX_SCHEDULED ==> SlotOk(s, i))
    && (forall id: nat :: id < |s.h.commits| ==> FateOk(s, id, n))
  }

  // ---------------------------------------------------------------- each operation keeps it

  lemma {:induction false} ScheduleKeepsInv(s: State, cmd: Command, delay: u32, now: nat)
    requires Inv(s, MAX_SCHEDULED) && s.h.clock <= now
    ensures Inv(Schedule(s, cmd, delay, now), MAX_SCHEDULED)
  {
    var r := Schedule(s, cmd, delay, now);
    var k := FreeSlot(s.queue);
    if k < |s.queue| {
      forall i: nat | i < MAX_SCHEDULED
        ensures SlotOk(r, i)
      {
        assert SlotOk(s, i);
      }
      forall id: nat | id < |r.h.commits|
        ensures FateOk(r, id, MAX_SCHEDULED)
      {
        if id < |s.h.commits| {
          assert FateOk(s, id, MAX_SCHEDULED);
        }
      }
    } else {
      OnlyClock(s, r, now);
    }
  }

  /** A later reading of the clock alone disturbs nothing. */
  lemma {:induction false} OnlyClock(s: State, r: State, now: nat)
    requires Inv(s, MAX_SCHEDULED) && s.h.clock <= now
    requires r.queue == s.queue && r.h == s.h.(clock := now)
    ensures Inv(r, MAX_SCHEDULED)
  {
    forall i: nat | i < MAX_SCHEDULED
      ensures SlotOk(r, i)
    {
      assert SlotOk(s, i);
    }
    forall id: nat | id < |r.h.commits|
      ensures FateOk(r, id, MAX_SCHEDULED)
    {
      assert FateOk(s, id, MAX_SCHEDULED);
    }
  }

  lemma {:induction false} ClearKeepsInv(s: State, now: nat)
    requires Inv(s, MAX_SCHEDULED) && s.h.clock <= now
    ensures Inv(Clear(s, now), MAX_SCHEDULED)
  {
    var r := Clear(s, now);
    forall id: nat | id < |r.h.commits|
      ensures FateOk(r, id, MAX_SCHEDULED)
    {
      assert FateOk(s, id, MAX_SCHEDULED);
    }
  }

  lemma {:induction false} HandleKeepsInv(s: State, cmd: Command, now: nat)
    requires Inv(s, MAX_SCHEDULED) && s.h.clock <= now
    ensures Inv(Handle(s, cmd, now), MAX_SCHEDULED)
  {
    if cmd.opcode == OP_COMMIT_DELAY_SECONDS {
      ScheduleKeepsInv(s, s.staged, DelayMs(cmd.argument), now);
    } else if cmd.opcode == OP_CLEAR_QUEUE {
      ClearKeepsInv(s, now);
    } else {
      OnlyClock(s, Handle(s, cmd, now), now);
    }
  }

  /** A scan soon enough after the one before it. */
  predicate InTime(s: State, now: nat) {
    s.h.clock <= now && now - LastBefore(s.h, |s.h.scans|) < HALF
  }

  lemma {:induction false} ScanBegins(s: State, now: nat, sends: seq<bool>)
    requires Inv(s, MAX_SCHEDULED) && InTime(s, now) && |sends| == MAX_SCHEDULED
    ensures Inv(ScanOf(s, now, sends, 0), 0)
  {
    var r := ScanOf(s, now, sends, 0);
    forall i: nat | i < MAX_SCHEDULED
      ensures SlotOk(r, i)
    {
      assert SlotOk(s, i);
    }
    forall id: nat | id < |r.h.commits|
      ensures FateOk(r, id, 0)
    {
      assert FateOk(s, id, MAX_SCHEDULED);
    }
  }

  /** The verdict on slot `i`, whose commit is timely, is right. */
  lemma {:induction false} SlotJudged(r: State, i: nat, now: nat)
    requires Inv(r, i) && i < MAX_SCHEDULED && r.queue[i].active && r.h.scans != []
    requires r.h.scans[|r.h.scans| - 1] == now == r.h.clock && now - LastBefore(r.h, |r.h.scans| - 1) < HALF
    requires Timely(r.h.commits[r.queue[i].id])
    ensures IsDue(now % TWO32, r.queue[i].release) <==> Due(r.h.commits[r.queue[i].id]) <= now
  {
    var id := r.queue[i].id;
    var c, k := r.h.commits[id], |r.h.scans|;
    assert SlotOk(r, i) && FateOk(r, id, i);
    if c.before < k - 1 {
      assert LastBefore(r.h, k - 1) < Due(c);
    }
    DueIff(now, c.at, c.delay);
  }

  lemma {:induction false} AttemptKeepsInv(r: State, i: nat, now: nat, sent: bool)
    requires Inv(r, i) && i < MAX_SCHEDULED && r.queue[i].active && r.h.scans != []
    requires r.h.scans[|r.h.scans| - 1] == now
    requires Timely(r.h.commits[r.queue[i].id]) ==> Due(r.h.commits[r.queue[i].id]) <= now
    ensures Inv(Attempt(r, i, sent), i + 1)
  {
    var r' := Attempt(r, i, sent);
    assert SlotOk(r, i);
    forall j: nat | j < MAX_SCHEDULED
      ensures SlotOk(r', j)
    {
      assert SlotOk(r, j);
    }
    var n := i + 1;
    forall id: nat | id < |r'.h.commits|
      ensures FateOk(r', id, n)
    {
      assert FateOk(r, id, i);
    }
  }

  lemma {:induction false} PassKeepsInv(r: State, i: nat, now: nat)
    requires Inv(r, i) && i < MAX_SCHEDULED && r.h.scans != []
    requires r.h.scans[|r.h.scans| - 1] == now
    requires r.queue[i].active && Timely(r.h.commits[r.queue[i].id]) ==> now < Due(r.h.commits[r.queue[i].id])
    ensures Inv(r, i + 1)
  {
    var n := i + 1;
    forall id: nat | id < |r.h.commits|
      ensures FateOk(r, id, n)
    {
      assert FateOk(r, id, i);
    }
  }

  lemma {:induction false} ScanKeepsInv(s: State, now: nat, sends: seq<bool>, n: nat)
    requires Inv(s, MAX_SCHEDULED) && InTime(s, now) && n <= MAX_SCHEDULED == |sends|
    ensures Inv(ScanOf(s, now, sends, n), n)
  {
    if n == 0 {
      ScanBegins(s, now, sends);
    } else {
      ScanKeepsInv(s, now, sends, n - 1);
      var r := ScanOf(s, now, sends, n - 1);
      assert LastBefore(r.h, |r.h.scans| - 1) == LastBefore(s.h, |s.h.scans|);
      SlotKeepsInv(r, n - 1, now, sends[n - 1]);
    }
  }

  lemma {:induction false} SlotKeepsInv(r: State, i: nat, now: nat, sent: bool)
    requires Inv(r, i) && i < MAX_SCHEDULED && r.h.scans != []
    requires r.h.scans[|r.h.scans| - 1] == now == r.h.clock && now - LastBefore(r.h, |r.h.scans| - 1) < HALF
    ensures Inv(ScanSlot(r, i, now, sent), i + 1)
  {
    if r.queue[i].active && Timely(r.h.commits[r.queue[i].id]) {
      SlotJudged(r, i, now);
    }
    if r.queue[i].active && IsDue(now % TWO32, r.queue[i].release) {
      AttemptKeepsInv(r, i, now, sent);
    } else {
      PassKeepsInv(r, i, now);
    }
  }

  // ---------------------------------------------------------------- runs

  /**
   One thing that happens to the sequencer: a command is handled, another component schedules
   one, or the scan and the telemetry that end every step; each with its own reading of the clock.
   */
  datatype Happening =
    | Handled(cmd: Command, now: nat)
    | Scheduled(cmd: Command, delay: u32, now: nat)
    | Scanned(now: nat, sends: seq<bool>, shown: bool)

  /** The clock does not run backwards, and scans are less than half a turn apart. */
  ghost predicate Possible(s: State, e: Happening) {
    match e
    case Handled(_, now) => s.h.clock <= now
    case Scheduled(_, _, now) => s.h.clock <= now
    case Scanned(now, sends, _) => InTime(s, now) && |sends| == MAX_SCHEDULED
  }

  function After(s: State, e: Happening): (r: State)
    requires Held(s) && Possible(s, e)
    ensures Held(r)
  {
    match e
    case Handled(cmd, now) => Handle(s, cmd, now)
    case Scheduled(cmd, delay, now) => Schedule(s, cmd, delay, now)
    case Scanned(now, sends, _) => ScanOf(s, now, sends, MAX_SCHEDULED)
  }

  lemma {:induction false} AfterKeepsInv(s: State, e: Happening)
    requires Inv(s, MAX_SCHEDULED) && Possible(s, e)
    ensures Inv(After(s, e), MAX_SCHEDULED)
  {
    match e
    case Handled(cmd, now) => HandleKeepsInv(s, cmd, now);
    case Scheduled(cmd, delay, now) => ScheduleKeepsInv(s, cmd, delay, now);
    case Scanned(now, sends, _) => ScanKeepsInv(s, now, sends, MAX_SCHEDULED);
  }

  /** Every happening of the list is possible where it occurs. */
  ghost predicate Runs(s: State, es: seq<Happening>)
    requires Held(s)
    decreases |es|
  {
    es != [] ==> Possible(s, es[0]) && Runs(After(s, es[0]), es[1..])
  }

  function Final(s: State, es: seq<Happening>): (r: State)
    requires Held(s) && Runs(s, es)
    ensures Held(r)
    decreases |es|
  {
    if es == [] then s else Final(After(s, es[0]), es[1..])
  }

  lemma {:induction false} FinalKeepsInv(s: State, es: seq<Happening>)
    requires Inv(s, MAX_SCHEDULED) && Runs(s, es)
    ensures Inv(Final(s, es), MAX_SCHEDULED)
    decreases |es|
  {
    if es != [] {
      AfterKeepsInv(s, es[0]);
      FinalKeepsInv(After(s, es[0]), es[1..]);
    }
  }

  /** What is settled stays settled. */
  ghost predicate Settled(s: State, r: State)
    requires Held(s) && Held(r)
  {
    && s.h.commits <= r.h.commits && s.h.scans <= r.h.scans
    && forall id :: 0 <= id < |s.h.fates| && !s.h.fates[id].Queued? ==> r.h.fates[id] == s.h.fates[id]
  }

  lemma {:induction false} ScanSettles(s: State, now: nat, sends: seq<bool>, n: nat)
    requires Inv(s, MAX_SCHEDULED) && InTime(s, now) && n <= MAX_SCHEDULED == |sends|
    ensures Settled(s, ScanOf(s, now, sends, n))
  {
    if n > 0 {
      ScanSettles(s, now, sends, n - 1);
      ScanKeepsInv(s, now, sends, n - 1);
      SlotSettles(ScanOf(s, now, sends, n - 1), n - 1, now, sends[n - 1]);
    }
  }

  lemma {:induction false} SlotSettles(r: State, i: nat, now: nat, sent: bool)
    requires Inv(r, i) && i < MAX_SCHEDULED && r.h.scans != []
    ensures Settled(r, ScanSlot(r, i, now, sent))
  {
    assert SlotOk(r, i);
  }

  lemma {:induction false} AfterSettles(s: State, e: Happening)
    requires Inv(s, MAX_SCHEDULED) && Possible(s, e)
    ensures Inv(After(s, e), MAX_SCHEDULED) && Settled(s, After(s, e))
  {
    AfterKeepsInv(s, e);
    if e.Scanned? {
      ScanSettles(s, e.now, e.sends, MAX_SCHEDULED);
    }
  }

  lemma {:induction false} FinalSettles(s: State, es: seq<Happening>)
    requires Inv(s, MAX_SCHEDULED) && Runs(s, es)
    ensures Settled(s, Final(s, es))
    decreases |es|
  {
    if es != [] {
      AfterSettles(s, es[0]);
      FinalSettles(After(s, es[0]), es[1..]);
    }
  }

  /** An empty queue at clock reading `start`. */
  function Initial(start: nat, staged: Command): (s: State)
    ensures Inv(s, MAX_SCHEDULED)
  {
    State(seq(MAX_SCHEDULED, _ => Entry(false, 0, staged, 0)), staged, History(start, start, [], [], []))
  }

  /**
   The sequencer keeps its promise over every run, whatever the number of wraps: a commit with a
   delay of at most half a turn is attempted by the first scan at or after its due time and by no
   other, unless the queue was cleared first; while it waits, no scan has reached its due time.
   That an attempt is never repeated is `FinalSettles`.
   */
  lemma {:induction false} AttemptedOnceOnTime(start: nat, staged: Command, es: seq<Happening>, id: nat)
    requires Runs(Initial(start, staged), es)
    requires id < |Final(Initial(start, staged), es).h.commits|
    ensures var h := Final(Initial(start, staged), es).h;
      var c := h.commits[id];
      && |h.fates| == |h.commits| && c.before <= |h.scans|
      && match h.fates[id]
         case Attempted(k, _) =>
           c.before <= k < |h.scans| && (c.delay <= HALF ==> c.at + c.delay <= h.scans[k] && NotDueBefore(h, c, k))
         case Queued => c.delay <= HALF ==> NotDueBefore(h, c, |h.scans|)
         case Cleared(before) =>
           c.before <= before <= |h.scans| && (c.delay <= HALF ==> NotDueBefore(h, c, before))
  {
    FinalKeepsInv(Initial(start, staged), es);
    assert FateOk(Final(Initial(start, staged), es), id, MAX_SCHEDULED);
  }

  // ---------------------------------------------------------------- conservation

  predicate IsQueued(f: Fate) {
    f.Queued?
  }

  predicate IsSent(f: Fate) {
    f.Attempted? && f.sent
  }

  predicate IsFailed(f: Fate) {
    f.Attempted? && !f.sent
  }

  predicate IsCleared(f: Fate) {
    f.Cleared?
  }

  predicate IsActive(e: Entry) {
    e.active
  }

  lemma {:induction false} EachFateCounted(fates: seq<Fate>)
    ensures |fates| == Count(fates, IsSent) + Count(fates, IsFailed) + Count(fates, IsCleared) + Count(fates, IsQueued)
  {
    if fates != [] {
      EachFateCounted(fates[..|fates| - 1]);
    }
  }

  ghost predicate Balanced(s: State) {
    Count(s.h.fates, IsQueued) == Count(s.queue, IsActive)
  }

  lemma {:induction false} ScheduleBalances(s: State, cmd: Command, delay: u32, now: nat)
    requires Inv(s, MAX_SCHEDULED) && Balanced(s)
    ensures Balanced(Schedule(s, cmd, delay, now))
  {
    var i := FreeSlot(s.queue);
    if i < |s.queue| {
      CountUpdate(s.queue, i, Entry(true, ReleaseOf(now, delay), cmd, |s.h.commits|), IsActive);
      CountAppend(s.h.fates, Queued, IsQueued);
    }
  }

  lemma {:induction false} ScanBalances(s: State, now: nat, sends: seq<bool>, n: nat)
    requires Inv(s, MAX_SCHEDULED) && InTime(s, now) && Balanced(s) && n <= MAX_SCHEDULED == |sends|
    ensures Balanced(ScanOf(s, now, sends, n))
  {
    if n > 0 {
      ScanBalances(s, now, sends, n - 1);
      ScanKeepsInv(s, now, sends, n - 1);
      SlotBalances(ScanOf(s, now, sends, n - 1), n - 1, now, sends[n - 1]);
    }
  }

  lemma {:induction false} SlotBalances(r: State, i: nat, now: nat, sent: bool)
    requires Inv(r, i) && i < MAX_SCHEDULED && r.h.scans != [] && Balanced(r)
    ensures Balanced(ScanSlot(r, i, now, sent))
  {
    var e := r.queue[i];
    if e.active && IsDue(now % TWO32, e.release) {
      assert SlotOk(r, i);
      CountUpdate(r.queue, i, e.(active := false), IsActive);
      CountUpdate(r.h.fates, e.id, Attempted(|r.h.scans| - 1, sent), IsQueued);
    }
  }

  lemma {:induction false} ClearBalances(s: State, now: nat)
    ensures Balanced(Clear(s, now))
  {
    CountNone(Clear(s, now).queue, IsActive);
    CountNone(Clear(s, now).h.fates, IsQueued);
  }

  lemma {:induction false} HandleBalances(s: State, cmd: Command, now: nat)
    requires Inv(s, MAX_SCHEDULED) && Balanced(s)
    ensures Balanced(Handle(s, cmd, now))
  {
    if cmd.opcode == OP_COMMIT_DELAY_SECONDS {
      ScheduleBalances(s, s.staged, DelayMs(cmd.argument), now);
    } else if cmd.opcode == OP_CLEAR_QUEUE {
      ClearBalances(s, now);
    }
  }

  lemma {:induction false} AfterBalances(s: State, e: Happening)
    requires Inv(s, MAX_SCHEDULED) && Possible(s, e) && Balanced(s)
    ensures Balanced(After(s, e))
  {
    match e
    case Handled(cmd, now) => HandleBalances(s, cmd, now);
    case Scheduled(cmd, delay, now) => ScheduleBalances(s, cmd, delay, now);
    case Scanned(now, sends, _) => ScanBalances(s, now, sends, MAX_SCHEDULED);
  }

  lemma {:induction false} FinalBalances(s: State, es: seq<Happening>)
    requires Inv(s, MAX_SCHEDULED) && Runs(s, es) && Balanced(s)
    ensures Balanced(Final(s, es))
    decreases |es|
  {
    if es != [] {
      AfterKeepsInv(s, es[0]);
      AfterBalances(s, es[0]);
      FinalBalances(After(s, es[0]), es[1..]);
    }
  }

  /** Nothing is lost: over every run, committed = sent + failed + cleared + still in a slot. */
  lemma {:induction false} CommitsConserved(start: nat, staged: Command, es: seq<Happening>)
    requires Runs(Initial(start, staged), es)
    ensures var s := Final(Initial(start, staged), es);
      |s.h.commits| == Count(s.h.fates, IsSent) + Count(s.h.fates, IsFailed) + Count(s.h.fates, IsCleared)
                       + Count(s.queue, IsActive)
  {
    CountNone(Initial(start, staged).queue, IsActive);
    FinalBalances(Initial(start, staged), es);
    EachFateCounted(Final(Initial(start, staged), es).h.fates);
  }

  // ---------------------------------------------------------------- what it tells

  function TellSchedule(o: Outlet, s: State): Outlet {
    if FreeSlot(s.queue) == |s.queue| then Publish(RecordError(o), WARNING, "SEQ_FULL") else o
  }

  /** What is told when a command is handled in state `s`. */
  function TellHandle(o: Outlet, s: State, cmd: Command): Outlet {
    if cmd.opcode == OP_SET_TARGET then Publish(o, INFO, "SEQ_TARGET_SET")
    else if cmd.opcode == OP_SET_OPCODE then Publish(o, INFO, "SEQ_OPCODE_SET")
    else if cmd.opcode == OP_SET_ARGUMENT then Publish(o, INFO, "SEQ_ARG_SET")
    else if cmd.opcode == OP_COMMIT_DELAY_SECONDS then
      if FreeSlot(s.queue) == |s.queue| then Publish(TellSchedule(o, s), WARNING, "SEQ_COMMIT_FAIL")
      else Publish(TellSchedule(o, s), INFO, "SEQ_COMMITTED")
    else if cmd.opcode == OP_CLEAR_QUEUE then Publish(o, INFO, "SEQ_CLEARED")
    else Publish(RecordError(o), WARNING, "SEQ_BAD_OPCODE")
  }

  function TellAttempt(o: Outlet, sent: bool): Outlet {
    if sent then Publish(o, INFO, "SEQ_SENT") else Publish(RecordError(o), WARNING, "SEQ_SEND_FAIL")
  }

  /** What the scan of the first `n` slots tells. */
  function TellScan(o: Outlet, queue: seq<Entry>, now: nat, sends: seq<bool>, n: nat): Outlet
    requires n <= |queue| == |sends|
  {
    if n == 0 then o
    else
      var o' := TellScan(o, queue, now, sends, n - 1);
      if queue[n - 1].active && IsDue(now % TWO32, queue[n - 1].release) then TellAttempt(o', sends[n - 1]) else o'
  }

  function Tell(o: Outlet, s: State, e: Happening): Outlet
    requires Held(s) && Possible(s, e)
  {
    match e
    case Handled(cmd, _) => TellHandle(o, s, cmd)
    case Scheduled(_, _, _) => TellSchedule(o, s)
    case Scanned(now, sends, shown) => Show(TellScan(o, s.queue, now, sends, MAX_SCHEDULED), shown)
  }

  /** What a run tells; `rooms[k]` is the room the event queue has when happening `k` begins. */
  function TellAll(o: Outlet, s: State, es: seq<Happening>, rooms: seq<nat>): Outlet
    requires Held(s) && Runs(s, es) && |rooms| == |es|
    decreases |es|
  {
    if es == [] then o else TellAll(Tell(o.(room := rooms[0]), s, es[0]), After(s, es[0]), es[1..], rooms[1..])
  }

  predicate AsksCommit(e: Happening) {
    e.Scheduled? || (e.Handled? && e.cmd.opcode == OP_COMMIT_DELAY_SECONDS)
  }

  predicate IsUnknown(e: Happening) {
    e.Handled? && !(OP_SET_TARGET <= e.cmd.opcode <= OP_CLEAR_QUEUE)
  }

  predicate IsHidden(e: Happening) {
    e.Scanned? && !e.shown
  }

  predicate IsHandled(e: Happening) {
    e.Handled?
  }

  /** Failed attempts, refused commits, unknown commands, telemetry not taken. */
  ghost function Faults(es: seq<Happening>, h: History): int {
    Count(h.fates, IsFailed) + (Count(es, AsksCommit) - |h.commits|) + Count(es, IsUnknown) + Count(es, IsHidden)
  }

  /** One report for each command handled, for each refused commit, and for each attempt. */
  ghost function Reports(es: seq<Happening>, h: History): int {
    Count(es, IsHandled) + (Count(es, AsksCommit) - |h.commits|) + Count(h.fates, IsSent) + Count(h.fates, IsFailed)
  }

  /** What `o'` records more than `o` is what the happenings and the histories say. */
  ghost predicate Explains(o: Outlet, h: History, o': Outlet, h': History, es: seq<Happening>) {
    && o'.faults - o.faults == Faults(es, h') - Faults([], h)
    && o'.issued - o.issued == Reports(es, h') - Reports([], h)
    && (Accounted(o) ==> Accounted(o'))
  }

  lemma {:induction false} AttemptAccounted(o: Outlet, sent: bool)
    requires Accounted(o)
    ensures Accounted(TellAttempt(o, sent))
  {
    if sent {
      PublishAccounted(o, INFO, "SEQ_SENT");
    } else {
      RecordErrorAccounted(o);
      PublishAccounted(RecordError(o), WARNING, "SEQ_SEND_FAIL");
    }
  }

  lemma {:induction false} ScanExplained(o: Outlet, s: State, now: nat, sends: seq<bool>, n: nat)
    requires Inv(s, MAX_SCHEDULED) && InTime(s, now) && n <= MAX_SCHEDULED == |sends|
    ensures Explains(o, s.h, TellScan(o, s.queue, now, sends, n), ScanOf(s, now, sends, n).h, [])
  {
    if n > 0 {
      ScanExplained(o, s, now, sends, n - 1);
      ScanKeepsInv(s, now, sends, n - 1);
      SlotExplained(TellScan(o, s.queue, now, sends, n - 1), ScanOf(s, now, sends, n - 1), n - 1, now, sends[n - 1]);
    }
  }

  lemma {:induction false} SlotExplained(o: Outlet, r: State, i: nat, now: nat, sent: bool)
    requires Inv(r, i) && i < MAX_SCHEDULED && r.h.scans != []
    ensures var due := r.queue[i].active && IsDue(now % TWO32, r.queue[i].release);
      Explains(o, r.h, if due then TellAttempt(o, sent) else o, ScanSlot(r, i, now, sent).h, [])
  {
    var e := r.queue[i];
    if e.active && IsDue(now % TWO32, e.release) {
      assert SlotOk(r, i);
      CountUpdate(r.h.fates, e.id, Attempted(|r.h.scans| - 1, sent), IsFailed);
      CountUpdate(r.h.fates, e.id, Attempted(|r.h.scans| - 1, sent), IsSent);
      if Accounted(o) {
        AttemptAccounted(o, sent);
      }
    }
  }

  lemma {:induction false} ScheduleAccounted(o: Outlet, s: State)
    requires Accounted(o)
    ensures Accounted(TellSchedule(o, s))
  {
    RecordErrorAccounted(o);
    PublishAccounted(RecordError(o), WARNING, "SEQ_FULL");
  }

  lemma {:induction false} HandleAccounted(o: Outlet, s: State, cmd: Command)
    requires Accounted(o)
    ensures Accounted(TellHandle(o, s, cmd))
  {
    ScheduleAccounted(o, s);
    RecordErrorAccounted(o);
    PublishAccounted(RecordError(o), WARNING, "SEQ_BAD_OPCODE");
    PublishAccounted(TellSchedule(o, s), WARNING, "SEQ_COMMIT_FAIL");
    PublishAccounted(TellSchedule(o, s), INFO, "SEQ_COMMITTED");
    PublishAccounted(o, INFO, "SEQ_TARGET_SET");
    PublishAccounted(o, INFO, "SEQ_OPCODE_SET");
    PublishAccounted(o, INFO, "SEQ_ARG_SET");
    PublishAccounted(o, INFO, "SEQ_CLEARED");
  }

  /** The fates that a command or a commit leaves: none is newly sent or failed. */
  lemma {:induction false} CommandFates(s: State, e: Happening)
    requires Held(s) && Possible(s, e) && !e.Scanned?
    ensures Count(After(s, e).h.fates, IsFailed) == Count(s.h.fates, IsFailed)
    ensures Count(After(s, e).h.fates, IsSent) == Count(s.h.fates, IsSent)
  {
    var fates := After(s, e).h.fates;
    if |fates| == |s.h.fates| {
      CountSame(fates, s.h.fates, IsFailed);
      CountSame(fates, s.h.fates, IsSent);
    } else {
      CountAppend(s.h.fates, Queued, IsFailed);
      CountAppend(s.h.fates, Queued, IsSent);
    }
  }

  lemma {:induction false} HandledExplained(o: Outlet, s: State, cmd: Command, now: nat)
    requires Inv(s, MAX_SCHEDULED) && s.h.clock <= now
    ensures Explains(o, s.h, TellHandle(o, s, cmd), Handle(s, cmd, now).h, [Handled(cmd, now)])
  {
    OneCounted(Handled(cmd, now));
    CommandFates(s, Handled(cmd, now));
    CommandTold(o, s, cmd, now);
    if Accounted(o) {
      HandleAccounted(o, s, cmd);
    }
  }

  /** What one command adds to the faults and the reports. */
  lemma {:induction false} CommandTold(o: Outlet, s: State, cmd: Command, now: nat)
    ensures var o', e := TellHandle(o, s, cmd), Handled(cmd, now);
      var refused := One(AsksCommit(e)) - (|Handle(s, cmd, now).h.commits| - |s.h.commits|);
      && o'.faults - o.faults == refused + One(IsUnknown(e)) && o'.issued - o.issued == 1 + refused
  {
  }

  lemma {:induction false} ScheduledExplained(o: Outlet, s: State, cmd: Command, delay: u32, now: nat)
    requires Inv(s, MAX_SCHEDULED) && s.h.clock <= now
    ensures Explains(o, s.h, TellSchedule(o, s), Schedule(s, cmd, delay, now).h, [Scheduled(cmd, delay, now)])
  {
    OneCounted(Scheduled(cmd, delay, now));
    CommandFates(s, Scheduled(cmd, delay, now));
    if Accounted(o) {
      ScheduleAccounted(o, s);
    }
  }

  lemma {:induction false} ScannedExplained(o: Outlet, s: State, now: nat, sends: seq<bool>, shown: bool)
    requires Inv(s, MAX_SCHEDULED) && InTime(s, now) && |sends| == MAX_SCHEDULED
    ensures Explains(o, s.h, Show(TellScan(o, s.queue, now, sends, MAX_SCHEDULED), shown),
                     ScanOf(s, now, sends, MAX_SCHEDULED).h, [Scanned(now, sends, shown)])
  {
    OneCounted(Scanned(now, sends, shown));
    ScanExplained(o, s, now, sends, MAX_SCHEDULED);
    if Accounted(o) {
      RecordErrorAccounted(TellScan(o, s.queue, now, sends, MAX_SCHEDULED));
    }
  }

  lemma {:induction false} TellExplained(o: Outlet, s: State, e: Happening)
    requires Inv(s, MAX_SCHEDULED) && Possible(s, e)
    ensures Explains(o, s.h, Tell(o, s, e), After(s, e).h, [e])
  {
    match e
    case Handled(cmd, now) => HandledExplained(o, s, cmd, now);
    case Scheduled(cmd, delay, now) => ScheduledExplained(o, s, cmd, delay, now);
    case Scanned(now, sends, shown) => ScannedExplained(o, s, now, sends, shown);
  }

  lemma {:induction false} OneCounted(e: Happening)
    ensures Count([e], AsksCommit) == One(AsksCommit(e)) && Count([e], IsUnknown) == One(IsUnknown(e))
    ensures Count([e], IsHidden) == One(IsHidden(e)) && Count([e], IsHandled) == One(IsHandled(e))
  {
    assert [e] == [] + [e];
    CountAppend([], e, AsksCommit);
    CountAppend([], e, IsUnknown);
    CountAppend([], e, IsHidden);
    CountAppend([], e, IsHandled);
  }

  lemma {:induction false} ExplainsChain(
    o: Outlet, h: History, o1: Outlet, h1: History, o2: Outlet, h2: History, es: seq<Happening>)
    requires es != [] && Explains(o, h, o1, h1, [es[0]]) && Explains(o1, h1, o2, h2, es[1..])
    ensures Explains(o, h, o2, h2, es)
  {
    OneCounted(es[0]);
    CountFirst(es, AsksCommit);
    CountFirst(es, IsUnknown);
    CountFirst(es, IsHidden);
    CountFirst(es, IsHandled);
  }

  lemma {:induction false} RunExplained(o: Outlet, s: State, es: seq<Happening>, rooms: seq<nat>)
    requires Inv(s, MAX_SCHEDULED) && Runs(s, es) && |rooms| == |es|
    ensures Explains(o, s.h, TellAll(o, s, es, rooms), Final(s, es).h, es)
    decreases |es|
  {
    if es != [] {
      var s1, o1 := After(s, es[0]), Tell(o.(room := rooms[0]), s, es[0]);
      TellExplained(o.(room := rooms[0]), s, es[0]);
      AfterKeepsInv(s, es[0]);
      RunExplained(o1, s1, es[1..], rooms[1..]);
      assert Explains(o, s.h, o1, s1.h, [es[0]]);
      ExplainsChain(o, s.h, o1, s1.h, TellAll(o, s, es, rooms), Final(s, es).h, es);
    }
  }

  /**
   The health counter is exact, over every run and whatever room the event queue has: it is the
   number of failed attempts, refused commits, unknown commands, telemetry frames that were not
   taken and reports that were not taken. And every command, refused commit and attempt is
   reported exactly once.
   */
  lemma {:induction false} ErrorsExplained(start: nat, staged: Command, es: seq<Happening>, room: nat, rooms: seq<nat>)
    requires Runs(Initial(start, staged), es) && |rooms| == |es|
    ensures var o := TellAll(Publish(Fresh(room), INFO, "SEQ_READY"), Initial(start, staged), es, rooms);
      var h := Final(Initial(start, staged), es).h;
      && o.issued == 1 + Reports(es, h) && |o.delivered| <= o.issued
      && Faults(es, h) >= 0 && o.errors == (Faults(es, h) + (o.issued - |o.delivered|)) % TWO32
  {
    var o := Publish(Fresh(room), INFO, "SEQ_READY");
    PublishAccounted(Fresh(room), INFO, "SEQ_READY");
    RunExplained(o, Initial(start, staged), es, rooms);
  }

  // ---------------------------------------------------------------- the class

  /** The loop of a step over its first `n` commands, each handled at its own clock reading. */
  function HandleAll(s: State, cmds: seq<Command>, nows: seq<nat>, n: nat): (r: State)
    requires Held(s) && n <= |cmds| == |nows|
    ensures Held(r)
  {
    if n == 0 then s else Handle(HandleAll(s, cmds, nows, n - 1), cmds[n - 1], nows[n - 1])
  }

  function TellHandleAll(o: Outlet, s: State, cmds: seq<Command>, nows: seq<nat>, n: nat): Outlet
    requires Held(s) && n <= |cmds| == |nows|
  {
    if n == 0 then o
    else TellHandle(TellHandleAll(o, s, cmds, nows, n - 1), HandleAll(s, cmds, nows, n - 1), cmds[n - 1])
  }

  class Sequencer {
    const queue: array<Entry>
    var staged: Command
    /** How many commits there were; it only names them. */
    var committed: nat
    var outlet: Outlet
    ghost var h: History

    ghost predicate Valid()
      reads this, queue
    {
      Held(Value()) && committed == |h.commits|
    }

    ghost function Value(): State
      reads this, queue
    {
      State(queue[..], staged, h)
    }

    /** The constructor and `init`. */
    constructor (ghost start: nat, room: nat)
      ensures Valid() && fresh(queue) && Value() == Initial(start, Command(200, 1, Some(0.0)))
      ensures outlet == Publish(Fresh(room), INFO, "SEQ_READY")
    {
      staged, committed := Command(200, 1, Some(0.0)), 0;
      outlet := Publish(Fresh(room), INFO, "SEQ_READY");
      queue := new Entry[MAX_SCHEDULED](_ => Entry(false, 0, Command(200, 1, Some(0.0)), 0));
      h := History(start, start, [], [], []);
    }

    method ScheduleCommandInMs(cmd: Command, delay: u32, now: nat) returns (ok: bool)
      requires Valid()
      modifies queue, `committed, `outlet, `h
      ensures Valid() && Value() == Schedule(old(Value()), cmd, delay, now)
      ensures outlet == TellSchedule(old(outlet), old(Value()))
      ensures ok == (FreeSlot(old(queue[..])) < MAX_SCHEDULED)
    {
      for i := 0 to queue.Length
        invariant Value() == old(Value()) && committed == old(committed) && outlet == old(outlet)
        invariant forall k :: 0 <= k < i ==> queue[k].active
      {
        if !queue[i].active {
          assert FreeSlot(queue[..]) == i;
          queue[i] := Entry(true, (now % TWO32 + delay) % TWO32, cmd, committed);
          committed := committed + 1;
          h := h.(clock := now, commits := h.commits + [Commit(cmd, now, delay, i, |h.scans|)],
                  fates := h.fates + [Queued]);
          return true;
        }
      }
      assert FreeSlot(queue[..]) == |queue[..]|;
      h := h.(clock := now);
      outlet := Publish(RecordError(outlet), WARNING, "SEQ_FULL");
      ok := false;
    }

    method ClearQueue(now: nat)
      requires Valid()
      modifies queue, `h
      ensures Valid() && Value() == Clear(old(Value()), now)
    {
      for i := 0 to queue.Length
        invariant h == old(h)
        invariant forall k :: 0 <= k < i ==> queue[k] == old(queue[..])[k].(active := false)
        invariant forall k :: i <= k < queue.Length ==> queue[k] == old(queue[..])[k]
      {
        queue[i] := queue[i].(active := false);
      }
      h := Clear(old(Value()), now).h;
      assert queue[..] == Deactivated(old(queue[..]));
    }

    method HandleCommand(cmd: Command, now: nat)
      requires Valid()
      modifies queue, `staged, `committed, `outlet, `h
      ensures Valid() && Value() == Handle(old(Value()), cmd, now)
      ensures outlet == TellHandle(old(outlet), old(Value()), cmd)
    {
      if cmd.opcode == OP_COMMIT_DELAY_SECONDS {
        var ok := ScheduleCommandInMs(staged, DelayMs(cmd.argument), now);
        if ok {
          outlet := Publish(outlet, INFO, "SEQ_COMMITTED");
        } else {
          outlet := Publish(outlet, WARNING, "SEQ_COMMIT_FAIL");
        }
      } else if cmd.opcode == OP_CLEAR_QUEUE {
        ClearQueue(now);
        outlet := Publish(outlet, INFO, "SEQ_CLEARED");
      } else {
        h := h.(clock := now);
        if cmd.opcode == OP_SET_TARGET {
          staged := staged.(target := ToNonNegativeUint(cmd.argument));
          outlet := Publish(outlet, INFO, "SEQ_TARGET_SET");
        } else if cmd.opcode == OP_SET_OPCODE {
          staged := staged.(opcode := ToNonNegativeUint(cmd.argument));
          outlet := Publish(outlet, INFO, "SEQ_OPCODE_SET");
        } else if cmd.opcode == OP_SET_ARGUMENT {
          staged := staged.(argument := cmd.argument);
          outlet := Publish(outlet, INFO, "SEQ_ARG_SET");
        } else {
          outlet := Publish(RecordError(outlet), WARNING, "SEQ_BAD_OPCODE");
        }
      }
    }

    /** The body of the loop of `step`; the command that is offered to the port, if any. */
    method ScanEntry(i: nat, now: nat, sent: bool) returns (offered: Option<Command>)
      requires Valid() && i < MAX_SCHEDULED && h.scans != []
      modifies queue, `outlet, `h
      ensures Valid() && Value() == ScanSlot(old(Value()), i, now, sent)
      ensures offered.Some? <==> old(queue[i]).active && IsDue(now % TWO32, old(queue[i]).release)
      ensures offered.Some? ==> offered.value == old(queue[i]).cmd
      ensures outlet == if offered.Some? then TellAttempt(old(outlet), sent) else old(outlet)
    {
      if !queue[i].active || !IsDue(now % TWO32, queue[i].release) {
        return None;
      }
      offered := Some(queue[i].cmd);
      if !sent {
        outlet := Publish(RecordError(outlet), WARNING, "SEQ_SEND_FAIL");
      } else {
        outlet := Publish(outlet, INFO, "SEQ_SENT");
      }
      h := h.(fates := h.fates[queue[i].id := Attempted(|h.scans| - 1, sent)]);
      queue[i] := queue[i].(active := false);
    }

    /** Scan the queue; what is sent goes to the port, whose answer for slot `i` is `sends[i]`. */
    method Scan(now: nat, sends: seq<bool>) returns (released: seq<Command>)
      requires Valid() && |sends| == MAX_SCHEDULED
      modifies queue, `outlet, `h
      ensures Valid() && Value() == ScanOf(old(Value()), now, sends, MAX_SCHEDULED)
      ensures released == ReleasedBy(old(queue[..]), now, MAX_SCHEDULED)
      ensures outlet == TellScan(old(outlet), old(queue[..]), now, sends, MAX_SCHEDULED)
    {
      released := [];
      h := h.(clock := now, scans := h.scans + [now]);
      for i := 0 to queue.Length
        invariant Valid() && Value() == ScanOf(old(Value()), now, sends, i)
        invariant released == ReleasedBy(old(queue[..]), now, i)
        invariant outlet == TellScan(old(outlet), old(queue[..]), now, sends, i)
      {
        assert queue[i] == old(queue[..])[i];
        var offered := ScanEntry(i, now, sends[i]);
        if offered.Some? {
          released := released + [offered.value];
        }
      }
    }

    /** `queuedCount`. */
    method QueuedCount() returns (n: nat)
      ensures n == Count(queue[..], IsActive)
    {
      n := 0;
      for i := 0 to queue.Length
        invariant n == Count(queue[..i], IsActive)
      {
        assert queue[..i + 1] == queue[..i] + [queue[i]];
        CountAppend(queue[..i], queue[i], IsActive);
        if queue[i].active {
          n := n + 1;
        }
      }
      assert queue[..queue.Length] == queue[..];
    }

    /** One step; `shown` tells whether the telemetry port takes the frame, which carries `queued`. */
    method Step(cmds: seq<Command>, nows: seq<nat>, now: nat, sends: seq<bool>, shown: bool) returns (queued: nat)
      requires Valid() && |cmds| == |nows| && |sends| == MAX_SCHEDULED
      modifies queue, `staged, `committed, `outlet, `h
      ensures Valid()
      ensures var handled := HandleAll(old(Value()), cmds, nows, |cmds|);
        && Value() == ScanOf(handled, now, sends, MAX_SCHEDULED)
        && outlet == Show(TellScan(TellHandleAll(old(outlet), old(Value()), cmds, nows, |cmds|),
                                   handled.queue, now, sends, MAX_SCHEDULED), shown)
      ensures queued == Count(Value().queue, IsActive)
    {
      for k := 0 to |cmds|
        invariant Valid() && Value() == HandleAll(old(Value()), cmds, nows, k)
        invariant outlet == TellHandleAll(old(outlet), old(Value()), cmds, nows, k)
      {
        HandleCommand(cmds[k], nows[k]);
      }
      var released := Scan(now, sends);
      queued := QueuedCount();
      outlet := Show(outlet, shown);
    }
  }

  /** The commands a scan offers to the port, in slot order. */
  function ReleasedBy(queue: seq<Entry>, now: nat, n: nat): seq<Command>
    requires n <= |queue|
  {
    if n == 0 then []
    else
      ReleasedBy(queue, now, n - 1)
      + if queue[n - 1].active && IsDue(now % TWO32, queue[n - 1].release) then [queue[n - 1].cmd] else []
  }
}
