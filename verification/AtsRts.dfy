/**
 The absolute and relative time sequencer: `src/AtsRtsSequencerComponent.hpp`.

 MET is in milliseconds and UTC in whole seconds, both 64-bit in the code and unbounded here.
 A float argument is a real, or nothing when it is not finite.
 */
module AtsRts {
  import opened Wrappers
  import opened Words
  import opened Counting
  import opened Health

  const MAX_SEQUENCE_ENTRIES := 32

  const OP_SET_TARGET := 1
  const OP_SET_OPCODE := 2
  const OP_SET_ARGUMENT := 3
  const OP_SET_TRIGGER_TYPE := 4
  const OP_SET_TIME_HI16 := 5
  const OP_SET_TIME_LO16 := 6
  const OP_SET_EVENT_SOURCE := 7
  const OP_COMMIT_ENTRY := 8
  const OP_ARM := 9
  const OP_DISARM := 10
  const OP_CLEAR := 11

  datatype Command = Command(target: u32, opcode: u32, argument: Option<real>)

  datatype Trigger = AbsMet | AbsUtc | RelEvent

  datatype Staged = Staged(cmd: Command, trigger: Trigger, hi: u16, lo: u16, source: u32)

  // ---------------------------------------------------------------- state and history

  /** The code does not keep `id`, the number of the commit that filled the entry. */
  datatype Entry = Entry(
    active: bool, waiting: bool, trigger: Trigger, source: u32, value: nat, cmd: Command, id: nat)

  /** `scansBefore` and `eventsBefore` count what the history holds when the commit happens. */
  datatype Commit = Commit(
    cmd: Command, trigger: Trigger, source: u32, value: nat, slot: nat, scansBefore: nat, eventsBefore: nat)

  /** An event that was processed, and whether the sequencer was armed then. */
  datatype Heard = Heard(source: u32, met: nat, armed: bool, scansBefore: nat)

  /** A pass over the entries, the clocks it read, and whether the sequencer was armed. */
  datatype Scan = Scan(met: nat, utc: nat, armed: bool)

  /** What became of a commit. `matched` is the event that started a relative entry. */
  datatype Fate =
    | Pending(matched: Option<nat>)
    | Dispatched(matched: Option<nat>, scan: nat, sent: bool)
    | Cleared(matched: Option<nat>, scansBefore: nat)

  datatype History = History(commits: seq<Commit>, fates: seq<Fate>, events: seq<Heard>, scans: seq<Scan>)

  datatype State = State(entries: seq<Entry>, staged: Staged, armed: bool, h: History)

  const BLANK := Entry(false, false, AbsMet, 0, 0, Command(0, 0, Some(0.0)), 0)

  function FreeSlot(entries: seq<Entry>): (i: nat)
    ensures i <= |entries|
    ensures i < |entries| ==> !entries[i].active
    ensures forall k :: 0 <= k < i ==> entries[k].active
  {
    if entries == [] || !entries[0].active then 0 else 1 + FreeSlot(entries[1..])
  }

  /** Every entry in use holds a commit of the history. */
  ghost predicate Held(s: State) {
    |s.entries| == MAX_SEQUENCE_ENTRIES && |s.h.fates| == |s.h.commits|
    && forall i :: 0 <= i < |s.entries| && s.entries[i].active ==> s.entries[i].id < |s.h.fates|
  }

  function TimeWord(g: Staged): nat {
    g.hi * 0x1_0000 + g.lo
  }

  function WithCommit(s: State): (r: State)
    ensures Held(s) ==> Held(r)
  {
    var i, g := FreeSlot(s.entries), s.staged;
    if i == |s.entries| then s
    else
      s.(entries := s.entries[i := Entry(true, g.trigger.RelEvent?, g.trigger, g.source, TimeWord(g), g.cmd,
        |s.h.commits|)],
         h := s.h.(fates := s.h.fates + [Pending(None)],
                   commits := s.h.commits +
                     [Commit(g.cmd, g.trigger, g.source, TimeWord(g), i, |s.h.scans|, |s.h.events|)]))
  }

  function ClearedFates(h: History): (r: seq<Fate>)
    ensures |r| == |h.fates|
  {
    seq(|h.fates|, i requires 0 <= i < |h.fates| =>
      if h.fates[i].Pending? then Cleared(h.fates[i].matched, |h.scans|) else h.fates[i])
  }

  function Blanked(s: State): (r: State)
    ensures Held(s) ==> Held(r)
  {
    s.(entries := seq(|s.entries|, _ => BLANK), h := s.h.(fates := ClearedFates(s.h)))
  }

  function ToU32(value: Option<real>): u32 {
    if value.None? || value.value <= 0.0 then 0
    else if value.value >= 4294967295.0 then 0xFFFF_FFFF
    else value.value.Floor
  }

  function ToU16(value: Option<real>): u16 {
    if value.None? || value.value <= 0.0 then 0
    else if value.value >= 65535.0 then 0xFFFF
    else value.value.Floor
  }

  function ToTrigger(raw: u32): Trigger {
    if raw == 1 then AbsUtc else if raw == 2 then RelEvent else AbsMet
  }

  function SetStaged(g: Staged, cmd: Command): Staged {
    if cmd.opcode == OP_SET_TARGET then g.(cmd := g.cmd.(target := ToU32(cmd.argument)))
    else if cmd.opcode == OP_SET_OPCODE then g.(cmd := g.cmd.(opcode := ToU32(cmd.argument)))
    else if cmd.opcode == OP_SET_ARGUMENT then g.(cmd := g.cmd.(argument := cmd.argument))
    else if cmd.opcode == OP_SET_TRIGGER_TYPE then g.(trigger := ToTrigger(ToU32(cmd.argument)))
    else if cmd.opcode == OP_SET_TIME_HI16 then g.(hi := ToU16(cmd.argument))
    else if cmd.opcode == OP_SET_TIME_LO16 then g.(lo := ToU16(cmd.argument))
    else if cmd.opcode == OP_SET_EVENT_SOURCE then g.(source := ToU32(cmd.argument))
    else g
  }

  function Handle(s: State, cmd: Command): (r: State)
    ensures Held(s) ==> Held(r)
  {
    if cmd.opcode == OP_COMMIT_ENTRY then WithCommit(s)
    else if cmd.opcode == OP_ARM then s.(armed := true)
    else if cmd.opcode == OP_DISARM then s.(armed := false)
    else if cmd.opcode == OP_CLEAR then Blanked(s)
    else s.(staged := SetStaged(s.staged, cmd))
  }

  predicate Matches(wanted: u32, source: u32) {
    wanted == 0 || wanted == source
  }

  /** The entry of slot `i` when an event of `source` is processed at `met` while armed. */
  function HearSlot(s: State, i: nat, source: u32, met: nat): (r: State)
    requires Held(s) && i < MAX_SEQUENCE_ENTRIES && s.h.events != []
    ensures Held(r) && r.h == s.h.(fates := r.h.fates) && |r.h.fates| == |s.h.fates| && r.armed == s.armed
    ensures r.staged == s.staged && forall j :: 0 <= j < MAX_SEQUENCE_ENTRIES && j != i ==> r.entries[j] == s.entries[j]
  {
    var e := s.entries[i];
    if !e.active || !e.waiting || !Matches(e.source, source) then s
    else
      s.(entries := s.entries[i := e.(waiting := false, value := met + e.value, trigger := AbsMet)],
         h := s.h.(fates := s.h.fates[e.id := Pending(Some(|s.h.events| - 1))]))
  }

  /** `onEvent` over the first `n` entries. */
  function HearOf(s: State, source: u32, met: nat, n: nat): (r: State)
    requires Held(s) && n <= MAX_SEQUENCE_ENTRIES
    ensures Held(r) && r.h.commits == s.h.commits && r.h.scans == s.h.scans && r.armed == s.armed
    ensures r.h.events == s.h.events + [Heard(source, met, s.armed, |s.h.scans|)] && |r.h.fates| == |s.h.fates|
    ensures forall i :: n <= i < MAX_SEQUENCE_ENTRIES ==> r.entries[i] == s.entries[i]
  {
    if n == 0 then s.(h := s.h.(events := s.h.events + [Heard(source, met, s.armed, |s.h.scans|)]))
    else
      var r := HearOf(s, source, met, n - 1);
      if s.armed then HearSlot(r, n - 1, source, met) else r
  }

  predicate IsDue(e: Entry, met: nat, utc: nat) {
    if e.trigger.AbsUtc? then utc >= e.value else met >= e.value
  }

  function ScanSlot(s: State, i: nat, met: nat, utc: nat, sent: bool): (r: State)
    requires Held(s) && i < MAX_SEQUENCE_ENTRIES && s.h.scans != []
    ensures Held(r) && r.h == s.h.(fates := r.h.fates) && |r.h.fates| == |s.h.fates| && r.armed == s.armed
    ensures r.staged == s.staged && forall j :: 0 <= j < MAX_SEQUENCE_ENTRIES && j != i ==> r.entries[j] == s.entries[j]
  {
    var e := s.entries[i];
    if !e.active || e.waiting || !IsDue(e, met, utc) then s
    else
      s.(entries := s.entries[i := e.(active := false)],
         h := s.h.(fates := s.h.fates[e.id := Dispatched(s.h.fates[e.id].matched, |s.h.scans| - 1, sent)]))
  }

  /** `executeDueEntries` over the first `n` entries; `sends` are the port's answers. */
  function ScanOf(s: State, met: nat, utc: nat, sends: seq<bool>, n: nat): (r: State)
    requires Held(s) && n <= MAX_SEQUENCE_ENTRIES == |sends|
    ensures Held(r) && r.h.commits == s.h.commits && r.h.events == s.h.events && r.armed == s.armed
    ensures r.h.scans == s.h.scans + [Scan(met, utc, s.armed)] && |r.h.fates| == |s.h.fates|
    ensures forall i :: n <= i < MAX_SEQUENCE_ENTRIES ==> r.entries[i] == s.entries[i]
  {
    if n == 0 then s.(h := s.h.(scans := s.h.scans + [Scan(met, utc, s.armed)]))
    else
      var r := ScanOf(s, met, utc, sends, n - 1);
      if s.armed then ScanSlot(r, n - 1, met, utc, sends[n - 1]) else r
  }

  // ---------------------------------------------------------------- what runs keep

  /** Whether a loop over the entries is under way, and how many it has passed. */
  datatype Phase = Idle | Hearing(n: nat) | Scanning(n: nat)

  function EventLimit(h: History, p: Phase, slot: nat): nat {
    if p.Hearing? && p.n <= slot && h.events != [] then |h.events| - 1 else |h.events|
  }

  function ScanLimit(h: History, p: Phase, slot: nat): nat {
    if p.Scanning? && p.n <= slot && h.scans != [] then |h.scans| - 1 else |h.scans|
  }

  /** Event `x` starts the entries of commit `c`. */
  predicate Starts(c: Commit, x: Heard) {
    x.armed && Matches(c.source, x.source)
  }

  ghost predicate NotStartedBefore(events: seq<Heard>, c: Commit, k: nat)
    requires k <= |events|
  {
    forall j: nat :: c.eventsBefore <= j < k ==> !Starts(c, events[j])
  }

  /** `m` is the first event since the commit that starts it, up to event `limit`; absolute entries need none. */
  ghost predicate MatchOk(events: seq<Heard>, c: Commit, m: Option<nat>, limit: nat)
    requires limit <= |events|
  {
    if !c.trigger.RelEvent? then m == None
    else match m
      case None => NotStartedBefore(events, c, limit)
      case Some(e) =>
        && c.eventsBefore <= e < |events| && Starts(c, events[e]) && NotStartedBefore(events, c, e)
        && c.scansBefore <= events[e].scansBefore
  }

  /** The first scan that can dispatch the commit. */
  function FirstScan(events: seq<Heard>, c: Commit, m: Option<nat>): nat
    requires m.Some? ==> m.value < |events|
  {
    if m.Some? then events[m.value].scansBefore else c.scansBefore
  }

  /** At scan `x` the time of the commit has come. */
  predicate DueAt(events: seq<Heard>, c: Commit, m: Option<nat>, x: Scan)
    requires m.Some? ==> m.value < |events|
  {
    match c.trigger
    case AbsMet => x.met >= c.value
    case AbsUtc => x.utc >= c.value
    case RelEvent => m.Some? && x.met >= events[m.value].met + c.value
  }

  /** No armed scan before scan `k` could have dispatched the commit. */
  ghost predicate NotDueBefore(h: History, c: Commit, m: Option<nat>, k: nat)
    requires (m.Some? ==> m.value < |h.events|) && k <= |h.scans|
  {
    forall j: nat :: FirstScan(h.events, c, m) <= j < k ==> !(h.scans[j].armed && DueAt(h.events, c, m, h.scans[j]))
  }

  ghost predicate SlotOk(s: State, i: nat)
    requires Held(s) && i < MAX_SEQUENCE_ENTRIES
  {
    var e := s.entries[i];
    e.active ==>
      var c, f := s.h.commits[e.id], s.h.fates[e.id];
      && f.Pending? && c.slot == i && e.cmd == c.cmd && e.source == c.source
      && (e.waiting <==> c.trigger.RelEvent? && f.matched.None?)
      && (if f.matched.Some?
          then f.matched.value < |s.h.events| && e.trigger == AbsMet
            && e.value == s.h.events[f.matched.value].met + c.value
          else e.trigger == c.trigger && e.value == c.value)
  }

  /** What the history says of commit `id`: it was dispatched by the first armed scan that found it due. */
  ghost predicate FateOk(s: State, id: nat, p: Phase)
    requires Held(s) && id < |s.h.commits|
  {
    var c, f := s.h.commits[id], s.h.fates[id];
    && c.slot < MAX_SEQUENCE_ENTRIES && c.scansBefore <= ScanLimit(s.h, p, c.slot)
    && c.eventsBefore <= EventLimit(s.h, p, c.slot)
    && match f
       case Pending(m) =>
         && s.entries[c.slot].active && s.entries[c.slot].id == id
         && MatchOk(s.h.events, c, m, EventLimit(s.h, p, c.slot))
         && FirstScan(s.h.events, c, m) <= ScanLimit(s.h, p, c.slot)
         && NotDueBefore(s.h, c, m, ScanLimit(s.h, p, c.slot))
       case Dispatched(m, k, _) =>
         && MatchOk(s.h.events, c, m, c.eventsBefore) && FirstScan(s.h.events, c, m) <= k < |s.h.scans|
           && s.h.scans[k].armed
         && DueAt(s.h.events, c, m, s.h.scans[k]) && NotDueBefore(s.h, c, m, k)
       case Cleared(m, k) =>
         && MatchOk(s.h.events, c, m, c.eventsBefore) && k <= |s.h.scans| && NotDueBefore(s.h, c, m, k)
  }

  ghost predicate Inv(s: State, p: Phase) {
    && Held(s)
    && (forall i: nat :: i < MAX_SEQUENCE_ENTRIES ==> SlotOk(s, i))
    && (forall id: nat :: id < |s.h.commits| ==> FateOk(s, id, p))
  }

  // ---------------------------------------------------------------- each operation keeps it

  lemma {:induction false} CommitKeepsInv(s: State)
    requires Inv(s, Idle)
    ensures Inv(WithCommit(s), Idle)
  {
    var r := WithCommit(s);
    if FreeSlot(s.entries) < |s.entries| {
      forall i: nat | i < MAX_SEQUENCE_ENTRIES
        ensures SlotOk(r, i)
      {
        assert SlotOk(s, i);
      }
      forall id: nat | id < |r.h.commits|
        ensures FateOk(r, id, Idle)
      {
        if id < |s.h.commits| {
          assert FateOk(s, id, Idle);
        }
      }
    }
  }

  lemma {:induction false} ClearKeepsInv(s: State)
    requires Inv(s, Idle)
    ensures Inv(Blanked(s), Idle)
  {
    var r := Blanked(s);
    forall id: nat | id < |r.h.commits|
      ensures FateOk(r, id, Idle)
    {
      assert FateOk(s, id, Idle);
    }
  }

  /** What the invariant does not look at may change. */
  lemma {:induction false} SameRecords(s: State, r: State)
    requires Inv(s, Idle) && r.entries == s.entries && r.h == s.h
    ensures Inv(r, Idle)
  {
    forall i: nat | i < MAX_SEQUENCE_ENTRIES
      ensures SlotOk(r, i)
    {
      assert SlotOk(s, i);
    }
    forall id: nat | id < |r.h.commits|
      ensures FateOk(r, id, Idle)
    {
      assert FateOk(s, id, Idle);
    }
  }

  lemma {:induction false} HandleKeepsInv(s: State, cmd: Command)
    requires Inv(s, Idle)
    ensures Inv(Handle(s, cmd), Idle)
  {
    if cmd.opcode == OP_COMMIT_ENTRY {
      CommitKeepsInv(s);
    } else if cmd.opcode == OP_CLEAR {
      ClearKeepsInv(s);
    } else {
      SameRecords(s, Handle(s, cmd));
    }
  }

  lemma {:induction false} HearBegins(s: State, source: u32, met: nat)
    requires Inv(s, Idle)
    ensures Inv(HearOf(s, source, met, 0), Hearing(0))
  {
    var r := HearOf(s, source, met, 0);
    forall i: nat | i < MAX_SEQUENCE_ENTRIES
      ensures SlotOk(r, i)
    {
      assert SlotOk(s, i);
    }
    forall id: nat | id < |r.h.commits|
      ensures FateOk(r, id, Hearing(0))
    {
      assert FateOk(s, id, Idle);
    }
  }

  /** The entry of slot `i` is started by the last event. */
  lemma {:induction false} StartKeepsInv(r: State, i: nat, source: u32, met: nat)
    requires Inv(r, Hearing(i)) && i < MAX_SEQUENCE_ENTRIES && r.h.events != []
    requires var x := r.h.events[|r.h.events| - 1];
      x.source == source && x.met == met && x.armed && x.scansBefore == |r.h.scans|
    requires r.entries[i].active && r.entries[i].waiting && Matches(r.entries[i].source, source)
    ensures Inv(HearSlot(r, i, source, met), Hearing(i + 1))
  {
    var r' := HearSlot(r, i, source, met);
    assert SlotOk(r, i);
    forall j: nat | j < MAX_SEQUENCE_ENTRIES
      ensures SlotOk(r', j)
    {
      assert SlotOk(r, j);
    }
    var p := Hearing(i + 1);
    forall id: nat | id < |r'.h.commits|
      ensures FateOk(r', id, p)
    {
      assert FateOk(r, id, Hearing(i));
    }
  }

  /** The last event does not start the entry of slot `i`. */
  lemma {:induction false} HearPassKeepsInv(r: State, i: nat)
    requires Inv(r, Hearing(i)) && i < MAX_SEQUENCE_ENTRIES && r.h.events != []
    requires var x, e := r.h.events[|r.h.events| - 1], r.entries[i];
      !x.armed || !e.active || !e.waiting || !Matches(e.source, x.source)
    ensures Inv(r, Hearing(i + 1))
  {
    assert SlotOk(r, i);
    var p := Hearing(i + 1);
    forall id: nat | id < |r.h.commits|
      ensures FateOk(r, id, p)
    {
      assert FateOk(r, id, Hearing(i));
    }
  }

  lemma {:induction false} HearSlotKeepsInv(r: State, i: nat, source: u32, met: nat)
    requires Inv(r, Hearing(i)) && i < MAX_SEQUENCE_ENTRIES && r.h.events != []
    requires var x := r.h.events[|r.h.events| - 1];
      x.source == source && x.met == met && x.armed && x.scansBefore == |r.h.scans|
    ensures Inv(HearSlot(r, i, source, met), Hearing(i + 1))
  {
    if r.entries[i].active && r.entries[i].waiting && Matches(r.entries[i].source, source) {
      StartKeepsInv(r, i, source, met);
    } else {
      HearPassKeepsInv(r, i);
    }
  }

  lemma {:induction false} HearKeepsInv(s: State, source: u32, met: nat, n: nat)
    requires Inv(s, Idle) && n <= MAX_SEQUENCE_ENTRIES
    ensures Inv(HearOf(s, source, met, n), Hearing(n))
  {
    if n == 0 {
      HearBegins(s, source, met);
    } else {
      HearKeepsInv(s, source, met, n - 1);
      if s.armed {
        HearSlotKeepsInv(HearOf(s, source, met, n - 1), n - 1, source, met);
      } else {
        HearPassKeepsInv(HearOf(s, source, met, n - 1), n - 1);
      }
    }
  }

  lemma {:induction false} ScanBegins(s: State, met: nat, utc: nat, sends: seq<bool>)
    requires Inv(s, Idle) && |sends| == MAX_SEQUENCE_ENTRIES
    ensures Inv(ScanOf(s, met, utc, sends, 0), Scanning(0))
  {
    var r := ScanOf(s, met, utc, sends, 0);
    forall i: nat | i < MAX_SEQUENCE_ENTRIES
      ensures SlotOk(r, i)
    {
      assert SlotOk(s, i);
    }
    forall id: nat | id < |r.h.commits|
      ensures FateOk(r, id, Scanning(0))
    {
      assert FateOk(s, id, Idle);
    }
  }

  /** The code's test on an entry agrees with the commit it holds. */
  lemma {:induction false} SlotJudged(r: State, i: nat, x: Scan)
    requires Inv(r, Scanning(i)) && i < MAX_SEQUENCE_ENTRIES && r.entries[i].active
    ensures var e := r.entries[i];
      && (r.h.fates[e.id].matched.Some? ==> r.h.fates[e.id].matched.value < |r.h.events|)
      && (!e.waiting && IsDue(e, x.met, x.utc) <==> DueAt(r.h.events, r.h.commits[e.id], r.h.fates[e.id].matched, x))
  {
    assert SlotOk(r, i) && FateOk(r, r.entries[i].id, Scanning(i));
  }

  /** The entry of slot `i` is due at the last scan. */
  lemma {:induction false} DispatchKeepsInv(r: State, i: nat, met: nat, utc: nat, sent: bool)
    requires Inv(r, Scanning(i)) && i < MAX_SEQUENCE_ENTRIES && r.h.scans != []
    requires r.h.scans[|r.h.scans| - 1] == Scan(met, utc, true)
    requires r.entries[i].active && !r.entries[i].waiting && IsDue(r.entries[i], met, utc)
    ensures Inv(ScanSlot(r, i, met, utc, sent), Scanning(i + 1))
  {
    var r' := ScanSlot(r, i, met, utc, sent);
    SlotJudged(r, i, Scan(met, utc, true));
    assert SlotOk(r, i);
    forall j: nat | j < MAX_SEQUENCE_ENTRIES
      ensures SlotOk(r', j)
    {
      assert SlotOk(r, j);
    }
    var p := Scanning(i + 1);
    forall id: nat | id < |r'.h.commits|
      ensures FateOk(r', id, p)
    {
      assert FateOk(r, id, Scanning(i));
    }
  }

  /** The last scan has nothing to do at slot `i`. */
  lemma {:induction false} ScanPassKeepsInv(r: State, i: nat)
    requires Inv(r, Scanning(i)) && i < MAX_SEQUENCE_ENTRIES && r.h.scans != []
    requires var x, e := r.h.scans[|r.h.scans| - 1], r.entries[i];
      !x.armed || !e.active || e.waiting || !IsDue(e, x.met, x.utc)
    ensures Inv(r, Scanning(i + 1))
  {
    if r.entries[i].active {
      SlotJudged(r, i, r.h.scans[|r.h.scans| - 1]);
    }
    var p := Scanning(i + 1);
    forall id: nat | id < |r.h.commits|
      ensures FateOk(r, id, p)
    {
      assert FateOk(r, id, Scanning(i));
    }
  }

  lemma {:induction false} ScanSlotKeepsInv(r: State, i: nat, met: nat, utc: nat, sent: bool)
    requires Inv(r, Scanning(i)) && i < MAX_SEQUENCE_ENTRIES && r.h.scans != []
    requires r.h.scans[|r.h.scans| - 1] == Scan(met, utc, true)
    ensures Inv(ScanSlot(r, i, met, utc, sent), Scanning(i + 1))
  {
    if r.entries[i].active && !r.entries[i].waiting && IsDue(r.entries[i], met, utc) {
      DispatchKeepsInv(r, i, met, utc, sent);
    } else {
      ScanPassKeepsInv(r, i);
    }
  }

  lemma {:induction false} ScanKeepsInv(s: State, met: nat, utc: nat, sends: seq<bool>, n: nat)
    requires Inv(s, Idle) && n <= MAX_SEQUENCE_ENTRIES == |sends|
    ensures Inv(ScanOf(s, met, utc, sends, n), Scanning(n))
  {
    if n == 0 {
      ScanBegins(s, met, utc, sends);
    } else {
      ScanKeepsInv(s, met, utc, sends, n - 1);
      if s.armed {
        ScanSlotKeepsInv(ScanOf(s, met, utc, sends, n - 1), n - 1, met, utc, sends[n - 1]);
      } else {
        ScanPassKeepsInv(ScanOf(s, met, utc, sends, n - 1), n - 1);
      }
    }
  }

  /** A loop that has passed every entry is over. */
  lemma {:induction false} PhaseEnds(s: State, p: Phase)
    requires Inv(s, p) && !p.Idle? && p.n == MAX_SEQUENCE_ENTRIES
    ensures Inv(s, Idle)
  {
    forall id: nat | id < |s.h.commits|
      ensures FateOk(s, id, Idle)
    {
      assert FateOk(s, id, p);
    }
  }

  // ---------------------------------------------------------------- runs

  /** One thing that happens to the sequencer: a command, an event, or the pass over the entries. */
  datatype Happening =
    | Handled(cmd: Command)
    | Event(source: u32, met: nat)
    | Executed(met: nat, utc: nat, sends: seq<bool>, shown: bool)

  predicate Possible(e: Happening) {
    e.Executed? ==> |e.sends| == MAX_SEQUENCE_ENTRIES
  }

  function After(s: State, e: Happening): (r: State)
    requires Held(s) && Possible(e)
    ensures Held(r)
  {
    match e
    case Handled(cmd) => Handle(s, cmd)
    case Event(source, met) => HearOf(s, source, met, MAX_SEQUENCE_ENTRIES)
    case Executed(met, utc, sends, _) => ScanOf(s, met, utc, sends, MAX_SEQUENCE_ENTRIES)
  }

  lemma {:induction false} AfterKeepsInv(s: State, e: Happening)
    requires Inv(s, Idle) && Possible(e)
    ensures Inv(After(s, e), Idle)
  {
    match e
    case Handled(cmd) => HandleKeepsInv(s, cmd);
    case Event(source, met) =>
      HearKeepsInv(s, source, met, MAX_SEQUENCE_ENTRIES);
      PhaseEnds(After(s, e), Hearing(MAX_SEQUENCE_ENTRIES));
    case Executed(met, utc, sends, _) =>
      ScanKeepsInv(s, met, utc, sends, MAX_SEQUENCE_ENTRIES);
      PhaseEnds(After(s, e), Scanning(MAX_SEQUENCE_ENTRIES));
  }

  ghost predicate AllPossible(es: seq<Happening>) {
    forall k :: 0 <= k < |es| ==> Possible(es[k])
  }

  function Final(s: State, es: seq<Happening>): (r: State)
    requires Held(s) && AllPossible(es)
    ensures Held(r)
    decreases |es|
  {
    if es == [] then s else After(Final(s, es[..|es| - 1]), es[|es| - 1])
  }

  lemma {:induction false} FinalKeepsInv(s: State, es: seq<Happening>)
    requires Inv(s, Idle) && AllPossible(es)
    ensures Inv(Final(s, es), Idle)
    decreases |es|
  {
    if es != [] {
      FinalKeepsInv(s, es[..|es| - 1]);
      AfterKeepsInv(Final(s, es[..|es| - 1]), es[|es| - 1]);
    }
  }

  /** What is settled stays settled: a commit that was dispatched or cleared is never touched again. */
  ghost predicate Settled(s: State, r: State)
    requires Held(s) && Held(r)
  {
    && s.h.commits <= r.h.commits && s.h.scans <= r.h.scans && s.h.events <= r.h.events
    && forall id :: 0 <= id < |s.h.fates| && !s.h.fates[id].Pending? ==> r.h.fates[id] == s.h.fates[id]
  }

  lemma {:induction false} HearSettles(s: State, source: u32, met: nat, n: nat)
    requires Inv(s, Idle) && n <= MAX_SEQUENCE_ENTRIES
    ensures Settled(s, HearOf(s, source, met, n))
  {
    if n > 0 {
      HearSettles(s, source, met, n - 1);
      HearKeepsInv(s, source, met, n - 1);
      assert SlotOk(HearOf(s, source, met, n - 1), n - 1);
    }
  }

  lemma {:induction false} ScanSettles(s: State, met: nat, utc: nat, sends: seq<bool>, n: nat)
    requires Inv(s, Idle) && n <= MAX_SEQUENCE_ENTRIES == |sends|
    ensures Settled(s, ScanOf(s, met, utc, sends, n))
  {
    if n > 0 {
      ScanSettles(s, met, utc, sends, n - 1);
      ScanKeepsInv(s, met, utc, sends, n - 1);
      assert SlotOk(ScanOf(s, met, utc, sends, n - 1), n - 1);
    }
  }

  lemma {:induction false} FinalSettles(s: State, es: seq<Happening>)
    requires Inv(s, Idle) && AllPossible(es)
    ensures Settled(s, Final(s, es))
    decreases |es|
  {
    if es != [] {
      var r, e := Final(s, es[..|es| - 1]), es[|es| - 1];
      FinalSettles(s, es[..|es| - 1]);
      FinalKeepsInv(s, es[..|es| - 1]);
      match e
      case Handled(_) =>
      case Event(source, met) => HearSettles(r, source, met, MAX_SEQUENCE_ENTRIES);
      case Executed(met, utc, sends, _) => ScanSettles(r, met, utc, sends, MAX_SEQUENCE_ENTRIES);
    }
  }

  /** The sequencer after `init`. */
  function Initial(): (s: State)
    ensures Inv(s, Idle)
  {
    State(seq(MAX_SEQUENCE_ENTRIES, _ => BLANK), Staged(Command(200, 1, Some(0.0)), AbsMet, 0, 0, 0), false,
          History([], [], [], []))
  }

  /**
   Every run, whatever the clocks do. A commit is dispatched by an armed pass that found its time
   come, and by the first such pass; the time of a relative one is counted from the first matching
   event processed while armed after the commit, and without such an event it is never dispatched.
   While a commit is pending, no armed pass since then has found it due.
   */
  lemma {:induction false} DispatchedOnceOnTime(es: seq<Happening>, id: nat)
    requires AllPossible(es) && id < |Final(Initial(), es).h.commits|
    ensures var h := Final(Initial(), es).h;
      var c := h.commits[id];
      && |h.fates| == |h.commits| && c.scansBefore <= |h.scans| && c.eventsBefore <= |h.events|
      && match h.fates[id]
         case Pending(m) =>
           && MatchOk(h.events, c, m, |h.events|) && FirstScan(h.events, c, m) <= |h.scans|
           && NotDueBefore(h, c, m, |h.scans|)
         case Dispatched(m, k, _) =>
           && MatchOk(h.events, c, m, c.eventsBefore) && FirstScan(h.events, c, m) <= k < |h.scans|
           && h.scans[k].armed && DueAt(h.events, c, m, h.scans[k]) && NotDueBefore(h, c, m, k)
         case Cleared(m, k) =>
           MatchOk(h.events, c, m, c.eventsBefore) && k <= |h.scans| && NotDueBefore(h, c, m, k)
  {
    FinalKeepsInv(Initial(), es);
    assert FateOk(Final(Initial(), es), id, Idle);
  }

  /** In particular: never while disarmed, never before its time, a relative entry never without its event. */
  lemma {:induction false} NeverEarly(es: seq<Happening>, id: nat)
    requires AllPossible(es) && id < |Final(Initial(), es).h.commits|
    requires Final(Initial(), es).h.fates[id].Dispatched?
    ensures var h := Final(Initial(), es).h;
      var c, f := h.commits[id], h.fates[id];
      && f.scan < |h.scans| && h.scans[f.scan].armed
      && (c.trigger.AbsMet? ==> h.scans[f.scan].met >= c.value)
      && (c.trigger.AbsUtc? ==> h.scans[f.scan].utc >= c.value)
      && (c.trigger.RelEvent? ==>
            exists e ::
              && c.eventsBefore <= e < |h.events| && Starts(c, h.events[e])
              && h.events[e].scansBefore <= f.scan && h.scans[f.scan].met >= h.events[e].met + c.value)
  {
    DispatchedOnceOnTime(es, id);
    var h := Final(Initial(), es).h;
    var c, f := h.commits[id], h.fates[id];
    if c.trigger.RelEvent? {
      assert f.matched.Some? && Starts(c, h.events[f.matched.value]);
    }
  }

  // ---------------------------------------------------------------- conservation

  predicate IsPending(f: Fate) {
    f.Pending?
  }

  predicate IsDispatched(f: Fate) {
    f.Dispatched?
  }

  predicate IsCleared(f: Fate) {
    f.Cleared?
  }

  predicate IsActive(e: Entry) {
    e.active
  }

  lemma {:induction false} EachFateCounted(fates: seq<Fate>)
    ensures |fates| == Count(fates, IsDispatched) + Count(fates, IsCleared) + Count(fates, IsPending)
  {
    if fates != [] {
      EachFateCounted(fates[..|fates| - 1]);
    }
  }

  ghost predicate Balanced(s: State) {
    Count(s.h.fates, IsPending) == Count(s.entries, IsActive)
  }

  lemma {:induction false} HandleBalances(s: State, cmd: Command)
    requires Inv(s, Idle) && Balanced(s)
    ensures Balanced(Handle(s, cmd))
  {
    if cmd.opcode == OP_COMMIT_ENTRY {
      CommitBalances(s);
    } else if cmd.opcode == OP_CLEAR {
      CountNone(Blanked(s).entries, IsActive);
      CountNone(Blanked(s).h.fates, IsPending);
    }
  }

  lemma {:induction false} CommitBalances(s: State)
    requires Held(s) && Balanced(s)
    ensures Balanced(WithCommit(s))
  {
    var i := FreeSlot(s.entries);
    if i < |s.entries| {
      CountUpdate(s.entries, i, WithCommit(s).entries[i], IsActive);
      CountAppend(s.h.fates, Pending(None), IsPending);
    }
  }

  lemma {:induction false} HearBalances(s: State, source: u32, met: nat, n: nat)
    requires Inv(s, Idle) && Balanced(s) && n <= MAX_SEQUENCE_ENTRIES
    ensures Balanced(HearOf(s, source, met, n))
  {
    if n > 0 {
      HearBalances(s, source, met, n - 1);
      HearKeepsInv(s, source, met, n - 1);
      HearSlotBalances(HearOf(s, source, met, n - 1), n - 1, source, met);
    }
  }

  lemma {:induction false} HearSlotBalances(r: State, i: nat, source: u32, met: nat)
    requires Inv(r, Hearing(i)) && i < MAX_SEQUENCE_ENTRIES && r.h.events != [] && Balanced(r)
    ensures Balanced(HearSlot(r, i, source, met))
  {
    var e := r.entries[i];
    if e.active && e.waiting && Matches(e.source, source) {
      assert SlotOk(r, i);
      CountUpdate(r.entries, i, e.(waiting := false, value := met + e.value, trigger := AbsMet), IsActive);
      CountUpdate(r.h.fates, e.id, Pending(Some(|r.h.events| - 1)), IsPending);
    }
  }

  lemma {:induction false} ScanBalances(s: State, met: nat, utc: nat, sends: seq<bool>, n: nat)
    requires Inv(s, Idle) && Balanced(s) && n <= MAX_SEQUENCE_ENTRIES == |sends|
    ensures Balanced(ScanOf(s, met, utc, sends, n))
  {
    if n > 0 {
      ScanBalances(s, met, utc, sends, n - 1);
      ScanKeepsInv(s, met, utc, sends, n - 1);
      ScanSlotBalances(ScanOf(s, met, utc, sends, n - 1), n - 1, met, utc, sends[n - 1]);
    }
  }

  lemma {:induction false} ScanSlotBalances(r: State, i: nat, met: nat, utc: nat, sent: bool)
    requires Inv(r, Scanning(i)) && i < MAX_SEQUENCE_ENTRIES && r.h.scans != [] && Balanced(r)
    ensures Balanced(ScanSlot(r, i, met, utc, sent))
  {
    var e := r.entries[i];
    if e.active && !e.waiting && IsDue(e, met, utc) {
      assert SlotOk(r, i);
      CountUpdate(r.entries, i, e.(active := false), IsActive);
      CountUpdate(r.h.fates, e.id, Dispatched(r.h.fates[e.id].matched, |r.h.scans| - 1, sent), IsPending);
    }
  }

  lemma {:induction false} FinalBalances(s: State, es: seq<Happening>)
    requires Inv(s, Idle) && AllPossible(es) && Balanced(s)
    ensures Balanced(Final(s, es))
    decreases |es|
  {
    if es != [] {
      var r, e := Final(s, es[..|es| - 1]), es[|es| - 1];
      FinalBalances(s, es[..|es| - 1]);
      FinalKeepsInv(s, es[..|es| - 1]);
      match e
      case Handled(cmd) => HandleBalances(r, cmd);
      case Event(source, met) => HearBalances(r, source, met, MAX_SEQUENCE_ENTRIES);
      case Executed(met, utc, sends, _) => ScanBalances(r, met, utc, sends, MAX_SEQUENCE_ENTRIES);
    }
  }

  /** Nothing is lost: over every run, commits = dispatched + cleared + active. */
  lemma {:induction false} CommitsConserved(es: seq<Happening>)
    requires AllPossible(es)
    ensures var s := Final(Initial(), es);
      |s.h.commits| == Count(s.h.fates, IsDispatched) + Count(s.h.fates, IsCleared) + Count(s.entries, IsActive)
  {
    CountNone(Initial().entries, IsActive);
    FinalBalances(Initial(), es);
    EachFateCounted(Final(Initial(), es).h.fates);
  }

  // ---------------------------------------------------------------- what it tells

  function TellCommit(o: Outlet, s: State): Outlet {
    if FreeSlot(s.entries) == |s.entries| then Publish(RecordError(o), WARNING, "ATSRTS_FULL")
    else Publish(o, INFO, "ATSRTS_COMMIT")
  }

  predicate IsKnown(cmd: Command) {
    OP_SET_TARGET <= cmd.opcode <= OP_CLEAR
  }

  /** What is told when a command is handled in state `s`; the staging commands tell nothing. */
  function TellHandle(o: Outlet, s: State, cmd: Command): Outlet {
    if cmd.opcode == OP_COMMIT_ENTRY then TellCommit(o, s)
    else if cmd.opcode == OP_ARM then Publish(o, INFO, "ATSRTS_ARM")
    else if cmd.opcode == OP_DISARM then Publish(o, INFO, "ATSRTS_DISARM")
    else if cmd.opcode == OP_CLEAR then Publish(o, INFO, "ATSRTS_CLEAR")
    else if IsKnown(cmd) then o
    else Publish(RecordError(o), WARNING, "ATSRTS_BAD_OP")
  }

  predicate IsStarted(s: State, i: nat, source: u32)
    requires i < |s.entries|
  {
    s.armed && s.entries[i].active && s.entries[i].waiting && Matches(s.entries[i].source, source)
  }

  /** What an event tells about the first `n` entries of `s`. */
  function TellHear(o: Outlet, s: State, source: u32, n: nat): Outlet
    requires n <= |s.entries|
  {
    if n == 0 then o
    else
      var o' := TellHear(o, s, source, n - 1);
      if IsStarted(s, n - 1, source) then Publish(o', INFO, "ATSRTS_RTS_ARM") else o'
  }

  predicate IsExecuted(s: State, i: nat, met: nat, utc: nat)
    requires i < |s.entries|
  {
    s.armed && s.entries[i].active && !s.entries[i].waiting && IsDue(s.entries[i], met, utc)
  }

  function TellDispatch(o: Outlet, sent: bool): Outlet {
    if sent then Publish(o, INFO, "ATSRTS_SENT") else Publish(RecordError(o), WARNING, "ATSRTS_SEND_FAIL")
  }

  /** What a pass tells about the first `n` entries of `s`. */
  function TellScan(o: Outlet, s: State, met: nat, utc: nat, sends: seq<bool>, n: nat): Outlet
    requires n <= |s.entries| == |sends|
  {
    if n == 0 then o
    else
      var o' := TellScan(o, s, met, utc, sends, n - 1);
      if IsExecuted(s, n - 1, met, utc) then TellDispatch(o', sends[n - 1]) else o'
  }

  function Tell(o: Outlet, s: State, e: Happening): Outlet
    requires Held(s) && Possible(e)
  {
    match e
    case Handled(cmd) => TellHandle(o, s, cmd)
    case Event(source, _) => TellHear(o, s, source, MAX_SEQUENCE_ENTRIES)
    case Executed(met, utc, sends, shown) => Show(TellScan(o, s, met, utc, sends, MAX_SEQUENCE_ENTRIES), shown)
  }

  /** What a run tells; `rooms[k]` is the room the event queue has when happening `k` begins. */
  function TellAll(o: Outlet, s: State, es: seq<Happening>, rooms: seq<nat>): Outlet
    requires Held(s) && AllPossible(es) && |rooms| == |es|
    decreases |es|
  {
    if es == [] then o
    else
      var n := |es| - 1;
      Tell(TellAll(o, s, es[..n], rooms[..n]).(room := rooms[n]), Final(s, es[..n]), es[n])
  }

  predicate IsFailed(f: Fate) {
    f.Dispatched? && !f.sent
  }

  predicate IsMatched(f: Fate) {
    f.matched.Some?
  }

  predicate AsksCommit(e: Happening) {
    e.Handled? && e.cmd.opcode == OP_COMMIT_ENTRY
  }

  predicate IsUnknown(e: Happening) {
    e.Handled? && !IsKnown(e.cmd)
  }

  predicate IsReported(e: Happening) {
    e.Handled? && (e.cmd.opcode >= OP_COMMIT_ENTRY || e.cmd.opcode == 0)
  }

  predicate IsHidden(e: Happening) {
    e.Executed? && !e.shown
  }

  /** Failed dispatches, refused commits, unknown commands, telemetry not taken. */
  ghost function Faults(es: seq<Happening>, h: History): int {
    Count(h.fates, IsFailed) + (Count(es, AsksCommit) - |h.commits|) + Count(es, IsUnknown) + Count(es, IsHidden)
  }

  /** One report for each command that is not a staging one, each entry an event started, each dispatch. */
  ghost function Reports(es: seq<Happening>, h: History): nat {
    Count(es, IsReported) + Count(h.fates, IsMatched) + Count(h.fates, IsDispatched)
  }

  /** `o` records what the happenings and the history say, and `INFO ATSRTS_READY` before them. */
  ghost predicate Explained(o: Outlet, h: History, es: seq<Happening>) {
    o.faults == Faults(es, h) && o.issued == 1 + Reports(es, h) && Accounted(o)
  }

  lemma {:induction false} HearExplained(o: Outlet, s: State, source: u32, met: nat, n: nat, es: seq<Happening>)
    requires Inv(s, Idle) && n <= MAX_SEQUENCE_ENTRIES && Explained(o, s.h, es)
    ensures Explained(TellHear(o, s, source, n), HearOf(s, source, met, n).h, es)
  {
    if n > 0 {
      HearExplained(o, s, source, met, n - 1, es);
      HearKeepsInv(s, source, met, n - 1);
      if s.armed {
        HearSlotExplained(TellHear(o, s, source, n - 1), HearOf(s, source, met, n - 1), n - 1, source, met, es);
      }
    }
  }

  lemma {:induction false} HearSlotExplained(o: Outlet, r: State, i: nat, source: u32, met: nat, es: seq<Happening>)
    requires Inv(r, Hearing(i)) && i < MAX_SEQUENCE_ENTRIES && r.h.events != [] && r.armed && Explained(o, r.h, es)
    ensures Explained(if IsStarted(r, i, source) then Publish(o, INFO, "ATSRTS_RTS_ARM") else o,
                      HearSlot(r, i, source, met).h, es)
  {
    if IsStarted(r, i, source) {
      var f := Pending(Some(|r.h.events| - 1));
      assert SlotOk(r, i);
      CountUpdate(r.h.fates, r.entries[i].id, f, IsFailed);
      CountUpdate(r.h.fates, r.entries[i].id, f, IsMatched);
      CountUpdate(r.h.fates, r.entries[i].id, f, IsDispatched);
      PublishAccounted(o, INFO, "ATSRTS_RTS_ARM");
    }
  }

  lemma {:induction false} ScanExplained(
    o: Outlet, s: State, met: nat, utc: nat, sends: seq<bool>, n: nat, es: seq<Happening>)
    requires Inv(s, Idle) && n <= MAX_SEQUENCE_ENTRIES == |sends| && Explained(o, s.h, es)
    ensures Explained(TellScan(o, s, met, utc, sends, n), ScanOf(s, met, utc, sends, n).h, es)
  {
    if n > 0 {
      ScanExplained(o, s, met, utc, sends, n - 1, es);
      ScanKeepsInv(s, met, utc, sends, n - 1);
      if s.armed {
        ScanSlotExplained(TellScan(o, s, met, utc, sends, n - 1), ScanOf(s, met, utc, sends, n - 1), n - 1, met, utc,
          sends[n - 1], es);
      }
    }
  }

  lemma {:induction false} ScanSlotExplained(
    o: Outlet, r: State, i: nat, met: nat, utc: nat, sent: bool, es: seq<Happening>)
    requires Inv(r, Scanning(i)) && i < MAX_SEQUENCE_ENTRIES && r.h.scans != [] && r.armed && Explained(o, r.h, es)
    ensures Explained(if IsExecuted(r, i, met, utc) then TellDispatch(o, sent) else o,
                      ScanSlot(r, i, met, utc, sent).h, es)
  {
    if IsExecuted(r, i, met, utc) {
      var id := r.entries[i].id;
      var f := Dispatched(r.h.fates[id].matched, |r.h.scans| - 1, sent);
      assert SlotOk(r, i);
      CountUpdate(r.h.fates, id, f, IsFailed);
      CountUpdate(r.h.fates, id, f, IsMatched);
      CountUpdate(r.h.fates, id, f, IsDispatched);
      if sent {
        PublishAccounted(o, INFO, "ATSRTS_SENT");
      } else {
        RecordErrorAccounted(o);
        PublishAccounted(RecordError(o), WARNING, "ATSRTS_SEND_FAIL");
      }
    }
  }

  /** Two lists of fates of which the same is counted. */
  ghost predicate SameCounts(a: seq<Fate>, b: seq<Fate>) {
    && Count(a, IsFailed) == Count(b, IsFailed) && Count(a, IsMatched) == Count(b, IsMatched)
    && Count(a, IsDispatched) == Count(b, IsDispatched)
  }

  lemma {:induction false} CommitFates(fates: seq<Fate>)
    ensures SameCounts(fates + [Pending(None)], fates)
  {
    CountAppend(fates, Pending(None), IsFailed);
    CountAppend(fates, Pending(None), IsMatched);
    CountAppend(fates, Pending(None), IsDispatched);
  }

  lemma {:induction false} ClearFates(h: History)
    ensures SameCounts(ClearedFates(h), h.fates)
  {
    CountSame(ClearedFates(h), h.fates, IsFailed);
    CountSame(ClearedFates(h), h.fates, IsMatched);
    CountSame(ClearedFates(h), h.fates, IsDispatched);
  }

  /** A command changes no fate in what is counted, and a commit adds one that does not count. */
  lemma {:induction false} CommandFates(s: State, cmd: Command)
    ensures SameCounts(Handle(s, cmd).h.fates, s.h.fates)
  {
    if cmd.opcode == OP_COMMIT_ENTRY {
      CommitFates(s.h.fates);
    } else if cmd.opcode == OP_CLEAR {
      ClearFates(s.h);
    }
  }

  lemma {:induction false} HandleAccounted(o: Outlet, s: State, cmd: Command)
    requires Accounted(o)
    ensures Accounted(TellHandle(o, s, cmd))
  {
    RecordErrorAccounted(o);
    PublishAccounted(RecordError(o), WARNING, "ATSRTS_FULL");
    PublishAccounted(RecordError(o), WARNING, "ATSRTS_BAD_OP");
    PublishAccounted(o, INFO, "ATSRTS_COMMIT");
    PublishAccounted(o, INFO, "ATSRTS_ARM");
    PublishAccounted(o, INFO, "ATSRTS_DISARM");
    PublishAccounted(o, INFO, "ATSRTS_CLEAR");
  }

  lemma {:induction false} NextCounted(es: seq<Happening>, e: Happening)
    ensures Count(es + [e], AsksCommit) == Count(es, AsksCommit) + One(AsksCommit(e))
    ensures Count(es + [e], IsUnknown) == Count(es, IsUnknown) + One(IsUnknown(e))
    ensures Count(es + [e], IsReported) == Count(es, IsReported) + One(IsReported(e))
    ensures Count(es + [e], IsHidden) == Count(es, IsHidden) + One(IsHidden(e))
  {
    CountAppend(es, e, AsksCommit);
    CountAppend(es, e, IsUnknown);
    CountAppend(es, e, IsReported);
    CountAppend(es, e, IsHidden);
  }

  lemma {:induction false} CommitExplained(o: Outlet, s: State, cmd: Command, es: seq<Happening>)
    requires Explained(o, s.h, es) && cmd.opcode == OP_COMMIT_ENTRY
    ensures Explained(TellHandle(o, s, cmd), Handle(s, cmd).h, es + [Handled(cmd)])
  {
    NextCounted(es, Handled(cmd));
    CommandFates(s, cmd);
    HandleAccounted(o, s, cmd);
    assert |Handle(s, cmd).h.commits| == |s.h.commits| + One(FreeSlot(s.entries) < |s.entries|);
  }

  lemma {:induction false} HandledExplained(o: Outlet, s: State, cmd: Command, es: seq<Happening>)
    requires Explained(o, s.h, es)
    ensures Explained(TellHandle(o, s, cmd), Handle(s, cmd).h, es + [Handled(cmd)])
  {
    if cmd.opcode == OP_COMMIT_ENTRY {
      CommitExplained(o, s, cmd, es);
    } else {
      NextCounted(es, Handled(cmd));
      CommandFates(s, cmd);
      HandleAccounted(o, s, cmd);
      assert Handle(s, cmd).h.commits == s.h.commits;
    }
  }

  lemma {:induction false} TellExplained(o: Outlet, s: State, e: Happening, es: seq<Happening>)
    requires Inv(s, Idle) && Possible(e) && Explained(o, s.h, es)
    ensures Explained(Tell(o, s, e), After(s, e).h, es + [e])
  {
    NextCounted(es, e);
    match e
    case Handled(cmd) => HandledExplained(o, s, cmd, es);
    case Event(source, met) => HearExplained(o, s, source, met, MAX_SEQUENCE_ENTRIES, es);
    case Executed(met, utc, sends, shown) =>
      ScanExplained(o, s, met, utc, sends, MAX_SEQUENCE_ENTRIES, es);
      RecordErrorAccounted(TellScan(o, s, met, utc, sends, MAX_SEQUENCE_ENTRIES));
  }

  /**
   The health counter is exact, over every run and whatever room the event queue has: it is the
   number of failed dispatches, refused commits, unknown commands, telemetry frames that were not
   taken and reports that were not taken. And every command that is not a staging one, every
   entry that an event starts and every dispatch is reported exactly once.
   */
  lemma {:induction false} ErrorsExplained(es: seq<Happening>, room: nat, rooms: seq<nat>)
    requires AllPossible(es) && |rooms| == |es|
    ensures var o := TellAll(Publish(Fresh(room), INFO, "ATSRTS_READY"), Initial(), es, rooms);
      var h := Final(Initial(), es).h;
      && o.issued == 1 + Reports(es, h) && |o.delivered| <= o.issued
      && Faults(es, h) >= 0 && o.errors == (Faults(es, h) + (o.issued - |o.delivered|)) % TWO32
  {
    RunExplained(room, es, rooms);
  }

  lemma {:induction false} TellNext(o: Outlet, s: State, es: seq<Happening>, rooms: seq<nat>)
    requires Held(s) && AllPossible(es) && |rooms| == |es| > 0
    ensures var n := |es| - 1;
      && es == es[..n] + [es[n]] && Final(s, es) == After(Final(s, es[..n]), es[n])
      && TellAll(o, s, es, rooms) ==
        Tell(TellAll(o, s, es[..n], rooms[..n]).(room := rooms[n]), Final(s, es[..n]), es[n])
  {
  }

  lemma {:induction false} RunExplained(room: nat, es: seq<Happening>, rooms: seq<nat>)
    requires AllPossible(es) && |rooms| == |es|
    ensures Explained(TellAll(Publish(Fresh(room), INFO, "ATSRTS_READY"), Initial(), es, rooms),
      Final(Initial(), es).h, es)
    decreases |es|
  {
    var ready := Publish(Fresh(room), INFO, "ATSRTS_READY");
    if es == [] {
      PublishAccounted(Fresh(room), INFO, "ATSRTS_READY");
    } else {
      var n := |es| - 1;
      var o, s := TellAll(ready, Initial(), es[..n], rooms[..n]), Final(Initial(), es[..n]);
      RunExplained(room, es[..n], rooms[..n]);
      FinalKeepsInv(Initial(), es[..n]);
      TellNext(ready, Initial(), es, rooms);
      RoomForgotten(o, rooms[n], s.h, es[..n]);
      TellExplained(o.(room := rooms[n]), s, es[n], es[..n]);
    }
  }

  lemma {:induction false} RoomForgotten(o: Outlet, room: nat, h: History, es: seq<Happening>)
    requires Explained(o, h, es)
    ensures Explained(o.(room := room), h, es)
  {
  }

  // ---------------------------------------------------------------- the class

  lemma {:induction false} DisarmedHearsNothing(s: State, o: Outlet, source: u32, met: nat, n: nat)
    requires Held(s) && !s.armed && n <= MAX_SEQUENCE_ENTRIES
    ensures HearOf(s, source, met, n) == HearOf(s, source, met, 0) && TellHear(o, s, source, n) == o
  {
    if n > 0 {
      DisarmedHearsNothing(s, o, source, met, n - 1);
    }
  }

  lemma {:induction false} DisarmedDispatchesNothing(s: State, o: Outlet, met: nat, utc: nat, sends: seq<bool>, n: nat)
    requires Held(s) && !s.armed && n <= MAX_SEQUENCE_ENTRIES == |sends|
    ensures ScanOf(s, met, utc, sends, n) == ScanOf(s, met, utc, sends, 0) && TellScan(o, s, met, utc, sends, n) == o
  {
    if n > 0 {
      DisarmedDispatchesNothing(s, o, met, utc, sends, n - 1);
    }
  }

  function HandleAll(s: State, cmds: seq<Command>, n: nat): (r: State)
    requires Held(s) && n <= |cmds|
    ensures Held(r)
  {
    if n == 0 then s else Handle(HandleAll(s, cmds, n - 1), cmds[n - 1])
  }

  /** The events of a step, each with the clock reading it is processed at. */
  function HearAll(s: State, events: seq<(u32, nat)>, n: nat): (r: State)
    requires Held(s) && n <= |events|
    ensures Held(r)
  {
    if n == 0 then s
    else HearOf(HearAll(s, events, n - 1), events[n - 1].0, events[n - 1].1, MAX_SEQUENCE_ENTRIES)
  }

  function TellHandleAll(o: Outlet, s: State, cmds: seq<Command>, n: nat): Outlet
    requires Held(s) && n <= |cmds|
  {
    if n == 0 then o
    else TellHandle(TellHandleAll(o, s, cmds, n - 1), HandleAll(s, cmds, n - 1), cmds[n - 1])
  }

  function TellHearAll(o: Outlet, s: State, events: seq<(u32, nat)>, n: nat): Outlet
    requires Held(s) && n <= |events|
  {
    if n == 0 then o
    else TellHear(TellHearAll(o, s, events, n - 1), HearAll(s, events, n - 1), events[n - 1].0, MAX_SEQUENCE_ENTRIES)
  }

  class Sequencer {
    const entries: array<Entry>
    var staged: Staged
    var armed: bool
    /** How many commits there were; it only names them. */
    var committed: nat
    var outlet: Outlet
    ghost var h: History

    ghost predicate Valid()
      reads this, entries
    {
      Held(Value()) && committed == |h.commits|
    }

    ghost function Value(): State
      reads this, entries
    {
      State(entries[..], staged, armed, h)
    }

    /** The constructor and `init`. */
    constructor (room: nat)
      ensures Valid() && fresh(entries) && Value() == Initial()
      ensures outlet == Publish(Fresh(room), INFO, "ATSRTS_READY")
    {
      outlet := Publish(Fresh(room), INFO, "ATSRTS_READY");
      entries := new Entry[MAX_SEQUENCE_ENTRIES](_ => BLANK);
      staged, armed, committed := Staged(Command(200, 1, Some(0.0)), AbsMet, 0, 0, 0), false, 0;
      h := History([], [], [], []);
    }

    method CommitEntry()
      requires Valid()
      modifies entries, `committed, `outlet, `h
      ensures Valid() && Value() == WithCommit(old(Value()))
      ensures outlet == TellCommit(old(outlet), old(Value()))
    {
      for i := 0 to entries.Length
        invariant Value() == old(Value()) && committed == old(committed) && outlet == old(outlet)
        invariant forall k :: 0 <= k < i ==> entries[k].active
      {
        if !entries[i].active {
          assert FreeSlot(entries[..]) == i;
          var word := TimeWord(staged);
          entries[i] := Entry(true, staged.trigger.RelEvent?, staged.trigger, staged.source, word, staged.cmd,
            committed);
          committed := committed + 1;
          h := h.(fates := h.fates + [Pending(None)],
                  commits := h.commits +
                    [Commit(staged.cmd, staged.trigger, staged.source, word, i, |h.scans|, |h.events|)]);
          outlet := Publish(outlet, INFO, "ATSRTS_COMMIT");
          return;
        }
      }
      assert FreeSlot(entries[..]) == |entries[..]|;
      outlet := Publish(RecordError(outlet), WARNING, "ATSRTS_FULL");
    }

    method ClearAll()
      requires Valid()
      modifies entries, `h
      ensures Valid() && Value() == Blanked(old(Value()))
    {
      for i := 0 to entries.Length
        invariant h == old(h)
        invariant forall k :: 0 <= k < i ==> entries[k] == BLANK
      {
        entries[i] := BLANK;
      }
      h := h.(fates := ClearedFates(h));
      assert entries[..] == seq(|old(entries[..])|, _ => BLANK);
    }

    method HandleCommand(cmd: Command)
      requires Valid()
      modifies entries, `staged, `armed, `committed, `outlet, `h
      ensures Valid() && Value() == Handle(old(Value()), cmd)
      ensures outlet == TellHandle(old(outlet), old(Value()), cmd)
    {
      if cmd.opcode == OP_COMMIT_ENTRY {
        CommitEntry();
      } else if cmd.opcode == OP_ARM {
        armed := true;
        outlet := Publish(outlet, INFO, "ATSRTS_ARM");
      } else if cmd.opcode == OP_DISARM {
        armed := false;
        outlet := Publish(outlet, INFO, "ATSRTS_DISARM");
      } else if cmd.opcode == OP_CLEAR {
        ClearAll();
        outlet := Publish(outlet, INFO, "ATSRTS_CLEAR");
      } else if IsKnown(cmd) {
        staged := SetStaged(staged, cmd);
      } else {
        outlet := Publish(RecordError(outlet), WARNING, "ATSRTS_BAD_OP");
      }
    }

    /** The body of the loop of `onEvent`. */
    method HearEntry(i: nat, source: u32, met: nat)
      requires Valid() && i < MAX_SEQUENCE_ENTRIES && armed && h.events != []
      modifies entries, `outlet, `h
      ensures Valid() && Value() == HearSlot(old(Value()), i, source, met)
      ensures outlet == if IsStarted(old(Value()), i, source) then Publish(old(outlet), INFO, "ATSRTS_RTS_ARM")
        else old(outlet)
    {
      var e := entries[i];
      if e.active && e.waiting && Matches(e.source, source) {
        entries[i] := e.(waiting := false, value := met + e.value, trigger := AbsMet);
        h := h.(fates := h.fates[e.id := Pending(Some(|h.events| - 1))]);
        outlet := Publish(outlet, INFO, "ATSRTS_RTS_ARM");
      }
    }

    method OnEvent(source: u32, met: nat)
      requires Valid()
      modifies entries, `outlet, `h
      ensures Valid() && Value() == HearOf(old(Value()), source, met, MAX_SEQUENCE_ENTRIES)
      ensures outlet == TellHear(old(outlet), old(Value()), source, MAX_SEQUENCE_ENTRIES)
    {
      h := h.(events := h.events + [Heard(source, met, armed, |h.scans|)]);
      if !armed {
        DisarmedHearsNothing(old(Value()), old(outlet), source, met, MAX_SEQUENCE_ENTRIES);
        return;
      }
      for i := 0 to entries.Length
        invariant Valid() && Value() == HearOf(old(Value()), source, met, i)
        invariant outlet == TellHear(old(outlet), old(Value()), source, i)
      {
        HearEntry(i, source, met);
      }
    }

    /** The body of the loop of `executeDueEntries`. */
    method ExecuteEntry(i: nat, met: nat, utc: nat, sent: bool)
      requires Valid() && i < MAX_SEQUENCE_ENTRIES && armed && h.scans != []
      modifies entries, `outlet, `h
      ensures Valid() && Value() == ScanSlot(old(Value()), i, met, utc, sent)
      ensures outlet == if IsExecuted(old(Value()), i, met, utc) then TellDispatch(old(outlet), sent) else old(outlet)
    {
      var e := entries[i];
      if e.active && !e.waiting && IsDue(e, met, utc) {
        if !sent {
          outlet := Publish(RecordError(outlet), WARNING, "ATSRTS_SEND_FAIL");
        } else {
          outlet := Publish(outlet, INFO, "ATSRTS_SENT");
        }
        entries[i] := e.(active := false);
        h := h.(fates := h.fates[e.id := Dispatched(h.fates[e.id].matched, |h.scans| - 1, sent)]);
      }
    }

    /** `sends[i]` is the port's answer for entry `i`, if it is offered. */
    method ExecuteDueEntries(met: nat, utc: nat, sends: seq<bool>)
      requires Valid() && |sends| == MAX_SEQUENCE_ENTRIES
      modifies entries, `outlet, `h
      ensures Valid() && Value() == ScanOf(old(Value()), met, utc, sends, MAX_SEQUENCE_ENTRIES)
      ensures outlet == TellScan(old(outlet), old(Value()), met, utc, sends, MAX_SEQUENCE_ENTRIES)
    {
      h := h.(scans := h.scans + [Scan(met, utc, armed)]);
      if !armed {
        DisarmedDispatchesNothing(old(Value()), old(outlet), met, utc, sends, MAX_SEQUENCE_ENTRIES);
        return;
      }
      for i := 0 to entries.Length
        invariant Valid() && Value() == ScanOf(old(Value()), met, utc, sends, i)
        invariant outlet == TellScan(old(outlet), old(Value()), met, utc, sends, i)
      {
        ExecuteEntry(i, met, utc, sends[i]);
      }
    }

    /** `activeCount`. */
    method ActiveCount() returns (n: nat)
      ensures n == Count(entries[..], IsActive)
    {
      n := 0;
      for i := 0 to entries.Length
        invariant n == Count(entries[..i], IsActive)
      {
        assert entries[..i + 1] == entries[..i] + [entries[i]];
        CountAppend(entries[..i], entries[i], IsActive);
        if entries[i].active {
          n := n + 1;
        }
      }
      assert entries[..entries.Length] == entries[..];
    }

    /**
     Commands first, then events, then the entries that are due; `shown` tells whether the
     telemetry port takes the frame, which carries `active`.
     */
    method Step(cmds: seq<Command>, events: seq<(u32, nat)>, met: nat, utc: nat, sends: seq<bool>, shown: bool)
      returns (active: nat)
      requires Valid() && |sends| == MAX_SEQUENCE_ENTRIES
      modifies entries, `staged, `armed, `committed, `outlet, `h
      ensures Valid()
      ensures var handled := HandleAll(old(Value()), cmds, |cmds|);
        var heard := HearAll(handled, events, |events|);
        && Value() == ScanOf(heard, met, utc, sends, MAX_SEQUENCE_ENTRIES)
        && outlet == Show(TellScan(TellHearAll(TellHandleAll(old(outlet), old(Value()), cmds, |cmds|), handled, events,
          |events|),
                                   heard, met, utc, sends, MAX_SEQUENCE_ENTRIES), shown)
      ensures active == Count(Value().entries, IsActive)
    {
      for k := 0 to |cmds|
        invariant Valid() && Value() == HandleAll(old(Value()), cmds, k)
        invariant outlet == TellHandleAll(old(outlet), old(Value()), cmds, k)
      {
        HandleCommand(cmds[k]);
      }
      ghost var handled, told := Value(), outlet;
      for k := 0 to |events|
        invariant Valid() && Value() == HearAll(handled, events, k)
        invariant outlet == TellHearAll(told, handled, events, k)
      {
        OnEvent(events[k].0, events[k].1);
      }
      ExecuteDueEntries(met, utc, sends);
      active := ActiveCount();
      outlet := Show(outlet, shown);
    }
  }
}
