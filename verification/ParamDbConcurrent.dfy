/**
 `getParam`, `setParam` and `verifyIntegrity` of `src/ParamDb.hpp` called by any number of
 threads at once. Each load and store of shared memory is a step; so are taking and giving
 back `write_mutex`. While a thread holds the mutex nobody else writes, so the loop that
 recomputes the checksum, which only reads, is one step.
 */
module ParamDbConcurrent {
  import opened Wrappers
  import opened Words
  import opened Lfsr
  import opened ParamDb
  import Calls

  type Thread = nat

  datatype Request = Get(id: u32, default: u32) | Set(id: u32, value: u32) | Verify

  /** What a call returns. */
  datatype Result = Value(value: u32) | Done | Verified(ok: bool)

  /** Where a thread is inside its call; once the result is settled it is held until the return. */
  datatype Pc =
    | Idle
    // getParam before the mutex
    | LoadCount(req: Request)
    | Scan(req: Request, n: nat, i: nat)
    | LoadValue(req: Request, i: nat)
    // all three calls
    | WantMutex(req: Request)
    | Entered(req: Request)
    | Rescan(req: Request, n: nat, i: nat)
    | Hit(req: Request, i: nat)
    | WriteId(req: Request, n: nat)
    | WriteValue(req: Request, n: nat)
    | Publish(req: Request, n: nat)
    | StoreChecksum(result: Result)
    | Leaving(result: Result)

  datatype State = State(params: seq<Entry>, count: nat, expectedCrc: Word, mutex: Option<Thread>, pcs: map<Thread, Pc>)

  function PcOf(s: State, t: Thread): Pc {
    if t in s.pcs then s.pcs[t] else Idle
  }

  predicate InMutex(pc: Pc) {
    pc.Entered? || pc.Rescan? || pc.Hit? || pc.WriteId? || pc.WriteValue? || pc.Publish? || pc.StoreChecksum?
      || pc.Leaving?
  }

  /** What a call does to, or learns from, the abstract map at one moment. */
  datatype Op =
    | Found(id: u32, value: u32)     // getParam returns the stored value
    | Inserted(id: u32, value: u32)  // a new id; getParam returns the default it stored
    | Assigned(id: u32, value: u32)  // setParam on a known id
    | NoRoom(id: u32)                // unknown id, table full: default returned, or value dropped
    | Checked(ok: bool)              // verifyIntegrity returns

  datatype Action = Call(req: Request) | Advance

  datatype Step = Step(thread: Thread, action: Action)

  function ValueOf(req: Request): u32
    requires !req.Verify?
  {
    if req.Get? then req.default else req.value
  }

  /** `getParam` returns the default when it inserts and when the table is full; `setParam` returns nothing. */
  function Stored(req: Request): Result
    requires !req.Verify?
  {
    if req.Get? then Value(req.default) else Done
  }

  predicate WellIndexed(s: State, pc: Pc) {
    match pc
    case Scan(req, n, i) => !req.Verify? && n <= |s.params|
    case LoadValue(req, i) => req.Get? && i < |s.params|
    case Rescan(req, n, i) => !req.Verify? && n <= |s.params| == MAX_PARAMS
    case Hit(req, i) => !req.Verify? && i < |s.params|
    case WriteId(req, n) => !req.Verify? && n < |s.params|
    case WriteValue(req, n) => !req.Verify? && n < |s.params|
    case Publish(req, n) => !req.Verify? && n < |s.params|
    case _ => s.count <= |s.params|
  }

  predicate Enabled(s: State, step: Step) {
    var pc := PcOf(s, step.thread);
    WellIndexed(s, pc) &&
    match step.action
    case Call(_) => pc.Idle?
    case Advance => !pc.Idle? && (pc.WantMutex? ==> s.mutex == None)
  }

  /** Where the thread goes next. */
  function NextPc(s: State, pc: Pc): Pc
    requires WellIndexed(s, pc)
  {
    match pc
    case Idle => Idle
    case LoadCount(req) => Scan(req, s.count, 0)
    case Scan(req, n, i) =>
      if i >= n then WantMutex(req) else if s.params[i].id == req.id then LoadValue(req, i) else Scan(req, n, i + 1)
    case LoadValue(_, _) => Idle
    case WantMutex(req) => Entered(req)
    case Entered(req) =>
      if req.Verify? then Leaving(Verified(Checksum(s.params[..s.count]) == s.expectedCrc)) else Rescan(req, s.count, 0)
    case Rescan(req, n, i) =>
      if i < n then if s.params[i].id == req.id then Hit(req, i) else Rescan(req, n, i + 1)
      else if n < MAX_PARAMS then WriteId(req, n)
      else Leaving(Stored(req))
    case Hit(req, i) => if req.Get? then Leaving(Value(s.params[i].value)) else StoreChecksum(Done)
    case WriteId(req, n) => WriteValue(req, n)
    case WriteValue(req, n) => Publish(req, n)
    case Publish(req, _) => StoreChecksum(Stored(req))
    case StoreChecksum(result) => Leaving(result)
    case Leaving(_) => Idle
  }

  function NextParams(s: State, pc: Pc): (params: seq<Entry>)
    requires WellIndexed(s, pc)
    ensures |params| == |s.params|
  {
    match pc
    case Hit(req, i) => if req.Set? then s.params[i := s.params[i].(value := req.value)] else s.params
    case WriteId(req, n) => s.params[n := s.params[n].(id := req.id)]
    case WriteValue(req, n) => s.params[n := s.params[n].(value := ValueOf(req))]
    case _ => s.params
  }

  function NextMutex(mutex: Option<Thread>, t: Thread, pc: Pc): Option<Thread> {
    if pc.WantMutex? then Some(t) else if pc.Leaving? then None else mutex
  }

  function Next(s: State, step: Step): State
    requires Enabled(s, step)
  {
    var t, pc := step.thread, PcOf(s, step.thread);
    match step.action
    case Call(req) => s.(pcs := s.pcs[t := if req.Get? then LoadCount(req) else WantMutex(req)])
    case Advance =>
      State(NextParams(s, pc), if pc.Publish? then pc.n + 1 else s.count,
            if pc.StoreChecksum? then Checksum(s.params[..s.count]) else s.expectedCrc,
            NextMutex(s.mutex, t, pc), s.pcs[t := NextPc(s, pc)])
  }

  /** The operation that takes effect at a step, if any, with what the caller will be told. */
  function Effect(s: State, step: Step): (ops: seq<Op>)
    requires Enabled(s, step)
    ensures |ops| <= 1
  {
    if step.action.Call? then [] else EffectAt(s, PcOf(s, step.thread))
  }

  function EffectAt(s: State, pc: Pc): (ops: seq<Op>)
    requires WellIndexed(s, pc)
    ensures |ops| <= 1
  {
    match pc
    case LoadValue(req, i) => [Found(req.id, s.params[i].value)]
    case Entered(req) => if req.Verify? then [Checked(Checksum(s.params[..s.count]) == s.expectedCrc)] else []
    case Rescan(req, n, i) => if i >= n && n >= MAX_PARAMS then [NoRoom(req.id)] else []
    case Hit(req, i) => if req.Get? then [Found(req.id, s.params[i].value)] else [Assigned(req.id, req.value)]
    case Publish(req, n) => [Inserted(req.id, ValueOf(req))]
    case _ => []
  }

  predicate Initial(s: State) {
    |s.params| == MAX_PARAMS && s.count == 0 && s.expectedCrc == Zeros(32) && s.mutex == None && s.pcs == map[]
  }

  // ---------------------------------------------------------------- invariant

  function Published(s: State): seq<Entry>
    requires s.count <= |s.params|
  {
    s.params[..s.count]
  }

  /** What a thread knows at each point of its call. */
  ghost predicate Knows(s: State, pc: Pc)
    requires |s.params| == MAX_PARAMS && s.count <= MAX_PARAMS
  {
    match pc
    case Idle => true
    case LoadCount(req) => req.Get?
    case Scan(req, n, i) => req.Get? && n <= s.count
    case LoadValue(req, i) => req.Get? && i < s.count && s.params[i].id == req.id
    case WantMutex(_) => true
    case Entered(_) => true
    case Rescan(req, n, i) => !req.Verify? && i <= n == s.count && Absent(s.params[..i], req.id)
    case Hit(req, i) => !req.Verify? && i < s.count && s.params[i].id == req.id
    case WriteId(req, n) => !req.Verify? && n == s.count < MAX_PARAMS && Absent(Published(s), req.id)
    case WriteValue(req, n) =>
      !req.Verify? && n == s.count < MAX_PARAMS && Absent(Published(s), req.id) && s.params[n].id == req.id
    case Publish(req, n) =>
      !req.Verify? && n == s.count < MAX_PARAMS && Absent(Published(s), req.id)
      && s.params[n] == Entry(req.id, ValueOf(req))
    case StoreChecksum(_) => true
    case Leaving(_) => true
  }

  /** Exactly the thread that holds the mutex is between taking it and giving it back. */
  ghost predicate Exclusive(s: State, t: Thread) {
    InMutex(PcOf(s, t)) <==> s.mutex == Some(t)
  }

  ghost predicate Table(s: State) {
    |s.params| == MAX_PARAMS && s.count <= MAX_PARAMS && DistinctIds(Published(s))
  }

  /** The stored checksum is out of date only while its holder is about to store it. */
  ghost predicate ChecksumOk(s: State)
    requires s.count <= |s.params|
  {
    s.expectedCrc == Checksum(Published(s)) || (s.mutex.Some? && PcOf(s, s.mutex.value).StoreChecksum?)
  }

  ghost predicate Inv(s: State) {
    && Table(s) && ChecksumOk(s)
    && (forall t: Thread :: Exclusive(s, t))
    && (forall t: Thread :: Knows(s, PcOf(s, t)))
  }

  lemma {:induction false} InitialInv(s: State)
    requires Initial(s)
    ensures Inv(s)
  {
  }

  predicate Writes(pc: Pc) {
    (pc.Hit? && pc.req.Set?) || pc.WriteId? || pc.WriteValue? || pc.Publish? || pc.StoreChecksum?
  }

  lemma {:induction false} UpdateWithin(s: seq<Entry>, k: nat, i: nat, e: Entry)
    requires i < k <= |s|
    ensures s[i := e][..k] == s[..k][i := e]
  {
  }

  lemma {:induction false} UpdateBeyond(s: seq<Entry>, k: nat, i: nat, e: Entry)
    requires k <= i < |s|
    ensures s[i := e][..k] == s[..k]
  {
  }

  /** What the writing steps do to the published part of the table. */
  lemma {:induction false} PublishedNext(s: State, step: Step)
    requires Inv(s) && Enabled(s, step)
    ensures var s' := Next(s, step); var pc := PcOf(s, step.thread);
      && |s'.params| == MAX_PARAMS && s'.count <= MAX_PARAMS
      && Published(s') ==
         if step.action.Advance? && pc.Hit? && pc.req.Set? then
           Published(s)[pc.i := Published(s)[pc.i].(value := pc.req.value)]
         else if step.action.Advance? && pc.Publish? then Published(s) + [Entry(pc.req.id, ValueOf(pc.req))]
         else Published(s)
  {
    var s', pc := Next(s, step), PcOf(s, step.thread);
    assert Knows(s, pc);
    if step.action.Advance? {
      match pc
      case Hit(req, i) =>
        if req.Set? {
          UpdateWithin(s.params, s.count, i, s.params[i].(value := req.value));
        }
      case WriteId(req, n) => UpdateBeyond(s.params, s.count, n, s.params[n].(id := req.id));
      case WriteValue(req, n) => UpdateBeyond(s.params, s.count, n, s.params[n].(value := ValueOf(req)));
      case Publish(req, n) => assert Published(s') == Published(s) + [s.params[n]];
      case _ =>
    }
  }

  lemma {:induction false} TableNext(s: State, step: Step)
    requires Inv(s) && Enabled(s, step)
    ensures Table(Next(s, step)) && s.count <= Next(s, step).count
    ensures forall i :: 0 <= i < s.count ==> Published(Next(s, step))[i].id == Published(s)[i].id
  {
    PublishedNext(s, step);
    assert Knows(s, PcOf(s, step.thread));
  }

  lemma {:induction false} NextPcMutex(s: State, pc: Pc)
    requires WellIndexed(s, pc) && !pc.Idle?
    ensures InMutex(NextPc(s, pc)) <==> pc.WantMutex? || (InMutex(pc) && !pc.Leaving?)
  {
  }

  lemma {:induction false} ExclusiveNext(s: State, step: Step, t: Thread)
    requires Inv(s) && Enabled(s, step)
    ensures Exclusive(Next(s, step), t)
  {
    var pc, s' := PcOf(s, step.thread), Next(s, step);
    assert Exclusive(s, t) && Exclusive(s, step.thread);
    assert t != step.thread ==> PcOf(s', t) == PcOf(s, t);
    if step.action.Advance? {
      NextPcMutex(s, pc);
      assert PcOf(s', step.thread) == NextPc(s, pc);
    }
  }

  lemma {:induction false} ChecksumNext(s: State, step: Step)
    requires Inv(s) && Enabled(s, step)
    ensures Next(s, step).count <= |Next(s, step).params| && ChecksumOk(Next(s, step))
  {
    PublishedNext(s, step);
    assert Exclusive(s, step.thread);
    var pc, s' := PcOf(s, step.thread), Next(s, step);
    if step.action.Advance? {
      assert PcOf(s', step.thread) == NextPc(s, pc);
      if pc.StoreChecksum? {
        assert Published(s') == Published(s) && s'.expectedCrc == Checksum(Published(s));
      } else if Writes(pc) {
        assert s'.mutex == Some(step.thread);
      } else {
        assert Published(s') == Published(s) && s'.expectedCrc == s.expectedCrc;
      }
    } else {
      assert Published(s') == Published(s) && s'.expectedCrc == s.expectedCrc && s'.mutex == s.mutex;
    }
  }

  /** What other threads know survives, because only the mutex holder writes. */
  lemma {:induction false} KnowsFrame(s: State, s': State, pc: Pc)
    requires Table(s) && Table(s') && Knows(s, pc)
    requires (s.params == s'.params && s.count == s'.count) || !InMutex(pc)
    requires s.count <= s'.count
    requires forall i :: 0 <= i < s.count ==> Published(s')[i].id == Published(s)[i].id
    ensures Knows(s', pc)
  {
    if pc.LoadValue? {
      assert Published(s')[pc.i].id == Published(s)[pc.i].id;
    }
  }

  lemma {:induction false} OthersKnow(s: State, step: Step, t: Thread)
    requires Inv(s) && Enabled(s, step) && t != step.thread
    ensures Table(Next(s, step)) && Knows(Next(s, step), PcOf(Next(s, step), t))
  {
    TableNext(s, step);
    var s', pc, mover := Next(s, step), PcOf(s, t), PcOf(s, step.thread);
    assert PcOf(s', t) == pc && Knows(s, pc);
    assert Exclusive(s, t) && Exclusive(s, step.thread);
    if step.action.Advance? && Writes(mover) {
      assert !InMutex(pc);
    } else {
      assert s'.params == s.params && s'.count == s.count;
    }
    KnowsFrame(s, s', pc);
  }

  /** The thread that moves knows what its next point needs. */
  lemma {:induction false} NextPcKnows(s: State, pc: Pc)
    requires Table(s) && Knows(s, pc) && WellIndexed(s, pc) && !Writes(pc)
    ensures Knows(s, NextPc(s, pc))
  {
    if pc.Rescan? {
      if pc.i < pc.n {
        assert s.params[..pc.i + 1] == s.params[..pc.i] + [s.params[pc.i]];
      } else {
        assert s.params[..pc.i] == Published(s);
      }
    }
  }

  lemma {:induction false} WriterKnows(s: State, step: Step)
    requires Inv(s) && Enabled(s, step) && step.action.Advance? && Writes(PcOf(s, step.thread))
    ensures Table(Next(s, step)) && Knows(Next(s, step), PcOf(Next(s, step), step.thread))
  {
    TableNext(s, step);
    PublishedNext(s, step);
    var s', pc := Next(s, step), PcOf(s, step.thread);
    assert Knows(s, pc);
    assert PcOf(s', step.thread) == NextPc(s, pc);
  }

  lemma {:induction false} SelfKnows(s: State, step: Step)
    requires Inv(s) && Enabled(s, step)
    ensures Table(Next(s, step)) && Knows(Next(s, step), PcOf(Next(s, step), step.thread))
  {
    var s', pc := Next(s, step), PcOf(s, step.thread);
    if step.action.Advance? && Writes(pc) {
      WriterKnows(s, step);
    } else {
      TableNext(s, step);
      assert s'.params == s.params && s'.count == s.count;
      assert Knows(s, pc);
      if step.action.Advance? {
        NextPcKnows(s, pc);
        assert PcOf(s', step.thread) == NextPc(s, pc);
        SameKnowledge(s, s', NextPc(s, pc));
      }
    }
  }

  lemma {:induction false} SameKnowledge(s: State, s': State, pc: Pc)
    requires Table(s) && Knows(s, pc) && s'.params == s.params && s'.count == s.count
    ensures Knows(s', pc)
  {
  }

  lemma {:induction false} NextInv(s: State, step: Step)
    requires Inv(s) && Enabled(s, step)
    ensures Inv(Next(s, step))
  {
    TableNext(s, step);
    ChecksumNext(s, step);
    SelfKnows(s, step);
    forall t: Thread ensures Exclusive(Next(s, step), t) {
      ExclusiveNext(s, step, t);
    }
    forall t: Thread ensures Knows(Next(s, step), PcOf(Next(s, step), t)) {
      if t != step.thread {
        OthersKnow(s, step, t);
      }
    }
  }

  /** No access that the invariant allows lies outside the table: every thread can always move. */
  lemma {:induction false} IndicesInRange(s: State, t: Thread)
    requires Inv(s)
    ensures WellIndexed(s, PcOf(s, t))
  {
    assert Knows(s, PcOf(s, t));
  }

  // ---------------------------------------------------------------- linearizability

  predicate Legal(m: map<u32, u32>, op: Op) {
    match op
    case Found(id, value) => id in m && m[id] == value
    case Inserted(id, _) => id !in m && |m| < MAX_PARAMS
    case Assigned(id, _) => id in m
    case NoRoom(id) => id !in m && |m| == MAX_PARAMS
    case Checked(ok) => ok
  }

  function Apply(m: map<u32, u32>, op: Op): map<u32, u32> {
    match op
    case Inserted(id, value) => m[id := value]
    case Assigned(id, value) => m[id := value]
    case _ => m
  }

  predicate LegalHistory(m: map<u32, u32>, ops: seq<Op>)
    decreases |ops|
  {
    ops != [] ==> Legal(m, ops[0]) && LegalHistory(Apply(m, ops[0]), ops[1..])
  }

  function ApplyAll(m: map<u32, u32>, ops: seq<Op>): map<u32, u32>
    decreases |ops|
  {
    if ops == [] then m else ApplyAll(Apply(m, ops[0]), ops[1..])
  }

  function Abstract(s: State): map<u32, u32>
    requires s.count <= |s.params|
  {
    AsMap(Published(s))
  }

  lemma {:induction false} FoundLegal(s: State, pc: Pc)
    requires Inv(s) && Knows(s, pc) && (pc.LoadValue? || pc.Hit?)
    ensures Legal(Abstract(s), Found(pc.req.id, s.params[pc.i].value))
    ensures Legal(Abstract(s), Assigned(pc.req.id, 0))
  {
    assert Published(s)[pc.i] == s.params[pc.i];
    MapOfEntry(Published(s), pc.i);
  }

  lemma {:induction false} AbsentLegal(s: State, id: u32)
    requires Inv(s) && Absent(Published(s), id)
    ensures id !in Abstract(s) && |Abstract(s)| == s.count
  {
    MapOfAbsent(Published(s), id);
    MapSize(Published(s));
  }

  lemma {:induction false} EffectLegal(s: State, step: Step)
    requires Inv(s) && Enabled(s, step) && step.action.Advance?
    ensures Effect(s, step) != [] ==> Legal(Abstract(s), Effect(s, step)[0])
  {
    var pc := PcOf(s, step.thread);
    assert Knows(s, pc);
    if pc.LoadValue? || pc.Hit? {
      FoundLegal(s, pc);
    } else if pc.Publish? {
      AbsentLegal(s, pc.req.id);
    } else if pc.Entered? {
      assert Exclusive(s, step.thread);
    } else if pc.Rescan? && pc.i >= pc.n {
      assert s.params[..pc.i] == Published(s);
      AbsentLegal(s, pc.req.id);
    }
  }

  lemma {:induction false} AssignRefines(s: State, step: Step)
    requires Inv(s) && Enabled(s, step) && step.action.Advance?
    requires PcOf(s, step.thread).Hit? && PcOf(s, step.thread).req.Set?
    ensures Next(s, step).count <= |Next(s, step).params|
    ensures Abstract(Next(s, step)) == Apply(Abstract(s), Effect(s, step)[0])
  {
    PublishedNext(s, step);
    var pc := PcOf(s, step.thread);
    assert Knows(s, pc);
    MapOfAssign(Published(s), pc.i, pc.req.value);
  }

  lemma {:induction false} InsertRefines(s: State, step: Step)
    requires Inv(s) && Enabled(s, step) && step.action.Advance? && PcOf(s, step.thread).Publish?
    ensures Next(s, step).count <= |Next(s, step).params|
    ensures Abstract(Next(s, step)) == Apply(Abstract(s), Effect(s, step)[0])
  {
    PublishedNext(s, step);
    var pc := PcOf(s, step.thread);
    assert Knows(s, pc);
    MapOfInsert(Published(s), Entry(pc.req.id, ValueOf(pc.req)));
  }

  /** The published table changes as the effect says. */
  lemma {:induction false} AdvanceRefines(s: State, step: Step)
    requires Inv(s) && Enabled(s, step) && step.action.Advance?
    ensures Next(s, step).count <= |Next(s, step).params|
    ensures Abstract(Next(s, step)) ==
      if Effect(s, step) == [] then Abstract(s) else Apply(Abstract(s), Effect(s, step)[0])
  {
    var pc := PcOf(s, step.thread);
    if pc.Hit? && pc.req.Set? {
      AssignRefines(s, step);
    } else if pc.Publish? {
      InsertRefines(s, step);
    } else {
      PublishedNext(s, step);
    }
  }

  lemma {:induction false} OneOp(m: map<u32, u32>, ops: seq<Op>)
    requires |ops| <= 1 && (ops != [] ==> Legal(m, ops[0]))
    ensures LegalHistory(m, ops) && ApplyAll(m, ops) == if ops == [] then m else Apply(m, ops[0])
  {
    if ops != [] {
      assert ops[1..] == [];
    }
  }

  /** Each step changes the abstract map exactly as its effect says, and legally so. */
  lemma {:induction false} StepRefines(s: State, step: Step)
    requires Inv(s) && Enabled(s, step)
    ensures Inv(Next(s, step))
    ensures LegalHistory(Abstract(s), Effect(s, step))
    ensures Abstract(Next(s, step)) == ApplyAll(Abstract(s), Effect(s, step))
  {
    NextInv(s, step);
    if step.action.Advance? {
      AdvanceRefines(s, step);
      EffectLegal(s, step);
      OneOp(Abstract(s), Effect(s, step));
    }
  }

  ghost predicate Runs(s: State, steps: seq<Step>)
    decreases |steps|
  {
    steps != [] ==> Enabled(s, steps[0]) && Runs(Next(s, steps[0]), steps[1..])
  }

  function Final(s: State, steps: seq<Step>): State
    requires Runs(s, steps)
    decreases |steps|
  {
    if steps == [] then s else Final(Next(s, steps[0]), steps[1..])
  }

  type Event = Calls.Event<Thread, Request, Op, Result>

  function Returned(s: State, pc: Pc): Option<Result>
    requires WellIndexed(s, pc)
  {
    match pc
    case LoadValue(_, i) => Some(Value(s.params[i].value))
    case Leaving(result) => Some(result)
    case _ => None
  }

  /** What the moving thread's call does at a step. */
  function MomentOf(s: State, step: Step): Calls.Moment<Request, Op, Result>
    requires Enabled(s, step)
  {
    match step.action
    case Call(req) => Calls.Moment(Some(req), None, None)
    case Advance =>
      var ops := Effect(s, step);
      Calls.Moment(None, if ops == [] then None else Some(ops[0]), Returned(s, PcOf(s, step.thread)))
  }

  function Trace(s: State, steps: seq<Step>): seq<Event>
    requires Runs(s, steps)
    decreases |steps|
  {
    if steps == [] then []
    else Calls.EventsAt(steps[0].thread, MomentOf(s, steps[0])) + Trace(Next(s, steps[0]), steps[1..])
  }

  lemma {:induction false} HistoryConcat(m: map<u32, u32>, a: seq<Op>, b: seq<Op>)
    requires LegalHistory(m, a) && LegalHistory(ApplyAll(m, a), b)
    ensures LegalHistory(m, a + b) && ApplyAll(m, a + b) == ApplyAll(ApplyAll(m, a), b)
    decreases |a|
  {
    if a == [] {
      assert a + b == b;
    } else {
      assert (a + b)[1..] == a[1..] + b;
      HistoryConcat(Apply(m, a[0]), a[1..], b);
    }
  }

  // ---------------------------------------------------------------- calls and operations

  /** Which operations may stand for a request, and what the call then returns. */
  function Answer(req: Request, op: Op): Option<Result> {
    match (req, op)
    case (Get(id, _), Found(x, value)) => if x == id then Some(Value(value)) else None
    case (Get(id, default), Inserted(x, value)) => if x == id && value == default then Some(Value(default)) else None
    case (Get(id, default), NoRoom(x)) => if x == id then Some(Value(default)) else None
    case (Set(id, value), Inserted(x, v)) => if x == id && v == value then Some(Done) else None
    case (Set(id, value), Assigned(x, v)) => if x == id && v == value then Some(Done) else None
    case (Set(id, _), NoRoom(x)) => if x == id then Some(Done) else None
    case (Verify, Checked(ok)) => Some(Verified(ok))
    case _ => None
  }

  function PhaseOf(pc: Pc): Calls.Phase<Request, Result> {
    match pc
    case Idle => Calls.Outside
    case StoreChecksum(result) => Calls.Answered(result)
    case Leaving(result) => Calls.Answered(result)
    case _ => Calls.Inside(pc.req)
  }

  /** The operation is one for the request, and its answer is what the thread will return. */
  lemma {:induction false} StepInPhase(s: State, step: Step)
    requires Enabled(s, step)
    ensures Calls.Moves(Answer, PhaseOf(PcOf(s, step.thread)), MomentOf(s, step),
      PhaseOf(PcOf(Next(s, step), step.thread)))
  {
    if step.action.Advance? {
      assert PcOf(Next(s, step), step.thread) == NextPc(s, PcOf(s, step.thread));
    }
  }

  lemma {:induction false} TraceInPhase(s: State, steps: seq<Step>, t: Thread)
    requires Runs(s, steps)
    ensures Calls.Walk(Answer, PhaseOf(PcOf(s, t)), Calls.By(Trace(s, steps), t)) ==
      Some(PhaseOf(PcOf(Final(s, steps), t)))
    decreases |steps|
  {
    if steps != [] {
      var step, s' := steps[0], Next(s, steps[0]);
      StepInPhase(s, step);
      assert t != step.thread ==> PcOf(s', t) == PcOf(s, t);
      TraceInPhase(s', steps[1..], t);
      Calls.WalkStep(Answer, step.thread, MomentOf(s, step), Trace(s', steps[1..]), t, PhaseOf(PcOf(s, t)),
        PhaseOf(PcOf(s', t)));
    }
  }

  lemma {:induction false} EffectListed(s: State, step: Step)
    requires Enabled(s, step)
    ensures Effect(s, step) == Calls.Listed(MomentOf(s, step).op)
  {
  }

  lemma {:induction false} HistoryLegal(s: State, steps: seq<Step>)
    requires Inv(s) && Runs(s, steps)
    ensures Inv(Final(s, steps)) && s.count <= Final(s, steps).count
    ensures LegalHistory(Abstract(s), Calls.Ops(Trace(s, steps)))
    ensures Abstract(Final(s, steps)) == ApplyAll(Abstract(s), Calls.Ops(Trace(s, steps)))
    decreases |steps|
  {
    if steps != [] {
      var step, s' := steps[0], Next(s, steps[0]);
      var later := Trace(s', steps[1..]);
      StepRefines(s, step);
      TableNext(s, step);
      HistoryLegal(s', steps[1..]);
      Calls.OpsStep(step.thread, MomentOf(s, step), later);
      EffectListed(s, step);
      HistoryConcat(Abstract(s), Effect(s, step), Calls.Ops(later));
    }
  }

  /**
   Linearizability, for any number of threads and any interleaving, from power-on. The
   operations in the order in which they take effect are a legal history of a map of at most
   256 ids; and each call that returns was served by exactly one of them, between its first and
   its last step, on the id and value it asked for and with the result it returned. So a lookup
   returns the value last stored for its id, and no id is inserted twice.
   */
  lemma {:induction false} Linearizable(s: State, steps: seq<Step>)
    requires Initial(s) && Runs(s, steps)
    ensures LegalHistory(map[], Calls.Ops(Trace(s, steps)))
    ensures Inv(Final(s, steps)) && Abstract(Final(s, steps)) == ApplyAll(map[], Calls.Ops(Trace(s, steps)))
    ensures forall t: Thread ::
      Calls.Walk(Answer, Calls.Outside, Calls.By(Trace(s, steps), t)) == Some(PhaseOf(PcOf(Final(s, steps), t)))
    ensures forall i :: 0 <= i < |Trace(s, steps)| && Trace(s, steps)[i].Return? ==>
      exists k, j :: Calls.Served(Answer, Trace(s, steps), k, j, i)
  {
    InitialInv(s);
    HistoryLegal(s, steps);
    assert Published(s) == [];
    forall t: Thread
      ensures Calls.Walk(Answer, Calls.Outside, Calls.By(Trace(s, steps), t)) == Some(PhaseOf(PcOf(Final(s, steps), t)))
    {
      TraceInPhase(s, steps, t);
    }
    forall i | 0 <= i < |Trace(s, steps)| && Trace(s, steps)[i].Return?
      ensures exists k, j :: Calls.Served(Answer, Trace(s, steps), k, j, i)
    {
      ReturnServed(s, steps, i);
    }
  }

  lemma {:induction false} ReturnServed(s: State, steps: seq<Step>, i: nat)
    requires Initial(s) && Runs(s, steps) && i < |Trace(s, steps)| && Trace(s, steps)[i].Return?
    ensures exists k, j :: Calls.Served(Answer, Trace(s, steps), k, j, i)
  {
    TraceInPhase(s, steps, Trace(s, steps)[i].caller);
    Calls.ReturnServed(Answer, Trace(s, steps), i);
  }

  lemma {:induction false} ChecksSucceed(m: map<u32, u32>, ops: seq<Op>)
    requires LegalHistory(m, ops)
    ensures Checked(false) !in ops
    decreases |ops|
  {
    if ops != [] {
      ChecksSucceed(Apply(m, ops[0]), ops[1..]);
    }
  }

  lemma {:induction false} ServedHonestly(m: map<u32, u32>, trace: seq<Event>, k: int, j: int, i: int)
    requires LegalHistory(m, Calls.Ops(trace)) && Calls.Served(Answer, trace, k, j, i)
    ensures trace[i].result != Verified(false)
  {
    ChecksSucceed(m, Calls.Ops(trace));
    Calls.ActListed(trace, j);
  }

  /** From power-on: no call of `verifyIntegrity` returns false. */
  lemma {:induction false} IntegrityNeverFails(s: State, steps: seq<Step>, i: nat)
    requires Initial(s) && Runs(s, steps) && i < |Trace(s, steps)| && Trace(s, steps)[i].Return?
    ensures Trace(s, steps)[i].result != Verified(false)
  {
    Linearizable(s, steps);
    var k, j :| Calls.Served(Answer, Trace(s, steps), k, j, i);
    ServedHonestly(map[], Trace(s, steps), k, j, i);
  }
}
