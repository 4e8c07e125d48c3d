/**
 `RingBuffer` of `src/Port.hpp` shared by one producer thread and one consumer thread.

 Every atomic load and store is a step of its own, and steps of the two threads interleave
 freely; atomics are taken as sequentially consistent. That there is a single producer is an
 assumption of this model.
 */
module SpscQueue {
  import opened Wrappers
  import opened Words
  import opened Port
  import Calls

  /** Where the producer is inside `push`. */
  datatype Producer<T> =
    | Resting
    | LoadedTail(item: T, t: nat)   // tail read, head not yet
    | MayWrite(item: T, t: nat)     // the slot was seen free
    | Written(item: T, t: nat)      // the slot is written, tail not yet stored
    | SawFull                       // the overflow counter is next

  /** Where the consumer is inside `pop`. */
  datatype Consumer<T> =
    | Waiting
    | LoadedHead(h: nat)
    | MayRead(h: nat)
    | Read(h: nat, value: T)

  /** The shared memory and both threads; the last four fields only record the past. */
  datatype State<T> = State(
    capacity: nat, buf: seq<T>, head: nat, tail: nat, overflow: u32,
    producer: Producer<T>, consumer: Consumer<T>,
    accepted: seq<T>, popped: seq<T>, attempts: nat, drained: nat)

  datatype Step<T> =
    | PushLoadTail(item: T) | PushLoadHead | PushWrite | PushStoreTail | PushCountOverflow
    | PopLoadHead | PopLoadTail | PopRead | PopStoreHead
    | DrainOverflow

  function Slots<T>(s: State<T>): (n: nat)
    ensures n > 0
  {
    s.capacity + 1
  }

  predicate Enabled<T>(s: State<T>, step: Step<T>) {
    match step
    case PushLoadTail(_) => s.producer.Resting?
    case PushLoadHead => s.producer.LoadedTail?
    case PushWrite => s.producer.MayWrite? && s.producer.t < |s.buf|
    case PushStoreTail => s.producer.Written?
    case PushCountOverflow => s.producer.SawFull?
    case PopLoadHead => s.consumer.Waiting?
    case PopLoadTail => s.consumer.LoadedHead?
    case PopRead => s.consumer.MayRead? && s.consumer.h < |s.buf|
    case PopStoreHead => s.consumer.Read?
    case DrainOverflow => true
  }

  function Next<T>(s: State<T>, step: Step<T>): State<T>
    requires Enabled(s, step)
  {
    match step
    case PushLoadTail(item) => s.(producer := LoadedTail(item, s.tail), attempts := s.attempts + 1)
    case PushLoadHead =>
      s.(producer := if (s.producer.t + 1) % Slots(s) != s.head
                     then MayWrite(s.producer.item, s.producer.t) else SawFull)
    case PushWrite =>
      s.(buf := s.buf[s.producer.t := s.producer.item], producer := Written(s.producer.item, s.producer.t))
    case PushStoreTail =>
      s.(tail := (s.producer.t + 1) % Slots(s), producer := Resting, accepted := s.accepted + [s.producer.item])
    case PushCountOverflow => s.(overflow := Bump(s.overflow), producer := Resting)
    case PopLoadHead => s.(consumer := LoadedHead(s.head))
    case PopLoadTail => s.(consumer := if s.consumer.h == s.tail then Waiting else MayRead(s.consumer.h))
    case PopRead => s.(consumer := Read(s.consumer.h, s.buf[s.consumer.h]))
    case PopStoreHead =>
      s.(head := (s.consumer.h + 1) % Slots(s), consumer := Waiting, popped := s.popped + [s.consumer.value])
    case DrainOverflow => s.(overflow := 0, drained := s.drained + s.overflow)
  }

  predicate Initial<T>(s: State<T>) {
    && |s.buf| == Slots(s) && s.head == 0 && s.tail == 0 && s.overflow == 0
    && s.producer.Resting? && s.consumer.Waiting?
    && s.accepted == [] && s.popped == [] && s.attempts == 0 && s.drained == 0
  }

  // ---------------------------------------------------------------- invariant

  function Outstanding<T>(s: State<T>): int {
    |s.accepted| - |s.popped|
  }

  ghost predicate Shape<T>(s: State<T>) {
    && |s.buf| == Slots(s)
    && 0 <= Outstanding(s) <= s.capacity
    && s.tail == Slot(|s.accepted|, Slots(s)) && s.head == Slot(|s.popped|, Slots(s))
    && s.popped == s.accepted[..|s.popped|]
    && forall i :: |s.popped| <= i < |s.accepted| ==> s.buf[Slot(i, Slots(s))] == s.accepted[i]
  }

  ghost predicate ProducerOk<T>(s: State<T>)
    requires Shape(s)
  {
    match s.producer
    case Resting => true
    case LoadedTail(_, t) => t == s.tail
    case MayWrite(_, t) => t == s.tail && Outstanding(s) < s.capacity
    case Written(item, t) => t == s.tail && Outstanding(s) < s.capacity && s.buf[t] == item
    case SawFull => true
  }

  ghost predicate ConsumerOk<T>(s: State<T>)
    requires Shape(s)
  {
    match s.consumer
    case Waiting => true
    case LoadedHead(h) => h == s.head
    case MayRead(h) => h == s.head && Outstanding(s) > 0
    case Read(h, value) => h == s.head && Outstanding(s) > 0 && value == s.accepted[|s.popped|]
  }

  /** Every attempt is accepted, still in progress, or counted as an overflow (32 bits wide). */
  ghost predicate Conserved<T>(s: State<T>) {
    var inProgress := if s.producer.Resting? then 0 else 1;
    (s.attempts - |s.accepted| - inProgress) % TWO32 == (s.drained + s.overflow) % TWO32
    && s.attempts >= |s.accepted| + inProgress
  }

  ghost predicate Inv<T>(s: State<T>) {
    Shape(s) && ProducerOk(s) && ConsumerOk(s) && Conserved(s)
  }

  // ---------------------------------------------------------------- circular positions

  /** The slot of the `i`-th item ever queued. */
  function Slot(i: nat, n: nat): (k: nat)
    requires n > 0
    ensures k < n
  {
    if i == 0 then 0 else if Slot(i - 1, n) + 1 == n then 0 else Slot(i - 1, n) + 1
  }

  lemma {:induction false} SlotAhead(i: nat, k: nat, n: nat)
    requires k <= n && n > 0
    ensures Slot(i + k, n) == if Slot(i, n) + k < n then Slot(i, n) + k else Slot(i, n) + k - n
    decreases k
  {
    if k > 0 {
      SlotAhead(i, k - 1, n);
    }
  }

  // ---------------------------------------------------------------- every step keeps the invariant

  lemma {:induction false} InitialInv<T>(s: State<T>)
    requires Initial(s)
    ensures Inv(s)
  {
  }

  lemma {:induction false} WriteKeepsItems<T>(s: State<T>)
    requires Inv(s) && s.producer.MayWrite?
    ensures Inv(Next(s, PushWrite))
  {
    var n := Slots(s);
    forall i | |s.popped| <= i < |s.accepted| ensures Slot(i, n) != s.producer.t {
      SlotAhead(i, |s.accepted| - i, n);
    }
  }

  lemma {:induction false} PublishKeepsInv<T>(s: State<T>)
    requires Inv(s) && s.producer.Written?
    ensures Inv(Next(s, PushStoreTail))
  {
    WrapIndex(s.tail, Slots(s));
    var s' := Next(s, PushStoreTail);
    assert s'.popped == s'.accepted[..|s'.popped|];
  }

  lemma {:induction false} CheckKeepsInv<T>(s: State<T>)
    requires Inv(s) && s.producer.LoadedTail?
    ensures Inv(Next(s, PushLoadHead))
    ensures Next(s, PushLoadHead).producer.SawFull? <==> Outstanding(s) == s.capacity
  {
    WrapIndex(s.tail, Slots(s));
    SlotAhead(|s.popped|, Outstanding(s), Slots(s));
  }

  lemma {:induction false} PopCheckKeepsInv<T>(s: State<T>)
    requires Inv(s) && s.consumer.LoadedHead?
    ensures Inv(Next(s, PopLoadTail))
    ensures Next(s, PopLoadTail).consumer.Waiting? <==> Outstanding(s) == 0
  {
    SlotAhead(|s.popped|, Outstanding(s), Slots(s));
  }

  lemma {:induction false} ReleaseKeepsInv<T>(s: State<T>)
    requires Inv(s) && s.consumer.Read?
    ensures Inv(Next(s, PopStoreHead))
  {
    WrapIndex(s.head, Slots(s));
    var s' := Next(s, PopStoreHead);
    assert s'.popped == s'.accepted[..|s'.popped|];
  }

  lemma {:induction false} PushBeginsKeepsInv<T>(s: State<T>, step: Step<T>)
    requires Inv(s) && Enabled(s, step) && step.PushLoadTail?
    ensures Inv(Next(s, step))
  {
  }

  lemma {:induction false} CountOneMore(attempts: int, drained: nat, overflow: u32)
    requires (attempts - 1) % TWO32 == (drained + overflow) % TWO32
    ensures attempts % TWO32 == (drained + Bump(overflow)) % TWO32
  {
  }

  lemma {:induction false} RefusalKeepsInv<T>(s: State<T>)
    requires Inv(s) && Enabled(s, PushCountOverflow)
    ensures Inv(Next(s, PushCountOverflow))
  {
    CountOneMore(s.attempts - |s.accepted|, s.drained, s.overflow);
  }

  lemma {:induction false} DrainKeepsInv<T>(s: State<T>)
    requires Inv(s) && Enabled(s, DrainOverflow)
    ensures Inv(Next(s, DrainOverflow))
  {
  }

  lemma {:induction false} LoadsKeepInv<T>(s: State<T>, step: Step<T>)
    requires Inv(s) && Enabled(s, step) && (step.PopLoadHead? || step.PopRead?)
    ensures Inv(Next(s, step))
  {
  }

  lemma {:induction false} NextInv<T>(s: State<T>, step: Step<T>)
    requires Inv(s) && Enabled(s, step)
    ensures Inv(Next(s, step))
  {
    match step
    case PushLoadHead => CheckKeepsInv(s);
    case PushWrite => WriteKeepsItems(s);
    case PushStoreTail => PublishKeepsInv(s);
    case PopLoadTail => PopCheckKeepsInv(s);
    case PopStoreHead => ReleaseKeepsInv(s);
    case PopLoadHead => LoadsKeepInv(s, step);
    case PopRead => LoadsKeepInv(s, step);
    case PushLoadTail(_) => PushBeginsKeepsInv(s, step);
    case PushCountOverflow => RefusalKeepsInv(s);
    case DrainOverflow => DrainKeepsInv(s);
  }

  /** The producer never writes the slot the consumer may be reading. */
  lemma {:induction false} NoDataRace<T>(s: State<T>)
    requires Inv(s) && s.producer.MayWrite? && s.consumer.MayRead?
    ensures s.producer.t != s.consumer.h
  {
    SlotAhead(|s.popped|, Outstanding(s), Slots(s));
  }

  /** A step that the invariant allows never indexes outside the buffer. */
  lemma {:induction false} IndicesInRange<T>(s: State<T>)
    requires Inv(s)
    ensures s.producer.MayWrite? ==> s.producer.t < |s.buf|
    ensures s.consumer.MayRead? ==> s.consumer.h < |s.buf|
  {
  }

  // ---------------------------------------------------------------- linearizability

  /** The four things a call can do to a bounded FIFO. */
  datatype Op<T> = Enqueue(item: T) | RefusedFull | Dequeue(value: T) | RefusedEmpty

  /** The operation that takes effect at a step, if any. */
  function Effect<T>(s: State<T>, step: Step<T>): (r: seq<Op<T>>)
    requires Enabled(s, step)
    ensures |r| <= 1
  {
    match step
    case PushStoreTail => [Enqueue(s.producer.item)]
    case PushLoadHead => if Next(s, step).producer.SawFull? then [RefusedFull] else []
    case PopStoreHead => [Dequeue(s.consumer.value)]
    case PopLoadTail => if Next(s, step).consumer.Waiting? then [RefusedEmpty] else []
    case _ => []
  }

  predicate Legal<T(==)>(queue: seq<T>, capacity: nat, op: Op<T>) {
    match op
    case Enqueue(_) => |queue| < capacity
    case RefusedFull => |queue| == capacity
    case Dequeue(value) => queue != [] && value == queue[0]
    case RefusedEmpty => queue == []
  }

  function Apply<T>(queue: seq<T>, op: Op<T>): seq<T> {
    match op
    case Enqueue(item) => queue + [item]
    case Dequeue(_) => if queue == [] then [] else queue[1..]
    case _ => queue
  }

  ghost predicate LegalHistory<T>(queue: seq<T>, capacity: nat, ops: seq<Op<T>>)
    decreases |ops|
  {
    ops != [] ==> Legal(queue, capacity, ops[0]) && LegalHistory(Apply(queue, ops[0]), capacity, ops[1..])
  }

  function ApplyAll<T>(queue: seq<T>, ops: seq<Op<T>>): seq<T>
    decreases |ops|
  {
    if ops == [] then queue else ApplyAll(Apply(queue, ops[0]), ops[1..])
  }

  /** The queue that the concurrent state stands for. */
  function Queue<T>(s: State<T>): seq<T>
    requires 0 <= Outstanding(s)
  {
    s.accepted[|s.popped|..]
  }

  /** Each step does to the abstract queue exactly what its effect says, and legally so. */
  lemma {:induction false} StepRefines<T>(s: State<T>, step: Step<T>)
    requires Inv(s) && Enabled(s, step)
    ensures Inv(Next(s, step)) && Next(s, step).capacity == s.capacity
    ensures LegalHistory(Queue(s), s.capacity, Effect(s, step))
    ensures Queue(Next(s, step)) == ApplyAll(Queue(s), Effect(s, step))
  {
    NextInv(s, step);
    var s' := Next(s, step);
    match step
    case PushLoadHead => CheckKeepsInv(s);
    case PopLoadTail => PopCheckKeepsInv(s);
    case PushStoreTail =>
      assert Queue(s') == Queue(s) + [s.producer.item];
      assert Effect(s, step)[1..] == [];
    case PopStoreHead =>
      assert Queue(s)[0] == s.consumer.value;
      assert Queue(s') == Queue(s)[1..];
      assert Effect(s, step)[1..] == [];
    case _ =>
  }

  ghost predicate Runs<T>(s: State<T>, steps: seq<Step<T>>)
    decreases |steps|
  {
    steps != [] ==> Enabled(s, steps[0]) && Runs(Next(s, steps[0]), steps[1..])
  }

  function Final<T>(s: State<T>, steps: seq<Step<T>>): State<T>
    requires Runs(s, steps)
    decreases |steps|
  {
    if steps == [] then s else Final(Next(s, steps[0]), steps[1..])
  }

  // ---------------------------------------------------------------- calls and operations

  datatype Caller = TheProducer | TheConsumer
  datatype Request<T> = Push(item: T) | Pop
  datatype Result<T> = PushGave(ok: bool) | PopGave(value: Option<T>)

  type Event<T> = Calls.Event<Caller, Request<T>, Op<T>, Result<T>>

  function CallerOf<T>(step: Step<T>): Caller {
    if step.PopLoadHead? || step.PopLoadTail? || step.PopRead? || step.PopStoreHead? then TheConsumer else TheProducer
  }

  /** What the branch that ends a call returns. */
  function Returned<T>(s: State<T>, step: Step<T>): Option<Result<T>>
    requires Enabled(s, step)
  {
    match step
    case PushStoreTail => Some(PushGave(true))
    case PushCountOverflow => Some(PushGave(false))
    case PopLoadTail => if s.consumer.h == s.tail then Some(PopGave(None)) else None
    case PopStoreHead => Some(PopGave(Some(s.consumer.value)))
    case _ => None
  }

  /** What the moving thread's call does at a step. */
  function MomentOf<T>(s: State<T>, step: Step<T>): Calls.Moment<Request<T>, Op<T>, Result<T>>
    requires Enabled(s, step)
  {
    var begun := match step
      case PushLoadTail(item) => Some(Push(item))
      case PopLoadHead => Some(Pop)
      case _ => None;
    var ops := Effect(s, step);
    Calls.Moment(begun, if ops == [] then None else Some(ops[0]), Returned(s, step))
  }

  function Trace<T>(s: State<T>, steps: seq<Step<T>>): seq<Event<T>>
    requires Runs(s, steps)
    decreases |steps|
  {
    if steps == [] then []
    else Calls.EventsAt(CallerOf(steps[0]), MomentOf(s, steps[0])) + Trace(Next(s, steps[0]), steps[1..])
  }

  /** Which operations may stand for a request, and what the call then returns. */
  ghost function Answer<T>(req: Request<T>, op: Op<T>): Option<Result<T>> {
    match (req, op)
    case (Push(item), Enqueue(x)) => if x == item then Some(PushGave(true)) else None
    case (Push(_), RefusedFull) => Some(PushGave(false))
    case (Pop, Dequeue(value)) => Some(PopGave(Some(value)))
    case (Pop, RefusedEmpty) => Some(PopGave(None))
    case _ => None
  }

  function PhaseOf<T>(s: State<T>, c: Caller): Calls.Phase<Request<T>, Result<T>> {
    if c == TheProducer then
      match s.producer
      case Resting => Calls.Outside
      case SawFull => Calls.Answered(PushGave(false))
      case _ => Calls.Inside(Push(s.producer.item))
    else if s.consumer.Waiting? then Calls.Outside else Calls.Inside(Pop)
  }

  /** The operation is one for the request, and its answer is what the thread will return. */
  lemma {:induction false} StepInPhase<T>(s: State<T>, step: Step<T>)
    requires Enabled(s, step)
    ensures Calls.Moves(Answer, PhaseOf(s, CallerOf(step)), MomentOf(s, step), PhaseOf(Next(s, step), CallerOf(step)))
  {
  }

  lemma {:induction false} HistoryConcat<T>(queue: seq<T>, capacity: nat, a: seq<Op<T>>, b: seq<Op<T>>)
    requires LegalHistory(queue, capacity, a) && LegalHistory(ApplyAll(queue, a), capacity, b)
    ensures LegalHistory(queue, capacity, a + b)
    ensures ApplyAll(queue, a + b) == ApplyAll(ApplyAll(queue, a), b)
    decreases |a|
  {
    if a == [] {
      assert a + b == b;
    } else {
      assert (a + b)[1..] == a[1..] + b;
      HistoryConcat(Apply(queue, a[0]), capacity, a[1..], b);
    }
  }

  lemma {:induction false} TraceInPhase<T>(s: State<T>, steps: seq<Step<T>>, c: Caller)
    requires Runs(s, steps)
    ensures Calls.Walk(Answer, PhaseOf(s, c), Calls.By(Trace(s, steps), c)) == Some(PhaseOf(Final(s, steps), c))
    decreases |steps|
  {
    if steps != [] {
      var step, s' := steps[0], Next(s, steps[0]);
      StepInPhase(s, step);
      TraceInPhase(s', steps[1..], c);
      Calls.WalkStep(Answer, CallerOf(step), MomentOf(s, step), Trace(s', steps[1..]), c, PhaseOf(s, c),
        PhaseOf(s', c));
    }
  }

  lemma {:induction false} EffectListed<T>(s: State<T>, step: Step<T>)
    requires Enabled(s, step)
    ensures Effect(s, step) == Calls.Listed(MomentOf(s, step).op)
  {
  }

  lemma {:induction false} HistoryLegal<T>(s: State<T>, steps: seq<Step<T>>)
    requires Inv(s) && Runs(s, steps)
    ensures Inv(Final(s, steps)) && Final(s, steps).capacity == s.capacity
    ensures LegalHistory(Queue(s), s.capacity, Calls.Ops(Trace(s, steps)))
    ensures Queue(Final(s, steps)) == ApplyAll(Queue(s), Calls.Ops(Trace(s, steps)))
    decreases |steps|
  {
    if steps != [] {
      var step, s' := steps[0], Next(s, steps[0]);
      var later := Trace(s', steps[1..]);
      StepRefines(s, step);
      HistoryLegal(s', steps[1..]);
      Calls.OpsStep(CallerOf(step), MomentOf(s, step), later);
      EffectListed(s, step);
      HistoryConcat(Queue(s), s.capacity, Effect(s, step), Calls.Ops(later));
    }
  }

  /**
   Linearizability, over every interleaving from the empty queue. The operations in the order
   in which they take effect are a legal history of a sequential bounded FIFO, whose content at
   the end is the items accepted and not yet popped; and each call that returns was served by
   exactly one of them, between its first and its last step, with the item it pushed and the
   result it returned.
   */
  lemma {:induction false} Linearizable<T>(s: State<T>, steps: seq<Step<T>>)
    requires Initial(s) && Runs(s, steps)
    ensures LegalHistory([], s.capacity, Calls.Ops(Trace(s, steps)))
    ensures Inv(Final(s, steps)) && Queue(Final(s, steps)) == ApplyAll([], Calls.Ops(Trace(s, steps)))
    ensures forall c: Caller ::
      Calls.Walk(Answer, Calls.Outside, Calls.By(Trace(s, steps), c)) == Some(PhaseOf(Final(s, steps), c))
    ensures forall i :: 0 <= i < |Trace(s, steps)| && Trace(s, steps)[i].Return? ==>
      exists k, j :: Calls.Served(Answer, Trace(s, steps), k, j, i)
  {
    InitialInv(s);
    HistoryLegal(s, steps);
    forall c: Caller
      ensures Calls.Walk(Answer, Calls.Outside, Calls.By(Trace(s, steps), c)) == Some(PhaseOf(Final(s, steps), c))
    {
      TraceInPhase(s, steps, c);
    }
    forall i | 0 <= i < |Trace(s, steps)| && Trace(s, steps)[i].Return?
      ensures exists k, j :: Calls.Served(Answer, Trace(s, steps), k, j, i)
    {
      ReturnServed(s, steps, i);
    }
  }

  lemma {:induction false} ReturnServed<T>(s: State<T>, steps: seq<Step<T>>, i: nat)
    requires Initial(s) && Runs(s, steps) && i < |Trace(s, steps)| && Trace(s, steps)[i].Return?
    ensures exists k, j :: Calls.Served(Answer, Trace(s, steps), k, j, i)
  {
    TraceInPhase(s, steps, Trace(s, steps)[i].caller);
    Calls.ReturnServed(Answer, Trace(s, steps), i);
  }

  /** The same, read off at the end of any run that starts with an empty queue. */
  lemma {:induction false} PoppedIsPrefix<T>(s: State<T>, steps: seq<Step<T>>)
    requires Initial(s) && Runs(s, steps)
    ensures var e := Final(s, steps);
      && e.popped <= e.accepted && |e.accepted| - |e.popped| <= s.capacity
      && (e.producer.Resting? ==> (e.attempts - |e.accepted|) % TWO32 == (e.drained + e.overflow) % TWO32)
  {
    InitialInv(s);
    RunInv(s, steps);
  }

  lemma {:induction false} RunInv<T>(s: State<T>, steps: seq<Step<T>>)
    requires Inv(s) && Runs(s, steps)
    ensures Inv(Final(s, steps)) && Final(s, steps).capacity == s.capacity
    decreases |steps|
  {
    if steps != [] {
      NextInv(s, steps[0]);
      RunInv(Next(s, steps[0]), steps[1..]);
    }
  }

  /** A push that no other step interrupts is the push of the sequential queue. */
  lemma {:induction false} UninterruptedPush<T>(s: State<T>, item: T)
    requires Inv(s) && s.producer.Resting?
    ensures var steps := if Outstanding(s) < s.capacity
                         then [PushLoadTail(item), PushLoadHead, PushWrite, PushStoreTail]
                         else [PushLoadTail(item), PushLoadHead, PushCountOverflow];
      Runs(s, steps) &&
      var e := Final(s, steps);
      Inv(e) && Fifo(Queue(e), e.overflow) == Pushed(Fifo(Queue(s), s.overflow), s.capacity, item)
  {
    var s1 := Next(s, PushLoadTail(item));
    StepRefines(s, PushLoadTail(item));
    CheckKeepsInv(s1);
    var s2 := Next(s1, PushLoadHead);
    if Outstanding(s) < s.capacity {
      var s3 := Next(s2, PushWrite);
      StepRefines(s2, PushWrite);
      StepRefines(s3, PushStoreTail);
      var e := Next(s3, PushStoreTail);
      assert Queue(e) == Queue(s) + [item];
      FourSteps(s, PushLoadTail(item), PushLoadHead, PushWrite, PushStoreTail);
    } else {
      StepRefines(s2, PushCountOverflow);
      ThreeSteps(s, PushLoadTail(item), PushLoadHead, PushCountOverflow);
    }
  }

  lemma {:induction false} OneStep<T>(s: State<T>, a: Step<T>, rest: seq<Step<T>>)
    requires Enabled(s, a)
    ensures Runs(s, [a] + rest) <==> Runs(Next(s, a), rest)
    ensures Runs(Next(s, a), rest) ==> Final(s, [a] + rest) == Final(Next(s, a), rest)
  {
    assert ([a] + rest)[1..] == rest;
  }

  lemma {:induction false} ThreeSteps<T>(s: State<T>, a: Step<T>, b: Step<T>, c: Step<T>)
    requires Enabled(s, a) && Enabled(Next(s, a), b) && Enabled(Next(Next(s, a), b), c)
    ensures Runs(s, [a, b, c]) && Final(s, [a, b, c]) == Next(Next(Next(s, a), b), c)
  {
    var s1 := Next(s, a);
    var s2 := Next(s1, b);
    OneStep(s, a, [b, c]);
    OneStep(s1, b, [c]);
    OneStep(s2, c, []);
    assert [a, b, c] == [a] + [b, c] && [b, c] == [b] + [c] && [c] == [c] + [];
  }

  lemma {:induction false} FourSteps<T>(s: State<T>, a: Step<T>, b: Step<T>, c: Step<T>, d: Step<T>)
    requires Enabled(s, a) && Enabled(Next(s, a), b) && Enabled(Next(Next(s, a), b), c)
    requires Enabled(Next(Next(Next(s, a), b), c), d)
    ensures Runs(s, [a, b, c, d]) && Final(s, [a, b, c, d]) == Next(Next(Next(Next(s, a), b), c), d)
  {
    var steps, s1 := [a, b, c, d], Next(s, a);
    ThreeSteps(s1, b, c, d);
    assert steps[0] == a && steps[1..] == [b, c, d];
    assert Runs(s, steps) && Final(s, steps) == Final(s1, [b, c, d]);
  }
}
