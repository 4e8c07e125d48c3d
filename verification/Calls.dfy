/**
 What callers of a shared object see: when each call begins, when it returns and with what
 result, and when the operation takes effect that stands for the call.
 */
module Calls {
  import opened Wrappers

  datatype Event<C, Q, O, R> =
    | Begin(caller: C, req: Q)
    | Act(caller: C, op: O)
    | Return(caller: C, result: R)

  /** The operations in the order in which they take effect. */
  function Ops<C, Q, O, R>(trace: seq<Event<C, Q, O, R>>): seq<O> {
    if trace == [] then []
    else
      var e := trace[|trace| - 1];
      Ops(trace[..|trace| - 1]) + if e.Act? then [e.op] else []
  }

  /** What one caller does. */
  function By<C(==), Q, O, R>(trace: seq<Event<C, Q, O, R>>, c: C): seq<Event<C, Q, O, R>> {
    if trace == [] then []
    else
      var e := trace[|trace| - 1];
      By(trace[..|trace| - 1], c) + if e.caller == c then [e] else []
  }

  lemma {:induction false} Concat<C, Q, O, R>(a: seq<Event<C, Q, O, R>>, b: seq<Event<C, Q, O, R>>, c: C)
    ensures Ops(a + b) == Ops(a) + Ops(b) && By(a + b, c) == By(a, c) + By(b, c)
    decreases |b|
  {
    if b == [] {
      assert a + b == a;
    } else {
      assert (a + b)[..|a + b| - 1] == a + b[..|b| - 1];
      Concat(a, b[..|b| - 1], c);
    }
  }

  lemma {:induction false} Single<C, Q, O, R>(e: Event<C, Q, O, R>)
    ensures Ops([e]) == if e.Act? then [e.op] else []
  {
    var trace := [e];
    assert trace[..0] == [];
    assert Ops(trace) == [] + if e.Act? then [e.op] else [];
  }

  // ---------------------------------------------------------------- one operation for each call

  /** Where a caller is: between calls, inside one, or inside one with its result settled. */
  datatype Phase<Q, R> = Outside | Inside(req: Q) | Answered(result: R)

  /**
   The next phase; None when the event is out of place. `answer` says which operations may stand
   for a request, and what the call then returns.
   */
  function Advance<C, Q, O, R(==)>(answer: (Q, O) -> Option<R>, p: Phase<Q, R>, e: Event<C, Q, O, R>)
    : Option<Phase<Q, R>>
  {
    match e
    case Begin(_, req) => if p.Outside? then Some(Inside(req)) else None
    case Act(_, op) => if p.Inside? && answer(p.req, op).Some? then Some(Answered(answer(p.req, op).value)) else None
    case Return(_, result) => if p == Answered(result) then Some(Outside) else None
  }

  /** The phase after all events of one caller; None when they are not one proper call after the other. */
  function Walk<C, Q, O, R(==)>(
    answer: (Q, O) -> Option<R>, p: Phase<Q, R>, events: seq<Event<C, Q, O, R>>): Option<Phase<Q, R>>
  {
    if events == [] then Some(p)
    else
      match Walk(answer, p, events[..|events| - 1])
      case None => None
      case Some(q) => Advance(answer, q, events[|events| - 1])
  }

  lemma {:induction false} WalkSingle<C, Q, O, R>(answer: (Q, O) -> Option<R>, p: Phase<Q, R>, e: Event<C, Q, O, R>)
    ensures Walk(answer, p, [e]) == Advance(answer, p, e)
  {
    assert [e][..0] == [];
    assert Walk(answer, p, [e][..0]) == Some(p);
  }

  lemma {:induction false} WalkConcat<C, Q, O, R>(
    answer: (Q, O) -> Option<R>, p: Phase<Q, R>, a: seq<Event<C, Q, O, R>>, b: seq<Event<C, Q, O, R>>)
    requires Walk(answer, p, a).Some?
    ensures Walk(answer, p, a + b) == Walk(answer, Walk(answer, p, a).value, b)
    decreases |b|
  {
    if b == [] {
      assert a + b == a;
    } else {
      assert (a + b)[..|a + b| - 1] == a + b[..|b| - 1];
      WalkConcat(answer, p, a, b[..|b| - 1]);
    }
  }

  // ---------------------------------------------------------------- what a caller does in one atomic step

  /** It may begin a call, let its operation take effect, and return, in this order. */
  datatype Moment<Q, O, R> = Moment(begun: Option<Q>, op: Option<O>, result: Option<R>)

  function Begun<C, Q, O, R>(c: C, m: Moment<Q, O, R>): seq<Event<C, Q, O, R>> {
    if m.begun.Some? then [Begin(c, m.begun.value)] else []
  }

  function Acted<C, Q, O, R>(c: C, m: Moment<Q, O, R>): seq<Event<C, Q, O, R>> {
    if m.op.Some? then [Act(c, m.op.value)] else []
  }

  function Returned<C, Q, O, R>(c: C, m: Moment<Q, O, R>): seq<Event<C, Q, O, R>> {
    if m.result.Some? then [Return(c, m.result.value)] else []
  }

  function EventsAt<C, Q, O, R>(c: C, m: Moment<Q, O, R>): seq<Event<C, Q, O, R>> {
    Begun(c, m) + (Acted(c, m) + Returned(c, m))
  }

  function Listed<O>(op: Option<O>): seq<O> {
    if op.Some? then [op.value] else []
  }

  lemma {:induction false} AllBy<C, Q, O, R>(events: seq<Event<C, Q, O, R>>, c: C, d: C)
    requires forall e :: e in events ==> e.caller == c
    ensures By(events, d) == if d == c then events else []
    decreases |events|
  {
    if events != [] {
      AllBy(events[..|events| - 1], c, d);
      assert events == events[..|events| - 1] + [events[|events| - 1]];
    }
  }

  lemma {:induction false} OpsShort<C, Q, O, R>(e: seq<Event<C, Q, O, R>>)
    requires |e| <= 1
    ensures Ops(e) == if e != [] && e[0].Act? then [e[0].op] else []
  {
    if e != [] {
      assert e == [e[0]];
      Single(e[0]);
    }
  }

  /** The step takes its caller from phase `p` to phase `q`. */
  ghost predicate Moves<Q, O, R>(answer: (Q, O) -> Option<R>, p: Phase<Q, R>, m: Moment<Q, O, R>, q: Phase<Q, R>) {
    var p1 := if m.begun.Some? then Inside(m.begun.value) else p;
    && (m.begun.Some? ==> p.Outside?)
    && (m.op.Some? ==> p1.Inside? && answer(p1.req, m.op.value).Some?)
    && var p2 := if m.op.Some? then Answered(answer(p1.req, m.op.value).value) else p1;
    && (m.result.Some? ==> p2 == Answered(m.result.value))
    && q == if m.result.Some? then Outside else p2
  }

  lemma {:induction false} WalkShort<C, Q, O, R>(answer: (Q, O) -> Option<R>, p: Phase<Q, R>, e: seq<Event<C, Q, O, R>>)
    requires |e| <= 1
    ensures Walk(answer, p, e) == if e == [] then Some(p) else Advance(answer, p, e[0])
  {
    if e != [] {
      assert e == [e[0]];
      WalkSingle(answer, p, e[0]);
    }
  }

  lemma {:induction false} WalkMoment<C, Q, O, R>(
    answer: (Q, O) -> Option<R>, p: Phase<Q, R>, c: C, m: Moment<Q, O, R>, q: Phase<Q, R>)
    requires Moves(answer, p, m, q)
    ensures Walk(answer, p, EventsAt(c, m)) == Some(q)
  {
    WalkShort(answer, p, Begun(c, m));
    var p1 := Walk(answer, p, Begun(c, m)).value;
    WalkShort(answer, p1, Acted(c, m));
    var p2 := Walk(answer, p1, Acted(c, m)).value;
    WalkShort(answer, p2, Returned(c, m));
    WalkConcat(answer, p1, Acted(c, m), Returned(c, m));
    WalkConcat(answer, p, Begun(c, m), Acted(c, m) + Returned(c, m));
  }

  lemma {:induction false} OpsThree<C, Q, O, R>(
    a: seq<Event<C, Q, O, R>>, b: seq<Event<C, Q, O, R>>, c: seq<Event<C, Q, O, R>>, caller: C)
    requires Ops(a) == [] == Ops(c)
    ensures Ops(a + (b + c)) == Ops(b)
  {
    Concat(b, c, caller);
    Concat(a, b + c, caller);
    assert [] + (Ops(b) + []) == Ops(b);
  }

  lemma {:induction false} OpsStep<C, Q, O, R>(c: C, m: Moment<Q, O, R>, later: seq<Event<C, Q, O, R>>)
    ensures Ops(EventsAt(c, m) + later) == Listed(m.op) + Ops(later)
  {
    OpsShort(Begun(c, m));
    OpsShort(Acted(c, m));
    OpsShort(Returned(c, m));
    OpsThree(Begun(c, m), Acted(c, m), Returned(c, m), c);
    Concat(EventsAt(c, m), later, c);
  }

  lemma {:induction false} ByStep<C, Q, O, R>(c: C, m: Moment<Q, O, R>, later: seq<Event<C, Q, O, R>>, d: C)
    ensures By(EventsAt(c, m) + later, d) == (if d == c then EventsAt(c, m) else []) + By(later, d)
  {
    OneCaller(c, m);
    AllBy(EventsAt(c, m), c, d);
    Concat(EventsAt(c, m), later, d);
  }

  lemma {:induction false} OneCaller<C, Q, O, R>(c: C, m: Moment<Q, O, R>)
    ensures forall e: Event<C, Q, O, R> :: e in EventsAt(c, m) ==> e.caller == c
  {
    forall e: Event<C, Q, O, R> | e in EventsAt(c, m)
      ensures e.caller == c
    {
      assert e in Begun(c, m) || e in Acted(c, m) + Returned(c, m);
    }
  }

  /** A step of caller `c` and then the trace of the later steps, seen by caller `d`. */
  lemma {:induction false} WalkStep<C, Q, O, R>(
    answer: (Q, O) -> Option<R>, c: C, m: Moment<Q, O, R>, later: seq<Event<C, Q, O, R>>, d: C, p: Phase<Q, R>,
    q: Phase<Q, R>)
    requires if d == c then Moves(answer, p, m, q) else p == q
    ensures Walk(answer, p, By(EventsAt(c, m) + later, d)) == Walk(answer, q, By(later, d))
  {
    ByStep(c, m, later, d);
    if d == c {
      WalkMoment(answer, p, c, m, q);
      WalkConcat(answer, p, EventsAt(c, m), By(later, d));
    } else {
      assert [] + By(later, d) == By(later, d);
    }
  }

  // ---------------------------------------------------------------- the calls of a trace

  /**
   The call that begins at `k` and returns at `i`: the only thing its caller does in between is
   operation `j`, which is one for this request, and gives the result that the call returns.
   */
  ghost predicate Served<C, Q, O, R>(answer: (Q, O) -> Option<R>, trace: seq<Event<C, Q, O, R>>,
    k: int, j: int, i: int)
  {
    && 0 <= k < j < i < |trace|
    && trace[k].Begin? && trace[j].Act? && trace[i].Return?
    && trace[k].caller == trace[j].caller == trace[i].caller
    && answer(trace[k].req, trace[j].op) == Some(trace[i].result)
    && forall m :: k < m < i && trace[m].caller == trace[i].caller ==> m == j
  }

  /** The last event of a caller before position `n`. */
  lemma {:induction false} LastBy<C, Q, O, R>(trace: seq<Event<C, Q, O, R>>, c: C, n: nat) returns (j: nat)
    requires n <= |trace| && By(trace[..n], c) != []
    ensures j < n && trace[j].caller == c && By(trace[..n], c) == By(trace[..j], c) + [trace[j]]
    ensures forall m :: j < m < n ==> trace[m].caller != c
    decreases n
  {
    assert trace[..n][..n - 1] == trace[..n - 1];
    j := n - 1;
    if trace[j].caller != c {
      j := LastBy(trace, c, n - 1);
    }
  }

  lemma {:induction false} WalkPrefix<C, Q, O, R>(
    answer: (Q, O) -> Option<R>, p: Phase<Q, R>, trace: seq<Event<C, Q, O, R>>, c: C, n: nat)
    requires n <= |trace| && Walk(answer, p, By(trace, c)).Some?
    ensures Walk(answer, p, By(trace[..n], c)).Some?
    decreases |trace| - n
  {
    if n == |trace| {
      assert trace[..n] == trace;
    } else {
      WalkPrefix(answer, p, trace, c, n + 1);
      assert trace[..n + 1][..n] == trace[..n];
      var before := By(trace[..n], c);
      assert trace[n].caller == c ==> (before + [trace[n]])[..|before|] == before;
      assert trace[n].caller != c ==> before + [] == before;
    }
  }

  /** A caller's events in place: each return is that of a call served by exactly one operation. */
  lemma {:induction false} ReturnServed<C, Q, O, R>(answer: (Q, O) -> Option<R>, trace: seq<Event<C, Q, O, R>>, i: nat)
    requires i < |trace| && trace[i].Return? && Walk(answer, Outside, By(trace, trace[i].caller)).Some?
    ensures exists k, j :: Served(answer, trace, k, j, i)
  {
    var c := trace[i].caller;
    WalkPrefix(answer, Outside, trace, c, i + 1);
    assert trace[..i + 1][..i] == trace[..i];
    assert Walk(answer, Outside, By(trace[..i], c)) == Some(Answered(trace[i].result));
    var j := LastBy(trace, c, i);
    assert By(trace[..i], c)[..|By(trace[..j], c)|] == By(trace[..j], c);
    var k := LastBy(trace, c, j);
    assert By(trace[..j], c)[..|By(trace[..k], c)|] == By(trace[..k], c);
    assert Served(answer, trace, k, j, i);
  }

  /** An operation of the trace is among the operations of the history. */
  lemma {:induction false} ActListed<C, Q, O, R>(trace: seq<Event<C, Q, O, R>>, j: nat)
    requires j < |trace| && trace[j].Act?
    ensures trace[j].op in Ops(trace)
    decreases |trace|
  {
    if j < |trace| - 1 {
      ActListed(trace[..|trace| - 1], j);
    }
  }
}
