/**
 The two broadcast hubs: `src/TelemHub.hpp` and `src/EventHub.hpp`, each stepped while
 nothing else touches its queues.

 The ports outside a hub are a map from port names to queue values, so that the same port
 may be registered more than once.
 */
module Hubs {
  import opened Wrappers
  import opened Words
  import opened Port

  type PortId = nat
  type Ports<T> = map<PortId, Fifo<T>>

  const QUEUE_DEPTH := 16
  const MAX_INPUTS := 32
  const MAX_LISTENERS := 8

  // ---------------------------------------------------------------- specification

  /** The outside ports, and the hub's own error counter. */
  datatype Bus<T> = Bus(ports: Ports<T>, errors: u32)

  /** `OutputPort::send` and the error a refused copy costs; an unconnected output refuses. */
  function Send<T>(bus: Bus<T>, listener: Option<PortId>, x: T): (r: Bus<T>)
    requires listener.Some? ==> listener.value in bus.ports
    ensures r.ports.Keys == bus.ports.Keys
  {
    if listener.None? then bus.(errors := Bump(bus.errors))
    else
      var q := bus.ports[listener.value];
      Bus(bus.ports[listener.value := Pushed(q, QUEUE_DEPTH, x)],
          if |q.items| < QUEUE_DEPTH then bus.errors else Bump(bus.errors))
  }

  ghost predicate Connected<T>(bus: Bus<T>, listeners: seq<Option<PortId>>) {
    forall l :: l in listeners && l.Some? ==> l.value in bus.ports
  }

  /** One item, sent to every listener. */
  function FanOut<T>(bus: Bus<T>, listeners: seq<Option<PortId>>, x: T): (r: Bus<T>)
    requires Connected(bus, listeners)
    ensures r.ports.Keys == bus.ports.Keys
    decreases |listeners|
  {
    if listeners == [] then bus else FanOut(Send(bus, listeners[0], x), listeners[1..], x)
  }

  function FanOutAll<T>(bus: Bus<T>, listeners: seq<Option<PortId>>, xs: seq<T>): (r: Bus<T>)
    requires Connected(bus, listeners)
    ensures r.ports.Keys == bus.ports.Keys
    decreases |xs|
  {
    if xs == [] then bus else FanOutAll(FanOut(bus, listeners, xs[0]), listeners, xs[1..])
  }

  // ---------------------------------------------------------------- what a listener receives

  /** How often a port is registered. */
  function Times(listeners: seq<Option<PortId>>, p: PortId): nat {
    if listeners == [] then 0 else (if listeners[0] == Some(p) then 1 else 0) + Times(listeners[1..], p)
  }

  function Copies<T>(x: T, k: nat): seq<T> {
    if k == 0 then [] else [x] + Copies(x, k - 1)
  }

  function EachRepeated<T>(xs: seq<T>, k: nat): seq<T> {
    if xs == [] then [] else Copies(xs[0], k) + EachRepeated(xs[1..], k)
  }

  lemma {:induction false} FanOutAtPort<T>(bus: Bus<T>, listeners: seq<Option<PortId>>, x: T, p: PortId)
    requires Connected(bus, listeners) && p in bus.ports
    ensures FanOut(bus, listeners, x).ports[p] == PushAll(bus.ports[p], QUEUE_DEPTH, Copies(x, Times(listeners, p)))
    decreases |listeners|
  {
    if listeners != [] {
      FanOutAtPort(Send(bus, listeners[0], x), listeners[1..], x, p);
      if listeners[0] == Some(p) {
        assert Copies(x, Times(listeners, p))[1..] == Copies(x, Times(listeners[1..], p));
      }
    }
  }

  /**
   Whatever the registrations, each port's queue receives the items in order, each repeated
   as often as the port is registered; `PushAllKeepsPrefix` says that what it keeps is the
   longest prefix that fits. A port that is not registered is not touched.
   */
  lemma {:induction false} FanOutAllAtPort<T>(bus: Bus<T>, listeners: seq<Option<PortId>>, xs: seq<T>, p: PortId)
    requires Connected(bus, listeners) && p in bus.ports
    ensures FanOutAll(bus, listeners, xs).ports[p] ==
            PushAll(bus.ports[p], QUEUE_DEPTH, EachRepeated(xs, Times(listeners, p)))
    decreases |xs|
  {
    if xs != [] {
      FanOutAtPort(bus, listeners, xs[0], p);
      FanOutAllAtPort(FanOut(bus, listeners, xs[0]), listeners, xs[1..], p);
      var k := Times(listeners, p);
      PushAllConcat(bus.ports[p], QUEUE_DEPTH, Copies(xs[0], k), EachRepeated(xs[1..], k));
    }
  }

  // ---------------------------------------------------------------- what the hub counts

  /** The ports in `keys`, each listed once, are all that is registered. */
  ghost predicate Lists(keys: seq<PortId>, listeners: seq<Option<PortId>>) {
    && (forall i, j :: 0 <= i < j < |keys| ==> keys[i] != keys[j])
    && (forall l :: l in listeners && l.Some? ==> l.value in keys)
  }

  ghost predicate Present<T>(ports: Ports<T>, keys: seq<PortId>) {
    forall p :: p in keys ==> p in ports
  }

  /** The number of items queued in the listed ports. */
  ghost function Queued<T>(ports: Ports<T>, keys: seq<PortId>): nat
    requires Present(ports, keys)
  {
    if keys == [] then 0 else |ports[keys[0]].items| + Queued(ports, keys[1..])
  }

  lemma {:induction false} QueuedUpdate<T>(ports: Ports<T>, keys: seq<PortId>, p: PortId, q: Fifo<T>)
    requires Present(ports, keys) && Lists(keys, []) && p in ports
    ensures Queued(ports[p := q], keys) ==
      Queued(ports, keys) + if p in keys then |q.items| - |ports[p].items| else 0
    decreases |keys|
  {
    if keys != [] {
      assert Lists(keys[1..], []);
      QueuedUpdate(ports, keys[1..], p, q);
      assert p in keys <==> p == keys[0] || p in keys[1..];
      assert keys[0] !in keys[1..];
    }
  }

  /** How many of the `copies` that were offered are not queued. */
  ghost function Dropped<T>(bus: Bus<T>, r: Bus<T>, keys: seq<PortId>, copies: nat): int
    requires Present(bus.ports, keys) && Present(r.ports, keys)
  {
    copies - (Queued(r.ports, keys) - Queued(bus.ports, keys))
  }

  /** No copy is queued that was not offered, and the error count grew by the dropped ones. */
  ghost predicate Conserves<T>(bus: Bus<T>, r: Bus<T>, keys: seq<PortId>, copies: nat)
    requires Present(bus.ports, keys) && Present(r.ports, keys)
  {
    var dropped := Dropped(bus, r, keys, copies);
    dropped >= 0 && r.errors == (bus.errors + dropped) % TWO32
  }

  /** One copy is queued in a listed port, or it costs an error. */
  lemma {:induction false} SendConserves<T>(bus: Bus<T>, listener: Option<PortId>, keys: seq<PortId>, x: T)
    requires Present(bus.ports, keys) && Lists(keys, [listener])
    ensures Conserves(bus, Send(bus, listener, x), keys, 1)
  {
    if listener.Some? {
      assert listener in [listener];
      QueuedUpdate(bus.ports, keys, listener.value, Pushed(bus.ports[listener.value], QUEUE_DEPTH, x));
    }
  }

  lemma {:induction false} ConservesBoth<T>(a: Bus<T>, b: Bus<T>, c: Bus<T>, keys: seq<PortId>, m: nat, n: nat)
    requires Present(a.ports, keys) && Present(b.ports, keys) && Present(c.ports, keys)
    requires Conserves(a, b, keys, m) && Conserves(b, c, keys, n)
    ensures Conserves(a, c, keys, m + n)
  {
    CounterAdd(a.errors, Dropped(a, b, keys, m), Dropped(b, c, keys, n));
    assert Dropped(a, c, keys, m + n) == Dropped(a, b, keys, m) + Dropped(b, c, keys, n);
  }

  lemma {:induction false} FanOutErrors<T>(bus: Bus<T>, listeners: seq<Option<PortId>>, keys: seq<PortId>, x: T)
    requires Connected(bus, listeners) && Present(bus.ports, keys) && Lists(keys, listeners)
    ensures Conserves(bus, FanOut(bus, listeners, x), keys, |listeners|)
    decreases |listeners|
  {
    if listeners != [] {
      var sent := Send(bus, listeners[0], x);
      SendConserves(bus, listeners[0], keys, x);
      FanOutErrors(sent, listeners[1..], keys, x);
      ConservesBoth(bus, sent, FanOut(bus, listeners, x), keys, 1, |listeners| - 1);
    }
  }

  /** `n * m`, one `m` after the other. */
  function Product(n: nat, m: nat): (r: nat)
    ensures r == n * m
  {
    if n == 0 then 0 else m + Product(n - 1, m)
  }

  /**
   Conservation, for any registrations, repeated and unconnected ones included: every copy of
   every item is queued in a registered port or dropped, and the hub's error count grows by
   exactly the number of dropped copies.
   */
  lemma {:induction false} FanOutAllErrors<T>(bus: Bus<T>, listeners: seq<Option<PortId>>, keys: seq<PortId>,
    xs: seq<T>)
    requires Connected(bus, listeners) && Present(bus.ports, keys) && Lists(keys, listeners)
    ensures var r := FanOutAll(bus, listeners, xs);
      var dropped := |xs| * |listeners| - (Queued(r.ports, keys) - Queued(bus.ports, keys));
      dropped >= 0 && r.errors == (bus.errors + dropped) % TWO32
  {
    FanOutAllConserves(bus, listeners, keys, xs);
  }

  lemma {:induction false} FanOutAllConserves<T>(bus: Bus<T>, listeners: seq<Option<PortId>>, keys: seq<PortId>,
    xs: seq<T>)
    requires Connected(bus, listeners) && Present(bus.ports, keys) && Lists(keys, listeners)
    ensures Conserves(bus, FanOutAll(bus, listeners, xs), keys, Product(|xs|, |listeners|))
    decreases |xs|
  {
    if xs != [] {
      var first := FanOut(bus, listeners, xs[0]);
      FanOutErrors(bus, listeners, keys, xs[0]);
      FanOutAllConserves(first, listeners, keys, xs[1..]);
      ConservesBoth(bus, first, FanOutAll(bus, listeners, xs), keys, |listeners|, Product(|xs| - 1, |listeners|));
    }
  }

  /** The room that each listed port has for the copies it is offered. */
  ghost function Room<T>(bus: Bus<T>, listeners: seq<Option<PortId>>, keys: seq<PortId>, n: nat): nat
    requires Present(bus.ports, keys)
  {
    if keys == [] then 0
    else
      Fitting(bus.ports[keys[0]], QUEUE_DEPTH, Product(n, Times(listeners, keys[0]))) +
        Room(bus, listeners, keys[1..], n)
  }

  lemma {:induction false} RepeatedSize<T>(xs: seq<T>, k: nat)
    ensures |EachRepeated(xs, k)| == Product(|xs|, k)
    decreases |xs|
  {
    if xs != [] {
      CopiesSize(xs[0], k);
      RepeatedSize(xs[1..], k);
    }
  }

  lemma {:induction false} CopiesSize<T>(x: T, k: nat)
    ensures |Copies(x, k)| == k
  {
    if k > 0 {
      CopiesSize(x, k - 1);
    }
  }

  /** What is queued is what fits: a port takes copies up to its depth, and none is dropped before. */
  lemma {:induction false} QueuedIsRoom<T>(bus: Bus<T>, listeners: seq<Option<PortId>>, keys: seq<PortId>, xs: seq<T>)
    requires Connected(bus, listeners) && Present(bus.ports, keys)
    ensures Queued(FanOutAll(bus, listeners, xs).ports, keys)
         == Queued(bus.ports, keys) + Room(bus, listeners, keys, |xs|)
    decreases |keys|
  {
    if keys != [] {
      var p := keys[0];
      QueuedIsRoom(bus, listeners, keys[1..], xs);
      FanOutAllAtPort(bus, listeners, xs, p);
      RepeatedSize(xs, Times(listeners, p));
      PushAllKeepsPrefix(bus.ports[p], QUEUE_DEPTH, EachRepeated(xs, Times(listeners, p)));
    }
  }

  // ---------------------------------------------------------------- TelemHub

  /** All queued items, input by input in registration order. */
  function Concatenated<T>(inputs: seq<Fifo<T>>): seq<T> {
    if inputs == [] then [] else inputs[0].items + Concatenated(inputs[1..])
  }

  function Emptied<T>(inputs: seq<Fifo<T>>): (r: seq<Fifo<T>>)
    ensures |r| == |inputs|
    ensures forall i :: 0 <= i < |r| ==> r[i] == Fifo([], inputs[i].overflow)
  {
    seq(|inputs|, i requires 0 <= i < |inputs| => Fifo([], inputs[i].overflow))
  }

  class TelemHub<T> {
    var inputs: seq<Fifo<T>>           // internal_inputs[0..input_count)
    var listeners: seq<Option<PortId>> // internal_outputs[0..listener_count)
    var errors: u32

    constructor ()
      ensures inputs == [] && listeners == [] && errors == 0
    {
      inputs, listeners, errors := [], [], 0;
    }

    /** Gives the index of the input the source is connected to, or None when the hub is full. */
    method ConnectInput() returns (index: Option<nat>)
      modifies `inputs, `errors
      ensures |old(inputs)| < MAX_INPUTS ==>
        index == Some(|old(inputs)|) && inputs == old(inputs) + [Fifo([], 0)] && errors == old(errors)
      ensures |old(inputs)| >= MAX_INPUTS ==>
        index == None && inputs == old(inputs) && errors == Bump(old(errors))
    {
      if |inputs| >= MAX_INPUTS {
        errors := Bump(errors);
        return None;
      }
      index := Some(|inputs|);
      inputs := inputs + [Fifo([], 0)];
    }

    method RegisterListener(dest: Option<PortId>)
      modifies `listeners, `errors
      ensures dest.Some? && |old(listeners)| < MAX_LISTENERS ==>
        listeners == old(listeners) + [dest] && errors == old(errors)
      ensures dest.None? || |old(listeners)| >= MAX_LISTENERS ==>
        listeners == old(listeners) && errors == Bump(old(errors))
    {
      if dest == None {
        errors := Bump(errors);
        return;
      }
      if |listeners| >= MAX_LISTENERS {
        errors := Bump(errors);
        return;
      }
      listeners := listeners + [dest];
    }

    method Step(outside: Ports<T>) returns (ports: Ports<T>)
      requires Connected(Bus(outside, errors), listeners)
      modifies `inputs, `errors
      ensures Bus(ports, errors) == FanOutAll(Bus(outside, old(errors)), listeners, Concatenated(old(inputs)))
      ensures inputs == Emptied(old(inputs))
    {
      ports := outside;
      ghost var before, target := inputs, FanOutAll(Bus(outside, errors), listeners, Concatenated(inputs));
      assert inputs[0..] == inputs;
      for i := 0 to |inputs|
        invariant |inputs| == |before| && inputs[i..] == before[i..]
        invariant inputs[..i] == Emptied(before)[..i]
        invariant ports.Keys == outside.Keys
        invariant target == FanOutAll(Bus(ports, errors), listeners, Concatenated(inputs[i..]))
      {
        ghost var later := Concatenated(inputs[i + 1..]);
        assert inputs[i..][1..] == inputs[i + 1..] && inputs[i] == before[i];
        FanOutAllConcat(Bus(ports, errors), listeners, inputs[i].items, later);
        var input;
        input, ports, errors := DrainInput(inputs[i], listeners, ports, errors);
        inputs := inputs[i := input];
      }
      assert inputs[|inputs|..] == [];
    }
  }

  /** The middle loop of `TelemHub::step`. */
  method DrainInput<T>(q: Fifo<T>, listeners: seq<Option<PortId>>, ports0: Ports<T>, errors0: u32)
    returns (input: Fifo<T>, ports: Ports<T>, errors: u32)
    requires Connected(Bus(ports0, errors0), listeners)
    ensures input == Fifo([], q.overflow)
    ensures Bus(ports, errors) == FanOutAll(Bus(ports0, errors0), listeners, q.items)
  {
    input, ports, errors := q, ports0, errors0;
    while input.items != []
      invariant input.overflow == q.overflow && ports.Keys == ports0.Keys
      invariant FanOutAll(Bus(ports, errors), listeners, input.items)
             == FanOutAll(Bus(ports0, errors0), listeners, q.items)
      decreases |input.items|
    {
      var data := input.items[0];
      input := input.(items := input.items[1..]);
      ports, errors := SendToAll(ports, errors, listeners, data);
    }
  }

  /** The inner loop of both hubs. */
  method SendToAll<T>(ports0: Ports<T>, errors0: u32, listeners: seq<Option<PortId>>, data: T)
    returns (ports: Ports<T>, errors: u32)
    requires Connected(Bus(ports0, errors0), listeners)
    ensures Bus(ports, errors) == FanOut(Bus(ports0, errors0), listeners, data)
  {
    ports, errors := ports0, errors0;
    assert listeners[0..] == listeners;
    for j := 0 to |listeners|
      invariant ports.Keys == ports0.Keys
      invariant FanOut(Bus(ports, errors), listeners[j..], data) == FanOut(Bus(ports0, errors0), listeners, data)
    {
      assert listeners[j..][1..] == listeners[j + 1..];
      var ok := false;
      if listeners[j].Some? {
        var dest := listeners[j].value;
        ok := |ports[dest].items| < QUEUE_DEPTH;
        ports := ports[dest := Pushed(ports[dest], QUEUE_DEPTH, data)];
      }
      if !ok {
        errors := Bump(errors);
      }
    }
  }

  // ---------------------------------------------------------------- EventHub

  function Empty<T>(ports: Ports<T>, p: PortId): Ports<T>
    requires p in ports
  {
    ports[p := ports[p].(items := [])]
  }

  /** What the sources yield when drained in order: a source registered twice yields once. */
  function Gathered<T>(ports: Ports<T>, sources: seq<PortId>): seq<T>
    requires forall s :: s in sources ==> s in ports
    decreases |sources|
  {
    if sources == [] then [] else ports[sources[0]].items + Gathered(Empty(ports, sources[0]), sources[1..])
  }

  function EmptyAll<T>(ports: Ports<T>, sources: seq<PortId>): (r: Ports<T>)
    requires forall s :: s in sources ==> s in ports
    ensures r.Keys == ports.Keys
    decreases |sources|
  {
    if sources == [] then ports else EmptyAll(Empty(ports, sources[0]), sources[1..])
  }

  lemma {:induction false} EmptyAllEmpties<T>(ports: Ports<T>, sources: seq<PortId>, p: PortId)
    requires p in ports && forall s :: s in sources ==> s in ports
    ensures EmptyAll(ports, sources)[p] == if p in sources then Fifo([], ports[p].overflow) else ports[p]
    decreases |sources|
  {
    if sources != [] {
      EmptyAllEmpties(Empty(ports, sources[0]), sources[1..], p);
    }
  }

  /** No listener is one of the hub's own sources. */
  ghost predicate NoFeedback(sources: seq<PortId>, listeners: seq<Option<PortId>>) {
    forall s :: s in sources ==> Some(s) !in listeners
  }

  /** Draining the sources one after the other, each item sent to all as it comes. */
  function Drained<T>(bus: Bus<T>, sources: seq<PortId>, listeners: seq<Option<PortId>>): (r: Bus<T>)
    requires Connected(bus, listeners) && forall s :: s in sources ==> s in bus.ports
    ensures r.ports.Keys == bus.ports.Keys
    decreases |sources|
  {
    if sources == [] then bus
    else
      var s := sources[0];
      Drained(FanOutAll(bus.(ports := Empty(bus.ports, s)), listeners, bus.ports[s].items), sources[1..], listeners)
  }

  /** Two sets of ports that agree except in the contents of one port, which is not a listener. */
  lemma {:induction false} FanOutEmpty<T>(bus: Bus<T>, listeners: seq<Option<PortId>>, x: T, p: PortId)
    requires Connected(bus, listeners) && p in bus.ports && Some(p) !in listeners
    ensures var r := FanOut(bus, listeners, x);
      && FanOut(bus.(ports := Empty(bus.ports, p)), listeners, x) == r.(ports := Empty(r.ports, p))
      && r.ports[p] == bus.ports[p]
    decreases |listeners|
  {
    if listeners != [] {
      var l := listeners[0];
      var sent := Send(bus, l, x);
      assert Send(bus.(ports := Empty(bus.ports, p)), l, x).ports == Empty(sent.ports, p);
      FanOutEmpty(sent, listeners[1..], x, p);
    }
  }

  lemma {:induction false} FanOutAllEmpty<T>(bus: Bus<T>, listeners: seq<Option<PortId>>, xs: seq<T>, p: PortId)
    requires Connected(bus, listeners) && p in bus.ports && Some(p) !in listeners
    ensures var r := FanOutAll(bus, listeners, xs);
      && FanOutAll(bus.(ports := Empty(bus.ports, p)), listeners, xs) == r.(ports := Empty(r.ports, p))
      && r.ports[p] == bus.ports[p]
    decreases |xs|
  {
    if xs != [] {
      FanOutEmpty(bus, listeners, xs[0], p);
      FanOutAllEmpty(FanOut(bus, listeners, xs[0]), listeners, xs[1..], p);
    }
  }

  lemma {:induction false} FanOutAllConcat<T>(bus: Bus<T>, listeners: seq<Option<PortId>>, a: seq<T>, b: seq<T>)
    requires Connected(bus, listeners)
    ensures FanOutAll(bus, listeners, a + b) == FanOutAll(FanOutAll(bus, listeners, a), listeners, b)
    decreases |a|
  {
    if a == [] {
      assert a + b == b;
    } else {
      assert (a + b)[1..] == a[1..] + b;
      FanOutAllConcat(FanOut(bus, listeners, a[0]), listeners, a[1..], b);
    }
  }

  lemma {:induction false} GatheredFrame<T>(a: Ports<T>, b: Ports<T>, sources: seq<PortId>)
    requires forall s :: s in sources ==> s in a && s in b && a[s] == b[s]
    ensures Gathered(a, sources) == Gathered(b, sources)
    decreases |sources|
  {
    if sources != [] {
      GatheredFrame(Empty(a, sources[0]), Empty(b, sources[0]), sources[1..]);
    }
  }

  lemma {:induction false} FanOutAllEmptyAll<T>(
    bus: Bus<T>, listeners: seq<Option<PortId>>, xs: seq<T>, sources: seq<PortId>)
    requires Connected(bus, listeners) && NoFeedback(sources, listeners)
    requires forall s :: s in sources ==> s in bus.ports
    ensures var r := FanOutAll(bus, listeners, xs);
      && FanOutAll(bus.(ports := EmptyAll(bus.ports, sources)), listeners, xs)
         == r.(ports := EmptyAll(r.ports, sources))
      && forall s :: s in sources ==> r.ports[s] == bus.ports[s]
    decreases |sources|
  {
    if sources != [] {
      FanOutAllEmpty(bus, listeners, xs, sources[0]);
      FanOutAllEmptyAll(bus.(ports := Empty(bus.ports, sources[0])), listeners, xs, sources[1..]);
    }
  }

  /** Source by source: one that is a listener too is empty when its turn comes. */
  ghost predicate Ends<T>(bus: Bus<T>, sources: seq<PortId>, listeners: seq<Option<PortId>>)
    requires Connected(bus, listeners) && forall s :: s in sources ==> s in bus.ports
    decreases |sources|
  {
    sources == [] ||
    (var s := sources[0];
     && (bus.ports[s].items == [] || Some(s) !in listeners)
     && Ends(FanOutAll(bus.(ports := Empty(bus.ports, s)), listeners, bus.ports[s].items), sources[1..], listeners))
  }

  /** One turn of the loop that drains a source. */
  function Turn<T>(bus: Bus<T>, s: PortId, listeners: seq<Option<PortId>>): (r: Bus<T>)
    requires Connected(bus, listeners) && s in bus.ports && bus.ports[s].items != []
    ensures r.ports.Keys == bus.ports.Keys
  {
    var q := bus.ports[s];
    FanOut(bus.(ports := bus.ports[s := q.(items := q.items[1..])]), listeners, q.items[0])
  }

  /** The loop after at most `n` turns. */
  function Turns<T>(bus: Bus<T>, s: PortId, listeners: seq<Option<PortId>>, n: nat): (r: Bus<T>)
    requires Connected(bus, listeners) && s in bus.ports
    ensures r.ports.Keys == bus.ports.Keys
    decreases n
  {
    if n == 0 || bus.ports[s].items == [] then bus else Turns(Turn(bus, s, listeners), s, listeners, n - 1)
  }

  /** A queue that is offered at least one copy is not empty afterwards. */
  lemma {:induction false} OfferedNotEmpty<T>(q: Fifo<T>, xs: seq<T>)
    requires q.items != [] || xs != []
    ensures PushAll(q, QUEUE_DEPTH, xs).items != []
  {
    PushAllKeepsPrefix(q, QUEUE_DEPTH, xs);
  }

  lemma {:induction false} IsRegistered(listeners: seq<Option<PortId>>, p: PortId)
    requires Some(p) in listeners
    ensures Times(listeners, p) > 0
    decreases |listeners|
  {
    if listeners[0] != Some(p) {
      IsRegistered(listeners[1..], p);
    }
  }

  lemma {:induction false} ListenerNotEmpty<T>(bus: Bus<T>, listeners: seq<Option<PortId>>, xs: seq<T>, p: PortId)
    requires Connected(bus, listeners) && Some(p) in listeners && p in bus.ports
    requires bus.ports[p].items != [] || xs != []
    ensures FanOutAll(bus, listeners, xs).ports[p].items != []
  {
    IsRegistered(listeners, p);
    FanOutAllAtPort(bus, listeners, xs, p);
    OfferedNotEmpty(bus.ports[p], EachRepeated(xs, Times(listeners, p)));
  }

  /** With a source that is a listener too and holds an item, no number of turns empties it. */
  lemma {:induction false} FeedbackNeverEnds<T>(bus: Bus<T>, s: PortId, listeners: seq<Option<PortId>>, n: nat)
    requires Connected(bus, listeners) && s in bus.ports && Some(s) in listeners && bus.ports[s].items != []
    ensures Turns(bus, s, listeners, n).ports[s].items != []
    decreases n
  {
    if n > 0 {
      var q := bus.ports[s];
      var popped := bus.(ports := bus.ports[s := q.(items := q.items[1..])]);
      ListenerNotEmpty(popped, listeners, [q.items[0]], s);
      assert FanOutAll(popped, listeners, [q.items[0]]) == FanOut(popped, listeners, q.items[0]);
      FeedbackNeverEnds(Turn(bus, s, listeners), s, listeners, n - 1);
    }
  }

  lemma {:induction false} NoFeedbackEnds<T>(bus: Bus<T>, sources: seq<PortId>, listeners: seq<Option<PortId>>)
    requires Connected(bus, listeners) && NoFeedback(sources, listeners) && forall s :: s in sources ==> s in bus.ports
    ensures Ends(bus, sources, listeners)
    decreases |sources|
  {
    if sources != [] {
      var s := sources[0];
      NoFeedbackEnds(FanOutAll(bus.(ports := Empty(bus.ports, s)), listeners, bus.ports[s].items), sources[1..],
        listeners);
    }
  }

  /** Once anything was sent, a step that ends has no source left that is a listener too. */
  lemma {:induction false} NoFeedbackLeft<T>(bus: Bus<T>, sources: seq<PortId>, listeners: seq<Option<PortId>>)
    requires Connected(bus, listeners) && (forall s :: s in sources ==> s in bus.ports) && Ends(bus, sources, listeners)
    requires forall l :: l in listeners && l.Some? ==> bus.ports[l.value].items != []
    ensures NoFeedback(sources, listeners)
    decreases |sources|
  {
    if sources != [] {
      var s := sources[0];
      var emptied := bus.(ports := Empty(bus.ports, s));
      assert Some(s) !in listeners;
      var r := FanOutAll(emptied, listeners, bus.ports[s].items);
      forall l | l in listeners && l.Some?
        ensures r.ports[l.value].items != []
      {
        ListenerNotEmpty(emptied, listeners, bus.ports[s].items, l.value);
      }
      NoFeedbackLeft(r, sources[1..], listeners);
    }
  }

  /** At the start of the step, no source with events stands before, or is, a source that listens. */
  ghost predicate Quiet<T>(ports: Ports<T>, sources: seq<PortId>, listeners: seq<Option<PortId>>)
    requires forall s :: s in sources ==> s in ports
  {
    forall i, j :: 0 <= i <= j < |sources| && ports[sources[i]].items != [] ==> Some(sources[j]) !in listeners
  }

  /** Whether every source's loop ends can be read off the queues before the step. */
  lemma {:induction false} EndsIff<T>(bus: Bus<T>, sources: seq<PortId>, listeners: seq<Option<PortId>>)
    requires Connected(bus, listeners) && forall s :: s in sources ==> s in bus.ports
    ensures Ends(bus, sources, listeners) <==> Quiet(bus.ports, sources, listeners)
    decreases |sources|
  {
    if sources != [] {
      var s, rest := sources[0], sources[1..];
      if bus.ports[s].items == [] {
        assert Empty(bus.ports, s) == bus.ports;
        EndsIff(bus, rest, listeners);
        QuietTail(bus.ports, sources, listeners);
      } else if Quiet(bus.ports, sources, listeners) {
        assert forall j :: 0 <= j < |sources| ==> Some(sources[j]) !in listeners;
        NoFeedbackEnds(bus, sources, listeners);
      } else if Ends(bus, sources, listeners) {
        EndsAfterEvents(bus, sources, listeners);
        assert false;
      }
    }
  }

  lemma {:induction false} QuietTail<T>(ports: Ports<T>, sources: seq<PortId>, listeners: seq<Option<PortId>>)
    requires sources != [] && (forall s :: s in sources ==> s in ports) && ports[sources[0]].items == []
    ensures Quiet(ports, sources, listeners) <==> Quiet(ports, sources[1..], listeners)
  {
    var rest := sources[1..];
    if Quiet(ports, rest, listeners) {
      forall i, j | 0 <= i <= j < |sources| && ports[sources[i]].items != []
        ensures Some(sources[j]) !in listeners
      {
        assert rest[i - 1] == sources[i] && rest[j - 1] == sources[j];
      }
    }
    if Quiet(ports, sources, listeners) {
      forall i, j | 0 <= i <= j < |rest| && ports[rest[i]].items != []
        ensures Some(rest[j]) !in listeners
      {
        assert rest[i] == sources[i + 1] && rest[j] == sources[j + 1];
      }
    }
  }

  /** A step that ends although its first source has events has no source that listens. */
  lemma {:induction false} EndsAfterEvents<T>(bus: Bus<T>, sources: seq<PortId>, listeners: seq<Option<PortId>>)
    requires Connected(bus, listeners) && (forall s :: s in sources ==> s in bus.ports) && Ends(bus, sources, listeners)
    requires sources != [] && bus.ports[sources[0]].items != []
    ensures Quiet(bus.ports, sources, listeners)
  {
    var s := sources[0];
    var emptied := bus.(ports := Empty(bus.ports, s));
    var r := FanOutAll(emptied, listeners, bus.ports[s].items);
    forall l | l in listeners && l.Some?
      ensures r.ports[l.value].items != []
    {
      ListenerNotEmpty(emptied, listeners, bus.ports[s].items, l.value);
    }
    NoFeedbackLeft(r, sources[1..], listeners);
    assert forall j :: 0 < j < |sources| ==> sources[j] in sources[1..];
  }

  /** The loops of the first `k` sources end, and no number of turns ends the next one. */
  ghost predicate Stuck<T>(bus: Bus<T>, sources: seq<PortId>, listeners: seq<Option<PortId>>, k: nat)
    requires Connected(bus, listeners) && forall s :: s in sources ==> s in bus.ports
  {
    && k < |sources| && Ends(bus, sources[..k], listeners)
    && forall n: nat ::
         Turns(Drained(bus, sources[..k], listeners), sources[k], listeners, n).ports[sources[k]].items != []
  }

  /** The loop of a source that does not listen takes as many turns as it holds events. */
  lemma {:induction false} TurnsEnd<T>(bus: Bus<T>, s: PortId, listeners: seq<Option<PortId>>)
    requires Connected(bus, listeners) && s in bus.ports && Some(s) !in listeners
    ensures Turns(bus, s, listeners, |bus.ports[s].items|).ports[s].items == []
    decreases |bus.ports[s].items|
  {
    var q := bus.ports[s];
    if q.items != [] {
      var popped := bus.(ports := bus.ports[s := q.(items := q.items[1..])]);
      FanOutEmpty(popped, listeners, q.items[0], s);
      TurnsEnd(Turn(bus, s, listeners), s, listeners);
    }
  }

  lemma {:induction false} EndsAt<T>(bus: Bus<T>, sources: seq<PortId>, listeners: seq<Option<PortId>>, k: nat)
    requires Connected(bus, listeners) && (forall s :: s in sources ==> s in bus.ports) && k < |sources|
    requires Ends(bus, sources, listeners)
    ensures var r := Drained(bus, sources[..k], listeners);
      r.ports[sources[k]].items == [] || Some(sources[k]) !in listeners
    decreases k
  {
    if k > 0 {
      var s := sources[0];
      EndsAt(FanOutAll(bus.(ports := Empty(bus.ports, s)), listeners, bus.ports[s].items), sources[1..], listeners,
        k - 1);
      assert sources[1..][..k - 1] == sources[..k][1..];
    }
  }

  lemma {:induction false} StuckSomewhere<T>(bus: Bus<T>, sources: seq<PortId>, listeners: seq<Option<PortId>>)
    returns (k: nat)
    requires Connected(bus, listeners) && (forall s :: s in sources ==> s in bus.ports)
      && !Ends(bus, sources, listeners)
    ensures Stuck(bus, sources, listeners, k)
    decreases |sources|
  {
    var s := sources[0];
    if bus.ports[s].items != [] && Some(s) in listeners {
      k := 0;
      forall n: nat
        ensures Turns(bus, s, listeners, n).ports[s].items != []
      {
        FeedbackNeverEnds(bus, s, listeners, n);
      }
    } else {
      k := StuckSomewhere(AfterFirst(bus, sources, listeners), sources[1..], listeners);
      StuckLater(bus, sources, listeners, k);
      k := k + 1;
    }
  }

  /** The bus when the first source is drained. */
  function AfterFirst<T>(bus: Bus<T>, sources: seq<PortId>, listeners: seq<Option<PortId>>): (r: Bus<T>)
    requires Connected(bus, listeners) && sources != [] && sources[0] in bus.ports
    ensures r.ports.Keys == bus.ports.Keys
  {
    FanOutAll(bus.(ports := Empty(bus.ports, sources[0])), listeners, bus.ports[sources[0]].items)
  }

  lemma {:induction false} StuckLater<T>(bus: Bus<T>, sources: seq<PortId>, listeners: seq<Option<PortId>>, k: nat)
    requires Connected(bus, listeners) && (forall s :: s in sources ==> s in bus.ports) && sources != []
    requires bus.ports[sources[0]].items == [] || Some(sources[0]) !in listeners
    requires Stuck(AfterFirst(bus, sources, listeners), sources[1..], listeners, k)
    ensures Stuck(bus, sources, listeners, k + 1)
  {
    var r, rest := AfterFirst(bus, sources, listeners), sources[1..];
    assert sources[..k + 1][0] == sources[0] && rest[..k] == sources[..k + 1][1..] && rest[k] == sources[k + 1];
    assert Drained(bus, sources[..k + 1], listeners) == Drained(r, rest[..k], listeners);
  }

  /**
   Exactly which steps end, told from the queues before the step: those in which no source that
   holds events comes before, or is, a source that listens. Any other step reaches a source that
   no number of turns empties.
   */
  lemma {:induction false} StepEndsIff<T>(bus: Bus<T>, sources: seq<PortId>, listeners: seq<Option<PortId>>)
    requires Connected(bus, listeners) && forall s :: s in sources ==> s in bus.ports
    ensures Quiet(bus.ports, sources, listeners) <==> forall k: nat :: !Stuck(bus, sources, listeners, k)
  {
    EndsIff(bus, sources, listeners);
    if Ends(bus, sources, listeners) {
      forall k: nat
        ensures !Stuck(bus, sources, listeners, k)
      {
        if k < |sources| {
          EndsAt(bus, sources, listeners, k);
          var r := Drained(bus, sources[..k], listeners);
          if r.ports[sources[k]].items != [] {
            TurnsEnd(r, sources[k], listeners);
          } else {
            assert Turns(r, sources[k], listeners, 0) == r;
          }
        }
      }
    } else {
      var k := StuckSomewhere(bus, sources, listeners);
    }
  }

  /** A hub that may be registered so: its only source is its only listener, and holds one event. */
  lemma {:induction false} FeedbackExample<T>(x: T)
    ensures var bus := Bus(map[0 := Fifo([x], 0)], 0);
      Connected(bus, [Some(0)]) && !Quiet(bus.ports, [0], [Some(0)]) && Stuck(bus, [0], [Some(0)], 0)
  {
    var bus := Bus(map[0 := Fifo([x], 0)], 0);
    var sources: seq<PortId>, listeners: seq<Option<PortId>> := [0], [Some(0)];
    assert bus.ports[sources[0]].items != [] && Some(sources[0]) in listeners;
    forall n: nat
      ensures Turns(bus, 0, listeners, n).ports[0].items != []
    {
      FeedbackNeverEnds(bus, 0, listeners, n);
    }
    assert sources[..0] == [];
  }

  /**
   Draining source by source is broadcasting the gathered items over the emptied ports: a
   step of `EventHub` that ends has the effect of one broadcast, like a step of `TelemHub`, and
   leaves every source empty that does not listen.
   */
  lemma {:induction false} DrainedIsBroadcast<T>(bus: Bus<T>, sources: seq<PortId>, listeners: seq<Option<PortId>>)
    requires Connected(bus, listeners) && forall s :: s in sources ==> s in bus.ports
    requires Quiet(bus.ports, sources, listeners)
    ensures Drained(bus, sources, listeners) ==
      FanOutAll(bus.(ports := EmptyAll(bus.ports, sources)), listeners, Gathered(bus.ports, sources))
    ensures forall s :: s in sources && Some(s) !in listeners ==> Drained(bus, sources, listeners).ports[s].items == []
  {
    EndsIff(bus, sources, listeners);
    EndedIsBroadcast(bus, sources, listeners);
    var emptied := bus.(ports := EmptyAll(bus.ports, sources));
    forall s | s in sources && Some(s) !in listeners
      ensures Drained(bus, sources, listeners).ports[s].items == []
    {
      EmptyAllEmpties(bus.ports, sources, s);
      FanOutAllEmpty(emptied, listeners, Gathered(bus.ports, sources), s);
    }
  }

  lemma {:induction false} EndedIsBroadcast<T>(bus: Bus<T>, sources: seq<PortId>, listeners: seq<Option<PortId>>)
    requires Connected(bus, listeners) && (forall s :: s in sources ==> s in bus.ports) && Ends(bus, sources, listeners)
    ensures Drained(bus, sources, listeners) ==
      FanOutAll(bus.(ports := EmptyAll(bus.ports, sources)), listeners, Gathered(bus.ports, sources))
    decreases |sources|
  {
    if sources != [] {
      var s, rest := sources[0], sources[1..];
      var emptied := bus.(ports := Empty(bus.ports, s));
      var items := bus.ports[s].items;
      var r := FanOutAll(emptied, listeners, items);
      EndedIsBroadcast(r, rest, listeners);
      if items == [] {
        assert [] + Gathered(emptied.ports, rest) == Gathered(emptied.ports, rest);
      } else {
        forall l | l in listeners && l.Some?
          ensures r.ports[l.value].items != []
        {
          ListenerNotEmpty(emptied, listeners, items, l.value);
        }
        NoFeedbackLeft(r, rest, listeners);
        FanOutAllEmptyAll(emptied, listeners, items, rest);
        GatheredFrame(r.ports, emptied.ports, rest);
        FanOutAllConcat(emptied.(ports := EmptyAll(emptied.ports, rest)), listeners, items,
          Gathered(emptied.ports, rest));
      }
    }
  }

  class EventHub<T> {
    var sources: seq<PortId>
    var listeners: seq<Option<PortId>>
    var errors: u32

    constructor ()
      ensures sources == [] && listeners == [] && errors == 0
    {
      sources, listeners, errors := [], [], 0;
    }

    /** Registrations past the limit are dropped, and not counted as errors. */
    method RegisterEventSource(port: PortId)
      modifies `sources
      ensures sources == if |old(sources)| < MAX_INPUTS then old(sources) + [port] else old(sources)
    {
      if |sources| < MAX_INPUTS {
        sources := sources + [port];
      }
    }

    method RegisterListener(dest: Option<PortId>)
      modifies `listeners
      ensures listeners == if |old(listeners)| < MAX_LISTENERS then old(listeners) + [dest] else old(listeners)
    {
      if |listeners| < MAX_LISTENERS {
        listeners := listeners + [dest];
      }
    }

    method Step(outside: Ports<T>) returns (ports: Ports<T>)
      requires Connected(Bus(outside, errors), listeners) && forall s :: s in sources ==> s in outside
      requires Quiet(outside, sources, listeners)
      modifies `errors
      ensures Bus(ports, errors) == Drained(Bus(outside, old(errors)), sources, listeners)
    {
      ports := outside;
      EndsIff(Bus(outside, errors), sources, listeners);
      assert sources[0..] == sources;
      for i := 0 to |sources|
        invariant ports.Keys == outside.Keys
        invariant Ends(Bus(ports, errors), sources[i..], listeners)
        invariant Drained(Bus(ports, errors), sources[i..], listeners) ==
                  Drained(Bus(outside, old(errors)), sources, listeners)
      {
        assert sources[i..][1..] == sources[i + 1..];
        ports, errors := DrainSource(sources[i], listeners, ports, errors);
      }
    }
  }

  /** The middle loop of `EventHub::step`. */
  method DrainSource<T>(s: PortId, listeners: seq<Option<PortId>>, ports0: Ports<T>, errors0: u32)
    returns (ports: Ports<T>, errors: u32)
    requires Connected(Bus(ports0, errors0), listeners) && s in ports0
    requires ports0[s].items == [] || Some(s) !in listeners
    ensures Bus(ports, errors) == FanOutAll(Bus(Empty(ports0, s), errors0), listeners, ports0[s].items)
  {
    ports, errors := ports0, errors0;
    while ports[s].items != []
      invariant ports.Keys == ports0.Keys
      invariant FanOutAll(Bus(Empty(ports, s), errors), listeners, ports[s].items) ==
                FanOutAll(Bus(Empty(ports0, s), errors0), listeners, ports0[s].items)
      decreases |ports[s].items|
    {
      var evt := ports[s].items[0];
      var popped := ports[s := ports[s].(items := ports[s].items[1..])];
      assert Empty(popped, s) == Empty(ports, s);
      FanOutEmpty(Bus(popped, errors), listeners, evt, s);
      ports, errors := SendToAll(popped, errors, listeners, evt);
    }
    assert ports == Empty(ports, s);
  }
}
