/**
 The uplink side of `src/TelemetryBridge.hpp`: serial byte parser, frame checks, and the
 anti-replay sequence number with its wrap window and its state kept over restarts.

 Storage is an abstract cell. What an attempt to persist leaves in the cell, and whether it
 reports an error, are inputs; so is whether the command queue has room.
 */
module TelemetryBridge {
  import opened Wrappers
  import opened Words
  import opened Serializer
  import Kiss

  const APID_COMMAND := 30
  const UPLINK_FRAME_SIZE := 22
  const COMMAND_SIZE := 12
  const SEQ_WRAP_HIGH := 0xFF00
  const SEQ_WRAP_LOW := 0x0100

  // ---------------------------------------------------------------- specification

  /** The replay state, the commands handed to the command hub, and the storage cell. */
  datatype Uplink = Uplink(lastSeq: u16, first: bool, sent: seq<CommandPacket>, stored: Option<nat>)

  /** Outcome of one attempt to persist: what the cell then holds, and whether it failed visibly. */
  datatype Storage = Storage(after: Option<nat>, failed: bool)

  datatype Verdict = Malformed | Replayed | QueueFull | Accepted

  predicate WellFormed(data: seq<byte>) {
    |data| == UPLINK_FRAME_SIZE &&
    var hdr := ReadHeader(data);
    hdr.syncWord == CCSDS_SYNC_WORD && hdr.apid == APID_COMMAND && hdr.payloadLen == COMMAND_SIZE
  }

  function Sequence(data: seq<byte>): u16
    requires WellFormed(data)
  {
    ReadHeader(data).sequence
  }

  function Command(data: seq<byte>): CommandPacket
    requires WellFormed(data)
  {
    UnpackCommand(data[HEADER_SIZE..])
  }

  predicate Wrapped(lastSeq: u16, newSeq: u16) {
    lastSeq > SEQ_WRAP_HIGH && newSeq < SEQ_WRAP_LOW
  }

  predicate Fresh(u: Uplink, newSeq: u16) {
    u.first || Wrapped(u.lastSeq, newSeq) || newSeq > u.lastSeq
  }

  function Judge(u: Uplink, data: seq<byte>, room: bool): Verdict {
    if !WellFormed(data) then Malformed
    else if !Fresh(u, Sequence(data)) then Replayed
    else if !room then QueueFull
    else Accepted
  }

  function Receive(u: Uplink, data: seq<byte>, room: bool, storage: Storage): Uplink {
    if Judge(u, data, room) == Accepted
    then Uplink(Sequence(data), false, u.sent + [Command(data)], storage.after)
    else u
  }

  /** `loadReplayState`: an empty or out-of-range cell leaves the first-frame exemption open. */
  function Load(stored: Option<nat>): (u: Uplink)
    ensures u.sent == [] && u.stored == stored
  {
    if stored.Some? && stored.value < TWO16 then Uplink(stored.value, false, [], stored)
    else Uplink(0, true, [], stored)
  }

  /** The whole component: parser, replay state and the two wrapping counters. */
  datatype Bridge = Bridge(parser: Kiss.Parser, uplink: Uplink, rejected: u32, errors: u32)

  function ReceiveFrame(b: Bridge, data: seq<byte>, room: bool, storage: Storage): Bridge {
    var v := Judge(b.uplink, data, room);
    b.(uplink := Receive(b.uplink, data, room, storage),
       rejected := if v == Accepted then b.rejected else Bump(b.rejected),
       errors := if v == QueueFull || (v == Accepted && storage.failed) then Bump(b.errors) else b.errors)
  }

  predicate DataFrame(decoded: seq<byte>) {
    |decoded| >= 2 && decoded[0] % 16 == Kiss.CMD_DATA
  }

  function ReceiveDecoded(b: Bridge, decoded: seq<byte>, room: bool, storage: Storage): Bridge {
    if !DataFrame(decoded) then b.(rejected := Bump(b.rejected))
    else ReceiveFrame(b, decoded[1..], room, storage)
  }

  function ReceiveByte(b: Bridge, byt: byte, room: bool, storage: Storage): Bridge {
    var (p, action) := Kiss.Feed(b.parser, byt);
    var b' := b.(parser := p);
    match action
    case Quiet => b'
    case Deliver(frame) => ReceiveDecoded(b', frame, room, storage)
    case Drop => b'.(rejected := Bump(b.rejected), errors := Bump(b.errors))
  }

  // ---------------------------------------------------------------- the component

  class Component {
    var inFrame: bool
    var escape: bool
    const frameBuf: array<byte>
    var frameLen: nat
    var lastUplinkSeq: u16
    var firstUplink: bool
    var sent: seq<CommandPacket>
    var stored: Option<nat>
    var rejectedCount: u32
    var errorCount: u32

    ghost predicate Valid()
      reads this
    {
      frameBuf.Length == Kiss.MAX_DECODED_FRAME && frameLen <= frameBuf.Length
    }

    ghost function State(): Bridge
      reads this, frameBuf
      requires Valid()
    {
      Bridge(Kiss.Parser(inFrame, escape, frameBuf[..frameLen]),
             Uplink(lastUplinkSeq, firstUplink, sent, stored), rejectedCount, errorCount)
    }

    constructor (cell: Option<nat>)
      ensures Valid() && fresh(frameBuf)
      ensures State() == Bridge(Kiss.IDLE, Load(cell), 0,
                                if cell.Some? && cell.value >= TWO16 then 1 else 0)
    {
      inFrame, escape, frameLen := false, false, 0;
      frameBuf := new byte[Kiss.MAX_DECODED_FRAME](i => 0);
      lastUplinkSeq, firstUplink, sent, stored := 0, true, [], cell;
      rejectedCount, errorCount := 0, 0;
      if cell.Some? {
        if cell.value <= 0xFFFF {
          lastUplinkSeq, firstUplink := cell.value, false;
        } else {
          errorCount := 1;
        }
      }
    }

    method ProcessIncomingFrame(data: seq<byte>, room: bool, storage: Storage) returns (ok: bool)
      requires Valid()
      modifies this
      ensures Valid() && State() == ReceiveFrame(old(State()), data, room, storage)
      ensures ok == (Judge(old(State()).uplink, data, room) == Accepted)
    {
      if |data| != UPLINK_FRAME_SIZE {
        rejectedCount := Bump(rejectedCount);
        return false;
      }
      var hdr := ReadHeader(data);
      if hdr.syncWord != CCSDS_SYNC_WORD || hdr.apid != APID_COMMAND || hdr.payloadLen != COMMAND_SIZE {
        rejectedCount := Bump(rejectedCount);
        return false;
      }
      var newSeq := hdr.sequence;
      var wrapped := lastUplinkSeq > SEQ_WRAP_HIGH && newSeq < SEQ_WRAP_LOW;
      if !firstUplink && !wrapped && newSeq <= lastUplinkSeq {
        rejectedCount := Bump(rejectedCount);
        return false;
      }
      if !room {
        rejectedCount, errorCount := Bump(rejectedCount), Bump(errorCount);
        return false;
      }
      sent := sent + [UnpackCommand(data[HEADER_SIZE..])];
      firstUplink, lastUplinkSeq := false, newSeq;
      PersistReplayState(storage);
      ok := true;
    }

    method PersistReplayState(storage: Storage)
      modifies `stored, `errorCount
      ensures stored == storage.after
      ensures errorCount == if storage.failed then Bump(old(errorCount)) else old(errorCount)
    {
      stored := storage.after;
      if storage.failed {
        errorCount := Bump(errorCount);
      }
    }

    method ProcessDecodedKissFrame(decoded: seq<byte>, room: bool, storage: Storage) returns (ok: bool)
      requires Valid()
      modifies this
      ensures Valid() && State() == ReceiveDecoded(old(State()), decoded, room, storage)
    {
      if |decoded| < 2 || decoded[0] % 16 != Kiss.CMD_DATA {
        rejectedCount := Bump(rejectedCount);
        return false;
      }
      ok := ProcessIncomingFrame(decoded[1..], room, storage);
    }

    /** True when the byte completed a frame. */
    method ProcessSerialByte(b: byte, room: bool, storage: Storage) returns (complete: bool)
      requires Valid()
      modifies this, frameBuf
      ensures Valid() && State() == ReceiveByte(old(State()), b, room, storage)
      ensures complete == Kiss.Feed(old(State()).parser, b).1.Deliver?
    {
      if b == Kiss.FEND {
        complete := inFrame && frameLen > 0;
        var frame := frameBuf[..frameLen];
        inFrame, escape, frameLen := true, false, 0;
        if complete {
          var _ := ProcessDecodedKissFrame(frame, room, storage);
        }
        return;
      }
      if !inFrame {
        return false;
      }
      var value := b;
      if escape {
        if b == Kiss.TFEND {
          value := Kiss.FEND;
        } else if b == Kiss.TFESC {
          value := Kiss.FESC;
        } else {
          rejectedCount, errorCount := Bump(rejectedCount), Bump(errorCount);
          inFrame, escape, frameLen := false, false, 0;
          return false;
        }
        escape := false;
      } else if b == Kiss.FESC {
        escape := true;
        return false;
      }
      if frameLen >= frameBuf.Length {
        rejectedCount, errorCount := Bump(rejectedCount), Bump(errorCount);
        inFrame, escape, frameLen := false, false, 0;
        return false;
      }
      frameBuf[frameLen] := value;
      frameLen := frameLen + 1;
      assert frameBuf[..frameLen] == old(frameBuf[..frameLen]) + [value];
      complete := false;
    }
  }

  // ---------------------------------------------------------------- acceptance

  /** How far `newSeq` lies ahead of `lastSeq` on the 16-bit circle. */
  function Ahead(lastSeq: u16, newSeq: u16): u16 {
    (newSeq - lastSeq) % TWO16
  }

  /** Exactly which forward distances are accepted once a frame has been accepted. */
  lemma {:induction false} FreshByDistance(u: Uplink, newSeq: u16)
    requires !u.first
    ensures var d := Ahead(u.lastSeq, newSeq); var toWrap := TWO16 - u.lastSeq;
      Fresh(u, newSeq) <==>
        1 <= d < toWrap || (u.lastSeq > SEQ_WRAP_HIGH && toWrap <= d < toWrap + SEQ_WRAP_LOW)
  {
  }

  /** So the next 255 sequence numbers are always accepted, even over the wrap, */
  lemma {:induction false} NextNumbersAccepted(u: Uplink, data: seq<byte>)
    requires WellFormed(data) && 1 <= Ahead(u.lastSeq, Sequence(data)) <= 255
    ensures Judge(u, data, true) == Accepted
  {
  }

  /** and 255 is the largest distance of which that can be said. */
  lemma {:induction false} Distance256CanBeRejected(u: Uplink)
    requires u.lastSeq == SEQ_WRAP_HIGH && !u.first
    ensures Ahead(u.lastSeq, 0) == 256 && !Fresh(u, 0)
  {
  }

  // ---------------------------------------------------------------- runs

  datatype Event = Arrive(data: seq<byte>, room: bool, storage: Storage) | Restart

  /** The uplink, with the accepted sequence numbers and the epoch: the number of wraps accepted. */
  datatype History = History(uplink: Uplink, epoch: nat, accepted: seq<(nat, u16)>)

  function Next(h: History, e: Event): History {
    match e
    case Restart => h.(uplink := Load(h.uplink.stored))
    case Arrive(data, room, storage) =>
      if Judge(h.uplink, data, room) != Accepted then h
      else
        var epoch := if Wrapped(h.uplink.lastSeq, Sequence(data)) then h.epoch + 1 else h.epoch;
        History(Receive(h.uplink, data, room, storage), epoch, h.accepted + [(epoch, Sequence(data))])
  }

  function RunAll(h: History, events: seq<Event>): History
    decreases |events|
  {
    if events == [] then h else RunAll(Next(h, events[0]), events[1..])
  }

  predicate Before(a: (nat, u16), b: (nat, u16)) {
    a.0 < b.0 || (a.0 == b.0 && a.1 < b.1)
  }

  ghost predicate Increasing(s: seq<(nat, u16)>) {
    forall i, j :: 0 <= i < j < |s| ==> Before(s[i], s[j])
  }

  /** The last accepted sequence number. */
  function LastAccepted(h: History): u16
    requires h.accepted != []
  {
    h.accepted[|h.accepted| - 1].1
  }

  /** What a restart would find in storage: a number that is not behind the last accepted one. */
  predicate Guarded(h: History) {
    h.accepted != [] ==> h.uplink.stored.Some? && LastAccepted(h) <= h.uplink.stored.value < TWO16
  }

  ghost predicate Persisted(h: History, events: seq<Event>)
    decreases |events|
  {
    events != [] ==> (events[0].Restart? ==> Guarded(h)) && Persisted(Next(h, events[0]), events[1..])
  }

  ghost predicate Ordered(h: History) {
    && Increasing(h.accepted)
    && (h.accepted != [] ==>
          !h.uplink.first && h.accepted[|h.accepted| - 1].0 == h.epoch && LastAccepted(h) <= h.uplink.lastSeq)
  }

  /**
   A frame that is not accepted is counted, once, and an error too when the queue was full; the
   replay state is left alone, so that every later frame is judged as if it had not come.
   */
  lemma {:induction false} RejectedLeavesState(b: Bridge, data: seq<byte>, room: bool, storage: Storage)
    requires Judge(b.uplink, data, room) != Accepted
    ensures var b' := ReceiveFrame(b, data, room, storage);
      && b'.parser == b.parser && b'.rejected == Bump(b.rejected)
      && b'.errors == (if WellFormed(data) && Fresh(b.uplink, Sequence(data)) then Bump(b.errors) else b.errors)
      && forall later, room' :: Judge(b'.uplink, later, room') == Judge(b.uplink, later, room')
    ensures forall h: History :: h.uplink == b.uplink ==> Next(h, Arrive(data, room, storage)) == h
  {
  }

  lemma {:induction false} NextOrdered(h: History, e: Event)
    requires Ordered(h) && (e.Restart? ==> Guarded(h))
    ensures Ordered(Next(h, e))
  {
    var h' := Next(h, e);
    if e.Arrive? && h'.accepted != h.accepted && h.accepted != [] {
      var last := h.accepted[|h.accepted| - 1];
      assert Before(last, h'.accepted[|h.accepted|]);
      forall i, j | 0 <= i < j < |h'.accepted| ensures Before(h'.accepted[i], h'.accepted[j]) {
        if j == |h.accepted| && i < |h.accepted| - 1 {
          assert Before(h.accepted[i], last);
        }
      }
    }
  }

  /**
   Over every run, however many wraps and restarts it has, the accepted (epoch, sequence)
   pairs strictly increase. `RestartUnsafe` says that the condition on the restarts cannot be
   weakened. The epoch is the receiver's count of wraps; what holds of the numbers themselves
   is `LastNeverRepeated`.
   */
  lemma {:induction false} AcceptedStrictlyIncrease(h: History, events: seq<Event>)
    requires Ordered(h) && Persisted(h, events)
    ensures Ordered(RunAll(h, events))
    decreases |events|
  {
    if events != [] {
      NextOrdered(h, events[0]);
      AcceptedStrictlyIncrease(Next(h, events[0]), events[1..]);
    }
  }

  /** A command frame as the ground sends it. */
  function CommandFrame(sequence: u16, c: CommandPacket): (f: seq<byte>)
    ensures WellFormed(f) && Sequence(f) == sequence
  {
    HeaderRoundTrip(APID_COMMAND, sequence, COMMAND_SIZE, PackCommand(c));
    Header(APID_COMMAND, sequence, COMMAND_SIZE) + PackCommand(c)
  }

  /**
   The converse, for every state: after a restart that is not guarded, for instance because a
   write was skipped, the pair accepted last is accepted once more.
   */
  lemma {:induction false} RestartUnsafe(h: History, c: CommandPacket, storage: Storage)
    requires Ordered(h) && !Guarded(h)
    ensures var r := Next(Next(h, Restart), Arrive(CommandFrame(LastAccepted(h), c), true, storage));
      r.accepted == h.accepted + [h.accepted[|h.accepted| - 1]] && !Increasing(r.accepted)
  {
    var r := Next(Next(h, Restart), Arrive(CommandFrame(LastAccepted(h), c), true, storage));
    var n := |h.accepted|;
    assert r.accepted == h.accepted + [(h.epoch, LastAccepted(h))];
    assert !Before(r.accepted[n - 1], r.accepted[n]);
  }

  /** So a restart keeps the order of the pairs against every next frame if and only if it is guarded. */
  lemma {:induction false} RestartSafeIff(h: History)
    requires Ordered(h)
    ensures Guarded(h) <==>
      forall data, storage :: Ordered(Next(Next(h, Restart), Arrive(data, true, storage)))
  {
    if Guarded(h) {
      NextOrdered(h, Restart);
      forall data, storage
        ensures Ordered(Next(Next(h, Restart), Arrive(data, true, storage)))
      {
        NextOrdered(Next(h, Restart), Arrive(data, true, storage));
      }
    } else {
      var c, storage := CommandPacket(0, 0, 0), Storage(None, false);
      RestartUnsafe(h, c, storage);
      assert !Ordered(Next(Next(h, Restart), Arrive(CommandFrame(LastAccepted(h), c), true, storage)));
    }
  }

  /**
   When the number itself, in whatever epoch, is refused after a restart: storage holds a number
   that is not behind it and from which it does not look like a wrap.
   */
  lemma {:induction false} RestartGuardsLast(u: Uplink, seqNo: u16)
    ensures var u' := Load(u.stored);
      !Fresh(u', seqNo) <==>
        u.stored.Some? && seqNo <= u.stored.value < TWO16 && !Wrapped(u.stored.value, seqNo)
  {
  }

  /** Guarded, and the last number does not look like a wrap from what storage holds. */
  predicate StrictlyGuarded(h: History) {
    Guarded(h) && (h.accepted != [] ==> !Wrapped(h.uplink.stored.value, LastAccepted(h)))
  }

  ghost predicate StrictlyPersisted(h: History, events: seq<Event>)
    decreases |events|
  {
    events != [] ==> (events[0].Restart? ==> StrictlyGuarded(h)) && StrictlyPersisted(Next(h, events[0]), events[1..])
  }

  /** Exactly after which restarts the frame accepted last is refused, whatever its command. */
  lemma {:induction false} RestartRefusesLastIff(h: History, c: CommandPacket)
    requires h.accepted != []
    ensures Judge(Next(h, Restart).uplink, CommandFrame(LastAccepted(h), c), true) != Accepted <==> StrictlyGuarded(h)
  {
    RestartGuardsLast(h.uplink, LastAccepted(h));
  }

  /** The number accepted last is refused now, and no number was accepted twice in succession. */
  ghost predicate LastRefused(h: History) {
    && (h.accepted != [] ==> !Fresh(h.uplink, LastAccepted(h)))
    && forall i :: 0 < i < |h.accepted| ==> h.accepted[i - 1].1 != h.accepted[i].1
  }

  /** Over every run with such restarts, a sequence number is never accepted again right after itself. */
  lemma {:induction false} LastNeverRepeated(h: History, events: seq<Event>)
    requires LastRefused(h) && StrictlyPersisted(h, events)
    ensures LastRefused(RunAll(h, events))
    decreases |events|
  {
    if events != [] {
      if events[0].Restart? && h.accepted != [] {
        RestartGuardsLast(h.uplink, LastAccepted(h));
      }
      LastNeverRepeated(Next(h, events[0]), events[1..]);
    }
  }

  const POWER_ON := History(Load(None), 0, [])

  lemma {:induction false} RunNext(h: History, e: Event, events: seq<Event>)
    ensures RunAll(h, [e] + events) == RunAll(Next(h, e), events)
    ensures Persisted(h, [e] + events) <==> (e.Restart? ==> Guarded(h)) && Persisted(Next(h, e), events)
  {
    assert ([e] + events)[1..] == events;
  }

  /** From power-on: a write that is skipped before a restart lets the same frame in again, in the same epoch. */
  lemma {:induction false} SkippedWriteReplays(c: CommandPacket)
    ensures var frame := Arrive(CommandFrame(5, c), true, Storage(None, false));
      RunAll(POWER_ON, [frame] + ([Restart] + ([frame] + []))).accepted == [(0, 5), (0, 5)]
  {
    var frame := Arrive(CommandFrame(5, c), true, Storage(None, false));
    var h1 := Next(POWER_ON, frame);
    RunNext(POWER_ON, frame, [Restart] + ([frame] + []));
    RunNext(h1, Restart, [frame] + []);
    RunNext(Next(h1, Restart), frame, []);
  }

  /** Number 3 arrives after 65300, and its write is skipped. */
  lemma {:induction false} SkippedWrap(before: Event, frame: Event, c: CommandPacket)
    requires before == Arrive(CommandFrame(65300, c), true, Storage(Some(65300), false))
    requires frame == Arrive(CommandFrame(3, c), true, Storage(Some(65300), false))
    ensures var h := Next(Next(POWER_ON, before), frame);
      && h.accepted == [(0, 65300), (1, 3)] && h.epoch == 1 && h.uplink.stored == Some(65300)
      && Guarded(h) && !StrictlyGuarded(h)
  {
    var h1 := Next(POWER_ON, before);
    assert h1.accepted == [(0, 65300)] && h1.uplink.lastSeq == 65300 && !h1.uplink.first && h1.epoch == 0;
  }

  /**
   From power-on: when the skipped write is that of a wrap, storage is ahead and the pairs keep
   their order, and still the same frame is let in again, as a further wrap.
   */
  lemma {:induction false} SkippedWrapReplays(c: CommandPacket)
    ensures var before, frame := Arrive(CommandFrame(65300, c), true, Storage(Some(65300), false)),
                                 Arrive(CommandFrame(3, c), true, Storage(Some(65300), false));
      var events := [before] + ([frame] + ([Restart] + ([frame] + [])));
      Persisted(POWER_ON, events) && RunAll(POWER_ON, events).accepted == [(0, 65300), (1, 3), (2, 3)]
  {
    var before := Arrive(CommandFrame(65300, c), true, Storage(Some(65300), false));
    var frame := Arrive(CommandFrame(3, c), true, Storage(Some(65300), false));
    var h := Next(Next(POWER_ON, before), frame);
    SkippedWrap(before, frame, c);
    var last := Next(Next(h, Restart), frame);
    assert last.accepted == h.accepted + [(2, 3)];
    RunNext(POWER_ON, before, [frame] + ([Restart] + ([frame] + [])));
    RunNext(Next(POWER_ON, before), frame, [Restart] + ([frame] + []));
    RunNext(h, Restart, [frame] + []);
    RunNext(Next(h, Restart), frame, []);
  }

  // ---------------------------------------------------------------- over the serial link

  /** What a byte meets: whether the command queue has room, and what storage does with a write. */
  datatype Env = Env(room: bool, storage: Storage)

  /** The bytes from position `at` of the stream on; `env` is what the byte at each position meets. */
  function RunSerial(b: Bridge, bytes: seq<byte>, env: nat -> Env, at: nat): Bridge
    decreases |bytes|
  {
    if bytes == [] then b
    else RunSerial(ReceiveByte(b, bytes[0], env(at).room, env(at).storage), bytes[1..], env, at + 1)
  }

  lemma {:induction false} RunSerialConcat(b: Bridge, x: seq<byte>, y: seq<byte>, env: nat -> Env, at: nat)
    ensures RunSerial(b, x + y, env, at) == RunSerial(RunSerial(b, x, env, at), y, env, at + |x|)
    decreases |x|
  {
    if x == [] {
      assert x + y == y;
    } else {
      var b' := ReceiveByte(b, x[0], env(at).room, env(at).storage);
      assert (x + y)[1..] == x[1..] + y;
      assert RunSerial(b, x + y, env, at) == RunSerial(b', x[1..] + y, env, at + 1);
      RunSerialConcat(b', x[1..], y, env, at + 1);
    }
  }

  lemma {:induction false} RunSerialOne(b: Bridge, byt: byte, env: nat -> Env, at: nat)
    ensures RunSerial(b, [byt], env, at) == ReceiveByte(b, byt, env(at).room, env(at).storage)
  {
    assert [byt][1..] == [];
  }

  /** What `n` frames that the parser dropped cost. */
  function Drop(b: Bridge, n: nat): Bridge {
    b.(rejected := (b.rejected + n) % TWO32, errors := (b.errors + n) % TWO32)
  }

  /** Bytes on which the parser delivers nothing change the parser, and count what it drops. */
  lemma {:induction false} UndeliveredBytes(b: Bridge, bytes: seq<byte>, env: nat -> Env, at: nat)
    requires Kiss.Run(b.parser, bytes).delivered == []
    ensures var r := Kiss.Run(b.parser, bytes);
      RunSerial(b, bytes, env, at) == Drop(b, r.dropped).(parser := r.parser)
    decreases |bytes|
  {
    if bytes != [] {
      var (p, action) := Kiss.Feed(b.parser, bytes[0]);
      var later := Kiss.Run(p, bytes[1..]);
      var d := if action.Drop? then 1 else 0;
      var b' := Drop(b, d).(parser := p);
      assert !action.Deliver? && Kiss.Run(b.parser, bytes).dropped == d + later.dropped;
      assert ReceiveByte(b, bytes[0], env(at).room, env(at).storage) == b';
      UndeliveredBytes(b', bytes[1..], env, at + 1);
      DropTwice(b, d, p, later.dropped, later.parser);
    }
  }

  lemma {:induction false} DropTwice(b: Bridge, m: nat, p: Kiss.Parser, n: nat, q: Kiss.Parser)
    ensures Drop(Drop(b, m).(parser := p), n).(parser := q) == Drop(b, m + n).(parser := q)
  {
    CounterAdd(b.rejected, m, n);
    CounterAdd(b.errors, m, n);
  }

  /** The opening delimiter: what the parser had collected is received, whatever it is. */
  function Opened(b: Bridge, e: Env): (r: Bridge)
    ensures r.parser == Kiss.READY
  {
    var b' := b.(parser := Kiss.READY);
    if Kiss.Leftover(b.parser) == [] then b' else ReceiveDecoded(b', b.parser.buf, e.room, e.storage)
  }

  lemma {:induction false} FeedOpening(b: Bridge, env: nat -> Env, at: nat)
    ensures RunSerial(b, [Kiss.FEND], env, at) == Opened(b, env(at))
  {
    RunSerialOne(b, Kiss.FEND, env, at);
  }

  /** Where the last byte of a frame that begins at `at` stands. */
  function Closing(f: seq<byte>, at: nat): nat {
    at + |Kiss.EscapeAll([Kiss.CMD_DATA] + f)| + 1
  }

  /** One frame of the stream: received as its last byte finds things, or dropped as too long. */
  function ReceiveWire(b: Bridge, f: seq<byte>, e: Env): (r: Bridge)
    ensures r.parser == b.parser
  {
    if Kiss.Fits(f) then ReceiveDecoded(b, [Kiss.CMD_DATA] + f, e.room, e.storage) else Drop(b, 1)
  }

  /** The bytes between the delimiters: collected when they fit, dropped as a whole when they do not. */
  lemma {:induction false} BodyFed(b: Bridge, f: seq<byte>, env: nat -> Env, at: nat)
    requires b.parser == Kiss.READY
    ensures var decoded := [Kiss.CMD_DATA] + f;
      RunSerial(b, Kiss.EscapeAll(decoded), env, at) ==
        if Kiss.Fits(f) then b.(parser := Kiss.Parser(true, false, decoded)) else Drop(b, 1).(parser := Kiss.IDLE)
  {
    var decoded := [Kiss.CMD_DATA] + f;
    Kiss.FeedBody([], decoded);
    assert [] + decoded == decoded;
    UndeliveredBytes(b, Kiss.EscapeAll(decoded), env, at);
  }

  /** What follows the opening delimiter. */
  lemma {:induction false} BodyReceived(b: Bridge, f: seq<byte>, env: nat -> Env, at: nat)
    requires b.parser == Kiss.READY
    ensures var body := Kiss.EscapeAll([Kiss.CMD_DATA] + f);
      RunSerial(b, body + [Kiss.FEND], env, at) == ReceiveWire(b, f, env(at + |body|))
  {
    var decoded := [Kiss.CMD_DATA] + f;
    var body := Kiss.EscapeAll(decoded);
    var b' := RunSerial(b, body, env, at);
    var e := env(at + |body|);
    BodyFed(b, f, env, at);
    RunSerialConcat(b, body, [Kiss.FEND], env, at);
    FeedOpening(b', env, at + |body|);
    assert b'.(parser := Kiss.READY) == if Kiss.Fits(f) then b else Drop(b, 1);
    assert Opened(b', e) == ReceiveWire(b, f, e);
  }

  /** The bytes of one frame, fed to a parser in any state. */
  lemma {:induction false} FrameReceived(b: Bridge, f: seq<byte>, env: nat -> Env, at: nat)
    ensures RunSerial(b, Kiss.Encoded(f), env, at) == ReceiveWire(Opened(b, env(at)), f, env(Closing(f, at)))
    ensures |Kiss.Encoded(f)| == Closing(f, at) + 1 - at
  {
    var body := Kiss.EscapeAll([Kiss.CMD_DATA] + f);
    Kiss.EncodedBody(f);
    FeedOpening(b, env, at);
    RunSerialConcat(b, [Kiss.FEND], body + [Kiss.FEND], env, at);
    BodyReceived(Opened(b, env(at)), f, env, at + 1);
  }

  function ReceiveFrames(b: Bridge, frames: seq<seq<byte>>, env: nat -> Env, at: nat): Bridge
    decreases |frames|
  {
    if frames == [] then b
    else
      var n := Closing(frames[0], at);
      ReceiveFrames(ReceiveWire(b, frames[0], env(n)), frames[1..], env, n + 1)
  }

  /**
   The serial link is transparent, from any state of the component: its bytes have the effect of
   what the parser had collected, and then of the frames, one after the other.
   */
  lemma {:induction false} SerialIsFrames(b: Bridge, frames: seq<seq<byte>>, env: nat -> Env, at: nat)
    requires frames != []
    ensures RunSerial(b, Kiss.Wire(frames), env, at) == ReceiveFrames(Opened(b, env(at)), frames, env, at)
    decreases |frames|
  {
    var f, rest, n := frames[0], frames[1..], Closing(frames[0], at);
    var b' := ReceiveWire(Opened(b, env(at)), f, env(n));
    FirstFrame(b, f, Kiss.Wire(rest), env, at);
    if rest != [] {
      SerialIsFrames(b', rest, env, n + 1);
      assert Opened(b', env(n + 1)) == b';
    }
  }

  lemma {:induction false} FirstFrame(b: Bridge, f: seq<byte>, later: seq<byte>, env: nat -> Env, at: nat)
    ensures var n := Closing(f, at);
      RunSerial(b, Kiss.Encoded(f) + later, env, at)
      == RunSerial(ReceiveWire(Opened(b, env(at)), f, env(n)), later, env, n + 1)
  {
    RunSerialConcat(b, Kiss.Encoded(f), later, env, at);
    FrameReceived(b, f, env, at);
  }

  /** The frame is a command that the queue has room for. */
  predicate Taken(f: seq<byte>, e: Env) {
    WellFormed(f) && e.room
  }

  /** Each well-formed frame is 1 to 255 ahead of the last one that found room. */
  ghost predicate InOrder(lastSeq: u16, frames: seq<seq<byte>>, env: nat -> Env, at: nat)
    decreases |frames|
  {
    frames == [] ||
    ((WellFormed(frames[0]) ==> 1 <= Ahead(lastSeq, Sequence(frames[0])) <= 255)
     && var n := Closing(frames[0], at);
        InOrder(if Taken(frames[0], env(n)) then Sequence(frames[0]) else lastSeq, frames[1..], env, n + 1))
  }

  /** The commands of the frames that are taken. */
  function Commands(frames: seq<seq<byte>>, env: nat -> Env, at: nat): seq<CommandPacket>
    decreases |frames|
  {
    if frames == [] then []
    else
      var n := Closing(frames[0], at);
      (if Taken(frames[0], env(n)) then [Command(frames[0])] else []) + Commands(frames[1..], env, n + 1)
  }

  /** How many frames are not. */
  function Refused(frames: seq<seq<byte>>, env: nat -> Env, at: nat): nat
    decreases |frames|
  {
    if frames == [] then 0
    else
      var n := Closing(frames[0], at);
      (if Taken(frames[0], env(n)) then 0 else 1) + Refused(frames[1..], env, n + 1)
  }

  lemma {:induction false} ReceiveOne(b: Bridge, f: seq<byte>, e: Env)
    requires WellFormed(f) ==> 1 <= Ahead(b.uplink.lastSeq, Sequence(f)) <= 255
    ensures var b' := ReceiveWire(b, f, e);
      && b'.uplink.lastSeq == (if Taken(f, e) then Sequence(f) else b.uplink.lastSeq)
      && b'.uplink.sent == b.uplink.sent + (if Taken(f, e) then [Command(f)] else [])
      && b'.rejected == (b.rejected + if Taken(f, e) then 0 else 1) % TWO32
  {
    assert ([Kiss.CMD_DATA] + f)[1..] == f;
    assert b.uplink.sent + [] == b.uplink.sent;
    if WellFormed(f) {
      NextNumbersAccepted(b.uplink, f);
    }
  }

  lemma {:induction false} SentInOrder(b: Bridge, frames: seq<seq<byte>>, env: nat -> Env, at: nat)
    requires InOrder(b.uplink.lastSeq, frames, env, at)
    ensures ReceiveFrames(b, frames, env, at).uplink.sent == b.uplink.sent + Commands(frames, env, at)
    decreases |frames|
  {
    if frames == [] {
      assert b.uplink.sent + Commands(frames, env, at) == b.uplink.sent;
    } else {
      var f, n := frames[0], Closing(frames[0], at);
      var b' := ReceiveWire(b, f, env(n));
      ReceiveOne(b, f, env(n));
      assert ReceiveFrames(b, frames, env, at) == ReceiveFrames(b', frames[1..], env, n + 1);
      SentInOrder(b', frames[1..], env, n + 1);
      SentNext(b.uplink.sent, if Taken(f, env(n)) then [Command(f)] else [], Commands(frames[1..], env, n + 1));
    }
  }

  lemma {:induction false} RejectedInOrder(b: Bridge, frames: seq<seq<byte>>, env: nat -> Env, at: nat)
    requires InOrder(b.uplink.lastSeq, frames, env, at)
    ensures ReceiveFrames(b, frames, env, at).rejected == (b.rejected + Refused(frames, env, at)) % TWO32
    decreases |frames|
  {
    if frames != [] {
      var f, n := frames[0], Closing(frames[0], at);
      ReceiveOne(b, f, env(n));
      RejectedInOrder(ReceiveWire(b, f, env(n)), frames[1..], env, n + 1);
      CounterAdd(b.rejected, if Taken(f, env(n)) then 0 else 1, Refused(frames[1..], env, n + 1));
    }
  }

  lemma {:induction false} SentNext(sent: seq<CommandPacket>, now: seq<CommandPacket>, later: seq<CommandPacket>)
    ensures sent + now + later == sent + (now + later)
  {
  }

  /**
   End to end on the serial link, from any state of the component, and whatever the queue and
   the storage do at each byte. Behind what the parser had collected, command frames whose
   numbers run 1 to 255 ahead reach the command hub all, once and in order, except those whose
   last byte meets a full queue; every other frame of the stream, too long, empty or malformed,
   is counted as rejected like these, and disturbs nothing. A number that met a full queue is
   good to be sent again. Nothing else reaches the hub.
   */
  lemma {:induction false} SerialUplinkDelivers(b: Bridge, frames: seq<seq<byte>>, env: nat -> Env)
    requires frames != [] && InOrder(Opened(b, env(0)).uplink.lastSeq, frames, env, 0)
    ensures var b0, b' := Opened(b, env(0)), RunSerial(b, Kiss.Wire(frames), env, 0);
      && b'.uplink.sent == b0.uplink.sent + Commands(frames, env, 0)
      && b'.rejected == (b0.rejected + Refused(frames, env, 0)) % TWO32
  {
    SerialIsFrames(b, frames, env, 0);
    SentInOrder(Opened(b, env(0)), frames, env, 0);
    RejectedInOrder(Opened(b, env(0)), frames, env, 0);
  }
}
