/**
 KISS framing of the serial link: the escape encoder and the byte-at-a-time parser of
 `src/TelemetryBridge.hpp`. The escapes are those of section PROTOCOL of RFC 1055.
 */
module Kiss {
  import opened Words

  const FEND: byte := 0xC0
  const FESC: byte := 0xDB
  const TFEND: byte := 0xDC
  const TFESC: byte := 0xDD
  const CMD_DATA: byte := 0x00

  const MAX_DOWNLINK_FRAME := 48
  const MAX_WIRE_FRAME := 2 + 1 + MAX_DOWNLINK_FRAME * 2
  const MAX_DECODED_FRAME := 23

  // ---------------------------------------------------------------- encoder

  function Escape(b: byte): (r: seq<byte>)
    ensures 1 <= |r| <= 2 && FEND !in r
  {
    if b == FEND then [FESC, TFEND] else if b == FESC then [FESC, TFESC] else [b]
  }

  function EscapeAll(f: seq<byte>): (r: seq<byte>)
    ensures |f| <= |r| && FEND !in r
  {
    if f == [] then [] else Escape(f[0]) + EscapeAll(f[1..])
  }

  function Encoded(f: seq<byte>): (r: seq<byte>) {
    [FEND, CMD_DATA] + EscapeAll(f) + [FEND]
  }

  ghost predicate Special(b: byte) {
    b == FEND || b == FESC
  }

  function Specials(f: seq<byte>): nat {
    if f == [] then 0 else (if f[0] == FEND || f[0] == FESC then 1 else 0) + Specials(f[1..])
  }

  lemma {:induction false} EscapedSize(f: seq<byte>)
    ensures |EscapeAll(f)| == |f| + Specials(f)
    ensures Specials(f) <= |f|
    ensures Specials(f) == |f| <==> forall b :: b in f ==> Special(b)
  {
    if f != [] {
      EscapedSize(f[1..]);
      assert f[0] in f;
      assert forall b :: b in f[1..] ==> b in f;
      assert forall b :: b in f ==> b == f[0] || b in f[1..];
    }
  }

  /** Any downlink frame fits the wire buffer, and the longest one made of specials fills it. */
  lemma {:induction false} WireBound(f: seq<byte>)
    ensures |Encoded(f)| == 3 + |f| + Specials(f)
    ensures |f| <= MAX_DOWNLINK_FRAME ==> |Encoded(f)| <= MAX_WIRE_FRAME
    ensures |Encoded(f)| == MAX_WIRE_FRAME && |f| <= MAX_DOWNLINK_FRAME <==>
            |f| == MAX_DOWNLINK_FRAME && forall b :: b in f ==> Special(b)
  {
    EscapedSize(f);
  }

  lemma {:induction false} EscapeAllConcat(a: seq<byte>, b: seq<byte>)
    ensures EscapeAll(a + b) == EscapeAll(a) + EscapeAll(b)
  {
    if a == [] {
      assert a + b == b;
    } else {
      assert (a + b)[1..] == a[1..] + b;
      EscapeAllConcat(a[1..], b);
      assert EscapeAll(a + b) == Escape(a[0]) + (EscapeAll(a[1..]) + EscapeAll(b));
    }
  }

  /** `pushKissEscaped`: appends one byte, escaped, when it fits. */
  method PushEscaped(b: byte, out: array<byte>, outLen: nat) returns (ok: bool, outLen': nat)
    requires outLen <= out.Length
    modifies out
    ensures ok == (outLen + |Escape(b)| <= out.Length)
    ensures outLen' == if ok then outLen + |Escape(b)| else outLen
    ensures ok ==> out[..outLen'] == old(out[..outLen]) + Escape(b)
  {
    outLen' := outLen;
    if b == FEND || b == FESC {
      if outLen + 2 > out.Length {
        return false, outLen;
      }
      out[outLen] := FESC;
      out[outLen + 1] := if b == FEND then TFEND else TFESC;
      outLen' := outLen + 2;
    } else {
      if outLen + 1 > out.Length {
        return false, outLen;
      }
      out[outLen] := b;
      outLen' := outLen + 1;
    }
    assert out[..outLen'] == out[..outLen] + Escape(b);
    ok := true;
  }

  /** The wire bytes once `i` bytes of the frame are escaped. */
  function Opened(frame: seq<byte>, i: nat): (r: seq<byte>)
    requires i <= |frame|
  {
    [FEND, CMD_DATA] + EscapeAll(frame[..i])
  }

  lemma {:induction false} OpenedStep(frame: seq<byte>, i: nat)
    requires i < |frame|
    ensures Opened(frame, i + 1) == Opened(frame, i) + Escape(frame[i])
    ensures |Opened(frame, i + 1)| < |Encoded(frame)|
  {
    assert frame[..i + 1] == frame[..i] + [frame[i]];
    EscapeAllConcat(frame[..i], [frame[i]]);
    assert EscapeAll([frame[i]]) == Escape(frame[i]);
    assert frame == frame[..i + 1] + frame[i + 1..];
    EscapeAllConcat(frame[..i + 1], frame[i + 1..]);
  }

  /** `encodeKissFrame`: 0 exactly when there is no frame or the encoding does not fit. */
  method EncodeFrame(frame: seq<byte>, out: array<byte>) returns (n: nat)
    modifies out
    ensures n == 0 <==> frame == [] || |Encoded(frame)| > out.Length
    ensures n > 0 ==> n == |Encoded(frame)| && out[..n] == Encoded(frame)
  {
    if frame == [] || out.Length < 3 {
      return 0;
    }
    out[0], out[1] := FEND, CMD_DATA;
    n := 2;
    assert out[..n] == Opened(frame, 0);
    for i := 0 to |frame|
      invariant 2 <= n <= out.Length
      invariant out[..n] == Opened(frame, i)
    {
      OpenedStep(frame, i);
      var ok;
      ok, n := PushEscaped(frame[i], out, n);
      if !ok {
        return 0;
      }
    }
    assert frame[..|frame|] == frame;
    if n + 1 > out.Length {
      return 0;
    }
    out[n] := FEND;
    n := n + 1;
    assert out[..n] == out[..n - 1] + [FEND];
  }

  // ---------------------------------------------------------------- parser

  /** `serial_parse_state_`, `serial_escape_` and the filled part of `serial_frame_buf_`. */
  datatype Parser = Parser(inFrame: bool, escape: bool, buf: seq<byte>)

  const READY := Parser(true, false, [])
  const IDLE := Parser(false, false, [])

  /** What one byte makes the parser do besides changing state. */
  datatype Action = Quiet | Deliver(frame: seq<byte>) | Drop

  function Feed(p: Parser, b: byte): (r: (Parser, Action)) {
    if b == FEND then (READY, if p.inFrame && p.buf != [] then Deliver(p.buf) else Quiet)
    else if !p.inFrame then (p, Quiet)
    else if p.escape && b != TFEND && b != TFESC then (IDLE, Drop)
    else if !p.escape && b == FESC then (p.(escape := true), Quiet)
    else
      var value := if !p.escape then b else if b == TFEND then FEND else FESC;
      if |p.buf| >= MAX_DECODED_FRAME then (IDLE, Drop)
      else (Parser(true, false, p.buf + [value]), Quiet)
  }

  datatype Outcome = Outcome(parser: Parser, delivered: seq<seq<byte>>, dropped: nat)

  function Then(a: Action, rest: Outcome): Outcome {
    match a
    case Quiet => rest
    case Deliver(f) => rest.(delivered := [f] + rest.delivered)
    case Drop => rest.(dropped := rest.dropped + 1)
  }

  function Run(p: Parser, bytes: seq<byte>): (r: Outcome)
    decreases |bytes|
  {
    if bytes == [] then Outcome(p, [], 0)
    else Then(Feed(p, bytes[0]).1, Run(Feed(p, bytes[0]).0, bytes[1..]))
  }

  function Joined(a: Outcome, b: Outcome): Outcome {
    Outcome(b.parser, a.delivered + b.delivered, a.dropped + b.dropped)
  }

  lemma {:induction false} RunConcat(p: Parser, a: seq<byte>, b: seq<byte>)
    ensures Run(p, a + b) == Joined(Run(p, a), Run(Run(p, a).parser, b))
    decreases |a|
  {
    if a == [] {
      assert a + b == b;
    } else {
      assert (a + b)[1..] == a[1..] + b;
      RunConcat(Feed(p, a[0]).0, a[1..], b);
    }
  }

  lemma {:induction false} IdleIgnores(p: Parser, bytes: seq<byte>)
    requires !p.inFrame && FEND !in bytes
    ensures Run(p, bytes) == Outcome(p, [], 0)
    decreases |bytes|
  {
    if bytes != [] {
      IdleIgnores(p, bytes[1..]);
    }
  }

  lemma {:induction false} RunOne(p: Parser, b: byte)
    ensures Run(p, [b]) == Then(Feed(p, b).1, Outcome(Feed(p, b).0, [], 0))
  {
    assert [b][1..] == [];
  }

  lemma {:induction false} RunTwo(p: Parser, a: byte, b: byte)
    ensures Run(p, [a, b]) == Then(Feed(p, a).1, Run(Feed(p, a).0, [b]))
  {
    assert [a, b][1..] == [b];
  }

  /** What one decoded byte does to a parser that is collecting `buf`. */
  function Collect(buf: seq<byte>, b: byte): Outcome {
    if |buf| < MAX_DECODED_FRAME then Outcome(Parser(true, false, buf + [b]), [], 0) else Outcome(IDLE, [], 1)
  }

  /** The second byte of an escape. */
  lemma {:induction false} FeedEscaped(buf: seq<byte>, b: byte, code: byte)
    requires (b == FEND && code == TFEND) || (b == FESC && code == TFESC)
    ensures Run(Parser(true, true, buf), [code]) == Collect(buf, b)
  {
    RunOne(Parser(true, true, buf), code);
  }

  lemma {:induction false} FeedEscape(buf: seq<byte>, b: byte)
    ensures Run(Parser(true, false, buf), Escape(b)) == Collect(buf, b)
  {
    var p := Parser(true, false, buf);
    if b == FEND || b == FESC {
      var code := if b == FEND then TFEND else TFESC;
      RunTwo(p, FESC, code);
      assert Feed(p, FESC) == (Parser(true, true, buf), Quiet);
      FeedEscaped(buf, b, code);
    } else {
      RunOne(p, b);
    }
  }

  /** A frame body: collected when it fits in the buffer, dropped as a whole when it does not. */
  lemma {:induction false} FeedBody(buf: seq<byte>, f: seq<byte>)
    requires |buf| <= MAX_DECODED_FRAME
    ensures Run(Parser(true, false, buf), EscapeAll(f)) ==
      if |buf| + |f| <= MAX_DECODED_FRAME then Outcome(Parser(true, false, buf + f), [], 0)
      else Outcome(IDLE, [], 1)
    decreases |f|
  {
    if f == [] {
      assert buf + f == buf;
    } else {
      var p := Parser(true, false, buf);
      RunConcat(p, Escape(f[0]), EscapeAll(f[1..]));
      FeedEscape(buf, f[0]);
      if |buf| < MAX_DECODED_FRAME {
        FeedBody(buf + [f[0]], f[1..]);
        assert buf + [f[0]] + f[1..] == buf + f;
      } else {
        IdleIgnores(IDLE, EscapeAll(f[1..]));
      }
    }
  }

  /** What a parser has collected when the next frame begins. */
  function Leftover(p: Parser): (r: seq<seq<byte>>)
    ensures |r| <= 1
  {
    if p.inFrame && p.buf != [] then [p.buf] else []
  }

  predicate Fits(f: seq<byte>) {
    |f| + 1 <= MAX_DECODED_FRAME
  }

  /** What an encoded frame delivers: the command byte and the frame, or nothing. */
  function Delivery(f: seq<byte>): seq<seq<byte>> {
    if Fits(f) then [[CMD_DATA] + f] else []
  }

  function FrameOutcome(p: Parser, f: seq<byte>): Outcome {
    Outcome(READY, Leftover(p) + Delivery(f), if Fits(f) then 0 else 1)
  }

  lemma {:induction false} FeedDelimiter(p: Parser)
    ensures Run(p, [FEND]) == Outcome(READY, Leftover(p), 0)
  {
    assert [FEND][1..] == [];
    assert Run(READY, []) == Outcome(READY, [], 0);
  }

  lemma {:induction false} EncodedBody(f: seq<byte>)
    ensures Encoded(f) == [FEND] + (EscapeAll([CMD_DATA] + f) + [FEND])
  {
    EscapeAllConcat([CMD_DATA], f);
    assert EscapeAll([CMD_DATA]) == [CMD_DATA];
  }

  /** One encoded frame, fed to a parser in any state whatever. */
  lemma {:induction false} FeedFrame(p: Parser, f: seq<byte>)
    ensures Run(p, Encoded(f)) == FrameOutcome(p, f)
  {
    var decoded := [CMD_DATA] + f;
    var body := EscapeAll(decoded);
    EncodedBody(f);
    RunConcat(p, [FEND], body + [FEND]);
    FeedDelimiter(p);
    RunConcat(READY, body, [FEND]);
    FeedBody([], decoded);
    assert [] + decoded == decoded;
    FeedDelimiter(Run(READY, body).parser);
  }

  function Wire(frames: seq<seq<byte>>): seq<byte> {
    if frames == [] then [] else Encoded(frames[0]) + Wire(frames[1..])
  }

  function Collected(frames: seq<seq<byte>>): seq<seq<byte>> {
    if frames == [] then [] else Delivery(frames[0]) + Collected(frames[1..])
  }

  function Overlong(frames: seq<seq<byte>>): nat {
    if frames == [] then 0 else (if Fits(frames[0]) then 0 else 1) + Overlong(frames[1..])
  }

  /**
   Resynchronisation: from any parser state, a concatenation of encoded frames delivers at
   most one leftover and then exactly the frames that fit, in order; each frame that does not
   fit is dropped whole, and the parser ends ready for the next frame.
   */
  lemma {:induction false} Resynchronises(p: Parser, frames: seq<seq<byte>>)
    requires frames != []
    ensures Run(p, Wire(frames)) == Outcome(READY, Leftover(p) + Collected(frames), Overlong(frames))
    decreases |frames|
  {
    var f, rest := frames[0], frames[1..];
    FeedFrame(p, f);
    RunConcat(p, Encoded(f), Wire(rest));
    if rest == [] {
      assert Run(READY, Wire(rest)) == Outcome(READY, [], 0);
      assert Collected(frames) == Collected([f]);
    } else {
      Resynchronises(READY, rest);
    }
    JoinFrames(p, f, rest);
  }

  lemma {:induction false} JoinFrames(p: Parser, f: seq<byte>, rest: seq<seq<byte>>)
    ensures Joined(FrameOutcome(p, f), Outcome(READY, Leftover(READY) + Collected(rest), Overlong(rest)))
         == Outcome(READY, Leftover(p) + Collected([f] + rest), Overlong([f] + rest))
  {
    var frames := [f] + rest;
    assert frames[0] == f && frames[1..] == rest;
    assert Leftover(READY) + Collected(rest) == Collected(rest);
    assert Leftover(p) + Delivery(f) + Collected(rest) == Leftover(p) + (Delivery(f) + Collected(rest));
  }

  /** When every frame fits, the delivered list is the sent list, each behind its command byte. */
  lemma {:induction false} CollectedAll(frames: seq<seq<byte>>)
    requires forall f :: f in frames ==> Fits(f)
    ensures |Collected(frames)| == |frames| && Overlong(frames) == 0
    ensures forall i :: 0 <= i < |frames| ==> Collected(frames)[i] == [CMD_DATA] + frames[i]
    decreases |frames|
  {
    if frames != [] {
      CollectedAll(frames[1..]);
    }
  }
}
