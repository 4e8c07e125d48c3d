/**
 Consistent Overhead Byte Stuffing: `src/Cobs.hpp`.

 `Encoded` and `Decoded` say what the two in-place loops compute; the lemmas are about them.
 */
module Cobs {
  import opened Wrappers
  import opened Words

  const DELIMITER: byte := 0
  const FULL_BLOCK := 254

  function EncodedMaxSize(n: nat): nat {
    n + n / 254 + 2
  }

  // ---------------------------------------------------------------- specification

  /**
   The blocks that encode `s`, given that the bytes `open` of the current block have been
   copied already and its code is not yet known.
   */
  function Blocks(open: seq<byte>, s: seq<byte>): (r: seq<byte>)
    requires |open| < FULL_BLOCK
    ensures |r| > 0
    decreases |s|
  {
    if s == [] then [|open| + 1] + open
    else if s[0] == 0 then [|open| + 1] + open + Blocks([], s[1..])
    else if |open| + 1 == FULL_BLOCK then [FULL_BLOCK + 1] + (open + [s[0]]) + Blocks([], s[1..])
    else Blocks(open + [s[0]], s[1..])
  }

  /** The whole frame: the blocks and the delimiter. */
  function Encoded(s: seq<byte>): (r: seq<byte>) {
    Blocks([], s) + [DELIMITER]
  }

  /** What the decoder writes into a buffer with `room` free bytes; None is a framing error. */
  function Decoded(s: seq<byte>, room: nat): (r: Option<seq<byte>>)
    ensures r.Some? ==> |r.value| <= room
    decreases |s|
  {
    if s == [] then Some([])
    else if s[0] == 0 || |s| < s[0] || room < s[0] - 1 then None
    else
      var block, rest := s[1..s[0]], s[s[0]..];
      var zero: seq<byte> := if s[0] < FULL_BLOCK + 1 && rest != [] then [0] else [];
      if room < |block| + |zero| then None
      else match Decoded(rest, room - |block| - |zero|)
        case None => None
        case Some(tail) => Some(block + (zero + tail))
  }

  // ---------------------------------------------------------------- round trips

  /** The zero byte the decoder puts between two blocks, unless the first is full. */
  function Separator(block: seq<byte>, rest: seq<byte>): seq<byte> {
    if |block| < FULL_BLOCK && rest != [] then [0] else []
  }

  lemma {:induction false} DecodeOneBlock(s: seq<byte>, block: seq<byte>, rest: seq<byte>, room: nat)
    requires |block| <= FULL_BLOCK && s == [|block| + 1] + block + rest
    ensures var zero := Separator(block, rest);
      Decoded(s, room) ==
        if room < |block| + |zero| then None
        else match Decoded(rest, room - |block| - |zero|)
          case None => None
          case Some(tail) => Some(block + (zero + tail))
  {
    assert s[1..s[0]] == block && s[s[0]..] == rest;
  }

  /** `r` decodes to `x`, and a buffer holds the result exactly when it holds `x`. */
  ghost predicate DecodesTo(r: seq<byte>, x: seq<byte>) {
    forall room: nat :: Decoded(r, room) == if |x| <= room then Some(x) else None
  }

  lemma {:induction false} DecodePrepend(r: seq<byte>, block: seq<byte>, rest: seq<byte>, x: seq<byte>)
    requires |block| <= FULL_BLOCK && r == [|block| + 1] + block + rest
    requires DecodesTo(rest, x)
    ensures DecodesTo(r, block + (Separator(block, rest) + x))
  {
    forall room: nat ensures Decoded(r, room) ==
        var y := block + (Separator(block, rest) + x); if |y| <= room then Some(y) else None
    {
      DecodeOneBlock(r, block, rest, room);
    }
  }

  /** Decoding the blocks of a payload gives the payload back. */
  lemma {:induction false} DecodeBlocks(open: seq<byte>, s: seq<byte>)
    requires |open| < FULL_BLOCK
    ensures DecodesTo(Blocks(open, s), open + s)
    decreases |s|
  {
    var r := Blocks(open, s);
    if s == [] {
      assert r == [|open| + 1] + open + [];
      DecodePrepend(r, open, [], []);
      assert open + ([] + []) == open + s;
    } else if s[0] == 0 {
      DecodeBlocks([], s[1..]);
      DecodePrepend(r, open, Blocks([], s[1..]), [] + s[1..]);
      assert [0] + ([] + s[1..]) == s;
    } else if |open| + 1 == FULL_BLOCK {
      DecodeBlocks([], s[1..]);
      DecodePrepend(r, open + [s[0]], Blocks([], s[1..]), [] + s[1..]);
      assert open + [s[0]] + ([] + ([] + s[1..])) == open + s;
    } else {
      DecodeBlocks(open + [s[0]], s[1..]);
      assert open + [s[0]] + s[1..] == open + s;
    }
  }

  /** The round trip, for every payload length and every size of the receiving buffer. */
  lemma {:induction false} RoundTrip(s: seq<byte>)
    ensures DecodesTo(Encoded(s)[..|Encoded(s)| - 1], s)
  {
    DecodeBlocks([], s);
    assert Encoded(s)[..|Encoded(s)| - 1] == Blocks([], s);
    assert [] + s == s;
  }

  ghost predicate ZeroFree(s: seq<byte>) {
    forall i :: 0 <= i < |s| ==> s[i] != 0
  }

  /** The delimiter is the only zero byte of a frame. */
  lemma {:induction false} BlocksZeroFree(open: seq<byte>, s: seq<byte>)
    requires |open| < FULL_BLOCK && ZeroFree(open)
    ensures ZeroFree(Blocks(open, s))
    decreases |s|
  {
    if s != [] {
      if s[0] == 0 || |open| + 1 == FULL_BLOCK {
        BlocksZeroFree([], s[1..]);
      } else {
        BlocksZeroFree(open + [s[0]], s[1..]);
      }
    }
  }

  /** Copying a zero-free run moves it into the open block. */
  lemma {:induction false} BlocksCopy(open: seq<byte>, run: seq<byte>, s: seq<byte>)
    requires ZeroFree(run) && |open| + |run| < FULL_BLOCK
    ensures Blocks(open, run + s) == Blocks(open + run, s)
    decreases |run|
  {
    if run == [] {
      assert run + s == s && open + run == open;
    } else {
      assert (run + s)[1..] == run[1..] + s;
      assert open + [run[0]] + run[1..] == open + run;
      BlocksCopy(open + [run[0]], run[1..], s);
    }
  }

  lemma {:induction false} EncodeOneBlock(block: seq<byte>, tail: seq<byte>)
    requires ZeroFree(block)
    ensures |block| < FULL_BLOCK ==>
      Blocks([], block + [0] + tail) == [|block| + 1] + block + Blocks([], tail)
    ensures |block| == FULL_BLOCK ==>
      Blocks([], block + tail) == [FULL_BLOCK + 1] + block + Blocks([], tail)
  {
    assert [] + block == block;
    if |block| < FULL_BLOCK {
      BlocksCopy([], block, [0] + tail);
      assert block + ([0] + tail) == block + [0] + tail;
      assert ([0] + tail)[1..] == tail;
    } else if |block| == FULL_BLOCK {
      var run, last := block[..FULL_BLOCK - 1], block[FULL_BLOCK - 1];
      BlocksCopy([], run, [last] + tail);
      assert [] + run == run && run + ([last] + tail) == block + tail;
      assert ([last] + tail)[1..] == tail;
      assert run + [last] == block;
    }
  }

  /** True when the last block is a full one, which needs no following zero. */
  ghost predicate EndsWithFullBlock(s: seq<byte>)
    decreases |s|
  {
    s != [] && s[0] != 0 && |s| >= s[0] &&
    (if |s| == s[0] then s[0] == FULL_BLOCK + 1 else EndsWithFullBlock(s[s[0]..]))
  }

  /**
   The converse: on zero-free input the decoder has one inverse, the encoder, up to the empty
   block that the encoder writes after a full last block.
   */
  lemma {:induction false} EncodeOfDecoded(s: seq<byte>, room: nat)
    requires s != [] && ZeroFree(s) && Decoded(s, room).Some?
    ensures Blocks([], Decoded(s, room).value) == if EndsWithFullBlock(s) then s + [1] else s
    decreases |s|
  {
    var block, rest := s[1..s[0]], s[s[0]..];
    var zero := Separator(block, rest);
    assert s == [s[0]] + block + rest;
    DecodeOneBlock(s, block, rest, room);
    var tail := Decoded(rest, room - |block| - |zero|).value;
    if rest == [] {
      EncodeLastBlock(block);
      assert block + (zero + tail) == block;
      assert s == [s[0]] + block;
    } else {
      EncodeOfDecoded(rest, room - |block| - |zero|);
      EncodePrepend(s, block, rest, tail, EndsWithFullBlock(rest));
    }
  }

  lemma {:induction false} EncodePrepend(s: seq<byte>, block: seq<byte>, rest: seq<byte>, tail: seq<byte>, full: bool)
    requires ZeroFree(block) && |block| <= FULL_BLOCK && rest != []
    requires s == [|block| + 1] + block + rest
    requires Blocks([], tail) == if full then rest + [1] else rest
    ensures Blocks([], block + (Separator(block, rest) + tail)) == if full then s + [1] else s
  {
    EncodeOneBlock(block, tail);
    assert s + [1] == [|block| + 1] + block + (rest + [1]);
    if |block| == FULL_BLOCK {
      assert Separator(block, rest) + tail == tail;
    } else {
      assert block + ([0] + tail) == block + [0] + tail;
    }
  }

  lemma {:induction false} EncodeLastBlock(block: seq<byte>)
    requires ZeroFree(block) && |block| <= FULL_BLOCK
    ensures Blocks([], block) == [|block| + 1] + block + if |block| == FULL_BLOCK then [1] else []
  {
    if |block| < FULL_BLOCK {
      BlocksCopy([], block, []);
      assert [] + block == block && block + [] == block;
    } else {
      EncodeOneBlock(block, []);
      assert block + [] == block;
    }
  }

  /**
   Zeros inside a block are not rejected, although the source says that a zero inside encoded
   data is a framing error; only a zero in the place of a code is.
   */
  lemma {:induction false} ZeroInsideBlockAccepted(room: nat)
    requires room > 0
    ensures Decoded([2, 0], room) == Some([0])
  {
    DecodeOneBlock([2, 0], [0], [], room);
    assert [0] + ([] + []) == [0];
  }

  // ---------------------------------------------------------------- what is accepted

  /** Walking from code to code, every code is nonzero and none points past the end. */
  ghost predicate Framed(s: seq<byte>)
    decreases |s|
  {
    s == [] || (s[0] != 0 && s[0] <= |s| && Framed(s[s[0]..]))
  }

  /** The bytes that the blocks of a framed string yield, separators included. */
  ghost function DecodedSize(s: seq<byte>): nat
    requires Framed(s)
    decreases |s|
  {
    if s == [] then 0
    else |s[1..s[0]]| + |Separator(s[1..s[0]], s[s[0]..])| + DecodedSize(s[s[0]..])
  }

  /** On any bytes, zeros or not: exactly the framed strings decode, into exactly the buffers that hold them. */
  lemma {:induction false} DecodedIff(s: seq<byte>, room: nat)
    ensures Decoded(s, room).Some? <==> Framed(s) && DecodedSize(s) <= room
    ensures Decoded(s, room).Some? ==> |Decoded(s, room).value| == DecodedSize(s)
    decreases |s|
  {
    if s != [] && s[0] != 0 {
      DecodeHead(s, room);
      if s[0] <= |s| {
        var block, rest := s[1..s[0]], s[s[0]..];
        var needed := |block| + |Separator(block, rest)|;
        if needed <= room {
          DecodedIff(rest, room - needed);
        }
      }
    }
  }

  /** Position `k` holds a code. */
  ghost predicate CodeAt(s: seq<byte>, k: nat)
    requires Framed(s) && k < |s|
    decreases |s|
  {
    k == 0 || (s[0] <= k && CodeAt(s[s[0]..], k - s[0]))
  }

  lemma {:induction false} ZeroedFramed(s: seq<byte>, k: nat)
    requires Framed(s) && k < |s|
    ensures Framed(s[k := 0]) <==> !CodeAt(s, k)
    ensures !CodeAt(s, k) ==> DecodedSize(s[k := 0]) == DecodedSize(s)
    decreases |s|
  {
    var z := s[k := 0];
    if 0 < k < s[0] {
      assert z[s[0]..] == s[s[0]..];
    } else if k > 0 {
      assert z[s[0]..] == s[s[0]..][k - s[0] := 0];
      ZeroedFramed(s[s[0]..], k - s[0]);
    }
  }

  /**
   Exactly when a zero is the framing error that the comment announces: if one byte of a frame
   turns zero, the decoder notices if and only if the byte was a code, for every payload.
   */
  lemma {:induction false} ZeroRejectedIff(x: seq<byte>, k: nat, room: nat)
    requires |x| <= room && k < |Blocks([], x)|
    ensures Framed(Blocks([], x))
    ensures Decoded(Blocks([], x)[k := 0], room) == None <==> CodeAt(Blocks([], x), k)
  {
    var s := Blocks([], x);
    DecodeBlocks([], x);
    assert [] + x == x && Decoded(s, room) == Some(x);
    DecodedIff(s, room);
    DecodedIff(s[k := 0], room);
    ZeroedFramed(s, k);
  }

  // ---------------------------------------------------------------- size

  /** Number of full blocks the encoder closes. */
  function FullBlocks(open: nat, s: seq<byte>): nat
    requires open < FULL_BLOCK
    decreases |s|
  {
    if s == [] then 0
    else if s[0] == 0 then FullBlocks(0, s[1..])
    else if open + 1 == FULL_BLOCK then 1 + FullBlocks(0, s[1..])
    else FullBlocks(open + 1, s[1..])
  }

  lemma {:induction false} BlocksSize(open: seq<byte>, s: seq<byte>)
    requires |open| < FULL_BLOCK
    ensures |Blocks(open, s)| == |open| + |s| + FullBlocks(|open|, s) + 1
    ensures FullBlocks(|open|, s) <= (|open| + |s|) / 254
    ensures ZeroFree(s) ==> FullBlocks(|open|, s) == (|open| + |s|) / 254
    decreases |s|
  {
    if s != [] {
      if s[0] == 0 || |open| + 1 == FULL_BLOCK {
        BlocksSize([], s[1..]);
      } else {
        BlocksSize(open + [s[0]], s[1..]);
      }
    }
  }

  /** The exact length of a frame; the promised bound holds and is attained at every length. */
  lemma {:induction false} EncodedSize(s: seq<byte>)
    ensures |Encoded(s)| == |s| + FullBlocks(0, s) + 2 <= EncodedMaxSize(|s|)
    ensures ZeroFree(s) ==> |Encoded(s)| == EncodedMaxSize(|s|)
  {
    BlocksSize([], s);
  }

  // ---------------------------------------------------------------- streams

  function Stream(payloads: seq<seq<byte>>): seq<byte> {
    if payloads == [] then [] else Encoded(payloads[0]) + Stream(payloads[1..])
  }

  /** The chunks a receiver cuts from a stream at the zero bytes; an unfinished chunk is dropped. */
  function Cut(chunk: seq<byte>, stream: seq<byte>): seq<seq<byte>>
    decreases |stream|
  {
    if stream == [] then []
    else if stream[0] == DELIMITER then [chunk] + Cut([], stream[1..])
    else Cut(chunk + [stream[0]], stream[1..])
  }

  lemma {:induction false} CutAtDelimiter(chunk: seq<byte>, body: seq<byte>, rest: seq<byte>)
    requires ZeroFree(body)
    ensures Cut(chunk, body + [DELIMITER] + rest) == [chunk + body] + Cut([], rest)
    decreases |body|
  {
    var stream := body + [DELIMITER] + rest;
    if body == [] {
      assert stream[1..] == rest && chunk + body == chunk;
    } else {
      assert stream[1..] == body[1..] + [DELIMITER] + rest;
      assert chunk + [body[0]] + body[1..] == chunk + body;
      CutAtDelimiter(chunk + [body[0]], body[1..], rest);
    }
  }

  function DecodeAll(chunks: seq<seq<byte>>, room: nat): seq<Option<seq<byte>>> {
    if chunks == [] then [] else [Decoded(chunks[0], room)] + DecodeAll(chunks[1..], room)
  }

  function Found(payloads: seq<seq<byte>>): (r: seq<Option<seq<byte>>>)
    ensures |r| == |payloads|
    ensures forall i :: 0 <= i < |r| ==> r[i] == Some(payloads[i])
  {
    if payloads == [] then [] else [Some(payloads[0])] + Found(payloads[1..])
  }

  /** The receiver recovers the payload list: it cuts the stream at the zeros and decodes the chunks. */
  lemma {:induction false} StreamRecovered(payloads: seq<seq<byte>>, room: nat)
    requires forall p :: p in payloads ==> |p| <= room
    ensures DecodeAll(Cut([], Stream(payloads)), room) == Found(payloads)
    decreases |payloads|
  {
    if payloads != [] {
      var first, rest := payloads[0], payloads[1..];
      BlocksZeroFree([], first);
      CutAtDelimiter([], Blocks([], first), Stream(rest));
      assert [] + Blocks([], first) == Blocks([], first);
      DecodeBlocks([], first);
      assert [] + first == first;
      StreamRecovered(rest, room);
      assert Cut([], Stream(payloads)) == [Blocks([], first)] + Cut([], Stream(rest));
    }
  }

  /**
   Resynchronisation: whatever arrived before (a partial chunk `noise`), the chunks after the
   first delimiter decode to exactly the payload list.
   */
  lemma {:induction false} StreamRecoveredAfterNoise(noise: seq<byte>, payloads: seq<seq<byte>>, room: nat)
    requires ZeroFree(noise) && forall p :: p in payloads ==> |p| <= room
    ensures var chunks := Cut([], noise + [DELIMITER] + Stream(payloads));
      |chunks| > 0 && chunks[0] == noise && DecodeAll(chunks[1..], room) == Found(payloads)
  {
    CutAtDelimiter([], noise, Stream(payloads));
    assert [] + noise == noise;
    StreamRecovered(payloads, room);
    var chunks := Cut([], noise + [DELIMITER] + Stream(payloads));
    assert chunks[1..] == Cut([], Stream(payloads));
  }

  // ---------------------------------------------------------------- the loops

  /** The buffer while block `open` is being copied after the finished bytes `done`. */
  ghost predicate Copying(output: seq<byte>, done: seq<byte>, open: seq<byte>, codePos: nat, writePos: nat) {
    && codePos == |done| && writePos == codePos + 1 + |open| && |open| < FULL_BLOCK
    && writePos < |output| && output[..writePos] == done + [0xFF] + open
  }

  /** Patches the code of the block that ends at `writePos` and opens the next one. */
  method CloseBlock(output: array<byte>, codePos: nat, writePos: nat, code: byte, ghost done: seq<byte>,
    ghost open: seq<byte>)
    requires codePos == |done| && writePos == codePos + 1 + |open| && writePos + 1 < output.Length
    requires output[..writePos] == done + [0xFF] + open
    modifies output
    ensures Copying(output[..], done + [code] + open, [], writePos, writePos + 1)
    ensures output[writePos + 1..] == old(output[writePos + 1..])
  {
    output[codePos] := code;
    output[writePos] := 0xFF;
    assert output[..writePos + 1] == done + [code] + open + [0xFF] + [];
  }

  method CopyByte(output: array<byte>, codePos: nat, writePos: nat, b: byte, ghost done: seq<byte>,
    ghost open: seq<byte>)
    requires Copying(output[..], done, open, codePos, writePos)
    modifies output
    ensures output[..writePos + 1] == done + [0xFF] + (open + [b])
    ensures output[writePos + 1..] == old(output[writePos + 1..])
  {
    output[writePos] := b;
    assert output[..writePos + 1] == output[..writePos] + [b];
  }

  /** What is still to be encoded completes what has been written. */
  ghost predicate Completes(done: seq<byte>, open: seq<byte>, rest: seq<byte>, frame: seq<byte>)
    requires |open| < FULL_BLOCK
  {
    done + Blocks(open, rest) == frame
  }

  /** One input byte; `code` is the length of the open block plus one. */
  method EncodeByte(
    input: seq<byte>, i: nat, output: array<byte>, codePos: nat, writePos: nat,
    ghost done: seq<byte>, ghost open: seq<byte>, ghost frame: seq<byte>)
    returns (codePos': nat, writePos': nat, ghost done': seq<byte>, ghost open': seq<byte>)
    requires i < |input| && |frame| < output.Length
    requires Copying(output[..], done, open, codePos, writePos) && Completes(done, open, input[i..], frame)
    modifies output
    ensures Copying(output[..], done', open', codePos', writePos') && Completes(done', open', input[i + 1..], frame)
    ensures writePos <= writePos' && output[writePos'..] == old(output[writePos'..])
  {
    BlocksStep(open, input, i);
    BlocksSize(open, input[i..]);
    codePos', writePos', done', open' := codePos, writePos, done, open;
    ghost var closed := [|open| + 1] + open;
    if input[i] != 0 {
      CopyByte(output, codePos, writePos, input[i], done, open);
      writePos', open' := writePos + 1, open + [input[i]];
      closed := [|open'| + 1] + open';
    }
    if input[i] == 0 || writePos' - codePos == 0xFF {
      CloseBlock(output, codePos, writePos', writePos' - codePos, done, open');
      assert done + [|open'| + 1] + open' == done + closed;
      assert done + closed + Blocks([], input[i + 1..]) == done + (closed + Blocks([], input[i + 1..]));
      codePos', writePos', done', open' := writePos', writePos' + 1, done + closed, [];
    }
  }

  /** `encode`: one pass, patching the code byte of a block when the block closes. */
  method Encode(input: seq<byte>, output: array<byte>) returns (n: nat)
    modifies output
    ensures output.Length < EncodedMaxSize(|input|) ==> n == 0 && output[..] == old(output[..])
    ensures output.Length >= EncodedMaxSize(|input|) ==>
      n == |Encoded(input)| <= output.Length && output[..n] == Encoded(input)
      && output[n..] == old(output[n..])
  {
    if output.Length < EncodedMaxSize(|input|) {
      return 0;
    }
    EncodedSize(input);
    var codePos: nat, writePos: nat := 0, 1;
    output[0] := 0xFF;
    ghost var done: seq<byte>, open: seq<byte> := [], [];
    ghost var frame := Blocks([], input);
    assert input[0..] == input && [] + frame == frame && output[..1] == [] + [0xFF] + [];
    for i := 0 to |input|
      invariant |open| < FULL_BLOCK && |frame| < output.Length
      invariant Copying(output[..], done, open, codePos, writePos) && Completes(done, open, input[i..], frame)
      invariant output[writePos..] == old(output[writePos..])
    {
      codePos, writePos, done, open := EncodeByte(input, i, output, codePos, writePos, done, open, frame);
    }
    assert input[|input|..] == [];
    ghost var before := old(output[..]);
    assert output[writePos + 1..] == before[writePos + 1..] by {
      assert output[writePos..] == before[writePos..];
      assert output[writePos..][1..] == output[writePos + 1..] && before[writePos..][1..] == before[writePos + 1..];
    }
    FinishFrame(output, codePos, writePos, done, open);
    n := writePos + 1;
  }

  /** Patches the last code and writes the delimiter. */
  method FinishFrame(output: array<byte>, codePos: nat, writePos: nat, ghost done: seq<byte>, ghost open: seq<byte>)
    requires Copying(output[..], done, open, codePos, writePos)
    modifies output
    ensures output[..writePos + 1] == done + ([|open| + 1] + open) + [DELIMITER]
    ensures output[writePos + 1..] == old(output[writePos + 1..])
  {
    output[codePos] := writePos - codePos;
    output[writePos] := DELIMITER;
    assert output[..writePos + 1] == output[..writePos] + [DELIMITER];
  }

  lemma {:induction false} BlocksStep(open: seq<byte>, input: seq<byte>, i: nat)
    requires i < |input| && |open| < FULL_BLOCK
    ensures Blocks(open, input[i..]) ==
      if input[i] == 0 then [|open| + 1] + open + Blocks([], input[i + 1..])
      else if |open| + 1 == FULL_BLOCK then [FULL_BLOCK + 1] + (open + [input[i]]) + Blocks([], input[i + 1..])
      else Blocks(open + [input[i]], input[i + 1..])
  {
    var s := input[i..];
    assert s[0] == input[i];
    assert s[1..] == input[i + 1..];
  }

  function Prepend(x: seq<byte>, tail: Option<seq<byte>>): Option<seq<byte>> {
    if tail.None? then None else Some(x + tail.value)
  }

  /** Copies the block that starts at `readPos`; false when input or output ends too early. */
  method CopyBlock(input: seq<byte>, readPos: nat, len: nat, output: array<byte>, writePos: nat) returns (ok: bool)
    requires readPos <= |input| && writePos <= output.Length
    modifies output
    ensures ok == (readPos + len <= |input| && writePos + len <= output.Length)
    ensures ok ==> output[..writePos + len] == old(output[..writePos]) + input[readPos..readPos + len]
    ensures ok ==> output[writePos + len..] == old(output[writePos + len..])
  {
    for i := 0 to len
      invariant readPos + i <= |input| && writePos + i <= output.Length
      invariant output[..writePos + i] == old(output[..writePos]) + input[readPos..readPos + i]
      invariant forall k :: writePos + i <= k < output.Length ==> output[k] == old(output[k])
    {
      if readPos + i >= |input| || writePos + i >= output.Length {
        return false;
      }
      output[writePos + i] := input[readPos + i];
    }
    ok := true;
  }

  lemma {:induction false} DecodeHead(s: seq<byte>, room: nat)
    requires s != [] && s[0] != 0
    ensures if |s| < s[0] || room < s[0] - 1 then Decoded(s, room) == None
      else
        var block, after := s[1..s[0]], s[s[0]..];
        var needed := |block| + |Separator(block, after)|;
        Decoded(s, room) ==
          if room < needed then None else Prepend(block + Separator(block, after), Decoded(after, room - needed))
  {
    if s[0] <= |s| && s[0] - 1 <= room {
      var block, after := s[1..s[0]], s[s[0]..];
      var needed := |block| + |Separator(block, after)|;
      if needed <= room {
        PrependBlock(block, Separator(block, after), Decoded(after, room - needed));
      }
    }
  }

  lemma {:induction false} DecodeStep(input: seq<byte>, readPos: nat, room: nat)
    requires readPos < |input| && input[readPos] != 0
    ensures var code := input[readPos];
      if |input| < readPos + code || room < code - 1 then Decoded(input[readPos..], room) == None
      else
        var block, after := input[readPos + 1..readPos + code], input[readPos + code..];
        var needed := |block| + |Separator(block, after)|;
        Decoded(input[readPos..], room) ==
          if room < needed then None
          else Prepend(block + Separator(block, after), Decoded(after, room - needed))
  {
    var code, rest := input[readPos], input[readPos..];
    assert rest[0] == code;
    DecodeHead(rest, room);
    if readPos + code <= |input| {
      assert rest[1..code] == input[readPos + 1..readPos + code];
      assert rest[code..] == input[readPos + code..];
    }
  }

  method PutSeparator(output: array<byte>, writePos: nat, wanted: bool) returns (ok: bool, writePos': nat)
    requires writePos <= output.Length
    modifies output
    ensures ok == (wanted ==> writePos < output.Length)
    ensures writePos' == if ok && wanted then writePos + 1 else writePos
    ensures ok ==> output[..writePos'] == old(output[..writePos]) + (if wanted then [0] else [])
    ensures ok ==> output[writePos'..] == old(output[writePos'..])
  {
    ok, writePos' := true, writePos;
    if wanted {
      if writePos >= output.Length {
        return false, writePos;
      }
      output[writePos] := 0;
      writePos' := writePos + 1;
      assert output[..writePos'] == output[..writePos] + [0];
    }
  }

  /** Copies the block at `readPos` and the zero after it; false when input or output ends too early. */
  method WriteBlock(input: seq<byte>, readPos: nat, output: array<byte>, writePos: nat)
    returns (ok: bool, readPos': nat, writePos': nat, ghost written: seq<byte>)
    requires readPos < |input| && input[readPos] != 0 && writePos <= output.Length
    modifies output
    ensures readPos' == readPos + input[readPos]
    ensures readPos' <= |input| ==>
      && written == input[readPos + 1..readPos'] + Separator(input[readPos + 1..readPos'], input[readPos'..])
      && ok == (writePos + |written| <= output.Length)
    ensures ok ==> readPos' <= |input| && writePos' == writePos + |written|
    ensures ok ==>
      && output[..writePos'] == old(output[..writePos]) + written
      && output[writePos'..] == old(output[writePos'..])
  {
    var code := input[readPos];
    readPos', writePos', written := readPos + code, writePos, [];
    ghost var start := output[..];
    ok := CopyBlock(input, readPos + 1, code - 1, output, writePos);
    if readPos' <= |input| {
      written := input[readPos + 1..readPos'] + Separator(input[readPos + 1..readPos'], input[readPos'..]);
    }
    if ok {
      var copied := writePos + code - 1;
      ghost var mid, block := output[..], input[readPos + 1..readPos'];
      assert mid[..copied] == start[..writePos] + block && mid[copied..] == start[copied..];
      ok, writePos' := PutSeparator(output, copied, code < 0xFF && readPos' < |input|);
      if ok {
        SameTail(mid, start, copied, writePos');
        assert start[..writePos] + block + Separator(block, input[readPos'..]) == start[..writePos] + written;
      }
    }
  }

  /** Decodes the block at `readPos`, and the zero after it; false on a framing error. */
  method DecodeBlock(input: seq<byte>, readPos: nat, output: array<byte>, writePos: nat)
    returns (ok: bool, readPos': nat, writePos': nat, ghost written: seq<byte>)
    requires readPos < |input| && writePos <= output.Length
    modifies output
    ensures !ok ==> Decoded(input[readPos..], output.Length - writePos) == None
    ensures ok ==>
      && readPos < readPos' <= |input| && writePos <= writePos' <= output.Length
      && output[..writePos'] == old(output[..writePos]) + written && output[writePos'..] == old(output[writePos'..])
      && Decoded(input[readPos..], output.Length - writePos)
         == Prepend(written, Decoded(input[readPos'..], output.Length - writePos'))
  {
    if input[readPos] == 0 {
      assert input[readPos..][0] == 0;
      return false, readPos, writePos, [];
    }
    DecodeStep(input, readPos, output.Length - writePos);
    ok, readPos', writePos', written := WriteBlock(input, readPos, output, writePos);
  }

  lemma {:induction false} SameTail(a: seq<byte>, b: seq<byte>, i: nat, j: nat)
    requires i <= j <= |a| == |b| && a[i..] == b[i..]
    ensures a[j..] == b[j..]
  {
    assert a[j..] == a[i..][j - i..] && b[j..] == b[i..][j - i..];
  }

  lemma {:induction false} PrependBlock(block: seq<byte>, zero: seq<byte>, tail: Option<seq<byte>>)
    ensures Prepend(block + zero, tail) == if tail.None? then None else Some(block + (zero + tail.value))
  {
    if tail.Some? {
      assert block + zero + tail.value == block + (zero + tail.value);
    }
  }

  lemma {:induction false} PrependTwice(x: seq<byte>, y: seq<byte>, tail: Option<seq<byte>>)
    ensures Prepend(x, Prepend(y, tail)) == Prepend(x + y, tail)
  {
    if tail.Some? {
      assert x + y + tail.value == x + (y + tail.value);
    }
  }

  /** `decode`: the number of bytes decoded, or 0 on a framing error. */
  method Decode(input: seq<byte>, output: array<byte>) returns (n: nat)
    modifies output
    ensures match Decoded(input, output.Length)
      case None => n == 0
      case Some(s) => n == |s| && output[..n] == s && output[n..] == old(output[n..])
  {
    var readPos: nat, writePos: nat := 0, 0;
    ghost var whole := Decoded(input, output.Length);
    assert input[0..] == input;
    assert whole.Some? ==> [] + whole.value == whole.value;
    while readPos < |input|
      invariant readPos <= |input| && writePos <= output.Length
      invariant whole == Prepend(output[..writePos], Decoded(input[readPos..], output.Length - writePos))
      invariant output[writePos..] == old(output[writePos..])
    {
      ghost var before := output[..writePos];
      var ok, readPos', writePos', written := DecodeBlock(input, readPos, output, writePos);
      if !ok {
        return 0;
      }
      PrependTwice(before, written, Decoded(input[readPos'..], output.Length - writePos'));
      readPos, writePos := readPos', writePos';
    }
    assert output[..writePos] + [] == output[..writePos];
    n := writePos;
  }

  // ---------------------------------------------------------------- fixed-size frames

  const CMD_FRAME_MAX := EncodedMaxSize(22)

  /** `CobsFrame`: a frame of at most 22 payload bytes in a fixed buffer. */
  class CobsFrame {
    const data: array<byte>
    var encodedLen: nat

    ghost predicate Valid()
      reads this
    {
      data.Length == CMD_FRAME_MAX
    }

    /** `CobsFrame::encode`; a payload that does not fit leaves a frame of length 0. */
    constructor (payload: seq<byte>)
      ensures Valid() && fresh(data)
      ensures |payload| <= 22 ==> encodedLen <= data.Length && data[..encodedLen] == Encoded(payload)
      ensures |payload| > 22 ==> encodedLen == 0
    {
      var buffer := new byte[CMD_FRAME_MAX](i => 0);
      EncodedSize(payload);
      var n := Encode(payload, buffer);
      data := buffer;
      encodedLen := n;
    }

    /** `CobsFrame::decode`; the length is a public field and may say anything. */
    method Recover(output: array<byte>) returns (ok: bool, n: nat)
      requires Valid() && output != data
      modifies output
      ensures ok == (encodedLen <= data.Length && FrameOk(data[..encodedLen], output.Length))
      ensures ok ==>
        && n <= output.Length
        && Some(output[..n]) == Decoded(data[..encodedLen][..encodedLen - 1], output.Length)
      ensures !ok ==> n == 0
    {
      if encodedLen == 0 || encodedLen > data.Length || data[encodedLen - 1] != 0 {
        return false, 0;
      }
      assert data[..encodedLen - 1] == data[..encodedLen][..encodedLen - 1];
      ghost var bytes := data[..encodedLen - 1];
      n := Decode(data[..encodedLen - 1], output);
      ok := n > 0 || (encodedLen == 2 && data[0] == 1);
      if encodedLen == 2 && data[0] == 1 {
        DecodeOneBlock(bytes, [], [], output.Length);
      }
    }
  }

  /**
   When `CobsFrame::decode` succeeds: the delimiter is in place and the blocks decode, to
   something non-empty unless the frame is the encoding of the empty payload.
   */
  ghost predicate FrameOk(frame: seq<byte>, room: nat) {
    && |frame| > 0 && frame[|frame| - 1] == DELIMITER
    && var r := Decoded(frame[..|frame| - 1], room);
       r.Some? && (r.value != [] || frame == Encoded([]))
  }

  /** A frame of any payload, the empty one too, is accepted and gives it back. */
  lemma {:induction false} FrameRoundTrip(s: seq<byte>, room: nat)
    requires |s| <= room
    ensures FrameOk(Encoded(s), room)
    ensures Decoded(Encoded(s)[..|Encoded(s)| - 1], room) == Some(s)
  {
    RoundTrip(s);
  }
}
