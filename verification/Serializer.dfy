/**
 Packets, CRC-16 and the downlink frame: `src/Serializer.hpp`, `buildFrame` of
 `src/TelemetryBridge.hpp`, and the frame check of `gds/gds_dash.py`.

 A CRC register is modelled as the bits of the machine integer that holds it, most
 significant first: 32 bits in the flight code, an integer without width on the ground.
 */
module Serializer {
  import opened Wrappers
  import opened Words
  import opened Lfsr

  const POLY16: Word := MsbFirst(0x1021, 16)
  const CCSDS_SYNC_WORD: u32 := 0x1ACF_FC1D
  const HEADER_SIZE := 10
  const CRC_SIZE := 2

  // ---------------------------------------------------------------- packets

  /** Floats are kept as their 32-bit patterns: only bit equality matters on the wire. */
  datatype TelemetryPacket = TelemetryPacket(timestampMs: u32, componentId: u32, data: u32)
  datatype CommandPacket = CommandPacket(targetId: u32, opcode: u32, argument: u32)
  datatype EventPacket = EventPacket(severity: u32, sourceId: u32, message: seq<byte>)

  const EVENT_MSG_SIZE := 28

  function PackTelemetry(p: TelemetryPacket): (b: seq<byte>)
    ensures |b| == 12
  {
    Le32(p.timestampMs) + Le32(p.componentId) + Le32(p.data)
  }

  function UnpackTelemetry(b: seq<byte>): (p: TelemetryPacket)
    requires |b| == 12
  {
    TelemetryPacket(FromLe32(b[..4]), FromLe32(b[4..8]), FromLe32(b[8..]))
  }

  function PackCommand(p: CommandPacket): (b: seq<byte>)
    ensures |b| == 12
  {
    Le32(p.targetId) + Le32(p.opcode) + Le32(p.argument)
  }

  function UnpackCommand(b: seq<byte>): (p: CommandPacket)
    requires |b| == 12
  {
    CommandPacket(FromLe32(b[..4]), FromLe32(b[4..8]), FromLe32(b[8..]))
  }

  function PackEvent(p: EventPacket): (b: seq<byte>)
    requires |p.message| == EVENT_MSG_SIZE
    ensures |b| == 36
  {
    Le32(p.severity) + Le32(p.sourceId) + p.message
  }

  function UnpackEvent(b: seq<byte>): (p: EventPacket)
    requires |b| == 36
    ensures |p.message| == EVENT_MSG_SIZE
  {
    EventPacket(FromLe32(b[..4]), FromLe32(b[4..8]), b[8..])
  }

  /** Packing is a bijection on every packet type: nothing is lost packing, */
  lemma {:induction false} PackRoundTrip(t: TelemetryPacket, c: CommandPacket, e: EventPacket)
    requires |e.message| == EVENT_MSG_SIZE
    ensures UnpackTelemetry(PackTelemetry(t)) == t
    ensures UnpackCommand(PackCommand(c)) == c
    ensures UnpackEvent(PackEvent(e)) == e
  {
    var bt, bc, be := PackTelemetry(t), PackCommand(c), PackEvent(e);
    assert bt[..4] == Le32(t.timestampMs) && bt[4..8] == Le32(t.componentId) && bt[8..] == Le32(t.data);
    assert bc[..4] == Le32(c.targetId) && bc[4..8] == Le32(c.opcode) && bc[8..] == Le32(c.argument);
    assert be[..4] == Le32(e.severity) && be[4..8] == Le32(e.sourceId) && be[8..] == e.message;
    Le32RoundTrip(t.timestampMs); Le32RoundTrip(t.componentId); Le32RoundTrip(t.data);
    Le32RoundTrip(c.targetId); Le32RoundTrip(c.opcode); Le32RoundTrip(c.argument);
    Le32RoundTrip(e.severity); Le32RoundTrip(e.sourceId);
  }

  /** and every byte string of the right length is the packing of what it unpacks to. */
  lemma {:induction false} UnpackRoundTrip(b: seq<byte>, be: seq<byte>)
    requires |b| == 12 && |be| == 36
    ensures PackTelemetry(UnpackTelemetry(b)) == b
    ensures PackCommand(UnpackCommand(b)) == b
    ensures PackEvent(UnpackEvent(be)) == be
  {
    FromLe32RoundTrip(b[..4]); FromLe32RoundTrip(b[4..8]); FromLe32RoundTrip(b[8..]);
    FromLe32RoundTrip(be[..4]); FromLe32RoundTrip(be[4..8]);
    assert b == b[..4] + b[4..8] + b[8..];
    assert be == be[..4] + be[4..8] + be[8..];
  }

  // ---------------------------------------------------------------- CRC-16

  /** CRC-16 as section 4.1.6 of CCSDS 132.0-B defines it: bit-serial, preset to all ones. */
  function Crc16(data: seq<byte>): (crc: Word)
    ensures |crc| == 16
  {
    Feed(Ones(16), POLY16, MsbBits(data))
  }

  lemma {:induction false} PolyIsGenerator()
    ensures Generator(POLY16)
  {
  }

  /** One byte, added at once to the top half and clocked eight times. */
  lemma {:induction false} Crc16Step(data: seq<byte>, i: nat)
    requires i < |data|
    ensures Crc16(data[..i + 1]) == Shifts(AddFront(Crc16(data[..i]), MsbFirst(data[i], 8)), POLY16, 8)
  {
    assert data[..i + 1] == data[..i] + [data[i]];
    MsbBitsConcat(data[..i], [data[i]]);
    assert MsbBits([data[i]]) == MsbFirst(data[i], 8);
    FeedConcat(Ones(16), POLY16, MsbBits(data[..i]), MsbFirst(data[i], 8));
    FeedAtOnce(Crc16(data[..i]), POLY16, MsbFirst(data[i], 8));
  }

  /** One shift of the flight code: a 32-bit variable, masked to its low 16 bits. */
  function FlightShift(crc: Word, poly: Word): (r: Word)
    requires |crc| == 32 && |poly| == 16
    ensures |r| == 32
  {
    var shifted := crc[1..] + [false];
    var stepped := if crc[16] then Xor(shifted, Zeros(16) + poly) else shifted;
    Zeros(16) + stepped[16..]
  }

  lemma {:induction false} FlightShiftIsShift(reg: Word, poly: Word)
    requires |reg| == |poly| == 16
    ensures FlightShift(Zeros(16) + reg, poly) == Zeros(16) + Shift(reg, poly)
  {
    var crc := Zeros(16) + reg;
    assert crc[16] == reg[0];
    assert (crc[1..] + [false])[16..] == reg[1..] + [false];
    assert Xor(crc[1..] + [false], Zeros(16) + poly)[16..] == Xor(reg[1..] + [false], poly);
  }

  /** One shift on the ground: the integer simply grows by a bit. */
  function GroundShift(crc: Word, poly: Word): (r: Word)
    requires |crc| >= 16 == |poly|
    ensures |r| == |crc| + 1
  {
    var shifted := crc + [false];
    if crc[|crc| - 16] then Xor(shifted, Zeros(|shifted| - 16) + poly) else shifted
  }

  lemma {:induction false} GroundShiftIsShift(crc: Word, poly: Word)
    requires |crc| >= 16 == |poly|
    ensures GroundShift(crc, poly)[|crc| - 15..] == Shift(crc[|crc| - 16..], poly)
  {
    var reg, shifted, k := crc[|crc| - 16..], crc + [false], |crc| - 15;
    assert shifted[k..] == reg[1..] + [false];
    assert Xor(shifted, Zeros(k) + poly)[k..] == Xor(reg[1..] + [false], poly);
  }

  lemma {:induction false} OneMoreShift(r: Word, poly: Word, k: nat)
    requires |r| == |poly| > 0
    ensures Shifts(r, poly, k + 1) == Shift(Shifts(r, poly, k), poly)
  {
    ShiftsConcat(r, poly, k, 1);
    assert Shifts(Shifts(r, poly, k), poly, 1) == Shift(Shifts(r, poly, k), poly);
  }

  method FlightByte(reg: Word, b: byte) returns (r: Word)
    requires |reg| == 16
    ensures r == Shifts(AddFront(reg, MsbFirst(b, 8)), POLY16, 8)
  {
    var bits := MsbFirst(b, 8);
    ghost var start := AddFront(reg, bits);
    var crc := Xor(Zeros(16) + reg, Zeros(16) + bits + Zeros(8));
    assert crc == Zeros(16) + start;
    for j := 0 to 8
      invariant |crc| == 32 && crc == Zeros(16) + Shifts(start, POLY16, j)
    {
      FlightShiftIsShift(Shifts(start, POLY16, j), POLY16);
      OneMoreShift(start, POLY16, j);
      crc := FlightShift(crc, POLY16);
    }
    r := crc[16..];
  }

  method GroundByte(reg: Word, b: byte) returns (r: Word)
    requires |reg| == 16
    ensures r == Shifts(AddFront(reg, MsbFirst(b, 8)), POLY16, 8)
  {
    var crc := Xor(reg, MsbFirst(b, 8) + Zeros(8));
    ghost var start := crc;
    for j := 0 to 8
      invariant |crc| == 16 + j && crc[j..] == Shifts(start, POLY16, j)
    {
      GroundShiftIsShift(crc, POLY16);
      OneMoreShift(start, POLY16, j);
      crc := GroundShift(crc, POLY16);
    }
    r := crc[|crc| - 16..];
  }

  /** The flight loop. */
  method FlightCrc16(data: seq<byte>) returns (crc: Word)
    ensures crc == Crc16(data)
  {
    crc := Ones(16);
    for i := 0 to |data|
      invariant crc == Crc16(data[..i])
    {
      Crc16Step(data, i);
      crc := FlightByte(crc, data[i]);
    }
    assert data[..|data|] == data;
  }

  /** The ground loop. */
  method GroundCrc16(data: seq<byte>) returns (crc: Word)
    ensures crc == Crc16(data)
  {
    crc := Ones(16);
    for i := 0 to |data|
      invariant crc == Crc16(data[..i])
    {
      Crc16Step(data, i);
      crc := GroundByte(crc, data[i]);
    }
    assert data[..|data|] == data;
  }

  // ---------------------------------------------------------------- frames

  /** The CRC on the wire, high byte first. */
  function CrcBytes(crc: Word): (b: seq<byte>)
    requires |crc| == 16
    ensures |b| == CRC_SIZE && MsbBits(b) == crc
  {
    var high, low := ByteOf(crc[..8]), ByteOf(crc[8..]);
    MsbBitsConcat([high], [low]);
    assert crc == crc[..8] + crc[8..];
    [high] + [low]
  }

  function Header(apid: u16, sequence: u16, payloadLen: u16): (h: seq<byte>)
    ensures |h| == HEADER_SIZE
  {
    Le32(CCSDS_SYNC_WORD) + Le16(apid) + Le16(sequence) + Le16(payloadLen)
  }

  /** The payload length as the 16-bit header field holds it. */
  function LengthField(n: nat): (len: u16)
    ensures n < TWO16 ==> len == n
  {
    n % TWO16
  }

  method BuildFrame(apid: u16, sequence: u16, payload: seq<byte>) returns (frame: seq<byte>)
    ensures frame == Frame(apid, sequence, payload)
  {
    var crc := FlightCrc16(payload);
    frame := Header(apid, sequence, LengthField(|payload|)) + payload + CrcBytes(crc);
  }

  function Frame(apid: u16, sequence: u16, payload: seq<byte>): seq<byte> {
    Header(apid, sequence, LengthField(|payload|)) + payload + CrcBytes(Crc16(payload))
  }

  function Min(a: int, b: int): int {
    if a < b then a else b
  }

  /** A Python slice: bounds past the end are clamped. */
  function Slice(s: seq<byte>, lo: nat, hi: nat): seq<byte>
    requires lo <= hi
  {
    s[Min(lo, |s|)..Min(hi, |s|)]
  }

  datatype HeaderFields = HeaderFields(syncWord: u32, apid: u16, sequence: u16, payloadLen: u16)

  function ReadHeader(data: seq<byte>): HeaderFields
    requires |data| >= HEADER_SIZE
  {
    HeaderFields(FromLe32(data[..4]), FromLe16(data[4..6]), FromLe16(data[6..8]), FromLe16(data[8..10]))
  }

  /** The APID and payload the ground accepts from a datagram, if any. */
  function GroundParse(data: seq<byte>): (r: Option<(u16, seq<byte>)>) {
    if |data| < HEADER_SIZE + CRC_SIZE then None else CheckBody(ReadHeader(data), data)
  }

  function CheckBody(hdr: HeaderFields, data: seq<byte>): (r: Option<(u16, seq<byte>)>) {
    if hdr.syncWord != CCSDS_SYNC_WORD then None
    else
      var payload := Slice(data, HEADER_SIZE, HEADER_SIZE + hdr.payloadLen);
      var crcBytes := Slice(data, HEADER_SIZE + hdr.payloadLen, HEADER_SIZE + hdr.payloadLen + CRC_SIZE);
      if |crcBytes| == CRC_SIZE && MsbBits(crcBytes) != Crc16(payload) then None
      else Some((hdr.apid, payload))
  }

  method GroundReceive(data: seq<byte>) returns (r: Option<(u16, seq<byte>)>)
    ensures r == GroundParse(data)
  {
    if |data| < HEADER_SIZE + CRC_SIZE {
      return None;
    }
    var hdr := ReadHeader(data);
    if hdr.syncWord != CCSDS_SYNC_WORD {
      return None;
    }
    var payload := Slice(data, HEADER_SIZE, HEADER_SIZE + hdr.payloadLen);
    var crcBytes := Slice(data, HEADER_SIZE + hdr.payloadLen, HEADER_SIZE + hdr.payloadLen + CRC_SIZE);
    if |crcBytes| == CRC_SIZE {
      var crc := GroundCrc16(payload);
      if crc != MsbBits(crcBytes) {
        return None;
      }
    }
    r := Some((hdr.apid, payload));
  }

  lemma {:induction false} HeaderRoundTrip(apid: u16, sequence: u16, payloadLen: u16, rest: seq<byte>)
    ensures ReadHeader(Header(apid, sequence, payloadLen) + rest)
         == HeaderFields(CCSDS_SYNC_WORD, apid, sequence, payloadLen)
  {
    var data := Header(apid, sequence, payloadLen) + rest;
    assert data[..4] == Le32(CCSDS_SYNC_WORD) && data[4..6] == Le16(apid);
    assert data[6..8] == Le16(sequence) && data[8..10] == Le16(payloadLen);
    Le32RoundTrip(CCSDS_SYNC_WORD);
    Le16RoundTrip(apid);
    Le16RoundTrip(sequence);
    Le16RoundTrip(payloadLen);
  }

  lemma {:induction false} WholeBody(hdr: HeaderFields, data: seq<byte>, header: seq<byte>, payload: seq<byte>,
    crc: seq<byte>)
    requires hdr.syncWord == CCSDS_SYNC_WORD && hdr.payloadLen == |payload|
    requires |header| == HEADER_SIZE && |crc| == CRC_SIZE && data == header + payload + crc
    ensures CheckBody(hdr, data) == if MsbBits(crc) == Crc16(payload) then Some((hdr.apid, payload)) else None
  {
    assert Slice(data, HEADER_SIZE, HEADER_SIZE + |payload|) == payload;
    assert Slice(data, HEADER_SIZE + |payload|, HEADER_SIZE + |payload| + CRC_SIZE) == crc;
  }

  /** What the ground does with a datagram that has a good header and a body as long as announced. */
  lemma {:induction false} ParseBody(data: seq<byte>, apid: u16, sequence: u16, payload: seq<byte>, crc: seq<byte>)
    requires |payload| < TWO16 && |crc| == CRC_SIZE
    requires data == Header(apid, sequence, |payload|) + payload + crc
    ensures GroundParse(data) == if MsbBits(crc) == Crc16(payload) then Some((apid, payload)) else None
  {
    var header := Header(apid, sequence, |payload|);
    assert data == header + (payload + crc);
    HeaderRoundTrip(apid, sequence, |payload|, payload + crc);
    WholeBody(HeaderFields(CCSDS_SYNC_WORD, apid, sequence, |payload|), data, header, payload, crc);
  }

  /** Every frame the flight side builds is recovered exactly by the ground side. */
  lemma {:induction false} FrameRoundTrip(apid: u16, sequence: u16, payload: seq<byte>)
    requires |payload| < TWO16
    ensures GroundParse(Frame(apid, sequence, payload)) == Some((apid, payload))
  {
    var crc := CrcBytes(Crc16(payload));
    ParseBody(Frame(apid, sequence, payload), apid, sequence, payload, crc);
  }

  /** A payload followed by a CRC is accepted exactly when it leaves the register empty. */
  lemma {:induction false} AcceptedIffResidueZero(payload: seq<byte>, crc: seq<byte>)
    requires |crc| == CRC_SIZE
    ensures MsbBits(crc) == Crc16(payload) <==> Crc16(payload + crc) == Zeros(16)
  {
    PolyIsGenerator();
    MsbBitsConcat(payload, crc);
    FeedConcat(Ones(16), POLY16, MsbBits(payload), MsbBits(crc));
    ResidueZeroIffEqual(Crc16(payload), POLY16, MsbBits(crc));
  }

  /**
   Error detection on the code itself: no non-zero error that fits in 16 consecutive bits
   turns a payload with its CRC into another payload with its CRC.
   */
  lemma {:induction false} BurstErrorBreaksCrc(payload: seq<byte>, received: seq<byte>, e: Word, lo: nat)
    requires |received| == |payload| + CRC_SIZE && |e| == 8 * |received|
    requires Burst(e, lo, 16)
    requires MsbBits(received) == Xor(MsbBits(payload + CrcBytes(Crc16(payload))), e)
    ensures MsbBits(received[|payload|..]) != Crc16(received[..|payload|])
  {
    PolyIsGenerator();
    var crc := CrcBytes(Crc16(payload));
    AcceptedIffResidueZero(payload, crc);
    BurstDetected(Ones(16), POLY16, MsbBits(payload + crc), e, lo);
    assert received == received[..|payload|] + received[|payload|..];
    AcceptedIffResidueZero(received[..|payload|], received[|payload|..]);
  }

  lemma {:induction false} WrongCrcRejected(apid: u16, sequence: u16, n: u16, received: seq<byte>, datagram: seq<byte>)
    requires |received| == n + CRC_SIZE && datagram == Header(apid, sequence, n) + received
    requires MsbBits(received[n..]) != Crc16(received[..n])
    ensures GroundParse(datagram) == None
  {
    var header := Header(apid, sequence, n);
    HeaderRoundTrip(apid, sequence, n, received);
    assert datagram == header + received[..n] + received[n..];
    WholeBody(HeaderFields(CCSDS_SYNC_WORD, apid, sequence, n), datagram, header, received[..n], received[n..]);
  }

  /**
   Error detection on the link, for every payload length: if the bits of payload and CRC
   are changed by such an error, the ground rejects the frame.
   */
  lemma {:induction false} BurstErrorRejected(
    apid: u16, sequence: u16, payload: seq<byte>, received: seq<byte>, datagram: seq<byte>, e: Word, lo: nat)
    requires |payload| < TWO16 && |received| == |payload| + CRC_SIZE && |e| == 8 * |received|
    requires Burst(e, lo, 16)
    requires MsbBits(received) == Xor(MsbBits(payload + CrcBytes(Crc16(payload))), e)
    requires datagram == Header(apid, sequence, |payload|) + received
    ensures GroundParse(datagram) == None
  {
    BurstErrorBreaksCrc(payload, received, e, lo);
    WrongCrcRejected(apid, sequence, |payload|, received, datagram);
  }

  predicate GoodHeader(data: seq<byte>) {
    |data| >= HEADER_SIZE + CRC_SIZE && ReadHeader(data).syncWord == CCSDS_SYNC_WORD
  }

  /** As long as the header announces: the CRC bytes are all there. */
  predicate Complete(data: seq<byte>)
    requires GoodHeader(data)
  {
    |data| >= HEADER_SIZE + ReadHeader(data).payloadLen + CRC_SIZE
  }

  predicate CrcMatches(data: seq<byte>)
    requires GoodHeader(data) && Complete(data)
  {
    var n := HEADER_SIZE + ReadHeader(data).payloadLen;
    MsbBits(data[n..n + CRC_SIZE]) == Crc16(data[HEADER_SIZE..n])
  }

  /**
   Exactly which datagrams the ground delivers, and what of them: behind a good header those
   whose CRC matches, and those too short to be checked. So the CRC guards a datagram if and
   only if it is complete.
   */
  lemma {:induction false} GroundAcceptsIff(data: seq<byte>)
    ensures GroundParse(data).Some? <==> GoodHeader(data) && (Complete(data) ==> CrcMatches(data))
    ensures GroundParse(data).Some? ==>
      var n := HEADER_SIZE + ReadHeader(data).payloadLen;
      GroundParse(data) == Some((ReadHeader(data).apid, data[HEADER_SIZE..Min(n, |data|)]))
  {
    if GoodHeader(data) {
      var n := HEADER_SIZE + ReadHeader(data).payloadLen;
      assert Slice(data, HEADER_SIZE, n) == data[HEADER_SIZE..Min(n, |data|)];
      assert Complete(data) ==> Slice(data, n, n + CRC_SIZE) == data[n..n + CRC_SIZE];
      assert GroundParse(data) == CheckBody(ReadHeader(data), data);
    }
  }

  /**
   A frame cut anywhere behind its twelfth byte is delivered unchecked: the payload when only
   CRC bytes are missing, the part of it that arrived otherwise. Cut earlier it is ignored.
   */
  lemma {:induction false} TruncatedFrameUnchecked(apid: u16, sequence: u16, n: u16, received: seq<byte>)
    requires |received| < n + CRC_SIZE
    ensures GroundParse(Header(apid, sequence, n) + received) ==
      if |received| >= CRC_SIZE then Some((apid, received[..Min(n, |received|)])) else None
  {
    var data := Header(apid, sequence, n) + received;
    HeaderRoundTrip(apid, sequence, n, received);
    GroundAcceptsIff(data);
    assert data[HEADER_SIZE..Min(HEADER_SIZE + n, |data|)] == received[..Min(n, |received|)];
  }
}
