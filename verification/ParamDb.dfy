/**
 The parameter table of `src/ParamDb.hpp` and its CRC-32, used by one thread at a time.
 Values are 32-bit float patterns. `ParamDbConcurrent` is the same code under threads.
 */
module ParamDb {
  import opened Words
  import opened Lfsr

  const MAX_PARAMS := 256

  // ---------------------------------------------------------------- CRC-32

  /** The polynomial of section 8 of RFC 1952 in reflected form. */
  const POLY32: Word := LsbFirst(0xEDB8_8320, 32)

  function Complement(r: Word): (s: Word)
    ensures |s| == |r| && forall i :: 0 <= i < |r| ==> s[i] == !r[i]
  {
    seq(|r|, i requires 0 <= i < |r| => !r[i])
  }

  function And(a: Word, b: Word): (r: Word)
    requires |a| == |b|
    ensures |r| == |a| && forall i :: 0 <= i < |r| ==> r[i] == (a[i] && b[i])
  {
    seq(|a|, i requires 0 <= i < |a| => a[i] && b[i])
  }

  function Register32(data: seq<byte>): (r: Word)
    ensures |r| == 32
  {
    Feed(Ones(32), POLY32, LsbBits(data))
  }

  function Crc32(data: seq<byte>): (r: Word)
    ensures |r| == 32
  {
    Complement(Register32(data))
  }

  lemma {:induction false} Poly32IsGenerator()
    ensures Generator(POLY32)
  {
    Pow32();
    TopBitSet(0xEDB8_8320, 32);
  }

  lemma {:induction false} TopBitSet(x: nat, k: nat)
    requires k > 0 && Pow2(k - 1) <= x < Pow2(k)
    ensures LsbFirst(x, k)[k - 1]
  {
    if k > 1 {
      TopBitSet(x / 2, k - 1);
      assert LsbFirst(x, k)[k - 1] == LsbFirst(x / 2, k - 1)[k - 2];
    }
  }

  lemma {:induction false} Pow32()
    ensures Pow2(31) == 0x8000_0000 && Pow2(32) == 0x1_0000_0000
  {
    assert Pow2(4) == 0x10;
    assert Pow2(8) == 0x100;
    assert Pow2(12) == 0x1000;
    assert Pow2(16) == 0x1_0000;
    assert Pow2(20) == 0x10_0000;
    assert Pow2(24) == 0x100_0000;
    assert Pow2(28) == 0x1000_0000;
  }

  /** One byte, added at once to the low end and clocked eight times. */
  lemma {:induction false} Register32Step(data: seq<byte>, i: nat)
    requires i < |data|
    ensures Register32(data[..i + 1])
         == Shifts(AddFront(Register32(data[..i]), LsbFirst(data[i], 8)), POLY32, 8)
  {
    assert data[..i + 1] == data[..i] + [data[i]];
    LsbBitsConcat(data[..i], [data[i]]);
    assert LsbBits([data[i]]) == LsbFirst(data[i], 8);
    FeedConcat(Ones(32), POLY32, LsbBits(data[..i]), LsbFirst(data[i], 8));
    FeedAtOnce(Register32(data[..i]), POLY32, LsbFirst(data[i], 8));
  }

  /** `(crc >> 1) ^ (poly & -(crc & 1))`, the bit that leaves selecting the polynomial as a mask. */
  function MaskedShift(crc: Word, poly: Word): (r: Word)
    requires |crc| == |poly| > 0
    ensures |r| == |crc|
  {
    Xor(crc[1..] + [false], And(poly, if crc[0] then Ones(|poly|) else Zeros(|poly|)))
  }

  lemma {:induction false} MaskedShiftIsShift(crc: Word, poly: Word)
    requires |crc| == |poly| > 0
    ensures MaskedShift(crc, poly) == Shift(crc, poly)
  {
    assert And(poly, Ones(|poly|)) == poly;
    assert Xor(crc[1..] + [false], And(poly, Zeros(|poly|))) == crc[1..] + [false];
  }

  /** The inner loop of `computeCRC32`. */
  method ClockByte(reg: Word, bits: Word, poly: Word) returns (crc: Word)
    requires |reg| == |poly| > 8 == |bits|
    ensures crc == Shifts(AddFront(reg, bits), poly, 8)
  {
    crc := AddFront(reg, bits);
    for j := 0 to 8
      invariant |crc| == |poly| && Shifts(crc, poly, 8 - j) == Shifts(AddFront(reg, bits), poly, 8)
    {
      MaskedShiftIsShift(crc, poly);
      crc := MaskedShift(crc, poly);
    }
  }

  /** `computeCRC32`. */
  method ComputeCrc32(data: seq<byte>) returns (crc: Word)
    ensures crc == Crc32(data)
  {
    crc := Ones(32);
    for i := 0 to |data|
      invariant |crc| == 32 && crc == Register32(data[..i])
    {
      Register32Step(data, i);
      crc := ClockByte(crc, LsbFirst(data[i], 8), POLY32);
    }
    assert data[..|data|] == data;
    crc := Complement(crc);
  }

  /** Two messages that differ in four bytes standing together have different CRC-32s. */
  lemma {:induction false} WordChangeDetected(before: seq<byte>, w: seq<byte>, w': seq<byte>, after: seq<byte>)
    requires |w| == |w'| == 4 && w != w'
    ensures Crc32(before + w + after) != Crc32(before + w' + after)
  {
    var x, x' := LsbBits(before + w + after), LsbBits(before + w' + after);
    var e := Xor(x, x');
    assert Xor(x, e) == x';
    DifferenceIsBurst(before, w, w', after);
    Poly32IsGenerator();
    BurstDetected(Ones(32), POLY32, x, e, 8 * |before|);
    var r, r' := Register32(before + w + after), Register32(before + w' + after);
    ComplementInjective(r, r');
  }

  lemma {:induction false} ComplementInjective(r: Word, r': Word)
    requires |r| == |r'|
    ensures Complement(r) == Complement(r') <==> r == r'
  {
    forall i | 0 <= i < |r| && Complement(r) == Complement(r') ensures r[i] == r'[i] {
      assert Complement(r)[i] == Complement(r')[i];
    }
  }

  lemma {:induction false} DifferenceIsBurst(before: seq<byte>, w: seq<byte>, w': seq<byte>, after: seq<byte>)
    requires |w| == |w'| == 4 && w != w'
    ensures Burst(Xor(LsbBits(before + w + after), LsbBits(before + w' + after)), 8 * |before|, 32)
  {
    LsbBitsConcat(before + w, after);
    LsbBitsConcat(before, w);
    LsbBitsConcat(before + w', after);
    LsbBitsConcat(before, w');
    LsbBitsInjective(w, w');
    BurstBetween(LsbBits(before), LsbBits(w), LsbBits(w'), LsbBits(after));
  }

  lemma {:induction false} BurstBetween(p: Word, b: Word, b': Word, q: Word)
    requires |b| == |b'| && b != b'
    ensures Burst(Xor(p + b + q, p + b' + q), |p|, |b|)
  {
    var k :| 0 <= k < |b| && b[k] != b'[k];
    var e := Xor(p + b + q, p + b' + q);
    assert e[|p| + k];
  }

  // ---------------------------------------------------------------- the table

  datatype Entry = Entry(id: u32, value: u32)

  /** The bytes of `CrcPayload buf[n]`. */
  function Image(t: seq<Entry>): seq<byte> {
    if t == [] then [] else Le32(t[0].id) + Le32(t[0].value) + Image(t[1..])
  }

  function Checksum(t: seq<Entry>): (r: Word)
    ensures |r| == 32
  {
    if t == [] then Zeros(32) else Crc32(Image(t))
  }

  lemma {:induction false} ImageConcat(a: seq<Entry>, b: seq<Entry>)
    ensures Image(a + b) == Image(a) + Image(b)
  {
    if a == [] {
      assert a + b == b;
    } else {
      assert (a + b)[1..] == a[1..] + b;
      ImageConcat(a[1..], b);
    }
  }

  lemma {:induction false} ImageAround(t: seq<Entry>, i: nat, e: Entry)
    requires i < |t|
    ensures Image(t[i := e]) == Image(t[..i]) + (Le32(e.id) + Le32(e.value)) + Image(t[i + 1..])
  {
    assert t[i := e] == t[..i] + [e] + t[i + 1..];
    ImageConcat(t[..i] + [e], t[i + 1..]);
    ImageConcat(t[..i], [e]);
    assert Image([e]) == Le32(e.id) + Le32(e.value) + [];
  }

  /**
   Corruption detection, for a table of any size: a change of one stored value, or of one
   stored id, changes the checksum.
   */
  lemma {:induction false} CorruptionChangesChecksum(t: seq<Entry>, i: nat, e: Entry)
    requires i < |t|
    requires (e.id == t[i].id) != (e.value == t[i].value)
    ensures Checksum(t[i := e]) != Checksum(t)
  {
    var before, after := Image(t[..i]), Image(t[i + 1..]);
    ImageAround(t, i, e);
    ImageAround(t, i, t[i]);
    assert t[i := t[i]] == t;
    Le32Injective(e.id, t[i].id);
    Le32Injective(e.value, t[i].value);
    if e.id == t[i].id {
      var before' := before + Le32(e.id);
      Regroup(before, Le32(e.id), Le32(e.value), after);
      Regroup(before, Le32(e.id), Le32(t[i].value), after);
      WordChangeDetected(before', Le32(e.value), Le32(t[i].value), after);
    } else {
      var after' := Le32(e.value) + after;
      Regroup(before, Le32(e.id), Le32(e.value), after);
      Regroup(before, Le32(t[i].id), Le32(e.value), after);
      WordChangeDetected(before, Le32(e.id), Le32(t[i].id), after');
    }
  }

  lemma {:induction false} Regroup(a: seq<byte>, b: seq<byte>, c: seq<byte>, d: seq<byte>)
    ensures a + (b + c) + d == (a + b) + c + d == a + b + (c + d)
  {
  }

  // ---------------------------------------------------------------- the table as a map

  ghost predicate DistinctIds(t: seq<Entry>) {
    forall i, j :: 0 <= i < j < |t| ==> t[i].id != t[j].id
  }

  ghost predicate Absent(t: seq<Entry>, id: u32) {
    forall i :: 0 <= i < |t| ==> t[i].id != id
  }

  function AsMap(t: seq<Entry>): map<u32, u32> {
    if t == [] then map[]
    else
      var last := t[|t| - 1];
      AsMap(t[..|t| - 1])[last.id := last.value]
  }

  lemma {:induction false} MapOfAbsent(t: seq<Entry>, id: u32)
    ensures id !in AsMap(t) <==> Absent(t, id)
    decreases |t|
  {
    if t != [] {
      MapOfAbsent(t[..|t| - 1], id);
    }
  }

  lemma {:induction false} MapOfEntry(t: seq<Entry>, i: nat)
    requires DistinctIds(t) && i < |t|
    ensures t[i].id in AsMap(t) && AsMap(t)[t[i].id] == t[i].value
    decreases |t|
  {
    if i < |t| - 1 {
      MapOfEntry(t[..|t| - 1], i);
    }
  }

  lemma {:induction false} MapOfAssign(t: seq<Entry>, i: nat, v: u32)
    requires DistinctIds(t) && i < |t|
    ensures AsMap(t[i := t[i].(value := v)]) == AsMap(t)[t[i].id := v]
    decreases |t|
  {
    var t' := t[i := t[i].(value := v)];
    var n := |t| - 1;
    if i == n {
      assert t'[..n] == t[..n];
    } else {
      assert t'[..n] == t[..n][i := t[i].(value := v)];
      MapOfAssign(t[..n], i, v);
    }
  }

  lemma {:induction false} MapOfInsert(t: seq<Entry>, e: Entry)
    ensures AsMap(t + [e]) == AsMap(t)[e.id := e.value]
  {
    assert (t + [e])[..|t|] == t;
  }

  lemma {:induction false} MapSize(t: seq<Entry>)
    requires DistinctIds(t)
    ensures |AsMap(t)| == |t|
    decreases |t|
  {
    if t != [] {
      var init := t[..|t| - 1];
      MapSize(init);
      MapOfAbsent(init, t[|t| - 1].id);
    }
  }

  // ---------------------------------------------------------------- the object

  class Table {
    const params: array<Entry>
    var count: nat
    var expectedCrc: Word

    ghost predicate Valid()
      reads this, params
    {
      && params.Length == MAX_PARAMS && count <= MAX_PARAMS
      && DistinctIds(params[..count]) && expectedCrc == Checksum(params[..count])
    }

    ghost function Stored(): map<u32, u32>
      reads this, params
      requires Valid()
    {
      AsMap(params[..count])
    }

    constructor ()
      ensures Valid() && fresh(params) && Stored() == map[]
    {
      params := new Entry[MAX_PARAMS](i => Entry(0, 0));
      count, expectedCrc := 0, Zeros(32);
    }

    method Find(id: u32) returns (i: nat)
      requires Valid()
      ensures i <= count
      ensures i < count ==> params[i].id == id && id in Stored() && Stored()[id] == params[i].value
      ensures i == count <==> id !in Stored()
    {
      i := 0;
      while i < count
        invariant i <= count && Absent(params[..i], id)
      {
        if params[i].id == id {
          MapOfEntry(params[..count], i);
          return;
        }
        i := i + 1;
      }
      MapOfAbsent(params[..count], id);
    }

    method UpdateChecksum()
      requires params.Length == MAX_PARAMS && count <= MAX_PARAMS
      modifies `expectedCrc
      ensures expectedCrc == Checksum(params[..count])
    {
      expectedCrc := CalculateCurrentChecksum();
    }

    method CalculateCurrentChecksum() returns (crc: Word)
      requires params.Length == MAX_PARAMS && count <= MAX_PARAMS
      ensures crc == Checksum(params[..count])
    {
      if count == 0 {
        return Zeros(32);
      }
      var buf: seq<byte> := [];
      for i := 0 to count
        invariant buf == Image(params[..i])
      {
        assert params[..i + 1] == params[..i] + [params[i]];
        ImageConcat(params[..i], [params[i]]);
        assert Image([params[i]]) == Le32(params[i].id) + Le32(params[i].value) + [];
        buf := buf + (Le32(params[i].id) + Le32(params[i].value));
      }
      crc := ComputeCrc32(buf);
    }

    method Insert(id: u32, v: u32)
      requires Valid() && id !in Stored() && count < MAX_PARAMS
      modifies this, params
      ensures Valid() && Stored() == old(Stored())[id := v]
    {
      MapOfAbsent(params[..count], id);
      MapOfInsert(params[..count], Entry(id, v));
      ghost var before := params[..count];
      params[count] := Entry(id, v);
      count := count + 1;
      assert params[..count] == before + [Entry(id, v)];
      UpdateChecksum();
    }

    method Assign(i: nat, v: u32)
      requires Valid() && i < count
      modifies this, params
      ensures Valid() && Stored() == old(Stored())[old(params[i].id) := v]
    {
      MapOfAssign(params[..count], i, v);
      ghost var before := params[..count];
      params[i] := params[i].(value := v);
      assert params[..count] == before[i := before[i].(value := v)];
      UpdateChecksum();
    }

    method GetParam(id: u32, default: u32) returns (v: u32)
      requires Valid()
      modifies this, params
      ensures Valid()
      ensures v == if id in old(Stored()) then old(Stored())[id] else default
      ensures Stored() == if id !in old(Stored()) && |old(Stored())| < MAX_PARAMS
                          then old(Stored())[id := default] else old(Stored())
    {
      MapSize(params[..count]);
      var i := Find(id);
      if i < count {
        return params[i].value;
      }
      if count < MAX_PARAMS {
        Insert(id, default);
      }
      v := default;
    }

    method SetParam(id: u32, v: u32)
      requires Valid()
      modifies this, params
      ensures Valid()
      ensures Stored() == if id in old(Stored()) || |old(Stored())| < MAX_PARAMS
                          then old(Stored())[id := v] else old(Stored())
    {
      MapSize(params[..count]);
      var i := Find(id);
      if i < count {
        Assign(i, v);
      } else if count < MAX_PARAMS {
        Insert(id, v);
      }
    }

    /** Succeeds whenever the table is as its own operations left it. */
    method VerifyIntegrity() returns (ok: bool)
      requires params.Length == MAX_PARAMS && count <= MAX_PARAMS
      ensures ok == (Checksum(params[..count]) == expectedCrc)
      ensures Valid() ==> ok
    {
      var crc := CalculateCurrentChecksum();
      ok := crc == expectedCrc;
    }
  }

  /** After a change from outside, confined to one value or one id, the check fails. */
  method VerifyAfterCorruption(db: Table, i: nat, e: Entry) returns (ok: bool)
    requires db.Valid() && i < db.count
    requires (e.id == db.params[i].id) != (e.value == db.params[i].value)
    modifies db.params
    ensures !ok
  {
    ghost var before := db.params[..db.count];
    db.params[i] := e;
    assert db.params[..db.count] == before[i := e];
    CorruptionChangesChecksum(before, i, e);
    ok := db.VerifyIntegrity();
  }
}
