/**
 Fixed-width machine words, their little-endian bytes, and the bits of a byte in the
 two reading orders the codes use.
 */
module Words {
  import opened Lfsr

  type byte = x: int | 0 <= x < 0x100
  type u16 = x: int | 0 <= x < 0x1_0000
  type u32 = x: int | 0 <= x < 0x1_0000_0000

  const TWO16 := 0x1_0000
  const TWO32 := 0x1_0000_0000

  /** A 32-bit counter wraps. */
  function Bump(x: u32): u32 {
    (x + 1) % TWO32
  }

  lemma {:induction false} CounterAdd(a: u32, x: nat, y: nat)
    ensures ((a + x) % TWO32 + y) % TWO32 == (a + (x + y)) % TWO32
  {
  }

  function Le16(x: u16): (r: seq<byte>)
    ensures |r| == 2
  {
    [x % 0x100, x / 0x100]
  }

  function FromLe16(b: seq<byte>): (x: u16)
    requires |b| == 2
  {
    b[0] as int + 0x100 * b[1] as int
  }

  lemma {:induction false} Le16RoundTrip(x: u16)
    ensures FromLe16(Le16(x)) == x
  {
  }

  lemma {:induction false} FromLe16RoundTrip(b: seq<byte>)
    requires |b| == 2
    ensures Le16(FromLe16(b)) == b
  {
  }

  function Le32(x: u32): (r: seq<byte>)
    ensures |r| == 4
  {
    Le16(x % TWO16) + Le16(x / TWO16)
  }

  function FromLe32(b: seq<byte>): (x: u32)
    requires |b| == 4
  {
    FromLe16(b[..2]) as int + TWO16 * FromLe16(b[2..]) as int
  }

  lemma {:induction false} Le32RoundTrip(x: u32)
    ensures FromLe32(Le32(x)) == x
  {
    assert Le32(x)[..2] == Le16(x % TWO16) && Le32(x)[2..] == Le16(x / TWO16);
    Le16RoundTrip(x % TWO16);
    Le16RoundTrip(x / TWO16);
  }

  lemma {:induction false} FromLe32RoundTrip(b: seq<byte>)
    requires |b| == 4
    ensures Le32(FromLe32(b)) == b
  {
    var low, high := FromLe16(b[..2]), FromLe16(b[2..]);
    HalvesOf(low, high);
    FromLe16RoundTrip(b[..2]);
    FromLe16RoundTrip(b[2..]);
    assert b == b[..2] + b[2..];
  }

  lemma {:induction false} HalvesOf(low: u16, high: u16)
    ensures (low + TWO16 * high) % TWO16 == low && (low + TWO16 * high) / TWO16 == high
  {
  }

  lemma {:induction false} Le32Injective(x: u32, y: u32)
    ensures Le32(x) == Le32(y) <==> x == y
  {
    Le32RoundTrip(x);
    Le32RoundTrip(y);
  }

  function Pow2(k: nat): (p: nat)
    ensures p > 0
  {
    if k == 0 then 1 else 2 * Pow2(k - 1)
  }

  /** The `k` low bits of `x`, most significant first: the order in which CRC-16 consumes a byte. */
  function MsbFirst(x: nat, k: nat): (r: Word)
    ensures |r| == k
    decreases k
  {
    if k == 0 then [] else MsbFirst(x / 2, k - 1) + [x % 2 == 1]
  }

  function FromMsbFirst(r: Word): (x: nat)
    ensures x < Pow2(|r|) && MsbFirst(x, |r|) == r
  {
    if r == [] then 0
    else
      var init := r[..|r| - 1];
      assert r == init + [r[|r| - 1]];
      2 * FromMsbFirst(init) + if r[|r| - 1] then 1 else 0
  }

  /** The `k` low bits of `x`, least significant first: the order of the reflected CRC-32. */
  function LsbFirst(x: nat, k: nat): (r: Word)
    ensures |r| == k
    decreases k
  {
    if k == 0 then [] else [x % 2 == 1] + LsbFirst(x / 2, k - 1)
  }

  lemma {:induction false} LsbFirstInjective(x: nat, y: nat, k: nat)
    requires x < Pow2(k) && y < Pow2(k) && LsbFirst(x, k) == LsbFirst(y, k)
    ensures x == y
    decreases k
  {
    if k > 0 {
      assert LsbFirst(x, k)[1..] == LsbFirst(x / 2, k - 1);
      assert LsbFirst(y, k)[1..] == LsbFirst(y / 2, k - 1);
      assert LsbFirst(x, k)[0] == LsbFirst(y, k)[0];
      LsbFirstInjective(x / 2, y / 2, k - 1);
    }
  }

  lemma {:induction false} Pow8()
    ensures Pow2(8) == 0x100
  {
    assert Pow2(4) == 16;
  }

  function ByteOf(r: Word): (b: byte)
    requires |r| == 8
    ensures MsbFirst(b, 8) == r
  {
    Pow8();
    FromMsbFirst(r)
  }

  function MsbBits(s: seq<byte>): (r: Word)
    ensures |r| == 8 * |s|
  {
    if s == [] then [] else MsbFirst(s[0], 8) + MsbBits(s[1..])
  }

  function LsbBits(s: seq<byte>): (r: Word)
    ensures |r| == 8 * |s|
  {
    if s == [] then [] else LsbFirst(s[0], 8) + LsbBits(s[1..])
  }

  lemma {:induction false} MsbBitsConcat(a: seq<byte>, b: seq<byte>)
    ensures MsbBits(a + b) == MsbBits(a) + MsbBits(b)
  {
    if a == [] {
      assert a + b == b;
    } else {
      assert (a + b)[1..] == a[1..] + b;
      MsbBitsConcat(a[1..], b);
    }
  }

  lemma {:induction false} LsbBitsConcat(a: seq<byte>, b: seq<byte>)
    ensures LsbBits(a + b) == LsbBits(a) + LsbBits(b)
  {
    if a == [] {
      assert a + b == b;
    } else {
      assert (a + b)[1..] == a[1..] + b;
      LsbBitsConcat(a[1..], b);
    }
  }

  lemma {:induction false} LsbBitsInjective(a: seq<byte>, b: seq<byte>)
    requires |a| == |b|
    ensures LsbBits(a) == LsbBits(b) <==> a == b
  {
    if a != [] && LsbBits(a) == LsbBits(b) {
      assert LsbBits(a)[..8] == LsbFirst(a[0], 8) && LsbBits(b)[..8] == LsbFirst(b[0], 8);
      assert LsbBits(a)[8..] == LsbBits(a[1..]) && LsbBits(b)[8..] == LsbBits(b[1..]);
      Pow8();
      LsbFirstInjective(a[0], b[0], 8);
      LsbBitsInjective(a[1..], b[1..]);
    }
  }
}
