/**
 The shift register behind every cyclic code of the system, for any width.

 A register is a sequence of bits; element 0 is the bit that leaves the register
 next. Read most significant bit first it is the CRC-16 of `Serializer`; read least
 significant bit first it is the reflected CRC-32 of `ParamDb`. All that the error
 detection theorems need of the generator polynomial is that its last bit is set.
 */
module Lfsr {

  type Word = seq<bool>

  function Xor(a: Word, b: Word): (r: Word)
    requires |a| == |b|
    ensures |r| == |a|
    ensures forall i :: 0 <= i < |r| ==> r[i] == (a[i] != b[i])
  {
    seq(|a|, i requires 0 <= i < |a| => a[i] != b[i])
  }

  function Zeros(n: nat): (r: Word)
    ensures |r| == n && forall i :: 0 <= i < n ==> !r[i]
  {
    seq(n, i => false)
  }

  function Ones(n: nat): (r: Word)
    ensures |r| == n && forall i :: 0 <= i < n ==> r[i]
  {
    seq(n, i => true)
  }

  lemma {:induction false} XorUnchanged(a: Word, d: Word)
    requires |a| == |d| && Xor(a, d) == a
    ensures d == Zeros(|d|)
  {
    forall i | 0 <= i < |d| ensures !d[i] {
      assert a[i] == (a[i] != d[i]);
    }
  }

  ghost predicate Generator(poly: Word) {
    |poly| > 0 && poly[|poly| - 1]
  }

  /** One clock: the register moves by one bit, and the bit that leaves selects the polynomial. */
  function Shift(r: Word, poly: Word): (s: Word)
    requires |r| == |poly| > 0
    ensures |s| == |r|
  {
    var moved := r[1..] + [false];
    if r[0] then Xor(moved, poly) else moved
  }

  function Shifts(r: Word, poly: Word, k: nat): (s: Word)
    requires |r| == |poly| > 0
    ensures |s| == |r|
    decreases k
  {
    if k == 0 then r else Shifts(Shift(r, poly), poly, k - 1)
  }

  /** Feeding bits: each is added to the bit about to leave, then the register is clocked. */
  function Feed(r: Word, poly: Word, bits: Word): (s: Word)
    requires |r| == |poly| > 0
    ensures |s| == |r|
    decreases |bits|
  {
    if bits == [] then r
    else Feed(Shift(r[0 := r[0] != bits[0]], poly), poly, bits[1..])
  }

  /** Adds bits to the front of a register, the way a whole byte is added at once. */
  function AddFront(r: Word, bits: Word): (s: Word)
    requires |bits| <= |r|
    ensures |s| == |r|
  {
    Xor(r, bits + Zeros(|r| - |bits|))
  }

  lemma {:induction false} FeedConcat(r: Word, poly: Word, a: Word, b: Word)
    requires |r| == |poly| > 0
    ensures Feed(r, poly, a + b) == Feed(Feed(r, poly, a), poly, b)
    decreases |a|
  {
    if a == [] {
      assert a + b == b;
    } else {
      assert (a + b)[1..] == a[1..] + b;
      FeedConcat(Shift(r[0 := r[0] != a[0]], poly), poly, a[1..], b);
    }
  }

  lemma {:induction false} ShiftsConcat(r: Word, poly: Word, j: nat, k: nat)
    requires |r| == |poly| > 0
    ensures Shifts(r, poly, j + k) == Shifts(Shifts(r, poly, j), poly, k)
    decreases j
  {
    if j > 0 {
      ShiftsConcat(Shift(r, poly), poly, j - 1, k);
    }
  }

  lemma {:induction false} ShiftLinear(r: Word, s: Word, poly: Word)
    requires |r| == |s| == |poly| > 0
    ensures Shift(Xor(r, s), poly) == Xor(Shift(r, poly), Shift(s, poly))
  {
    var left, right := Shift(Xor(r, s), poly), Xor(Shift(r, poly), Shift(s, poly));
    forall i | 0 <= i < |r| ensures left[i] == right[i] {
      if i + 1 < |r| {
        assert Xor(r, s)[i + 1] == (r[i + 1] != s[i + 1]);
      }
    }
  }

  lemma {:induction false} FeedLinear(r: Word, s: Word, poly: Word, a: Word, b: Word)
    requires |r| == |s| == |poly| > 0 && |a| == |b|
    ensures Feed(Xor(r, s), poly, Xor(a, b)) == Xor(Feed(r, poly, a), Feed(s, poly, b))
    decreases |a|
  {
    if a != [] {
      var r', s' := r[0 := r[0] != a[0]], s[0 := s[0] != b[0]];
      assert Xor(r, s)[0 := Xor(r, s)[0] != Xor(a, b)[0]] == Xor(r', s');
      assert Xor(a, b)[1..] == Xor(a[1..], b[1..]);
      ShiftLinear(r', s', poly);
      FeedLinear(Shift(r', poly), Shift(s', poly), poly, a[1..], b[1..]);
    }
  }

  /** Clocking loses nothing: only the empty register clocks to the empty register. */
  lemma {:induction false} ShiftInjective(r: Word, poly: Word)
    requires |r| == |poly| && Generator(poly)
    ensures Shift(r, poly) == Zeros(|r|) <==> r == Zeros(|r|)
  {
    var s, n := Shift(r, poly), |r|;
    if r == Zeros(n) {
      assert s == Zeros(n);
    }
    if s == Zeros(n) {
      assert !s[n - 1];
      assert !r[0];
      forall i | 0 < i < n ensures !r[i] {
        assert s[i - 1] == r[i];
      }
      assert r == Zeros(n);
    }
  }

  lemma {:induction false} ShiftsInjective(r: Word, poly: Word, k: nat)
    requires |r| == |poly| && Generator(poly)
    ensures Shifts(r, poly, k) == Zeros(|r|) <==> r == Zeros(|r|)
    decreases k
  {
    if k > 0 {
      ShiftInjective(r, poly);
      ShiftsInjective(Shift(r, poly), poly, k - 1);
    }
  }

  lemma {:induction false} FeedZeros(r: Word, poly: Word, k: nat)
    requires |r| == |poly| > 0
    ensures Feed(r, poly, Zeros(k)) == Shifts(r, poly, k)
    decreases k
  {
    if k > 0 {
      assert Zeros(k)[1..] == Zeros(k - 1);
      assert r[0 := r[0] != Zeros(k)[0]] == r;
      FeedZeros(Shift(r, poly), poly, k - 1);
    }
  }

  /** Adding a whole byte (or word) at once and clocking is feeding it bit by bit. */
  lemma {:induction false} FeedAtOnce(r: Word, poly: Word, bits: Word)
    requires |r| == |poly| > 0 && |bits| <= |r|
    ensures Feed(r, poly, bits) == Shifts(AddFront(r, bits), poly, |bits|)
    decreases |bits|
  {
    if bits == [] {
      assert AddFront(r, bits) == r;
    } else {
      var n, rest := |r|, bits[1..];
      var first := r[0 := r[0] != bits[0]];
      var tail := [false] + rest + Zeros(n - |bits|);
      assert AddFront(r, bits) == Xor(first, tail);
      ShiftLinear(first, tail, poly);
      assert Shift(tail, poly) == rest + Zeros(n - |rest|);
      assert Shift(AddFront(r, bits), poly) == AddFront(Shift(first, poly), rest);
      FeedAtOnce(Shift(first, poly), poly, rest);
    }
  }

  /** Some bit of `e` is set, and all set bits lie in the `width` positions from `lo` on. */
  ghost predicate Burst(e: Word, lo: nat, width: nat) {
    && (exists i :: 0 <= i < |e| && e[i])
    && (forall i :: 0 <= i < |e| && e[i] ==> lo <= i < lo + width)
  }

  lemma {:induction false} SplitWindow(e: Word, lo: nat, width: nat) returns (window: Word, after: nat)
    requires Burst(e, lo, width)
    ensures |window| <= width && exists i :: 0 <= i < |window| && window[i]
    ensures e == Zeros(lo) + window + Zeros(after)
  {
    var hi := if lo + width <= |e| then lo + width else |e|;
    var k :| 0 <= k < |e| && e[k];
    window, after := e[lo..hi], |e| - hi;
    assert window[k - lo];
  }

  /** A burst no longer than the register, fed into an empty register, leaves it non-empty. */
  lemma {:induction false} BurstLeavesTrace(poly: Word, e: Word, lo: nat)
    requires Generator(poly)
    requires Burst(e, lo, |poly|)
    ensures Feed(Zeros(|poly|), poly, e) != Zeros(|poly|)
  {
    var n := |poly|;
    var window, after := SplitWindow(e, lo, n);
    var k :| 0 <= k < |window| && window[k];
    FeedConcat(Zeros(n), poly, Zeros(lo) + window, Zeros(after));
    FeedConcat(Zeros(n), poly, Zeros(lo), window);
    FeedZeros(Zeros(n), poly, lo);
    ShiftsInjective(Zeros(n), poly, lo);
    FeedAtOnce(Zeros(n), poly, window);
    var loaded := AddFront(Zeros(n), window);
    assert loaded[k];
    ShiftsInjective(loaded, poly, |window|);
    var mid := Feed(Zeros(n), poly, window);
    FeedZeros(mid, poly, after);
    ShiftsInjective(mid, poly, after);
  }

  /** Two messages that differ by a non-empty burst never leave equal registers. */
  lemma {:induction false} BurstDetected(r: Word, poly: Word, x: Word, e: Word, lo: nat)
    requires |r| == |poly| && Generator(poly) && |x| == |e|
    requires Burst(e, lo, |poly|)
    ensures Feed(r, poly, Xor(x, e)) != Feed(r, poly, x)
  {
    var n := |poly|;
    assert Xor(r, Zeros(n)) == r;
    FeedLinear(r, Zeros(n), poly, x, e);
    BurstLeavesTrace(poly, e, lo);
    if Feed(r, poly, Xor(x, e)) == Feed(r, poly, x) {
      XorUnchanged(Feed(r, poly, x), Feed(Zeros(n), poly, e));
      assert false;
    }
  }

  /** A register fed with a word of its own width empties exactly when the two are equal. */
  lemma {:induction false} ResidueZeroIffEqual(r: Word, poly: Word, c: Word)
    requires |r| == |c| == |poly| && Generator(poly)
    ensures Feed(r, poly, c) == Zeros(|poly|) <==> r == c
  {
    FeedAtOnce(r, poly, c);
    var sum := AddFront(r, c);
    assert c + Zeros(0) == c;
    ShiftsInjective(sum, poly, |c|);
    if sum == Zeros(|poly|) {
      forall i | 0 <= i < |r| ensures r[i] == c[i] {
        assert sum[i] == (r[i] != c[i]);
      }
    }
  }
}
