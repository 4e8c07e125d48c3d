/**
 The rate-group executive: `src/RateGroupExecutive.hpp`. Components are names; whether one owns
 a thread is a fixed table. Clock readings are inputs.
 */
module RateGroup {
  import opened Wrappers
  import opened Words
  import opened Counting

  const RGE_MAX_PER_TIER := 32
  const RGE_MAX_ACTIVE := 16

  type Name = nat

  // ---------------------------------------------------------------- registration

  datatype Tiers = Tiers(fast: seq<Name>, norm: seq<Name>, slow: seq<Name>, active: seq<Name>)

  datatype Place = Fast | Norm | Slow | Active

  function Tier(t: Tiers, p: Place): seq<Name> {
    match p
    case Fast => t.fast
    case Norm => t.norm
    case Slow => t.slow
    case Active => t.active
  }

  function Room(p: Place): nat {
    if p.Active? then RGE_MAX_ACTIVE else RGE_MAX_PER_TIER
  }

  function Put(t: Tiers, p: Place, c: Name): Tiers {
    match p
    case Fast => t.(fast := t.fast + [c])
    case Norm => t.(norm := t.norm + [c])
    case Slow => t.(slow := t.slow + [c])
    case Active => t.(active := t.active + [c])
  }

  /** How often `c` occurs in a list. */
  function Times(list: seq<Name>, c: Name): nat {
    if list == [] then 0 else Times(list[..|list| - 1], c) + One(list[|list| - 1] == c)
  }

  lemma {:induction false} TimesAppend(list: seq<Name>, x: Name, c: Name)
    ensures Times(list + [x], c) == Times(list, c) + One(x == c)
  {
    assert (list + [x])[..|list|] == list;
  }

  lemma {:induction false} TimesConcat(a: seq<Name>, b: seq<Name>, c: Name)
    ensures Times(a + b, c) == Times(a, c) + Times(b, c)
  {
    if b == [] {
      assert a + b == a;
    } else {
      assert (a + b)[..|a + b| - 1] == a + b[..|b| - 1];
      TimesConcat(a, b[..|b| - 1], c);
    }
  }

  lemma {:induction false} OccursIff(list: seq<Name>, c: Name)
    ensures c in list <==> Times(list, c) > 0
  {
    if list != [] {
      var n := |list| - 1;
      OccursIff(list[..n], c);
      assert list == list[..n] + [list[n]];
    }
  }

  /** In how many places `c` is registered. */
  function Places(t: Tiers, c: Name): nat {
    Times(t.fast, c) + Times(t.norm, c) + Times(t.slow, c) + Times(t.active, c)
  }

  predicate IsIn(t: Tiers, c: Name) {
    c in t.fast || c in t.norm || c in t.slow || c in t.active
  }

  lemma {:induction false} IsInIff(t: Tiers, c: Name)
    ensures IsIn(t, c) <==> Places(t, c) > 0
  {
    OccursIff(t.fast, c);
    OccursIff(t.norm, c);
    OccursIff(t.slow, c);
    OccursIff(t.active, c);
  }

  /** A component goes in once, if there is room; the null component never does. */
  function Registered(t: Tiers, p: Place, c: Option<Name>): Tiers {
    if c.None? || IsIn(t, c.value) || |Tier(t, p)| >= Room(p) then t else Put(t, p, c.value)
  }

  /** No component is in two places, nor twice in one. */
  ghost predicate PlacedOnce(t: Tiers) {
    forall c :: Places(t, c) <= 1
  }

  lemma {:induction false} RegisteredOnce(t: Tiers, p: Place, c: Option<Name>)
    requires PlacedOnce(t)
    ensures PlacedOnce(Registered(t, p, c))
    ensures forall x: Name :: IsIn(Registered(t, p, c), x) <==> IsIn(t, x) || (Some(x) == c && Registered(t, p, c) != t)
  {
    var r := Registered(t, p, c);
    if r != t {
      forall x: Name
        ensures Places(r, x) <= 1
      {
        assert Places(t, x) <= 1;
        TimesAppend(Tier(t, p), c.value, x);
        IsInIff(t, c.value);
      }
    }
  }

  // ---------------------------------------------------------------- the cooperative schedule

  /** `RateTier::tick`: the components of a tier that have no thread of their own, in order. */
  function Tick(owns: Name -> bool, tier: seq<Name>): seq<Name> {
    if tier == [] then []
    else Tick(owns, tier[..|tier| - 1]) + if owns(tier[|tier| - 1]) then [] else [tier[|tier| - 1]]
  }

  /** The steps of iteration `k`, counted from one. */
  function Iteration(owns: Name -> bool, t: Tiers, k: nat): seq<Name> {
    Tick(owns, t.fast)
    + (if k % 10 == 0 then Tick(owns, t.norm) + t.active else [])
    + (if k % 100 == 0 then Tick(owns, t.slow) else [])
  }

  /** Every step of the first `n` iterations, in order. */
  function Steps(owns: Name -> bool, t: Tiers, n: nat): seq<Name> {
    if n == 0 then [] else Steps(owns, t, n - 1) + Iteration(owns, t, n)
  }

  lemma {:induction false} TickTimes(owns: Name -> bool, tier: seq<Name>, c: Name)
    ensures Times(Tick(owns, tier), c) == if owns(c) then 0 else Times(tier, c)
  {
    if tier != [] {
      var n := |tier| - 1;
      TickTimes(owns, tier[..n], c);
      TimesAppend(Tick(owns, tier[..n]), tier[n], c);
      assert Tick(owns, tier[..n]) + [] == Tick(owns, tier[..n]);
    }
  }

  lemma {:induction false} IterationTimes(owns: Name -> bool, t: Tiers, k: nat, c: Name)
    ensures Times(Iteration(owns, t, k), c)
      == (if owns(c) then 0 else Times(t.fast, c))
         + (if k % 10 == 0 then (if owns(c) then 0 else Times(t.norm, c)) + Times(t.active, c) else 0)
         + (if k % 100 == 0 && !owns(c) then Times(t.slow, c) else 0)
  {
    TickTimes(owns, t.fast, c);
    TickTimes(owns, t.norm, c);
    TickTimes(owns, t.slow, c);
    TimesConcat(Tick(owns, t.norm), t.active, c);
    var norm := if k % 10 == 0 then Tick(owns, t.norm) + t.active else [];
    var slow := if k % 100 == 0 then Tick(owns, t.slow) else [];
    TimesConcat(Tick(owns, t.fast), norm, c);
    TimesConcat(Tick(owns, t.fast) + norm, slow, c);
  }

  /** How many steps a component takes in `fast`, `norm` or `slow` ticks of its place. */
  function ByPlace(owns: Name -> bool, t: Tiers, c: Name, fast: nat, norm: nat, slow: nat): nat {
    if c in t.fast then (if owns(c) then 0 else fast)
    else if c in t.norm then (if owns(c) then 0 else norm)
    else if c in t.slow then (if owns(c) then 0 else slow)
    else if c in t.active then norm
    else 0
  }

  lemma {:induction false} IterationByPlace(owns: Name -> bool, t: Tiers, k: nat, c: Name)
    requires PlacedOnce(t)
    ensures Times(Iteration(owns, t, k), c) == ByPlace(owns, t, c, 1, One(k % 10 == 0), One(k % 100 == 0))
  {
    IterationTimes(owns, t, k, c);
    OccursIff(t.fast, c);
    OccursIff(t.norm, c);
    OccursIff(t.slow, c);
    OccursIff(t.active, c);
    assert Places(t, c) <= 1;
  }

  /** How many of the turns 1 to `n` are multiples of ten, */
  function Tens(n: nat): nat {
    if n == 0 then 0 else Tens(n - 1) + One(n % 10 == 0)
  }

  /** and of a hundred. */
  function Cents(n: nat): nat {
    if n == 0 then 0 else Cents(n - 1) + One(n % 100 == 0)
  }

  lemma {:induction false} Tenths(n: nat)
    requires n > 0
    ensures n / 10 == (n - 1) / 10 + One(n % 10 == 0)
    ensures n / 100 == (n - 1) / 100 + One(n % 100 == 0)
  {
  }

  lemma {:induction false} TensCounted(n: nat)
    ensures Tens(n) == n / 10 && Cents(n) == n / 100
  {
    if n > 0 {
      TensCounted(n - 1);
      Tenths(n);
    }
  }

  lemma {:induction false} StepsNext(owns: Name -> bool, t: Tiers, n: nat, c: Name)
    requires PlacedOnce(t) && n > 0
    ensures Times(Steps(owns, t, n), c)
      == Times(Steps(owns, t, n - 1), c) + ByPlace(owns, t, c, 1, One(n % 10 == 0), One(n % 100 == 0))
  {
    IterationByPlace(owns, t, n, c);
    TimesConcat(Steps(owns, t, n - 1), Iteration(owns, t, n), c);
  }

  /** The steps of a component, turn by turn. */
  function StepCount(owns: Name -> bool, t: Tiers, n: nat, c: Name): nat {
    if n == 0 then 0 else StepCount(owns, t, n - 1, c) + ByPlace(owns, t, c, 1, One(n % 10 == 0), One(n % 100 == 0))
  }

  lemma {:induction false} StepsCounted(owns: Name -> bool, t: Tiers, n: nat, c: Name)
    requires PlacedOnce(t)
    ensures Times(Steps(owns, t, n), c) == StepCount(owns, t, n, c)
  {
    if n > 0 {
      StepsCounted(owns, t, n - 1, c);
      StepsNext(owns, t, n, c);
    }
  }

  lemma {:induction false} StepCountByPlace(owns: Name -> bool, t: Tiers, n: nat, c: Name)
    ensures StepCount(owns, t, n, c) == ByPlace(owns, t, c, n, Tens(n), Cents(n))
  {
    if n > 0 {
      StepCountByPlace(owns, t, n - 1, c);
    }
  }

  /**
   In `n` iterations a component without a thread steps n, n/10 or n/100 times, by its tier; one
   with a thread steps n/10 times if it was registered as such, and never if it was put in a tier.
   */
  lemma {:induction false} StepsPerComponent(owns: Name -> bool, t: Tiers, n: nat, c: Name)
    requires PlacedOnce(t)
    ensures Times(Steps(owns, t, n), c) == ByPlace(owns, t, c, n, n / 10, n / 100)
  {
    StepsCounted(owns, t, n, c);
    StepCountByPlace(owns, t, n, c);
    TensCounted(n);
  }

  class Executive {
    const owns: Name -> bool
    var tiers: Tiers
    /** Every component step so far, in order. */
    var log: seq<Name>

    ghost predicate Valid()
      reads this
    {
      && PlacedOnce(tiers)
      && |tiers.fast| <= RGE_MAX_PER_TIER && |tiers.norm| <= RGE_MAX_PER_TIER
      && |tiers.slow| <= RGE_MAX_PER_TIER && |tiers.active| <= RGE_MAX_ACTIVE
    }

    constructor (owns: Name -> bool)
      ensures Valid() && tiers == Tiers([], [], [], []) && log == [] && this.owns == owns
    {
      this.owns := owns;
      tiers, log := Tiers([], [], [], []), [];
    }

    static method Find(list: seq<Name>, c: Name) returns (found: bool)
      ensures found == (c in list)
    {
      for i := 0 to |list|
        invariant c !in list[..i]
      {
        if list[i] == c {
          return true;
        }
      }
      found := false;
    }

    method IsRegistered(c: Name) returns (found: bool)
      ensures found == (IsIn(tiers, c))
    {
      found := Find(tiers.fast, c);
      if !found {
        found := Find(tiers.norm, c);
      }
      if !found {
        found := Find(tiers.slow, c);
      }
      if !found {
        found := Find(tiers.active, c);
      }
    }

    /** `registerFast`, `registerNorm` and `registerSlow`, and the last step of `registerComponent`. */
    method RegisterIn(p: Place, c: Option<Name>)
      requires Valid()
      modifies `tiers
      ensures Valid() && tiers == Registered(old(tiers), p, c)
    {
      RegisteredOnce(tiers, p, c);
      if c.None? {
        return;
      }
      var found := IsRegistered(c.value);
      if found {
        return;
      }
      if |Tier(tiers, p)| < Room(p) {
        tiers := Put(tiers, p, c.value);
      }
    }

    method RegisterComponent(c: Option<Name>)
      requires Valid()
      modifies `tiers
      ensures Valid()
      ensures tiers == Registered(old(tiers), if c.Some? && owns(c.value) then Active else Norm, c)
    {
      if c.None? {
        return;
      }
      RegisterIn(if owns(c.value) then Active else Norm, c);
    }

    method TickTier(tier: seq<Name>)
      modifies `log
      ensures log == old(log) + Tick(owns, tier)
    {
      for i := 0 to |tier|
        invariant log == old(log) + Tick(owns, tier[..i])
      {
        assert tier[..i + 1][..i] == tier[..i];
        if !owns(tier[i]) {
          log := log + [tier[i]];
        }
      }
      assert tier[..|tier|] == tier;
    }

    /** The body of the cooperative loop: what the dividers let through. */
    method Turn(normDivider: nat, slowDivider: nat) returns (normNext: nat, slowNext: nat)
      modifies `log
      ensures normNext == if normDivider + 1 >= 10 then 0 else normDivider + 1
      ensures slowNext == if normNext != 0 then slowDivider else if slowDivider + 1 >= 10 then 0 else slowDivider + 1
      ensures log == old(log) + Tick(owns, tiers.fast)
                + (if normNext == 0 then Tick(owns, tiers.norm) + tiers.active else [])
                + (if normNext == 0 && slowNext == 0 then Tick(owns, tiers.slow) else [])
    {
      ghost var ticked := log + Tick(owns, tiers.fast);
      TickTier(tiers.fast);
      normNext, slowNext := normDivider + 1, slowDivider;
      if normNext >= 10 {
        normNext := 0;
        TickTier(tiers.norm);
        log := log + tiers.active;
        slowNext := slowNext + 1;
        assert log == ticked + (Tick(owns, tiers.norm) + tiers.active);
        if slowNext >= 10 {
          slowNext := 0;
          TickTier(tiers.slow);
        } else {
          assert log == log + [];
        }
      } else {
        assert log == log + [] + [];
      }
    }

    /** `n` turns of the cooperative loop. */
    method RunCooperative(n: nat)
      modifies `log
      ensures log == old(log) + Steps(owns, tiers, n)
    {
      var normDivider, slowDivider := 0, 0;
      for k := 0 to n
        invariant normDivider == k % 10 && slowDivider == (k / 10) % 10
        invariant log == old(log) + Steps(owns, tiers, k)
      {
        Dividers(k);
        ghost var before := log;
        normDivider, slowDivider := Turn(normDivider, slowDivider);
        ThreeParts(before, Tick(owns, tiers.fast),
                   if normDivider == 0 then Tick(owns, tiers.norm) + tiers.active else [],
                   if normDivider == 0 && slowDivider == 0 then Tick(owns, tiers.slow) else []);
        assert log == before + Iteration(owns, tiers, k + 1);
        Reassociate(old(log), Steps(owns, tiers, k), Iteration(owns, tiers, k + 1));
      }
    }
  }

  lemma {:induction false} Reassociate(a: seq<Name>, b: seq<Name>, c: seq<Name>)
    ensures a + b + c == a + (b + c)
  {
  }

  lemma {:induction false} ThreeParts(log: seq<Name>, a: seq<Name>, b: seq<Name>, c: seq<Name>)
    ensures log + a + b + c == log + (a + b + c)
  {
  }

  lemma {:induction false} Digits(k: nat, tens: nat, c: nat)
    requires k == 10 * tens + c && c < 10
    ensures k % 10 == c && k / 10 == tens
  {
  }

  lemma {:induction false} Hundreds(k: nat, a: nat, b: nat, c: nat)
    requires k == 100 * a + 10 * b + c && b < 10 && c < 10
    ensures k % 100 == 10 * b + c
  {
  }

  /** The dividers count turns and tens of turns. */
  lemma {:induction false} Dividers(k: nat)
    ensures (k + 1) % 10 == if k % 10 + 1 >= 10 then 0 else k % 10 + 1
    ensures (k + 1) / 10 % 10 == if (k + 1) % 10 != 0 then k / 10 % 10 else if k / 10 % 10 + 1 >= 10 then 0
      else k / 10 % 10 + 1
    ensures (k + 1) % 100 == 0 <==> (k + 1) % 10 == 0 && (k + 1) / 10 % 10 == 0
  {
    var tens, c := k / 10, k % 10;
    var a, b := tens / 10, tens % 10;
    if c < 9 {
      Digits(k + 1, tens, c + 1);
      Hundreds(k + 1, a, b, c + 1);
    } else {
      Digits(k + 1, tens + 1, 0);
      if b < 9 {
        Digits(tens + 1, a, b + 1);
        Hundreds(k + 1, a, b + 1, 0);
      } else {
        Digits(tens + 1, a + 1, 0);
        Hundreds(k + 1, a + 1, 0, 0);
      }
    }
  }

  // ---------------------------------------------------------------- the threads

  /** The deadline after `k` turns of a tier's loop; `nows[j]` is the clock when turn `j` has ticked. */
  function Wake(period: nat, start: nat, nows: seq<nat>, k: nat): nat
    requires k <= |nows|
  {
    if k == 0 then start
    else
      var wake := Wake(period, start, nows, k - 1) + period;
      if nows[k - 1] > wake then nows[k - 1] else wake
  }

  /** How late turn `j` was: how far the clock had passed the deadline it set. */
  function Lateness(period: nat, start: nat, nows: seq<nat>, j: nat): nat
    requires j < |nows|
  {
    var wake := Wake(period, start, nows, j) + period;
    if nows[j] > wake then nows[j] - wake else 0
  }

  function TotalLateness(period: nat, start: nat, nows: seq<nat>, k: nat): nat
    requires k <= |nows|
  {
    if k == 0 then 0 else TotalLateness(period, start, nows, k - 1) + Lateness(period, start, nows, k - 1)
  }

  function Overruns(period: nat, start: nat, nows: seq<nat>, k: nat): nat
    requires k <= |nows|
  {
    if k == 0 then 0
    else Overruns(period, start, nows, k - 1) + One(Lateness(period, start, nows, k - 1) > 0)
  }

  /** The k-th deadline is k periods after the start, plus everything lost at overruns. */
  lemma {:induction false} DeadlinesKeepRate(period: nat, start: nat, nows: seq<nat>, k: nat)
    requires k <= |nows|
    ensures Wake(period, start, nows, k) == start + k * period + TotalLateness(period, start, nows, k)
  {
    if k > 0 {
      DeadlinesKeepRate(period, start, nows, k - 1);
      assert k * period == (k - 1) * period + period;
    }
  }

  /** Two deadlines are at least as many periods apart as there are turns between them. */
  lemma {:induction false} DeadlinesApart(period: nat, start: nat, nows: seq<nat>, i: nat, k: nat)
    requires i <= k <= |nows|
    ensures Wake(period, start, nows, k) >= Wake(period, start, nows, i) + (k - i) * period
    decreases k - i
  {
    if i < k {
      DeadlinesApart(period, start, nows, i, k - 1);
      assert (k - i) * period == (k - 1 - i) * period + period;
    }
  }

  /** Turns of the normal-rate loop in which the slow tier ticks too; the cycle counter is 32 bits wide. */
  function SlowRuns(n: nat): nat {
    if n == 0 then 0 else SlowRuns(n - 1) + One((n % TWO32) % 10 == 0)
  }

  /**
   Every tenth turn, until the counter wraps: 2^32 is not a multiple of ten, so each wrap brings
   the next slow tick four turns early. Exactly, for every number of turns:
   */
  lemma {:induction false} SlowRunsExactly(n: nat)
    ensures SlowRuns(n) == (n / TWO32) * 429496730 + (n % TWO32) / 10
  {
    if n > 0 {
      SlowRunsExactly(n - 1);
      NextCycle(n);
      if n % TWO32 > 0 {
        Tenths(n % TWO32);
      }
    }
  }

  lemma {:induction false} NextCycle(n: nat)
    requires n > 0
    ensures if n % TWO32 == 0 then (n - 1) % TWO32 == TWO32 - 1 && n / TWO32 == (n - 1) / TWO32 + 1
            else (n - 1) % TWO32 == n % TWO32 - 1 && n / TWO32 == (n - 1) / TWO32
  {
  }

  /** The promised rate, and the first turn at which it is broken. */
  lemma {:induction false} SlowEveryTenth(n: nat)
    ensures n < TWO32 ==> SlowRuns(n) == n / 10
    ensures SlowRuns(TWO32) == TWO32 / 10 + 1
  {
    SlowRunsExactly(n);
    SlowRunsExactly(TWO32);
    assert n < TWO32 ==> n / TWO32 == 0 && n % TWO32 == n;
    assert TWO32 / TWO32 == 1 && TWO32 % TWO32 == 0;
  }

  /** `runTier`, and the loop of the normal-rate thread when `norm` is set, for as many turns as there are readings. */
  method RunTier(period: nat, start: nat, nows: seq<nat>, norm: bool)
    returns (deadlines: seq<nat>, frameDrops: nat, slowTicks: nat)
    ensures |deadlines| == |nows|
    ensures forall k :: 0 <= k < |nows| ==> deadlines[k] == Wake(period, start, nows, k + 1)
    ensures frameDrops == Overruns(period, start, nows, |nows|)
    ensures slowTicks == if norm then SlowRuns(|nows|) else 0
  {
    var wake, cycle: u32 := start, 0;
    deadlines, frameDrops, slowTicks := [], 0, 0;
    for k := 0 to |nows|
      invariant |deadlines| == k && wake == Wake(period, start, nows, k) && cycle == k % TWO32
      invariant forall j :: 0 <= j < k ==> deadlines[j] == Wake(period, start, nows, j + 1)
      invariant frameDrops == Overruns(period, start, nows, k)
      invariant slowTicks == if norm then SlowRuns(k) else 0
    {
      NextCycle(k + 1);
      cycle := Bump(cycle);
      if norm && cycle % 10 == 0 {
        slowTicks := slowTicks + 1;
      }
      wake := wake + period;
      if nows[k] > wake {
        frameDrops := frameDrops + 1;
        wake := nows[k];
      }
      deadlines := deadlines + [wake];
    }
  }
}
