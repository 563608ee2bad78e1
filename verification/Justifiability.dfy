/** The 3SF-mini justifiability schedule. */
module Justifiability {
  import opened Types

  /** `u64::isqrt`: the integer square root. */
  function Isqrt(n: nat): (r: nat)
    ensures r * r <= n < (r + 1) * (r + 1)
  {
    if n == 0 then 0
    else
      var r := Isqrt(n - 1);
      if (r + 1) * (r + 1) <= n then r + 1 else r
  }

  /** The integer square root, squared, gives the number back. */
  predicate PerfectSquare(n: nat) {
    Isqrt(n) * Isqrt(n) == n
  }

  predicate JustifiableDelta(delta: nat) {
    || delta <= 5
    || PerfectSquare(delta)
    || (4 * delta + 1 <= U64_MAX && PerfectSquare(4 * delta + 1) && (4 * delta + 1) % 2 == 1)
  }

  /** `slot_is_justifiable_after`; the two `checked_` operations are the 64-bit bound on `4 * delta + 1`. */
  predicate JustifiableAfter(slot: Slot, finalized: Slot) {
    slot >= finalized && JustifiableDelta(slot - finalized)
  }

  function Square(n: nat): nat { n * n }

  function Pronic(n: nat): nat { n * (n + 1) }

  ghost predicate IsSquare(d: nat) {
    exists n: nat :: Square(n) == d
  }

  ghost predicate IsPronic(d: nat) {
    exists n: nat :: Pronic(n) == d
  }

  /** The schedule as the documentation states it. */
  ghost predicate Scheduled(d: nat) {
    d <= 5 || IsSquare(d) || IsPronic(d)
  }

  ghost predicate ScheduledAfter(slot: Slot, finalized: Slot) {
    slot >= finalized && Scheduled(slot - finalized)
  }

  lemma SquareMonotone(a: nat, b: nat)
    requires a <= b
    ensures Square(a) <= Square(b)
  {
    assert b * b == a * a + (b - a) * (b + a);
    assert (b - a) * (b + a) >= 0;
  }

  lemma PronicMonotone(a: nat, b: nat)
    requires a <= b
    ensures Pronic(a) <= Pronic(b)
  {
    SquareMonotone(a, b);
    Neighbours(a);
    Neighbours(b);
  }

  lemma IsqrtUnique(n: nat, r: nat)
    requires r * r <= n < (r + 1) * (r + 1)
    ensures Isqrt(n) == r
  {
    var q := Isqrt(n);
    if q < r { SquareMonotone(q + 1, r); }
    if r < q { SquareMonotone(r + 1, q); }
  }

  lemma SquareTest(d: nat)
    ensures PerfectSquare(d) <==> IsSquare(d)
  {
    if PerfectSquare(d) {
      assert Square(Isqrt(d)) == d;
    }
    if IsSquare(d) {
      var n: nat :| Square(n) == d;
      assert (n + 1) * (n + 1) == n * n + 2 * n + 1;
      IsqrtUnique(d, n);
    }
  }

  lemma OddSquare(n: nat)
    ensures Square(2 * n + 1) == 4 * Pronic(n) + 1
  {
  }

  lemma OddRoot(m: nat, d: nat)
    requires m * m == 4 * d + 1
    ensures m == 2 * (m / 2) + 1
  {
    var n := m / 2;
    if m == 2 * n {
      calc { 4 * d + 1; m * m; 4 * (n * n); }
    }
  }

  /** `4d + 1` is a perfect square exactly for pronic `d`. */
  lemma PronicTest(d: nat)
    ensures IsSquare(4 * d + 1) <==> IsPronic(d)
  {
    if IsPronic(d) {
      var n: nat :| Pronic(n) == d;
      OddSquare(n);
    }
    if IsSquare(4 * d + 1) {
      var m: nat :| Square(m) == 4 * d + 1;
      var n := m / 2;
      OddRoot(m, d);
      OddSquare(n);
      assert Pronic(n) == d;
    }
  }

  /** What the code's test comes to. */
  lemma TestMeans(d: nat)
    ensures JustifiableDelta(d) <==> d <= 5 || IsSquare(d) || (4 * d + 1 <= U64_MAX && IsPronic(d))
  {
    SquareTest(d);
    PronicTest(d);
    OddSquareTest(d, 4 * d + 1);
  }

  lemma OddSquareTest(d: nat, val: nat)
    requires val == 4 * d + 1
    ensures val % 2 == 1 && (PerfectSquare(val) <==> IsSquare(val))
  {
    SquareTest(val);
  }

  /** The integer-square-root tests decide the documented schedule exactly where `4 * delta` fits a
      64-bit word; beyond that the pronic distances, and only those, are missed. */
  lemma ScheduleExact(d: nat)
    requires d <= U64_MAX
    ensures (JustifiableDelta(d) <==> Scheduled(d)) <==> (d < 0x4000_0000_0000_0000 || !IsPronic(d))
  {
    TestMeans(d);
    if d >= 0x4000_0000_0000_0000 && IsPronic(d) {
      var n: nat :| Pronic(n) == d;
      Neighbours(n);
      NoSquareBetween(d, n);
    }
  }

  /** For slots within the history limit the code follows the documented schedule. */
  lemma ScheduleWithinHistory(slot: Slot, finalized: Slot)
    requires slot <= HISTORICAL_ROOTS_LIMIT
    ensures JustifiableAfter(slot, finalized) <==> ScheduledAfter(slot, finalized)
  {
    if slot >= finalized {
      ScheduleExact(slot - finalized);
    }
  }

  /** A pronic distance that the code rejects. */
  lemma ScheduleMissesLargePronic()
    ensures var d := 0x4000_0000_8000_0000; d <= U64_MAX && Scheduled(d) && !JustifiableDelta(d)
  {
    var d := 0x4000_0000_8000_0000;
    var n: nat := 0x8000_0000;
    assert Pronic(n) == d;
    IsqrtUnique(d, n);
  }

  lemma NoSquareBetween(d: nat, n: nat)
    requires Square(n) < d < Square(n + 1)
    ensures !IsSquare(d)
  {
    forall m: nat ensures Square(m) != d {
      if m <= n { SquareMonotone(m, n); } else { SquareMonotone(n + 1, m); }
    }
  }

  lemma NoPronicBetween(d: nat, n: nat)
    requires Pronic(n) < d < Pronic(n + 1)
    ensures !IsPronic(d)
  {
    forall m: nat ensures Pronic(m) != d {
      if m <= n { PronicMonotone(m, n); } else { PronicMonotone(n + 1, m); }
    }
  }

  /** Above distance 5 nothing strictly between two neighbouring schedule points is justifiable. */
  lemma NothingBetween(d: nat, n: nat)
    requires 5 < d
    requires Square(n) < d < Pronic(n) || Pronic(n) < d < Square(n + 1)
    ensures !JustifiableDelta(d)
  {
    Neighbours(n);
    NoSquareBetween(d, n);
    if d < Pronic(n) {
      Neighbours(n - 1);
      NoPronicBetween(d, n - 1);
    } else {
      Neighbours(n + 1);
      NoPronicBetween(d, n);
    }
    TestMeans(d);
  }

  /** The schedule points in order: n^2, n(n+1), (n+1)^2. */
  lemma Neighbours(n: nat)
    ensures Pronic(n) == Square(n) + n && Square(n + 1) == Pronic(n) + n + 1
  {
  }

  lemma PronicJustifiable(d: nat)
    requires d < 0x4000_0000_0000_0000 && IsPronic(d)
    ensures JustifiableDelta(d)
  {
    TestMeans(d);
  }

  lemma SquareJustifiable(d: nat)
    requires IsSquare(d)
    ensures JustifiableDelta(d)
  {
    TestMeans(d);
  }

  /** Gaps grow but stay bounded: a justifiable distance is at most `Isqrt(d) + 1` ahead. */
  lemma NextJustifiable(d: nat)
    requires d + Isqrt(d) + 1 < 0x4000_0000_0000_0000
    ensures exists e: nat :: d < e <= d + Isqrt(d) + 1 && JustifiableDelta(e)
  {
    var n := Isqrt(d);
    SchedulePoints(d, n);
    if d < Pronic(n) {
      PronicJustifiable(Pronic(n));
    } else {
      SquareJustifiable(Square(n + 1));
    }
  }

  /** The schedule points around a distance whose integer square root is `n`. */
  lemma SchedulePoints(d: nat, n: nat)
    requires Square(n) <= d < Square(n + 1)
    ensures Pronic(n) <= d + n
    ensures Pronic(n) <= d ==> Square(n + 1) <= d + n + 1
  {
    Neighbours(n);
  }
}
