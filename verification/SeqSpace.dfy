/** TCP sequence numbers: 32-bit unsigned values that wrap around, and the comparisons the analyser makes on them. */
module SeqSpace {
  const MOD: int := 0x1_0000_0000

  /** Positions at most this far apart are ordered correctly by After. */
  const WINDOW: int := 0x7FFF_FFFE

  type u32 = x: int | 0 <= x < 0x1_0000_0000

  /** The 32-bit image of an unbounded sequence position. */
  function Wrap(x: int): u32 {
    x % 0x1_0000_0000
  }

  /** Unsigned 32-bit subtraction. */
  function Sub(a: u32, b: u32): u32 {
    (a - b) % 0x1_0000_0000
  }

  predicate After(first: u32, second: u32) {
    (first > second && first - second < 0x7FFF_FFFF) ||
    (first < second && second - first > 0x7FFF_FFFF)
  }

  predicate Before(first: u32, second: u32) {
    After(second, first)
  }

  predicate Between(middle: u32, first: u32, second: u32) {
    Before(first, middle) && After(second, middle)
  }

  predicate RangeIncluded(firstStart: u32, firstEnd: u32, secondStart: u32, secondEnd: u32) {
    && (firstStart == secondStart || Between(firstStart, secondStart, secondEnd))
    && (firstEnd == secondEnd || Between(firstEnd, secondStart, secondEnd))
  }

  predicate Overlaps(leftA: u32, rightA: u32, leftB: u32, rightB: u32) {
    !After(leftA, rightB) && !After(leftB, rightA)
  }

  // ----- wraparound order is exact inside a window

  lemma AfterExact(x: int, y: int)
    requires -WINDOW <= x - y <= WINDOW
    ensures After(Wrap(x), Wrap(y)) <==> x > y
    ensures Wrap(x) == Wrap(y) <==> x == y
  {
  }

  /** Over all pairs: never both after each other, and neither exactly at the distance 2^31 - 1. */
  lemma AfterAsymmetric(a: u32, b: u32)
    ensures !(After(a, b) && After(b, a))
    ensures a != b ==> (!After(a, b) && !After(b, a) <==> a - b == 0x7FFF_FFFF || b - a == 0x7FFF_FFFF)
  {
  }

  /** Two steps forward are one step forward exactly when together they stay within half the circle; ending above the
      start without a wraparound leaves two more values of room. */
  lemma AfterTransitiveIff(a: u32, b: u32, c: u32)
    requires After(a, b) && After(b, c)
    ensures var distance := Sub(a, b) + Sub(b, c);
            After(a, c) <==> distance <= WINDOW || (a < c && distance <= 0x8000_0000)
  {
  }

  /** After is not transitive on the whole circle, which is why every exact statement carries a window. */
  lemma AfterNotTransitive()
    ensures After(0, 0x8000_0000) && After(0x4000_0000, 0) && !After(0x4000_0000, 0x8000_0000)
  {
  }

  /** The modular difference of two ordered positions is their distance. */
  lemma SubExact(x: int, y: int)
    requires 0 <= x - y < MOD
    ensures Sub(Wrap(x), Wrap(y)) == x - y
  {
  }

  lemma WrapAdd(x: int, n: int)
    ensures Wrap(Wrap(x) + n) == Wrap(x + n)
  {
  }

  // ----- lifting 32-bit values back to unbounded positions

  /** The position at or above `base`, less than one wrap away, whose image is `x`. */
  function Lift(base: int, x: u32): int {
    base + (x - base) % 0x1_0000_0000
  }

  predicate InWindow(base: int, x: u32) {
    Lift(base, x) <= base + WINDOW
  }

  lemma LiftWrap(base: int, p: int)
    requires base <= p < base + MOD
    ensures Lift(base, Wrap(p)) == p
  {
  }

  lemma WrapLift(base: int, x: u32)
    ensures Wrap(Lift(base, x)) == x
    ensures base <= Lift(base, x) < base + MOD
  {
  }

  /** Inside one window, After compares the lifted positions. */
  lemma AfterLift(base: int, x: u32, y: u32)
    requires InWindow(base, x) && InWindow(base, y)
    ensures After(x, y) <==> Lift(base, x) > Lift(base, y)
    ensures x == y <==> Lift(base, x) == Lift(base, y)
  {
    WrapLift(base, x);
    WrapLift(base, y);
    AfterExact(Lift(base, x), Lift(base, y));
  }

  lemma AfterLiftAll(base: int)
    ensures forall x: u32, y: u32 {:trigger After(x, y)} ::
              InWindow(base, x) && InWindow(base, y) ==> (After(x, y) <==> Lift(base, x) > Lift(base, y))
  {
    forall x: u32, y: u32 {:trigger After(x, y)} | InWindow(base, x) && InWindow(base, y)
      ensures After(x, y) <==> Lift(base, x) > Lift(base, y)
    {
      AfterLift(base, x, y);
    }
  }

  /** Moving the window does not move the positions that lie in both windows. */
  lemma LiftSlide(base: int, base': int, x: u32)
    requires base' <= Lift(base, x) < base' + MOD
    ensures Lift(base', x) == Lift(base, x)
  {
  }

  /** RangeIncluded is interval inclusion for a non-empty first range and strict interiority for an empty one. */
  lemma RangeIncludedExact(base: int, a: u32, b: u32, c: u32, d: u32)
    requires InWindow(base, a) && InWindow(base, b) && InWindow(base, c) && InWindow(base, d)
    requires Lift(base, a) <= Lift(base, b) && Lift(base, c) < Lift(base, d)
    ensures a != b ==> (RangeIncluded(a, b, c, d) <==>
                        Lift(base, c) <= Lift(base, a) && Lift(base, b) <= Lift(base, d))
    ensures a == b ==> (RangeIncluded(a, b, c, d) <==> Lift(base, c) < Lift(base, a) < Lift(base, d))
  {
    AfterLiftAll(base);
    AfterLift(base, a, b);
    AfterLift(base, a, c);
    AfterLift(base, b, d);
    AfterLift(base, a, d);
    AfterLift(base, b, c);
  }

  predicate InClosed(p: int, lo: int, hi: int) {
    lo <= p <= hi
  }

  /** Overlaps is the intersection of closed intervals: ranges that merely touch overlap. */
  lemma OverlapsExact(base: int, a: u32, b: u32, c: u32, d: u32)
    requires InWindow(base, a) && InWindow(base, b) && InWindow(base, c) && InWindow(base, d)
    requires Lift(base, a) <= Lift(base, b) && Lift(base, c) <= Lift(base, d)
    ensures Overlaps(a, b, c, d) <==>
            exists p :: InClosed(p, Lift(base, a), Lift(base, b)) && InClosed(p, Lift(base, c), Lift(base, d))
  {
    AfterLift(base, a, d);
    AfterLift(base, c, b);
    var p := if Lift(base, a) < Lift(base, c) then Lift(base, c) else Lift(base, a);
    assert Overlaps(a, b, c, d) ==>
             InClosed(p, Lift(base, a), Lift(base, b)) && InClosed(p, Lift(base, c), Lift(base, d));
  }
}
