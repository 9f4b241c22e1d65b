/** EHbisect over the reals. */
module Bisect {
  import opened Reals

  function Pow2(k: nat): (p: real)
    ensures p >= 1.0
  {
    if k == 0 then 1.0 else 2.0 * Pow2(k - 1)
  }

  /** The current limits. */
  datatype Bracket = Bracket(lft: real, rgt: real) {
    function Mid(): real { 0.5 * (lft + rgt) }

    function Width(): real { Abs(rgt - lft) }

    /** Zero is not between the limits. */
    predicate AwayFromZero() { lft * rgt > 0.0 }

    /** The exit test of the next turn, without its division. */
    predicate Settles(crit: real) { Mid() != 0.0 && Width() / 4.0 < crit * Abs(Mid()) }
  }

  /** One turn of the loop; fl is the function's value at the first left limit,
      which the loop never updates. */
  function Narrow(f: real -> real, fl: real, b: Bracket): Bracket {
    if fl * f(b.Mid()) > 0.0 then Bracket(b.Mid(), b.rgt) else Bracket(b.lft, b.Mid())
  }

  function After(f: real -> real, fl: real, b: Bracket, k: nat): Bracket {
    if k == 0 then b else Narrow(f, fl, After(f, fl, b, k - 1))
  }

  /** The exit test. A division by a zero mid-point is not a number below any
      criterion. */
  predicate Close(midPnt: real, newmidPnt: real, crit: real) {
    midPnt != 0.0 && Abs((newmidPnt - midPnt) / midPnt) < crit
  }

  /** The test succeeds in turn k. */
  predicate Settled(f: real -> real, fl: real, b: Bracket, crit: real, k: nat) {
    k > 0 && Close(After(f, fl, b, k - 1).Mid(), After(f, fl, b, k).Mid(), crit)
  }

  ghost predicate Stops(f: real -> real, fl: real, b: Bracket, crit: real) { exists k: nat :: Settled(f, fl, b, crit, k) }

  /** The middle becomes the limit on the side where the function has its first sign; one
      that is a zero becomes the right limit. */
  lemma HalfKept(f: real -> real, fl: real, b: Bracket)
    ensures var m, n := (b.lft + b.rgt) / 2.0, Narrow(f, fl, b);
            && (n == Bracket(m, b.rgt) || n == Bracket(b.lft, m))
            && ((fl > 0.0 && f(m) > 0.0) || (fl < 0.0 && f(m) < 0.0) ==> n == Bracket(m, b.rgt))
            && (fl >= 0.0 >= f(m) || fl <= 0.0 <= f(m) ==> n == Bracket(b.lft, m))
  {
    var m := (b.lft + b.rgt) / 2.0;
    assert b.Mid() == m;
    Signs(fl, f(m));
  }

  lemma Signs(x: real, y: real)
    ensures x * y > 0.0 <==> (x > 0.0 && y > 0.0) || (x < 0.0 && y < 0.0)
  {
  }

  /** EHbisect. The loop ends if and only if some turn settles, and ends at the
      first that does. */
  method Bisect(func: real -> real, limLft: real, limRgt: real, convCrit: real)
    returns (status: int, root: real, ghost turns: nat)
    requires func(limLft) * func(limRgt) > 0.0 || Stops(func, func(limLft), Bracket(limLft, limRgt), convCrit)
    ensures status == (if func(limLft) * func(limRgt) > 0.0 then -1 else 0)
    ensures status == 0 ==> Settled(func, func(limLft), Bracket(limLft, limRgt), convCrit, turns)
    ensures status == 0 ==> forall k | 0 <= k < turns :: !Settled(func, func(limLft), Bracket(limLft, limRgt), convCrit, k)
    ensures status == 0 ==> root == After(func, func(limLft), Bracket(limLft, limRgt), turns).Mid()
  {
    status, root, turns := 0, 0.0, 0;
    var left, right := limLft, limRgt;
    var funcLft := func(left);
    var funcRgt := func(right);
    if funcLft * funcRgt > 0.0 {
      return -1, root, 0;
    }
    ghost var b := Bracket(limLft, limRgt);
    ghost var last: nat :| Settled(func, funcLft, b, convCrit, last);
    var newmidPnt := 0.5 * (left + right);
    var done := false;
    while !done
      invariant Bracket(left, right) == After(func, funcLft, b, turns) && newmidPnt == Bracket(left, right).Mid()
      invariant forall k | 0 <= k < turns :: !Settled(func, funcLft, b, convCrit, k)
      invariant done == Settled(func, funcLft, b, convCrit, turns) && turns <= last
      decreases last - turns, !done
    {
      var midPnt := newmidPnt;
      var funcMid := func(midPnt);
      if funcLft * funcMid > 0.0 {
        left := midPnt;
      } else {
        right := midPnt;
      }
      turns := turns + 1;
      newmidPnt := 0.5 * (left + right);
      done := midPnt != 0.0 && Abs((newmidPnt - midPnt) / midPnt) < convCrit;
    }
    root := newmidPnt;
  }

  // --------------------------------------------------------------- every turn

  lemma SameSide(x: real, y: real)
    ensures x * y > 0.0 <==> (x > 0.0 && y > 0.0) || (x < 0.0 && y < 0.0)
  {
  }

  lemma SignRule(a: real, b: real, c: real)
    ensures a * b > 0.0 && a * c <= 0.0 ==> b * c <= 0.0
  {
    SameSide(a, b);
    SameSide(a, c);
    SameSide(b, c);
  }

  /** Every turn keeps a sign change, or a zero, between the limits, and the
      limits stay between the first ones; the width is halved. */
  lemma {:induction false} BracketKept(f: real -> real, b: Bracket, k: nat)
    requires f(b.lft) * f(b.rgt) <= 0.0
    ensures var n := After(f, f(b.lft), b, k);
            && f(n.lft) * f(n.rgt) <= 0.0
            && f(b.lft) * f(n.rgt) <= 0.0 && (n.lft == b.lft || f(b.lft) * f(n.lft) > 0.0)
            && Between(b, n.lft) && Between(b, n.rgt)
  {
    if k > 0 {
      BracketKept(f, b, k - 1);
      var n := After(f, f(b.lft), b, k);
      SignRule(f(b.lft), f(n.lft), f(n.rgt));
    }
  }

  predicate Between(b: Bracket, x: real) { b.lft <= x <= b.rgt || b.rgt <= x <= b.lft }

  function Halved(w: real, k: nat): real {
    if k == 0 then w else Halved(w, k - 1) / 2.0
  }

  lemma {:induction false} HalvedBack(w: real, k: nat)
    ensures Halved(w, k) * Pow2(k) == w
  {
    if k > 0 {
      HalvedBack(w, k - 1);
      assert Halved(w, k) * Pow2(k) == (Halved(w, k - 1) / 2.0) * (2.0 * Pow2(k - 1));
    }
  }

  lemma {:induction false} WidthHalves(f: real -> real, fl: real, b: Bracket, k: nat)
    ensures After(f, fl, b, k).Width() == Halved(b.Width(), k)
  {
    if k > 0 {
      WidthHalves(f, fl, b, k - 1);
      HalfWidth(f, fl, After(f, fl, b, k - 1));
    }
  }

  lemma HalfWidth(f: real -> real, fl: real, b: Bracket)
    ensures 2.0 * Narrow(f, fl, b).Width() == b.Width()
    ensures Abs(Narrow(f, fl, b).Mid() - b.Mid()) == b.Width() / 4.0
    ensures Narrow(f, fl, b).lft == b.Mid() || Narrow(f, fl, b).rgt == b.Mid()
  {
  }

  lemma Ratio(d: real, m: real, c: real)
    requires m != 0.0
    ensures Abs(d / m) < c <==> Abs(d) < c * Abs(m)
  {
    var q := d / m;
    assert q * m == d;
    AbsProduct(q, m);
    Scale(Abs(q), c, Abs(m));
  }

  lemma AbsProduct(a: real, b: real)
    ensures Abs(a * b) == Abs(a) * Abs(b)
  {
  }

  lemma Scale(a: real, c: real, m: real)
    requires m > 0.0
    ensures a < c <==> a * m < c * m
  {
    assert (c - a) * m == c * m - a * m;
  }

  /** The test compares a quarter of the width before the turn. */
  lemma SettledIff(f: real -> real, fl: real, b: Bracket, crit: real, k: nat)
    requires k > 0
    ensures Settled(f, fl, b, crit, k) <==> After(f, fl, b, k - 1).Settles(crit)
  {
    var p, n := After(f, fl, b, k - 1), After(f, fl, b, k);
    assert n == Narrow(f, fl, p);
    HalfWidth(f, fl, p);
    CloseIff(p, n.Mid(), crit);
  }

  lemma CloseIff(p: Bracket, newmidPnt: real, crit: real)
    requires Abs(newmidPnt - p.Mid()) == p.Width() / 4.0
    ensures Close(p.Mid(), newmidPnt, crit) <==> p.Settles(crit)
  {
    if p.Mid() != 0.0 {
      Ratio(newmidPnt - p.Mid(), p.Mid(), crit);
    }
  }

  /** What a caller gets: the limits of the last turn hold a sign change or a
      zero, and the root is their mid-point, within the first limits. */
  lemma RootBracketed(f: real -> real, b: Bracket, k: nat)
    requires f(b.lft) * f(b.rgt) <= 0.0
    ensures var n := After(f, f(b.lft), b, k); f(n.lft) * f(n.rgt) <= 0.0 && Between(b, n.Mid())
  {
    BracketKept(f, b, k);
    MidBetween(b, After(f, f(b.lft), b, k));
  }

  /** The limits of the last turn are closer than twice the criterion times one
      of them. */
  lemma RootClose(f: real -> real, fl: real, b: Bracket, crit: real, k: nat) returns (m: real)
    requires Settled(f, fl, b, crit, k)
    ensures var n := After(f, fl, b, k); (m == n.lft || m == n.rgt) && n.Width() < 2.0 * crit * Abs(m)
  {
    var p := After(f, fl, b, k - 1);
    SettledIff(f, fl, b, crit, k);
    HalfWidth(f, fl, p);
    m := p.Mid();
    FromQuarter(p.Width(), After(f, fl, b, k).Width(), crit, Abs(m));
  }

  lemma FromQuarter(w: real, half: real, crit: real, a: real)
    requires 2.0 * half == w && w / 4.0 < crit * a
    ensures half < 2.0 * crit * a
  {
    assert 2.0 * crit * a == 2.0 * (crit * a);
  }

  lemma MidBetween(b: Bracket, n: Bracket)
    requires Between(b, n.lft) && Between(b, n.rgt)
    ensures Between(b, n.Mid())
  {
  }

  // -------------------------------------------------------------- termination

  lemma {:induction false} StaysAway(f: real -> real, fl: real, b: Bracket, m: real, k: nat)
    requires b.AwayFromZero() && m <= Abs(b.lft) && m <= Abs(b.rgt)
    ensures var n := After(f, fl, b, k);
            n.AwayFromZero() && m <= Abs(n.lft) && m <= Abs(n.rgt) && m <= Abs(n.Mid()) && n.Mid() != 0.0
  {
    if k > 0 {
      StaysAway(f, fl, b, m, k - 1);
      SameSide(After(f, fl, b, k - 1).lft, After(f, fl, b, k - 1).rgt);
    }
    SameSide(b.lft, b.rgt);
    SameSide(After(f, fl, b, k).lft, After(f, fl, b, k).rgt);
  }

  /** The bound: when neither limit is nearer to zero than m, the loop has
      settled by turn n once 2 to the n + 1, times the criterion, times m,
      exceeds the first width. */
  lemma SettlesBy(f: real -> real, fl: real, b: Bracket, crit: real, m: real, n: nat)
    requires b.AwayFromZero() && m <= Abs(b.lft) && m <= Abs(b.rgt) && crit > 0.0 && n > 0
    requires b.Width() < Pow2(n + 1) * (crit * m)
    ensures Settled(f, fl, b, crit, n)
  {
    var mid := MidAway(f, fl, b, m, n);
    Quarter(f, fl, b, crit, m, n, Abs(mid));
    SettledSmall(f, fl, b, crit, n, mid);
  }

  lemma MidAway(f: real -> real, fl: real, b: Bracket, m: real, n: nat) returns (mid: real)
    requires b.AwayFromZero() && m <= Abs(b.lft) && m <= Abs(b.rgt) && n > 0
    ensures mid == After(f, fl, b, n - 1).Mid() && mid != 0.0 && m <= Abs(mid)
  {
    mid := After(f, fl, b, n - 1).Mid();
    StaysAway(f, fl, b, m, n - 1);
  }

  lemma SettledSmall(f: real -> real, fl: real, b: Bracket, crit: real, n: nat, mid: real)
    requires n > 0 && mid == After(f, fl, b, n - 1).Mid() && mid != 0.0
    requires After(f, fl, b, n - 1).Width() / 4.0 < crit * Abs(mid)
    ensures Settled(f, fl, b, crit, n)
  {
    SettledIff(f, fl, b, crit, n);
  }

  lemma Quarter(f: real -> real, fl: real, b: Bracket, crit: real, m: real, n: nat, a: real)
    requires m <= a && crit > 0.0 && n > 0 && b.Width() < Pow2(n + 1) * (crit * m)
    ensures After(f, fl, b, n - 1).Width() / 4.0 < crit * a
  {
    WidthHalves(f, fl, b, n - 1);
    QuarterOf(b.Width(), After(f, fl, b, n - 1).Width(), crit, m, n, a);
  }

  lemma QuarterOf(w0: real, w: real, crit: real, m: real, n: nat, a: real)
    requires m <= a && crit > 0.0 && n > 0 && w0 < Pow2(n + 1) * (crit * m) && w == Halved(w0, n - 1)
    ensures w / 4.0 < crit * a
  {
    HalvedBack(w0, n - 1);
    FourTimes(n);
    Halvings(w0, w, Pow2(n - 1), Pow2(n + 1), crit, m, a);
  }

  lemma FourTimes(n: nat)
    requires n > 0
    ensures Pow2(n + 1) == 4.0 * Pow2(n - 1)
  {
  }

  lemma Halvings(w0: real, w: real, p: real, p4: real, crit: real, m: real, a: real)
    requires p >= 1.0 && p4 == 4.0 * p && w * p == w0 && w0 < p4 * (crit * m) && crit > 0.0 && m <= a
    ensures w / 4.0 < crit * a
  {
    BelowFour(w, p, crit * m);
    Grows(crit, m, a);
  }

  lemma BelowFour(w: real, p: real, c: real)
    requires p >= 1.0 && w * p < 4.0 * p * c
    ensures w / 4.0 < c
  {
    Scale(w, 4.0 * c, p);
    assert 4.0 * c * p == 4.0 * p * c;
  }

  lemma Grows(c: real, x: real, y: real)
    requires c > 0.0 && x <= y
    ensures c * x <= c * y
  {
    assert c * (y - x) >= 0.0;
  }

  lemma {:induction false} Archimedes(n: nat)
    ensures Pow2(n) > n as real
  {
    if n > 0 {
      Archimedes(n - 1);
    }
  }

  /** When zero is not between the limits the loop ends. */
  lemma StopsAwayFromZero(f: real -> real, fl: real, b: Bracket, crit: real)
    requires b.AwayFromZero() && crit > 0.0
    ensures Stops(f, fl, b, crit)
  {
    var m := if Abs(b.lft) < Abs(b.rgt) then Abs(b.lft) else Abs(b.rgt);
    SameSide(b.lft, b.rgt);
    Positive(crit, m);
    var n := EnoughTurns(b.Width(), crit * m);
    SettlesBy(f, fl, b, crit, m, n);
  }

  lemma Positive(a: real, b: real)
    requires a > 0.0 && b > 0.0
    ensures a * b > 0.0
  {
  }

  lemma EnoughTurns(w: real, c: real) returns (n: nat)
    requires w >= 0.0 && c > 0.0
    ensures n > 0 && w < Pow2(n + 1) * c
  {
    var q := w / c;
    assert q * c == w;
    assert q >= 0.0;
    n := q.Floor + 1;
    Archimedes(n);
    Scale(q, Pow2(n + 1), c);
  }

  lemma {:induction false} AfterAfter(f: real -> real, fl: real, b: Bracket, j: nat, k: nat)
    ensures After(f, fl, After(f, fl, b, j), k) == After(f, fl, b, j + k)
  {
    if k > 0 {
      AfterAfter(f, fl, b, j, k - 1);
    }
  }

  /** A turn that starts with zero between its limits moves the mid-point by at
      least half of it. */
  lemma NotAcrossZero(f: real -> real, fl: real, b: Bracket, crit: real, k: nat)
    requires crit <= 0.5 && Settled(f, fl, b, crit, k)
    ensures After(f, fl, b, k - 1).AwayFromZero()
  {
    var p := After(f, fl, b, k - 1);
    SettledIff(f, fl, b, crit, k);
    Across(p, crit);
  }

  lemma Across(p: Bracket, crit: real)
    requires crit <= 0.5
    ensures !p.AwayFromZero() ==> crit * Abs(p.Mid()) <= p.Width() / 4.0
  {
    SameSide(p.lft, p.rgt);
    MidWithin(p);
    HalfOfHalf(crit, Abs(p.Mid()), p.Width());
  }

  lemma MidWithin(p: Bracket)
    ensures !((p.lft > 0.0 && p.rgt > 0.0) || (p.lft < 0.0 && p.rgt < 0.0)) ==> Abs(p.Mid()) <= p.Width() / 2.0
  {
  }

  lemma HalfOfHalf(crit: real, a: real, w: real)
    requires crit <= 0.5 && a >= 0.0
    ensures a <= w / 2.0 ==> crit * a <= w / 4.0
  {
    Scale2(crit, 0.5, a);
  }

  lemma Scale2(a: real, c: real, m: real)
    requires a <= c && m >= 0.0
    ensures a * m <= c * m
  {
    assert (c - a) * m >= 0.0;
  }

  /** Once some turn leaves zero outside the limits, the loop ends. */
  lemma StopsOnceAway(f: real -> real, fl: real, b: Bracket, crit: real, k: nat)
    requires crit > 0.0 && After(f, fl, b, k).AwayFromZero()
    ensures Stops(f, fl, b, crit)
  {
    var n := After(f, fl, b, k);
    StopsAwayFromZero(f, fl, n, crit);
    var j: nat :| Settled(f, fl, n, crit, j);
    AfterAfter(f, fl, b, k, j - 1);
    AfterAfter(f, fl, b, k, j);
    assert Settled(f, fl, b, crit, k + j);
  }

  /** No change of the mid-point is below zero. */
  lemma CritPositive(f: real -> real, fl: real, b: Bracket, crit: real)
    requires Stops(f, fl, b, crit)
    ensures crit > 0.0
  {
  }

  // ------------------------------------------- what a caller knows of its function

  /** The turns after which the limits are closer than d. */
  lemma NarrowerThan(f: real -> real, fl: real, b: Bracket, d: real) returns (k: nat)
    requires d > 0.0
    ensures After(f, fl, b, k).Width() < d
  {
    var n := EnoughTurns(b.Width(), d);
    k := n + 1;
    WidthHalves(f, fl, b, k);
    HalvedBack(b.Width(), k);
    Scale(Halved(b.Width(), k), d, Pow2(k));
  }

  /** The function has one strict sign nearer to zero than d. */
  ghost predicate OneSignNearZero(f: real -> real, d: real) {
    forall x, y | -d < x < d && -d < y < d :: f(x) * f(y) > 0.0
  }

  /** A function that keeps one strict sign around 0 is never searched there:
      whatever the limits, the loop ends. */
  lemma StopsIfSignNearZero(f: real -> real, b: Bracket, crit: real, d: real)
    requires f(b.lft) * f(b.rgt) <= 0.0 && crit > 0.0 && d > 0.0 && OneSignNearZero(f, d)
    ensures Stops(f, f(b.lft), b, crit)
  {
    var k := NarrowerThan(f, f(b.lft), b, d);
    var n := After(f, f(b.lft), b, k);
    BracketKept(f, b, k);
    ApartFromZero(f, n, d);
    StopsOnceAway(f, f(b.lft), b, crit, k);
  }

  lemma ApartFromZero(f: real -> real, n: Bracket, d: real)
    requires OneSignNearZero(f, d) && f(n.lft) * f(n.rgt) <= 0.0 && n.Width() < d
    ensures n.AwayFromZero()
  {
    assert !(-d < n.lft < d && -d < n.rgt < d);
    SameSide(n.lft, n.rgt);
  }

  /** Between the limits the function has the strict sign of the left one up to z,
      and from z on it has not. The limits may come in either order. */
  ghost predicate Crosses(f: real -> real, b: Bracket, z: real) {
    Between(b, z) && forall x | Between(b, x) :: f(b.lft) * f(x) > 0.0 <==> x != z && Between(Bracket(b.lft, z), x)
  }

  lemma {:induction false} CrossingStays(f: real -> real, b: Bracket, z: real, k: nat)
    requires Crosses(f, b, z)
    ensures var n := After(f, f(b.lft), b, k);
            Between(Bracket(b.lft, z), n.lft) && Between(Bracket(z, b.rgt), n.rgt) && Between(n, z)
  {
    if k > 0 {
      CrossingStays(f, b, z, k - 1);
      var p := After(f, f(b.lft), b, k - 1);
      assert Between(b, p.Mid());
    }
  }

  lemma NearOneSide(n: Bracket, z: real)
    requires Between(n, z)
    ensures n.Width() < Abs(z) ==> n.AwayFromZero()
    ensures z == 0.0 ==> !n.AwayFromZero()
  {
    SameSide(n.lft, n.rgt);
  }

  lemma StopsOffZero(f: real -> real, b: Bracket, z: real, crit: real)
    requires Crosses(f, b, z) && z != 0.0 && crit > 0.0
    ensures Stops(f, f(b.lft), b, crit)
  {
    var k := NarrowerThan(f, f(b.lft), b, Abs(z));
    CrossingStays(f, b, z, k);
    NearOneSide(After(f, f(b.lft), b, k), z);
    StopsOnceAway(f, f(b.lft), b, crit, k);
  }

  /** Exactly when the loop ends, for a criterion up to one half: the criterion is
      positive and the function does not cross at 0. */
  lemma StopsIff(f: real -> real, b: Bracket, z: real, crit: real)
    requires Crosses(f, b, z) && crit <= 0.5
    ensures Stops(f, f(b.lft), b, crit) <==> crit > 0.0 && z != 0.0
  {
    if Stops(f, f(b.lft), b, crit) {
      CritPositive(f, f(b.lft), b, crit);
      var k: nat :| Settled(f, f(b.lft), b, crit, k);
      NotAcrossZero(f, f(b.lft), b, crit, k);
      CrossingStays(f, b, z, k - 1);
      NearOneSide(After(f, f(b.lft), b, k - 1), z);
    } else if crit > 0.0 && z != 0.0 {
      StopsOffZero(f, b, z, crit);
    }
  }

  // ----------------------------------------------------- criteria above one half

  /** Above three halves the loop ends for every function and all limits but two
      zeros. */
  lemma StopsAbove(f: real -> real, fl: real, b: Bracket, crit: real)
    requires crit > 1.5
    ensures Stops(f, fl, b, crit) <==> !(b.lft == 0.0 && b.rgt == 0.0)
  {
    if b.lft == 0.0 && b.rgt == 0.0 {
      forall k: nat ensures !Settled(f, fl, b, crit, k) {
        if k > 0 {
          StaysZero(f, fl, b, k - 1);
          SettledIff(f, fl, b, crit, k);
        }
      }
    } else {
      StopsSoon(f, fl, b, crit);
    }
  }

  lemma StopsSoon(f: real -> real, fl: real, b: Bracket, crit: real)
    requires crit > 1.5 && !(b.lft == 0.0 && b.rgt == 0.0)
    ensures Stops(f, fl, b, crit)
  {
    assert After(f, fl, b, 0) == b;
    var n := After(f, fl, b, 1);
    if n.AwayFromZero() {
      StopsOnceAway(f, fl, b, crit, 1);
    } else {
      Sooner(b, n, crit);
      SettledIff(f, fl, b, crit, 1);
      SettledIff(f, fl, b, crit, 2);
      assert Settled(f, fl, b, crit, 1) || Settled(f, fl, b, crit, 2);
    }
  }

  lemma {:induction false} StaysZero(f: real -> real, fl: real, b: Bracket, k: nat)
    requires b.lft == 0.0 && b.rgt == 0.0
    ensures After(f, fl, b, k) == b
  {
    if k > 0 {
      StaysZero(f, fl, b, k - 1);
    }
  }

  /** A turn after which zero is still between the limits settles at once or in
      the next turn. */
  lemma Sooner(b: Bracket, n: Bracket, crit: real)
    requires n == Bracket(b.Mid(), b.rgt) || n == Bracket(b.lft, b.Mid())
    requires crit > 1.5 && !(b.lft == 0.0 && b.rgt == 0.0) && !n.AwayFromZero()
    ensures b.Settles(crit) || n.Settles(crit)
  {
    SameSide(n.lft, n.rgt);
    if b.Mid() != 0.0 && b.Width() / 4.0 <= 1.5 * Abs(b.Mid()) {
      Strictly(b, crit);
    } else {
      Thirds(b, n);
      Strictly(n, crit);
    }
  }

  lemma Thirds(b: Bracket, n: Bracket)
    requires n == Bracket(b.Mid(), b.rgt) || n == Bracket(b.lft, b.Mid())
    requires !(b.lft == 0.0 && b.rgt == 0.0) && !((n.lft > 0.0 && n.rgt > 0.0) || (n.lft < 0.0 && n.rgt < 0.0))
    ensures (b.Mid() != 0.0 && b.Width() / 4.0 <= 1.5 * Abs(b.Mid())) || (n.Mid() != 0.0 && n.Width() / 4.0 <= 1.5 * Abs(n.Mid()))
  {
  }

  lemma Strictly(p: Bracket, crit: real)
    requires p.Mid() != 0.0 && p.Width() / 4.0 <= 1.5 * Abs(p.Mid()) && crit > 1.5
    ensures p.Settles(crit)
  {
    Scale(1.5, crit, Abs(p.Mid()));
  }

  function Identity(x: real): real { x }

  /** A function that crosses at 0 is bisected as the identity is: whether the loop
      ends depends on the limits alone. */
  lemma AtZeroLikeIdentity(f: real -> real, b: Bracket, crit: real)
    requires Crosses(f, b, 0.0)
    ensures Stops(f, f(b.lft), b, crit) <==> Stops(Identity, b.lft, b, crit)
  {
    if k: nat :| Settled(f, f(b.lft), b, crit, k) {
      SameTurns(f, b, k - 1);
      SameTurns(f, b, k);
      assert Settled(Identity, b.lft, b, crit, k);
    }
    if k: nat :| Settled(Identity, b.lft, b, crit, k) {
      SameTurns(f, b, k - 1);
      SameTurns(f, b, k);
      assert Settled(f, f(b.lft), b, crit, k);
    }
  }

  /** Left of zero is the side of the left limit. */
  lemma SideOfZero(b: Bracket, x: real)
    requires Between(b, 0.0) && Between(b, x)
    ensures b.lft * x > 0.0 <==> x != 0.0 && Between(Bracket(b.lft, 0.0), x)
  {
    SameSide(b.lft, x);
  }

  lemma SameTurn(f: real -> real, b: Bracket, p: Bracket)
    requires Crosses(f, b, 0.0) && Between(b, p.Mid())
    ensures Narrow(f, f(b.lft), p) == Narrow(Identity, b.lft, p)
  {
    SideOfZero(b, p.Mid());
  }

  lemma {:induction false} SameTurns(f: real -> real, b: Bracket, k: nat)
    requires Crosses(f, b, 0.0)
    ensures After(f, f(b.lft), b, k) == After(Identity, b.lft, b, k)
  {
    if k > 0 {
      SameTurns(f, b, k - 1);
      var p := After(f, f(b.lft), b, k - 1);
      StaysBetween(f, b, 0.0, k - 1);
      SameTurn(f, b, p);
    }
  }

  lemma StaysBetween(f: real -> real, b: Bracket, z: real, k: nat)
    requires Crosses(f, b, z)
    ensures Between(b, After(f, f(b.lft), b, k).Mid())
  {
    CrossingStays(f, b, z, k);
    var n := After(f, f(b.lft), b, k);
    Inner(b, z, n.lft, n.rgt);
  }

  lemma Inner(b: Bracket, z: real, l: real, r: real)
    requires Between(b, z) && Between(Bracket(b.lft, z), l) && Between(Bracket(z, b.rgt), r)
    ensures Between(b, 0.5 * (l + r))
  {
  }

  lemma IdentityCrosses(b: Bracket)
    requires b.lft < 0.0 < b.rgt
    ensures Crosses(Identity, b, 0.0)
  {
    forall x | Between(b, x) ensures b.lft * x > 0.0 <==> x != 0.0 && Between(Bracket(b.lft, 0.0), x) {
      SideOfZero(b, x);
    }
  }

  /** The identity on the limits -1 and 1: EHbisect does not return for a criterion
      up to one half, and returns for every larger one. */
  lemma NeverAtZero(crit: real)
    ensures Crosses(Identity, Bracket(-1.0, 1.0), 0.0)
    ensures Stops(Identity, -1.0, Bracket(-1.0, 1.0), crit) <==> crit > 0.5
  {
    var f, b := Identity, Bracket(-1.0, 1.0);
    IdentityCrosses(b);
    if crit <= 0.5 {
      StopsIff(f, b, 0.0, crit);
    } else {
      assert After(f, -1.0, b, 1) == Bracket(-1.0, 0.0);
      SettledIff(f, -1.0, b, crit, 2);
      assert Settled(f, -1.0, b, crit, 2);
    }
  }

  /** The identity on the limits -1 and 2: EHbisect does not return for a criterion
      up to three halves. */
  lemma NeverAtThirds(crit: real)
    ensures Crosses(Identity, Bracket(-1.0, 2.0), 0.0)
    ensures Stops(Identity, -1.0, Bracket(-1.0, 2.0), crit) <==> crit > 1.5
  {
    IdentityCrosses(Bracket(-1.0, 2.0));
    if crit > 1.5 {
      StopsSoon(Identity, -1.0, Bracket(-1.0, 2.0), crit);
    } else {
      forall k: nat ensures !Settled(Identity, -1.0, Bracket(-1.0, 2.0), crit, k) {
        ThirdsUnsettled(crit, k);
      }
    }
  }

  lemma ThirdsUnsettled(crit: real, k: nat)
    requires crit <= 1.5
    ensures !Settled(Identity, -1.0, Bracket(-1.0, 2.0), crit, k)
  {
    if k > 0 {
      ThirdsTurn(k - 1);
      SettledIff(Identity, -1.0, Bracket(-1.0, 2.0), crit, k);
      ThirdsFar(After(Identity, -1.0, Bracket(-1.0, 2.0), k - 1), crit);
    }
  }

  lemma ThirdsFar(p: Bracket, crit: real)
    requires p.lft < 0.0 < p.rgt && (p.rgt == -2.0 * p.lft || p.lft == -2.0 * p.rgt) && crit <= 1.5
    ensures !p.Settles(crit)
  {
    ThirdsWidth(p);
    Scale2(crit, 1.5, Abs(p.Mid()));
  }

  lemma ThirdsWidth(p: Bracket)
    requires p.lft < 0.0 < p.rgt && (p.rgt == -2.0 * p.lft || p.lft == -2.0 * p.rgt)
    ensures p.Width() / 4.0 == 1.5 * Abs(p.Mid())
  {
  }

  lemma {:induction false} ThirdsTurn(k: nat)
    ensures var n := After(Identity, -1.0, Bracket(-1.0, 2.0), k);
            n.lft < 0.0 < n.rgt && (n.rgt == -2.0 * n.lft || n.lft == -2.0 * n.rgt)
  {
    if k > 0 {
      ThirdsTurn(k - 1);
    }
  }
}
