/** The pixel conversions of PGS_DEM.h over the reals. Rows count from the north
    pole, columns from 180 degrees west. */
module Dem {
  import opened Reals

  /** FLT_EPSILON_DEF. */
  const EPSILON := 0.000000119209290

  /** The fields of the subset record the conversions use. */
  datatype Subset = Subset(horizPixSubgrid: nat, vertPixSubgrid: nat, subgridVert: nat, subgridHoriz: nat, pixPerDegree: nat, offset: real)

  function LatToPixel(lat: real, s: Subset): int { Trunc(s.offset + (90.0 - lat) * s.pixPerDegree as real + EPSILON) }

  function LonToPixel(lon: real, s: Subset): int { Trunc(s.offset + (180.0 + lon) * s.pixPerDegree as real + EPSILON) }

  function PixelToLat(row: int, s: Subset): real
    requires s.pixPerDegree > 0
  {
    90.0 - (row as real + 0.5 - s.offset) / s.pixPerDegree as real
  }

  function PixelToLon(col: int, s: Subset): real
    requires s.pixPerDegree > 0
  {
    (col as real + 0.5 - s.offset) / s.pixPerDegree as real - 180.0
  }

  function PixToPix(pix: int, orig: Subset, next: Subset): int
    requires orig.pixPerDegree > 0
  {
    Trunc(Scaled(pix as real + 0.5 - orig.offset, orig.pixPerDegree as real, next.pixPerDegree as real))
  }

  function Scaled(y: real, orig: real, next: real): real
    requires orig > 0.0
  {
    y * (next / orig)
  }

  /** C's integer division. */
  function Quotient(a: int, b: nat): int
    requires b > 0
  {
    if a >= 0 then a / b else -((-a) / b)
  }

  function PixToSubgrid(pixLat: int, pixLon: int, s: Subset): int
    requires s.horizPixSubgrid > 0 && s.vertPixSubgrid > 0
  {
    Quotient(pixLon, s.horizPixSubgrid) * s.subgridVert + Quotient(pixLat, s.vertPixSubgrid)
  }

  function LatLonToSubgrid(lat: real, lon: real, s: Subset): int
    requires s.horizPixSubgrid > 0 && s.vertPixSubgrid > 0
  {
    PixToSubgrid(LatToPixel(lat, s), LonToPixel(lon, s), s)
  }

  // ------------------------------------------------------------ there and back

  lemma Cancel(x: real, p: real)
    requires p != 0.0
    ensures x / p * p == x
  {
  }

  lemma RowThroughLat(row: int, s: Subset)
    requires s.pixPerDegree > 0
    ensures s.offset + (90.0 - PixelToLat(row, s)) * s.pixPerDegree as real == row as real + 0.5
    ensures s.offset + (180.0 + PixelToLon(row, s)) * s.pixPerDegree as real == row as real + 0.5
  {
    Cancel(row as real + 0.5 - s.offset, s.pixPerDegree as real);
  }

  lemma HalfUp(row: int)
    ensures Trunc(row as real + 0.5 + EPSILON) == row <==> row >= 0
  {
    if row >= 0 {
      TruncIs(row as real + 0.5 + EPSILON, row);
    } else {
      TruncIs(row as real + 0.5 + EPSILON, row + 1);
    }
  }

  /** The latitude of a row leads back to the row exactly when the row is not
      negative; whatever the offset and the resolution. */
  lemma RowBack(row: int, s: Subset)
    requires s.pixPerDegree > 0
    ensures LatToPixel(PixelToLat(row, s), s) == row <==> row >= 0
    ensures LonToPixel(PixelToLon(row, s), s) == row <==> row >= 0
  {
    RowThroughLat(row, s);
    HalfUp(row);
  }

  lemma Within(x: real, y: real, p: real, e: real)
    requires p > 0.0 && Abs(x * p - y) <= e
    ensures Abs(x - y / p) <= e / p
  {
    Cancel(y, p);
    Cancel(e, p);
    assert (x - y / p) * p == x * p - y;
    AbsScaled(x - y / p, p);
    Order(Abs(x - y / p), e / p, p);
  }

  lemma CentreNear(x: real, pix: int, s: Subset)
    requires s.pixPerDegree > 0 && s.offset + x * s.pixPerDegree as real >= 0.0
    requires pix == Trunc(s.offset + x * s.pixPerDegree as real + EPSILON)
    ensures Abs(x - (pix as real + 0.5 - s.offset) / s.pixPerDegree as real) <= 0.50000011920929 / s.pixPerDegree as real
  {
    HalfAway(x * s.pixPerDegree as real, s.offset, pix);
    Within(x, pix as real + 0.5 - s.offset, s.pixPerDegree as real, 0.5 + EPSILON);
  }

  lemma HalfAway(z: real, offset: real, pix: int)
    requires offset + z >= 0.0 && pix == Trunc(offset + z + EPSILON)
    ensures Abs(z - (pix as real + 0.5 - offset)) <= 0.5 + EPSILON
  {
  }

  lemma AbsScaled(d: real, p: real)
    requires p > 0.0
    ensures Abs(d) * p == Abs(d * p)
  {
  }

  lemma Order(a: real, b: real, p: real)
    requires p > 0.0
    ensures a * p <= b * p ==> a <= b
  {
    assert (a - b) * p == a * p - b * p;
  }

  /** The pixel of a latitude is the one whose centre is at most half a pixel
      away, up to the epsilon. */
  lemma LatNear(lat: real, s: Subset)
    requires s.pixPerDegree > 0 && s.offset + (90.0 - lat) * s.pixPerDegree as real >= 0.0
    ensures Abs(PixelToLat(LatToPixel(lat, s), s) - lat) <= 0.50000011920929 / s.pixPerDegree as real
  {
    CentreNear(90.0 - lat, LatToPixel(lat, s), s);
  }

  /** The same for the pixel of a longitude. */
  lemma LonNear(lon: real, s: Subset)
    requires s.pixPerDegree > 0 && s.offset + (180.0 + lon) * s.pixPerDegree as real >= 0.0
    ensures Abs(PixelToLon(LonToPixel(lon, s), s) - lon) <= 0.50000011920929 / s.pixPerDegree as real
  {
    CentreNear(180.0 + lon, LonToPixel(lon, s), s);
  }

  lemma Edge(y: real, lo: real, p: real)
    requires p > 0.0
    ensures y * p >= lo <==> y >= lo / p
  {
    var q := lo / p;
    assert q * p == lo;
    assert (y - q) * p == y * p - lo;
    SignOf(y - q, p);
  }

  lemma PixelEdges(x: real, pix: nat, s: Subset)
    requires s.pixPerDegree > 0 && pix > 0
    ensures var p := s.pixPerDegree as real;
            Trunc(s.offset + x * p + EPSILON) == pix <==>
              (pix as real - s.offset - 0.00000011920929) / p <= x < (pix as real + 1.0 - s.offset - 0.00000011920929) / p
  {
    var p := s.pixPerDegree as real;
    Edge(x, pix as real - s.offset - 0.00000011920929, p);
    Edge(x, pix as real + 1.0 - s.offset - 0.00000011920929, p);
    BetweenEdges(x * p, s.offset, pix);
  }

  lemma BetweenEdges(z: real, offset: real, pix: nat)
    requires pix > 0
    ensures Trunc(offset + z + EPSILON) == pix <==>
              z >= pix as real - offset - 0.00000011920929 && !(z >= pix as real + 1.0 - offset - 0.00000011920929)
  {
    TruncBetween(offset + z + EPSILON, pix);
  }

  /** The latitudes of a row: it starts at its northern edge and ends short of its
      southern one, both a little to the north. Rows go south from 90 degrees. */
  lemma RowEdges(lat: real, row: nat, s: Subset)
    requires s.pixPerDegree > 0 && row > 0
    ensures var p := s.pixPerDegree as real;
            LatToPixel(lat, s) == row <==>
              90.0 - (row as real + 1.0 - s.offset - 0.00000011920929) / p < lat <= 90.0 - (row as real - s.offset - 0.00000011920929) / p
  {
    PixelEdges(90.0 - lat, row, s);
  }

  /** The longitudes of a column, going east from 180 degrees west. */
  lemma ColumnEdges(lon: real, col: nat, s: Subset)
    requires s.pixPerDegree > 0 && col > 0
    ensures var p := s.pixPerDegree as real;
            LonToPixel(lon, s) == col <==>
              (col as real - s.offset - 0.00000011920929) / p - 180.0 <= lon < (col as real + 1.0 - s.offset - 0.00000011920929) / p - 180.0
  {
    PixelEdges(180.0 + lon, col, s);
  }

  lemma TruncBetween(x: real, n: nat)
    requires n > 0
    ensures Trunc(x) == n <==> n as real <= x < n as real + 1.0
  {
    if n as real <= x < n as real + 1.0 {
      TruncIs(x, n);
    }
  }

  /** Between two resolutions the position of the centre decides, whatever the offsets:
      the pixel of the other resolution that holds it, without any epsilon. */
  lemma CentreDecides(pix: int, orig: Subset, next: Subset)
    requires orig.pixPerDegree > 0
    ensures PixToPix(pix, orig, next) == Trunc((PixelToLon(pix, orig) + 180.0) * next.pixPerDegree as real)
    ensures PixToPix(pix, orig, next) == Trunc((90.0 - PixelToLat(pix, orig)) * next.pixPerDegree as real)
  {
    CentreAt(pix, orig, next, PixelToLon(pix, orig) + 180.0);
    CentreAt(pix, orig, next, 90.0 - PixelToLat(pix, orig));
  }

  lemma CentreAt(pix: int, orig: Subset, next: Subset, x: real)
    requires orig.pixPerDegree > 0 && x == (pix as real + 0.5 - orig.offset) / orig.pixPerDegree as real
    ensures PixToPix(pix, orig, next) == Trunc(x * next.pixPerDegree as real)
  {
    ScaledIs(x, pix as real + 0.5 - orig.offset, orig.pixPerDegree as real, next.pixPerDegree as real);
  }

  lemma ScaledIs(x: real, y: real, p: real, q: real)
    requires p > 0.0 && x == y / p
    ensures x * q == Scaled(y, p, q)
  {
    Cancel(y, p);
    Cancel(q, p);
    Exchange(x, y, q, p, q / p);
  }

  lemma Thrice(x: real, r: real, p: real)
    ensures x * (r * p) == (x * p) * r
  {
  }

  lemma Exchange(x: real, y: real, q: real, p: real, r: real)
    requires x * p == y && r * p == q
    ensures x * q == y * r
  {
    calc {
      x * q;
      x * (r * p);
      { Thrice(x, r, p); }
      (x * p) * r;
      y * r;
    }
  }

  // ------------------------------------------------------------ two resolutions

  /** Both centre located, the first m times finer. */
  predicate Finer(fine: Subset, coarse: Subset, m: nat) {
    m > 0 && coarse.pixPerDegree > 0 && fine.pixPerDegree == m * coarse.pixPerDegree && fine.offset == 0.0 == coarse.offset
  }

  lemma Ratios(fine: Subset, coarse: Subset, m: nat)
    requires Finer(fine, coarse, m)
    ensures fine.pixPerDegree > 0
    ensures fine.pixPerDegree as real / coarse.pixPerDegree as real == m as real
    ensures coarse.pixPerDegree as real / fine.pixPerDegree as real == 1.0 / m as real
  {
    var c, f, k := coarse.pixPerDegree as real, fine.pixPerDegree as real, m as real;
    assert f == k * c;
    assert f / c * c == k * c;
    assert c / f * f == c;
    assert 1.0 / k * k == 1.0;
    assert 1.0 / k * f == c;
  }

  /** Which fine pixel: the middle of the coarse one. */
  lemma MiddlePixel(pix: nat, fine: Subset, coarse: Subset, m: nat)
    requires Finer(fine, coarse, m)
    ensures PixToPix(pix, coarse, fine) == pix * m + m / 2
  {
    Ratios(fine, coarse, m);
    HalfOver(pix, m);
    TruncIs((pix as real + 0.5) * m as real, pix * m + m / 2);
  }

  /** The middle of m fine pixels. */
  lemma HalfOver(pix: nat, m: nat)
    requires m > 0
    ensures var x := (pix as real + 0.5) * m as real;
            (pix * m + m / 2) as real <= x < (pix * m + m / 2) as real + 1.0
  {
    ProductAsReal(pix, m);
    Spread(pix as real, m as real);
    HalfAsReal(m);
  }

  lemma ProductAsReal(a: nat, b: nat)
    ensures (a * b) as real == a as real * b as real
  {
  }

  lemma Spread(a: real, b: real)
    ensures (a + 0.5) * b == a * b + 0.5 * b
  {
  }

  lemma HalfAsReal(m: nat)
    ensures (m / 2) as real <= 0.5 * m as real < (m / 2) as real + 1.0
  {
  }

  /** Which coarse pixel: the one that holds the fine one. */
  lemma HoldingPixel(pix: nat, fine: Subset, coarse: Subset, m: nat)
    requires Finer(fine, coarse, m)
    ensures PixToPix(pix, fine, coarse) == pix / m
  {
    Ratios(fine, coarse, m);
    var k, j := pix / m, pix % m;
    InCoarse(pix, m);
    TruncIs((pix as real + 0.5) * (1.0 / m as real), k);
  }

  lemma InCoarse(pix: nat, m: nat)
    requires m > 0
    ensures (pix as real + 0.5) * (1.0 / m as real) == (pix / m) as real + ((pix % m) as real + 0.5) / m as real
    ensures 0.0 < ((pix % m) as real + 0.5) / m as real < 1.0
  {
    RealParts(pix, pix / m, pix % m, m);
    Distribute((pix / m) as real, (pix % m) as real + 0.5, m as real);
    Proper((pix % m) as real + 0.5, m as real);
  }

  lemma RealParts(pix: nat, k: nat, j: nat, m: nat)
    requires m > 0 && k == pix / m && j == pix % m
    ensures pix as real == k as real * m as real + j as real && j < m
  {
    assert pix == k * m + j;
    RealProduct(k, m);
  }

  lemma RealProduct(k: nat, m: nat)
    ensures (k * m) as real == k as real * m as real
  {
  }

  lemma Distribute(k: real, x: real, r: real)
    requires r > 0.0
    ensures (k * r + x) * (1.0 / r) == k + x / r
  {
    var q := x / r;
    assert q * r == x;
    Shift(k, q, r, 1.0 / r);
  }

  lemma Shift(k: real, q: real, r: real, i: real)
    requires r * i == 1.0
    ensures (k * r + q * r) * i == k + q
  {
    assert (k * r + q * r) * i == (k + q) * (r * i);
  }

  lemma Proper(x: real, r: real)
    requires 0.0 < x < r
    ensures 0.0 < x / r < 1.0
  {
    var q := x / r;
    assert q * r == x;
    assert (1.0 - q) * r == r - x;
    SignOf(q, r);
    SignOf(1.0 - q, r);
  }

  lemma SignOf(a: real, r: real)
    requires r > 0.0
    ensures a * r > 0.0 <==> a > 0.0
  {
  }

  /** To a finer resolution and back is the identity. */
  lemma FinerAndBack(pix: nat, fine: Subset, coarse: Subset, m: nat)
    requires Finer(fine, coarse, m)
    ensures fine.pixPerDegree > 0 && PixToPix(PixToPix(pix, coarse, fine), fine, coarse) == pix
  {
    Ratios(fine, coarse, m);
    MiddlePixel(pix, fine, coarse, m);
    HoldingPixel(pix * m + m / 2, fine, coarse, m);
    DivisionIs(pix, m / 2, m);
  }

  lemma DivisionIs(q: nat, r: nat, m: nat)
    requires r < m
    ensures (q * m + r) / m == q
  {
    Digits((q * m + r) / m, (q * m + r) % m, q, r, m);
  }

  /** From fine to coarse directly, and by way of the latitude: the same pixel
      exactly when the epsilon does not lift the fine pixel's centre over the
      edge. */
  lemma SamePixel(pix: nat, fine: Subset, coarse: Subset, m: nat)
    requires Finer(fine, coarse, m)
    ensures fine.pixPerDegree > 0
    ensures PixToPix(pix, fine, coarse) == LatToPixel(PixelToLat(pix, fine), coarse) <==>
              ((pix % m) as real + 0.5) / m as real + EPSILON < 1.0
  {
    var k, within := TwoWays(pix, fine, coarse, m);
    Lifted(k, within);
  }

  lemma TwoWays(pix: nat, fine: Subset, coarse: Subset, m: nat) returns (k: nat, within: real)
    requires Finer(fine, coarse, m)
    ensures fine.pixPerDegree > 0 && PixToPix(pix, fine, coarse) == k && 0.0 < within == ((pix % m) as real + 0.5) / m as real
    ensures LatToPixel(PixelToLat(pix, fine), coarse) == Trunc(k as real + within + EPSILON)
  {
    k, within := pix / m, ((pix % m) as real + 0.5) / m as real;
    Ratios(fine, coarse, m);
    HoldingPixel(pix, fine, coarse, m);
    InCoarse(pix, m);
    ByLatitude(pix, fine, coarse, 1.0 / m as real, k as real + within);
  }

  lemma ByLatitude(pix: nat, fine: Subset, coarse: Subset, ratio: real, x: real)
    requires fine.pixPerDegree > 0 && fine.offset == 0.0 == coarse.offset
    requires ratio == coarse.pixPerDegree as real / fine.pixPerDegree as real && x == (pix as real + 0.5) * ratio
    ensures LatToPixel(PixelToLat(pix, fine), coarse) == Trunc(x + EPSILON)
  {
    Times(pix as real + 0.5, coarse.pixPerDegree as real, fine.pixPerDegree as real);
  }

  lemma Times(y: real, c: real, f: real)
    requires f != 0.0
    ensures y / f * c == y * (c / f)
  {
  }

  lemma Lifted(k: nat, within: real)
    requires 0.0 < within
    ensures Trunc(k as real + within + EPSILON) == k <==> within + EPSILON < 1.0
  {
    if within + EPSILON < 1.0 {
      TruncIs(k as real + within + EPSILON, k);
    }
  }

  /** So the two ways agree on every pixel exactly when half a fine pixel exceeds
      the epsilon. */
  lemma SamePixels(fine: Subset, coarse: Subset, m: nat)
    requires Finer(fine, coarse, m)
    ensures fine.pixPerDegree > 0
    ensures (forall pix: nat :: PixToPix(pix, fine, coarse) == LatToPixel(PixelToLat(pix, fine), coarse)) <==>
              0.5 / m as real > EPSILON
  {
    Ratios(fine, coarse, m);
    var h := 0.5 / m as real;
    LastInCoarse(m);
    if h > EPSILON {
      forall pix: nat ensures PixToPix(pix, fine, coarse) == LatToPixel(PixelToLat(pix, fine), coarse) {
        SamePixel(pix, fine, coarse, m);
        CentreBelow(pix % m, m);
      }
    } else {
      SamePixel(m - 1, fine, coarse, m);
      assert PixToPix(m - 1, fine, coarse) != LatToPixel(PixelToLat(m - 1, fine), coarse);
    }
  }

  lemma LastInCoarse(m: nat)
    requires m > 0
    ensures (m - 1) % m == m - 1 && ((m - 1) as real + 0.5) / m as real == 1.0 - 0.5 / m as real
  {
    var r := m as real;
    assert ((m - 1) as real + 0.5) / r * r == r - 0.5;
    assert (1.0 - 0.5 / r) * r == r - 0.5;
  }

  lemma CentreBelow(j: nat, m: nat)
    requires j < m
    ensures (j as real + 0.5) / m as real <= 1.0 - 0.5 / m as real
  {
    var r := m as real;
    var a, b := (j as real + 0.5) / r, 0.5 / r;
    assert a * r == j as real + 0.5;
    assert b * r == 0.5;
    assert (1.0 - b - a) * r >= 0.0;
  }

  // ----------------------------------------------------------------- subgrids

  /** A pixel of the world. */
  predicate OnGrid(pixLat: int, pixLon: int, s: Subset) {
    && s.horizPixSubgrid > 0 && s.vertPixSubgrid > 0
    && 0 <= pixLat < s.vertPixSubgrid * s.subgridVert && 0 <= pixLon < s.horizPixSubgrid * s.subgridHoriz
  }

  lemma BlockBelow(pix: nat, size: nat, blocks: nat)
    requires size > 0 && pix < size * blocks
    ensures pix / size < blocks
  {
    AtLeast(blocks, pix / size, size);
    assert pix >= pix / size * size;
  }

  lemma AtLeast(a: nat, b: nat, n: nat)
    ensures a <= b ==> a * n <= b * n
  {
    if a <= b {
      assert (b - a) * n >= 0;
    }
  }

  /** Subgrids are numbered from 0 without gaps or clashes: two pixels have the
      same number exactly when they lie in the same subgrid. */
  lemma SubgridNumbers(lat1: int, lon1: int, lat2: int, lon2: int, s: Subset)
    requires OnGrid(lat1, lon1, s) && OnGrid(lat2, lon2, s)
    ensures 0 <= PixToSubgrid(lat1, lon1, s) < s.subgridHoriz * s.subgridVert
    ensures PixToSubgrid(lat1, lon1, s) == PixToSubgrid(lat2, lon2, s) <==>
              lat1 / s.vertPixSubgrid == lat2 / s.vertPixSubgrid && lon1 / s.horizPixSubgrid == lon2 / s.horizPixSubgrid
  {
    BlockBelow(lat1, s.vertPixSubgrid, s.subgridVert);
    BlockBelow(lat2, s.vertPixSubgrid, s.subgridVert);
    BlockBelow(lon1, s.horizPixSubgrid, s.subgridHoriz);
    BlockBelow(lon2, s.horizPixSubgrid, s.subgridHoriz);
    Digits(lon1 / s.horizPixSubgrid, lat1 / s.vertPixSubgrid, lon2 / s.horizPixSubgrid, lat2 / s.vertPixSubgrid, s.subgridVert);
    DigitsBelow(lon1 / s.horizPixSubgrid, lat1 / s.vertPixSubgrid, s.subgridHoriz, s.subgridVert);
  }

  lemma Digits(a: nat, b: nat, c: nat, d: nat, n: nat)
    requires b < n && d < n
    ensures a * n + b == c * n + d <==> a == c && b == d
  {
    if a < c {
      DigitsBelow(a, b, c, n);
      assert a * n + b < c * n;
    } else if c < a {
      DigitsBelow(c, d, a, n);
      assert c * n + d < a * n;
    }
  }

  lemma DigitsBelow(a: nat, b: nat, m: nat, n: nat)
    requires a < m && b < n
    ensures a * n + b < m * n
  {
    AtLeast(a + 1, m, n);
    assert (a + 1) * n == a * n + n;
  }

  /** The division of C: what is left over has the sign of the pixel and is smaller than
      the divisor. */
  lemma DivisionLeaves(a: int, b: nat)
    requires b > 0
    ensures var left := a - Quotient(a, b) * b; Abs(left as real) < b as real && (a >= 0 ==> left >= 0) && (a <= 0 ==> left <= 0)
  {
    var n := if a >= 0 then a else -a;
    assert n == n / b * b + n % b;
  }

  /** Subgrids are numbered down the columns, from the north: the next one to the south
      has the next number, the next one to the east is a column of subgrids further. */
  lemma SubgridSteps(pixLat: nat, pixLon: nat, s: Subset)
    requires s.horizPixSubgrid > 0 && s.vertPixSubgrid > 0
    ensures PixToSubgrid(0, 0, s) == 0
    ensures PixToSubgrid(pixLat + s.vertPixSubgrid, pixLon, s) == PixToSubgrid(pixLat, pixLon, s) + 1
    ensures PixToSubgrid(pixLat, pixLon + s.horizPixSubgrid, s) == PixToSubgrid(pixLat, pixLon, s) + s.subgridVert
  {
    OneBlockMore(pixLat, s.vertPixSubgrid);
    OneBlockMore(pixLon, s.horizPixSubgrid);
    OneColumnMore(pixLon / s.horizPixSubgrid, s.subgridVert);
    assert 0 * s.subgridVert == 0;
  }

  lemma OneBlockMore(a: nat, b: nat)
    requires b > 0
    ensures (a + b) / b == a / b + 1 && 0 / b == 0
  {
    assert a == a / b * b + a % b;
    DivisionIs(a / b + 1, a % b, b);
    assert (a / b + 1) * b + a % b == a + b;
  }

  lemma OneColumnMore(k: nat, n: nat)
    ensures (k + 1) * n == k * n + n
  {
  }

  /** The subgrid found from a pixel's position is the pixel's own. */
  lemma SubgridOfCentre(row: nat, col: nat, s: Subset)
    requires s.pixPerDegree > 0 && s.horizPixSubgrid > 0 && s.vertPixSubgrid > 0
    ensures LatLonToSubgrid(PixelToLat(row, s), PixelToLon(col, s), s) == PixToSubgrid(row, col, s)
  {
    RowBack(row, s);
    RowBack(col, s);
  }
}
