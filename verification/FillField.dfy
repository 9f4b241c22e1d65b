/** EHfillfld: a field of a merged SDS is filled slab by slab from one bounded
    buffer. */
module FillField {

  /** HDFE_MAXMEMBUF. */
  const MAX_BUFFER: nat := 256 * 256 * 16

  type Byte = bv8

  datatype Cell = Cell(x: nat, y: nat, z: nat)

  /** A box of cells: SDwritedata's start and edge arrays. */
  datatype Slab = Slab(x: nat, y: nat, z: nat, dx: nat, dy: nat, dz: nat) {
    predicate Has(c: Cell) { x <= c.x < x + dx && y <= c.y < y + dy && z <= c.z < z + dz }

    function Volume(): nat { dx * dy * dz }

    /** Row-major place of a cell in the data of the slab. */
    function Place(c: Cell): nat
      requires Has(c)
    {
      RowMajor(RowMajor(c.x - x, c.y - y, dy), c.z - z, dz)
    }

    function Cells(): set<Cell> {
      set a, b, c | x <= a < x + dx && y <= b < y + dy && z <= c < z + dz :: Cell(a, b, c)
    }
  }

  function RowMajor(a: nat, b: nat, m: nat): nat { a * m + b }

  lemma Below(a: nat, n: nat, b: nat, m: nat)
    requires a < n && b < m
    ensures RowMajor(a, b, m) < n * m
  {
    Fits(a, n, m);
  }

  lemma PlaceInside(s: Slab, c: Cell)
    requires s.Has(c)
    ensures s.Place(c) < s.Volume()
  {
    Below(c.x - s.x, s.dx, c.y - s.y, s.dy);
    Below(RowMajor(c.x - s.x, c.y - s.y, s.dy), s.dx * s.dy, c.z - s.z, s.dz);
  }

  /** Element k of a buffer of elements as long as v is v. */
  predicate Element(buf: seq<Byte>, k: nat, v: seq<Byte>) {
    k * |v| + |v| <= |buf| && buf[k * |v|..k * |v| + |v|] == v
  }

  lemma AtMost(a: nat, count: nat, size: nat)
    requires a <= count
    ensures a * size <= count * size
  {
    assert (count - a) * size >= 0;
    assert count * size == a * size + (count - a) * size;
  }

  lemma Fits(k: nat, count: nat, size: nat)
    ensures k < count ==> k * size + size <= count * size
  {
    if k < count {
      AtMost(k + 1, count, size);
    }
  }

  /** The field's cells once every cell of the slab holds v. */
  function Painted(cells: map<Cell, seq<Byte>>, s: Slab, v: seq<Byte>): map<Cell, seq<Byte>> {
    map c | c in cells.Keys + s.Cells() :: if s.Has(c) then v else cells[c]
  }

  /** Painting slab after slab. */
  function PaintedAll(cells: map<Cell, seq<Byte>>, slabs: seq<Slab>, v: seq<Byte>): map<Cell, seq<Byte>> {
    if slabs == [] then cells else Painted(PaintedAll(cells, slabs[..|slabs| - 1], v), slabs[|slabs| - 1], v)
  }

  /** A scientific data set: its cells, and the slabs written so far. */
  class Sds {
    var cells: map<Cell, seq<Byte>>
    ghost var log: seq<Slab>

    constructor ()
      ensures cells == map[] && log == []
    {
      cells, log := map[], [];
    }

    /** SDwritedata without stride: the buffer's elements go to the slab's cells
        in row-major order. */
    method WriteData(s: Slab, buf: array<Byte>, size: nat) returns (status: int)
      requires s.Volume() * size <= buf.Length
      modifies this
      ensures status == 0 && log == old(log) + [s] && cells.Keys == old(cells).Keys + s.Cells()
      ensures forall c <- cells :: cells[c] == if s.Has(c) then ElementAt(buf[..], s.Place(c), size) else old(cells)[c]
    {
      forall c | s.Has(c) ensures s.Place(c) * size + size <= buf.Length {
        PlaceInside(s, c);
        Fits(s.Place(c), s.Volume(), size);
      }
      cells := map c | c in cells.Keys + s.Cells() :: if s.Has(c) then ElementAt(buf[..], s.Place(c), size) else cells[c];
      log := log + [s];
      status := 0;
    }

    /** Writing a slab from a buffer full of v paints it. */
    method WriteFill(s: Slab, buf: array<Byte>, count: nat, ghost v: seq<Byte>, size: nat) returns (status: int)
      requires |v| == size && s.Volume() <= count && buf.Length == count * size
      requires forall k | 0 <= k < count :: Element(buf[..], k, v)
      modifies this
      ensures status == 0 && log == old(log) + [s] && cells == Painted(old(cells), s, v)
    {
      AtMost(s.Volume(), count, size);
      FullBuffer(s, buf[..], count, v);
      status := WriteData(s, buf, size);
    }
  }

  /** Every element of the slab's data is v. */
  lemma FullBuffer(s: Slab, buf: seq<Byte>, count: nat, v: seq<Byte>)
    requires s.Volume() <= count && forall k | 0 <= k < count :: Element(buf, k, v)
    ensures forall c | s.Has(c) :: ElementAt(buf, s.Place(c), |v|) == v
  {
    forall c | s.Has(c) ensures ElementAt(buf, s.Place(c), |v|) == v {
      PlaceInside(s, c);
      assert Element(buf, s.Place(c), v);
    }
  }

  function ElementAt(buf: seq<Byte>, k: nat, size: nat): seq<Byte> {
    if k * size + size <= |buf| then buf[k * size..k * size + size] else []
  }

  /** malloc, and a loop of memcpy: count elements, each the fill value. */
  method FillBuffer(count: nat, size: nat, fillval: seq<Byte>) returns (fillbuf: array<Byte>)
    requires |fillval| == size
    ensures fresh(fillbuf) && fillbuf.Length == count * size
    ensures forall k | 0 <= k < count :: Element(fillbuf[..], k, fillval)
  {
    fillbuf := new Byte[count * size];
    var i := 0;
    while i < count
      invariant 0 <= i <= count
      invariant forall k | 0 <= k < i :: Element(fillbuf[..], k, fillval)
    {
      Fits(i, count, size);
      CopyElement(fillbuf, i, fillval);
      i := i + 1;
    }
  }

  method CopyElement(fillbuf: array<Byte>, i: nat, fillval: seq<Byte>)
    requires i * |fillval| + |fillval| <= fillbuf.Length
    modifies fillbuf
    ensures Element(fillbuf[..], i, fillval)
    ensures forall k | 0 <= k < i && old(Element(fillbuf[..], k, fillval)) :: Element(fillbuf[..], k, fillval)
  {
    var at, size := i * |fillval|, |fillval|;
    forall j | 0 <= j < size {
      fillbuf[at + j] := fillval[j];
    }
    assert fillbuf[..][at..at + size] == fillval;
    forall k | 0 <= k < i && old(Element(fillbuf[..], k, fillval)) ensures Element(fillbuf[..], k, fillval) {
      Fits(k, i, size);
      assert fillbuf[..][k * size..k * size + size] == old(fillbuf[..])[k * size..k * size + size];
    }
  }

  // ---------------------------------------------------------------- the slabs

  /** How many strips of at most n cover len. */
  function StripCount(len: nat, n: nat): nat
    requires n > 0
  {
    len / n + if len / n * n != len then 1 else 0
  }

  /** The i-th strip is full, except that the last one may be shorter. */
  function StripEdge(len: nat, n: nat, i: nat): nat
    requires n > 0 && i < StripCount(len, n)
  {
    if i < len / n then n else len - i * n
  }

  function PlaneSlabs(off: nat, dims: (nat, nat, nat), n: nat): seq<Slab>
    requires n > 0
  {
    seq(StripCount(dims.0, n), i requires 0 <= i < StripCount(dims.0, n) =>
      Slab(off + i * n, 0, 0, StripEdge(dims.0, n, i), dims.1, dims.2))
  }

  function RowSlabs(x: nat, dims: (nat, nat, nat), n: nat): seq<Slab>
    requires n > 0
  {
    seq(StripCount(dims.1, n), i requires 0 <= i < StripCount(dims.1, n) =>
      Slab(x, i * n, 0, 1, StripEdge(dims.1, n, i), dims.2))
  }

  function AllRowSlabs(off: nat, planes: nat, dims: (nat, nat, nat), n: nat): seq<Slab>
    requires n > 0
  {
    if planes == 0 then [] else AllRowSlabs(off, planes - 1, dims, n) + RowSlabs(off + planes - 1, dims, n)
  }

  function Field(off: nat, dims: (nat, nat, nat)): Slab { Slab(off, 0, 0, dims.0, dims.1, dims.2) }

  predicate Fillable(dims: (nat, nat, nat), size: nat) {
    dims.0 > 0 && dims.1 > 0 && dims.2 > 0 && size > 0 && dims.2 * size <= MAX_BUFFER
  }

  /** The slabs written, in order, in the three regimes. */
  function Slabs(off: nat, dims: (nat, nat, nat), size: nat): seq<Slab>
    requires Fillable(dims, size)
  {
    if dims.0 * dims.1 * dims.2 * size < MAX_BUFFER then [Field(off, dims)]
    else if dims.1 * dims.2 * size < MAX_BUFFER then PlaneSlabs(off, dims, Planes(dims, size))
    else AllRowSlabs(off, dims.0, dims, Rows(dims, size))
  }

  /** How many planes, or rows, one buffer holds. */
  function Planes(dims: (nat, nat, nat), size: nat): (n: nat)
    requires Fillable(dims, size) && dims.1 * dims.2 * size < MAX_BUFFER
    ensures n > 0 && dims.1 * dims.2 * size * n <= MAX_BUFFER
  {
    Product3(dims.1, dims.2, size);
    Quotient(MAX_BUFFER, dims.1 * dims.2 * size);
    MAX_BUFFER / (dims.1 * dims.2 * size)
  }

  function Rows(dims: (nat, nat, nat), size: nat): (n: nat)
    requires Fillable(dims, size)
    ensures n > 0 && dims.2 * size * n <= MAX_BUFFER
  {
    Product(dims.2, size);
    Quotient(MAX_BUFFER, dims.2 * size);
    MAX_BUFFER / (dims.2 * size)
  }

  lemma Product(a: nat, b: nat)
    requires a > 0 && b > 0
    ensures a * b > 0
  {
  }

  lemma Product3(a: nat, b: nat, c: nat)
    requires a > 0 && b > 0 && c > 0
    ensures a * b * c > 0
  {
    Product(a, b);
    Product(a * b, c);
  }

  lemma Quotient(a: nat, b: nat)
    requires 0 < b <= a
    ensures a / b > 0 && b * (a / b) <= a
  {
  }

  // ------------------------------------------------------------------- tiling

  ghost predicate Apart(a: Slab, b: Slab) { forall c :: !(a.Has(c) && b.Has(c)) }

  /** The slabs cut the box up: none reaches outside, none meets another, every
      cell is in one. */
  ghost predicate Tiles(slabs: seq<Slab>, box: Slab) {
    && (forall k, c | 0 <= k < |slabs| && slabs[k].Has(c) :: box.Has(c))
    && (forall c | box.Has(c) :: exists k :: 0 <= k < |slabs| && slabs[k].Has(c))
    && (forall j, k | 0 <= j < k < |slabs| :: Apart(slabs[j], slabs[k]))
  }

  lemma StripOf(p: nat, len: nat, n: nat)
    requires n > 0 && p < len
    ensures p / n < StripCount(len, n) && p / n * n <= p < p / n * n + StripEdge(len, n, p / n)
  {
    var q, l := p / n, len / n;
    assert q * n <= p < q * n + n;
    assert l * n <= len < l * n + n;
    Fits(l, q, n);
  }

  lemma StripInside(len: nat, n: nat, i: nat)
    requires n > 0 && i < StripCount(len, n)
    ensures i * n + StripEdge(len, n, i) <= len && 0 < StripEdge(len, n, i) <= n
  {
    var l := len / n;
    assert l * n <= len < l * n + n;
    if i < l {
      Fits(i, l, n);
    }
  }

  lemma StripsOrdered(len: nat, n: nat, i: nat, j: nat)
    requires n > 0 && i < j < StripCount(len, n)
    ensures i * n + StripEdge(len, n, i) <= j * n
  {
    StripInside(len, n, i);
    Fits(i, j, n);
  }

  lemma PlanesInside(off: nat, dims: (nat, nat, nat), n: nat, k: nat, c: Cell)
    requires n > 0 && k < |PlaneSlabs(off, dims, n)| && PlaneSlabs(off, dims, n)[k].Has(c)
    ensures Field(off, dims).Has(c)
  {
    var start, edge := PlaneIs(off, dims, n, k);
  }

  lemma PlaneIs(off: nat, dims: (nat, nat, nat), n: nat, k: nat) returns (start: nat, edge: nat)
    requires n > 0 && k < |PlaneSlabs(off, dims, n)|
    ensures PlaneSlabs(off, dims, n)[k] == Slab(off + start, 0, 0, edge, dims.1, dims.2) && start + edge <= dims.0
  {
    StripInside(dims.0, n, k);
    start, edge := k * n, StripEdge(dims.0, n, k);
  }

  lemma PlanesCover(off: nat, dims: (nat, nat, nat), n: nat, c: Cell) returns (k: nat)
    requires n > 0 && Field(off, dims).Has(c)
    ensures k < |PlaneSlabs(off, dims, n)| && PlaneSlabs(off, dims, n)[k].Has(c)
  {
    k := (c.x - off) / n;
    StripOf(c.x - off, dims.0, n);
  }

  lemma PlanesTile(off: nat, dims: (nat, nat, nat), n: nat)
    requires n > 0
    ensures Tiles(PlaneSlabs(off, dims, n), Field(off, dims))
  {
    var slabs, box := PlaneSlabs(off, dims, n), Field(off, dims);
    forall k, c | 0 <= k < |slabs| && slabs[k].Has(c) ensures box.Has(c) {
      PlanesInside(off, dims, n, k, c);
    }
    forall c | box.Has(c) ensures exists k :: 0 <= k < |slabs| && slabs[k].Has(c) {
      var k := PlanesCover(off, dims, n, c);
    }
    forall j, k | 0 <= j < k < |slabs| ensures Apart(slabs[j], slabs[k]) {
      StripsOrdered(dims.0, n, j, k);
    }
  }

  lemma RowsInside(x: nat, dims: (nat, nat, nat), n: nat, k: nat, c: Cell)
    requires n > 0 && k < |RowSlabs(x, dims, n)| && RowSlabs(x, dims, n)[k].Has(c)
    ensures Slab(x, 0, 0, 1, dims.1, dims.2).Has(c)
  {
    var start, edge := RowIs(x, dims, n, k);
  }

  lemma RowIs(x: nat, dims: (nat, nat, nat), n: nat, k: nat) returns (start: nat, edge: nat)
    requires n > 0 && k < |RowSlabs(x, dims, n)|
    ensures RowSlabs(x, dims, n)[k] == Slab(x, start, 0, 1, edge, dims.2) && start + edge <= dims.1
  {
    StripInside(dims.1, n, k);
    start, edge := k * n, StripEdge(dims.1, n, k);
  }

  lemma RowsCover(x: nat, dims: (nat, nat, nat), n: nat, c: Cell) returns (k: nat)
    requires n > 0 && Slab(x, 0, 0, 1, dims.1, dims.2).Has(c)
    ensures k < |RowSlabs(x, dims, n)| && RowSlabs(x, dims, n)[k].Has(c)
  {
    k := c.y / n;
    StripOf(c.y, dims.1, n);
  }

  lemma RowsTile(x: nat, dims: (nat, nat, nat), n: nat)
    requires n > 0
    ensures Tiles(RowSlabs(x, dims, n), Slab(x, 0, 0, 1, dims.1, dims.2))
  {
    var slabs, box := RowSlabs(x, dims, n), Slab(x, 0, 0, 1, dims.1, dims.2);
    forall k, c | 0 <= k < |slabs| && slabs[k].Has(c) ensures box.Has(c) {
      RowsInside(x, dims, n, k, c);
    }
    forall c | box.Has(c) ensures exists k :: 0 <= k < |slabs| && slabs[k].Has(c) {
      var k := RowsCover(x, dims, n, c);
    }
    forall j, k | 0 <= j < k < |slabs| ensures Apart(slabs[j], slabs[k]) {
      StripsOrdered(dims.1, n, j, k);
    }
  }

  lemma TilesAppend(a: seq<Slab>, b: seq<Slab>, x: nat, p: nat, q: nat, dy: nat, dz: nat)
    requires Tiles(a, Slab(x, 0, 0, p, dy, dz)) && Tiles(b, Slab(x + p, 0, 0, q, dy, dz))
    ensures Tiles(a + b, Slab(x, 0, 0, p + q, dy, dz))
  {
    var s := a + b;
    var left, right, box := Slab(x, 0, 0, p, dy, dz), Slab(x + p, 0, 0, q, dy, dz), Slab(x, 0, 0, p + q, dy, dz);
    assert Apart(left, right);
    forall k, c | 0 <= k < |s| && s[k].Has(c) ensures box.Has(c) {
      if k < |a| {
        assert a[k].Has(c) && left.Has(c);
      } else {
        assert b[k - |a|].Has(c) && right.Has(c);
      }
    }
    forall c | box.Has(c) ensures exists k :: 0 <= k < |s| && s[k].Has(c) {
      if left.Has(c) {
        var k :| 0 <= k < |a| && a[k].Has(c);
        assert s[k].Has(c);
      } else {
        assert right.Has(c);
        var k :| 0 <= k < |b| && b[k].Has(c);
        assert s[|a| + k].Has(c);
      }
    }
    forall j, k | 0 <= j < k < |s| ensures Apart(s[j], s[k]) {
      if k < |a| {
        assert s[j] == a[j] && s[k] == a[k] && Apart(a[j], a[k]);
      } else if |a| <= j {
        assert s[j] == b[j - |a|] && s[k] == b[k - |a|] && Apart(b[j - |a|], b[k - |a|]);
      } else {
        Sides(a[j], left, b[k - |a|], right);
      }
    }
  }

  lemma Sides(a: Slab, left: Slab, b: Slab, right: Slab)
    requires Apart(left, right) && (forall c | a.Has(c) :: left.Has(c)) && forall c | b.Has(c) :: right.Has(c)
    ensures Apart(a, b)
  {
  }

  lemma {:induction false} AllRowsTile(off: nat, planes: nat, dims: (nat, nat, nat), n: nat)
    requires n > 0
    ensures Tiles(AllRowSlabs(off, planes, dims, n), Slab(off, 0, 0, planes, dims.1, dims.2))
  {
    if planes > 0 {
      AllRowsTile(off, planes - 1, dims, n);
      RowsTile(off + planes - 1, dims, n);
      TilesAppend(AllRowSlabs(off, planes - 1, dims, n), RowSlabs(off + planes - 1, dims, n), off, planes - 1, 1, dims.1, dims.2);
    }
  }

  /** In all three regimes the slabs cut the field up exactly. */
  lemma SlabsTile(off: nat, dims: (nat, nat, nat), size: nat)
    requires Fillable(dims, size)
    ensures Tiles(Slabs(off, dims, size), Field(off, dims))
  {
    if dims.0 * dims.1 * dims.2 * size < MAX_BUFFER {
      assert [Field(off, dims)][0] == Field(off, dims);
    } else if dims.1 * dims.2 * size < MAX_BUFFER {
      PlanesTile(off, dims, Planes(dims, size));
    } else {
      AllRowsTile(off, dims.0, dims, Rows(dims, size));
    }
  }

  // ----------------------------------------------------------------- painting

  lemma {:induction false} PaintedAppend(cells: map<Cell, seq<Byte>>, a: seq<Slab>, b: seq<Slab>, v: seq<Byte>)
    ensures PaintedAll(cells, a + b, v) == PaintedAll(PaintedAll(cells, a, v), b, v)
  {
    if b == [] {
      assert a + b == a;
    } else {
      assert (a + b)[..|a + b| - 1] == a + b[..|b| - 1];
      PaintedAppend(cells, a, b[..|b| - 1], v);
    }
  }

  lemma InCells(s: Slab, c: Cell)
    ensures c in s.Cells() <==> s.Has(c)
  {
    assert c == Cell(c.x, c.y, c.z);
  }

  lemma {:induction false} PaintedAllAt(cells: map<Cell, seq<Byte>>, slabs: seq<Slab>, v: seq<Byte>, c: Cell)
    ensures var in0, out := exists k :: 0 <= k < |slabs| && slabs[k].Has(c), PaintedAll(cells, slabs, v);
            if in0 then c in out && out[c] == v else (c in out <==> c in cells) && (c in out ==> out[c] == cells[c])
  {
    if slabs != [] {
      var n := |slabs| - 1;
      PaintedAllAt(cells, slabs[..n], v, c);
      InCells(slabs[n], c);
      if slabs[n].Has(c) {
      } else if exists k :: 0 <= k < |slabs| && slabs[k].Has(c) {
        var k :| 0 <= k < |slabs| && slabs[k].Has(c);
        assert slabs[..n][k].Has(c);
      }
    }
  }

  /** Painting tiles paints the box, and nothing else. */
  lemma PaintedTiles(cells: map<Cell, seq<Byte>>, slabs: seq<Slab>, box: Slab, v: seq<Byte>)
    requires Tiles(slabs, box)
    ensures PaintedAll(cells, slabs, v) == Painted(cells, box, v)
  {
    var a, b := PaintedAll(cells, slabs, v), Painted(cells, box, v);
    forall c ensures (c in a <==> c in b) && (c in a ==> a[c] == b[c]) {
      TilePainted(cells, slabs, box, v, a, b, c);
    }
  }

  lemma TilePainted(cells: map<Cell, seq<Byte>>, slabs: seq<Slab>, box: Slab, v: seq<Byte>,
                    a: map<Cell, seq<Byte>>, b: map<Cell, seq<Byte>>, c: Cell)
    requires Tiles(slabs, box) && a == PaintedAll(cells, slabs, v) && b == Painted(cells, box, v)
    ensures (c in a <==> c in b) && (c in a ==> a[c] == b[c])
  {
    PaintedAllAt(cells, slabs, v, c);
    InCells(box, c);
  }

  // -------------------------------------------------------------- the operation

  lemma Regroup(a: nat, b: nat, n: nat, size: nat)
    ensures a * b * size * n == a * b * n * size
    ensures n * a * b == a * b * n && 1 * n * a == a * n
    ensures a * size * n == a * n * size
  {
  }

  lemma PaintedOne(cells: map<Cell, seq<Byte>>, slabs: seq<Slab>, i: nat, v: seq<Byte>)
    requires i < |slabs|
    ensures PaintedAll(cells, slabs[..i + 1], v) == Painted(PaintedAll(cells, slabs[..i], v), slabs[i], v)
    ensures slabs[..i + 1] == slabs[..i] + [slabs[i]]
  {
    assert slabs[..i + 1][..i] == slabs[..i];
  }

  lemma Volumes(a: nat, b: nat, k: nat, n: nat)
    requires k <= n
    ensures k * a * b <= a * b * n && 1 * k * b <= b * n
  {
    AtMost(k, n, a * b);
    AtMost(k, n, b);
    assert k * a * b == k * (a * b) && a * b * n == n * (a * b);
  }

  /** Each slab is within one buffer of count elements. */
  predicate Bounded(slabs: seq<Slab>, count: nat) { forall k | 0 <= k < |slabs| :: slabs[k].Volume() <= count }

  lemma PlanesBounded(off: nat, dims: (nat, nat, nat), n: nat)
    requires n > 0
    ensures Bounded(PlaneSlabs(off, dims, n), dims.1 * dims.2 * n)
  {
    forall k | 0 <= k < |PlaneSlabs(off, dims, n)| ensures PlaneSlabs(off, dims, n)[k].Volume() <= dims.1 * dims.2 * n {
      StripInside(dims.0, n, k);
      Volumes(dims.1, dims.2, StripEdge(dims.0, n, k), n);
    }
  }

  lemma RowsBounded(x: nat, dims: (nat, nat, nat), n: nat)
    requires n > 0
    ensures Bounded(RowSlabs(x, dims, n), dims.2 * n)
  {
    forall k | 0 <= k < |RowSlabs(x, dims, n)| ensures RowSlabs(x, dims, n)[k].Volume() <= dims.2 * n {
      StripInside(dims.1, n, k);
      Volumes(dims.1, dims.2, StripEdge(dims.1, n, k), n);
    }
  }

  /** The first i of the slabs have been written with v. */
  ghost predicate Wrote(sds: Sds, cells: map<Cell, seq<Byte>>, log: seq<Slab>, slabs: seq<Slab>, i: nat, v: seq<Byte>)
    requires i <= |slabs|
    reads sds
  {
    sds.log == log + slabs[..i] && sds.cells == PaintedAll(cells, slabs[..i], v)
  }

  /** The next of the slabs is written from the full buffer. */
  method WriteNext(sds: Sds, s: Slab, fillbuf: array<Byte>, count: nat, size: nat, ghost v: seq<Byte>,
                   ghost cells: map<Cell, seq<Byte>>, ghost log: seq<Slab>, ghost slabs: seq<Slab>, ghost i: nat)
    returns (status: int)
    requires i < |slabs| && slabs[i] == s && Bounded(slabs, count) && Wrote(sds, cells, log, slabs, i, v)
    requires |v| == size && fillbuf.Length == count * size && forall k | 0 <= k < count :: Element(fillbuf[..], k, v)
    modifies sds
    ensures status == 0 && Wrote(sds, cells, log, slabs, i + 1, v)
  {
    PaintedOne(cells, slabs, i, v);
    status := sds.WriteFill(s, fillbuf, count, v, size);
  }

  lemma PlaneAt(off: nat, dims: (nat, nat, nat), n: nat, i: nat)
    requires n > 0 && i < dims.0 / n
    ensures i < |PlaneSlabs(off, dims, n)| && PlaneSlabs(off, dims, n)[i] == Slab(off + i * n, 0, 0, n, dims.1, dims.2)
  {
  }

  lemma PlaneEnd(off: nat, dims: (nat, nat, nat), n: nat, i: nat)
    requires n > 0 && i == dims.0 / n
    ensures i * n <= dims.0 && |PlaneSlabs(off, dims, n)| == if i * n != dims.0 then i + 1 else i
    ensures i * n != dims.0 ==> PlaneSlabs(off, dims, n)[i] == Slab(off + i * n, 0, 0, dims.0 - i * n, dims.1, dims.2)
  {
  }

  lemma RowAt(x: nat, dims: (nat, nat, nat), n: nat, i: nat)
    requires n > 0 && i < dims.1 / n
    ensures i < |RowSlabs(x, dims, n)| && RowSlabs(x, dims, n)[i] == Slab(x, i * n, 0, 1, n, dims.2)
  {
  }

  lemma RowEnd(x: nat, dims: (nat, nat, nat), n: nat, i: nat)
    requires n > 0 && i == dims.1 / n
    ensures i * n <= dims.1 && |RowSlabs(x, dims, n)| == if i * n != dims.1 then i + 1 else i
    ensures i * n != dims.1 ==> RowSlabs(x, dims, n)[i] == Slab(x, i * n, 0, 1, dims.1 - i * n, dims.2)
  {
  }

  /** Write the planes of the field, n at a time, then what is left. */
  method FillPlanes(sds: Sds, off: nat, dims: (nat, nat, nat), n: nat, fillbuf: array<Byte>, count: nat, size: nat,
                    ghost v: seq<Byte>, ghost slabs: seq<Slab>)
    returns (status: int)
    requires n > 0 && |v| == size && dims.0 > 0 && fillbuf.Length == count * size
    requires slabs == PlaneSlabs(off, dims, n) && Bounded(slabs, count)
    requires forall k | 0 <= k < count :: Element(fillbuf[..], k, v)
    modifies sds
    ensures status == 0 && Wrote(sds, old(sds.cells), old(sds.log), slabs, |slabs|, v)
  {
    ghost var cells, log := sds.cells, sds.log;
    status := 0;
    var i := 0;
    while i < dims.0 / n
      invariant 0 <= i <= dims.0 / n && status == 0
      invariant Wrote(sds, cells, log, slabs, i, v)
    {
      PlaneAt(off, dims, n, i);
      status := WriteNext(sds, Slab(off + i * n, 0, 0, n, dims.1, dims.2), fillbuf, count, size, v, cells, log, slabs, i);
      i := i + 1;
    }
    PlaneEnd(off, dims, n, i);
    if i * n != dims.0 {
      status := WriteNext(sds, Slab(off + i * n, 0, 0, dims.0 - i * n, dims.1, dims.2), fillbuf, count, size, v, cells, log, slabs, i);
    }
  }

  /** Write the rows of one plane, n at a time, then what is left. */
  method FillRows(sds: Sds, x: nat, dims: (nat, nat, nat), n: nat, fillbuf: array<Byte>, count: nat, size: nat,
                  ghost v: seq<Byte>, ghost slabs: seq<Slab>)
    returns (status: int)
    requires n > 0 && |v| == size && dims.1 > 0 && fillbuf.Length == count * size
    requires slabs == RowSlabs(x, dims, n) && Bounded(slabs, count)
    requires forall k | 0 <= k < count :: Element(fillbuf[..], k, v)
    modifies sds
    ensures status == 0 && Wrote(sds, old(sds.cells), old(sds.log), slabs, |slabs|, v)
  {
    ghost var cells, log := sds.cells, sds.log;
    status := 0;
    var i := 0;
    while i < dims.1 / n
      invariant 0 <= i <= dims.1 / n && status == 0
      invariant Wrote(sds, cells, log, slabs, i, v)
    {
      RowAt(x, dims, n, i);
      status := WriteNext(sds, Slab(x, i * n, 0, 1, n, dims.2), fillbuf, count, size, v, cells, log, slabs, i);
      i := i + 1;
    }
    RowEnd(x, dims, n, i);
    if i * n != dims.1 {
      status := WriteNext(sds, Slab(x, i * n, 0, 1, dims.1 - i * n, dims.2), fillbuf, count, size, v, cells, log, slabs, i);
    }
  }

  /** All slabs of a list have been written with v. */
  ghost predicate WroteAll(sds: Sds, cells: map<Cell, seq<Byte>>, log: seq<Slab>, slabs: seq<Slab>, v: seq<Byte>)
    reads sds
  {
    sds.log == log + slabs && sds.cells == PaintedAll(cells, slabs, v)
  }

  /** One plane more. */
  method FillNextPlane(sds: Sds, x: nat, dims: (nat, nat, nat), n: nat, fillbuf: array<Byte>, count: nat, size: nat, ghost v: seq<Byte>,
                       ghost cells: map<Cell, seq<Byte>>, ghost log: seq<Slab>, ghost done: seq<Slab>)
    returns (status: int)
    requires n > 0 && |v| == size && dims.1 > 0 && count == dims.2 * n && fillbuf.Length == count * size
    requires (forall k | 0 <= k < count :: Element(fillbuf[..], k, v)) && WroteAll(sds, cells, log, done, v)
    modifies sds
    ensures status == 0 && WroteAll(sds, cells, log, done + RowSlabs(x, dims, n), v)
  {
    ghost var slabs := RowSlabs(x, dims, n);
    RowsBounded(x, dims, n);
    status := FillRows(sds, x, dims, n, fillbuf, count, size, v, slabs);
    OnePlaneMore(cells, log, done, slabs, v, sds.cells, sds.log);
  }

  lemma OnePlaneMore(cells: map<Cell, seq<Byte>>, log: seq<Slab>, done: seq<Slab>, slabs: seq<Slab>, v: seq<Byte>,
                     after: map<Cell, seq<Byte>>, written: seq<Slab>)
    requires after == PaintedAll(PaintedAll(cells, done, v), slabs[..|slabs|], v) && written == log + done + slabs[..|slabs|]
    ensures after == PaintedAll(cells, done + slabs, v) && written == log + (done + slabs)
  {
    assert slabs[..|slabs|] == slabs;
    PaintedAppend(cells, done, slabs, v);
  }

  method FillEveryPlane(sds: Sds, off: nat, dims: (nat, nat, nat), n: nat, fillbuf: array<Byte>, count: nat, size: nat, ghost v: seq<Byte>)
    returns (status: int)
    requires n > 0 && |v| == size && dims.1 > 0 && count == dims.2 * n && fillbuf.Length == count * size
    requires forall k | 0 <= k < count :: Element(fillbuf[..], k, v)
    modifies sds
    ensures status == 0 && WroteAll(sds, old(sds.cells), old(sds.log), AllRowSlabs(off, dims.0, dims, n), v)
  {
    status := 0;
    var j := 0;
    ghost var cells, log, done := sds.cells, sds.log, [];
    while j < dims.0
      invariant 0 <= j <= dims.0 && status == 0 && done == AllRowSlabs(off, j, dims, n)
      invariant WroteAll(sds, cells, log, done, v)
    {
      status := FillNextPlane(sds, off + j, dims, n, fillbuf, count, size, v, cells, log, done);
      done := done + RowSlabs(off + j, dims, n);
      j := j + 1;
    }
  }

  lemma InField(off: nat, dims: (nat, nat, nat))
    ensures forall c :: Field(off, dims).Has(c) <==> off <= c.x < off + dims.0 && c.y < dims.1 && c.z < dims.2
    ensures forall c :: c in Field(off, dims).Cells() <==> Field(off, dims).Has(c)
  {
  }

  /** EHfillfld for a field of rank 3: one buffer, never longer than the limit,
      is written to slabs that cut the field up; the field ends up full of the
      fill value and every other cell of the data set keeps its own. */
  method FillFld(sds: Sds, size: nat, off: nat, dims: (nat, nat, nat), fillval: seq<Byte>)
    returns (status: int, ghost fillbuf: array<Byte>)
    requires |fillval| == size && Fillable(dims, size)
    modifies sds
    ensures status == 0 && fillbuf.Length <= 1048576
    ensures sds.log == old(sds.log) + Slabs(off, dims, size)
    ensures sds.cells == Painted(old(sds.cells), Field(off, dims), fillval)
    ensures forall c :: c in sds.cells <==> c in old(sds.cells) || (off <= c.x < off + dims.0 && c.y < dims.1 && c.z < dims.2)
    ensures forall c <- sds.cells ::
              sds.cells[c] == if off <= c.x < off + dims.0 && c.y < dims.1 && c.z < dims.2 then fillval else old(sds.cells)[c]
  {
    InField(off, dims);
    var totN := dims.0 * dims.1 * dims.2;
    var planeN := dims.1 * dims.2;
    SlabsTile(off, dims, size);
    PaintedTiles(sds.cells, Slabs(off, dims, size), Field(off, dims), fillval);
    if totN * size < MAX_BUFFER {
      var buf := FillBuffer(totN, size, fillval);
      status := sds.WriteFill(Field(off, dims), buf, totN, fillval, size);
      fillbuf := buf;
    } else if planeN * size < MAX_BUFFER {
      var n := Planes(dims, size);
      Regroup(dims.1, dims.2, n, size);
      var buf := FillBuffer(planeN * n, size, fillval);
      PlanesBounded(off, dims, n);
      ghost var slabs := PlaneSlabs(off, dims, n);
      status := FillPlanes(sds, off, dims, n, buf, planeN * n, size, fillval, slabs);
      assert slabs[..|slabs|] == slabs;
      fillbuf := buf;
    } else {
      var n := Rows(dims, size);
      Regroup(dims.2, dims.1, n, size);
      var buf := FillBuffer(dims.2 * n, size, fillval);
      status := FillEveryPlane(sds, off, dims, n, buf, dims.2 * n, size, fillval);
      fillbuf := buf;
    }
  }
}
