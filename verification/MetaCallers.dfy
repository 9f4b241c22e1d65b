/** The buffers in which the swath, grid and point interfaces build the strings they
    pass to EHinsertmeta, and what they leave of a request. */
module MetaCallers {
  import opened CText
  import opened ListText
  import opened OdlLines
  import opened MetaTree
  import opened MetaEdit
  import opened MetaRequest
  import opened MetaRefineMore
  import opened MetaTheorem

  const MAPNAME_SIZE: nat := 80
  const CREATE_SIZE: nat := 512
  const HEADER_SIZE: nat := 128
  const GRID_SIZE: nat := 1024
  const POINT_SIZE: nat := 256

  /** The field buffer of SWdefinefield and GDdeffield. */
  const DEFINE_SIZE: nat := 512

  /** The array of dimension sizes of SWdefinefield and GDdeffield. */
  const MAX_RANK: nat := 8

  /** A request, and the size of the buffer for a field's text: DEFINE_SIZE, or the 256 of
      SWwritegeometa, SWwritedatameta and GDwritefieldmeta. */
  datatype Ask = Ask(req: Request, size: nat)

  // ------------------------------------------------------------- what arrives

  /** The lines of a new grid up to its two sizes. */
  function GridHeader(r: Request): string
    requires r.Create?
  {
    Row("\tGROUP=GRID_", Dec(r.id)) + Row("\t\tGridName=\"", r.name + "\"") + Text(AttrLines(2, Sizes(r.params)))
  }

  function Sizes(ps: seq<Attr>): seq<Attr> { if |ps| < 2 then ps else ps[..2] }

  function Corners(ps: seq<Attr>): seq<Attr> { if |ps| < 2 then [] else ps[2..] }

  function GridRest(r: Request): string
    requires r.Create?
  {
    Text(AttrLines(2, Corners(r.params))) + EmptyGroups(["Dimension", "DataField", "MergedFields"]) + Row("\tEND_GROUP=GRID_", Dec(r.id))
  }

  /** The name and the dimensions are cut by snprintf, the rest is appended by strcat. */
  function FieldArrives(c: Call, e: Entry, size: nat): Option<Call>
    requires e.GeoField? || e.DataField?
  {
    if size == 0 || (size == DEFINE_SIZE && |e.dims| > MAX_RANK) then None
    else
      var text := Cut(FieldHead(e.name, e.dims), size) + ExtraPart(e.extra);
      if |text| < size then Some(c.(metastr := text)) else None
  }

  function EntryArrives(c: Call, e: Entry, size: nat): Option<Call> {
    match e
    case DimensionMap(_, _, _, _) => Some(c.(metastr := Cut(c.metastr, MAPNAME_SIZE)))
    case IndexMap(_, _) => Some(c.(metastr := Cut(c.metastr, MAPNAME_SIZE)))
    case GeoField(_, _, _, _) => FieldArrives(c, e, size)
    case DataField(_, _, _, _) => FieldArrives(c, e, size)
    case LevelLink(_, _, _) => Some(c.(metastr := Cut(c.metastr, POINT_SIZE)))
    case _ => Some(c)
  }

  /** The call EHinsertmeta receives; None where a buffer is overrun. */
  function Arrives(a: Ask): Option<Call> {
    var c := CallOf(a.req);
    match a.req
    case Create(Grid, _, _, _) => Some(c.(metastr := Cut(Cut(GridHeader(a.req), HEADER_SIZE) + GridRest(a.req), GRID_SIZE)))
    case Create(_, _, _, _) => if |c.metastr| < CREATE_SIZE then Some(c) else None
    case AddParams(_, _, _) => Some(c)
    case AddEntry(_, _, e) => EntryArrives(c, e, a.size)
    case AddPointField(_, _, _) => if |c.metastr| < POINT_SIZE then Some(c) else None
  }

  predicate FieldWhole(e: Entry, size: nat)
    requires e.GeoField? || e.DataField?
  {
    |e.name| + |Join(e.dims, ',')| + |ExtraPart(e.extra)| + 2 <= size && (size == 512 ==> |e.dims| <= 8)
  }

  predicate EntryWhole(e: Entry, size: nat) {
    match e
    case DimensionMap(g, d, _, _) => |g| + |d| <= 78
    case IndexMap(g, d) => |g| + |d| <= 78
    case GeoField(_, _, _, _) => FieldWhole(e, size)
    case DataField(_, _, _, _) => FieldWhole(e, size)
    case LevelLink(p, c, l) => |p| + |c| + |l| <= 253
    case _ => true
  }

  /** The strings fit the buffers. */
  predicate Whole(a: Ask) {
    match a.req
    case Create(Grid, _, _, _) => |GridHeader(a.req)| < 128 && |CreateText(a.req)| < 1024
    case Create(_, _, _, _) => |CreateText(a.req)| < 512
    case AddParams(_, _, _) => true
    case AddEntry(_, _, e) => EntryWhole(e, a.size)
    case AddPointField(_, l, p) => |p.name| + |l| <= 254
  }

  /** EHinsertmeta receives the strings of the request exactly when they fit the
      caller's buffers. */
  lemma ArrivesWhole(a: Ask)
    ensures Arrives(a) == Some(CallOf(a.req)) <==> Whole(a)
  {
    match a.req
    case Create(Grid, _, _, _) => GridArrives(a.req);
    case AddEntry(k, s, e) => EntryArrivesWhole(k, s, e, a.size);
    case _ =>
  }

  /** The requests whose strings overrun a buffer: new swaths and points, fields, point fields. */
  lemma Overruns(a: Ask)
    ensures Arrives(a).None? <==>
              match a.req
              case Create(k, _, _, _) => k != Grid && |CreateText(a.req)| >= 512
              case AddParams(_, _, _) => false
              case AddPointField(_, l, p) => |p.name| + |l| >= 255
              case AddEntry(_, _, GeoField(n, _, ds, x)) => FieldOverruns(n, ds, x, a.size)
              case AddEntry(_, _, DataField(n, _, ds, x)) => FieldOverruns(n, ds, x, a.size)
              case AddEntry(_, _, _) => false
  {
  }

  /** More dimensions than the array of sizes has, or no room for the added text behind
      what the cut leaves. */
  predicate FieldOverruns(name: string, dims: seq<string>, extra: seq<Attr>, size: nat) {
    || size == 0 || (size == 512 && |dims| > 8)
    || (extra != [] && |name| + |Join(dims, ',')| + |ExtraText(extra)| + 2 >= size)
  }

  lemma GridTextIs(r: Request)
    requires r.Create? && r.kind == Grid
    ensures CreateText(r) == GridHeader(r) + GridRest(r)
  {
    var a, b := Sizes(r.params), Corners(r.params);
    assert r.params == a + b;
    assert AttrLines(2, a + b) == AttrLines(2, a) + AttrLines(2, b);
    TextCat(AttrLines(2, a), AttrLines(2, b));
    GridChain(Row("\tGROUP=GRID_", Dec(r.id)), Row("\t\tGridName=\"", r.name + "\""), Text(AttrLines(2, a)), Text(AttrLines(2, b)),
              EmptyGroups(["Dimension", "DataField", "MergedFields"]), Row("\tEND_GROUP=GRID_", Dec(r.id)));
  }

  lemma GridChain(o: string, n: string, a: string, b: string, g: string, z: string)
    ensures o + n + (a + b) + g + z == (o + n + a) + (b + g + z)
  {
  }

  lemma GridArrives(r: Request)
    requires r.Create? && r.kind == Grid
    ensures Cut(Cut(GridHeader(r), HEADER_SIZE) + GridRest(r), GRID_SIZE) == CreateText(r)
            <==> |GridHeader(r)| < HEADER_SIZE && |CreateText(r)| < GRID_SIZE
  {
    GridTextIs(r);
  }

  lemma EntryArrivesWhole(k: Kind, s: string, e: Entry, size: nat)
    ensures EntryArrives(EntryCall(k, s, e), e, size) == Some(EntryCall(k, s, e)) <==> EntryWhole(e, size)
  {
  }

  // ------------------------------------------------------------- new structures

  lemma {:induction false} GroupsShort(gs: seq<string>)
    requires forall g <- gs :: |g| <= 17
    ensures |EmptyGroups(gs)| <= 56 * |gs|
  {
    if gs != [] {
      assert gs[0] in gs && |EmptyGroup(gs[0])| <= 56;
      GroupsShort(gs[1..]);
    }
  }

  /** The text of a new swath or point with a name of the documented length fits. */
  lemma CreateFits(a: Ask)
    requires a.req.Create? && a.req.kind != Grid && a.req.params == [] && |a.req.name| <= MAX_NAME && Int32(a.req.id)
    ensures Whole(a)
  {
    if a.req.kind == Swath {
      SwathFits(a.req);
    } else {
      PointFits(a.req);
    }
  }

  lemma SwathFits(r: Request)
    requires r.Create? && r.kind == Swath && r.params == [] && |r.name| <= MAX_NAME && Int32(r.id)
    ensures |CreateText(r)| < CREATE_SIZE
  {
    var g := SwathGroupsShort();
    PiecesFit(r, Row("\tGROUP=SWATH_", Dec(r.id)), Row("\t\tSwathName=\"", r.name + "\""), g, Row("\tEND_GROUP=SWATH_", Dec(r.id)));
  }

  lemma SwathGroupsShort() returns (g: string)
    ensures g == EmptyGroups(["Dimension", "DimensionMap", "IndexDimensionMap", "GeoField", "DataField", "MergedFields"]) && |g| <= 336
  {
    var gs := ["Dimension", "DimensionMap", "IndexDimensionMap", "GeoField", "DataField", "MergedFields"];
    GroupsShort(gs);
    g := EmptyGroups(gs);
  }

  lemma PointFits(r: Request)
    requires r.Create? && r.kind == Point && r.params == [] && |r.name| <= MAX_NAME && Int32(r.id)
    ensures |CreateText(r)| < CREATE_SIZE
  {
    var gs := ["Level", "LevelLink"];
    GroupsShort(gs);
    PiecesFit(r, Row("\tGROUP=POINT_", Dec(r.id)), Row("\t\tPointName=\"", r.name + "\""), EmptyGroups(gs), Row("\tEND_GROUP=POINT_", Dec(r.id)));
  }

  lemma PiecesFit(r: Request, o: string, n: string, g: string, z: string)
    requires r.Create? && Int32(r.id) && |r.name| <= MAX_NAME
    requires |o| == |Dec(r.id)| + 14 && |n| == |r.name| + 15 && |g| <= 336 && |z| == |Dec(r.id)| + 18
    ensures |o + n + Text(AttrLines(2, [])) + g + z| < CREATE_SIZE
  {
    DecShort(r.id);
    assert AttrLines(2, []) == [] && Text([]) == "";
  }

  /** The header of a new grid does not always fit: with a name of 64 characters and
      two sizes of ten digits, GDcreate loses the newline behind the second size. */
  lemma HeaderCut(a: Ask, x: string, y: string)
    requires a.req.Create? && a.req.kind == Grid && |a.req.name| == 64 && |x| == 10 && |y| == 10
    requires a.req.id == 1 && |a.req.params| >= 2 && a.req.params[..2] == [Attr("XDim", x), Attr("YDim", y)]
    ensures |GridHeader(a.req)| == 128 && Arrives(a) != Some(CallOf(a.req))
  {
    SizesLength(x, y);
    HeaderRows(a.req);
    ArrivesWhole(a);
  }

  lemma HeaderRows(r: Request)
    requires r.Create? && r.id == 1
    ensures |Row("\tGROUP=GRID_", Dec(r.id)) + Row("\t\tGridName=\"", r.name + "\"")| == 28 + |r.name|
  {
    assert Dec(1) == "1";
  }

  lemma SizesLength(x: string, y: string)
    ensures |Text(AttrLines(2, [Attr("XDim", x), Attr("YDim", y)]))| == 16 + |x| + |y|
  {
    var ls := AttrLines(2, [Attr("XDim", x), Attr("YDim", y)]);
    assert ls == [Line(2, "XDim", x)] + [Line(2, "YDim", y)];
    TextCat([Line(2, "XDim", x)], [Line(2, "YDim", y)]);
    Text1(Line(2, "XDim", x));
    Text1(Line(2, "YDim", y));
  }

  // ------------------------------------------------------- what is left of a request

  /** The first m characters of the joined list, as a list. */
  function CutList(ds: seq<string>, m: nat): seq<string>
    requires ds != []
    decreases |ds|
  {
    if |ds| == 1 || m <= |ds[0]| then [if m < |ds[0]| then ds[0][..m] else ds[0]]
    else [ds[0]] + CutList(ds[1..], m - |ds[0]| - 1)
  }

  function CutDims(name: string, ds: seq<string>, size: nat): seq<string> {
    if ds == [] || |name| + |Join(ds, ',')| + 2 <= size || |name| + 2 > size then ds else CutList(ds, size - 2 - |name|)
  }

  function CutData(g: string, d: string): string { if |g| + |d| <= 78 || |g| > 78 then d else d[..78 - |g|] }

  function CutEntry(e: Entry, size: nat): Entry {
    match e
    case DimensionMap(g, d, o, i) => DimensionMap(g, CutData(g, d), o, i)
    case IndexMap(g, d) => IndexMap(g, CutData(g, d))
    case GeoField(n, t, ds, x) => GeoField(n, t, CutDims(n, ds, size), x)
    case DataField(n, t, ds, x) => DataField(n, t, CutDims(n, ds, size), x)
    case _ => e
  }

  /** The request that the received strings make. */
  function Received(a: Ask): Request {
    if a.req.AddEntry? then a.req.(entry := CutEntry(a.req.entry, a.size)) else a.req
  }

  lemma {:induction false} CutListIs(ds: seq<string>, m: nat)
    requires ds != [] && m <= |Join(ds, ',')|
    ensures CutList(ds, m) != [] && Join(CutList(ds, m), ',') == Join(ds, ',')[..m]
    decreases |ds|
  {
    if !(|ds| == 1 || m <= |ds[0]|) {
      var k := m - |ds[0]| - 1;
      CutListIs(ds[1..], k);
      assert CutList(ds, m)[1..] == CutList(ds[1..], k);
      assert Join(ds, ',')[..m] == ds[0] + [','] + Join(ds[1..], ',')[..k];
    }
  }

  lemma PrefixPart(s: string, m: nat)
    requires PartOk(s) && m <= |s|
    ensures PartOk(s[..m])
  {
    PrefixContains(s, m, "GROUP=");
    PrefixContains(s, m, "END_OBJECT");
    PrefixContains(s, m, "END_GROUP");
  }

  lemma PrefixContains(s: string, m: nat, k: string)
    requires m <= |s|
    ensures Contains(s[..m], k) ==> Contains(s, k)
  {
    if Contains(s[..m], k) {
      var i: nat :| i <= m && OccursAt(s[..m], k, i);
      assert s[i..i + |k|] == s[..m][i..i + |k|];
      assert OccursAt(s, k, i);
    }
  }

  lemma {:induction false} CutListParts(ds: seq<string>, m: nat)
    requires ds != [] && forall d <- ds :: PartOk(d)
    ensures forall d <- CutList(ds, m) :: PartOk(d)
    decreases |ds|
  {
    assert ds[0] in ds;
    if |ds| == 1 || m <= |ds[0]| {
      if m < |ds[0]| {
        PrefixPart(ds[0], m);
      }
    } else {
      CutListParts(ds[1..], m - |ds[0]| - 1);
    }
  }

  /** Names of the documented length. */
  predicate EntryShort(e: Entry) {
    match e
    case DimensionMap(g, d, _, _) => |g| <= MAX_NAME && |d| <= MAX_NAME
    case IndexMap(g, d) => |g| <= MAX_NAME && |d| <= MAX_NAME
    case GeoField(n, _, _, _) => |n| <= MAX_NAME
    case DataField(n, _, _, _) => |n| <= MAX_NAME
    case LevelLink(p, c, l) => |p| <= MAX_NAME && |c| <= MAX_NAME && |l| <= MAX_NAME
    case _ => true
  }

  predicate Short(r: Request) {
    match r
    case AddEntry(_, _, e) => EntryShort(e)
    case AddPointField(_, _, p) => |p.name| <= MAX_NAME
    case _ => true
  }

  /** A request an interface can be given. */
  predicate AskOk(a: Ask) { RequestOk(a.req) && Short(a.req) && (a.size == 512 || a.size == 256) }

  /** A new structure whose text the caller's buffers leave whole: every swath and point
      that is received, and a grid whose header is not cut. */
  predicate CreatesWhole(a: Ask) { a.req.Create? ==> Whole(a) }

  /** What is left of a request is again one, and its strings are what arrives, unless
      it is a new grid that is cut. */
  lemma ReceivedIs(a: Ask)
    requires AskOk(a) && Arrives(a).Some?
    ensures RequestOk(Received(a)) && (Arrives(a) == Some(CallOf(Received(a))) <==> CreatesWhole(a))
    ensures CreatesWhole(a) ==> (Received(a) == a.req <==> Whole(a))
  {
    match a.req
    case Create(_, _, _, _) => ArrivesWhole(a);
    case AddEntry(k, s, e) => EntryReceived(k, s, e, a.size);
    case _ =>
  }

  lemma EntryReceived(k: Kind, s: string, e: Entry, size: nat)
    requires EntryOk(e) && EntryShort(e) && (size == 512 || size == 256) && EntryArrives(EntryCall(k, s, e), e, size).Some?
    ensures EntryOk(CutEntry(e, size)) && GroupOf(CutEntry(e, size)) == GroupOf(e)
    ensures EntryArrives(EntryCall(k, s, e), e, size) == Some(EntryCall(k, s, CutEntry(e, size)))
    ensures CutEntry(e, size) == e <==> EntryWhole(e, size)
  {
    match e
    case DimensionMap(g, d, _, _) => MapCut(g, d);
    case IndexMap(g, d) => MapCut(g, d);
    case GeoField(n, _, ds, x) => FieldCut(n, ds, size, EntryCall(k, s, e), e);
    case DataField(n, _, ds, x) => FieldCut(n, ds, size, EntryCall(k, s, e), e);
    case _ =>
  }

  lemma MapCut(g: string, d: string)
    requires |g| <= MAX_NAME && PartOk(d)
    ensures Cut(g + "/" + d, MAPNAME_SIZE) == g + "/" + CutData(g, d) && PartOk(CutData(g, d))
    ensures CutData(g, d) == d <==> |g| + |d| <= 78
  {
    if |g| + |d| > 78 {
      PrefixPart(d, 78 - |g|);
    }
  }

  lemma FieldCut(name: string, ds: seq<string>, size: nat, c: Call, e: Entry)
    requires (e.GeoField? || e.DataField?) && e.name == name && e.dims == ds && |name| <= MAX_NAME && PartsOk(ds)
    requires (size == 512 || size == 256) && FieldArrives(c, e, size).Some?
    ensures PartsOk(CutDims(name, ds, size)) && Cut(FieldHead(name, ds), size) == FieldHead(name, CutDims(name, ds, size))
    ensures FieldArrives(c, e, size) == Some(c.(metastr := FieldMeta(name, CutDims(name, ds, size), e.extra)))
    ensures CutDims(name, ds, size) == ds <==> FieldWhole(e, size)
  {
    if |name| + |Join(ds, ',')| + 2 > size {
      var m := size - 2 - |name|;
      CutListIs(ds, m);
      CutListParts(ds, m);
      assert FieldHead(name, ds)[..size - 1] == name + ":" + Join(ds, ',')[..m];
      assert ds[0] in ds;
    }
  }

  // ------------------------------------------------------------------ the theorems

  /** The text after one call of an interface; None where one of its buffers is
      overrun or EHinsertmeta has no defined result. */
  function InsertAsk(t: string, a: Ask): Option<string> {
    match Arrives(a) case None => None case Some(c) => InsertText(t, c)
  }

  /** What an interface asks for is the append of what its buffers leave of the
      request, exactly when that fits a utility string and is no new grid that is cut. */
  lemma AskRefines(f: MetaFile, a: Ask)
    requires FileOk(f) && WellShaped(f) && AskOk(a) && Arrives(a).Some? && Apply(f, Received(a)).Some?
    ensures var f' := Apply(f, Received(a)).value;
            && FileOk(f') && WellShaped(f')
            && (InsertAsk(Print(f), a) == Some(Print(f')) <==> |Print(f')| < |Print(f)| + UTLSTRSIZE && CreatesWhole(a))
  {
    ReceivedIs(a);
    Refinement(f, Received(a));
    if !CreatesWhole(a) {
      CutApart(f, a);
    }
  }

  lemma CutApart(f: MetaFile, a: Ask)
    requires FileOk(f) && WellShaped(f) && AskOk(a) && Arrives(a).Some? && !CreatesWhole(a)
    ensures Apply(f, a.req).Some? && WellShaped(Apply(f, a.req).value) && InsertAsk(Print(f), a) != Some(Print(Apply(f, a.req).value))
  {
    CreateGrows(f, a.req);
    CutShorter(Print(f), a, Print(Apply(f, a.req).value));
  }

  lemma CutShorter(t: string, a: Ask, u: string)
    requires !CreatesWhole(a) && Arrives(a).Some? && |u| == |t| + |CreateText(a.req)|
    ensures InsertAsk(t, a) != Some(u)
  {
    CutGrows(t, a);
  }

  /** A grid whose text is cut makes the text grow by less than its own. */
  lemma CutGrows(t: string, a: Ask)
    requires !CreatesWhole(a) && Arrives(a).Some?
    ensures InsertAsk(t, a).Some? ==> |InsertAsk(t, a).value| < |t| + |CreateText(a.req)|
  {
    GridTextIs(a.req);
    var c := Arrives(a).value;
    assert |c.metastr| < |CreateText(a.req)|;
    CreateSeg(t, c);
  }

  lemma CreateSeg(t: string, c: Call)
    requires c.metacode == 1002
    ensures InsertText(t, c).Some? ==> |InsertText(t, c).value| == |t| + |c.metastr|
  {
  }

  lemma ReceivedInserts(t: string, a: Ask)
    requires AskOk(a) && Arrives(a).Some? && CreatesWhole(a)
    ensures InsertAsk(t, a) == InsertText(t, CallOf(Received(a)))
  {
    ReceivedIs(a);
  }

  function InsertAsks(t: string, asks: seq<Ask>): Option<string>
    decreases |asks|
  {
    if asks == [] then Some(t)
    else match InsertAsk(t, asks[0]) case None => None case Some(t') => InsertAsks(t', asks[1..])
  }

  function ReceivedAll(asks: seq<Ask>): seq<Request> { seq(|asks|, i requires 0 <= i < |asks| => Received(asks[i])) }

  predicate AsksOk(asks: seq<Ask>) { forall a <- asks :: AskOk(a) && Arrives(a).Some? }

  predicate AllWhole(asks: seq<Ask>) { forall a <- asks :: CreatesWhole(a) }

  lemma FirstAsk(asks: seq<Ask>)
    requires asks != []
    ensures ReceivedAll(asks) == [Received(asks[0])] + ReceivedAll(asks[1..]) && ReceivedAll(asks)[1..] == ReceivedAll(asks[1..])
  {
  }

  /** Before the run and after each call the text is the print of the tree. */
  predicate Prints(t: string, f: MetaFile, asks: seq<Ask>)
    requires WellShaped(f)
    decreases |asks|
  {
    && t == Print(f)
    && (asks == [] ||
        match (InsertAsk(t, asks[0]), Apply(f, Received(asks[0])))
        case (Some(t'), Some(f')) => WellShaped(f') && Prints(t', f', asks[1..])
        case _ => false)
  }

  lemma WholeStep(asks: seq<Ask>)
    requires asks != []
    ensures AllWhole(asks) <==> CreatesWhole(asks[0]) && AllWhole(asks[1..])
  {
    assert asks == [asks[0]] + asks[1..];
  }

  lemma RunStep(f: MetaFile, asks: seq<Ask>)
    requires FileOk(f) && WellShaped(f) && AsksOk(asks) && asks != [] && ApplyAll(f, ReceivedAll(asks)).Some?
    ensures AskOk(asks[0]) && Arrives(asks[0]).Some? && Apply(f, Received(asks[0])).Some?
    ensures var f' := Apply(f, Received(asks[0])).value;
            && FileOk(f') && WellShaped(f') && ApplyAll(f, ReceivedAll(asks)) == ApplyAll(f', ReceivedAll(asks[1..]))
            && (InsertAsk(Print(f), asks[0]) == Some(Print(f')) <==> CreatesWhole(asks[0]))
  {
    assert asks[0] in asks;
    FirstAsk(asks);
    AskRefines(f, asks[0]);
  }

  /** Over every run of what the interfaces ask for, the text is the print of the tree
      of what their buffers leave of it after every call, if and only if no new grid is
      cut. */
  lemma {:induction false} AsksRefine(f: MetaFile, asks: seq<Ask>)
    requires FileOk(f) && WellShaped(f) && AsksOk(asks) && ApplyAll(f, ReceivedAll(asks)).Some?
    ensures Prints(Print(f), f, asks) <==> AllWhole(asks)
    decreases |asks|
  {
    if asks != [] {
      RunStep(f, asks);
      AsksRefine(Apply(f, Received(asks[0])).value, asks[1..]);
      WholeStep(asks);
    }
  }

  /** The end of a run that prints its trees. */
  lemma {:induction false} PrintsEnd(t: string, f: MetaFile, asks: seq<Ask>)
    requires FileOk(f) && WellShaped(f) && AsksOk(asks) && ApplyAll(f, ReceivedAll(asks)).Some? && Prints(t, f, asks)
    ensures var f' := ApplyAll(f, ReceivedAll(asks)).value; FileOk(f') && WellShaped(f') && InsertAsks(t, asks) == Some(Print(f'))
    decreases |asks|
  {
    if asks != [] {
      RunStep(f, asks);
      PrintsEnd(InsertAsk(t, asks[0]).value, Apply(f, Received(asks[0])).value, asks[1..]);
    }
  }

  /** From a new file on: the text is the print of the tree after every call if and only
      if no new grid is cut, and then the run ends in the print of its tree. */
  lemma AsksFromNew(asks: seq<Ask>)
    requires AsksOk(asks) && WellShaped(EMPTY_FILE) && ApplyAll(EMPTY_FILE, ReceivedAll(asks)).Some?
    ensures Prints(INITIAL_TEXT, EMPTY_FILE, asks) <==> AllWhole(asks)
    ensures AllWhole(asks) ==>
              var f := ApplyAll(EMPTY_FILE, ReceivedAll(asks)).value;
              FileOk(f) && WellShaped(f) && InsertAsks(INITIAL_TEXT, asks) == Some(Print(f))
  {
    InitialIsEmpty();
    AsksRefine(EMPTY_FILE, asks);
    if AllWhole(asks) {
      PrintsEnd(INITIAL_TEXT, EMPTY_FILE, asks);
    }
  }
}
