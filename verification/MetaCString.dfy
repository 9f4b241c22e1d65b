/** Nothing EHinsertmeta is given or writes holds a NUL: the strings of a request that
    arrive at it, and the segment it makes of them. */
module MetaCString {
  import opened CText
  import opened ListText
  import opened OdlLines
  import opened MetaTree
  import opened MetaLines
  import opened MetaEdit
  import opened MetaRequest
  import opened MetaCallers

  predicate CString(s: string) { '\0' !in s }

  // ------------------------------------------------------------------ the segment

  lemma RowString(prefix: string, value: string)
    requires CString(prefix) && CString(value)
    ensures CString(Row(prefix, value))
  {
  }

  lemma QuotedRow(prefix: string, value: string)
    requires CString(prefix) && CString(value)
    ensures CString(Row(prefix, value + "\""))
  {
  }

  lemma NumberRow(prefix: string, n: int)
    requires CString(prefix)
    ensures CString(Row(prefix, Dec(n)))
  {
  }

  lemma Cat(a: string, b: string)
    requires CString(a) && CString(b)
    ensures CString(a + b)
  {
  }

  lemma Cat3(a: string, b: string, c: string)
    requires CString(a) && CString(b) && CString(c)
    ensures CString(a + b + c)
  {
    Cat(a, b);
    Cat(a + b, c);
  }

  lemma Cat4(a: string, b: string, c: string, d: string)
    requires CString(a) && CString(b) && CString(c) && CString(d)
    ensures CString(a + b + c + d)
  {
    Cat3(a, b, c);
    Cat(a + b + c, d);
  }

  lemma Cat5(a: string, b: string, c: string, d: string, e: string)
    requires CString(a) && CString(b) && CString(c) && CString(d) && CString(e)
    ensures CString(a + b + c + d + e)
  {
    Cat4(a, b, c, d);
    Cat(a + b + c + d, e);
  }

  lemma FmtString(s: string)
    requires CString(s)
    ensures CString(Fmt(s))
  {
  }

  lemma {:induction false} PartsString(s: string, d: char)
    requires CString(s)
    ensures forall p <- Parts(s, d) :: CString(p)
    decreases |s|
  {
    match StrChr(s, d, 0)
    case Null =>
    case At(p) => PartsString(s[p + 1..], d);
  }

  lemma SplitString(s: string, d: char)
    requires CString(s)
    ensures forall p <- Split(s, d) :: CString(p)
  {
    if s != "" {
      match StrChr(s, d, 1)
      case Null =>
      case At(p) => PartsString(s[p + 1..], d);
    }
  }

  lemma {:induction false} ItemsString(ps: seq<string>)
    requires forall p <- ps :: CString(p)
    ensures CString(QuotedItems(ps))
  {
    if ps != [] {
      assert ps[0] in ps && CString(Quoted(ps[0]));
      if |ps| > 1 {
        ItemsString(ps[1..]);
      }
    }
  }

  lemma ListString(s: string)
    requires CString(s) && MetaList(s).Some?
    ensures CString(MetaList(s).value)
  {
    SplitString(s, ',');
    ItemsString(Split(s, ','));
  }

  lemma FieldString(open: string, nameKey: string, close: string, metastr: string, metadata: seq<int>, count: int)
    requires CString(open) && CString(nameKey) && CString(close) && CString(metastr) && FieldSeg(open, nameKey, close, metastr, metadata, count).Some?
    ensures CString(FieldSeg(open, nameKey, close, metastr, metadata, count).value)
  {
    var (name, rest) := CutAt(metastr, ':').value;
    CutAtString(metastr, ':');
    var dims, extra := rest, "";
    if CutAt(rest, ':').Some? {
      CutAtString(rest, ':');
      dims, extra := CutAt(rest, ':').value.0, CutAt(rest, ':').value.1;
    }
    ListString(dims);
    var list := MetaList(dims).value;
    var a, b, c, d := Row(open, Dec(count)), Row(nameKey, name + "\""), TypeRow(metadata[0]), "\t\t\t\tDimList=";
    NumberRow(open, count);
    QuotedRow(nameKey, name);
    Cat5(a, b, c, d, list);
    FmtString(a + b + c + d + list);
    NumberRow(close, count);
    Cat("\n", Row(close, Dec(count)));
    Cat3(Fmt(a + b + c + d + list), extra, "\n" + Row(close, Dec(count)));
  }

  lemma CutAtString(s: string, c: char)
    requires CString(s) && CutAt(s, c).Some?
    ensures CString(CutAt(s, c).value.0) && CString(CutAt(s, c).value.1)
  {
  }

  function TypeRow(n: int): (s: string)
    ensures CString(s)
  {
    TypeString(n);
    Row("\t\t\t\tDataType=", TypeName(n))
  }

  lemma TypeString(n: int)
    ensures CString(TypeName(n))
  {
  }

  lemma DimensionString(name: string, size: int, count: int)
    requires CString(name)
    ensures CString(DimensionSeg(name, size, count))
  {
    NumberRow("\t\t\tOBJECT=Dimension_", count);
    QuotedRow("\t\t\t\tDimensionName=\"", name);
    NumberRow("\t\t\t\tSize=", size);
    NumberRow("\t\t\tEND_OBJECT=Dimension_", count);
    Cat4(Row("\t\t\tOBJECT=Dimension_", Dec(count)), Row("\t\t\t\tDimensionName=\"", name + "\""), Row("\t\t\t\tSize=", Dec(size)),
         Row("\t\t\tEND_OBJECT=Dimension_", Dec(count)));
  }

  lemma MapString(geo: string, data: string, offset: int, increment: int, count: int)
    requires CString(geo) && CString(data)
    ensures CString(DimensionMapSeg(geo, data, offset, increment, count))
  {
    var a, b := Row("\t\t\tOBJECT=DimensionMap_", Dec(count)), Row("\t\t\t\tGeoDimension=\"", geo + "\"");
    var c, d := Row("\t\t\t\tDataDimension=\"", data + "\""), Row("\t\t\t\tOffset=", Dec(offset));
    var e, z := Row("\t\t\t\tIncrement=", Dec(increment)), Row("\t\t\tEND_OBJECT=DimensionMap_", Dec(count));
    NumberRow("\t\t\tOBJECT=DimensionMap_", count);
    QuotedRow("\t\t\t\tGeoDimension=\"", geo);
    QuotedRow("\t\t\t\tDataDimension=\"", data);
    NumberRow("\t\t\t\tOffset=", offset);
    NumberRow("\t\t\t\tIncrement=", increment);
    NumberRow("\t\t\tEND_OBJECT=DimensionMap_", count);
    Cat5(a, b, c, d, e);
    Cat(a + b + c + d + e, z);
  }

  lemma IndexString(geo: string, data: string, count: int)
    requires CString(geo) && CString(data)
    ensures CString(IndexMapSeg(geo, data, count))
  {
    var a, b := Row("\t\t\tOBJECT=IndexDimensionMap_", Dec(count)), Row("\t\t\t\tGeoDimension=\"", geo + "\"");
    var c, d := Row("\t\t\t\tDataDimension=\"", data + "\""), Row("\t\t\tEND_OBJECT=IndexDimensionMap_", Dec(count));
    NumberRow("\t\t\tOBJECT=IndexDimensionMap_", count);
    QuotedRow("\t\t\t\tGeoDimension=\"", geo);
    QuotedRow("\t\t\t\tDataDimension=\"", data);
    NumberRow("\t\t\tEND_OBJECT=IndexDimensionMap_", count);
    Cat4(a, b, c, d);
  }

  lemma LevelString(name: string, count: int)
    requires CString(name)
    ensures CString(LevelSeg(name, count))
  {
    NumberRow("\t\t\tGROUP=Level_", count);
    QuotedRow("\t\t\t\tLevelName=\"", name);
    NumberRow("\t\t\tEND_GROUP=Level_", count);
    Cat3(Row("\t\t\tGROUP=Level_", Dec(count)), Row("\t\t\t\tLevelName=\"", name + "\""), Row("\t\t\tEND_GROUP=Level_", Dec(count)));
  }

  lemma PointString(name: string, ntype: int, order: int, count: int)
    requires CString(name)
    ensures CString(PointFieldSeg(name, ntype, order, count))
  {
    var a, b := Row("\t\t\t\tOBJECT=PointField_", Dec(count)), Row("\t\t\t\t\tPointFieldName=\"", name + "\"");
    var c, d := Row("\t\t\t\t\tDataType=", TypeName(ntype)), Row("\t\t\t\t\tOrder=", Dec(order));
    var e := Row("\t\t\t\tEND_OBJECT=PointField_", Dec(count));
    NumberRow("\t\t\t\tOBJECT=PointField_", count);
    QuotedRow("\t\t\t\t\tPointFieldName=\"", name);
    TypeString(ntype);
    RowString("\t\t\t\t\tDataType=", TypeName(ntype));
    NumberRow("\t\t\t\t\tOrder=", order);
    NumberRow("\t\t\t\tEND_OBJECT=PointField_", count);
    Cat5(a, b, c, d, e);
  }

  lemma LinkString(parent: string, child: string, link: string, count: int)
    requires CString(parent) && CString(child) && CString(link)
    ensures CString(LevelLinkSeg(parent, child, link, count))
  {
    var a, b := Row("\t\t\tOBJECT=LevelLink_", Dec(count)), Row("\t\t\t\tParent=\"", parent + "\"");
    var c, d := Row("\t\t\t\tChild=\"", child + "\""), Row("\t\t\t\tLinkField=\"", link + "\"");
    var e := Row("\t\t\tEND_OBJECT=LevelLink_", Dec(count));
    NumberRow("\t\t\tOBJECT=LevelLink_", count);
    QuotedRow("\t\t\t\tParent=\"", parent);
    QuotedRow("\t\t\t\tChild=\"", child);
    QuotedRow("\t\t\t\tLinkField=\"", link);
    NumberRow("\t\t\tEND_OBJECT=LevelLink_", count);
    Cat5(a, b, c, d, e);
  }

  function MergedBody(name: string, list: string, count: int): string {
    Row("\t\t\tOBJECT=MergedFields_", Dec(count)) + Row("\t\t\t\tMergedFieldName=\"", name + "\"") + Row("\t\t\t\tFieldList=", list)
    + Row("\t\t\tEND_OBJECT=MergedFields_", Dec(count))
  }

  lemma MergedBodyString(name: string, list: string, count: int)
    requires CString(name) && CString(list)
    ensures CString(MergedBody(name, list, count))
  {
    var a, b := Row("\t\t\tOBJECT=MergedFields_", Dec(count)), Row("\t\t\t\tMergedFieldName=\"", name + "\"");
    var c, d := Row("\t\t\t\tFieldList=", list), Row("\t\t\tEND_OBJECT=MergedFields_", Dec(count));
    NumberRow("\t\t\tOBJECT=MergedFields_", count);
    QuotedRow("\t\t\t\tMergedFieldName=\"", name);
    RowString("\t\t\t\tFieldList=", list);
    NumberRow("\t\t\tEND_OBJECT=MergedFields_", count);
    Cat4(a, b, c, d);
  }

  lemma MergedIs(metastr: string, count: int)
    requires MergedSeg(metastr, count).Some?
    ensures CutAt(metastr, ':').Some? && MetaList(CutAt(metastr, ':').value.1).Some?
    ensures MergedSeg(metastr, count).value == Fmt(MergedBody(CutAt(metastr, ':').value.0, MetaList(CutAt(metastr, ':').value.1).value, count))
  {
  }

  lemma MergedString(metastr: string, count: int)
    requires CString(metastr) && MergedSeg(metastr, count).Some?
    ensures CString(MergedSeg(metastr, count).value)
  {
    MergedIs(metastr, count);
    CutAtString(metastr, ':');
    var (name, rest) := CutAt(metastr, ':').value;
    ListString(rest);
    MergedBodyString(name, MetaList(rest).value, count);
    FmtString(MergedBody(name, MetaList(rest).value, count));
  }

  lemma SlashString(s: string)
    requires CString(s) && CutSlash(s).Some?
    ensures CString(CutSlash(s).value.0) && CString(CutSlash(s).value.1)
  {
  }

  lemma MapSegString(c: Call, count: int)
    requires CString(c.metastr) && SegOf(c, count).Some? && (c.metacode == 1 || c.metacode == 2)
    ensures CString(SegOf(c, count).value)
  {
    SlashString(c.metastr);
    var (geo, data) := CutSlash(c.metastr).value;
    if c.metacode == 1 {
      MapString(geo, data, c.metadata[0], c.metadata[1], count);
    } else {
      IndexString(geo, data, count);
    }
  }

  lemma FieldWords()
    ensures CString("\t\t\tOBJECT=GeoField_") && CString("\t\t\t\tGeoFieldName=\"") && CString("\t\t\tEND_OBJECT=GeoField_")
    ensures CString("\t\t\tOBJECT=DataField_") && CString("\t\t\t\tDataFieldName=\"") && CString("\t\t\tEND_OBJECT=DataField_")
  {
  }

  lemma FieldSegString(c: Call, count: int)
    requires CString(c.metastr) && SegOf(c, count).Some? && (c.metacode == 3 || c.metacode == 4)
    ensures CString(SegOf(c, count).value)
  {
    FieldWords();
    if c.metacode == 3 {
      FieldString("\t\t\tOBJECT=GeoField_", "\t\t\t\tGeoFieldName=\"", "\t\t\tEND_OBJECT=GeoField_", c.metastr, c.metadata, count);
    } else {
      FieldString("\t\t\tOBJECT=DataField_", "\t\t\t\tDataFieldName=\"", "\t\t\tEND_OBJECT=DataField_", c.metastr, c.metadata, count);
    }
  }

  /** Swaths and grids: dimensions, maps, fields and merged fields. */
  lemma GroupSegString(c: Call, count: int)
    requires CString(c.metastr) && SegOf(c, count).Some? && c.metacode < 10
    ensures CString(SegOf(c, count).value)
  {
    if c.metacode == 0 {
      DimensionString(c.metastr, c.metadata[0], count);
    } else if c.metacode == 1 || c.metacode == 2 {
      MapSegString(c, count);
    } else if c.metacode == 3 || c.metacode == 4 {
      FieldSegString(c, count);
    } else {
      MergedString(c.metastr, count);
    }
  }

  /** Points, parameters and new structures. */
  lemma OtherSegString(c: Call, count: int)
    requires CString(c.metastr) && SegOf(c, count).Some? && c.metacode >= 10
    ensures CString(SegOf(c, count).value)
  {
    var m, n := c.metastr, c.metadata;
    if c.metacode == 10 {
      LevelString(m, count);
    } else if c.metacode == 11 {
      CutAtString(m, ':');
      PointString(CutAt(m, ':').value.0, n[0], n[1], count);
    } else if c.metacode == 12 {
      CutAtString(m, ':');
      var (levels, link) := CutAt(m, ':').value;
      CutAtString(levels, '/');
      var (parent, child) := CutAt(levels, '/').value;
      LinkString(parent, child, link, count);
    }
  }

  /** The segment of a call whose string holds no NUL holds none. */
  lemma SegString(c: Call, count: int)
    requires CString(c.metastr) && SegOf(c, count).Some?
    ensures CString(SegOf(c, count).value)
  {
    if c.metacode < 10 {
      GroupSegString(c, count);
    } else {
      OtherSegString(c, count);
    }
  }

  // ------------------------------------------------------------------ the strings

  lemma {:induction false} JoinString(ps: seq<string>)
    requires forall p <- ps :: CString(p)
    ensures CString(Join(ps, ','))
  {
    if ps != [] {
      assert ps[0] in ps;
      JoinString(ps[1..]);
    }
  }

  lemma AttrsString(n: nat, xs: seq<Attr>)
    requires AttrsOk(xs)
    ensures CString(Text(AttrLines(n, xs)))
  {
    forall l | l in AttrLines(n, xs) ensures Shaped(l) {
      var i :| 0 <= i < |xs| && l == Line(n, xs[i].key, xs[i].val);
      assert xs[i] in xs;
      AttrLineOk(l);
    }
    NoNul(AttrLines(n, xs));
  }

  lemma {:induction false} ExtraString(xs: seq<Attr>)
    requires AttrsOk(xs)
    ensures CString(ExtraText(xs))
  {
    if xs != [] {
      assert xs[0] in xs;
      ExtraString(xs[1..]);
    }
  }

  lemma {:induction false} GroupsString(gs: seq<string>)
    requires forall g <- gs :: CString(g)
    ensures CString(EmptyGroups(gs))
  {
    if gs != [] {
      assert gs[0] in gs;
      RowString("\t\tGROUP=", gs[0]);
      RowString("\t\tEND_GROUP=", gs[0]);
      GroupsString(gs[1..]);
    }
  }

  lemma CreateString(r: Request)
    requires r.Create? && RequestOk(r)
    ensures CString(CreateText(r))
  {
    var ps := Text(AttrLines(2, r.params));
    AttrsString(2, r.params);
    match r.kind
    case Swath => SwathString(r, ps);
    case Grid => GridString(r, ps);
    case Point => NewPointString(r, ps);
  }

  lemma SwathString(r: Request, ps: string)
    requires r.Create? && r.kind == Swath && CString(r.name) && CString(ps) && ps == Text(AttrLines(2, r.params))
    ensures CString(CreateText(r))
  {
    var g := SwathGroups();
    NumberRow("\tGROUP=SWATH_", r.id);
    QuotedRow("\t\tSwathName=\"", r.name);
    NumberRow("\tEND_GROUP=SWATH_", r.id);
    Cat5(Row("\tGROUP=SWATH_", Dec(r.id)), Row("\t\tSwathName=\"", r.name + "\""), ps, g, Row("\tEND_GROUP=SWATH_", Dec(r.id)));
  }

  lemma SwathGroups() returns (g: string)
    ensures g == EmptyGroups(["Dimension", "DimensionMap", "IndexDimensionMap", "GeoField", "DataField", "MergedFields"]) && CString(g)
  {
    var gs := ["Dimension", "DimensionMap", "IndexDimensionMap", "GeoField", "DataField", "MergedFields"];
    GroupsString(gs);
    g := EmptyGroups(gs);
  }

  lemma GridString(r: Request, ps: string)
    requires r.Create? && r.kind == Grid && CString(r.name) && CString(ps) && ps == Text(AttrLines(2, r.params))
    ensures CString(CreateText(r))
  {
    var gs := ["Dimension", "DataField", "MergedFields"];
    GroupsString(gs);
    NumberRow("\tGROUP=GRID_", r.id);
    QuotedRow("\t\tGridName=\"", r.name);
    NumberRow("\tEND_GROUP=GRID_", r.id);
    Cat5(Row("\tGROUP=GRID_", Dec(r.id)), Row("\t\tGridName=\"", r.name + "\""), ps, EmptyGroups(gs), Row("\tEND_GROUP=GRID_", Dec(r.id)));
  }

  lemma NewPointString(r: Request, ps: string)
    requires r.Create? && r.kind == Point && CString(r.name) && CString(ps) && ps == Text(AttrLines(2, r.params))
    ensures CString(CreateText(r))
  {
    var gs := ["Level", "LevelLink"];
    GroupsString(gs);
    NumberRow("\tGROUP=POINT_", r.id);
    QuotedRow("\t\tPointName=\"", r.name);
    NumberRow("\tEND_GROUP=POINT_", r.id);
    Cat5(Row("\tGROUP=POINT_", Dec(r.id)), Row("\t\tPointName=\"", r.name + "\""), ps, EmptyGroups(gs), Row("\tEND_GROUP=POINT_", Dec(r.id)));
  }

  lemma FieldMetaString(name: string, dims: seq<string>, extra: seq<Attr>)
    requires PartOk(name) && (forall d <- dims :: PartOk(d)) && AttrsOk(extra)
    ensures CString(FieldMeta(name, dims, extra))
  {
    JoinString(dims);
    ExtraString(extra);
  }

  lemma EntryString(k: Kind, s: string, e: Entry)
    requires EntryOk(e)
    ensures CString(EntryCall(k, s, e).metastr)
  {
    match e
    case GeoField(n, _, ds, x) => FieldMetaString(n, ds, x);
    case DataField(n, _, ds, x) => FieldMetaString(n, ds, x);
    case Merged(_, ms) => JoinString(ms);
    case _ =>
  }

  lemma CallString(r: Request)
    requires RequestOk(r)
    ensures CString(CallOf(r).metastr)
  {
    match r
    case Create(_, _, _, _) => CreateString(r);
    case AddParams(_, _, ps) => AttrsString(2, ps);
    case AddEntry(k, s, e) => EntryString(k, s, e);
    case _ =>
  }

  lemma CreateArrives(a: Ask)
    requires a.req.Create? && CString(CreateText(a.req)) && Arrives(a).Some?
    ensures CString(Arrives(a).value.metastr)
  {
    if a.req.kind == Grid {
      GridTextIs(a.req);
      var header, rest := GridHeader(a.req), GridRest(a.req);
      HalvesString(header, rest);
      CutString(header, HEADER_SIZE);
      Cat(Cut(header, HEADER_SIZE), rest);
      CutString(Cut(header, HEADER_SIZE) + rest, GRID_SIZE);
    }
  }

  lemma HalvesString(a: string, b: string)
    requires CString(a + b)
    ensures CString(a) && CString(b)
  {
    assert forall c <- a :: c in a + b;
    assert forall c <- b :: c in a + b;
  }

  lemma CutString(s: string, size: nat)
    requires CString(s) && size > 0
    ensures CString(Cut(s, size))
  {
  }

  /** What arrives of a request's strings holds no NUL. */
  lemma ArrivesString(a: Ask)
    requires AskOk(a) && Arrives(a).Some?
    ensures CString(Arrives(a).value.metastr)
  {
    if a.req.Create? {
      CallString(a.req);
      CreateArrives(a);
    } else {
      ReceivedIs(a);
      CallString(Received(a));
    }
  }
}
