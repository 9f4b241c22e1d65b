/** Where each insertion goes and what stands there afterwards. */
module MetaInserted {
  import opened CText
  import opened ListText
  import opened OdlLines
  import opened MetaTree
  import opened MetaSearch
  import opened MetaEdit
  import opened MetaRequest
  import opened MetaSegments
  import opened MetaCalls
  import opened MetaLocate
  import opened MetaRefine
  import opened MetaFormat
  import Structs = MetaRefineMore
  import Points = MetaPointField

  /** The text between these two grows by the segment. */
  lemma PutBetween(t: string, c: Call, before: string, seg: string, behind: string, count: int)
    requires t == before + behind && SegOf(c, count) == Some(seg) && PlaceOf(t, c) == Some(Place(|before|, count))
    ensures InsertText(t, c) == Some(before + seg + behind)
  {
    Spliced(before, seg, behind);
    InsertIs(t, c, |before|, count, seg);
  }

  // ---------------------------------------------------------------------- entries

  lemma GroupClosed(g: string)
    ensures LineText(CloseLine(g)) == "\t\tEND_GROUP=" + g + "\n"
  {
    RowPlain("\t\tEND_GROUP=", 2, "END_GROUP", g);
  }

  lemma ClosedText(f: MetaFile, k: Kind, i: nat, g: nat) returns (before: string, behind: string)
    requires Site(f, k, i) && g < |Schema(k)|
    ensures Print(f) == before + behind && |before| == ClosePos(f, k, i, g)
    ensures "\t\tEND_GROUP=" + Schema(k)[g] + "\n" <= behind
  {
    before := Text(LinesA(f, k, i)) + Text(LinesB(k, f.Of(k)[i], g)) + Text(Body(f, k, i, g));
    behind := LineText(CloseLine(Schema(k)[g])) + Rest(f, k, i, g + 1);
    GroupText(f, k, i, g);
    GroupClosed(Schema(k)[g]);
  }

  lemma EntryCalled(f: MetaFile, k: Kind, i: nat, g: nat, e: Entry, nm: string, n: nat, count: nat)
    requires Site(f, k, i) && Searchable(nm) && FirstStruct(f.Of(k), nm) == At(i)
    requires g < |Schema(k)| && GroupOf(e) == Schema(k)[g] && Insertable(e, n) && n == |f.Of(k)[i].groups[g]|
    requires count == if e.Level? then n else n + 1
    ensures PlaceOf(Print(f), EntryCall(k, nm, e)) == Some(Place(ClosePos(f, k, i, g), count))
    ensures SegOf(EntryCall(k, nm, e), count) == Some(Text(EntryLines(e, n)))
  {
    EntryPlace(f, k, i, g, e, nm);
    EntrySeg(k, nm, e, n);
  }

  /** An entry is put in front of the line that closes its group. */
  lemma EntryInserted(f: MetaFile, k: Kind, i: nat, g: nat, e: Entry, nm: string, n: nat, c: Call, seg: string)
    returns (before: string, behind: string)
    requires Site(f, k, i) && Searchable(nm) && FirstStruct(f.Of(k), nm) == At(i)
    requires g < |Schema(k)| && GroupOf(e) == Schema(k)[g] && Insertable(e, n) && n == |f.Of(k)[i].groups[g]|
    requires EntryCall(k, nm, e) == c && Text(EntryLines(e, n)) == seg
    ensures "\t\tEND_GROUP=" + Schema(k)[g] + "\n" <= behind && Print(f) == before + behind
    ensures InsertText(Print(f), c) == Some(before + seg + behind)
  {
    before, behind := ClosedText(f, k, i, g);
    var count := if e.Level? then n else n + 1;
    EntryCalled(f, k, i, g, e, nm, n, count);
    PutBetween(Print(f), c, before, seg, behind, count);
  }

  lemma EntryPut(f: MetaFile, k: Kind, i: nat, g: nat, e: Entry, nm: string, n: nat, c: Call, seg: string, group: string)
    returns (before: string, behind: string)
    requires Site(f, k, i) && Searchable(nm) && FirstStruct(f.Of(k), nm) == At(i)
    requires g < |Schema(k)| && GroupOf(e) == Schema(k)[g] == group && Insertable(e, n) && n == |f.Of(k)[i].groups[g]|
    requires EntryCall(k, nm, e) == c && Text(EntryLines(e, n)) == seg
    ensures "\t\tEND_GROUP=" + group + "\n" <= behind && Print(f) == before + behind
    ensures InsertText(Print(f), c) == Some(before + seg + behind)
  {
    before, behind := EntryInserted(f, k, i, g, e, nm, n, c, seg);
  }

  lemma DataFieldAsked(k: Kind, e: Entry, nm: string, quoted: seq<string>, us: seq<string>, n: nat, c: Call, text: string, group: string)
    requires group == "DataField"
    requires e.DataField? && KnownType(e.ntype) && Written(e.extra, us) && InQuotes(e.dims, quoted)
    requires c == Call(nm, k, 4, FieldMeta(e.name, e.dims, e.extra), [e.ntype])
    requires text == Unlines(["\t\t\tOBJECT=DataField_" + Dec(n + 1)]
                             + (["\t\t\t\tDataFieldName=\"" + e.name + "\"",
                                 "\t\t\t\tDataType=" + TypeName(e.ntype),
                                 "\t\t\t\tDimList=" + ("(" + Join(quoted, ',') + ")")] + us)
                             + ["\t\t\tEND_OBJECT=DataField_" + Dec(n + 1)])
    ensures EntryCall(k, nm, e) == c && Text(EntryLines(e, n)) == text && GroupOf(e) == group
    ensures EndsWith(TypeName(e.ntype), Dec(8 * Size(e.ntype)))
  {
    TypeEnds(e.ntype);
    DataFieldWritten(k, nm, e.name, e.ntype, e.dims, quoted, e.extra, us, n);
  }

  lemma GeoFieldAsked(k: Kind, e: Entry, nm: string, quoted: seq<string>, us: seq<string>, n: nat, c: Call, text: string, group: string)
    requires group == "GeoField"
    requires e.GeoField? && KnownType(e.ntype) && Written(e.extra, us) && InQuotes(e.dims, quoted)
    requires c == Call(nm, k, 3, FieldMeta(e.name, e.dims, e.extra), [e.ntype])
    requires text == Unlines(["\t\t\tOBJECT=GeoField_" + Dec(n + 1)]
                             + (["\t\t\t\tGeoFieldName=\"" + e.name + "\"",
                                 "\t\t\t\tDataType=" + TypeName(e.ntype),
                                 "\t\t\t\tDimList=" + ("(" + Join(quoted, ',') + ")")] + us)
                             + ["\t\t\tEND_OBJECT=GeoField_" + Dec(n + 1)])
    ensures EntryCall(k, nm, e) == c && Text(EntryLines(e, n)) == text && GroupOf(e) == group
    ensures EndsWith(TypeName(e.ntype), Dec(8 * Size(e.ntype)))
  {
    TypeEnds(e.ntype);
    GeoFieldWritten(k, nm, e.name, e.ntype, e.dims, quoted, e.extra, us, n);
  }

  /** A data field is put there with a type line that ends with the number of bits. */
  lemma DataFieldInserted(f: MetaFile, k: Kind, i: nat, g: nat, e: Entry, nm: string, quoted: seq<string>, us: seq<string>, n: nat,
                          typeName: string, c: Call, text: string, group: string)
    returns (before: string, behind: string)
    requires Site(f, k, i) && Searchable(nm) && FirstStruct(f.Of(k), nm) == At(i) && group == "DataField"
    requires e.DataField? && g < |Schema(k)| && Schema(k)[g] == group && Insertable(e, n) && n == |f.Of(k)[i].groups[g]|
    requires Written(e.extra, us) && InQuotes(e.dims, quoted)
    requires typeName == TypeName(e.ntype) && c == Call(nm, k, 4, FieldMeta(e.name, e.dims, e.extra), [e.ntype])
    requires text == Unlines(["\t\t\tOBJECT=DataField_" + Dec(n + 1)]
                             + (["\t\t\t\tDataFieldName=\"" + e.name + "\"",
                                 "\t\t\t\tDataType=" + typeName,
                                 "\t\t\t\tDimList=" + ("(" + Join(quoted, ',') + ")")] + us)
                             + ["\t\t\tEND_OBJECT=DataField_" + Dec(n + 1)])
    ensures EndsWith(typeName, Dec(8 * Size(e.ntype)))
    ensures "\t\tEND_GROUP=" + group + "\n" <= behind && Print(f) == before + behind
    ensures InsertText(Print(f), c) == Some(before + text + behind)
  {
    DataFieldAsked(k, e, nm, quoted, us, n, c, text, group);
    before, behind := EntryPut(f, k, i, g, e, nm, n, c, text, group);
  }

  lemma GeoFieldInserted(f: MetaFile, k: Kind, i: nat, g: nat, e: Entry, nm: string, quoted: seq<string>, us: seq<string>, n: nat,
                          typeName: string, c: Call, text: string, group: string)
    returns (before: string, behind: string)
    requires Site(f, k, i) && Searchable(nm) && FirstStruct(f.Of(k), nm) == At(i) && group == "GeoField"
    requires e.GeoField? && g < |Schema(k)| && Schema(k)[g] == group && Insertable(e, n) && n == |f.Of(k)[i].groups[g]|
    requires Written(e.extra, us) && InQuotes(e.dims, quoted)
    requires typeName == TypeName(e.ntype) && c == Call(nm, k, 3, FieldMeta(e.name, e.dims, e.extra), [e.ntype])
    requires text == Unlines(["\t\t\tOBJECT=GeoField_" + Dec(n + 1)]
                             + (["\t\t\t\tGeoFieldName=\"" + e.name + "\"",
                                 "\t\t\t\tDataType=" + typeName,
                                 "\t\t\t\tDimList=" + ("(" + Join(quoted, ',') + ")")] + us)
                             + ["\t\t\tEND_OBJECT=GeoField_" + Dec(n + 1)])
    ensures EndsWith(typeName, Dec(8 * Size(e.ntype)))
    ensures "\t\tEND_GROUP=" + group + "\n" <= behind && Print(f) == before + behind
    ensures InsertText(Print(f), c) == Some(before + text + behind)
  {
    GeoFieldAsked(k, e, nm, quoted, us, n, c, text, group);
    before, behind := EntryPut(f, k, i, g, e, nm, n, c, text, group);
  }

  // ----------------------------------------------------------------- point fields

  lemma LevelClosed(j: nat)
    ensures LineText(Points.LevelEnd(j)) == "\t\t\tEND_GROUP=Level_" + Dec(j) + "\n"
  {
    RowNumber("\t\t\tEND_GROUP=Level_", 3, "END_GROUP", "Level", j);
  }

  lemma LevelClosedText(f: MetaFile, i: nat, j: nat) returns (before: string, behind: string)
    requires Points.LevelSite(f, i, j)
    ensures Print(f) == before + behind && |before| == Points.FieldPos(f, i, j)
    ensures "\t\t\tEND_GROUP=Level_" + Dec(j) + "\n" <= behind
  {
    before := Text(LinesA(f, Point, i)) + Text(Points.LinesP(f, i, j)) + Text(Points.LinesQ(f, i, j));
    behind := LineText(Points.LevelEnd(j)) + Points.AfterLevel(f, i, j);
    LevelClosed(j);
    Points.LevelText(f, i, j);
    Join3(before, LineText(Points.LevelEnd(j)), Points.AfterLevel(f, i, j));
  }

  /** A point field is put in front of the line that closes the first level of its name. */
  lemma PointFieldInserted(f: MetaFile, i: nat, j: nat, nm: string, level: string, p: PField, n: nat, typeName: string, text: string)
    returns (before: string, behind: string)
    requires Points.LevelSite(f, i, j) && Searchable(nm) && Searchable(level) && FirstStruct(f.Of(Point), nm) == At(i)
    requires FirstLevel(Points.Levels(f, i), level) == At(j) && PFieldOk(p) && |Text(Points.NewField(f, i, j, p))| < UTLSTRSIZE
    requires n == |Points.Levels(f, i)[j].fields| && typeName == TypeName(p.ntype)
    requires text == Unlines(["\t\t\t\tOBJECT=PointField_" + Dec(n + 1)]
                             + ["\t\t\t\t\tPointFieldName=\"" + p.name + "\"",
                                "\t\t\t\t\tDataType=" + typeName,
                                "\t\t\t\t\tOrder=" + Dec(p.order)]
                             + ["\t\t\t\tEND_OBJECT=PointField_" + Dec(n + 1)])
    ensures EndsWith(typeName, Dec(8 * Size(p.ntype)))
    ensures "\t\t\tEND_GROUP=Level_" + Dec(j) + "\n" <= behind && Print(f) == before + behind
    ensures InsertText(Print(f), Call(nm, Point, 11, p.name + ":" + level, [p.ntype, p.order])) == Some(before + text + behind)
  {
    TypeEnds(p.ntype);
    before, behind := LevelClosedText(f, i, j);
    PointFieldWritten(nm, level, p, n + 1);
    PointFieldPut(f, i, j, nm, level, p, n, CallOf(AddPointField(nm, level, p)), before, behind, text);
  }

  lemma PointFieldPut(f: MetaFile, i: nat, j: nat, nm: string, level: string, p: PField, n: nat, c: Call,
                      before: string, behind: string, seg: string)
    requires Points.LevelSite(f, i, j) && Searchable(nm) && Searchable(level) && FirstStruct(f.Of(Point), nm) == At(i)
    requires FirstLevel(Points.Levels(f, i), level) == At(j) && PFieldOk(p) && |Text(Points.NewField(f, i, j, p))| < UTLSTRSIZE
    requires n == |Points.Levels(f, i)[j].fields| && c == CallOf(AddPointField(nm, level, p)) && seg == Text(Points.NewField(f, i, j, p))
    requires Print(f) == before + behind && |before| == Points.FieldPos(f, i, j)
    ensures InsertText(Print(f), c) == Some(before + seg + behind)
  {
    Points.FieldCalled(f, i, j, nm, level, p);
    PutBetween(Print(f), c, before, seg, behind, n + 1);
  }

  lemma Join3(a: string, b: string, c: string)
    ensures a + b + c == a + (b + c)
  {
  }

  // -------------------------------------------------------------- grid parameters

  lemma OpenedText(f: MetaFile, k: Kind, i: nat) returns (before: string, behind: string)
    requires Site(f, k, i)
    ensures Print(f) == before + behind && |before| == OpenPos(f, k, i, 0)
    ensures "\t\tGROUP=" + Schema(k)[0] + "\n" <= behind
  {
    behind := OpenLineThere(f, k, i, Text(LinesA(f, k, i)) + Text(LinesB(k, f.Of(k)[i], 0)), Schema(k)[0]);
    before := Text(LinesA(f, k, i)) + Text(LinesB(k, f.Of(k)[i], 0));
  }

  lemma OpenLineThere(f: MetaFile, k: Kind, i: nat, before: string, g: string) returns (behind: string)
    requires Site(f, k, i) && g == Schema(k)[0] && before == Text(LinesA(f, k, i)) + Text(LinesB(k, f.Of(k)[i], 0))
    ensures Print(f) == before + behind && "\t\tGROUP=" + g + "\n" <= behind
  {
    var post := OpenFrame(f, k, i, 0);
    behind := LineText(OpenLine(g)) + post;
    Join3(before, LineText(OpenLine(g)), post);
    GroupOpened(g);
  }

  lemma GroupOpened(g: string)
    ensures LineText(OpenLine(g)) == "\t\tGROUP=" + g + "\n"
  {
    RowPlain("\t\tGROUP=", 2, "GROUP", g);
  }

  lemma ParamsRead(ps: seq<Attr>, us: seq<string>)
    requires |us| == |ps| && forall j | 0 <= j < |ps| :: us[j] == "\t\t" + ps[j].key + "=" + ps[j].val
    ensures AllRead(AttrLines(2, ps), us) && Text(AttrLines(2, ps)) == Unlines(us)
  {
    assert Tabs(2) == "\t\t";
    forall j | 0 <= j < |ps| ensures Reads(AttrLines(2, ps)[j], us[j]) {
      PlainRead(2, ps[j].key, "\t\t" + ps[j].key + "=", ps[j].val);
    }
    UnlinesAre(AttrLines(2, ps), us);
  }

  /** Parameters are put in front of the line that opens the Dimension group. */
  lemma ParamsInserted(f: MetaFile, k: Kind, i: nat, nm: string, ps: seq<Attr>, us: seq<string>)
    returns (before: string, behind: string)
    requires Site(f, k, i) && Searchable(nm) && FirstStruct(f.Of(k), nm) == At(i) && k != Point
    requires |us| == |ps| && forall j | 0 <= j < |ps| :: us[j] == "\t\t" + ps[j].key + "=" + ps[j].val
    requires |Unlines(us)| < 32000
    ensures "\t\tGROUP=" + "Dimension" + "\n" <= behind && Print(f) == before + behind
    ensures CallOf(AddParams(k, nm, ps)) == Call(nm, k, 101, Unlines(us), [])
    ensures InsertText(Print(f), Call(nm, k, 101, Unlines(us), [])) == Some(before + Unlines(us) + behind)
  {
    ParamsRead(ps, us);
    DimensionFirst(k);
    before, behind := OpenedText(f, k, i);
    Structs.ParamsCalled(f, k, i, nm, ps);
    PutBetween(Print(f), CallOf(AddParams(k, nm, ps)), before, Unlines(us), behind, 0);
  }

  // ---------------------------------------------------------------- new structures

  /** The lines of empty groups. */
  function EmptyLines(gs: seq<string>): seq<string> {
    if gs == [] then [] else ["\t\tGROUP=" + gs[0], "\t\tEND_GROUP=" + gs[0]] + EmptyLines(gs[1..])
  }

  lemma EmptyRead(g: string)
    ensures AllRead(GroupLines(g, []), ["\t\tGROUP=" + g, "\t\tEND_GROUP=" + g])
  {
    PlainRead(2, "GROUP", "\t\tGROUP=", g);
    PlainRead(2, "END_GROUP", "\t\tEND_GROUP=", g);
    assert GroupLines(g, []) == [OpenLine(g), CloseLine(g)];
  }

  lemma {:induction false} EmptyGroupsRead(ns: seq<string>, gs: seq<seq<Entry>>)
    requires |ns| == |gs| && forall i | 0 <= i < |gs| :: gs[i] == []
    ensures AllRead(GroupsLines(ns, gs), EmptyLines(ns))
  {
    if ns != [] {
      EmptyRead(ns[0]);
      EmptyGroupsRead(ns[1..], gs[1..]);
      AllReadCat(GroupLines(ns[0], []), GroupsLines(ns[1..], gs[1..]), ["\t\tGROUP=" + ns[0], "\t\tEND_GROUP=" + ns[0]], EmptyLines(ns[1..]));
    }
  }

  lemma NumberedRead(key: string, prefix: string, g: string, c: int)
    requires prefix == Tabs(1) + key + "=" + g
    ensures Reads(Line(1, key, g + Dec(c)), prefix + Dec(c))
  {
    RowLine(prefix, 1, key, g, Dec(c));
  }

  lemma StructRead(k: Kind, s: Struct, us: seq<string>, open: string, name: string, close: string)
    requires |s.groups| == |Schema(k)| && forall i | 0 <= i < |s.groups| :: s.groups[i] == []
    requires open == Tabs(1) + "GROUP" + "=" + OpenName(k) && close == Tabs(1) + "END_GROUP" + "=" + OpenName(k)
    requires name == Tabs(2) + NameKey(k) + "=\"" && AllRead(AttrLines(2, s.params), us)
    ensures Text(StructLines(k, s))
         == Unlines([open + Dec(s.id), name + s.name + "\""] + us + EmptyLines(Schema(k)) + [close + Dec(s.id)])
  {
    var first, last := [open + Dec(s.id), name + s.name + "\""], [close + Dec(s.id)];
    NumberedRead("GROUP", open, OpenName(k), s.id);
    NumberedRead("END_GROUP", close, OpenName(k), s.id);
    QuotedRead(2, NameKey(k), name, s.name);
    EmptyGroupsRead(Schema(k), s.groups);
    FourRead(StructHead(k, s), AttrLines(2, s.params), GroupsLines(Schema(k), s.groups), [Line(1, "END_GROUP", OpenName(k) + Dec(s.id))],
             first, us, EmptyLines(Schema(k)), last);
  }

  lemma FourRead(a: seq<Line>, b: seq<Line>, c: seq<Line>, d: seq<Line>, ta: seq<string>, tb: seq<string>, tc: seq<string>, td: seq<string>)
    requires AllRead(a, ta) && AllRead(b, tb) && AllRead(c, tc) && AllRead(d, td)
    ensures Text(a + b + c + d) == Unlines(ta + tb + tc + td)
  {
    AllReadCat(a, b, ta, tb);
    AllReadCat(a + b, c, ta + tb, tc);
    AllReadCat(a + b + c, d, ta + tb + tc, td);
    UnlinesAre(a + b + c + d, ta + tb + tc + td);
  }

  lemma RootClosedText(f: MetaFile, k: Kind) returns (before: string, behind: string)
    requires FileOk(f) && WellShaped(f)
    ensures Print(f) == before + behind && |before| == Structs.RootEndPos(f, k)
    ensures "END_GROUP=" + RootName(k) + "\n" <= behind
  {
    Structs.EndFrame(f, k);
    before := Text(Upto(f, k, |f.Of(k)|));
    behind := LineText(RootEnd(k)) + (Text(After(f, k)) + "END\n");
    assert Tabs(0) == "";
    RowPlain("END_GROUP=", 0, "END_GROUP", RootName(k));
  }

  lemma StructInserted(f: MetaFile, r: Request, text: string) returns (before: string, behind: string)
    requires FileOk(f) && WellShaped(f) && r.Create? && |text| < 32000 && CreateText(r) == text
    ensures "END_GROUP=" + RootName(r.kind) + "\n" <= behind && Print(f) == before + behind
    ensures InsertText(Print(f), CallOf(r)) == Some(before + text + behind)
  {
    before, behind := RootClosedText(f, r.kind);
    Structs.CreateCalled(f, r);
    PutBetween(Print(f), CallOf(r), before, text, behind, 0);
  }

  /** A new swath is put in front of the line that closes the section of the swaths. */
  lemma SwathInserted(f: MetaFile, id: int, name: string, ps: seq<Attr>, us: seq<string>, text: string) returns (before: string, behind: string)
    requires FileOk(f) && WellShaped(f) && |text| < 32000
    requires |us| == |ps| && forall j | 0 <= j < |ps| :: us[j] == "\t\t" + ps[j].key + "=" + ps[j].val
    requires text == Unlines(["\tGROUP=SWATH_" + Dec(id), "\t\tSwathName=\"" + name + "\""] + us
                             + EmptyLines(["Dimension", "DimensionMap", "IndexDimensionMap", "GeoField", "DataField", "MergedFields"])
                             + ["\tEND_GROUP=SWATH_" + Dec(id)])
    ensures CallOf(Create(Swath, id, name, ps)) == Call("", Swath, 1001, text, [])
    ensures "END_GROUP=" + "SwathStructure" + "\n" <= behind && Print(f) == before + behind
    ensures InsertText(Print(f), Call("", Swath, 1001, text, [])) == Some(before + text + behind)
  {
    SwathWords();
    StructText(Create(Swath, id, name, ps), us, "\tGROUP=SWATH_", "\t\tSwathName=\"", "\tEND_GROUP=SWATH_",
               ["Dimension", "DimensionMap", "IndexDimensionMap", "GeoField", "DataField", "MergedFields"]);
    before, behind := StructInserted(f, Create(Swath, id, name, ps), text);
  }

  lemma StructText(r: Request, us: seq<string>, open: string, name: string, close: string, gs: seq<string>)
    requires r.Create? && gs == Schema(r.kind)
    requires open == Tabs(1) + "GROUP" + "=" + OpenName(r.kind) && close == Tabs(1) + "END_GROUP" + "=" + OpenName(r.kind)
    requires name == Tabs(2) + NameKey(r.kind) + "=\""
    requires |us| == |r.params| && forall j | 0 <= j < |r.params| :: us[j] == "\t\t" + r.params[j].key + "=" + r.params[j].val
    ensures CreateText(r) == Unlines([open + Dec(r.id), name + r.name + "\""] + us + EmptyLines(gs) + [close + Dec(r.id)])
  {
    Structs.CreateTextIs(r);
    ParamsRead(r.params, us);
    StructRead(r.kind, NewStruct(r), us, open, name, close);
  }

  lemma SwathWords()
    ensures "\tGROUP=SWATH_" == Tabs(1) + "GROUP" + "=" + OpenName(Swath) && "\tEND_GROUP=SWATH_" == Tabs(1) + "END_GROUP" + "=" + OpenName(Swath)
    ensures "\t\tSwathName=\"" == Tabs(2) + NameKey(Swath) + "=\""
  {
    Structs.OpenWords();
    Structs.NameWords();
  }

  lemma GridWords()
    ensures "\tGROUP=GRID_" == Tabs(1) + "GROUP" + "=" + OpenName(Grid) && "\tEND_GROUP=GRID_" == Tabs(1) + "END_GROUP" + "=" + OpenName(Grid)
    ensures "\t\tGridName=\"" == Tabs(2) + NameKey(Grid) + "=\""
  {
    Structs.OpenWords();
    Structs.NameWords();
  }

  lemma PointWords()
    ensures "\tGROUP=POINT_" == Tabs(1) + "GROUP" + "=" + OpenName(Point) && "\tEND_GROUP=POINT_" == Tabs(1) + "END_GROUP" + "=" + OpenName(Point)
    ensures "\t\tPointName=\"" == Tabs(2) + NameKey(Point) + "=\""
  {
    Structs.OpenWords();
    Structs.NameWords();
  }

  lemma GridInserted(f: MetaFile, id: int, name: string, ps: seq<Attr>, us: seq<string>, text: string) returns (before: string, behind: string)
    requires FileOk(f) && WellShaped(f) && |text| < 32000
    requires |us| == |ps| && forall j | 0 <= j < |ps| :: us[j] == "\t\t" + ps[j].key + "=" + ps[j].val
    requires text == Unlines(["\tGROUP=GRID_" + Dec(id), "\t\tGridName=\"" + name + "\""] + us
                             + EmptyLines(["Dimension", "DataField", "MergedFields"]) + ["\tEND_GROUP=GRID_" + Dec(id)])
    ensures CallOf(Create(Grid, id, name, ps)) == Call("", Grid, 1002, text, [])
    ensures "END_GROUP=" + "GridStructure" + "\n" <= behind && Print(f) == before + behind
    ensures InsertText(Print(f), Call("", Grid, 1002, text, [])) == Some(before + text + behind)
  {
    GridWords();
    StructText(Create(Grid, id, name, ps), us, "\tGROUP=GRID_", "\t\tGridName=\"", "\tEND_GROUP=GRID_",
               ["Dimension", "DataField", "MergedFields"]);
    before, behind := StructInserted(f, Create(Grid, id, name, ps), text);
  }

  lemma PointInserted(f: MetaFile, id: int, name: string, text: string) returns (before: string, behind: string)
    requires FileOk(f) && WellShaped(f) && |text| < 32000
    requires text == Unlines(["\tGROUP=POINT_" + Dec(id), "\t\tPointName=\"" + name + "\""]
                             + EmptyLines(["Level", "LevelLink"]) + ["\tEND_GROUP=POINT_" + Dec(id)])
    ensures CallOf(Create(Point, id, name, [])) == Call("", Point, 1003, text, [])
    ensures "END_GROUP=" + "PointStructure" + "\n" <= behind && Print(f) == before + behind
    ensures InsertText(Print(f), Call("", Point, 1003, text, [])) == Some(before + text + behind)
  {
    PointWords();
    var head := ["\tGROUP=POINT_" + Dec(id), "\t\tPointName=\"" + name + "\""];
    assert head + [] == head;
    StructText(Create(Point, id, name, []), [], "\tGROUP=POINT_", "\t\tPointName=\"", "\tEND_GROUP=POINT_", ["Level", "LevelLink"]);
    before, behind := StructInserted(f, Create(Point, id, name, []), text);
  }
}
