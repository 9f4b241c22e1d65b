/** The other three requests: new structures, grid parameters, point fields. */
module MetaRefineMore {
  import opened CText
  import opened OdlLines
  import opened MetaTree
  import opened MetaLines
  import opened MetaSearch
  import opened MetaEdit
  import opened MetaRequest
  import opened MetaLocate
  import opened MetaSegments
  import opened MetaRefine

  // ------------------------------------------------------------------ AddParams

  lemma DimensionKey()
    ensures "\t\tGROUP=" + "Dimension" == "\t\tGROUP=Dimension"
  {
  }

  lemma SwitchParams(t: string, p: nat, c: Call, at: nat)
    requires FindStart(t, c) == At(p) && p <= |t| && c.metacode == 101 && StrStr(t, "\t\tGROUP=Dimension", p) == At(at)
    ensures PlaceOf(t, c) == Some(Place(at, 0)) && SegOf(c, 0) == Fits(c.metastr)
  {
  }

  lemma ParamsOk(k: Kind, s: Struct, ps: seq<Attr>)
    requires StructOk(k, s) && AttrsOk(ps)
    ensures StructOk(k, s.(params := s.params + ps))
  {
    assert forall x <- s.params + ps :: x in s.params || x in ps;
  }

  lemma ParamsStable(k: Kind, s: Struct, ps: seq<Attr>)
    requires |s.groups| == |Schema(k)|
    ensures var s' := s.(params := s.params + ps);
            && GroupRest(k, s', 0) == GroupRest(k, s, 0)
            && LinesB(k, s', 0) == LinesB(k, s, 0) + AttrLines(2, ps)
  {
    var s' := s.(params := s.params + ps);
    assert AttrLines(2, s.params + ps) == AttrLines(2, s.params) + AttrLines(2, ps);
    LeadNone(k, s);
    LeadNone(k, s');
    Assoc([NameLine(k, s)], AttrLines(2, s.params), AttrLines(2, ps));
  }

  lemma LeadNone(k: Kind, s: Struct)
    requires |s.groups| == |Schema(k)|
    ensures GroupLead(k, s, 0) == AttrLines(2, s.params)
  {
    assert GroupsLines(Schema(k)[..0], s.groups[..0]) == [];
  }

  lemma ParamsFrame(f: MetaFile, k: Kind, i: nat, ps: seq<Attr>, f': MetaFile)
    requires Site(f, k, i) && AttrsOk(ps)
    requires f' == WithStruct(f, k, i, f.Of(k)[i].(params := f.Of(k)[i].params + ps))
    ensures FileOk(f') && WellShaped(f') && OpenPos(f, k, i, 0) <= |Print(f)|
    ensures Print(f') == Splice(Print(f), Edit(OpenPos(f, k, i, 0), Text(AttrLines(2, ps))))
  {
    var s := f.Of(k)[i];
    ParamsOk(k, s, ps);
    FrameStable(f, k, i, s.(params := s.params + ps));
    ParamsPrint(f, k, i, ps, f');
  }

  lemma ParamsPrint(f: MetaFile, k: Kind, i: nat, ps: seq<Attr>, f': MetaFile)
    requires Site(f, k, i) && Site(f', k, i) && f'.Of(k)[i] == f.Of(k)[i].(params := f.Of(k)[i].params + ps)
    requires LinesA(f', k, i) == LinesA(f, k, i) && From(f', k, i + 1) == From(f, k, i + 1)
    ensures OpenPos(f, k, i, 0) <= |Print(f)|
    ensures Print(f') == Splice(Print(f), Edit(OpenPos(f, k, i, 0), Text(AttrLines(2, ps))))
  {
    var s := f.Of(k)[i];
    ParamsStable(k, s, ps);
    TextFrame(f, k, i, 0);
    TextFrame(f', k, i, 0);
    LinesSpliced(Text(LinesA(f, k, i)), LinesB(k, s, 0), AttrLines(2, ps), Rest(f, k, i, 0));
  }

  lemma LinesSpliced(a: string, b: seq<Line>, x: seq<Line>, z: string)
    ensures a + Text(b + x) + z == Splice(a + Text(b) + z, Edit(|a + Text(b)|, Text(x)))
  {
    TextCat(b, x);
    Spliced(a + Text(b), Text(x), z);
    Assoc(a, Text(b), Text(x));
  }

  /** The place and the segment of a grid's parameters. */
  lemma ParamsCalled(f: MetaFile, k: Kind, i: nat, nm: string, ps: seq<Attr>)
    requires Site(f, k, i) && Searchable(nm) && FirstStruct(f.Of(k), nm) == At(i)
    requires k != Point && |Text(AttrLines(2, ps))| < UTLSTRSIZE
    ensures var c := CallOf(AddParams(k, nm, ps));
            PlaceOf(Print(f), c) == Some(Place(OpenPos(f, k, i, 0), 0)) && SegOf(c, 0) == Some(Text(AttrLines(2, ps)))
  {
    LocateStart(f, CallOf(AddParams(k, nm, ps)), i);
    LocateOpen(f, k, i, 0);
    DimensionFirst(k);
    DimensionKey();
    SwitchParams(Print(f), NamePos(f, k, i), CallOf(AddParams(k, nm, ps)), OpenPos(f, k, i, 0));
  }

  /** Inserting parameter lines before the Dimension group is appending them to
      the structure's parameters. */
  lemma RefineParams(f: MetaFile, k: Kind, i: nat, nm: string, ps: seq<Attr>)
    requires Site(f, k, i) && Searchable(nm) && FirstStruct(f.Of(k), nm) == At(i)
    requires k != Point && AttrsOk(ps) && |Text(AttrLines(2, ps))| < UTLSTRSIZE
    ensures var f' := WithStruct(f, k, i, f.Of(k)[i].(params := f.Of(k)[i].params + ps));
            FileOk(f') && WellShaped(f') && InsertText(Print(f), CallOf(AddParams(k, nm, ps))) == Some(Print(f'))
  {
    var c := CallOf(AddParams(k, nm, ps));
    ParamsCalled(f, k, i, nm, ps);
    ParamsFrame(f, k, i, ps, WithStruct(f, k, i, f.Of(k)[i].(params := f.Of(k)[i].params + ps)));
    InsertIs(Print(f), c, OpenPos(f, k, i, 0), 0, Text(AttrLines(2, ps)));
  }

  // --------------------------------------------------------------------- Create

  function RootEndPos(f: MetaFile, k: Kind): nat
    requires WellShaped(f)
  {
    |Text(Upto(f, k, |f.Of(k)|))|
  }

  lemma EndLines(f: MetaFile, k: Kind)
    requires WellShaped(f) && Schematic(k, f.Of(k))
    ensures FileLines(f) == Upto(f, k, |f.Of(k)|) + ([RootEnd(k)] + After(f, k))
    ensures Upto(f, k, |f.Of(k)|) == Before(f, k) + ([RootLine(k)] + StructsLines(k, f.Of(k)))
  {
    var ss := f.Of(k);
    FileSplit(f, k, |ss|);
    FromEnd(f, k);
    assert ss[..|ss|] == ss;
    Assoc(Before(f, k), [RootLine(k)], StructsLines(k, ss));
  }

  lemma FromEnd(f: MetaFile, k: Kind)
    requires WellShaped(f)
    ensures From(f, k, |f.Of(k)|) == [RootEnd(k)] + After(f, k)
  {
    var ss := f.Of(k);
    assert Schematic(k, ss) && ss[|ss|..] == [];
    NilLeft([RootEnd(k)], After(f, k));
  }

  lemma NilLeft<T>(a: seq<T>, b: seq<T>)
    ensures [] + a + b == a + b
  {
  }

  lemma EndFrame(f: MetaFile, k: Kind)
    requires FileOk(f) && WellShaped(f)
    ensures Print(f) == Text(Upto(f, k, |f.Of(k)|)) + (LineText(RootEnd(k)) + (Text(After(f, k)) + "END\n"))
    ensures Schematic(k, f.Of(k))
    ensures Upto(f, k, |f.Of(k)|) == Before(f, k) + ([RootLine(k)] + StructsLines(k, f.Of(k)))
  {
    OfOk(f, k);
    EndLines(f, k);
    TextOf2(Upto(f, k, |f.Of(k)|), RootEnd(k), After(f, k), "END\n");
  }

  lemma TextOf2(a: seq<Line>, l: Line, b: seq<Line>, end: string)
    ensures Text(a + ([l] + b)) + end == Text(a) + (LineText(l) + (Text(b) + end))
  {
    TextCat(a, [l] + b);
    TextCat([l], b);
    Text1(l);
    EndChain(Text(a), LineText(l), Text(b), end);
  }

  lemma EndChain(a: string, b: string, c: string, d: string)
    ensures a + (b + c) + d == a + (b + (c + d))
  {
  }

  lemma InnerQuiet(f: MetaFile, k: Kind)
    requires FileOk(f) && WellShaped(f) && Schematic(k, f.Of(k))
    ensures AllQuiet([RootLine(k)] + StructsLines(k, f.Of(k)), "END_GROUP", RootName(k))
    ensures AllShaped([RootLine(k)] + StructsLines(k, f.Of(k)))
  {
    var ss := f.Of(k);
    OfOk(f, k);
    RootApart(k, k);
    StructsQuietGroup(k, ss, "END_GROUP", RootName(k));
    StructsLinesOk(k, ss);
    ShapedOfOk(StructsLines(k, ss));
    RootLinesOk(k);
    GroupAligned(RootLine(k), "END_GROUP", RootName(k));
    InertQuiet(RootName(k), "END_GROUP", RootName(k));
  }

  lemma RootEndAligned(k: Kind)
    ensures Aligned(RootEnd(k), "END_GROUP", RootName(k)) && |Head(RootEnd(k))| == 9
    ensures "END_GROUP=" + RootName(k) == "END_GROUP" + "=" + RootName(k)
  {
    assert Head(RootEnd(k)) == "END_GROUP";
  }

  /** The search for the end of a section's root group. */
  lemma LocateRootEnd(f: MetaFile, k: Kind)
    requires FileOk(f) && WellShaped(f)
    ensures RootPos(f, k) <= |Print(f)|
    ensures StrStr(Print(f), "END_GROUP=" + RootName(k), RootPos(f, k)) == At(RootEndPos(f, k))
  {
    EndFrame(f, k);
    InnerQuiet(f, k);
    var skip := [RootLine(k)] + StructsLines(k, f.Of(k));
    TextCat(Before(f, k), skip);
    RootLinesOk(k);
    RootEndAligned(k);
    RootKey(k);
    Assoc(Text(Before(f, k)) + Text(skip), LineText(RootEnd(k)), Text(After(f, k)) + "END\n");
    FindIn(Print(f), "END_GROUP=" + RootName(k), Text(Before(f, k)), skip, RootEnd(k), Text(After(f, k)) + "END\n",
           "END_GROUP", RootName(k), RootPos(f, k), RootEndPos(f, k));
  }

  lemma EmptyGroupText(g: string)
    ensures EmptyGroup(g) == Text(GroupLines(g, []))
  {
    assert "\t\tGROUP=" == Tabs(2) + "GROUP" + "=";
    assert "\t\tEND_GROUP=" == Tabs(2) + "END_GROUP" + "=";
    RowPlain("\t\tGROUP=", 2, "GROUP", g);
    RowPlain("\t\tEND_GROUP=", 2, "END_GROUP", g);
    assert GroupLines(g, []) == [OpenLine(g)] + [CloseLine(g)];
    TextCat([OpenLine(g)], [CloseLine(g)]);
    Text1(OpenLine(g));
    Text1(CloseLine(g));
  }

  lemma {:induction false} EmptyGroupsText(ns: seq<string>, gs: seq<seq<Entry>>)
    requires |ns| == |gs| && forall i | 0 <= i < |gs| :: gs[i] == []
    ensures EmptyGroups(ns) == Text(GroupsLines(ns, gs))
  {
    if ns != [] {
      EmptyGroupText(ns[0]);
      EmptyGroupsText(ns[1..], gs[1..]);
      TextCat(GroupLines(ns[0], []), GroupsLines(ns[1..], gs[1..]));
    }
  }

  lemma OpenWords()
    ensures "\tGROUP=SWATH_" == Tabs(1) + "GROUP" + "=" + "SWATH_" && "\tEND_GROUP=SWATH_" == Tabs(1) + "END_GROUP" + "=" + "SWATH_"
    ensures "\tGROUP=GRID_" == Tabs(1) + "GROUP" + "=" + "GRID_" && "\tEND_GROUP=GRID_" == Tabs(1) + "END_GROUP" + "=" + "GRID_"
    ensures "\tGROUP=POINT_" == Tabs(1) + "GROUP" + "=" + "POINT_" && "\tEND_GROUP=POINT_" == Tabs(1) + "END_GROUP" + "=" + "POINT_"
  {
  }

  lemma NameWords()
    ensures "\t\tSwathName=\"" == Tabs(2) + "SwathName" + "=\"" && "\t\tGridName=\"" == Tabs(2) + "GridName" + "=\""
    ensures "\t\tPointName=\"" == Tabs(2) + "PointName" + "=\""
  {
  }

  /** The text of a new structure is the print of the empty structure. */
  lemma CreateTextIs(r: Request)
    requires r.Create?
    ensures CreateText(r) == Text(StructLines(r.kind, NewStruct(r)))
  {
    var k, s := r.kind, NewStruct(r);
    OpenWords();
    NameWords();
    var open, close := Line(1, "GROUP", OpenName(k) + Dec(r.id)), Line(1, "END_GROUP", OpenName(k) + Dec(r.id));
    EmptyGroupsText(Schema(k), s.groups);
    StructText(k, s, open, close);
    match k
    case Swath =>
      RowLine("\tGROUP=SWATH_", 1, "GROUP", "SWATH_", Dec(r.id));
      RowLine("\tEND_GROUP=SWATH_", 1, "END_GROUP", "SWATH_", Dec(r.id));
      RowQuoted("\t\tSwathName=\"", 2, "SwathName", r.name);
    case Grid =>
      RowLine("\tGROUP=GRID_", 1, "GROUP", "GRID_", Dec(r.id));
      RowLine("\tEND_GROUP=GRID_", 1, "END_GROUP", "GRID_", Dec(r.id));
      RowQuoted("\t\tGridName=\"", 2, "GridName", r.name);
    case Point =>
      RowLine("\tGROUP=POINT_", 1, "GROUP", "POINT_", Dec(r.id));
      RowLine("\tEND_GROUP=POINT_", 1, "END_GROUP", "POINT_", Dec(r.id));
      RowQuoted("\t\tPointName=\"", 2, "PointName", r.name);
  }

  lemma StructText(k: Kind, s: Struct, open: Line, close: Line)
    requires |s.groups| == |Schema(k)|
    requires open == Line(1, "GROUP", OpenName(k) + Dec(s.id)) && close == Line(1, "END_GROUP", OpenName(k) + Dec(s.id))
    ensures Text(StructLines(k, s)) == LineText(open) + LineText(NameLine(k, s)) + Text(AttrLines(2, s.params))
                                       + Text(GroupsLines(Schema(k), s.groups)) + LineText(close)
  {
    var a, g := AttrLines(2, s.params), GroupsLines(Schema(k), s.groups);
    assert StructHead(k, s) == [open] + [NameLine(k, s)];
    TextCat(StructHead(k, s) + a + g, [close]);
    TextCat(StructHead(k, s) + a, g);
    TextCat(StructHead(k, s), a);
    TextCat([open], [NameLine(k, s)]);
    Text1(open);
    Text1(NameLine(k, s));
    Text1(close);
  }

  lemma NewStructOk(r: Request)
    requires r.Create? && RequestOk(r)
    ensures StructOk(r.kind, NewStruct(r))
  {
  }

  lemma SwitchCreate(t: string, c: Call, root: nat, at: nat)
    requires c.metacode == (match c.kind case Swath => 1001 case Grid => 1002 case Point => 1003)
    requires FindRoot(t, c.kind) == At(root) && root <= |t| && StrStr(t, "END_GROUP=" + RootName(c.kind), root) == At(at)
    ensures PlaceOf(t, c) == Some(Place(at, 0)) && SegOf(c, 0) == Fits(c.metastr)
  {
    RootEndKeys();
  }

  lemma RootEndKeys()
    ensures "END_GROUP=" + "SwathStructure" == "END_GROUP=SwathStructure"
    ensures "END_GROUP=" + "GridStructure" == "END_GROUP=GridStructure"
    ensures "END_GROUP=" + "PointStructure" == "END_GROUP=PointStructure"
  {
  }

  lemma CreateOk(f: MetaFile, k: Kind, s: Struct, f': MetaFile)
    requires FileOk(f) && StructOk(k, s) && f' == f.With(k, f.Of(k) + [s])
    ensures FileOk(f') && WellShaped(f') && f'.Of(k) == f.Of(k) + [s]
    ensures WellShaped(f) && Before(f', k) == Before(f, k) && After(f', k) == After(f, k)
  {
    OfOk(f, k);
    FileLinesOk(f');
  }

  /** The section's lines with one more structure. */
  lemma CreateLines(f: MetaFile, k: Kind, s: Struct, f': MetaFile)
    requires FileOk(f) && WellShaped(f) && StructOk(k, s) && f' == f.With(k, f.Of(k) + [s])
    ensures WellShaped(f') && Upto(f', k, |f'.Of(k)|) == Upto(f, k, |f.Of(k)|) + StructLines(k, s)
  {
    CreateOk(f, k, s, f');
    EndFrame(f, k);
    EndFrame(f', k);
    StructsSplit(k, f.Of(k), [s]);
    assert StructsLines(k, [s]) == StructLines(k, s) by { assert [s][1..] == []; }
    Nest(Before(f, k), [RootLine(k)], StructsLines(k, f.Of(k)), StructLines(k, s));
  }

  lemma Nest<T>(a: seq<T>, b: seq<T>, c: seq<T>, d: seq<T>)
    ensures a + (b + (c + d)) == a + (b + c) + d
  {
  }

  /** Appending a structure leaves the lines around it alone. */
  lemma CreateFrame(f: MetaFile, k: Kind, s: Struct, f': MetaFile)
    requires FileOk(f) && WellShaped(f) && StructOk(k, s) && f' == f.With(k, f.Of(k) + [s])
    ensures FileOk(f') && WellShaped(f') && RootEndPos(f, k) <= |Print(f)|
    ensures Print(f') == Splice(Print(f), Edit(RootEndPos(f, k), Text(StructLines(k, s))))
  {
    CreateOk(f, k, s, f');
    CreateLines(f, k, s, f');
    EndFrame(f, k);
    EndFrame(f', k);
    TextCat(Upto(f, k, |f.Of(k)|), StructLines(k, s));
    Spliced(Text(Upto(f, k, |f.Of(k)|)), Text(StructLines(k, s)), LineText(RootEnd(k)) + (Text(After(f, k)) + "END\n"));
  }

  /** The place and the segment of a new structure. */
  lemma CreateCalled(f: MetaFile, r: Request)
    requires FileOk(f) && WellShaped(f) && r.Create? && |CreateText(r)| < UTLSTRSIZE
    ensures PlaceOf(Print(f), CallOf(r)) == Some(Place(RootEndPos(f, r.kind), 0)) && SegOf(CallOf(r), 0) == Some(CreateText(r))
  {
    LocateRoot(f, r.kind);
    LocateRootEnd(f, r.kind);
    SwitchCreate(Print(f), CallOf(r), RootPos(f, r.kind), RootEndPos(f, r.kind));
  }

  /** Inserting a new structure's text is appending the empty structure. */
  lemma RefineCreate(f: MetaFile, r: Request)
    requires FileOk(f) && WellShaped(f) && r.Create? && RequestOk(r) && |CreateText(r)| < UTLSTRSIZE
    ensures var f' := f.With(r.kind, f.Of(r.kind) + [NewStruct(r)]);
            FileOk(f') && WellShaped(f') && InsertText(Print(f), CallOf(r)) == Some(Print(f'))
  {
    var c := CallOf(r);
    CreateCalled(f, r);
    NewStructOk(r);
    CreateTextIs(r);
    CreateFrame(f, r.kind, NewStruct(r), f.With(r.kind, f.Of(r.kind) + [NewStruct(r)]));
    InsertIs(Print(f), c, RootEndPos(f, r.kind), 0, CreateText(r));
  }

  /** The print grows by the text of the new structure. */
  lemma CreateGrows(f: MetaFile, r: Request)
    requires FileOk(f) && WellShaped(f) && r.Create? && RequestOk(r)
    ensures var f' := f.With(r.kind, f.Of(r.kind) + [NewStruct(r)]); WellShaped(f') && |Print(f')| == |Print(f)| + |CreateText(r)|
  {
    NewStructOk(r);
    CreateTextIs(r);
    CreateFrame(f, r.kind, NewStruct(r), f.With(r.kind, f.Of(r.kind) + [NewStruct(r)]));
  }
}
