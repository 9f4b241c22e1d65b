/** The offsets the searches return on the printed tree. */
module MetaLocate {
  import opened CText
  import opened OdlLines
  import opened MetaTree
  import opened MetaLines
  import opened MetaSearch
  import opened MetaEdit

  /** The lines up to and including the opening line of structure i. */
  function LinesA(f: MetaFile, k: Kind, i: nat): seq<Line>
    requires WellShaped(f) && i < |f.Of(k)|
  {
    Upto(f, k, i) + [StructHead(k, f.Of(k)[i])[0]]
  }

  /** From the name line to the last line before group g. */
  function LinesB(k: Kind, s: Struct, g: nat): seq<Line>
    requires |s.groups| == |Schema(k)| && g <= |s.groups|
  {
    [NameLine(k, s)] + GroupLead(k, s, g)
  }

  /** Everything from group g of structure i on. */
  function LinesE(f: MetaFile, k: Kind, i: nat, g: nat): seq<Line>
    requires WellShaped(f) && i < |f.Of(k)| && |f.Of(k)[i].groups| == |Schema(k)| && g <= |Schema(k)|
  {
    GroupRest(k, f.Of(k)[i], g) + From(f, k, i + 1)
  }

  predicate Site(f: MetaFile, k: Kind, i: nat) {
    FileOk(f) && WellShaped(f) && i < |f.Of(k)| && StructOk(k, f.Of(k)[i])
  }

  lemma SiteOk(f: MetaFile, k: Kind, i: nat)
    requires FileOk(f) && i < |f.Of(k)|
    ensures Site(f, k, i)
  {
    OfOk(f, k);
    assert f.Of(k)[i] in f.Of(k);
  }

  /** The file's lines around a group of one structure. */
  lemma FileFrame(f: MetaFile, k: Kind, i: nat, g: nat)
    requires Site(f, k, i) && g <= |Schema(k)|
    ensures FileLines(f) == LinesA(f, k, i) + LinesB(k, f.Of(k)[i], g) + LinesE(f, k, i, g)
  {
    var s := f.Of(k)[i];
    FileSplit(f, k, i);
    FromHead(f, k, i);
    StructSplit(k, s, g);
    assert StructHead(k, s) == [StructHead(k, s)[0]] + [NameLine(k, s)];
    Frame(Upto(f, k, i), [StructHead(k, s)[0]], [NameLine(k, s)], GroupLead(k, s, g), GroupRest(k, s, g), From(f, k, i + 1));
  }

  lemma Frame<T>(a: seq<T>, b: seq<T>, c: seq<T>, d: seq<T>, e: seq<T>, z: seq<T>)
    ensures a + ((b + c) + d + e + z) == (a + b) + (c + d) + (e + z)
  {
  }

  function Rest(f: MetaFile, k: Kind, i: nat, g: nat): string
    requires WellShaped(f) && i < |f.Of(k)| && |f.Of(k)[i].groups| == |Schema(k)| && g <= |Schema(k)|
  {
    Text(LinesE(f, k, i, g)) + "END\n"
  }

  lemma TextFrame(f: MetaFile, k: Kind, i: nat, g: nat)
    requires Site(f, k, i) && g <= |Schema(k)|
    ensures Print(f) == Text(LinesA(f, k, i)) + Text(LinesB(k, f.Of(k)[i], g)) + Rest(f, k, i, g)
  {
    var a, b, e := LinesA(f, k, i), LinesB(k, f.Of(k)[i], g), LinesE(f, k, i, g);
    FileFrame(f, k, i, g);
    TextCat(a + b, e);
    TextCat(a, b);
    Assoc(Text(a) + Text(b), Text(e), "END\n");
  }

  /** The part before group g is made of well-formed lines. */
  lemma FrameOk(f: MetaFile, k: Kind, i: nat, g: nat)
    requires Site(f, k, i) && g <= |Schema(k)|
    ensures AllShaped(LinesA(f, k, i)) && AllShaped(LinesB(k, f.Of(k)[i], g)) && AllShaped(LinesE(f, k, i, g))
  {
    FileLinesOk(f);
    FileFrame(f, k, i, g);
    var a, b, e := LinesA(f, k, i), LinesB(k, f.Of(k)[i], g), LinesE(f, k, i, g);
    ShapedOfOk(FileLines(f));
    ShapedParts(a, b, e);
  }

  lemma ShapedParts(a: seq<Line>, b: seq<Line>, c: seq<Line>)
    requires AllShaped(a + b + c)
    ensures AllShaped(a) && AllShaped(b) && AllShaped(c)
  {
    assert forall l <- a :: l in a + b + c;
    assert forall l <- b :: l in a + b + c;
    assert forall l <- c :: l in a + b + c;
  }

  // --------------------------------------------------------------- the root

  function RootPos(f: MetaFile, k: Kind): nat
    requires WellShaped(f)
  {
    |Text(Before(f, k))|
  }

  /** The text around the opening line of a section. */
  lemma RootFrame(f: MetaFile, k: Kind) returns (post: string)
    requires FileOk(f) && WellShaped(f)
    ensures Print(f) == "" + Text(Before(f, k)) + LineText(RootLine(k)) + post
  {
    OfOk(f, k);
    var pre, l := Before(f, k), RootLine(k);
    var tail := StructsLines(k, f.Of(k)) + [RootEnd(k)] + After(f, k);
    FileSections(f, k);
    Regroup5(pre, [l], StructsLines(k, f.Of(k)), [RootEnd(k)], After(f, k));
    post := Text(tail) + "END\n";
    TextOf(pre, l, tail, "END\n");
  }

  lemma Regroup5<T>(a: seq<T>, b: seq<T>, c: seq<T>, d: seq<T>, e: seq<T>)
    ensures a + (b + c + d) + e == a + b + (c + d + e)
  {
  }

  lemma TextOf(a: seq<Line>, l: Line, b: seq<Line>, end: string)
    ensures Text(a + [l] + b) + end == "" + Text(a) + LineText(l) + (Text(b) + end)
  {
    TextCat(a + [l], b);
    TextCat(a, [l]);
    Text1(l);
    EmptyFront(Text(a), LineText(l), Text(b), end);
  }

  lemma EmptyFront(a: string, l: string, b: string, end: string)
    ensures (a + l + b) + end == "" + a + l + (b + end)
  {
  }

  lemma LocateRoot(f: MetaFile, k: Kind)
    requires FileOk(f) && WellShaped(f)
    ensures FindRoot(Print(f), k) == At(RootPos(f, k))
  {
    var pre, l := Before(f, k), RootLine(k);
    var post := RootFrame(f, k);
    BeforeQuiet(f, k);
    ShapedOfOk(pre);
    RootLinesOk(k);
    RootAligned(k);
    RootKey(k);
    FindIn(Print(f), "GROUP=" + RootName(k), "", pre, l, post, "GROUP", RootName(k), 0, RootPos(f, k));
  }

  lemma RootAligned(k: Kind)
    ensures Aligned(RootLine(k), "GROUP", RootName(k)) && |Head(RootLine(k))| == 5
    ensures "GROUP=" + RootName(k) == "GROUP" + "=" + RootName(k)
  {
    assert Head(RootLine(k)) == "GROUP";
  }

  lemma RootKey(k: Kind)
    ensures SearchKey("GROUP", RootName(k)) && SearchKey("END_GROUP", RootName(k)) && SearchKey("\t\tGROUP", RootName(k))
  {
  }

  // -------------------------------------------------------------- the structure

  function NamePos(f: MetaFile, k: Kind, i: nat): nat
    requires WellShaped(f) && i < |f.Of(k)|
  {
    |Text(LinesA(f, k, i))| + 2
  }

  /** A structure name the search can be made with. */
  predicate Searchable(nm: string) {
    '"' !in nm && '\n' !in nm && |nm| < 1000 && NameStart("\"" + nm)
  }

  /** What the search for a structure's name passes over. */
  function NameSkip(f: MetaFile, k: Kind, i: nat): seq<Line>
    requires WellShaped(f) && i < |f.Of(k)|
  {
    assert Schematic(k, f.Of(k));
    [RootLine(k)] + StructsLines(k, f.Of(k)[..i]) + [StructHead(k, f.Of(k)[i])[0]]
  }

  lemma NameSkipQuiet(f: MetaFile, k: Kind, i: nat, nm: string)
    requires Site(f, k, i) && Searchable(nm)
    requires forall j | 0 <= j < i :: !(nm <= f.Of(k)[j].name)
    ensures AllQuiet(NameSkip(f, k, i), NameKey(k), "\"" + nm) && AllShaped(NameSkip(f, k, i))
  {
    var ss := f.Of(k);
    var open := StructHead(k, ss[i])[0];
    OfOk(f, k);
    StructsQuietName(k, ss[..i], nm);
    StructsLinesOk(k, ss[..i]);
    RootLinesOk(k);
    OpenLineOk(k, ss[i]);
    NotNameLine(RootLine(k), NameKey(k), "\"" + nm);
    NotNameLine(open, NameKey(k), "\"" + nm);
    ShapedOfOk(StructsLines(k, ss[..i]));
  }

  lemma OpenLineOk(k: Kind, s: Struct)
    requires NameOk(s.name)
    ensures LineOk(StructHead(k, s)[0]) && LineOk(NameLine(k, s))
  {
    StructHeadOk(k, s);
    assert StructHead(k, s)[0] in StructHead(k, s) && StructHead(k, s)[1] == NameLine(k, s);
  }

  /** The text around a structure's name line. */
  lemma NameFrame(f: MetaFile, k: Kind, i: nat) returns (post: string)
    requires Site(f, k, i)
    ensures Print(f) == Text(Before(f, k)) + Text(NameSkip(f, k, i)) + LineText(NameLine(k, f.Of(k)[i])) + post
    ensures Text(LinesA(f, k, i)) == Text(Before(f, k)) + Text(NameSkip(f, k, i))
  {
    var s := f.Of(k)[i];
    var l, lead := NameLine(k, s), GroupLead(k, s, 0);
    assert Schematic(k, f.Of(k));
    Regroup6(Before(f, k), [RootLine(k)], StructsLines(k, f.Of(k)[..i]), [StructHead(k, s)[0]]);
    TextCat(Before(f, k), NameSkip(f, k, i));
    TextFrame(f, k, i, 0);
    TextCat([l], lead);
    Text1(l);
    Chain(Text(LinesA(f, k, i)), LineText(l), Text(lead), Rest(f, k, i, 0));
    post := Text(lead) + Rest(f, k, i, 0);
  }

  lemma Regroup6<T>(a: seq<T>, b: seq<T>, c: seq<T>, d: seq<T>)
    ensures a + b + c + d == a + (b + c + d)
  {
  }

  /** The search for a structure stops at the first one whose name starts with
      the requested name. */
  lemma LocateNamed(f: MetaFile, k: Kind, i: nat, nm: string)
    requires Site(f, k, i) && Searchable(nm)
    requires nm <= f.Of(k)[i].name && forall j | 0 <= j < i :: !(nm <= f.Of(k)[j].name)
    ensures RootPos(f, k) <= |Print(f)|
    ensures FindNamed(Print(f), k, nm, RootPos(f, k)) == At(NamePos(f, k, i))
  {
    var l := NameLine(k, f.Of(k)[i]);
    var post := NameFrame(f, k, i);
    NameSkipQuiet(f, k, i, nm);
    OpenLineOk(k, f.Of(k)[i]);
    NameAligned(k, f.Of(k)[i], nm);
    NameSearchKey(k, nm);
    FindIn(Print(f), NameKey(k) + "=\"" + nm, Text(Before(f, k)), NameSkip(f, k, i), l, post,
           NameKey(k), "\"" + nm, RootPos(f, k), NamePos(f, k, i));
  }

  lemma NameSearchKey(k: Kind, nm: string)
    requires Searchable(nm)
    ensures NameKey(k) + "=\"" + nm == NameKey(k) + "=" + ("\"" + nm)
    ensures Fmt(NameKey(k) + "=\"" + nm) == NameKey(k) + "=\"" + nm
  {
  }

  lemma Chain(a: string, c: string, d: string, e: string)
    ensures a + (c + d) + e == a + c + (d + e)
  {
  }

  lemma NameAligned(k: Kind, s: Struct, nm: string)
    requires NameOk(s.name) && Searchable(nm) && nm <= s.name
    ensures Aligned(NameLine(k, s), NameKey(k), "\"" + nm) && SearchKey(NameKey(k), "\"" + nm)
    ensures |Head(NameLine(k, s))| - |NameKey(k)| == 2
  {
    var l := NameLine(k, s);
    QuotedPrefix(nm, s.name);
    assert Head(l)[2..] == NameKey(k);
  }

  lemma LocateStart(f: MetaFile, c: Call, i: nat)
    requires Site(f, c.kind, i) && Searchable(c.structname) && c.metacode < 1000
    requires FirstStruct(f.Of(c.kind), c.structname) == At(i)
    ensures FindStart(Print(f), c) == At(NamePos(f, c.kind, i))
  {
    LocateRoot(f, c.kind);
    LocateNamed(f, c.kind, i, c.structname);
  }

  // ------------------------------------------------------------------ the groups

  /** The schema never names a group that starts with a later group's name. */
  lemma SchemaApart(k: Kind, g: nat)
    requires g < |Schema(k)|
    ensures forall j | 0 <= j < g :: !(Schema(k)[g] <= Schema(k)[j])
    ensures Schema(k)[g] != "Level" ==> NotLevel(Schema(k)[g])
  {
    var b := Schema(k)[g];
    match k
    case Swath =>
      assert g > 0 ==> b in {"DimensionMap", "IndexDimensionMap", "GeoField", "DataField", "MergedFields"};
      SwathApart(b);
      assert b[0] != 'L';
    case Grid =>
      assert g > 0 ==> b[0] != Schema(k)[0][0] || b[1] != Schema(k)[0][1];
      assert g > 1 ==> b[0] != Schema(k)[1][0];
      assert b[0] != 'L';
    case Point =>
      assert g == 1 ==> b == "LevelLink";
      assert "LevelLink"[5] == 'L';
  }

  lemma SwathApart(b: string)
    ensures b == "DimensionMap" ==> !(b <= "Dimension")
    ensures b == "IndexDimensionMap" ==> b[0] == 'I'
    ensures b == "GeoField" ==> b[0] == 'G'
    ensures b == "DataField" ==> b[0] == 'D' && b[1] == 'a'
    ensures b == "MergedFields" ==> b[0] == 'M'
  {
  }

  /** The lines from a structure's name to group g hold no group line whose name
      starts with g's. */
  lemma LeadQuiet(k: Kind, s: Struct, g: nat, a: string)
    requires StructOk(k, s) && g < |Schema(k)| && GroupSearch(a)
    ensures Schema(k)[g] != "Level" || g == 0 ==> AllQuiet(LinesB(k, s, g), a, Schema(k)[g])
  {
    var b := Schema(k)[g];
    SchemaApart(k, g);
    NameLineQuietGroup(k, s, a, b);
    AttrLinesQuietGroup(2, s.params, a, b);
    if b != "Level" {
      var ns, gs := Schema(k)[..g], s.groups[..g];
      assert forall n <- ns :: n in Schema(k);
      assert forall n <- ns :: !(b <= n);
      GroupsLinesQuiet(k, ns, gs, a, b);
    }
  }

  function OpenPos(f: MetaFile, k: Kind, i: nat, g: nat): nat
    requires Site(f, k, i) && g <= |Schema(k)|
  {
    |Text(LinesA(f, k, i))| + |Text(LinesB(k, f.Of(k)[i], g))|
  }

  /** Where a new entry of group g goes. */
  function ClosePos(f: MetaFile, k: Kind, i: nat, g: nat): nat
    requires Site(f, k, i) && g < |Schema(k)|
  {
    OpenPos(f, k, i, g) + |Text(Body(f, k, i, g))|
  }

  /** The opening line of a group and the lines of its entries. */
  function Body(f: MetaFile, k: Kind, i: nat, g: nat): seq<Line>
    requires Site(f, k, i) && g < |Schema(k)|
  {
    [OpenLine(Schema(k)[g])] + EntriesLines(f.Of(k)[i].groups[g])
  }

  /** The text around the place for a new entry of group g. */
  lemma BodyFrame(f: MetaFile, k: Kind, i: nat, g: nat)
    requires Site(f, k, i) && g < |Schema(k)|
    ensures Rest(f, k, i, g) == Text(Body(f, k, i, g)) + LineText(CloseLine(Schema(k)[g])) + Rest(f, k, i, g + 1)
    ensures AllShaped(Body(f, k, i, g)) && Shaped(CloseLine(Schema(k)[g]))
  {
    var s := f.Of(k)[i];
    var gl, close, es := GroupLines(Schema(k)[g], s.groups[g]), CloseLine(Schema(k)[g]), LinesE(f, k, i, g + 1);
    GroupRestHead(k, s, g);
    Assoc(gl, GroupRest(k, s, g + 1), From(f, k, i + 1));
    assert LinesE(f, k, i, g) == gl + es;
    TextCat(gl, es);
    TextCat(Body(f, k, i, g), [close]);
    Text1(close);
    assert gl == Body(f, k, i, g) + [close];
    Assoc(Text(gl), Text(es), "END\n");
    assert Schema(k)[g] in Schema(k);
    GroupLinesOk(k, Schema(k)[g], s.groups[g]);
    assert forall l <- Body(f, k, i, g) :: l in gl;
    assert close in gl;
  }

  lemma GroupKey(g: string)
    requires g in {"Dimension", "DimensionMap", "IndexDimensionMap", "GeoField", "DataField", "MergedFields", "Level", "LevelLink"}
    ensures SearchKey("\t\tGROUP", g) && SearchKey("\t\tEND_GROUP", g) && SearchKey("GROUP", g)
  {
  }

  /** The text around the opening line of group g. */
  lemma OpenFrame(f: MetaFile, k: Kind, i: nat, g: nat) returns (post: string)
    requires Site(f, k, i) && g < |Schema(k)|
    ensures Print(f) == Text(LinesA(f, k, i)) + Text(LinesB(k, f.Of(k)[i], g)) + LineText(OpenLine(Schema(k)[g])) + post
  {
    var s, b := f.Of(k)[i], Schema(k)[g];
    var l, es := OpenLine(b), EntriesLines(s.groups[g]);
    TextFrame(f, k, i, g);
    BodyFrame(f, k, i, g);
    TextCat([l], es);
    Text1(l);
    post := Text(es) + LineText(CloseLine(b)) + Rest(f, k, i, g + 1);
    Chain2(LineText(l), Text(es), LineText(CloseLine(b)), Rest(f, k, i, g + 1));
    Assoc(Text(LinesA(f, k, i)) + Text(LinesB(k, s, g)), LineText(l), post);
  }

  /** The search for the opening line of group g. */
  lemma LocateOpen(f: MetaFile, k: Kind, i: nat, g: nat)
    requires Site(f, k, i) && g < |Schema(k)|
    ensures NamePos(f, k, i) <= |Print(f)|
    ensures StrStr(Print(f), "\t\tGROUP=" + Schema(k)[g], NamePos(f, k, i)) == At(OpenPos(f, k, i, g))
  {
    var s, b := f.Of(k)[i], Schema(k)[g];
    var post := OpenFrame(f, k, i, g);
    var t := Print(f);
    assert t == Text(LinesA(f, k, i)) + Text(LinesB(k, s, g)) + LineText(OpenLine(b)) + post;
    FrameOk(f, k, i, g);
    LeadQuietHere(k, s, g, "\t\tGROUP");
    GroupLineIs(k, b);
    NameLineLong(f, k, i, g);
    FindIn(t, "\t\tGROUP=" + b, Text(LinesA(f, k, i)), LinesB(k, s, g), OpenLine(b), post,
           "\t\tGROUP", b, NamePos(f, k, i), OpenPos(f, k, i, g));
  }

  /** The two lines of a group as the searches see them. */
  lemma GroupLineIs(k: Kind, b: string)
    requires b in Schema(k)
    ensures Shaped(OpenLine(b)) && Shaped(CloseLine(b))
    ensures SearchKey("\t\tGROUP", b) && SearchKey("\t\tEND_GROUP", b) && SearchKey("GROUP", b)
    ensures Aligned(OpenLine(b), "\t\tGROUP", b) && |Head(OpenLine(b))| == 7
    ensures Aligned(CloseLine(b), "\t\tEND_GROUP", b) && |Head(CloseLine(b))| == 11
    ensures Aligned(OpenLine(b), "GROUP", b)
    ensures "\t\tGROUP=" + b == "\t\tGROUP" + "=" + b && "\t\tEND_GROUP=" + b == "\t\tEND_GROUP" + "=" + b
    ensures "GROUP=" + b == "GROUP" + "=" + b
  {
    SchemaNames(k, b);
    GroupKey(b);
    GroupTexts(b);
    OpenAligned(b);
    CloseAligned(b);
  }

  lemma GroupTexts(b: string)
    ensures "\t\tGROUP=" + b == "\t\tGROUP" + "=" + b && "\t\tEND_GROUP=" + b == "\t\tEND_GROUP" + "=" + b
    ensures "GROUP=" + b == "GROUP" + "=" + b
  {
  }

  lemma OpenAligned(b: string)
    requires Inert(b)
    ensures Shaped(OpenLine(b)) && Aligned(OpenLine(b), "\t\tGROUP", b) && Aligned(OpenLine(b), "GROUP", b) && |Head(OpenLine(b))| == 7
  {
    GroupLineOk(OpenLine(b));
    GroupAligned(OpenLine(b), "\t\tGROUP", b);
    GroupAligned(OpenLine(b), "GROUP", b);
  }

  lemma CloseAligned(b: string)
    requires Inert(b)
    ensures Shaped(CloseLine(b)) && Aligned(CloseLine(b), "\t\tEND_GROUP", b) && |Head(CloseLine(b))| == 11
  {
    GroupLineOk(CloseLine(b));
    GroupAligned(CloseLine(b), "\t\tEND_GROUP", b);
  }

  lemma Chain2(a: string, b: string, c: string, d: string)
    ensures (a + b) + c + d == a + (b + c + d)
  {
  }

  lemma LeadQuietHere(k: Kind, s: Struct, g: nat, a: string)
    requires StructOk(k, s) && g < |Schema(k)| && GroupSearch(a)
    ensures AllQuiet(LinesB(k, s, g), a, Schema(k)[g])
  {
    LevelFirst(k, g);
    LeadQuiet(k, s, g, a);
  }

  lemma LevelFirst(k: Kind, g: nat)
    requires g < |Schema(k)|
    ensures Schema(k)[g] == "Level" <==> k == Point && g == 0
  {
    if k != Point || g != 0 {
      var b := Schema(k)[g];
      assert b[0] != 'L' || |b| == 9;
    }
  }

  /** The name line is long enough for the search to start inside it. */
  lemma NameLineLong(f: MetaFile, k: Kind, i: nat, g: nat)
    requires Site(f, k, i) && g <= |Schema(k)|
    ensures |Text(LinesB(k, f.Of(k)[i], g))| >= 10
  {
    var s := f.Of(k)[i];
    TextCat([NameLine(k, s)], GroupLead(k, s, g));
    Text1(NameLine(k, s));
  }

  /** The text around the closing line of group g. */
  lemma CloseFrame(f: MetaFile, k: Kind, i: nat, g: nat)
    requires Site(f, k, i) && g < |Schema(k)|
    ensures Print(f) == Text(LinesA(f, k, i)) + Text(LinesB(k, f.Of(k)[i], g) + Body(f, k, i, g))
                        + LineText(CloseLine(Schema(k)[g])) + Rest(f, k, i, g + 1)
    ensures Text(LinesB(k, f.Of(k)[i], g) + Body(f, k, i, g)) == Text(LinesB(k, f.Of(k)[i], g)) + Text(Body(f, k, i, g))
    ensures AllShaped(LinesB(k, f.Of(k)[i], g) + Body(f, k, i, g))
  {
    var lb, body := LinesB(k, f.Of(k)[i], g), Body(f, k, i, g);
    TextFrame(f, k, i, g);
    BodyFrame(f, k, i, g);
    FrameOk(f, k, i, g);
    TextCat(lb, body);
    Chain3(Text(LinesA(f, k, i)), Text(lb), Text(body), LineText(CloseLine(Schema(k)[g])), Rest(f, k, i, g + 1));
  }

  /** The search for the closing line of a group other than Level. */
  lemma LocateClose(f: MetaFile, k: Kind, i: nat, g: nat)
    requires Site(f, k, i) && g < |Schema(k)| && Schema(k)[g] != "Level"
    ensures NamePos(f, k, i) <= |Print(f)|
    ensures StrStr(Print(f), "\t\tEND_GROUP=" + Schema(k)[g], NamePos(f, k, i)) == At(ClosePos(f, k, i, g))
  {
    var s, b := f.Of(k)[i], Schema(k)[g];
    CloseFrame(f, k, i, g);
    LeadQuiet(k, s, g, "\t\tEND_GROUP");
    BodyQuiet(f, k, i, g, "\t\tEND_GROUP");
    GroupLineIs(k, b);
    NameLineLong(f, k, i, g);
    FindIn(Print(f), "\t\tEND_GROUP=" + b, Text(LinesA(f, k, i)), LinesB(k, s, g) + Body(f, k, i, g), CloseLine(b),
           Rest(f, k, i, g + 1), "\t\tEND_GROUP", b, NamePos(f, k, i), ClosePos(f, k, i, g));
  }

  lemma Chain3(a: string, b: string, c: string, d: string, e: string)
    ensures a + b + (c + d + e) == a + (b + c) + d + e
  {
  }

  /** A group's own opening line and entries do not stop the search for its end. */
  lemma BodyQuiet(f: MetaFile, k: Kind, i: nat, g: nat, a: string)
    requires Site(f, k, i) && g < |Schema(k)| && Schema(k)[g] != "Level" && a == "\t\tEND_GROUP"
    ensures AllQuiet(Body(f, k, i, g), a, Schema(k)[g])
  {
    var s, b := f.Of(k)[i], Schema(k)[g];
    EntriesLinesOk(b, s.groups[g]);
    SchemaNames(k, b);
    GroupLineOk(OpenLine(b));
    GroupAligned(OpenLine(b), a, b);
    InertQuiet(b, a, b);
    forall l | l in EntriesLines(s.groups[g]) ensures Quiet(l, a, b) {
      TameQuietGroup(l, a, b);
    }
  }

  /** Two tabs and END_GROUP start no line between a point's name and the end
      of its Level group: the levels' own END_GROUP lines are one tab deeper. */
  lemma LevelSkip(f: MetaFile, i: nat)
    requires Site(f, Point, i)
    ensures NoneStartsAs(LinesB(Point, f.Of(Point)[i], 0) + Body(f, Point, i, 0), 2, "END_GROUP", "Level")
  {
    var s := f.Of(Point)[i];
    var es := EntriesLines(s.groups[0]);
    assert Schema(Point)[0] == "Level";
    EntriesLinesOk("Level", s.groups[0]);
    AttrLinesTame(2, s.params);
    assert GroupsLines(Schema(Point)[..0], s.groups[..0]) == [];
    forall m: Line | m in LinesB(Point, s, 0) + Body(f, Point, i, 0)
      ensures !StartsAs(m, 2, "END_GROUP", "Level")
    {
      if m in es {
        assert InEntry(m);
      } else if m in AttrLines(2, s.params) {
        assert Tame(m);
      }
    }
  }

  lemma LocateLevelClose(f: MetaFile, i: nat)
    requires Site(f, Point, i)
    ensures NamePos(f, Point, i) <= |Print(f)|
    ensures StrStr(Print(f), "\n\t\tEND_GROUP=Level", NamePos(f, Point, i)) == At(ClosePos(f, Point, i, 0) - 1)
  {
    var skip := LinesB(Point, f.Of(Point)[i], 0) + Body(f, Point, i, 0);
    assert Schema(Point)[0] == "Level";
    CloseFrame(f, Point, i, 0);
    LevelSkip(f, i);
    GroupLineIs(Point, "Level");
    NameLineLong(f, Point, i, 0);
    LevelStart(Print(f), Text(LinesA(f, Point, i)), skip, Rest(f, Point, i, 1), NamePos(f, Point, i), ClosePos(f, Point, i, 0) - 1);
  }

  lemma LevelStart(t: string, pre: string, skip: seq<Line>, post: string, from: nat, pos: nat)
    requires t == pre + Text(skip) + LineText(CloseLine("Level")) + post
    requires AllShaped(skip) && NoneStartsAs(skip, 2, "END_GROUP", "Level") && Shaped(CloseLine("Level"))
    requires |pre| <= from < |pre| + |Text(skip)| && pos == |pre| + |Text(skip)| - 1
    ensures from <= |t| && StrStr(t, "\n\t\tEND_GROUP=Level", from) == At(pos)
  {
    LevelLine();
    LevelCloseKey();
    FindStartIn(t, "\n\t\tEND_GROUP=Level", pre, skip, CloseLine("Level"), post, 2, "END_GROUP", "Level", from, pos);
  }

  lemma LevelLine()
    ensures StartsAs(CloseLine("Level"), 2, "END_GROUP", "Level") && KeyOk("END_GROUP") && '\n' !in "Level"
  {
  }

  lemma LevelCloseKey()
    ensures "\n" + Tabs(2) + "END_GROUP" + "=" + "Level" == "\n\t\tEND_GROUP=Level"
  {
  }
}
