/** Searching for a structure that is not there: both forms of the search fail,
    so EHinsertmeta has no place to insert at. */
module MetaMissing {
  import opened CText
  import opened OdlLines
  import opened MetaTree
  import opened MetaLines
  import opened MetaSearch
  import opened MetaEdit
  import opened MetaRequest
  import opened MetaLocate
  import opened MetaTheorem
  import opened MetaCalls

  /** A key with a quote in front of its value is no group line's. */
  lemma QuoteApart(j: Kind, b: string)
    requires |b| >= 2 && b[0] == '"'
    ensures NotLevel(b) && Apart(j, b) && !(b <= RootName(j)) && forall n <- Schema(j) :: !(b <= n)
  {
    assert b[..2][0] == '"' && OpenName(j)[..2][0] != '"';
    forall n | n in Schema(j) ensures !(b <= n) {
      assert n[0] != '"';
    }
  }

  /** No GROUP line of the file carries a quoted name. */
  lemma SectionNoQuote(j: Kind, ss: seq<Struct>, b: string)
    requires StructsOk(j, ss) && Schematic(j, ss) && |b| >= 2 && b[0] == '"'
    ensures AllQuiet(SectionLines(j, ss), "GROUP", b)
  {
    QuoteApart(j, b);
    StructsQuietGroup(j, ss, "GROUP", b);
    RootLinesOk(j);
    GroupAligned(RootLine(j), "GROUP", b);
    GroupAligned(RootEnd(j), "GROUP", b);
    InertQuiet(RootName(j), "GROUP", b);
  }

  lemma NameKeysApart(j: Kind, k: Kind)
    requires j != k
    ensures !EndsWith(NameKey(j), NameKey(k))
  {
    EndsWithChar(NameKey(j), NameKey(k), 5);
  }

  lemma OtherNameLine(l: Line, j: Kind, k: Kind, b: string)
    requires LineOk(l) && l.key == NameKey(j) && j != k && NameStart(b)
    ensures Quiet(l, NameKey(k), b)
  {
    NameKeysApart(j, k);
    NameKeyOk(NameKey(k));
    AlignedPlain(l, NameKey(k), b);
    InertQuiet(l.val, NameKey(k), b);
  }

  /** A structure of another kind holds no line with this kind's name key. */
  lemma OtherQuietName(j: Kind, s: Struct, k: Kind, b: string)
    requires StructOk(j, s) && j != k && NameStart(b)
    ensures AllQuiet(StructLines(j, s), NameKey(k), b)
  {
    var a := NameKey(k);
    StructHeadOk(j, s);
    StructEndOk(j, s);
    AttrLinesTame(2, s.params);
    assert StructHead(j, s)[0] in StructHead(j, s) && NameLine(j, s) in StructHead(j, s);
    NotNameLine(StructHead(j, s)[0], a, b);
    NotNameLine(Line(1, "END_GROUP", OpenName(j) + Dec(s.id)), a, b);
    OtherNameLine(NameLine(j, s), j, k, b);
    forall l | l in AttrLines(2, s.params) ensures Quiet(l, a, b) {
      TameQuietName(l, a, b);
    }
    GroupsLinesQuietName(j, Schema(j), s.groups, a, b);
  }

  lemma {:induction false} OthersQuietName(j: Kind, ss: seq<Struct>, k: Kind, b: string)
    requires StructsOk(j, ss) && Schematic(j, ss) && j != k && NameStart(b)
    ensures AllQuiet(StructsLines(j, ss), NameKey(k), b)
  {
    if ss != [] {
      assert StructOk(j, ss[0]);
      OtherQuietName(j, ss[0], k, b);
      OthersQuietName(j, ss[1..], k, b);
    }
  }

  lemma SectionNoName(j: Kind, ss: seq<Struct>, k: Kind, nm: string)
    requires StructsOk(j, ss) && Schematic(j, ss) && '"' !in nm && NameStart("\"" + nm)
    requires j == k ==> forall s <- ss :: !(nm <= s.name)
    ensures AllQuiet(SectionLines(j, ss), NameKey(k), "\"" + nm)
  {
    var a, b := NameKey(k), "\"" + nm;
    if j == k {
      StructsQuietName(k, ss, nm);
    } else {
      OthersQuietName(j, ss, k, b);
    }
    RootLinesOk(j);
    NotNameLine(RootLine(j), a, b);
    NotNameLine(RootEnd(j), a, b);
  }

  /** A key that no line of the file holds occurs nowhere in its text. */
  lemma NowhereInPrint(f: MetaFile, a: string, b: string, x: nat)
    requires FileOk(f) && WellShaped(f) && SearchKey(a, b) && AllQuiet(FileLines(f), a, b)
    ensures !OccursAt(Print(f), a + "=" + b, x)
  {
    var ls := FileLines(f);
    FileLinesOk(f);
    ShapedOfOk(ls);
    NowhereInText(Text(ls) + "END\n", ls, a, b, x);
  }

  lemma NowhereInText(t: string, ls: seq<Line>, a: string, b: string, x: nat)
    requires t == Text(ls) + "END\n" && AllShaped(ls) && SearchKey(a, b) && AllQuiet(ls, a, b)
    ensures !OccursAt(t, a + "=" + b, x)
  {
    if x < |Text(ls)| {
      NoneInQuiet("", ls, "END\n", a, b, x);
      assert "" + Text(ls) + "END\n" == t;
    } else {
      NotInEnd(Text(ls), a, b, x);
    }
  }

  lemma FileQuiet(f: MetaFile, k: Kind, nm: string)
    requires FileOk(f) && WellShaped(f) && SearchName(nm) && FirstStruct(f.Of(k), nm) == Null
    ensures AllQuiet(FileLines(f), NameKey(k), "\"" + nm) && AllQuiet(FileLines(f), "GROUP", "\"" + nm)
  {
    NameChars(nm);
    OfOk(f, Swath);
    OfOk(f, Grid);
    OfOk(f, Point);
    SectionNoName(Swath, f.swaths, k, nm);
    SectionNoName(Grid, f.grids, k, nm);
    SectionNoName(Point, f.points, k, nm);
    SectionNoQuote(Swath, f.swaths, "\"" + nm);
    SectionNoQuote(Grid, f.grids, "\"" + nm);
    SectionNoQuote(Point, f.points, "\"" + nm);
  }

  lemma Nowhere(f: MetaFile, key: string, a: string, b: string, from: nat)
    requires FileOk(f) && WellShaped(f) && SearchKey(a, b) && AllQuiet(FileLines(f), a, b)
    requires key == a + "=" + b && from <= |Print(f)|
    ensures StrStr(Print(f), key, from) == Null
  {
    forall x: nat ensures !OccursAt(Print(f), key, x) {
      NowhereInPrint(f, a, b, x);
    }
  }

  /** Neither form of the search finds a name that no structure starts with. */
  lemma NotFound(f: MetaFile, k: Kind, nm: string, root: nat)
    requires FileOk(f) && WellShaped(f) && SearchName(nm) && FirstStruct(f.Of(k), nm) == Null && root <= |Print(f)|
    ensures FindNamed(Print(f), k, nm, root) == Null
  {
    FileQuiet(f, k, nm);
    NewKeyNowhere(f, k, nm, root);
    OldKeyNowhere(f, nm, root);
  }

  lemma NewKeyNowhere(f: MetaFile, k: Kind, nm: string, root: nat)
    requires FileOk(f) && WellShaped(f) && SearchName(nm) && AllQuiet(FileLines(f), NameKey(k), "\"" + nm) && root <= |Print(f)|
    ensures StrStr(Print(f), Fmt(NameKey(k) + "=\"" + nm), root) == Null
  {
    NameSearchable(nm);
    NameSearchKey(k, nm);
    NameKeyOk(NameKey(k));
    Nowhere(f, NameKey(k) + "=\"" + nm, NameKey(k), "\"" + nm, root);
  }

  lemma OldKeyNowhere(f: MetaFile, nm: string, root: nat)
    requires FileOk(f) && WellShaped(f) && SearchName(nm) && AllQuiet(FileLines(f), "GROUP", "\"" + nm) && root <= |Print(f)|
    ensures StrStr(Print(f), Fmt("GROUP=\"" + nm), root) == Null
  {
    NameSearchable(nm);
    OldKey(nm);
    Nowhere(f, "GROUP=\"" + nm, "GROUP", "\"" + nm, root);
  }

  /** The search for a structure succeeds exactly when the tree has one whose
      name starts with the requested one. */
  lemma FoundIff(f: MetaFile, k: Kind, nm: string)
    requires FileOk(f) && WellShaped(f) && SearchName(nm)
    ensures RootPos(f, k) <= |Print(f)|
    ensures FindNamed(Print(f), k, nm, RootPos(f, k)).At? <==> FirstStruct(f.Of(k), nm).At?
  {
    var post := RootFrame(f, k);
    match FirstStruct(f.Of(k), nm)
    case At(i) =>
      NameSearchable(nm);
      SiteOk(f, k, i);
      LocateNamed(f, k, i, nm);
    case Null =>
      NotFound(f, k, nm, RootPos(f, k));
  }

  lemma OldKey(nm: string)
    requires Searchable(nm)
    ensures "GROUP=\"" + nm == "GROUP" + "=" + ("\"" + nm) && Fmt("GROUP=\"" + nm) == "GROUP=\"" + nm
    ensures SearchKey("GROUP", "\"" + nm)
  {
  }

  /** A request for a structure that is not there is not carried out: the C code
      would search from the null pointer. */
  lemma NoStructNoInsert(f: MetaFile, r: Request)
    requires FileOk(f) && WellShaped(f) && RequestOk(r) && !r.Create? && FirstStruct(f.Of(KindOf(r)), r.name) == Null
    ensures Apply(f, r) == None && InsertText(Print(f), CallOf(r)) == None
  {
    CallNames(r);
    NoStart(f, CallOf(r));
  }

  lemma NoStart(f: MetaFile, c: Call)
    requires FileOk(f) && WellShaped(f) && SearchName(c.structname) && FirstStruct(f.Of(c.kind), c.structname) == Null && c.metacode < 1000
    ensures InsertText(Print(f), c) == None
  {
    var post := RootFrame(f, c.kind);
    LocateRoot(f, c.kind);
    NotFound(f, c.kind, c.structname, RootPos(f, c.kind));
    assert FindStart(Print(f), c) == Null;
    assert PlaceOf(Print(f), c) == None;
  }

  lemma CallNames(r: Request)
    requires !r.Create?
    ensures CallOf(r).structname == r.name && CallOf(r).kind == KindOf(r) && CallOf(r).metacode < 1000
  {
  }
}
