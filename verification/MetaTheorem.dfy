/** The main theorem on the text, one request and whole runs, and the exact
    conditions under which the searches find what the caller means. */
module MetaTheorem {
  import opened CText
  import opened ListText
  import opened OdlLines
  import opened MetaTree
  import opened MetaLines
  import opened MetaSearch
  import opened MetaEdit
  import opened MetaRequest
  import opened MetaLocate
  import opened MetaCalls
  import opened MetaRefine
  import opened MetaRefineMore
  import opened MetaPointField

  lemma NameSearchable(n: string)
    requires SearchName(n)
    ensures Searchable(n)
  {
    NameChars(n);
    QuotedStart(n);
  }

  lemma QuotedStart(n: string)
    requires n != "" && ',' !in n && n != ")"
    ensures NameStart("\"" + n)
  {
    var b := "\"" + n;
    assert b[1] == n[0] && b[1..] == n;
    assert "\")"[1..] == ")";
  }

  /** The offset and the text of the new element of a tree edit. */
  lemma TreeEdit(f: MetaFile, r: Request) returns (e: Edit)
    requires FileOk(f) && WellShaped(f) && RequestOk(r) && Apply(f, r).Some?
    ensures var f' := Apply(f, r).value;
            && FileOk(f') && WellShaped(f') && e.offset <= |Print(f)| && Print(f') == Splice(Print(f), e)
            && (|e.seg| < 32000 ==> InsertText(Print(f), CallOf(r)) == Some(Print(f')))
  {
    if r.Create? {
      NewStructOk(r);
      CreateTextIs(r);
      CreateFrame(f, r.kind, NewStruct(r), f.With(r.kind, f.Of(r.kind) + [NewStruct(r)]));
      e := Edit(RootEndPos(f, r.kind), CreateText(r));
      if |e.seg| < 32000 {
        RefineCreate(f, r);
      }
    } else {
      var k := KindOf(r);
      var i := FirstStruct(f.Of(k), r.name).pos;
      SiteOk(f, k, i);
      NameSearchable(r.name);
      match r
      case AddParams(_, _, _) => e := ParamsEdit(f, r, i);
      case AddEntry(_, _, _) => e := EntryEdit(f, r, i);
      case AddPointField(_, _, _) => e := FieldEdit(f, r, i);
    }
  }

  predicate EditAt(f: MetaFile, r: Request, i: nat) {
    && FileOk(f) && WellShaped(f) && RequestOk(r) && !r.Create? && Apply(f, r).Some?
    && Site(f, KindOf(r), i) && FirstStruct(f.Of(KindOf(r)), r.name) == At(i) && Searchable(r.name)
  }

  predicate EditDone(f: MetaFile, r: Request, e: Edit)
    requires WellShaped(f) && Apply(f, r).Some?
  {
    var f' := Apply(f, r).value;
    && FileOk(f') && WellShaped(f') && e.offset <= |Print(f)| && Print(f') == Splice(Print(f), e)
    && (|e.seg| < 32000 ==> InsertText(Print(f), CallOf(r)) == Some(Print(f')))
  }

  lemma ParamsEdit(f: MetaFile, r: Request, i: nat) returns (e: Edit)
    requires EditAt(f, r, i) && r.AddParams?
    ensures EditDone(f, r, e)
  {
    var s := f.Of(r.kind)[i];
    e := Edit(OpenPos(f, r.kind, i, 0), Text(AttrLines(2, r.params)));
    ParamsFrame(f, r.kind, i, r.params, WithStruct(f, r.kind, i, s.(params := s.params + r.params)));
    if |e.seg| < 32000 {
      RefineParams(f, r.kind, i, r.name, r.params);
    }
  }

  lemma EntryEdit(f: MetaFile, r: Request, i: nat) returns (e: Edit)
    requires EditAt(f, r, i) && r.AddEntry?
    ensures EditDone(f, r, e)
  {
    var k, s := r.kind, f.Of(r.kind)[i];
    var g := GroupIndex(Schema(k), GroupOf(r.entry)).pos;
    e := Edit(ClosePos(f, k, i, g), Text(EntryLines(r.entry, |s.groups[g]|)));
    AppendFrame(f, k, i, g, r.entry, WithStruct(f, k, i, AppendEntry(s, g, r.entry)));
    if |e.seg| < 32000 {
      RefineEntry(f, k, i, g, r.entry, r.name);
    }
  }

  lemma FieldEdit(f: MetaFile, r: Request, i: nat) returns (e: Edit)
    requires EditAt(f, r, i) && r.AddPointField?
    ensures EditDone(f, r, e)
  {
    var s := f.Of(Point)[i];
    var j := FirstLevel(s.groups[0], r.level).pos;
    LevelSiteOk(f, i, j);
    NameSearchable(r.level);
    e := Edit(FieldPos(f, i, j), Text(NewField(f, i, j, r.field)));
    FieldFrame(f, i, j, r.field, WithField(f, i, j, r.field));
    if |e.seg| < 32000 {
      RefineField(f, i, j, r.name, r.level, r.field);
    }
  }

  /** EHinsertmeta refines the append to the tree: the new text is the print of
      the new tree exactly when the new element fits a utility string. */
  lemma Refinement(f: MetaFile, r: Request)
    requires FileOk(f) && WellShaped(f) && RequestOk(r) && Apply(f, r).Some?
    ensures var f' := Apply(f, r).value;
            && FileOk(f') && WellShaped(f')
            && (InsertText(Print(f), CallOf(r)) == Some(Print(f')) <==> |Print(f')| < |Print(f)| + 32000)
  {
    var e := TreeEdit(f, r);
  }

  // ---------------------------------------------------------- an element too long

  lemma {:induction false} TextCovers(ls: seq<Line>, l: Line)
    requires l in ls
    ensures |Text(ls)| >= |l.val|
  {
    if ls[0] != l {
      TextCovers(ls[1..], l);
    }
  }

  /** The print grows by the printed entry. */
  lemma PrintGrows(f: MetaFile, r: Request) returns (n: nat)
    requires FileOk(f) && WellShaped(f) && RequestOk(r) && r.AddEntry? && Apply(f, r).Some?
    ensures var f' := Apply(f, r).value;
            WellShaped(f') && |Print(f')| == |Print(f)| + |Text(EntryLines(r.entry, n))|
  {
    var k := r.kind;
    var i := FirstStruct(f.Of(k), r.name).pos;
    SiteOk(f, k, i);
    var s := f.Of(k)[i];
    var g := GroupIndex(Schema(k), GroupOf(r.entry)).pos;
    n := |s.groups[g]|;
    AppendFrame(f, k, i, g, r.entry, WithStruct(f, k, i, AppendEntry(s, g, r.entry)));
  }

  lemma MergedLength(e: Entry, n: nat)
    requires e.Merged?
    ensures |Text(EntryLines(e, n))| >= |QuotedItems(e.members)|
  {
    var xs, l := Attrs(e), Line(4, "FieldList", QuotedList(e.members));
    assert xs[1] == Attr("FieldList", QuotedList(e.members));
    assert l == AttrLines(4, xs)[1];
    assert l in AttrLines(4, xs);
    TextCovers(EntryLines(e, n), l);
  }

  /** A merged field whose quoted list alone fills a utility string is not inserted
      as it should be. */
  lemma MergedTooLong(f: MetaFile, r: Request)
    requires FileOk(f) && WellShaped(f) && RequestOk(r) && Apply(f, r).Some?
    requires r.AddEntry? && r.entry.Merged? && |QuotedItems(r.entry.members)| >= 32000
    ensures var f' := Apply(f, r).value; WellShaped(f') && InsertText(Print(f), CallOf(r)) != Some(Print(f'))
  {
    var n := PrintGrows(f, r);
    MergedLength(r.entry, n);
    Refinement(f, r);
  }

  // ----------------------------------------------------------------------- runs

  /** A run of requests on the tree; None if one has no place or does not fit. */
  function ApplyAll(f: MetaFile, rs: seq<Request>): Option<MetaFile>
    requires WellShaped(f)
    decreases |rs|
  {
    if rs == [] then Some(f)
    else match Apply(f, rs[0])
      case None => None
      case Some(f') =>
        if WellShaped(f') && |Print(f')| < |Print(f)| + 32000 then ApplyAll(f', rs[1..]) else None
  }

  function InsertAll(t: string, rs: seq<Request>): Option<string>
    decreases |rs|
  {
    if rs == [] then Some(t)
    else match InsertText(t, CallOf(rs[0]))
      case None => None
      case Some(t') => InsertAll(t', rs[1..])
  }

  /** Over every run, the text is the print of the tree. */
  lemma {:induction false} RefinementRun(f: MetaFile, rs: seq<Request>)
    requires FileOk(f) && WellShaped(f) && (forall r <- rs :: RequestOk(r)) && ApplyAll(f, rs).Some?
    ensures var f' := ApplyAll(f, rs).value;
            FileOk(f') && WellShaped(f') && InsertAll(Print(f), rs) == Some(Print(f'))
    decreases |rs|
  {
    if rs != [] {
      assert rs[0] in rs;
      Refinement(f, rs[0]);
      RefinementRun(Apply(f, rs[0]).value, rs[1..]);
    }
  }

  /** The text EHopen writes into a new file. */
  const INITIAL_TEXT: string :=
    "GROUP=SwathStructure\n" + "END_GROUP=SwathStructure\n" + "GROUP=GridStructure\n" + "END_GROUP=GridStructure\n"
    + "GROUP=PointStructure\n" + "END_GROUP=PointStructure\n" + "END\n"

  lemma RootText(k: Kind)
    ensures Text(SectionLines(k, [])) == "GROUP=" + RootName(k) + "\n" + ("END_GROUP=" + RootName(k) + "\n")
  {
    assert SectionLines(k, []) == [RootLine(k)] + [RootEnd(k)];
    TextCat([RootLine(k)], [RootEnd(k)]);
    Text1(RootLine(k));
    Text1(RootEnd(k));
    UntabbedText(RootLine(k));
    UntabbedText(RootEnd(k));
  }

  lemma UntabbedText(l: Line)
    requires l.tabs == 0
    ensures LineText(l) == l.key + "=" + l.val + "\n"
  {
    assert Tabs(0) == "";
  }

  lemma RootLiterals()
    ensures "GROUP=SwathStructure\n" == "GROUP=" + "SwathStructure" + "\n"
    ensures "GROUP=GridStructure\n" == "GROUP=" + "GridStructure" + "\n"
    ensures "GROUP=PointStructure\n" == "GROUP=" + "PointStructure" + "\n"
  {
  }

  lemma RootEndLiterals()
    ensures "END_GROUP=SwathStructure\n" == "END_GROUP=" + "SwathStructure" + "\n"
    ensures "END_GROUP=GridStructure\n" == "END_GROUP=" + "GridStructure" + "\n"
    ensures "END_GROUP=PointStructure\n" == "END_GROUP=" + "PointStructure" + "\n"
  {
  }

  /** A new file's text is the print of the empty tree. */
  lemma InitialIsEmpty()
    ensures FileOk(EMPTY_FILE) && WellShaped(EMPTY_FILE) && Print(EMPTY_FILE) == INITIAL_TEXT && EMPTY_FILE == MetaFile([], [], [])
    ensures INITIAL_TEXT == "GROUP=SwathStructure\n" + "END_GROUP=SwathStructure\n" + "GROUP=GridStructure\n" + "END_GROUP=GridStructure\n"
                            + "GROUP=PointStructure\n" + "END_GROUP=PointStructure\n" + "END\n"
  {
    FileLinesOk(EMPTY_FILE);
    RootText(Swath);
    RootText(Grid);
    RootText(Point);
    RootLiterals();
    RootEndLiterals();
    var a, b, c := SectionLines(Swath, []), SectionLines(Grid, []), SectionLines(Point, []);
    TextCat(a + b, c);
    TextCat(a, b);
    InitialChain("GROUP=SwathStructure\n", "END_GROUP=SwathStructure\n", "GROUP=GridStructure\n", "END_GROUP=GridStructure\n",
                 "GROUP=PointStructure\n", "END_GROUP=PointStructure\n", "END\n");
  }

  lemma InitialChain(a: string, b: string, c: string, d: string, e: string, g: string, z: string)
    ensures (a + b) + (c + d) + (e + g) + z == a + b + c + d + e + g + z
  {
  }

  /** From a new file on, every run of requests leaves the print of its tree. */
  lemma RunFromNew(rs: seq<Request>)
    requires (forall r <- rs :: RequestOk(r)) && WellShaped(EMPTY_FILE) && ApplyAll(EMPTY_FILE, rs).Some?
    ensures var f := ApplyAll(EMPTY_FILE, rs).value;
            FileOk(f) && WellShaped(f) && InsertAll(INITIAL_TEXT, rs) == Some(Print(f))
  {
    InitialIsEmpty();
    RefinementRun(EMPTY_FILE, rs);
  }

  // ------------------------------------------------------------- exact conditions

  lemma UptoStep(f: MetaFile, k: Kind, i: nat)
    requires FileOk(f) && WellShaped(f) && i < |f.Of(k)|
    ensures |f.Of(k)[i].groups| == |Schema(k)|
    ensures Upto(f, k, i + 1) == Upto(f, k, i) + StructLines(k, f.Of(k)[i])
  {
    OfOk(f, k);
    var ss := f.Of(k);
    assert ss[..i + 1] == ss[..i] + [ss[i]];
    StructsSplit(k, ss[..i], [ss[i]]);
    assert StructsLines(k, [ss[i]]) == StructLines(k, ss[i]) by { assert [ss[i]][1..] == []; }
    Assoc(Before(f, k) + [RootLine(k)], StructsLines(k, ss[..i]), StructLines(k, ss[i]));
  }

  lemma PastFirst(a: seq<Line>, b: seq<Line>)
    requires |b| >= 2
    ensures |Text(a + [b[0]])| < |Text(a + b)|
  {
    assert a + b == a + [b[0]] + b[1..];
    TextCat(a + [b[0]], b[1..]);
    assert |LineText(b[1])| > 0;
  }

  lemma {:induction false} UptoGrows(f: MetaFile, k: Kind, i: nat, j: nat)
    requires FileOk(f) && WellShaped(f) && i <= j <= |f.Of(k)|
    ensures |Text(Upto(f, k, i))| <= |Text(Upto(f, k, j))|
    decreases j - i
  {
    if i < j {
      UptoStep(f, k, i);
      TextCat(Upto(f, k, i), StructLines(k, f.Of(k)[i]));
      UptoGrows(f, k, i + 1, j);
    }
  }

  lemma NamePosGrows(f: MetaFile, k: Kind, i: nat, j: nat)
    requires FileOk(f) && WellShaped(f) && i < j < |f.Of(k)|
    ensures NamePos(f, k, i) < NamePos(f, k, j)
  {
    var s := f.Of(k)[i];
    UptoStep(f, k, i);
    StructSplit(k, s, 0);
    assert StructLines(k, s)[0] == StructHead(k, s)[0];
    PastFirst(Upto(f, k, i), StructLines(k, s));
    UptoGrows(f, k, i + 1, j);
    TextCat(Upto(f, k, j), [StructHead(k, f.Of(k)[j])[0]]);
  }

  lemma OwnNameFound(ss: seq<Struct>, i: nat)
    requires i < |ss|
    ensures FirstStruct(ss, ss[i].name).At? && FirstStruct(ss, ss[i].name).pos <= i
    ensures FirstStruct(ss, ss[i].name).pos == i <==> forall j | 0 <= j < i :: !(ss[i].name <= ss[j].name)
  {
    assert ss[i] in ss;
  }

  /** The search for a structure by its own name finds it exactly when no earlier
      structure of its kind has a name that starts with it. */
  lemma LocateExact(f: MetaFile, k: Kind, i: nat)
    requires FileOk(f) && WellShaped(f) && i < |f.Of(k)| && SearchName(f.Of(k)[i].name)
    ensures RootPos(f, k) <= |Print(f)|
    ensures FindNamed(Print(f), k, f.Of(k)[i].name, RootPos(f, k)) == At(NamePos(f, k, i))
            <==> forall j | 0 <= j < i :: !(f.Of(k)[i].name <= f.Of(k)[j].name)
  {
    var nm := f.Of(k)[i].name;
    SiteOk(f, k, i);
    NameSearchable(nm);
    OwnNameFound(f.Of(k), i);
    var m := FirstStruct(f.Of(k), nm).pos;
    SiteOk(f, k, m);
    LocateNamed(f, k, m, nm);
    if m < i {
      NamePosGrows(f, k, m, i);
    }
  }

  /** A structure whose name is a prefix of an earlier one's cannot be edited: the
      search for swath "A" stops at swath "AB". */
  lemma PrefixNameMisleads(ab: Struct, a: Struct)
    requires StructOk(Swath, ab) && StructOk(Swath, a) && ab.name == "AB" && a.name == "A"
    ensures var f := MetaFile([ab, a], [], []);
            && FileOk(f) && WellShaped(f) && RootPos(f, Swath) <= |Print(f)|
            && FindNamed(Print(f), Swath, "A", RootPos(f, Swath)) == At(NamePos(f, Swath, 0))
            && NamePos(f, Swath, 0) < NamePos(f, Swath, 1)
  {
    var f := MetaFile([ab, a], [], []);
    FileLinesOk(f);
    SiteOk(f, Swath, 0);
    QuotedStart("A");
    LocateNamed(f, Swath, 0, "A");
    NamePosGrows(f, Swath, 0, 1);
  }

  // ------------------------------------------------------------------- numbering

  /** Entry j of a group is printed with its own number on both of its lines,
      after the entries before it. */
  lemma NumberedInOrder(g: string, es: seq<Entry>, j: nat)
    requires GroupOk(g, es) && j < |es|
    ensures EntriesLines(es) == EntriesLines(es[..j]) + EntryLines(es[j], j) + EntriesFrom(es, j + 1)
    ensures var ls := EntryLines(es[j], j);
            var tag := Numbered(g, if g == "Level" then j else j + 1);
            && |ls| >= 2 && ls[0].val == tag && ls[|ls| - 1].val == tag && ls[|ls| - 1].key == Terminator(g)
  {
    EntriesAround(es, j);
    assert es[j] in es && GroupOf(es[j]) == g;
    EntryGroup(es[j]);
    Assoc(EntriesLines(es[..j]), EntryLines(es[j], j), EntriesFrom(es, j + 1));
  }
}
