/** The field list of a merged field, as SWSDfldsrch and GDSDfldsrch look it up:
    the swath reads it from the merged field's own entry, the grid always from the
    first one. */
module MetaMerged {
  import opened CText
  import opened ListText
  import opened OdlLines
  import opened MetaTree
  import opened MetaLines
  import opened MetaSearch
  import opened MetaRequest
  import opened MetaCalls
  import opened MetaLocate
  import opened MetaLookup
  import opened MetaRead
  import opened MetaFind
  import opened MetaDims
  import opened MetaFields

  /** The buffer of SWSDfldsrch and GDSDfldsrch. */
  const LIST_SIZE: nat := 2048

  /** The value of FieldList from a place in the group, without its parentheses;
      None where the value overruns its buffer or has no two characters to strip. */
  function ListFrom(t: string, p: nat, end: Ptr): Option<string>
    requires p <= |t|
  {
    match ValueInto(t, p, end, "FieldList", LIST_SIZE)
    case Some(Found(_, v)) => if |v| < 2 then None else Some(Strip(v))
    case _ => None
  }

  /** The name is searched first as metadata is now written, then as it was once;
      None also where the search starts from the null pointer. */
  function SwathFieldList(t: string, name: string, merged: string): Option<string> {
    match MetaGroup(t, Swath, name, Some("MergedFields"))
    case None => None
    case Some((beg, end)) =>
      if beg.Null? || beg.pos > |t| then None else
      match StrStr(t, Fmt512("MergedFieldName=\"" + merged + "\"\n"), beg.pos)
      case At(p) => ListFrom(t, p, end)
      case Null =>
        match StrStr(t, Fmt512("OBJECT=\"" + merged + "\"\n"), beg.pos) case Null => None case At(p) => ListFrom(t, p, end)
  }

  /** The grid moves another pointer than the one it reads from. */
  function GridFieldList(t: string, name: string, merged: string): Option<string> {
    match MetaGroup(t, Grid, name, Some("MergedFields"))
    case None => None
    case Some((beg, end)) => if beg.Null? || beg.pos > |t| then None else ListFrom(t, beg.pos, end)
  }

  // --------------------------------------------------------------- merged entries

  predicate AllMerged(es: seq<Entry>) { forall e <- es :: e.Merged? && EntryOk(e) }

  lemma MergedOwn(e: Entry)
    requires e.Merged?
    ensures Own(e) == [Line(4, "MergedFieldName", Quoted(e.name)), Line(4, "FieldList", QuotedList(e.members))]
  {
  }

  lemma MergedKeys()
    ensures KeyOk("FieldList") && '"' !in "FieldList=" && "FieldList" + "=" == "FieldList=" && EndsWith("FieldList", "FieldList")
    ensures !EndsWith("MergedFieldName", "FieldList")
  {
  }

  lemma ListBack(e: Entry)
    requires e.Merged?
    ensures Strip(QuotedList(e.members)) == QuotedItems(e.members)
  {
  }

  /** What a lookup of a merged field's list returns: nothing in quotes if its name
      holds the key, else the list if it fits the buffer. */
  predicate ListReads(r: Option<string>, e: Entry)
    requires e.Merged?
  {
    if Contains(e.name, "FieldList=") then r.Some? ==> '"' !in r.value
    else r == if |QuotedList(e.members)| < 2048 then Some(QuotedItems(e.members)) else None
  }

  lemma NamesAreParts(ss: seq<string>)
    requires NamesOk(ss)
    ensures PartsOk(ss)
  {
    assert ss[0] in ss;
  }

  /** Different lists of names are printed differently. */
  lemma ItemsApart(a: seq<string>, b: seq<string>)
    requires NamesOk(a) && NamesOk(b)
    ensures QuotedItems(a) == QuotedItems(b) <==> a == b
  {
    NamesAreParts(a);
    NamesAreParts(b);
    DimNamesBack(a);
    DimNamesBack(b);
  }

  /** So the list of some fields is read exactly when they are the members. */
  lemma ListIff(r: Option<string>, e: Entry, ms: seq<string>)
    requires e.Merged? && EntryOk(e) && NamesOk(ms) && ListReads(r, e)
    ensures r == Some(QuotedItems(ms)) <==> !Contains(e.name, "FieldList=") && |QuotedList(e.members)| < LIST_SIZE && e.members == ms
  {
    assert QuotedItems(ms)[0] == '"';
    ItemsApart(e.members, ms);
  }

  /** What the name itself holds has no quotes once it is stripped. */
  lemma TailNoList(e: Entry, q: nat)
    requires e.Merged? && EntryOk(e) && OccursAt(e.name, "FieldList=", q)
    ensures q + 11 <= |Quoted(e.name)| && '"' !in Strip(Quoted(e.name)[q + 11..])
  {
    assert '"' !in e.name;
    StrippedTail(e.name, q + 11);
  }

  lemma StrippedTail(s: string, n: nat)
    requires 1 <= n <= |s| + 1 && '"' !in s
    ensures '"' !in Strip(Quoted(s)[n..])
  {
    var v := Strip(Quoted(s)[n..]);
    forall i | 0 <= i < |v| ensures v[i] != '"' {
      assert v[i] == Quoted(s)[n + 1 + i] == s[n + i];
    }
  }

  /** FieldList from the name, wherever the lookup enters the name's line. */
  lemma ReadList(e: Entry, n: nat) returns (v: string)
    requires e.Merged? && EntryOk(e) && n <= 19
    ensures |Own(e)| == 2 && On(Own(e), InHead(0, n)) && ReadOn(Own(e), InHead(0, n), "FieldList").Some?
    ensures v == ReadOn(Own(e), InHead(0, n), "FieldList").value.1
    ensures if Contains(e.name, "FieldList=") then '"' !in Strip(v) else v == QuotedList(e.members)
  {
    MergedOwn(e);
    MergedKeys();
    KeyHit(e.name, "FieldList=");
    QuotedSearch(e.name, "FieldList=");
    assert |Head(Own(e)[0])| == 19;
    if Contains(e.name, "FieldList=") {
      var q := StrStr(e.name, "FieldList=", 0).pos;
      ReadHeld(Own(e), InHead(0, n), "FieldList", q + 1);
      TailNoList(e, q);
      v := Quoted(e.name)[q + 11..];
    } else {
      ReadNext(Own(e), InHead(0, n), "FieldList");
      ReadLine(Own(e), 1, "FieldList");
      v := QuotedList(e.members);
    }
  }

  lemma ListFromIs(t: string, p: nat, end: Ptr, e: Entry, pos: nat, v: string)
    requires p <= |t| && ValueBetween(t, p, end, "FieldList") == Found(pos, v) && e.Merged?
    requires if Contains(e.name, "FieldList=") then '"' !in Strip(v) else v == QuotedList(e.members)
    ensures ListReads(ListFrom(t, p, end), e)
  {
    ListBack(e);
  }

  // --------------------------------------------------------------------- a swath

  predicate MergedSite(f: MetaFile, k: Kind, i: nat, g: nat) {
    NamedSite(f, k, i, g) && Schema(k)[g] == "MergedFields" && AllMerged(Entries(f, k, i, g))
  }

  function SwathMerged(f: MetaFile, i: nat): (es: seq<Entry>)
    requires Site(f, Swath, i)
    ensures NamedGroup(es) && AllMerged(es)
  {
    MergedSiteOk(f, Swath, i, 5);
    Entries(f, Swath, i, 5)
  }

  function GridMerged(f: MetaFile, i: nat): (es: seq<Entry>)
    requires Site(f, Grid, i)
    ensures NamedGroup(es) && AllMerged(es)
  {
    MergedSiteOk(f, Grid, i, 2);
    Entries(f, Grid, i, 2)
  }

  lemma MergedSiteOk(f: MetaFile, k: Kind, i: nat, g: nat)
    requires Site(f, k, i) && g < |Schema(k)| && Schema(k)[g] == "MergedFields"
    ensures MergedSite(f, k, i, g)
  {
    assert "MergedFields"[0] != 'L';
    GroupSiteOk(f, k, i, g);
    forall e | e in Entries(f, k, i, g) ensures e.Merged? {
      assert GroupOf(e) == "MergedFields";
      assert GroupOf(e)[0] == 'M';
    }
  }

  /** The name of a merged field: "MRGFLD_" and a field's name. */
  predicate MergedName(merged: string) { NameOk(merged) && |merged| <= |"MRGFLD_"| + MAX_NAME }

  lemma MergedKey(merged: string) returns (h: string, key: string)
    requires MergedName(merged)
    ensures key == Fmt512("MergedFieldName=\"" + merged + "\"\n") == h + Quoted(merged) + "\n"
    ensures h == "MergedFieldName=" && '\n' !in h + Quoted(merged) && '"' !in merged
  {
    h, key := "MergedFieldName=", "MergedFieldName=\"" + merged + "\"\n";
    assert "MergedFieldName=\"" == h + "\"";
    assert "\"\n" == "\"" + "\n";
    assert key == h + Quoted(merged) + "\n";
  }

  lemma MergedEnds(e: Entry, h: string)
    requires e.Merged? && h == "MergedFieldName="
    ensures Own(e) != [] && EndsLine(Own(e)[0], h + Quoted(e.name)) && |Head(Own(e)[0])| == 19
  {
    MergedOwn(e);
    var b := LineBody(Own(e)[0]);
    assert h == "MergedFieldName" + "=";
    assert b == Tabs(4) + (h + Quoted(e.name));
    assert b[|b| - |h + Quoted(e.name)|..] == h + Quoted(e.name);
  }

  lemma SwathListIs(t: string, nm: string, merged: string, key: string, beg: nat, end: nat, p: nat)
    requires key == Fmt512("MergedFieldName=\"" + merged + "\"\n") && beg <= |t| && p <= |t|
    requires MetaGroup(t, Swath, nm, Some("MergedFields")) == Some((At(beg), At(end))) && StrStr(t, key, beg) == At(p)
    ensures SwathFieldList(t, nm, merged) == ListFrom(t, p, At(end))
  {
  }

  /** A swath: the list of the first merged field of that name, if and only if the
      name does not hold the key "FieldList=" and the list fits its buffer. */
  lemma SwathListReads(f: MetaFile, i: nat, nm: string, merged: string, j: nat)
    requires Site(f, Swath, i) && SearchName(nm) && FirstStruct(f.swaths, nm) == At(i) && MergedName(merged)
    requires NameIndex(SwathMerged(f, i), merged) == At(j)
    ensures var e, r := SwathMerged(f, i)[j], SwathFieldList(Print(f), nm, merged);
            && e.Merged? && ListReads(r, e)
            && (r == Some(QuotedItems(e.members)) <==> !Contains(merged, "FieldList=") && |QuotedList(e.members)| < 2048)
  {
    MergedSiteOk(f, Swath, i, 5);
    var e := SwathMerged(f, i)[j];
    assert e in SwathMerged(f, i);
    SwathListFound(f, i, nm, merged, j);
    ListIff(SwathFieldList(Print(f), nm, merged), e, e.members);
  }

  lemma SwathListFound(f: MetaFile, i: nat, nm: string, merged: string, j: nat)
    requires MergedSite(f, Swath, i, 5) && SearchName(nm) && FirstStruct(f.swaths, nm) == At(i) && MergedName(merged)
    requires NameIndex(Entries(f, Swath, i, 5), merged) == At(j)
    ensures Entries(f, Swath, i, 5)[j].Merged? && ListReads(SwathFieldList(Print(f), nm, merged), Entries(f, Swath, i, 5)[j])
  {
    var e := Entries(f, Swath, i, 5)[j];
    assert e in Entries(f, Swath, i, 5);
    var b, beg, end := Brackets(f, Swath, i, nm, 5);
    var h, key := MergedKey(merged);
    MergedEnds(e, h);
    var pre, post, p := NameFound(f, Swath, i, 5, merged, h, key, j);
    SwathListIs(Print(f), nm, merged, key, beg, end, p);
    ListAt(Print(f), pre, e, LineText(ObjClose(e, j)) + post, p, end);
  }

  lemma ListAt(t: string, pre: string, e: Entry, post: string, p: nat, end: nat)
    requires e.Merged? && EntryOk(e) && t == pre + Text(Own(e)) + post && |pre| + |Text(Own(e))| <= end
    requires p == |pre| + 4 && p <= |t|
    ensures ListReads(ListFrom(t, p, At(end)), e)
  {
    var v := ReadList(e, 15);
    ObjectTame(e, 0);
    MergedKeys();
    MergedOwn(e);
    var _, pos, w := LookupWithin(t, pre, Own(e), post, InHead(0, 15), "FieldList", p, end);
    ListFromIs(t, p, At(end), e, pos, w);
  }

  /** The name SWdetach gives a merge whose first field is "FieldList=a". */
  const HOLDS_KEY: string := "MRGFLD_" + "FieldList=" + "a"

  /** Such a merged field, which the naming rules allow, has no list when it is looked
      up. */
  lemma ListInName(f: MetaFile, i: nat, nm: string, j: nat)
    requires Site(f, Swath, i) && SearchName(nm) && FirstStruct(f.swaths, nm) == At(i)
    requires NameIndex(SwathMerged(f, i), HOLDS_KEY) == At(j)
    ensures MergedName(HOLDS_KEY) && SwathMerged(f, i)[j].Merged?
    ensures SwathFieldList(Print(f), nm, HOLDS_KEY) != Some(QuotedItems(SwathMerged(f, i)[j].members))
  {
    HoldsKeyOk();
    SwathListReads(f, i, nm, HOLDS_KEY, j);
  }

  lemma HoldsKeyOk()
    ensures MergedName(HOLDS_KEY) && Contains(HOLDS_KEY, "FieldList=")
  {
    var n := KeyName("MRGFLD_", "FieldList=", "a");
  }

  // ---------------------------------------------------------------------- a grid

  /** The lines from the group's opening line through its first entry's own. */
  function FirstLines(es: seq<Entry>): seq<Line>
    requires es != []
  {
    [OpenLine("MergedFields"), ObjOpen(es[0], 0)] + Own(es[0])
  }

  lemma PassLine(l: Line, n: nat)
    requires l.key == "GROUP" || l.key == "OBJECT"
    requires '=' !in l.val
    ensures !KeyAhead(l, InHead(n, |Head(l)|), "FieldList") && StrStr(l.val, "FieldList" + "=", 0).Null?
    ensures !EndsWith(l.key, "FieldList")
  {
    var k := "FieldList" + "=";
    EndsWithChar(l.key, "FieldList", 1);
    assert k[9] == '=';
    forall x: nat ensures !OccursAt(l.val, k, x) {
      OccursIdx(l.val, k, x, x + 9);
    }
  }

  lemma ReadFirst(es: seq<Entry>) returns (v: string)
    requires es != [] && es[0].Merged? && EntryOk(es[0])
    ensures On(FirstLines(es), InHead(0, 5)) && ReadOn(FirstLines(es), InHead(0, 5), "FieldList").Some?
    ensures v == ReadOn(FirstLines(es), InHead(0, 5), "FieldList").value.1
    ensures if Contains(es[0].name, "FieldList=") then '"' !in Strip(v) else v == QuotedList(es[0].members)
  {
    var ls := FirstLines(es);
    v := ReadList(es[0], 19);
    FirstHeads(es);
    ReadNext(ls, InHead(0, 5), "FieldList");
    ReadNext(ls, LineStart(ls, 1), "FieldList");
    ReadShift(ls[..2], Own(es[0]), LineStart(Own(es[0]), 0), LineStart(ls, 2), "FieldList");
    assert ls == ls[..2] + Own(es[0]);
  }

  lemma FirstHeads(es: seq<Entry>)
    requires es != [] && es[0].Merged?
    ensures var ls := FirstLines(es);
            && |ls| == 4 && |Head(ls[0])| == 7 && LineStart(Own(es[0]), 0) == InHead(0, 19) && ls[2] == Own(es[0])[0]
            && !KeyAhead(ls[0], InHead(0, 5), "FieldList") && StrStr(ls[0].val, "FieldList" + "=", 0).Null?
            && !KeyAhead(ls[1], LineStart(ls, 1), "FieldList") && StrStr(ls[1].val, "FieldList" + "=", 0).Null?
  {
    var open, obj := OpenLine("MergedFields"), ObjOpen(es[0], 0);
    MergedOwn(es[0]);
    assert '=' !in obj.val by { assert '=' !in Dec(1); }
    PassLine(open, 0);
    PassLine(obj, 1);
  }

  /** A grid: whichever merged field is asked for, the list of the first one is read.
      So the field's own list comes back if and only if it is the first one's, that
      fits its buffer, and the first one's name does not hold the key. */
  lemma GridListReads(f: MetaFile, i: nat, nm: string, j: nat)
    requires Site(f, Grid, i) && SearchName(nm) && FirstStruct(f.grids, nm) == At(i) && j < |GridMerged(f, i)|
    ensures var es := GridMerged(f, i);
            var e, first, r := es[j], es[0], GridFieldList(Print(f), nm, es[j].name);
            && e.Merged? && first.Merged? && ListReads(r, first)
            && (r == Some(QuotedItems(e.members))
                <==> !Contains(first.name, "FieldList=") && |QuotedList(first.members)| < 2048 && first.members == e.members)
  {
    MergedSiteOk(f, Grid, i, 2);
    var es := GridMerged(f, i);
    assert es[0] in es && es[j] in es;
    GridListFound(f, i, nm, es[j].name);
    ListIff(GridFieldList(Print(f), nm, es[j].name), es[0], es[j].members);
  }

  lemma GridListFound(f: MetaFile, i: nat, nm: string, merged: string)
    requires MergedSite(f, Grid, i, 2) && SearchName(nm) && FirstStruct(f.grids, nm) == At(i)
    requires Entries(f, Grid, i, 2) != []
    ensures Entries(f, Grid, i, 2)[0].Merged? && ListReads(GridFieldList(Print(f), nm, merged), Entries(f, Grid, i, 2)[0])
  {
    var es := Entries(f, Grid, i, 2);
    assert es[0] in es;
    var b, beg, end := Brackets(f, Grid, i, nm, 2);
    var v := ReadFirst(es);
    var pre, post := FirstFrame(f, i);
    FirstShaped(es);
    MergedKeys();
    var _, pos, w := LookupWithin(Print(f), pre, FirstLines(es), post, InHead(0, 5), "FieldList", beg, end);
    ListFromIs(Print(f), beg, At(end), es[0], pos, w);
    GridListIs(Print(f), nm, merged, beg, end);
  }

  const AB: Entry := Merged("MRGFLD_a", ["a", "b"])
  const CD: Entry := Merged("MRGFLD_c", ["c", "d"])

  /** A grid with two merged fields: the list of the second one is never read. */
  const TWO_MERGED := MetaFile([], [Struct(1, "G", [], [[], [], [AB, CD]])], [])

  lemma TwoMergedOk()
    ensures FileOk(TWO_MERGED) && WellShaped(TWO_MERGED) && Site(TWO_MERGED, Grid, 0) && SearchName("G")
    ensures GridMerged(TWO_MERGED, 0) == [AB, CD]
  {
    ShortNames();
    assert EntryOk(AB) && EntryOk(CD);
    assert GroupOk("MergedFields", [AB, CD]);
    FileLinesOk(TWO_MERGED);
    SiteOk(TWO_MERGED, Grid, 0);
  }

  lemma ShortNames()
    ensures NameOk("G") && NamesOk(["a", "b"]) && NamesOk(["c", "d"]) && NameOk("MRGFLD_a") && NameOk("MRGFLD_c")
  {
    LetterOk('G');
    LetterOk('a');
    LetterOk('b');
    LetterOk('c');
    LetterOk('d');
    assert "MRGFLD_a" == "MRGFLD_" + ['a'] && "MRGFLD_c" == "MRGFLD_" + ['c'];
  }

  lemma GridTakesFirst()
    ensures FileOk(TWO_MERGED) && WellShaped(TWO_MERGED) && Site(TWO_MERGED, Grid, 0) && GridMerged(TWO_MERGED, 0) == [AB, CD]
    ensures GridFieldList(Print(TWO_MERGED), "G", "MRGFLD_c") == Some(QuotedItems(["a", "b"])) != Some(QuotedItems(["c", "d"]))
  {
    TwoMergedOk();
    assert FirstStruct(TWO_MERGED.grids, "G") == At(0);
    GridListReads(TWO_MERGED, 0, "G", 1);
    FirstReads(GridFieldList(Print(TWO_MERGED), "G", "MRGFLD_c"));
  }

  lemma FirstReads(r: Option<string>)
    requires ListReads(r, AB)
    ensures r == Some(QuotedItems(["a", "b"])) != Some(QuotedItems(["c", "d"]))
  {
    NotContainsChar("MRGFLD_a", "FieldList=", 9);
    ShortNames();
    ItemsApart(["a", "b"], ["c", "d"]);
    assert ["a", "b"][0] != ["c", "d"][0];
    QuotedItemsLength(["a", "b"]);
  }

  lemma GridListIs(t: string, nm: string, merged: string, beg: nat, end: nat)
    requires MetaGroup(t, Grid, nm, Some("MergedFields")) == Some((At(beg), At(end))) && beg <= |t|
    ensures GridFieldList(t, nm, merged) == ListFrom(t, beg, At(end))
  {
  }

  lemma FirstShaped(es: seq<Entry>)
    requires es != [] && es[0].Merged? && EntryOk(es[0])
    ensures AllShaped(FirstLines(es))
  {
    ObjectTame(es[0], 0);
    InertName("MergedFields");
    GroupLineOk(OpenLine("MergedFields"));
  }

  lemma FirstFrame(f: MetaFile, i: nat) returns (pre: string, post: string)
    requires MergedSite(f, Grid, i, 2) && Entries(f, Grid, i, 2) != []
    ensures var ls := FirstLines(Entries(f, Grid, i, 2));
            && Print(f) == pre + Text(ls) + post && |pre| == OpenPos(f, Grid, i, 2) && |pre| + |Text(ls)| <= ClosePos(f, Grid, i, 2)
            && |Head(ls[0])| == 7
  {
    var es := Entries(f, Grid, i, 2);
    var front, rest := EntryFrame(f, Grid, i, 2, 0);
    var skip := Skip("MergedFields", es, 0);
    FirstSkip(es);
    pre, post := front, LineText(ObjClose(es[0], 0)) + rest;
    Assoc(front, Text(skip), Text(Own(es[0])));
  }

  lemma FirstSkip(es: seq<Entry>)
    requires es != []
    ensures var skip := Skip("MergedFields", es, 0);
            FirstLines(es) == skip + Own(es[0]) && Text(FirstLines(es)) == Text(skip) + Text(Own(es[0])) && |Head(FirstLines(es)[0])| == 7
  {
    var skip := Skip("MergedFields", es, 0);
    assert es[..0] == [] && skip == [OpenLine("MergedFields"), ObjOpen(es[0], 0)];
    TextCat(skip, Own(es[0]));
  }
}
