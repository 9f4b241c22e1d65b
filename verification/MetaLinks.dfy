/** PTlinkinfo over the metadata: the field that links a level to the next one. */
module MetaLinks {
  import opened CText
  import opened ListText
  import opened OdlLines
  import opened MetaTree
  import opened MetaLines
  import opened MetaSearch
  import opened MetaEdit
  import opened MetaRequest
  import opened MetaCallers
  import opened MetaCalls
  import opened MetaLocate
  import opened MetaRefine
  import opened MetaLookup
  import opened MetaRead
  import opened MetaFind
  import opened MetaDims
  import opened MetaFields

  /** snprintf into the buffer of PTlinkinfo. */
  function Fmt256(s: string): string { Cut(s, 256) }

  /** The field that is returned, or a failure; None where the C code strips the
      quotes of a value without two characters or searches from the null pointer. The
      parent's name is searched without a closing quote; the buffer of the field is the
      caller's. */
  function LinkInfo(t: string, name: string, parent: string): Option<Option<string>> {
    match MetaGroup(t, Point, name, Some("LevelLink"))
    case None => None
    case Some((beg, end)) =>
      if beg.Null? || beg.pos > |t| then None else
      match StrStr(t, Fmt256("\t\t\t\tParent=\"" + parent), beg.pos)
      case Null => Some(None)
      case At(p) =>
        if !(end.At? && p < end.pos) then Some(None)
        else match ValueBetween(t, p, end, "LinkField")
          case Missing => None
          case Found(_, v) => if |v| < 2 then None else Some(Some(Strip(v)))
  }

  // ---------------------------------------------------------------- link entries

  predicate Links(es: seq<Entry>) { forall e <- es :: e.LevelLink? && EntryOk(e) }

  predicate NoLink(es: seq<Entry>, parent: string) { forall e <- es :: e.LevelLink? ==> !(parent <= e.parent) }

  /** The first link whose parent's name starts with the requested one. */
  function FirstLink(es: seq<Entry>, parent: string): (r: Ptr)
    requires Links(es)
    ensures r.At? ==> r.pos < |es| && es[r.pos].LevelLink? && parent <= es[r.pos].parent && NoLink(es[..r.pos], parent)
    ensures r.Null? ==> NoLink(es, parent)
  {
    if es == [] then Null
    else if parent <= es[0].parent then At(0)
    else match FirstLink(es[1..], parent)
      case Null => Null
      case At(i) =>
        assert es[..i + 1] == [es[0]] + es[1..][..i];
        At(i + 1)
  }

  predicate LinkQuiet(l: Line, parent: string) { Shaped(l) && Quiet(l, "\t\t\t\tParent", "\"" + parent) }

  predicate AllLinkQuiet(ls: seq<Line>, parent: string) { forall l <- ls :: LinkQuiet(l, parent) }

  lemma ParentAligned(l: Line, parent: string)
    requires Shaped(l)
    ensures Aligned(l, "\t\t\t\tParent", "\"" + parent) <==> l.key == "Parent" && l.tabs >= 4 && "\"" + parent <= l.val
  {
    assert Tabs(4) + "Parent" == "\t\t\t\tParent";
    AlignedTabs(l, 4, "Parent", "\"" + parent);
  }

  lemma QuietLine(l: Line, parent: string)
    requires Shaped(l) && !(l.key == "Parent" && "\"" + parent <= l.val)
    ensures LinkQuiet(l, parent)
  {
    var k := "\t\t\t\tParent" + "=" + ("\"" + parent);
    ParentAligned(l, parent);
    assert k[0] == '\t';
    NotContainsChar(l.val, k, 0);
  }

  lemma LinkOwn(e: Entry)
    requires e.LevelLink?
    ensures Own(e) == [Line(4, "Parent", Quoted(e.parent)), Line(4, "Child", Quoted(e.child))] + [Line(4, "LinkField", Quoted(e.link))]
  {
  }

  lemma OtherLinkQuiet(e: Entry, n: nat, parent: string)
    requires e.LevelLink? && EntryOk(e) && !(parent <= e.parent) && '"' !in parent
    ensures AllLinkQuiet(EntryLines(e, n), parent)
  {
    ObjectTame(e, n);
    LinkOwn(e);
    QuotedPrefix(parent, e.parent);
    assert EntryLines(e, n) == [ObjOpen(e, n)] + Own(e) + [ObjClose(e, n)];
    forall l | l in EntryLines(e, n) ensures LinkQuiet(l, parent) {
      QuietLine(l, parent);
    }
  }

  lemma {:induction false} LinksQuiet(es: seq<Entry>, parent: string)
    requires Links(es) && NoLink(es, parent) && '"' !in parent
    ensures AllLinkQuiet(EntriesLines(es), parent)
  {
    if es != [] {
      var e := es[|es| - 1];
      assert e in es;
      LinksQuiet(es[..|es| - 1], parent);
      OtherLinkQuiet(e, |es| - 1, parent);
    }
  }

  lemma BodyQuietLinks(es: seq<Entry>, parent: string)
    requires Links(es) && NoLink(es, parent) && '"' !in parent
    ensures AllLinkQuiet([OpenLine("LevelLink")] + EntriesLines(es), parent)
  {
    LinksQuiet(es, parent);
    InertName("LevelLink");
    GroupLineOk(OpenLine("LevelLink"));
    QuietLine(OpenLine("LevelLink"), parent);
  }

  lemma SkipQuietLinks(es: seq<Entry>, j: nat, parent: string) returns (skip: seq<Line>)
    requires Links(es) && j < |es| && NoLink(es[..j], parent) && '"' !in parent
    ensures skip == Skip("LevelLink", es, j) && AllLinkQuiet(skip, parent) && |Text(skip)| >= 2
  {
    skip := Skip("LevelLink", es, j);
    OpenLong("LevelLink", skip);
    assert es[j] in es;
    BodyQuietLinks(es[..j], parent);
    ObjectTame(es[j], j);
    QuietLine(ObjOpen(es[j], j), parent);
  }

  // ------------------------------------------------------------------ the search

  lemma LinkKey(parent: string) returns (key: string)
    requires SearchName(parent)
    ensures key == Fmt256("\t\t\t\tParent=\"" + parent) == "\t\t\t\tParent" + "=" + ("\"" + parent)
    ensures SearchKey("\t\t\t\tParent", "\"" + parent) && '"' !in parent
  {
    key := "\t\t\t\tParent=\"" + parent;
    assert "\t\t\t\tParent=\"" == "\t\t\t\tParent" + "=" + "\"";
  }

  predicate LinkSite(f: MetaFile, i: nat) {
    GroupSite(f, Point, i, 1) && Schema(Point)[1] == "LevelLink" && Links(Entries(f, Point, i, 1))
  }

  lemma LinkSiteOk(f: MetaFile, i: nat)
    requires Site(f, Point, i)
    ensures LinkSite(f, i)
  {
    assert Schema(Point)[1] == "LevelLink" && |"LevelLink"| != |"Level"|;
    GroupSiteOk(f, Point, i, 1);
    forall e | e in Entries(f, Point, i, 1) ensures e.LevelLink? {
      assert GroupOf(e) == "LevelLink";
      assert GroupOf(e)[0] == 'L' && |GroupOf(e)| == 9;
    }
  }

  function LinksOf(f: MetaFile, i: nat): (es: seq<Entry>)
    requires Site(f, Point, i)
    ensures Links(es)
  {
    LinkSiteOk(f, i);
    Entries(f, Point, i, 1)
  }

  lemma LinkFound(f: MetaFile, i: nat, parent: string, key: string, j: nat, beg: nat) returns (pre: string, post: string)
    requires Site(f, Point, i) && beg == OpenPos(f, Point, i, 1) + 2 && FirstLink(LinksOf(f, i), parent) == At(j)
    requires key == "\t\t\t\tParent" + "=" + ("\"" + parent) && SearchKey("\t\t\t\tParent", "\"" + parent) && '"' !in parent
    ensures var e := LinksOf(f, i)[j];
            && Print(f) == pre + Text(Own(e)) + post && |pre| < |pre| + |Text(Own(e))| <= ClosePos(f, Point, i, 1)
            && beg <= |Print(f)| && StrStr(Print(f), key, beg) == At(|pre|)
  {
    var es := LinksOf(f, i);
    assert es[j] in es;
    var front, rest := LinkFrame(f, i, j);
    var skip := SkipQuietLinks(es, j, parent);
    pre, post := front + Text(skip), LineText(ObjClose(es[j], j)) + rest;
    LinkSearch(Print(f), front, skip, es[j], post, parent, key, beg, |pre|);
  }

  lemma LinkFrame(f: MetaFile, i: nat, j: nat) returns (front: string, rest: string)
    requires Site(f, Point, i) && j < |LinksOf(f, i)|
    ensures var es := LinksOf(f, i);
            && |front| == OpenPos(f, Point, i, 1)
            && Print(f) == front + Text(Skip("LevelLink", es, j)) + Text(Own(es[j])) + (LineText(ObjClose(es[j], j)) + rest)
            && |front| + |Text(Skip("LevelLink", es, j))| + |Text(Own(es[j]))| <= ClosePos(f, Point, i, 1)
  {
    LinkSiteOk(f, i);
    front, rest := EntryFrame(f, Point, i, 1, j);
  }

  lemma LinkSearch(t: string, front: string, skip: seq<Line>, e: Entry, post: string, parent: string, key: string, beg: nat, p: nat)
    requires e.LevelLink? && EntryOk(e) && parent <= e.parent && t == front + Text(skip) + Text(Own(e)) + post
    requires AllLinkQuiet(skip, parent) && |front| <= beg <= p == |front| + |Text(skip)| && '"' !in parent
    requires key == "\t\t\t\tParent" + "=" + ("\"" + parent) && SearchKey("\t\t\t\tParent", "\"" + parent)
    ensures beg <= |t| && StrStr(t, key, beg) == At(p) && Text(Own(e)) != ""
  {
    var l, rest := ParentLine(e, parent);
    ParentChain(front + Text(skip), LineText(l), rest, post);
    FindIn(t, key, front, skip, l, rest + post, "\t\t\t\tParent", "\"" + parent, beg, p);
  }

  lemma ParentLine(e: Entry, parent: string) returns (l: Line, rest: string)
    requires e.LevelLink? && EntryOk(e) && parent <= e.parent && '"' !in parent
    ensures Text(Own(e)) == LineText(l) + rest && Shaped(l)
    ensures Aligned(l, "\t\t\t\tParent", "\"" + parent) && |Head(l)| == |"\t\t\t\tParent"| && LineText(l) != ""
  {
    l, rest := Own(e)[0], Text(Own(e)[1..]);
    LinkOwn(e);
    ObjectTame(e, 0);
    QuotedPrefix(parent, e.parent);
    ParentAligned(l, parent);
  }

  lemma ParentChain(a: string, l: string, r: string, z: string)
    ensures a + (l + r) + z == a + l + (r + z)
  {
  }

  lemma LinkMissing(f: MetaFile, i: nat, parent: string, key: string, beg: nat, end: nat)
    requires Site(f, Point, i) && beg == OpenPos(f, Point, i, 1) + 2 && end == ClosePos(f, Point, i, 1)
    requires key == "\t\t\t\tParent" + "=" + ("\"" + parent) && SearchKey("\t\t\t\tParent", "\"" + parent) && '"' !in parent
    requires FirstLink(LinksOf(f, i), parent).Null?
    ensures beg <= |Print(f)| && (StrStr(Print(f), key, beg).At? ==> StrStr(Print(f), key, beg).pos >= end)
  {
    var es := LinksOf(f, i);
    LinkSiteOk(f, i);
    var body := [OpenLine("LevelLink")] + EntriesLines(es);
    BodyQuietLinks(es, parent);
    OpenLong("LevelLink", body);
    GroupText(f, Point, i, 1);
    LinkPastEnd(Print(f), Text(LinesA(f, Point, i)) + Text(LinesB(Point, f.Of(Point)[i], 1)), body,
                LineText(CloseLine("LevelLink")) + Rest(f, Point, i, 2), parent, key, beg, end);
  }

  lemma LinkPastEnd(t: string, front: string, body: seq<Line>, rest: string, parent: string, key: string, beg: nat, end: nat)
    requires t == front + Text(body) + rest && AllLinkQuiet(body, parent) && |front| <= beg <= end == |front| + |Text(body)|
    requires key == "\t\t\t\tParent" + "=" + ("\"" + parent) && SearchKey("\t\t\t\tParent", "\"" + parent)
    ensures beg <= |t| && (StrStr(t, key, beg).At? ==> StrStr(t, key, beg).pos >= end)
  {
    var r := StrStr(t, key, beg);
    if r.At? && r.pos < end {
      NoneInQuiet(front, body, rest, "\t\t\t\tParent", "\"" + parent, r.pos);
    }
  }

  // ----------------------------------------------------------------- the link field

  /** The lines of the two level names. */
  function LevelLines(e: Entry): seq<Line>
    requires e.LevelLink?
  {
    [Line(4, "Parent", Quoted(e.parent)), Line(4, "Child", Quoted(e.child))]
  }

  /** Neither name holds the key, or what it holds is stripped to the same field. */
  predicate LinkPasses(e: Entry)
    requires e.LevelLink?
  {
    var ls := LevelLines(e);
    match ReadOn(ls, LineStart(ls, 0), "LinkField") case None => true case Some((_, v)) => Strip(v) == e.link
  }

  lemma LinkKeys()
    ensures KeyOk("LinkField") && '"' !in "LinkField=" && "LinkField" + "=" == "LinkField=" && EndsWith("LinkField", "LinkField")
    ensures !EndsWith("Parent", "LinkField") && !EndsWith("Child", "LinkField")
  {
  }

  /** What is read from the two names: nothing if and only if neither holds the key,
      else a text with two characters to strip. */
  lemma ClearLink(e: Entry)
    requires e.LevelLink? && EntryOk(e)
    ensures var ls := LevelLines(e);
            match ReadOn(ls, LineStart(ls, 0), "LinkField")
            case None => !Contains(e.parent, "LinkField=") && !Contains(e.child, "LinkField=")
            case Some((_, v)) => (Contains(e.parent, "LinkField=") || Contains(e.child, "LinkField=")) && |v| >= 2
  {
    var ls := LevelLines(e);
    LinkKeys();
    KeyHit(e.parent, "LinkField=");
    KeyHit(e.child, "LinkField=");
    QuotedSearch(e.parent, "LinkField=");
    QuotedSearch(e.child, "LinkField=");
    if Contains(e.parent, "LinkField=") {
      HeldLink(ls, LineStart(ls, 0), e.parent, StrStr(e.parent, "LinkField=", 0).pos);
    } else {
      ReadNext(ls, LineStart(ls, 0), "LinkField");
      if Contains(e.child, "LinkField=") {
        HeldLink(ls, LineStart(ls, 1), e.child, StrStr(e.child, "LinkField=", 0).pos);
      }
    }
  }

  lemma HeldLink(ls: seq<Line>, c: Cursor, name: string, q: nat)
    requires On(ls, c) && c.InHead? && ls[c.line].val == Quoted(name) && NameOk(name) && !EndsWith(ls[c.line].key, "LinkField")
    requires OccursAt(name, "LinkField=", q) && StrStr(Quoted(name), "LinkField=", 0) == At(q + 1)
    ensures ReadOn(ls, c, "LinkField").Some? && |ReadOn(ls, c, "LinkField").value.1| >= 2
  {
    LinkKeys();
    ReadHeld(ls, c, "LinkField", q + 1);
    OccursIdx(name, "LinkField=", q, q + 9);
  }

  lemma ReadLink(e: Entry) returns (v: string)
    requires e.LevelLink? && EntryOk(e)
    ensures Own(e) != [] && ReadOn(Own(e), LineStart(Own(e), 0), "LinkField").Some? && v == ReadOn(Own(e), LineStart(Own(e), 0), "LinkField").value.1
    ensures |v| >= 2 && (Strip(v) == e.link <==> LinkPasses(e))
  {
    var ls := LevelLines(e);
    LinkOwn(e);
    LinkKeys();
    ClearLink(e);
    StripQuoted(e.link);
    ReadCat(ls, [Line(4, "LinkField", Quoted(e.link))], LineStart(ls, 0), "LinkField");
    ReadLine(Own(e), 2, "LinkField");
    v := ReadOn(Own(e), LineStart(Own(e), 0), "LinkField").value.1;
  }

  /** A link whose parent is "LinkField=a", which the naming rules allow, is looked up
      with an empty field. */
  lemma FieldInParent(f: MetaFile, i: nat, nm: string, j: nat)
    requires Site(f, Point, i) && SearchName(nm) && FirstStruct(f.points, nm) == At(i)
    requires FirstLink(LinksOf(f, i), "LinkField=a") == At(j) && LinksOf(f, i)[j].LevelLink? && LinksOf(f, i)[j].parent == "LinkField=a"
    ensures SearchName("LinkField=a") && LinkInfo(Print(f), nm, "LinkField=a") != Some(Some(LinksOf(f, i)[j].link))
  {
    var e := LinksOf(f, i)[j];
    assert e in LinksOf(f, i);
    KeyInLevelName("LinkField=a");
    HeldEmpty(e);
    LinkInfoReads(f, i, nm, "LinkField=a");
  }

  lemma KeyInLevelName(s: string)
    requires s == "LinkField=a"
    ensures SearchName(s) && OccursAt(s, "LinkField=", 0) && |s| == 11 && Quoted(s)[11..] == "a\""
  {
    var n := KeyName("", "LinkField=", "a");
    assert n == "LinkField=" + "a" == "LinkField=a";
    QuotedRest("LinkField=", "a");
  }

  lemma QuotedRest(k: string, a: string)
    ensures Quoted(k + a)[|k| + 1..] == a + "\""
  {
    assert Quoted(k + a) == ("\"" + k) + (a + "\"");
  }

  lemma HeldEmpty(e: Entry)
    requires e.LevelLink? && EntryOk(e) && e.parent == "LinkField=a"
    ensures !LinkPasses(e)
  {
    var ls := LevelLines(e);
    LinkKeys();
    KeyInLevelName(e.parent);
    StrStrIs(e.parent, "LinkField=", 0, 0);
    QuotedSearch(e.parent, "LinkField=");
    ReadHeld(ls, LineStart(ls, 0), "LinkField", 1);
    assert Strip("a\"") == "";
  }

  lemma LinkInfoIs(t: string, nm: string, parent: string, key: string, beg: nat, end: nat)
    requires key == Fmt256("\t\t\t\tParent=\"" + parent) && beg <= |t|
    requires MetaGroup(t, Point, nm, Some("LevelLink")) == Some((At(beg), At(end)))
    ensures LinkInfo(t, nm, parent)
         == match StrStr(t, key, beg)
            case Null => Some(None)
            case At(p) => if p < end then match ValueBetween(t, p, At(end), "LinkField")
                                          case Missing => None case Found(_, v) => if |v| < 2 then None else Some(Some(Strip(v)))
                          else Some(None)
  {
  }

  /** What the lookup of a link returns: a failure if no parent's name starts with
      the requested one; else the field of the first link that has such a parent, if
      and only if its names hold no "LinkField=", or hold the same field behind it. */
  lemma LinkInfoReads(f: MetaFile, i: nat, nm: string, parent: string)
    requires Site(f, Point, i) && SearchName(nm) && FirstStruct(f.points, nm) == At(i) && SearchName(parent)
    ensures match FirstLink(LinksOf(f, i), parent)
            case Null => LinkInfo(Print(f), nm, parent) == Some(None)
            case At(j) => LinkInfo(Print(f), nm, parent) == Some(Some(LinksOf(f, i)[j].link)) <==> LinkPasses(LinksOf(f, i)[j])
  {
    LinkSiteOk(f, i);
    var b, beg, end := Brackets(f, Point, i, nm, 1);
    var key := LinkKey(parent);
    match FirstLink(LinksOf(f, i), parent)
    case Null =>
      LinkMissing(f, i, parent, key, beg, end);
      LinkInfoIs(Print(f), nm, parent, key, beg, end);
    case At(j) =>
      var e := LinksOf(f, i)[j];
      assert e in LinksOf(f, i);
      var pre, post := LinkFound(f, i, parent, key, j, beg);
      LinkInfoIs(Print(f), nm, parent, key, beg, end);
      var p, v := LinkAt(Print(f), pre, e, post, end);
  }

  /** From the parent's line, the field that is read. */
  lemma LinkAt(t: string, pre: string, e: Entry, post: string, end: nat) returns (p: nat, v: string)
    requires e.LevelLink? && EntryOk(e) && t == pre + Text(Own(e)) + post && |pre| + |Text(Own(e))| <= end
    ensures |pre| <= |t| && ValueBetween(t, |pre|, At(end), "LinkField") == Found(p, v) && |v| >= 2 && (Strip(v) == e.link <==> LinkPasses(e))
  {
    var w := ReadLink(e);
    ObjectTame(e, 0);
    LinkKeys();
    var d;
    d, p, v := LookupWithin(t, pre, Own(e), post, LineStart(Own(e), 0), "LinkField", |pre|, end);
  }

  lemma {:induction false} FirstLinkAppend(es: seq<Entry>, e: Entry, parent: string)
    requires Links(es + [e])
    ensures Links(es) && FirstLink(es + [e], parent)
         == if FirstLink(es, parent).At? then FirstLink(es, parent) else if parent <= e.parent then At(|es|) else Null
  {
    assert e in es + [e] && forall x <- es :: x in es + [e];
    if es == [] {
      assert es + [e] == [e] && [e][1..] == [];
    } else {
      assert (es + [e])[1..] == es[1..] + [e];
      FirstLinkAppend(es[1..], e, parent);
    }
  }

  /** Define, then look up: the new link has the field it was given if and only if
      its names pass, provided no earlier parent's name starts with its parent's. The
      buffer of PTdeflinkage holds three names of the documented length. */
  lemma DefineLinkThenLookUp(f: MetaFile, a: Ask, i: nat)
    requires AskOk(a) && Adds(f, a.req) && a.req.entry.LevelLink? && a.req.kind == Point && FirstStruct(f.points, a.req.name) == At(i)
    requires SearchName(a.req.entry.parent) && Site(f, Point, i) && FirstLink(LinksOf(f, i), a.req.entry.parent).Null?
    ensures InsertAsk(Print(f), a).Some?
    ensures LinkInfo(InsertAsk(Print(f), a).value, a.req.name, a.req.entry.parent) == Some(Some(a.req.entry.link)) <==> LinkPasses(a.req.entry)
  {
    LinkArrives(a, Print(f));
    LinkLookedUp(f, a.req, i);
  }

  /** No buffer cuts a link of names of the documented length. */
  lemma LinkArrives(a: Ask, t: string)
    requires AskOk(a) && a.req.AddEntry? && a.req.entry.LevelLink?
    ensures InsertAsk(t, a) == InsertText(t, CallOf(a.req))
  {
    LinkWhole(a.req.entry, a.size);
    assert Whole(a);
    ArrivesWhole(a);
    WholeInserted(t, a);
  }

  lemma LinkWhole(e: Entry, size: nat)
    requires e.LevelLink? && EntryShort(e)
    ensures EntryWhole(e, size)
  {
  }

  lemma WholeInserted(t: string, a: Ask)
    requires Arrives(a) == Some(CallOf(a.req))
    ensures InsertAsk(t, a) == InsertText(t, CallOf(a.req))
  {
  }

  lemma LinkLookedUp(f: MetaFile, r: Request, i: nat)
    requires Adds(f, r) && r.entry.LevelLink? && r.kind == Point && FirstStruct(f.points, r.name) == At(i)
    requires SearchName(r.entry.parent) && Site(f, Point, i) && FirstLink(LinksOf(f, i), r.entry.parent).Null?
    ensures InsertText(Print(f), CallOf(r)).Some?
    ensures LinkInfo(InsertText(Print(f), CallOf(r)).value, r.name, r.entry.parent) == Some(Some(r.entry.link)) <==> LinkPasses(r.entry)
  {
    var f' := LinksGrow(f, r, i);
    FirstLinkAppend(LinksOf(f, i), r.entry, r.entry.parent);
    LinkInfoReads(f', i, r.name, r.entry.parent);
  }

  lemma LinksGrow(f: MetaFile, r: Request, i: nat) returns (f': MetaFile)
    requires Adds(f, r) && r.entry.LevelLink? && r.kind == Point && FirstStruct(f.points, r.name) == At(i) && Site(f, Point, i)
    ensures Site(f', Point, i) && FirstStruct(f'.points, r.name) == At(i) && LinksOf(f', i) == LinksOf(f, i) + [r.entry]
    ensures InsertText(Print(f), CallOf(r)) == Some(Print(f'))
  {
    f' := Apply(f, r).value;
    var g := Appended(f, r, i);
    LinkGroup(r.entry);
    SchemaOnce(Point, 1, g);
    LinksAppended(f, f', i, r.entry);
  }

  lemma LinksAppended(f: MetaFile, f': MetaFile, i: nat, e: Entry)
    requires Site(f, Point, i) && Site(f', Point, i) && |f.Of(Point)[i].groups| > 1 && |f'.Of(Point)[i].groups| > 1
    requires f'.Of(Point)[i].groups[1] == f.Of(Point)[i].groups[1] + [e]
    ensures LinksOf(f', i) == LinksOf(f, i) + [e]
  {
    LinkSiteOk(f, i);
    LinkSiteOk(f', i);
  }

  lemma LinkGroup(e: Entry)
    requires e.LevelLink?
    ensures Schema(Point)[1] == GroupOf(e)
  {
  }
}
