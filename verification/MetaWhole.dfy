/** EHmetagroup without a group name: the brackets of a whole structure. */
module MetaWhole {
  import opened CText
  import opened OdlLines
  import opened MetaTree
  import opened MetaSearch
  import opened MetaRequest
  import opened MetaLocate
  import opened MetaLookup

  /** Every line is at least n tabs in. */
  predicate Deep(ls: seq<Line>, n: nat) { forall l <- ls :: l.tabs >= n }

  lemma {:induction false} FieldsDeep(ps: seq<PField>)
    ensures Deep(PFieldLines(ps), 4)
  {
    if ps != [] {
      FieldsDeep(ps[..|ps| - 1]);
    }
  }

  lemma EntryDeep(e: Entry, n: nat)
    ensures Deep(EntryLines(e, n), 3)
  {
    if e.Level? {
      FieldsDeep(e.fields);
      LevelDeep(LevelOpen(e, n), PFieldLines(e.fields), Line(3, "END_GROUP", Numbered("Level", n)));
    } else {
      ObjectDeep(Numbered(GroupOf(e), n + 1), Attrs(e));
    }
  }

  lemma LevelDeep(a: seq<Line>, b: seq<Line>, l: Line)
    requires Deep(a, 3) && Deep(b, 3) && l.tabs >= 3
    ensures Deep(a + b + [l], 3)
  {
  }

  lemma ObjectDeep(tag: string, xs: seq<Attr>)
    ensures Deep(ObjectLines(3, tag, xs), 3)
  {
  }

  lemma {:induction false} EntriesDeep(es: seq<Entry>)
    ensures Deep(EntriesLines(es), 3)
  {
    if es != [] {
      EntriesDeep(es[..|es| - 1]);
      EntryDeep(es[|es| - 1], |es| - 1);
    }
  }

  lemma {:induction false} GroupsDeep(ns: seq<string>, gs: seq<seq<Entry>>)
    requires |ns| == |gs|
    ensures Deep(GroupsLines(ns, gs), 2)
  {
    if ns != [] {
      EntriesDeep(gs[0]);
      GroupsDeep(ns[1..], gs[1..]);
    }
  }

  /** From the name line to the last group a structure's lines are two tabs in. */
  lemma BodyDeep(k: Kind, s: Struct)
    requires |s.groups| == |Schema(k)|
    ensures Deep(LinesB(k, s, |Schema(k)|), 2)
  {
    GroupsDeep(Schema(k)[..|Schema(k)|], s.groups[..|Schema(k)|]);
  }

  function EndLine(k: Kind, s: Struct): Line { Line(1, "END_GROUP", OpenName(k) + Dec(s.id)) }

  lemma RestIs(f: MetaFile, k: Kind, i: nat) returns (post: string)
    requires Site(f, k, i)
    ensures Rest(f, k, i, |Schema(k)|) == LineText(EndLine(k, f.Of(k)[i])) + post
  {
    var l, z := EndLine(k, f.Of(k)[i]), From(f, k, i + 1);
    assert GroupRest(k, f.Of(k)[i], |Schema(k)|) == [l];
    TextCat([l], z);
    Text1(l);
    post := Text(z) + "END\n";
    Assoc(LineText(l), Text(z), "END\n");
  }

  lemma EndFrame(f: MetaFile, k: Kind, i: nat) returns (post: string)
    requires Site(f, k, i)
    ensures var s := f.Of(k)[i];
            Print(f) == Text(LinesA(f, k, i)) + Text(LinesB(k, s, |Schema(k)|)) + LineText(EndLine(k, s)) + post
  {
    var s, n := f.Of(k)[i], |Schema(k)|;
    TextFrame(f, k, i, n);
    post := RestIs(f, k, i);
    Assoc(Text(LinesA(f, k, i)) + Text(LinesB(k, s, n)), LineText(EndLine(k, s)), post);
  }

  lemma EndKey()
    ensures "\n\tEND_GROUP=" == "\n" + Tabs(1) + "END_GROUP" + "=" + ""
    ensures KeyOk("END_GROUP")
  {
    assert Tabs(1) == "\t";
  }

  /** The newline before a structure's own last line is the first one that a
      single tab and END_GROUP follow. */
  lemma FindEnd(t: string, pre: string, skip: seq<Line>, l: Line, post: string, from: nat)
    requires t == pre + Text(skip) + LineText(l) + post && AllShaped(skip) && Shaped(l) && Deep(skip, 2)
    requires l.tabs == 1 && l.key == "END_GROUP" && |pre| <= from < |pre| + |Text(skip)|
    ensures from <= |t| && StrStr(t, "\n\tEND_GROUP=", from) == At(|pre| + |Text(skip)| - 1)
  {
    EndKey();
    FindStartIn(t, "\n\tEND_GROUP=", pre, skip, l, post, 1, "END_GROUP", "", from, |pre| + |Text(skip)| - 1);
  }

  /** What the search for the end is made on. */
  lemma EndReady(f: MetaFile, k: Kind, i: nat) returns (pre: string, skip: seq<Line>, l: Line, post: string)
    requires Site(f, k, i)
    ensures Print(f) == pre + Text(skip) + LineText(l) + post && l.tabs == 1 && l.key == "END_GROUP" && Shaped(l)
    ensures AllShaped(skip) && Deep(skip, 2) && |Text(skip)| >= 10
    ensures |pre| + 2 == NamePos(f, k, i) && |pre| + |Text(skip)| == OpenPos(f, k, i, |Schema(k)|)
  {
    pre, skip, l := Text(LinesA(f, k, i)), LinesB(k, f.Of(k)[i], |Schema(k)|), EndLine(k, f.Of(k)[i]);
    FrameOk(f, k, i, |Schema(k)|);
    BodyDeep(k, f.Of(k)[i]);
    NameLineLong(f, k, i, |Schema(k)|);
    StructEndOk(k, f.Of(k)[i]);
    post := EndFrame(f, k, i);
  }

  lemma LocateEnd(f: MetaFile, k: Kind, i: nat)
    requires Site(f, k, i)
    ensures NamePos(f, k, i) <= |Print(f)| && OpenPos(f, k, i, |Schema(k)|) > 0
    ensures StrStr(Print(f), "\n\tEND_GROUP=", NamePos(f, k, i)) == At(OpenPos(f, k, i, |Schema(k)|) - 1)
  {
    var pre, skip, l, post := EndReady(f, k, i);
    FindEnd(Print(f), pre, skip, l, post, NamePos(f, k, i));
  }

  lemma WholeIs(t: string, k: Kind, nm: string, p: nat, q: nat)
    requires GroupStart(t, k, nm) == At(p) && p <= |t| && StrStr(t, "\n\tEND_GROUP=", p) == At(q)
    ensures MetaGroup(t, k, nm, None) == Some((At(p), At(q)))
  {
  }

  /** Without a group name EHmetagroup brackets the structure: from its name to
      the newline before its last line. */
  lemma MetaWholeBrackets(f: MetaFile, k: Kind, i: nat, nm: string)
    requires Site(f, k, i) && SearchName(nm) && FirstStruct(f.Of(k), nm) == At(i)
    ensures OpenPos(f, k, i, |Schema(k)|) > 0
    ensures MetaGroup(Print(f), k, nm, None) == Some((At(NamePos(f, k, i)), At(OpenPos(f, k, i, |Schema(k)|) - 1)))
  {
    GroupStartIs(f, k, i, nm);
    LocateEnd(f, k, i);
    WholeIs(Print(f), k, nm, NamePos(f, k, i), OpenPos(f, k, i, |Schema(k)|) - 1);
  }
}
