/** Editing the text is appending to the tree: for every well-formed file and
    request, EHinsertmeta's new text is the printed form of the new tree. */
module MetaRefine {
  import opened CText
  import opened OdlLines
  import opened OdlCount
  import opened MetaTree
  import opened MetaLines
  import opened MetaSearch
  import opened MetaEdit
  import opened MetaRequest
  import opened MetaLocate
  import opened MetaCalls

  // ------------------------------------------------------------------ numbering

  lemma {:induction false} KeyCountNone(ls: seq<Line>, w: string)
    requires forall l <- ls :: l.key != w
    ensures KeyCount(ls, w) == 0
  {
    if ls != [] {
      assert ls[0] in ls;
      KeyCountNone(ls[1..], w);
    }
  }

  lemma KeyCount1(l: Line, w: string)
    ensures KeyCount([l], w) == if l.key == w then 1 else 0
  {
    assert [l][1..] == [];
  }

  /** The terminator that ends an entry of the group. */
  function Terminator(g: string): string { if g == "Level" then "END_GROUP" else "END_OBJECT" }

  lemma EntryKeyCount(e: Entry, n: nat)
    requires EntryOk(e)
    ensures KeyCount(EntryLines(e, n), Terminator(GroupOf(e))) == 1
  {
    if e.Level? {
      var close := Line(3, "END_GROUP", Numbered("Level", n));
      PFieldLinesTame(e.fields);
      KeyCountNone(LevelOpen(e, n) + PFieldLines(e.fields), "END_GROUP");
      KeyCountCat(LevelOpen(e, n) + PFieldLines(e.fields), [close], "END_GROUP");
      KeyCount1(close, "END_GROUP");
    } else {
      var tag := Numbered(GroupOf(e), n + 1);
      ObjectKeyCount(3, tag, Attrs(e)) by { AttrsAreOk(e); }
      assert GroupOf(e) != "Level" by { assert GroupOf(e)[0] != 'L' || |GroupOf(e)| == 9; }
    }
  }

  lemma ObjectKeyCount(n: nat, tag: string, xs: seq<Attr>)
    requires AttrsOk(xs)
    ensures KeyCount(ObjectLines(n, tag, xs), "END_OBJECT") == 1
  {
    var open, close := Line(n, "OBJECT", tag), Line(n, "END_OBJECT", tag);
    AttrLinesTame(n + 1, xs);
    forall l | l in [open] + AttrLines(n + 1, xs) ensures l.key != "END_OBJECT" {
      if l != open {
        var i :| 0 <= i < |xs| && l == Line(n + 1, xs[i].key, xs[i].val);
        assert xs[i] in xs;
      }
    }
    KeyCountNone([open] + AttrLines(n + 1, xs), "END_OBJECT");
    KeyCountCat([open] + AttrLines(n + 1, xs), [close], "END_OBJECT");
    KeyCount1(close, "END_OBJECT");
  }

  lemma {:induction false} EntriesKeyCount(g: string, es: seq<Entry>)
    requires GroupOk(g, es)
    ensures KeyCount(EntriesLines(es), Terminator(g)) == |es|
  {
    if es != [] {
      var e := es[|es| - 1];
      EntriesKeyCount(g, es[..|es| - 1]);
      assert EntryOk(e) && GroupOf(e) == g;
      EntryKeyCount(e, |es| - 1);
      KeyCountCat(EntriesLines(es[..|es| - 1]), EntryLines(e, |es| - 1), Terminator(g));
    }
  }

  /** Inert values hold no terminator, so a run of lines counts its keys only. */
  lemma InertCount(ls: seq<Line>, w: string)
    requires LinesOk(ls) && (w == "END_OBJECT" || w == "END_GROUP")
    ensures LinesCount(ls, w) == KeyCount(ls, w)
  {
    assert forall l <- ls :: LineOk(l) && Inert(l.val);
    CountIsKeysIff(ls, w);
  }

  lemma BodyCount(f: MetaFile, k: Kind, i: nat, g: nat)
    requires Site(f, k, i) && g < |Schema(k)|
    ensures LinesOk(Body(f, k, i, g))
    ensures LinesCount(Body(f, k, i, g), Terminator(Schema(k)[g])) == |f.Of(k)[i].groups[g]|
  {
    var b, es := Schema(k)[g], f.Of(k)[i].groups[g];
    var w := Terminator(b);
    assert b in Schema(k);
    GroupLinesOk(k, b, es);
    assert forall l <- Body(f, k, i, g) :: l in GroupLines(b, es);
    InertCount(Body(f, k, i, g), w);
    KeyCountCat([OpenLine(b)], EntriesLines(es), w);
    KeyCount1(OpenLine(b), w);
    EntriesKeyCount(b, es);
    assert "GROUP" != w by { assert |w| > 5; }
  }

  /** The text around the opening line and the entries of a group. */
  lemma GroupText(f: MetaFile, k: Kind, i: nat, g: nat)
    requires Site(f, k, i) && g < |Schema(k)|
    ensures Print(f) == Text(LinesA(f, k, i)) + Text(LinesB(k, f.Of(k)[i], g)) + Text(Body(f, k, i, g))
                        + (LineText(CloseLine(Schema(k)[g])) + Rest(f, k, i, g + 1))
  {
    TextFrame(f, k, i, g);
    BodyFrame(f, k, i, g);
    Chain4(Text(LinesA(f, k, i)) + Text(LinesB(k, f.Of(k)[i], g)), Text(Body(f, k, i, g)),
           LineText(CloseLine(Schema(k)[g])), Rest(f, k, i, g + 1));
  }

  lemma CountBetween(t: string, pre: string, body: seq<Line>, post: string, w: string)
    requires t == pre + Text(body) + post
    requires body != [] && body[0].tabs > 0 && LinesOk(body) && (w == "END_OBJECT" || w == "END_GROUP")
    ensures Counted(t, At(|pre|), At(|pre| + |Text(body)|), w) == LinesCount(body, w)
  {
    ShapedOfOk(body);
    CountLines(pre, body, post, w);
    CountFrom(pre, body, post, w);
  }

  /** The counting loop between the brackets of a group returns its number of
      entries. */
  lemma GroupCount(f: MetaFile, k: Kind, i: nat, g: nat)
    requires Site(f, k, i) && g < |Schema(k)|
    ensures Counted(Print(f), At(OpenPos(f, k, i, g)), At(ClosePos(f, k, i, g)), Terminator(Schema(k)[g]))
         == |f.Of(k)[i].groups[g]|
  {
    GroupText(f, k, i, g);
    BodyCount(f, k, i, g);
    TerminatorIs(Schema(k)[g]);
    Positions(f, k, i, g);
    CountIn(Print(f), Text(LinesA(f, k, i)), Text(LinesB(k, f.Of(k)[i], g)), Body(f, k, i, g),
            LineText(CloseLine(Schema(k)[g])) + Rest(f, k, i, g + 1), Terminator(Schema(k)[g]),
            OpenPos(f, k, i, g), ClosePos(f, k, i, g), |f.Of(k)[i].groups[g]|);
  }

  lemma TerminatorIs(g: string)
    ensures Terminator(g) == "END_OBJECT" || Terminator(g) == "END_GROUP"
  {
  }

  lemma Positions(f: MetaFile, k: Kind, i: nat, g: nat)
    requires Site(f, k, i) && g < |Schema(k)|
    ensures OpenPos(f, k, i, g) == |Text(LinesA(f, k, i))| + |Text(LinesB(k, f.Of(k)[i], g))|
    ensures ClosePos(f, k, i, g) == OpenPos(f, k, i, g) + |Text(Body(f, k, i, g))|
    ensures Body(f, k, i, g) != [] && Body(f, k, i, g)[0].tabs > 0
  {
  }

  lemma CountIn(t: string, a: string, b: string, body: seq<Line>, post: string, w: string, beg: nat, end: nat, n: nat)
    requires t == a + b + Text(body) + post && beg == |a| + |b| && end == beg + |Text(body)|
    requires body != [] && body[0].tabs > 0 && LinesOk(body) && (w == "END_OBJECT" || w == "END_GROUP")
    requires LinesCount(body, w) == n
    ensures Counted(t, At(beg), At(end), w) == n
  {
    CountBetween(t, a + b, body, post, w);
  }

  lemma Chain4(a: string, b: string, c: string, d: string)
    ensures a + (b + c + d) == a + b + (c + d)
  {
  }

  /** A run of lines that starts with a tab does not start with a terminator. */
  lemma CountFrom(pre: string, ls: seq<Line>, post: string, w: string)
    requires ls != [] && ls[0].tabs > 0 && Word(w)
    ensures |Text(ls)| > 0
    ensures Occurrences(pre + Text(ls) + post, w, |pre| + 1, |pre| + |Text(ls)|)
         == Occurrences(pre + Text(ls) + post, w, |pre|, |pre| + |Text(ls)|)
  {
    var t := pre + Text(ls) + post;
    assert t[|pre|] == LineText(ls[0])[0] == '\t';
    OccursIdx(t, w, |pre|, |pre|);
    assert '\t' !in w;
  }

  // ------------------------------------------------ the frame of an edited tree

  /** Changing structure i leaves the lines around it alone. */
  lemma FrameStable(f: MetaFile, k: Kind, i: nat, s: Struct)
    requires Site(f, k, i) && StructOk(k, s) && s.id == f.Of(k)[i].id && s.name == f.Of(k)[i].name
    ensures var f' := f.With(k, f.Of(k)[i := s]);
            && FileOk(f') && Site(f', k, i) && f'.Of(k)[i] == s
            && LinesA(f', k, i) == LinesA(f, k, i) && From(f', k, i + 1) == From(f, k, i + 1)
  {
    var ss := f.Of(k);
    var ss' := ss[i := s];
    var f' := f.With(k, ss');
    OfOk(f, k);
    forall x | x in ss' ensures StructOk(k, x) {
      assert x == s || x in ss;
    }
    FileLinesOk(f');
    assert f'.Of(k) == ss';
    assert ss'[..i] == ss[..i] && ss'[i + 1..] == ss[i + 1..];
  }

  lemma GroupStable(k: Kind, s: Struct, g: nat, e: Entry)
    requires StructOk(k, s) && g < |Schema(k)| && EntryOk(e) && GroupOf(e) == Schema(k)[g]
    ensures var s' := AppendEntry(s, g, e);
            && StructOk(k, s') && LinesB(k, s', g) == LinesB(k, s, g) && GroupRest(k, s', g + 1) == GroupRest(k, s, g + 1)
            && EntriesLines(s'.groups[g]) == EntriesLines(s.groups[g]) + EntryLines(e, |s.groups[g]|)
  {
    var s' := AppendEntry(s, g, e);
    var es := s.groups[g];
    assert s'.groups[..g] == s.groups[..g] && s'.groups[g + 1..] == s.groups[g + 1..];
    assert (es + [e])[..|es|] == es;
    forall j | 0 <= j < |s'.groups| ensures GroupOk(Schema(k)[j], s'.groups[j]) {
      assert GroupOk(Schema(k)[j], s.groups[j]);
    }
  }

  /** The edited file: structure i replaced by s. */
  function WithStruct(f: MetaFile, k: Kind, i: nat, s: Struct): MetaFile
    requires i < |f.Of(k)|
  {
    f.With(k, f.Of(k)[i := s])
  }

  /** The new text around the appended entry. */
  lemma AppendFrame(f: MetaFile, k: Kind, i: nat, g: nat, e: Entry, f': MetaFile)
    requires Site(f, k, i) && g < |Schema(k)| && EntryOk(e) && GroupOf(e) == Schema(k)[g]
    requires f' == WithStruct(f, k, i, AppendEntry(f.Of(k)[i], g, e))
    ensures FileOk(f') && WellShaped(f') && ClosePos(f, k, i, g) <= |Print(f)|
    ensures Print(f') == Splice(Print(f), Edit(ClosePos(f, k, i, g), Text(EntryLines(e, |f.Of(k)[i].groups[g]|))))
  {
    var s := f.Of(k)[i];
    var x := EntryLines(e, |s.groups[g]|);
    GroupStable(k, s, g, e);
    FrameStable(f, k, i, AppendEntry(s, g, e));
    GroupText(f, k, i, g);
    GroupText(f', k, i, g);
    BodyGrows(f, f', k, i, g, x);
    Spliced(Text(LinesA(f, k, i)) + Text(LinesB(k, s, g)) + Text(Body(f, k, i, g)), Text(x),
            LineText(CloseLine(Schema(k)[g])) + Rest(f, k, i, g + 1));
    Assoc(Text(LinesA(f, k, i)) + Text(LinesB(k, s, g)), Text(Body(f, k, i, g)), Text(x));
  }

  lemma BodyGrows(f: MetaFile, f': MetaFile, k: Kind, i: nat, g: nat, x: seq<Line>)
    requires Site(f, k, i) && Site(f', k, i) && g < |Schema(k)|
    requires EntriesLines(f'.Of(k)[i].groups[g]) == EntriesLines(f.Of(k)[i].groups[g]) + x
    ensures Text(Body(f', k, i, g)) == Text(Body(f, k, i, g)) + Text(x)
  {
    Assoc([OpenLine(Schema(k)[g])], EntriesLines(f.Of(k)[i].groups[g]), x);
    TextCat(Body(f, k, i, g), x);
  }

  lemma Spliced(p: string, x: string, q: string)
    ensures Splice(p + q, Edit(|p|, x)) == p + x + q
  {
    assert (p + q)[..|p|] == p && (p + q)[|p|..] == q;
  }

  // -------------------------------------------------------------- AddEntry

  lemma EntryPlace(f: MetaFile, k: Kind, i: nat, g: nat, e: Entry, nm: string)
    requires Site(f, k, i) && Searchable(nm) && FirstStruct(f.Of(k), nm) == At(i)
    requires g < |Schema(k)| && GroupOf(e) == Schema(k)[g]
    ensures var n := |f.Of(k)[i].groups[g]|;
            PlaceOf(Print(f), EntryCall(k, nm, e)) == Some(Place(ClosePos(f, k, i, g), if e.Level? then n else n + 1))
  {
    var c := EntryCall(k, nm, e);
    EntryCallIs(k, nm, e);
    EntryGroup(e);
    LocateStart(f, c, i);
    LocateOpen(f, k, i, g);
    GroupCount(f, k, i, g);
    if e.Level? {
      LevelFirst(k, g);
      EntryPlaceLevel(f, i, c);
    } else {
      LocateClose(f, k, i, g);
      PlaceObject(Print(f), c, Schema(k)[g], NamePos(f, k, i), OpenPos(f, k, i, g), ClosePos(f, k, i, g));
    }
  }

  lemma EntryPlaceLevel(f: MetaFile, i: nat, c: Call)
    requires Site(f, Point, i) && c.metacode == 10
    requires FindStart(Print(f), c) == At(NamePos(f, Point, i)) && NamePos(f, Point, i) <= |Print(f)|
    ensures PlaceOf(Print(f), c) == Some(Place(ClosePos(f, Point, i, 0), |f.Of(Point)[i].groups[0]|))
  {
    EntryPlaceAt(f, i, Print(f), c, NamePos(f, Point, i), OpenPos(f, Point, i, 0), ClosePos(f, Point, i, 0), |f.Of(Point)[i].groups[0]|);
  }

  lemma EntryPlaceAt(f: MetaFile, i: nat, t: string, c: Call, p: nat, beg: nat, end: nat, n: nat)
    requires Site(f, Point, i) && t == Print(f) && c.metacode == 10 && p <= |t|
    requires p == NamePos(f, Point, i) && beg == OpenPos(f, Point, i, 0) && end == ClosePos(f, Point, i, 0)
    requires n == |f.Of(Point)[i].groups[0]| && FindStart(t, c) == At(p)
    ensures PlaceOf(t, c) == Some(Place(end, n))
  {
    LevelSearch(f, i);
    LevelCount(f, i);
    LevelPlaceIs(t, c, p, beg, end, n);
  }

  lemma LevelSearch(f: MetaFile, i: nat)
    requires Site(f, Point, i) && NamePos(f, Point, i) <= |Print(f)|
    ensures StrStr(Print(f), "\t\tGROUP=Level", NamePos(f, Point, i)) == At(OpenPos(f, Point, i, 0))
    ensures OpenPos(f, Point, i, 0) < ClosePos(f, Point, i, 0)
    ensures StrStr(Print(f), "\n\t\tEND_GROUP=Level", NamePos(f, Point, i)) == At(ClosePos(f, Point, i, 0) - 1)
  {
    LevelName();
    LocateOpen(f, Point, i, 0);
    LocateLevelClose(f, i);
    Positions(f, Point, i, 0);
  }

  lemma LevelCount(f: MetaFile, i: nat)
    requires Site(f, Point, i)
    ensures Counted(Print(f), At(OpenPos(f, Point, i, 0)), At(ClosePos(f, Point, i, 0)), "END_GROUP") == |f.Of(Point)[i].groups[0]|
  {
    LevelName();
    GroupCount(f, Point, i, 0);
  }

  lemma LevelName()
    ensures Schema(Point)[0] == "Level" && Terminator("Level") == "END_GROUP"
    ensures "\t\tGROUP=" + "Level" == "\t\tGROUP=Level"
  {
  }

  lemma LevelPlaceIs(t: string, c: Call, p: nat, beg: nat, end: nat, n: nat)
    requires FindStart(t, c) == At(p) && p <= |t| && c.metacode == 10 && beg < end
    requires StrStr(t, "\t\tGROUP=Level", p) == At(beg) && StrStr(t, "\n\t\tEND_GROUP=Level", p) == At(end - 1)
    requires Counted(t, At(beg), At(end), "END_GROUP") == n
    ensures PlaceOf(t, c) == Some(Place(end, n))
  {
    SwitchLevel(t, p, c);
    LevelPlaceAt(t, p, beg, end);
  }

  lemma LevelPlaceAt(t: string, p: nat, beg: nat, end: nat)
    requires p <= |t| && 0 < end
    requires StrStr(t, "\t\tGROUP=Level", p) == At(beg) && StrStr(t, "\n\t\tEND_GROUP=Level", p) == At(end - 1)
    ensures LevelPlace(t, p) == Some(Place(end, Counted(t, At(beg), At(end), "END_GROUP")))
  {
  }

  lemma EntryCallIs(k: Kind, nm: string, e: Entry)
    ensures var c := EntryCall(k, nm, e);
            && c.structname == nm && c.kind == k && c.metacode < 1000
            && if e.Level? then c.metacode == 10 else ObjectCode(c.metacode) && CodeGroup(c.metacode) == GroupOf(e)
  {
  }

  lemma EntryGroup(e: Entry)
    ensures e.Level? <==> GroupOf(e) == "Level"
  {
    assert e.Level? || GroupOf(e)[0] != 'L' || |GroupOf(e)| == 9;
  }

  lemma PlaceObject(t: string, c: Call, b: string, p: nat, beg: nat, end: nat)
    requires FindStart(t, c) == At(p) && p <= |t|
    requires ObjectCode(c.metacode) && CodeGroup(c.metacode) == b
    requires StrStr(t, "\t\tGROUP=" + b, p) == At(beg) && StrStr(t, "\t\tEND_GROUP=" + b, p) == At(end)
    ensures PlaceOf(t, c) == Some(Place(end, Counted(t, At(beg), At(end), "END_OBJECT") + 1))
  {
    PlaceAtObject(t, p, c);
    ObjectPlaceIs(t, p, b, beg, end);
  }

  lemma PlaceAtObject(t: string, p: nat, c: Call)
    requires FindStart(t, c) == At(p) && p <= |t| && ObjectCode(c.metacode)
    ensures PlaceOf(t, c) == ObjectPlace(t, p, CodeGroup(c.metacode))
  {
  }

  lemma ObjectPlaceIs(t: string, p: nat, b: string, beg: nat, end: nat)
    requires p <= |t| && StrStr(t, "\t\tGROUP=" + b, p) == At(beg) && StrStr(t, "\t\tEND_GROUP=" + b, p) == At(end)
    ensures ObjectPlace(t, p, b) == Some(Place(end, Counted(t, At(beg), At(end), "END_OBJECT") + 1))
  {
  }

  /** Inserting an entry's text is appending the entry to its group. */
  lemma RefineEntry(f: MetaFile, k: Kind, i: nat, g: nat, e: Entry, nm: string)
    requires Site(f, k, i) && Searchable(nm) && FirstStruct(f.Of(k), nm) == At(i)
    requires g < |Schema(k)| && GroupOf(e) == Schema(k)[g]
    requires Insertable(e, |f.Of(k)[i].groups[g]|)
    ensures var f' := WithStruct(f, k, i, AppendEntry(f.Of(k)[i], g, e));
            FileOk(f') && WellShaped(f') && InsertText(Print(f), EntryCall(k, nm, e)) == Some(Print(f'))
  {
    EntryPlace(f, k, i, g, e, nm);
    EntrySeg(k, nm, e, |f.Of(k)[i].groups[g]|);
    AppendFrame(f, k, i, g, e, WithStruct(f, k, i, AppendEntry(f.Of(k)[i], g, e)));
    InsertIs(Print(f), EntryCall(k, nm, e), ClosePos(f, k, i, g),
             if e.Level? then |f.Of(k)[i].groups[g]| else |f.Of(k)[i].groups[g]| + 1, Text(EntryLines(e, |f.Of(k)[i].groups[g]|)));
  }

  lemma InsertIs(t: string, c: Call, offset: nat, count: int, seg: string)
    requires offset <= |t| && PlaceOf(t, c) == Some(Place(offset, count)) && SegOf(c, count) == Some(seg)
    ensures InsertText(t, c) == Some(Splice(t, Edit(offset, seg)))
  {
  }
}
