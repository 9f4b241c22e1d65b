/** Adding a field to a level of a point: the search goes two groups deep. */
module MetaPointField {
  import opened CText
  import opened ListText
  import opened OdlLines
  import opened OdlCount
  import opened MetaTree
  import opened MetaLines
  import opened MetaSearch
  import opened MetaEdit
  import opened MetaRequest
  import opened MetaLocate
  import opened MetaCalls
  import opened MetaRefine

  // ------------------------------------------------------- the lines of a level

  /** The lines of the entries from number j on. */
  function EntriesFrom(es: seq<Entry>, j: nat): seq<Line>
    decreases |es| - j
  {
    if j >= |es| then [] else EntryLines(es[j], j) + EntriesFrom(es, j + 1)
  }

  lemma {:induction false} EntriesAround(es: seq<Entry>, j: nat)
    requires j <= |es|
    ensures EntriesLines(es) == EntriesLines(es[..j]) + EntriesFrom(es, j)
    decreases |es| - j
  {
    if j == |es| {
      assert es[..j] == es;
    } else {
      EntriesAround(es, j + 1);
      assert es[..j + 1][..j] == es[..j];
      Assoc(EntriesLines(es[..j]), EntryLines(es[j], j), EntriesFrom(es, j + 1));
    }
  }

  lemma {:induction false} FromStable(es: seq<Entry>, es': seq<Entry>, j: nat)
    requires |es'| == |es| && forall i | j <= i < |es| :: es'[i] == es[i]
    ensures EntriesFrom(es', j) == EntriesFrom(es, j)
    decreases |es| - j
  {
    if j < |es| {
      FromStable(es, es', j + 1);
      FromStep(es, j);
      FromStep(es', j);
    }
  }

  lemma FromStep(es: seq<Entry>, j: nat)
    requires j < |es|
    ensures EntriesFrom(es, j) == EntryLines(es[j], j) + EntriesFrom(es, j + 1)
  {
  }

  // ------------------------------------------------------------ quiet stretches

  predicate LevelQuiet(l: Line, level: string) {
    Shaped(l) && Quiet(l, "\t\t\t\tLevelName", "\"" + level)
  }

  predicate AllLevelQuiet(ls: seq<Line>, level: string) { forall l <- ls :: LevelQuiet(l, level) }

  lemma QuietUnless(l: Line, level: string)
    requires LineOk(l) && !(l.key == "LevelName" && "\"" + level <= l.val)
    ensures LevelQuiet(l, level)
  {
    TabbedKeys();
    AlignedTabs(l, 4, "LevelName", "\"" + level);
    NotContainsChar(l.val, "\t\t\t\tLevelName" + "=" + ("\"" + level), 0);
  }

  lemma TameLevelQuiet(ls: seq<Line>, level: string)
    requires AllTame(ls)
    ensures AllLevelQuiet(ls, level)
  {
    forall l | l in ls ensures LevelQuiet(l, level) {
      assert l.key != "LevelName";
      QuietUnless(l, level);
    }
  }

  /** A level whose name does not start with the requested one. */
  lemma OtherLevelQuiet(e: Entry, n: nat, level: string)
    requires e.Level? && EntryOk(e) && '"' !in level && !(level <= e.name)
    ensures AllLevelQuiet(EntryLines(e, n), level)
  {
    LevelLinesOk(e, n);
    var o := LevelOpen(e, n);
    QuietUnless(o[0], level);
    QuotedPrefix(level, e.name);
    QuietUnless(o[1], level);
    QuietUnless(Line(3, "END_GROUP", Numbered("Level", n)), level);
    TameLevelQuiet(PFieldLines(e.fields), level);
  }

  lemma LevelLinesOk(e: Entry, n: nat)
    requires e.Level? && EntryOk(e)
    ensures LineOk(LevelOpen(e, n)[0]) && LineOk(LevelOpen(e, n)[1]) && LineOk(Line(3, "END_GROUP", Numbered("Level", n)))
    ensures AllTame(PFieldLines(e.fields))
  {
    InertNumbered(e, n);
    GroupLineOk(Line(3, "GROUP", Numbered("Level", n)));
    GroupLineOk(Line(3, "END_GROUP", Numbered("Level", n)));
    InertQuoted(e.name);
    NameLineOk(Line(4, "LevelName", Quoted(e.name)));
    PFieldLinesTame(e.fields);
  }

  lemma {:induction false} EarlierLevelsQuiet(es: seq<Entry>, level: string)
    requires GroupOk("Level", es) && '"' !in level && forall e <- es :: e.Level? ==> !(level <= e.name)
    ensures AllLevelQuiet(EntriesLines(es), level)
  {
    if es != [] {
      var e := es[|es| - 1];
      EarlierLevelsQuiet(es[..|es| - 1], level);
      assert e in es && EntryOk(e) && GroupOf(e) == "Level";
      EntryGroup(e);
      OtherLevelQuiet(e, |es| - 1, level);
    }
  }

  // ------------------------------------------------------------------ the frame

  /** Where a point field goes: structure i, level j of its Level group. */
  predicate LevelSite(f: MetaFile, i: nat, j: nat) {
    && Site(f, Point, i) && j < |Levels(f, i)| && Levels(f, i)[j].Level? && EntryOk(Levels(f, i)[j])
    && GroupOk("Level", Levels(f, i))
  }

  function Levels(f: MetaFile, i: nat): seq<Entry> {
    if i < |f.points| && f.points[i].groups != [] then f.points[i].groups[0] else []
  }

  lemma LevelSiteOk(f: MetaFile, i: nat, j: nat)
    requires Site(f, Point, i) && j < |f.points[i].groups[0]|
    ensures LevelSite(f, i, j)
  {
    LevelName();
    var es := f.points[i].groups[0];
    assert GroupOk(Schema(Point)[0], es);
    assert EntryOk(es[j]) && GroupOf(es[j]) == "Level";
    EntryGroup(es[j]);
  }

  /** From the point's name to the GROUP line of level j. */
  function LinesP(f: MetaFile, i: nat, j: nat): seq<Line>
    requires LevelSite(f, i, j)
  {
    LinesB(Point, f.Of(Point)[i], 0) + [OpenLine("Level")] + EntriesLines(Levels(f, i)[..j]) + [LevelOpen(Levels(f, i)[j], j)[0]]
  }

  /** The level's name line and its fields. */
  function LinesQ(f: MetaFile, i: nat, j: nat): seq<Line>
    requires LevelSite(f, i, j)
  {
    [LevelOpen(Levels(f, i)[j], j)[1]] + PFieldLines(Levels(f, i)[j].fields)
  }

  function LevelEnd(j: nat): Line { Line(3, "END_GROUP", Numbered("Level", j)) }

  function AfterLevel(f: MetaFile, i: nat, j: nat): string
    requires LevelSite(f, i, j)
  {
    Text(EntriesFrom(Levels(f, i), j + 1)) + (LineText(CloseLine("Level")) + Rest(f, Point, i, 1))
  }

  lemma BodyLines(f: MetaFile, i: nat, j: nat)
    requires LevelSite(f, i, j)
    ensures LinesB(Point, f.Of(Point)[i], 0) + Body(f, Point, i, 0)
         == LinesP(f, i, j) + LinesQ(f, i, j) + [LevelEnd(j)] + EntriesFrom(Levels(f, i), j + 1)
  {
    var es := Levels(f, i);
    LevelName();
    EntriesAround(es, j);
    assert LevelOpen(es[j], j) == [LevelOpen(es[j], j)[0]] + [LevelOpen(es[j], j)[1]];
    Unnest(LinesB(Point, f.Of(Point)[i], 0), [OpenLine("Level")], EntriesLines(es[..j]),
           [LevelOpen(es[j], j)[0]], [LevelOpen(es[j], j)[1]], PFieldLines(es[j].fields), [LevelEnd(j)], EntriesFrom(es, j + 1));
  }

  lemma Unnest<T>(b: seq<T>, o: seq<T>, x: seq<T>, g: seq<T>, n: seq<T>, p: seq<T>, e: seq<T>, z: seq<T>)
    ensures b + (o + (x + ((g + n) + p + e + z))) == (b + o + x + g) + (n + p) + e + z
  {
  }

  /** The whole text around the place for a new field of level j. */
  lemma LevelFrame(f: MetaFile, i: nat)
    requires Site(f, Point, i)
    ensures Print(f) == Text(LinesA(f, Point, i)) + Text(LinesB(Point, f.Of(Point)[i], 0) + Body(f, Point, i, 0))
                        + LineText(CloseLine("Level")) + Rest(f, Point, i, 1)
  {
    LevelName();
    CloseFrame(f, Point, i, 0);
  }

  lemma TextParts(p: seq<Line>, q: seq<Line>, e: Line, z: seq<Line>)
    ensures Text(p + q + [e] + z) == Text(p) + Text(q) + LineText(e) + Text(z)
  {
    TextCat(p + q + [e], z);
    TextCat(p + q, [e]);
    TextCat(p, q);
    Text1(e);
  }

  lemma LevelText(f: MetaFile, i: nat, j: nat)
    requires LevelSite(f, i, j)
    ensures Print(f) == Text(LinesA(f, Point, i)) + Text(LinesP(f, i, j)) + Text(LinesQ(f, i, j))
                        + LineText(LevelEnd(j)) + AfterLevel(f, i, j)
  {
    var p, q, z := LinesP(f, i, j), LinesQ(f, i, j), EntriesFrom(Levels(f, i), j + 1);
    LevelFrame(f, i);
    BodyLines(f, i, j);
    TextParts(p, q, LevelEnd(j), z);
    Chain6(Text(LinesA(f, Point, i)), Text(p), Text(q), LineText(LevelEnd(j)), Text(z), LineText(CloseLine("Level")), Rest(f, Point, i, 1));
  }

  lemma Chain6(a: string, p: string, q: string, e: string, z: string, c: string, r: string)
    ensures a + (p + q + e + z) + c + r == a + p + q + e + (z + (c + r))
  {
  }

  lemma LinesPQuiet(f: MetaFile, i: nat, j: nat, level: string)
    requires LevelSite(f, i, j) && '"' !in level
    requires forall m | 0 <= m < j :: Levels(f, i)[m].Level? ==> !(level <= Levels(f, i)[m].name)
    ensures AllLevelQuiet(LinesP(f, i, j), level)
  {
    var es := Levels(f, i);
    LevelLinesOk(es[j], j);
    QuietUnless(LevelOpen(es[j], j)[0], level);
    PointHeadQuiet(f.Of(Point)[i], level);
    EarlierLevelsQuiet(es[..j], level);
  }

  lemma PointHeadQuiet(s: Struct, level: string)
    requires StructOk(Point, s)
    ensures AllLevelQuiet(LinesB(Point, s, 0), level) && LevelQuiet(OpenLine("Level"), level)
  {
    InertName("Level");
    GroupLineOk(OpenLine("Level"));
    QuietUnless(OpenLine("Level"), level);
    OpenLineOk(Point, s);
    QuietUnless(NameLine(Point, s), level);
    AttrLinesTame(2, s.params);
    TameLevelQuiet(AttrLines(2, s.params), level);
    assert GroupsLines(Schema(Point)[..0], s.groups[..0]) == [];
  }

  function FieldBeg(f: MetaFile, i: nat, j: nat): nat
    requires LevelSite(f, i, j)
  {
    |Text(LinesA(f, Point, i))| + |Text(LinesP(f, i, j))|
  }

  /** Where the new field of level j goes. */
  function FieldPos(f: MetaFile, i: nat, j: nat): nat
    requires LevelSite(f, i, j)
  {
    FieldBeg(f, i, j) + |Text(LinesQ(f, i, j))|
  }

  lemma LocateLevel(f: MetaFile, i: nat, j: nat, level: string)
    requires LevelSite(f, i, j) && Searchable(level) && level <= Levels(f, i)[j].name
    requires forall m | 0 <= m < j :: Levels(f, i)[m].Level? ==> !(level <= Levels(f, i)[m].name)
    ensures NamePos(f, Point, i) <= |Print(f)|
    ensures StrStr(Print(f), "\t\t\t\tLevelName=\"" + level, NamePos(f, Point, i)) == At(FieldBeg(f, i, j))
  {
    var e := Levels(f, i)[j];
    var l := LevelOpen(e, j)[1];
    var p := LinesP(f, i, j);
    LevelText(f, i, j);
    TextCat([l], PFieldLines(e.fields));
    Text1(l);
    var post := Text(PFieldLines(e.fields)) + (LineText(LevelEnd(j)) + AfterLevel(f, i, j));
    Split7(Text(LinesA(f, Point, i)), Text(p), LineText(l), Text(PFieldLines(e.fields)), LineText(LevelEnd(j)), AfterLevel(f, i, j));
    LinesPQuiet(f, i, j, level);
    LevelLinesOk(e, j);
    LevelAligned(e, j, level);
    LinesPLong(f, i, j);
    LevelKey(level);
    FindIn(Print(f), "\t\t\t\tLevelName=\"" + level, Text(LinesA(f, Point, i)), p, l, post,
           "\t\t\t\tLevelName", "\"" + level, NamePos(f, Point, i), FieldBeg(f, i, j));
  }

  lemma Split7(a: string, p: string, l: string, q: string, e: string, z: string)
    ensures a + p + (l + q) + e + z == a + p + l + (q + (e + z))
  {
  }

  lemma LinesPLong(f: MetaFile, i: nat, j: nat)
    requires LevelSite(f, i, j)
    ensures |Text(LinesP(f, i, j))| >= 10
  {
    var b, x, g := LinesB(Point, f.Of(Point)[i], 0), EntriesLines(Levels(f, i)[..j]), [LevelOpen(Levels(f, i)[j], j)[0]];
    NameLineLong(f, Point, i, 0);
    TextCat(b + [OpenLine("Level")] + x, g);
    TextCat(b + [OpenLine("Level")], x);
    TextCat(b, [OpenLine("Level")]);
  }

  lemma LevelKey(level: string)
    requires Searchable(level)
    ensures "\t\t\t\tLevelName=\"" + level == "\t\t\t\tLevelName" + "=" + ("\"" + level)
    ensures SearchKey("\t\t\t\tLevelName", "\"" + level)
  {
  }

  lemma LevelAligned(e: Entry, n: nat, level: string)
    requires e.Level? && EntryOk(e) && '"' !in level && level <= e.name
    ensures Aligned(LevelOpen(e, n)[1], "\t\t\t\tLevelName", "\"" + level) && |Head(LevelOpen(e, n)[1])| == 13
  {
    var l := LevelOpen(e, n)[1];
    LevelLinesOk(e, n);
    TabbedKeys();
    AlignedTabs(l, 4, "LevelName", "\"" + level);
    QuotedPrefix(level, e.name);
  }

  lemma LocateLevelEnd(f: MetaFile, i: nat, j: nat)
    requires LevelSite(f, i, j)
    ensures FieldBeg(f, i, j) <= |Print(f)|
    ensures StrStr(Print(f), "\t\t\tEND_GROUP=Level_", FieldBeg(f, i, j)) == At(FieldPos(f, i, j))
  {
    var e, q := Levels(f, i)[j], LinesQ(f, i, j);
    LevelText(f, i, j);
    LevelLinesOk(e, j);
    LinesQQuiet(e, j);
    LevelEndAligned(j);
    var pre := Text(LinesA(f, Point, i)) + Text(LinesP(f, i, j));
    FindIn(Print(f), "\t\t\tEND_GROUP=Level_", pre, q, LevelEnd(j), AfterLevel(f, i, j),
           "\t\t\tEND_GROUP", "Level_", FieldBeg(f, i, j), FieldPos(f, i, j));
  }

  lemma LevelEndAligned(j: nat)
    ensures Aligned(LevelEnd(j), "\t\t\tEND_GROUP", "Level_") && |Head(LevelEnd(j))| == 12 && Shaped(LevelEnd(j))
    ensures "\t\t\tEND_GROUP=Level_" == "\t\t\tEND_GROUP" + "=" + "Level_" && SearchKey("\t\t\tEND_GROUP", "Level_")
  {
    InertTag("Level_", j);
    LevelTag(j);
    GroupLineOk(LevelEnd(j));
    GroupAligned(LevelEnd(j), "\t\t\tEND_GROUP", "Level_");
    LevelEndKey();
  }

  lemma LevelTag(j: nat)
    ensures Numbered("Level", j) == "Level_" + Dec(j) && "Level_" <= Numbered("Level", j)
  {
  }

  lemma LevelEndKey()
    ensures "\t\t\tEND_GROUP=Level_" == "\t\t\tEND_GROUP" + "=" + "Level_" && SearchKey("\t\t\tEND_GROUP", "Level_")
  {
  }

  lemma LinesQQuiet(e: Entry, j: nat)
    requires e.Level? && EntryOk(e)
    ensures var q := [LevelOpen(e, j)[1]] + PFieldLines(e.fields);
            AllQuiet(q, "\t\t\tEND_GROUP", "Level_") && AllShaped(q) && LinesOk(q)
  {
    var n := LevelOpen(e, j)[1];
    LevelLinesOk(e, j);
    GroupAligned(n, "\t\t\tEND_GROUP", "Level_");
    InertQuiet(n.val, "\t\t\tEND_GROUP", "Level_");
    forall l | l in PFieldLines(e.fields) ensures Quiet(l, "\t\t\tEND_GROUP", "Level_") && LineOk(l) {
      TameQuietGroup(l, "\t\t\tEND_GROUP", "Level_");
    }
  }

  lemma {:induction false} PFieldKeyCount(ps: seq<PField>)
    requires forall p <- ps :: PFieldOk(p)
    ensures KeyCount(PFieldLines(ps), "END_OBJECT") == |ps|
  {
    if ps != [] {
      var p := ps[|ps| - 1];
      PFieldKeyCount(ps[..|ps| - 1]);
      PFieldAttrsOk(p);
      ObjectKeyCount(4, Numbered("PointField", |ps|), PFieldAttrs(p));
      KeyCountCat(PFieldLines(ps[..|ps| - 1]), ObjectLines(4, Numbered("PointField", |ps|), PFieldAttrs(p)), "END_OBJECT");
    }
  }

  /** The counting loop from the level's name to its end returns its number of
      fields. */
  lemma FieldCount(f: MetaFile, i: nat, j: nat)
    requires LevelSite(f, i, j)
    ensures Counted(Print(f), At(FieldBeg(f, i, j)), At(FieldPos(f, i, j)), "END_OBJECT") == |Levels(f, i)[j].fields|
  {
    var e, q := Levels(f, i)[j], LinesQ(f, i, j);
    LevelText(f, i, j);
    LinesQQuiet(e, j);
    InertCount(q, "END_OBJECT");
    KeyCountCat([LevelOpen(e, j)[1]], PFieldLines(e.fields), "END_OBJECT");
    KeyCount1(LevelOpen(e, j)[1], "END_OBJECT");
    PFieldKeyCount(e.fields);
    Assoc(Text(LinesA(f, Point, i)) + Text(LinesP(f, i, j)) + Text(q), LineText(LevelEnd(j)), AfterLevel(f, i, j));
    CountIn(Print(f), Text(LinesA(f, Point, i)), Text(LinesP(f, i, j)), q, LineText(LevelEnd(j)) + AfterLevel(f, i, j), "END_OBJECT",
            FieldBeg(f, i, j), FieldPos(f, i, j), |e.fields|);
  }

  // -------------------------------------------------------------- the new tree

  function WithField(f: MetaFile, i: nat, j: nat, p: PField): MetaFile
    requires LevelSite(f, i, j)
  {
    var s := f.Of(Point)[i];
    WithStruct(f, Point, i, s.(groups := s.groups[0 := AddField(s.groups[0], j, p)]))
  }

  lemma FieldStable(s: Struct, j: nat, p: PField)
    requires StructOk(Point, s) && j < |s.groups[0]| && s.groups[0][j].Level? && PFieldOk(p)
    ensures StructOk(Point, s.(groups := s.groups[0 := AddField(s.groups[0], j, p)]))
    ensures GroupOk("Level", AddField(s.groups[0], j, p))
  {
    LevelName();
    var es := s.groups[0];
    var es' := AddField(es, j, p);
    assert GroupOk(Schema(Point)[0], es);
    forall e | e in es' ensures EntryOk(e) && GroupOf(e) == "Level" {
      if e == es'[j] {
        assert EntryOk(es[j]);
        assert forall x <- e.fields :: x in es[j].fields || x == p;
      } else {
        assert e in es;
      }
    }
    var s' := s.(groups := s.groups[0 := es']);
    forall m | 0 <= m < |s'.groups| ensures GroupOk(Schema(Point)[m], s'.groups[m]) {
      assert GroupOk(Schema(Point)[m], s.groups[m]);
    }
  }

  lemma FieldOk(f: MetaFile, i: nat, j: nat, p: PField, f': MetaFile)
    requires LevelSite(f, i, j) && PFieldOk(p) && f' == WithField(f, i, j, p)
    ensures FileOk(f') && WellShaped(f') && LevelSite(f', i, j) && LinesA(f', Point, i) == LinesA(f, Point, i)
    ensures Levels(f', i) == AddField(Levels(f, i), j, p) && Rest(f', Point, i, 1) == Rest(f, Point, i, 1)
    ensures LinesB(Point, f'.Of(Point)[i], 0) == LinesB(Point, f.Of(Point)[i], 0)
  {
    var s := f.Of(Point)[i];
    var s' := s.(groups := s.groups[0 := AddField(s.groups[0], j, p)]);
    FieldStable(s, j, p);
    FrameStable(f, Point, i, s');
    LevelSiteOk(f', i, j);
    assert s'.groups[1..] == s.groups[1..] && s'.groups[..0] == s.groups[..0];
  }

  lemma FieldLines(f: MetaFile, i: nat, j: nat, p: PField, f': MetaFile)
    requires LevelSite(f, i, j) && PFieldOk(p) && f' == WithField(f, i, j, p)
    ensures LevelSite(f', i, j) && LinesP(f', i, j) == LinesP(f, i, j) && AfterLevel(f', i, j) == AfterLevel(f, i, j)
    ensures LinesQ(f', i, j) == LinesQ(f, i, j) + NewField(f, i, j, p)
  {
    FieldOk(f, i, j, p, f');
    LevelLines(Levels(f, i), j, p);
  }

  /** The lines around the fields of a level, before and after one is added. */
  lemma LevelLines(es: seq<Entry>, j: nat, p: PField)
    requires j < |es| && es[j].Level?
    ensures var es' := AddField(es, j, p);
            && es'[..j] == es[..j] && EntriesFrom(es', j + 1) == EntriesFrom(es, j + 1) && LevelOpen(es'[j], j) == LevelOpen(es[j], j)
            && [LevelOpen(es[j], j)[1]] + PFieldLines(es'[j].fields)
               == ([LevelOpen(es[j], j)[1]] + PFieldLines(es[j].fields))
                  + ObjectLines(4, Numbered("PointField", |es[j].fields| + 1), PFieldAttrs(p))
  {
    var fs, es' := es[j].fields, AddField(es, j, p);
    FromStable(es, es', j + 1);
    assert es'[j].fields == fs + [p] && (fs + [p])[..|fs|] == fs;
    Assoc([LevelOpen(es[j], j)[1]], PFieldLines(fs), ObjectLines(4, Numbered("PointField", |fs| + 1), PFieldAttrs(p)));
  }

  function NewField(f: MetaFile, i: nat, j: nat, p: PField): seq<Line>
    requires LevelSite(f, i, j)
  {
    ObjectLines(4, Numbered("PointField", |Levels(f, i)[j].fields| + 1), PFieldAttrs(p))
  }

  lemma FieldFrame(f: MetaFile, i: nat, j: nat, p: PField, f': MetaFile)
    requires LevelSite(f, i, j) && PFieldOk(p) && f' == WithField(f, i, j, p)
    ensures FileOk(f') && WellShaped(f') && FieldPos(f, i, j) <= |Print(f)|
    ensures Print(f') == Splice(Print(f), Edit(FieldPos(f, i, j), Text(NewField(f, i, j, p))))
  {
    FieldOk(f, i, j, p, f');
    FieldLines(f, i, j, p, f');
    LevelText(f, i, j);
    LevelText(f', i, j);
    var a, b, q, x := Text(LinesA(f, Point, i)), Text(LinesP(f, i, j)), Text(LinesQ(f, i, j)), Text(NewField(f, i, j, p));
    TextCat(LinesQ(f, i, j), NewField(f, i, j, p));
    Assoc(a + b, q, x);
    Assoc(a + b + q, LineText(LevelEnd(j)), AfterLevel(f, i, j));
    Assoc(a + b + q + x, LineText(LevelEnd(j)), AfterLevel(f, i, j));
    Spliced(a + b + q, x, LineText(LevelEnd(j)) + AfterLevel(f, i, j));
  }

  lemma SwitchField(t: string, at: nat, c: Call, level: string, r: Option<Place>)
    requires FindStart(t, c) == At(at) && at <= |t| && c.metacode == 11
    requires CutAt(c.metastr, ':').Some? && CutAt(c.metastr, ':').value.1 == level && PointFieldPlace(t, at, level) == r
    ensures PlaceOf(t, c) == r
  {
    SwitchCode11(t, at, c, level);
  }

  lemma FieldPlaceIs(t: string, at: nat, level: string, beg: nat, end: nat, n: int)
    requires at <= |t| && Fits("\t\t\t\tLevelName=\"" + level).Some?
    requires StrStr(t, "\t\t\t\tLevelName=\"" + level, at) == At(beg) && beg <= |t|
    requires StrStr(t, "\t\t\tEND_GROUP=Level_", beg) == At(end) && Counted(t, At(beg), At(end), "END_OBJECT") == n
    ensures PointFieldPlace(t, at, level) == Some(Place(end, n + 1))
  {
  }

  lemma SwitchCode11(t: string, p: nat, c: Call, level: string)
    requires p <= |t| && c.metacode == 11 && CutAt(c.metastr, ':').Some? && CutAt(c.metastr, ':').value.1 == level
    ensures PlaceAt(t, p, c) == PointFieldPlace(t, p, level)
  {
  }

  lemma FieldPlace(f: MetaFile, i: nat, j: nat, level: string)
    requires LevelSite(f, i, j) && Searchable(level) && level <= Levels(f, i)[j].name
    requires forall m | 0 <= m < j :: Levels(f, i)[m].Level? ==> !(level <= Levels(f, i)[m].name)
    ensures NamePos(f, Point, i) <= |Print(f)|
    ensures PointFieldPlace(Print(f), NamePos(f, Point, i), level) == Some(Place(FieldPos(f, i, j), |Levels(f, i)[j].fields| + 1))
  {
    var at, beg, end, n := NamePos(f, Point, i), FieldBeg(f, i, j), FieldPos(f, i, j), |Levels(f, i)[j].fields|;
    LevelStart(f, i, j, level, at, beg);
    LevelEnds(f, i, j, beg, end, n);
    FieldPlaceIs(Print(f), at, level, beg, end, n);
  }

  lemma LevelStart(f: MetaFile, i: nat, j: nat, level: string, at: nat, beg: nat)
    requires LevelSite(f, i, j) && Searchable(level) && level <= Levels(f, i)[j].name && at == NamePos(f, Point, i) && beg == FieldBeg(f, i, j)
    requires forall m | 0 <= m < j :: Levels(f, i)[m].Level? ==> !(level <= Levels(f, i)[m].name)
    ensures at <= |Print(f)| && Fits("\t\t\t\tLevelName=\"" + level).Some?
    ensures StrStr(Print(f), "\t\t\t\tLevelName=\"" + level, at) == At(beg)
  {
    LocateLevel(f, i, j, level);
  }

  lemma LevelEnds(f: MetaFile, i: nat, j: nat, beg: nat, end: nat, n: int)
    requires LevelSite(f, i, j) && beg == FieldBeg(f, i, j) && end == FieldPos(f, i, j) && n == |Levels(f, i)[j].fields|
    ensures beg <= |Print(f)| && StrStr(Print(f), "\t\t\tEND_GROUP=Level_", beg) == At(end)
    ensures Counted(Print(f), At(beg), At(end), "END_OBJECT") == n
  {
    LocateLevelEnd(f, i, j);
    FieldCount(f, i, j);
  }

  /** The place and the segment of a field's insertion. */
  lemma FieldCalled(f: MetaFile, i: nat, j: nat, nm: string, level: string, p: PField)
    requires LevelSite(f, i, j) && Searchable(nm) && Searchable(level) && FirstStruct(f.Of(Point), nm) == At(i)
    requires FirstLevel(Levels(f, i), level) == At(j) && PFieldOk(p) && |Text(NewField(f, i, j, p))| < UTLSTRSIZE
    ensures var c, n := CallOf(AddPointField(nm, level, p)), |Levels(f, i)[j].fields| + 1;
            PlaceOf(Print(f), c) == Some(Place(FieldPos(f, i, j), n)) && SegOf(c, n) == Some(Text(NewField(f, i, j, p)))
  {
    var c := CallOf(AddPointField(nm, level, p));
    var n := |Levels(f, i)[j].fields|;
    LocateStart(f, c, i);
    FieldPlace(f, i, j, level);
    NameChars(p.name);
    CutAtIs(p.name, ':', level);
    SwitchField(Print(f), NamePos(f, Point, i), c, level, Some(Place(FieldPos(f, i, j), n + 1)));
    PointFieldSegIs(nm, level, p, n + 1);
  }

  /** Inserting a field's text is appending the field to its level. */
  lemma RefineField(f: MetaFile, i: nat, j: nat, nm: string, level: string, p: PField)
    requires LevelSite(f, i, j) && Searchable(nm) && Searchable(level) && FirstStruct(f.Of(Point), nm) == At(i)
    requires FirstLevel(Levels(f, i), level) == At(j) && PFieldOk(p) && |Text(NewField(f, i, j, p))| < UTLSTRSIZE
    ensures var f' := WithField(f, i, j, p);
            FileOk(f') && WellShaped(f') && InsertText(Print(f), CallOf(AddPointField(nm, level, p))) == Some(Print(f'))
  {
    var c := CallOf(AddPointField(nm, level, p));
    var n := |Levels(f, i)[j].fields|;
    FieldCalled(f, i, j, nm, level, p);
    FieldFrame(f, i, j, p, WithField(f, i, j, p));
    InsertIs(Print(f), c, FieldPos(f, i, j), n + 1, Text(NewField(f, i, j, p)));
  }
}
