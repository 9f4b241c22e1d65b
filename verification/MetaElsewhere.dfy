/** A field for a level that its point does not have: the search for the level is
    not bounded by the point and runs on into later ones. And which level of the point
    takes the fields of a level that PTdeflevel, the one caller with this code, has just
    inserted. */
module MetaElsewhere {
  import opened CText
  import opened OdlLines
  import opened MetaTree
  import opened MetaLines
  import opened MetaSearch
  import opened MetaEdit
  import opened MetaRequest
  import opened MetaLocate
  import opened MetaCalls
  import opened MetaRefine
  import opened MetaPointField
  import opened MetaTheorem
  import opened MetaFind

  /** The point has no level whose name starts with the requested one. */
  predicate NoLevel(s: Struct, level: string) { s.groups != [] && FirstLevel(s.groups[0], level) == Null }

  lemma LevelGroupQuiet(es: seq<Entry>, level: string)
    requires GroupOk("Level", es) && '"' !in level && FirstLevel(es, level) == Null
    ensures AllLevelQuiet(GroupLines("Level", es), level)
  {
    EarlierLevelsQuiet(es, level);
    PlainGroupLines("Level", level);
    GroupQuiet("Level", es, level);
  }

  lemma GroupQuiet(g: string, es: seq<Entry>, level: string)
    requires AllLevelQuiet(EntriesLines(es), level) && LevelQuiet(OpenLine(g), level) && LevelQuiet(CloseLine(g), level)
    ensures AllLevelQuiet(GroupLines(g, es), level)
  {
  }

  lemma PlainGroupLines(g: string, level: string)
    requires g in {"Level", "LevelLink"}
    ensures LevelQuiet(OpenLine(g), level) && LevelQuiet(CloseLine(g), level)
  {
    InertName(g);
    GroupLineOk(OpenLine(g));
    GroupLineOk(CloseLine(g));
    QuietUnless(OpenLine(g), level);
    QuietUnless(CloseLine(g), level);
  }

  lemma LinkGroupQuiet(es: seq<Entry>, level: string)
    requires GroupOk("LevelLink", es)
    ensures AllLevelQuiet(GroupLines("LevelLink", es), level)
  {
    EntriesLinesOk("LevelLink", es);
    TameLevelQuiet(EntriesLines(es), level);
    PlainGroupLines("LevelLink", level);
  }

  lemma PointGroups(s: Struct)
    requires StructOk(Point, s)
    ensures |s.groups| == 2 && GroupOk("Level", s.groups[0]) && GroupOk("LevelLink", s.groups[1])
    ensures GroupsLines(Schema(Point), s.groups) == GroupLines("Level", s.groups[0]) + GroupLines("LevelLink", s.groups[1])
  {
    assert GroupOk(Schema(Point)[0], s.groups[0]) && GroupOk(Schema(Point)[1], s.groups[1]);
    TwoGroups(Schema(Point), s.groups);
  }

  lemma TwoGroups(ns: seq<string>, gs: seq<seq<Entry>>)
    requires |ns| == |gs| == 2
    ensures GroupsLines(ns, gs) == GroupLines(ns[0], gs[0]) + GroupLines(ns[1], gs[1])
  {
    var none := GroupsLines(ns[1..][1..], gs[1..][1..]);
    assert none == [];
    assert GroupsLines(ns[1..], gs[1..]) == GroupLines(ns[1], gs[1]) + none;
  }

  lemma HeadQuiet(s: Struct, level: string)
    requires StructOk(Point, s)
    ensures AllLevelQuiet(StructHead(Point, s), level)
  {
    OpenLineOk(Point, s);
    QuietUnless(StructHead(Point, s)[0], level);
    QuietUnless(NameLine(Point, s), level);
  }

  lemma StructLevelQuiet(s: Struct, level: string)
    requires StructOk(Point, s) && '"' !in level && NoLevel(s, level)
    ensures AllLevelQuiet(StructLines(Point, s), level)
  {
    HeadQuiet(s, level);
    AttrLinesTame(2, s.params);
    TameLevelQuiet(AttrLines(2, s.params), level);
    PointGroups(s);
    LevelGroupQuiet(s.groups[0], level);
    LinkGroupQuiet(s.groups[1], level);
    StructEndOk(Point, s);
    QuietUnless(Line(1, "END_GROUP", OpenName(Point) + Dec(s.id)), level);
  }

  lemma {:induction false} StructsLevelQuiet(ss: seq<Struct>, level: string)
    requires StructsOk(Point, ss) && Schematic(Point, ss) && '"' !in level && forall s <- ss :: NoLevel(s, level)
    ensures AllLevelQuiet(StructsLines(Point, ss), level)
  {
    if ss != [] {
      assert StructOk(Point, ss[0]) && NoLevel(ss[0], level);
      StructLevelQuiet(ss[0], level);
      StructsLevelQuiet(ss[1..], level);
    }
  }

  // ------------------------------------------------------------- passing over

  /** Quiet lines hold no occurrence of the level's key. */
  lemma NoKeyIn(t: string, pre: string, ls: seq<Line>, post: string, level: string, x: nat)
    requires t == pre + Text(ls) + post && AllLevelQuiet(ls, level) && Searchable(level)
    requires |pre| <= x < |pre| + |Text(ls)|
    ensures !OccursAt(t, "\t\t\t\tLevelName=\"" + level, x)
  {
    LevelKey(level);
    NoneInQuiet(pre, ls, post, "\t\t\t\tLevelName", "\"" + level, x);
  }

  /** The lines from point i to the groups of point m. */
  function Passed(f: MetaFile, i: nat, m: nat): seq<Line>
    requires FileOk(f) && WellShaped(f) && i <= m < |f.Of(Point)| && Site(f, Point, m)
  {
    var ss := f.Of(Point);
    assert Schematic(Point, ss[i..m]);
    StructsLines(Point, ss[i..m]) + [StructHead(Point, ss[m])[0]] + LinesB(Point, ss[m], 0)
  }

  lemma PassedLines(f: MetaFile, i: nat, m: nat)
    requires FileOk(f) && WellShaped(f) && i <= m < |f.Of(Point)| && Site(f, Point, m)
    ensures LinesA(f, Point, m) + LinesB(Point, f.Of(Point)[m], 0) == Upto(f, Point, i) + Passed(f, i, m)
  {
    var ss := f.Of(Point);
    assert ss[..m] == ss[..i] + ss[i..m];
    StructsSplit(Point, ss[..i], ss[i..m]);
    PassChain(Before(f, Point) + [RootLine(Point)], StructsLines(Point, ss[..i]), StructsLines(Point, ss[i..m]),
              [StructHead(Point, ss[m])[0]], LinesB(Point, ss[m], 0));
  }

  lemma PassChain<T>(a: seq<T>, b: seq<T>, c: seq<T>, d: seq<T>, e: seq<T>)
    ensures (a + (b + c)) + d + e == (a + b) + (c + d + e)
  {
  }

  lemma PassedText(f: MetaFile, i: nat, m: nat)
    requires FileOk(f) && WellShaped(f) && i <= m < |f.Of(Point)| && Site(f, Point, m)
    ensures Print(f) == Text(Upto(f, Point, i)) + Text(Passed(f, i, m)) + Rest(f, Point, m, 0)
    ensures NamePos(f, Point, m) <= |Text(Upto(f, Point, i))| + |Text(Passed(f, i, m))| <= |Print(f)|
  {
    TextFrame(f, Point, m, 0);
    PassedLines(f, i, m);
    TextCat(LinesA(f, Point, m), LinesB(Point, f.Of(Point)[m], 0));
    TextCat(Upto(f, Point, i), Passed(f, i, m));
    NameLineLong(f, Point, m, 0);
  }

  lemma PassedQuiet(f: MetaFile, i: nat, m: nat, level: string)
    requires FileOk(f) && WellShaped(f) && i <= m < |f.Of(Point)| && Site(f, Point, m) && '"' !in level
    requires forall q | i <= q < m :: NoLevel(f.Of(Point)[q], level)
    ensures AllLevelQuiet(Passed(f, i, m), level)
  {
    var ss := f.Of(Point);
    OfOk(f, Point);
    forall s | s in ss[i..m] ensures NoLevel(s, level) && StructOk(Point, s) {
      var q :| 0 <= q < m - i && ss[i..m][q] == s;
      assert NoLevel(ss[i + q], level) && ss[i + q] in ss;
    }
    StructsLevelQuiet(ss[i..m], level);
    HeadQuiet(ss[m], level);
    PointHeadQuiet(ss[m], level);
  }

  lemma UptoBeforeName(f: MetaFile, i: nat)
    requires WellShaped(f) && i < |f.Of(Point)|
    ensures |Text(Upto(f, Point, i))| <= NamePos(f, Point, i)
  {
    TextCat(Upto(f, Point, i), [StructHead(Point, f.Of(Point)[i])[0]]);
  }

  /** From the name of point i the search finds what it finds from the name of
      point m, when the points between have no such level. */
  lemma SameSearch(f: MetaFile, i: nat, m: nat, level: string)
    requires FileOk(f) && WellShaped(f) && i <= m < |f.Of(Point)| && Site(f, Point, m) && Searchable(level)
    requires forall q | i <= q < m :: NoLevel(f.Of(Point)[q], level)
    ensures NamePos(f, Point, i) <= |Print(f)| && NamePos(f, Point, m) <= |Print(f)|
    ensures StrStr(Print(f), "\t\t\t\tLevelName=\"" + level, NamePos(f, Point, i))
         == StrStr(Print(f), "\t\t\t\tLevelName=\"" + level, NamePos(f, Point, m))
  {
    var t, pre, ls := Print(f), Text(Upto(f, Point, i)), Passed(f, i, m);
    var a, b := NamePos(f, Point, i), NamePos(f, Point, m);
    UptoBeforeName(f, i);
    PassedText(f, i, m);
    PassedQuiet(f, i, m, level);
    NamesOrdered(f, i, m);
    forall x: nat | a <= x < b ensures !OccursAt(t, "\t\t\t\tLevelName=\"" + level, x) {
      NoKeyIn(t, pre, ls, Rest(f, Point, m, 0), level, x);
    }
    SkipTo(t, "\t\t\t\tLevelName=\"" + level, a, b);
  }

  lemma NamesOrdered(f: MetaFile, i: nat, m: nat)
    requires FileOk(f) && WellShaped(f) && i <= m < |f.Of(Point)|
    ensures NamePos(f, Point, i) <= NamePos(f, Point, m)
  {
    if i < m {
      NamePosGrows(f, Point, i, m);
    }
  }

  lemma SamePlace(t: string, a: nat, b: nat, level: string)
    requires a <= |t| && b <= |t| && Fits("\t\t\t\tLevelName=\"" + level).Some?
    requires StrStr(t, "\t\t\t\tLevelName=\"" + level, a) == StrStr(t, "\t\t\t\tLevelName=\"" + level, b)
    ensures PointFieldPlace(t, a, level) == PointFieldPlace(t, b, level)
  {
  }

  /** EHinsertmeta puts the field into the first point from the requested one on that
      has such a level, whichever point that is. No interface calls it so. */
  lemma FieldGoesOn(f: MetaFile, i: nat, m: nat, j: nat, nm: string, level: string, p: PField)
    requires Site(f, Point, i) && LevelSite(f, m, j) && i <= m && Searchable(nm) && Searchable(level)
    requires FirstStruct(f.Of(Point), nm) == At(i) && (forall q | i <= q < m :: NoLevel(f.Of(Point)[q], level))
    requires FirstLevel(Levels(f, m), level) == At(j) && PFieldOk(p) && |Text(NewField(f, m, j, p))| < UTLSTRSIZE
    ensures var f' := WithField(f, m, j, p);
            FileOk(f') && WellShaped(f') && InsertText(Print(f), CallOf(AddPointField(nm, level, p))) == Some(Print(f'))
  {
    var c := CallOf(AddPointField(nm, level, p));
    var n := |Levels(f, m)[j].fields|;
    LocateStart(f, c, i);
    SameSearch(f, i, m, level);
    FieldPlace(f, m, j, level);
    SamePlace(Print(f), NamePos(f, Point, i), NamePos(f, Point, m), level);
    NameChars(p.name);
    CutAtIs(p.name, ':', level);
    SwitchField(Print(f), NamePos(f, Point, i), c, level, Some(Place(FieldPos(f, m, j), n + 1)));
    PointFieldSegIs(nm, level, p, n + 1);
    FieldFrame(f, m, j, p, WithField(f, m, j, p));
    InsertIs(Print(f), c, FieldPos(f, m, j), n + 1, Text(NewField(f, m, j, p)));
  }

  // ---------------------------------------------------------- no such level left

  /** The lines from point i to the end of the file. */
  function Tail(f: MetaFile, i: nat): seq<Line>
    requires WellShaped(f) && i <= |f.Of(Point)|
  {
    assert Schematic(Point, f.Of(Point)[i..]);
    StructsLines(Point, f.Of(Point)[i..]) + [RootEnd(Point)]
  }

  lemma TailText(f: MetaFile, i: nat)
    requires FileOk(f) && WellShaped(f) && i < |f.Of(Point)|
    ensures Print(f) == Text(Upto(f, Point, i)) + Text(Tail(f, i)) + "END\n"
  {
    FileSplit(f, Point, i);
    assert From(f, Point, i) == Tail(f, i);
    TextCat(Upto(f, Point, i), Tail(f, i));
  }

  lemma TailQuiet(f: MetaFile, i: nat, level: string)
    requires FileOk(f) && WellShaped(f) && i < |f.Of(Point)| && '"' !in level
    requires forall q | i <= q < |f.Of(Point)| :: NoLevel(f.Of(Point)[q], level)
    ensures AllLevelQuiet(Tail(f, i), level)
  {
    var ss := f.Of(Point);
    OfOk(f, Point);
    forall s | s in ss[i..] ensures NoLevel(s, level) && StructOk(Point, s) {
      var q :| 0 <= q < |ss| - i && ss[i..][q] == s;
      assert NoLevel(ss[i + q], level) && ss[i + q] in ss;
    }
    StructsLevelQuiet(ss[i..], level);
    RootLinesOk(Point);
    QuietUnless(RootEnd(Point), level);
  }

  lemma NoLevelFound(f: MetaFile, i: nat, level: string)
    requires FileOk(f) && WellShaped(f) && i < |f.Of(Point)| && Searchable(level)
    requires forall q | i <= q < |f.Of(Point)| :: NoLevel(f.Of(Point)[q], level)
    ensures NamePos(f, Point, i) <= |Print(f)|
    ensures StrStr(Print(f), "\t\t\t\tLevelName=\"" + level, NamePos(f, Point, i)) == Null
  {
    SiteOk(f, Point, i);
    PassedText(f, i, i);
    UptoBeforeName(f, i);
    TailText(f, i);
    TailQuiet(f, i, level);
    var pre, ls := Text(Upto(f, Point, i)), Tail(f, i);
    forall x: nat | NamePos(f, Point, i) <= x ensures !OccursAt(Print(f), "\t\t\t\tLevelName=\"" + level, x) {
      if x < |pre| + |Text(ls)| {
        NoKeyIn(Print(f), pre, ls, "END\n", level, x);
      } else {
        LevelKey(level);
        NotInEnd(pre + Text(ls), "\t\t\t\tLevelName", "\"" + level, x);
      }
    }
  }

  lemma NoPlaceForField(t: string, at: nat, level: string)
    requires at <= |t| && Fits("\t\t\t\tLevelName=\"" + level).Some? && StrStr(t, "\t\t\t\tLevelName=\"" + level, at) == Null
    ensures PointFieldPlace(t, at, level) == None
  {
  }

  lemma NoLevelPlace(f: MetaFile, i: nat, level: string)
    requires Site(f, Point, i) && Searchable(level) && forall q | i <= q < |f.Of(Point)| :: NoLevel(f.Of(Point)[q], level)
    ensures NamePos(f, Point, i) <= |Print(f)| && PointFieldPlace(Print(f), NamePos(f, Point, i), level) == None
  {
    NoLevelFound(f, i, level);
    NoPlaceForField(Print(f), NamePos(f, Point, i), level);
  }

  /** When no point from the requested one on has such a level there is no place
      for the field. */
  lemma FieldNowhere(f: MetaFile, i: nat, nm: string, level: string, p: PField)
    requires Site(f, Point, i) && Searchable(nm) && Searchable(level) && PFieldOk(p) && FirstStruct(f.Of(Point), nm) == At(i)
    requires forall q | i <= q < |f.Of(Point)| :: NoLevel(f.Of(Point)[q], level)
    ensures InsertText(Print(f), CallOf(AddPointField(nm, level, p))) == None
  {
    var c := FieldCall(nm, level, p);
    var at := StartAt(f, c, i);
    NoLevelPlace(f, i, level);
    NoFieldAt(Print(f), at, c, p.name, level);
  }

  lemma FieldCall(nm: string, level: string, p: PField) returns (c: Call)
    ensures c == CallOf(AddPointField(nm, level, p)) && c.structname == nm && c.kind == Point && c.metacode == 11 && c.metastr == p.name + ":" + level
  {
    c := CallOf(AddPointField(nm, level, p));
  }

  lemma StartAt(f: MetaFile, c: Call, i: nat) returns (at: nat)
    requires Site(f, Point, i) && Searchable(c.structname) && c.kind == Point && c.metacode == 11 && FirstStruct(f.Of(Point), c.structname) == At(i)
    ensures at == NamePos(f, Point, i) <= |Print(f)| && FindStart(Print(f), c) == At(at)
  {
    LocateStart(f, c, i);
    at := NamePos(f, Point, i);
  }

  lemma NoFieldAt(t: string, at: nat, c: Call, name: string, level: string)
    requires NameOk(name) && c.metacode == 11 && c.metastr == name + ":" + level
    requires FindStart(t, c) == At(at) && at <= |t| && PointFieldPlace(t, at, level) == None
    ensures InsertText(t, c) == None
  {
    NameChars(name);
    CutAtIs(name, ':', level);
    SwitchField(t, at, c, level, None);
  }

  // ------------------------------------------------------------------ PTdeflevel

  /** PTdeflevel inserts the level before its fields, so there the point has one. */
  lemma LevelJustInserted(f: MetaFile, r: Request, p: PField)
    requires Adds(f, r) && r.kind == Point && r.entry.Level?
    ensures WellShaped(Apply(f, r).value) && Apply(Apply(f, r).value, AddPointField(r.name, r.entry.name, p)).Some?
  {
    var f', i, es := LevelAppended(f, r);
    LevelAmong(es, r.entry);
    FieldPlaced(f', i, r.name, r.entry.name, p);
  }

  lemma LevelAppended(f: MetaFile, r: Request) returns (f': MetaFile, i: nat, es: seq<Entry>)
    requires Adds(f, r) && r.kind == Point && r.entry.Level?
    ensures Apply(f, r) == Some(f') && WellShaped(f') && FirstStruct(f'.Of(Point), r.name) == At(i)
    ensures f'.Of(Point)[i].groups != [] && f'.Of(Point)[i].groups[0] == es + [r.entry]
  {
    f', i := Apply(f, r).value, FirstStruct(f.Of(Point), r.name).pos;
    AppendedText(f, r);
    var g := AppendedTree(f, r, i);
    LevelGroupFirst(r.entry, g);
    es := f.Of(Point)[i].groups[g];
  }

  lemma LevelGroupFirst(e: Entry, g: nat)
    requires e.Level? && g < |Schema(Point)| && Schema(Point)[g] == GroupOf(e)
    ensures g == 0
  {
    assert |"LevelLink"| != |"Level"|;
  }

  lemma FieldPlaced(f: MetaFile, i: nat, nm: string, level: string, p: PField)
    requires WellShaped(f) && FirstStruct(f.Of(Point), nm) == At(i) && f.Of(Point)[i].groups != []
    requires FirstLevel(f.Of(Point)[i].groups[0], level).At?
    ensures Apply(f, AddPointField(nm, level, p)).Some?
  {
  }

  lemma LevelAmong(es: seq<Entry>, e: Entry)
    requires e.Level?
    ensures FirstLevel(es + [e], e.name).At?
  {
    assert e in es + [e] && e.name <= e.name;
  }

  function FieldAdds(nm: string, level: string, ps: seq<PField>): seq<Request> {
    seq(|ps|, m requires 0 <= m < |ps| => AddPointField(nm, level, ps[m]))
  }

  /** What PTdeflevel asks for: the level, then its fields. */
  function LevelRun(nm: string, level: string, ps: seq<PField>): seq<Request> {
    [AddEntry(Point, nm, Level(level, []))] + FieldAdds(nm, level, ps)
  }

  /** The levels with more fields in number j. */
  function Filled(es: seq<Entry>, j: nat, ps: seq<PField>): seq<Entry>
    requires j < |es| && es[j].Level?
  {
    es[j := Level(es[j].name, es[j].fields + ps)]
  }

  predicate NoneStarts(es: seq<Entry>, level: string) { forall e <- es :: e.Level? ==> !(level <= e.name) }

  lemma FieldAddsStep(nm: string, level: string, ps: seq<PField>)
    requires ps != []
    ensures FieldAdds(nm, level, ps) == [AddPointField(nm, level, ps[0])] + FieldAdds(nm, level, ps[1..])
  {
  }

  /** The levels of point i. */
  predicate LevelsAre(f: MetaFile, i: nat, es: seq<Entry>) { i < |f.points| && f.points[i].groups != [] && f.points[i].groups[0] == es }

  /** One field goes to the level that is found, and the same one is found again. */
  lemma FieldPut(f: MetaFile, i: nat, nm: string, level: string, p: PField, es: seq<Entry>, j: nat) returns (f': MetaFile)
    requires WellShaped(f) && FirstStruct(f.points, nm) == At(i) && LevelsAre(f, i, es) && FirstLevel(es, level) == At(j)
    ensures Apply(f, AddPointField(nm, level, p)) == Some(f') && FirstStruct(f'.points, nm) == At(i)
    ensures LevelsAre(f', i, Filled(es, j, [p])) && FirstLevel(Filled(es, j, [p]), level) == At(j)
  {
    f' := FieldApplied(f, i, nm, level, p, es, j);
    SameLevel(es, Filled(es, j, [p]), level, j);
  }

  lemma FieldApplied(f: MetaFile, i: nat, nm: string, level: string, p: PField, es: seq<Entry>, j: nat) returns (f': MetaFile)
    requires WellShaped(f) && FirstStruct(f.points, nm) == At(i) && LevelsAre(f, i, es) && FirstLevel(es, level) == At(j)
    ensures Apply(f, AddPointField(nm, level, p)) == Some(f') && FirstStruct(f'.points, nm) == At(i) && LevelsAre(f', i, Filled(es, j, [p]))
  {
    var s := f.points[i];
    var s' := s.(groups := s.groups[0 := AddField(es, j, p)]);
    f' := f.With(Point, f.points[i := s']);
    SameNames(f.points, f'.points, nm);
  }

  lemma SameLevel(a: seq<Entry>, b: seq<Entry>, level: string, j: nat)
    requires FirstLevel(a, level) == At(j) && |a| == |b| && b[j].Level? && b[j].name == a[j].name && forall m | 0 <= m < j :: b[m] == a[m]
    ensures FirstLevel(b, level) == At(j)
  {
    assert b[j] in b && level <= b[j].name;
  }

  lemma FilledMore(es: seq<Entry>, j: nat, ps: seq<PField>)
    requires j < |es| && es[j].Level? && ps != []
    ensures Filled(es, j, [ps[0]])[j].Level? && Filled(Filled(es, j, [ps[0]]), j, ps[1..]) == Filled(es, j, ps)
  {
    assert es[j].fields + [ps[0]] + ps[1..] == es[j].fields + ps;
  }

  lemma FilledNone(es: seq<Entry>, j: nat)
    requires j < |es| && es[j].Level?
    ensures Filled(es, j, []) == es
  {
    assert es[j].fields + [] == es[j].fields;
  }

  lemma RunHead(f: MetaFile, r: Request, rest: seq<Request>, f1: MetaFile)
    requires WellShaped(f) && ApplyAll(f, [r] + rest).Some? && Apply(f, r) == Some(f1)
    ensures WellShaped(f1) && ApplyAll(f, [r] + rest) == ApplyAll(f1, rest)
  {
    assert ([r] + rest)[1..] == rest;
  }

  /** All fields go to the same level. */
  lemma {:induction false} FieldsPut(f: MetaFile, g: MetaFile, i: nat, nm: string, level: string, ps: seq<PField>, es: seq<Entry>, j: nat)
    requires WellShaped(f) && FirstStruct(f.points, nm) == At(i) && LevelsAre(f, i, es) && FirstLevel(es, level) == At(j)
    requires ApplyAll(f, FieldAdds(nm, level, ps)) == Some(g)
    ensures LevelsAre(g, i, Filled(es, j, ps))
    decreases |ps|
  {
    if ps == [] {
      NonePut(f, g, i, nm, level, es, j);
    } else {
      var f1 := FirstPut(f, g, i, nm, level, ps, es, j);
      FilledMore(es, j, ps);
      FieldsPut(f1, g, i, nm, level, ps[1..], Filled(es, j, [ps[0]]), j);
    }
  }

  lemma NonePut(f: MetaFile, g: MetaFile, i: nat, nm: string, level: string, es: seq<Entry>, j: nat)
    requires WellShaped(f) && LevelsAre(f, i, es) && j < |es| && es[j].Level? && ApplyAll(f, FieldAdds(nm, level, [])) == Some(g)
    ensures LevelsAre(g, i, Filled(es, j, []))
  {
    FilledNone(es, j);
    NoRun(f, FieldAdds(nm, level, []));
  }

  lemma FirstPut(f: MetaFile, g: MetaFile, i: nat, nm: string, level: string, ps: seq<PField>, es: seq<Entry>, j: nat) returns (f1: MetaFile)
    requires WellShaped(f) && FirstStruct(f.points, nm) == At(i) && LevelsAre(f, i, es) && FirstLevel(es, level) == At(j)
    requires ps != [] && ApplyAll(f, FieldAdds(nm, level, ps)) == Some(g)
    ensures WellShaped(f1) && FirstStruct(f1.points, nm) == At(i) && ApplyAll(f1, FieldAdds(nm, level, ps[1..])) == Some(g)
    ensures LevelsAre(f1, i, Filled(es, j, [ps[0]])) && FirstLevel(Filled(es, j, [ps[0]]), level) == At(j)
  {
    FieldAddsStep(nm, level, ps);
    f1 := FieldPut(f, i, nm, level, ps[0], es, j);
    RunHead(f, AddPointField(nm, level, ps[0]), FieldAdds(nm, level, ps[1..]), f1);
  }

  lemma NoRun(f: MetaFile, rs: seq<Request>)
    requires WellShaped(f) && rs == []
    ensures ApplyAll(f, rs) == Some(f)
  {
  }

  lemma LevelRunOk(nm: string, level: string, ps: seq<PField>)
    requires SearchName(nm) && SearchName(level) && forall p <- ps :: PFieldOk(p)
    ensures forall r <- LevelRun(nm, level, ps) :: RequestOk(r)
  {
    forall r | r in FieldAdds(nm, level, ps) ensures RequestOk(r) {
      var m :| 0 <= m < |ps| && r == AddPointField(nm, level, ps[m]);
      assert ps[m] in ps;
    }
    LevelOk(nm, level);
  }

  lemma LevelOk(nm: string, level: string)
    requires SearchName(nm) && SearchName(level)
    ensures RequestOk(AddEntry(Point, nm, Level(level, [])))
  {
    assert Schema(Point)[0] == "Level";
  }

  /** Where the fields of a level just appended go: to the first one whose name starts
      with its name. */
  lemma LevelFound(es: seq<Entry>, level: string, ps: seq<PField>) returns (j: nat)
    ensures FirstLevel(es + [Level(level, [])], level) == At(j) && j <= |es| && (es + [Level(level, [])])[j].Level?
    ensures j == |es| <==> NoneStarts(es, level)
    ensures Filled(es + [Level(level, [])], j, ps) == es + [Level(level, ps)] <==> NoneStarts(es, level) || ps == []
  {
    var e := Level(level, []);
    LevelAmong(es, e);
    j := FirstLevel(es + [e], level).pos;
    assert forall m | 0 <= m < |es| :: (es + [e])[m] == es[m];
    assert forall x <- es :: x in es + [e];
    if j < |es| {
      assert es[j] in es;
      var more := Filled(es + [e], j, ps);
      assert more[|es|] == e && (es + [Level(level, ps)])[|es|] == Level(level, ps);
      if ps == [] {
        FilledNone(es + [e], j);
      }
    } else {
      assert [] + ps == ps;
    }
  }

  /** PTdeflevel: the fields land in the new level if and only if no earlier level of
      the point has a name that starts with its name. */
  lemma LevelDefined(f: MetaFile, i: nat, es: seq<Entry>, nm: string, level: string, ps: seq<PField>, run: seq<Request>)
    requires FileOk(f) && WellShaped(f) && SearchName(nm) && SearchName(level) && (forall p <- ps :: PFieldOk(p))
    requires FirstStruct(f.points, nm) == At(i) && LevelsAre(f, i, es) && run == LevelRun(nm, level, ps) && ApplyAll(f, run).Some?
    ensures var f' := ApplyAll(f, run).value;
            && FileOk(f') && WellShaped(f') && InsertAll(Print(f), run) == Some(Print(f'))
            && (LevelsAre(f', i, es + [Level(level, ps)]) <==> NoneStarts(es, level) || ps == [])
  {
    LevelRunOk(nm, level, ps);
    RefinementRun(f, run);
    LevelsLeft(f, i, nm, level, ps, es);
  }

  lemma LevelsLeft(f: MetaFile, i: nat, nm: string, level: string, ps: seq<PField>, es: seq<Entry>)
    requires WellShaped(f) && FirstStruct(f.points, nm) == At(i) && LevelsAre(f, i, es) && ApplyAll(f, LevelRun(nm, level, ps)).Some?
    ensures LevelsAre(ApplyAll(f, LevelRun(nm, level, ps)).value, i, es + [Level(level, ps)]) <==> NoneStarts(es, level) || ps == []
  {
    var f1 := LevelPut(f, i, nm, level, es);
    RunHead(f, AddEntry(Point, nm, Level(level, [])), FieldAdds(nm, level, ps), f1);
    var j := LevelFound(es, level, ps);
    FieldsPut(f1, ApplyAll(f, LevelRun(nm, level, ps)).value, i, nm, level, ps, es + [Level(level, [])], j);
  }

  lemma LevelPut(f: MetaFile, i: nat, nm: string, level: string, es: seq<Entry>) returns (f1: MetaFile)
    requires WellShaped(f) && FirstStruct(f.points, nm) == At(i) && LevelsAre(f, i, es)
    ensures Apply(f, AddEntry(Point, nm, Level(level, []))) == Some(f1) && FirstStruct(f1.points, nm) == At(i)
    ensures LevelsAre(f1, i, es + [Level(level, [])])
  {
    var e := Level(level, []);
    LevelIndex(e);
    f1 := f.With(Point, f.points[i := AppendEntry(f.points[i], 0, e)]);
    SameNames(f.points, f1.points, nm);
  }

  lemma LevelIndex(e: Entry)
    requires e.Level?
    ensures GroupIndex(Schema(Point), GroupOf(e)) == At(0)
  {
    assert Schema(Point)[0] == "Level";
  }

  /** A point whose level "AB" was defined first: the fields of level "A" end up there. */
  lemma PrefixLevelMisleads(f: MetaFile, i: nat, nm: string, fs: seq<PField>, ps: seq<PField>)
    requires FileOk(f) && WellShaped(f) && SearchName(nm) && FirstStruct(f.points, nm) == At(i) && (forall p <- ps :: PFieldOk(p))
    requires LevelsAre(f, i, [Level("AB", fs)]) && ApplyAll(f, LevelRun(nm, "A", ps)).Some?
    ensures SearchName("A") && LevelsAre(ApplyAll(f, LevelRun(nm, "A", ps)).value, i, [Level("AB", fs + ps), Level("A", [])])
  {
    LetterOk('A');
    var es, e := [Level("AB", fs)], Level("A", []);
    var f1 := LevelPut(f, i, nm, "A", es);
    RunHead(f, AddEntry(Point, nm, e), FieldAdds(nm, "A", ps), f1);
    PrefixFound(fs, ps, es, e, "A");
    FieldsPut(f1, ApplyAll(f, LevelRun(nm, "A", ps)).value, i, nm, "A", ps, es + [e], 0);
  }

  lemma PrefixFound(fs: seq<PField>, ps: seq<PField>, es: seq<Entry>, e: Entry, level: string)
    requires es == [Level("AB", fs)] && e == Level("A", []) && level == "A"
    ensures FirstLevel(es + [e], level) == At(0) && (es + [e])[0].Level? && Filled(es + [e], 0, ps) == [Level("AB", fs + ps), e]
  {
    assert "AB"[..1] == "A";
  }
}
