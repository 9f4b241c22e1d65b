/** Where the searches of the metadata routines land in the printed tree. */
module MetaSearch {
  import opened CText
  import opened ListText
  import opened OdlLines
  import opened OdlCount
  import opened MetaTree
  import opened MetaLines

  // ---------------------------------------------------- the tree around a place

  function Before(f: MetaFile, k: Kind): seq<Line>
    requires WellShaped(f)
  {
    match k
    case Swath => []
    case Grid => SectionLines(Swath, f.swaths)
    case Point => SectionLines(Swath, f.swaths) + SectionLines(Grid, f.grids)
  }

  function After(f: MetaFile, k: Kind): seq<Line>
    requires WellShaped(f)
  {
    match k
    case Swath => SectionLines(Grid, f.grids) + SectionLines(Point, f.points)
    case Grid => SectionLines(Point, f.points)
    case Point => []
  }

  /** The lines before structure i of kind k. */
  function Upto(f: MetaFile, k: Kind, i: nat): seq<Line>
    requires WellShaped(f) && i <= |f.Of(k)|
  {
    assert Schematic(k, f.Of(k));
    Before(f, k) + [RootLine(k)] + StructsLines(k, f.Of(k)[..i])
  }

  /** The lines from structure i of kind k on. */
  function From(f: MetaFile, k: Kind, i: nat): seq<Line>
    requires WellShaped(f) && i <= |f.Of(k)|
  {
    assert Schematic(k, f.Of(k));
    StructsLines(k, f.Of(k)[i..]) + [RootEnd(k)] + After(f, k)
  }

  lemma {:induction false} StructsSplit(k: Kind, a: seq<Struct>, b: seq<Struct>)
    requires Schematic(k, a) && Schematic(k, b)
    ensures Schematic(k, a + b)
    ensures StructsLines(k, a + b) == StructsLines(k, a) + StructsLines(k, b)
  {
    if a == [] {
      assert a + b == b;
    } else {
      var ab := a + b;
      assert ab[1..] == a[1..] + b && ab[0] == a[0];
      StructsSplit(k, a[1..], b);
      Assoc(StructLines(k, a[0]), StructsLines(k, a[1..]), StructsLines(k, b));
    }
  }

  lemma FileSplit(f: MetaFile, k: Kind, i: nat)
    requires WellShaped(f) && i <= |f.Of(k)|
    ensures FileLines(f) == Upto(f, k, i) + From(f, k, i)
  {
    FileSections(f, k);
    SectionSplit(k, f.Of(k), i);
    Regroup(Before(f, k), [RootLine(k)], StructsLines(k, f.Of(k)[..i]), StructsLines(k, f.Of(k)[i..]), [RootEnd(k)], After(f, k));
  }

  lemma FileSections(f: MetaFile, k: Kind)
    requires WellShaped(f)
    ensures Schematic(k, f.Of(k))
    ensures FileLines(f) == Before(f, k) + SectionLines(k, f.Of(k)) + After(f, k)
  {
    Assoc(SectionLines(Swath, f.swaths), SectionLines(Grid, f.grids), SectionLines(Point, f.points));
  }

  lemma SectionSplit(k: Kind, ss: seq<Struct>, i: nat)
    requires Schematic(k, ss) && i <= |ss|
    ensures SectionLines(k, ss) == [RootLine(k)] + (StructsLines(k, ss[..i]) + StructsLines(k, ss[i..])) + [RootEnd(k)]
  {
    assert ss == ss[..i] + ss[i..];
    StructsSplit(k, ss[..i], ss[i..]);
  }

  lemma Regroup<T>(a: seq<T>, b: seq<T>, c: seq<T>, d: seq<T>, e: seq<T>, z: seq<T>)
    ensures a + (b + (c + d) + e) + z == (a + b + c) + (d + e + z)
  {
  }

  lemma FromHead(f: MetaFile, k: Kind, i: nat)
    requires WellShaped(f) && i < |f.Of(k)|
    ensures From(f, k, i) == StructLines(k, f.Of(k)[i]) + From(f, k, i + 1)
  {
    StructsHead(k, f.Of(k), i);
    Assoc(StructLines(k, f.Of(k)[i]), StructsLines(k, f.Of(k)[i + 1..]), [RootEnd(k)]);
    Assoc(StructLines(k, f.Of(k)[i]), StructsLines(k, f.Of(k)[i + 1..]) + [RootEnd(k)], After(f, k));
  }

  lemma StructsHead(k: Kind, ss: seq<Struct>, i: nat)
    requires Schematic(k, ss) && i < |ss|
    ensures StructsLines(k, ss[i..]) == StructLines(k, ss[i]) + StructsLines(k, ss[i + 1..])
  {
    assert ss[i..][1..] == ss[i + 1..] && ss[i..][0] == ss[i];
  }

  lemma {:induction false} GroupsSplit(na: seq<string>, ga: seq<seq<Entry>>, nb: seq<string>, gb: seq<seq<Entry>>)
    requires |na| == |ga| && |nb| == |gb|
    ensures GroupsLines(na + nb, ga + gb) == GroupsLines(na, ga) + GroupsLines(nb, gb)
  {
    if na == [] {
      assert na + nb == nb && ga + gb == gb;
    } else {
      assert (na + nb)[1..] == na[1..] + nb && (ga + gb)[1..] == ga[1..] + gb;
      GroupsSplit(na[1..], ga[1..], nb, gb);
    }
  }

  /** The lines of a structure before, and after, its group number g. */
  function GroupLead(k: Kind, s: Struct, g: nat): seq<Line>
    requires |s.groups| == |Schema(k)| && g <= |s.groups|
  {
    AttrLines(2, s.params) + GroupsLines(Schema(k)[..g], s.groups[..g])
  }

  function GroupRest(k: Kind, s: Struct, g: nat): seq<Line>
    requires |s.groups| == |Schema(k)| && g <= |s.groups|
  {
    GroupsLines(Schema(k)[g..], s.groups[g..]) + [Line(1, "END_GROUP", OpenName(k) + Dec(s.id))]
  }

  lemma StructSplit(k: Kind, s: Struct, g: nat)
    requires |s.groups| == |Schema(k)| && g <= |s.groups|
    ensures StructLines(k, s) == StructHead(k, s) + GroupLead(k, s, g) + GroupRest(k, s, g)
  {
    var ns := Schema(k);
    assert ns == ns[..g] + ns[g..] && s.groups == s.groups[..g] + s.groups[g..];
    GroupsSplit(ns[..g], s.groups[..g], ns[g..], s.groups[g..]);
    Regroup4(StructHead(k, s), AttrLines(2, s.params), GroupsLines(ns[..g], s.groups[..g]), GroupsLines(ns[g..], s.groups[g..]),
             [Line(1, "END_GROUP", OpenName(k) + Dec(s.id))]);
  }

  lemma Regroup4<T>(a: seq<T>, b: seq<T>, c: seq<T>, d: seq<T>, e: seq<T>)
    ensures a + b + (c + d) + e == a + (b + c) + (d + e)
  {
  }

  lemma GroupRestHead(k: Kind, s: Struct, g: nat)
    requires |s.groups| == |Schema(k)| && g < |s.groups|
    ensures GroupRest(k, s, g) == GroupLines(Schema(k)[g], s.groups[g]) + GroupRest(k, s, g + 1)
  {
    assert Schema(k)[g..][1..] == Schema(k)[g + 1..] && s.groups[g..][1..] == s.groups[g + 1..];
  }

  // ------------------------------------------------- well-formed lines all over

  lemma SchemaNames(k: Kind, g: string)
    requires g in Schema(k)
    ensures g in {"Dimension", "DimensionMap", "IndexDimensionMap", "GeoField", "DataField", "MergedFields", "Level", "LevelLink"}
    ensures Inert(g)
  {
    InertName(g);
  }

  lemma InertName(g: string)
    requires g in {"Dimension", "DimensionMap", "IndexDimensionMap", "GeoField", "DataField", "MergedFields", "Level", "LevelLink"}
    ensures Inert(g)
  {
    PlainName(g);
    InertPlain(g);
  }

  lemma PlainName(g: string)
    requires g in {"Dimension", "DimensionMap", "IndexDimensionMap", "GeoField", "DataField", "MergedFields", "Level", "LevelLink"}
    ensures Plain(g)
  {
    if g == "Dimension" {
      PlainDimension();
    } else if g == "DimensionMap" {
      PlainMap();
    } else if g == "IndexDimensionMap" {
      PlainIndex();
    } else if g == "DataField" {
      PlainData();
    } else if g == "MergedFields" {
      PlainMerged();
    } else if g == "LevelLink" {
      PlainLink();
    } else {
      PlainShort();
    }
  }

  lemma GroupLinesOk(k: Kind, g: string, es: seq<Entry>)
    requires g in Schema(k) && GroupOk(g, es)
    ensures LinesOk(GroupLines(g, es))
  {
    SchemaNames(k, g);
    GroupLineOk(OpenLine(g));
    GroupLineOk(CloseLine(g));
    EntriesLinesOk(g, es);
  }

  lemma DimensionFirst(k: Kind)
    requires k != Point
    ensures Schema(k) != [] && Schema(k)[0] == "Dimension" && Schema(k)[0] != "Level"
  {
  }

  predicate GroupsOk(ns: seq<string>, gs: seq<seq<Entry>>) {
    |ns| == |gs| && forall i | 0 <= i < |ns| :: GroupOk(ns[i], gs[i])
  }

  lemma {:induction false} GroupsLinesOk(k: Kind, ns: seq<string>, gs: seq<seq<Entry>>)
    requires GroupsOk(ns, gs) && forall n <- ns :: n in Schema(k)
    ensures LinesOk(GroupsLines(ns, gs))
  {
    if ns != [] {
      assert ns[0] in ns;
      GroupLinesOk(k, ns[0], gs[0]);
      GroupsLinesOk(k, ns[1..], gs[1..]);
    }
  }

  lemma OpenNameOk(k: Kind, id: int)
    ensures Inert(OpenName(k) + Dec(id))
  {
    InertTag(OpenName(k), id);
  }

  lemma StructHeadOk(k: Kind, s: Struct)
    requires NameOk(s.name)
    ensures LinesOk(StructHead(k, s))
  {
    OpenNameOk(k, s.id);
    GroupLineOk(Line(1, "GROUP", OpenName(k) + Dec(s.id)));
    InertQuoted(s.name);
    NameLineOk(NameLine(k, s));
  }

  lemma StructEndOk(k: Kind, s: Struct)
    ensures LineOk(Line(1, "END_GROUP", OpenName(k) + Dec(s.id)))
  {
    OpenNameOk(k, s.id);
    GroupLineOk(Line(1, "END_GROUP", OpenName(k) + Dec(s.id)));
  }

  lemma StructLinesOk(k: Kind, s: Struct)
    requires StructOk(k, s)
    ensures LinesOk(StructLines(k, s))
  {
    StructHeadOk(k, s);
    StructEndOk(k, s);
    AttrLinesTame(2, s.params);
    GroupsLinesOk(k, Schema(k), s.groups);
  }

  lemma {:induction false} StructsLinesOk(k: Kind, ss: seq<Struct>)
    requires StructsOk(k, ss)
    ensures Schematic(k, ss) && LinesOk(StructsLines(k, ss))
  {
    if ss != [] {
      assert StructOk(k, ss[0]);
      StructLinesOk(k, ss[0]);
      StructsLinesOk(k, ss[1..]);
    }
  }

  lemma PlainRoot(k: Kind)
    ensures Plain(RootName(k))
  {
    match k
    case Swath => assert Plain("SwathStructure");
    case Grid => assert Plain("GridStructure");
    case Point => assert Plain("PointStructure");
  }

  lemma RootLinesOk(k: Kind)
    ensures LineOk(RootLine(k)) && LineOk(RootEnd(k))
  {
    PlainRoot(k);
    InertPlain(RootName(k));
    GroupLineOk(RootLine(k));
    GroupLineOk(RootEnd(k));
  }

  lemma SectionLinesOk(k: Kind, ss: seq<Struct>)
    requires StructsOk(k, ss)
    ensures Schematic(k, ss) && LinesOk(SectionLines(k, ss))
  {
    StructsLinesOk(k, ss);
    RootLinesOk(k);
  }

  lemma FileLinesOk(f: MetaFile)
    requires FileOk(f)
    ensures WellShaped(f) && LinesOk(FileLines(f))
  {
    SectionLinesOk(Swath, f.swaths);
    SectionLinesOk(Grid, f.grids);
    SectionLinesOk(Point, f.points);
  }

  lemma OfOk(f: MetaFile, k: Kind)
    requires FileOk(f)
    ensures WellShaped(f) && StructsOk(k, f.Of(k)) && Schematic(k, f.Of(k))
  {
    FileLinesOk(f);
  }

  lemma ShapedOfOk(ls: seq<Line>)
    requires LinesOk(ls)
    ensures AllShaped(ls) && AllKeyClean(ls, "END_OBJECT") && AllKeyClean(ls, "END_GROUP")
  {
  }

  /** A key with an equals sign does not start in the last line of the file. */
  lemma NotInEnd(t: string, a: string, b: string, x: nat)
    requires x >= |t|
    ensures !OccursAt(t + "END\n", a + "=" + b, x)
  {
    OccursIdx(t + "END\n", a + "=" + b, x, x + |a|);
    assert forall i | |t| <= i < |t| + 4 :: (t + "END\n")[i] == "END\n"[i - |t|];
    assert forall i | 0 <= i < 4 :: "END\n"[i] != '=';
  }

  // -------------------------------------------------------- quiet stretches

  /** A group name a search asks for is no prefix of this one, of a level label
      or of a structure label. */
  predicate Apart(k: Kind, b: string) { |b| >= 2 && b[..2] != OpenName(k)[..2] }

  lemma GroupLinesQuiet(k: Kind, g: string, es: seq<Entry>, a: string, b: string)
    requires g in Schema(k) && GroupOk(g, es) && GroupSearch(a) && NotLevel(b) && !(b <= g)
    ensures AllQuiet(GroupLines(g, es), a, b)
  {
    SchemaNames(k, g);
    GroupLinesOk(k, g, es);
    EntriesLinesOk(g, es);
    forall l | l in GroupLines(g, es) ensures Quiet(l, a, b) {
      if l in EntriesLines(es) {
        InEntryQuietGroup(l, a, b);
      } else {
        GroupEdgeQuiet(l, g, a, b);
      }
    }
  }

  /** The opening and the closing line of a group of another name. */
  lemma GroupEdgeQuiet(l: Line, g: string, a: string, b: string)
    requires (l == OpenLine(g) || l == CloseLine(g)) && Shaped(l) && Inert(g) && GroupSearch(a) && !(b <= g)
    ensures Quiet(l, a, b)
  {
    GroupAligned(l, a, b);
    InertQuiet(l.val, a, b);
  }

  lemma {:induction false} GroupsLinesQuiet(k: Kind, ns: seq<string>, gs: seq<seq<Entry>>, a: string, b: string)
    requires GroupsOk(ns, gs) && forall n <- ns :: n in Schema(k)
    requires GroupSearch(a) && NotLevel(b) && forall n <- ns :: !(b <= n)
    ensures AllQuiet(GroupsLines(ns, gs), a, b)
  {
    if ns != [] {
      assert ns[0] in ns;
      GroupLinesQuiet(k, ns[0], gs[0], a, b);
      assert forall n <- ns[1..] :: n in ns;
      GroupsLinesQuiet(k, ns[1..], gs[1..], a, b);
    }
  }

  lemma AttrLinesQuietGroup(n: nat, xs: seq<Attr>, a: string, b: string)
    requires AttrsOk(xs) && GroupSearch(a)
    ensures AllQuiet(AttrLines(n, xs), a, b)
  {
    AttrLinesTame(n, xs);
    forall l | l in AttrLines(n, xs) ensures Quiet(l, a, b) {
      TameQuietGroup(l, a, b);
    }
  }

  lemma OpenQuiet(k: Kind, s: Struct, l: Line, a: string, b: string)
    requires LineOk(l) && l.val == OpenName(k) + Dec(s.id) && GroupSearch(a) && Apart(k, b)
    ensures Quiet(l, a, b)
  {
    GroupAligned(l, a, b);
    InertQuiet(l.val, a, b);
    SharedStart(b, OpenName(k), l.val);
  }

  lemma SharedStart(b: string, c: string, v: string)
    requires |b| >= 2 && |c| >= 2 && c <= v && b[..2] != c[..2]
    ensures !(b <= v)
  {
    assert c[0] == v[0] && c[1] == v[1];
    assert b[0] != c[0] || b[1] != c[1];
  }

  lemma NameLineQuietGroup(k: Kind, s: Struct, a: string, b: string)
    requires NameOk(s.name) && GroupSearch(a)
    ensures Quiet(NameLine(k, s), a, b)
  {
    StructHeadOk(k, s);
    var l := NameLine(k, s);
    assert LineOk(l) by { assert StructHead(k, s)[1] == l; }
    GroupAligned(l, a, b);
    InertQuiet(l.val, a, b);
  }

  lemma StructQuietGroup(k: Kind, s: Struct, a: string, b: string)
    requires StructOk(k, s) && GroupSearch(a) && NotLevel(b) && Apart(k, b)
    requires forall n <- Schema(k) :: !(b <= n)
    ensures AllQuiet(StructLines(k, s), a, b)
  {
    StructHeadOk(k, s);
    StructEndOk(k, s);
    var open, close := StructHead(k, s)[0], Line(1, "END_GROUP", OpenName(k) + Dec(s.id));
    assert open in StructHead(k, s);
    OpenQuiet(k, s, open, a, b);
    OpenQuiet(k, s, close, a, b);
    NameLineQuietGroup(k, s, a, b);
    AttrLinesQuietGroup(2, s.params, a, b);
    GroupsLinesQuiet(k, Schema(k), s.groups, a, b);
  }

  lemma {:induction false} StructsQuietGroup(k: Kind, ss: seq<Struct>, a: string, b: string)
    requires StructsOk(k, ss) && Schematic(k, ss) && GroupSearch(a) && NotLevel(b) && Apart(k, b)
    requires forall n <- Schema(k) :: !(b <= n)
    ensures AllQuiet(StructsLines(k, ss), a, b)
  {
    if ss != [] {
      assert StructOk(k, ss[0]);
      StructQuietGroup(k, ss[0], a, b);
      StructsQuietGroup(k, ss[1..], a, b);
    }
  }

  /** The name of a root group is no prefix of anything inside a section, nor of
      another root. */
  lemma RootApart(j: Kind, k: Kind)
    ensures NotLevel(RootName(k)) && Apart(j, RootName(k))
    ensures forall n <- Schema(j) :: !(RootName(k) <= n)
    ensures j != k ==> !(RootName(k) <= RootName(j))
  {
    var b := RootName(k);
    assert b[0] != 'L' && b[1] != OpenName(j)[1];
    forall n | n in Schema(j) ensures !(b <= n) {
      assert n in {"Dimension", "DimensionMap", "IndexDimensionMap", "GeoField", "DataField", "MergedFields", "Level", "LevelLink"};
      assert n[0] != b[0] || n[1] != b[1];
    }
    assert j != k ==> RootName(j)[0] != b[0];
    assert b[..2] != OpenName(j)[..2] by { assert b[..2][1] == b[1] && OpenName(j)[..2][1] == OpenName(j)[1]; }
  }

  lemma SectionQuiet(j: Kind, ss: seq<Struct>, a: string, k: Kind)
    requires j != k && StructsOk(j, ss) && Schematic(j, ss) && GroupSearch(a)
    ensures AllQuiet(SectionLines(j, ss), a, RootName(k))
  {
    var b := RootName(k);
    RootApart(j, k);
    StructsQuietGroup(j, ss, a, b);
    RootLinesOk(j);
    GroupAligned(RootLine(j), a, b);
    GroupAligned(RootEnd(j), a, b);
    InertQuiet(RootName(j), a, b);
  }

  lemma BeforeQuiet(f: MetaFile, k: Kind)
    requires FileOk(f) && WellShaped(f)
    ensures AllQuiet(Before(f, k), "GROUP", RootName(k)) && LinesOk(Before(f, k))
  {
    SectionLinesOk(Swath, f.swaths);
    SectionLinesOk(Grid, f.grids);
    match k
    case Swath =>
    case Grid =>
      SectionQuiet(Swath, f.swaths, "GROUP", k);
    case Point =>
      SectionQuiet(Swath, f.swaths, "GROUP", k);
      SectionQuiet(Grid, f.grids, "GROUP", k);
  }

  // names

  lemma QuotedPrefix(nm: string, name: string)
    requires '"' !in nm
    ensures "\"" + nm <= Quoted(name) <==> nm <= name
  {
    var b, v := "\"" + nm, Quoted(name);
    assert v[|name| + 1] == '"' && (|name| < |nm| ==> b[|name| + 1] == nm[|name|]);
    NotQuote(nm, |name|);
    if b <= v {
      assert |nm| <= |name|;
      assert v[..|b|][1..] == name[..|nm|];
    }
    if nm <= name {
      var rest := name[|nm|..];
      assert name == nm + rest && v == b + (rest + "\"");
    }
  }

  lemma NotQuote(s: string, i: nat)
    requires '"' !in s
    ensures i < |s| ==> s[i] != '"'
  {
  }

  lemma NotNameLine(l: Line, a: string, b: string)
    requires LineOk(l) && NameSearch(a, b) && (l.key == "GROUP" || l.key == "END_GROUP")
    ensures Quiet(l, a, b)
  {
    AlignedPlain(l, a, b);
    EndsWithChar(l.key, a, 1);
    InertQuiet(l.val, a, b);
  }

  lemma {:induction false} GroupsLinesQuietName(k: Kind, ns: seq<string>, gs: seq<seq<Entry>>, a: string, b: string)
    requires GroupsOk(ns, gs) && (forall n <- ns :: n in Schema(k)) && NameSearch(a, b)
    ensures AllQuiet(GroupsLines(ns, gs), a, b)
  {
    if ns != [] {
      var g, es := ns[0], gs[0];
      assert g in ns && GroupOk(g, es);
      GroupLinesOk(k, g, es);
      EntriesLinesOk(g, es);
      forall l | l in GroupLines(g, es) ensures Quiet(l, a, b) {
        assert LineOk(l);
        if l in EntriesLines(es) {
          InEntryQuietName(l, a, b);
        } else {
          NotNameLine(l, a, b);
        }
      }
      GroupsLinesQuietName(k, ns[1..], gs[1..], a, b);
    }
  }

  /** The line with another name. */
  lemma OtherName(k: Kind, s: Struct, nm: string)
    requires LineOk(NameLine(k, s)) && '"' !in nm && NameStart("\"" + nm) && !(nm <= s.name)
    ensures Quiet(NameLine(k, s), NameKey(k), "\"" + nm)
  {
    AlignedPlain(NameLine(k, s), NameKey(k), "\"" + nm);
    QuotedPrefix(nm, s.name);
    InertQuiet(Quoted(s.name), NameKey(k), "\"" + nm);
  }

  lemma StructQuietName(k: Kind, s: Struct, nm: string)
    requires StructOk(k, s) && '"' !in nm && NameStart("\"" + nm) && !(nm <= s.name)
    ensures AllQuiet(StructLines(k, s), NameKey(k), "\"" + nm)
  {
    var a, b := NameKey(k), "\"" + nm;
    HeadQuietName(k, s, nm);
    StructEndOk(k, s);
    NotNameLine(Line(1, "END_GROUP", OpenName(k) + Dec(s.id)), a, b);
    AttrLinesQuietName(2, s.params, a, b);
    GroupsLinesQuietName(k, Schema(k), s.groups, a, b);
  }

  lemma HeadQuietName(k: Kind, s: Struct, nm: string)
    requires StructOk(k, s) && '"' !in nm && NameStart("\"" + nm) && !(nm <= s.name)
    ensures AllQuiet(StructHead(k, s), NameKey(k), "\"" + nm)
  {
    StructHeadOk(k, s);
    assert StructHead(k, s)[0] in StructHead(k, s) && NameLine(k, s) in StructHead(k, s);
    NotNameLine(StructHead(k, s)[0], NameKey(k), "\"" + nm);
    OtherName(k, s, nm);
  }

  lemma AttrLinesQuietName(n: nat, xs: seq<Attr>, a: string, b: string)
    requires AttrsOk(xs) && NameSearch(a, b)
    ensures AllQuiet(AttrLines(n, xs), a, b)
  {
    AttrLinesTame(n, xs);
    forall l | l in AttrLines(n, xs) ensures Quiet(l, a, b) {
      TameQuietName(l, a, b);
    }
  }

  lemma {:induction false} StructsQuietName(k: Kind, ss: seq<Struct>, nm: string)
    requires StructsOk(k, ss) && Schematic(k, ss) && '"' !in nm && NameStart("\"" + nm) && forall s <- ss :: !(nm <= s.name)
    ensures AllQuiet(StructsLines(k, ss), NameKey(k), "\"" + nm)
  {
    if ss != [] {
      assert StructOk(k, ss[0]) && ss[0] in ss;
      StructQuietName(k, ss[0], nm);
      StructsQuietName(k, ss[1..], nm);
    }
  }
}
