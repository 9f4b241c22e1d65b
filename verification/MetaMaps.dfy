/** SWmapinfo over the metadata: the offset and the increment of a dimension map,
    found by two whole lines and read by two lookups. */
module MetaMaps {
  import opened CText
  import opened ListText
  import opened OdlLines
  import opened MetaTree
  import opened MetaLines
  import opened MetaSearch
  import opened MetaEdit
  import opened MetaRequest
  import opened MetaCallers
  import opened MetaCalls
  import opened MetaLocate
  import opened MetaRefine
  import opened MetaLookup
  import opened MetaRead
  import opened MetaFind
  import opened MetaDims

  datatype MapData = MapData(status: int, offset: int, increment: int)

  const NO_MAP := MapData(-1, -1, -1)

  /** From the place of the map: Offset, and from where that was found Increment. */
  function MapAt(t: string, p: nat, end: Ptr): Option<MapData>
    requires p <= |t|
  {
    match ValueInto(t, p, end, "Offset", UTLSTR_MAX_SIZE)
    case None => None
    case Some(a) =>
      match ValueInto(t, if a.Found? then a.pos else p, end, "Increment", UTLSTR_MAX_SIZE)
      case None => None
      case Some(b) => Some(MapData(if a.Found? && b.Found? then 0 else -1, if a.Found? then Atoi(a.value) else -1,
                                   if b.Found? then Atoi(b.value) else -1))
  }

  /** None stands for a search from the null pointer or a value that overruns its
      buffer. */
  function MapInfo(t: string, name: string, geo: string, data: string): Option<MapData> {
    match MetaGroup(t, Swath, name, Some("DimensionMap"))
    case None => None
    case Some((beg, end)) =>
      if beg.Null? || beg.pos > |t| then None else
      match StrStr(t, Fmt512("\t\t\t\tGeoDimension=\"" + geo + "\"\n\t\t\t\tDataDimension=\"" + data + "\"\n"), beg.pos)
      case Null => Some(NO_MAP)
      case At(p) => if end.At? && p < end.pos then MapAt(t, p, end) else Some(NO_MAP)
  }

  // --------------------------------------------------------------- two whole lines

  function GeoLine(geo: string): Line { Line(4, "GeoDimension", Quoted(geo)) }

  function DataLine(data: string): Line { Line(4, "DataDimension", Quoted(data)) }

  function PairText(geo: string, data: string): string { LineText(GeoLine(geo)) + LineText(DataLine(data)) }

  lemma PairKey(geo: string, data: string) returns (key: string)
    requires SearchName(geo) && SearchName(data)
    ensures key == Fmt512("\t\t\t\tGeoDimension=\"" + geo + "\"\n\t\t\t\tDataDimension=\"" + data + "\"\n") == PairText(geo, data)
  {
    key := "\t\t\t\tGeoDimension=\"" + geo + "\"\n\t\t\t\tDataDimension=\"" + data + "\"\n";
    MidLiteral();
    assert Tabs(4) == "\t\t\t\t";
    var a := GeoText(geo);
    var b := DataText(data);
    PairChain("\t\t\t\tGeoDimension=\"", geo, "\"\n", "\t\t\t\tDataDimension=\"", data);
    assert key == a + b;
    assert |key| < UTLSTR_MAX_SIZE;
  }

  lemma MidLiteral()
    ensures "\"\n\t\t\t\tDataDimension=\"" == "\"\n" + "\t\t\t\tDataDimension=\""
  {
  }

  lemma PairChain(a: string, g: string, n: string, d: string, x: string)
    ensures a + g + (n + d) + x + n == (a + g + n) + (d + x + n)
  {
  }

  lemma GeoText(geo: string) returns (s: string)
    ensures s == "\t\t\t\tGeoDimension=\"" + geo + "\"\n" == LineText(GeoLine(geo))
  {
    assert Tabs(4) + "GeoDimension" + "=" + "\"" == "\t\t\t\tGeoDimension=\"";
    s := "\t\t\t\tGeoDimension=\"" + geo + "\"\n";
    assert s == (Tabs(4) + "GeoDimension" + "=" + "\"") + geo + ("\"" + "\n");
  }

  lemma DataText(data: string) returns (s: string)
    ensures s == "\t\t\t\tDataDimension=\"" + data + "\"\n" == LineText(DataLine(data))
  {
    assert Tabs(4) + "DataDimension" + "=" + "\"" == "\t\t\t\tDataDimension=\"";
    s := "\t\t\t\tDataDimension=\"" + data + "\"\n";
    assert s == (Tabs(4) + "DataDimension" + "=" + "\"") + data + ("\"" + "\n");
  }

  /** A line the first of the two could be found in. */
  predicate GeoHere(l: Line, geo: string) { Aligned(l, "\t\t\t\tGeoDimension", Quoted(geo)) }

  predicate NoPair(ls: seq<Line>, geo: string, data: string) {
    forall i | 0 <= i < |ls| :: GeoHere(ls[i], geo) ==> i + 1 < |ls| && LineText(ls[i + 1]) != LineText(DataLine(data))
  }

  lemma NoPairCat(a: seq<Line>, b: seq<Line>, geo: string, data: string)
    requires NoPair(a, geo, data) && NoPair(b, geo, data)
    ensures NoPair(a + b, geo, data)
  {
    forall i | 0 <= i < |a + b| && GeoHere((a + b)[i], geo)
      ensures i + 1 < |a + b| && LineText((a + b)[i + 1]) != LineText(DataLine(data))
    {
      if i < |a| {
        assert GeoHere(a[i], geo);
      } else {
        assert GeoHere(b[i - |a|], geo) && b[i - |a| + 1] == (a + b)[i + 1];
      }
    }
  }

  lemma GeoHereIff(l: Line, geo: string)
    requires Shaped(l)
    ensures GeoHere(l, geo) <==> l.key == "GeoDimension" && l.tabs >= 4 && Quoted(geo) <= l.val
  {
    assert Tabs(4) + "GeoDimension" == "\t\t\t\tGeoDimension";
    AlignedTabs(l, 4, "GeoDimension", Quoted(geo));
  }

  /** An occurrence of the two lines starts where a line's head and value are those
      of the first. */
  lemma PairStart(t: string, pre: string, l: Line, post: string, geo: string, data: string, x: nat)
    requires t == pre + LineText(l) + post && Shaped(l) && |pre| <= x < |pre| + |LineText(l)| && '\n' !in geo
    requires OccursAt(t, PairText(geo, data), x)
    ensures GeoHere(l, geo) && x + |LineText(GeoLine(geo))| == |pre| + |LineText(l)|
    ensures OccursAt(t, LineText(DataLine(data)), |pre| + |LineText(l)|)
  {
    var a, b, g, d := "\t\t\t\tGeoDimension", Quoted(geo), LineText(GeoLine(geo)), LineText(DataLine(data));
    var key := a + "=" + b;
    FirstPart(geo);
    Parts2(t, g, d, x);
    PrefixOccurs(t, key, "\n", x);
    NotContainsChar(l.val, key, 0);
    KeyOccurrence(pre, l, post, a, b, x - |pre|);
    LineChars(l);
    // the newline after the first line's value ends this line
    OccursIdx(t, key + "\n", x, x + |key|);
    assert t[x + |key|] == '\n';
    assert t[|pre| + (x + |key| - |pre|)] == LineText(l)[x + |key| - |pre|];
  }

  lemma FirstPart(geo: string)
    requires '\n' !in geo
    ensures LineText(GeoLine(geo)) == "\t\t\t\tGeoDimension" + "=" + Quoted(geo) + "\n"
    ensures SearchKey("\t\t\t\tGeoDimension", Quoted(geo)) && ("\t\t\t\tGeoDimension" + "=" + Quoted(geo))[0] == '\t'
  {
    assert Head(GeoLine(geo)) == "\t\t\t\tGeoDimension";
  }

  lemma Parts2(t: string, g: string, d: string, x: nat)
    requires OccursAt(t, g + d, x)
    ensures OccursAt(t, g, x) && OccursAt(t, d, x + |g|)
  {
    assert t[x..x + |g|] == t[x..x + |g + d|][..|g|] == g;
    assert t[x + |g|..x + |g| + |d|] == t[x..x + |g + d|][|g|..] == d;
  }

  lemma PrefixOccurs(t: string, k: string, e: string, x: nat)
    requires OccursAt(t, k + e, x)
    ensures OccursAt(t, k, x)
  {
    Parts2(t, k, e, x);
  }

  /** Two lines of text at the same place that both end at their first newline. */
  lemma SameLine(t: string, pre: string, l: Line, post: string, d: Line)
    requires t == pre + LineText(l) + post && Shaped(l) && Shaped(d) && OccursAt(t, LineText(d), |pre|)
    ensures LineText(l) == LineText(d)
  {
    LineChars(l);
    LineChars(d);
    var n, m := |LineText(l)|, |LineText(d)|;
    OccursIdx(t, LineText(d), |pre|, |pre| + n - 1);
    OccursIdx(t, LineText(d), |pre|, |pre| + m - 1);
    assert t[|pre| + (n - 1)] == LineText(l)[n - 1] == '\n';
    assert m - 1 < n ==> t[|pre| + (m - 1)] == LineText(l)[m - 1];
    assert n == m;
    assert t[|pre|..|pre| + n] == LineText(l);
  }

  lemma {:induction false} NoPairIn(t: string, pre: string, ls: seq<Line>, post: string, geo: string, data: string, x: nat)
    requires t == pre + Text(ls) + post && AllShaped(ls) && NoPair(ls, geo, data) && '\n' !in geo && Shaped(DataLine(data))
    requires |pre| <= x < |pre| + |Text(ls)|
    ensures !OccursAt(t, PairText(geo, data), x)
    decreases |ls|
  {
    var front := pre + LineText(ls[0]);
    assert t == front + Text(ls[1..]) + post;
    if x < |front| {
      NoPairHere(t, pre, ls, post, geo, data, x);
    } else {
      NoPairTail(ls, geo, data);
      NoPairIn(t, front, ls[1..], post, geo, data, x);
    }
  }

  lemma NoPairTail(ls: seq<Line>, geo: string, data: string)
    requires ls != [] && NoPair(ls, geo, data)
    ensures NoPair(ls[1..], geo, data)
  {
    assert forall i | 0 <= i < |ls[1..]| :: ls[1..][i] == ls[i + 1];
  }

  lemma NoPairHere(t: string, pre: string, ls: seq<Line>, post: string, geo: string, data: string, x: nat)
    requires t == pre + Text(ls) + post && AllShaped(ls) && NoPair(ls, geo, data) && '\n' !in geo && Shaped(DataLine(data))
    requires ls != [] && |pre| <= x < |pre| + |LineText(ls[0])|
    ensures !OccursAt(t, PairText(geo, data), x)
  {
    var l, rest := ls[0], Text(ls[1..]);
    assert Shaped(l) && t == pre + LineText(l) + (rest + post);
    if OccursAt(t, PairText(geo, data), x) {
      PairStart(t, pre, l, rest + post, geo, data, x);
      PairFollows(t, pre, ls, post, data);
    }
  }

  /** The second of the two lines is the next line. */
  lemma PairFollows(t: string, pre: string, ls: seq<Line>, post: string, data: string)
    requires t == pre + Text(ls) + post && AllShaped(ls) && |ls| > 1 && Shaped(DataLine(data))
    requires OccursAt(t, LineText(DataLine(data)), |pre| + |LineText(ls[0])|)
    ensures LineText(ls[1]) == LineText(DataLine(data))
  {
    var l, rest := ls[0], Text(ls[1..]);
    assert Shaped(ls[1]) && t == (pre + LineText(l)) + rest + post;
    NextLine(t, pre + LineText(l), ls[1], Text(ls[1..][1..]), post, data);
  }

  lemma NextLine(t: string, front: string, l: Line, rest: string, post: string, data: string)
    requires t == front + (LineText(l) + rest) + post && Shaped(l) && Shaped(DataLine(data)) && OccursAt(t, LineText(DataLine(data)), |front|)
    ensures LineText(l) == LineText(DataLine(data))
  {
    assert t == front + LineText(l) + (rest + post);
    SameLine(t, front, l, rest + post, DataLine(data));
  }

  // ----------------------------------------------------------------- map entries

  predicate Maps(es: seq<Entry>) { forall e <- es :: e.DimensionMap? && EntryOk(e) }

  /** The first map between two dimensions. */
  function MapIndex(es: seq<Entry>, geo: string, data: string): (r: Ptr)
    requires Maps(es)
    ensures r.At? ==> r.pos < |es| && IsMap(es[r.pos], geo, data) && NoMap(es[..r.pos], geo, data)
    ensures r.Null? ==> NoMap(es, geo, data)
  {
    if es == [] then Null
    else if IsMap(es[0], geo, data) then At(0)
    else match MapIndex(es[1..], geo, data)
      case Null => Null
      case At(i) =>
        assert es[..i + 1] == [es[0]] + es[1..][..i];
        At(i + 1)
  }

  predicate IsMap(e: Entry, geo: string, data: string) { e.DimensionMap? && e.geo == geo && e.data == data }

  predicate NoMap(es: seq<Entry>, geo: string, data: string) { forall e <- es :: !IsMap(e, geo, data) }

  lemma MapOwn(e: Entry)
    requires e.DimensionMap?
    ensures Own(e) == [GeoLine(e.geo), DataLine(e.data)] + [Line(4, "Offset", Dec(e.offset)), Line(4, "Increment", Dec(e.increment))]
  {
  }

  /** A quoted name starts with another only if they are equal. */
  lemma QuotedWhole(a: string, b: string)
    requires '"' !in a && '"' !in b
    ensures Quoted(a) <= Quoted(b) <==> a == b
  {
    if Quoted(a) <= Quoted(b) {
      assert Quoted(a)[|a| + 1] == '"' == Quoted(b)[|a| + 1];
      assert forall i | 0 <= i < |b| :: Quoted(b)[i + 1] == b[i];
      assert |a| + 1 == |b| + 1;
      assert Quoted(a)[1..|a| + 1] == a && Quoted(b)[1..|b| + 1] == b;
    }
  }

  lemma SameText(a: string, b: string)
    requires LineText(DataLine(a)) == LineText(DataLine(b)) && '"' !in a && '"' !in b
    ensures a == b
  {
    var h := Head(DataLine(a)) + "=";
    assert LineText(DataLine(a)) == h + Quoted(a) + "\n" && LineText(DataLine(b)) == h + Quoted(b) + "\n";
    assert LineText(DataLine(a))[|h| + 1..|h| + 1 + |a|] == a;
    assert LineText(DataLine(b))[|h| + 1..|h| + 1 + |b|] == b;
  }

  lemma OtherMapLines(e: Entry, n: nat, geo: string, data: string)
    requires e.DimensionMap? && EntryOk(e) && !IsMap(e, geo, data) && '"' !in geo && '"' !in data
    ensures AllShaped(EntryLines(e, n)) && NoPair(EntryLines(e, n), geo, data)
  {
    ObjectTame(e, n);
    MapOwn(e);
    var ls := EntryLines(e, n);
    assert ls == [ObjOpen(e, n)] + Own(e) + [ObjClose(e, n)];
    assert '"' !in e.geo && '"' !in e.data;
    forall i | 0 <= i < |ls| && GeoHere(ls[i], geo) ensures i + 1 < |ls| && LineText(ls[i + 1]) != LineText(DataLine(data)) {
      assert ls[i] in ls && Shaped(ls[i]);
      GeoHereIff(ls[i], geo);
      OnlyGeo(e, n, i);
      QuotedWhole(geo, e.geo);
      if LineText(DataLine(e.data)) == LineText(DataLine(data)) {
        SameText(e.data, data);
      }
    }
  }

  lemma OnlyGeo(e: Entry, n: nat, i: nat)
    requires e.DimensionMap? && i < |EntryLines(e, n)| && EntryLines(e, n)[i].key == "GeoDimension"
    ensures i == 1 && EntryLines(e, n)[1] == GeoLine(e.geo) && |EntryLines(e, n)| == 6 && EntryLines(e, n)[2] == DataLine(e.data)
  {
    MapOwn(e);
    assert EntryLines(e, n) == [ObjOpen(e, n)] + Own(e) + [ObjClose(e, n)];
    assert "GeoDimension"[0] == 'G';
  }

  lemma {:induction false} MapsNoPair(es: seq<Entry>, geo: string, data: string)
    requires Maps(es) && NoMap(es, geo, data) && '"' !in geo && '"' !in data
    ensures AllShaped(EntriesLines(es)) && NoPair(EntriesLines(es), geo, data)
  {
    if es != [] {
      var e, n := es[|es| - 1], |es| - 1;
      assert e in es;
      MapsNoPair(es[..n], geo, data);
      OtherMapLines(e, n, geo, data);
      NoPairCat(EntriesLines(es[..n]), EntryLines(e, n), geo, data);
    }
  }

  lemma OtherLine(l: Line, geo: string)
    requires Shaped(l) && l.key in {"GROUP", "OBJECT"}
    ensures !GeoHere(l, geo)
  {
    GeoHereIff(l, geo);
  }

  lemma BodyNoPair(es: seq<Entry>, geo: string, data: string)
    requires Maps(es) && NoMap(es, geo, data) && '"' !in geo && '"' !in data
    ensures AllShaped([OpenLine("DimensionMap")] + EntriesLines(es)) && NoPair([OpenLine("DimensionMap")] + EntriesLines(es), geo, data)
  {
    MapsNoPair(es, geo, data);
    InertName("DimensionMap");
    GroupLineOk(OpenLine("DimensionMap"));
    OtherLine(OpenLine("DimensionMap"), geo);
    NoPairCat([OpenLine("DimensionMap")], EntriesLines(es), geo, data);
  }

  lemma SkipNoPair(es: seq<Entry>, j: nat, geo: string, data: string)
    requires Maps(es) && j < |es| && NoMap(es[..j], geo, data) && '"' !in geo && '"' !in data
    ensures AllShaped(Skip("DimensionMap", es, j)) && NoPair(Skip("DimensionMap", es, j), geo, data)
  {
    assert es[j] in es;
    BodyNoPair(es[..j], geo, data);
    ObjectTame(es[j], j);
    OtherLine(ObjOpen(es[j], j), geo);
    NoPairCat([OpenLine("DimensionMap")] + EntriesLines(es[..j]), [ObjOpen(es[j], j)], geo, data);
  }

  // ------------------------------------------------------------------ the search

  predicate MapSite(f: MetaFile, i: nat) {
    GroupSite(f, Swath, i, 1) && Schema(Swath)[1] == "DimensionMap" && Maps(Entries(f, Swath, i, 1))
  }

  lemma MapSiteOk(f: MetaFile, i: nat)
    requires Site(f, Swath, i)
    ensures MapSite(f, i)
  {
    GroupSiteOk(f, Swath, i, 1);
    forall e | e in Entries(f, Swath, i, 1) ensures e.DimensionMap? {
      assert GroupOf(e) == "DimensionMap";
      assert GroupOf(e)[0] == 'D' && |GroupOf(e)| == 12;
    }
  }

  function MapsOf(f: MetaFile, i: nat): (es: seq<Entry>)
    requires Site(f, Swath, i)
    ensures Maps(es)
  {
    MapSiteOk(f, i);
    Entries(f, Swath, i, 1)
  }

  /** The search for the two lines finds the first map between the dimensions. */
  lemma MapFound(f: MetaFile, i: nat, geo: string, data: string, key: string, j: nat, beg: nat)
    returns (pre: string, post: string)
    requires Site(f, Swath, i) && SearchName(geo) && SearchName(data) && key == PairText(geo, data) && beg == OpenPos(f, Swath, i, 1) + 2
    requires MapIndex(MapsOf(f, i), geo, data) == At(j)
    ensures Print(f) == pre + Text(Own(MapsOf(f, i)[j])) + post && |pre| + |Text(Own(MapsOf(f, i)[j]))| <= ClosePos(f, Swath, i, 1)
    ensures beg <= |Print(f)| && |pre| < ClosePos(f, Swath, i, 1) && StrStr(Print(f), key, beg) == At(|pre|)
  {
    var es := MapsOf(f, i);
    var front, rest := MapFrame(f, i, j);
    var skip := Skip("DimensionMap", es, j);
    SkipNoPair(es, j, geo, data);
    OpenLong("DimensionMap", skip);
    DataShaped(data);
    pre, post := front + Text(skip), LineText(ObjClose(es[j], j)) + rest;
    PairAt(Print(f), front, skip, es[j], post, geo, data, key, beg, pre);
  }

  lemma PairAt(t: string, front: string, skip: seq<Line>, e: Entry, post: string, geo: string, data: string, key: string, beg: nat, pre: string)
    requires IsMap(e, geo, data) && pre == front + Text(skip) && t == pre + Text(Own(e)) + post && key == PairText(geo, data)
    requires AllShaped(skip) && NoPair(skip, geo, data) && '\n' !in geo && Shaped(DataLine(data)) && |front| <= beg <= |pre|
    ensures beg <= |t| && StrStr(t, key, beg) == At(|pre|) && Text(Own(e)) != ""
  {
    PairHere(t, pre, e, post, geo, data);
    Assoc(pre, Text(Own(e)), post);
    PairSearch(t, front, skip, Text(Own(e)) + post, geo, data, key, beg, |pre|);
  }

  lemma MapFrame(f: MetaFile, i: nat, j: nat) returns (front: string, rest: string)
    requires Site(f, Swath, i) && j < |MapsOf(f, i)|
    ensures var es := MapsOf(f, i);
            && |front| == OpenPos(f, Swath, i, 1)
            && Print(f) == front + Text(Skip("DimensionMap", es, j)) + Text(Own(es[j])) + (LineText(ObjClose(es[j], j)) + rest)
            && |front| + |Text(Skip("DimensionMap", es, j))| + |Text(Own(es[j]))| <= ClosePos(f, Swath, i, 1)
  {
    MapSiteOk(f, i);
    front, rest := EntryFrame(f, Swath, i, 1, j);
  }

  lemma PairHere(t: string, pre: string, e: Entry, post: string, geo: string, data: string)
    requires IsMap(e, geo, data) && t == pre + Text(Own(e)) + post
    ensures OccursAt(t, PairText(geo, data), |pre|) && Text(Own(e)) != ""
  {
    MapOwn(e);
    var two, rest := [GeoLine(geo), DataLine(data)], [Line(4, "Offset", Dec(e.offset)), Line(4, "Increment", Dec(e.increment))];
    TextCat(two, rest);
    TextCat([GeoLine(geo)], [DataLine(data)]);
    Text1(GeoLine(geo));
    Text1(DataLine(data));
    assert two == [GeoLine(geo)] + [DataLine(data)];
    assert t == pre + PairText(geo, data) + (Text(rest) + post);
    OccursIn(pre, PairText(geo, data), Text(rest) + post, PairText(geo, data), 0);
  }

  lemma PairSearch(t: string, front: string, skip: seq<Line>, rest: string, geo: string, data: string, key: string, beg: nat, p: nat)
    requires t == front + Text(skip) + rest && AllShaped(skip) && NoPair(skip, geo, data) && '\n' !in geo && Shaped(DataLine(data))
    requires key == PairText(geo, data) && OccursAt(t, key, p) && p == |front| + |Text(skip)| && |front| <= beg <= p
    ensures beg <= |t| && StrStr(t, key, beg) == At(p)
  {
    forall x: nat | beg <= x < p ensures !OccursAt(t, key, x) {
      NoPairIn(t, front, skip, rest, geo, data, x);
    }
    StrStrIs(t, key, beg, p);
  }

  lemma MapMissing(f: MetaFile, i: nat, geo: string, data: string, key: string, beg: nat, end: nat)
    requires Site(f, Swath, i) && SearchName(geo) && SearchName(data) && key == PairText(geo, data)
    requires beg == OpenPos(f, Swath, i, 1) + 2 && end == ClosePos(f, Swath, i, 1) && MapIndex(MapsOf(f, i), geo, data).Null?
    ensures beg <= |Print(f)| && (StrStr(Print(f), key, beg).At? ==> StrStr(Print(f), key, beg).pos >= end)
  {
    var es := MapsOf(f, i);
    MapSiteOk(f, i);
    var body := [OpenLine("DimensionMap")] + EntriesLines(es);
    BodyNoPair(es, geo, data);
    OpenLong("DimensionMap", body);
    GroupText(f, Swath, i, 1);
    DataShaped(data);
    PairPastEnd(Print(f), Text(LinesA(f, Swath, i)) + Text(LinesB(Swath, f.Of(Swath)[i], 1)), body,
                LineText(CloseLine("DimensionMap")) + Rest(f, Swath, i, 2), geo, data, key, beg, end);
  }

  lemma DataShaped(data: string)
    requires NameOk(data)
    ensures Shaped(DataLine(data))
  {
    InertQuoted(data);
    assert KeyOk("DataDimension");
  }

  lemma PairPastEnd(t: string, front: string, body: seq<Line>, rest: string, geo: string, data: string, key: string, beg: nat, end: nat)
    requires t == front + Text(body) + rest && AllShaped(body) && NoPair(body, geo, data) && '\n' !in geo && Shaped(DataLine(data))
    requires key == PairText(geo, data) && |front| <= beg <= end == |front| + |Text(body)|
    ensures beg <= |t| && (StrStr(t, key, beg).At? ==> StrStr(t, key, beg).pos >= end)
  {
    var r := StrStr(t, key, beg);
    if r.At? && r.pos < end {
      NoPairIn(t, front, body, rest, geo, data, r.pos);
    }
  }

  // ----------------------------------------------------------------- the two numbers

  function NameLines(geo: string, data: string): seq<Line> { [GeoLine(geo), DataLine(data)] }

  /** The names hold no "Offset=", or what they hold is read as the same numbers. */
  predicate NamesPass(geo: string, data: string, offset: int, increment: int) {
    var ls := NameLines(geo, data);
    match ReadOn(ls, LineStart(ls, 0), "Offset")
    case None => true
    case Some((c, v)) =>
      Atoi(v) == offset && match ReadOn(ls, c, "Increment") case None => true case Some((_, w)) => Atoi(w) == increment
  }

  lemma MapKeys()
    ensures KeyOk("Offset") && KeyOk("Increment") && '"' !in "Offset=" && "Offset" + "=" == "Offset="
    ensures EndsWith("Offset", "Offset") && EndsWith("Increment", "Increment") && !EndsWith("Offset", "Increment")
    ensures !EndsWith("GeoDimension", "Offset") && !EndsWith("DataDimension", "Offset")
  {
  }

  /** The first number is not held by a name if and only if neither name holds its
      key; then the lookups pass. */
  lemma ClearNames(geo: string, data: string)
    ensures var ls := NameLines(geo, data);
            ReadOn(ls, LineStart(ls, 0), "Offset").None? <==> !Contains(geo, "Offset=") && !Contains(data, "Offset=")
  {
    var ls := NameLines(geo, data);
    MapKeys();
    KeyHit(geo, "Offset=");
    KeyHit(data, "Offset=");
    QuotedSearch(geo, "Offset=");
    QuotedSearch(data, "Offset=");
    if !Contains(geo, "Offset=") {
      ReadNext(ls, LineStart(ls, 0), "Offset");
      assert !KeyAhead(ls[1], LineStart(ls, 1), "Offset");
    } else {
      assert !KeyAhead(ls[0], LineStart(ls, 0), "Offset");
    }
  }

  /** Increment from the Offset line. */
  lemma ReadIncrement(e: Entry, n: nat)
    requires e.DimensionMap? && n <= |Head(Own(e)[2])|
    ensures |Own(e)| == 4 && On(Own(e), InHead(2, n)) && ReadOn(Own(e), InHead(2, n), "Increment") == Some((InHead(3, 9), Dec(e.increment)))
  {
    MapOwn(e);
    MapKeys();
    NoSignIn(e.offset, "Increment");
    ReadNext(Own(e), InHead(2, n), "Increment");
    ReadLine(Own(e), 3, "Increment");
  }

  lemma NoSignIn(n: int, key: string)
    ensures StrStr(Dec(n), key + "=", 0).Null?
  {
    var k := key + "=";
    assert k[|key|] == '=' && '=' !in Dec(n);
    forall x: nat ensures !OccursAt(Dec(n), k, x) {
      OccursIdx(Dec(n), k, x, x + |key|);
    }
  }

  lemma ReadMap(e: Entry) returns (c: Cursor, v: string, d: Cursor, w: string)
    requires e.DimensionMap?
    ensures |Own(e)| == 4 && On(Own(e), c) && ReadOn(Own(e), LineStart(Own(e), 0), "Offset") == Some((c, v))
    ensures On(Own(e), d) && ReadOn(Own(e), c, "Increment") == Some((d, w))
    ensures Atoi(v) == e.offset && Atoi(w) == e.increment <==> NamesPass(e.geo, e.data, e.offset, e.increment)
  {
    var ls := NameLines(e.geo, e.data);
    MapOwn(e);
    MapKeys();
    AtoiDec(e.offset);
    AtoiDec(e.increment);
    ReadCat(ls, Own(e)[2..], LineStart(ls, 0), "Offset");
    assert Own(e) == ls + Own(e)[2..];
    match ReadOn(ls, LineStart(ls, 0), "Offset")
    case None =>
      ReadLine(Own(e), 2, "Offset");
      ReadIncrement(e, 6);
      c, v, d, w := InHead(2, 6), Dec(e.offset), InHead(3, 9), Dec(e.increment);
    case Some((c', v')) =>
      c, v := c', v';
      ReadCat(ls, Own(e)[2..], c, "Increment");
      ReadIncrement(e, |Head(Own(e)[2])|);
      d, w := ReadOn(Own(e), c, "Increment").value.0, ReadOn(Own(e), c, "Increment").value.1;
  }

  lemma MapAtIs(t: string, p: nat, end: Ptr, a: Lookup, b: Lookup)
    requires p <= |t| && a.Found? && b.Found? && a.pos <= |t| && |a.value| < UTLSTR_MAX_SIZE && |b.value| < UTLSTR_MAX_SIZE
    requires ValueBetween(t, p, end, "Offset") == a && ValueBetween(t, a.pos, end, "Increment") == b
    ensures MapAt(t, p, end) == Some(MapData(0, Atoi(a.value), Atoi(b.value)))
  {
  }

  lemma MapAtReads(t: string, pre: string, e: Entry, post: string, end: nat)
    requires e.DimensionMap? && EntryOk(e) && t == pre + Text(Own(e)) + post && |pre| + |Text(Own(e))| <= end
    requires |e.geo| <= MAX_NAME && |e.data| <= MAX_NAME
    ensures MapAt(t, |pre|, At(end)) == Some(MapData(0, e.offset, e.increment)) <==> NamesPass(e.geo, e.data, e.offset, e.increment)
  {
    var c, v, d, w := ReadMap(e);
    MapKeys();
    ObjectTame(e, 0);
    MapShort(e);
    ReadShort(Own(e), LineStart(Own(e), 0), "Offset", UTLSTR_MAX_SIZE);
    ReadShort(Own(e), c, "Increment", UTLSTR_MAX_SIZE);
    var _, p, v' := LookupWithin(t, pre, Own(e), post, LineStart(Own(e), 0), "Offset", |pre|, end);
    var _, q, w' := LookupWithin(t, pre, Own(e), post, c, "Increment", p, end);
    MapAtIs(t, |pre|, At(end), Found(p, v), Found(q, w));
  }

  /** The values of a map fit their buffer. */
  lemma MapShort(e: Entry)
    requires e.DimensionMap? && EntryOk(e) && |e.geo| <= MAX_NAME && |e.data| <= MAX_NAME
    ensures Shorter(Own(e), UTLSTR_MAX_SIZE)
  {
    MapOwn(e);
    DecShort(e.offset);
    DecShort(e.increment);
  }

  lemma MapInfoIs(t: string, nm: string, geo: string, data: string, key: string, beg: nat, end: nat)
    requires key == Fmt512("\t\t\t\tGeoDimension=\"" + geo + "\"\n\t\t\t\tDataDimension=\"" + data + "\"\n")
    requires MetaGroup(t, Swath, nm, Some("DimensionMap")) == Some((At(beg), At(end))) && beg <= |t|
    ensures MapInfo(t, nm, geo, data) == match StrStr(t, key, beg)
                                         case Null => Some(NO_MAP)
                                         case At(p) => if p < end then MapAt(t, p, At(end)) else Some(NO_MAP)
  {
  }

  /** What the lookup of a map returns: a failure if there is none between the two
      dimensions; else offset and increment of the first one, if and only if the
      names hold no "Offset=", or hold the same numbers behind it. */
  lemma MapInfoReads(f: MetaFile, i: nat, nm: string, geo: string, data: string)
    requires Site(f, Swath, i) && SearchName(nm) && FirstStruct(f.swaths, nm) == At(i) && SearchName(geo) && SearchName(data)
    ensures match MapIndex(MapsOf(f, i), geo, data)
            case Null => MapInfo(Print(f), nm, geo, data) == Some(MapData(-1, -1, -1))
            case At(j) =>
              var e := MapsOf(f, i)[j];
              MapInfo(Print(f), nm, geo, data) == Some(MapData(0, e.offset, e.increment)) <==> NamesPass(geo, data, e.offset, e.increment)
  {
    MapSiteOk(f, i);
    var b, beg, end := Brackets(f, Swath, i, nm, 1);
    var key := PairKey(geo, data);
    match MapIndex(MapsOf(f, i), geo, data)
    case Null =>
      MapMissing(f, i, geo, data, key, beg, end);
      MapInfoIs(Print(f), nm, geo, data, key, beg, end);
    case At(j) =>
      var pre, post := MapFound(f, i, geo, data, key, j, beg);
      MapInfoIs(Print(f), nm, geo, data, key, beg, end);
      assert MapsOf(f, i)[j] in MapsOf(f, i);
      MapAtReads(Print(f), pre, MapsOf(f, i)[j], post, end);
  }

  lemma {:induction false} MapIndexAppend(es: seq<Entry>, e: Entry, geo: string, data: string)
    requires Maps(es + [e])
    ensures Maps(es) && MapIndex(es + [e], geo, data)
         == if MapIndex(es, geo, data).At? then MapIndex(es, geo, data) else if IsMap(e, geo, data) then At(|es|) else Null
  {
    assert forall x <- es :: x in es + [e];
    if es == [] {
      assert es + [e] == [e] && [e][1..] == [];
    } else {
      assert (es + [e])[1..] == es[1..] + [e];
      MapIndexAppend(es[1..], e, geo, data);
    }
  }

  /** Define, then look up: the new map has the numbers it was given if and only if
      its two names have at most 78 characters together and pass, provided there was
      none between the two dimensions. With longer names there is no such map. */
  lemma DefineMapThenLookUp(f: MetaFile, a: Ask, i: nat)
    requires AskOk(a) && Adds(f, Received(a)) && a.req.entry.DimensionMap? && a.req.kind == Swath && FirstStruct(f.swaths, a.req.name) == At(i)
    requires SearchName(a.req.entry.geo) && SearchName(a.req.entry.data)
    requires Site(f, Swath, i) && MapIndex(MapsOf(f, i), a.req.entry.geo, a.req.entry.data).Null?
    ensures InsertAsk(Print(f), a).Some?
    ensures var e, info := a.req.entry, MapInfo(InsertAsk(Print(f), a).value, a.req.name, a.req.entry.geo, a.req.entry.data);
            && (info == Some(MapData(0, e.offset, e.increment))
                <==> |e.geo| + |e.data| <= 78 && NamesPass(e.geo, e.data, e.offset, e.increment))
            && (|e.geo| + |e.data| > 78 ==> info == Some(MapData(-1, -1, -1)))
  {
    MapReceived(a);
    ReceivedInserts(Print(f), a);
    var r := MapLookedUp(f, Received(a), i, a.req.entry.geo, a.req.entry.data);
  }

  /** A map arrives with what is left of its second name. */
  lemma MapReceived(a: Ask)
    requires AskOk(a) && a.req.AddEntry? && a.req.entry.DimensionMap?
    ensures var e, q := a.req.entry, Received(a);
            && Arrives(a).Some? && q == a.req.(entry := DimensionMap(e.geo, CutData(e.geo, e.data), e.offset, e.increment))
            && (CutData(e.geo, e.data) == e.data <==> |e.geo| + |e.data| <= 78)
  {
  }

  /** Two dimensions of 40 letters each, which the naming rules allow: the second name
      arrives without its last two letters, and there is no map between the two. */
  lemma LongNamesNoMap(f: MetaFile, a: Ask, i: nat, geo: string, data: string)
    requires geo == Letters('a', 40) && data == Letters('b', 40) && a.req.AddEntry? && a.req.entry.DimensionMap?
    requires AskOk(a) && Adds(f, Received(a)) && a.req.entry.geo == geo && a.req.entry.data == data
    requires a.req.kind == Swath && FirstStruct(f.swaths, a.req.name) == At(i)
    requires Site(f, Swath, i) && MapIndex(MapsOf(f, i), geo, data).Null?
    ensures SearchName(geo) && SearchName(data)
    ensures Received(a).entry.data == Letters('b', 38) && InsertAsk(Print(f), a).Some?
    ensures MapInfo(InsertAsk(Print(f), a).value, a.req.name, geo, data) == Some(MapData(-1, -1, -1))
  {
    FortyOk();
    DefineMapThenLookUp(f, a, i);
    FortyCut(data);
  }

  lemma FortyCut(data: string)
    requires data == Letters('b', 40)
    ensures CutData(Letters('a', 40), data) == Letters('b', 38)
  {
    assert data[..38] == Letters('b', 38);
  }

  lemma FortyOk()
    ensures SearchName(Letters('a', 40)) && SearchName(Letters('b', 40))
  {
    LettersOk('a', 40);
    LettersOk('b', 40);
    assert |Letters('a', 40)| != |")"|;
    assert |Letters('b', 40)| != |")"|;
  }

  /** A map whose geolocation dimension is "Offset=7", which the naming rules allow,
      does not have the offset 3 it was defined with. */
  lemma OffsetInName(f: MetaFile, i: nat, nm: string, j: nat)
    requires Site(f, Swath, i) && SearchName(nm) && FirstStruct(f.swaths, nm) == At(i)
    requires MapIndex(MapsOf(f, i), "Offset=7", "b") == At(j) && MapsOf(f, i)[j].DimensionMap? && MapsOf(f, i)[j].offset == 3
    ensures SearchName("Offset=7") && SearchName("b")
    ensures MapInfo(Print(f), nm, "Offset=7", "b") != Some(MapData(0, 3, MapsOf(f, i)[j].increment))
  {
    OffsetNames();
    OffsetHeld(MapsOf(f, i)[j].increment);
    MapInfoReads(f, i, nm, "Offset=7", "b");
  }

  lemma OffsetNames()
    ensures SearchName("Offset=7") && SearchName("b") && Contains("Offset=7", "Offset=")
  {
    var n := KeyName("", "Offset=", "7");
    assert n == "Offset=7";
    LetterOk('b');
    assert "b" == ['b'];
  }

  lemma OffsetHeld(increment: int)
    ensures !NamesPass("Offset=7", "b", 3, increment)
  {
    var ls := NameLines("Offset=7", "b");
    MapKeys();
    HeldFirst("Offset=7", "Offset=");
    ReadHeld(ls, LineStart(ls, 0), "Offset", 1);
    assert Quoted("Offset=7")[8..] == "7\"";
    AtoiSeven();
  }

  /** The key at the start of a name stands behind the opening quote. */
  lemma HeldFirst(name: string, key: string)
    requires key <= name && key != "" && '"' !in key
    ensures StrStr(Quoted(name), key, 0) == At(1)
  {
    assert OccursAt(name, key, 0);
    StrStrIs(name, key, 0, 0);
    QuotedSearch(name, key);
  }

  /** What a lookup returns once the received map has been added. */
  lemma MapLookedUp(f: MetaFile, q: Request, i: nat, geo: string, data: string) returns (r: Option<MapData>)
    requires Adds(f, q) && q.entry.DimensionMap? && q.kind == Swath && FirstStruct(f.swaths, q.name) == At(i)
    requires SearchName(geo) && SearchName(data) && Site(f, Swath, i) && MapIndex(MapsOf(f, i), geo, data).Null?
    ensures InsertText(Print(f), CallOf(q)).Some? && r == MapInfo(InsertText(Print(f), CallOf(q)).value, q.name, geo, data)
    ensures if IsMap(q.entry, geo, data)
            then r == Some(MapData(0, q.entry.offset, q.entry.increment)) <==> NamesPass(geo, data, q.entry.offset, q.entry.increment)
            else r == Some(NO_MAP)
  {
    var f' := MapsGrow(f, q, i);
    MapIndexAppend(MapsOf(f, i), q.entry, geo, data);
    MapInfoReads(f', i, q.name, geo, data);
    r := MapInfo(Print(f'), q.name, geo, data);
  }

  lemma MapsGrow(f: MetaFile, r: Request, i: nat) returns (f': MetaFile)
    requires Adds(f, r) && r.entry.DimensionMap? && r.kind == Swath && FirstStruct(f.swaths, r.name) == At(i) && Site(f, Swath, i)
    ensures Site(f', Swath, i) && FirstStruct(f'.swaths, r.name) == At(i) && MapsOf(f', i) == MapsOf(f, i) + [r.entry]
    ensures InsertText(Print(f), CallOf(r)) == Some(Print(f'))
  {
    f' := Apply(f, r).value;
    var g := Appended(f, r, i);
    MapSiteOk(f, i);
    MapSiteOk(f', i);
    SchemaOnce(Swath, 1, g);
  }
}
