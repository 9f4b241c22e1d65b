/** SWinqmaps and SWinqidxmaps over the metadata: what they return for each choice of
    outputs, and when that is what the maps were defined with. */
module MetaInquire {
  import opened CText
  import opened ListText
  import opened OdlLines
  import opened MetaTree
  import opened MetaRequest
  import opened MetaCalls
  import opened MetaLocate
  import opened MetaLookup
  import opened MetaRead
  import opened MetaFind
  import opened MetaDims
  import opened MetaFields
  import opened MetaMaps
  import opened MetaRows

  // ------------------------------------------------------------------ the inquiries

  function AllValues(rows: seq<seq<Lookup>>): seq<seq<string>> { seq(|rows|, m requires 0 <= m < |rows| => Values(rows[m])) }

  /** The values of all rows of a group; None where the C code searches from the null
      pointer, uses a value that was not found, or does not return. */
  function InqGroup(t: string, name: string, group: string, keys: seq<string>): (r: Option<seq<seq<string>>>)
    ensures r.Some? ==> forall vs <- r.value :: |vs| == |keys|
  {
    match MetaGroup(t, Swath, name, Some(group))
    case None => None
    case Some((beg, end)) =>
      if beg.Null? || beg.pos > |t| then None else
      match Inquire(t, beg.pos, end, "\t\tOBJECT=", keys)
      case None => None
      case Some(rows) => Some(AllValues(rows))
  }

  /** All of them, if there are all of them. */
  function Collect<T>(os: seq<Option<T>>): Option<seq<T>> {
    if os == [] then Some([])
    else match (os[0], Collect(os[1..])) case (Some(v), Some(vs)) => Some([v] + vs) case _ => None
  }

  predicate AllSome<T(==)>(os: seq<Option<T>>, vs: seq<T>) { |os| == |vs| && forall m | 0 <= m < |os| :: os[m] == Some(vs[m]) }

  lemma {:induction false} CollectIff<T>(os: seq<Option<T>>, vs: seq<T>)
    ensures Collect(os) == Some(vs) <==> AllSome(os, vs)
  {
    if os != [] && vs != [] {
      CollectIff(os[1..], vs[1..]);
      assert vs == [vs[0]] + vs[1..];
      if AllSome(os, vs) {
        assert AllSome(os[1..], vs[1..]);
      }
      if Collect(os) == Some(vs) {
        assert AllSome(os[1..], vs[1..]);
        assert forall m | 0 < m < |os| :: os[m] == os[1..][m - 1] && vs[m] == vs[1..][m - 1];
      }
    }
  }

  /** A value fits the utility string, and one in quotes has two of them to strip. */
  predicate Usable(v: string, quoted: bool) { |v| < UTLSTR_MAX_SIZE && (quoted ==> |v| >= 2) }

  /** What SWinqmaps returns for one map. */
  datatype MapOut = MapOut(names: Option<(string, string)>, offset: Option<int>, increment: Option<int>)

  function IncrementKeys(increments: bool): (r: seq<string>)
    ensures |r| == if increments then 1 else 0
  {
    if increments then ["Increment"] else []
  }

  function NumberKeys(offsets: bool, increments: bool): (r: seq<string>)
    ensures |r| == (if offsets then 1 else 0) + |IncrementKeys(increments)|
  {
    if offsets then ["Offset"] + IncrementKeys(increments) else IncrementKeys(increments)
  }

  /** The keys SWinqmaps looks for, one after the other, for the outputs it is given. */
  function MapKeysFor(names: bool, offsets: bool, increments: bool): seq<string> {
    if names then ["GeoDimension"] + (["DataDimension"] + NumberKeys(offsets, increments)) else NumberKeys(offsets, increments)
  }

  /** REMQUOTE on the names, atoi on the numbers. */
  function MapOutOf(vs: seq<string>, names: bool, offsets: bool, increments: bool): Option<MapOut>
    requires |vs| == |MapKeysFor(names, offsets, increments)|
  {
    var o := if names then 2 else 0;
    if exists m | 0 <= m < |vs| :: !Usable(vs[m], m < o) then None
    else Some(MapOut(if names then Some((Strip(vs[0]), Strip(vs[1]))) else None,
                     if offsets then Some(Atoi(vs[o])) else None,
                     if increments then Some(Atoi(vs[|vs| - 1])) else None))
  }

  function MapOuts(vss: seq<seq<string>>, names: bool, offsets: bool, increments: bool): seq<Option<MapOut>>
    requires forall vs <- vss :: |vs| == |MapKeysFor(names, offsets, increments)|
  {
    seq(|vss|, m requires 0 <= m < |vss| => MapOutOf(vss[m], names, offsets, increments))
  }

  /** The outputs for all maps, in order. None also where a value overruns the utility
      string or has no two characters to strip. */
  function InqMaps(t: string, name: string, names: bool, offsets: bool, increments: bool): Option<seq<MapOut>> {
    if !names && !offsets && !increments then Some([])
    else match InqGroup(t, name, "DimensionMap", MapKeysFor(names, offsets, increments))
      case None => None
      case Some(vss) => Collect(MapOuts(vss, names, offsets, increments))
  }

  // ------------------------------------------------------------- what a group yields

  /** The values of the rows are those of the entries. */
  predicate EntriesRead(vss: seq<seq<string>>, es: seq<Entry>, keys: seq<string>) {
    |vss| == |es| && forall m | 0 <= m < |es| :: EntryRead(vss[m], es[m], keys)
  }

  predicate EntryRead(vs: seq<string>, e: Entry, keys: seq<string>) { Own(e) != [] && EntryValues(e, keys) == Some(vs) }

  lemma InqGroupIs(f: MetaFile, i: nat, g: nat, nm: string, idx: seq<nat>, keys: seq<string>) returns (vss: seq<seq<string>>)
    requires GroupSite(f, Swath, i, g) && SearchName(nm) && FirstStruct(f.swaths, nm) == At(i) && Keyed(Entries(f, Swath, i, g), idx, keys)
    ensures InqGroup(Print(f), nm, Schema(Swath)[g], keys) == Some(vss) && EntriesRead(vss, Entries(f, Swath, i, g), keys)
  {
    var b, beg, end := Brackets(f, Swath, i, nm, g);
    var rows := InquiryReads(f, Swath, i, g, idx, "\t\tOBJECT=", keys, beg);
    vss := AllValues(rows);
    InqGroupAre(Print(f), nm, b, keys, beg, end, rows);
    RowsRead(rows, Entries(f, Swath, i, g), keys);
  }

  lemma InqGroupAre(t: string, nm: string, b: string, keys: seq<string>, beg: nat, end: nat, rows: seq<seq<Lookup>>)
    requires MetaGroup(t, Swath, nm, Some(b)) == Some((At(beg), At(end))) && beg <= |t|
    requires Inquire(t, beg, At(end), "\t\tOBJECT=", keys) == Some(rows)
    ensures InqGroup(t, nm, b, keys) == Some(AllValues(rows))
  {
  }

  lemma InqGroupNone(t: string, nm: string, b: string, keys: seq<string>, beg: nat, end: nat)
    requires MetaGroup(t, Swath, nm, Some(b)) == Some((At(beg), At(end))) && beg <= |t|
    requires Inquire(t, beg, At(end), "\t\tOBJECT=", keys) == None
    ensures InqGroup(t, nm, b, keys) == None
  {
  }

  lemma RowsRead(rows: seq<seq<Lookup>>, es: seq<Entry>, keys: seq<string>)
    requires RowsOf(rows, es, keys, 0)
    ensures EntriesRead(AllValues(rows), es, keys)
  {
    var vss := AllValues(rows);
    forall m: nat | m < |es| ensures EntryRead(vss[m], es[m], keys) {
      assert RowAt(rows, es, keys, 0, m);
    }
  }

  // ------------------------------------------------------------------ the names

  /** Where the lookup of the second name of a map ends up. */
  function AfterNames(geo: string, data: string): (c: Cursor)
    ensures On(NameLines(geo, data), c)
  {
    match StrStr(geo, "DataDimension=", 0) case Null => InHead(1, 13) case At(q) => InVal(0, q + 1)
  }

  /** The names fit the utility string, and the first one does not hold the key of the
      second, or holds it one character in front of the second name. */
  predicate NamesRight(geo: string, data: string) {
    |geo| <= 509
    && match StrStr(geo, "DataDimension=", 0)
       case Null => |data| <= 509
       case At(q) => q + 15 <= |geo| && geo[q + 15..] == data
  }

  /** The value that is read as the second name. */
  function SecondName(geo: string, data: string): string {
    match StrStr(geo, "DataDimension=", 0) case Null => Quoted(data) case At(q) => Quoted(geo)[q + 15..]
  }

  lemma NameKeys()
    ensures '"' !in "DataDimension=" && "DataDimension" + "=" == "DataDimension=" && |"DataDimension="| == 14
    ensures EndsWith("GeoDimension", "GeoDimension") && EndsWith("DataDimension", "DataDimension") && !EndsWith("GeoDimension", "DataDimension")
  {
  }

  /** The two names, read on the lines of a map. */
  lemma NamesOn(ls: seq<Line>, geo: string, data: string, tail: seq<Line>) returns (v: string)
    requires ls == NameLines(geo, data) + tail
    ensures ReadOn(ls, LineStart(ls, 0), "GeoDimension") == Some((InHead(0, 12), Quoted(geo)))
    ensures On(ls, InHead(0, 12)) && On(ls, AfterNames(geo, data)) && ReadOn(ls, InHead(0, 12), "DataDimension") == Some((AfterNames(geo, data), v))
    ensures Usable(Quoted(geo), true) && Usable(v, true) && Strip(v) == data <==> NamesRight(geo, data)
    ensures Strip(Quoted(geo)) == geo && v == SecondName(geo, data)
  {
    NameKeys();
    QuotedSearch(geo, "DataDimension=");
    assert ls[0] == GeoLine(geo) && ls[1] == DataLine(data);
    ReadLine(ls, 0, "GeoDimension");
    match StrStr(geo, "DataDimension=", 0)
    case Null =>
      ReadNext(ls, InHead(0, 12), "DataDimension");
      ReadLine(ls, 1, "DataDimension");
      v := Quoted(data);
    case At(q) =>
      ReadHeld(ls, InHead(0, 12), "DataDimension", q + 1);
      v := Quoted(geo)[q + 15..];
      TailStripped(geo, q + 14, v);
  }

  /** What is left of a quoted text, stripped as if it had both quotes. */
  lemma TailStripped(s: string, n: nat, v: string)
    requires n <= |s| && v == Quoted(s)[n + 1..]
    ensures |v| == |s| - n + 1 && (n < |s| ==> Strip(v) == s[n + 1..])
  {
  }

  // ------------------------------------------------------------------ the numbers

  /** The names from here on do not hold the key, or the same number behind it. */
  predicate NumberRight(ls: seq<Line>, c: Cursor, key: string, n: int)
    requires On(ls, c)
  {
    match ReadOn(ls, c, key) case None => true case Some((_, v)) => |v| < UTLSTR_MAX_SIZE && Atoi(v) == n
  }

  /** Where the names leave the pointer: None behind them. */
  function Onward(ls: seq<Line>, c: Cursor, key: string): (r: Option<Cursor>)
    requires On(ls, c)
    ensures r.Some? ==> On(ls, r.value)
  {
    match ReadOn(ls, c, key) case None => None case Some((d, _)) => Some(d)
  }

  predicate IncrementRight(ls: seq<Line>, c: Option<Cursor>, n: int)
    requires c.Some? ==> On(ls, c.value)
  {
    match c case None => true case Some(d) => NumberRight(ls, d, "Increment", n)
  }

  predicate NumbersRight(e: Entry, c: Cursor, offsets: bool, increments: bool)
    requires e.DimensionMap? && On(NameLines(e.geo, e.data), c)
  {
    var ls := NameLines(e.geo, e.data);
    && (offsets ==> NumberRight(ls, c, "Offset", e.offset))
    && (increments ==> IncrementRight(ls, if offsets then Onward(ls, c, "Offset") else Some(c), e.increment))
  }

  /** The outputs of a map are what it was defined with: the names are right, and from
      where they leave the pointer on no name holds "Offset=", or "Increment=" where
      that is still to be read, unless the same number stands behind it. */
  predicate MapRight(e: Entry, names: bool, offsets: bool, increments: bool)
    requires e.DimensionMap?
  {
    && (names ==> NamesRight(e.geo, e.data))
    && NumbersRight(e, if names then AfterNames(e.geo, e.data) else LineStart(NameLines(e.geo, e.data), 0), offsets, increments)
  }

  lemma OwnIs(e: Entry)
    requires e.DimensionMap?
    ensures |Own(e)| == 4 && Own(e) == NameLines(e.geo, e.data) + Own(e)[2..]
    ensures Own(e)[2] == Line(4, "Offset", Dec(e.offset)) && Own(e)[3] == Line(4, "Increment", Dec(e.increment))
  {
    MapOwn(e);
  }

  lemma DecUsable(n: int, v: string)
    requires v == Dec(n) && Int32(n)
    ensures |v| < UTLSTR_MAX_SIZE && Atoi(v) == n
  {
    AtoiDec(n);
    DecShort(n);
  }

  lemma OffsetOn(e: Entry, c: Cursor) returns (d: Cursor, v: string)
    requires e.DimensionMap? && EntryOk(e) && On(NameLines(e.geo, e.data), c)
    ensures On(Own(e), c) && On(Own(e), d) && ReadOn(Own(e), c, "Offset") == Some((d, v))
    ensures |v| < UTLSTR_MAX_SIZE && Atoi(v) == e.offset <==> NumberRight(NameLines(e.geo, e.data), c, "Offset", e.offset)
    ensures match Onward(NameLines(e.geo, e.data), c, "Offset") case None => d == InHead(2, 6) case Some(x) => d == x
  {
    var ls := NameLines(e.geo, e.data);
    OwnIs(e);
    MapKeys();
    ReadCat(ls, Own(e)[2..], c, "Offset");
    ReadLine(Own(e), 2, "Offset");
    DecUsable(e.offset, Dec(e.offset));
    d, v := ReadOn(Own(e), c, "Offset").value.0, ReadOn(Own(e), c, "Offset").value.1;
  }

  lemma IncrementOn(e: Entry, c: Option<Cursor>, d: Cursor) returns (v: string)
    requires e.DimensionMap? && EntryOk(e) && On(Own(e), d)
    requires match c case None => d == InHead(2, 6) case Some(x) => On(NameLines(e.geo, e.data), x) && d == x
    ensures ReadOn(Own(e), d, "Increment").Some? && v == ReadOn(Own(e), d, "Increment").value.1
    ensures |v| < UTLSTR_MAX_SIZE && Atoi(v) == e.increment <==> IncrementRight(NameLines(e.geo, e.data), c, e.increment)
  {
    OwnIs(e);
    DecUsable(e.increment, Dec(e.increment));
    if c.Some? {
      ReadCat(NameLines(e.geo, e.data), Own(e)[2..], d, "Increment");
      ReadIncrement(e, |Head(Own(e)[2])|);
    } else {
      ReadIncrement(e, 6);
    }
    v := ReadOn(Own(e), d, "Increment").value.1;
  }

  // -------------------------------------------------------------- a map's outputs

  lemma OneMore(ls: seq<Line>, c: Cursor, key: string, rest: seq<string>, d: Cursor, v: string, vs: seq<string>)
    requires On(ls, c) && On(ls, d) && ReadOn(ls, c, key) == Some((d, v)) && ValuesOn(ls, d, rest) == Some(vs)
    ensures ValuesOn(ls, c, [key] + rest) == Some([v] + vs)
  {
    assert ([key] + rest)[1..] == rest;
  }

  predicate AllFit(vs: seq<string>) { forall v <- vs :: |v| < UTLSTR_MAX_SIZE }

  lemma FitCons(v: string, rest: seq<string>)
    ensures AllFit([v] + rest) <==> |v| < UTLSTR_MAX_SIZE && AllFit(rest)
  {
    assert v in [v] + rest && forall x <- rest :: x in [v] + rest;
  }

  /** The numbers that are asked for are the map's. */
  predicate NumbersAre(vs: seq<string>, e: Entry, offsets: bool, increments: bool)
    requires e.DimensionMap? && |vs| == |NumberKeys(offsets, increments)|
  {
    && AllFit(vs)
    && (offsets ==> Atoi(vs[0]) == e.offset)
    && (increments ==> Atoi(vs[|vs| - 1]) == e.increment)
  }

  lemma IncrementValues(e: Entry, c: Option<Cursor>, d: Cursor, increments: bool) returns (vs: seq<string>)
    requires e.DimensionMap? && EntryOk(e) && On(Own(e), d)
    requires match c case None => d == InHead(2, 6) case Some(x) => On(NameLines(e.geo, e.data), x) && d == x
    ensures ValuesOn(Own(e), d, IncrementKeys(increments)) == Some(vs)
    ensures NumbersAre(vs, e, false, increments) <==> (increments ==> IncrementRight(NameLines(e.geo, e.data), c, e.increment))
  {
    if increments {
      var v := IncrementOn(e, c, d);
      vs := [v];
      OneMore(Own(e), d, "Increment", [], ReadOn(Own(e), d, "Increment").value.0, v, []);
      assert ["Increment"] + [] == IncrementKeys(increments) && [v] + [] == vs;
    } else {
      vs := [];
    }
  }

  lemma NumbersCons(v: string, rest: seq<string>, e: Entry, increments: bool)
    requires e.DimensionMap? && |rest| == |IncrementKeys(increments)|
    ensures NumbersAre([v] + rest, e, true, increments) <==> |v| < UTLSTR_MAX_SIZE && Atoi(v) == e.offset && NumbersAre(rest, e, false, increments)
  {
    var vs := [v] + rest;
    FitCons(v, rest);
    BothEnds(v, rest, vs);
    NumbersIs(vs, e, true, increments, v, if increments then vs[|rest|] else v);
    NumbersIs(rest, e, false, increments, v, if increments then rest[|rest| - 1] else v);
  }

  lemma BothEnds(v: string, rest: seq<string>, vs: seq<string>)
    requires vs == [v] + rest
    ensures |vs| == |rest| + 1 && vs[0] == v && (rest != [] ==> vs[|rest|] == rest[|rest| - 1])
  {
  }

  lemma NumbersIs(vs: seq<string>, e: Entry, offsets: bool, increments: bool, first: string, last: string)
    requires e.DimensionMap? && |vs| == |NumberKeys(offsets, increments)|
    requires (offsets ==> vs[0] == first) && (increments ==> vs[|vs| - 1] == last)
    ensures NumbersAre(vs, e, offsets, increments)
            <==> AllFit(vs) && (offsets ==> Atoi(first) == e.offset) && (increments ==> Atoi(last) == e.increment)
  {
  }

  lemma NumberValues(e: Entry, c: Cursor, offsets: bool, increments: bool) returns (vs: seq<string>)
    requires e.DimensionMap? && EntryOk(e) && On(NameLines(e.geo, e.data), c)
    ensures On(Own(e), c) && ValuesOn(Own(e), c, NumberKeys(offsets, increments)) == Some(vs)
    ensures NumbersAre(vs, e, offsets, increments) <==> NumbersRight(e, c, offsets, increments)
  {
    if offsets {
      vs := BothValues(e, c, increments);
    } else {
      OwnIs(e);
      vs := IncrementValues(e, Some(c), c, increments);
    }
  }

  lemma BothValues(e: Entry, c: Cursor, increments: bool) returns (vs: seq<string>)
    requires e.DimensionMap? && EntryOk(e) && On(NameLines(e.geo, e.data), c)
    ensures On(Own(e), c) && ValuesOn(Own(e), c, NumberKeys(true, increments)) == Some(vs)
    ensures NumbersAre(vs, e, true, increments) <==> NumbersRight(e, c, true, increments)
  {
    var d, v := OffsetOn(e, c);
    var rest := IncrementValues(e, Onward(NameLines(e.geo, e.data), c, "Offset"), d, increments);
    vs := [v] + rest;
    OneMore(Own(e), c, "Offset", IncrementKeys(increments), d, v, rest);
    NumbersCons(v, rest, e, increments);
  }

  /** What SWinqmaps returns for a map, by lookups on its own lines. */
  function MapRead(e: Entry, names: bool, offsets: bool, increments: bool): Option<MapOut>
    requires e.DimensionMap?
  {
    OwnIs(e);
    match EntryValues(e, MapKeysFor(names, offsets, increments))
    case None => None
    case Some(vs) => MapOutOf(vs, names, offsets, increments)
  }

  /** What it should return. */
  function MapTrue(e: Entry, names: bool, offsets: bool, increments: bool): MapOut
    requires e.DimensionMap?
  {
    MapOut(if names then Some((e.geo, e.data)) else None, if offsets then Some(e.offset) else None, if increments then Some(e.increment) else None)
  }

  lemma OutOfNumbers(vs: seq<string>, e: Entry, offsets: bool, increments: bool)
    requires e.DimensionMap? && |vs| == |NumberKeys(offsets, increments)|
    ensures MapOutOf(vs, false, offsets, increments) == Some(MapTrue(e, false, offsets, increments)) <==> NumbersAre(vs, e, offsets, increments)
  {
    if forall m | 0 <= m < |vs| :: Usable(vs[m], false) {
      forall v | v in vs ensures |v| < UTLSTR_MAX_SIZE {
        var m :| 0 <= m < |vs| && vs[m] == v;
        assert Usable(vs[m], false);
      }
    }
  }

  lemma OutOfAll(g: string, d: string, ns: seq<string>, vs: seq<string>, e: Entry, offsets: bool, increments: bool)
    requires e.DimensionMap? && |ns| == |NumberKeys(offsets, increments)| && vs == [g] + ([d] + ns) && g == Quoted(e.geo)
    ensures MapOutOf(vs, true, offsets, increments) == Some(MapTrue(e, true, offsets, increments))
            <==> Usable(g, true) && Usable(d, true) && Strip(d) == e.data && NumbersAre(ns, e, offsets, increments)
  {
    assert vs[0] == g && vs[1] == d && forall m | 0 <= m < |ns| :: vs[m + 2] == ns[m];
    OutOfNumbers(ns, e, offsets, increments);
    if forall m | 0 <= m < |vs| :: Usable(vs[m], m < 2) {
      assert Usable(vs[0], true) && Usable(vs[1], true);
      forall m | 0 <= m < |ns| ensures Usable(ns[m], false) {
        assert Usable(vs[m + 2], m + 2 < 2);
      }
    }
    if Usable(g, true) && Usable(d, true) && forall m | 0 <= m < |ns| :: Usable(ns[m], false) {
      forall m | 0 <= m < |vs| ensures Usable(vs[m], m < 2) {
        if m >= 2 {
          assert Usable(ns[m - 2], false);
        }
      }
    }
  }

  /** The outputs of a map are right exactly when its names let the lookups pass, or
      hold the same themselves. */
  lemma MapReadIff(e: Entry, names: bool, offsets: bool, increments: bool)
    requires e.DimensionMap? && EntryOk(e)
    ensures MapRead(e, names, offsets, increments) == Some(MapTrue(e, names, offsets, increments)) <==> MapRight(e, names, offsets, increments)
  {
    OwnIs(e);
    if names {
      var c := AfterNames(e.geo, e.data);
      var d := NamesOn(Own(e), e.geo, e.data, Own(e)[2..]);
      var ns := NumberValues(e, c, offsets, increments);
      var g, nk := Quoted(e.geo), NumberKeys(offsets, increments);
      OneMore(Own(e), InHead(0, 12), "DataDimension", nk, c, d, ns);
      OneMore(Own(e), LineStart(Own(e), 0), "GeoDimension", ["DataDimension"] + nk, InHead(0, 12), g, [d] + ns);
      OutOfAll(g, d, ns, [g] + ([d] + ns), e, offsets, increments);
    } else {
      var vs := NumberValues(e, LineStart(NameLines(e.geo, e.data), 0), offsets, increments);
      OutOfNumbers(vs, e, offsets, increments);
    }
  }

  // ------------------------------------------------------------------- SWinqmaps

  function IncrementPick(increments: bool): seq<nat> { if increments then [3] else [] }

  function NumberPick(offsets: bool, increments: bool): seq<nat> {
    if offsets then [2] + IncrementPick(increments) else IncrementPick(increments)
  }

  /** The attributes of a map with these keys. */
  function MapPick(names: bool, offsets: bool, increments: bool): seq<nat> {
    if names then [0] + ([1] + NumberPick(offsets, increments)) else NumberPick(offsets, increments)
  }

  lemma PickOneMore(e: Entry, k: nat, key: string, idx: seq<nat>, keys: seq<string>)
    requires Picked(e, idx, keys) && k < |Attrs(e)| && Attrs(e)[k].key == key && (idx != [] ==> k < idx[0])
    ensures Picked(e, [k] + idx, [key] + keys)
  {
    PicksMore(k, idx, |Attrs(e)|);
    KeysMore(Attrs(e), k, idx, keys);
  }

  lemma PicksMore(k: nat, idx: seq<nat>, n: nat)
    requires Picks(idx, n) && k < n && (idx != [] ==> k < idx[0])
    ensures Picks([k] + idx, n)
  {
    var more := [k] + idx;
    assert forall m | 0 < m < |more| :: more[m] == idx[m - 1];
  }

  lemma KeysMore(xs: seq<Attr>, k: nat, idx: seq<nat>, keys: seq<string>)
    requires Picks(idx, |xs|) && k < |xs| && Picks([k] + idx, |xs|) && KeysAt(xs, idx) == keys
    ensures KeysAt(xs, [k] + idx) == [xs[k].key] + keys
  {
  }

  lemma NumbersPicked(e: Entry, offsets: bool, increments: bool)
    requires e.DimensionMap?
    ensures Picked(e, NumberPick(offsets, increments), NumberKeys(offsets, increments))
    ensures NumberPick(offsets, increments) != [] ==> NumberPick(offsets, increments)[0] >= 2
  {
    assert Picked(e, IncrementPick(increments), IncrementKeys(increments)) by {
      assert KeysAt(Attrs(e), IncrementPick(increments)) == IncrementKeys(increments);
    }
    if offsets {
      PickOneMore(e, 2, "Offset", IncrementPick(increments), IncrementKeys(increments));
    }
  }

  lemma MapPicked(e: Entry, names: bool, offsets: bool, increments: bool)
    requires e.DimensionMap?
    ensures Picked(e, MapPick(names, offsets, increments), MapKeysFor(names, offsets, increments))
  {
    NumbersPicked(e, offsets, increments);
    if names {
      var idx, keys := NumberPick(offsets, increments), NumberKeys(offsets, increments);
      PickOneMore(e, 1, "DataDimension", idx, keys);
      PickOneMore(e, 0, "GeoDimension", [1] + idx, ["DataDimension"] + keys);
    }
  }

  lemma KeysAsked(names: bool, offsets: bool, increments: bool)
    requires names || offsets || increments
    ensures MapKeysFor(names, offsets, increments) != []
  {
  }

  function MapReads(es: seq<Entry>, names: bool, offsets: bool, increments: bool): seq<Option<MapOut>>
    requires Maps(es)
  {
    seq(|es|, m requires 0 <= m < |es| => MapRead(es[m], names, offsets, increments))
  }

  function MapTrues(es: seq<Entry>, names: bool, offsets: bool, increments: bool): seq<MapOut>
    requires Maps(es)
  {
    seq(|es|, m requires 0 <= m < |es| => MapTrue(es[m], names, offsets, increments))
  }

  /** SWinqmaps returns, for each choice of outputs, what lookups on the lines of each
      map read, map by map in order. */
  lemma MapsRead(f: MetaFile, i: nat, nm: string, names: bool, offsets: bool, increments: bool)
    requires Site(f, Swath, i) && SearchName(nm) && FirstStruct(f.swaths, nm) == At(i) && (names || offsets || increments)
    ensures InqMaps(Print(f), nm, names, offsets, increments) == Collect(MapReads(MapsOf(f, i), names, offsets, increments))
  {
    var es, keys := MapsOf(f, i), MapKeysFor(names, offsets, increments);
    MapSiteOk(f, i);
    KeysAsked(names, offsets, increments);
    forall e | e in es ensures Picked(e, MapPick(names, offsets, increments), keys) {
      MapPicked(e, names, offsets, increments);
    }
    var vss := InqGroupIs(f, i, 1, nm, MapPick(names, offsets, increments), keys);
    OutsAre(vss, es, names, offsets, increments);
  }

  lemma OutsAre(vss: seq<seq<string>>, es: seq<Entry>, names: bool, offsets: bool, increments: bool)
    requires Maps(es) && EntriesRead(vss, es, MapKeysFor(names, offsets, increments))
    requires forall vs <- vss :: |vs| == |MapKeysFor(names, offsets, increments)|
    ensures MapOuts(vss, names, offsets, increments) == MapReads(es, names, offsets, increments)
  {
    forall m: nat | m < |es| ensures MapOutOf(vss[m], names, offsets, increments) == MapRead(es[m], names, offsets, increments) {
      assert EntryRead(vss[m], es[m], MapKeysFor(names, offsets, increments));
    }
  }

  /** They are the names, offsets and increments of all maps, in order, if and only if
      every map is right: no name holds a key that is still looked for there, unless
      the same name or number stands behind it, and what is read fits the buffer. */
  lemma MapsInquired(f: MetaFile, i: nat, nm: string, names: bool, offsets: bool, increments: bool)
    requires Site(f, Swath, i) && SearchName(nm) && FirstStruct(f.swaths, nm) == At(i) && (names || offsets || increments)
    ensures InqMaps(Print(f), nm, names, offsets, increments) == Some(MapTrues(MapsOf(f, i), names, offsets, increments))
            <==> forall e <- MapsOf(f, i) :: MapRight(e, names, offsets, increments)
  {
    var es := MapsOf(f, i);
    MapsRead(f, i, nm, names, offsets, increments);
    CollectIff(MapReads(es, names, offsets, increments), MapTrues(es, names, offsets, increments));
    EveryRight(es, names, offsets, increments);
  }

  lemma EveryRight(es: seq<Entry>, names: bool, offsets: bool, increments: bool)
    requires Maps(es)
    ensures AllSome(MapReads(es, names, offsets, increments), MapTrues(es, names, offsets, increments))
            <==> forall e <- es :: MapRight(e, names, offsets, increments)
  {
    var os, vs := MapReads(es, names, offsets, increments), MapTrues(es, names, offsets, increments);
    forall m: nat | m < |es| ensures os[m] == Some(vs[m]) <==> MapRight(es[m], names, offsets, increments) {
      assert es[m] in es;
      MapReadIff(es[m], names, offsets, increments);
    }
    if AllSome(os, vs) {
      forall e | e in es ensures MapRight(e, names, offsets, increments) {
        var m: nat :| m < |es| && es[m] == e;
        assert os[m] == Some(vs[m]);
      }
    }
  }

  // -------------------------------------------------------- the list of names

  function MapName(o: MapOut): string { match o.names case None => "" case Some((g, d)) => g + "/" + d }

  /** The list of names as the caller gets it. */
  function MapList(outs: seq<MapOut>): string { Join(seq(|outs|, m requires 0 <= m < |outs| => MapName(outs[m])), ',') }

  function NamesOut(g: string, d: string): Option<MapOut> {
    if Usable(g, true) && Usable(d, true) then Some(MapOut(Some((Strip(g), Strip(d))), None, None)) else None
  }

  /** What SWinqmaps lists for a map when it is asked for names only. */
  lemma NamesRead(e: Entry)
    requires e.DimensionMap? && EntryOk(e)
    ensures MapRead(e, true, false, false) == NamesOut(Quoted(e.geo), SecondName(e.geo, e.data)) && Strip(Quoted(e.geo)) == e.geo
  {
    OwnIs(e);
    var g, c := Quoted(e.geo), AfterNames(e.geo, e.data);
    var d := NamesOn(Own(e), e.geo, e.data, Own(e)[2..]);
    OneMore(Own(e), InHead(0, 12), "DataDimension", [], c, d, []);
    OneMore(Own(e), LineStart(Own(e), 0), "GeoDimension", ["DataDimension"] + [], InHead(0, 12), g, [d] + []);
    TwoOut(g, d, [g] + ([d] + []));
  }

  lemma TwoOut(g: string, d: string, vs: seq<string>)
    requires vs == [g] + ([d] + [])
    ensures MapOutOf(vs, true, false, false) == NamesOut(g, d)
  {
    assert |vs| == 2 && vs[0] == g && vs[1] == d;
    if !Usable(g, true) || !Usable(d, true) {
      assert !Usable(vs[0], 0 < 2) || !Usable(vs[1], 1 < 2);
    }
  }

  /** No entry of the list holds a comma. */
  lemma NameFree(e: Entry)
    requires e.DimensionMap? && EntryOk(e)
    ensures ',' !in MapName(MapTrue(e, true, false, false)) && ',' !in Strip(SecondName(e.geo, e.data))
  {
    assert ',' !in e.geo && ',' !in e.data;
    assert ',' !in Quoted(e.geo) && ',' !in Quoted(e.data);
    assert forall c <- Strip(SecondName(e.geo, e.data)) :: c in SecondName(e.geo, e.data);
  }

  lemma JoinsApart(ps: seq<string>, qs: seq<string>)
    requires AllFree(ps, ',') && AllFree(qs, ',') && |ps| == |qs|
    ensures Join(ps, ',') == Join(qs, ',') <==> ps == qs
  {
    if ps != [] {
      PartsJoin(ps, ',');
      PartsJoin(qs, ',');
    }
  }

  lemma SameSecond(geo: string, a: string, b: string)
    ensures geo + "/" + a == geo + "/" + b <==> a == b
  {
    assert (geo + "/" + a)[|geo| + 1..] == a && (geo + "/" + b)[|geo| + 1..] == b;
  }

  /** Entry by entry the list is right where the pair is. */
  lemma EntryListed(e: Entry, o: MapOut)
    requires e.DimensionMap? && EntryOk(e) && MapRead(e, true, false, false) == Some(o)
    ensures ',' !in MapName(o) && (MapName(o) == MapName(MapTrue(e, true, false, false)) <==> MapRight(e, true, false, false))
  {
    NamesRead(e);
    NameFree(e);
    MapReadIff(e, true, false, false);
    SameSecond(e.geo, Strip(SecondName(e.geo, e.data)), e.data);
  }

  /** The comma-separated list that SWinqmaps returns is that of all maps if and only
      if every pair of names is right. */
  lemma MapsListed(f: MetaFile, i: nat, nm: string)
    requires Site(f, Swath, i) && SearchName(nm) && FirstStruct(f.swaths, nm) == At(i)
    ensures var r := InqMaps(Print(f), nm, true, false, false);
            r.Some? && |r.value| == |MapsOf(f, i)| && MapList(r.value) == MapList(MapTrues(MapsOf(f, i), true, false, false))
            <==> forall e <- MapsOf(f, i) :: NamesRight(e.geo, e.data)
  {
    var es := MapsOf(f, i);
    var r, trues := InqMaps(Print(f), nm, true, false, false), MapTrues(es, true, false, false);
    MapsRead(f, i, nm, true, false, false);
    MapsInquired(f, i, nm, true, false, false);
    if r.Some? && |r.value| == |es| {
      CollectIff(MapReads(es, true, false, false), r.value);
      ListIff(es, r.value, trues);
    }
  }

  lemma ListIff(es: seq<Entry>, outs: seq<MapOut>, trues: seq<MapOut>)
    requires Maps(es) && AllSome(MapReads(es, true, false, false), outs) && trues == MapTrues(es, true, false, false)
    ensures MapList(outs) == MapList(trues) <==> forall e <- es :: MapRight(e, true, false, false)
  {
    var ps := seq(|outs|, m requires 0 <= m < |outs| => MapName(outs[m]));
    var qs := seq(|trues|, m requires 0 <= m < |trues| => MapName(trues[m]));
    forall m: nat | m < |es|
      ensures ',' !in ps[m] && ',' !in qs[m] && (ps[m] == qs[m] <==> MapRight(es[m], true, false, false))
    {
      assert es[m] in es && MapReads(es, true, false, false)[m] == Some(outs[m]);
      EntryListed(es[m], outs[m]);
      NameFree(es[m]);
    }
    JoinsApart(ps, qs);
    if ps == qs {
      forall e | e in es ensures MapRight(e, true, false, false) {
        var m: nat :| m < |es| && es[m] == e;
        assert ps[m] == qs[m];
      }
    }
  }

  /** A map whose geolocation dimension is "DataDimension=a", which the naming rules
      allow: whatever its data dimension is, none is listed. */
  lemma KeyInDimension(f: MetaFile, i: nat, nm: string, e: Entry, out: MapOut)
    requires Site(f, Swath, i) && SearchName(nm) && FirstStruct(f.swaths, nm) == At(i)
    requires MapsOf(f, i) == [e] && e.DimensionMap? && e.geo == "DataDimension=a"
    requires out == MapOut(Some(("DataDimension=a", "")), None, None)
    ensures SearchName("DataDimension=a")
    ensures InqMaps(Print(f), nm, true, false, false) == Some([out]) && MapList([out]) == "DataDimension=a/"
  {
    KeyInDimensionName("DataDimension=a");
    OneMapRead(f, i, nm, e, out);
    HeldList(out);
  }

  lemma OneMapRead(f: MetaFile, i: nat, nm: string, e: Entry, out: MapOut)
    requires Site(f, Swath, i) && SearchName(nm) && FirstStruct(f.swaths, nm) == At(i) && MapsOf(f, i) == [e]
    requires e.DimensionMap? && e.geo == "DataDimension=a" && out == MapOut(Some(("DataDimension=a", "")), None, None)
    ensures InqMaps(Print(f), nm, true, false, false) == Some([out])
  {
    var os := MapReads(MapsOf(f, i), true, false, false);
    MapsRead(f, i, nm, true, false, false);
    assert e in MapsOf(f, i);
    HeldRead(e, out);
    OneCollected(os, out);
  }

  lemma HeldList(out: MapOut)
    requires out == MapOut(Some(("DataDimension=a", "")), None, None)
    ensures MapList([out]) == "DataDimension=a/"
  {
    ListOfOne(out, "DataDimension=a/");
  }

  lemma HeldRead(e: Entry, out: MapOut)
    requires e.DimensionMap? && EntryOk(e) && e.geo == "DataDimension=a" && out == MapOut(Some(("DataDimension=a", "")), None, None)
    ensures MapReads([e], true, false, false) == [Some(out)]
  {
    NamesRead(e);
    SecondHeld(e.geo, e.data);
  }

  lemma KeyInDimensionName(s: string)
    requires s == "DataDimension=a"
    ensures SearchName(s)
  {
    var n := KeyName("", "DataDimension=", "a");
    assert n == "DataDimension=a";
  }

  lemma SecondHeld(geo: string, data: string)
    requires geo == "DataDimension=a"
    ensures Usable(Quoted(geo), true) && Usable(SecondName(geo, data), true) && Strip(SecondName(geo, data)) == ""
  {
    assert OccursAt(geo, "DataDimension=", 0);
    StrStrIs(geo, "DataDimension=", 0, 0);
    assert Quoted(geo)[15..] == "a\"";
  }

  lemma OneCollected(os: seq<Option<MapOut>>, o: MapOut)
    requires os == [Some(o)]
    ensures Collect(os) == Some([o])
  {
    CollectIff(os, [o]);
  }

  lemma ListOfOne(o: MapOut, s: string)
    requires s == MapName(o)
    ensures MapList([o]) == s
  {
    assert seq(|[o]|, m requires 0 <= m < |[o]| => MapName([o][m])) == [s];
  }

  /** The key in a name does no harm when the other name stands behind it. */
  lemma KeyBeforeName()
    ensures NamesRight("DataDimension=xb", "b")
  {
    var geo := "DataDimension=xb";
    assert OccursAt(geo, "DataDimension=", 0);
    StrStrIs(geo, "DataDimension=", 0, 0);
    assert geo[15..] == "b";
  }

  // ------------------------------------------------------------------- index maps

  predicate IndexMaps(es: seq<Entry>) { forall e <- es :: e.IndexMap? && EntryOk(e) }

  lemma IndexSite(f: MetaFile, i: nat)
    requires Site(f, Swath, i)
    ensures GroupSite(f, Swath, i, 2) && Schema(Swath)[2] == "IndexDimensionMap" && IndexMaps(Entries(f, Swath, i, 2))
  {
    GroupSiteOk(f, Swath, i, 2);
    forall e | e in Entries(f, Swath, i, 2) ensures e.IndexMap? {
      assert GroupOf(e)[0] == 'I';
    }
  }

  function IndexMapsOf(f: MetaFile, i: nat): (es: seq<Entry>)
    requires Site(f, Swath, i)
    ensures IndexMaps(es)
  {
    IndexSite(f, i);
    Entries(f, Swath, i, 2)
  }

  const INDEX_KEYS: seq<string> := ["GeoDimension", "DataDimension"]

  /** What SWinqidxmaps returns for one map: the two names, and the size that
      SWdiminfo gives for the first one. */
  datatype IndexOut = IndexOut(geo: string, data: string, size: Option<int>)

  function IndexOutOf(t: string, name: string, vs: seq<string>, sizes: bool): Option<IndexOut>
    requires |vs| == 2
  {
    if !Usable(vs[0], true) || !Usable(vs[1], true) then None
    else if !sizes then Some(IndexOut(Strip(vs[0]), Strip(vs[1]), None))
    else match DimInfo(t, Swath, name, Strip(vs[0])) case None => None case Some(n) => Some(IndexOut(Strip(vs[0]), Strip(vs[1]), Some(n)))
  }

  function IndexOuts(t: string, name: string, vss: seq<seq<string>>, sizes: bool): seq<Option<IndexOut>>
    requires forall vs <- vss :: |vs| == 2
  {
    seq(|vss|, m requires 0 <= m < |vss| => IndexOutOf(t, name, vss[m], sizes))
  }

  /** SWinqidxmaps, asked for names, and with sizes or without. */
  function InqIndexMaps(t: string, name: string, sizes: bool): Option<seq<IndexOut>> {
    match InqGroup(t, name, "IndexDimensionMap", INDEX_KEYS)
    case None => None
    case Some(vss) => Collect(IndexOuts(t, name, vss, sizes))
  }

  function IndexRead(t: string, name: string, e: Entry, sizes: bool): Option<IndexOut>
    requires e.IndexMap?
  {
    match EntryValues(e, INDEX_KEYS) case None => None case Some(vs) => IndexOutOf(t, name, vs, sizes)
  }

  function IndexTrue(t: string, name: string, e: Entry, sizes: bool): IndexOut
    requires e.IndexMap?
  {
    IndexOut(e.geo, e.data, if sizes then DimInfo(t, Swath, name, e.geo) else None)
  }

  /** The names are right, and the size can be looked up. */
  predicate IndexRight(t: string, name: string, e: Entry, sizes: bool)
    requires e.IndexMap?
  {
    NamesRight(e.geo, e.data) && (sizes ==> DimInfo(t, Swath, name, e.geo).Some?)
  }

  lemma IndexReadIff(t: string, name: string, e: Entry, sizes: bool)
    requires e.IndexMap?
    ensures IndexRead(t, name, e, sizes) == Some(IndexTrue(t, name, e, sizes)) <==> IndexRight(t, name, e, sizes)
  {
    var g, c := Quoted(e.geo), AfterNames(e.geo, e.data);
    assert Own(e) == NameLines(e.geo, e.data) + [];
    var d := NamesOn(Own(e), e.geo, e.data, []);
    OneMore(Own(e), InHead(0, 12), "DataDimension", [], c, d, []);
    OneMore(Own(e), LineStart(Own(e), 0), "GeoDimension", ["DataDimension"] + [], InHead(0, 12), g, [d] + []);
    assert ["GeoDimension"] + (["DataDimension"] + []) == INDEX_KEYS && [g] + ([d] + []) == [g, d];
  }

  function IndexReads(t: string, name: string, es: seq<Entry>, sizes: bool): seq<Option<IndexOut>>
    requires IndexMaps(es)
  {
    seq(|es|, m requires 0 <= m < |es| => IndexRead(t, name, es[m], sizes))
  }

  function IndexTrues(t: string, name: string, es: seq<Entry>, sizes: bool): seq<IndexOut>
    requires IndexMaps(es)
  {
    seq(|es|, m requires 0 <= m < |es| => IndexTrue(t, name, es[m], sizes))
  }

  lemma IndexRowsRead(t: string, nm: string, es: seq<Entry>, vss: seq<seq<string>>, sizes: bool)
    requires IndexMaps(es) && EntriesRead(vss, es, INDEX_KEYS) && forall vs <- vss :: |vs| == 2
    ensures IndexOuts(t, nm, vss, sizes) == IndexReads(t, nm, es, sizes)
  {
    forall m: nat | m < |es| ensures IndexOutOf(t, nm, vss[m], sizes) == IndexRead(t, nm, es[m], sizes) {
      assert EntryRead(vss[m], es[m], INDEX_KEYS);
    }
  }

  lemma EveryIndexRight(t: string, nm: string, es: seq<Entry>, sizes: bool)
    requires IndexMaps(es)
    ensures AllSome(IndexReads(t, nm, es, sizes), IndexTrues(t, nm, es, sizes)) <==> forall e <- es :: IndexRight(t, nm, e, sizes)
  {
    var os, vs := IndexReads(t, nm, es, sizes), IndexTrues(t, nm, es, sizes);
    forall m: nat | m < |es| ensures os[m] == Some(vs[m]) <==> IndexRight(t, nm, es[m], sizes) {
      IndexReadIff(t, nm, es[m], sizes);
    }
    if AllSome(os, vs) {
      forall e | e in es ensures IndexRight(t, nm, e, sizes) {
        var m: nat :| m < |es| && es[m] == e;
        assert os[m] == Some(vs[m]);
      }
    }
  }

  lemma IndexKeyed(es: seq<Entry>)
    requires IndexMaps(es)
    ensures Keyed(es, [0, 1], INDEX_KEYS)
  {
    forall e | e in es ensures Picked(e, [0, 1], INDEX_KEYS) {
      assert KeysAt(Attrs(e), [0, 1]) == INDEX_KEYS;
    }
  }

  /** SWinqidxmaps, asked for names, returns the two names of every index map, in
      order, and with sizes the one SWdiminfo gives for each first name, if and only if
      every pair of names is right and every size can be looked up. */
  lemma IndexMapsInquired(f: MetaFile, i: nat, nm: string, sizes: bool)
    requires Site(f, Swath, i) && SearchName(nm) && FirstStruct(f.swaths, nm) == At(i)
    ensures InqIndexMaps(Print(f), nm, sizes) == Some(IndexTrues(Print(f), nm, IndexMapsOf(f, i), sizes))
            <==> forall e <- IndexMapsOf(f, i) :: IndexRight(Print(f), nm, e, sizes)
  {
    var t, es := Print(f), IndexMapsOf(f, i);
    IndexSite(f, i);
    IndexKeyed(es);
    var vss := InqGroupIs(f, i, 2, nm, [0, 1], INDEX_KEYS);
    IndexRowsRead(t, nm, es, vss, sizes);
    CollectIff(IndexReads(t, nm, es, sizes), IndexTrues(t, nm, es, sizes));
    EveryIndexRight(t, nm, es, sizes);
  }

  /** The size of a first name of the documented length can be looked up, and is the one
      the swath's dimensions give. */
  lemma IndexSizeIs(f: MetaFile, i: nat, nm: string, e: Entry)
    requires Site(f, Swath, i) && SearchName(nm) && FirstStruct(f.swaths, nm) == At(i) && e.IndexMap? && SearchName(e.geo)
    ensures IndexRight(Print(f), nm, e, true) <==> NamesRight(e.geo, e.data)
    ensures IndexTrue(Print(f), nm, e, true).size == Some(DimRead(Dims(f, Swath, i), e.geo))
  {
    DimInfoReads(f, Swath, i, nm, e.geo);
  }

  /** Asked for sizes only, SWinqidxmaps looks for no key and never moves its pointer:
      it returns, with no map, if and only if there is no index map. */
  lemma IndexSizesInquired(f: MetaFile, i: nat, nm: string)
    requires Site(f, Swath, i) && SearchName(nm) && FirstStruct(f.swaths, nm) == At(i)
    ensures InqGroup(Print(f), nm, "IndexDimensionMap", []) == if IndexMapsOf(f, i) == [] then Some([]) else None
  {
    IndexSite(f, i);
    var b, beg, end := Brackets(f, Swath, i, nm, 2);
    InquiryOfNothing(f, Swath, i, 2, "\t\tOBJECT=", beg);
    NothingRead(Print(f), nm, b, [], beg, end, [], IndexMapsOf(f, i) == []);
  }

  lemma NothingRead(t: string, nm: string, b: string, keys: seq<string>, beg: nat, end: nat, none: seq<seq<Lookup>>, empty: bool)
    requires MetaGroup(t, Swath, nm, Some(b)) == Some((At(beg), At(end))) && beg <= |t| && none == []
    requires Inquire(t, beg, At(end), "\t\tOBJECT=", keys) == if empty then Some(none) else None
    ensures InqGroup(t, nm, b, keys) == if empty then Some([]) else None
  {
    if empty {
      InqGroupAre(t, nm, b, keys, beg, end, none);
      assert AllValues(none) == [];
    } else {
      InqGroupNone(t, nm, b, keys, beg, end);
    }
  }
}
