/** What kinds of lines the printed tree consists of, and which searches pass
    over them. */
module MetaLines {
  import opened CText
  import opened ListText
  import opened OdlLines
  import opened OdlCount
  import opened MetaTree

  predicate LineOk(l: Line) {
    Shaped(l) && Inert(l.val) && KeyClean(l, "END_OBJECT") && KeyClean(l, "END_GROUP")
  }

  predicate LinesOk(ls: seq<Line>) { forall l <- ls :: LineOk(l) }

  // --------------------------------------------------------- inert values

  lemma ContainsMid(v: string, x: string, m: string, y: string)
    requires Contains(v, x + m + y)
    ensures Contains(v, m)
  {
    var k := x + m + y;
    var i: nat :| i <= |v| && OccursAt(v, k, i);
    MiddleOccurs(v, x, m, y, i);
  }

  lemma MiddleOccurs(v: string, x: string, m: string, y: string, i: nat)
    requires OccursAt(v, x + m + y, i)
    ensures OccursAt(v, m, i + |x|)
  {
    var k, at := x + m + y, i + |x|;
    forall j | 0 <= j < |m| ensures v[at + j] == m[j] {
      OccursIdx(v, k, i, at + j);
      assert k[|x| + j] == m[j];
    }
    assert v[at..at + |m|] == m;
  }

  lemma InertPlain(v: string)
    requires ValOk(v) && 'E' !in v && '=' !in v
    ensures Inert(v)
  {
    NotContainsChar(v, "GROUP=", 5);
    NotContainsChar(v, "=\"", 0);
    NotContainsChar(v, "END_OBJECT", 0);
    NotContainsChar(v, "END_GROUP", 0);
  }

  lemma InertDec(n: int)
    ensures Inert(Dec(n))
  {
    InertPlain(Dec(n));
  }

  /** A tag such as Dimension_3 or SWATH_1. */
  lemma InertTag(g: string, n: int)
    requires ValOk(g) && 'E' !in g && '=' !in g
    ensures Inert(g + Dec(n)) && Inert(g)
  {
    assert forall i | |g| <= i < |g + Dec(n)| :: (g + Dec(n))[i] == Dec(n)[i - |g|];
    InertPlain(g + Dec(n));
    InertPlain(g);
  }

  lemma QuotedContains(s: string, k: string)
    requires k != "" && '"' !in k
    ensures Contains(Quoted(s), k) <==> Contains(s, k)
  {
    assert Quoted(s) == ("\"" + s) + ['"'] + "";
    ContainsAcross("\"" + s, '"', "", k);
    assert "\"" + s == "" + ['"'] + s;
    ContainsAcross("", '"', s, k);
    NotContainsChar("", k, 0);
  }

  lemma InertQuoted(s: string)
    requires PartOk(s)
    ensures Inert(Quoted(s)) && ItemsEnd(Quoted(s))
  {
    QuotedContains(s, "GROUP=");
    QuotedContains(s, "END_OBJECT");
    QuotedContains(s, "END_GROUP");
    var v := Quoted(s);
    assert forall i | 1 <= i <= |s| :: v[i] == s[i - 1];
    forall i: nat | i <= |v| && OccursAt(v, "=\"", i) ensures i + 2 == |v| {
      OccursIdx(v, "=\"", i, i);
      OccursIdx(v, "=\"", i, i + 1);
    }
  }

  /** In a list without its parentheses an equals sign stands before a quote only at
      the end of an item. */
  predicate ItemsEnd(v: string) {
    forall i: nat | i <= |v| && OccursAt(v, "=\"", i) :: i + 2 == |v| || v[i + 2] == ','
  }

  lemma ItemsEndCat(a: string, b: string)
    requires ItemsEnd(a) && ItemsEnd(b)
    ensures ItemsEnd(a + [','] + b)
  {
    var v := a + [','] + b;
    forall i: nat | i <= |v| && OccursAt(v, "=\"", i) ensures i + 2 == |v| || v[i + 2] == ',' {
      OccursIdx(v, "=\"", i, i);
      OccursIdx(v, "=\"", i, i + 1);
      if i + 1 < |a| {
        OccursIn("", a, [','] + b, "=\"", i);
        assert "" + a + ([','] + b) == v;
      } else {
        OccursIn(a + [','], b, "", "=\"", i - |a| - 1);
        assert a + [','] + b + "" == v;
        assert i + 2 == |v| || v[i + 2] == b[i - |a| - 1 + 2];
      }
    }
  }

  lemma {:induction false} InertItems(ss: seq<string>)
    requires ss != [] && forall s <- ss :: PartOk(s)
    ensures Inert(QuotedItems(ss)) && ItemsEnd(QuotedItems(ss))
  {
    InertQuoted(ss[0]);
    if |ss| > 1 {
      var rest := QuotedItems(ss[1..]);
      var v := Quoted(ss[0]) + [','] + rest;
      InertItems(ss[1..]);
      ContainsAcross(Quoted(ss[0]), ',', rest, "GROUP=");
      ContainsAcross(Quoted(ss[0]), ',', rest, "END_OBJECT");
      ContainsAcross(Quoted(ss[0]), ',', rest, "END_GROUP");
      ItemsEndCat(Quoted(ss[0]), rest);
      assert QuotedItems(ss) == v;
    }
  }

  lemma WrappedEnds(v: string)
    requires ItemsEnd(v)
    ensures SignsEnd("(" + v + ")")
  {
    var w := "(" + v + ")";
    forall i: nat | i <= |w| && OccursAt(w, "=\"", i) ensures i + 2 == |w| || w[i + 2] == ',' || w[i + 2..] == ")" {
      OccursIdx(w, "=\"", i, i);
      OccursIdx(w, "=\"", i, i + 1);
      OccursIn("(", v, ")", "=\"", i - 1);
      if i + 1 < |v| {
        assert w[i + 2] == v[i + 1];
      }
    }
  }

  lemma WrapContains(v: string, k: string)
    requires k != "" && '(' !in k && ')' !in k
    ensures Contains("(" + v + ")", k) <==> Contains(v, k)
  {
    assert "(" + v + ")" == ("(" + v) + [')'] + "";
    ContainsAcross("(" + v, ')', "", k);
    assert "(" + v == "" + ['('] + v;
    ContainsAcross("", '(', v, k);
    NotContainsChar("", k, 0);
  }

  lemma InertList(ss: seq<string>)
    requires ss != [] && forall s <- ss :: PartOk(s)
    ensures Inert(QuotedList(ss))
  {
    InertItems(ss);
    var v := QuotedItems(ss);
    WrapContains(v, "GROUP=");
    WrappedEnds(v);
    WrapContains(v, "END_OBJECT");
    WrapContains(v, "END_GROUP");
  }

  lemma InertType(n: int)
    requires KnownType(n)
    ensures Inert(TypeName(n))
  {
    InertPlain(TypeName(n));
  }

  // ---------------------------------------------------------- line classes

  /** A line no search for a group or a name stops at. */
  predicate Tame(l: Line) {
    LineOk(l) && (l.key == "OBJECT" || l.key == "END_OBJECT" || AttrKey(l.key))
  }

  predicate AllTame(ls: seq<Line>) { forall l <- ls :: Tame(l) }

  /** A line of an entry: tame, or one of the three that make up a level. */
  predicate InEntry(l: Line) {
    || Tame(l)
    || (LineOk(l) && (l.key == "GROUP" || l.key == "END_GROUP") && l.tabs == 3 && "Level_" <= l.val)
    || (LineOk(l) && l.key == "LevelName")
  }

  predicate AllInEntry(ls: seq<Line>) { forall l <- ls :: InEntry(l) }

  lemma AttrLineOk(l: Line)
    requires AttrKey(l.key) && Inert(l.val)
    ensures Tame(l)
  {
    NotContainsChar(l.key, "END_OBJECT", 3);
    NotContainsChar(l.key, "END_GROUP", 3);
  }

  lemma ObjectLineOk(l: Line)
    requires Inert(l.val) && (l.key == "OBJECT" || l.key == "END_OBJECT")
    ensures Tame(l)
  {
    assert 'G' !in l.key;
    NotContainsChar(l.key, "END_GROUP", 4);
    if l.key == "OBJECT" {
      NotContainsChar(l.key, "END_OBJECT", 3);
    }
  }

  lemma GroupLineOk(l: Line)
    requires Inert(l.val) && (l.key == "GROUP" || l.key == "END_GROUP")
    ensures LineOk(l)
  {
    assert 'B' !in l.key;
    NotContainsChar(l.key, "END_OBJECT", 5);
    if l.key == "GROUP" {
      NotContainsChar(l.key, "END_GROUP", 3);
    }
  }

  lemma NameLineOk(l: Line)
    requires Inert(l.val) && l.key in {"SwathName", "GridName", "PointName", "LevelName"}
    ensures LineOk(l)
  {
    assert '_' !in l.key;
    NotContainsChar(l.key, "END_OBJECT", 3);
    NotContainsChar(l.key, "END_GROUP", 3);
  }

  lemma AttrLinesTame(n: nat, xs: seq<Attr>)
    requires AttrsOk(xs)
    ensures AllTame(AttrLines(n, xs))
  {
    forall l | l in AttrLines(n, xs) ensures Tame(l) {
      var i :| 0 <= i < |xs| && l == Line(n, xs[i].key, xs[i].val);
      assert xs[i] in xs;
      AttrLineOk(l);
    }
  }

  lemma ObjectLinesTame(n: nat, tag: string, xs: seq<Attr>)
    requires Inert(tag) && AttrsOk(xs)
    ensures AllTame(ObjectLines(n, tag, xs))
  {
    ObjectLineOk(Line(n, "OBJECT", tag));
    ObjectLineOk(Line(n, "END_OBJECT", tag));
    AttrLinesTame(n + 1, xs);
  }

  lemma FieldAttrsOk(key: string, name: string, ntype: int, dims: seq<string>, extra: seq<Attr>)
    requires AttrKey(key) && NameOk(name) && KnownType(ntype) && PartsOk(dims) && AttrsOk(extra)
    ensures AttrsOk(FieldAttrs(key, name, ntype, dims, extra))
  {
    InertQuoted(name);
    InertType(ntype);
    InertList(dims);
    KeyDataType();
    KeyDimList();
    var own := [Attr(key, Quoted(name)), Attr("DataType", TypeName(ntype)), Attr("DimList", QuotedList(dims))];
    assert AttrsOk(own);
    assert forall x <- own + extra :: x in own || x in extra;
  }

  // The keys the format strings use are attribute keys.

  lemma KeyDimensionName()
    ensures AttrKey("DimensionName")
  {
    var k := "DimensionName";
    forall i | 0 <= i < |k| ensures Letter(k[i]) {
      if i < 5 {
      } else if i < 9 {
      }
    }
    NotNameKey(k, 5);
  }

  lemma KeySize()
    ensures AttrKey("Size")
  {
    NotNameKey("Size", 5);
  }

  lemma KeyGeoDimension()
    ensures AttrKey("GeoDimension")
  {
    var k := "GeoDimension";
    forall i | 0 <= i < |k| ensures Letter(k[i]) {
      if i < 5 {
      } else if i < 9 {
      }
    }
    NotNameKey(k, 5);
  }

  lemma KeyDataDimension()
    ensures AttrKey("DataDimension")
  {
    var k := "DataDimension";
    forall i | 0 <= i < |k| ensures Letter(k[i]) {
      if i < 5 {
      } else if i < 9 {
      }
    }
    NotNameKey(k, 5);
  }

  lemma KeyOffset()
    ensures AttrKey("Offset")
  {
    NotNameKey("Offset", 5);
  }

  lemma KeyIncrement()
    ensures AttrKey("Increment")
  {
    var k := "Increment";
    forall i | 0 <= i < |k| ensures Letter(k[i]) {
      if i < 5 {
      }
    }
    NotNameKey(k, 5);
  }

  lemma KeyGeoFieldName()
    ensures AttrKey("GeoFieldName")
  {
    var k := "GeoFieldName";
    forall i | 0 <= i < |k| ensures Letter(k[i]) {
      if i < 5 {
      } else if i < 9 {
      }
    }
    NotNameKey(k, 6);
  }

  lemma KeyDataFieldName()
    ensures AttrKey("DataFieldName")
  {
    var k := "DataFieldName";
    forall i | 0 <= i < |k| ensures Letter(k[i]) {
      if i < 5 {
      } else if i < 9 {
      }
    }
    NotNameKey(k, 6);
  }

  lemma KeyDataType()
    ensures AttrKey("DataType")
  {
    NotNameKey("DataType", 5);
  }

  lemma KeyDimList()
    ensures AttrKey("DimList")
  {
    NotNameKey("DimList", 5);
  }

  lemma KeyMergedFieldName()
    ensures AttrKey("MergedFieldName")
  {
    var k := "MergedFieldName";
    forall i | 0 <= i < |k| ensures Letter(k[i]) {
      if i < 5 {
      } else if i < 9 {
      }
    }
    NotNameKey(k, 6);
  }

  lemma KeyFieldList()
    ensures AttrKey("FieldList")
  {
    var k := "FieldList";
    forall i | 0 <= i < |k| ensures Letter(k[i]) {
      if i < 5 {
      }
    }
    NotNameKey(k, 6);
  }

  lemma KeyParent()
    ensures AttrKey("Parent")
  {
    NotNameKey("Parent", 5);
  }

  lemma KeyChild()
    ensures AttrKey("Child")
  {
    NotNameKey("Child", 5);
  }

  lemma KeyLinkField()
    ensures AttrKey("LinkField")
  {
    NotNameKey("LinkField", 5);
  }

  lemma KeyPointFieldName()
    ensures AttrKey("PointFieldName")
  {
    var k := "PointFieldName";
    forall i | 0 <= i < |k| ensures Letter(k[i]) {
      if i < 5 {
      } else if i < 9 {
      }
    }
    NotNameKey(k, 6);
  }

  lemma KeyOrder()
    ensures AttrKey("Order")
  {
    NotNameKey("Order", 5);
  }

  /** A suffix shares its i-th character from the end. */
  lemma NotNameKey(k: string, i: nat)
    requires 0 < i <= 6
    requires i <= |k| ==> k[|k| - i] != "SwathName"[9 - i] && k[|k| - i] != "PointName"[9 - i]
    requires i <= |k| ==> k[|k| - i] != "GridName"[8 - i] && k[|k| - i] != "LevelName"[9 - i]
    ensures !EndsWith(k, "SwathName") && !EndsWith(k, "GridName") && !EndsWith(k, "PointName") && !EndsWith(k, "LevelName")
  {
    EndsWithChar(k, "SwathName", i);
    EndsWithChar(k, "GridName", i);
    EndsWithChar(k, "PointName", i);
    EndsWithChar(k, "LevelName", i);
  }

  lemma EndsWithChar(s: string, w: string, i: nat)
    requires 0 < i <= |w|
    ensures EndsWith(s, w) ==> i <= |s| && s[|s| - i] == w[|w| - i]
  {
    assert EndsWith(s, w) ==> s[|s| - |w|..][|w| - i] == s[|s| - i];
  }

  // ----------------------------------------------- searches and line classes

  predicate GroupSearch(a: string) {
    a in {"GROUP", "END_GROUP", "\t\tGROUP", "\t\tEND_GROUP", "\t\t\tEND_GROUP"}
  }

  predicate NameSearch(a: string, b: string) {
    a in {"SwathName", "GridName", "PointName"} && NameStart(b)
  }

  /** A quote and a name that no end of a quoted text looks like. */
  predicate NameStart(b: string) { |b| >= 2 && b[0] == '"' && b[1] != ',' && b != "\")" }

  /** Names that no level label Level_n starts with. */
  predicate NotLevel(b: string) { !(b <= "Level_") && !("Level_" <= b) }

  lemma AlignedPlain(l: Line, w: string, b: string)
    requires Shaped(l) && KeyOk(w)
    ensures Aligned(l, w, b) <==> EndsWith(l.key, w) && b <= l.val
  {
    var h := Head(l);
    if |w| <= |l.key| {
      assert h[|h| - |w|..] == l.key[|l.key| - |w|..];
    } else if |w| <= |h| {
      assert h[|h| - |w|..][|w| - |l.key| - 1] == '\t';
    }
  }

  lemma AlignedTabs(l: Line, n: nat, w: string, b: string)
    requires Shaped(l) && KeyOk(w) && n > 0
    ensures Aligned(l, Tabs(n) + w, b) <==> l.key == w && l.tabs >= n && b <= l.val
  {
    var h := Head(l);
    var a := Tabs(n) + w;
    if l.key == w && l.tabs >= n {
      assert h == Tabs(l.tabs - n) + a;
    }
    if |a| <= |h| && h[|h| - |a|..] == a {
      TabbedSuffix(l, n, w);
    }
  }

  lemma TabbedSuffix(l: Line, n: nat, w: string)
    requires Shaped(l) && KeyOk(w) && n > 0
    requires EndsWith(Head(l), Tabs(n) + w)
    ensures l.key == w && l.tabs >= n
  {
    var h := Head(l);
    var a := Tabs(n) + w;
    var d := |h| - |a|;
    assert forall i | 0 <= i < |h| :: h[i] == '\t' <==> i < l.tabs by {
      assert forall i | l.tabs <= i < |h| :: h[i] == l.key[i - l.tabs];
    }
    assert h[d..][n - 1] == '\t' && h[d..][n] == w[0];
    assert h[d + n - 1] == '\t' && h[d + n] == w[0];
    assert l.tabs == d + n;
    assert h[l.tabs..] == l.key && h[d..][n..] == w;
  }

  lemma TabbedKeys()
    ensures "\t\tGROUP" == Tabs(2) + "GROUP"
    ensures "\t\tEND_GROUP" == Tabs(2) + "END_GROUP"
    ensures "\t\t\tEND_GROUP" == Tabs(3) + "END_GROUP"
    ensures "\t\t\t\tLevelName" == Tabs(4) + "LevelName"
  {
  }

  /** An inert value holds no key of a group or name search. */
  lemma InertQuiet(v: string, a: string, b: string)
    requires Inert(v)
    requires GroupSearch(a) || NameStart(b)
    ensures !Contains(v, a + "=" + b)
  {
    if Contains(v, a + "=" + b) {
      if GroupSearch(a) {
        assert a == a[..|a| - 5] + "GROUP";
        assert a + "=" + b == a[..|a| - 5] + "GROUP=" + b;
        ContainsMid(v, a[..|a| - 5], "GROUP=", b);
      } else {
        NotQuoteEnd(v, a, b);
      }
    }
  }

  lemma NotQuoteEnd(v: string, a: string, b: string)
    requires SignsEnd(v) && NameStart(b)
    ensures !Contains(v, a + "=" + b)
  {
    if Contains(v, a + "=" + b) {
      var m := SignHit(v, a, b);
    }
  }

  /** Where the equals sign and the quote of a name search stand. */
  lemma SignHit(v: string, a: string, b: string) returns (m: nat)
    requires |b| >= 2 && b[0] == '"' && Contains(v, a + "=" + b)
    ensures m + 1 + |b| <= |v| && OccursAt(v, "=\"", m) && v[m + 2] == b[1]
  {
    var k := a + "=" + b;
    var i: nat :| i <= |v| && OccursAt(v, k, i);
    m := i + |a|;
    assert k == a + "=\"" + b[1..] && k[|a| + 2] == b[1];
    MiddleOccurs(v, a, "=\"", b[1..], i);
    OccursIdx(v, k, i, m + 2);
  }

  lemma GroupPlain(l: Line, a: string, b: string)
    requires Shaped(l) && (a == "GROUP" || a == "END_GROUP")
    ensures Aligned(l, a, b) <==> EndsWith(l.key, a) && b <= l.val
    ensures Aligned(l, a, b) ==> l.key[|l.key| - 1] == 'P'
  {
    AlignedPlain(l, a, b);
    EndsWithChar(l.key, a, 1);
  }

  lemma GroupTabbed(l: Line, n: nat, w: string, a: string, b: string)
    requires Shaped(l) && (w == "GROUP" || w == "END_GROUP") && n > 0 && a == Tabs(n) + w
    ensures Aligned(l, a, b) <==> l.key == w && l.tabs >= n && b <= l.val
    ensures Aligned(l, a, b) ==> l.key[|l.key| - 1] == 'P'
  {
    AlignedTabs(l, n, w, b);
  }

  lemma GroupWords(a: string)
    requires GroupSearch(a)
    ensures |a| in {5, 9, 7, 11, 12}
    ensures |a| == 5 ==> a == "GROUP"
    ensures |a| == 9 ==> a == "END_GROUP"
    ensures |a| == 7 ==> a == Tabs(2) + "GROUP" == "\t\tGROUP"
    ensures |a| == 11 ==> a == Tabs(2) + "END_GROUP" == "\t\tEND_GROUP"
    ensures |a| == 12 ==> a == Tabs(3) + "END_GROUP" == "\t\t\tEND_GROUP"
  {
    TabbedKeys();
  }

  lemma GroupWordLengths()
    ensures |"GROUP"| == 5 && |"END_GROUP"| == 9 && |"\t\tGROUP"| == 7 && |"\t\tEND_GROUP"| == 11 && |"\t\t\tEND_GROUP"| == 12
  {
  }

  /** Lines aligned with a group search have the key it looks for. */
  lemma GroupAligned(l: Line, a: string, b: string)
    requires Shaped(l) && GroupSearch(a)
    ensures a == "GROUP" ==> (Aligned(l, a, b) <==> EndsWith(l.key, "GROUP") && b <= l.val)
    ensures a == "END_GROUP" ==> (Aligned(l, a, b) <==> EndsWith(l.key, "END_GROUP") && b <= l.val)
    ensures a == "\t\tGROUP" ==> (Aligned(l, a, b) <==> l.key == "GROUP" && l.tabs >= 2 && b <= l.val)
    ensures a == "\t\tEND_GROUP" ==> (Aligned(l, a, b) <==> l.key == "END_GROUP" && l.tabs >= 2 && b <= l.val)
    ensures a == "\t\t\tEND_GROUP" ==> (Aligned(l, a, b) <==> l.key == "END_GROUP" && l.tabs >= 3 && b <= l.val)
    ensures Aligned(l, a, b) ==> l.key[|l.key| - 1] == 'P'
  {
    GroupWords(a);
    GroupWordLengths();
    if |a| == 5 || |a| == 9 {
      GroupPlain(l, a, b);
    } else if |a| == 7 {
      GroupTabbed(l, 2, "GROUP", a, b);
    } else if |a| == 11 {
      GroupTabbed(l, 2, "END_GROUP", a, b);
    } else {
      GroupTabbed(l, 3, "END_GROUP", a, b);
    }
  }

  lemma TameQuietGroup(l: Line, a: string, b: string)
    requires Tame(l) && GroupSearch(a)
    ensures Quiet(l, a, b)
  {
    GroupAligned(l, a, b);
    InertQuiet(l.val, a, b);
  }

  lemma TameQuietName(l: Line, a: string, b: string)
    requires Tame(l) && NameSearch(a, b)
    ensures Quiet(l, a, b)
  {
    AlignedPlain(l, a, b);
    EndsWithChar(l.key, a, 1);
    InertQuiet(l.val, a, b);
  }

  lemma PrefixesOfOne(x: string, y: string, v: string)
    ensures x <= v && y <= v ==> x <= y || y <= x
  {
  }

  lemma InEntryQuietGroup(l: Line, a: string, b: string)
    requires InEntry(l) && GroupSearch(a) && NotLevel(b)
    ensures Quiet(l, a, b)
  {
    if Tame(l) {
      TameQuietGroup(l, a, b);
    } else {
      GroupAligned(l, a, b);
      InertQuiet(l.val, a, b);
      PrefixesOfOne(b, "Level_", l.val);
    }
  }

  lemma LevelKeyApart(key: string, a: string)
    requires key in {"GROUP", "END_GROUP", "LevelName"} && a in {"SwathName", "GridName", "PointName"}
    ensures !EndsWith(key, a)
  {
    EndsWithChar(key, a, 1);
    EndsWithChar(key, a, 5);
  }

  lemma NameKeyOk(a: string)
    requires a in {"SwathName", "GridName", "PointName"}
    ensures KeyOk(a)
  {
  }

  lemma LevelLineApart(l: Line, a: string, b: string)
    requires Shaped(l) && l.key in {"GROUP", "END_GROUP", "LevelName"} && a in {"SwathName", "GridName", "PointName"}
    ensures !Aligned(l, a, b)
  {
    LevelKeyApart(l.key, a);
    NameKeyOk(a);
    AlignedPlain(l, a, b);
  }

  lemma LevelLineQuiet(l: Line, a: string, b: string)
    requires Shaped(l) && Inert(l.val) && l.key in {"GROUP", "END_GROUP", "LevelName"} && NameSearch(a, b)
    ensures Quiet(l, a, b)
  {
    LevelLineApart(l, a, b);
    InertQuiet(l.val, a, b);
  }

  lemma InEntryQuietName(l: Line, a: string, b: string)
    requires InEntry(l) && NameSearch(a, b)
    ensures Quiet(l, a, b)
  {
    if Tame(l) {
      TameQuietName(l, a, b);
    } else {
      LevelLineQuiet(l, a, b);
    }
  }

  // --------------------------------------------------- the lines of entries

  lemma AttrsAreOk(e: Entry)
    requires EntryOk(e)
    ensures AttrsOk(Attrs(e))
  {
    match e
    case Dimension(n, s) => DimensionAttrs(e);
    case DimensionMap(g, d, o, i) => MapAttrs(e);
    case IndexMap(g, d) => IndexMapAttrs(e);
    case GeoField(n, t, ds, x) =>
      KeyGeoFieldName();
      FieldAttrsOk("GeoFieldName", n, t, ds, x);
    case DataField(n, t, ds, x) =>
      KeyDataFieldName();
      FieldAttrsOk("DataFieldName", n, t, ds, x);
    case Merged(n, ms) => MergedAttrs(e);
    case Level(_, _) =>
    case LevelLink(p, c, l) => LinkAttrs(e);
  }

  lemma DimensionAttrs(e: Entry)
    requires e.Dimension? && EntryOk(e)
    ensures AttrsOk(Attrs(e))
  {
    InertQuoted(e.name);
    InertDec(e.size);
    KeyDimensionName();
    KeySize();
  }

  lemma MapAttrs(e: Entry)
    requires e.DimensionMap? && EntryOk(e)
    ensures AttrsOk(Attrs(e))
  {
    InertQuoted(e.geo);
    InertQuoted(e.data);
    InertDec(e.offset);
    InertDec(e.increment);
    KeyGeoDimension();
    KeyDataDimension();
    KeyOffset();
    KeyIncrement();
  }

  lemma IndexMapAttrs(e: Entry)
    requires e.IndexMap? && EntryOk(e)
    ensures AttrsOk(Attrs(e))
  {
    InertQuoted(e.geo);
    InertQuoted(e.data);
    KeyGeoDimension();
    KeyDataDimension();
  }

  lemma MergedAttrs(e: Entry)
    requires e.Merged? && EntryOk(e)
    ensures AttrsOk(Attrs(e))
  {
    InertQuoted(e.name);
    InertList(e.members);
    KeyMergedFieldName();
    KeyFieldList();
  }

  lemma LinkAttrs(e: Entry)
    requires e.LevelLink? && EntryOk(e)
    ensures AttrsOk(Attrs(e))
  {
    InertQuoted(e.parent);
    InertQuoted(e.child);
    InertQuoted(e.link);
    KeyParent();
    KeyChild();
    KeyLinkField();
  }

  lemma PFieldAttrsOk(p: PField)
    requires PFieldOk(p)
    ensures AttrsOk(PFieldAttrs(p))
  {
    InertQuoted(p.name);
    InertType(p.ntype);
    InertDec(p.order);
    KeyPointFieldName();
    KeyDataType();
    KeyOrder();
  }

  lemma {:induction false} PFieldLinesTame(ps: seq<PField>)
    requires forall p <- ps :: PFieldOk(p)
    ensures AllTame(PFieldLines(ps))
  {
    if ps != [] {
      var p := ps[|ps| - 1];
      PFieldLinesTame(ps[..|ps| - 1]);
      PFieldObjectTame(p, |ps|);
    }
  }

  lemma PFieldObjectTame(p: PField, n: nat)
    requires PFieldOk(p)
    ensures AllTame(ObjectLines(4, Numbered("PointField", n), PFieldAttrs(p)))
  {
    PFieldAttrsOk(p);
    PointFieldTag(n);
    ObjectLinesTame(4, Numbered("PointField", n), PFieldAttrs(p));
  }

  lemma PointFieldTag(n: nat)
    ensures Inert(Numbered("PointField", n))
  {
    InertTag("PointField_", n);
    assert Numbered("PointField", n) == "PointField_" + Dec(n);
  }

  lemma InertNumbered(e: Entry, n: nat)
    ensures Inert(Numbered(GroupOf(e), n))
  {
    PlainGroup(e);
    PlainUnderscore(GroupOf(e));
    InertTag(GroupOf(e) + "_", n);
  }

  predicate Plain(g: string) { ValOk(g) && 'E' !in g && '=' !in g }

  lemma PlainGroup(e: Entry)
    ensures Plain(GroupOf(e))
  {
    match e
    case Dimension(_, _) => PlainDimension();
    case DimensionMap(_, _, _, _) => PlainMap();
    case IndexMap(_, _) => PlainIndex();
    case GeoField(_, _, _, _) => PlainShort();
    case DataField(_, _, _, _) => PlainData();
    case Merged(_, _) => PlainMerged();
    case Level(_, _) => PlainShort();
    case LevelLink(_, _, _) => PlainLink();
  }

  lemma PlainShort()
    ensures Plain("Level") && Plain("GeoField")
  {
  }

  lemma PlainDimension()
    ensures Plain("Dimension")
  {
  }

  lemma PlainMap()
    ensures Plain("DimensionMap")
  {
  }

  lemma PlainIndex()
    ensures Plain("IndexDimensionMap")
  {
  }

  lemma PlainData()
    ensures Plain("DataField")
  {
  }

  lemma PlainMerged()
    ensures Plain("MergedFields")
  {
  }

  lemma PlainLink()
    ensures Plain("LevelLink")
  {
  }

  lemma PlainUnderscore(g: string)
    requires Plain(g)
    ensures Plain(g + "_")
  {
  }

  lemma EntryLinesOk(e: Entry, n: nat)
    requires EntryOk(e)
    ensures AllInEntry(EntryLines(e, n))
    ensures !e.Level? ==> AllTame(EntryLines(e, n))
  {
    if e.Level? {
      InertNumbered(e, n);
      var tag := Numbered("Level", n);
      assert tag[..6] == "Level_";
      GroupLineOk(Line(3, "GROUP", tag));
      GroupLineOk(Line(3, "END_GROUP", tag));
      InertQuoted(e.name);
      NameLineOk(Line(4, "LevelName", Quoted(e.name)));
      PFieldLinesTame(e.fields);
    } else {
      InertNumbered(e, n + 1);
      AttrsAreOk(e);
      ObjectLinesTame(3, Numbered(GroupOf(e), n + 1), Attrs(e));
    }
  }

  lemma {:induction false} EntriesLinesOk(g: string, es: seq<Entry>)
    requires GroupOk(g, es)
    ensures AllInEntry(EntriesLines(es))
    ensures g != "Level" ==> AllTame(EntriesLines(es))
  {
    if es != [] {
      EntriesLinesOk(g, es[..|es| - 1]);
      assert EntryOk(es[|es| - 1]) && GroupOf(es[|es| - 1]) == g;
      EntryLinesOk(es[|es| - 1], |es| - 1);
    }
  }
}
