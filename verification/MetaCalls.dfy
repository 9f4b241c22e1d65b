/** The strings the callers pass are taken apart again into the entry they were
    made from, so the segment built from a call prints the requested entry. */
module MetaCalls {
  import opened CText
  import opened ListText
  import opened OdlLines
  import opened MetaTree
  import opened MetaEdit
  import opened MetaRequest
  import opened MetaSegments

  lemma CutAtIs(a: string, c: char, b: string)
    requires c !in a
    ensures CutAt(a + [c] + b, c) == Some((a, b))
  {
    var s := a + [c] + b;
    assert forall i: nat :: i < |a| ==> s[i] == a[i] && a[i] in a;
    StrChrIs(s, c, 0, |a|);
    assert s[..|a|] == a && s[|a| + 1..] == b;
  }

  lemma CutAtNone(a: string, c: char)
    requires c !in a
    ensures CutAt(a, c) == None
  {
    assert forall i | 0 <= i < |a| :: a[i] in a;
  }

  lemma CutSlashIs(a: string, b: string)
    requires a != "" && '/' !in a && '/' !in b
    ensures CutSlash(a + "/" + b) == Some((a, b))
  {
    CutSlashAt(a, b);
    assert forall i | 0 <= i < |b| :: b[i] in b;
  }

  /** The text is cut at the first slash, and no more than eight entries are parsed. */
  lemma CutSlashAt(a: string, b: string)
    requires a != "" && '/' !in a
    ensures CutSlash(a + "/" + b) == if |Parts(b, '/')| <= 7 then Some((a, b)) else None
  {
    var s := a + "/" + b;
    assert '/' !in a[1..];
    SplitFirst(a, b, '/');
    assert s == a + ['/'] + b;
    assert s[..|a|] == a && s[|a| + 1..] == b;
  }

  lemma NameChars(s: string)
    requires NameOk(s)
    ensures ':' !in s && '/' !in s && ',' !in s && '"' !in s && '\n' !in s && s != ""
  {
  }

  lemma NoWords(s: string)
    requires '=' !in s && 'E' !in s
    ensures !Contains(s, "GROUP=") && !Contains(s, "END_OBJECT") && !Contains(s, "END_GROUP")
  {
    NotContainsChar(s, "GROUP=", 5);
    NotContainsChar(s, "END_OBJECT", 0);
    NotContainsChar(s, "END_GROUP", 0);
  }

  lemma EqualsNoWords(s: string)
    requires 'U' !in s && 'E' !in s
    ensures !Contains(s, "GROUP=") && !Contains(s, "END_OBJECT") && !Contains(s, "END_GROUP")
  {
    NotContainsChar(s, "GROUP=", 3);
    NotContainsChar(s, "END_OBJECT", 0);
    NotContainsChar(s, "END_GROUP", 0);
  }

  lemma LetterOk(c: char)
    requires ('a' <= c <= 'z' || 'A' <= c <= 'Z') && c != 'E'
    ensures NameOk([c]) && NameOk("MRGFLD_" + [c])
  {
    NoWords([c]);
    NoWords("MRGFLD_" + [c]);
  }

  /** A character of names that is in none of the reserved words. */
  predicate PlainChar(c: char) { 'a' <= c <= 'z' || 'F' <= c <= 'S' || c == '_' || c == '=' || c == 'D' || c == 'T' || '0' <= c <= '9' }

  predicate Plain(s: string) { forall i | 0 <= i < |s| :: PlainChar(s[i]) }

  lemma PlainCat(a: string, b: string)
    requires Plain(a) && Plain(b)
    ensures Plain(a + b)
  {
  }

  lemma PlainOk(s: string)
    requires Plain(s) && s != "" && s[|s| - 1] != '='
    ensures NameOk(s)
  {
    assert forall i | 0 <= i < |s| :: PlainChar(s[i]);
    EqualsNoWords(s);
  }

  /** A name that holds a key. */
  lemma KeyName(pre: string, key: string, post: string) returns (s: string)
    requires Plain(pre) && Plain(key) && Plain(post) && post != "" && post[|post| - 1] != '='
    ensures s == pre + key + post && NameOk(s) && Contains(s, key)
  {
    s := pre + key + post;
    OccursIn(pre, key, post, key, 0);
    PlainCat(pre, key);
    PlainCat(pre + key, post);
    PlainOk(s);
  }

  /** A name of one letter, repeated. */
  function Letters(c: char, n: nat): (s: string)
    ensures |s| == n && forall i | 0 <= i < n :: s[i] == c
  {
    seq(n, _ => c)
  }

  lemma LettersOk(c: char, n: nat)
    requires 'a' <= c <= 'z' && n > 0
    ensures NameOk(Letters(c, n)) && '=' !in Letters(c, n)
  {
    NoWords(Letters(c, n));
  }

  lemma PartChars(s: string)
    requires PartOk(s)
    ensures ':' !in s && '/' !in s && ',' !in s && '"' !in s && '\n' !in s
  {
  }

  lemma {:induction false} JoinNoColon(ss: seq<string>)
    requires ss != [] && forall s <- ss :: PartOk(s)
    ensures ':' !in Join(ss, ',') && (ss[0] != "" ==> Join(ss, ',') != "")
  {
    PartChars(ss[0]);
    if |ss| > 1 {
      JoinNoColon(ss[1..]);
    }
  }

  lemma MetaListIs(ss: seq<string>)
    requires PartsOk(ss) && |QuotedList(ss)| < UTLSTRSIZE
    ensures MetaList(Join(ss, ',')) == Some(QuotedList(ss))
  {
    JoinNoColon(ss);
    forall i | 0 <= i < |ss| ensures ',' !in ss[i] {
      assert ss[i] in ss;
      PartChars(ss[i]);
    }
    assert ',' !in ss[0][1..];
    SplitJoin(ss, ',');
  }

  // -------------------------------------------------------------------- fields

  /** The extra lines of a field, moved over by one newline. */
  lemma {:induction false} ExtraLines(xs: seq<Attr>)
    ensures ExtraText(xs) + "\n" == "\n" + Text(AttrLines(4, xs))
  {
    if xs != [] {
      AttrText(4, xs);
      ExtraLines(xs[1..]);
      var l := Line(4, xs[0].key, xs[0].val);
      FourTabs();
      assert LineText(l) == "\t\t\t\t" + xs[0].key + "=" + xs[0].val + "\n";
      ExtraStep("\t\t\t\t" + xs[0].key + "=" + xs[0].val, ExtraText(xs[1..]), Text(AttrLines(4, xs[1..])));
      assert "\n\t\t\t\t" + xs[0].key + "=" + xs[0].val == "\n" + ("\t\t\t\t" + xs[0].key + "=" + xs[0].val) by {
        assert "\n\t\t\t\t" == "\n" + "\t\t\t\t";
      }
    }
  }

  lemma FourTabs()
    ensures Tabs(4) == "\t\t\t\t"
  {
  }

  lemma ExtraStep(a: string, x: string, t: string)
    requires x + "\n" == "\n" + t
    ensures "\n" + a + x + "\n" == "\n" + (a + "\n" + t)
  {
    assert "\n" + a + x + "\n" == "\n" + a + (x + "\n");
    assert "\n" + a + ("\n" + t) == "\n" + (a + "\n" + t);
  }

  /** What the three literals of a field segment must be. */
  predicate FieldLiterals(g: string, key: string, open: string, nameKey: string, close: string) {
    && open == Tabs(3) + "OBJECT" + "=" + g + "_"
    && nameKey == Tabs(4) + key + "=\""
    && close == Tabs(3) + "END_OBJECT" + "=" + g + "_"
  }

  lemma FieldText(g: string, key: string, open: string, nameKey: string, close: string,
                  name: string, ntype: int, dims: seq<string>, extra: seq<Attr>, c: int)
    requires FieldLiterals(g, key, open, nameKey, close)
    ensures Text(ObjectLines(3, Numbered(g, c), FieldAttrs(key, name, ntype, dims, extra)))
         == Row(open, Dec(c)) + Row(nameKey, name + "\"") + Row("\t\t\t\tDataType=", TypeName(ntype)) + "\t\t\t\tDimList=" + QuotedList(dims)
            + ExtraText(extra) + ("\n" + Row(close, Dec(c)))
  {
    var own := [Attr(key, Quoted(name)), Attr("DataType", TypeName(ntype)), Attr("DimList", QuotedList(dims))];
    FieldWords();
    ObjectText(3, g, c, own + extra, open, close);
    assert AttrLines(4, own + extra) == AttrLines(4, own) + AttrLines(4, extra);
    TextCat(AttrLines(4, own), AttrLines(4, extra));
    AttrText3(4, own[0], own[1], own[2]);
    RowQuoted(nameKey, 4, key, name);
    RowPlain("\t\t\t\tDataType=", 4, "DataType", TypeName(ntype));
    RowPlain("\t\t\t\tDimList=", 4, "DimList", QuotedList(dims));
    ExtraLines(extra);
    FieldFlat(Row(open, Dec(c)), Row(nameKey, name + "\""), Row("\t\t\t\tDataType=", TypeName(ntype)), "\t\t\t\tDimList=",
              QuotedList(dims), ExtraText(extra), Text(AttrLines(4, extra)), Row(close, Dec(c)));
  }

  lemma FieldFlat(o: string, a: string, b: string, d: string, q: string, x: string, t: string, z: string)
    requires x + "\n" == "\n" + t
    ensures o + (a + b + (d + q + "\n") + t) + z == o + a + b + d + q + x + ("\n" + z)
  {
    assert (d + q + "\n") + t == d + q + ("\n" + t);
    assert d + q + (x + "\n") == d + q + x + "\n";
    FieldFlat2(o, a, b, d + q + "\n", t, z);
    FieldFlat3(o + a + b, d + q, x, z);
    assert o + a + b + (d + q) == o + a + b + d + q;
  }

  lemma FieldFlat2(o: string, a: string, b: string, c: string, t: string, z: string)
    ensures o + (a + b + c + t) + z == o + a + b + (c + t) + z
  {
  }

  lemma FieldFlat3(o: string, d: string, x: string, z: string)
    ensures o + (d + x + "\n") + z == o + d + x + ("\n" + z)
  {
  }

  lemma FieldSegIs(g: string, key: string, open: string, nameKey: string, close: string,
                   name: string, ntype: int, dims: seq<string>, extra: seq<Attr>, c: int)
    requires FieldLiterals(g, key, open, nameKey, close)
    requires NameOk(name) && KnownType(ntype) && PartsOk(dims)
    requires |Text(ObjectLines(3, Numbered(g, c), FieldAttrs(key, name, ntype, dims, extra)))| < UTLSTRSIZE
    ensures FieldSeg(open, nameKey, close, FieldMeta(name, dims, extra), [ntype], c)
         == Some(Text(ObjectLines(3, Numbered(g, c), FieldAttrs(key, name, ntype, dims, extra))))
  {
    var text := Text(ObjectLines(3, Numbered(g, c), FieldAttrs(key, name, ntype, dims, extra)));
    FieldText(g, key, open, nameKey, close, name, ntype, dims, extra, c);
    FieldMetaParts(name, dims, extra);
    MetaListIs(dims);
    FieldSegEval(open, nameKey, close, FieldMeta(name, dims, extra), ntype, c,
                 name, CutAt(FieldMeta(name, dims, extra), ':').value.1, Join(dims, ','), ExtraText(extra), QuotedList(dims), text);
  }

  /** The steps of the field branch, when each of them succeeds. */
  lemma FieldSegEval(open: string, nameKey: string, close: string, meta: string, ntype: int, c: int,
                     name: string, rest: string, dims: string, extra: string, list: string, text: string)
    requires CutAt(meta, ':') == Some((name, rest)) && KnownType(ntype) && MetaList(dims) == Some(list)
    requires match CutAt(rest, ':') case None => rest == dims && extra == "" case Some((d, x)) => d == dims && x == extra
    requires text == Row(open, Dec(c)) + Row(nameKey, name + "\"") + Row("\t\t\t\tDataType=", TypeName(ntype)) + "\t\t\t\tDimList=" + list
                     + extra + ("\n" + Row(close, Dec(c)))
    requires |text| < UTLSTRSIZE
    ensures FieldSeg(open, nameKey, close, meta, [ntype], c) == Some(text)
  {
  }

  /** Both colons are found where the caller put them. */
  lemma FieldMetaParts(name: string, dims: seq<string>, extra: seq<Attr>)
    requires NameOk(name) && PartsOk(dims)
    ensures CutAt(FieldMeta(name, dims, extra), ':').Some?
    ensures var (n, rest) := CutAt(FieldMeta(name, dims, extra), ':').value;
            n == name &&
            match CutAt(rest, ':')
            case None => rest == Join(dims, ',') && ExtraText(extra) == ""
            case Some((d, x)) => d == Join(dims, ',') && x == ExtraText(extra)
  {
    NameChars(name);
    JoinNoColon(dims);
    MetaChain(name, Join(dims, ','), ExtraPart(extra));
    MetaParts(FieldMeta(name, dims, extra), name, Join(dims, ','), ExtraText(extra), ExtraPart(extra));
  }

  lemma MetaParts(meta: string, name: string, j: string, x: string, part: string)
    requires meta == name + [':'] + (j + part) && ':' !in name && ':' !in j
    requires if part == "" then x == "" else part == ":" + x
    ensures CutAt(meta, ':') == Some((name, j + part))
    ensures match CutAt(j + part, ':')
            case None => j + part == j && x == ""
            case Some((d, y)) => d == j && y == x
  {
    CutAtIs(name, ':', j + part);
    if part == "" {
      assert j + part == j;
      CutAtNone(j, ':');
    } else {
      assert j + part == j + [':'] + x;
      CutAtIs(j, ':', x);
    }
  }

  lemma MetaChain(n: string, j: string, x: string)
    ensures n + ":" + j + x == n + [':'] + (j + x)
  {
  }

  // -------------------------------------------------------------- every entry

  /** The segment of an entry's call is the entry's text. */
  predicate SegMatches(k: Kind, s: string, e: Entry, n: nat) {
    SegOf(EntryCall(k, s, e), if e.Level? then n else n + 1) == Some(Text(EntryLines(e, n)))
  }

  predicate Insertable(e: Entry, n: nat) {
    EntryOk(e) && (e.Level? ==> e.fields == []) && |Text(EntryLines(e, n))| < UTLSTRSIZE
  }

  lemma EntrySeg(k: Kind, s: string, e: Entry, n: nat)
    requires Insertable(e, n)
    ensures SegMatches(k, s, e, n)
  {
    match e
    case Dimension(_, _) => DimSegIs(k, s, e, n);
    case DimensionMap(g, d, _, _) => MapSegIs(k, s, e, n);
    case IndexMap(g, d) => IndexSegIs(k, s, e, n);
    case GeoField(_, _, _, _) => GeoSegIs(k, s, e, n);
    case DataField(_, _, _, _) => DataSegIs(k, s, e, n);
    case Merged(_, _) => MergedSegIs(k, s, e, n);
    case Level(_, _) => LevelSegIs(k, s, e, n);
    case LevelLink(_, _, _) => LinkSegIs(k, s, e, n);
  }

  lemma DimSegIs(k: Kind, s: string, e: Entry, n: nat)
    requires e.Dimension? && Insertable(e, n)
    ensures SegMatches(k, s, e, n)
  {
    DimensionSegText(e, n);
  }

  lemma LevelSegIs(k: Kind, s: string, e: Entry, n: nat)
    requires e.Level? && Insertable(e, n)
    ensures SegMatches(k, s, e, n)
  {
    LevelSegText(e, n);
  }

  // One branch of the segment switch at a time.

  lemma SwitchMap(c: Call, geo: string, data: string, count: int)
    requires c.metacode == 1 && CutSlash(c.metastr) == Some((geo, data)) && |c.metadata| >= 2
    ensures SegOf(c, count) == Some(Fmt(DimensionMapSeg(geo, data, c.metadata[0], c.metadata[1], count)))
  {
  }

  lemma SwitchIndex(c: Call, geo: string, data: string, count: int)
    requires c.metacode == 2 && CutSlash(c.metastr) == Some((geo, data))
    ensures SegOf(c, count) == Some(Fmt(IndexMapSeg(geo, data, count)))
  {
  }

  lemma SwitchGeo(c: Call, count: int)
    requires c.metacode == 3
    ensures SegOf(c, count) == FieldSeg("\t\t\tOBJECT=GeoField_", "\t\t\t\tGeoFieldName=\"", "\t\t\tEND_OBJECT=GeoField_", c.metastr, c.metadata, count)
  {
  }

  lemma SwitchData(c: Call, count: int)
    requires c.metacode == 4
    ensures SegOf(c, count) == FieldSeg("\t\t\tOBJECT=DataField_", "\t\t\t\tDataFieldName=\"", "\t\t\tEND_OBJECT=DataField_", c.metastr, c.metadata, count)
  {
  }

  lemma SwitchLink(c: Call, levels: string, parent: string, child: string, link: string, count: int)
    requires c.metacode == 12 && CutAt(c.metastr, ':') == Some((levels, link)) && CutAt(levels, '/') == Some((parent, child))
    ensures SegOf(c, count) == Some(Fmt(LevelLinkSeg(parent, child, link, count)))
  {
  }

  lemma SwitchMerged(c: Call, name: string, rest: string, list: string, count: int)
    requires c.metacode == 6 && CutAt(c.metastr, ':') == Some((name, rest)) && MetaList(rest) == Some(list)
    ensures SegOf(c, count) == Some(Fmt(Row("\t\t\tOBJECT=MergedFields_", Dec(count)) + Row("\t\t\t\tMergedFieldName=\"", name + "\"")
                                        + Row("\t\t\t\tFieldList=", list) + Row("\t\t\tEND_OBJECT=MergedFields_", Dec(count))))
  {
    SegIsMerged(c, count);
  }

  lemma SegIsMerged(c: Call, count: int)
    requires c.metacode == 6
    ensures SegOf(c, count) == MergedSeg(c.metastr, count)
  {
  }

  lemma SwitchPointField(c: Call, name: string, level: string, count: int)
    requires c.metacode == 11 && CutAt(c.metastr, ':') == Some((name, level)) && |c.metadata| >= 2 && KnownType(c.metadata[0])
    ensures SegOf(c, count) == Some(Fmt(PointFieldSeg(name, c.metadata[0], c.metadata[1], count)))
  {
  }

  lemma MapSegIs(k: Kind, s: string, e: Entry, n: nat)
    requires e.DimensionMap? && Insertable(e, n)
    ensures SegMatches(k, s, e, n)
  {
    var c := MapCall(k, s, e);
    SwitchMap(c, e.geo, e.data, n + 1);
    DimensionMapSegText(e, n);
  }

  lemma MapCall(k: Kind, s: string, e: Entry) returns (c: Call)
    requires e.DimensionMap? && EntryOk(e)
    ensures c == EntryCall(k, s, e) && c.metacode == 1 && CutSlash(c.metastr) == Some((e.geo, e.data))
    ensures c.metadata == [e.offset, e.increment]
  {
    c := EntryCall(k, s, e);
    NameChars(e.geo);
    PartChars(e.data);
    CutSlashIs(e.geo, e.data);
  }

  lemma IndexSegIs(k: Kind, s: string, e: Entry, n: nat)
    requires e.IndexMap? && Insertable(e, n)
    ensures SegMatches(k, s, e, n)
  {
    NameChars(e.geo);
    PartChars(e.data);
    CutSlashIs(e.geo, e.data);
    SwitchIndex(EntryCall(k, s, e), e.geo, e.data, n + 1);
    IndexMapSegText(e, n);
  }

  lemma GeoSegIs(k: Kind, s: string, e: Entry, n: nat)
    requires e.GeoField? && Insertable(e, n)
    ensures SegMatches(k, s, e, n)
  {
    GeoFieldTags();
    GeoFieldWords();
    SwitchGeo(EntryCall(k, s, e), n + 1);
    FieldSegIs("GeoField", "GeoFieldName", "\t\t\tOBJECT=GeoField_", "\t\t\t\tGeoFieldName=\"", "\t\t\tEND_OBJECT=GeoField_",
               e.name, e.ntype, e.dims, e.extra, n + 1);
  }

  lemma DataSegIs(k: Kind, s: string, e: Entry, n: nat)
    requires e.DataField? && Insertable(e, n)
    ensures SegMatches(k, s, e, n)
  {
    DataFieldTags();
    DataFieldWords();
    SwitchData(EntryCall(k, s, e), n + 1);
    FieldSegIs("DataField", "DataFieldName", "\t\t\tOBJECT=DataField_", "\t\t\t\tDataFieldName=\"", "\t\t\tEND_OBJECT=DataField_",
               e.name, e.ntype, e.dims, e.extra, n + 1);
  }

  lemma MergedSegIs(k: Kind, s: string, e: Entry, n: nat)
    requires e.Merged? && Insertable(e, n)
    ensures SegMatches(k, s, e, n)
  {
    NameChars(e.name);
    CutAtIs(e.name, ':', Join(e.members, ','));
    MergedSegText(e, n);
    NameChars(e.members[0]);
    MetaListIs(e.members);
    SwitchMerged(EntryCall(k, s, e), e.name, Join(e.members, ','), QuotedList(e.members), n + 1);
  }

  lemma LinkSegIs(k: Kind, s: string, e: Entry, n: nat)
    requires e.LevelLink? && Insertable(e, n)
    ensures SegMatches(k, s, e, n)
  {
    NameChars(e.parent);
    NameChars(e.child);
    var levels := e.parent + "/" + e.child;
    assert ':' !in levels;
    assert e.parent + "/" + e.child + ":" + e.link == levels + [':'] + e.link;
    CutAtIs(levels, ':', e.link);
    CutAtIs(e.parent, '/', e.child);
    SwitchLink(EntryCall(k, s, e), levels, e.parent, e.child, e.link, n + 1);
    LevelLinkSegText(e, n);
  }

  lemma PointFieldSegIs(s: string, level: string, p: PField, c: nat)
    requires PFieldOk(p)
    requires |Text(ObjectLines(4, Numbered("PointField", c), PFieldAttrs(p)))| < UTLSTRSIZE
    ensures SegOf(CallOf(AddPointField(s, level, p)), c)
         == Some(Text(ObjectLines(4, Numbered("PointField", c), PFieldAttrs(p))))
  {
    NameChars(p.name);
    CutAtIs(p.name, ':', level);
    SwitchPointField(CallOf(AddPointField(s, level, p)), p.name, level, c);
    PointFieldSegText(p, c);
  }
}
