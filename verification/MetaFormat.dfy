/** The printed form of every element, line by line as it stands in the file, the call
    that inserts it, and where it goes. */
module MetaFormat {
  import opened CText
  import opened ListText
  import opened OdlLines
  import opened MetaTree
  import opened MetaEdit
  import opened MetaRequest
  import opened MetaSegments

  /** A text of these lines. */
  function Unlines(us: seq<string>): string { if us == [] then "" else us[0] + "\n" + Unlines(us[1..]) }

  predicate Reads(l: Line, u: string) { LineText(l) == u + "\n" }

  predicate AllRead(ls: seq<Line>, us: seq<string>) { |ls| == |us| && forall i | 0 <= i < |ls| :: Reads(ls[i], us[i]) }

  lemma {:induction false} UnlinesAre(ls: seq<Line>, us: seq<string>)
    requires AllRead(ls, us)
    ensures Text(ls) == Unlines(us)
  {
    if ls != [] {
      assert Reads(ls[0], us[0]);
      forall i | 0 <= i < |ls[1..]| ensures Reads(ls[1..][i], us[1..][i]) {
        assert Reads(ls[i + 1], us[i + 1]);
      }
      UnlinesAre(ls[1..], us[1..]);
    }
  }

  lemma PlainRead(n: nat, key: string, prefix: string, x: string)
    requires prefix == Tabs(n) + key + "="
    ensures Reads(Line(n, key, x), prefix + x)
  {
    RowPlain(prefix, n, key, x);
  }

  lemma QuotedRead(n: nat, key: string, prefix: string, name: string)
    requires prefix == Tabs(n) + key + "=\""
    ensures Reads(Line(n, key, Quoted(name)), prefix + name + "\"")
  {
    RowQuoted(prefix, n, key, name);
    assert prefix + (name + "\"") == prefix + name + "\"";
  }

  lemma NumberRead(n: nat, key: string, prefix: string, g: string, c: int)
    requires prefix == Tabs(n) + key + "=" + g + "_"
    ensures Reads(Line(n, key, Numbered(g, c)), prefix + Dec(c))
  {
    RowNumber(prefix, n, key, g, c);
  }

  /** An object with these lines of its own. */
  lemma ObjectWritten(n: nat, g: string, c: int, xs: seq<Attr>, us: seq<string>, open: string, close: string)
    requires open == Tabs(n) + "OBJECT" + "=" + g + "_" && close == Tabs(n) + "END_OBJECT" + "=" + g + "_"
    requires AllRead(AttrLines(n + 1, xs), us)
    ensures Text(ObjectLines(n, Numbered(g, c), xs)) == Unlines([open + Dec(c)] + us + [close + Dec(c)])
  {
    var ls, all := ObjectLines(n, Numbered(g, c), xs), [open + Dec(c)] + us + [close + Dec(c)];
    NumberRead(n, "OBJECT", open, g, c);
    NumberRead(n, "END_OBJECT", close, g, c);
    forall i | 0 <= i < |ls| ensures Reads(ls[i], all[i]) {
      if 0 < i <= |us| {
        assert ls[i] == AttrLines(n + 1, xs)[i - 1] && all[i] == us[i - 1];
      }
    }
    UnlinesAre(ls, all);
  }

  // ---------------------------------------------------------------- number types

  /** The byte sizes of the HDF number types. */
  function Size(n: int): nat {
    if n in {3, 4, 20, 21} then 1 else if n in {22, 23} then 2 else if n in {5, 24, 25} then 4 else 8
  }

  /** The ten names, none of them the short form that a lookup also knows. */
  lemma TypeNames()
    ensures TypeName(3) == "DFNT_UCHAR8" && TypeName(4) == "DFNT_CHAR8" && TypeName(5) == "DFNT_FLOAT32" && TypeName(6) == "DFNT_FLOAT64"
    ensures TypeName(20) == "DFNT_INT8" && TypeName(21) == "DFNT_UINT8" && TypeName(22) == "DFNT_INT16"
    ensures TypeName(23) == "DFNT_UINT16" && TypeName(24) == "DFNT_INT32" && TypeName(25) == "DFNT_UINT32"
    ensures forall n :: KnownType(n) <==> TypeName(n) != ""
  {
  }

  lemma BitTexts()
    ensures Dec(8) == "8" && Dec(16) == "16" && Dec(32) == "32" && Dec(64) == "64"
  {
    DecStep(1, 6);
    DecStep(3, 2);
    DecStep(6, 4);
    DecStep(0, 8);
  }

  /** The name that is written for a type ends with the number of its bits. */
  lemma TypeEnds(n: int)
    requires KnownType(n)
    ensures EndsWith(TypeName(n), Dec(8 * Size(n)))
  {
    TypeNames();
    BitTexts();
    if Size(n) == 1 {
      EndsThere(TypeName(n), "8");
    } else if Size(n) == 2 {
      EndsThere(TypeName(n), "16");
    } else if Size(n) == 4 {
      EndsThere(TypeName(n), "32");
    } else {
      EndsThere(TypeName(n), "64");
    }
  }

  lemma EndsThere(s: string, w: string)
    requires 0 < |w| <= 2 && |s| > 2 && s[|s| - 1] == w[|w| - 1] && (|w| == 2 ==> s[|s| - 2] == w[0])
    ensures EndsWith(s, w)
  {
    var e := s[|s| - |w|..];
    assert forall i | 0 <= i < |w| :: e[i] == s[|s| - |w| + i];
  }

  // -------------------------------------------------------------- swaths and grids

  predicate InQuotes(ps: seq<string>, qs: seq<string>) { |qs| == |ps| && forall i | 0 <= i < |ps| :: qs[i] == "\"" + ps[i] + "\"" }

  lemma DimensionWritten(k: Kind, nm: string, name: string, size: int, n: nat)
    ensures EntryCall(k, nm, Dimension(name, size)) == Call(nm, k, 0, name, [size])
    ensures Text(EntryLines(Dimension(name, size), n))
         == Unlines(["\t\t\tOBJECT=Dimension_" + Dec(n + 1)]
                    + ["\t\t\t\tDimensionName=\"" + name + "\"",
                       "\t\t\t\tSize=" + Dec(size)]
                    + ["\t\t\tEND_OBJECT=Dimension_" + Dec(n + 1)])
  {
    var xs := Attrs(Dimension(name, size));
    var us := ["\t\t\t\tDimensionName=\"" + name + "\"", "\t\t\t\tSize=" + Dec(size)];
    DimensionTags();
    DimensionWords();
    QuotedRead(4, "DimensionName", "\t\t\t\tDimensionName=\"", name);
    PlainRead(4, "Size", "\t\t\t\tSize=", Dec(size));
    ObjectWritten(3, "Dimension", n + 1, xs, us, "\t\t\tOBJECT=Dimension_", "\t\t\tEND_OBJECT=Dimension_");
  }

  lemma MapWritten(k: Kind, nm: string, geo: string, data: string, offset: int, increment: int, n: nat)
    ensures EntryCall(k, nm, DimensionMap(geo, data, offset, increment)) == Call(nm, k, 1, geo + "/" + data, [offset, increment])
    ensures Text(EntryLines(DimensionMap(geo, data, offset, increment), n))
         == Unlines(["\t\t\tOBJECT=DimensionMap_" + Dec(n + 1)]
                    + ["\t\t\t\tGeoDimension=\"" + geo + "\"",
                       "\t\t\t\tDataDimension=\"" + data + "\"",
                       "\t\t\t\tOffset=" + Dec(offset),
                       "\t\t\t\tIncrement=" + Dec(increment)]
                    + ["\t\t\tEND_OBJECT=DimensionMap_" + Dec(n + 1)])
  {
    var xs := Attrs(DimensionMap(geo, data, offset, increment));
    var us := ["\t\t\t\tGeoDimension=\"" + geo + "\"", "\t\t\t\tDataDimension=\"" + data + "\"",
               "\t\t\t\tOffset=" + Dec(offset), "\t\t\t\tIncrement=" + Dec(increment)];
    DimensionMapTags();
    MapWords();
    DimensionMapWords();
    QuotedRead(4, "GeoDimension", "\t\t\t\tGeoDimension=\"", geo);
    QuotedRead(4, "DataDimension", "\t\t\t\tDataDimension=\"", data);
    PlainRead(4, "Offset", "\t\t\t\tOffset=", Dec(offset));
    PlainRead(4, "Increment", "\t\t\t\tIncrement=", Dec(increment));
    ObjectWritten(3, "DimensionMap", n + 1, xs, us, "\t\t\tOBJECT=DimensionMap_", "\t\t\tEND_OBJECT=DimensionMap_");
  }

  lemma IndexMapWritten(k: Kind, nm: string, geo: string, data: string, n: nat)
    ensures EntryCall(k, nm, IndexMap(geo, data)) == Call(nm, k, 2, geo + "/" + data, [])
    ensures Text(EntryLines(IndexMap(geo, data), n))
         == Unlines(["\t\t\tOBJECT=IndexDimensionMap_" + Dec(n + 1)]
                    + ["\t\t\t\tGeoDimension=\"" + geo + "\"",
                       "\t\t\t\tDataDimension=\"" + data + "\""]
                    + ["\t\t\tEND_OBJECT=IndexDimensionMap_" + Dec(n + 1)])
  {
    var xs := Attrs(IndexMap(geo, data));
    var us := ["\t\t\t\tGeoDimension=\"" + geo + "\"", "\t\t\t\tDataDimension=\"" + data + "\""];
    IndexMapOpen();
    IndexMapClose();
    MapWords();
    QuotedRead(4, "GeoDimension", "\t\t\t\tGeoDimension=\"", geo);
    QuotedRead(4, "DataDimension", "\t\t\t\tDataDimension=\"", data);
    ObjectWritten(3, "IndexDimensionMap", n + 1, xs, us, "\t\t\tOBJECT=IndexDimensionMap_", "\t\t\tEND_OBJECT=IndexDimensionMap_");
  }

  lemma MergedLines(name: string, members: seq<string>, quoted: seq<string>) returns (us: seq<string>)
    requires InQuotes(members, quoted)
    ensures us == ["\t\t\t\tMergedFieldName=\"" + name + "\"", "\t\t\t\tFieldList=" + ("(" + Join(quoted, ',') + ")")]
    ensures AllRead(AttrLines(4, Attrs(Merged(name, members))), us)
  {
    us := ["\t\t\t\tMergedFieldName=\"" + name + "\"", "\t\t\t\tFieldList=" + QuotedList(members)];
    MergedWords();
    QuotedListIs(members, quoted);
    QuotedRead(4, "MergedFieldName", "\t\t\t\tMergedFieldName=\"", name);
    PlainRead(4, "FieldList", "\t\t\t\tFieldList=", QuotedList(members));
  }

  lemma MergedWritten(k: Kind, nm: string, name: string, members: seq<string>, quoted: seq<string>, n: nat)
    requires InQuotes(members, quoted)
    ensures EntryCall(k, nm, Merged(name, members)) == Call(nm, k, 6, name + ":" + Join(members, ','), [])
    ensures Text(EntryLines(Merged(name, members), n))
         == Unlines(["\t\t\tOBJECT=MergedFields_" + Dec(n + 1)]
                    + ["\t\t\t\tMergedFieldName=\"" + name + "\"",
                       "\t\t\t\tFieldList=" + ("(" + Join(quoted, ',') + ")")]
                    + ["\t\t\tEND_OBJECT=MergedFields_" + Dec(n + 1)])
  {
    MergedTags();
    var us := MergedLines(name, members, quoted);
    ObjectWritten(3, "MergedFields", n + 1, Attrs(Merged(name, members)), us, "\t\t\tOBJECT=MergedFields_", "\t\t\tEND_OBJECT=MergedFields_");
  }

  /** Attribute lines, as they stand in an object. */
  predicate Written(xs: seq<Attr>, us: seq<string>) {
    |us| == |xs| && forall i | 0 <= i < |xs| :: us[i] == "\t\t\t\t" + xs[i].key + "=" + xs[i].val
  }

  lemma ExtraRead(xs: seq<Attr>, us: seq<string>)
    requires Written(xs, us)
    ensures AllRead(AttrLines(4, xs), us)
  {
    assert Tabs(4) == "\t\t\t\t";
    forall i | 0 <= i < |xs| ensures Reads(AttrLines(4, xs)[i], us[i]) {
      PlainRead(4, xs[i].key, "\t\t\t\t" + xs[i].key + "=", xs[i].val);
    }
  }

  lemma AllReadCat(a: seq<Line>, b: seq<Line>, us: seq<string>, vs: seq<string>)
    requires AllRead(a, us) && AllRead(b, vs)
    ensures AllRead(a + b, us + vs)
  {
    forall i | 0 <= i < |a + b| ensures Reads((a + b)[i], (us + vs)[i]) {
      if i >= |a| {
        assert Reads(b[i - |a|], vs[i - |a|]);
      }
    }
  }

  /** The lines of a field of either kind. */
  lemma FieldLines(key: string, prefix: string, name: string, ntype: int, dims: seq<string>, quoted: seq<string>, extra: seq<Attr>, us: seq<string>)
    returns (own: seq<string>)
    requires prefix == Tabs(4) + key + "=\"" && Written(extra, us)
    requires InQuotes(dims, quoted)
    ensures own == [prefix + name + "\"", "\t\t\t\tDataType=" + TypeName(ntype), "\t\t\t\tDimList=" + ("(" + Join(quoted, ',') + ")")]
    ensures AllRead(AttrLines(4, FieldAttrs(key, name, ntype, dims, extra)), own + us)
  {
    var xs := [Attr(key, Quoted(name)), Attr("DataType", TypeName(ntype)), Attr("DimList", QuotedList(dims))];
    own := [prefix + name + "\"", "\t\t\t\tDataType=" + TypeName(ntype), "\t\t\t\tDimList=" + QuotedList(dims)];
    MetaSegments.FieldWords();
    QuotedListIs(dims, quoted);
    QuotedRead(4, key, prefix, name);
    PlainRead(4, "DataType", "\t\t\t\tDataType=", TypeName(ntype));
    PlainRead(4, "DimList", "\t\t\t\tDimList=", QuotedList(dims));
    ExtraRead(extra, us);
    AllReadCat(AttrLines(4, xs), AttrLines(4, extra), own, us);
    assert AttrLines(4, FieldAttrs(key, name, ntype, dims, extra)) == AttrLines(4, xs) + AttrLines(4, extra);
  }

  lemma GeoFieldWritten(k: Kind, nm: string, name: string, ntype: int, dims: seq<string>, quoted: seq<string>, extra: seq<Attr>,
                        us: seq<string>, n: nat)
    requires Written(extra, us) && InQuotes(dims, quoted)
    ensures EntryCall(k, nm, GeoField(name, ntype, dims, extra)) == Call(nm, k, 3, FieldMeta(name, dims, extra), [ntype])
    ensures Text(EntryLines(GeoField(name, ntype, dims, extra), n))
         == Unlines(["\t\t\tOBJECT=GeoField_" + Dec(n + 1)]
                    + (["\t\t\t\tGeoFieldName=\"" + name + "\"",
                        "\t\t\t\tDataType=" + TypeName(ntype),
                        "\t\t\t\tDimList=" + ("(" + Join(quoted, ',') + ")")] + us)
                    + ["\t\t\tEND_OBJECT=GeoField_" + Dec(n + 1)])
  {
    GeoFieldTags();
    GeoFieldWords();
    var own := FieldLines("GeoFieldName", "\t\t\t\tGeoFieldName=\"", name, ntype, dims, quoted, extra, us);
    ObjectWritten(3, "GeoField", n + 1, FieldAttrs("GeoFieldName", name, ntype, dims, extra), own + us,
                  "\t\t\tOBJECT=GeoField_", "\t\t\tEND_OBJECT=GeoField_");
  }

  lemma DataFieldWritten(k: Kind, nm: string, name: string, ntype: int, dims: seq<string>, quoted: seq<string>, extra: seq<Attr>,
                         us: seq<string>, n: nat)
    requires Written(extra, us) && InQuotes(dims, quoted)
    ensures EntryCall(k, nm, DataField(name, ntype, dims, extra)) == Call(nm, k, 4, FieldMeta(name, dims, extra), [ntype])
    ensures Text(EntryLines(DataField(name, ntype, dims, extra), n))
         == Unlines(["\t\t\tOBJECT=DataField_" + Dec(n + 1)]
                    + (["\t\t\t\tDataFieldName=\"" + name + "\"",
                        "\t\t\t\tDataType=" + TypeName(ntype),
                        "\t\t\t\tDimList=" + ("(" + Join(quoted, ',') + ")")] + us)
                    + ["\t\t\tEND_OBJECT=DataField_" + Dec(n + 1)])
  {
    DataFieldTags();
    DataFieldWords();
    var own := FieldLines("DataFieldName", "\t\t\t\tDataFieldName=\"", name, ntype, dims, quoted, extra, us);
    ObjectWritten(3, "DataField", n + 1, FieldAttrs("DataFieldName", name, ntype, dims, extra), own + us,
                  "\t\t\tOBJECT=DataField_", "\t\t\tEND_OBJECT=DataField_");
  }

  // ----------------------------------------------------------------------- points

  lemma LinkWritten(k: Kind, nm: string, parent: string, child: string, link: string, n: nat)
    ensures EntryCall(k, nm, LevelLink(parent, child, link)) == Call(nm, k, 12, parent + "/" + child + ":" + link, [])
    ensures Text(EntryLines(LevelLink(parent, child, link), n))
         == Unlines(["\t\t\tOBJECT=LevelLink_" + Dec(n + 1)]
                    + ["\t\t\t\tParent=\"" + parent + "\"",
                       "\t\t\t\tChild=\"" + child + "\"",
                       "\t\t\t\tLinkField=\"" + link + "\""]
                    + ["\t\t\tEND_OBJECT=LevelLink_" + Dec(n + 1)])
  {
    var xs := Attrs(LevelLink(parent, child, link));
    var us := ["\t\t\t\tParent=\"" + parent + "\"", "\t\t\t\tChild=\"" + child + "\"", "\t\t\t\tLinkField=\"" + link + "\""];
    LinkWords();
    QuotedRead(4, "Parent", "\t\t\t\tParent=\"", parent);
    QuotedRead(4, "Child", "\t\t\t\tChild=\"", child);
    QuotedRead(4, "LinkField", "\t\t\t\tLinkField=\"", link);
    ObjectWritten(3, "LevelLink", n + 1, xs, us, "\t\t\tOBJECT=LevelLink_", "\t\t\tEND_OBJECT=LevelLink_");
  }

  lemma LevelWritten(k: Kind, nm: string, name: string, n: nat)
    ensures EntryCall(k, nm, Level(name, [])) == Call(nm, k, 10, name, [])
    ensures Text(EntryLines(Level(name, []), n))
         == Unlines(["\t\t\tGROUP=Level_" + Dec(n),
                     "\t\t\t\tLevelName=\"" + name + "\"",
                     "\t\t\tEND_GROUP=Level_" + Dec(n)])
  {
    var ls := EntryLines(Level(name, []), n);
    var us := ["\t\t\tGROUP=Level_" + Dec(n), "\t\t\t\tLevelName=\"" + name + "\"", "\t\t\tEND_GROUP=Level_" + Dec(n)];
    LevelWords();
    NumberRead(3, "GROUP", "\t\t\tGROUP=Level_", "Level", n);
    QuotedRead(4, "LevelName", "\t\t\t\tLevelName=\"", name);
    NumberRead(3, "END_GROUP", "\t\t\tEND_GROUP=Level_", "Level", n);
    UnlinesAre(ls, us);
  }

  lemma PointFieldWritten(nm: string, level: string, p: PField, c: nat)
    ensures CallOf(AddPointField(nm, level, p)) == Call(nm, Point, 11, p.name + ":" + level, [p.ntype, p.order])
    ensures Text(ObjectLines(4, Numbered("PointField", c), PFieldAttrs(p)))
         == Unlines(["\t\t\t\tOBJECT=PointField_" + Dec(c)]
                    + ["\t\t\t\t\tPointFieldName=\"" + p.name + "\"",
                       "\t\t\t\t\tDataType=" + TypeName(p.ntype),
                       "\t\t\t\t\tOrder=" + Dec(p.order)]
                    + ["\t\t\t\tEND_OBJECT=PointField_" + Dec(c)])
  {
    var us := ["\t\t\t\t\tPointFieldName=\"" + p.name + "\"", "\t\t\t\t\tDataType=" + TypeName(p.ntype), "\t\t\t\t\tOrder=" + Dec(p.order)];
    PointFieldTags();
    PointFieldWords();
    PointFieldRest();
    QuotedRead(5, "PointFieldName", "\t\t\t\t\tPointFieldName=\"", p.name);
    PlainRead(5, "DataType", "\t\t\t\t\tDataType=", TypeName(p.ntype));
    PlainRead(5, "Order", "\t\t\t\t\tOrder=", Dec(p.order));
    ObjectWritten(4, "PointField", c, PFieldAttrs(p), us, "\t\t\t\tOBJECT=PointField_", "\t\t\t\tEND_OBJECT=PointField_");
  }
}
