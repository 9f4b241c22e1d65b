/** The segment each request inserts is the printed form of its entry, whatever
    number the entry gets. */
module MetaSegments {
  import opened CText
  import opened ListText
  import opened OdlLines
  import opened MetaTree
  import opened MetaEdit

  // ------------------------------------------------------ format string lines

  /** A format line is the text of the line it spells. */
  lemma RowLine(prefix: string, n: nat, key: string, v: string, x: string)
    requires prefix == Tabs(n) + key + "=" + v
    ensures Row(prefix, x) == LineText(Line(n, key, v + x))
  {
  }

  lemma RowQuoted(prefix: string, n: nat, key: string, name: string)
    requires prefix == Tabs(n) + key + "=\""
    ensures Row(prefix, name + "\"") == LineText(Line(n, key, Quoted(name)))
  {
    assert "\"" + (name + "\"") == Quoted(name);
    assert prefix == Tabs(n) + key + "=" + "\"";
    RowLine(prefix, n, key, "\"", name + "\"");
  }

  lemma RowPlain(prefix: string, n: nat, key: string, x: string)
    requires prefix == Tabs(n) + key + "="
    ensures Row(prefix, x) == LineText(Line(n, key, x))
  {
    assert "" + x == x;
    assert prefix == Tabs(n) + key + "=" + "";
    RowLine(prefix, n, key, "", x);
  }

  lemma RowNumber(prefix: string, n: nat, key: string, g: string, c: int)
    requires prefix == Tabs(n) + key + "=" + g + "_"
    ensures Row(prefix, Dec(c)) == LineText(Line(n, key, Numbered(g, c)))
  {
    assert prefix == Tabs(n) + key + "=" + (g + "_");
    RowLine(prefix, n, key, g + "_", Dec(c));
  }

  lemma AttrText(n: nat, xs: seq<Attr>)
    requires xs != []
    ensures Text(AttrLines(n, xs)) == LineText(Line(n, xs[0].key, xs[0].val)) + Text(AttrLines(n, xs[1..]))
  {
    assert AttrLines(n, xs)[1..] == AttrLines(n, xs[1..]);
  }

  lemma AttrText2(n: nat, x: Attr, y: Attr)
    ensures Text(AttrLines(n, [x, y])) == LineText(Line(n, x.key, x.val)) + LineText(Line(n, y.key, y.val))
  {
    AttrText(n, [x, y]);
    assert [x, y][1..] == [y];
    AttrText(n, [y]);
    assert [y][1..] == [];
  }

  lemma AttrText3(n: nat, x: Attr, y: Attr, z: Attr)
    ensures Text(AttrLines(n, [x, y, z]))
         == LineText(Line(n, x.key, x.val)) + LineText(Line(n, y.key, y.val)) + LineText(Line(n, z.key, z.val))
  {
    AttrText(n, [x, y, z]);
    assert [x, y, z][1..] == [y, z];
    AttrText2(n, y, z);
    Assoc(LineText(Line(n, x.key, x.val)), LineText(Line(n, y.key, y.val)), LineText(Line(n, z.key, z.val)));
  }

  lemma AttrText4(n: nat, x: Attr, y: Attr, z: Attr, w: Attr)
    ensures Text(AttrLines(n, [x, y, z, w]))
         == LineText(Line(n, x.key, x.val)) + LineText(Line(n, y.key, y.val)) + LineText(Line(n, z.key, z.val))
            + LineText(Line(n, w.key, w.val))
  {
    AttrText(n, [x, y, z, w]);
    assert [x, y, z, w][1..] == [y, z, w];
    AttrText3(n, y, z, w);
    Assoc4(LineText(Line(n, x.key, x.val)), LineText(Line(n, y.key, y.val)), LineText(Line(n, z.key, z.val)), LineText(Line(n, w.key, w.val)));
  }

  lemma Assoc4(a: string, b: string, c: string, d: string)
    ensures a + (b + c + d) == a + b + c + d
  {
  }

  /** The two lines around an object's attributes. */
  lemma ObjectText(n: nat, g: string, c: int, xs: seq<Attr>, open: string, close: string)
    requires open == Tabs(n) + "OBJECT" + "=" + g + "_"
    requires close == Tabs(n) + "END_OBJECT" + "=" + g + "_"
    ensures Text(ObjectLines(n, Numbered(g, c), xs)) == Row(open, Dec(c)) + Text(AttrLines(n + 1, xs)) + Row(close, Dec(c))
  {
    RowNumber(open, n, "OBJECT", g, c);
    RowNumber(close, n, "END_OBJECT", g, c);
    var a, b := Line(n, "OBJECT", Numbered(g, c)), Line(n, "END_OBJECT", Numbered(g, c));
    TextCat([a] + AttrLines(n + 1, xs), [b]);
    TextCat([a], AttrLines(n + 1, xs));
    Text1(a);
    Text1(b);
  }

  // ----------------------------------------------------------------- literals

  lemma DimensionTags()
    ensures "\t\t\tOBJECT=Dimension_" == Tabs(3) + "OBJECT" + "=" + "Dimension" + "_"
    ensures "\t\t\tEND_OBJECT=Dimension_" == Tabs(3) + "END_OBJECT" + "=" + "Dimension" + "_"
  {
  }

  lemma DimensionWords()
    ensures "\t\t\t\tDimensionName=\"" == Tabs(4) + "DimensionName" + "=\""
    ensures "\t\t\t\tSize=" == Tabs(4) + "Size" + "="
  {
  }

  lemma DimensionMapTags()
    ensures "\t\t\tOBJECT=DimensionMap_" == Tabs(3) + "OBJECT" + "=" + "DimensionMap" + "_"
    ensures "\t\t\tEND_OBJECT=DimensionMap_" == Tabs(3) + "END_OBJECT" + "=" + "DimensionMap" + "_"
  {
  }

  lemma DimensionMapWords()
    ensures "\t\t\t\tOffset=" == Tabs(4) + "Offset" + "="
    ensures "\t\t\t\tIncrement=" == Tabs(4) + "Increment" + "="
  {
  }

  lemma MapWords()
    ensures "\t\t\t\tGeoDimension=\"" == Tabs(4) + "GeoDimension" + "=\""
    ensures "\t\t\t\tDataDimension=\"" == Tabs(4) + "DataDimension" + "=\""
  {
  }

  lemma IndexMapOpen()
    ensures "\t\t\tOBJECT=IndexDimensionMap_" == Tabs(3) + "OBJECT" + "=" + "IndexDimensionMap" + "_"
  {
  }

  lemma IndexMapClose()
    ensures "\t\t\tEND_OBJECT=IndexDimensionMap_" == Tabs(3) + "END_OBJECT" + "=" + "IndexDimensionMap" + "_"
  {
  }

  lemma GeoFieldTags()
    ensures "\t\t\tOBJECT=GeoField_" == Tabs(3) + "OBJECT" + "=" + "GeoField" + "_"
    ensures "\t\t\tEND_OBJECT=GeoField_" == Tabs(3) + "END_OBJECT" + "=" + "GeoField" + "_"
  {
  }

  lemma GeoFieldWords()
    ensures "\t\t\t\tGeoFieldName=\"" == Tabs(4) + "GeoFieldName" + "=\""
  {
  }

  lemma DataFieldTags()
    ensures "\t\t\tOBJECT=DataField_" == Tabs(3) + "OBJECT" + "=" + "DataField" + "_"
    ensures "\t\t\tEND_OBJECT=DataField_" == Tabs(3) + "END_OBJECT" + "=" + "DataField" + "_"
  {
  }

  lemma DataFieldWords()
    ensures "\t\t\t\tDataFieldName=\"" == Tabs(4) + "DataFieldName" + "=\""
  {
  }

  lemma FieldWords()
    ensures "\t\t\t\tDataType=" == Tabs(4) + "DataType" + "="
    ensures "\t\t\t\tDimList=" == Tabs(4) + "DimList" + "="
  {
  }

  lemma MergedTags()
    ensures "\t\t\tOBJECT=MergedFields_" == Tabs(3) + "OBJECT" + "=" + "MergedFields" + "_"
    ensures "\t\t\tEND_OBJECT=MergedFields_" == Tabs(3) + "END_OBJECT" + "=" + "MergedFields" + "_"
  {
  }

  lemma MergedWords()
    ensures "\t\t\t\tMergedFieldName=\"" == Tabs(4) + "MergedFieldName" + "=\""
    ensures "\t\t\t\tFieldList=" == Tabs(4) + "FieldList" + "="
  {
  }

  lemma LinkWords()
    ensures "\t\t\tOBJECT=LevelLink_" == Tabs(3) + "OBJECT" + "=" + "LevelLink" + "_"
    ensures "\t\t\tEND_OBJECT=LevelLink_" == Tabs(3) + "END_OBJECT" + "=" + "LevelLink" + "_"
    ensures "\t\t\t\tParent=\"" == Tabs(4) + "Parent" + "=\""
    ensures "\t\t\t\tChild=\"" == Tabs(4) + "Child" + "=\""
    ensures "\t\t\t\tLinkField=\"" == Tabs(4) + "LinkField" + "=\""
  {
  }

  lemma LevelWords()
    ensures "\t\t\tGROUP=Level_" == Tabs(3) + "GROUP" + "=" + "Level" + "_"
    ensures "\t\t\tEND_GROUP=Level_" == Tabs(3) + "END_GROUP" + "=" + "Level" + "_"
    ensures "\t\t\t\tLevelName=\"" == Tabs(4) + "LevelName" + "=\""
  {
  }

  lemma PointFieldTags()
    ensures "\t\t\t\tOBJECT=PointField_" == Tabs(4) + "OBJECT" + "=" + "PointField" + "_"
    ensures "\t\t\t\tEND_OBJECT=PointField_" == Tabs(4) + "END_OBJECT" + "=" + "PointField" + "_"
  {
  }

  lemma PointFieldWords()
    ensures "\t\t\t\t\tPointFieldName=\"" == Tabs(5) + "PointFieldName" + "=\""
  {
  }

  lemma PointFieldRest()
    ensures "\t\t\t\t\tDataType=" == Tabs(5) + "DataType" + "="
    ensures "\t\t\t\t\tOrder=" == Tabs(5) + "Order" + "="
  {
  }

  // ------------------------------------------------------- segment == entry

  lemma DimensionSegText(e: Entry, n: nat)
    requires e.Dimension?
    ensures Text(EntryLines(e, n)) == DimensionSeg(e.name, e.size, n + 1)
  {
    DimensionTags();
    DimensionWords();
    ObjectText(3, "Dimension", n + 1, Attrs(e), "\t\t\tOBJECT=Dimension_", "\t\t\tEND_OBJECT=Dimension_");
    AttrText2(4, Attrs(e)[0], Attrs(e)[1]);
    RowQuoted("\t\t\t\tDimensionName=\"", 4, "DimensionName", e.name);
    RowPlain("\t\t\t\tSize=", 4, "Size", Dec(e.size));
    Flat2(Row("\t\t\tOBJECT=Dimension_", Dec(n + 1)), Row("\t\t\t\tDimensionName=\"", e.name + "\""),
          Row("\t\t\t\tSize=", Dec(e.size)), Row("\t\t\tEND_OBJECT=Dimension_", Dec(n + 1)));
  }

  lemma Flat2(o: string, a: string, b: string, c: string)
    ensures o + (a + b) + c == o + a + b + c
  {
  }

  lemma Flat3(o: string, a: string, b: string, c: string, d: string)
    ensures o + (a + b + c) + d == o + a + b + c + d
  {
  }

  lemma Flat4(o: string, a: string, b: string, c: string, d: string, e: string)
    ensures o + (a + b + c + d) + e == o + a + b + c + d + e
  {
  }

  lemma DimensionMapSegText(e: Entry, n: nat)
    requires e.DimensionMap?
    ensures Text(EntryLines(e, n)) == DimensionMapSeg(e.geo, e.data, e.offset, e.increment, n + 1)
  {
    DimensionMapTags();
    DimensionMapWords();
    MapWords();
    ObjectText(3, "DimensionMap", n + 1, Attrs(e), "\t\t\tOBJECT=DimensionMap_", "\t\t\tEND_OBJECT=DimensionMap_");
    AttrText4(4, Attrs(e)[0], Attrs(e)[1], Attrs(e)[2], Attrs(e)[3]);
    RowQuoted("\t\t\t\tGeoDimension=\"", 4, "GeoDimension", e.geo);
    RowQuoted("\t\t\t\tDataDimension=\"", 4, "DataDimension", e.data);
    RowPlain("\t\t\t\tOffset=", 4, "Offset", Dec(e.offset));
    RowPlain("\t\t\t\tIncrement=", 4, "Increment", Dec(e.increment));
    Flat4(Row("\t\t\tOBJECT=DimensionMap_", Dec(n + 1)), Row("\t\t\t\tGeoDimension=\"", e.geo + "\""),
          Row("\t\t\t\tDataDimension=\"", e.data + "\""), Row("\t\t\t\tOffset=", Dec(e.offset)),
          Row("\t\t\t\tIncrement=", Dec(e.increment)), Row("\t\t\tEND_OBJECT=DimensionMap_", Dec(n + 1)));
  }

  lemma IndexMapSegText(e: Entry, n: nat)
    requires e.IndexMap?
    ensures Text(EntryLines(e, n)) == IndexMapSeg(e.geo, e.data, n + 1)
  {
    IndexMapOpen();
    IndexMapClose();
    MapWords();
    ObjectText(3, "IndexDimensionMap", n + 1, Attrs(e), "\t\t\tOBJECT=IndexDimensionMap_", "\t\t\tEND_OBJECT=IndexDimensionMap_");
    AttrText2(4, Attrs(e)[0], Attrs(e)[1]);
    RowQuoted("\t\t\t\tGeoDimension=\"", 4, "GeoDimension", e.geo);
    RowQuoted("\t\t\t\tDataDimension=\"", 4, "DataDimension", e.data);
    Flat2(Row("\t\t\tOBJECT=IndexDimensionMap_", Dec(n + 1)), Row("\t\t\t\tGeoDimension=\"", e.geo + "\""),
          Row("\t\t\t\tDataDimension=\"", e.data + "\""), Row("\t\t\tEND_OBJECT=IndexDimensionMap_", Dec(n + 1)));
  }

  lemma LevelLinkSegText(e: Entry, n: nat)
    requires e.LevelLink?
    ensures Text(EntryLines(e, n)) == LevelLinkSeg(e.parent, e.child, e.link, n + 1)
  {
    LinkWords();
    ObjectText(3, "LevelLink", n + 1, Attrs(e), "\t\t\tOBJECT=LevelLink_", "\t\t\tEND_OBJECT=LevelLink_");
    AttrText3(4, Attrs(e)[0], Attrs(e)[1], Attrs(e)[2]);
    RowQuoted("\t\t\t\tParent=\"", 4, "Parent", e.parent);
    RowQuoted("\t\t\t\tChild=\"", 4, "Child", e.child);
    RowQuoted("\t\t\t\tLinkField=\"", 4, "LinkField", e.link);
    Flat3(Row("\t\t\tOBJECT=LevelLink_", Dec(n + 1)), Row("\t\t\t\tParent=\"", e.parent + "\""),
          Row("\t\t\t\tChild=\"", e.child + "\""), Row("\t\t\t\tLinkField=\"", e.link + "\""),
          Row("\t\t\tEND_OBJECT=LevelLink_", Dec(n + 1)));
  }

  lemma MergedSegText(e: Entry, n: nat)
    requires e.Merged?
    ensures Text(EntryLines(e, n))
         == Row("\t\t\tOBJECT=MergedFields_", Dec(n + 1)) + Row("\t\t\t\tMergedFieldName=\"", e.name + "\"")
            + Row("\t\t\t\tFieldList=", QuotedList(e.members)) + Row("\t\t\tEND_OBJECT=MergedFields_", Dec(n + 1))
  {
    MergedTags();
    MergedWords();
    ObjectText(3, "MergedFields", n + 1, Attrs(e), "\t\t\tOBJECT=MergedFields_", "\t\t\tEND_OBJECT=MergedFields_");
    AttrText2(4, Attrs(e)[0], Attrs(e)[1]);
    RowQuoted("\t\t\t\tMergedFieldName=\"", 4, "MergedFieldName", e.name);
    RowPlain("\t\t\t\tFieldList=", 4, "FieldList", QuotedList(e.members));
    Flat2(Row("\t\t\tOBJECT=MergedFields_", Dec(n + 1)), Row("\t\t\t\tMergedFieldName=\"", e.name + "\""),
          Row("\t\t\t\tFieldList=", QuotedList(e.members)), Row("\t\t\tEND_OBJECT=MergedFields_", Dec(n + 1)));
  }

  lemma LevelSegText(e: Entry, n: nat)
    requires e.Level? && e.fields == []
    ensures Text(EntryLines(e, n)) == LevelSeg(e.name, n)
  {
    LevelWords();
    var a, b, c := Line(3, "GROUP", Numbered("Level", n)), Line(4, "LevelName", Quoted(e.name)), Line(3, "END_GROUP", Numbered("Level", n));
    RowNumber("\t\t\tGROUP=Level_", 3, "GROUP", "Level", n);
    RowNumber("\t\t\tEND_GROUP=Level_", 3, "END_GROUP", "Level", n);
    RowQuoted("\t\t\t\tLevelName=\"", 4, "LevelName", e.name);
    assert EntryLines(e, n) == [a] + [b] + [c];
    TextCat([a] + [b], [c]);
    TextCat([a], [b]);
    Text1(a);
    Text1(b);
    Text1(c);
  }

  lemma PointFieldSegText(p: PField, c: nat)
    ensures Text(ObjectLines(4, Numbered("PointField", c), PFieldAttrs(p))) == PointFieldSeg(p.name, p.ntype, p.order, c)
  {
    PointFieldTags();
    PointFieldWords();
    PointFieldRest();
    ObjectText(4, "PointField", c, PFieldAttrs(p), "\t\t\t\tOBJECT=PointField_", "\t\t\t\tEND_OBJECT=PointField_");
    AttrText3(5, PFieldAttrs(p)[0], PFieldAttrs(p)[1], PFieldAttrs(p)[2]);
    RowQuoted("\t\t\t\t\tPointFieldName=\"", 5, "PointFieldName", p.name);
    RowPlain("\t\t\t\t\tDataType=", 5, "DataType", TypeName(p.ntype));
    RowPlain("\t\t\t\t\tOrder=", 5, "Order", Dec(p.order));
    Flat3(Row("\t\t\t\tOBJECT=PointField_", Dec(c)), Row("\t\t\t\t\tPointFieldName=\"", p.name + "\""),
          Row("\t\t\t\t\tDataType=", TypeName(p.ntype)), Row("\t\t\t\t\tOrder=", Dec(p.order)),
          Row("\t\t\t\tEND_OBJECT=PointField_", Dec(c)));
  }
}
