/** The lookups on any text: the two forms a structure is named in, keys that are
    not there, and the texts of numbers and types. */
module MetaForms {
  import opened CText
  import opened MetaTree
  import opened MetaEdit
  import opened MetaLookup
  import opened MetaDims
  import opened MetaFields
  import opened MetaMaps
  import opened MetaLinks
  import opened MetaMerged

  /** The key does not start in this stretch of the text. */
  predicate Absent(t: string, key: string, from: nat, to: nat) { forall x: nat | from <= x < to :: !OccursAt(t, key, x) }

  /** The key starts first at p. */
  predicate First(t: string, key: string, from: nat, p: nat) {
    from <= p && OccursAt(t, key, p) && Absent(t, key, from, p)
  }

  lemma FirstIs(t: string, key: string, from: nat, p: nat)
    requires First(t, key, from, p)
    ensures from <= |t| && StrStr(t, key, from) == At(p)
  {
    StrStrIs(t, key, from, p);
  }

  lemma AbsentIs(t: string, key: string, from: nat, to: nat)
    requires from <= |t| && Absent(t, key, from, to)
    ensures StrStr(t, key, from).At? ==> to <= StrStr(t, key, from).pos
  {
  }

  // -------------------------------------------------------------- names of structures

  predicate NameWord(k: Kind, word: string) {
    match k case Swath => word == "SwathName=\"" case Grid => word == "GridName=\"" case Point => word == "PointName=\""
  }

  lemma WordIs(k: Kind, word: string)
    requires NameWord(k, word)
    ensures NameKey(k) + "=\"" == word && |word| <= 11
  {
  }

  lemma KeyIs(k: Kind, word: string, name: string)
    requires NameWord(k, word)
    ensures NameKey(k) + "=\"" + name == word + name
  {
    WordIs(k, word);
  }

  /** A line of its own names the structure. */
  lemma NamedByLine(t: string, k: Kind, name: string, word: string, root: nat, p: nat)
    requires NameWord(k, word) && |name| < 500 && First(t, word + name, root, p)
    ensures root <= |t| && FindNamed(t, k, name, root) == At(p)
    ensures FindRoot(t, k) == At(root) ==> GroupStart(t, k, name) == At(p)
  {
    KeyIs(k, word, name);
    WordIs(k, word);
    FirstIs(t, word + name, root, p);
  }

  /** In older files it is the line that opens the group. */
  lemma NamedByGroup(t: string, k: Kind, name: string, word: string, root: nat, p: nat)
    requires NameWord(k, word) && |name| < 500 && Absent(t, word + name, root, |t| + 1)
    requires First(t, "GROUP=\"" + name, root, p)
    ensures root <= |t| && FindNamed(t, k, name, root) == At(p)
    ensures FindRoot(t, k) == At(root) ==> GroupStart(t, k, name) == At(p)
  {
    KeyIs(k, word, name);
    WordIs(k, word);
    FirstIs(t, "GROUP=\"" + name, root, p);
    AbsentIs(t, word + name, root, |t| + 1);
  }

  /** The brackets of a group, from the name of its structure on. */
  lemma Brackets(t: string, k: Kind, name: string, g: string, p: nat, b: nat, e: nat)
    requires GroupStart(t, k, name) == At(p) && |g| < 490
    requires First(t, "GROUP=" + g, p, b) && First(t, "\t\tEND_GROUP=" + g, b, e)
    ensures MetaGroup(t, k, name, Some(g)) == Some((At(b), At(e)))
  {
    FirstIs(t, "GROUP=" + g, p, b);
    FirstIs(t, "\t\tEND_GROUP=" + g, b, e);
  }

  // --------------------------------------------------------------------------- values

  /** The value of the first such key, up to the end of its line. */
  lemma ValueThere(t: string, beg: nat, end: nat, parameter: string, p: nat, v: string)
    requires First(t, parameter + "=", beg, p) && p < end && OccursAt(t, parameter + "=" + v + "\n", p)
    requires '\n' !in parameter && '\n' !in v
    ensures beg <= |t| && ValueBetween(t, beg, At(end), parameter) == Found(p, v)
  {
    FirstIs(t, parameter + "=", beg, p);
    var from, nl := p + |parameter| + 1, p + |parameter| + 1 + |v|;
    Pieces(t, p, parameter + "=", v, "\n");
    assert t[nl] == t[nl..nl + 1][0];
    forall i: nat | p <= i < nl ensures t[i] != '\n' {
      assert t[i] == if i < from then (parameter + "=")[i - p] else v[i - from];
    }
    StrChrIs(t, '\n', p, nl);
  }

  lemma Pieces(t: string, p: nat, a: string, v: string, z: string)
    requires OccursAt(t, a + v + z, p)
    ensures p + |a| + |v| + |z| <= |t| && t[p..p + |a|] == a && t[p + |a|..p + |a| + |v|] == v
    ensures t[p + |a| + |v|..p + |a| + |v| + |z|] == z
    ensures forall i: nat | p <= i < p + |a| + |v| :: t[i] == if i < p + |a| then a[i - p] else v[i - p - |a|]
  {
    var key, n, m := a + v + z, |a|, |a| + |v|;
    Sub(t, p, p + |key|, 0, n);
    Sub(t, p, p + |key|, n, m);
    Sub(t, p, p + |key|, m, |key|);
    assert key[..n] == a && key[n..m] == v && key[m..] == z;
    forall i: nat | p <= i < p + m ensures t[i] == if i < p + n then a[i - p] else v[i - p - n] {
      assert t[i] == t[p..p + |key|][i - p];
    }
  }

  lemma Sub(t: string, p: nat, q: nat, i: nat, j: nat)
    requires p <= q <= |t| && i <= j <= q - p
    ensures t[p..q][i..j] == t[p + i..p + j]
  {
    var u := t[p..q];
    forall k | 0 <= k < j - i ensures u[i..j][k] == t[p + i..p + j][k] {
      assert u[i..j][k] == u[i + k] == t[p + (i + k)];
      assert t[p + i..p + j][k] == t[(p + i) + k];
    }
  }

  lemma ValueAbsent(t: string, beg: nat, end: nat, parameter: string)
    requires beg <= |t| && Absent(t, parameter + "=", beg, end)
    ensures ValueBetween(t, beg, At(end), parameter) == Missing
  {
    AbsentIs(t, parameter + "=", beg, end);
  }

  // ------------------------------------------------------------------ numbers and types

  /** A size may be quoted. */
  lemma NumberForms(n: int)
    ensures NumberOf(Dec(n)) == n && NumberOf("\"" + Dec(n) + "\"") == n
  {
    AtoiDec(n);
    var q := "\"" + Dec(n) + "\"";
    assert q[1..|q| - 1] == Dec(n);
    assert Dec(n)[0] != '"';
  }

  /** The names a number type is read from; the short ones are those of older files. */
  lemma TypeForms(v: string)
    ensures TypeCode(v) == 3 <==> v == "DFNT_UCHAR8" || v == "DFNT_UCHAR"
    ensures TypeCode(v) == 4 <==> v == "DFNT_CHAR8" || v == "DFNT_CHAR"
    ensures TypeCode(v) == 5 <==> v == "DFNT_FLOAT32" || v == "DFNT_FLOAT"
    ensures KnownType(TypeCode(v)) || TypeCode(v) == -1
    ensures KnownType(TypeCode(v)) && TypeCode(v) !in {3, 4, 5} <==> v in {"DFNT_FLOAT64", "DFNT_INT8", "DFNT_UINT8", "DFNT_INT16",
                                                                        "DFNT_UINT16", "DFNT_INT32", "DFNT_UINT32"}
  {
  }

  // ----------------------------------------------------------------------- dimensions

  /** No line of the group ends with the quoted name. */
  lemma DimAbsent(t: string, k: Kind, name: string, dim: string, b: nat, e: nat)
    requires k != Point && MetaGroup(t, k, name, Some("Dimension")) == Some((At(b), At(e))) && b <= |t| && |dim| < 500
    requires Absent(t, "\"" + dim + "\"\n", b, e)
    ensures DimInfo(t, k, name, dim) == Some(-1)
  {
    AbsentIs(t, "\"" + dim + "\"\n", b, e);
  }

  /** The first such line has no size before the end of an object. */
  lemma DimNoSize(t: string, k: Kind, name: string, dim: string, b: nat, e: nat, p: nat, o: nat)
    requires k != Point && MetaGroup(t, k, name, Some("Dimension")) == Some((At(b), At(e))) && b <= |t| && |dim| < 500
    requires First(t, "\"" + dim + "\"\n", b, p) && p < e && First(t, "\t\t\tEND_OBJECT", p, o) && Absent(t, "Size" + "=", p, o)
    ensures DimInfo(t, k, name, dim) == Some(-1)
  {
    DimFound(t, k, name, dim, b, e, p, o);
    ValueAbsent(t, p, o, "Size");
  }

  /** The size is that of the object; NumberForms has what it may look like. */
  lemma DimThere(t: string, k: Kind, name: string, dim: string, b: nat, e: nat, p: nat, o: nat, q: nat, v: string)
    requires k != Point && MetaGroup(t, k, name, Some("Dimension")) == Some((At(b), At(e))) && b <= |t| && |dim| < 500
    requires First(t, "\"" + dim + "\"\n", b, p) && p < e && First(t, "\t\t\tEND_OBJECT", p, o)
    requires First(t, "Size" + "=", p, q) && q < o && OccursAt(t, "Size" + "=" + v + "\n", q)
    requires '\n' !in v && v != "\"" && |v| < 512
    ensures DimInfo(t, k, name, dim) == Some(NumberOf(v))
  {
    DimFound(t, k, name, dim, b, e, p, o);
    ValueThere(t, p, o, "Size", q, v);
  }

  lemma DimFound(t: string, k: Kind, name: string, dim: string, b: nat, e: nat, p: nat, o: nat)
    requires k != Point && MetaGroup(t, k, name, Some("Dimension")) == Some((At(b), At(e))) && b <= |t| && |dim| < 500
    requires First(t, "\"" + dim + "\"\n", b, p) && p < e && First(t, "\t\t\tEND_OBJECT", p, o)
    ensures p <= |t|
    ensures DimInfo(t, k, name, dim)
         == match ValueInto(t, p, At(o), "Size", 512)
            case None => None
            case Some(Missing) => Some(-1)
            case Some(Found(_, v)) => if v == "\"" then None else Some(NumberOf(v))
  {
    FirstIs(t, "\"" + dim + "\"\n", b, p);
    FirstIs(t, "\t\t\tEND_OBJECT", p, o);
  }

  // --------------------------------------------------------------------- dimension maps

  lemma MapAbsent(t: string, name: string, geo: string, data: string, key: string, b: nat, e: nat)
    requires MetaGroup(t, Swath, name, Some("DimensionMap")) == Some((At(b), At(e))) && b <= |t| && |geo| + |data| < 400
    requires key == "\t\t\t\tGeoDimension=\"" + geo + "\"\n\t\t\t\tDataDimension=\"" + data + "\"\n" && Absent(t, key, b, e)
    ensures MapInfo(t, name, geo, data) == Some(MapData(-1, -1, -1))
  {
    AbsentIs(t, key, b, e);
  }

  lemma MapFound(t: string, name: string, geo: string, data: string, key: string, b: nat, e: nat, p: nat)
    requires MetaGroup(t, Swath, name, Some("DimensionMap")) == Some((At(b), At(e))) && b <= |t| && |geo| + |data| < 400
    requires key == "\t\t\t\tGeoDimension=\"" + geo + "\"\n\t\t\t\tDataDimension=\"" + data + "\"\n" && First(t, key, b, p) && p < e
    ensures p <= |t| && MapInfo(t, name, geo, data) == MapAt(t, p, At(e))
  {
    FirstIs(t, key, b, p);
  }

  /** An offset without an increment, an increment without an offset, neither. */
  lemma MapHalf(t: string, p: nat, e: nat, q: nat, v: string)
    requires p <= |t| && '\n' !in v && |v| < 512
    ensures First(t, "Offset" + "=", p, q) && q < e && OccursAt(t, "Offset" + "=" + v + "\n", q) && Absent(t, "Increment" + "=", q, e)
            ==> MapAt(t, p, At(e)) == Some(MapData(-1, Atoi(v), -1))
    ensures Absent(t, "Offset" + "=", p, e) && First(t, "Increment" + "=", p, q) && q < e && OccursAt(t, "Increment" + "=" + v + "\n", q)
            ==> MapAt(t, p, At(e)) == Some(MapData(-1, -1, Atoi(v)))
    ensures Absent(t, "Offset" + "=", p, e) && Absent(t, "Increment" + "=", p, e) ==> MapAt(t, p, At(e)) == Some(MapData(-1, -1, -1))
  {
    if First(t, "Offset" + "=", p, q) && q < e && OccursAt(t, "Offset" + "=" + v + "\n", q) {
      ValueThere(t, p, e, "Offset", q, v);
      if Absent(t, "Increment" + "=", q, e) {
        ValueAbsent(t, q, e, "Increment");
      }
    }
    if Absent(t, "Offset" + "=", p, e) {
      ValueAbsent(t, p, e, "Offset");
      if Absent(t, "Increment" + "=", p, e) {
        ValueAbsent(t, p, e, "Increment");
      }
      if First(t, "Increment" + "=", p, q) && q < e && OccursAt(t, "Increment" + "=" + v + "\n", q) {
        ValueThere(t, p, e, "Increment", q, v);
      }
    }
  }

  // ----------------------------------------------------------------------------- fields

  lemma FieldAbsent(t: string, k: Kind, name: string, g: string, field: string, b: nat, e: nat)
    requires MetaGroup(t, k, name, Some(g)) == Some((At(b), At(e))) && b <= |t| && |field| < 500
    requires Absent(t, "\"" + field + "\"\n", b, e)
    ensures FieldInfo(t, k, name, g, field) == Some(FieldData(-1, -1, None))
  {
    AbsentIs(t, "\"" + field + "\"\n", b, e);
  }

  /** A grid looks no further than the object, a swath or a point up to the end of the group. */
  lemma FieldFound(t: string, k: Kind, name: string, g: string, field: string, b: nat, e: nat, p: nat, o: nat)
    requires MetaGroup(t, k, name, Some(g)) == Some((At(b), At(e))) && b <= |t| && |field| < 500
    requires First(t, "\"" + field + "\"\n", b, p) && p < e && First(t, "\t\t\tEND_OBJECT", p, o)
    ensures p <= |t| && FieldInfo(t, k, name, g, field) == FieldAt(t, k, p, At(if k == Grid then o else e))
  {
    FirstIs(t, "\"" + field + "\"\n", b, p);
    FirstIs(t, "\t\t\tEND_OBJECT", p, o);
  }

  /** Without its type a field fails; the dimensions of a grid's field are then not read. */
  lemma FieldNoType(t: string, k: Kind, p: nat, e: nat, q: nat, v: string)
    requires p <= |t| && '\n' !in v && |v| < 512 && CountReadable(v) && NamesReadable(v)
    requires Absent(t, "DataType" + "=", p, e) && First(t, "DimList" + "=", p, q) && q < e && OccursAt(t, "DimList" + "=" + v + "\n", q)
    ensures FieldAt(t, k, p, At(e)) == Some(FieldData(-1, -1, if k == Grid then None else Some(DimNames(v))))
  {
    ValueAbsent(t, p, e, "DataType");
    ValueThere(t, p, e, "DimList", q, v);
    FieldUntyped(t, k, p, At(e), q, v);
  }

  lemma FieldUntyped(t: string, k: Kind, p: nat, stop: Ptr, q: nat, v: string)
    requires p <= |t| && CountReadable(v) && NamesReadable(v)
    requires ValueInto(t, p, stop, "DataType", 512) == Some(Missing) && ValueInto(t, p, stop, "DimList", 512) == Some(Found(q, v))
    ensures FieldAt(t, k, p, stop) == Some(FieldData(-1, -1, if k == Grid then None else Some(DimNames(v))))
  {
  }

  /** Without its dimensions the field of a grid fails after its type, that of a swath reads on. */
  lemma FieldNoDims(t: string, k: Kind, p: nat, e: nat, q: nat, v: string)
    requires p <= |t| && '\n' !in v && |v| < 512 && First(t, "DataType" + "=", p, q) && q < e
    requires OccursAt(t, "DataType" + "=" + v + "\n", q) && Absent(t, "DimList" + "=", q, e)
    ensures FieldAt(t, k, p, At(e)) == if k == Grid then Some(FieldData(-1, TypeCode(v), None)) else None
  {
    ValueThere(t, p, e, "DataType", q, v);
    ValueAbsent(t, q, e, "DimList");
  }

  lemma FieldNeither(t: string, k: Kind, p: nat, e: nat)
    requires p <= |t| && Absent(t, "DataType" + "=", p, e) && Absent(t, "DimList" + "=", p, e)
    ensures FieldAt(t, k, p, At(e)) == if k == Grid then Some(FieldData(-1, -1, None)) else None
  {
    ValueAbsent(t, p, e, "DataType");
    ValueAbsent(t, p, e, "DimList");
  }

  // ----------------------------------------------------------------------- level links

  lemma LinkAbsent(t: string, name: string, parent: string, b: nat, e: nat)
    requires MetaGroup(t, Point, name, Some("LevelLink")) == Some((At(b), At(e))) && b <= |t| && |parent| < 200
    requires Absent(t, "\t\t\t\tParent=\"" + parent, b, e)
    ensures LinkInfo(t, name, parent) == Some(None)
  {
    AbsentIs(t, "\t\t\t\tParent=\"" + parent, b, e);
  }

  lemma LinkThere(t: string, name: string, parent: string, b: nat, e: nat, p: nat, q: nat, link: string)
    requires MetaGroup(t, Point, name, Some("LevelLink")) == Some((At(b), At(e))) && b <= |t| && |parent| < 200 && '\n' !in link
    requires First(t, "\t\t\t\tParent=\"" + parent, b, p) && p < e
    requires First(t, "LinkField" + "=", p, q) && q < e && OccursAt(t, "LinkField" + "=" + ("\"" + link + "\"") + "\n", q)
    ensures LinkInfo(t, name, parent) == Some(Some(link))
  {
    FirstIs(t, "\t\t\t\tParent=\"" + parent, b, p);
    ValueThere(t, p, e, "LinkField", q, "\"" + link + "\"");
  }

  // ---------------------------------------------------------------------- merged fields

  /** A merge is named by a line of its own, or in older files by the one that opens its object. */
  lemma MergeNamed(t: string, name: string, merged: string, b: nat, e: nat, p: nat)
    requires MetaGroup(t, Swath, name, Some("MergedFields")) == Some((At(b), At(e))) && b <= |t| && |merged| < 400
    requires || First(t, "MergedFieldName=\"" + merged + "\"\n", b, p)
             || (Absent(t, "MergedFieldName=\"" + merged + "\"\n", b, |t| + 1) && First(t, "OBJECT=\"" + merged + "\"\n", b, p))
    ensures p <= |t| && SwathFieldList(t, name, merged) == ListFrom(t, p, At(e))
  {
    if First(t, "MergedFieldName=\"" + merged + "\"\n", b, p) {
      FirstIs(t, "MergedFieldName=\"" + merged + "\"\n", b, p);
    } else {
      AbsentIs(t, "MergedFieldName=\"" + merged + "\"\n", b, |t| + 1);
      FirstIs(t, "OBJECT=\"" + merged + "\"\n", b, p);
    }
  }

  /** The list is that of the first key behind; without one there is none. */
  lemma MergeList(t: string, p: nat, e: nat, q: nat, items: string)
    requires p <= |t| && '\n' !in items && |items| < 2046
    ensures First(t, "FieldList" + "=", p, q) && q < e && OccursAt(t, "FieldList" + "=" + ("(" + items + ")") + "\n", q)
            ==> ListFrom(t, p, At(e)) == Some(items)
    ensures Absent(t, "FieldList" + "=", p, e) ==> ListFrom(t, p, At(e)) == None
  {
    if First(t, "FieldList" + "=", p, q) && q < e && OccursAt(t, "FieldList" + "=" + ("(" + items + ")") + "\n", q) {
      ValueThere(t, p, e, "FieldList", q, "(" + items + ")");
    }
    if Absent(t, "FieldList" + "=", p, e) {
      ValueAbsent(t, p, e, "FieldList");
    }
  }
}
