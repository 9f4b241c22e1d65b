/** SWdiminfo over the metadata: the size read back for a dimension is the size
    it was defined with, unless its name holds the key that is searched. */
module MetaDims {
  import opened CText
  import opened ListText
  import opened OdlLines
  import opened MetaTree
  import opened MetaSearch
  import opened MetaEdit
  import opened MetaRequest
  import opened MetaLocate
  import opened MetaLookup
  import opened MetaRead
  import opened MetaFind

  /** The value as a number, without its quotes if it has them. */
  function NumberOf(v: string): int {
    if |v| >= 2 && v[0] == '"' && v[|v| - 1] == '"' then Atoi(v[1..|v| - 1]) else Atoi(v)
  }

  /** The lookup in the Dimension group, which is the first of a swath and of a
      grid: the quoted name at the end of a line, then the Size before the end of
      that object. None stands for a search from the null pointer, a value that
      overruns its buffer, and quotes stripped of a text that is one quote. */
  function DimInfo(t: string, k: Kind, name: string, dim: string): Option<int>
    requires k != Point
  {
    match MetaGroup(t, k, name, Some(Schema(k)[0]))
    case None => None
    case Some((beg, end)) =>
      if beg.Null? || beg.pos > |t| then None else
      match StrStr(t, Fmt512("\"" + dim + "\"\n"), beg.pos)
      case Null => Some(-1)
      case At(p) =>
        if !(end.At? && p < end.pos) then Some(-1)
        else match ValueInto(t, p, StrStr(t, "\t\t\tEND_OBJECT", p), "Size", UTLSTR_MAX_SIZE)
          case None => None
          case Some(Missing) => Some(-1)
          case Some(Found(_, v)) => if v == "\"" then None else Some(NumberOf(v))
  }

  /** On the tree: the size of the first dimension with that name. */
  function DimSize(es: seq<Entry>, dim: string): int
    requires AllDims(es)
  {
    match NameIndex(es, dim) case Null => -1 case At(j) => es[j].size
  }

  predicate AllDims(es: seq<Entry>) { forall e <- es :: e.Dimension? }

  /** The number that is read where a name holds the key: what follows it there. */
  function SizeTail(dim: string): int
    requires Contains(dim, "Size=")
  {
    KeyHit(dim, "Size=");
    Atoi(dim[StrStr(dim, "Size=", 0).pos + 5..] + "\"")
  }

  // ------------------------------------------------------------ reading a size

  /** A value SWdiminfo can take: it fits its buffer and is not one quote. */
  predicate SizeValue(v: string) { |v| < UTLSTR_MAX_SIZE && v != "\"" }

  /** What follows the key in the name is a number text that does not start with a
      quote. */
  lemma TailNumber(dim: string, q: nat)
    requires NameOk(dim) && |dim| <= MAX_NAME && OccursAt(dim, "Size=", q)
    ensures SizeValue(dim[q + 5..] + "\"")
    ensures q + 6 <= |Quoted(dim)| && Quoted(dim)[q + 6..] == dim[q + 5..] + "\""
    ensures NumberOf(dim[q + 5..] + "\"") == Atoi(dim[q + 5..] + "\"")
  {
    OccursIdx(dim, "Size=", q, q + 4);
    var v := dim[q + 5..] + "\"";
    assert q + 5 < |dim| && v[0] == dim[q + 5];
    assert Quoted(dim) == "\"" + dim + "\"";
  }

  lemma SizeKey()
    ensures KeyOk("Size") && EndsWith("Size", "Size") && '"' !in "Size=" && "Size" + "=" == "Size="
    ensures !EndsWith("DimensionName", "Size")
  {
  }

  lemma DimOwn(e: Entry)
    requires e.Dimension?
    ensures Own(e) == [Line(4, "DimensionName", Quoted(e.name)), Line(4, "Size", Dec(e.size))]
  {
  }

  lemma ReadSize(e: Entry) returns (v: string)
    requires e.Dimension? && EntryOk(e) && |e.name| <= MAX_NAME
    ensures SizeValue(v)
    ensures |Own(e)| == 2 && ReadOn(Own(e), InVal(0, 0), "Size").Some? && v == ReadOn(Own(e), InVal(0, 0), "Size").value.1
    ensures NumberOf(v) == if Contains(e.name, "Size=") then SizeTail(e.name) else e.size
  {
    DimOwn(e);
    SizeKey();
    KeyHit(e.name, "Size=");
    QuotedSearch(e.name, "Size=");
    if Contains(e.name, "Size=") {
      var q := StrStr(e.name, "Size=", 0).pos;
      ReadHeld(Own(e), InVal(0, 0), "Size", q + 1);
      TailNumber(e.name, q);
      v := e.name[q + 5..] + "\"";
    } else {
      ReadNext(Own(e), InVal(0, 0), "Size");
      ReadLine(Own(e), 1, "Size");
      v := Dec(e.size);
      DecNumber(e.size);
    }
  }

  lemma DecNumber(n: int)
    requires Int32(n)
    ensures NumberOf(Dec(n)) == n && SizeValue(Dec(n))
  {
    DecShort(n);
    DecLast(n);
    AtoiDec(n);
  }

  // -------------------------------------------------------------- the whole lookup

  lemma DimKey(dim: string) returns (key: string)
    requires SearchName(dim)
    ensures key == Fmt512("\"" + dim + "\"\n") == "" + Quoted(dim) + "\n" && '\n' !in "" + Quoted(dim) && '"' !in dim
  {
    key := "\"" + dim + "\"\n";
    assert key == Quoted(dim) + "\n" by { assert "\"\n" == "\"" + "\n"; }
    assert "" + Quoted(dim) == Quoted(dim);
  }

  function Dims(f: MetaFile, k: Kind, i: nat): (es: seq<Entry>)
    requires k != Point && Site(f, k, i)
    ensures AllDims(es) && NamedGroup(es)
  {
    DimSite(f, k, i);
    f.Of(k)[i].groups[0]
  }

  lemma DimSite(f: MetaFile, k: Kind, i: nat)
    requires k != Point && Site(f, k, i)
    ensures Schema(k) != [] && Schema(k)[0] == "Dimension" && Schema(k)[0] != "Level"
    ensures NamedSite(f, k, i, 0) && AllDims(f.Of(k)[i].groups[0])
  {
    DimensionFirst(k);
    assert GroupOk(Schema(k)[0], f.Of(k)[i].groups[0]);
    AreDimensions(f.Of(k)[i].groups[0]);
  }

  lemma AreDimensions(es: seq<Entry>)
    requires GroupOk("Dimension", es)
    ensures AllDims(es) && NamedGroup(es)
  {
    forall e | e in es ensures e.Dimension? {
      assert "DataField"[1] != "Dimension"[1];
      assert GroupOf(e) == "Dimension";
    }
  }

  lemma Brackets(f: MetaFile, k: Kind, i: nat, nm: string, g: nat) returns (b: string, beg: nat, end: nat)
    requires GroupSite(f, k, i, g) && SearchName(nm) && FirstStruct(f.Of(k), nm) == At(i)
    ensures b == Schema(k)[g] && beg == OpenPos(f, k, i, g) + 2 && end == ClosePos(f, k, i, g)
    ensures MetaGroup(Print(f), k, nm, Some(b)) == Some((At(beg), At(end)))
  {
    b, beg, end := Schema(k)[g], OpenPos(f, k, i, g) + 2, ClosePos(f, k, i, g);
    MetaGroupBrackets(f, k, i, nm, g);
  }

  lemma DimInfoIs(t: string, k: Kind, nm: string, b: string, dim: string, key: string, beg: nat, end: nat, p: nat, r: Lookup)
    requires k != Point && b == Schema(k)[0] && key == Fmt512("\"" + dim + "\"\n")
    requires MetaGroup(t, k, nm, Some(b)) == Some((At(beg), At(end))) && beg <= |t| && p <= |t|
    requires StrStr(t, key, beg) == At(p) && p < end
    requires ValueBetween(t, p, StrStr(t, "\t\t\tEND_OBJECT", p), "Size") == r && r.Found? && SizeValue(r.value)
    ensures DimInfo(t, k, nm, dim) == Some(NumberOf(r.value))
  {
  }

  lemma DimInfoMisses(t: string, k: Kind, nm: string, b: string, dim: string, key: string, beg: nat, end: nat)
    requires k != Point && b == Schema(k)[0] && key == Fmt512("\"" + dim + "\"\n")
    requires MetaGroup(t, k, nm, Some(b)) == Some((At(beg), At(end))) && beg <= |t|
    requires StrStr(t, key, beg).At? ==> StrStr(t, key, beg).pos >= end
    ensures DimInfo(t, k, nm, dim) == Some(-1)
  {
  }

  lemma DimInfoFound(f: MetaFile, k: Kind, i: nat, nm: string, dim: string, j: nat)
    requires k != Point && Site(f, k, i) && SearchName(nm) && FirstStruct(f.Of(k), nm) == At(i) && SearchName(dim)
    requires NameIndex(Dims(f, k, i), dim) == At(j)
    ensures DimInfo(Print(f), k, nm, dim) == Some(if Contains(dim, "Size=") then SizeTail(dim) else Dims(f, k, i)[j].size)
  {
    DimSite(f, k, i);
    var b, beg, end := Brackets(f, k, i, nm, 0);
    var key := DimKey(dim);
    var p, v := DimLookup(f, k, i, dim, key, j, beg, end);
    DimInfoIs(Print(f), k, nm, b, dim, key, beg, end, p, v);
  }

  lemma DimLookup(f: MetaFile, k: Kind, i: nat, dim: string, key: string, j: nat, beg: nat, end: nat) returns (p: nat, r: Lookup)
    requires k != Point && Site(f, k, i) && NameIndex(Dims(f, k, i), dim) == At(j)
    requires key == "" + Quoted(dim) + "\n" && '\n' !in "" + Quoted(dim) && '"' !in dim && |dim| <= MAX_NAME
    requires beg == OpenPos(f, k, i, 0) + 2 && end == ClosePos(f, k, i, 0)
    ensures beg <= |Print(f)| && p < end && p <= |Print(f)| && StrStr(Print(f), key, beg) == At(p)
    ensures ValueBetween(Print(f), p, StrStr(Print(f), "\t\t\tEND_OBJECT", p), "Size") == r && r.Found? && SizeValue(r.value)
    ensures NumberOf(r.value) == if Contains(dim, "Size=") then SizeTail(dim) else Dims(f, k, i)[j].size
  {
    var pre, post;
    pre, post, p := DimFound(f, k, i, dim, key, j, beg, end);
    r := SizeAt(Print(f), pre, Dims(f, k, i)[j], j, post, p);
  }

  lemma DimFound(f: MetaFile, k: Kind, i: nat, dim: string, key: string, j: nat, beg: nat, end: nat)
    returns (pre: string, post: string, p: nat)
    requires k != Point && Site(f, k, i) && NameIndex(Dims(f, k, i), dim) == At(j)
    requires key == "" + Quoted(dim) + "\n" && '\n' !in "" + Quoted(dim) && '"' !in dim
    requires beg == OpenPos(f, k, i, 0) + 2 && end == ClosePos(f, k, i, 0)
    ensures var e := Dims(f, k, i)[j];
            && e.Dimension? && EntryOk(e) && e.name == dim && Print(f) == pre + Text(Own(e)) + (LineText(ObjClose(e, j)) + post)
            && Own(e) != [] && p == |pre| + |Head(Own(e)[0])| + 1 && p < |pre| + |Text(Own(e))|
    ensures beg <= |Print(f)| && p < end && p <= |Print(f)| && StrStr(Print(f), key, beg) == At(p)
  {
    DimSite(f, k, i);
    assert Dims(f, k, i)[j] in Entries(f, k, i, 0);
    NameEnds(Dims(f, k, i)[j], dim);
    pre, post, p := NameFound(f, k, i, 0, dim, "", key, j);
  }

  /** From the name of a dimension, the Size before the end of its object. */
  lemma SizeAt(t: string, pre: string, e: Entry, n: nat, post: string, p: nat) returns (r: Lookup)
    requires e.Dimension? && EntryOk(e) && |e.name| <= MAX_NAME && t == pre + Text(Own(e)) + (LineText(ObjClose(e, n)) + post)
    requires Own(e) != [] && p == |pre| + |Head(Own(e)[0])| + 1 && p < |pre| + |Text(Own(e))|
    ensures p <= |t| && ValueBetween(t, p, StrStr(t, "\t\t\tEND_OBJECT", p), "Size") == r && r.Found? && SizeValue(r.value)
    ensures NumberOf(r.value) == if Contains(e.name, "Size=") then SizeTail(e.name) else e.size
  {
    var v := ReadSize(e);
    ObjectEnd(t, pre, e, n, post, p);
    ObjectTame(e, n);
    SizeKey();
    var _, pos, v' := LookupWithin(t, pre, Own(e), LineText(ObjClose(e, n)) + post, InVal(0, 0), "Size", p, StrStr(t, "\t\t\tEND_OBJECT", p).pos);
    r := Found(pos, v);
  }

  lemma DimInfoNone(f: MetaFile, k: Kind, i: nat, nm: string, dim: string)
    requires k != Point && Site(f, k, i) && SearchName(nm) && FirstStruct(f.Of(k), nm) == At(i) && SearchName(dim)
    requires NameIndex(Dims(f, k, i), dim).Null?
    ensures DimInfo(Print(f), k, nm, dim) == Some(-1)
  {
    DimSite(f, k, i);
    var key := DimKey(dim);
    NameMissing(f, k, i, 0, dim, "", key);
    var b, beg, end := Brackets(f, k, i, nm, 0);
    DimInfoMisses(Print(f), k, nm, b, dim, key, beg, end);
  }

  /** The number read for a dimension of a swath or grid: -1 if there is none of that
      name, what follows "Size=" in the name if the name holds that, else the size.
      So it is the size of the first dimension of that name if and only if there is
      none, or its name does not hold the key, or holds it before that number. */
  lemma DimInfoReads(f: MetaFile, k: Kind, i: nat, nm: string, dim: string)
    requires Site(f, k, i) && k != Point && SearchName(nm) && FirstStruct(f.Of(k), nm) == At(i) && SearchName(dim)
    ensures DimInfo(Print(f), k, nm, dim) == Some(DimRead(Dims(f, k, i), dim))
    ensures NameIndex(Dims(f, k, i), dim).Null? ==> DimInfo(Print(f), k, nm, dim) == Some(-1)
    ensures DimInfo(Print(f), k, nm, dim) == Some(DimSize(Dims(f, k, i), dim))
            <==> NameIndex(Dims(f, k, i), dim).Null? || !Contains(dim, "Size=") || SizeTail(dim) == DimSize(Dims(f, k, i), dim)
  {
    match NameIndex(Dims(f, k, i), dim)
    case Null => DimInfoNone(f, k, i, nm, dim);
    case At(j) => DimInfoFound(f, k, i, nm, dim, j);
  }

  function DimRead(es: seq<Entry>, dim: string): int
    requires AllDims(es)
  {
    if NameIndex(es, dim).At? && Contains(dim, "Size=") then SizeTail(dim) else DimSize(es, dim)
  }

  lemma SevenOk()
    ensures SearchName("Size=7") && Contains("Size=7", "Size=") && SizeTail("Size=7") == 7
  {
    var s := "Size=7";
    assert OccursAt(s, "Size=", 0);
    StrStrIs(s, "Size=", 0, 0);
    NotContainsChar(s, "GROUP=", 0);
    NotContainsChar(s, "END_OBJECT", 0);
    NotContainsChar(s, "END_GROUP", 0);
    assert s[5..] + "\"" == "7\"";
    AtoiSeven();
  }

  lemma AtoiSeven()
    ensures Atoi("7\"") == 7
  {
    assert DigitRun("7\"") == "7";
    assert AtoiNat("7") == AtoiNat("") * 10 + 7;
  }

  /** A dimension "Size=7" of size 3, which the naming rules allow, has the size 7
      when it is looked up. */
  lemma SizeInName(f: MetaFile, k: Kind, i: nat, nm: string, j: nat)
    requires Site(f, k, i) && k != Point && SearchName(nm) && FirstStruct(f.Of(k), nm) == At(i)
    requires NameIndex(Dims(f, k, i), "Size=7") == At(j) && Dims(f, k, i)[j].size == 3
    ensures SearchName("Size=7") && DimInfo(Print(f), k, nm, "Size=7") == Some(7)
  {
    SevenOk();
    DimInfoReads(f, k, i, nm, "Size=7");
  }

  predicate Defines(f: MetaFile, r: Request) { Adds(f, r) && r.entry.Dimension? && r.kind != Point }

  /** Define, then look up: on the text EHinsertmeta produced, the new dimension
      has the size it was given - unless one of that name was there, or the name
      holds the key - and every other dimension has the size it had. */
  lemma DefineThenLookUp(f: MetaFile, r: Request, i: nat, dim: string)
    requires Defines(f, r) && SearchName(dim) && FirstStruct(f.Of(r.kind), r.name) == At(i)
    ensures Site(f, r.kind, i) && InsertText(Print(f), CallOf(r)).Some?
    ensures DimInfo(InsertText(Print(f), CallOf(r)).value, r.kind, r.name, dim)
            == if dim == r.entry.name && NameIndex(Dims(f, r.kind, i), dim).Null?
               then Some(if Contains(dim, "Size=") then SizeTail(dim) else r.entry.size)
               else DimInfo(Print(f), r.kind, r.name, dim)
  {
    var k, f' := r.kind, Apply(f, r).value;
    var g := Appended(f, r, i);
    DimensionFirst(k);
    DimSite(f, k, i);
    assert g == 0;
    DimSite(f', k, i);
    DimInfoReads(f, k, i, r.name, dim);
    DimInfoReads(f', k, i, r.name, dim);
    NameIndexAppend(Dims(f, k, i), r.entry, dim);
  }
}
