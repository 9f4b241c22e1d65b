/** SWfieldinfo and GDfieldinfo over the metadata: the number type and the
    dimensions of a field, by two lookups on the pointer the first one moves. */
module MetaFields {
  import opened CText
  import opened ListText
  import opened OdlLines
  import opened MetaTree
  import opened MetaEdit
  import opened MetaRequest
  import opened MetaCallers
  import opened MetaCalls
  import opened MetaLocate
  import opened MetaLookup
  import opened MetaRead
  import opened MetaFind
  import opened MetaDims

  /** The status, the number type (-1 if it was not read or is none of the known
      ones), and the names of the dimensions if they were read. */
  datatype FieldData = FieldData(status: int, ntype: int, dims: Option<seq<string>>)

  const NO_FIELD := FieldData(-1, -1, None)

  function TypeCode(v: string): int {
    if v == "DFNT_UCHAR8" || v == "DFNT_UCHAR" then 3
    else if v == "DFNT_CHAR8" || v == "DFNT_CHAR" then 4
    else if v == "DFNT_FLOAT32" || v == "DFNT_FLOAT" then 5
    else if v == "DFNT_FLOAT64" then 6
    else if v == "DFNT_INT8" then 20
    else if v == "DFNT_UINT8" then 21
    else if v == "DFNT_INT16" then 22
    else if v == "DFNT_UINT16" then 23
    else if v == "DFNT_INT32" then 24
    else if v == "DFNT_UINT32" then 25
    else -1
  }

  /** memmove by one and a NUL two characters before the end. */
  function Strip(v: string): string { if |v| >= 2 then v[1..|v| - 1] else "" }

  function StripAll(vs: seq<string>): seq<string> { seq(|vs|, i requires 0 <= i < |vs| => Strip(vs[i])) }

  /** The list without its parentheses, split, each entry without its quotes. */
  function DimNames(list: string): seq<string> { StripAll(Split(Strip(list), ',')) }

  const LIST_ENTRIES: nat := 8
  const DIMSTR_SIZE: nat := 64

  /** The list without its parentheses has no more entries than the pointer array. */
  predicate CountReadable(list: string) { |list| >= 2 && |Split(Strip(list), ',')| <= LIST_ENTRIES }

  /** Each entry without its quotes fits the buffer for one dimension. */
  predicate NamesReadable(list: string) {
    forall e <- Split(Strip(list), ',') :: 2 <= |e| < DIMSTR_SIZE + 2
  }

  /** From the place of the name: DataType, and from where that was found DimList. A
      grid leaves the dimensions unread if there was no type; a swath goes on without
      a count if there was no list, which is undefined. */
  function FieldAt(t: string, k: Kind, p: nat, stop: Ptr): Option<FieldData>
    requires p <= |t|
  {
    match ValueInto(t, p, stop, "DataType", UTLSTR_MAX_SIZE)
    case None => None
    case Some(a) =>
      var (status, code) := if a.Found? then (0, TypeCode(a.value)) else (-1, -1);
      match ValueInto(t, if a.Found? then a.pos else p, stop, "DimList", UTLSTR_MAX_SIZE)
      case None => None
      case Some(Missing) => if k.Grid? then Some(FieldData(-1, code, None)) else None
      case Some(Found(_, list)) =>
        if !CountReadable(list) then None
        else if k.Grid? && a.Missing? then Some(FieldData(status, code, None))
        else if !NamesReadable(list) then None
        else Some(FieldData(status, code, Some(DimNames(list))))
  }

  /** A swath reads up to the end of the group, a grid up to the end of the object.
      None stands for a search from the null pointer or a buffer that is overrun. */
  function FieldInfo(t: string, k: Kind, name: string, group: string, field: string): Option<FieldData> {
    match MetaGroup(t, k, name, Some(group))
    case None => None
    case Some((beg, end)) =>
      if beg.Null? || beg.pos > |t| then None else
      match StrStr(t, Fmt512("\"" + field + "\"\n"), beg.pos)
      case Null => Some(NO_FIELD)
      case At(p) =>
        if !(end.At? && p < end.pos) then Some(NO_FIELD)
        else FieldAt(t, k, p, if k.Grid? then StrStr(t, "\t\t\tEND_OBJECT", p) else end)
  }

  // ---------------------------------------------------- printing and reading back

  lemma TypeBack(n: int)
    requires KnownType(n)
    ensures TypeCode(TypeName(n)) == n
  {
  }

  lemma TypeShort(n: int)
    ensures |TypeName(n)| < UTLSTR_MAX_SIZE
  {
  }

  /** No type's name ends with a quote. */
  lemma NoType(v: string)
    requires v != "" && v[|v| - 1] == '"'
    ensures TypeCode(v) == -1
  {
  }

  lemma StripQuoted(s: string)
    ensures Strip(Quoted(s)) == s
  {
  }

  function QuotedAll(ss: seq<string>): seq<string> { seq(|ss|, i requires 0 <= i < |ss| => Quoted(ss[i])) }

  /** A printed list, stripped and split, is the list of quoted names. */
  lemma SplitQuoted(ds: seq<string>)
    requires PartsOk(ds)
    ensures Split(Strip(QuotedList(ds)), ',') == QuotedAll(ds)
  {
    var qs := QuotedAll(ds);
    assert Strip(QuotedList(ds)) == QuotedItems(ds);
    QuotedListIs(ds, QuotedAll(ds));
    forall i | 0 <= i < |qs| ensures ',' !in qs[i] && qs[i] != "" {
      NoComma(ds[i]);
    }
    SplitJoin(qs, ',');
  }

  /** The names of a printed dimension list come back. */
  lemma DimNamesBack(ds: seq<string>)
    requires PartsOk(ds)
    ensures DimNames(QuotedList(ds)) == ds
  {
    SplitQuoted(ds);
    var qs := QuotedAll(ds);
    forall i | 0 <= i < |ds| ensures StripAll(qs)[i] == ds[i] {
      StripQuoted(ds[i]);
    }
    assert StripAll(qs) == ds;
  }

  /** The dimensions that fit the buffers of SWfinfo and GDfieldinfo. */
  predicate Readable(ds: seq<string>) {
    |QuotedList(ds)| < 512 && |ds| <= 8 && forall d <- ds :: |d| < 64
  }

  lemma ReadableIs(ds: seq<string>)
    requires PartsOk(ds)
    ensures |QuotedList(ds)| < UTLSTR_MAX_SIZE && CountReadable(QuotedList(ds)) && NamesReadable(QuotedList(ds)) <==> Readable(ds)
  {
    var qs := QuotedAll(ds);
    SplitQuoted(ds);
    if NamesReadable(QuotedList(ds)) {
      forall d | d in ds ensures |d| < DIMSTR_SIZE {
        var i :| 0 <= i < |ds| && ds[i] == d;
        assert qs[i] in qs;
      }
    }
    if Readable(ds) {
      forall q | q in qs ensures 2 <= |q| < DIMSTR_SIZE + 2 {
        var i :| 0 <= i < |qs| && qs[i] == q;
        assert ds[i] in ds;
      }
    }
  }

  lemma NoComma(s: string)
    requires PartOk(s)
    ensures ',' !in Quoted(s)
  {
    assert forall i | 0 <= i < |s| :: s[i] != ',';
  }

  // ------------------------------------------------------------------ one field

  predicate Field(e: Entry) { e.GeoField? || e.DataField? }

  /** What a lookup should return. */
  function DataOf(e: Entry): FieldData
    requires Field(e)
  {
    FieldData(0, e.ntype, Some(e.dims))
  }

  /** What a lookup does return: no type if the name holds the key, else what it
      should if the dimensions fit the buffers. */
  predicate FieldReads(r: Option<FieldData>, e: Entry)
    requires Field(e)
  {
    if Contains(e.name, "DataType=") then r.Some? ==> r.value.ntype == -1
    else r == if Readable(e.dims) then Some(DataOf(e)) else None
  }

  lemma FieldOwn(e: Entry)
    requires Field(e)
    ensures |Own(e)| >= 3 && Own(e)[0].val == Quoted(e.name) && Own(e)[0].key in {"GeoFieldName", "DataFieldName"}
    ensures Own(e)[1] == Line(4, "DataType", TypeName(e.ntype)) && Own(e)[2] == Line(4, "DimList", QuotedList(e.dims))
  {
  }

  lemma FieldKeys()
    ensures KeyOk("DataType") && '"' !in "DataType=" && "DataType" + "=" == "DataType=" && EndsWith("DataType", "DataType")
    ensures KeyOk("DimList") && EndsWith("DimList", "DimList") && !EndsWith("DataType", "DimList")
  {
  }

  /** DataType from the name: the type's name, or what the field's own name holds. */
  lemma ReadType(e: Entry)
    requires Field(e) && EntryOk(e)
    ensures On(Own(e), InVal(0, 0)) && ReadOn(Own(e), InVal(0, 0), "DataType").Some?
    ensures var (c, v) := ReadOn(Own(e), InVal(0, 0), "DataType").value;
            if Contains(e.name, "DataType=") then c.line == 0 && c.InVal? && TypeCode(v) == -1
            else c == InHead(1, 8) && v == TypeName(e.ntype) && TypeCode(v) == e.ntype
  {
    FieldOwn(e);
    KeyHit(e.name, "DataType=");
    QuotedSearch(e.name, "DataType=");
    TypeBack(e.ntype);
    if Contains(e.name, "DataType=") {
      TypeHeld(Own(e), e.name, StrStr(e.name, "DataType=", 0).pos);
    } else {
      TypeNext(Own(e));
    }
  }

  lemma TypeHeld(ls: seq<Line>, name: string, q: nat)
    requires ls != [] && ls[0].val == Quoted(name) && StrStr(Quoted(name), "DataType=", 0) == At(q + 1)
    ensures On(ls, InVal(0, 0)) && ReadOn(ls, InVal(0, 0), "DataType").Some?
    ensures var (c, v) := ReadOn(ls, InVal(0, 0), "DataType").value; c.line == 0 && c.InVal? && TypeCode(v) == -1
  {
    FieldKeys();
    ReadHeld(ls, InVal(0, 0), "DataType", q + 1);
    HeldLength(name, q);
    TailQuote(name, q + 10);
    NoType(Quoted(name)[q + 10..]);
  }

  /** The closing quote is not part of the key. */
  lemma HeldLength(name: string, q: nat)
    requires OccursAt(Quoted(name), "DataType=", q + 1)
    ensures q + 10 <= |name| + 1
  {
    OccursIdx(Quoted(name), "DataType=", q + 1, |name| + 1);
  }

  lemma TypeNext(ls: seq<Line>)
    requires |ls| >= 2 && StrStr(ls[0].val, "DataType=", 0).Null? && ls[1].key == "DataType"
    ensures On(ls, InVal(0, 0)) && ReadOn(ls, InVal(0, 0), "DataType") == Some((InHead(1, 8), ls[1].val))
  {
    FieldKeys();
    ReadNext(ls, InVal(0, 0), "DataType");
    ReadLine(ls, 1, "DataType");
  }

  lemma TailQuote(s: string, n: nat)
    requires n <= |s| + 1
    ensures n <= |Quoted(s)| && Quoted(s)[n..] != "" && Quoted(s)[n..][|Quoted(s)| - n - 1] == '"'
  {
  }

  /** DimList from the DataType line. */
  lemma ReadDims(e: Entry)
    requires Field(e) && EntryOk(e)
    ensures On(Own(e), InHead(1, 8)) && ReadOn(Own(e), InHead(1, 8), "DimList") == Some((InHead(2, 7), QuotedList(e.dims)))
  {
    FieldOwn(e);
    FieldKeys();
    NoKeyInType(e.ntype);
    ReadNext(Own(e), InHead(1, 8), "DimList");
    ReadLine(Own(e), 2, "DimList");
  }

  lemma NoKeyInType(n: int)
    requires KnownType(n)
    ensures StrStr(TypeName(n), "DimList" + "=", 0).Null?
  {
    var k := "DimList" + "=";
    assert k[7] == '=' && '=' !in TypeName(n);
    forall x: nat ensures !OccursAt(TypeName(n), k, x) {
      OccursIdx(TypeName(n), k, x, x + 7);
    }
  }

  /** From the name of a field: what the two lookups read. */
  lemma FieldAtReads(t: string, k: Kind, pre: string, e: Entry, post: string, p: nat, stop: nat)
    requires Field(e) && EntryOk(e) && t == pre + Text(Own(e)) + post && |pre| + |Text(Own(e))| <= stop
    requires Own(e) != [] && p == |pre| + |Head(Own(e)[0])| + 1 && p <= |t|
    ensures FieldReads(FieldAt(t, k, p, At(stop)), e)
  {
    ReadType(e);
    FieldShaped(e);
    FieldKeys();
    var c, a, v := LookupWithin(t, pre, Own(e), post, InVal(0, 0), "DataType", p, stop);
    if Contains(e.name, "DataType=") {
      OtherCode(t, k, p, At(stop), Found(a, v));
    } else {
      ReadDims(e);
      TypeShort(e.ntype);
      var _, b, w := LookupWithin(t, pre, Own(e), post, c, "DimList", a, stop);
      DimNamesBack(e.dims);
      ReadableIs(e.dims);
      FieldAtIs(t, k, p, At(stop), Found(a, v), Found(b, w));
    }
  }

  lemma FieldShaped(e: Entry)
    requires Field(e) && EntryOk(e)
    ensures AllShaped(Own(e))
  {
    ObjectTame(e, 0);
  }

  lemma FieldAtIs(t: string, k: Kind, p: nat, stop: Ptr, a: Lookup, b: Lookup)
    requires p <= |t| && a.Found? && b.Found? && a.pos <= |t| && |a.value| < UTLSTR_MAX_SIZE
    requires ValueBetween(t, p, stop, "DataType") == a && ValueBetween(t, a.pos, stop, "DimList") == b
    ensures FieldAt(t, k, p, stop)
         == if |b.value| < UTLSTR_MAX_SIZE && CountReadable(b.value) && NamesReadable(b.value)
            then Some(FieldData(0, TypeCode(a.value), Some(DimNames(b.value)))) else None
  {
  }

  lemma OtherCode(t: string, k: Kind, p: nat, stop: Ptr, a: Lookup)
    requires p <= |t| && a.Found? && ValueBetween(t, p, stop, "DataType") == a
    ensures FieldAt(t, k, p, stop).Some? ==> FieldAt(t, k, p, stop).value.ntype == TypeCode(a.value)
  {
  }

  // ------------------------------------------------------------ the whole lookup

  predicate FieldSite(f: MetaFile, k: Kind, i: nat, g: nat) {
    && NamedSite(f, k, i, g) && Schema(k)[g] in {"GeoField", "DataField"}
    && forall e <- Entries(f, k, i, g) :: Field(e)
  }

  /** A group of fields whose extra attributes do not end with a quote. */
  predicate FieldGroup(f: MetaFile, k: Kind, i: nat, g: nat) {
    && GroupSite(f, k, i, g) && Schema(k)[g] in {"GeoField", "DataField"}
    && forall e <- Entries(f, k, i, g) :: PlainExtra(e)
  }

  lemma FieldSiteOk(f: MetaFile, k: Kind, i: nat, g: nat)
    requires FieldGroup(f, k, i, g)
    ensures FieldSite(f, k, i, g)
  {
    forall e | e in Entries(f, k, i, g) ensures Field(e) {
      GroupIsField(e);
    }
  }

  function FieldsOf(f: MetaFile, k: Kind, i: nat, g: nat): (es: seq<Entry>)
    requires FieldGroup(f, k, i, g)
    ensures NamedGroup(es) && forall e <- es :: Field(e) && EntryOk(e)
  {
    FieldSiteOk(f, k, i, g);
    Entries(f, k, i, g)
  }

  lemma GroupIsField(e: Entry)
    requires GroupOf(e) in {"GeoField", "DataField"}
    ensures Field(e)
  {
    assert GroupOf(e)[0] != 'I' && GroupOf(e)[0] != 'M' && GroupOf(e)[0] != 'L' && GroupOf(e)[1] != 'i';
  }

  lemma FieldMissing(f: MetaFile, k: Kind, i: nat, g: nat, nm: string, field: string)
    requires FieldSite(f, k, i, g) && SearchName(nm) && FirstStruct(f.Of(k), nm) == At(i) && SearchName(field)
    requires NameIndex(Entries(f, k, i, g), field).Null?
    ensures FieldInfo(Print(f), k, nm, Schema(k)[g], field) == Some(NO_FIELD)
  {
    var key := DimKey(field);
    NameMissing(f, k, i, g, field, "", key);
    var b, beg, end := Brackets(f, k, i, nm, g);
    FieldInfoMisses(Print(f), k, nm, b, field, key, beg, end);
  }

  lemma FieldInfoMisses(t: string, k: Kind, nm: string, b: string, field: string, key: string, beg: nat, end: nat)
    requires key == Fmt512("\"" + field + "\"\n") && MetaGroup(t, k, nm, Some(b)) == Some((At(beg), At(end))) && beg <= |t|
    requires StrStr(t, key, beg).At? ==> StrStr(t, key, beg).pos >= end
    ensures FieldInfo(t, k, nm, b, field) == Some(NO_FIELD)
  {
  }

  lemma FieldInfoIs(t: string, k: Kind, nm: string, b: string, field: string, key: string, beg: nat, end: nat, p: nat)
    requires key == Fmt512("\"" + field + "\"\n") && MetaGroup(t, k, nm, Some(b)) == Some((At(beg), At(end))) && beg <= |t|
    requires StrStr(t, key, beg) == At(p) && p < end && p <= |t|
    ensures FieldInfo(t, k, nm, b, field) == FieldAt(t, k, p, if k.Grid? then StrStr(t, "\t\t\tEND_OBJECT", p) else At(end))
  {
  }

  lemma FieldFound(f: MetaFile, k: Kind, i: nat, g: nat, nm: string, field: string, j: nat)
    requires FieldSite(f, k, i, g) && SearchName(nm) && FirstStruct(f.Of(k), nm) == At(i) && SearchName(field)
    requires NameIndex(Entries(f, k, i, g), field) == At(j)
    ensures var e := Entries(f, k, i, g)[j];
            FieldReads(FieldInfo(Print(f), k, nm, Schema(k)[g], field), e)
  {
    var e := Entries(f, k, i, g)[j];
    var key := DimKey(field);
    var b, beg, end := Brackets(f, k, i, nm, g);
    assert e in Entries(f, k, i, g);
    NameEnds(e, field);
    var pre, post, p := NameFound(f, k, i, g, field, "", key, j);
    FieldInfoIs(Print(f), k, nm, b, field, key, beg, end, p);
    var after := LineText(ObjClose(e, j)) + post;
    if k.Grid? {
      ObjectEnd(Print(f), pre, e, j, post, p);
      FieldAtReads(Print(f), k, pre, e, after, p, StrStr(Print(f), "\t\t\tEND_OBJECT", p).pos);
    } else {
      FieldAtReads(Print(f), k, pre, e, after, p, end);
    }
  }

  /** What a field lookup returns: a failure if no field has the name; else number
      type and dimensions of the first one that has, if and only if the name does
      not hold the key "DataType=" and the dimensions fit the buffers. With such a
      name it returns no type. */
  lemma FieldInfoReads(f: MetaFile, k: Kind, i: nat, g: nat, nm: string, field: string)
    requires FieldGroup(f, k, i, g) && SearchName(nm) && FirstStruct(f.Of(k), nm) == At(i) && SearchName(field)
    ensures var es, r := FieldsOf(f, k, i, g), FieldInfo(Print(f), k, nm, Schema(k)[g], field);
            match NameIndex(es, field)
            case Null => r == Some(FieldData(-1, -1, None))
            case At(j) => FieldReads(r, es[j]) && (r == Some(DataOf(es[j])) <==> !Contains(field, "DataType=") && Readable(es[j].dims))
  {
    FieldSiteOk(f, k, i, g);
    match NameIndex(FieldsOf(f, k, i, g), field)
    case Null => FieldMissing(f, k, i, g, nm, field);
    case At(j) =>
      FieldFound(f, k, i, g, nm, field, j);
      FieldAmong(FieldsOf(f, k, i, g), j);
      ReadsIff(FieldInfo(Print(f), k, nm, Schema(k)[g], field), FieldsOf(f, k, i, g)[j]);
  }

  /** A field "DataType=a", which the naming rules allow, has no type. */
  lemma TypeInName(f: MetaFile, k: Kind, i: nat, g: nat, nm: string, j: nat)
    requires FieldGroup(f, k, i, g) && SearchName(nm) && FirstStruct(f.Of(k), nm) == At(i)
    requires NameIndex(FieldsOf(f, k, i, g), "DataType=a") == At(j)
    ensures SearchName("DataType=a") && Field(FieldsOf(f, k, i, g)[j])
    ensures FieldInfo(Print(f), k, nm, Schema(k)[g], "DataType=a") != Some(DataOf(FieldsOf(f, k, i, g)[j]))
  {
    KeyInFieldName("DataType=a");
    FieldInfoReads(f, k, i, g, nm, "DataType=a");
    FieldAmong(FieldsOf(f, k, i, g), j);
  }

  lemma KeyInFieldName(s: string)
    requires s == "DataType=a"
    ensures SearchName(s) && Contains(s, "DataType=")
  {
    var n := KeyName("", "DataType=", "a");
    assert n == "DataType=a";
  }

  /** A dimension of 64 letters, which the naming rules allow, overruns the buffer of
      every lookup of a field that has it. */
  lemma LongDimension(f: MetaFile, k: Kind, i: nat, g: nat, nm: string, field: string, j: nat)
    requires FieldGroup(f, k, i, g) && SearchName(nm) && FirstStruct(f.Of(k), nm) == At(i) && SearchName(field)
    requires NameIndex(FieldsOf(f, k, i, g), field) == At(j) && Field(FieldsOf(f, k, i, g)[j])
    requires Letters('d', 64) in FieldsOf(f, k, i, g)[j].dims && !Contains(field, "DataType=")
    ensures NameOk(Letters('d', 64)) && FieldInfo(Print(f), k, nm, Schema(k)[g], field) == None
  {
    LettersOk('d', 64);
    FieldInfoReads(f, k, i, g, nm, field);
  }

  lemma FieldAmong(es: seq<Entry>, j: nat)
    requires j < |es| && forall e <- es :: Field(e) && EntryOk(e)
    ensures Field(es[j]) && EntryOk(es[j])
  {
    assert es[j] in es;
  }

  lemma ReadsIff(r: Option<FieldData>, e: Entry)
    requires Field(e) && EntryOk(e) && FieldReads(r, e)
    ensures r == Some(DataOf(e)) <==> !Contains(e.name, "DataType=") && Readable(e.dims)
  {
  }

  /** Define, then look up: the new field has the type and the dimensions it was given
      if and only if its strings fit the buffers of the definition, its dimensions
      those of the lookup, and its name does not hold the key, provided none of that
      name was there. */
  lemma DefineFieldThenLookUp(f: MetaFile, a: Ask, i: nat, g: nat)
    requires AskOk(a) && Adds(f, Received(a)) && Field(a.req.entry) && PlainExtra(a.req.entry) && SearchName(a.req.entry.name)
    requires FirstStruct(f.Of(a.req.kind), a.req.name) == At(i) && FieldGroup(f, a.req.kind, i, g) && Schema(a.req.kind)[g] == GroupOf(a.req.entry)
    requires NameIndex(FieldsOf(f, a.req.kind, i, g), a.req.entry.name).Null?
    ensures var e, t := a.req.entry, InsertAsk(Print(f), a);
            t.Some? && FieldInfo(t.value, a.req.kind, a.req.name, GroupOf(e), e.name) == Some(DataOf(e))
            <==> FieldWhole(e, a.size) && Readable(e.dims) && !Contains(e.name, "DataType=")
  {
    ArrivesWhole(a);
    if Arrives(a).Some? {
      var r := CutFieldReads(f, a, i, g);
      ReceivedIs(a);
      CutReads(r, a.req.entry, CutEntry(a.req.entry, a.size), a.size);
    }
  }

  /** The lookup finds what the buffer left of the field. */
  lemma CutFieldReads(f: MetaFile, a: Ask, i: nat, g: nat) returns (r: Option<FieldData>)
    requires AskOk(a) && Arrives(a).Some? && Adds(f, Received(a)) && Field(a.req.entry) && PlainExtra(a.req.entry) && SearchName(a.req.entry.name)
    requires FirstStruct(f.Of(a.req.kind), a.req.name) == At(i) && FieldGroup(f, a.req.kind, i, g) && Schema(a.req.kind)[g] == GroupOf(a.req.entry)
    requires NameIndex(FieldsOf(f, a.req.kind, i, g), a.req.entry.name).Null?
    ensures InsertAsk(Print(f), a).Some?
    ensures r == FieldInfo(InsertAsk(Print(f), a).value, a.req.kind, a.req.name, GroupOf(a.req.entry), a.req.entry.name)
    ensures Field(CutEntry(a.req.entry, a.size)) && FieldReads(r, CutEntry(a.req.entry, a.size))
  {
    ReceivedIs(a);
    r := FieldLookedUp(f, Received(a), i, g);
  }

  /** What the lookup of the received field returns. */
  lemma FieldLookedUp(f: MetaFile, q: Request, i: nat, g: nat) returns (r: Option<FieldData>)
    requires Adds(f, q) && Field(q.entry) && PlainExtra(q.entry) && SearchName(q.entry.name) && FirstStruct(f.Of(q.kind), q.name) == At(i)
    requires FieldGroup(f, q.kind, i, g) && Schema(q.kind)[g] == GroupOf(q.entry) && NameIndex(FieldsOf(f, q.kind, i, g), q.entry.name).Null?
    ensures InsertText(Print(f), CallOf(q)).Some?
    ensures r == FieldInfo(InsertText(Print(f), CallOf(q)).value, q.kind, q.name, GroupOf(q.entry), q.entry.name) && FieldReads(r, q.entry)
  {
    var f' := FieldsGrow(f, q, i, g);
    NameIndexAppend(FieldsOf(f, q.kind, i, g), q.entry, q.entry.name);
    FieldInfoReads(f', q.kind, i, g, q.name, q.entry.name);
    r := FieldInfo(Print(f'), q.kind, q.name, GroupOf(q.entry), q.entry.name);
  }

  /** It is what was asked for only if nothing was cut off. */
  lemma CutReads(r: Option<FieldData>, e: Entry, c: Entry, size: nat)
    requires Field(e) && EntryOk(e) && c == CutEntry(e, size) && FieldReads(r, c)
    ensures r == Some(DataOf(e)) <==> c == e && Readable(e.dims) && !Contains(e.name, "DataType=")
  {
  }

  /** Cutting off one character takes it from the last dimension. */
  lemma {:induction false} CutOne(ds: seq<string>, m: nat)
    requires ds != [] && ds[|ds| - 1] != "" && m == |Join(ds, ',')| - 1
    ensures var n, last := |ds| - 1, ds[|ds| - 1]; CutList(ds, m) == ds[..n] + [last[..|last| - 1]]
    decreases |ds|
  {
    if |ds| > 1 {
      var n, last := |ds| - 1, ds[|ds| - 1];
      JoinLast(ds[1..]);
      CutOne(ds[1..], m - |ds[0]| - 1);
      assert ds[..n] == [ds[0]] + ds[1..][..n - 1];
    }
  }

  lemma {:induction false} JoinLast(ds: seq<string>)
    requires ds != [] && ds[|ds| - 1] != ""
    ensures Join(ds, ',') != ""
  {
  }

  /** Seven dimensions of 63 letters. */
  const SEVEN: seq<string> := seq(7, _ => Letters('d', 63))

  /** The same, the last one without its last letter. */
  const SEVEN_CUT: seq<string> := SEVEN[..6] + [Letters('d', 62)]

  lemma SevenJoined()
    ensures PartsOk(SEVEN) && |Join(SEVEN, ',')| == 447 && Readable(SEVEN)
  {
    SevenParts(SEVEN, Letters('d', 63));
    JoinLength(SEVEN, 63);
    QuotedItemsLength(SEVEN);
  }

  lemma SevenParts(ds: seq<string>, d: string)
    requires |ds| == 7 && d == Letters('d', 63) && forall x <- ds :: x == d
    ensures PartsOk(ds)
  {
    LettersOk('d', 63);
    assert ds[0] in ds;
  }

  lemma SevenCut()
    ensures CutDims(Letters('f', 64), SEVEN, DEFINE_SIZE) == SEVEN_CUT && Readable(SEVEN_CUT)
  {
    SevenJoined();
    CutOne(SEVEN, 446);
    CutListIs(SEVEN, 446);
    assert SEVEN[6][..62] == Letters('d', 62);
    QuotedItemsLength(SEVEN_CUT);
  }

  /** A field of 64 letters over seven dimensions of 63, which the naming rules allow
      and the lookup has room for: it comes back with one letter less. */
  lemma LetterLost(f: MetaFile, a: Ask, i: nat, g: nat)
    requires AskOk(a) && a.size == DEFINE_SIZE && a.req.AddEntry? && a.req.entry == DataField(Letters('f', 64), 5, SEVEN, [])
    requires Adds(f, Received(a)) && FirstStruct(f.Of(a.req.kind), a.req.name) == At(i) && FieldGroup(f, a.req.kind, i, g)
    requires Schema(a.req.kind)[g] == "DataField" && NameIndex(FieldsOf(f, a.req.kind, i, g), Letters('f', 64)).Null?
    ensures Readable(SEVEN) && InsertAsk(Print(f), a).Some?
    ensures FieldInfo(InsertAsk(Print(f), a).value, a.req.kind, a.req.name, "DataField", Letters('f', 64)) == Some(FieldData(0, 5, Some(SEVEN_CUT)))
  {
    LongFieldName();
    SevenJoined();
    SevenArrives(a);
    var r := CutFieldReads(f, a, i, g);
    SevenReads(r);
  }

  lemma LongFieldName()
    ensures SearchName(Letters('f', 64)) && !Contains(Letters('f', 64), "DataType=")
  {
    LettersOk('f', 64);
    NotContainsChar(Letters('f', 64), "DataType=", 8);
    assert |Letters('f', 64)| != |")"|;
  }

  lemma SevenArrives(a: Ask)
    requires a.size == DEFINE_SIZE && a.req.AddEntry? && a.req.entry == DataField(Letters('f', 64), 5, SEVEN, [])
    ensures Arrives(a).Some?
  {
  }

  lemma SevenReads(r: Option<FieldData>)
    requires FieldReads(r, CutEntry(DataField(Letters('f', 64), 5, SEVEN, []), DEFINE_SIZE))
    ensures r == Some(FieldData(0, 5, Some(SEVEN_CUT)))
  {
    SevenCut();
    LongFieldName();
  }

  lemma FieldsGrow(f: MetaFile, q: Request, i: nat, g: nat) returns (f': MetaFile)
    requires Adds(f, q) && Field(q.entry) && PlainExtra(q.entry) && FirstStruct(f.Of(q.kind), q.name) == At(i)
    requires FieldGroup(f, q.kind, i, g) && Schema(q.kind)[g] == GroupOf(q.entry)
    ensures FieldGroup(f', q.kind, i, g) && FirstStruct(f'.Of(q.kind), q.name) == At(i)
    ensures FieldsOf(f', q.kind, i, g) == FieldsOf(f, q.kind, i, g) + [q.entry] && InsertText(Print(f), CallOf(q)) == Some(Print(f'))
  {
    f' := Apply(f, q).value;
    var h := Appended(f, q, i);
    SchemaOnce(q.kind, g, h);
    NewFieldSite(f, f', q.kind, i, g, q.entry);
  }

  lemma NewFieldSite(f: MetaFile, f': MetaFile, k: Kind, i: nat, g: nat, e: Entry)
    requires FieldGroup(f, k, i, g) && Site(f', k, i) && Field(e) && PlainExtra(e)
    requires f'.Of(k)[i].groups[g] == f.Of(k)[i].groups[g] + [e]
    ensures FieldGroup(f', k, i, g) && FieldsOf(f', k, i, g) == FieldsOf(f, k, i, g) + [e]
  {
    GroupSiteOk(f', k, i, g);
  }
}
