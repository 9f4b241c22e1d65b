/** EHinsertmeta on the text: where the new segment goes and what it says. A
    step the C code cannot take with defined behaviour (a search from the null
    pointer, a write through it, a buffer overrun) yields None. */
module MetaEdit {
  import opened CText
  import opened ListText
  import opened OdlCount
  import opened MetaTree

  const UTLSTRSIZE: nat := 32000

  /** snprintf into a utility string: cut to what the buffer holds. */
  function Fmt(s: string): (r: string)
    ensures |r| < UTLSTRSIZE && r <= s
  {
    Cut(s, UTLSTRSIZE)
  }

  /** strcpy or strcat into a utility string: defined only when it fits. */
  function Fits(s: string): (r: Option<string>)
    ensures r.Some? ==> |r.value| < UTLSTRSIZE
  {
    if |s| < UTLSTRSIZE then Some(s) else None
  }

  datatype Call = Call(structname: string, kind: Kind, metacode: int, metastr: string, metadata: seq<int>)

  // ---------------------------------------------------------------- searching

  function FindRoot(t: string, k: Kind): Ptr { StrStr(t, "GROUP=" + RootName(k), 0) }

  /** First a line of its own with the structure's name; failing that, the name in
      a GROUP line, from the same place again. */
  function FindNamed(t: string, k: Kind, name: string, root: nat): Ptr
    requires root <= |t|
  {
    match StrStr(t, Fmt(NameKey(k) + "=\"" + name), root)
    case At(p) => At(p)
    case Null => StrStr(t, Fmt("GROUP=\"" + name), root)
  }

  function FindStart(t: string, c: Call): (p: Ptr)
    ensures p.At? ==> p.pos <= |t|
  {
    match FindRoot(t, c.kind)
    case Null => Null
    case At(root) => if c.metacode < 1000 then FindNamed(t, c.kind, c.structname, root) else At(root)
  }

  /** The value of the counting loop, OdlCount.CountTerminators. */
  function Counted(t: string, beg: Ptr, end: Ptr, word: string): int {
    if beg.At? && end.At? && beg.pos < end.pos then Occurrences(t, word, beg.pos + 1, end.pos) else -1
  }

  /** Where the segment goes, and the number it carries. */
  datatype Place = Place(offset: nat, count: int)

  function ObjectPlace(t: string, from: nat, group: string): (r: Option<Place>)
    requires from <= |t|
    ensures r.Some? ==> r.value.offset <= |t|
  {
    var begptr := StrStr(t, "\t\tGROUP=" + group, from);
    var metaptr := StrStr(t, "\t\tEND_GROUP=" + group, from);
    match metaptr
    case Null => None
    case At(end) => Some(Place(end, Counted(t, begptr, metaptr, "END_OBJECT") + 1))
  }

  function LevelPlace(t: string, from: nat): (r: Option<Place>)
    requires from <= |t|
    ensures r.Some? ==> r.value.offset <= |t|
  {
    var begptr := StrStr(t, "\t\tGROUP=Level", from);
    match StrStr(t, "\n\t\tEND_GROUP=Level", from)
    case Null => None
    case At(nl) => Some(Place(nl + 1, Counted(t, begptr, At(nl + 1), "END_GROUP")))
  }

  function PointFieldPlace(t: string, from: nat, level: string): (r: Option<Place>)
    requires from <= |t|
    ensures r.Some? ==> r.value.offset <= |t|
  {
    match Fits("\t\t\t\tLevelName=\"" + level)
    case None => None
    case Some(key) =>
      match StrStr(t, key, from)
      case Null => None
      case At(beg) =>
        match StrStr(t, "\t\t\tEND_GROUP=Level_", beg)
        case Null => None
        case At(end) => Some(Place(end, Counted(t, At(beg), At(end), "END_OBJECT") + 1))
  }

  function KeyPlace(t: string, from: nat, key: string): (r: Option<Place>)
    requires from <= |t|
    ensures r.Some? ==> r.value.offset <= |t|
  {
    match StrStr(t, key, from) case Null => None case At(p) => Some(Place(p, 0))
  }

  /** The group of the metadata codes that add an OBJECT to a group. */
  function CodeGroup(code: int): string {
    match code
    case 0 => "Dimension"
    case 1 => "DimensionMap"
    case 2 => "IndexDimensionMap"
    case 3 => "GeoField"
    case 4 => "DataField"
    case 6 => "MergedFields"
    case 12 => "LevelLink"
    case _ => ""
  }

  predicate ObjectCode(code: int) { code in {0, 1, 2, 3, 4, 6, 12} }

  /** The metadata switch, as far as it positions the insertion. */
  function PlaceAt(t: string, p: nat, c: Call): (r: Option<Place>)
    requires p <= |t|
    ensures r.Some? ==> r.value.offset <= |t|
  {
    if ObjectCode(c.metacode) then ObjectPlace(t, p, CodeGroup(c.metacode)) else
    match c.metacode
    case 10 => LevelPlace(t, p)
    case 11 =>
      (match StrChr(c.metastr, ':', 0)
       case Null => None
       case At(colon) => PointFieldPlace(t, p, c.metastr[colon + 1..]))
    case 101 => KeyPlace(t, p, "\t\tGROUP=Dimension")
    case 1001 => KeyPlace(t, p, "END_GROUP=SwathStructure")
    case 1002 => KeyPlace(t, p, "END_GROUP=GridStructure")
    case 1003 => KeyPlace(t, p, "END_GROUP=PointStructure")
    case _ => None
  }

  function PlaceOf(t: string, c: Call): (r: Option<Place>)
    ensures r.Some? ==> r.value.offset <= |t|
  {
    match FindStart(t, c) case Null => None case At(p) => PlaceAt(t, p, c)
  }

  lemma SwitchLevel(t: string, p: nat, c: Call)
    requires p <= |t| && c.metacode == 10
    ensures PlaceAt(t, p, c) == LevelPlace(t, p)
  {
  }

  // ----------------------------------------------------------------- segments

  /** One line of a format string: literal text, a value, a newline. */
  function Row(prefix: string, value: string): string { prefix + value + "\n" }

  /** EHparsestr on '/', then a NUL in place of the first slash found. */
  function CutSlash(metastr: string): Option<(string, string)> {
    var ps := Split(metastr, '/');
    var n := if ps == [] then 0 else |ps[0]|;
    if |ps| > 8 || n + 1 > |metastr| then None else Some((metastr[..n], metastr[n + 1..]))
  }

  /** strchr for c, then a NUL in its place. */
  function CutAt(metastr: string, c: char): Option<(string, string)> {
    match StrChr(metastr, c, 0) case Null => None case At(p) => Some((metastr[..p], metastr[p + 1..]))
  }

  /** EHmetalist into a utility string. */
  function MetaList(s: string): Option<string> {
    if s == "" then None else Fits(QuotedList(Split(s, ',')))
  }

  function DimensionSeg(name: string, size: int, count: int): string {
    Row("\t\t\tOBJECT=Dimension_", Dec(count))
    + Row("\t\t\t\tDimensionName=\"", name + "\"")
    + Row("\t\t\t\tSize=", Dec(size))
    + Row("\t\t\tEND_OBJECT=Dimension_", Dec(count))
  }

  function DimensionMapSeg(geo: string, data: string, offset: int, increment: int, count: int): string {
    Row("\t\t\tOBJECT=DimensionMap_", Dec(count))
    + Row("\t\t\t\tGeoDimension=\"", geo + "\"")
    + Row("\t\t\t\tDataDimension=\"", data + "\"")
    + Row("\t\t\t\tOffset=", Dec(offset))
    + Row("\t\t\t\tIncrement=", Dec(increment))
    + Row("\t\t\tEND_OBJECT=DimensionMap_", Dec(count))
  }

  function IndexMapSeg(geo: string, data: string, count: int): string {
    Row("\t\t\tOBJECT=IndexDimensionMap_", Dec(count))
    + Row("\t\t\t\tGeoDimension=\"", geo + "\"")
    + Row("\t\t\t\tDataDimension=\"", data + "\"")
    + Row("\t\t\tEND_OBJECT=IndexDimensionMap_", Dec(count))
  }

  /** Geolocation and data fields differ in three literals only. The field's
      compression and tiling text follows a second colon and starts with the
      newline that ends the DimList line. */
  function FieldSeg(open: string, nameKey: string, close: string, metastr: string, metadata: seq<int>, count: int): (r: Option<string>)
    ensures r.Some? ==> |r.value| < UTLSTRSIZE
  {
    match CutAt(metastr, ':')
    case None => None
    case Some((name, rest)) =>
      var (dims, extra) := match CutAt(rest, ':') case None => (rest, "") case Some((d, x)) => (d, x);
      if metadata == [] || !KnownType(metadata[0]) then None else
      match MetaList(dims)
      case None => None
      case Some(list) =>
        var body := Fmt(Row(open, Dec(count)) + Row(nameKey, name + "\"")
                        + Row("\t\t\t\tDataType=", TypeName(metadata[0])) + "\t\t\t\tDimList=" + list);
        Fits(body + extra + ("\n" + Row(close, Dec(count))))
  }

  function MergedSeg(metastr: string, count: int): (r: Option<string>)
    ensures r.Some? ==> |r.value| < UTLSTRSIZE
  {
    match CutAt(metastr, ':')
    case None => None
    case Some((name, rest)) =>
      match MetaList(rest)
      case None => None
      case Some(list) =>
        Some(Fmt(Row("\t\t\tOBJECT=MergedFields_", Dec(count))
                 + Row("\t\t\t\tMergedFieldName=\"", name + "\"")
                 + Row("\t\t\t\tFieldList=", list)
                 + Row("\t\t\tEND_OBJECT=MergedFields_", Dec(count))))
  }

  function LevelSeg(name: string, count: int): string {
    Row("\t\t\tGROUP=Level_", Dec(count))
    + Row("\t\t\t\tLevelName=\"", name + "\"")
    + Row("\t\t\tEND_GROUP=Level_", Dec(count))
  }

  function PointFieldSeg(name: string, ntype: int, order: int, count: int): string {
    Row("\t\t\t\tOBJECT=PointField_", Dec(count))
    + Row("\t\t\t\t\tPointFieldName=\"", name + "\"")
    + Row("\t\t\t\t\tDataType=", TypeName(ntype))
    + Row("\t\t\t\t\tOrder=", Dec(order))
    + Row("\t\t\t\tEND_OBJECT=PointField_", Dec(count))
  }

  function LevelLinkSeg(parent: string, child: string, link: string, count: int): string {
    Row("\t\t\tOBJECT=LevelLink_", Dec(count))
    + Row("\t\t\t\tParent=\"", parent + "\"")
    + Row("\t\t\t\tChild=\"", child + "\"")
    + Row("\t\t\t\tLinkField=\"", link + "\"")
    + Row("\t\t\tEND_OBJECT=LevelLink_", Dec(count))
  }

  function SegOf(c: Call, count: int): (r: Option<string>)
    ensures r.Some? ==> |r.value| < UTLSTRSIZE
  {
    var m := c.metadata;
    match c.metacode
    case 0 =>
      if m == [] then None else Some(Fmt(DimensionSeg(c.metastr, m[0], count)))
    case 1 =>
      (match CutSlash(c.metastr)
       case None => None
       case Some((geo, data)) =>
         if |m| < 2 then None else Some(Fmt(DimensionMapSeg(geo, data, m[0], m[1], count))))
    case 2 =>
      (match CutSlash(c.metastr)
       case None => None
       case Some((geo, data)) => Some(Fmt(IndexMapSeg(geo, data, count))))
    case 3 =>
      FieldSeg("\t\t\tOBJECT=GeoField_", "\t\t\t\tGeoFieldName=\"", "\t\t\tEND_OBJECT=GeoField_", c.metastr, m, count)
    case 4 =>
      FieldSeg("\t\t\tOBJECT=DataField_", "\t\t\t\tDataFieldName=\"", "\t\t\tEND_OBJECT=DataField_", c.metastr, m, count)
    case 6 => MergedSeg(c.metastr, count)
    case 10 => Some(Fmt(LevelSeg(c.metastr, count)))
    case 11 =>
      (match CutAt(c.metastr, ':')
       case None => None
       case Some((name, _)) =>
         if |m| < 2 || !KnownType(m[0]) then None else Some(Fmt(PointFieldSeg(name, m[0], m[1], count))))
    case 12 =>
      (match CutAt(c.metastr, ':')
       case None => None
       case Some((levels, link)) =>
         match CutAt(levels, '/')
         case None => None
         case Some((parent, child)) => Some(Fmt(LevelLinkSeg(parent, child, link, count))))
    case 101 => Fits(c.metastr)
    case 1001 => Fits(c.metastr)
    case 1002 => Fits(c.metastr)
    case 1003 => Fits(c.metastr)
    case _ => None
  }

  // --------------------------------------------------------------- the new text

  datatype Edit = Edit(offset: nat, seg: string)

  function EditOf(t: string, c: Call): (e: Option<Edit>)
    ensures e.Some? ==> e.value.offset <= |t| && |e.value.seg| < UTLSTRSIZE
  {
    match PlaceOf(t, c)
    case None => None
    case Some(p) =>
      match SegOf(c, p.count)
      case None => None
      case Some(seg) => Some(Edit(p.offset, seg))
  }

  function Splice(t: string, e: Edit): string
    requires e.offset <= |t|
  {
    t[..e.offset] + e.seg + t[e.offset..]
  }

  function InsertText(t: string, c: Call): Option<string> {
    match EditOf(t, c) case None => None case Some(e) => Some(Splice(t, e))
  }
}
