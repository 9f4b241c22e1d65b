/** The structural metadata as a tree - structures, groups, entries - and the
    lines it is printed as. */
module MetaTree {
  import opened CText
  import opened ListText
  import opened OdlLines

  datatype Kind = Swath | Grid | Point

  /** One `key=value` line as a caller supplies it. */
  datatype Attr = Attr(key: string, val: string)

  datatype PField = PField(name: string, ntype: int, order: int)

  /** What a group holds: OBJECTs, and for the Level group of a point, GROUPs. */
  datatype Entry =
    | Dimension(name: string, size: int)
    | DimensionMap(geo: string, data: string, offset: int, increment: int)
    | IndexMap(geo: string, data: string)
    | GeoField(name: string, ntype: int, dims: seq<string>, extra: seq<Attr>)
    | DataField(name: string, ntype: int, dims: seq<string>, extra: seq<Attr>)
    | Merged(name: string, members: seq<string>)
    | Level(name: string, fields: seq<PField>)
    | LevelLink(parent: string, child: string, link: string)

  datatype Struct = Struct(id: int, name: string, params: seq<Attr>, groups: seq<seq<Entry>>)

  datatype MetaFile = MetaFile(swaths: seq<Struct>, grids: seq<Struct>, points: seq<Struct>) {
    function Of(k: Kind): seq<Struct> {
      match k case Swath => swaths case Grid => grids case Point => points
    }

    function With(k: Kind, ss: seq<Struct>): MetaFile {
      match k
      case Swath => this.(swaths := ss)
      case Grid => this.(grids := ss)
      case Point => this.(points := ss)
    }
  }

  const EMPTY_FILE := MetaFile([], [], [])

  function RootName(k: Kind): string {
    match k case Swath => "SwathStructure" case Grid => "GridStructure" case Point => "PointStructure"
  }

  function NameKey(k: Kind): string {
    match k case Swath => "SwathName" case Grid => "GridName" case Point => "PointName"
  }

  function OpenName(k: Kind): string {
    match k case Swath => "SWATH_" case Grid => "GRID_" case Point => "POINT_"
  }

  /** The groups a structure of each kind is created with, in order. */
  function Schema(k: Kind): seq<string> {
    match k
    case Swath => ["Dimension", "DimensionMap", "IndexDimensionMap", "GeoField", "DataField", "MergedFields"]
    case Grid => ["Dimension", "DataField", "MergedFields"]
    case Point => ["Level", "LevelLink"]
  }

  function GroupOf(e: Entry): string {
    match e
    case Dimension(_, _) => "Dimension"
    case DimensionMap(_, _, _, _) => "DimensionMap"
    case IndexMap(_, _) => "IndexDimensionMap"
    case GeoField(_, _, _, _) => "GeoField"
    case DataField(_, _, _, _) => "DataField"
    case Merged(_, _) => "MergedFields"
    case Level(_, _) => "Level"
    case LevelLink(_, _, _) => "LevelLink"
  }

  predicate KnownType(n: int) { n in {3, 4, 5, 6, 20, 21, 22, 23, 24, 25} }

  function TypeName(n: int): string {
    match n
    case 3 => "DFNT_UCHAR8"
    case 4 => "DFNT_CHAR8"
    case 5 => "DFNT_FLOAT32"
    case 6 => "DFNT_FLOAT64"
    case 20 => "DFNT_INT8"
    case 21 => "DFNT_UINT8"
    case 22 => "DFNT_INT16"
    case 23 => "DFNT_UINT16"
    case 24 => "DFNT_INT32"
    case 25 => "DFNT_UINT32"
    case _ => ""
  }

  // ---------------------------------------------------------------- printing

  function FieldAttrs(key: string, name: string, ntype: int, dims: seq<string>, extra: seq<Attr>): seq<Attr> {
    [Attr(key, Quoted(name)), Attr("DataType", TypeName(ntype)), Attr("DimList", QuotedList(dims))] + extra
  }

  function Attrs(e: Entry): seq<Attr>
  {
    match e
    case Dimension(n, s) => [Attr("DimensionName", Quoted(n)), Attr("Size", Dec(s))]
    case DimensionMap(g, d, o, i) =>
      [Attr("GeoDimension", Quoted(g)), Attr("DataDimension", Quoted(d)), Attr("Offset", Dec(o)), Attr("Increment", Dec(i))]
    case IndexMap(g, d) => [Attr("GeoDimension", Quoted(g)), Attr("DataDimension", Quoted(d))]
    case GeoField(n, t, ds, x) => FieldAttrs("GeoFieldName", n, t, ds, x)
    case DataField(n, t, ds, x) => FieldAttrs("DataFieldName", n, t, ds, x)
    case Merged(n, ms) => [Attr("MergedFieldName", Quoted(n)), Attr("FieldList", QuotedList(ms))]
    case Level(_, _) => []
    case LevelLink(p, c, l) => [Attr("Parent", Quoted(p)), Attr("Child", Quoted(c)), Attr("LinkField", Quoted(l))]
  }

  function AttrLines(n: nat, xs: seq<Attr>): seq<Line> {
    seq(|xs|, i requires 0 <= i < |xs| => Line(n, xs[i].key, xs[i].val))
  }

  function Numbered(group: string, c: int): string { group + "_" + Dec(c) }

  function ObjectLines(n: nat, tag: string, xs: seq<Attr>): seq<Line> {
    [Line(n, "OBJECT", tag)] + AttrLines(n + 1, xs) + [Line(n, "END_OBJECT", tag)]
  }

  function PFieldAttrs(p: PField): seq<Attr> {
    [Attr("PointFieldName", Quoted(p.name)), Attr("DataType", TypeName(p.ntype)), Attr("Order", Dec(p.order))]
  }

  /** The fields of a level are numbered from 1. */
  function PFieldLines(ps: seq<PField>): seq<Line> {
    if ps == [] then []
    else PFieldLines(ps[..|ps| - 1])
         + ObjectLines(4, Numbered("PointField", |ps|), PFieldAttrs(ps[|ps| - 1]))
  }

  /** OBJECTs are numbered from 1, levels from 0. */
  function EntryLines(e: Entry, earlier: nat): seq<Line> {
    if e.Level? then
      LevelOpen(e, earlier) + PFieldLines(e.fields) + [Line(3, "END_GROUP", Numbered("Level", earlier))]
    else
      ObjectLines(3, Numbered(GroupOf(e), earlier + 1), Attrs(e))
  }

  function LevelOpen(e: Entry, earlier: nat): seq<Line>
    requires e.Level?
  {
    [Line(3, "GROUP", Numbered("Level", earlier)), Line(4, "LevelName", Quoted(e.name))]
  }

  function EntriesLines(es: seq<Entry>): seq<Line> {
    if es == [] then []
    else EntriesLines(es[..|es| - 1]) + EntryLines(es[|es| - 1], |es| - 1)
  }

  function OpenLine(g: string): Line { Line(2, "GROUP", g) }

  function CloseLine(g: string): Line { Line(2, "END_GROUP", g) }

  function GroupLines(g: string, es: seq<Entry>): seq<Line> {
    [OpenLine(g)] + EntriesLines(es) + [CloseLine(g)]
  }

  function GroupsLines(names: seq<string>, gs: seq<seq<Entry>>): seq<Line>
    requires |names| == |gs|
  {
    if names == [] then [] else GroupLines(names[0], gs[0]) + GroupsLines(names[1..], gs[1..])
  }

  /** The lines of a structure before its parameters. */
  function StructHead(k: Kind, s: Struct): seq<Line> {
    [Line(1, "GROUP", OpenName(k) + Dec(s.id)), NameLine(k, s)]
  }

  function NameLine(k: Kind, s: Struct): Line { Line(2, NameKey(k), Quoted(s.name)) }

  function StructLines(k: Kind, s: Struct): seq<Line>
    requires |s.groups| == |Schema(k)|
  {
    StructHead(k, s) + AttrLines(2, s.params) + GroupsLines(Schema(k), s.groups)
    + [Line(1, "END_GROUP", OpenName(k) + Dec(s.id))]
  }

  predicate Schematic(k: Kind, ss: seq<Struct>) { forall s <- ss :: |s.groups| == |Schema(k)| }

  function StructsLines(k: Kind, ss: seq<Struct>): seq<Line>
    requires Schematic(k, ss)
  {
    if ss == [] then [] else StructLines(k, ss[0]) + StructsLines(k, ss[1..])
  }

  function RootLine(k: Kind): Line { Line(0, "GROUP", RootName(k)) }

  function RootEnd(k: Kind): Line { Line(0, "END_GROUP", RootName(k)) }

  function SectionLines(k: Kind, ss: seq<Struct>): seq<Line>
    requires Schematic(k, ss)
  {
    [RootLine(k)] + StructsLines(k, ss) + [RootEnd(k)]
  }

  predicate WellShaped(f: MetaFile) {
    Schematic(Swath, f.swaths) && Schematic(Grid, f.grids) && Schematic(Point, f.points)
  }

  function FileLines(f: MetaFile): seq<Line>
    requires WellShaped(f)
  {
    SectionLines(Swath, f.swaths) + SectionLines(Grid, f.grids) + SectionLines(Point, f.points)
  }

  /** The whole metadata text. */
  function Print(f: MetaFile): string
    requires WellShaped(f)
  {
    Text(FileLines(f)) + "END\n"
  }

  // ---------------------------------------------------------- well-formedness

  /** Text that holds none of the words the searches depend on. */
  predicate Inert(v: string) {
    && ValOk(v)
    && !Contains(v, "GROUP=") && SignsEnd(v)
    && !Contains(v, "END_OBJECT") && !Contains(v, "END_GROUP")
  }

  /** An equals sign stands before a quote only where a quoted text ends: at the end,
      before a comma, or before the parenthesis that ends a list. */
  predicate SignsEnd(v: string) {
    forall i: nat | i <= |v| && OccursAt(v, "=\"", i) :: i + 2 == |v| || v[i + 2] == ',' || v[i + 2..] == ")"
  }

  predicate EndsWith(s: string, w: string) { |w| <= |s| && s[|s| - |w|..] == w }

  /** What a caller's buffer may leave of a name: no character the format gives a
      meaning, none of the reserved words. */
  predicate PartOk(s: string) {
    && (forall i | 0 <= i < |s| :: s[i] !in "\"\t\n\0,/:")
    && !Contains(s, "GROUP=") && !Contains(s, "END_OBJECT") && !Contains(s, "END_GROUP")
  }

  /** A name a caller may use: also not empty, no equals sign at the end. */
  predicate NameOk(s: string) { PartOk(s) && s != "" && s[|s| - 1] != '=' }

  predicate NamesOk(ss: seq<string>) { ss != [] && forall s <- ss :: NameOk(s) }

  /** What may be left of a list of names. */
  predicate PartsOk(ss: seq<string>) { ss != [] && ss[0] != "" && forall s <- ss :: PartOk(s) }

  /** The numbers are of 32 bits. */
  predicate Int32(n: int) { -0x8000_0000 <= n < 0x8000_0000 }

  predicate Letter(c: char) { 'a' <= c <= 'z' || 'A' <= c <= 'Z' }

  /** A key of an attribute line: letters, the last one lower case, and not one
      of the name keys a search looks for. */
  predicate AttrKey(k: string) {
    && k != "" && (forall i | 0 <= i < |k| :: Letter(k[i]))
    && 'a' <= k[|k| - 1] <= 'z'
    && !EndsWith(k, "SwathName") && !EndsWith(k, "GridName") && !EndsWith(k, "PointName") && !EndsWith(k, "LevelName")
  }

  predicate AttrOk(x: Attr) { AttrKey(x.key) && Inert(x.val) }

  predicate AttrsOk(xs: seq<Attr>) { forall x <- xs :: AttrOk(x) }

  predicate PFieldOk(p: PField) { NameOk(p.name) && KnownType(p.ntype) && Int32(p.order) }

  predicate EntryOk(e: Entry) {
    match e
    case Dimension(n, z) => NameOk(n) && Int32(z)
    case DimensionMap(g, d, o, i) => NameOk(g) && PartOk(d) && Int32(o) && Int32(i)
    case IndexMap(g, d) => NameOk(g) && PartOk(d)
    case GeoField(n, t, ds, x) => NameOk(n) && KnownType(t) && PartsOk(ds) && AttrsOk(x)
    case DataField(n, t, ds, x) => NameOk(n) && KnownType(t) && PartsOk(ds) && AttrsOk(x)
    case Merged(n, ms) => NameOk(n) && NamesOk(ms)
    case Level(n, fs) => NameOk(n) && forall p <- fs :: PFieldOk(p)
    case LevelLink(p, c, l) => NameOk(p) && NameOk(c) && NameOk(l)
  }

  predicate GroupOk(g: string, es: seq<Entry>) { forall e <- es :: EntryOk(e) && GroupOf(e) == g }

  predicate StructOk(k: Kind, s: Struct) {
    && NameOk(s.name) && AttrsOk(s.params) && |s.groups| == |Schema(k)|
    && forall i | 0 <= i < |s.groups| :: GroupOk(Schema(k)[i], s.groups[i])
  }

  predicate StructsOk(k: Kind, ss: seq<Struct>) { forall s <- ss :: StructOk(k, s) }

  predicate FileOk(f: MetaFile) {
    StructsOk(Swath, f.swaths) && StructsOk(Grid, f.grids) && StructsOk(Point, f.points)
  }

  // ------------------------------------------------------ the tree's own edits

  /** The first structure whose name starts with the requested one: what the
      search without a closing quote finds. */
  function FirstStruct(ss: seq<Struct>, name: string): (r: Ptr)
    ensures r.At? ==> r.pos < |ss| && name <= ss[r.pos].name
    ensures r.At? ==> forall j | 0 <= j < r.pos :: !(name <= ss[j].name)
    ensures r.Null? ==> forall s <- ss :: !(name <= s.name)
  {
    if ss == [] then Null
    else if name <= ss[0].name then At(0)
    else match FirstStruct(ss[1..], name) case Null => Null case At(i) => At(i + 1)
  }

  function GroupIndex(names: seq<string>, g: string): (r: Ptr)
    ensures r.At? ==> r.pos < |names| && names[r.pos] == g
    ensures r.Null? ==> g !in names
  {
    if names == [] then Null
    else if names[0] == g then At(0)
    else match GroupIndex(names[1..], g) case Null => Null case At(i) => At(i + 1)
  }

  function AppendEntry(s: Struct, gi: nat, e: Entry): Struct
    requires gi < |s.groups|
  {
    s.(groups := s.groups[gi := s.groups[gi] + [e]])
  }
}
