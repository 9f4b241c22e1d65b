/** EHmetagroup and EHgetmetavalue: the brackets of a group, and the value of a
    key between two pointers. */
module MetaLookup {
  import opened CText
  import opened OdlLines
  import opened MetaTree
  import opened MetaLines
  import opened MetaSearch
  import opened MetaEdit
  import opened MetaRequest
  import opened MetaLocate
  import opened MetaRefine
  import opened MetaPointField
  import opened MetaTheorem

  // ---------------------------------------------------------------- EHmetagroup

  const UTLSTR_MAX_SIZE: nat := 512

  /** snprintf into the shorter utility string of EHmetagroup. */
  function Fmt512(s: string): string { Cut(s, UTLSTR_MAX_SIZE) }

  function GroupStart(t: string, k: Kind, name: string): (p: Ptr)
    ensures p.At? ==> p.pos <= |t|
  {
    match FindRoot(t, k)
    case Null => Null
    case At(root) =>
      match StrStr(t, Fmt512(NameKey(k) + "=\"" + name), root)
      case At(p) => At(p)
      case Null => StrStr(t, Fmt512("GROUP=\"" + name), root)
  }

  /** metaptrs[0] and metaptrs[1]; None where the C code would search from the
      null pointer. */
  function MetaGroup(t: string, k: Kind, name: string, group: Option<string>): Option<(Ptr, Ptr)> {
    match GroupStart(t, k, name)
    case Null => None
    case At(p) =>
      match group
      case None => Some((At(p), StrStr(t, "\n\tEND_GROUP=", p)))
      case Some(g) =>
        match StrStr(t, Fmt512("GROUP=" + g), p)
        case Null => None
        case At(beg) => Some((At(beg), StrStr(t, Fmt512("\t\tEND_GROUP=" + g), beg)))
  }

  lemma GroupStartIs(f: MetaFile, k: Kind, i: nat, nm: string)
    requires Site(f, k, i) && SearchName(nm) && FirstStruct(f.Of(k), nm) == At(i)
    ensures GroupStart(Print(f), k, nm) == At(NamePos(f, k, i))
  {
    NameSearchable(nm);
    LocateRoot(f, k);
    LocateNamed(f, k, i, nm);
    SameStart(Print(f), k, nm, RootPos(f, k));
  }

  /** Names of the documented length fit both utility strings. */
  lemma SameStart(t: string, k: Kind, nm: string, root: nat)
    requires |nm| <= MAX_NAME && FindRoot(t, k) == At(root) && root <= |t|
    ensures GroupStart(t, k, nm) == FindNamed(t, k, nm, root)
  {
  }

  lemma ShortGroupKey(k: Kind, b: string)
    requires b in Schema(k)
    ensures Fmt512("GROUP=" + b) == "GROUP=" + b && Fmt512("\t\tEND_GROUP=" + b) == "\t\tEND_GROUP=" + b
  {
    assert |b| <= 20;
  }

  lemma PlainFind(t: string, pre: string, skip: seq<Line>, k: Kind, b: string, post: string, from: nat, pos: nat)
    requires t == pre + Text(skip) + LineText(OpenLine(b)) + post && b in Schema(k)
    requires AllShaped(skip) && AllQuiet(skip, "GROUP", b) && pos == |pre| + |Text(skip)| && |pre| <= from <= pos
    ensures from <= |t| && StrStr(t, "GROUP=" + b, from) == At(pos + 2)
  {
    GroupLineIs(k, b);
    FindIn(t, "GROUP=" + b, pre, skip, OpenLine(b), post, "GROUP", b, from, pos + 2);
  }

  /** The untabbed search for a group's opening line lands on its key. */
  lemma LocateOpenPlain(f: MetaFile, k: Kind, i: nat, g: nat)
    requires Site(f, k, i) && g < |Schema(k)|
    ensures NamePos(f, k, i) <= |Print(f)|
    ensures StrStr(Print(f), "GROUP=" + Schema(k)[g], NamePos(f, k, i)) == At(OpenPos(f, k, i, g) + 2)
  {
    var s, b := f.Of(k)[i], Schema(k)[g];
    var post := OpenFrame(f, k, i, g);
    FrameOk(f, k, i, g);
    LeadQuietHere(k, s, g, "GROUP");
    NameLineLong(f, k, i, g);
    PlainFind(Print(f), Text(LinesA(f, k, i)), LinesB(k, s, g), k, b, post, NamePos(f, k, i), OpenPos(f, k, i, g));
  }

  lemma PlainClose(t: string, pre: string, body: seq<Line>, k: Kind, b: string, post: string, from: nat, pos: nat)
    requires t == pre + Text(body) + LineText(CloseLine(b)) + post && b in Schema(k)
    requires AllShaped(body) && AllQuiet(body, "\t\tEND_GROUP", b) && pos == |pre| + |Text(body)| && |pre| <= from <= pos
    ensures from <= |t| && StrStr(t, "\t\tEND_GROUP=" + b, from) == At(pos)
  {
    GroupLineIs(k, b);
    FindIn(t, "\t\tEND_GROUP=" + b, pre, body, CloseLine(b), post, "\t\tEND_GROUP", b, from, pos);
  }

  lemma CloseText(f: MetaFile, k: Kind, i: nat, g: nat, pre: string)
    requires Site(f, k, i) && g < |Schema(k)| && pre == Text(LinesA(f, k, i)) + Text(LinesB(k, f.Of(k)[i], g))
    ensures Print(f) == pre + Text(Body(f, k, i, g)) + LineText(CloseLine(Schema(k)[g])) + Rest(f, k, i, g + 1)
    ensures AllShaped(Body(f, k, i, g))
  {
    GroupText(f, k, i, g);
    BodyFrame(f, k, i, g);
    Assoc(pre + Text(Body(f, k, i, g)), LineText(CloseLine(Schema(k)[g])), Rest(f, k, i, g + 1));
  }

  /** From a group's opening line, the search for its end. */
  lemma LocateClosePlain(f: MetaFile, k: Kind, i: nat, g: nat)
    requires Site(f, k, i) && g < |Schema(k)| && (Schema(k)[g] != "Level" || f.Of(k)[i].groups[g] == [])
    ensures OpenPos(f, k, i, g) + 2 <= |Print(f)|
    ensures StrStr(Print(f), "\t\tEND_GROUP=" + Schema(k)[g], OpenPos(f, k, i, g) + 2) == At(ClosePos(f, k, i, g))
  {
    var s, b := f.Of(k)[i], Schema(k)[g];
    var pre := Text(LinesA(f, k, i)) + Text(LinesB(k, s, g));
    CloseText(f, k, i, g, pre);
    EmptyOrTame(f, k, i, g);
    Positions(f, k, i, g);
    BodyLong(f, k, i, g);
    PlainClose(Print(f), pre, Body(f, k, i, g), k, b, Rest(f, k, i, g + 1), OpenPos(f, k, i, g) + 2, ClosePos(f, k, i, g));
  }

  lemma BodyLong(f: MetaFile, k: Kind, i: nat, g: nat)
    requires Site(f, k, i) && g < |Schema(k)|
    ensures |Text(Body(f, k, i, g))| >= 7
  {
    TextCat([OpenLine(Schema(k)[g])], EntriesLines(f.Of(k)[i].groups[g]));
    Text1(OpenLine(Schema(k)[g]));
  }

  lemma EmptyOrTame(f: MetaFile, k: Kind, i: nat, g: nat)
    requires Site(f, k, i) && g < |Schema(k)| && (Schema(k)[g] != "Level" || f.Of(k)[i].groups[g] == [])
    ensures AllQuiet(Body(f, k, i, g), "\t\tEND_GROUP", Schema(k)[g])
  {
    var b := Schema(k)[g];
    if b != "Level" {
      BodyQuiet(f, k, i, g, "\t\tEND_GROUP");
    } else {
      assert Body(f, k, i, g) == [OpenLine(b)];
      InertName(b);
      GroupLineOk(OpenLine(b));
      GroupAligned(OpenLine(b), "\t\tEND_GROUP", b);
      InertQuiet(b, "\t\tEND_GROUP", b);
    }
  }

  /** A level's own END_GROUP line stops the search for the end of the Level
      group: it differs by a tab in front and a label behind. */
  lemma LevelStopsSearch(f: MetaFile, i: nat)
    requires LevelSite(f, i, 0)
    ensures OpenPos(f, Point, i, 0) + 2 <= |Print(f)|
    ensures StrStr(Print(f), "\t\tEND_GROUP=Level", OpenPos(f, Point, i, 0) + 2) != At(ClosePos(f, Point, i, 0))
  {
    StoppedBefore(f, i, OpenPos(f, Point, i, 0) + 2, ClosePos(f, Point, i, 0));
  }

  lemma StoppedBefore(f: MetaFile, i: nat, from: nat, close: nat)
    requires LevelSite(f, i, 0) && from == OpenPos(f, Point, i, 0) + 2 && close == ClosePos(f, Point, i, 0)
    ensures from <= |Print(f)| && StrStr(Print(f), "\t\tEND_GROUP=Level", from) != At(close)
  {
    var pre, at := LevelPieces(f, i);
    LevelBeforeClose(f, i);
    StopHere(Print(f), pre, AfterLevel(f, i, 0), from, at, close);
  }

  lemma LevelPieces(f: MetaFile, i: nat) returns (pre: string, at: nat)
    requires LevelSite(f, i, 0)
    ensures Print(f) == pre + LineText(LevelEnd(0)) + AfterLevel(f, i, 0) && |pre| == at == FieldPos(f, i, 0)
  {
    LevelText(f, i, 0);
    FieldPosIs(f, i, 0);
    pre, at := Text(LinesA(f, Point, i)) + Text(LinesP(f, i, 0)) + Text(LinesQ(f, i, 0)), FieldPos(f, i, 0);
  }

  lemma FieldPosIs(f: MetaFile, i: nat, j: nat)
    requires LevelSite(f, i, j)
    ensures FieldPos(f, i, j) == |Text(LinesA(f, Point, i))| + |Text(LinesP(f, i, j))| + |Text(LinesQ(f, i, j))|
  {
  }

  lemma StopHere(t: string, pre: string, post: string, from: nat, at: nat, close: nat)
    requires t == pre + LineText(LevelEnd(0)) + post && |pre| == at && from <= at + 1 < close <= |t|
    ensures StrStr(t, "\t\tEND_GROUP=Level", from) != At(close)
  {
    LevelEndShort();
    AlignedOccurs(pre, LevelEnd(0), post, "\t\tEND_GROUP", "Level");
    ShortLevelKey();
    HitBefore(t, "\t\tEND_GROUP=Level", from, at + 1, close);
  }

  lemma LevelEndShort()
    ensures Aligned(LevelEnd(0), "\t\tEND_GROUP", "Level") && |Head(LevelEnd(0))| == 12
  {
    LevelEndAligned(0);
    LevelTag(0);
    GroupAligned(LevelEnd(0), "\t\tEND_GROUP", "Level");
  }

  lemma HitBefore(t: string, key: string, from: nat, p: nat, close: nat)
    requires from <= p < close <= |t| && OccursAt(t, key, p)
    ensures StrStr(t, key, from) != At(close)
  {
  }

  lemma ShortLevelKey()
    ensures "\t\tEND_GROUP" + "=" + "Level" == "\t\tEND_GROUP=Level" && "\t\tEND_GROUP=" + "Level" == "\t\tEND_GROUP=Level"
    ensures "Level" <= "Level_"
  {
  }

  lemma LevelBeforeClose(f: MetaFile, i: nat)
    requires LevelSite(f, i, 0)
    ensures OpenPos(f, Point, i, 0) + 2 <= FieldPos(f, i, 0) + 1 < ClosePos(f, Point, i, 0) <= |Print(f)|
  {
    LevelName();
    BodyLines(f, i, 0);
    GroupText(f, Point, i, 0);
    LinesPNone(f, i);
    Lengths(LinesB(Point, f.Of(Point)[i], 0), Body(f, Point, i, 0), OpenLine("Level"), [LevelOpen(Levels(f, i)[0], 0)[0]],
            LinesQ(f, i, 0), LevelEnd(0), EntriesFrom(Levels(f, i), 1));
  }

  lemma LinesPNone(f: MetaFile, i: nat)
    requires LevelSite(f, i, 0)
    ensures LinesP(f, i, 0) == LinesB(Point, f.Of(Point)[i], 0) + [OpenLine("Level")] + [LevelOpen(Levels(f, i)[0], 0)[0]]
  {
    assert EntriesLines(Levels(f, i)[..0]) == [];
  }

  lemma Lengths(b: seq<Line>, body: seq<Line>, o: Line, g: seq<Line>, q: seq<Line>, e: Line, z: seq<Line>)
    requires b + body == b + [o] + g + q + [e] + z && g != []
    ensures |Text(b)| + |LineText(o)| <= |Text(b + [o] + g)|
    ensures |Text(b + [o] + g)| + |Text(q)| + |LineText(e)| <= |Text(b)| + |Text(body)|
  {
    TextCat(b, body);
    TextCat(b + [o] + g + q + [e], z);
    TextCat(b + [o] + g + q, [e]);
    TextCat(b + [o] + g, q);
    TextCat(b + [o], g);
    TextCat(b, [o]);
    Text1(o);
    Text1(e);
  }

  /** EHmetagroup returns the brackets of the named group - from its GROUP key to
      its END_GROUP line - unless the group is Level and holds a level. */
  lemma MetaGroupBrackets(f: MetaFile, k: Kind, i: nat, nm: string, g: nat)
    requires Site(f, k, i) && SearchName(nm) && FirstStruct(f.Of(k), nm) == At(i) && g < |Schema(k)|
    ensures MetaGroup(Print(f), k, nm, Some(Schema(k)[g])) == Some((At(OpenPos(f, k, i, g) + 2), At(ClosePos(f, k, i, g))))
            <==> Schema(k)[g] != "Level" || f.Of(k)[i].groups[g] == []
  {
    GroupStartIs(f, k, i, nm);
    LocateOpenPlain(f, k, i, g);
    ShortGroupKey(k, Schema(k)[g]);
    MetaGroupIs(Print(f), k, nm, Schema(k)[g], NamePos(f, k, i), OpenPos(f, k, i, g) + 2);
    if Schema(k)[g] != "Level" || f.Of(k)[i].groups[g] == [] {
      LocateClosePlain(f, k, i, g);
    } else {
      LevelCutShort(f, k, i, g);
    }
  }

  /** The search for the end of a Level group with levels stops before it. */
  lemma LevelCutShort(f: MetaFile, k: Kind, i: nat, g: nat)
    requires Site(f, k, i) && g < |Schema(k)| && Schema(k)[g] == "Level" && f.Of(k)[i].groups[g] != []
    ensures OpenPos(f, k, i, g) + 2 <= |Print(f)|
    ensures StrStr(Print(f), "\t\tEND_GROUP=" + Schema(k)[g], OpenPos(f, k, i, g) + 2) != At(ClosePos(f, k, i, g))
  {
    LevelFirst(k, g);
    LevelSiteOk(f, i, 0);
    LevelStopsSearch(f, i);
    ShortLevelKey();
  }

  lemma MetaGroupIs(t: string, k: Kind, nm: string, b: string, p: nat, beg: nat)
    requires GroupStart(t, k, nm) == At(p) && StrStr(t, "GROUP=" + b, p) == At(beg)
    requires Fmt512("GROUP=" + b) == "GROUP=" + b && Fmt512("\t\tEND_GROUP=" + b) == "\t\tEND_GROUP=" + b
    ensures MetaGroup(t, k, nm, Some(b)) == Some((At(beg), StrStr(t, "\t\tEND_GROUP=" + b, beg)))
  {
  }

  // -------------------------------------------------------------- EHgetmetavalue

  datatype Lookup = Found(pos: nat, value: string) | Missing

  /** The first occurrence of "parameter=" at or after the begin pointer counts
      only if it starts before the end pointer; the value runs to the newline. */
  function ValueBetween(t: string, beg: nat, end: Ptr, parameter: string): (r: Lookup)
    requires beg <= |t|
    ensures r.Found? ==> beg <= r.pos <= |t|
  {
    match StrStr(t, parameter + "=", beg)
    case Null => Missing
    case At(p) =>
      if !(end.At? && p < end.pos) then Missing
      else match StrChr(t, '\n', p)
        case Null => Missing
        case At(nl) =>
          var from := p + |parameter| + 1;
          if from <= nl then Found(p, t[from..nl]) else Missing
  }

  /** The value as it is copied into a buffer of so many characters; None where it
      overruns it. */
  function ValueInto(t: string, beg: nat, end: Ptr, parameter: string, size: nat): (r: Option<Lookup>)
    requires beg <= |t|
    ensures r.Some? && r.value.Found? ==> beg <= r.value.pos <= |t| && |r.value.value| < size
  {
    var r := ValueBetween(t, beg, end, parameter);
    if r.Found? && |r.value| >= size then None else Some(r)
  }

  /** The routine itself: it moves the begin pointer to the key it found. A text
      without a newline after the key is undefined in C and excluded. */
  method GetMetaValue(metabuf: string, metaptrs: array<Ptr>, parameter: string) returns (status: int, retstr: string)
    requires metaptrs.Length == 2 && metaptrs[0].At? && metaptrs[0].pos <= |metabuf|
    requires '\n' !in parameter
    requires forall p: nat :: OccursAt(metabuf, parameter + "=", p) ==> StrChr(metabuf, '\n', p).At?
    modifies metaptrs
    ensures metaptrs[1] == old(metaptrs[1])
    ensures match ValueBetween(metabuf, old(metaptrs[0]).pos, old(metaptrs[1]), parameter)
            case Found(p, v) => status == 0 && retstr == v && metaptrs[0] == At(p)
            case Missing => status == -1 && retstr == "" && metaptrs[0] == old(metaptrs[0])
  {
    status := 0;
    var slen := |parameter| + 1;
    retstr := parameter + "=";
    var sptr := StrStr(metabuf, retstr, metaptrs[0].pos);
    if sptr.At? && metaptrs[1].At? && sptr.pos < metaptrs[1].pos {
      metaptrs[0] := sptr;
      var newline := StrChr(metabuf, '\n', sptr.pos);
      NewlineAfterKey(metabuf, parameter, sptr.pos, newline.pos);
      retstr := metabuf[sptr.pos + slen..newline.pos];
    } else {
      retstr := "";
      status := -1;
    }
  }

  lemma NewlineAfterKey(t: string, parameter: string, p: nat, nl: nat)
    requires '\n' !in parameter && OccursAt(t, parameter + "=", p) && p <= nl < |t| && t[nl] == '\n'
    ensures p + |parameter| + 1 <= nl
  {
    OccursIdx(t, parameter + "=", p, nl);
  }

  /** A key that occurs nowhere before the section's end leaves everything as it
      was; the converse holds on any text whose lines end. */
  lemma MissingIff(t: string, beg: nat, end: nat, parameter: string)
    requires beg <= |t| && '\n' !in parameter
    requires forall p: nat :: OccursAt(t, parameter + "=", p) ==> StrChr(t, '\n', p).At?
    ensures ValueBetween(t, beg, At(end), parameter).Missing?
            <==> forall p: nat :: beg <= p < end ==> !OccursAt(t, parameter + "=", p)
  {
    var r := StrStr(t, parameter + "=", beg);
    if r.At? && r.pos < end {
      var nl := StrChr(t, '\n', r.pos);
      NewlineAfterKey(t, parameter, r.pos, nl.pos);
    }
  }
}
