/** The position routine as the code runs it. */
module MetaText {
  import opened CText
  import opened OdlCount
  import opened MetaEdit

  method PositionObject(metabuf: string, from: nat, group: string) returns (metaptr: Ptr, count: int)
    requires from <= |metabuf| && ObjectPlace(metabuf, from, group).Some?
    ensures metaptr.At? && ObjectPlace(metabuf, from, group) == Some(Place(metaptr.pos, count))
  {
    var begptr := StrStr(metabuf, "\t\tGROUP=" + group, from);
    metaptr := StrStr(metabuf, "\t\tEND_GROUP=" + group, from);
    count := CountTerminators(metabuf, begptr, metaptr, "END_OBJECT");
    count := count + 1;
  }

  method PositionLevel(metabuf: string, from: nat) returns (metaptr: Ptr, count: int)
    requires from <= |metabuf| && LevelPlace(metabuf, from).Some?
    ensures metaptr.At? && LevelPlace(metabuf, from) == Some(Place(metaptr.pos, count))
  {
    var begptr := StrStr(metabuf, "\t\tGROUP=Level", from);
    metaptr := StrStr(metabuf, "\n\t\tEND_GROUP=Level", from);
    metaptr := At(metaptr.pos + 1);
    count := CountTerminators(metabuf, begptr, metaptr, "END_GROUP");
  }

  method PositionField(metabuf: string, from: nat, level: string) returns (metaptr: Ptr, count: int)
    requires from <= |metabuf| && PointFieldPlace(metabuf, from, level).Some?
    ensures metaptr.At? && PointFieldPlace(metabuf, from, level) == Some(Place(metaptr.pos, count))
  {
    var begptr := StrStr(metabuf, "\t\t\t\tLevelName=\"" + level, from);
    metaptr := StrStr(metabuf, "\t\t\tEND_GROUP=Level_", begptr.pos);
    count := CountTerminators(metabuf, begptr, metaptr, "END_OBJECT");
    count := count + 1;
  }

  lemma SwitchFieldCase(t: string, p: nat, c: Call)
    requires p <= |t| && c.metacode == 11 && PlaceAt(t, p, c).Some?
    ensures StrChr(c.metastr, ':', 0).At?
    ensures PlaceAt(t, p, c) == PointFieldPlace(t, p, c.metastr[StrChr(c.metastr, ':', 0).pos + 1..])
  {
  }

  /** The metadata switch of EHinsertmeta: move the pointers by substring search,
      count the terminators between them, note where the segment goes. */
  method PositionAt(metabuf: string, from: nat, c: Call) returns (metaptr: Ptr, count: int)
    requires from <= |metabuf| && PlaceAt(metabuf, from, c).Some?
    ensures metaptr.At? && PlaceAt(metabuf, from, c) == Some(Place(metaptr.pos, count))
  {
    if ObjectCode(c.metacode) {
      metaptr, count := PositionObject(metabuf, from, CodeGroup(c.metacode));
    } else if c.metacode == 10 {
      SwitchLevel(metabuf, from, c);
      metaptr, count := PositionLevel(metabuf, from);
    } else if c.metacode == 11 {
      SwitchFieldCase(metabuf, from, c);
      var colon := StrChr(c.metastr, ':', 0);
      metaptr, count := PositionField(metabuf, from, c.metastr[colon.pos + 1..]);
    } else {
      metaptr, count := PositionKey(metabuf, from, c);
    }
  }

  method Position(metabuf: string, c: Call) returns (offset: nat, count: int)
    requires PlaceOf(metabuf, c).Some?
    ensures PlaceOf(metabuf, c) == Some(Place(offset, count))
  {
    var metaptr := FindRoot(metabuf, c.kind);
    if c.metacode < 1000 {
      metaptr := FindNamed(metabuf, c.kind, c.structname, metaptr.pos);
    }
    StartIs(metabuf, c, metaptr);
    metaptr, count := PositionAt(metabuf, metaptr.pos, c);
    offset := metaptr.pos;
  }

  lemma StartIs(t: string, c: Call, p: Ptr)
    requires PlaceOf(t, c).Some? && FindRoot(t, c.kind).At?
    requires p == if c.metacode < 1000 then FindNamed(t, c.kind, c.structname, FindRoot(t, c.kind).pos) else FindRoot(t, c.kind)
    ensures p.At? && p.pos <= |t| && PlaceAt(t, p.pos, c) == PlaceOf(t, c)
  {
  }

  /** Grid parameters and new structures carry no number. */
  method PositionKey(metabuf: string, from: nat, c: Call) returns (metaptr: Ptr, count: int)
    requires from <= |metabuf| && !ObjectCode(c.metacode) && c.metacode != 10 && c.metacode != 11
    requires PlaceAt(metabuf, from, c).Some?
    ensures metaptr.At? && PlaceAt(metabuf, from, c) == Some(Place(metaptr.pos, count))
  {
    count := 0;
    if c.metacode == 101 {
      metaptr := StrStr(metabuf, "\t\tGROUP=Dimension", from);
    } else if c.metacode == 1001 {
      metaptr := StrStr(metabuf, "END_GROUP=SwathStructure", from);
    } else if c.metacode == 1002 {
      metaptr := StrStr(metabuf, "END_GROUP=GridStructure", from);
    } else {
      metaptr := StrStr(metabuf, "END_GROUP=PointStructure", from);
    }
  }
}
