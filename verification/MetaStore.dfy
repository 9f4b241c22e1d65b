/** The metadata text as it is kept: in attributes StructMetadata.0, .1, ... of
    32000 bytes each, read into one buffer, edited in place, written back. */
module MetaStore {
  import opened CText
  import opened CBuffer
  import opened MetaTree
  import opened MetaEdit
  import opened MetaLookup
  import opened MetaTheorem
  import opened MetaText
  import opened MetaCString

  const SECTION: nat := 32000

  /** A text in a zeroed buffer of n sections. */
  function Padded(t: string, n: nat): seq<char>
    requires |t| <= SECTION * n
  {
    t + seq(SECTION * n - |t|, _ => '\0')
  }

  /** The attributes hold exactly this text, with room for its terminator. */
  ghost predicate Stored(attrs: map<nat, seq<char>>, n: nat, t: string) {
    && n >= 1 && |t| <= SECTION * n - 1 && '\0' !in t
    && (forall i: nat :: i in attrs <==> i < n)
    && forall i: nat :: i < n ==> attrs[i] == Padded(t, n)[SECTION * i..SECTION * (i + 1)]
  }

  /** What is stored determines the text. */
  lemma StoredOnce(attrs: map<nat, seq<char>>, n: nat, t: string, m: nat, u: string)
    requires Stored(attrs, n, t) && Stored(attrs, m, u)
    ensures n == m && t == u
  {
    assert n == m by {
      assert n in attrs <==> n < m;
      assert m in attrs <==> m < n;
    }
    var p, q := Padded(t, n), Padded(u, n);
    forall i | 0 <= i < SECTION * n ensures p[i] == q[i] {
      var s := i / SECTION;
      assert attrs[s] == p[SECTION * s..SECTION * (s + 1)] == q[SECTION * s..SECTION * (s + 1)];
      assert p[SECTION * s..SECTION * (s + 1)][i - SECTION * s] == p[i];
      assert q[SECTION * s..SECTION * (s + 1)][i - SECTION * s] == q[i];
    }
    CLenIs(p, |t|);
    CLenIs(q, |u|);
    assert p == q;
    assert t == p[..|t|] && u == q[..|u|];
  }

  /** What is stored, byte by byte: section i holds 32000 bytes, the text goes through the
      sections in order, and NULs are behind it. */
  lemma StoredBytes(attrs: map<nat, seq<char>>, n: nat, t: string, i: nat, j: nat)
    requires Stored(attrs, n, t) && i < n && j < 32000
    ensures i in attrs && |attrs[i]| == 32000 && attrs[i][j] == if 32000 * i + j < |t| then t[32000 * i + j] else '\0'
    ensures forall k: nat :: k in attrs <==> k < n
  {
    assert i in attrs && attrs[i] == Padded(t, n)[SECTION * i..SECTION * (i + 1)];
  }

  /** The fewest sections that hold the text and its terminator. */
  predicate Fewest(n: nat, t: string) { n == |t| / 32000 + 1 }

  lemma FewestKept(n: nat, t: string, u: string)
    requires Fewest(n, t) && |t| <= |u| < |t| + 32000
    ensures Fewest(if |u| > 32000 * n - 1 then n + 1 else n, u)
  {
  }

  class SdFile {
    /** The global attributes StructMetadata.i. */
    var attrs: map<nat, seq<char>>
    /** The text they hold and the number of sections. */
    ghost var text: string
    ghost var nsec: nat

    ghost predicate Valid()
      reads this
    {
      Stored(attrs, nsec, text)
    }

    /** EHopen on a new file: one section with the empty root groups. */
    constructor ()
      ensures Valid() && text == INITIAL_TEXT && nsec == 1 && Fewest(nsec, text)
    {
      InitialFits();
      ghost var t := INITIAL_TEXT;
      attrs := map[0 := Padded(INITIAL_TEXT, 1)];
      text, nsec := t, 1;
      new;
      assert Padded(t, 1)[SECTION * 0..SECTION * 1] == Padded(t, 1);
    }

    /** SDfindattr until it fails. */
    method CountSections() returns (nmeta: nat)
      requires Valid()
      ensures nmeta == nsec
    {
      nmeta := 0;
      while nmeta in attrs
        invariant nmeta <= nsec
        decreases nsec - nmeta
      {
        nmeta := nmeta + 1;
      }
    }

    /** Read every section to the end of what is already in the zeroed buffer. A
        section lands inside the buffer even when the text ends before it. */
    method ReadMeta() returns (metabuf: array<char>, nmeta: nat, metalen: nat)
      requires Valid()
      ensures fresh(metabuf) && metabuf.Length == SECTION * nmeta && nmeta == nsec
      ensures metalen == |text| && metabuf[..] == Padded(text, nmeta)
    {
      nmeta := CountSections();
      metabuf := new char[SECTION * nmeta](_ => '\0');
      ghost var whole := Padded(text, nmeta);
      var i := 0;
      while i < nmeta
        invariant 0 <= i <= nmeta
        invariant metabuf[..] == whole[..SECTION * i] + seq(SECTION * (nmeta - i), _ => '\0')
      {
        metalen := CLen(metabuf[..]);
        ReadPosition(text, nmeta, i, metabuf[..]);
        CopyInto(metabuf, metalen, attrs[i]);
        ReadStep(text, nmeta, i, metabuf[..], old(attrs)[i]);
        i := i + 1;
      }
      WholeRead(text, nmeta, metabuf[..]);
      metalen := CLen(metabuf[..]);
    }

    /** EHinsertmeta. The call must be one the C code carries out with defined
        behaviour; its string is a C string. */
    method InsertMeta(c: Call) returns (status: int)
      requires Valid() && EditOf(text, c).Some? && CString(c.metastr)
      modifies this
      ensures Valid() && status == 0
      ensures Some(text) == InsertText(old(text), c)
      ensures nsec == old(nsec) + (if |text| > 32000 * old(nsec) - 1 then 1 else 0)
      ensures Fewest(old(nsec), old(text)) ==> Fewest(nsec, text)
    {
      status := 0;
      var metabuf, nmeta, metalen := ReadMeta();
      assert metabuf[..metalen] == text;
      var offset, count := Position(metabuf[..metalen], c);
      var utlstr := SegOf(c, count).value;
      EditIs(text, c, offset, count, utlstr);
      SegString(c, count);
      metabuf, nmeta := EditBuffer(metabuf, nmeta, metalen, offset, utlstr);
      SpliceNoNul(text, Edit(offset, utlstr));
      if Fewest(nsec, text) {
        FewestKept(nsec, text, Splice(text, Edit(offset, utlstr)));
      }
      WriteBack(metabuf, nmeta, Splice(text, Edit(offset, utlstr)));
    }

    /** SDsetattr for every section. */
    method WriteBack(metabuf: array<char>, nmeta: nat, ghost t: string)
      requires Valid() && nsec <= nmeta && |t| <= SECTION * nmeta - 1 && '\0' !in t
      requires metabuf.Length == SECTION * nmeta && metabuf[..] == Padded(t, nmeta)
      modifies this
      ensures Valid() && text == t && nsec == nmeta
    {
      var i := 0;
      while i < nmeta
        invariant 0 <= i <= nmeta
        invariant forall j: nat :: j in attrs <==> j < i || j < old(nsec)
        invariant forall j: nat :: j < i ==> attrs[j] == Padded(t, nmeta)[SECTION * j..SECTION * (j + 1)]
      {
        SliceIs(metabuf, i, Padded(t, nmeta));
        attrs := attrs[i := metabuf[SECTION * i..SECTION * (i + 1)]];
        i := i + 1;
      }
      text, nsec := t, nmeta;
    }

    /** EHmetagroup on the stored text. */
    method EHmetagroup(kind: Kind, structname: string, group: Option<string>) returns (metabuf: string, metaptrs: (Ptr, Ptr))
      requires Valid() && MetaGroup(text, kind, structname, group).Some?
      ensures metabuf == text && Some(metaptrs) == MetaGroup(text, kind, structname, group)
    {
      var buf, _, metalen := ReadMeta();
      metabuf := buf[..metalen];
      assert metabuf == text;
      var metaptr := StrStr(metabuf, "GROUP=" + RootName(kind), 0);
      var named := StrStr(metabuf, Fmt512(NameKey(kind) + "=\"" + structname), metaptr.pos);
      if named.Null? {
        named := StrStr(metabuf, Fmt512("GROUP=\"" + structname), metaptr.pos);
      }
      if group.Some? {
        var beg := StrStr(metabuf, Fmt512("GROUP=" + group.value), named.pos);
        var end := StrStr(metabuf, Fmt512("\t\tEND_GROUP=" + group.value), beg.pos);
        metaptrs := (beg, end);
      } else {
        var end := StrStr(metabuf, "\n\tEND_GROUP=", named.pos);
        metaptrs := (named, end);
      }
    }
  }

  // --------------------------------------------------------------- the buffer

  /** SDreadattr. */
  method CopyInto(buf: array<char>, at: nat, data: seq<char>)
    requires at + |data| <= buf.Length
    modifies buf
    ensures buf[..] == old(buf[..at]) + data + old(buf[at + |data|..])
  {
    forall i | 0 <= i < |data| {
      buf[at + i] := data[i];
    }
  }

  /** Where section i is read to: after the first i sections if the text fills
      them, else at the end of the text - and then the section is all zero. */
  lemma ReadPosition(t: string, n: nat, i: nat, buf: seq<char>)
    requires n >= 1 && |t| <= SECTION * n - 1 && '\0' !in t && i < n
    requires buf == Padded(t, n)[..SECTION * i] + seq(SECTION * (n - i), _ => '\0')
    ensures CLen(buf) == if |t| < SECTION * i then |t| else SECTION * i
    ensures CLen(buf) + SECTION <= |buf|
  {
    var p := Padded(t, n);
    var m := if |t| < SECTION * i then |t| else SECTION * i;
    assert forall j | 0 <= j < m :: buf[j] == p[j] == t[j];
    assert forall j | m <= j < |buf| :: buf[j] == '\0';
    CLenIs(buf, m);
  }

  lemma ReadStep(t: string, n: nat, i: nat, buf: seq<char>, data: seq<char>)
    requires n >= 1 && |t| <= SECTION * n - 1 && i < n && data == Padded(t, n)[SECTION * i..SECTION * (i + 1)]
    requires var before := Padded(t, n)[..SECTION * i] + seq(SECTION * (n - i), _ => '\0');
             var m := if |t| < SECTION * i then |t| else SECTION * i;
             buf == before[..m] + data + before[m + SECTION..]
    ensures buf == Padded(t, n)[..SECTION * (i + 1)] + seq(SECTION * (n - (i + 1)), _ => '\0')
  {
    var p := Padded(t, n);
    var after := p[..SECTION * (i + 1)] + seq(SECTION * (n - (i + 1)), _ => '\0');
    var m := if |t| < SECTION * i then |t| else SECTION * i;
    assert |buf| == SECTION * n == |after|;
    forall j | 0 <= j < SECTION * n ensures buf[j] == after[j] {
      if |t| < SECTION * i {
        if m <= j < m + SECTION {
          assert buf[j] == data[j - m] == p[SECTION * i + (j - m)] == '\0';
        }
      }
    }
  }

  lemma WholeRead(t: string, n: nat, buf: seq<char>)
    requires n >= 1 && |t| <= SECTION * n - 1 && '\0' !in t
    requires buf == Padded(t, n)[..SECTION * n] + seq(SECTION * (n - n), _ => '\0')
    ensures buf == Padded(t, n) && CLen(buf) == |t|
  {
    assert buf == Padded(t, n);
    CLenIs(buf, |t|);
  }

  /** realloc: the old bytes, then bytes of any value. */
  method Realloc(buf: array<char>, size: nat) returns (r: array<char>)
    requires size >= buf.Length
    ensures fresh(r) && r.Length == size && r[..buf.Length] == buf[..]
  {
    r := new char[size];
    forall i | 0 <= i < buf.Length {
      r[i] := buf[i];
    }
  }

  /** Grow the buffer by one section if the new text does not fit, then splice. */
  method EditBuffer(buf: array<char>, n: nat, metalen: nat, offset: nat, seg: string) returns (metabuf: array<char>, nmeta: nat)
    requires buf.Length == SECTION * n && metalen <= SECTION * n - 1 && offset <= metalen && |seg| < UTLSTRSIZE
    requires '\0' !in buf[..metalen] && buf[..] == Padded(buf[..metalen], n)
    modifies buf
    ensures nmeta == n + (if metalen + |seg| > 32000 * n - 1 then 1 else 0) && metabuf.Length == SECTION * nmeta && metalen + |seg| <= SECTION * nmeta - 1
    ensures metabuf[..] == Padded(Splice(old(buf[..metalen]), Edit(offset, seg)), nmeta)
  {
    ghost var t := buf[..metalen];
    metabuf, nmeta := buf, n;
    if metalen + |seg| > SECTION * n - 1 {
      metabuf := Realloc(buf, SECTION * (n + 1));
      nmeta := n + 1;
    }
    assert metabuf[..offset] == t[..offset] && metabuf[offset..metalen] == t[offset..];
    SpliceInPlace(metabuf, metalen, offset, seg);
  }

  /** Shift the tail up from its last byte: no byte is overwritten before it has been
      moved. */
  method ShiftTail(metabuf: array<char>, metalen: nat, offset: nat, seglen: nat)
    requires offset <= metalen && metalen + seglen < metabuf.Length
    modifies metabuf
    ensures metabuf[..offset] == old(metabuf[..offset])
    ensures metabuf[seglen + offset..seglen + metalen] == old(metabuf[offset..metalen])
  {
    var i := metalen - 1;
    while i > offset - 1
      invariant offset - 1 <= i <= metalen - 1
      invariant forall k | 0 <= k <= i :: metabuf[k] == old(metabuf[k])
      invariant forall k | 0 <= k < offset :: metabuf[k] == old(metabuf[k])
      invariant forall k | i < k < metalen :: metabuf[seglen + k] == old(metabuf[k])
    {
      metabuf[seglen + i] := metabuf[i];
      i := i - 1;
    }
    TailShifted(metabuf[..], old(metabuf[..]), metalen, offset, seglen);
  }

  lemma TailShifted(a: seq<char>, b: seq<char>, metalen: nat, offset: nat, seglen: nat)
    requires |a| == |b| && offset <= metalen && metalen + seglen < |a|
    requires forall k | 0 <= k < offset :: a[k] == b[k]
    requires forall k | offset <= k < metalen :: a[seglen + k] == b[k]
    ensures a[..offset] == b[..offset] && a[seglen + offset..seglen + metalen] == b[offset..metalen]
  {
    var x, y := a[seglen + offset..seglen + metalen], b[offset..metalen];
    forall k | 0 <= k < |y| ensures x[k] == y[k] {
      assert a[seglen + (offset + k)] == b[offset + k];
    }
  }

  /** Shift the tail, copy the segment into the gap, zero the rest. */
  method SpliceInPlace(metabuf: array<char>, metalen: nat, offset: nat, seg: string)
    requires offset <= metalen && metalen + |seg| < metabuf.Length
    modifies metabuf
    ensures metabuf[..] == old(metabuf[..offset]) + seg + old(metabuf[offset..metalen])
                           + seq(metabuf.Length - metalen - |seg|, _ => '\0')
  {
    var seglen := |seg|;
    ShiftTail(metabuf, metalen, offset, seglen);
    ghost var b := metabuf[..];
    forall k | 0 <= k < seglen {
      metabuf[offset + k] := seg[k];
    }
    forall k | metalen + seglen <= k < metabuf.Length {
      metabuf[k] := '\0';
    }
    metabuf[metalen + seglen] := '\0';
    SplicedBuffer(metabuf[..], b, metalen, offset, seg);
  }

  lemma SplicedBuffer(a: seq<char>, b: seq<char>, metalen: nat, offset: nat, seg: string)
    requires |a| == |b| && offset <= metalen && metalen + |seg| < |a|
    requires forall k | 0 <= k < offset || offset + |seg| <= k < metalen + |seg| :: a[k] == b[k]
    requires forall k | 0 <= k < |seg| :: a[offset + k] == seg[k]
    requires forall k | metalen + |seg| <= k < |a| :: a[k] == '\0'
    ensures a == b[..offset] + seg + b[|seg| + offset..|seg| + metalen] + seq(|a| - metalen - |seg|, _ => '\0')
  {
    var c := b[..offset] + seg + b[|seg| + offset..|seg| + metalen] + seq(|a| - metalen - |seg|, _ => '\0');
    forall k | 0 <= k < |a| ensures a[k] == c[k] {
      if offset <= k < offset + |seg| {
        assert a[offset + (k - offset)] == seg[k - offset];
      }
    }
  }

  lemma SliceIs(buf: array<char>, i: nat, p: seq<char>)
    requires buf[..] == p && SECTION * (i + 1) <= buf.Length
    ensures buf[SECTION * i..SECTION * (i + 1)] == p[SECTION * i..SECTION * (i + 1)]
  {
    assert buf[SECTION * i..SECTION * (i + 1)] == buf[..][SECTION * i..SECTION * (i + 1)];
  }

  lemma SpliceNoNul(t: string, e: Edit)
    requires e.offset <= |t| && '\0' !in t && '\0' !in e.seg
    ensures '\0' !in Splice(t, e)
  {
  }

  lemma EditIs(t: string, c: Call, offset: nat, count: int, seg: string)
    requires PlaceOf(t, c) == Some(Place(offset, count)) && SegOf(c, count) == Some(seg)
    ensures EditOf(t, c) == Some(Edit(offset, seg)) && offset <= |t| && |seg| < UTLSTRSIZE
    ensures InsertText(t, c) == Some(Splice(t, Edit(offset, seg)))
  {
  }

  lemma InitialFits()
    ensures |INITIAL_TEXT| < SECTION && '\0' !in INITIAL_TEXT
  {
  }
}
