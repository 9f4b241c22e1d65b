/** The string conversions of cfortHdf.h on their buffers; a pointer is an offset.
    Source and destination may be the same buffer, which is how the macros call
    them. */
module FortranStrings {
  import opened CBuffer
  import opened StringVectors

  /** How many elements of the given width fit in size bytes. */
  function Count(size: nat, elemLen: nat): (n: nat)
    requires elemLen > 0
    ensures Offset(n, elemLen) == size - size % elemLen && Offset(n, elemLen - 1) == Offset(n, elemLen) - n
  {
    OffsetIs(size / elemLen, elemLen);
    Narrower(size / elemLen, elemLen);
    size / elemLen
  }

  lemma {:induction false} Narrower(n: nat, elemLen: nat)
    requires elemLen > 0
    ensures Offset(n, elemLen - 1) == Offset(n, elemLen) - n
  {
    if n > 0 {
      Narrower(n - 1, elemLen);
    }
  }

  // -------------------------------------------------------------------- c2fstrv

  method PutBlanks(fstr: array<char>, from: nat, to: nat)
    requires from <= to <= fstr.Length
    modifies fstr
    ensures fstr[..] == old(fstr[..from]) + Blanks(to - from) + old(fstr[to..])
  {
    var p := from;
    while p < to
      invariant from <= p <= to
      invariant forall k | from <= k < p :: fstr[k] == ' '
      invariant forall k | 0 <= k < fstr.Length && !(from <= k < p) :: fstr[k] == old(fstr[k])
    {
      fstr[p] := ' ';
      p := p + 1;
    }
  }

  /** The copying loop of one element; n bytes are copied. */
  method CopyText(cstr: array<char>, c: nat, fstr: array<char>, f: nat, elemLen: nat) returns (n: nat)
    requires elemLen > 0 && c + elemLen <= cstr.Length && f + elemLen - 1 <= fstr.Length && (cstr == fstr ==> f <= c)
    modifies fstr
    ensures n == |Text(old(cstr[c..c + elemLen]))|
    ensures fstr[..] == old(fstr[..f]) + Text(old(cstr[c..c + elemLen])) + old(fstr[f + n..])
  {
    ghost var e := cstr[c..c + elemLen];
    var j := 1;
    while j < elemLen && cstr[c + j - 1] != '\0'
      invariant 1 <= j <= elemLen
      invariant forall k | 0 <= k < j - 1 :: e[k] != '\0' && fstr[f + k] == e[k]
      invariant forall k | 0 <= k < fstr.Length && !(f <= k < f + j - 1) :: fstr[k] == old(fstr[k])
      invariant cstr != fstr ==> cstr[..] == old(cstr[..])
    {
      assert cstr[c + j - 1] == e[j - 1];
      fstr[f + j - 1] := cstr[c + j - 1];
      j := j + 1;
    }
    n := j - 1;
    TextIs(e, n);
  }

  /** One element: the string is copied, blanks follow. In one buffer the source
      may not start before the destination. */
  method PackElement(cstr: array<char>, c: nat, fstr: array<char>, f: nat, elemLen: nat)
    requires elemLen > 0 && c + elemLen <= cstr.Length && f + elemLen - 1 <= fstr.Length && (cstr == fstr ==> f <= c)
    modifies fstr
    ensures fstr[..] == old(fstr[..f]) + ToFortran(old(cstr[c..c + elemLen])) + old(fstr[f + elemLen - 1..])
  {
    ghost var o, e := fstr[..], cstr[c..c + elemLen];
    var n := CopyText(cstr, c, fstr, f, elemLen);
    ghost var s := fstr[..];
    PutBlanks(fstr, f + n, f + elemLen - 1);
    ghost var r := fstr[..];
    Packed(o, f, e, elemLen, n, s, r);
  }

  lemma Packed(o: string, f: nat, e: string, elemLen: nat, n: nat, s: string, r: string)
    requires |e| == elemLen > 0 && n == |Text(e)| < elemLen && f + elemLen - 1 <= |o|
    requires s == o[..f] + Text(e) + o[f + n..] && r == s[..f + n] + Blanks(elemLen - 1 - n) + s[f + elemLen - 1..]
    ensures r == o[..f] + ToFortran(e) + o[f + elemLen - 1..]
  {
    TwoPatches(o, f, Text(e), Blanks(elemLen - 1 - n), s, r);
  }

  lemma TwoPatches(o: string, f: nat, t: string, b: string, s: string, r: string)
    requires f + |t| + |b| <= |o| && s == o[..f] + t + o[f + |t|..]
    requires r == s[..f + |t|] + b + s[f + |t| + |b|..]
    ensures r == o[..f] + (t + b) + o[f + |t| + |b|..]
  {
    assert s[..f + |t|] == o[..f] + t;
    assert s[f + |t| + |b|..] == o[f + |t| + |b|..];
  }

  /** The buffer starts with front and continues as before. */
  ghost predicate Reached(buf: array<char>, front: string, before: string)
    reads buf
  {
    |front| <= buf.Length == |before| && buf[..|front|] == front && buf[|front|..] == before[|front|..]
  }

  lemma ReachedText(buf: array<char>, front: string, before: string)
    requires Reached(buf, front, before)
    ensures buf[..] == front + before[|front|..]
  {
    assert buf[..] == buf[..|front|] + buf[|front|..];
  }

  /** The next element of the vector: what is behind it is still unread. */
  method PackNext(cstr: array<char>, c: nat, fstr: array<char>, f: nat, elemLen: nat,
                  ghost src: string, ghost before: string, ghost front: string, ghost next: string)
    requires elemLen > 0 && c + elemLen <= cstr.Length == |src| && f + elemLen - 1 <= fstr.Length && f == |front|
    requires (cstr == fstr ==> f <= c && src == before) && (cstr != fstr ==> cstr[..] == src)
    requires Reached(fstr, front, before) && next == front + ToFortran(src[c..c + elemLen])
    modifies fstr
    ensures Reached(fstr, next, before)
  {
    ghost var o, e := fstr[..], src[c..c + elemLen];
    YetUnread(cstr, c, fstr, f, elemLen, src, before, front);
    PackElement(cstr, c, fstr, f, elemLen);
    ghost var r := fstr[..];
    Patched(o, f, e, r, before, front, next);
    ReachedIs(fstr, r, next, before);
  }

  /** The element behind what has been reached is as it was. */
  lemma YetUnread(cstr: array<char>, c: nat, fstr: array<char>, f: nat, elemLen: nat, src: string, before: string, front: string)
    requires c + elemLen <= cstr.Length == |src| && f == |front| && Reached(fstr, front, before)
    requires (cstr == fstr ==> f <= c && src == before) && (cstr != fstr ==> cstr[..] == src)
    ensures cstr[c..c + elemLen] == src[c..c + elemLen]
  {
    assert cstr[c..c + elemLen] == cstr[..][c..c + elemLen];
    if cstr == fstr {
      assert cstr[f..] == cstr[..][f..];
      StillThere(cstr[..], before, f, c, c + elemLen);
    }
  }

  lemma Patched(o: string, f: nat, e: string, r: string, before: string, front: string, next: string)
    requires e != "" && f + |e| - 1 <= |o| == |before| && f == |front| && next == front + ToFortran(e)
    requires o[..f] == front && o[f..] == before[f..] && r == o[..f] + ToFortran(e) + o[f + |e| - 1..]
    ensures |next| <= |r| == |before| && r[..|next|] == next && r[|next|..] == before[|next|..]
  {
    OnePatch(o, f, ToFortran(e), r, before);
  }

  lemma StillThere(o: string, before: string, f: nat, lo: nat, hi: nat)
    requires f <= lo <= hi <= |o| == |before| && o[f..] == before[f..]
    ensures o[lo..hi] == before[lo..hi]
  {
    forall k | lo <= k < hi ensures o[k] == before[k] {
      assert o[f..][k - f] == before[f..][k - f];
    }
  }

  lemma OnePatch(o: string, f: nat, e: string, r: string, before: string)
    requires f + |e| <= |o| == |before| && r == o[..f] + e + o[f + |e|..] && o[f..] == before[f..]
    ensures |r| == |before| && r[..f + |e|] == o[..f] + e && r[f + |e|..] == before[f + |e|..]
  {
    assert r[f + |e|..] == o[f + |e|..] == o[f..][|e|..];
  }

  /** Element i of the source, packed, is element i of the result: where the
      destination has reached, and i bytes more, the source stands. */
  predicate Packs(src: string, c0: nat, f0: nat, elemLen: nat, es: seq<string>, fronts: seq<string>, i: nat) {
    && i < |es| && i < |fronts| && |fronts[i]| >= f0
    && var c := c0 + |fronts[i]| - f0 + i; c + elemLen <= |src| && es[i] == ToFortran(src[c..c + elemLen])
  }

  /** Element i takes the destination from one front to the next. */
  predicate Grew(fronts: seq<string>, es: seq<string>, w: nat, i: nat) {
    i < |es| && i + 1 < |fronts| && |es[i]| == w && fronts[i + 1] == fronts[i] + es[i]
  }

  /** What the destination starts with after each element. */
  predicate Grows(fronts: seq<string>, es: seq<string>, w: nat, room: nat) {
    && |fronts| == |es| + 1
    && (forall i | 0 <= i < |es| :: Grew(fronts, es, w, i))
    && forall i | 0 <= i <= |es| :: |fronts[i]| <= room
  }

  /** Front i is i elements long, behind what was there. */
  predicate Placed(fronts: seq<string>, base: nat, w: nat, i: nat) {
    i < |fronts| && |fronts[i]| == base + Offset(i, w)
  }

  /** The fronts of elements of one width. */
  lemma FrontsOf(before: string, es: seq<string>, w: nat, room: nat) returns (fronts: seq<string>)
    requires Wide(es, w) && |before| + Offset(|es|, w) <= room
    ensures Grows(fronts, es, w, room) && fronts[0] == before && fronts[|es|] == before + Flat(es)
    ensures forall i | 0 <= i <= |es| :: Placed(fronts, |before|, w, i)
  {
    fronts := seq(|es| + 1, i requires 0 <= i <= |es| => before + Flat(es[..i]));
    assert es[..|es|] == es && before + Flat(es[..0]) == before;
    forall i | 0 <= i < |es| ensures Grew(fronts, es, w, i) {
      FlatMore(before, es, i);
    }
    forall i | 0 <= i <= |es| ensures Placed(fronts, |before|, w, i) && |fronts[i]| <= room {
      FlatLength(es[..i], w);
      OffsetMonotone(i, |es|, w);
    }
  }

  lemma FlatMore(before: string, es: seq<string>, i: nat)
    requires i < |es|
    ensures before + Flat(es[..i + 1]) == before + Flat(es[..i]) + es[i]
  {
    assert es[..i + 1][..i] == es[..i] && es[..i + 1][i] == es[i];
    assert before + Flat(es[..i]) + es[i] == before + (Flat(es[..i]) + es[i]);
  }

  lemma {:induction false} OffsetMonotone(i: nat, n: nat, w: nat)
    requires i <= n
    ensures Offset(i, w) <= Offset(n, w)
  {
    if i < n {
      NextElement(i, n, w);
    }
  }

  /** n elements forward. */
  method PackAll(cstr: array<char>, c0: nat, fstr: array<char>, f0: nat, elemLen: nat, n: nat,
                 ghost src: string, ghost es: seq<string>, ghost fronts: seq<string>)
    returns (f: nat)
    requires elemLen > 0 && (cstr == fstr ==> c0 == f0) && f0 <= fstr.Length && cstr[..] == src && |es| == n
    requires Grows(fronts, es, elemLen - 1, fstr.Length) && fronts[0] == fstr[..f0]
    requires forall i | 0 <= i < n :: Packs(src, c0, f0, elemLen, es, fronts, i)
    modifies fstr
    ensures f == |fronts[n]| && Reached(fstr, fronts[n], old(fstr[..]))
  {
    ghost var before := fstr[..];
    var c := c0;
    f := f0;
    var i := 0;
    while i < n
      invariant 0 <= i <= n && f == |fronts[i]| && c == c0 + f - f0 + i
      invariant Reached(fstr, fronts[i], before)
      invariant cstr != fstr ==> cstr[..] == src
    {
      assert Packs(src, c0, f0, elemLen, es, fronts, i) && Grew(fronts, es, elemLen - 1, i);
      assert |fronts[i + 1]| <= fstr.Length;
      PackStep(cstr, c, c0, fstr, f, f0, elemLen, src, before, es, fronts, i);
      c := c + elemLen;
      f := f + elemLen - 1;
      i := i + 1;
    }
  }

  /** What the next element needs. */
  lemma PackReady(src: string, c0: nat, c: nat, f0: nat, f: nat, elemLen: nat, es: seq<string>, fronts: seq<string>, i: nat,
                  front: string, next: string)
    requires elemLen > 0 && Packs(src, c0, f0, elemLen, es, fronts, i) && Grew(fronts, es, elemLen - 1, i)
    requires f == |fronts[i]| && c == c0 + f - f0 + i && front == fronts[i] && next == fronts[i + 1]
    ensures c + elemLen <= |src| && next == front + ToFortran(src[c..c + elemLen]) && (c0 == f0 ==> f <= c)
  {
  }

  /** One turn of the loop. */
  method PackStep(cstr: array<char>, c: nat, ghost c0: nat, fstr: array<char>, f: nat, ghost f0: nat, elemLen: nat,
                  ghost src: string, ghost before: string, ghost es: seq<string>, ghost fronts: seq<string>, ghost i: nat)
    requires elemLen > 0 && Packs(src, c0, f0, elemLen, es, fronts, i) && Grew(fronts, es, elemLen - 1, i)
    requires f == |fronts[i]| && c == c0 + f - f0 + i && f + elemLen - 1 <= fstr.Length && cstr.Length == |src|
    requires (cstr == fstr ==> c0 == f0 && src == before) && (cstr != fstr ==> cstr[..] == src) && Reached(fstr, fronts[i], before)
    modifies fstr
    ensures Reached(fstr, fronts[i + 1], before)
  {
    ghost var front, next := fronts[i], fronts[i + 1];
    PackReady(src, c0, c, f0, f, elemLen, es, fronts, i, front, next);
    PackNext(cstr, c, fstr, f, elemLen, src, before, front, next);
  }

  lemma SliceOfSlice(s: string, from: nat, size: nat, a: nat, b: nat)
    requires from + size <= |s| && a <= b <= size
    ensures s[from..from + size][a..b] == s[from + a..from + b]
  {
    var v := s[from..from + size];
    var x, y := v[a..b], s[from + a..from + b];
    forall k | 0 <= k < b - a ensures x[k] == y[k] {
      assert x[k] == v[a + k] && y[k] == s[from + a + k];
    }
  }

  /** Element i of a stretch of the buffer. */
  lemma ElementOfSlice(src: string, c0: nat, size: nat, w: nat, n: nat, i: nat)
    requires Offset(n, w) <= size && c0 + size <= |src| && i < n
    ensures var c := c0 + Offset(i, w);
            c + w <= |src| && Element(src[c0..c0 + size], w, i) == src[c..c + w]
  {
    NextElement(i, n, w);
    SliceOfSlice(src, c0, size, Offset(i, w), Offset(i, w) + w);
  }

  lemma PacksAt(src: string, c0: nat, size: nat, elemLen: nat, n: nat, before: string, es: seq<string>, fronts: seq<string>, i: nat)
    requires elemLen > 0 && Offset(n, elemLen) <= size && c0 + size <= |src| && i < n
    requires es == FortranElements(src[c0..c0 + size], elemLen, n) && |fronts| == n + 1 && |fronts[i]| == |before| + Offset(i, elemLen - 1)
    ensures Packs(src, c0, |before|, elemLen, es, fronts, i)
  {
    var c := c0 + Offset(i, elemLen);
    ElementPacked(src, c0, size, elemLen, n, es, i, c);
    Narrower(i, elemLen);
    PacksIs(src, c0, |before|, elemLen, es, fronts, i, c);
  }

  lemma ElementPacked(src: string, c0: nat, size: nat, elemLen: nat, n: nat, es: seq<string>, i: nat, c: nat)
    requires elemLen > 0 && Offset(n, elemLen) <= size && c0 + size <= |src| && i < n && c == c0 + Offset(i, elemLen)
    requires es == FortranElements(src[c0..c0 + size], elemLen, n)
    ensures i < |es| && c + elemLen <= |src| && es[i] == ToFortran(src[c..c + elemLen])
  {
    ElementOfSlice(src, c0, size, elemLen, n, i);
  }

  lemma PacksIs(src: string, c0: nat, f0: nat, elemLen: nat, es: seq<string>, fronts: seq<string>, i: nat, c: nat)
    requires i < |es| && i < |fronts| && |fronts[i]| >= f0 && c == c0 + |fronts[i]| - f0 + i && c + elemLen <= |src|
    requires es[i] == ToFortran(src[c..c + elemLen])
    ensures Packs(src, c0, f0, elemLen, es, fronts, i)
  {
  }

  /** What the loop relies on: the packed elements, and what the destination
      starts with after each of them. */
  lemma PackPlan(src: string, c0: nat, size: nat, elemLen: nat, n: nat, before: string, room: nat)
    returns (es: seq<string>, fronts: seq<string>)
    requires elemLen > 0 && Offset(n, elemLen) <= size && c0 + size <= |src| && |before| + Offset(n, elemLen - 1) <= room
    ensures |es| == n && Grows(fronts, es, elemLen - 1, room) && fronts[0] == before
    ensures forall i | 0 <= i < n :: Packs(src, c0, |before|, elemLen, es, fronts, i)
    ensures fronts[n] == before + VectorToFortran(src[c0..c0 + size], elemLen, n) && |fronts[n]| == |before| + Offset(n, elemLen - 1)
  {
    es := FortranElements(src[c0..c0 + size], elemLen, n);
    FortranWide(src[c0..c0 + size], elemLen, n);
    fronts := FrontsOf(before, es, elemLen - 1, room);
    assert Placed(fronts, |before|, elemLen - 1, n);
    forall i | 0 <= i < n ensures Packs(src, c0, |before|, elemLen, es, fronts, i) {
      assert Placed(fronts, |before|, elemLen - 1, i);
      PacksAt(src, c0, size, elemLen, n, before, es, fronts, i);
    }
  }

  lemma FortranWide(v: string, elemLen: nat, n: nat)
    requires elemLen > 0 && Offset(n, elemLen) <= |v|
    ensures Wide(FortranElements(v, elemLen, n), elemLen - 1)
  {
    forall i | 0 <= i < n ensures |FortranElements(v, elemLen, n)[i]| == elemLen - 1 {
      ElementWidth(v, elemLen, n, i);
    }
  }

  /** c2fstrv: forward, shrinking. The returned offset is the start of the vector
      exactly when the width divides the size. */
  method C2FStrV(cstr: array<char>, c0: nat, fstr: array<char>, f0: nat, elemLen: nat, sizeofcstr: nat) returns (r: int)
    requires elemLen > 0 && (cstr == fstr ==> c0 == f0)
    requires c0 + sizeofcstr <= cstr.Length && f0 + Offset(Count(sizeofcstr, elemLen), elemLen - 1) <= fstr.Length
    modifies fstr
    ensures var n := Count(sizeofcstr, elemLen);
            fstr[..] == old(fstr[..f0]) + VectorToFortran(old(cstr[c0..c0 + sizeofcstr]), elemLen, n)
                        + old(fstr[f0 + Offset(n, elemLen - 1)..])
    ensures r == f0 - sizeofcstr % elemLen
  {
    var n := Count(sizeofcstr, elemLen);
    var f := PackVector(cstr, c0, fstr, f0, elemLen, sizeofcstr, n);
    r := f - sizeofcstr + n;
  }

  method PackVector(cstr: array<char>, c0: nat, fstr: array<char>, f0: nat, elemLen: nat, ghost size: nat, n: nat) returns (f: nat)
    requires elemLen > 0 && (cstr == fstr ==> c0 == f0) && Offset(n, elemLen) <= size
    requires c0 + size <= cstr.Length && f0 + Offset(n, elemLen - 1) <= fstr.Length
    modifies fstr
    ensures f == f0 + Offset(n, elemLen - 1)
    ensures fstr[..] == old(fstr[..f0]) + VectorToFortran(old(cstr[c0..c0 + size]), elemLen, n) + old(fstr[f..])
  {
    ghost var before := fstr[..f0];
    ghost var es, fronts := PackPlan(cstr[..], c0, size, elemLen, n, before, fstr.Length);
    assert cstr[..][c0..c0 + size] == cstr[c0..c0 + size];
    f := PackAll(cstr, c0, fstr, f0, elemLen, n, cstr[..], es, fronts);
    assert fstr[..] == fstr[..f] + fstr[f..];
  }

  // -------------------------------------------------------------------- f2cstrv

  /** One element, backward: its terminator, then its bytes from the last to the
      first. In one buffer the source must end before the destination does. */
  method UnpackElement(fstr: array<char>, f: nat, cstr: array<char>, c: nat, elemLen: nat)
    requires 0 < elemLen <= c <= cstr.Length && elemLen - 1 <= f <= fstr.Length && (fstr == cstr ==> f < c)
    modifies cstr
    ensures cstr[..] == old(cstr[..c - elemLen]) + ToC(old(fstr[f - (elemLen - 1)..f])) + old(cstr[c..])
  {
    ghost var e := fstr[f - (elemLen - 1)..f];
    cstr[c - 1] := '\0';
    var j := 1;
    while j < elemLen
      invariant 1 <= j <= elemLen
      invariant cstr[c - 1] == '\0'
      invariant forall k | c - j <= k < c - 1 :: cstr[k] == e[k - (c - elemLen)]
      invariant forall k | 0 <= k < cstr.Length && !(c - j <= k < c) :: cstr[k] == old(cstr[k])
      invariant fstr != cstr ==> fstr[..] == old(fstr[..])
    {
      assert fstr[f - j] == e[elemLen - 1 - j];
      cstr[c - 1 - j] := fstr[f - j];
      j := j + 1;
    }
    Unpacked(cstr[..], old(cstr[..]), c - elemLen, c, e);
  }

  lemma Unpacked(a: string, o: string, lo: nat, hi: nat, e: string)
    requires lo < hi <= |a| == |o| && |e| == hi - lo - 1 && a[hi - 1] == '\0' && forall k | lo <= k < hi - 1 :: a[k] == e[k - lo]
    requires forall k | 0 <= k < |a| && !(lo <= k < hi) :: a[k] == o[k]
    ensures a == o[..lo] + ToC(e) + o[hi..]
  {
    assert a == a[..lo] + a[lo..hi] + a[hi..];
    assert a[lo..hi] == ToC(e);
    assert a[..lo] == o[..lo] && a[hi..] == o[hi..];
  }

  /** The buffer ends with tail and starts as before. */
  ghost predicate Filled(buf: array<char>, tail: string, before: string)
    reads buf
  {
    && |tail| <= buf.Length == |before|
    && buf[buf.Length - |tail|..] == tail && buf[..buf.Length - |tail|] == before[..buf.Length - |tail|]
  }

  /** The next element from the end: what is in front of it is still unread. */
  method UnpackNext(fstr: array<char>, f: nat, cstr: array<char>, c: nat, elemLen: nat,
                    ghost src: string, ghost before: string, ghost tail: string, ghost next: string)
    requires 0 < elemLen <= c <= cstr.Length && c == cstr.Length - |tail| && elemLen - 1 <= f <= fstr.Length == |src|
    requires (fstr == cstr ==> f < c && src == before) && (fstr != cstr ==> fstr[..] == src)
    requires Filled(cstr, tail, before) && next == ToC(src[f - (elemLen - 1)..f]) + tail
    modifies cstr
    ensures Filled(cstr, next, before)
  {
    ghost var o := cstr[..];
    StillUnread(fstr, f, cstr, c, elemLen, src, before, tail);
    UnpackElement(fstr, f, cstr, c, elemLen);
    PatchInFront(o, c, ToC(src[f - (elemLen - 1)..f]), cstr[..], before);
  }

  /** The element in front of what has been filled is as it was. */
  lemma StillUnread(fstr: array<char>, f: nat, cstr: array<char>, c: nat, elemLen: nat, src: string, before: string, tail: string)
    requires 0 < elemLen <= c <= cstr.Length && c == cstr.Length - |tail| && elemLen - 1 <= f <= fstr.Length == |src|
    requires (fstr == cstr ==> f < c && src == before) && (fstr != cstr ==> fstr[..] == src) && Filled(cstr, tail, before)
    ensures fstr[f - (elemLen - 1)..f] == src[f - (elemLen - 1)..f]
  {
    assert fstr[f - (elemLen - 1)..f] == fstr[..][f - (elemLen - 1)..f];
    if fstr == cstr {
      assert cstr[..c] == cstr[..][..c];
      SamePart(cstr[..], before, c, f - (elemLen - 1), f);
    }
  }

  lemma SamePart(o: string, before: string, c: nat, lo: nat, hi: nat)
    requires lo <= hi <= c <= |o| && c <= |before| && o[..c] == before[..c]
    ensures o[lo..hi] == before[lo..hi]
  {
    forall k | lo <= k < hi ensures o[k] == before[k] {
      assert o[..c][k] == before[..c][k];
    }
  }

  lemma PatchInFront(o: string, c: nat, e: string, r: string, before: string)
    requires |e| <= c <= |o| == |before| && r == o[..c - |e|] + e + o[c..] && o[..c] == before[..c]
    ensures |r| == |before| && r[c - |e|..] == e + o[c..] && r[..c - |e|] == before[..c - |e|]
  {
    assert r[..c - |e|] == o[..c - |e|] == o[..c][..c - |e|];
  }

  /** Element i from the end of the source is what the destination's end grows by:
      as far from the end as the destination has reached, less i bytes, the source
      stands. */
  predicate Unpacks(src: string, end: nat, elemLen: nat, tails: seq<string>, i: nat) {
    && i + 1 < |tails| && |tails[i]| >= |tails[0]| + i && elemLen > 0
    && var done := |tails[i]| - |tails[0]| - i;
       done + elemLen - 1 <= end <= |src| && tails[i + 1] == ToC(src[end - done - (elemLen - 1)..end - done]) + tails[i]
  }

  /** One turn of the loop. */
  method UnpackStep(fstr: array<char>, ghost f0: nat, f: nat, cstr: array<char>, c: nat, elemLen: nat,
                    ghost src: string, ghost before: string, ghost tails: seq<string>, ghost i: nat)
    requires Unpacks(src, f0, elemLen, tails, i) && |tails[i + 1]| <= cstr.Length && fstr.Length == |src|
    requires c == cstr.Length - |tails[i]| && f == f0 - (|tails[i]| - |tails[0]| - i)
    requires (fstr == cstr ==> f < c && src == before) && (fstr != cstr ==> fstr[..] == src)
    requires Filled(cstr, tails[i], before)
    modifies cstr
    ensures |tails[i + 1]| == |tails[i]| + elemLen && elemLen - 1 <= f && elemLen <= c && Filled(cstr, tails[i + 1], before)
  {
    UnpackNext(fstr, f, cstr, c, elemLen, src, before, tails[i], tails[i + 1]);
  }

  /** n elements backward. */
  method UnpackAll(fstr: array<char>, f0: nat, cstr: array<char>, c0: nat, elemLen: nat, n: nat, ghost src: string, ghost tails: seq<string>)
    returns (c: nat)
    requires elemLen > 0 && (fstr == cstr ==> c0 == f0 + n) && f0 <= fstr.Length && c0 <= cstr.Length && fstr[..] == src
    requires |tails| == n + 1 && tails[0] == cstr[c0..] && forall i | 0 <= i <= n :: |tails[i]| <= cstr.Length
    requires forall i | 0 <= i < n :: Unpacks(src, f0, elemLen, tails, i)
    modifies cstr
    ensures c == cstr.Length - |tails[n]| && Filled(cstr, tails[n], old(cstr[..]))
  {
    ghost var before := cstr[..];
    var f := f0;
    c := c0;
    var i := 0;
    while i < n
      invariant 0 <= i <= n && c == cstr.Length - |tails[i]| && c0 - c == f0 - f + i
      invariant Filled(cstr, tails[i], before)
      invariant fstr != cstr ==> fstr[..] == src
    {
      assert Unpacks(src, f0, elemLen, tails, i) && |tails[i + 1]| <= cstr.Length;
      UnpackStep(fstr, f0, f, cstr, c, elemLen, src, before, tails, i);
      c := c - elemLen;
      f := f - (elemLen - 1);
      i := i + 1;
    }
  }

  /** The last i elements, and what stands behind the vector. */
  function Tail(es: seq<string>, after: string, i: nat): string {
    if i <= |es| then Flat(es[|es| - i..]) + after else ""
  }

  lemma TailStep(es: seq<string>, after: string, i: nat)
    requires i < |es|
    ensures Tail(es, after, i + 1) == es[|es| - 1 - i] + Tail(es, after, i)
  {
    var k := |es| - 1 - i;
    FlatHead(es[k..]);
    assert es[k..][1..] == es[k + 1..] && es[k..][0] == es[k];
    assert es[k] + Flat(es[k + 1..]) + after == es[k] + (Flat(es[k + 1..]) + after);
  }

  lemma TailLength(es: seq<string>, after: string, i: nat, w: nat)
    requires Wide(es, w) && i <= |es|
    ensures |Tail(es, after, i)| == Offset(i, w) + |after| <= Offset(|es|, w) + |after|
  {
    FlatLength(es[|es| - i..], w);
    OffsetMonotone(i, |es|, w);
  }

  /** Element n - 1 - i of the vector lies i elements from its end. */
  lemma FromTheEnd(src: string, from: nat, end: nat, elemLen: nat, n: nat, i: nat)
    requires elemLen > 0 && from <= end <= |src| && end - from == Offset(n, elemLen - 1) && i < n
    ensures var w := elemLen - 1;
            Offset(i, w) + w <= end && Element(src[from..end], w, n - 1 - i) == src[end - Offset(i, w) - w..end - Offset(i, w)]
  {
    OffsetSum(n - i, i, elemLen - 1);
    ElementOfSlice(src, from, end - from, elemLen - 1, n, n - 1 - i);
  }

  lemma UnpacksAt(src: string, from: nat, end: nat, elemLen: nat, n: nat, es: seq<string>, tails: seq<string>, i: nat)
    requires elemLen > 0 && from <= end <= |src| && end - from == Offset(n, elemLen - 1) && i < n
    requires es == CElements(src[from..end], elemLen, n) && |tails| == n + 1 && |tails[i]| == |tails[0]| + Offset(i, elemLen)
    requires tails[i + 1] == es[n - 1 - i] + tails[i]
    ensures Unpacks(src, end, elemLen, tails, i)
  {
    FromTheEnd(src, from, end, elemLen, n, i);
    Narrower(i, elemLen);
  }

  /** What the loop relies on. */
  lemma UnpackPlan(src: string, from: nat, end: nat, elemLen: nat, n: nat, after: string, room: nat)
    returns (tails: seq<string>)
    requires elemLen > 0 && from <= end <= |src| && end - from == Offset(n, elemLen - 1) && Offset(n, elemLen) + |after| <= room
    ensures |tails| == n + 1 && tails[0] == after && (forall i | 0 <= i <= n :: |tails[i]| <= room)
    ensures forall i | 0 <= i < n :: Unpacks(src, end, elemLen, tails, i)
    ensures tails[n] == VectorToC(src[from..end], elemLen, n) + after && |tails[n]| == Offset(n, elemLen) + |after|
  {
    var es := CElements(src[from..end], elemLen, n);
    CWide(src[from..end], elemLen, n);
    tails := TailsOf(es, after, elemLen, room);
    assert Placed(tails, |after|, elemLen, n);
    forall i | 0 <= i < n ensures Unpacks(src, end, elemLen, tails, i) {
      assert TailGrew(tails, es, i) && Placed(tails, |after|, elemLen, i);
      UnpacksAt(src, from, end, elemLen, n, es, tails, i);
    }
  }

  /** One element more from the end. */
  predicate TailGrew(tails: seq<string>, es: seq<string>, i: nat) {
    i < |es| && i + 1 < |tails| && tails[i + 1] == es[|es| - 1 - i] + tails[i]
  }

  lemma TailsOf(es: seq<string>, after: string, w: nat, room: nat) returns (tails: seq<string>)
    requires Wide(es, w) && Offset(|es|, w) + |after| <= room
    ensures |tails| == |es| + 1 && tails[0] == after && tails[|es|] == Flat(es) + after
    ensures forall i | 0 <= i < |es| :: TailGrew(tails, es, i)
    ensures forall i | 0 <= i <= |es| :: Placed(tails, |after|, w, i) && |tails[i]| <= room
  {
    tails := seq(|es| + 1, i requires 0 <= i <= |es| => Tail(es, after, i));
    TailEnds(es, after);
    forall i | 0 <= i <= |es| ensures Placed(tails, |after|, w, i) && |tails[i]| <= room {
      TailLength(es, after, i, w);
    }
    forall i | 0 <= i < |es| ensures TailGrew(tails, es, i) {
      TailStep(es, after, i);
    }
  }

  lemma TailEnds(es: seq<string>, after: string)
    ensures Tail(es, after, 0) == after && Tail(es, after, |es|) == Flat(es) + after
  {
    assert es[0..] == es;
  }

  lemma CWide(v: string, elemLen: nat, n: nat)
    requires elemLen > 0 && Offset(n, elemLen - 1) <= |v|
    ensures Wide(CElements(v, elemLen, n), elemLen)
  {
    forall i | 0 <= i < n ensures |CElements(v, elemLen, n)[i]| == elemLen {
      ElementWidth(v, elemLen - 1, n, i);
    }
  }

  /** f2cstrv: backward, expanding. The vector starts behind what the width leaves
      over of the size, and there the result points. */
  method F2CStrV(fstr: array<char>, f0: nat, cstr: array<char>, c0: nat, elemLen: nat, sizeofcstr: nat) returns (r: nat)
    requires elemLen > 0 && (fstr == cstr ==> c0 == f0)
    requires c0 + sizeofcstr <= cstr.Length && f0 + sizeofcstr - Count(sizeofcstr, elemLen) <= fstr.Length
    modifies cstr
    ensures r == c0 + sizeofcstr % elemLen
    ensures var n, left := Count(sizeofcstr, elemLen), sizeofcstr % elemLen;
            cstr[..] == old(cstr[..r]) + VectorToC(old(fstr[f0 + left..f0 + left + Offset(n, elemLen - 1)]), elemLen, n)
                        + old(cstr[c0 + sizeofcstr..])
  {
    var n := Count(sizeofcstr, elemLen);
    ghost var from := f0 + sizeofcstr % elemLen;
    var end := f0 + sizeofcstr - n;
    r := UnpackVector(fstr, from, end, cstr, c0 + sizeofcstr, elemLen, n);
  }

  method UnpackVector(fstr: array<char>, ghost from: nat, f: nat, cstr: array<char>, c: nat, elemLen: nat, n: nat) returns (r: nat)
    requires elemLen > 0 && (fstr == cstr ==> c == f + n) && from <= f <= fstr.Length && f - from == Offset(n, elemLen - 1)
    requires Offset(n, elemLen) <= c <= cstr.Length
    modifies cstr
    ensures r == c - Offset(n, elemLen)
    ensures cstr[..] == old(cstr[..r]) + VectorToC(old(fstr[from..f]), elemLen, n) + old(cstr[c..])
  {
    ghost var after := cstr[c..];
    ghost var tails := UnpackPlan(fstr[..], from, f, elemLen, n, after, cstr.Length);
    ghost var before, v := cstr[..], fstr[from..f];
    assert fstr[..][from..f] == v;
    r := UnpackAll(fstr, f, cstr, c, elemLen, n, fstr[..], tails);
    FilledParts(cstr, tails[n], before, VectorToC(v, elemLen, n), after, r);
  }

  /** A filled buffer as its three parts. */
  lemma FilledParts(buf: array<char>, tail: string, before: string, v: string, after: string, r: nat)
    requires Filled(buf, tail, before) && tail == v + after && r == buf.Length - |tail|
    ensures buf[..] == before[..r] + v + after
  {
    assert buf[..] == buf[..r] + buf[r..];
    assert before[..r] + v + after == before[..r] + (v + after);
  }

  // --------------------------------------------------------------- kill_trailing

  /** The loop that steps back over trailing t's, and the NUL it places. */
  method StepBack(s: array<char>, s0: nat, t: char, e0: nat)
    requires s0 < e0 < s.Length
    modifies s
    ensures s[..] == old(s[..])[s0 + |Trim(old(s[s0..e0]), t)| := '\0']
  {
    ghost var x := s[s0..e0];
    var e := e0;
    var more := true;
    while more
      invariant s0 <= e <= e0 && (more ==> e == e0 || s[e] == t) && (e == e0 ==> more)
      invariant forall k | e < k < e0 :: s[k] == t
      invariant !more ==> s[e] != t || e == s0
      invariant s[..] == old(s[..])
      decreases e - s0, more
    {
      if e > s0 {
        e := e - 1;
        more := s[e] == t;
      } else {
        more := false;
      }
    }
    ghost var n := if s[e] == t then 0 else e + 1 - s0;
    forall i | n <= i < |x| ensures x[i] == t {
      assert x[i] == s[s0 + i];
    }
    TrimIs(x, t, n);
    if s[e] == t {
      s[e] := '\0';
    } else {
      s[e + 1] := '\0';
    }
  }

  /** kill_trailing: the C string loses its trailing t's; nothing else changes. */
  method KillTrailing(s: array<char>, s0: nat, t: char)
    requires s0 <= s.Length && s0 + CLen(s[s0..]) < s.Length
    modifies s
    ensures CStringAt(s[..], s0) == Trim(old(CStringAt(s[..], s0)), t)
    ensures s[..] == old(s[..])[s0 + |Trim(old(CStringAt(s[..], s0)), t)| := '\0']
  {
    ghost var o := s[..];
    assert o[s0..] == s[s0..];
    var e := s0 + CLen(s[s0..]);
    if e > s0 {
      StepBack(s, s0, t, e);
    }
    CutAtTrim(o, s0, t, s[..]);
  }

  /** A NUL behind the trimmed string makes it the string. */
  lemma CutAtTrim(o: string, s0: nat, t: char, r: string)
    requires s0 <= |o| && s0 + CLen(o[s0..]) < |o|
    requires r == o[s0 + |Trim(CStringAt(o, s0), t)| := '\0']
    ensures CStringAt(r, s0) == Trim(CStringAt(o, s0), t)
  {
    var x := CStringAt(o, s0);
    var n := |Trim(x, t)|;
    SuffixUpdate(o, s0, n);
    assert forall i | 0 <= i < n :: r[s0..][i] == o[s0..][i];
    CLenIs(r[s0..], n);
    assert r[s0..s0 + n] == o[s0..s0 + n] == x[..n];
  }

  lemma SuffixUpdate(s: string, p: nat, n: nat)
    requires p + n < |s|
    ensures s[p + n := '\0'][p..] == s[p..][n := '\0']
  {
  }

  /** kill_trailingn: the same up to e; a pointer before the string changes
      nothing. */
  method KillTrailingN(s: array<char>, s0: nat, t: char, e: int)
    requires e < s.Length
    modifies s
    ensures e < s0 ==> s[..] == old(s[..])
    ensures e >= s0 ==> s[..] == old(s[..])[s0 + |Trim(old(s[s0..e]), t)| := '\0']
  {
    if e == s0 {
      s[e] := '\0';
    } else if e > s0 {
      StepBack(s, s0, t, e);
    }
  }

  /** The next element chopped. */
  method ChopNext(cstr: array<char>, c: nat, elemLen: nat, t: char, ghost src: string, ghost front: string, ghost next: string)
    requires elemLen > 0 && c + elemLen <= cstr.Length == |src| && c == |front| && Reached(cstr, front, src)
    requires next == front + Chopped(src[c..c + elemLen], t)
    modifies cstr
    ensures Reached(cstr, next, src)
  {
    ghost var o, e := cstr[..], cstr[c..c + elemLen - 1];
    ElementThere(cstr, o, front, src, c, elemLen, e);
    KillTrailingN(cstr, c, t, c + elemLen - 1);
    ghost var r := cstr[..];
    ChopsOne(o, front, next, src, c, elemLen, e, t, r);
    ReachedIs(cstr, r, next, src);
  }

  lemma ElementThere(buf: array<char>, o: string, front: string, src: string, c: nat, elemLen: nat, e: string)
    requires elemLen > 0 && c + elemLen <= buf.Length == |src| && c == |front| && Reached(buf, front, src)
    requires o == buf[..] && e == buf[c..c + elemLen - 1]
    ensures |o| == |src| && o[..c] == front && o[c..] == src[c..] && e == o[c..c + elemLen - 1]
  {
  }

  lemma ReachedIs(buf: array<char>, s: string, front: string, before: string)
    requires s == buf[..] && |front| <= |s| == |before| && s[..|front|] == front && s[|front|..] == before[|front|..]
    ensures Reached(buf, front, before)
  {
  }

  lemma ChopsOne(o: string, front: string, next: string, src: string, c: nat, elemLen: nat, e: string, t: char, r: string)
    requires 0 < elemLen && c + elemLen <= |src| == |o| && c == |front| && o[..c] == front && o[c..] == src[c..]
    requires e == o[c..c + elemLen - 1] && r == o[c + |Trim(e, t)| := '\0'] && next == front + Chopped(src[c..c + elemLen], t)
    ensures |r| == |src| && r[..|next|] == next && r[|next|..] == src[|next|..]
  {
    Unread(o, front, src, c, elemLen);
    ChopEffect(o, front, src, c, elemLen, |Trim(e, t)|, r);
  }

  lemma Unread(o: string, front: string, src: string, c: nat, elemLen: nat)
    requires 0 < elemLen && c + elemLen <= |src| == |o| && o[c..] == src[c..]
    ensures o[c..c + elemLen - 1] == src[c..c + elemLen][..elemLen - 1]
  {
    assert o[c..c + elemLen - 1] == o[c..][..elemLen - 1];
  }

  lemma ChopEffect(o: string, front: string, src: string, c: nat, elemLen: nat, n: nat, r: string)
    requires n < elemLen && c + elemLen <= |src| == |o| && c == |front| && o[..c] == front && o[c..] == src[c..]
    requires r == o[c + n := '\0']
    ensures r[..c + elemLen] == front + src[c..c + elemLen][n := '\0'] && r[c + elemLen..] == src[c + elemLen..]
  {
    assert o[c..c + elemLen] == o[c..][..elemLen];
    assert r[c + elemLen..] == o[c + elemLen..] == o[c..][elemLen..];
    assert r[..c + elemLen] == o[..c] + o[c..c + elemLen][n := '\0'];
  }

  /** Element i of the source, chopped, is element i of the result. */
  predicate Chops(src: string, c0: nat, elemLen: nat, t: char, es: seq<string>, fronts: seq<string>, i: nat) {
    && i < |es| && i < |fronts| && |fronts[i]| + elemLen <= |src| && |fronts[i]| == c0 + Offset(i, elemLen)
    && es[i] == Chopped(src[|fronts[i]|..|fronts[i]| + elemLen], t)
  }

  method Start(elemLen: nat, i: nat) returns (p: nat)
    ensures p == Offset(i, elemLen)
  {
    OffsetIs(i, elemLen);
    p := elemLen * i;
  }

  method ChopAll(cstr: array<char>, c0: nat, elemLen: nat, n: nat, t: char, ghost src: string, ghost es: seq<string>, ghost fronts: seq<string>)
    requires elemLen > 0 && c0 <= cstr.Length && cstr[..] == src && |es| == n
    requires Grows(fronts, es, elemLen, cstr.Length) && fronts[0] == src[..c0]
    requires forall i | 0 <= i < n :: Chops(src, c0, elemLen, t, es, fronts, i)
    modifies cstr
    ensures Reached(cstr, fronts[n], src)
  {
    var i := 0;
    ReachedIs(cstr, src, fronts[0], src);
    while i < n
      invariant 0 <= i <= n && Reached(cstr, fronts[i], src)
    {
      assert Chops(src, c0, elemLen, t, es, fronts, i) && Grew(fronts, es, elemLen, i);
      ChopStep(cstr, c0, i, elemLen, t, src, es, fronts);
      i := i + 1;
    }
  }

  /** One turn of the loop. */
  method ChopStep(cstr: array<char>, c0: nat, i: nat, elemLen: nat, t: char,
                  ghost src: string, ghost es: seq<string>, ghost fronts: seq<string>)
    requires elemLen > 0 && Chops(src, c0, elemLen, t, es, fronts, i) && Grew(fronts, es, elemLen, i)
    requires cstr.Length == |src| && Reached(cstr, fronts[i], src)
    modifies cstr
    ensures Reached(cstr, fronts[i + 1], src)
  {
    var p := Start(elemLen, i);
    ChopNext(cstr, c0 + p, elemLen, t, src, fronts[i], fronts[i + 1]);
  }

  lemma ChopsAt(src: string, c0: nat, size: nat, elemLen: nat, n: nat, t: char, es: seq<string>, fronts: seq<string>, i: nat)
    requires elemLen > 0 && Offset(n, elemLen) <= size && c0 + size <= |src| && i < n
    requires es == ChoppedElements(src[c0..c0 + size], elemLen, n, t) && |fronts| == n + 1 && |fronts[i]| == c0 + Offset(i, elemLen)
    ensures Chops(src, c0, elemLen, t, es, fronts, i)
  {
    ElementOfSlice(src, c0, size, elemLen, n, i);
  }

  lemma ChopPlan(src: string, c0: nat, size: nat, elemLen: nat, n: nat, t: char)
    returns (es: seq<string>, fronts: seq<string>)
    requires elemLen > 0 && Offset(n, elemLen) <= size && c0 + size <= |src|
    ensures |es| == n && Grows(fronts, es, elemLen, |src|) && fronts[0] == src[..c0]
    ensures forall i | 0 <= i < n :: Chops(src, c0, elemLen, t, es, fronts, i)
    ensures fronts[n] == src[..c0] + VectorChopped(src[c0..c0 + size], elemLen, n, t) && |fronts[n]| == c0 + Offset(n, elemLen)
  {
    es := ChoppedElements(src[c0..c0 + size], elemLen, n, t);
    ChoppedWide(src[c0..c0 + size], elemLen, n, t);
    fronts := FrontsOf(src[..c0], es, elemLen, |src|);
    assert Placed(fronts, c0, elemLen, n);
    forall i | 0 <= i < n ensures Chops(src, c0, elemLen, t, es, fronts, i) {
      assert Placed(fronts, c0, elemLen, i);
      ChopsAt(src, c0, size, elemLen, n, t, es, fronts, i);
    }
  }

  lemma ChoppedWide(v: string, elemLen: nat, n: nat, t: char)
    requires Offset(n, elemLen) <= |v|
    ensures Wide(ChoppedElements(v, elemLen, n, t), elemLen)
  {
    forall i | 0 <= i < n ensures |ChoppedElements(v, elemLen, n, t)[i]| == elemLen {
      ElementWidth(v, elemLen, n, i);
    }
  }

  /** vkill_trailing. */
  method VKillTrailing(cstr: array<char>, c0: nat, elemLen: nat, sizeofcstr: nat, t: char)
    requires elemLen > 0 && c0 + sizeofcstr <= cstr.Length
    modifies cstr
    ensures var n := Count(sizeofcstr, elemLen);
            cstr[..] == old(cstr[..c0]) + VectorChopped(old(cstr[c0..c0 + sizeofcstr]), elemLen, n, t) + old(cstr[c0 + Offset(n, elemLen)..])
  {
    var n := Count(sizeofcstr, elemLen);
    ghost var src := cstr[..];
    ghost var es, fronts := ChopPlan(src, c0, sizeofcstr, elemLen, n, t);
    ChopAll(cstr, c0, elemLen, n, t, src, es, fronts);
    ReachedText(cstr, fronts[n], src);
    assert src[c0..c0 + sizeofcstr] == old(cstr[c0..c0 + sizeofcstr]) && src[..c0] == old(cstr[..c0]);
  }

  // -------------------------------------------------------------------- num_elem

  const NUM_ELEMS := -1
  const NUM_ELEM_ARG := -2

  /** Element k begins with at least m terminating characters. */
  predicate Terminates(strv: string, elemLen: nat, k: nat, m: nat, t: char) {
    Offset(k, elemLen) + m <= |strv| && forall i | Offset(k, elemLen) <= i < Offset(k, elemLen) + m :: strv[i] == t
  }

  ghost predicate Terminated(strv: string, elemLen: nat, m: nat, t: char) { exists k: nat :: Terminates(strv, elemLen, k, m, t) }

  /** The number of leading characters the routine looks for. */
  function Leading(numTerm: int, elemLen: nat): nat { if numTerm <= 0 then elemLen else numTerm }

  /** num_elem: the number of elements before the first that begins with the
      terminating characters; or the number the caller gives. */
  method NumElem(strv: string, elemLen: nat, termChar: int, numTerm: int) returns (num: int)
    requires numTerm != NUM_ELEMS && numTerm != NUM_ELEM_ARG ==>
               Leading(numTerm, elemLen) <= elemLen && 0 <= termChar < 256
               && Terminated(strv, elemLen, Leading(numTerm, elemLen), termChar as char)
    ensures numTerm == NUM_ELEMS || numTerm == NUM_ELEM_ARG ==> num == termChar
    ensures numTerm != NUM_ELEMS && numTerm != NUM_ELEM_ARG ==>
              var m, t := Leading(numTerm, elemLen), termChar as char;
              num >= 0 && Terminates(strv, elemLen, num, m, t) && forall k | 0 <= k < num :: !Terminates(strv, elemLen, k, m, t)
  {
    if numTerm == NUM_ELEMS || numTerm == NUM_ELEM_ARG {
      return termChar;
    }
    var m := if numTerm <= 0 then elemLen else numTerm;
    var t := termChar as char;
    ghost var last: nat :| Terminates(strv, elemLen, last, m, t);
    num := 0;
    var p := 0;
    while true
      invariant 0 <= num <= last && p == Offset(num, elemLen)
      invariant forall k | 0 <= k < num :: !Terminates(strv, elemLen, k, m, t)
      decreases last - num
    {
      OffsetMonotone(num, last, elemLen);
      var i := 0;
      while i < m && strv[p + i] == t
        invariant 0 <= i <= m && p + m <= |strv|
        invariant forall k | p <= k < p + i :: strv[k] == t
      {
        i := i + 1;
      }
      if i == m {
        return;
      }
      p := p + i + (elemLen - i);
      num := num + 1;
    }
  }
}
