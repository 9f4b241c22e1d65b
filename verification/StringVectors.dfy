/** Vectors of strings of a fixed width, as values: the layout C uses (each
    element one byte wider, terminated) and the layout Fortran uses (each element
    padded with blanks). */
module StringVectors {
  import opened CBuffer

  /** Elements one behind the other. */
  function Flat(es: seq<string>): string {
    if es == [] then "" else Flat(es[..|es| - 1]) + es[|es| - 1]
  }

  predicate Wide(es: seq<string>, w: nat) { forall i | 0 <= i < |es| :: |es[i]| == w }

  /** Where element i starts: i times the width. */
  function Offset(i: nat, w: nat): nat {
    if i == 0 then 0 else Offset(i - 1, w) + w
  }

  lemma {:induction false} OffsetIs(i: nat, w: nat)
    ensures Offset(i, w) == i * w
  {
    if i > 0 {
      OffsetIs(i - 1, w);
      assert i * w == (i - 1) * w + w;
    }
  }

  lemma {:induction false} FlatLength(es: seq<string>, w: nat)
    requires Wide(es, w)
    ensures |Flat(es)| == Offset(|es|, w)
  {
    if es != [] {
      FlatLength(es[..|es| - 1], w);
    }
  }

  lemma {:induction false} NextElement(i: nat, n: nat, w: nat)
    ensures i < n ==> Offset(i, w) + w <= Offset(n, w)
  {
    if i + 1 < n {
      NextElement(i, n - 1, w);
    }
  }

  lemma {:induction false} OffsetSum(a: nat, b: nat, w: nat)
    ensures Offset(a + b, w) == Offset(a, w) + Offset(b, w)
  {
    if b > 0 {
      OffsetSum(a, b - 1, w);
    }
  }

  lemma {:induction false} FlatHead(es: seq<string>)
    requires es != []
    ensures Flat(es) == es[0] + Flat(es[1..])
  {
    if |es| > 1 {
      var init := es[..|es| - 1];
      FlatHead(init);
      assert init[1..] == es[1..][..|es| - 2] && es[1..][|es| - 2] == es[|es| - 1];
      assert es[0] + Flat(init[1..]) + es[|es| - 1] == es[0] + (Flat(init[1..]) + es[|es| - 1]);
    }
  }

  /** Element i of a vector of elements of width w. */
  function Element(v: string, w: nat, i: nat): string {
    if Offset(i, w) + w <= |v| then v[Offset(i, w)..Offset(i, w) + w] else ""
  }

  function Elements(v: string, w: nat, n: nat): seq<string> { seq(n, i requires 0 <= i < n => Element(v, w, i)) }

  lemma {:induction false} FlatElement(es: seq<string>, w: nat, i: nat)
    requires Wide(es, w) && i < |es|
    ensures Element(Flat(es), w, i) == es[i]
  {
    var init := es[..|es| - 1];
    FlatLength(es, w);
    FlatLength(init, w);
    NextElement(i, |es|, w);
    if i < |init| {
      NextElement(i, |init|, w);
      FlatElement(init, w, i);
      assert Flat(es)[Offset(i, w)..Offset(i, w) + w] == Flat(init)[Offset(i, w)..Offset(i, w) + w];
    }
  }

  lemma FlatElements(es: seq<string>, w: nat)
    requires Wide(es, w)
    ensures Elements(Flat(es), w, |es|) == es
  {
    forall i | 0 <= i < |es| ensures Element(Flat(es), w, i) == es[i] {
      FlatElement(es, w, i);
    }
  }

  lemma {:induction false} ElementsFlat(v: string, w: nat, n: nat)
    requires |v| == Offset(n, w)
    ensures Flat(Elements(v, w, n)) == v
    decreases n
  {
    if n > 0 {
      var u := FrontOf(v, w, n - 1);
      ElementsFlat(u, w, n - 1);
      ElementsOfFront(v, u, w, n - 1);
      LastFlat(Elements(v, w, n), n - 1);
    }
  }

  /** Everything but the last element. */
  lemma FrontOf(v: string, w: nat, n: nat) returns (u: string)
    requires |v| == Offset(n + 1, w)
    ensures Offset(n, w) <= |v| && u == v[..Offset(n, w)] && |u| == Offset(n, w) && v == u + Elements(v, w, n + 1)[n]
  {
    u := v[..Offset(n, w)];
    NextElement(n, n + 1, w);
  }

  lemma LastFlat(es: seq<string>, n: nat)
    requires |es| == n + 1
    ensures Flat(es) == Flat(es[..n]) + es[n]
  {
  }

  lemma ElementsOfFront(v: string, u: string, w: nat, n: nat)
    requires |u| == Offset(n, w) <= |v| && u == v[..Offset(n, w)]
    ensures Elements(v, w, n + 1)[..n] == Elements(u, w, n)
  {
    forall i | 0 <= i < n ensures Element(v, w, i) == Element(u, w, i) {
      NextElement(i, n, w);
    }
  }

  // ---------------------------------------------------------------- one element

  function Blanks(n: nat): string { seq(n, _ => ' ') }

  /** The C string of an element whose last byte is for the terminator. */
  function Text(e: string): (t: string)
    ensures e != "" ==> |t| < |e|
    ensures '\0' !in t
  {
    if e == "" then ""
    else
      var useful := e[..|e| - 1];
      useful[..CLen(useful)]
  }

  /** The Fortran element of a C element: its string, padded with blanks. */
  function ToFortran(e: string): (f: string)
    ensures e != "" ==> |f| == |e| - 1
  {
    if e == "" then "" else Text(e) + Blanks(|e| - 1 - |Text(e)|)
  }

  function ToC(f: string): string { f + ['\0'] }

  /** A string without its trailing t's. */
  function Trim(s: string, t: char): (r: string)
    ensures r <= s && (r == "" || r[|r| - 1] != t) && forall i | |r| <= i < |s| :: s[i] == t
  {
    if s == "" || s[|s| - 1] != t then s else Trim(s[..|s| - 1], t)
  }

  lemma TrimIs(s: string, t: char, n: nat)
    requires n <= |s| && (n == 0 || s[n - 1] != t) && forall i | n <= i < |s| :: s[i] == t
    ensures Trim(s, t) == s[..n]
  {
  }

  /** An element cut at its trailing t's. */
  function Chopped(e: string, t: char): (r: string)
    ensures |r| == |e|
  {
    if e == "" then ""
    else
      var n := |Trim(e[..|e| - 1], t)|;
      e[n := '\0']
  }

  lemma TextIs(e: string, n: nat)
    requires n < |e| && (forall i | 0 <= i < n :: e[i] != '\0') && (n < |e| - 1 ==> e[n] == '\0')
    ensures Text(e) == e[..n]
  {
    CLenIs(e[..|e| - 1], n);
  }

  /** Chopping the C form of a NUL-free element leaves its string without the
      trailing t's. */
  lemma ChoppedText(f: string, t: char)
    requires '\0' !in f
    ensures Text(Chopped(ToC(f), t)) == Trim(f, t)
  {
    var e, n := ToC(f), |Trim(f, t)|;
    assert e[..|e| - 1] == f;
    TextIs(Chopped(e, t), n);
    assert Chopped(e, t)[..n] == f[..n];
  }

  /** Out to Fortran and back, trimmed: the string without its trailing blanks. */
  lemma TrimmedBack(e: string)
    requires e != ""
    ensures Text(Chopped(ToC(ToFortran(e)), ' ')) == Trim(Text(e), ' ')
  {
    ChoppedText(ToFortran(e), ' ');
    TrimPadded(Text(e), |e| - 1 - |Text(e)|);
  }

  /** Trimming takes off the blanks a string is padded with. */
  lemma TrimPadded(x: string, n: nat)
    ensures Trim(x + Blanks(n), ' ') == Trim(x, ' ')
  {
    var f, r := x + Blanks(n), Trim(x, ' ');
    TrimIs(f, ' ', |r|);
    assert f[..|r|] == r;
  }

  lemma TrimSame(s: string, t: char)
    ensures Trim(s, t) == s <==> s == "" || s[|s| - 1] != t
  {
  }

  lemma TextWhole(e: string)
    requires e != ""
    ensures CStringAt(e, 0) == e[..CLen(e)]
    ensures Text(e) == CStringAt(e, 0) <==> CLen(e) < |e|
  {
    assert e[0..] == e;
    if CLen(e) < |e| {
      TextIs(e, CLen(e));
    }
  }

  /** So the string comes back exactly when it fits and does not end in a blank. */
  lemma ElementBack(e: string)
    requires e != ""
    ensures Text(Chopped(ToC(ToFortran(e)), ' ')) == CStringAt(e, 0) <==>
              CLen(e) < |e| && (CLen(e) == 0 || e[CLen(e) - 1] != ' ')
  {
    TrimmedBack(e);
    TextWhole(e);
    SameOrShorter(e, Text(e), CLen(e));
  }

  lemma SameOrShorter(e: string, x: string, n: nat)
    requires |x| < |e| && n <= |e| && (x == e[..n] <==> n < |e|)
    ensures Trim(x, ' ') == e[..n] <==> n < |e| && (n == 0 || e[n - 1] != ' ')
  {
    TrimSame(x, ' ');
  }

  /** In from Fortran, trimmed or not, and out again: unchanged exactly when the
      element holds no NUL. */
  lemma FortranBack(f: string)
    ensures ToFortran(ToC(f)) == f <==> '\0' !in f
    ensures ToFortran(Chopped(ToC(f), ' ')) == f <==> '\0' !in f
  {
    var e := ToC(f);
    assert e[..|e| - 1] == f;
    if '\0' !in f {
      TextIs(e, |f|);
      ChoppedText(f, ' ');
    } else {
      assert '\0' !in ToFortran(e) && '\0' !in ToFortran(Chopped(e, ' '));
    }
  }

  // --------------------------------------------------------------- whole vectors

  function FortranElements(c: string, width: nat, n: nat): seq<string> {
    seq(n, i requires 0 <= i < n => ToFortran(Element(c, width, i)))
  }

  function CElements(f: string, width: nat, n: nat): seq<string>
    requires width > 0
  {
    seq(n, i requires 0 <= i < n => ToC(Element(f, width - 1, i)))
  }

  function ChoppedElements(c: string, width: nat, n: nat, t: char): seq<string> {
    seq(n, i requires 0 <= i < n => Chopped(Element(c, width, i), t))
  }

  /** c2fstrv: n C elements of width bytes, as a Fortran vector. */
  function VectorToFortran(c: string, width: nat, n: nat): string { Flat(FortranElements(c, width, n)) }

  /** f2cstrv: the other way. */
  function VectorToC(f: string, width: nat, n: nat): string
    requires width > 0
  {
    Flat(CElements(f, width, n))
  }

  /** vkill_trailing. */
  function VectorChopped(c: string, width: nat, n: nat, t: char): string { Flat(ChoppedElements(c, width, n, t)) }

  lemma ElementWidth(v: string, w: nat, n: nat, i: nat)
    requires Offset(n, w) <= |v| && i < n
    ensures Offset(i, w) + w <= |v| && |Element(v, w, i)| == w
  {
    NextElement(i, n, w);
  }

  lemma FortranVector(c: string, width: nat, n: nat)
    requires width > 0 && Offset(n, width) <= |c|
    ensures |VectorToFortran(c, width, n)| == Offset(n, width - 1)
    ensures Elements(VectorToFortran(c, width, n), width - 1, n) == FortranElements(c, width, n)
  {
    var es := FortranElements(c, width, n);
    forall i | 0 <= i < n ensures |es[i]| == width - 1 {
      ElementWidth(c, width, n, i);
    }
    FlatLength(es, width - 1);
    FlatElements(es, width - 1);
  }

  lemma CVector(f: string, width: nat, n: nat)
    requires width > 0 && Offset(n, width - 1) <= |f|
    ensures |VectorToC(f, width, n)| == Offset(n, width)
    ensures Elements(VectorToC(f, width, n), width, n) == CElements(f, width, n)
  {
    var es := CElements(f, width, n);
    forall i | 0 <= i < n ensures |es[i]| == width {
      ElementWidth(f, width - 1, n, i);
    }
    FlatLength(es, width);
    FlatElements(es, width);
  }

  lemma ChoppedVector(c: string, width: nat, n: nat, t: char)
    requires Offset(n, width) <= |c|
    ensures |VectorChopped(c, width, n, t)| == Offset(n, width)
    ensures Elements(VectorChopped(c, width, n, t), width, n) == ChoppedElements(c, width, n, t)
  {
    var es := ChoppedElements(c, width, n, t);
    forall i | 0 <= i < n ensures |es[i]| == width {
      ElementWidth(c, width, n, i);
    }
    FlatLength(es, width);
    FlatElements(es, width);
  }

  /** Out to Fortran and back, trimmed: element i holds its C string again exactly
      when that string fits and does not end in a blank. */
  lemma CVectorBack(c: string, width: nat, n: nat, i: nat)
    requires width > 0 && Offset(n, width) <= |c| && i < n
    ensures var e, f := Element(c, width, i), VectorToFortran(c, width, n);
            var back := Element(VectorChopped(VectorToC(f, width, n), width, n, ' '), width, i);
            Text(back) == CStringAt(e, 0) <==> CLen(e) < |e| && (CLen(e) == 0 || e[CLen(e) - 1] != ' ')
  {
    ElementOfBack(c, width, n, i);
    ElementWidth(c, width, n, i);
    ElementBack(Element(c, width, i));
  }

  lemma ElementOfBack(c: string, width: nat, n: nat, i: nat)
    requires width > 0 && Offset(n, width) <= |c| && i < n
    ensures var f := VectorToFortran(c, width, n);
            Element(VectorChopped(VectorToC(f, width, n), width, n, ' '), width, i) == Chopped(ToC(ToFortran(Element(c, width, i))), ' ')
  {
    var f := VectorToFortran(c, width, n);
    var d := VectorToC(f, width, n);
    FortranVector(c, width, n);
    CVector(f, width, n);
    ChoppedVector(d, width, n, ' ');
    assert Element(f, width - 1, i) == Elements(f, width - 1, n)[i];
    assert Element(d, width, i) == Elements(d, width, n)[i];
    assert Element(VectorChopped(d, width, n, ' '), width, i) == Elements(VectorChopped(d, width, n, ' '), width, n)[i];
  }

  /** In from Fortran, trimmed, and out again: every vector without a NUL comes
      back unchanged, and no other. */
  lemma FortranVectorBack(f: string, width: nat, n: nat)
    requires width > 0 && |f| == Offset(n, width - 1)
    ensures VectorToFortran(VectorChopped(VectorToC(f, width, n), width, n, ' '), width, n) == f <==> '\0' !in f
    ensures VectorToFortran(VectorToC(f, width, n), width, n) == f <==> '\0' !in f
  {
    var d := VectorToC(f, width, n);
    CVector(f, width, n);
    ChoppedVector(d, width, n, ' ');
    forall i | 0 <= i < n
      ensures ToFortran(Element(d, width, i)) == Element(f, width - 1, i) <==> '\0' !in Element(f, width - 1, i)
      ensures ToFortran(Element(VectorChopped(d, width, n, ' '), width, i)) == Element(f, width - 1, i) <==> '\0' !in Element(f, width - 1, i)
    {
      assert Element(d, width, i) == Elements(d, width, n)[i];
      assert Element(VectorChopped(d, width, n, ' '), width, i) == Elements(VectorChopped(d, width, n, ' '), width, n)[i];
      FortranBack(Element(f, width - 1, i));
    }
    SameVector(f, d, width, n);
    SameVector(f, VectorChopped(d, width, n, ' '), width, n);
  }

  lemma SameVector(f: string, c: string, width: nat, n: nat)
    requires width > 0 && |f| == Offset(n, width - 1) && Offset(n, width) <= |c|
    requires forall i | 0 <= i < n ::
               ToFortran(Element(c, width, i)) == Element(f, width - 1, i) <==> '\0' !in Element(f, width - 1, i)
    ensures VectorToFortran(c, width, n) == f <==> '\0' !in f
  {
    if '\0' !in f {
      var w := width - 1;
      forall i | 0 <= i < n ensures '\0' !in Element(f, w, i) {
        assert forall x <- Element(f, w, i) :: x in f;
      }
      assert FortranElements(c, width, n) == Elements(f, width - 1, n);
      ElementsFlat(f, width - 1, n);
    } else {
      forall e | e in FortranElements(c, width, n) ensures '\0' !in e {
        assert forall i | 0 <= i < n :: '\0' !in ToFortran(Element(c, width, i));
      }
      FlatNoNul(FortranElements(c, width, n));
    }
  }

  lemma {:induction false} FlatNoNul(es: seq<string>)
    requires forall e <- es :: '\0' !in e
    ensures '\0' !in Flat(es)
  {
    if es != [] {
      FlatNoNul(es[..|es| - 1]);
    }
  }

  // ------------------------------------------------------------- byte by byte

  lemma ElementByte(v: string, w: nat, n: nat, i: nat, k: nat, e: string, at: nat)
    requires Offset(n, w) <= |v| && i < n && k < w && e == Element(v, w, i) && at == Offset(i, w)
    ensures at + w <= |v| && |e| == w && e[k] == v[at + k] && e == v[at..at + w]
  {
    ElementWidth(v, w, n, i);
  }

  /** The products, once and for all. */
  lemma Places(n: nat, i: nat, w: nat, at: nat)
    requires at == i * w
    ensures Offset(n, w) == n * w && Offset(i, w) == at
  {
    OffsetIs(n, w);
    OffsetIs(i, w);
  }

  predicate HasNul(s: string, lo: nat, hi: nat) { exists j | lo <= j < hi && j < |s| :: s[j] == '\0' }

  predicate Only(s: string, lo: nat, hi: nat, t: char) { forall j | lo <= j < hi && j < |s| :: s[j] == t }

  lemma FortranByte(e: string, k: nat)
    requires k + 1 < |e|
    ensures ToFortran(e)[k] == if HasNul(e, 0, k + 1) then ' ' else e[k]
  {
    var useful := e[..|e| - 1];
    var n := CLen(useful);
    if k < n {
      assert forall j | 0 <= j <= k :: useful[j] == e[j];
    } else if n < |useful| {
      assert useful[n] == e[n] == '\0';
    }
  }

  lemma NulThere(c: string, at: nat, e: string, k: nat)
    requires k <= |e| && at + |e| <= |c| && e == c[at..at + |e|]
    ensures HasNul(e, 0, k) <==> HasNul(c, at, at + k)
  {
    if j :| at <= j < at + k && j < |c| && c[j] == '\0' {
      assert e[j - at] == c[j];
    }
    if j :| 0 <= j < k && j < |e| && e[j] == '\0' {
      assert c[at + j] == e[j];
    }
  }

  lemma OnlyThere(c: string, at: nat, e: string, lo: nat, hi: nat, t: char)
    requires lo <= hi <= |e| && at + |e| <= |c| && e == c[at..at + |e|]
    ensures Only(e, lo, hi, t) <==> Only(c, at + lo, at + hi, t)
  {
    if Only(e, lo, hi, t) {
      forall j | at + lo <= j < at + hi && j < |c| ensures c[j] == t {
        assert e[j - at] == c[j];
      }
    }
    if Only(c, at + lo, at + hi, t) {
      forall j | lo <= j < hi && j < |e| ensures e[j] == t {
        assert c[at + j] == e[j];
      }
    }
  }

  lemma FortranElementAt(c: string, width: nat, n: nat, i: nat, at: nat, to: nat) returns (e: string)
    requires width > 1 && Offset(n, width) <= |c| && i < n && at == Offset(i, width) && to == Offset(i, width - 1)
    ensures at + width <= |c| && e == c[at..at + width]
    ensures |VectorToFortran(c, width, n)| == Offset(n, width - 1) && to + width - 1 <= |VectorToFortran(c, width, n)|
    ensures ToFortran(e) == VectorToFortran(c, width, n)[to..to + (width - 1)]
  {
    FortranVector(c, width, n);
    e := Element(c, width, i);
    ElementByte(c, width, n, i, 0, e, at);
    assert Elements(VectorToFortran(c, width, n), width - 1, n)[i] == ToFortran(e);
    ElementByte(VectorToFortran(c, width, n), width - 1, n, i, 0, ToFortran(e), to);
  }

  /** c2fstrv, byte by byte: element i of the result holds the string of element i of the
      source up to its NUL or its last byte but one, and then blanks. */
  lemma FortranBytes(c: string, width: nat, n: nat, i: nat, k: nat, at: nat, to: nat)
    requires width > 0 && n * width <= |c| && i < n && k < width - 1 && at == i * width && to == i * (width - 1)
    ensures |VectorToFortran(c, width, n)| == n * (width - 1) && to + k < |VectorToFortran(c, width, n)| && at + width <= |c|
    ensures VectorToFortran(c, width, n)[to + k] == if HasNul(c, at, at + k + 1) then ' ' else c[at + k]
  {
    Places(n, i, width, at);
    Places(n, i, width - 1, to);
    var e := FortranElementAt(c, width, n, i, at, to);
    assert VectorToFortran(c, width, n)[to + k] == ToFortran(e)[k];
    FortranThere(c, at, e, k);
  }

  lemma FortranThere(c: string, at: nat, e: string, k: nat)
    requires k + 1 < |e| && at + |e| <= |c| && e == c[at..at + |e|]
    ensures ToFortran(e)[k] == if HasNul(c, at, at + k + 1) then ' ' else c[at + k]
  {
    FortranByte(e, k);
    NulThere(c, at, e, k + 1);
    assert e[k] == c[at + k];
  }

  lemma CElementAt(f: string, width: nat, n: nat, i: nat, at: nat, to: nat) returns (e: string)
    requires width > 0 && Offset(n, width - 1) <= |f| && i < n && at == Offset(i, width - 1) && to == Offset(i, width)
    ensures at + width - 1 <= |f| && e == f[at..at + (width - 1)]
    ensures |VectorToC(f, width, n)| == Offset(n, width) && to + width <= |VectorToC(f, width, n)|
    ensures ToC(e) == VectorToC(f, width, n)[to..to + width]
  {
    CVector(f, width, n);
    e := Element(f, width - 1, i);
    ElementWidth(f, width - 1, n, i);
    assert Elements(VectorToC(f, width, n), width, n)[i] == ToC(e);
    ElementByte(VectorToC(f, width, n), width, n, i, 0, ToC(e), to);
  }

  /** f2cstrv, byte by byte: every element with a NUL behind it. */
  lemma CBytes(f: string, width: nat, n: nat, i: nat, k: nat, at: nat, to: nat)
    requires width > 0 && n * (width - 1) <= |f| && i < n && k < width && at == i * (width - 1) && to == i * width
    ensures |VectorToC(f, width, n)| == n * width && to + k < |VectorToC(f, width, n)| && (k < width - 1 ==> at + k < |f|)
    ensures VectorToC(f, width, n)[to + k] == if k == width - 1 then '\0' else f[at + k]
  {
    Places(n, i, width, to);
    Places(n, i, width - 1, at);
    var e := CElementAt(f, width, n, i, at, to);
    assert VectorToC(f, width, n)[to + k] == ToC(e)[k];
  }

  lemma ChoppedByte(e: string, t: char, k: nat)
    requires k < |e|
    ensures Chopped(e, t)[k] == if Only(e, k, |e| - 1, t) && (k == 0 || e[k - 1] != t) then '\0' else e[k]
  {
    var x := e[..|e| - 1];
    if Only(e, k, |e| - 1, t) && (k == 0 || e[k - 1] != t) {
      TrimIs(x, t, k);
    } else {
      var m := |Trim(x, t)|;
      assert forall j | m <= j < |x| :: e[j] == x[j];
    }
  }

  /** vkill_trailing, byte by byte: in each element one NUL, where only the given
      character follows up to the last byte, and nothing else changes. */
  lemma ChoppedBytes(c: string, width: nat, n: nat, t: char, i: nat, k: nat, at: nat)
    requires n * width <= |c| && i < n && k < width && at == i * width
    ensures |VectorChopped(c, width, n, t)| == n * width && at + k < |VectorChopped(c, width, n, t)| && at + width <= |c|
    ensures VectorChopped(c, width, n, t)[at + k]
         == if Only(c, at + k, at + width - 1, t) && (k == 0 || c[at + k - 1] != t) then '\0' else c[at + k]
  {
    Places(n, i, width, at);
    ChoppedVector(c, width, n, t);
    var v, e := VectorChopped(c, width, n, t), Element(c, width, i);
    ElementByte(c, width, n, i, k, e, at);
    assert Elements(v, width, n)[i] == Chopped(e, t);
    ElementByte(v, width, n, i, k, Chopped(e, t), at);
    ChoppedThere(c, at, e, k, t);
  }

  lemma ChoppedThere(c: string, at: nat, e: string, k: nat, t: char)
    requires k < |e| && at + |e| <= |c| && e == c[at..at + |e|]
    ensures Chopped(e, t)[k] == if Only(c, at + k, at + |e| - 1, t) && (k == 0 || c[at + k - 1] != t) then '\0' else c[at + k]
  {
    ChoppedByte(e, t, k);
    OnlyThere(c, at, e, k, |e| - 1, t);
    assert e[k] == c[at + k] && (k > 0 ==> e[k - 1] == c[at + (k - 1)]);
  }
}
