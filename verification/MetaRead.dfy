/** EHgetmetavalue in terms of the printed lines: what a lookup between two
    pointers, and a row of lookups on the pointer it moves, reads. */
module MetaRead {
  import opened CText
  import opened OdlLines
  import opened OdlCount
  import opened MetaTree
  import opened MetaLines
  import opened MetaLookup

  /** Where a pointer stands in a run of lines: in the head of a line, with so many
      of its characters ahead, or in the value of a line. */
  datatype Cursor = InHead(line: nat, left: nat) | InVal(line: nat, col: nat)

  predicate OnLine(l: Line, c: Cursor) {
    match c case InHead(_, n) => n <= |Head(l)| case InVal(_, q) => q <= |l.val|
  }

  /** Where in the line's value the search goes on. */
  function ValueFrom(c: Cursor): nat { if c.InVal? then c.col else 0 }

  predicate On(ls: seq<Line>, c: Cursor) {
    c.line < |ls| && OnLine(ls[c.line], c)
  }

  function Offset(ls: seq<Line>, c: Cursor): nat
    requires On(ls, c)
  {
    |Text(ls[..c.line])| + InLine(ls[c.line], c)
  }

  function InLine(l: Line, c: Cursor): nat
    requires c.InHead? ==> c.left <= |Head(l)|
  {
    match c case InHead(_, n) => |Head(l)| - n case InVal(_, q) => |Head(l)| + 1 + q
  }

  /** The key that is still ahead in the cursor's own line. */
  predicate KeyAhead(l: Line, c: Cursor, key: string) { c.InHead? && |key| <= c.left && EndsWith(l.key, key) }

  /** The lookup on the lines: the first line from the cursor on whose key ends with
      the key, or whose value holds the key and an equals sign. */
  function ReadOn(ls: seq<Line>, c: Cursor, key: string): (r: Option<(Cursor, string)>)
    requires On(ls, c)
    ensures r.Some? ==> On(ls, r.value.0) && r.value.0.line >= c.line
    decreases |ls| - c.line
  {
    var l := ls[c.line];
    if KeyAhead(l, c, key) then Some((InHead(c.line, |key|), l.val))
    else match StrStr(l.val, key + "=", ValueFrom(c))
      case At(q) => Some((InVal(c.line, q), l.val[q + |key| + 1..]))
      case Null => if c.line + 1 < |ls| then ReadOn(ls, LineStart(ls, c.line + 1), key) else None
  }

  function LineStart(ls: seq<Line>, i: nat): (c: Cursor)
    requires i < |ls|
    ensures On(ls, c)
  {
    InHead(i, |Head(ls[i])|)
  }

  lemma ReadLine(ls: seq<Line>, i: nat, key: string)
    requires i < |ls| && EndsWith(ls[i].key, key)
    ensures ReadOn(ls, LineStart(ls, i), key) == Some((InHead(i, |key|), ls[i].val))
  {
  }

  lemma ReadHeld(ls: seq<Line>, c: Cursor, key: string, q: nat)
    requires On(ls, c) && !KeyAhead(ls[c.line], c, key) && StrStr(ls[c.line].val, key + "=", ValueFrom(c)) == At(q)
    ensures q + |key| + 1 <= |ls[c.line].val| && ReadOn(ls, c, key) == Some((InVal(c.line, q), ls[c.line].val[q + |key| + 1..]))
  {
    HeldInside(ls[c.line].val, key, ValueFrom(c), q);
    HeldIs(ls, c, key, q, ls[c.line], ls[c.line].val[q + |key| + 1..]);
  }

  lemma HeldIs(ls: seq<Line>, c: Cursor, key: string, q: nat, l: Line, v: string)
    requires On(ls, c) && l == ls[c.line] && !KeyAhead(l, c, key) && StrStr(l.val, key + "=", ValueFrom(c)) == At(q)
    requires q + |key| + 1 <= |l.val| && v == l.val[q + |key| + 1..]
    ensures ReadOn(ls, c, key) == Some((InVal(c.line, q), v))
  {
  }

  lemma HeldInside(v: string, key: string, from: nat, q: nat)
    requires from <= |v| && StrStr(v, key + "=", from) == At(q)
    ensures q + |key| + 1 <= |v|
  {
  }

  lemma ReadNext(ls: seq<Line>, c: Cursor, key: string)
    requires On(ls, c) && !KeyAhead(ls[c.line], c, key) && StrStr(ls[c.line].val, key + "=", ValueFrom(c)).Null? && c.line + 1 < |ls|
    ensures ReadOn(ls, c, key) == ReadOn(ls, LineStart(ls, c.line + 1), key)
  {
  }

  /** A lookup goes through the first lines, and then on. */
  lemma {:induction false} ReadCat(a: seq<Line>, b: seq<Line>, c: Cursor, key: string)
    requires On(a, c) && b != []
    ensures On(a + b, c)
    ensures ReadOn(a + b, c, key)
         == if ReadOn(a, c, key).Some? then ReadOn(a, c, key) else ReadOn(a + b, LineStart(a + b, |a|), key)
    decreases |a| - c.line
  {
    assert (a + b)[c.line] == a[c.line];
    if !KeyAhead(a[c.line], c, key) && StrStr(a[c.line].val, key + "=", ValueFrom(c)).Null? && c.line + 1 < |a| {
      assert (a + b)[c.line + 1] == a[c.line + 1];
      ReadCat(a, b, LineStart(a, c.line + 1), key);
    }
  }

  predicate Shorter(ls: seq<Line>, n: nat) { forall l <- ls :: |l.val| < n }

  /** What is read is the end of a value. */
  lemma {:induction false} ReadShort(ls: seq<Line>, c: Cursor, key: string, n: nat)
    requires On(ls, c) && ReadOn(ls, c, key).Some? && Shorter(ls, n)
    ensures |ReadOn(ls, c, key).value.1| < n
    decreases |ls| - c.line
  {
    var l := ls[c.line];
    assert l in ls;
    if KeyAhead(l, c, key) {
    } else if StrStr(l.val, key + "=", ValueFrom(c)).At? {
      ReadHeld(ls, c, key, StrStr(l.val, key + "=", ValueFrom(c)).pos);
    } else {
      ReadNext(ls, c, key);
      ReadShort(ls, LineStart(ls, c.line + 1), key, n);
    }
  }

  // ------------------------------------------------------------- inside one line

  function Len(l: Line): nat { |Head(l)| + |l.val| + 2 }

  /** Where in a line a key stands before an equals sign. */
  predicate KeyAt(l: Line, key: string, q: nat) {
    if q <= |Head(l)| then EndsWith(l.key, key) && q + |key| == |Head(l)| else OccursAt(l.val, key + "=", q - |Head(l)| - 1)
  }

  predicate Meets(t: string, at: nat, l: Line, key: string, q: nat) {
    OccursAt(t, key + "=", at + q) <==> KeyAt(l, key, q)
  }

  predicate EndsAt(t: string, at: nat, l: Line, q: nat)
    requires at + q <= |t|
  {
    StrChr(t, '\n', at + q) == At(at + Len(l) - 1)
  }

  predicate TailAt(t: string, at: nat, l: Line, q: nat)
    requires at + Len(l) <= |t| && q <= |l.val|
  {
    t[at + |Head(l)| + 1 + q..at + Len(l) - 1] == l.val[q..]
  }

  /** The text holds the line at this place. */
  ghost predicate LineAt(t: string, at: nat, l: Line, key: string) {
    && at + Len(l) <= |t|
    && (forall q: nat :: q < Len(l) ==> Meets(t, at, l, key, q))
    && (forall q: nat :: q < Len(l) ==> EndsAt(t, at, l, q))
    && (forall q: nat :: q <= |l.val| ==> TailAt(t, at, l, q))
  }

  /** A key that starts in the head of a line ends at its equals sign. */
  lemma KeyInHead(t: string, front: string, l: Line, back: string, key: string, x: nat)
    requires t == front + LineText(l) + back && Shaped(l) && KeyOk(key) && |front| <= x <= |front| + |Head(l)|
    ensures OccursAt(t, key + "=", x) <==> EndsWith(l.key, key) && x + |key| == |front| + |Head(l)|
  {
    var e := |front| + |Head(l)|;
    if x + |key| == e {
      KeyBefore(t, front, l, back, key, x);
      HeadEnds(l, key, x - |front|);
    } else {
      SignAt(t, front, l, back);
      OccursIdx(t, key + "=", x, e);
      OccursIdx(t, key + "=", x, x + |key|);
    }
  }

  lemma SignAt(t: string, front: string, l: Line, back: string)
    requires t == front + LineText(l) + back && Shaped(l)
    ensures |front| + |Head(l)| < |t| && t[|front| + |Head(l)|] == '='
    ensures forall m | |front| <= m < |front| + |Head(l)| :: t[m] != '='
  {
    LineChars(l);
    assert forall m | 0 <= m < |LineText(l)| :: t[|front| + m] == LineText(l)[m];
    forall m | |front| <= m < |front| + |Head(l)| ensures t[m] != '=' {
      assert t[|front| + (m - |front|)] == LineText(l)[m - |front|];
    }
  }

  lemma KeyBefore(t: string, front: string, l: Line, back: string, key: string, x: nat)
    requires t == front + LineText(l) + back && Shaped(l) && |front| <= x && x + |key| == |front| + |Head(l)|
    ensures OccursAt(t, key + "=", x) <==> Head(l)[x - |front|..] == key
  {
    var e := |front| + |Head(l)|;
    SplitAtHead(front, l, back);
    SignAt(t, front, l, back);
    assert t[x..e] == Head(l)[x - |front|..];
    assert t[x..e + 1] == t[x..e] + "=";
    SameEnd(t[x..e], key, '=');
  }

  lemma HeadEnds(l: Line, key: string, q: nat)
    requires Shaped(l) && KeyOk(key) && q + |key| == |Head(l)|
    ensures Head(l)[q..] == key <==> EndsWith(l.key, key)
  {
    AlignedPlain(l, key, "");
  }

  lemma SameEnd(a: string, b: string, c: char)
    requires |a| == |b|
    ensures a + [c] == b + [c] <==> a == b
  {
    if a + [c] == b + [c] {
      assert (a + [c])[..|a|] == (b + [c])[..|b|];
    }
  }

  lemma LineEnd(t: string, front: string, l: Line, back: string, x: nat)
    requires t == front + LineText(l) + back && Shaped(l) && |front| <= x < |front| + Len(l)
    ensures StrChr(t, '\n', x) == At(|front| + Len(l) - 1)
  {
    LineChars(l);
    var line, nl := LineText(l), |front| + Len(l) - 1;
    forall y: nat | x <= y < nl ensures t[y] != '\n' {
      assert t[y] == line[y - |front|];
    }
    assert t[nl] == line[|line| - 1];
    StrChrIs(t, '\n', x, nl);
  }

  lemma ValueTail(t: string, front: string, l: Line, back: string, q: nat)
    requires t == front + LineText(l) + back && q <= |l.val|
    ensures t[|front| + |Head(l)| + 1 + q..|front| + Len(l) - 1] == l.val[q..]
  {
    assert t == (front + Head(l) + "=") + l.val + ("\n" + back);
  }

  lemma LineIn(t: string, front: string, l: Line, back: string, key: string)
    requires t == front + LineText(l) + back && Shaped(l) && KeyOk(key)
    ensures LineAt(t, |front|, l, key)
  {
    forall q: nat | q < Len(l) ensures Meets(t, |front|, l, key, q) {
      MeetsIs(t, front, l, back, key, q);
    }
    forall q: nat | q < Len(l) ensures EndsAt(t, |front|, l, q) {
      LineEnd(t, front, l, back, |front| + q);
    }
    forall q: nat | q <= |l.val| ensures TailAt(t, |front|, l, q) {
      ValueTail(t, front, l, back, q);
    }
  }

  lemma MeetsIs(t: string, front: string, l: Line, back: string, key: string, q: nat)
    requires t == front + LineText(l) + back && Shaped(l) && KeyOk(key) && q < Len(l)
    ensures Meets(t, |front|, l, key, q)
  {
    if q <= |Head(l)| {
      KeyInHead(t, front, l, back, key, |front| + q);
    } else {
      WordInVal(front, l, back, key + "=", |front| + q);
    }
  }

  /** From one place in a line to another, no key. */
  predicate NoKeyIn(l: Line, key: string, from: nat, to: nat) { forall x: nat :: from <= x < to ==> !KeyAt(l, key, x) }

  lemma NoneFound(t: string, at: nat, l: Line, key: string, from: nat, to: nat)
    requires LineAt(t, at, l, key) && from <= to <= Len(l) && NoKeyIn(l, key, from, to)
    ensures forall x: nat | at + from <= x < at + to :: !OccursAt(t, key + "=", x)
  {
    forall x: nat | at + from <= x < at + to ensures !OccursAt(t, key + "=", x) {
      assert Meets(t, at, l, key, x - at) && !KeyAt(l, key, x - at);
    }
  }

  lemma SearchHere(t: string, at: nat, l: Line, key: string, from: nat, q: nat)
    requires LineAt(t, at, l, key) && from <= q < Len(l) && KeyAt(l, key, q) && NoKeyIn(l, key, from, q)
    ensures StrStr(t, key + "=", at + from) == At(at + q)
  {
    NoneFound(t, at, l, key, from, q);
    assert Meets(t, at, l, key, q);
    StrStrIs(t, key + "=", at + from, at + q);
  }

  lemma FoundIs(t: string, from: nat, p: nat, nl: nat, key: string, end: nat, v: string)
    requires from <= |t| && StrStr(t, key + "=", from) == At(p) && p < end
    requires p <= |t| && StrChr(t, '\n', p) == At(nl) && p + |key| + 1 <= nl && t[p + |key| + 1..nl] == v
    ensures ValueBetween(t, from, At(end), key) == Found(p, v)
  {
  }

  /** The lookup that meets the key in this line. */
  lemma ReadHere(t: string, at: nat, l: Line, key: string, from: nat, q: nat, end: nat, v: nat, beg: nat, pos: nat)
    requires LineAt(t, at, l, key) && from <= q && KeyAt(l, key, q) && NoKeyIn(l, key, from, q) && at + Len(l) <= end
    requires v <= |l.val| && q + |key| == |Head(l)| + v && beg == at + from && pos == at + q
    ensures beg <= |t| && ValueBetween(t, beg, At(end), key) == Found(pos, l.val[v..])
  {
    var nl := LineTail(t, at, l, key, q, v, pos);
    SearchHere(t, at, l, key, from, q);
    FoundIs(t, beg, pos, nl, key, end, l.val[v..]);
  }

  lemma LineTail(t: string, at: nat, l: Line, key: string, q: nat, v: nat, pos: nat) returns (nl: nat)
    requires LineAt(t, at, l, key) && v <= |l.val| && q + |key| == |Head(l)| + v && pos == at + q
    ensures pos < at + Len(l) <= |t| && StrChr(t, '\n', pos) == At(nl) && pos + |key| + 1 <= nl && t[pos + |key| + 1..nl] == l.val[v..]
  {
    nl := at + Len(l) - 1;
    assert EndsAt(t, at, l, q) && TailAt(t, at, l, v);
    assert pos + |key| + 1 == at + |Head(l)| + 1 + v;
  }

  /** Where the key is when the cursor's line has it ahead. */
  lemma HeadKey(l: Line, c: Cursor, key: string)
    requires OnLine(l, c) && KeyAhead(l, c, key)
    ensures var q := |Head(l)| - |key|; q >= 0 && InLine(l, c) <= q && KeyAt(l, key, q) && NoKeyIn(l, key, InLine(l, c), q)
  {
  }

  /** Where it is when the line's value holds it. */
  lemma ValueKey(l: Line, c: Cursor, key: string, q: nat)
    requires OnLine(l, c) && !KeyAhead(l, c, key) && StrStr(l.val, key + "=", ValueFrom(c)) == At(q)
    ensures var p := |Head(l)| + 1 + q;
            InLine(l, c) <= p && KeyAt(l, key, p) && NoKeyIn(l, key, InLine(l, c), p) && q + |key| + 1 <= |l.val|
  {
  }

  /** When the line neither has the key nor holds it. */
  lemma KeyNowhere(l: Line, c: Cursor, key: string)
    requires OnLine(l, c) && !KeyAhead(l, c, key) && StrStr(l.val, key + "=", ValueFrom(c)).Null?
    ensures NoKeyIn(l, key, InLine(l, c), Len(l)) && InLine(l, c) < Len(l)
  {
  }

  lemma TextAround(ls: seq<Line>, i: nat) returns (a: string, b: string)
    requires i < |ls|
    ensures a == Text(ls[..i]) && Text(ls) == a + LineText(ls[i]) + b && Text(ls[..i + 1]) == a + LineText(ls[i])
    ensures i + 1 == |ls| ==> b == ""
  {
    var x, l, z := ls[..i], ls[i], ls[i + 1..];
    Three(x, l, z);
    assert ls == x + [l] + z && ls[..i + 1] == x + [l];
    a, b := Text(x), Text(z);
  }

  lemma Three(x: seq<Line>, l: Line, z: seq<Line>)
    ensures Text(x + [l] + z) == Text(x) + LineText(l) + Text(z) && Text(x + [l]) == Text(x) + LineText(l)
  {
    TextCat(x + [l], z);
    TextCat(x, [l]);
    Text1(l);
  }

  // ---------------------------------------------------------------- the lookup

  /** What the lookup on the lines means on the text. */
  function Meant(r: Option<(Cursor, string)>, ls: seq<Line>, at: nat): Lookup
    requires r.Some? ==> On(ls, r.value.0)
  {
    match r case None => Missing case Some((d, v)) => Found(at + Offset(ls, d), v)
  }

  lemma MeantKey(ls: seq<Line>, c: Cursor, key: string, at: nat, pos: nat)
    requires On(ls, c) && KeyAhead(ls[c.line], c, key) && pos == at + |Text(ls[..c.line])| + |Head(ls[c.line])| - |key|
    ensures Meant(ReadOn(ls, c, key), ls, at) == Found(pos, ls[c.line].val)
  {
  }

  lemma MeantValue(ls: seq<Line>, c: Cursor, key: string, at: nat, q: nat, pos: nat, v: nat)
    requires On(ls, c) && !KeyAhead(ls[c.line], c, key) && StrStr(ls[c.line].val, key + "=", ValueFrom(c)) == At(q)
    requires pos == at + |Text(ls[..c.line])| + |Head(ls[c.line])| + 1 + q && v == q + |key| + 1
    ensures v <= |ls[c.line].val| && Meant(ReadOn(ls, c, key), ls, at) == Found(pos, ls[c.line].val[v..])
  {
  }

  lemma MeantNext(ls: seq<Line>, c: Cursor, key: string, at: nat)
    requires On(ls, c) && !KeyAhead(ls[c.line], c, key) && StrStr(ls[c.line].val, key + "=", ValueFrom(c)).Null?
    ensures c.line + 1 < |ls| ==> Meant(ReadOn(ls, c, key), ls, at) == Meant(ReadOn(ls, LineStart(ls, c.line + 1), key), ls, at)
    ensures c.line + 1 == |ls| ==> Meant(ReadOn(ls, c, key), ls, at) == Missing
  {
  }

  /** The text holds the lines from this place on. */
  ghost predicate LinesAt(t: string, at: nat, ls: seq<Line>, key: string) {
    at + |Text(ls)| <= |t| && forall i: nat :: i < |ls| ==> LineAt(t, at + |Text(ls[..i])|, ls[i], key)
  }

  lemma {:induction false} LookupOn(t: string, at: nat, ls: seq<Line>, c: Cursor, key: string, beg: nat, end: nat)
    requires LinesAt(t, at, ls, key) && On(ls, c) && beg == at + Offset(ls, c) && end == at + |Text(ls)|
    ensures beg <= |t| && ValueBetween(t, beg, At(end), key) == Meant(ReadOn(ls, c, key), ls, at)
    decreases |ls| - c.line
  {
    var i := c.line;
    var l := ls[i];
    var here := at + |Text(ls[..i])|;
    var next := TextNext(ls, i, at);
    assert LineAt(t, here, l, key);
    if KeyAhead(l, c, key) {
      var pos := ReadKey(t, here, l, c, key, end, beg);
      MeantKey(ls, c, key, at, pos);
    } else if StrStr(l.val, key + "=", ValueFrom(c)).At? {
      var q := StrStr(l.val, key + "=", ValueFrom(c)).pos;
      var pos, v := ReadInValue(t, here, l, c, key, end, beg, q);
      MeantValue(ls, c, key, at, q, pos, v);
    } else {
      ReadPast(t, here, l, c, key, beg, next);
      MeantNext(ls, c, key, at);
      if i + 1 < |ls| {
        LookupOn(t, at, ls, LineStart(ls, i + 1), key, next, end);
        SameLookup(t, beg, next, At(end), key);
      } else {
        NothingLeft(t, beg, end, key);
      }
    }
  }

  lemma TextNext(ls: seq<Line>, i: nat, at: nat) returns (next: nat)
    requires i < |ls|
    ensures next == at + |Text(ls[..i])| + Len(ls[i]) == at + |Text(ls[..i + 1])| <= at + |Text(ls)|
    ensures i + 1 == |ls| ==> next == at + |Text(ls)|
    ensures i + 1 < |ls| ==> next == at + Offset(ls, LineStart(ls, i + 1))
  {
    var a, b := TextAround(ls, i);
    next := at + |Text(ls[..i + 1])|;
  }

  /** EHgetmetavalue on the text of any run of lines is the lookup on the lines,
      from every place and for every key: the status, the value, and where the
      begin pointer ends up. */
  lemma LookupIs(t: string, pre: string, ls: seq<Line>, post: string, c: Cursor, key: string, beg: nat, end: nat)
    requires t == pre + Text(ls) + post && AllShaped(ls) && On(ls, c) && KeyOk(key)
    requires beg == |pre| + Offset(ls, c) && end == |pre| + |Text(ls)|
    ensures beg <= |t| && ValueBetween(t, beg, At(end), key) == Meant(ReadOn(ls, c, key), ls, |pre|)
  {
    LinesIn(t, pre, ls, post, key);
    LookupOn(t, |pre|, ls, c, key, beg, end);
  }

  lemma LinesIn(t: string, pre: string, ls: seq<Line>, post: string, key: string)
    requires t == pre + Text(ls) + post && AllShaped(ls) && KeyOk(key)
    ensures LinesAt(t, |pre|, ls, key)
  {
    forall i: nat | i < |ls| ensures LineAt(t, |pre| + |Text(ls[..i])|, ls[i], key) {
      LineOf(t, pre, ls, post, i, key);
    }
  }

  lemma ReadKey(t: string, at: nat, l: Line, c: Cursor, key: string, end: nat, beg: nat) returns (pos: nat)
    requires LineAt(t, at, l, key) && OnLine(l, c) && at + Len(l) <= end && beg == at + InLine(l, c) && KeyAhead(l, c, key)
    ensures pos == at + |Head(l)| - |key| && beg <= |t| && ValueBetween(t, beg, At(end), key) == Found(pos, l.val)
  {
    HeadKey(l, c, key);
    pos := at + |Head(l)| - |key|;
    ReadHere(t, at, l, key, InLine(l, c), |Head(l)| - |key|, end, 0, beg, pos);
    assert l.val[0..] == l.val;
  }

  lemma ReadInValue(t: string, at: nat, l: Line, c: Cursor, key: string, end: nat, beg: nat, q: nat) returns (pos: nat, v: nat)
    requires LineAt(t, at, l, key) && OnLine(l, c) && at + Len(l) <= end && beg == at + InLine(l, c)
    requires !KeyAhead(l, c, key) && StrStr(l.val, key + "=", ValueFrom(c)) == At(q)
    ensures pos == at + |Head(l)| + 1 + q && v == q + |key| + 1 <= |l.val|
    ensures beg <= |t| && ValueBetween(t, beg, At(end), key) == Found(pos, l.val[v..])
  {
    ValueKey(l, c, key, q);
    pos, v := at + |Head(l)| + 1 + q, q + |key| + 1;
    ReadHere(t, at, l, key, InLine(l, c), |Head(l)| + 1 + q, end, v, beg, pos);
  }

  lemma ReadPast(t: string, at: nat, l: Line, c: Cursor, key: string, beg: nat, next: nat)
    requires LineAt(t, at, l, key) && OnLine(l, c) && beg == at + InLine(l, c) && next == at + Len(l)
    requires !KeyAhead(l, c, key) && StrStr(l.val, key + "=", ValueFrom(c)).Null?
    ensures beg <= next <= |t| && StrStr(t, key + "=", beg) == StrStr(t, key + "=", next)
  {
    KeyNowhere(l, c, key);
    NoneFound(t, at, l, key, InLine(l, c), Len(l));
    SkipTo(t, key + "=", beg, next);
  }

  lemma LineOf(t: string, pre: string, ls: seq<Line>, post: string, i: nat, key: string)
    requires t == pre + Text(ls) + post && AllShaped(ls) && KeyOk(key) && i < |ls|
    ensures LineAt(t, |pre| + |Text(ls[..i])|, ls[i], key)
  {
    assert ls[i] in ls && Shaped(ls[i]);
    var a, b := TextAround(ls, i);
    Around(pre, a, LineText(ls[i]), b, post);
    LineIn(t, pre + a, ls[i], b + post, key);
  }

  lemma Around(pre: string, a: string, l: string, b: string, post: string)
    ensures pre + (a + l + b) + post == pre + a + l + (b + post)
  {
  }

  lemma SameLookup(t: string, a: nat, b: nat, end: Ptr, key: string)
    requires a <= |t| && b <= |t| && StrStr(t, key + "=", a) == StrStr(t, key + "=", b)
    ensures ValueBetween(t, a, end, key) == ValueBetween(t, b, end, key)
  {
  }

  lemma NothingLeft(t: string, from: nat, end: nat, key: string)
    requires from <= end <= |t| && StrStr(t, key + "=", from) == StrStr(t, key + "=", end)
    ensures ValueBetween(t, from, At(end), key) == Missing
  {
  }

  /** A value that is found is found up to every later end. */
  lemma FoundFurther(t: string, beg: nat, end: nat, further: nat, key: string, r: Lookup)
    requires beg <= |t| && end <= further && ValueBetween(t, beg, At(end), key) == r && r.Found?
    ensures ValueBetween(t, beg, At(further), key) == r
  {
  }

  /** The lookup of a key that the lines have, with the end pointer anywhere behind
      them. */
  lemma LookupWithin(t: string, pre: string, ls: seq<Line>, post: string, c: Cursor, key: string, beg: nat, end: nat)
    returns (d: Cursor, pos: nat, v: string)
    requires t == pre + Text(ls) + post && AllShaped(ls) && On(ls, c) && KeyOk(key)
    requires beg == |pre| + Offset(ls, c) && |pre| + |Text(ls)| <= end && ReadOn(ls, c, key).Some?
    ensures ReadOn(ls, c, key) == Some((d, v)) && On(ls, d) && pos == |pre| + Offset(ls, d)
    ensures beg <= |t| && pos <= |t| && ValueBetween(t, beg, At(end), key) == Found(pos, v)
  {
    var r := ReadOn(ls, c, key).value;
    d, v := r.0, r.1;
    pos := |pre| + Offset(ls, d);
    LookupIs(t, pre, ls, post, c, key, beg, |pre| + |Text(ls)|);
    FoundFurther(t, beg, |pre| + |Text(ls)|, end, key, Found(pos, v));
  }

  // ------------------------------------------------------------ behind other lines

  function Shifted(c: Cursor, n: nat): Cursor {
    match c case InHead(i, m) => InHead(i + n, m) case InVal(i, q) => InVal(i + n, q)
  }

  /** Lines in front of the cursor do not change what is read. */
  lemma {:induction false} ReadShift(a: seq<Line>, b: seq<Line>, c: Cursor, d: Cursor, key: string)
    requires On(b, c) && d == Shifted(c, |a|)
    ensures On(a + b, d)
    ensures ReadOn(a + b, d, key)
         == match ReadOn(b, c, key) case None => None case Some((x, v)) => Some((Shifted(x, |a|), v))
    decreases |b| - c.line
  {
    var l := b[c.line];
    assert (a + b)[|a| + c.line] == l;
    if KeyAhead(l, c, key) {
    } else if StrStr(l.val, key + "=", ValueFrom(c)).At? {
      ShiftHeld(a, b, c, d, key, StrStr(l.val, key + "=", ValueFrom(c)).pos);
    } else if c.line + 1 < |b| {
      ShiftNext(a, b, c, d, key);
      ReadShift(a, b, LineStart(b, c.line + 1), LineStart(a + b, |a| + c.line + 1), key);
    }
  }

  lemma ShiftNext(a: seq<Line>, b: seq<Line>, c: Cursor, d: Cursor, key: string)
    requires On(b, c) && On(a + b, d) && d == Shifted(c, |a|) && c.line + 1 < |b|
    requires !KeyAhead(b[c.line], c, key) && StrStr(b[c.line].val, key + "=", ValueFrom(c)).Null?
    ensures ReadOn(b, c, key) == ReadOn(b, LineStart(b, c.line + 1), key)
    ensures ReadOn(a + b, d, key) == ReadOn(a + b, LineStart(a + b, |a| + c.line + 1), key)
    ensures LineStart(a + b, |a| + c.line + 1) == Shifted(LineStart(b, c.line + 1), |a|)
  {
    assert (a + b)[d.line] == b[c.line] && (a + b)[|a| + c.line + 1] == b[c.line + 1];
    ReadNext(b, c, key);
    ReadNext(a + b, d, key);
  }

  lemma ShiftHeld(a: seq<Line>, b: seq<Line>, c: Cursor, d: Cursor, key: string, q: nat)
    requires On(b, c) && On(a + b, d) && d == Shifted(c, |a|)
    requires !KeyAhead(b[c.line], c, key) && StrStr(b[c.line].val, key + "=", ValueFrom(c)) == At(q)
    ensures ReadOn(b, c, key).Some? && ReadOn(a + b, d, key) == Some((Shifted(ReadOn(b, c, key).value.0, |a|), ReadOn(b, c, key).value.1))
  {
    assert (a + b)[d.line] == b[c.line];
    ReadHeld(b, c, key, q);
    ReadHeld(a + b, d, key, q);
  }
}
