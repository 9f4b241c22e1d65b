/** The structural metadata as lines `<tabs>key=value\n`, and what a substring
    search on the flat text finds in terms of those lines. */
module OdlLines {
  import opened CText

  datatype Line = Line(tabs: nat, key: string, val: string)

  function Tabs(n: nat): string { seq(n, _ => '\t') }

  function Head(l: Line): string { Tabs(l.tabs) + l.key }

  function LineText(l: Line): string { Head(l) + "=" + l.val + "\n" }

  function Text(ls: seq<Line>): string {
    if ls == [] then "" else LineText(ls[0]) + Text(ls[1..])
  }

  predicate KeyOk(k: string) {
    k != "" && forall i | 0 <= i < |k| :: k[i] !in "=\t\n\0"
  }

  predicate ValOk(v: string) {
    forall i | 0 <= i < |v| :: v[i] !in "\t\n\0"
  }

  predicate Shaped(l: Line) { KeyOk(l.key) && ValOk(l.val) }

  predicate AllShaped(ls: seq<Line>) { forall l <- ls :: Shaped(l) }

  lemma Assoc<T>(x: seq<T>, y: seq<T>, z: seq<T>)
    ensures x + (y + z) == (x + y) + z
  {
  }

  lemma Text1(l: Line)
    ensures Text([l]) == LineText(l)
  {
    assert [l][1..] == [];
  }

  lemma {:induction false} TextCat(a: seq<Line>, b: seq<Line>)
    ensures Text(a + b) == Text(a) + Text(b)
  {
    if a == [] {
      assert a + b == b;
    } else {
      assert (a + b)[1..] == a[1..] + b;
      TextCat(a[1..], b);
    }
  }

  lemma {:induction false} NoNul(ls: seq<Line>)
    requires AllShaped(ls)
    ensures '\0' !in Text(ls)
  {
    if ls != [] {
      assert Shaped(ls[0]);
      LineChars(ls[0]);
      NoNul(ls[1..]);
    }
  }

  lemma LineChars(l: Line)
    requires Shaped(l)
    ensures var e := |Head(l)|; var t := LineText(l);
            && e == l.tabs + |l.key| && |t| == e + |l.val| + 2
            && (forall i | 0 <= i < |t| :: t[i] == '\n' <==> i == |t| - 1)
            && (forall i | 0 <= i < |t| :: t[i] == '\t' <==> i < l.tabs)
            && (forall i | 0 <= i < e :: t[i] != '=') && t[e] == '='
            && t[e + 1..|t| - 1] == l.val && t[..e] == Head(l)
            && '\0' !in t
  {
    var t := LineText(l);
    var e := |Head(l)|;
    assert forall i | l.tabs <= i < e :: t[i] == l.key[i - l.tabs];
    assert forall i | e < i < |t| - 1 :: t[i] == l.val[i - e - 1];
  }

  // ------------------------------------------------ keys of the form a=b

  /** The search key a=b sits across the line's own equals sign. */
  predicate Aligned(l: Line, a: string, b: string) {
    |a| <= |Head(l)| && Head(l)[|Head(l)| - |a|..] == a && b <= l.val
  }

  /** The line holds no occurrence of a=b. */
  predicate Quiet(l: Line, a: string, b: string) {
    !Aligned(l, a, b) && !Contains(l.val, a + "=" + b)
  }

  predicate AllQuiet(ls: seq<Line>, a: string, b: string) { forall l <- ls :: Quiet(l, a, b) }

  predicate SearchKey(a: string, b: string) {
    (forall i | 0 <= i < |a| :: a[i] !in "=\n") && '\n' !in b
  }

  lemma AlignedOccurs(pre: string, l: Line, post: string, a: string, b: string)
    requires Aligned(l, a, b)
    ensures OccursAt(pre + LineText(l) + post, a + "=" + b, |pre| + |Head(l)| - |a|)
  {
    var h := Head(l);
    var v := l.val;
    var t := pre + LineText(l) + post;
    assert h == h[..|h| - |a|] + a;
    assert v == b + v[|b|..];
    assert t == (pre + h[..|h| - |a|]) + (a + "=" + b) + (v[|b|..] + "\n" + post);
    OccursIn(pre + h[..|h| - |a|], a + "=" + b, v[|b|..] + "\n" + post, a + "=" + b, 0);
  }

  /** A key without a newline that starts in a line lies in it. */
  lemma KeyInside(t: string, pre: string, l: Line, post: string, k: string, q: nat)
    requires t == pre + LineText(l) + post && Shaped(l) && '\n' !in k && q < |LineText(l)| && OccursAt(t, k, |pre| + q)
    ensures q + |k| < |LineText(l)| && LineText(l)[q..q + |k|] == k
  {
    LineChars(l);
    var line, n := LineText(l), |LineText(l)| - 1;
    OccursIdx(t, k, |pre| + q, |pre| + n);
    assert t[|pre| + n] == line[n] == '\n';
    assert t[|pre| + q..|pre| + q + |k|] == line[q..q + |k|];
  }

  lemma SignOfKey(s: string, a: string, b: string, q: nat)
    requires q + |a + "=" + b| <= |s| && s[q..q + |a + "=" + b|] == a + "=" + b
    ensures s[q..q + |a|] == a && s[q + |a|] == '=' && s[q + |a| + 1..q + |a| + 1 + |b|] == b
  {
    var k := a + "=" + b;
    assert s[q..q + |a|] == s[q..q + |k|][..|a|] && s[q + |a|] == s[q..q + |k|][|a|];
    assert s[q + |a| + 1..q + |k|] == s[q..q + |k|][|a| + 1..];
  }

  lemma InSlice(s: string, a: string, q: nat, m: nat)
    ensures q <= m < q + |a| <= |s| && s[q..q + |a|] == a ==> s[m] in a
  {
    assert q <= m < q + |a| <= |s| ==> s[q..q + |a|][m - q] == s[m];
  }

  /** The equals sign of the line is inside the key: it is the key's own. */
  lemma KeyOverSign(l: Line, a: string, b: string, q: nat)
    requires Shaped(l) && SearchKey(a, b) && q <= |Head(l)| && q + |a + "=" + b| < |LineText(l)|
    requires LineText(l)[q..q + |a + "=" + b|] == a + "=" + b
    ensures q + |a| == |Head(l)| && Aligned(l, a, b)
  {
    var line, e := LineText(l), |Head(l)|;
    LineChars(l);
    SignOfKey(line, a, b, q);
    InSlice(line, a, q, e);
    assert Head(l)[q..] == line[q..e];
    assert l.val[..|b|] == line[e + 1..|line| - 1][..|b|] == line[e + 1..e + 1 + |b|];
  }

  lemma KeyInVal(l: Line, k: string, q: nat)
    requires |Head(l)| < q && q + |k| < |LineText(l)| && LineText(l)[q..q + |k|] == k
    ensures Contains(l.val, k)
  {
    var i := q - |Head(l)| - 1;
    assert LineText(l) == (Head(l) + "=") + l.val + "\n";
    assert l.val[i..i + |k|] == LineText(l)[q..q + |k|];
    assert OccursAt(l.val, k, i);
  }

  /** An occurrence of a=b that starts in a line is aligned with the line's
      equals sign or lies inside the line's value. */
  lemma KeyOccurrence(pre: string, l: Line, post: string, a: string, b: string, q: nat)
    requires Shaped(l) && SearchKey(a, b) && q < |LineText(l)|
    requires OccursAt(pre + LineText(l) + post, a + "=" + b, |pre| + q)
    ensures || (q + |a| == |Head(l)| && Aligned(l, a, b))
            || Contains(l.val, a + "=" + b)
  {
    KeyInside(pre + LineText(l) + post, pre, l, post, a + "=" + b, q);
    if q <= |Head(l)| {
      KeyOverSign(l, a, b, q);
    } else {
      KeyInVal(l, a + "=" + b, q);
    }
  }

  /** No occurrence of a=b starts in a run of quiet lines. */
  lemma {:induction false} NoneInQuiet(pre: string, ls: seq<Line>, post: string, a: string, b: string, x: nat)
    requires AllShaped(ls) && SearchKey(a, b) && AllQuiet(ls, a, b)
    requires |pre| <= x < |pre| + |Text(ls)|
    ensures !OccursAt(pre + Text(ls) + post, a + "=" + b, x)
    decreases |ls|
  {
    var l := ls[0];
    var rest := Text(ls[1..]);
    assert Shaped(l) && Quiet(l, a, b);
    assert pre + Text(ls) + post == pre + LineText(l) + (rest + post);
    if x < |pre| + |LineText(l)| {
      if OccursAt(pre + Text(ls) + post, a + "=" + b, x) {
        KeyOccurrence(pre, l, rest + post, a, b, x - |pre|);
      }
    } else {
      assert pre + Text(ls) + post == (pre + LineText(l)) + rest + post;
      NoneInQuiet(pre + LineText(l), ls[1..], post, a, b, x);
    }
  }

  /** The search for a=b skips quiet lines and stops at the first line aligned
      with it. */
  lemma FindKey(pre: string, skip: seq<Line>, l: Line, post: string, a: string, b: string, from: nat)
    requires AllShaped(skip) && Shaped(l) && SearchKey(a, b)
    requires AllQuiet(skip, a, b) && Aligned(l, a, b)
    requires |pre| <= from <= |pre| + |Text(skip)| + |Head(l)| - |a|
    ensures from <= |pre + Text(skip) + LineText(l) + post|
    ensures StrStr(pre + Text(skip) + LineText(l) + post, a + "=" + b, from)
         == At(|pre| + |Text(skip)| + |Head(l)| - |a|)
  {
    var t := pre + Text(skip) + LineText(l) + post;
    var k := a + "=" + b;
    var p := |pre| + |Text(skip)| + |Head(l)| - |a|;
    AlignedOccurs(pre + Text(skip), l, post, a, b);
    forall x: nat | from <= x < p ensures !OccursAt(t, k, x) {
      if x < |pre| + |Text(skip)| {
        assert t == pre + Text(skip) + (LineText(l) + post);
        NoneInQuiet(pre, skip, LineText(l) + post, a, b, x);
      } else if OccursAt(t, k, x) {
        FirstInLine(pre + Text(skip), l, post, a, b, x - |pre| - |Text(skip)|);
      }
    }
    StrStrIs(t, k, from, p);
  }

  /** FindKey for a text and a key given by name. */
  lemma FindIn(t: string, key: string, pre: string, skip: seq<Line>, l: Line, post: string, a: string, b: string, from: nat, pos: nat)
    requires t == pre + Text(skip) + LineText(l) + post && key == a + "=" + b
    requires AllShaped(skip) && Shaped(l) && SearchKey(a, b)
    requires AllQuiet(skip, a, b) && Aligned(l, a, b)
    requires pos == |pre| + |Text(skip)| + |Head(l)| - |a| && |pre| <= from <= pos
    ensures from <= |t| && StrStr(t, key, from) == At(pos)
  {
    FindKey(pre, skip, l, post, a, b, from);
  }

  /** Nothing before the aligned position of a line. */
  lemma FirstInLine(pre: string, l: Line, post: string, a: string, b: string, q: nat)
    requires Shaped(l) && SearchKey(a, b) && Aligned(l, a, b) && q < |Head(l)| - |a|
    ensures !OccursAt(pre + LineText(l) + post, a + "=" + b, |pre| + q)
  {
    LineChars(l);
    var t := pre + LineText(l) + post;
    OccursIdx(t, a + "=" + b, |pre| + q, |pre| + q + |a|);
    assert t[|pre| + q + |a|] == LineText(l)[q + |a|];
  }

  // --------------------------- keys anchored at the start of a line: \n...

  /** A line that starts so stands behind a newline. */
  lemma StartHere(t: string, key: string, front: string, l: Line, post: string, n: nat, k: string, b: string)
    requires t == front + LineText(l) + post && key == "\n" + Tabs(n) + k + "=" + b
    requires front != "" && front[|front| - 1] == '\n' && StartsAs(l, n, k, b)
    ensures OccursAt(t, key, |front| - 1)
  {
    var rest := l.val[|b|..] + "\n";
    assert l.val == b + l.val[|b|..];
    assert front == front[..|front| - 1] + "\n";
    assert t == front[..|front| - 1] + key + (rest + post);
    OccursIn(front[..|front| - 1], key, rest + post, key, 0);
  }

  predicate StartsAs(m: Line, n: nat, k: string, b: string) { m.tabs == n && m.key == k && b <= m.val }

  predicate NoneStartsAs(ls: seq<Line>, n: nat, k: string, b: string) { forall m <- ls :: !StartsAs(m, n, k, b) }

  /** The search for "\n" + tabs + k=b finds the newline before the first line
      that starts so. */
  lemma FindStartIn(t: string, key: string, pre: string, skip: seq<Line>, l: Line, post: string, n: nat, k: string, b: string, from: nat, pos: nat)
    requires t == pre + Text(skip) + LineText(l) + post && key == "\n" + Tabs(n) + k + "=" + b
    requires AllShaped(skip) && Shaped(l) && KeyOk(k) && '\n' !in b
    requires NoneStartsAs(skip, n, k, b) && StartsAs(l, n, k, b)
    requires |pre| <= from < |pre| + |Text(skip)| && pos == |pre| + |Text(skip)| - 1
    ensures from <= |t| && StrStr(t, key, from) == At(pos)
  {
    LastNewline(skip);
    StartHere(t, key, pre + Text(skip), l, post, n, k, b);
    NoneStartHere(t, key, pre, skip, LineText(l) + post, n, k, b, pos);
    Assoc(pre + Text(skip), LineText(l), post);
    StrStrIs(t, key, from, pos);
  }

  lemma NoneStartHere(t: string, key: string, pre: string, skip: seq<Line>, rest: string, n: nat, k: string, b: string, pos: nat)
    requires t == pre + Text(skip) + rest && key == "\n" + Tabs(n) + k + "=" + b && pos == |pre| + |Text(skip)| - 1
    requires AllShaped(skip) && KeyOk(k) && '\n' !in b && NoneStartsAs(skip, n, k, b)
    ensures forall x: nat | |pre| <= x < pos :: !OccursAt(t, key, x)
  {
    forall x: nat | |pre| <= x < pos ensures !OccursAt(t, key, x) {
      NoLineStart(t, key, pre, skip, rest, n, k, b, x);
    }
  }

  lemma {:induction false} LastNewline(ls: seq<Line>)
    requires ls != []
    ensures Text(ls) != "" && Text(ls)[|Text(ls)| - 1] == '\n'
  {
    if |ls| == 1 {
      Text1(ls[0]);
      assert ls == [ls[0]];
    } else {
      LastNewline(ls[1..]);
    }
  }

  /** A newline inside a run of lines is followed by the next line's text. */
  lemma {:induction false} NoLineStart(t: string, key: string, pre: string, ls: seq<Line>, post: string, n: nat, k: string, b: string, x: nat)
    requires t == pre + Text(ls) + post && key == "\n" + Tabs(n) + k + "=" + b
    requires AllShaped(ls) && KeyOk(k) && '\n' !in b && NoneStartsAs(ls, n, k, b)
    requires |pre| <= x < |pre| + |Text(ls)| - 1
    ensures !OccursAt(t, key, x)
    decreases |ls|
  {
    var l, rest := ls[0], Text(ls[1..]);
    assert Shaped(l);
    var front := pre + LineText(l);
    assert t == front + rest + post;
    if x < |front| - 1 {
      InsideLine(t, pre, l, rest + post, key, x);
    } else if x >= |front| {
      NoLineStart(t, key, front, ls[1..], post, n, k, b, x);
    } else {
      var next := ls[1];
      var back := Text(ls[1..][1..]) + post;
      assert Shaped(next) && next in ls && !StartsAs(next, n, k, b);
      assert t == front + LineText(next) + back;
      if OccursAt(t, key, x) {
        StartsLine(t, key, front, next, back, n, k, b);
      }
    }
  }

  lemma InsideLine(t: string, pre: string, l: Line, post: string, key: string, x: nat)
    requires t == pre + LineText(l) + post && Shaped(l) && key != "" && key[0] == '\n' && |pre| <= x < |pre| + |LineText(l)| - 1
    ensures !OccursAt(t, key, x)
  {
    LineChars(l);
    assert t[x] == LineText(l)[x - |pre|];
    OccursIdx(t, key, x, x);
  }

  /** A line whose text starts with tabs + k=b has that depth, key and value prefix. */
  lemma StartsLine(t: string, key: string, pre: string, l: Line, post: string, n: nat, k: string, b: string)
    requires t == pre + LineText(l) + post && key == "\n" + Tabs(n) + k + "=" + b
    requires Shaped(l) && KeyOk(k) && '\n' !in b && pre != "" && OccursAt(t, key, |pre| - 1)
    ensures StartsAs(l, n, k, b)
  {
    var a := Tabs(n) + k;
    assert key == "\n" + (a + "=" + b);
    assert t[|pre|..|pre| + |a + "=" + b|] == t[|pre| - 1..|pre| - 1 + |key|][1..];
    assert OccursAt(t, a + "=" + b, |pre|);
    assert forall m | 0 <= m < |a| :: a[m] != '=' && a[m] != '\n';
    AlignAtStart(pre, l, post, a, b);
    SplitHead(l, n, k);
  }

  lemma AlignAtStart(pre: string, l: Line, post: string, a: string, b: string)
    requires Shaped(l) && '\n' !in b && forall i | 0 <= i < |a| :: a[i] !in "=\n"
    requires OccursAt(pre + LineText(l) + post, a + "=" + b, |pre|)
    ensures Head(l) == a && b <= l.val
  {
    KeyInside(pre + LineText(l) + post, pre, l, post, a + "=" + b, 0);
    KeyOverSign(l, a, b, 0);
    assert Head(l)[0..] == Head(l);
  }

  lemma SplitHead(l: Line, n: nat, k: string)
    requires Shaped(l) && KeyOk(k) && Head(l) == Tabs(n) + k
    ensures l.tabs == n && l.key == k
  {
    var h := Head(l);
    assert h[l.tabs] == l.key[0] && (Tabs(n) + k)[n] == k[0];
    assert l.tabs == n;
    assert h[n..] == l.key && (Tabs(n) + k)[n..] == k;
  }
}
