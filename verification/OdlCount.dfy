/** Counting the terminators END_OBJECT and END_GROUP in a run of lines, and
    the searches for keys that hold no equals sign. */
module OdlCount {
  import opened CText
  import opened OdlLines

  /** The number of positions in [lo, hi) where k occurs. */
  function Occurrences(s: string, k: string, lo: nat, hi: nat): nat
    decreases hi - lo
  {
    if lo >= hi then 0
    else (if OccursAt(s, k, lo) then 1 else 0) + Occurrences(s, k, lo + 1, hi)
  }

  lemma {:induction false} OccSplit(s: string, k: string, lo: nat, mid: nat, hi: nat)
    requires lo <= mid <= hi
    ensures Occurrences(s, k, lo, hi) == Occurrences(s, k, lo, mid) + Occurrences(s, k, mid, hi)
    decreases mid - lo
  {
    if lo < mid {
      OccSplit(s, k, lo + 1, mid, hi);
    }
  }

  lemma {:induction false} OccNone(s: string, k: string, lo: nat, hi: nat)
    requires forall i: nat :: lo <= i < hi ==> !OccursAt(s, k, i)
    ensures Occurrences(s, k, lo, hi) == 0
    decreases hi - lo
  {
    if lo < hi {
      OccNone(s, k, lo + 1, hi);
    }
  }

  lemma {:induction false} OccSome(s: string, k: string, lo: nat, hi: nat, i: nat)
    requires lo <= i < hi && OccursAt(s, k, i)
    ensures Occurrences(s, k, lo, hi) > 0
    decreases hi - lo
  {
    if lo < i {
      OccSome(s, k, lo + 1, hi, i);
    }
  }

  /** Counting is invariant under a shift that matches the occurrences. */
  lemma {:induction false} OccShift(s: string, t: string, k: string, a: nat, b: nat, n: nat)
    requires forall i: nat :: a <= i < a + n ==> (OccursAt(s, k, i) <==> OccursAt(t, k, i - a + b))
    ensures Occurrences(s, k, a, a + n) == Occurrences(t, k, b, b + n)
    decreases n
  {
    if n > 0 {
      OccShift(s, t, k, a + 1, b + 1, n - 1);
      assert OccursAt(s, k, a) <==> OccursAt(t, k, b);
    }
  }

  /** A search word: no equals sign, no newline, no tab. */
  predicate Word(w: string) {
    w != "" && forall i | 0 <= i < |w| :: w[i] !in "=\n\t"
  }

  /** A word that a key either is or does not contain. */
  predicate KeyClean(l: Line, w: string) {
    l.key == w || !Contains(l.key, w)
  }

  /** How often a word occurs in one line: as its key, or inside its value. */
  function LineCount(l: Line, w: string): nat {
    (if l.key == w then 1 else 0) + Occurrences(l.val, w, 0, |l.val|)
  }

  function LinesCount(ls: seq<Line>, w: string): nat {
    if ls == [] then 0 else LineCount(ls[0], w) + LinesCount(ls[1..], w)
  }

  lemma SplitAtHead(pre: string, l: Line, post: string)
    ensures pre + LineText(l) + post == pre + Head(l) + ("=" + l.val + "\n" + post)
  {
    assert LineText(l) + post == Head(l) + ("=" + l.val + "\n" + post);
  }

  /** A word that starts in the head of a line is the line's whole key. */
  lemma WordInHead(pre: string, l: Line, post: string, w: string, x: nat)
    requires Shaped(l) && Word(w) && KeyClean(l, w) && |pre| <= x <= |pre| + |Head(l)|
    ensures OccursAt(pre + LineText(l) + post, w, x) <==> l.key == w && x == |pre| + l.tabs
  {
    var h := Head(l);
    var back := "=" + l.val + "\n" + post;
    var t := pre + LineText(l) + post;
    SplitAtHead(pre, l, post);
    assert t[|pre| + |h|] == '=' && '=' !in w;
    OccursIdx(t, w, x, |pre| + |h|);
    OccursIn(pre, h, back, w, x - |pre|);
    WordInKey(l, w, x - |pre|);
  }

  lemma WordInKey(l: Line, w: string, q: nat)
    requires Shaped(l) && Word(w) && KeyClean(l, w)
    ensures OccursAt(Head(l), w, q) <==> l.key == w && q == l.tabs
  {
    var h := Head(l);
    OccursIdx(h, w, q, q);
    assert '\t' !in w;
    assert q < l.tabs ==> h[q] == '\t';
    if OccursAt(h, w, q) {
      OccursIn(Tabs(l.tabs), l.key, "", w, q - l.tabs);
      assert h == Tabs(l.tabs) + l.key + "";
      assert OccursAt(l.key, w, q - l.tabs);
      assert Contains(l.key, w);
    }
    if l.key == w && q == l.tabs {
      assert h[q..q + |w|] == w;
    }
  }

  /** A word that starts after the equals sign lies inside the value. */
  lemma WordInVal(pre: string, l: Line, post: string, w: string, x: nat)
    requires Shaped(l) && w != "" && '\n' !in w
    requires |pre| + |Head(l)| < x < |pre| + |LineText(l)|
    ensures OccursAt(pre + LineText(l) + post, w, x) <==> OccursAt(l.val, w, x - |pre| - |Head(l)| - 1)
  {
    var front, back := pre + Head(l) + "=", "\n" + post;
    ValueBetweenParts(pre, Head(l), l.val, post);
    WordBefore(front + l.val + back, front, l.val, back, w, x);
  }

  lemma ValueBetweenParts(a: string, h: string, v: string, z: string)
    ensures a + (h + "=" + v + "\n") + z == a + h + "=" + v + ("\n" + z)
  {
  }

  /** A word without a newline that starts before one ends before it. */
  lemma WordBefore(t: string, front: string, v: string, back: string, w: string, x: nat)
    requires t == front + v + back && back != "" && back[0] == '\n' && w != "" && '\n' !in w && |front| <= x <= |front| + |v|
    ensures OccursAt(t, w, x) <==> OccursAt(v, w, x - |front|)
  {
    assert t[|front| + |v|] == '\n';
    OccursIdx(t, w, x, |front| + |v|);
    OccursIn(front, v, back, w, x - |front|);
  }

  lemma CountLine(pre: string, l: Line, post: string, w: string)
    requires Shaped(l) && Word(w) && KeyClean(l, w)
    ensures Occurrences(pre + LineText(l) + post, w, |pre|, |pre| + |LineText(l)|) == LineCount(l, w)
  {
    var t := pre + LineText(l) + post;
    var mid := |pre| + |Head(l)| + 1;
    var hi := |pre| + |LineText(l)|;
    OccSplit(t, w, |pre|, mid, hi);
    HeadCount(pre, l, post, w);
    ValCount(pre, l, post, w);
  }

  lemma ValCount(pre: string, l: Line, post: string, w: string)
    requires Shaped(l) && Word(w)
    ensures Occurrences(pre + LineText(l) + post, w, |pre| + |Head(l)| + 1, |pre| + |LineText(l)|)
         == Occurrences(l.val, w, 0, |l.val|)
  {
    var t := pre + LineText(l) + post;
    var mid := |pre| + |Head(l)| + 1;
    var n := |l.val|;
    forall x: nat | mid <= x < mid + (n + 1)
      ensures OccursAt(t, w, x) <==> OccursAt(l.val, w, x - mid + 0)
    {
      WordInVal(pre, l, post, w, x);
    }
    OccShift(t, l.val, w, mid, 0, n + 1);
    OccSplit(l.val, w, 0, n, n + 1);
    OccNone(l.val, w, n, n + 1);
  }

  lemma HeadCount(pre: string, l: Line, post: string, w: string)
    requires Shaped(l) && Word(w) && KeyClean(l, w)
    ensures Occurrences(pre + LineText(l) + post, w, |pre|, |pre| + |Head(l)| + 1) == if l.key == w then 1 else 0
  {
    var t := pre + LineText(l) + post;
    var lo, at, hi := |pre|, |pre| + l.tabs, |pre| + |Head(l)| + 1;
    forall x: nat | lo <= x < hi
      ensures OccursAt(t, w, x) <==> l.key == w && x == at
    {
      WordInHead(pre, l, post, w, x);
    }
    OccOne(t, w, lo, at, hi, l.key == w);
  }

  /** At most one place. */
  lemma OccOne(t: string, w: string, lo: nat, at: nat, hi: nat, one: bool)
    requires lo <= at < hi && forall x: nat | lo <= x < hi :: OccursAt(t, w, x) <==> one && x == at
    ensures Occurrences(t, w, lo, hi) == if one then 1 else 0
  {
    OccSplit(t, w, lo, at, hi);
    OccSplit(t, w, at, at + 1, hi);
    OccNone(t, w, lo, at);
    OccNone(t, w, at + 1, hi);
    assert Occurrences(t, w, at + 1, at + 1) == 0;
  }

  predicate AllKeyClean(ls: seq<Line>, w: string) { forall l <- ls :: KeyClean(l, w) }

  /** A word occurs in a run of lines as often as in its lines. */
  lemma {:induction false} CountLines(pre: string, ls: seq<Line>, post: string, w: string)
    requires AllShaped(ls) && Word(w) && AllKeyClean(ls, w)
    ensures Occurrences(pre + Text(ls) + post, w, |pre|, |pre| + |Text(ls)|) == LinesCount(ls, w)
    decreases |ls|
  {
    if ls != [] {
      var l, rest := ls[0], Text(ls[1..]);
      assert Shaped(l) && KeyClean(l, w);
      assert AllShaped(ls[1..]) && AllKeyClean(ls[1..], w);
      CountLine(pre, l, rest + post, w);
      CountLines(pre + LineText(l), ls[1..], post, w);
      CountStep(pre, LineText(l), rest, post, w);
    }
  }

  lemma CountStep(pre: string, line: string, rest: string, post: string, w: string)
    ensures var t := pre + (line + rest) + post;
            Occurrences(t, w, |pre|, |pre| + |line + rest|)
              == Occurrences(pre + line + (rest + post), w, |pre|, |pre| + |line|)
                 + Occurrences((pre + line) + rest + post, w, |pre + line|, |pre + line| + |rest|)
  {
    var t := pre + (line + rest) + post;
    assert t == pre + line + (rest + post);
    assert t == (pre + line) + rest + post;
    OccSplit(t, w, |pre|, |pre| + |line|, |pre| + |line + rest|);
  }

  // ----------------------------------------------------- EHcntOBJECT / EHcntGROUP

  /** The counting loop: it walks from occurrence to occurrence with strstr and
      stops at the end pointer, at the null pointer, or before it starts. */
  method CountTerminators(metabuf: string, beg: Ptr, end: Ptr, word: string) returns (count: int)
    requires word != ""
    requires beg.At? ==> beg.pos <= |metabuf|
    requires end.At? ==> end.pos <= |metabuf|
    ensures count == if beg.At? && end.At? && beg.pos < end.pos
                     then Occurrences(metabuf, word, beg.pos + 1, end.pos)
                     else -1
  {
    count := 0;
    var tempptr := beg;
    while end.At? && tempptr.At? && tempptr.pos < end.pos
      invariant tempptr.At? ==> tempptr.pos <= |metabuf|
      invariant count == 0 ==> tempptr == beg
      invariant count >= 0
      invariant count > 0 ==> beg.At? && end.At? && beg.pos < end.pos
      invariant count > 0 ==>
        Occurrences(metabuf, word, beg.pos + 1, end.pos)
          == count - 1 + (if tempptr.Null? || tempptr.pos >= end.pos then 0
                          else 1 + Occurrences(metabuf, word, tempptr.pos + 1, end.pos))
      decreases if tempptr.At? then |metabuf| - tempptr.pos + 1 else 0
    {
      var next := StrStr(metabuf, word, tempptr.pos + 1);
      var stop := if next.At? && next.pos < end.pos then next.pos else end.pos;
      OccSplit(metabuf, word, tempptr.pos + 1, stop, end.pos);
      OccNone(metabuf, word, tempptr.pos + 1, stop);
      tempptr := next;
      count := count + 1;
    }
    count := count - 1;
  }

  /** The counts are those of the lines exactly when no value holds the word:
      a name such as "END_OBJECT" shifts every later number. */
  lemma {:induction false} CountIsKeysIff(ls: seq<Line>, w: string)
    requires w != ""
    ensures LinesCount(ls, w) >= KeyCount(ls, w)
    ensures LinesCount(ls, w) == KeyCount(ls, w) <==> forall l <- ls :: !Contains(l.val, w)
  {
    if ls != [] {
      CountIsKeysIff(ls[1..], w);
      var v := ls[0].val;
      if Contains(v, w) {
        var i: nat :| i <= |v| && OccursAt(v, w, i);
        OccSome(v, w, 0, |v|, i);
        assert ls[0] in ls;
      } else {
        OccNone(v, w, 0, |v|);
        assert forall l <- ls :: l == ls[0] || l in ls[1..];
      }
    }
  }

  /** The lines whose key is the word. */
  function KeyCount(ls: seq<Line>, w: string): nat {
    if ls == [] then 0 else (if ls[0].key == w then 1 else 0) + KeyCount(ls[1..], w)
  }

  lemma {:induction false} KeyCountCat(a: seq<Line>, b: seq<Line>, w: string)
    ensures KeyCount(a + b, w) == KeyCount(a, w) + KeyCount(b, w)
  {
    if a == [] {
      assert a + b == b;
    } else {
      assert (a + b)[1..] == a[1..] + b;
      KeyCountCat(a[1..], b, w);
    }
  }
}
