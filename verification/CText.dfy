/** C strings as sequences of characters without NUL, pointers into them as
    offsets, and the two library searches the metadata code is built on. */
module CText {

  /** What a C search returns: the null pointer or an offset into the text. */
  datatype Ptr = Null | At(pos: nat)

  datatype Option<T> = None | Some(value: T)

  predicate OccursAt(s: string, k: string, i: nat) {
    i + |k| <= |s| && s[i..i + |k|] == k
  }

  predicate Contains(s: string, k: string) {
    exists i: nat | i <= |s| :: OccursAt(s, k, i)
  }

  /** strstr(s + from, k): the first occurrence at or after `from`. */
  function StrStr(s: string, k: string, from: nat): (p: Ptr)
    requires from <= |s|
    ensures p.At? ==> from <= p.pos <= |s| && OccursAt(s, k, p.pos)
    ensures p.At? ==> forall i: nat :: from <= i < p.pos ==> !OccursAt(s, k, i)
    ensures p.Null? ==> forall i: nat :: from <= i ==> !OccursAt(s, k, i)
    decreases |s| - from
  {
    if OccursAt(s, k, from) then At(from)
    else if from == |s| then Null
    else StrStr(s, k, from + 1)
  }

  /** strchr(s + from, c). */
  function StrChr(s: string, c: char, from: nat): (p: Ptr)
    requires from <= |s|
    ensures p.At? ==> from <= p.pos < |s| && s[p.pos] == c
    ensures p.At? ==> forall i: nat :: from <= i < p.pos ==> s[i] != c
    ensures p.Null? ==> forall i: nat :: from <= i < |s| ==> s[i] != c
    decreases |s| - from
  {
    if from == |s| then Null
    else if s[from] == c then At(from)
    else StrChr(s, c, from + 1)
  }

  /** The search is determined by its specification. */
  lemma StrStrIs(s: string, k: string, from: nat, p: nat)
    requires from <= p && OccursAt(s, k, p)
    requires forall i: nat :: from <= i < p ==> !OccursAt(s, k, i)
    ensures from <= |s| && StrStr(s, k, from) == At(p)
  {
    var r := StrStr(s, k, from);
    assert r.At? && r.pos <= p;
  }

  lemma KeyHit(s: string, k: string)
    ensures Contains(s, k) <==> StrStr(s, k, 0).At?
  {
    if Contains(s, k) {
      var i: nat :| i <= |s| && OccursAt(s, k, i);
    }
  }

  lemma StrChrIs(s: string, c: char, from: nat, p: nat)
    requires from <= p < |s| && s[p] == c
    requires forall i: nat :: from <= i < p ==> s[i] != c
    ensures StrChr(s, c, from) == At(p)
  {
    var r := StrChr(s, c, from);
    assert r.At? && r.pos <= p;
  }

  /** A search passes over a stretch without the key. */
  lemma SkipTo(t: string, key: string, a: nat, b: nat)
    requires a <= b <= |t| && forall x: nat | a <= x < b :: !OccursAt(t, key, x)
    ensures StrStr(t, key, a) == StrStr(t, key, b)
  {
    match StrStr(t, key, b)
    case At(p) =>
      assert forall x: nat | a <= x < p :: !OccursAt(t, key, x);
      StrStrIs(t, key, a, p);
    case Null =>
  }

  lemma OccursIdx(s: string, k: string, i: nat, p: nat)
    ensures OccursAt(s, k, i) && i <= p < i + |k| ==> p < |s| && s[p] == k[p - i] && k[p - i] in k
  {
    assert OccursAt(s, k, i) && i <= p < i + |k| ==> s[i..i + |k|][p - i] == s[p];
  }

  /** A key occurring in a slice occurs in the whole, and the other way round. */
  lemma OccursIn(pre: string, s: string, post: string, k: string, i: nat)
    ensures OccursAt(s, k, i) ==> OccursAt(pre + s + post, k, |pre| + i)
    ensures i + |k| <= |s| && OccursAt(pre + s + post, k, |pre| + i) ==> OccursAt(s, k, i)
  {
    if i + |k| <= |s| {
      assert (pre + s + post)[|pre| + i..|pre| + i + |k|] == s[i..i + |k|];
    }
  }

  /** No occurrence without the key's first character. */
  lemma NotContainsChar(s: string, k: string, i: nat)
    requires i < |k| && k[i] !in s
    ensures !Contains(s, k)
  {
    forall j: nat | j <= |s| ensures !OccursAt(s, k, j) {
      OccursIdx(s, k, j, j + i);
      assert j + |k| <= |s| ==> s[j + i] in s;
    }
  }

  lemma NotAcross(a: string, c: char, b: string, k: string, i: nat)
    requires c !in k && k != "" && OccursAt(a + [c] + b, k, i)
    ensures i + |k| <= |a| || |a| < i
  {
    OccursIdx(a + [c] + b, k, i, |a|);
  }

  lemma TailSlice(x: string, y: string, p: nat, q: nat)
    requires p <= q <= |y|
    ensures (x + y)[|x| + p..|x| + q] == y[p..q]
  {
  }

  /** A key without the character c cannot straddle one. */
  lemma ContainsAcross(a: string, c: char, b: string, k: string)
    requires c !in k && k != ""
    ensures Contains(a + [c] + b, k) <==> Contains(a, k) || Contains(b, k)
  {
    var s := a + [c] + b;
    if Contains(s, k) {
      var i: nat :| i <= |s| && OccursAt(s, k, i);
      NotAcross(a, c, b, k, i);
      if i + |k| <= |a| {
        assert a[i..i + |k|] == s[i..i + |k|];
        assert OccursAt(a, k, i);
      } else {
        var j := i - |a| - 1;
        TailSlice(a + [c], b, j, j + |k|);
        assert OccursAt(b, k, j);
      }
    }
    if Contains(a, k) {
      var i: nat :| i <= |a| && OccursAt(a, k, i);
      OccursIn("", a, [c] + b, k, i);
      assert s == "" + a + ([c] + b);
      assert OccursAt(s, k, i);
    }
    if Contains(b, k) {
      var i: nat :| i <= |b| && OccursAt(b, k, i);
      OccursIn(a + [c], b, "", k, i);
      assert s == (a + [c]) + b + "";
      assert OccursAt(s, k, |a| + 1 + i);
    }
  }

  /** snprintf into a buffer of n characters. */
  function Cut(s: string, n: nat): (r: string)
    requires n > 0
    ensures |r| < n && r <= s && (r == s <==> |s| < n)
  {
    if |s| < n then s else s[..n - 1]
  }

  // ------------------------------------------------------------- numbers

  function Digit(d: nat): char
    requires d < 10
  {
    '0' + d as char
  }

  predicate Digits(s: string) {
    forall i | 0 <= i < |s| :: '0' <= s[i] <= '9'
  }

  /** "%d" of a non-negative number. */
  function DecNat(n: nat): (s: string)
    ensures s != "" && Digits(s)
  {
    if n < 10 then [Digit(n)] else DecNat(n / 10) + [Digit(n % 10)]
  }

  /** "%d" */
  function Dec(n: int): (s: string)
    ensures s != "" && forall i | 0 <= i < |s| :: '0' <= s[i] <= '9' || s[i] == '-'
  {
    if n < 0 then "-" + DecNat(-n) else DecNat(n)
  }

  lemma DigitIs(d: nat)
    requires d < 10
    ensures Digit(d) == "0123456789"[d]
  {
    if d < 5 {
    } else {
    }
  }

  /** Decimal, most significant digit first, with a sign in front of what is negative. */
  lemma DecStep(n: nat, d: nat)
    requires d < 10
    ensures Dec(d) == ["0123456789"[d]]
    ensures n > 0 ==> Dec(10 * n + d) == Dec(n) + ["0123456789"[d]] && Dec(-(n as int)) == "-" + Dec(n)
  {
    DigitIs(d);
    if n > 0 {
      Tenths(n, d, 10 * n + d);
    }
  }

  lemma Tenths(n: nat, d: nat, m: nat)
    requires d < 10 && n > 0 && m == 10 * n + d
    ensures DecNat(m) == DecNat(n) + [Digit(d)]
  {
    assert m / 10 == n && m % 10 == d;
  }

  lemma {:induction false} DecNatShort(n: nat, k: nat, p: nat)
    requires n < p && p == Tens(k) && k > 0
    ensures |DecNat(n)| <= k
    decreases k
  {
    if n >= 10 {
      DecNatShort(n / 10, k - 1, Tens(k - 1));
    }
  }

  function Tens(k: nat): nat { if k == 0 then 1 else 10 * Tens(k - 1) }

  lemma TensTen()
    ensures Tens(10) == 10_000_000_000
  {
    assert Tens(5) == 100_000;
  }

  /** A number of 32 bits has at most ten digits and a sign. */
  lemma DecShort(n: int)
    requires -10_000_000_000 < n < 10_000_000_000
    ensures |Dec(n)| <= 11
  {
    TensTen();
    DecNatShort(if n < 0 then -n else n, 10, 10_000_000_000);
  }

  function AtoiNat(s: string): nat
    requires Digits(s)
  {
    if s == "" then 0
    else AtoiNat(s[..|s| - 1]) * 10 + (s[|s| - 1] as int - '0' as int)
  }

  /** The longest prefix of digits, which is what atoi converts. */
  function DigitRun(s: string): (r: string)
    ensures r <= s && Digits(r)
    ensures r != s ==> !('0' <= s[|r|] <= '9')
  {
    if s != "" && '0' <= s[0] <= '9' then [s[0]] + DigitRun(s[1..]) else ""
  }

  predicate Blank(c: char) { c == ' ' || '\t' <= c <= '\r' }

  /** atoi: leading blanks, a sign, and digits. */
  function Atoi(s: string): int {
    if s == "" then 0
    else if Blank(s[0]) then Atoi(s[1..])
    else if s[0] == '-' then 0 - AtoiNat(DigitRun(s[1..]))
    else if s[0] == '+' then AtoiNat(DigitRun(s[1..]))
    else AtoiNat(DigitRun(s))
  }

  lemma {:induction false} AtoiDecNat(n: nat)
    ensures AtoiNat(DecNat(n)) == n
  {
    if n < 10 {
      assert [Digit(n)][..0] == "";
      assert AtoiNat("") == 0;
    } else {
      AtoiDecNat(n / 10);
      var s := DecNat(n / 10) + [Digit(n % 10)];
      assert s[..|s| - 1] == DecNat(n / 10);
      assert s[|s| - 1] == Digit(n % 10);
    }
  }

  lemma DigitRunAll(s: string)
    requires Digits(s)
    ensures DigitRun(s) == s
  {
    var r := DigitRun(s);
    assert r == s;
  }

  /** atoi undoes "%d" on every number. */
  lemma AtoiDec(n: int)
    ensures Atoi(Dec(n)) == n
  {
    var m := if n < 0 then -n else n;
    AtoiDecNat(m);
    DigitRunAll(DecNat(m));
    if n < 0 {
      assert Dec(n)[1..] == DecNat(m);
    }
  }

  predicate Zeros(z: string) { forall i | 0 <= i < |z| :: z[i] == '0' }

  predicate Blanks(b: string) { forall i | 0 <= i < |b| :: b[i] in " \t\n\U{000B}\U{000C}\r" }

  lemma {:induction false} LeadingZeros(z: string, s: string)
    requires Digits(s) && Zeros(z)
    ensures Digits(z + s) && AtoiNat(z + s) == AtoiNat(s)
  {
    if s == "" {
      AllZeros(z);
      assert z + s == z;
    } else {
      var n := |s| - 1;
      LeadingZeros(z, s[..n]);
      assert (z + s)[..|z + s| - 1] == z + s[..n];
    }
  }

  lemma {:induction false} AllZeros(z: string)
    requires Zeros(z)
    ensures Digits(z) && AtoiNat(z) == 0
  {
    if z != "" {
      AllZeros(z[..|z| - 1]);
    }
  }

  /** The text does not go on with a digit. */
  predicate NoDigit(tail: string) { tail == "" || !('0' <= tail[0] <= '9') }

  lemma {:induction false} RunStops(s: string, tail: string)
    requires Digits(s) && NoDigit(tail)
    ensures DigitRun(s + tail) == s
  {
    if s == "" {
      assert s + tail == tail;
    } else {
      RunStops(s[1..], tail);
      assert (s + tail)[0] == s[0] && (s + tail)[1..] == s[1..] + tail;
    }
  }

  lemma {:induction false} BlanksPassed(b: string, s: string)
    requires Blanks(b)
    ensures Atoi(b + s) == Atoi(s)
  {
    if b == "" {
      assert b + s == s;
    } else {
      assert Blank(b[0]);
      BlanksPassed(b[1..], s);
      assert (b + s)[0] == b[0] && (b + s)[1..] == b[1..] + s;
    }
  }

  lemma NoSign(u: string)
    requires u != "" && '0' <= u[0] <= '9'
    ensures Atoi(u) == AtoiNat(DigitRun(u))
  {
  }

  lemma OneSign(t: string, u: string, c: char)
    requires t == [c] + u && (c == '+' || c == '-')
    ensures Atoi(t) == if c == '-' then -(AtoiNat(DigitRun(u)) as int) else AtoiNat(DigitRun(u))
  {
    assert t[0] == c && t[1..] == u;
  }

  lemma SignTaken(sign: string, digits: string, tail: string)
    requires sign in {"", "+", "-"} && Digits(digits) && digits != "" && NoDigit(tail)
    ensures Atoi(sign + (digits + tail)) == if sign == "-" then -(AtoiNat(digits) as int) else AtoiNat(digits)
  {
    var u := digits + tail;
    RunStops(digits, tail);
    if sign == "" {
      assert sign + u == u && u[0] == digits[0];
      NoSign(u);
    } else {
      OneSign(sign + u, u, sign[0]);
    }
  }

  /** atoi passes blanks, takes one sign and leading zeros, and stops behind the digits. */
  lemma AtoiReads(b: string, sign: string, z: string, n: nat, tail: string)
    requires Blanks(b) && sign in {"", "+", "-"} && Zeros(z) && NoDigit(tail)
    ensures Atoi(b + (sign + (z + Dec(n) + tail))) == if sign == "-" then -(n as int) else n
  {
    BlanksPassed(b, sign + (z + Dec(n) + tail));
    LeadingZeros(z, DecNat(n));
    AtoiDecNat(n);
    SignTaken(sign, z + Dec(n), tail);
  }
}
