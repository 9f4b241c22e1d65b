/** NUL-terminated strings inside character buffers. */
module CBuffer {

  /** strlen, as far as the buffer reaches. */
  function CLen(s: seq<char>): (n: nat)
    ensures n <= |s| && (forall i | 0 <= i < n :: s[i] != '\0') && (n < |s| ==> s[n] == '\0')
    decreases |s|
  {
    if s == [] || s[0] == '\0' then 0 else 1 + CLen(s[1..])
  }

  lemma CLenIs(s: seq<char>, n: nat)
    requires n <= |s| && (forall i | 0 <= i < n :: s[i] != '\0') && (n < |s| ==> s[n] == '\0')
    ensures CLen(s) == n
  {
  }

  /** The C string that starts at offset p. */
  function CStringAt(s: seq<char>, p: nat): string
    requires p <= |s|
  {
    s[p..p + CLen(s[p..])]
  }

  /** The buffer holds t, terminated. */
  ghost predicate Holds(buf: array<char>, t: string)
    reads buf
  {
    |t| < buf.Length && '\0' !in t && buf[..|t|] == t && buf[|t|] == '\0'
  }

  lemma HoldsString(buf: array<char>, t: string)
    requires Holds(buf, t)
    ensures CStringAt(buf[..], 0) == t && CLen(buf[..]) == |t|
  {
    assert forall i | 0 <= i < |t| :: buf[i] == buf[..|t|][i];
    CLenIs(buf[..], |t|);
    assert buf[..][0..] == buf[..];
  }

  /** strcpy to the start of a buffer. */
  method StrCpy(buf: array<char>, t: string)
    requires |t| < buf.Length && '\0' !in t
    modifies buf
    ensures Holds(buf, t)
  {
    forall i | 0 <= i < |t| {
      buf[i] := t[i];
    }
    buf[|t|] := '\0';
    assert buf[..|t|] == t;
  }

  /** memcpy of a string's characters. */
  method MemCpy(buf: array<char>, at: nat, x: seq<char>)
    requires at + |x| <= buf.Length
    modifies buf
    ensures buf[..] == old(buf[..at]) + x + old(buf[at + |x|..])
  {
    forall i | 0 <= i < |x| {
      buf[at + i] := x[i];
    }
  }

  /** memcpy behind the string t, then a terminator. */
  method Append(buf: array<char>, at: nat, x: string, ghost t: string)
    requires Holds(buf, t) && at == |t| && at + |x| < buf.Length && '\0' !in x
    modifies buf
    ensures Holds(buf, t + x)
  {
    ghost var old0 := buf[..];
    MemCpy(buf, at, x);
    buf[at + |x|] := '\0';
    assert buf[..at + |x|] == old0[..at] + x;
  }

  /** strcat: append at the terminator. */
  method StrCat(buf: array<char>, x: string, ghost t: string)
    requires Holds(buf, t) && |t| + |x| < buf.Length && '\0' !in x
    modifies buf
    ensures Holds(buf, t + x)
  {
    HoldsString(buf, t);
    var n := CLen(buf[..]);
    Append(buf, n, x, t);
  }
}
