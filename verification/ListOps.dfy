/** The list utilities on their buffers and pointer arrays; a pointer is an
    offset into its buffer. */
module ListOps {
  import opened CText
  import opened CBuffer
  import opened ListText

  /** Where entry k of a joined list starts. */
  function Start(ps: seq<string>, k: nat): nat
    requires k <= |ps|
  {
    if k == 0 then 0 else Start(ps, k - 1) + |ps[k - 1]| + 1
  }

  lemma {:induction false} StartTail(ps: seq<string>, k: nat)
    requires 0 < k <= |ps|
    ensures Start(ps, k) == |ps[0]| + 1 + Start(ps[1..], k - 1)
  {
    if k > 1 {
      StartTail(ps, k - 1);
    }
  }

  /** Entry k of a joined list lies at its start, behind a delimiter. */
  lemma {:induction false} JoinSlice(ps: seq<string>, d: char, k: nat)
    requires k < |ps|
    ensures Start(ps, k) + |ps[k]| <= |Join(ps, d)|
    ensures Join(ps, d)[Start(ps, k)..Start(ps, k) + |ps[k]|] == ps[k]
    ensures k > 0 ==> Start(ps, k) > 0 && Join(ps, d)[Start(ps, k) - 1] == d
    ensures k + 1 == |ps| ==> Start(ps, k) + |ps[k]| == |Join(ps, d)|
    ensures k + 1 < |ps| ==> Start(ps, k + 1) == Start(ps, k) + |ps[k]| + 1
    decreases |ps|
  {
    if k > 0 {
      JoinSlice(ps[1..], d, k - 1);
      StartTail(ps, k);
      var rest := Join(ps[1..], d);
      assert Join(ps, d) == ps[0] + [d] + rest;
      var a := Start(ps[1..], k - 1);
      assert Join(ps, d)[|ps[0]| + 1 + a..|ps[0]| + 1 + a + |ps[k]|] == rest[a..a + |ps[k]|];
    }
  }

  // ------------------------------------------------------------------ EHparsestr

  /** The entries of s from offset q on, when no delimiter counts before i. */
  function SplitFrom(s: string, d: char, q: nat, i: nat): seq<string>
    requires q <= i <= |s|
    decreases |s| - i
  {
    match StrChr(s, d, i)
    case Null => [s[q..]]
    case At(p) => [s[q..p]] + SplitFrom(s, d, p + 1, p + 1)
  }

  lemma StrChrSuffix(s: string, d: char, q: nat)
    requires q <= |s|
    ensures StrChr(s[q..], d, 0) == match StrChr(s, d, q) case Null => Null case At(p) => At(p - q)
  {
    var u := s[q..];
    match StrChr(s, d, q)
    case Null =>
      assert forall i | 0 <= i < |u| :: u[i] == s[q + i];
    case At(p) =>
      assert forall i: nat | i < p - q :: u[i] == s[q + i];
      StrChrIs(u, d, 0, p - q);
  }

  lemma PartsStep(u: string, d: char, n: nat)
    requires StrChr(u, d, 0) == At(n)
    ensures Parts(u, d) == [u[..n]] + Parts(u[n + 1..], d)
  {
  }

  lemma SuffixSlices(s: string, q: nat, p: nat)
    requires q <= p < |s|
    ensures s[q..][..p - q] == s[q..p] && s[q..][p - q + 1..] == s[p + 1..]
  {
  }

  lemma SplitFromFound(s: string, d: char, q: nat, i: nat, p: nat)
    requires q <= i <= |s| && StrChr(s, d, i) == At(p)
    ensures SplitFrom(s, d, q, i) == [s[q..p]] + SplitFrom(s, d, p + 1, p + 1)
  {
  }

  lemma PartsNone(u: string, d: char)
    requires StrChr(u, d, 0).Null?
    ensures Parts(u, d) == [u]
  {
  }

  lemma SplitFromNone(s: string, d: char, q: nat, i: nat)
    requires q <= i <= |s| && StrChr(s, d, i).Null?
    ensures SplitFrom(s, d, q, i) == [s[q..]]
  {
  }

  /** The first entry and the rest, in the string and in its suffix. */
  lemma SameFirst(s: string, d: char, q: nat, p: nat, rest: seq<string>)
    requires q <= p < |s| && StrChr(s, d, q) == At(p) && rest == Parts(s[p + 1..], d) && rest == SplitFrom(s, d, p + 1, p + 1)
    ensures SplitFrom(s, d, q, q) == Parts(s[q..], d)
  {
    StrChrSuffix(s, d, q);
    SplitFromFound(s, d, q, q, p);
    PartsStep(s[q..], d, p - q);
    SuffixSlices(s, q, p);
  }

  lemma {:induction false} SplitFromParts(s: string, d: char, q: nat)
    requires q <= |s|
    ensures SplitFrom(s, d, q, q) == Parts(s[q..], d)
    decreases |s| - q
  {
    var r := StrChr(s, d, q);
    if r.Null? {
      StrChrSuffix(s, d, q);
      SplitFromNone(s, d, q, q);
      PartsNone(s[q..], d);
    } else {
      SplitFromParts(s, d, r.pos + 1);
      SameFirst(s, d, q, r.pos, SplitFrom(s, d, r.pos + 1, r.pos + 1));
    }
  }

  lemma SplitIsFrom(s: string, d: char)
    requires s != ""
    ensures Split(s, d) == SplitFrom(s, d, 0, 1)
  {
    match StrChr(s, d, 1)
    case Null =>
    case At(p) => SplitFromParts(s, d, p + 1);
  }

  lemma SplitFromStep(s: string, d: char, q: nat, i: nat)
    requires q <= i < |s|
    ensures SplitFrom(s, d, q, i) == if s[i] == d then [s[q..i]] + SplitFrom(s, d, i + 1, i + 1) else SplitFrom(s, d, q, i + 1)
  {
  }

  /** Enough room for every entry, and for the first one even when there is none. */
  predicate Room(a: array?<nat>, n: nat) { a != null ==> a.Length >= n && a.Length >= 1 }

  /** The scan stands at i, the current entry started at q, count are begun. */
  predicate Scanned(s: string, d: char, q: nat, i: nat, count: nat) {
    && q <= i <= |s| && 1 <= count <= |Split(s, d)|
    && Split(s, d) == Split(s, d)[..count - 1] + SplitFrom(s, d, q, i)
    && q == Start(Split(s, d), count - 1)
  }

  lemma ScanStart(s: string, d: char)
    requires s != ""
    ensures Scanned(s, d, 0, 1, 1)
  {
    SplitIsFrom(s, d);
  }

  lemma ScanStep(s: string, d: char, q: nat, i: nat, count: nat)
    requires Scanned(s, d, q, i, count) && i < |s|
    ensures s[i] != d ==> Scanned(s, d, q, i + 1, count)
    ensures s[i] == d ==> Scanned(s, d, i + 1, i + 1, count + 1) && |Split(s, d)[count - 1]| == i - q
    ensures s[i] == d ==> count < |Split(s, d)| && i + 1 == Start(Split(s, d), count)
  {
    SplitFromStep(s, d, q, i);
    if s[i] == d {
      EntryFound(Split(s, d), count, s[q..i], SplitFrom(s, d, i + 1, i + 1));
    }
  }

  lemma ScanEnd(s: string, d: char, q: nat, count: nat)
    requires Scanned(s, d, q, |s|, count)
    ensures count == |Split(s, d)| && |Split(s, d)[count - 1]| == |s| - q
  {
    EntryLast(Split(s, d), count, s[q..]);
  }

  /** How many entries have begun, and where the current one began, when the
      scan has looked at the characters before i. */
  function CountAt(s: string, d: char, i: nat): nat
    requires i <= |s|
  {
    if i <= 1 then 1 else CountAt(s, d, i - 1) + (if s[i - 1] == d then 1 else 0)
  }

  function PrevAt(s: string, d: char, i: nat): nat
    requires i <= |s|
  {
    if i <= 1 then 0 else if s[i - 1] == d then i else PrevAt(s, d, i - 1)
  }

  lemma {:induction false} ScanAt(s: string, d: char, i: nat)
    requires 1 <= i <= |s|
    ensures Scanned(s, d, PrevAt(s, d, i), i, CountAt(s, d, i))
  {
    if i == 1 {
      ScanStart(s, d);
    } else {
      ScanAt(s, d, i - 1);
      ScanStep(s, d, PrevAt(s, d, i - 1), i - 1, CountAt(s, d, i - 1));
    }
  }

  lemma AtDelimiter(s: string, d: char, i: nat)
    requires 1 <= i < |s| && s[i] == d
    ensures var ps, n := Split(s, d), CountAt(s, d, i);
            && 1 <= n < |ps| && PrevAt(s, d, i) <= i && |ps[n - 1]| == i - PrevAt(s, d, i) && i + 1 == Start(ps, n)
  {
    ScanAt(s, d, i);
    ScanStep(s, d, PrevAt(s, d, i), i, CountAt(s, d, i));
  }

  lemma AtEnd(s: string, d: char)
    requires s != ""
    ensures var ps, n := Split(s, d), CountAt(s, d, |s|);
            n == |ps| && n > 0 && PrevAt(s, d, |s|) <= |s| && |ps[n - 1]| == |s| - PrevAt(s, d, |s|)
  {
    ScanAt(s, d, |s|);
    ScanEnd(s, d, PrevAt(s, d, |s|), CountAt(s, d, |s|));
  }

  lemma ScanNone(s: string, d: char)
    requires StrChr(s, d, 0).Null?
    ensures Split(s, d) == if s == "" then [] else [s]
  {
  }

  function Starts(ps: seq<string>): seq<nat> { seq(|ps|, k requires 0 <= k < |ps| => Start(ps, k)) }

  function Lengths(ps: seq<string>): seq<nat> { seq(|ps|, k requires 0 <= k < |ps| => |ps[k]|) }

  /** The table of entries agrees with a delimiter at i. */
  predicate Cut(s: string, d: char, i: nat, starts: seq<nat>, lens: seq<nat>)
    requires i <= |s|
  {
    var n := CountAt(s, d, i);
    1 <= n < |starts| && n <= |lens| && PrevAt(s, d, i) <= i && lens[n - 1] == i - PrevAt(s, d, i) && starts[n] == i + 1
  }

  /** The table agrees with the string. */
  predicate Tabled(s: string, d: char, starts: seq<nat>, lens: seq<nat>) {
    && |starts| == |lens| >= 1 && starts[0] == 0
    && (forall i | 1 <= i < |s| && s[i] == d :: Cut(s, d, i, starts, lens))
    && CountAt(s, d, |s|) == |lens| && PrevAt(s, d, |s|) <= |s| && lens[|lens| - 1] == |s| - PrevAt(s, d, |s|)
  }

  lemma SplitTable(s: string, d: char)
    requires s != ""
    ensures Tabled(s, d, Starts(Split(s, d)), Lengths(Split(s, d)))
  {
    AtEnd(s, d);
    var ps := Split(s, d);
    assert Start(ps, 0) == 0;
    forall i | 1 <= i < |s| && s[i] == d ensures Cut(s, d, i, Starts(ps), Lengths(ps)) {
      AtDelimiter(s, d, i);
    }
  }

  /** The first n elements of a table, where there is an array for them. */
  ghost predicate Filled(a: array?<nat>, table: seq<nat>, n: nat)
    reads a
  {
    a != null ==> n <= a.Length && n <= |table| && a[..n] == table[..n]
  }

  /** A delimiter at i ends entry count - 1 and starts entry count. */
  method Delimit(pntr: array<nat>, len: array?<nat>, count: nat, prevDelimPos: nat, i: nat, ghost starts: seq<nat>, ghost lens: seq<nat>)
    requires 1 <= count < |starts| == |lens| && Room(pntr, |starts|) && Room(len, |starts|) && pntr != len
    requires Filled(pntr, starts, count) && Filled(len, lens, count - 1)
    requires prevDelimPos <= i && lens[count - 1] == i - prevDelimPos && i + 1 == starts[count]
    modifies pntr, len
    ensures Filled(pntr, starts, count + 1) && Filled(len, lens, count)
  {
    if len != null {
      len[count - 1] := i - prevDelimPos;
      assert len[..count] == len[..count - 1] + [len[count - 1]];
      assert lens[..count] == lens[..count - 1] + [lens[count - 1]];
    }
    pntr[count] := i + 1;
    assert pntr[..count + 1] == pntr[..count] + [pntr[count]];
    assert starts[..count + 1] == starts[..count] + [starts[count]];
  }

  /** The scan over a string that holds a delimiter. */
  method ParseLoop(instring: string, delim: char, pntr: array?<nat>, len: array?<nat>, ghost starts: seq<nat>, ghost lens: seq<nat>)
    returns (count: nat)
    requires instring != "" && Tabled(instring, delim, starts, lens) && Room(pntr, |starts|) && Room(len, |starts|)
    requires pntr != null ==> pntr != len && pntr[0] == 0
    modifies pntr, len
    ensures count == |starts|
    ensures Filled(pntr, starts, count) && (pntr != null ==> Filled(len, lens, count))
  {
    var slen := |instring|;
    var prevDelimPos := 0;
    count := 1;
    CountGrows(instring, delim, 1);
    var i := 1;
    while i < slen
      invariant 1 <= i <= slen && 1 <= count == CountAt(instring, delim, i) && prevDelimPos == PrevAt(instring, delim, i)
      invariant Filled(pntr, starts, count)
      invariant pntr != null ==> Filled(len, lens, count - 1)
    {
      if instring[i] == delim {
        assert Cut(instring, delim, i, starts, lens);
        if pntr != null {
          Delimit(pntr, len, count, prevDelimPos, i, starts, lens);
        }
        prevDelimPos := i + 1;
        count := count + 1;
      }
      i := i + 1;
    }
    if pntr != null && len != null {
      len[count - 1] := i - prevDelimPos;
      assert len[..count] == len[..count - 1] + [len[count - 1]];
      assert lens[..count] == lens[..count - 1] + [lens[count - 1]];
    }
  }

  lemma {:induction false} CountGrows(s: string, d: char, i: nat)
    requires 1 <= i <= |s|
    ensures 1 <= CountAt(s, d, i) <= CountAt(s, d, |s|)
    decreases |s| - i
  {
    if i < |s| {
      CountGrows(s, d, i + 1);
    }
    CountPositive(s, d, i);
  }

  lemma {:induction false} CountPositive(s: string, d: char, i: nat)
    requires i <= |s|
    ensures 1 <= CountAt(s, d, i)
  {
    if i > 1 {
      CountPositive(s, d, i - 1);
    }
  }

  /** EHparsestr: pntr and len are filled when given; without pntr the call only
      counts. */
  method ParseStr(instring: string, delim: char, pntr: array?<nat>, len: array?<nat>) returns (count: nat)
    requires Room(pntr, |Split(instring, delim)|) && Room(len, |Split(instring, delim)|)
    requires pntr != null && len != null ==> pntr != len
    modifies pntr, len
    ensures count == |Split(instring, delim)|
    ensures pntr != null ==> pntr[..count] == Starts(Split(instring, delim))
    ensures pntr != null && len != null ==> len[..count] == Lengths(Split(instring, delim))
  {
    var slen := |instring|;
    var delimitor := StrChr(instring, delim, 0);
    count := if slen == 0 then 0 else 1;
    if pntr != null {
      pntr[0] := 0;
    }
    if delimitor.Null? {
      if len != null {
        len[0] := slen;
      }
      ScanNone(instring, delim);
      return;
    }
    SplitTable(instring, delim);
    count := ParseLoop(instring, delim, pntr, len, Starts(Split(instring, delim)), Lengths(Split(instring, delim)));
  }

  lemma EntryFound(parts: seq<string>, count: nat, e: string, rest: seq<string>)
    requires 1 <= count <= |parts| && parts == parts[..count - 1] + ([e] + rest) && rest != []
    ensures count + 1 <= |parts| && parts[count - 1] == e && parts == parts[..count] + rest
    ensures Start(parts, count) == Start(parts, count - 1) + |e| + 1
  {
    assert parts[..count] == parts[..count - 1] + [e];
  }

  lemma EntryLast(parts: seq<string>, count: nat, e: string)
    requires 1 <= count <= |parts| && parts == parts[..count - 1] + [e]
    ensures count == |parts| && parts[count - 1] == e
  {
  }

  /** What pntr and len point at are the entries. */
  lemma ParsedEntries(s: string, d: char, k: nat)
    requires k < |Split(s, d)|
    ensures var ps := Split(s, d);
            Start(ps, k) + |ps[k]| <= |s| && s[Start(ps, k)..Start(ps, k) + |ps[k]|] == ps[k]
  {
    JoinSplit(s, d);
    JoinSlice(Split(s, d), d, k);
  }

  /** The tables, filled by the second call. */
  method FillTables(instring: string, delim: char, n: nat, ghost ps: seq<string>) returns (ptr: array<nat>, slen: array<nat>)
    requires ps == Split(instring, delim) && n == |ps| >= 1
    ensures fresh(ptr) && fresh(slen) && ptr[..] == Starts(ps) && slen[..] == Lengths(ps)
  {
    ptr := new nat[n];
    slen := new nat[n];
    var nentries := ParseStr(instring, delim, ptr, slen);
    assert ptr[..] == ptr[..n] && slen[..] == slen[..n];
  }

  /** Count the entries, allocate the tables, fill them. */
  method ParseEntries(instring: string, delim: char) returns (ptr: array<nat>, slen: array<nat>, ghost ps: seq<string>)
    requires instring != ""
    ensures ps == Split(instring, delim) && fresh(ptr) && fresh(slen) && ptr.Length == slen.Length == |ps| >= 1
    ensures forall i | 0 <= i < |ps| :: ptr[i] == Start(ps, i) && slen[i] == |ps[i]|
    ensures forall i | 0 <= i < |ps| :: ptr[i] + slen[i] <= |instring| && instring[ptr[i]..ptr[i] + slen[i]] == ps[i]
  {
    ps := Split(instring, delim);
    var nentries := ParseStr(instring, delim, null, null);
    SomeEntry(instring, delim);
    ptr, slen := FillTables(instring, delim, nentries, ps);
    TableEntries(instring, delim, ps, ptr[..], slen[..]);
  }

  lemma SomeEntry(s: string, d: char)
    requires s != ""
    ensures |Split(s, d)| >= 1
  {
    JoinSplit(s, d);
  }

  lemma TableEntries(s: string, d: char, ps: seq<string>, starts: seq<nat>, lens: seq<nat>)
    requires ps == Split(s, d) && starts == Starts(ps) && lens == Lengths(ps)
    ensures forall i | 0 <= i < |ps| :: starts[i] == Start(ps, i) && lens[i] == |ps[i]|
    ensures forall i | 0 <= i < |ps| :: starts[i] + lens[i] <= |s| && s[starts[i]..starts[i] + lens[i]] == ps[i]
  {
    forall i | 0 <= i < |ps| ensures starts[i] + lens[i] <= |s| && s[starts[i]..starts[i] + lens[i]] == ps[i] {
      ParsedEntries(s, d, i);
    }
  }

  // --------------------------------------------------------------- EHloadliststr

  lemma {:induction false} JoinMore(ps: seq<string>, e: string, d: char)
    ensures Join(ps + [e], d) == if ps == [] then e else Join(ps, d) + [d] + e
  {
    if |ps| >= 1 {
      var qs := ps + [e];
      assert qs[1..] == ps[1..] + [e];
      if |ps| > 1 {
        JoinMore(ps[1..], e, d);
      }
    }
  }

  /** The list after i entries: a delimiter already follows, unless all are in. */
  function LoadedFront(es: seq<string>, i: nat, d: char): string
    requires i <= |es|
  {
    Join(es[..i], d) + (if 0 < i < |es| then [d] else "")
  }

  lemma LoadedStep(es: seq<string>, i: nat, d: char)
    requires i < |es|
    ensures LoadedFront(es, i + 1, d) == LoadedFront(es, i, d) + es[i] + (if i + 1 == |es| then "" else [d])
    ensures |LoadedFront(es, i + 1, d)| <= |Join(es, d)|
  {
    assert es[..i + 1] == es[..i] + [es[i]];
    JoinMore(es[..i], es[i], d);
    JoinPrefix(es, i + 1, d);
  }

  /** memcpy of a string with its terminator, then strcat of the delimiter. */
  method LoadEntry(liststr: array<char>, off: nat, e: string, last: bool, delim: char, ghost before: string)
    requires off == |before| && '\0' !in e && '\0' !in before && delim != '\0'
    requires off + |e| + (if last then 0 else 1) < liststr.Length && liststr[..off] == before
    modifies liststr
    ensures Holds(liststr, before + e + (if last then "" else [delim]))
  {
    MemCpy(liststr, off, e + ['\0']);
    assert liststr[..off + |e|] == before + e;
    if !last {
      StrCat(liststr, [delim], before + e);
    }
    assert before + e + "" == before + e;
  }

  /** What the list holds after each entry. */
  predicate Fronts(fronts: seq<string>, es: seq<string>, d: char) {
    && |fronts| == |es| + 1 && fronts[0] == "" && fronts[|es|] == Join(es, d)
    && (forall i | 0 <= i <= |es| :: '\0' !in fronts[i] && |fronts[i]| <= |Join(es, d)|)
    && forall i | 0 <= i < |es| :: fronts[i + 1] == fronts[i] + es[i] + (if i == |es| - 1 then "" else [d])
  }

  function LoadedFronts(es: seq<string>, d: char): seq<string> {
    seq(|es| + 1, i requires 0 <= i <= |es| => LoadedFront(es, i, d))
  }

  lemma {:induction false} LoadedNoNul(es: seq<string>, i: nat, d: char)
    requires i <= |es| && d != '\0' && forall e <- es :: '\0' !in e
    ensures '\0' !in LoadedFront(es, i, d) && |LoadedFront(es, i, d)| <= |Join(es, d)|
  {
    if i > 0 {
      assert es[i - 1] in es;
      LoadedNoNul(es, i - 1, d);
      LoadedStep(es, i - 1, d);
    }
  }

  lemma FrontsAre(es: seq<string>, d: char)
    requires d != '\0' && forall e <- es :: '\0' !in e
    ensures Fronts(LoadedFronts(es, d), es, d)
  {
    var fronts := LoadedFronts(es, d);
    assert es[..|es|] == es;
    forall i | 0 <= i <= |es| ensures '\0' !in fronts[i] && |fronts[i]| <= |Join(es, d)| {
      LoadedNoNul(es, i, d);
    }
    forall i | 0 <= i < |es| ensures fronts[i + 1] == fronts[i] + es[i] + (if i == |es| - 1 then "" else [d]) {
      LoadedStep(es, i, d);
    }
  }

  /** EHloadliststr: copy each string with its terminator, append the delimiter
      where the terminator stands. */
  method LoadListStr(buf: array<char>, ptr: array<nat>, nentries: nat, liststr: array<char>, delim: char, ghost es: seq<string>)
    returns (status: int)
    requires buf != liststr && delim != '\0' && nentries == |es| <= ptr.Length
    requires forall i | 0 <= i < nentries :: ptr[i] <= buf.Length && CStringAt(buf[..], ptr[i]) == es[i]
    requires |Join(es, delim)| < liststr.Length
    modifies liststr
    ensures status == 0 && (nentries > 0 ==> Holds(liststr, Join(es, delim)))
  {
    assert forall e <- es :: '\0' !in e;
    FrontsAre(es, delim);
    status := LoadLoop(buf, ptr, nentries, liststr, delim, es, LoadedFronts(es, delim), |Join(es, delim)|);
  }

  method LoadLoop(buf: array<char>, ptr: array<nat>, nentries: nat, liststr: array<char>, delim: char,
                  ghost es: seq<string>, ghost fronts: seq<string>, ghost total: nat)
    returns (status: int)
    requires buf != liststr && delim != '\0' && nentries == |es| <= ptr.Length && |fronts| == nentries + 1 && total < liststr.Length
    requires forall i | 0 <= i < nentries :: ptr[i] <= buf.Length && CStringAt(buf[..], ptr[i]) == es[i]
    requires fronts[0] == "" && forall i | 0 <= i <= nentries :: '\0' !in fronts[i] && |fronts[i]| <= total
    requires forall i | 0 <= i < nentries :: fronts[i + 1] == fronts[i] + es[i] + (if i == nentries - 1 then "" else [delim])
    modifies liststr
    ensures status == 0 && (nentries > 0 ==> Holds(liststr, fronts[nentries]))
  {
    status := 0;
    var off := 0;
    var i := 0;
    while i < nentries
      invariant 0 <= i <= nentries && buf[..] == old(buf[..])
      invariant i < nentries ==> off == |fronts[i]|
      invariant i > 0 ==> Holds(liststr, fronts[i])
    {
      var e := CStringAt(buf[..], ptr[i]);
      assert fronts[i + 1] == fronts[i] + e + (if i == nentries - 1 then "" else [delim]);
      LoadEntry(liststr, off, e, i == nentries - 1, delim, fronts[i]);
      off := off + |e| + 1;
      i := i + 1;
    }
  }

  lemma {:induction false} JoinPrefix(ps: seq<string>, k: nat, d: char)
    requires 0 < k <= |ps|
    ensures |Join(ps[..k], d)| + (if k < |ps| then 1 else 0) <= |Join(ps, d)|
    decreases |ps| - k
  {
    if k < |ps| {
      assert ps[..k + 1] == ps[..k] + [ps[k]];
      JoinMore(ps[..k], ps[k], d);
      JoinPrefix(ps, k + 1, d);
    } else {
      assert ps[..k] == ps;
    }
  }

  // ------------------------------------------------------------------- EHmetalist

  /** The text after each turn of the loop: a list of entries, an open
      parenthesis, and the quoted entries up to there. */
  predicate Quotes(fronts: seq<string>, ps: seq<string>, i: nat)
    requires i < |ps| && |fronts| == |ps| + 1
  {
    fronts[i + 1] == fronts[i] + "\"" + ps[i] + "\"" + (if i == |ps| - 1 then "" else ",")
  }

  predicate QuoteSteps(fronts: seq<string>, ps: seq<string>, total: nat) {
    && |fronts| == |ps| + 1 && fronts[0] == "("
    && (forall i | 0 <= i <= |ps| :: |fronts[i]| < total)
    && forall i | 0 <= i < |ps| :: Quotes(fronts, ps, i)
  }

  function QuotedFronts(ps: seq<string>): seq<string> {
    seq(|ps| + 1, i requires 0 <= i <= |ps| => "(" + QuotedFront(ps, i))
  }

  lemma QuotedFrontsAre(ps: seq<string>, fronts: seq<string>)
    requires fronts == QuotedFronts(ps)
    ensures QuoteSteps(fronts, ps, |QuotedList(ps)|) && fronts[|ps|] + ")" == QuotedList(ps)
  {
    FrontAll(ps);
    forall i | 0 <= i <= |ps| ensures |fronts[i]| < |QuotedList(ps)| {
      FrontLength(ps, i);
    }
    forall i | 0 <= i < |ps| ensures Quotes(fronts, ps, i) {
      FrontStep(ps, i);
    }
  }

  /** EHmetalist: the output buffer grows entry by entry. */
  method MetaListInto(instring: string, outstring: array<char>) returns (status: int)
    requires instring != "" && '\0' !in instring
    requires |QuotedList(Split(instring, ','))| < outstring.Length
    modifies outstring
    ensures status == 0 && Holds(outstring, QuotedList(Split(instring, ',')))
  {
    var ptr, slen, ps := ParseEntries(instring, ',');
    ghost var fronts := QuotedFronts(ps);
    QuotedFrontsAre(ps, fronts);
    var len := QuoteLoop(instring, ptr, slen, ptr.Length, outstring, ps, fronts, |QuotedList(ps)|);
    StrCat(outstring, ")", fronts[|ps|]);
    status := 0;
  }

  /** The loop over the entries: the tracked length is the length of the string
      the buffer holds at every step. */
  method QuoteLoop(instring: string, ptr: array<nat>, slen: array<nat>, nentries: nat, outstring: array<char>,
                   ghost ps: seq<string>, ghost fronts: seq<string>, ghost total: nat)
    returns (listlen: nat)
    requires nentries == |ps| <= ptr.Length && nentries <= slen.Length && '\0' !in instring
    requires QuoteSteps(fronts, ps, total) && total < outstring.Length
    requires forall i | 0 <= i < nentries :: ptr[i] + slen[i] <= |instring| && instring[ptr[i]..ptr[i] + slen[i]] == ps[i]
    modifies outstring
    ensures Holds(outstring, fronts[nentries]) && listlen == |fronts[nentries]|
  {
    listlen := 1;
    StrCpy(outstring, "(");
    var i := 0;
    while i < nentries
      invariant 0 <= i <= nentries
      invariant Holds(outstring, fronts[i]) && listlen == |fronts[i]|
    {
      var e := instring[ptr[i]..ptr[i] + slen[i]];
      assert Quotes(fronts, ps, i);
      assert |fronts[i + 1]| < total;
      listlen := AddEntry(outstring, listlen, e, i == nentries - 1, fronts[i]);
      i := i + 1;
    }
  }

  /** One turn of the loop: a quote, the entry, a quote, and a comma unless it is
      the last. The tracked length stays the length of the string. */
  method AddEntry(outstring: array<char>, listlen: nat, e: string, last: bool, ghost done: string) returns (len: nat)
    requires Holds(outstring, done) && listlen == |done| && '\0' !in e
    requires |done| + |e| + 2 + (if last then 0 else 1) < outstring.Length
    modifies outstring
    ensures Holds(outstring, done + "\"" + e + "\"" + (if last then "" else ","))
    ensures len == |done| + |e| + 2 + (if last then 0 else 1)
  {
    len := listlen;
    StrCat(outstring, "\"", done);
    len := len + 1;
    Append(outstring, len, e, done + "\"");
    len := len + |e|;
    StrCat(outstring, "\"", done + "\"" + e);
    len := len + 1;
    if !last {
      StrCat(outstring, ",", done + "\"" + e + "\"");
      len := len + 1;
    }
    assert done + "\"" + e + "\"" + "" == done + "\"" + e + "\"";
  }

  /** The first i entries, quoted, each but the list's last with its comma. */
  function QuotedFront(ps: seq<string>, i: nat): string
    requires i <= |ps|
  {
    if i == 0 then "" else QuotedFront(ps, i - 1) + Quoted(ps[i - 1]) + (if i < |ps| then "," else "")
  }

  lemma FrontStep(ps: seq<string>, i: nat)
    requires i < |ps|
    ensures "(" + QuotedFront(ps, i + 1)
            == "(" + QuotedFront(ps, i) + "\"" + ps[i] + "\"" + (if i == |ps| - 1 then "" else ",")
  {
    QuotedText("(", QuotedFront(ps, i), ps[i], if i == |ps| - 1 then "" else ",");
  }

  lemma QuotedText(p: string, t: string, e: string, comma: string)
    ensures p + (t + Quoted(e) + comma) == p + t + "\"" + e + "\"" + comma
  {
  }

  lemma {:induction false} FrontLength(ps: seq<string>, i: nat)
    requires i <= |ps|
    ensures |QuotedFront(ps, i)| <= |QuotedItems(ps)|
    decreases |ps| - i
  {
    if i < |ps| {
      FrontLength(ps, i + 1);
    } else {
      FrontAll(ps);
    }
  }

  lemma FrontAll(ps: seq<string>)
    ensures QuotedFront(ps, |ps|) == QuotedItems(ps)
  {
    if ps != [] {
      FrontFrom(ps, 0);
    }
  }

  /** The rest of the items after the first i. */
  lemma {:induction false} FrontFrom(ps: seq<string>, i: nat)
    requires i < |ps|
    ensures QuotedFront(ps, |ps|) == QuotedFront(ps, i) + QuotedItems(ps[i..])
    decreases |ps| - i
  {
    assert ps[i..][1..] == ps[i + 1..] && ps[i..][0] == ps[i];
    if i + 1 < |ps| {
      FrontFrom(ps, i + 1);
    }
  }
}
