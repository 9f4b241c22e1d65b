/** EHrevflds: a comma list with its entries in reverse order. */
module ListReverse {
  import opened CText
  import opened CBuffer
  import opened ListText
  import opened ListOps

  function Reverse<T>(s: seq<T>): (r: seq<T>)
    ensures |r| == |s| && forall i | 0 <= i < |s| :: r[i] == s[|s| - 1 - i]
  {
    if s == [] then [] else Reverse(s[1..]) + [s[0]]
  }

  /** The list whose entries are those of s, last one first. */
  function Reversed(s: string): string { Join(Reverse(Split(s, ',')), ',') }

  lemma {:induction false} JoinTwo(ps: seq<string>, a: string, b: string, d: char)
    ensures Join(ps + [a + [d] + b], d) == Join(ps + [a, b], d)
  {
    JoinMore(ps, a + [d] + b, d);
    JoinMore(ps, a, d);
    JoinMore(ps + [a], b, d);
    assert ps + [a] + [b] == ps + [a, b];
  }

  lemma {:induction false} JoinReverseLength(ps: seq<string>, d: char)
    ensures |Join(Reverse(ps), d)| == |Join(ps, d)|
  {
    if ps != [] {
      JoinReverseLength(ps[1..], d);
      JoinMore(Reverse(ps[1..]), ps[0], d);
    }
  }

  // ------------------------------------------------------------- the operation

  /** One delimiter between entry k and the next. */
  predicate Gap(ps: seq<string>, starts: seq<nat>, k: nat) {
    k + 1 < |ps| && k + 1 < |starts| && starts[k + 1] == starts[k] + |ps[k]| + 1
  }

  /** Entry k of s starts at starts[k]; behind each entry stands a delimiter or
      the end of s. */
  predicate Layout(s: string, ps: seq<string>, starts: seq<nat>) {
    && |starts| == |ps|
    && (forall k | 0 <= k < |ps| :: starts[k] + |ps[k]| <= |s| && s[starts[k]..starts[k] + |ps[k]|] == ps[k])
    && (forall j, k | 0 <= j < k < |ps| :: starts[j] + |ps[j]| < starts[k])
    && (forall k | 0 <= k < |ps| - 1 :: Gap(ps, starts, k))
    && (ps != [] ==> starts[|ps| - 1] + |ps[|ps| - 1]| == |s|)
  }

  lemma {:induction false} StartsOrdered(ps: seq<string>, j: nat, k: nat)
    requires j < k <= |ps|
    ensures Start(ps, j) + |ps[j]| < Start(ps, k)
  {
    if j + 1 < k {
      StartsOrdered(ps, j, k - 1);
    }
  }

  lemma JoinLayout(s: string, d: char, ps: seq<string>, starts: seq<nat>)
    requires s == Join(ps, d) && |starts| == |ps| && forall i | 0 <= i < |ps| :: starts[i] == Start(ps, i)
    ensures Layout(s, ps, starts)
  {
    forall k | 0 <= k < |ps|
      ensures starts[k] + |ps[k]| <= |s| && s[starts[k]..starts[k] + |ps[k]|] == ps[k]
      ensures k + 1 == |ps| ==> starts[k] + |ps[k]| == |s|
      ensures k + 1 < |ps| ==> Gap(ps, starts, k)
    {
      JoinSlice(ps, d, k);
    }
    forall j, k | 0 <= j < k < |ps| ensures starts[j] + |ps[j]| < starts[k] {
      StartsOrdered(ps, j, k);
    }
  }

  /** Swap the pointers end for end. */
  method SwapPointers(ptr: array<nat>, nentries: nat)
    requires nentries <= ptr.Length
    modifies ptr
    ensures forall i | 0 <= i < nentries :: ptr[i] == old(ptr[nentries - 1 - i])
  {
    var indx := 0;
    while indx < nentries / 2
      invariant 0 <= indx <= nentries / 2
      invariant forall i | 0 <= i < indx :: ptr[i] == old(ptr[nentries - 1 - i]) && ptr[nentries - 1 - i] == old(ptr[i])
      invariant forall i | indx <= i < nentries - indx :: ptr[i] == old(ptr[i])
    {
      var tempPtr := ptr[indx];
      ptr[indx] := ptr[nentries - 1 - indx];
      ptr[nentries - 1 - indx] := tempPtr;
      indx := indx + 1;
    }
  }

  /** The characters of every entry, at its start. */
  ghost predicate EntriesAt(temp: array<char>, ps: seq<string>, starts: seq<nat>)
    reads temp
  {
    |starts| == |ps| && forall k | 0 <= k < |ps| :: EntryAt(temp, ps[k], starts[k])
  }

  ghost predicate EntryAt(temp: array<char>, e: string, start: nat)
    reads temp
  {
    start + |e| < temp.Length && temp[start..start + |e|] == e
  }

  /** The entries from number m on are terminated. */
  ghost predicate CutFrom(temp: array<char>, ps: seq<string>, starts: seq<nat>, m: nat)
    reads temp
  {
    |starts| == |ps| && forall k | m <= k < |ps| :: starts[k] + |ps[k]| < temp.Length && temp[starts[k] + |ps[k]|] == '\0'
  }

  /** The NUL in front of entry j + 1: behind entry j, and in no entry. */
  method CutAt(temp: array<char>, p: nat, ghost s: string, ghost ps: seq<string>, ghost starts: seq<nat>, ghost j: nat)
    requires Layout(s, ps, starts) && |s| < temp.Length && j + 1 < |ps| && p + 1 == starts[j + 1]
    requires EntriesAt(temp, ps, starts) && CutFrom(temp, ps, starts, j + 1)
    modifies temp
    ensures EntriesAt(temp, ps, starts) && CutFrom(temp, ps, starts, j)
  {
    ghost var was := temp[..];
    assert Gap(ps, starts, j);
    temp[p] := '\0';
    forall k | 0 <= k < |ps| ensures EntryAt(temp, ps[k], starts[k]) {
      assert was[starts[k]..starts[k] + |ps[k]|] == ps[k];
    }
  }

  /** A NUL in front of every entry but the last pointed at, which after the
      swap is the first of the list: each delimiter is overwritten, no entry is. */
  method CutEntries(temp: array<char>, ptr: array<nat>, nentries: nat, ghost s: string, ghost ps: seq<string>, ghost starts: seq<nat>)
    requires 1 <= nentries == |ps| <= ptr.Length && Layout(s, ps, starts) && |s| < temp.Length && temp[|s|] == '\0'
    requires EntriesAt(temp, ps, starts)
    requires forall i | 0 <= i < nentries :: ptr[i] == starts[nentries - 1 - i]
    modifies temp
    ensures EntriesAt(temp, ps, starts) && CutFrom(temp, ps, starts, 0)
  {
    var indx := 0;
    while indx < nentries - 1
      invariant 0 <= indx <= nentries - 1
      invariant EntriesAt(temp, ps, starts) && CutFrom(temp, ps, starts, nentries - 1 - indx)
    {
      assert Gap(ps, starts, nentries - 2 - indx);
      CutAt(temp, ptr[indx] - 1, s, ps, starts, nentries - 2 - indx);
      indx := indx + 1;
    }
  }

  lemma StringIs(b: seq<char>, p: nat, t: string)
    requires p + |t| < |b| && b[p + |t|] == '\0' && b[p..p + |t|] == t && '\0' !in t
    ensures CStringAt(b, p) == t
  {
    forall i | 0 <= i < |t| ensures b[p..][i] != '\0' {
      assert b[p..][i] == t[i];
    }
    CLenIs(b[p..], |t|);
  }

  lemma EntryStrings(b: seq<char>, s: string, ps: seq<string>, starts: seq<nat>)
    requires Layout(s, ps, starts) && |s| < |b| && '\0' !in s
    requires forall k | 0 <= k < |ps| :: b[starts[k]..starts[k] + |ps[k]|] == ps[k] && b[starts[k] + |ps[k]|] == '\0'
    ensures forall k | 0 <= k < |ps| :: CStringAt(b, starts[k]) == ps[k]
  {
    forall k | 0 <= k < |ps| ensures CStringAt(b, starts[k]) == ps[k] {
      assert forall c <- s[starts[k]..starts[k] + |ps[k]|] :: c in s;
      StringIs(b, starts[k], ps[k]);
    }
  }

  /** The parsed entries of a string, with their layout in it. */
  method ParseLayout(dimlist: string) returns (ptr: array<nat>, ghost ps: seq<string>)
    requires dimlist != ""
    ensures ps == Split(dimlist, ',') && ps != [] && fresh(ptr) && ptr.Length == |ps|
    ensures dimlist == Join(ps, ',') && Layout(dimlist, ps, ptr[..])
  {
    var slen;
    ptr, slen, ps := ParseEntries(dimlist, ',');
    JoinSplit(dimlist, ',');
    JoinLayout(dimlist, ',', ps, ptr[..]);
  }

  /** EHrevflds. */
  method RevFlds(dimlist: string, revdimlist: array<char>) returns (status: int)
    requires dimlist != "" && '\0' !in dimlist && |dimlist| < revdimlist.Length
    modifies revdimlist
    ensures status == 0 && Holds(revdimlist, Reversed(dimlist))
  {
    var tempdimlist := new char[|dimlist| + 1];
    StrCpy(tempdimlist, dimlist);
    HoldsString(tempdimlist, dimlist);
    var ptr, ps := ParseLayout(CStringAt(tempdimlist[..], 0));
    status := RevEntries(tempdimlist, ptr, ptr.Length, revdimlist, dimlist, ps);
  }

  /** The parsed entries of the copy, loaded in reverse. */
  method RevEntries(temp: array<char>, ptr: array<nat>, nentries: nat, revdimlist: array<char>, ghost s: string, ghost ps: seq<string>)
    returns (status: int)
    requires 1 <= nentries == |ps| == ptr.Length && s == Join(ps, ',') && Holds(temp, s) && |s| < revdimlist.Length
    requires temp != revdimlist && Layout(s, ps, ptr[..])
    modifies temp, ptr, revdimlist
    ensures status == 0 && Holds(revdimlist, Join(Reverse(ps), ','))
  {
    HeldEntries(temp, s, ps, ptr[..]);
    ghost var rs := Mirrored(ps, ',');
    status := SwapCutLoad(temp, ptr, nentries, revdimlist, s, ps, rs, ptr[..]);
  }

  lemma Mirrored(ps: seq<string>, d: char) returns (rs: seq<string>)
    ensures rs == Reverse(ps) && |rs| == |ps| && |Join(rs, d)| == |Join(ps, d)|
    ensures forall i | 0 <= i < |ps| :: rs[i] == ps[|ps| - 1 - i]
  {
    rs := Reverse(ps);
    JoinReverseLength(ps, d);
  }

  method SwapCutLoad(temp: array<char>, ptr: array<nat>, nentries: nat, revdimlist: array<char>,
                     ghost s: string, ghost ps: seq<string>, ghost rs: seq<string>, ghost starts: seq<nat>)
    returns (status: int)
    requires 1 <= nentries == |ps| == |rs| == ptr.Length && |s| < temp.Length && temp[|s|] == '\0' && '\0' !in s
    requires |Join(rs, ',')| < revdimlist.Length && forall i | 0 <= i < nentries :: rs[i] == ps[nentries - 1 - i]
    requires temp != revdimlist && ptr[..] == starts && Layout(s, ps, starts) && EntriesAt(temp, ps, starts)
    modifies temp, ptr, revdimlist
    ensures status == 0 && Holds(revdimlist, Join(rs, ','))
  {
    SwapPointers(ptr, nentries);
    assert forall i | 0 <= i < nentries :: ptr[i] == starts[nentries - 1 - i];
    CutEntries(temp, ptr, nentries, s, ps, starts);
    EntryStrings(temp[..], s, ps, starts);
    status := LoadListStr(temp, ptr, nentries, revdimlist, ',', rs);
  }

  lemma HeldEntries(temp: array<char>, s: string, ps: seq<string>, starts: seq<nat>)
    requires Holds(temp, s) && Layout(s, ps, starts)
    ensures EntriesAt(temp, ps, starts)
  {
    forall k | 0 <= k < |ps| ensures EntryAt(temp, ps[k], starts[k]) {
      assert temp[starts[k]..starts[k] + |ps[k]|] == temp[..|s|][starts[k]..starts[k] + |ps[k]|];
    }
  }

  // ----------------------------------------------- when the entries come back

  lemma EndEntries(s: string, ps: seq<string>)
    requires ps == Split(s, ',') && |ps| > 1
    ensures s != "" && (',' in ps[0] <==> s[0] == ',')
    ensures ps[|ps| - 1] == "" <==> s[|s| - 1] == ','
  {
    var n := |ps|;
    JoinSplit(s, ',');
    JoinSlice(ps, ',', 0);
    JoinSlice(ps, ',', n - 1);
    assert ps[0] == [ps[0][0]] + ps[0][1..] && s[0] == ps[0][0];
    LastIn(s, Start(ps, n - 1), ps[n - 1]);
  }

  lemma LastIn(s: string, p: nat, q: string)
    requires 0 < p <= |s| && s[p..] == q && ',' !in q && s[p - 1] == ','
    ensures q == "" <==> s[|s| - 1] == ','
  {
    if q != "" {
      assert q[|q| - 1] == s[|s| - 1] && q[|q| - 1] in q;
    }
  }

  /** The reversed list has the reversed entries exactly when it has one entry or
      neither end of it is a comma. */
  lemma ReversedEntries(s: string)
    requires s != ""
    ensures Split(Reversed(s), ',') == Reverse(Split(s, ',')) <==>
              |Split(s, ',')| == 1 || (s[0] != ',' && s[|s| - 1] != ',')
  {
    var ps := Split(s, ',');
    JoinSplit(s, ',');
    SplitJoinIff(Reverse(ps), ',');
    if |ps| > 1 {
      EndEntries(s, ps);
      ReverseProper(ps, Reverse(ps));
    }
  }

  lemma ReverseProper(ps: seq<string>, rs: seq<string>)
    requires |rs| == |ps| > 1 && (forall i | 0 <= i < |ps| :: rs[i] == ps[|ps| - 1 - i]) && forall i | 0 < i < |ps| :: ',' !in ps[i]
    ensures rs[0] != "" && ',' !in rs[0][1..] && (forall i | 0 < i < |rs| :: ',' !in rs[i]) <==>
              ps[|ps| - 1] != "" && ',' !in ps[0]
  {
    assert rs[|rs| - 1] == ps[0];
    if rs[0] != "" {
      assert forall c <- rs[0][1..] :: c in rs[0];
    }
  }

  /** Turning the parts of a list between all its commas: a leading comma travels
      with the part behind it. */
  function Turn(qs: seq<string>): seq<string> {
    if |qs| >= 2 && qs[0] == "" then Reverse(qs[2..]) + ["", qs[1]] else Reverse(qs)
  }

  lemma LeadingComma(s: string, u: string)
    requires s == "," + u
    ensures Parts(s, ',') == [""] + Parts(u, ',') && Split(s, ',') == ["," + Parts(u, ',')[0]] + Parts(u, ',')[1..]
  {
    StrChrIs(s, ',', 0, 0);
    PartsStep(s, ',', 0);
    assert s[1..] == u;
    StrChrSuffix(s, ',', 1);
    match StrChr(s, ',', 1)
    case Null =>
    case At(p) =>
      PartsStep(u, ',', p - 1);
      assert s[p + 1..] == u[p..] && s[..p] == "," + u[..p - 1];
  }

  lemma SplitOfParts(s: string)
    requires s != ""
    ensures var qs := Parts(s, ',');
            if s[0] == ',' then |qs| >= 2 && qs[0] == "" && Split(s, ',') == ["," + qs[1]] + qs[2..]
            else qs[0] != "" && Split(s, ',') == qs
  {
    if s[0] == ',' {
      assert s == "," + s[1..];
      LeadingComma(s, s[1..]);
      assert ([""] + Parts(s[1..], ','))[2..] == Parts(s[1..], ',')[1..];
    } else {
      assert StrChr(s, ',', 0) == StrChr(s, ',', 1);
    }
  }

  lemma ReversedIsTurned(s: string)
    requires s != ""
    ensures Reversed(s) == Join(Turn(Parts(s, ',')), ',') && Reversed(s) != ""
    ensures Parts(Reversed(s), ',') == Turn(Parts(s, ','))
  {
    var qs := Parts(s, ',');
    SplitOfParts(s);
    JoinParts(s, ',');
    JoinSplit(s, ',');
    JoinReverseLength(Split(s, ','), ',');
    if s[0] == ',' {
      assert Split(s, ',')[1..] == qs[2..];
      JoinTwo(Reverse(qs[2..]), "", qs[1], ',');
      assert "" + [','] + qs[1] == "," + qs[1];
    }
    TurnFree(qs);
    PartsJoin(Turn(qs), ',');
  }

  lemma TurnFree(qs: seq<string>)
    requires qs != [] && AllFree(qs, ',')
    ensures Turn(qs) != [] && AllFree(Turn(qs), ',')
  {
    forall p | p in Turn(qs) ensures p in qs {
      if |qs| >= 2 && qs[0] == "" {
        var i :| 0 <= i < |qs| && Turn(qs)[i] == p;
      }
    }
  }

  /** The first two parts change places when the first is empty. */
  function Front(qs: seq<string>): seq<string> {
    if |qs| >= 2 && qs[0] == "" then [qs[1], qs[0]] + qs[2..] else qs
  }

  /** The last two parts change places when the last is empty. */
  function Back(qs: seq<string>): seq<string> {
    var n := |qs|;
    if n >= 2 && qs[n - 1] == "" then qs[..n - 2] + [qs[n - 1], qs[n - 2]] else qs
  }

  lemma TurnFront(qs: seq<string>)
    ensures Turn(qs) == Reverse(Front(qs))
  {
  }

  lemma ReverseIs<T>(x: seq<T>, y: seq<T>)
    requires |x| == |y| && forall i | 0 <= i < |x| :: y[i] == x[|x| - 1 - i]
    ensures Reverse(x) == y
  {
  }

  lemma TurnBack(f: seq<string>)
    ensures Turn(Reverse(f)) == Back(f)
  {
    TurnFront(Reverse(f));
    FrontOfReverse(f, Reverse(f));
  }

  lemma FrontOfReverse(f: seq<string>, r: seq<string>)
    requires |r| == |f| && forall i | 0 <= i < |f| :: r[i] == f[|f| - 1 - i]
    ensures Reverse(Front(r)) == Back(f)
  {
    if |f| >= 2 && f[|f| - 1] == "" {
      SwapEnds(f, r);
    } else {
      ReverseIs(r, f);
    }
  }

  lemma SwapEnds(f: seq<string>, r: seq<string>)
    requires |r| == |f| >= 2 && forall i | 0 <= i < |f| :: r[i] == f[|f| - 1 - i]
    ensures Reverse([r[1], r[0]] + r[2..]) == f[..|f| - 2] + [f[|f| - 1], f[|f| - 2]]
  {
    var n, x, y := |f|, [r[1], r[0]] + r[2..], f[..|f| - 2] + [f[|f| - 1], f[|f| - 2]];
    forall i | 0 <= i < n ensures y[i] == x[n - 1 - i] {
      if i < n - 2 {
        assert x[n - 1 - i] == r[n - 1 - i] && y[i] == f[i];
      }
    }
    ReverseIs(x, y);
  }

  lemma FrontSame(qs: seq<string>)
    requires |qs| >= 2
    ensures Front(qs) == qs <==> (qs[0] == "" ==> qs[1] == "")
    ensures forall i | 2 <= i < |qs| :: Front(qs)[i] == qs[i]
  {
    if qs[0] == "" && qs[1] == "" {
      assert Front(qs) == qs;
    }
  }

  lemma BackSame(qs: seq<string>)
    requires |qs| >= 2
    ensures Back(qs) == qs <==> (qs[|qs| - 1] == "" ==> qs[|qs| - 2] == "")
    ensures forall i | 0 <= i < |qs| - 2 :: Back(qs)[i] == qs[i]
  {
    if qs[|qs| - 1] == "" && qs[|qs| - 2] == "" {
      assert Back(qs) == qs;
    }
  }

  lemma TurnTwice(qs: seq<string>)
    requires |qs| >= 2 && (|qs| == 2 ==> qs[0] != "")
    ensures var n := |qs|;
            Turn(Turn(qs)) == qs <==> (qs[0] == "" ==> qs[1] == "") && (qs[n - 1] == "" ==> qs[n - 2] == "")
  {
    var f := Front(qs);
    TurnFront(qs);
    TurnBack(f);
    FrontSame(qs);
    BackSame(f);
    if f == qs {
    } else if |qs| > 3 || f[|f| - 1] != "" {
      assert Back(f)[0] == f[0] && f[0] == qs[1] != qs[0];
    } else {
      assert |qs| == 3 && f == [qs[1], "", qs[2]];
      assert Back(f)[0] == qs[1];
    }
  }

  /** Reversing twice gives the list back exactly when it has one entry, or each
      end that is a comma is a double comma. */
  lemma ReversedTwice(s: string)
    requires s != ""
    ensures Reversed(Reversed(s)) == s <==>
              |Split(s, ',')| == 1 ||
              (|s| >= 2 && (s[0] == ',' ==> s[1] == ',') && (s[|s| - 1] == ',' ==> s[|s| - 2] == ','))
  {
    var qs := Parts(s, ',');
    ReversedIsTurned(s);
    ReversedIsTurned(Reversed(s));
    JoinParts(s, ',');
    SplitOfParts(s);
    if |Split(s, ',')| == 1 {
      OneEntry(s);
    } else {
      TurnTwice(qs);
      Ends(s, qs);
    }
  }

  lemma OneEntry(s: string)
    requires s != "" && |Split(s, ',')| == 1
    ensures Reversed(Reversed(s)) == s
  {
    JoinSplit(s, ',');
    assert Reverse(Split(s, ',')) == Split(s, ',');
  }

  lemma Ends(s: string, qs: seq<string>)
    requires s == Join(qs, ',') && |qs| >= 2 && AllFree(qs, ',') && (|qs| == 2 ==> qs[0] != "")
    ensures |s| >= 2 && (s[0] == ',' <==> qs[0] == "") && (s[|s| - 1] == ',' <==> qs[|qs| - 1] == "")
    ensures qs[0] == "" ==> (s[1] == ',' <==> qs[1] == "")
    ensures qs[|qs| - 1] == "" ==> (s[|s| - 2] == ',' <==> qs[|qs| - 2] == "")
  {
    FrontEnd(s, qs);
    BackEnd(s, qs);
  }

  lemma FrontEnd(s: string, qs: seq<string>)
    requires s == Join(qs, ',') && |qs| >= 2 && AllFree(qs, ',') && (|qs| == 2 ==> qs[0] != "")
    ensures |s| >= 2 && (s[0] == ',' <==> qs[0] == "")
    ensures qs[0] == "" ==> (s[1] == ',' <==> qs[1] == "")
  {
    FirstChar(qs);
    FirstChar(qs[1..]);
    assert qs[0] in qs && qs[1] in qs;
    assert s == qs[0] + [','] + Join(qs[1..], ',');
  }

  lemma BackEnd(s: string, qs: seq<string>)
    requires s == Join(qs, ',') && |qs| >= 2 && AllFree(qs, ',') && (|qs| == 2 ==> qs[0] != "") && |s| >= 2
    ensures s[|s| - 1] == ',' <==> qs[|qs| - 1] == ""
    ensures qs[|qs| - 1] == "" ==> (s[|s| - 2] == ',' <==> qs[|qs| - 2] == "")
  {
    var n := |qs|;
    var init, last, t := qs[..n - 1], qs[n - 1], Join(qs[..n - 1], ',');
    assert last in qs && qs[n - 2] in qs && init[n - 2] == qs[n - 2];
    LastOfInit(s, qs);
    LastOfInit(t, init);
    WithLast(qs);
    if last == "" {
      assert s == t + [','];
    }
  }

  lemma WithLast(qs: seq<string>)
    requires |qs| >= 2
    ensures Join(qs, ',') == Join(qs[..|qs| - 1], ',') + [','] + qs[|qs| - 1]
  {
    assert qs[..|qs| - 1] + [qs[|qs| - 1]] == qs;
    JoinMore(qs[..|qs| - 1], qs[|qs| - 1], ',');
  }

  lemma LastOfInit(t: string, init: seq<string>)
    requires t == Join(init, ',') && init != [] && (|init| == 1 ==> init[0] != "") && ',' !in init[|init| - 1]
    ensures t != "" && (t[|t| - 1] == ',' <==> init[|init| - 1] == "")
  {
    if |init| >= 2 {
      WithLast(init);
    }
  }

  lemma FirstChar(qs: seq<string>)
    requires qs != []
    ensures var s := Join(qs, ',');
            |qs| >= 2 ==> s != "" && (qs[0] == "" ==> s[0] == ',') && (qs[0] != "" ==> s[0] == qs[0][0])
    ensures |qs| == 1 ==> Join(qs, ',') == qs[0]
  {
  }

  /** A list without a comma at either end is its own double reverse. */
  lemma SelfInverse(s: string)
    requires s != "" && s[0] != ',' && s[|s| - 1] != ','
    ensures Reversed(Reversed(s)) == s
  {
    ReversedTwice(s);
    if |s| == 1 {
      SplitOne(s, ',');
    }
  }
}
