/** Delimited lists as values: the split EHparsestr makes, the join
    EHloadliststr makes, and when each undoes the other. */
module ListText {
  import opened CText

  /** Split at every delimiter; never empty. */
  function Parts(s: string, d: char): (ps: seq<string>)
    ensures ps != []
    decreases |s|
  {
    match StrChr(s, d, 0)
    case Null => [s]
    case At(p) => [s[..p]] + Parts(s[p + 1..], d)
  }

  /** EHparsestr scans from index 1, so a leading delimiter stays in the first
      entry; the empty string has no entries. */
  function Split(s: string, d: char): seq<string> {
    if s == "" then []
    else match StrChr(s, d, 1)
      case Null => [s]
      case At(p) => [s[..p]] + Parts(s[p + 1..], d)
  }

  function Join(ps: seq<string>, d: char): string {
    if ps == [] then ""
    else if |ps| == 1 then ps[0]
    else ps[0] + [d] + Join(ps[1..], d)
  }

  predicate AllFree(ps: seq<string>, d: char) { forall p <- ps :: d !in p }

  lemma {:induction false} JoinParts(s: string, d: char)
    ensures Join(Parts(s, d), d) == s && AllFree(Parts(s, d), d)
    decreases |s|
  {
    match StrChr(s, d, 0)
    case Null =>
    case At(p) =>
      var rest := Parts(s[p + 1..], d);
      JoinParts(s[p + 1..], d);
      assert ([s[..p]] + rest)[1..] == rest;
      assert s == s[..p] + [d] + s[p + 1..];
  }

  /** The entries, joined again, are the input; only the first entry can hold a
      delimiter, and only as its first character. */
  lemma JoinSplit(s: string, d: char)
    ensures Join(Split(s, d), d) == s
    ensures forall i | 0 < i < |Split(s, d)| :: d !in Split(s, d)[i]
    ensures s != "" ==> Split(s, d) != [] && Split(s, d)[0] != "" && d !in Split(s, d)[0][1..]
    ensures s == "" ==> Split(s, d) == []
  {
    if s != "" {
      match StrChr(s, d, 1)
      case Null =>
      case At(p) =>
        var rest := Parts(s[p + 1..], d);
        JoinParts(s[p + 1..], d);
        assert ([s[..p]] + rest)[1..] == rest;
        assert s == s[..p] + [d] + s[p + 1..];
    }
  }

  lemma {:induction false} PartsJoin(ps: seq<string>, d: char)
    requires ps != [] && AllFree(ps, d)
    ensures Parts(Join(ps, d), d) == ps
  {
    var s := Join(ps, d);
    assert ps[0] in ps && forall i | 0 <= i < |ps[0]| :: ps[0][i] in ps[0];
    assert forall i | 0 <= i < |ps[0]| :: ps[0][i] != d;
    if |ps| == 1 {
      assert ps == [ps[0]] && StrChr(s, d, 0).Null?;
    } else {
      StrChrIs(s, d, 0, |ps[0]|);
      assert s[|ps[0]| + 1..] == Join(ps[1..], d);
      assert s[..|ps[0]|] == ps[0];
      PartsJoin(ps[1..], d);
      assert ps == [ps[0]] + ps[1..];
    }
  }

  /** Splitting a join returns the entries, provided the first is not empty,
      holds no delimiter past its first character, and no other entry holds one. */
  lemma SplitJoin(ps: seq<string>, d: char)
    requires ps != [] && ps[0] != "" && d !in ps[0][1..]
    requires forall i | 0 < i < |ps| :: d !in ps[i]
    ensures Split(Join(ps, d), d) == ps
  {
    var s := Join(ps, d);
    if |ps| == 1 {
      SplitOne(s, d);
      assert ps == [ps[0]];
    } else {
      assert AllFree(ps[1..], d);
      PartsJoin(ps[1..], d);
      SplitFirst(ps[0], Join(ps[1..], d), d);
      assert s == ps[0] + [d] + Join(ps[1..], d) && ps == [ps[0]] + ps[1..];
    }
  }

  lemma SplitOne(s: string, d: char)
    requires s != "" && d !in s[1..]
    ensures Split(s, d) == [s]
  {
    assert forall i | 1 <= i < |s| :: s[i] == s[1..][i - 1];
  }

  /** A first entry, a delimiter, and the rest. */
  lemma SplitFirst(e: string, rest: string, d: char)
    requires e != "" && d !in e[1..]
    ensures Split(e + [d] + rest, d) == [e] + Parts(rest, d)
  {
    var s := e + [d] + rest;
    assert forall i | 1 <= i < |e| :: s[i] == e[1..][i - 1];
    StrChrIs(s, d, 1, |e|);
    assert s[..|e|] == e && s[|e| + 1..] == rest;
  }

  /** Splitting undoes joining exactly on the lists a split can produce. */
  lemma SplitJoinIff(ps: seq<string>, d: char)
    requires ps != []
    ensures Split(Join(ps, d), d) == ps <==>
              ps[0] != "" && d !in ps[0][1..] && forall i | 0 < i < |ps| :: d !in ps[i]
  {
    if ps[0] != "" && d !in ps[0][1..] && forall i | 0 < i < |ps| :: d !in ps[i] {
      SplitJoin(ps, d);
    }
    JoinSplit(Join(ps, d), d);
  }

  // ------------------------------------------------------------ EHmetalist

  function Quoted(s: string): string { "\"" + s + "\"" }

  function QuotedItems(ps: seq<string>): string {
    if ps == [] then ""
    else if |ps| == 1 then Quoted(ps[0])
    else Quoted(ps[0]) + "," + QuotedItems(ps[1..])
  }

  /** The parenthesised list of quoted entries EHmetalist writes. */
  function QuotedList(ps: seq<string>): string { "(" + QuotedItems(ps) + ")" }

  /** A parenthesis, the entries in quotes with commas between, a parenthesis. */
  lemma {:induction false} QuotedListIs(ps: seq<string>, qs: seq<string>)
    requires |qs| == |ps| && forall i | 0 <= i < |ps| :: qs[i] == "\"" + ps[i] + "\""
    ensures QuotedItems(ps) == Join(qs, ',') && QuotedList(ps) == "(" + Join(qs, ',') + ")"
  {
    if |ps| > 1 {
      QuotedListIs(ps[1..], qs[1..]);
    }
  }

  /** The list grows by two quotes an entry and the two parentheses. */
  lemma {:induction false} QuotedListLength(s: string)
    ensures s != "" ==> |QuotedList(Split(s, ','))| == |s| + 2 * |Split(s, ',')| + 2
  {
    if s != "" {
      var ps := Split(s, ',');
      JoinSplit(s, ',');
      QuotedItemsLength(ps);
    }
  }

  lemma {:induction false} QuotedItemsLength(ps: seq<string>)
    requires ps != []
    ensures |QuotedItems(ps)| == |Join(ps, ',')| + 2 * |ps|
  {
    if |ps| > 1 {
      QuotedItemsLength(ps[1..]);
    }
  }

  /** Entries of one length. */
  lemma {:induction false} JoinLength(ps: seq<string>, size: nat)
    requires ps != [] && forall p <- ps :: |p| == size
    ensures |Join(ps, ',')| == |ps| * (size + 1) - 1
  {
    var n := |ps|;
    if n > 1 {
      assert |ps[0]| == size && forall p <- ps[1..] :: p in ps;
      JoinLength(ps[1..], size);
      OneMore(n - 1, size + 1);
    }
  }

  lemma OneMore(n: nat, m: nat)
    ensures (n + 1) * m == n * m + m
  {
  }
}
