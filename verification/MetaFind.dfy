/** Where the lookups of the interfaces find an entry in its group: by the quoted
    name at the end of a line, and up to the end of its object. */
module MetaFind {
  import opened CText
  import opened ListText
  import opened OdlLines
  import opened OdlCount
  import opened MetaTree
  import opened MetaLines
  import opened MetaSearch
  import opened MetaLocate
  import opened MetaRefine
  import opened MetaPointField
  import opened MetaEdit
  import opened MetaRequest
  import opened MetaTheorem
  import opened MetaRead

  // ------------------------------------------------ keys that end with a newline

  function LineBody(l: Line): string { Head(l) + "=" + l.val }

  predicate EndsLine(l: Line, s: string) { EndsWith(LineBody(l), s) }

  lemma TailOccurrence(pre: string, l: Line, post: string, s: string, x: nat)
    requires Shaped(l) && '\n' !in s && |pre| <= x < |pre| + |LineText(l)|
    ensures OccursAt(pre + LineText(l) + post, s + "\n", x) <==> EndsLine(l, s) && x == |pre| + |LineBody(l)| - |s|
  {
    LineChars(l);
    var t, b, q := pre + LineText(l) + post, LineBody(l), x - |pre|;
    var n := |b|;
    assert t == pre + b + ("\n" + post);
    assert t[|pre| + n] == '\n' && (s + "\n")[|s|] == '\n';
    OccursIdx(t, s + "\n", x, |pre| + n);
    OccursIdx(t, s + "\n", x, x + |s|);
    assert forall i | 0 <= i < n :: b[i] == LineText(l)[i] != '\n';
    if q + |s| == n {
      assert t[x..x + |s|] == b[q..];
      assert t[x..x + |s| + 1] == t[x..x + |s|] + "\n";
      SameEnd(t[x..x + |s|], s, '\n');
    } else if q + |s| < n {
      assert t[x + |s|] == b[q + |s|];
    }
  }

  predicate NoneEnds(ls: seq<Line>, s: string) { forall l <- ls :: !EndsLine(l, s) }

  lemma {:induction false} NoTailIn(pre: string, ls: seq<Line>, post: string, s: string, x: nat)
    requires AllShaped(ls) && '\n' !in s && NoneEnds(ls, s) && |pre| <= x < |pre| + |Text(ls)|
    ensures !OccursAt(pre + Text(ls) + post, s + "\n", x)
    decreases |ls|
  {
    var l, rest := ls[0], Text(ls[1..]);
    assert Shaped(l) && !EndsLine(l, s);
    assert pre + Text(ls) + post == pre + LineText(l) + (rest + post);
    if x < |pre| + |LineText(l)| {
      TailOccurrence(pre, l, rest + post, s, x);
    } else {
      assert pre + Text(ls) + post == (pre + LineText(l)) + rest + post;
      NoTailIn(pre + LineText(l), ls[1..], post, s, x);
    }
  }

  /** The search for the quoted name passes over lines that do not end with it. */
  lemma FindTail(t: string, pre: string, skip: seq<Line>, l: Line, post: string, s: string, from: nat, p: nat)
    requires t == pre + Text(skip) + LineText(l) + post && AllShaped(skip) && Shaped(l) && '\n' !in s
    requires NoneEnds(skip, s) && EndsLine(l, s) && |pre| <= from <= |pre| + |Text(skip)|
    requires p == |pre| + |Text(skip)| + |LineBody(l)| - |s|
    ensures from <= |t| && StrStr(t, s + "\n", from) == At(p)
  {
    LineChars(l);
    assert |s| <= |LineBody(l)|;
    TailOccurrence(pre + Text(skip), l, post, s, p);
    forall x: nat | from <= x < p ensures !OccursAt(t, s + "\n", x) {
      if x < |pre| + |Text(skip)| {
        Assoc(pre + Text(skip), LineText(l), post);
        NoTailIn(pre, skip, LineText(l) + post, s, x);
      } else {
        TailOccurrence(pre + Text(skip), l, post, s, x);
      }
    }
    StrStrIs(t, s + "\n", from, p);
  }

  /** None of the lines up to the end pointer ends with the quoted name. */
  lemma TailPastEnd(t: string, pre: string, skip: seq<Line>, post: string, s: string, from: nat, end: nat)
    requires t == pre + Text(skip) + post && AllShaped(skip) && '\n' !in s && NoneEnds(skip, s)
    requires |pre| <= from <= end == |pre| + |Text(skip)|
    ensures from <= |t|
    ensures StrStr(t, s + "\n", from).At? ==> StrStr(t, s + "\n", from).pos >= end
  {
    var r := StrStr(t, s + "\n", from);
    if r.At? && r.pos < end {
      NoTailIn(pre, skip, post, s, r.pos);
    }
  }

  lemma LongerEnd(l: Line, h: string, s: string)
    ensures EndsLine(l, h + s) ==> EndsLine(l, s)
  {
    var b := LineBody(l);
    if EndsLine(l, h + s) {
      assert b[|b| - |s|..] == b[|b| - |h + s|..][|h|..];
    }
  }

  lemma NoLongerEnd(ls: seq<Line>, h: string, s: string)
    requires NoneEnds(ls, s)
    ensures NoneEnds(ls, h + s)
  {
    forall l | l in ls ensures !EndsLine(l, h + s) {
      LongerEnd(l, h, s);
    }
  }

  /** The last character of a line is its value's, or the equals sign. */
  predicate Unquoted(v: string) { v == "" || v[|v| - 1] != '"' }

  lemma EndsQuoted(l: Line, name: string)
    requires Unquoted(l.val)
    ensures !EndsLine(l, Quoted(name))
  {
    var b, s := LineBody(l), Quoted(name);
    EndsWithChar(b, s, 1);
    assert s[|s| - 1] == '"' && b[|b| - 1] == if l.val == "" then '=' else l.val[|l.val| - 1];
  }

  lemma EndsName(l: Line, name: string, dim: string)
    requires '"' !in dim && '"' !in name && l.val == Quoted(name)
    ensures EndsLine(l, Quoted(dim)) <==> name == dim
  {
    var b, s, v := LineBody(l), Quoted(dim), Quoted(name);
    if name == dim {
      assert b[|b| - |s|..] == s;
    }
    if EndsLine(l, s) {
      var d := |b| - |s|;
      assert b[d..] == s;
      assert forall i | 0 <= i < |v| :: b[|b| - |v| + i] == v[i];
      // the opening quote of each is the last quote before the closing one
      QuoteAt(b, d, s, dim, |b| - |v|, v, name);
      assert b[d..] == v;
      assert s[1..|s| - 1] == dim && v[1..|v| - 1] == name;
    }
  }

  lemma QuoteAt(b: string, d: nat, s: string, dim: string, e: nat, v: string, name: string)
    requires s == Quoted(dim) && v == Quoted(name) && '"' !in dim && '"' !in name
    requires d + |s| == |b| && e + |v| == |b| && b[d..] == s && b[e..] == v
    ensures d == e
  {
    assert b[d] == '"' && b[e] == '"';
    assert forall i | d < i < |b| - 1 :: b[i] == s[i - d] == dim[i - d - 1];
    assert forall i | e < i < |b| - 1 :: b[i] == v[i - e] == name[i - e - 1];
  }

  lemma DecLast(n: int)
    ensures Dec(n) != "" && Dec(n)[|Dec(n)| - 1] != '"' && Dec(n)[0] != '"'
  {
  }

  lemma TagLast(g: string, n: nat)
    ensures var v := Numbered(g, n); v != "" && v[|v| - 1] != '"'
  {
    DecLast(n);
    var v := Numbered(g, n);
    assert v[|v| - 1] == Dec(n)[|Dec(n)| - 1];
  }

  // ------------------------------------------------------- entries in their group

  function ObjOpen(e: Entry, n: nat): Line { Line(3, "OBJECT", Numbered(GroupOf(e), n + 1)) }

  function ObjClose(e: Entry, n: nat): Line { Line(3, "END_OBJECT", Numbered(GroupOf(e), n + 1)) }

  /** The lines of an entry's attributes. */
  function Own(e: Entry): seq<Line> { AttrLines(4, Attrs(e)) }

  lemma ObjectTame(e: Entry, n: nat)
    requires EntryOk(e) && !e.Level?
    ensures Tame(ObjOpen(e, n)) && Tame(ObjClose(e, n)) && AllTame(Own(e)) && AllShaped(Own(e)) && LinesOk(Own(e))
  {
    InertNumbered(e, n + 1);
    ObjectLineOk(ObjOpen(e, n));
    ObjectLineOk(ObjClose(e, n));
    AttrsAreOk(e);
    AttrLinesTame(4, Attrs(e));
  }

  /** The lines from a group's opening line to the opening line of its entry j. */
  function Skip(g: string, es: seq<Entry>, j: nat): seq<Line>
    requires j < |es|
  {
    [OpenLine(g)] + EntriesLines(es[..j]) + [ObjOpen(es[j], j)]
  }

  /** A group of objects. */
  predicate GroupSite(f: MetaFile, k: Kind, i: nat, g: nat) {
    Site(f, k, i) && g < |Schema(k)| && Schema(k)[g] != "Level" && GroupOk(Schema(k)[g], f.Of(k)[i].groups[g])
  }

  lemma GroupSiteOk(f: MetaFile, k: Kind, i: nat, g: nat)
    requires Site(f, k, i) && g < |Schema(k)| && Schema(k)[g] != "Level"
    ensures GroupSite(f, k, i, g)
  {
  }

  function Entries(f: MetaFile, k: Kind, i: nat, g: nat): (es: seq<Entry>)
    requires GroupSite(f, k, i, g)
    ensures forall e <- es :: EntryOk(e) && !e.Level? && GroupOf(e) == Schema(k)[g]
  {
    f.Of(k)[i].groups[g]
  }

  lemma BodySplit(g: string, es: seq<Entry>, j: nat)
    requires j < |es| && !es[j].Level?
    ensures [OpenLine(g)] + EntriesLines(es) == Skip(g, es, j) + Own(es[j]) + [ObjClose(es[j], j)] + EntriesFrom(es, j + 1)
  {
    EntriesAround(es, j);
    Nest([OpenLine(g)], EntriesLines(es[..j]), [ObjOpen(es[j], j)], Own(es[j]), [ObjClose(es[j], j)], EntriesFrom(es, j + 1));
  }

  lemma Nest<T>(o: seq<T>, x: seq<T>, a: seq<T>, b: seq<T>, c: seq<T>, z: seq<T>)
    ensures o + (x + (a + b + c + z)) == (o + x + a) + b + c + z
  {
  }

  lemma TextSplit(s: seq<Line>, o: seq<Line>, c: Line, z: seq<Line>)
    ensures Text(s + o + [c] + z) == Text(s) + Text(o) + LineText(c) + Text(z)
  {
    TextCat(s + o + [c], z);
    TextCat(s + o, [c]);
    TextCat(s, o);
    Text1(c);
  }

  lemma FrameChain(p: string, s: string, o: string, c: string, z: string, w: string)
    ensures p + (s + o + c + z) + w == p + s + o + (c + (z + w))
  {
  }

  /** The text around the attributes of entry j. */
  lemma EntryFrame(f: MetaFile, k: Kind, i: nat, g: nat, j: nat) returns (pre: string, post: string)
    requires GroupSite(f, k, i, g) && j < |Entries(f, k, i, g)|
    ensures var es := Entries(f, k, i, g);
            && |pre| == OpenPos(f, k, i, g)
            && Print(f) == pre + Text(Skip(Schema(k)[g], es, j)) + Text(Own(es[j])) + (LineText(ObjClose(es[j], j)) + post)
            && |pre| + |Text(Skip(Schema(k)[g], es, j))| + |Text(Own(es[j]))| <= ClosePos(f, k, i, g)
  {
    var es := Entries(f, k, i, g);
    var b, e, z := Schema(k)[g], es[j], EntriesFrom(es, j + 1);
    pre := Text(LinesA(f, k, i)) + Text(LinesB(k, f.Of(k)[i], g));
    var after := LineText(CloseLine(b)) + Rest(f, k, i, g + 1);
    GroupText(f, k, i, g);
    assert e in es;
    BodySplit(b, es, j);
    TextSplit(Skip(b, es, j), Own(e), ObjClose(e, j), z);
    FrameChain(pre, Text(Skip(b, es, j)), Text(Own(e)), LineText(ObjClose(e, j)), Text(z), after);
    post := Text(z) + after;
  }

  // ------------------------------------------------------------ entries by name

  /** An entry whose first attribute is its own quoted name. */
  predicate Named(e: Entry) { e.Dimension? || e.GeoField? || e.DataField? || e.Merged? }

  /** The other attributes an entry is given do not end with a quote. */
  predicate PlainExtra(e: Entry) {
    (e.GeoField? || e.DataField?) ==> forall x <- e.extra :: Unquoted(x.val)
  }

  predicate NamedGroup(es: seq<Entry>) { forall e <- es :: Named(e) && PlainExtra(e) }

  lemma NameFirst(e: Entry)
    requires Named(e)
    ensures |Attrs(e)| >= 2 && Attrs(e)[0].val == Quoted(e.name) && |Own(e)| == |Attrs(e)|
    ensures Own(e)[0] == Line(4, Attrs(e)[0].key, Quoted(e.name))
  {
  }

  lemma OthersUnquoted(e: Entry, i: nat)
    requires Named(e) && EntryOk(e) && PlainExtra(e) && 0 < i < |Attrs(e)|
    ensures Unquoted(Attrs(e)[i].val)
  {
    match e
    case Dimension(_, n) => DecLast(n);
    case GeoField(_, t, ds, x) => FieldUnquoted("GeoFieldName", e.name, t, ds, x, i);
    case DataField(_, t, ds, x) => FieldUnquoted("DataFieldName", e.name, t, ds, x, i);
    case Merged(_, ms) => ListUnquoted(ms);
    case _ =>
  }

  lemma ListUnquoted(ss: seq<string>)
    ensures Unquoted(QuotedList(ss))
  {
    assert QuotedList(ss)[|QuotedList(ss)| - 1] == ')';
  }

  lemma FieldUnquoted(key: string, name: string, t: int, ds: seq<string>, x: seq<Attr>, i: nat)
    requires KnownType(t) && (forall a <- x :: Unquoted(a.val)) && 0 < i < |FieldAttrs(key, name, t, ds, x)|
    ensures Unquoted(FieldAttrs(key, name, t, ds, x)[i].val)
  {
    ListUnquoted(ds);
    if i == 1 {
      assert TypeName(t)[|TypeName(t)| - 1] != '"';
    } else if i > 2 {
      assert FieldAttrs(key, name, t, ds, x)[i] == x[i - 3];
    }
  }

  /** Of an entry's lines only its name line can end with the quoted name. */
  lemma NamedEnds(e: Entry, n: nat, name: string)
    requires Named(e) && EntryOk(e) && PlainExtra(e) && '"' !in name
    ensures Own(e) != [] && !EndsLine(ObjOpen(e, n), Quoted(name)) && !EndsLine(ObjClose(e, n), Quoted(name))
    ensures NoneEnds(Own(e)[1..], Quoted(name)) && (EndsLine(Own(e)[0], Quoted(name)) <==> e.name == name)
  {
    NameFirst(e);
    TagsEnd(e, n, name);
    assert '"' !in e.name;
    EndsName(Own(e)[0], e.name, name);
    forall l | l in Own(e)[1..] ensures !EndsLine(l, Quoted(name)) {
      var i :| 0 < i < |Own(e)| && l == Own(e)[i];
      OthersUnquoted(e, i);
      EndsQuoted(l, name);
    }
  }

  lemma TagsEnd(e: Entry, n: nat, name: string)
    ensures !EndsLine(ObjOpen(e, n), Quoted(name)) && !EndsLine(ObjClose(e, n), Quoted(name))
  {
    TagLast(GroupOf(e), n + 1);
    EndsQuoted(ObjOpen(e, n), name);
    EndsQuoted(ObjClose(e, n), name);
  }

  lemma NameEnds(e: Entry, name: string)
    requires Named(e) && EntryOk(e) && PlainExtra(e) && e.name == name && '"' !in name
    ensures Own(e) != [] && EndsLine(Own(e)[0], "" + Quoted(name))
  {
    NamedEnds(e, 0, name);
    assert "" + Quoted(name) == Quoted(name);
  }

  lemma OtherEntryEnds(e: Entry, n: nat, name: string)
    requires Named(e) && EntryOk(e) && PlainExtra(e) && '"' !in name && e.name != name
    ensures AllShaped(EntryLines(e, n)) && NoneEnds(EntryLines(e, n), Quoted(name))
  {
    NamedEnds(e, n, name);
    ObjectTame(e, n);
    NoneEndsCat(ObjOpen(e, n), Own(e)[0], Own(e)[1..], ObjClose(e, n), Quoted(name));
    ObjectIs(e, n);
  }

  lemma ObjectIs(e: Entry, n: nat)
    requires Named(e)
    ensures Own(e) != [] && EntryLines(e, n) == [ObjOpen(e, n)] + ([Own(e)[0]] + Own(e)[1..]) + [ObjClose(e, n)]
  {
    assert Own(e) == [Own(e)[0]] + Own(e)[1..];
  }

  lemma NoneEndsCat(a: Line, b: Line, c: seq<Line>, d: Line, s: string)
    requires !EndsLine(a, s) && !EndsLine(b, s) && NoneEnds(c, s) && !EndsLine(d, s)
    requires Tame(a) && AllTame([b] + c) && Tame(d)
    ensures NoneEnds([a] + ([b] + c) + [d], s) && AllShaped([a] + ([b] + c) + [d])
  {
  }

  predicate NoneNamed(es: seq<Entry>, name: string) { forall e <- es :: Named(e) ==> e.name != name }

  lemma {:induction false} EntriesNoneEnd(es: seq<Entry>, name: string)
    requires NamedGroup(es) && (forall e <- es :: EntryOk(e)) && NoneNamed(es, name) && '"' !in name
    ensures AllShaped(EntriesLines(es)) && NoneEnds(EntriesLines(es), Quoted(name))
  {
    if es != [] {
      var e := es[|es| - 1];
      assert e in es;
      EntriesNoneEnd(es[..|es| - 1], name);
      OtherEntryEnds(e, |es| - 1, name);
    }
  }

  /** The first entry of that name. */
  function NameIndex(es: seq<Entry>, name: string): (r: Ptr)
    requires NamedGroup(es)
    ensures r.At? ==> r.pos < |es| && Named(es[r.pos]) && es[r.pos].name == name && NoneNamed(es[..r.pos], name)
    ensures r.Null? ==> NoneNamed(es, name)
  {
    if es == [] then Null
    else
      assert es[0] in es;
      if es[0].name == name then At(0)
      else match NameIndex(es[1..], name)
        case Null => Null
        case At(i) =>
          assert es[..i + 1] == [es[0]] + es[1..][..i];
          At(i + 1)
  }

  lemma OpenNoneEnds(g: string, name: string)
    requires g in {"Dimension", "GeoField", "DataField", "MergedFields"}
    ensures Shaped(OpenLine(g)) && !EndsLine(OpenLine(g), Quoted(name))
  {
    InertName(g);
    GroupLineOk(OpenLine(g));
    assert g[|g| - 1] != '"';
    EndsQuoted(OpenLine(g), name);
  }

  lemma SkipNoneEnds(g: string, es: seq<Entry>, j: nat, name: string)
    requires NamedGroup(es) && (forall e <- es :: EntryOk(e)) && j < |es| && NoneNamed(es[..j], name) && '"' !in name
    requires g in {"Dimension", "GeoField", "DataField", "MergedFields"}
    ensures AllShaped(Skip(g, es, j)) && NoneEnds(Skip(g, es, j), Quoted(name))
  {
    assert es[j] in es;
    EntriesNoneEnd(es[..j], name);
    NamedEnds(es[j], j, name);
    ObjectTame(es[j], j);
    OpenNoneEnds(g, name);
  }

  lemma OpenLong(g: string, ls: seq<Line>)
    requires |ls| >= 1 && ls[0] == OpenLine(g)
    ensures |Text(ls)| >= 2
  {
  }

  /** A group whose entries have names of their own. */
  predicate NamedSite(f: MetaFile, k: Kind, i: nat, g: nat) { GroupSite(f, k, i, g) && NamedGroup(Entries(f, k, i, g)) }

  lemma NamedSchema(k: Kind, g: nat, e: Entry)
    requires g < |Schema(k)| && Named(e) && GroupOf(e) == Schema(k)[g]
    ensures Schema(k)[g] in {"Dimension", "GeoField", "DataField", "MergedFields"}
  {
  }

  /** The search for a key that ends with the quoted name finds the name line of
      the first entry of that name. */
  lemma NameFound(f: MetaFile, k: Kind, i: nat, g: nat, name: string, h: string, key: string, j: nat)
    returns (pre: string, post: string, p: nat)
    requires NamedSite(f, k, i, g) && '"' !in name && '\n' !in h + Quoted(name) && key == h + Quoted(name) + "\n"
    requires NameIndex(Entries(f, k, i, g), name) == At(j) && EndsLine(Own(Entries(f, k, i, g)[j])[0], h + Quoted(name))
    ensures var es := Entries(f, k, i, g);
            var e := es[j];
            && Print(f) == pre + Text(Own(e)) + (LineText(ObjClose(e, j)) + post)
            && OpenPos(f, k, i, g) + 2 <= |pre| <= |pre| + |Text(Own(e))| <= ClosePos(f, k, i, g)
            && p + |h| == |pre| + |Head(Own(e)[0])| + 1 && p < |pre| + |Text(Own(e))|
            && OpenPos(f, k, i, g) + 2 <= |Print(f)| && StrStr(Print(f), key, OpenPos(f, k, i, g) + 2) == At(p)
  {
    var es, b := Entries(f, k, i, g), Schema(k)[g];
    var e, s, skip := es[j], h + Quoted(name), Skip(b, es, j);
    assert e in es;
    NamedSchema(k, g, e);
    var front, rest := EntryFrame(f, k, i, g, j);
    post := rest;
    SkipNoneEnds(b, es, j, name);
    NoLongerEnd(skip, h, Quoted(name));
    NameFirst(e);
    ObjectTame(e, j);
    OpenLong(b, skip);
    pre := front + Text(skip);
    var l, own := Own(e)[0], Text(Own(e)[1..]);
    var after := LineText(ObjClose(e, j)) + post;
    p := |front| + |Text(skip)| + |LineBody(l)| - |s|;
    assert Text(Own(e)) == LineText(l) + own;
    FirstChain(front + Text(skip), LineText(l), own, after);
    FindTail(Print(f), front, skip, l, own + after, s, OpenPos(f, k, i, g) + 2, p);
  }

  lemma FirstChain(a: string, l: string, o: string, w: string)
    ensures a + (l + o) + w == a + l + (o + w)
  {
  }

  /** When no entry has the name, the search finds nothing before the group's end. */
  lemma NameMissing(f: MetaFile, k: Kind, i: nat, g: nat, name: string, h: string, key: string)
    requires NamedSite(f, k, i, g) && '"' !in name && '\n' !in h + Quoted(name) && key == h + Quoted(name) + "\n"
    requires Schema(k)[g] in {"Dimension", "GeoField", "DataField", "MergedFields"} && NameIndex(Entries(f, k, i, g), name).Null?
    ensures OpenPos(f, k, i, g) + 2 <= |Print(f)|
    ensures var r := StrStr(Print(f), key, OpenPos(f, k, i, g) + 2); r.At? ==> r.pos >= ClosePos(f, k, i, g)
  {
    var beg, end := OpenPos(f, k, i, g) + 2, ClosePos(f, k, i, g);
    var es, b := Entries(f, k, i, g), Schema(k)[g];
    var body := [OpenLine(b)] + EntriesLines(es);
    EntriesNoneEnd(es, name);
    OpenNoneEnds(b, name);
    NoLongerEnd(body, h, Quoted(name));
    OpenLong(b, body);
    GroupText(f, k, i, g);
    TailPastEnd(Print(f), Text(LinesA(f, k, i)) + Text(LinesB(k, f.Of(k)[i], g)), body,
                LineText(CloseLine(b)) + Rest(f, k, i, g + 1), h + Quoted(name), beg, end);
  }

  /** Looking for the key in a quoted name is looking for it in the name. */
  lemma QuotedSearch(s: string, k: string)
    requires k != "" && '"' !in k
    ensures StrStr(Quoted(s), k, 0) == match StrStr(s, k, 0) case Null => Null case At(q) => At(q + 1)
  {
    var v := Quoted(s);
    assert v == "\"" + s + "\"";
    forall x: nat ensures OccursAt(v, k, x) <==> x > 0 && OccursAt(s, k, x - 1) {
      OccursIdx(v, k, x, 0);
      OccursIdx(v, k, x, |s| + 1);
      if x > 0 {
        OccursIn("\"", s, "\"", k, x - 1);
      }
    }
    match StrStr(s, k, 0)
    case Null =>
    case At(q) => StrStrIs(v, k, 0, q + 1);
  }

  // ---------------------------------------------------------- an appended entry

  lemma {:induction false} NameIndexAppend(es: seq<Entry>, e: Entry, name: string)
    requires NamedGroup(es + [e])
    ensures NamedGroup(es) && Named(e)
    ensures NameIndex(es + [e], name)
         == if NameIndex(es, name).At? then NameIndex(es, name) else if e.name == name then At(|es|) else Null
  {
    assert e in es + [e] && forall x <- es :: x in es + [e];
    if es == [] {
      assert es + [e] == [e] && [e][1..] == [];
    } else {
      assert (es + [e])[1..] == es[1..] + [e];
      NameIndexAppend(es[1..], e, name);
    }
  }

  /** A structure has no two groups of one name. */
  lemma SchemaOnce(k: Kind, g: nat, h: nat)
    requires g < |Schema(k)| && h < |Schema(k)| && Schema(k)[g] == Schema(k)[h]
    ensures g == h
  {
    SchemaApart(k, g);
    SchemaApart(k, h);
  }

  /** The request appends an entry and fits a utility string. */
  predicate Adds(f: MetaFile, r: Request) {
    && FileOk(f) && WellShaped(f) && RequestOk(r) && r.AddEntry?
    && Apply(f, r).Some? && WellShaped(Apply(f, r).value) && |Print(Apply(f, r).value)| < |Print(f)| + UTLSTRSIZE
  }

  /** What the request leaves: the print of the tree with the entry last in its
      group, and the structure found as before. */
  lemma Appended(f: MetaFile, r: Request, i: nat) returns (g: nat)
    requires Adds(f, r) && FirstStruct(f.Of(r.kind), r.name) == At(i)
    ensures var k, f' := r.kind, Apply(f, r).value;
            && Site(f, k, i) && Site(f', k, i) && FirstStruct(f'.Of(k), r.name) == At(i)
            && GroupIndex(Schema(k), GroupOf(r.entry)) == At(g) && Schema(k)[g] == GroupOf(r.entry)
            && f'.Of(k)[i].groups[g] == f.Of(k)[i].groups[g] + [r.entry]
            && InsertText(Print(f), CallOf(r)) == Some(Print(f'))
  {
    AppendedText(f, r);
    g := AppendedTree(f, r, i);
  }

  lemma AppendedText(f: MetaFile, r: Request)
    requires Adds(f, r)
    ensures FileOk(Apply(f, r).value) && InsertText(Print(f), CallOf(r)) == Some(Print(Apply(f, r).value))
  {
    Refinement(f, r);
  }

  lemma AppendedTree(f: MetaFile, r: Request, i: nat) returns (g: nat)
    requires Adds(f, r) && FileOk(Apply(f, r).value) && FirstStruct(f.Of(r.kind), r.name) == At(i)
    ensures var k, f' := r.kind, Apply(f, r).value;
            && Site(f, k, i) && Site(f', k, i) && FirstStruct(f'.Of(k), r.name) == At(i)
            && GroupIndex(Schema(k), GroupOf(r.entry)) == At(g) && Schema(k)[g] == GroupOf(r.entry)
            && f'.Of(k)[i].groups[g] == f.Of(k)[i].groups[g] + [r.entry]
  {
    var k, f' := r.kind, Apply(f, r).value;
    SiteOk(f, k, i);
    g := GroupIndex(Schema(k), GroupOf(r.entry)).pos;
    Replaced(f, k, i, AppendEntry(f.Of(k)[i], g, r.entry));
    SiteOk(f', k, i);
    SameNames(f.Of(k), f'.Of(k), r.name);
  }

  lemma Replaced(f: MetaFile, k: Kind, i: nat, s: Struct)
    requires i < |f.Of(k)|
    ensures f.With(k, f.Of(k)[i := s]).Of(k) == f.Of(k)[i := s]
  {
  }

  lemma {:induction false} SameNames(a: seq<Struct>, b: seq<Struct>, nm: string)
    requires |a| == |b| && forall i | 0 <= i < |a| :: a[i].name == b[i].name
    ensures FirstStruct(a, nm) == FirstStruct(b, nm)
  {
    if a != [] {
      SameNames(a[1..], b[1..], nm);
    }
  }

  // ------------------------------------------------------ the end of the object

  lemma WordPart(t: string, x: nat)
    requires OccursAt(t, "\t\t\tEND_OBJECT", x)
    ensures OccursAt(t, "END_OBJECT", x + 3)
  {
    var k := "\t\t\tEND_OBJECT";
    assert k[3..] == "END_OBJECT";
    assert t[x + 3..x + |k|] == t[x..x + |k|][3..];
  }

  /** In the closing line the word stands after exactly three tabs. */
  lemma WordStart(t: string, pre: string, close: Line, post: string, x: nat)
    requires t == pre + LineText(close) + post && Tame(close) && close.key == "END_OBJECT" && close.tabs == 3
    requires OccursAt(t, "END_OBJECT", x + 3) && x + 3 >= |pre|
    ensures x >= |pre|
  {
    if x < |pre| {
      WordInHead(pre, close, post, "END_OBJECT", x + 3);
    }
  }

  lemma TabbedEnd(t: string, pre: string, close: Line, post: string)
    requires t == pre + LineText(close) + post && close.key == "END_OBJECT" && close.tabs == 3
    ensures OccursAt(t, "\t\t\tEND_OBJECT", |pre|)
  {
    assert Head(close) == "\t\t\tEND_OBJECT";
    OccursIn(pre, Head(close), "=" + close.val + "\n" + post, "\t\t\tEND_OBJECT", 0);
    SplitAtHead(pre, close, post);
  }

  /** From inside an entry's attributes the search for the end of the object stops
      no earlier than behind them. */
  lemma ObjectEnd(t: string, pre: string, e: Entry, n: nat, post: string, p: nat)
    requires EntryOk(e) && !e.Level? && t == pre + Text(Own(e)) + (LineText(ObjClose(e, n)) + post) && |pre| <= p <= |pre| + |Text(Own(e))|
    ensures p <= |t| && StrStr(t, "\t\t\tEND_OBJECT", p).At? && StrStr(t, "\t\t\tEND_OBJECT", p).pos >= |pre| + |Text(Own(e))|
  {
    ObjectTame(e, n);
    TabbedEnd(t, pre + Text(Own(e)), ObjClose(e, n), post);
    assert OccursAt(t, "\t\t\tEND_OBJECT", |pre + Text(Own(e))|);
    EndNotBefore(t, pre, e, n, post, StrStr(t, "\t\t\tEND_OBJECT", p).pos);
  }

  lemma EndNotBefore(t: string, pre: string, e: Entry, n: nat, post: string, x: nat)
    requires EntryOk(e) && !e.Level? && t == pre + Text(Own(e)) + (LineText(ObjClose(e, n)) + post)
    requires x >= |pre| && OccursAt(t, "\t\t\tEND_OBJECT", x)
    ensures x >= |pre| + |Text(Own(e))|
  {
    ObjectTame(e, n);
    WordPart(t, x);
    NoEndInside(t, pre, e, LineText(ObjClose(e, n)) + post, x + 3);
    WordStart(t, pre + Text(Own(e)), ObjClose(e, n), post, x);
  }

  /** No attribute holds the word. */
  lemma NoEndInside(t: string, pre: string, e: Entry, post: string, x: nat)
    requires EntryOk(e) && !e.Level? && t == pre + Text(Own(e)) + post && OccursAt(t, "END_OBJECT", x) && x >= |pre|
    ensures x >= |pre| + |Text(Own(e))|
  {
    OwnCount(e);
    NoneCounted(t, pre, Own(e), post, "END_OBJECT", x);
  }

  lemma NoneCounted(t: string, pre: string, ls: seq<Line>, post: string, w: string, x: nat)
    requires t == pre + Text(ls) + post && AllShaped(ls) && Word(w) && AllKeyClean(ls, w) && LinesCount(ls, w) == 0
    requires OccursAt(t, w, x) && x >= |pre|
    ensures x >= |pre| + |Text(ls)|
  {
    CountLines(pre, ls, post, w);
    if x < |pre| + |Text(ls)| {
      OccSome(t, w, |pre|, |pre| + |Text(ls)|, x);
    }
  }

  lemma OwnCount(e: Entry)
    requires EntryOk(e) && !e.Level?
    ensures AllShaped(Own(e)) && AllKeyClean(Own(e), "END_OBJECT") && LinesCount(Own(e), "END_OBJECT") == 0 && Word("END_OBJECT")
  {
    ObjectTame(e, 0);
    ShapedOfOk(Own(e));
    InertCount(Own(e), "END_OBJECT");
    OwnKeys(e);
    KeyCountNone(Own(e), "END_OBJECT");
  }

  lemma OwnKeys(e: Entry)
    requires EntryOk(e) && !e.Level?
    ensures forall l <- Own(e) :: l.key != "END_OBJECT"
  {
    AttrsAreOk(e);
    forall l | l in Own(e) ensures l.key != "END_OBJECT" {
      var i :| 0 <= i < |Attrs(e)| && l == Line(4, Attrs(e)[i].key, Attrs(e)[i].val);
      assert Attrs(e)[i] in Attrs(e);
      LowerLast(l.key);
    }
  }

  lemma LowerLast(k: string)
    requires AttrKey(k)
    ensures k != "END_OBJECT"
  {
  }
}
