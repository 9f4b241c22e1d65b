/** Rows of lookups: the attributes of a printed object read one after the other
    on the pointer each lookup moves, and whole groups read object by object. */
module MetaRows {
  import opened CText
  import opened OdlLines
  import opened MetaTree
  import opened MetaLines
  import opened MetaLocate
  import opened MetaRefine
  import opened MetaPointField
  import opened MetaLookup
  import opened MetaRead
  import opened MetaFind

  /** EHgetmetavalue for one key after the other. */
  function Row(t: string, beg: nat, end: Ptr, keys: seq<string>): (r: Option<seq<Lookup>>)
    requires beg <= |t|
    ensures r.Some? ==> |r.value| == |keys| && forall x <- r.value :: x.Found? && x.pos <= |t|
    decreases |keys|
  {
    if keys == [] then Some([])
    else match ValueBetween(t, beg, end, keys[0])
      case Missing => None
      case Found(p, v) =>
        match Row(t, p, end, keys[1..]) case None => None case Some(rs) => Some([Found(p, v)] + rs)
  }

  /** Some of n attributes, in their order. */
  predicate Picks(idx: seq<nat>, n: nat) {
    (forall m | 0 <= m < |idx| :: idx[m] < n) && forall m | 0 < m < |idx| :: idx[m - 1] < idx[m]
  }

  function KeysAt(xs: seq<Attr>, idx: seq<nat>): seq<string>
    requires Picks(idx, |xs|)
  {
    seq(|idx|, m requires 0 <= m < |idx| => xs[idx[m]].key)
  }

  /** The lines of an object up to its last attribute. */
  function OpenAnd(open: Line, n: nat, xs: seq<Attr>): seq<Line> { [open] + AttrLines(n, xs) }

  /** What a row should read: each picked attribute from number s on in its own line. */
  function Right(ls: seq<Line>, xs: seq<Attr>, idx: seq<nat>, s: nat, at: nat): seq<Lookup>
    requires |ls| == |xs| + 1 && Picks(idx, |xs|) && s <= |idx|
    decreases |idx| - s
  {
    if s == |idx| then [] else [Found(KeyPos(ls, idx[s] + 1, at), xs[idx[s]].val)] + Right(ls, xs, idx, s + 1, at)
  }

  function KeyPos(ls: seq<Line>, i: nat, at: nat): nat
    requires i < |ls|
  {
    at + |Text(ls[..i])| + |Head(ls[i])| - |ls[i].key|
  }

  /** The attribute does not stand in the way of the key. */
  predicate Clear(x: Attr, key: string) { !EndsWith(x.key, key) && !Contains(x.val, key + "=") }

  predicate ClearTo(xs: seq<Attr>, lo: nat, hi: nat, key: string) {
    forall i | lo <= i < hi && i < |xs| :: Clear(xs[i], key)
  }

  /** The attribute the lookup of pick s starts at. */
  function From(idx: seq<nat>, s: nat): nat
    requires s <= |idx|
  {
    if s == 0 then 0 else idx[s - 1]
  }

  /** No attribute that the lookup of pick s passes stands in its way. */
  predicate ClearAt(xs: seq<Attr>, idx: seq<nat>, s: nat)
    requires Picks(idx, |xs|) && s < |idx|
  {
    ClearTo(xs, From(idx, s), idx[s], xs[idx[s]].key)
  }

  predicate ClearFrom(xs: seq<Attr>, idx: seq<nat>, s: nat)
    requires Picks(idx, |xs|)
  {
    forall m | s <= m < |idx| :: ClearAt(xs, idx, m)
  }

  /** No attribute stands in the way of a picked one behind it. */
  predicate ClearRow(xs: seq<Attr>, idx: seq<nat>)
    requires Picks(idx, |xs|)
  {
    ClearFrom(xs, idx, 0)
  }

  // -------------------------------------------------------------------- one step

  predicate ObjectHead(open: Line, xs: seq<Attr>) {
    Shaped(open) && open.key == "OBJECT" && '=' !in open.val && AttrsOk(xs)
  }

  /** Where the pointer is before pick s is read: first somewhere in the head of the
      opening line, then at the key before. */
  function Ahead(open: Line, n: nat, xs: seq<Attr>, idx: seq<nat>, s: nat, m: nat): (c: Cursor)
    requires Picks(idx, |xs|) && s < |idx| && m <= |Head(open)|
    ensures On(OpenAnd(open, n, xs), c)
  {
    if s == 0 then InHead(0, m) else InHead(idx[s - 1] + 1, |OpenAnd(open, n, xs)[idx[s - 1] + 1].key|)
  }

  lemma OpenPasses(open: Line, xs: seq<Attr>, key: string)
    requires ObjectHead(open, xs) && AttrKey(key)
    ensures !EndsWith(open.key, key) && StrStr(open.val, key + "=", 0).Null?
  {
    EndsWithChar("OBJECT", key, 1);
    var k := key + "=";
    assert k[|key|] == '=';
    forall x: nat ensures !OccursAt(open.val, k, x) {
      OccursIdx(open.val, k, x, x + |key|);
    }
  }

  /** From the line of attribute i on, the lookup of the key of attribute hi finds it
      exactly when the attributes it passes are clear, else something before it. */
  lemma {:induction false} Walk(open: Line, n: nat, xs: seq<Attr>, i: nat, hi: nat, c: Cursor, key: string) returns (d: Cursor, v: string)
    requires i <= hi < |xs| && xs[hi].key == key && On(OpenAnd(open, n, xs), c) && c.InHead? && c.line == i + 1 && c.left >= |xs[i].key|
    ensures ReadOn(OpenAnd(open, n, xs), c, key) == Some((d, v)) && On(OpenAnd(open, n, xs), d)
    ensures if ClearTo(xs, i, hi, key) then d == InHead(hi + 1, |key|) && v == xs[hi].val else d.line <= hi
    decreases hi - i
  {
    var ls := OpenAnd(open, n, xs);
    var l := ls[i + 1];
    assert l == Line(n, xs[i].key, xs[i].val);
    assert EndsWith(key, key);
    KeyHit(l.val, key + "=");
    if KeyAhead(l, c, key) {
      d, v := InHead(i + 1, |key|), l.val;
    } else if StrStr(l.val, key + "=", 0).At? {
      var q := StrStr(l.val, key + "=", 0).pos;
      ReadHeld(ls, c, key, q);
      d, v := InVal(i + 1, q), l.val[q + |key| + 1..];
    } else {
      ReadNext(ls, c, key);
      assert ls[i + 2] == Line(n, xs[i + 1].key, xs[i + 1].val);
      d, v := Walk(open, n, xs, i + 1, hi, LineStart(ls, i + 2), key);
      ClearToStep(xs, i, hi, key);
    }
  }

  lemma ClearToStep(xs: seq<Attr>, i: nat, hi: nat, key: string)
    requires i < hi < |xs|
    ensures ClearTo(xs, i, hi, key) <==> Clear(xs[i], key) && ClearTo(xs, i + 1, hi, key)
  {
  }

  /** One lookup finds its own attribute exactly when its way is clear. */
  lemma Step(open: Line, n: nat, xs: seq<Attr>, idx: seq<nat>, s: nat, m: nat) returns (d: Cursor, v: string)
    requires ObjectHead(open, xs) && Picks(idx, |xs|) && s < |idx| && m <= |Head(open)|
    ensures var ls := OpenAnd(open, n, xs);
            ReadOn(ls, Ahead(open, n, xs, idx, s, m), xs[idx[s]].key) == Some((d, v)) && On(ls, d)
    ensures if ClearAt(xs, idx, s) then d == InHead(idx[s] + 1, |xs[idx[s]].key|) && v == xs[idx[s]].val else d.line <= idx[s]
  {
    var ls, c, key := OpenAnd(open, n, xs), Ahead(open, n, xs, idx, s, m), xs[idx[s]].key;
    if s == 0 {
      assert xs[idx[0]] in xs;
      OpenPasses(open, xs, key);
      ReadNext(ls, c, key);
      assert ls[1] == Line(n, xs[0].key, xs[0].val);
      d, v := Walk(open, n, xs, 0, idx[0], LineStart(ls, 1), key);
    } else {
      assert ls[idx[s - 1] + 1] == Line(n, xs[idx[s - 1]].key, xs[idx[s - 1]].val);
      d, v := Walk(open, n, xs, idx[s - 1], idx[s], c, key);
    }
  }

  lemma LineApart(ls: seq<Line>, d: Cursor, s: nat, at: nat)
    requires On(ls, d) && d.line <= s && s + 1 < |ls|
    ensures at + Offset(ls, d) < KeyPos(ls, s + 1, at)
  {
    var a, b := TextAround(ls, d.line);
    assert |LineText(ls[d.line])| == Len(ls[d.line]);
    TextUpTo(ls, d.line + 1, s + 1);
  }

  lemma TextUpTo(ls: seq<Line>, i: nat, j: nat)
    requires i <= j <= |ls|
    ensures |Text(ls[..i])| <= |Text(ls[..j])|
  {
    assert ls[..j] == ls[..i] + ls[i..j];
    TextCat(ls[..i], ls[i..j]);
  }

  lemma RowStep(t: string, beg: nat, end: Ptr, keys: seq<string>, pos: nat, v: string, kpos: nat, kv: string, rest: seq<Lookup>)
    requires beg <= |t| && keys != [] && pos <= |t| && ValueBetween(t, beg, end, keys[0]) == Found(pos, v)
    ensures Row(t, beg, end, keys) == Some([Found(kpos, kv)] + rest)
            <==> pos == kpos && v == kv && Row(t, pos, end, keys[1..]) == Some(rest)
  {
    var more := Row(t, pos, end, keys[1..]);
    if more.Some? {
      var a, b := [Found(pos, v)] + more.value, [Found(kpos, kv)] + rest;
      assert a[0] == Found(pos, v) && a[1..] == more.value && b[0] == Found(kpos, kv) && b[1..] == rest;
    }
  }

  /** A row from pick s on. */
  lemma {:induction false} RowFrom(t: string, pre: string, open: Line, n: nat, xs: seq<Attr>, idx: seq<nat>, post: string, s: nat, m: nat,
                                   beg: nat, end: nat)
    requires ObjectHead(open, xs) && m <= |Head(open)| && t == pre + Text(OpenAnd(open, n, xs)) + post && |pre| + |Text(OpenAnd(open, n, xs))| <= end
    requires Picks(idx, |xs|) && s <= |idx| && beg <= |t|
    requires s < |idx| ==> beg == |pre| + Offset(OpenAnd(open, n, xs), Ahead(open, n, xs, idx, s, m))
    ensures Row(t, beg, At(end), KeysAt(xs, idx)[s..]) == Some(Right(OpenAnd(open, n, xs), xs, idx, s, |pre|)) <==> ClearFrom(xs, idx, s)
    decreases |idx| - s
  {
    var ls, keys := OpenAnd(open, n, xs), KeysAt(xs, idx)[s..];
    if s < |idx| {
      var d, pos, v := OneLookup(t, pre, open, n, xs, idx, post, s, m, beg, end);
      assert keys[0] == xs[idx[s]].key && keys[1..] == KeysAt(xs, idx)[s + 1..];
      RowStep(t, beg, At(end), keys, pos, v, KeyPos(ls, idx[s] + 1, |pre|), xs[idx[s]].val, Right(ls, xs, idx, s + 1, |pre|));
      if ClearAt(xs, idx, s) {
        RowFrom(t, pre, open, n, xs, idx, post, s + 1, m, pos, end);
      }
      ClearFromStep(xs, idx, s);
    }
  }

  lemma ClearFromStep(xs: seq<Attr>, idx: seq<nat>, s: nat)
    requires Picks(idx, |xs|) && s < |idx|
    ensures ClearFrom(xs, idx, s) <==> ClearAt(xs, idx, s) && ClearFrom(xs, idx, s + 1)
  {
  }

  lemma OneLookup(t: string, pre: string, open: Line, n: nat, xs: seq<Attr>, idx: seq<nat>, post: string, s: nat, m: nat, beg: nat, end: nat)
    returns (d: Cursor, pos: nat, v: string)
    requires ObjectHead(open, xs) && m <= |Head(open)| && t == pre + Text(OpenAnd(open, n, xs)) + post && |pre| + |Text(OpenAnd(open, n, xs))| <= end
    requires Picks(idx, |xs|) && s < |idx| && beg == |pre| + Offset(OpenAnd(open, n, xs), Ahead(open, n, xs, idx, s, m)) && beg <= |t|
    ensures var ls, i := OpenAnd(open, n, xs), idx[s];
            && pos <= |t| && ValueBetween(t, beg, At(end), xs[i].key) == Found(pos, v) && On(ls, d) && pos == |pre| + Offset(ls, d)
            && if ClearAt(xs, idx, s)
               then d == InHead(i + 1, |xs[i].key|) && v == xs[i].val && pos == KeyPos(ls, i + 1, |pre|)
               else pos < KeyPos(ls, i + 1, |pre|)
  {
    var ls := OpenAnd(open, n, xs);
    d, v := Step(open, n, xs, idx, s, m);
    ObjectShaped(open, n, xs, idx[s]);
    pos := LookupTo(t, pre, ls, post, Ahead(open, n, xs, idx, s, m), xs[idx[s]].key, beg, end, d, v);
    Placed(ls, d, pos, idx[s], xs[idx[s]].key, ClearAt(xs, idx, s), |pre|);
  }

  lemma LookupTo(t: string, pre: string, ls: seq<Line>, post: string, c: Cursor, key: string, beg: nat, end: nat, d: Cursor, v: string)
    returns (pos: nat)
    requires t == pre + Text(ls) + post && AllShaped(ls) && On(ls, c) && KeyOk(key)
    requires beg == |pre| + Offset(ls, c) && |pre| + |Text(ls)| <= end && ReadOn(ls, c, key) == Some((d, v))
    ensures On(ls, d) && pos == |pre| + Offset(ls, d) && beg <= |t| && pos <= |t| && ValueBetween(t, beg, At(end), key) == Found(pos, v)
  {
    var d', v';
    d', pos, v' := LookupWithin(t, pre, ls, post, c, key, beg, end);
  }

  /** Where the lookup ends up on the text. */
  lemma Placed(ls: seq<Line>, d: Cursor, pos: nat, i: nat, key: string, clear: bool, at: nat)
    requires i + 1 < |ls| && ls[i + 1].key == key && On(ls, d) && pos == at + Offset(ls, d)
    requires if clear then d == InHead(i + 1, |key|) else d.line <= i
    ensures if clear then pos == KeyPos(ls, i + 1, at) else pos < KeyPos(ls, i + 1, at)
  {
    if clear {
      KeyOffset(ls, i + 1, at);
    } else {
      LineApart(ls, d, i, at);
    }
  }

  lemma KeyOffset(ls: seq<Line>, i: nat, at: nat)
    requires i < |ls|
    ensures On(ls, InHead(i, |ls[i].key|)) && at + Offset(ls, InHead(i, |ls[i].key|)) == KeyPos(ls, i, at)
  {
  }

  lemma ObjectShaped(open: Line, n: nat, xs: seq<Attr>, s: nat)
    requires ObjectHead(open, xs) && s < |xs|
    ensures AllShaped(OpenAnd(open, n, xs)) && KeyOk(xs[s].key)
  {
    AttrLinesTame(n, xs);
    assert xs[s] in xs;
    AttrLineOk(Line(n, xs[s].key, xs[s].val));
  }

  /** Any attributes of a printed object, in their order, read back each from its own
      line if and only if no attribute on the way to one of them has a value that holds
      its key or a key that ends with it. */
  lemma RowReadsBack(t: string, pre: string, open: Line, n: nat, xs: seq<Attr>, idx: seq<nat>, post: string, m: nat, beg: nat, end: nat)
    requires ObjectHead(open, xs) && m <= |Head(open)| && t == pre + Text(OpenAnd(open, n, xs)) + post && Picks(idx, |xs|)
    requires |pre| + |Text(OpenAnd(open, n, xs))| <= end && beg == |pre| + |Head(open)| - m
    ensures beg <= |t|
    ensures Row(t, beg, At(end), KeysAt(xs, idx)) == Some(Right(OpenAnd(open, n, xs), xs, idx, 0, |pre|)) <==> ClearRow(xs, idx)
  {
    var a, b := TextAround(OpenAnd(open, n, xs), 0);
    RowFrom(t, pre, open, n, xs, idx, post, 0, m, beg, end);
    assert KeysAt(xs, idx)[0..] == KeysAt(xs, idx);
  }

  // ------------------------------------------------------------ the values of a row

  /** The values that lookups on the lines read, one key after the other. */
  function ValuesOn(ls: seq<Line>, c: Cursor, keys: seq<string>): (r: Option<seq<string>>)
    requires On(ls, c)
    ensures r.Some? ==> |r.value| == |keys|
    decreases |keys|
  {
    if keys == [] then Some([])
    else match ReadOn(ls, c, keys[0])
      case None => None
      case Some((d, v)) => match ValuesOn(ls, d, keys[1..]) case None => None case Some(vs) => Some([v] + vs)
  }

  /** A row with these values, found between two places. */
  predicate RowHas(row: seq<Lookup>, vs: seq<string>, lo: nat, hi: nat) {
    |row| == |vs| && forall m | 0 <= m < |row| :: row[m].Found? && row[m].value == vs[m] && lo <= row[m].pos <= hi
  }

  lemma RowHasMore(row: seq<Lookup>, vs: seq<string>, lo: nat, hi: nat, pos: nat, v: string)
    requires RowHas(row, vs, lo, hi) && lo <= pos <= hi
    ensures RowHas([Found(pos, v)] + row, [v] + vs, lo, hi)
  {
  }

  lemma PlaceWithin(ls: seq<Line>, d: Cursor, at: nat)
    requires On(ls, d) && d.line > 0
    ensures at + |LineText(ls[0])| <= at + Offset(ls, d) <= at + |Text(ls)|
  {
    var a, b := TextAround(ls, d.line);
    assert ls[..d.line][0] == ls[0];
    assert |LineText(ls[d.line])| == Len(ls[d.line]);
  }

  predicate KeysOk(keys: seq<string>) { forall k <- keys :: KeyOk(k) }

  /** A row on the text, from behind the first line on or where the first lookup gets
      past it, has the values of the lookups on the lines. */
  lemma {:induction false} RowIs(t: string, pre: string, ls: seq<Line>, post: string, c: Cursor, keys: seq<string>, beg: nat, end: nat)
    returns (row: seq<Lookup>)
    requires t == pre + Text(ls) + post && AllShaped(ls) && On(ls, c) && KeysOk(keys)
    requires keys != [] && c.line == 0 ==> ReadOn(ls, c, keys[0]).Some? && ReadOn(ls, c, keys[0]).value.0.line > 0
    requires beg == |pre| + Offset(ls, c) && beg <= |t| && |pre| + |Text(ls)| <= end && ValuesOn(ls, c, keys).Some?
    ensures Row(t, beg, At(end), keys) == Some(row)
    ensures RowHas(row, ValuesOn(ls, c, keys).value, |pre| + |LineText(ls[0])|, |pre| + |Text(ls)|)
    decreases |keys|
  {
    if keys == [] {
      row := [];
    } else {
      assert keys[0] in keys;
      var d, pos, v := LookupWithin(t, pre, ls, post, c, keys[0], beg, end);
      PlaceWithin(ls, d, |pre|);
      var rest := RowIs(t, pre, ls, post, d, keys[1..], pos, end);
      row := [Found(pos, v)] + rest;
      RowHasMore(rest, ValuesOn(ls, d, keys[1..]).value, |pre| + |LineText(ls[0])|, |pre| + |Text(ls)|, pos, v);
    }
  }

  /** Lines in front of the cursor do not change the values. */
  lemma {:induction false} ValuesShift(a: seq<Line>, b: seq<Line>, c: Cursor, d: Cursor, keys: seq<string>)
    requires On(b, c) && d == Shifted(c, |a|)
    ensures On(a + b, d) && ValuesOn(a + b, d, keys) == ValuesOn(b, c, keys)
    decreases |keys|
  {
    assert (a + b)[d.line] == b[c.line];
    if keys != [] {
      ReadShift(a, b, c, d, keys[0]);
      match ReadOn(b, c, keys[0])
      case None =>
      case Some((x, v)) => ValuesShift(a, b, x, Shifted(x, |a|), keys[1..]);
    }
  }

  /** The keys are those of later and later lines. */
  predicate Leads(ls: seq<Line>, i: nat, keys: seq<string>, hs: seq<nat>) {
    && |hs| == |keys|
    && (forall m | 0 <= m < |hs| :: hs[m] < |ls| && ls[hs[m]].key == keys[m])
    && (forall m | 0 < m < |hs| :: hs[m - 1] < hs[m])
    && (hs != [] ==> i < hs[0])
  }

  /** Then every one of them is found, no later than there. */
  lemma {:induction false} ValuesFound(ls: seq<Line>, c: Cursor, keys: seq<string>, hs: seq<nat>)
    requires On(ls, c) && Leads(ls, c.line, keys, hs)
    ensures ValuesOn(ls, c, keys).Some?
    decreases |keys|
  {
    if keys != [] {
      var d := KeyFound(ls, c, keys[0], hs[0]);
      assert hs[1..] != [] ==> hs[1..][0] == hs[1];
      ValuesFound(ls, d, keys[1..], hs[1..]);
    }
  }

  lemma {:induction false} KeyFound(ls: seq<Line>, c: Cursor, key: string, h: nat) returns (d: Cursor)
    requires On(ls, c) && c.line < h < |ls| && ls[h].key == key
    ensures ReadOn(ls, c, key).Some? && d == ReadOn(ls, c, key).value.0 && d.line <= h
    decreases h - c.line
  {
    if !KeyAhead(ls[c.line], c, key) && StrStr(ls[c.line].val, key + "=", ValueFrom(c)).Null? {
      ReadNext(ls, c, key);
      if c.line + 1 < h {
        d := KeyFound(ls, LineStart(ls, c.line + 1), key, h);
        return;
      }
      ReadLine(ls, h, key);
    }
    d := ReadOn(ls, c, key).value.0;
  }

  // ----------------------------------------------------------- an entry's object

  lemma EntryHead(e: Entry, j: nat)
    requires EntryOk(e) && !e.Level?
    ensures ObjectHead(ObjOpen(e, j), Attrs(e)) && |Head(ObjOpen(e, j))| == 9
  {
    ObjectTame(e, j);
    AttrsAreOk(e);
    NoSignInTag(e, j);
  }

  lemma NoSignInTag(e: Entry, j: nat)
    ensures '=' !in Numbered(GroupOf(e), j + 1)
  {
    PlainGroup(e);
    assert '=' !in Dec(j + 1);
  }

  function Object(e: Entry, j: nat): seq<Line> { OpenAnd(ObjOpen(e, j), 4, Attrs(e)) }

  /** What a row over an entry should read, when its opening line stands at at. */
  function EntryRow(e: Entry, idx: seq<nat>, j: nat, at: nat): seq<Lookup>
    requires Picks(idx, |Attrs(e)|)
  {
    Right(Object(e, j), Attrs(e), idx, 0, at)
  }

  lemma EntryText(e: Entry, j: nat)
    requires !e.Level?
    ensures Text(Object(e, j)) == LineText(ObjOpen(e, j)) + Text(Own(e))
    ensures Text(EntryLines(e, j)) == Text(Object(e, j)) + LineText(ObjClose(e, j))
    ensures Text(Own(e) + [ObjClose(e, j)]) == Text(Own(e)) + LineText(ObjClose(e, j))
  {
    TextCat([ObjOpen(e, j)], Own(e));
    Text1(ObjOpen(e, j));
    assert EntryLines(e, j) == Object(e, j) + [ObjClose(e, j)];
    TextCat(Object(e, j), [ObjClose(e, j)]);
    TextCat(Own(e), [ObjClose(e, j)]);
    Text1(ObjClose(e, j));
  }

  /** The place of entry j's opening line. */
  function EntryPos(f: MetaFile, k: Kind, i: nat, g: nat, j: nat): nat
    requires GroupSite(f, k, i, g) && j < |Entries(f, k, i, g)|
  {
    OpenPos(f, k, i, g) + |Text([OpenLine(Schema(k)[g])] + EntriesLines(Entries(f, k, i, g)[..j]))|
  }

  lemma EntryAt(f: MetaFile, k: Kind, i: nat, g: nat, j: nat) returns (front: string, back: string)
    requires GroupSite(f, k, i, g) && j < |Entries(f, k, i, g)|
    ensures Print(f) == front + Text(Object(Entries(f, k, i, g)[j], j)) + back && |front| == EntryPos(f, k, i, g, j)
    ensures |front| + |Text(Object(Entries(f, k, i, g)[j], j))| <= ClosePos(f, k, i, g)
  {
    var es, b := Entries(f, k, i, g), Schema(k)[g];
    var pre, rest := EntryFrame(f, k, i, g, j);
    var lead, open := [OpenLine(b)] + EntriesLines(es[..j]), ObjOpen(es[j], j);
    assert es[j] in es;
    EntryText(es[j], j);
    TextCat(lead, [open]);
    Text1(open);
    front, back := pre + Text(lead), LineText(ObjClose(es[j], j)) + rest;
    ObjectChain(pre, Text(lead), LineText(open), Text(Own(es[j])), back);
  }

  lemma ObjectChain(p: string, l: string, o: string, w: string, z: string)
    ensures p + (l + o) + w + z == (p + l) + (o + w) + z
  {
  }

  /** Any attributes of every entry that is not a level read back in order from its
      opening line on, if and only if they are clear. */
  lemma EntryReadsBack(f: MetaFile, k: Kind, i: nat, g: nat, j: nat, idx: seq<nat>, at: nat)
    requires GroupSite(f, k, i, g) && j < |Entries(f, k, i, g)| && at == EntryPos(f, k, i, g, j) && Picks(idx, |Attrs(Entries(f, k, i, g)[j])|)
    ensures var e := Entries(f, k, i, g)[j];
            && at <= |Print(f)|
            && (Row(Print(f), at, At(ClosePos(f, k, i, g)), KeysAt(Attrs(e), idx)) == Some(EntryRow(e, idx, j, at)) <==> ClearRow(Attrs(e), idx))
  {
    var e := Entries(f, k, i, g)[j];
    assert e in Entries(f, k, i, g);
    var front, back := EntryAt(f, k, i, g, j);
    EntryHead(e, j);
    RowReadsBack(Print(f), front, ObjOpen(e, j), 4, Attrs(e), idx, back, 9, at, ClosePos(f, k, i, g));
  }

  /** The picked attributes of the entry have these keys. */
  predicate Picked(e: Entry, idx: seq<nat>, keys: seq<string>) { Picks(idx, |Attrs(e)|) && KeysAt(Attrs(e), idx) == keys }

  /** The values that lookups read on an entry's own lines. */
  function EntryValues(e: Entry, keys: seq<string>): Option<seq<string>>
    requires Own(e) != []
  {
    ValuesOn(Own(e), LineStart(Own(e), 0), keys)
  }

  /** The lookup of a key that the first line does not have goes on to the next. */
  lemma FirstPassed(open: Line, own: seq<Line>, m: nat, key: string)
    requires own != [] && m <= |Head(open)| && !EndsWith(open.key, key) && StrStr(open.val, key + "=", 0).Null?
    ensures var ls := [open] + own;
            On(ls, InHead(0, m)) && ReadOn(ls, InHead(0, m), key) == ReadOn(ls, LineStart(ls, 1), key)
    ensures LineStart([open] + own, 1) == Shifted(LineStart(own, 0), 1)
  {
    ReadNext([open] + own, InHead(0, m), key);
  }

  lemma SameFirst(ls: seq<Line>, c: Cursor, d: Cursor, keys: seq<string>)
    requires On(ls, c) && On(ls, d) && keys != [] && ReadOn(ls, c, keys[0]) == ReadOn(ls, d, keys[0])
    ensures ValuesOn(ls, c, keys) == ValuesOn(ls, d, keys)
  {
  }

  /** From inside the opening line the same values are read, past that line. */
  lemma OpenPassed(e: Entry, j: nat, idx: seq<nat>, keys: seq<string>)
    requires EntryOk(e) && !e.Level? && Picked(e, idx, keys) && keys != []
    ensures Own(e) != [] && On(Object(e, j), InHead(0, 8)) && EntryValues(e, keys).Some?
    ensures ReadOn(Object(e, j), InHead(0, 8), keys[0]).Some? && ReadOn(Object(e, j), InHead(0, 8), keys[0]).value.0.line > 0
    ensures ValuesOn(Object(e, j), InHead(0, 8), keys) == EntryValues(e, keys)
  {
    var ls, open := Object(e, j), ObjOpen(e, j);
    NothingInOpen(e, j, idx, keys);
    assert ls == [open] + Own(e);
    FirstPassed(open, Own(e), 8, keys[0]);
    SameFirst(ls, InHead(0, 8), LineStart(ls, 1), keys);
    ValuesShift([open], Own(e), LineStart(Own(e), 0), LineStart(ls, 1), keys);
    PickLeads(e, j, idx, keys);
  }

  lemma NothingInOpen(e: Entry, j: nat, idx: seq<nat>, keys: seq<string>)
    requires EntryOk(e) && !e.Level? && Picked(e, idx, keys) && keys != []
    ensures Own(e) != [] && 8 <= |Head(ObjOpen(e, j))|
    ensures !EndsWith(ObjOpen(e, j).key, keys[0]) && StrStr(ObjOpen(e, j).val, keys[0] + "=", 0).Null?
  {
    EntryHead(e, j);
    assert Attrs(e)[idx[0]] in Attrs(e) && keys[0] == Attrs(e)[idx[0]].key;
    OpenPasses(ObjOpen(e, j), Attrs(e), keys[0]);
  }

  lemma PickLeads(e: Entry, j: nat, idx: seq<nat>, keys: seq<string>)
    requires Picked(e, idx, keys) && On(Object(e, j), InHead(0, 8))
    ensures ValuesOn(Object(e, j), InHead(0, 8), keys).Some?
  {
    var hs := seq(|idx|, m requires 0 <= m < |idx| => idx[m] + 1);
    forall m | 0 <= m < |hs| ensures hs[m] < |Object(e, j)| && Object(e, j)[hs[m]].key == keys[m] {
      assert Object(e, j)[idx[m] + 1] == Line(4, Attrs(e)[idx[m]].key, Attrs(e)[idx[m]].val);
    }
    ValuesFound(Object(e, j), InHead(0, 8), keys, hs);
  }

  lemma PickedKeysOk(e: Entry, idx: seq<nat>, keys: seq<string>)
    requires EntryOk(e) && !e.Level? && Picked(e, idx, keys)
    ensures KeysOk(keys)
  {
    EntryHead(e, 0);
    forall k | k in keys ensures KeyOk(k) {
      var m :| 0 <= m < |keys| && keys[m] == k;
      ObjectShaped(ObjOpen(e, 0), 4, Attrs(e), idx[m]);
    }
  }

  // ------------------------------------------------------------- a whole group

  /** The loop of the inquiries: the next object before the end pointer, the
      attributes that are asked for, and on from where the last of them was found. None
      where the loop does not end or a lookup fails. */
  function Inquire(t: string, p: nat, end: Ptr, objectKey: string, keys: seq<string>): (r: Option<seq<seq<Lookup>>>)
    requires p <= |t|
    ensures r.Some? ==> forall row <- r.value :: |row| == |keys|
    decreases |t| - p
  {
    match StrStr(t, objectKey, p)
    case Null => Some([])
    case At(q) =>
      if !(end.At? && q < end.pos) then Some([])
      else match Turn(t, q, end, keys)
        case None => None
        case Some((rs, next)) =>
          match Inquire(t, next, end, objectKey, keys) case None => None case Some(more) => Some([rs] + more)
  }

  /** One object's row, and where the last lookup of it stands: never at the object
      itself, since a key cannot be found where a tab is. A loop that looks for nothing
      stays where it is and never ends. */
  function Turn(t: string, q: nat, end: Ptr, keys: seq<string>): (r: Option<(seq<Lookup>, nat)>)
    requires q <= |t|
    ensures r.Some? ==> q < r.value.1 <= |t| && |r.value.0| == |keys|
  {
    if keys == [] then None else
    match Row(t, q, end, keys)
    case None => None
    case Some(rs) => if rs[|rs| - 1].pos <= q then None else Some((rs, rs[|rs| - 1].pos))
  }

  predicate Ends(l: Line) { Shaped(l) && l.key != "OBJECT" }

  predicate AllEnd(ls: seq<Line>) { forall l <- ls :: Ends(l) }

  lemma ObjectKey(l: Line)
    requires Shaped(l)
    ensures Aligned(l, "\t\tOBJECT", "") <==> l.key == "OBJECT" && l.tabs >= 2
    ensures !Contains(l.val, "\t\tOBJECT" + "=" + "") && SearchKey("\t\tOBJECT", "") && "\t\tOBJECT" + "=" + "" == "\t\tOBJECT="
  {
    assert Tabs(2) + "OBJECT" == "\t\tOBJECT";
    AlignedTabs(l, 2, "OBJECT", "");
    NotContainsChar(l.val, "\t\tOBJECT" + "=" + "", 0);
  }

  lemma EndsQuiet(ls: seq<Line>)
    requires AllEnd(ls)
    ensures AllQuiet(ls, "\t\tOBJECT", "") && AllShaped(ls)
  {
    forall l | l in ls ensures Quiet(l, "\t\tOBJECT", "") {
      ObjectKey(l);
    }
  }

  /** The search for the next object. */
  lemma NextObject(t: string, front: string, skip: seq<Line>, open: Line, post: string, objectKey: string, from: nat, p: nat)
    requires objectKey == "\t\tOBJECT=" && t == front + Text(skip) + LineText(open) + post && AllEnd(skip) && Shaped(open) && open.key == "OBJECT" && open.tabs == 3
    requires |front| <= from <= p == |front| + |Text(skip)| + 1
    ensures from <= |t| && StrStr(t, objectKey, from) == At(p)
  {
    EndsQuiet(skip);
    ObjectKey(open);
    assert |Head(open)| == 9;
    FindIn(t, objectKey, front, skip, open, post, "\t\tOBJECT", "", from, p);
  }

  lemma NoNextObject(t: string, front: string, skip: seq<Line>, post: string, objectKey: string, from: nat, end: nat)
    requires objectKey == "\t\tOBJECT=" && t == front + Text(skip) + post && AllEnd(skip) && |front| <= from <= end == |front| + |Text(skip)|
    ensures from <= |t| && (StrStr(t, objectKey, from).At? ==> StrStr(t, objectKey, from).pos >= end)
  {
    var r := StrStr(t, objectKey, from);
    EndsQuiet(skip);
    if r.At? && r.pos < end {
      ObjectKey(OpenLine("x"));
      NoneInQuiet(front, skip, post, "\t\tOBJECT", "", r.pos);
    }
  }

  lemma EndsCat(a: seq<Line>, b: Line)
    requires AllEnd(a) && Ends(b)
    ensures AllEnd(a + [b])
  {
  }

  lemma OwnEnds(e: Entry, n: nat)
    requires EntryOk(e) && !e.Level?
    ensures AllEnd(Own(e)) && Ends(ObjClose(e, n))
  {
    ObjectTame(e, n);
    AttrsAreOk(e);
    forall l | l in Own(e) ensures l.key != "OBJECT" {
      var i :| 0 <= i < |Attrs(e)| && l == Line(4, Attrs(e)[i].key, Attrs(e)[i].val);
      assert Attrs(e)[i] in Attrs(e);
      NotObject(l.key);
    }
    CloseIsNoObject();
  }

  lemma CloseIsNoObject()
    ensures "END_OBJECT" != "OBJECT"
  {
  }

  lemma NotObject(k: string)
    requires AttrKey(k)
    ensures k != "OBJECT"
  {
  }

  predicate Objects(es: seq<Entry>) { forall e <- es :: EntryOk(e) && !e.Level? }

  /** The picked attributes of every entry have these keys. */
  predicate Keyed(es: seq<Entry>, idx: seq<nat>, keys: seq<string>) { keys != [] && forall e <- es :: Picked(e, idx, keys) }

  /** What an inquiry over the entries from number j on should read. */
  function Rows(es: seq<Entry>, idx: seq<nat>, j: nat, at: nat): seq<seq<Lookup>>
    requires forall e <- es :: Picks(idx, |Attrs(e)|)
    decreases |es| - j
  {
    if j >= |es| then [] else [EntryRow(es[j], idx, j, at)] + Rows(es, idx, j + 1, After(es[j], j, at))
  }

  /** The place behind an entry. */
  function After(e: Entry, j: nat, at: nat): nat { at + |Text(EntryLines(e, j))| }

  /** A turn of the loop that finds an object and reads its row. */
  lemma InquireStep(t: string, p: nat, end: nat, objectKey: string, keys: seq<string>, q: nat, row: seq<Lookup>, next: nat, more: seq<seq<Lookup>>)
    requires p <= |t| && keys != [] && StrStr(t, objectKey, p) == At(q) && q < end && q <= |t|
    requires Row(t, q, At(end), keys) == Some(row) && next == row[|row| - 1].pos > q
    requires next <= |t| && Inquire(t, next, At(end), objectKey, keys) == Some(more)
    ensures Inquire(t, p, At(end), objectKey, keys) == Some([row] + more)
  {
    assert Turn(t, q, At(end), keys) == Some((row, next));
  }

  lemma SameHead<T>(a: T, b: seq<T>, c: T, d: seq<T>)
    ensures [a] + b == [c] + d <==> a == c && b == d
  {
    if [a] + b == [c] + d {
      assert ([a] + b)[0] == a && ([c] + d)[0] == c;
      assert ([a] + b)[1..] == b && ([c] + d)[1..] == d;
    }
  }

  /** The object that one turn finds, its row, and where that leaves the pointer. */
  lemma TurnReads(t: string, front: string, skip: seq<Line>, e: Entry, idx: seq<nat>, j: nat, back: string, objectKey: string, keys: seq<string>,
                  p: nat, at: nat, end: nat)
    returns (row: seq<Lookup>, next: nat)
    requires EntryOk(e) && !e.Level? && Picked(e, idx, keys) && keys != [] && AllEnd(skip) && objectKey == "\t\tOBJECT="
    requires t == front + Text(skip) + Text(Object(e, j)) + back && at + |Text(Object(e, j))| <= end
    requires |front| <= p <= at == |front| + |Text(skip)|
    ensures p <= |t| && at + 1 <= |t| && at + 1 < end && StrStr(t, objectKey, p) == At(at + 1)
    ensures Row(t, at + 1, At(end), keys) == Some(row) && RowOf(row, e, keys) && (row == EntryRow(e, idx, j, at) <==> ClearRow(Attrs(e), idx))
    ensures next == row[|row| - 1].pos && at + |LineText(ObjOpen(e, j))| <= next <= at + |Text(Object(e, j))| && at + 1 < next
  {
    ObjectFound(t, front, skip, e, j, back, objectKey, p, at);
    row := RowFound(t, front + Text(skip), e, idx, j, back, keys, at, end);
    next := row[|row| - 1].pos;
    EntryHead(e, j);
  }

  /** The row has the values of the entry's own lines. */
  predicate RowOf(row: seq<Lookup>, e: Entry, keys: seq<string>) {
    Own(e) != [] && EntryValues(e, keys) == Some(Values(row))
  }

  /** What was found, without the places. */
  function Values(row: seq<Lookup>): seq<string> {
    seq(|row|, m requires 0 <= m < |row| => if row[m].Found? then row[m].value else "")
  }

  lemma ObjectFound(t: string, front: string, skip: seq<Line>, e: Entry, j: nat, back: string, objectKey: string, p: nat, at: nat)
    requires EntryOk(e) && !e.Level? && AllEnd(skip) && objectKey == "\t\tOBJECT="
    requires t == front + Text(skip) + Text(Object(e, j)) + back && |front| <= p <= at == |front| + |Text(skip)|
    ensures p <= |t| && at + 1 <= |t| && StrStr(t, objectKey, p) == At(at + 1)
  {
    EntryHead(e, j);
    EntryText(e, j);
    FoundChain(front + Text(skip), LineText(ObjOpen(e, j)), Text(Own(e)), back);
    NextObject(t, front, skip, ObjOpen(e, j), Text(Own(e)) + back, objectKey, p, at + 1);
  }

  lemma RowFound(t: string, front: string, e: Entry, idx: seq<nat>, j: nat, back: string, keys: seq<string>, at: nat, end: nat)
    returns (row: seq<Lookup>)
    requires EntryOk(e) && !e.Level? && Picked(e, idx, keys) && keys != [] && t == front + Text(Object(e, j)) + back && |front| == at
    requires at + |Text(Object(e, j))| <= end
    ensures at + 1 <= |t| && Row(t, at + 1, At(end), keys) == Some(row) && row != [] && RowOf(row, e, keys)
    ensures row == EntryRow(e, idx, j, at) <==> ClearRow(Attrs(e), idx)
    ensures at + |LineText(ObjOpen(e, j))| <= row[|row| - 1].pos <= at + |Text(Object(e, j))|
  {
    EntryHead(e, j);
    RowReadsBack(t, front, ObjOpen(e, j), 4, Attrs(e), idx, back, 8, at + 1, end);
    row := RowExact(t, front, e, idx, j, back, keys, at + 1, end);
  }

  /** The row of an object from inside its opening line. */
  lemma RowExact(t: string, front: string, e: Entry, idx: seq<nat>, j: nat, back: string, keys: seq<string>, beg: nat, end: nat)
    returns (row: seq<Lookup>)
    requires EntryOk(e) && !e.Level? && Picked(e, idx, keys) && keys != [] && t == front + Text(Object(e, j)) + back && |front| + 1 == beg <= |t|
    requires |front| + |Text(Object(e, j))| <= end
    ensures Row(t, beg, At(end), keys) == Some(row) && row != [] && RowOf(row, e, keys)
    ensures |front| + |LineText(ObjOpen(e, j))| <= row[|row| - 1].pos <= |front| + |Text(Object(e, j))|
  {
    EntryHead(e, j);
    PickedKeysOk(e, idx, keys);
    OpenPassed(e, j, idx, keys);
    ObjectShaped(ObjOpen(e, j), 4, Attrs(e), idx[0]);
    row := RowIs(t, front, Object(e, j), back, InHead(0, 8), keys, beg, end);
    ValuesAre(row, ValuesOn(Object(e, j), InHead(0, 8), keys).value, |front| + |LineText(ObjOpen(e, j))|, |front| + |Text(Object(e, j))|);
  }

  lemma ValuesAre(row: seq<Lookup>, vs: seq<string>, lo: nat, hi: nat)
    requires RowHas(row, vs, lo, hi)
    ensures Values(row) == vs
  {
  }

  lemma FoundChain(a: string, o: string, w: string, z: string)
    ensures a + (o + w) + z == a + o + (w + z)
  {
  }

  lemma RowsAre(es: seq<Entry>, idx: seq<nat>, j: nat, at: nat)
    requires j < |es| && forall e <- es :: Picks(idx, |Attrs(e)|)
    ensures Picks(idx, |Attrs(es[j])|) && Rows(es, idx, j, at) == [EntryRow(es[j], idx, j, at)] + Rows(es, idx, j + 1, After(es[j], j, at))
  {
  }

  /** The rows have the values of the entries from number j on. */
  predicate RowsOf(rows: seq<seq<Lookup>>, es: seq<Entry>, keys: seq<string>, j: nat) {
    j + |rows| == |es| && forall m | 0 <= m < |rows| :: RowAt(rows, es, keys, j, m)
  }

  predicate RowAt(rows: seq<seq<Lookup>>, es: seq<Entry>, keys: seq<string>, j: nat, m: nat) {
    m < |rows| && j + m < |es| && RowOf(rows[m], es[j + m], keys)
  }

  lemma RowsMore(row: seq<Lookup>, rows: seq<seq<Lookup>>, all: seq<seq<Lookup>>, es: seq<Entry>, keys: seq<string>, j: nat)
    requires all == [row] + rows && RowAt(all, es, keys, j, 0) && RowsOf(rows, es, keys, j + 1)
    ensures RowsOf(all, es, keys, j)
  {
    forall m: nat | 0 < m < |all| ensures RowAt(all, es, keys, j, m) {
      RowShifted(rows, all, es, keys, j, m, m - 1);
    }
  }

  lemma RowShifted(rows: seq<seq<Lookup>>, all: seq<seq<Lookup>>, es: seq<Entry>, keys: seq<string>, j: nat, m: nat, n: nat)
    requires RowAt(rows, es, keys, j + 1, n) && m == n + 1 < |all| && all[m] == rows[n]
    ensures RowAt(all, es, keys, j, m)
  {
  }

  lemma {:induction false} InquireFrom(t: string, front: string, skip: seq<Line>, es: seq<Entry>, idx: seq<nat>, j: nat, post: string,
                                       objectKey: string, keys: seq<string>, p: nat, at: nat, end: nat)
    returns (rows: seq<seq<Lookup>>)
    requires Objects(es) && Keyed(es, idx, keys) && j <= |es| && AllEnd(skip) && objectKey == "\t\tOBJECT="
    requires t == front + Text(skip) + Text(EntriesFrom(es, j)) + post
    requires |front| <= p <= at == |front| + |Text(skip)| && end == at + |Text(EntriesFrom(es, j))|
    ensures p <= |t| && Inquire(t, p, At(end), objectKey, keys) == Some(rows) && RowsOf(rows, es, keys, j)
    ensures rows == Rows(es, idx, j, at) <==> ClearAll(es, idx, j)
    decreases |es| - j
  {
    if j == |es| {
      Assoc(front + Text(skip), "", post);
      NoNextObject(t, front, skip, post, objectKey, p, end);
      rows := [];
    } else {
      var e := es[j];
      assert e in es && Picked(e, idx, keys);
      var passed, after, back := NextEntry(t, front, skip, es, j, post);
      var row, next := TurnReads(t, front, skip, e, idx, j, back, objectKey, keys, p, at, end);
      var more := InquireFrom(t, passed, after, es, idx, j + 1, post, objectKey, keys, next, After(e, j, at), end);
      rows := [row] + more;
      InquireStep(t, p, end, objectKey, keys, at + 1, row, next, more);
      RowsMore(row, more, rows, es, keys, j);
      RowsAre(es, idx, j, at);
      SameHead(row, more, EntryRow(e, idx, j, at), Rows(es, idx, j + 1, After(e, j, at)));
      ClearStep(es, idx, j);
    }
  }

  /** The text around entry j, and from its opening line on. */
  lemma NextEntry(t: string, front: string, skip: seq<Line>, es: seq<Entry>, j: nat, post: string)
    returns (passed: string, after: seq<Line>, back: string)
    requires Objects(es) && j < |es| && t == front + Text(skip) + Text(EntriesFrom(es, j)) + post
    ensures t == front + Text(skip) + Text(Object(es[j], j)) + back
    ensures t == passed + Text(after) + Text(EntriesFrom(es, j + 1)) + post && AllEnd(after)
    ensures |passed| == |front| + |Text(skip)| + |LineText(ObjOpen(es[j], j))|
    ensures |passed| + |Text(after)| == |front| + |Text(skip)| + |Text(EntryLines(es[j], j))|
    ensures |Text(EntriesFrom(es, j))| == |Text(EntryLines(es[j], j))| + |Text(EntriesFrom(es, j + 1))|
    ensures |Text(Object(es[j], j))| <= |Text(EntryLines(es[j], j))|
  {
    var e, more := es[j], Text(EntriesFrom(es, j + 1));
    assert e in es;
    EntryText(e, j);
    TextCat(EntryLines(e, j), EntriesFrom(es, j + 1));
    OwnEnds(e, j);
    EndsCat(Own(e), ObjClose(e, j));
    var open, own, close := LineText(ObjOpen(e, j)), Text(Own(e)), LineText(ObjClose(e, j));
    passed, after, back := front + Text(skip) + open, Own(e) + [ObjClose(e, j)], close + more + post;
    EntryChain(front + Text(skip), open, own, close, more, post);
  }

  lemma EntryChain(a: string, o: string, w: string, c: string, m: string, z: string)
    ensures a + (((o + w) + c) + m) + z == a + (o + w) + (c + m + z)
    ensures a + (((o + w) + c) + m) + z == (a + o) + (w + c) + m + z
  {
  }

  predicate ClearEntry(e: Entry, idx: seq<nat>)
    requires Picks(idx, |Attrs(e)|)
  {
    ClearRow(Attrs(e), idx)
  }

  predicate ClearAll(es: seq<Entry>, idx: seq<nat>, j: nat)
    requires forall e <- es :: Picks(idx, |Attrs(e)|)
  {
    forall m | j <= m < |es| :: ClearEntry(es[m], idx)
  }

  lemma ClearStep(es: seq<Entry>, idx: seq<nat>, j: nat)
    requires j < |es| && forall e <- es :: Picks(idx, |Attrs(e)|)
    ensures ClearAll(es, idx, j) <==> ClearEntry(es[j], idx) && ClearAll(es, idx, j + 1)
  {
  }

  lemma OpenEnds(k: Kind, g: string)
    requires g in Schema(k)
    ensures Ends(OpenLine(g))
  {
    GroupLineIs(k, g);
    assert "GROUP"[0] != "OBJECT"[0];
  }

  /** An inquiry over a group ends and reads one row of every entry, in order, with the
      values that lookups on the entry's own lines read, whatever the names hold. They
      are the values of the attributes it asks for, each from its own line, if and only
      if every entry is clear. */
  lemma InquiryReads(f: MetaFile, k: Kind, i: nat, g: nat, idx: seq<nat>, objectKey: string, keys: seq<string>, beg: nat)
    returns (rows: seq<seq<Lookup>>)
    requires GroupSite(f, k, i, g) && Keyed(Entries(f, k, i, g), idx, keys) && beg == OpenPos(f, k, i, g) + 2 && objectKey == "\t\tOBJECT="
    ensures beg <= |Print(f)| && Inquire(Print(f), beg, At(ClosePos(f, k, i, g)), objectKey, keys) == Some(rows)
    ensures RowsOf(rows, Entries(f, k, i, g), keys, 0)
    ensures rows == GroupRows(f, k, i, g, idx) <==> forall e <- Entries(f, k, i, g) :: ClearRow(Attrs(e), idx)
  {
    var b, es := Schema(k)[g], Entries(f, k, i, g);
    var pre, post := Text(LinesA(f, k, i)) + Text(LinesB(k, f.Of(k)[i], g)), LineText(CloseLine(b)) + Rest(f, k, i, g + 1);
    GroupText(f, k, i, g);
    OpenEnds(k, b);
    WholeGroup(Print(f), pre, b, es, post, ClosePos(f, k, i, g));
    rows := InquireFrom(Print(f), pre, [OpenLine(b)], es, idx, 0, post, objectKey, keys, beg, FirstPos(f, k, i, g), ClosePos(f, k, i, g));
    EveryClear(es, idx);
  }

  /** An inquiry that asks for nothing ends if and only if the group is empty. */
  lemma InquiryOfNothing(f: MetaFile, k: Kind, i: nat, g: nat, objectKey: string, beg: nat)
    requires GroupSite(f, k, i, g) && beg == OpenPos(f, k, i, g) + 2 && objectKey == "\t\tOBJECT="
    ensures beg <= |Print(f)|
    ensures Inquire(Print(f), beg, At(ClosePos(f, k, i, g)), objectKey, []) == if Entries(f, k, i, g) == [] then Some([]) else None
  {
    var b, es := Schema(k)[g], Entries(f, k, i, g);
    var pre, post := Text(LinesA(f, k, i)) + Text(LinesB(k, f.Of(k)[i], g)), LineText(CloseLine(b)) + Rest(f, k, i, g + 1);
    GroupText(f, k, i, g);
    OpenEnds(k, b);
    WholeGroup(Print(f), pre, b, es, post, ClosePos(f, k, i, g));
    AskNothing(Print(f), pre, [OpenLine(b)], es, post, objectKey, beg, FirstPos(f, k, i, g), ClosePos(f, k, i, g));
  }

  lemma AskNothing(t: string, front: string, skip: seq<Line>, es: seq<Entry>, post: string, objectKey: string, p: nat, at: nat, end: nat)
    requires Objects(es) && AllEnd(skip) && objectKey == "\t\tOBJECT=" && t == front + Text(skip) + Text(EntriesFrom(es, 0)) + post
    requires |front| <= p <= at == |front| + |Text(skip)| && end == at + |Text(EntriesFrom(es, 0))|
    ensures p <= |t| && Inquire(t, p, At(end), objectKey, []) == if es == [] then Some([]) else None
  {
    if es == [] {
      Assoc(front + Text(skip), "", post);
      NoNextObject(t, front, skip, post, objectKey, p, end);
    } else {
      assert es[0] in es;
      var passed, after, back := NextEntry(t, front, skip, es, 0, post);
      ObjectFound(t, front, skip, es[0], 0, back, objectKey, p, at);
      EntryText(es[0], 0);
    }
  }

  /** The place of the first entry's opening line. */
  function FirstPos(f: MetaFile, k: Kind, i: nat, g: nat): nat
    requires GroupSite(f, k, i, g)
  {
    OpenPos(f, k, i, g) + |Text([OpenLine(Schema(k)[g])])|
  }

  function GroupRows(f: MetaFile, k: Kind, i: nat, g: nat, idx: seq<nat>): seq<seq<Lookup>>
    requires GroupSite(f, k, i, g) && forall e <- Entries(f, k, i, g) :: Picks(idx, |Attrs(e)|)
  {
    Rows(Entries(f, k, i, g), idx, 0, FirstPos(f, k, i, g))
  }

  lemma WholeGroup(t: string, pre: string, g: string, es: seq<Entry>, post: string, end: nat)
    requires t == pre + Text([OpenLine(g)] + EntriesLines(es)) + post && end == |pre| + |Text([OpenLine(g)] + EntriesLines(es))|
    ensures t == pre + Text([OpenLine(g)]) + Text(EntriesFrom(es, 0)) + post
    ensures end == |pre| + |Text([OpenLine(g)])| + |Text(EntriesFrom(es, 0))| && |Text([OpenLine(g)])| >= 2
  {
    EntriesAround(es, 0);
    assert es[..0] == [] && [] + EntriesFrom(es, 0) == EntriesFrom(es, 0);
    TextCat([OpenLine(g)], EntriesLines(es));
    OpenLong(g, [OpenLine(g)]);
    Assoc(pre, Text([OpenLine(g)]), Text(EntriesFrom(es, 0)));
  }

  lemma EveryClear(es: seq<Entry>, idx: seq<nat>)
    requires forall e <- es :: Picks(idx, |Attrs(e)|)
    ensures ClearAll(es, idx, 0) <==> forall e <- es :: ClearRow(Attrs(e), idx)
  {
    if ClearAll(es, idx, 0) {
      forall e | e in es ensures ClearRow(Attrs(e), idx) {
        var m :| 0 <= m < |es| && es[m] == e;
        assert ClearEntry(es[m], idx);
      }
    }
  }
}
