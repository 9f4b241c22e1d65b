/** Looking a name up in a list, and listing the attribute names of a Vgroup. */
module ListNames {
  import opened CBuffer
  import opened ListText
  import opened ListOps

  // ----------------------------------------------------------------- EHstrwithin

  /** The stack buffer EHstrwithin copies each entry to. */
  const ENTRY_BUFFER: nat := 128

  /** memcpy of an entry and its terminator. */
  method CopyEntry(buffer: array<char>, e: string)
    requires |e| < buffer.Length && '\0' !in e
    modifies buffer
    ensures CStringAt(buffer[..], 0) == e
  {
    MemCpy(buffer, 0, e);
    buffer[|e|] := '\0';
    assert buffer[..|e|] == e;
    HoldsString(buffer, e);
  }

  /** EHstrwithin: the index of the first entry equal to the target, or -1. */
  method StrWithin(target: string, search: string, delim: char) returns (indx: int)
    requires search != "" && '\0' !in search && forall e <- Split(search, delim) :: |e| < 128
    ensures -1 <= indx < |Split(search, delim)|
    ensures indx >= 0 ==> Split(search, delim)[indx] == target && target !in Split(search, delim)[..indx]
    ensures indx == -1 ==> target !in Split(search, delim)
  {
    var ptr, slen, ps := ParseEntries(search, delim);
    var buffer := new char[ENTRY_BUFFER];
    indx := FirstEqual(target, search, ptr, slen, ptr.Length, buffer, ps);
  }

  method FirstEqual(target: string, search: string, ptr: array<nat>, slen: array<nat>, nentries: nat, buffer: array<char>, ghost ps: seq<string>)
    returns (indx: int)
    requires nentries == |ps| == ptr.Length == slen.Length && '\0' !in search
    requires forall i | 0 <= i < nentries :: ptr[i] + slen[i] <= |search| && search[ptr[i]..ptr[i] + slen[i]] == ps[i]
    requires forall e <- ps :: |e| < buffer.Length
    modifies buffer
    ensures -1 <= indx < nentries
    ensures indx >= 0 ==> ps[indx] == target && target !in ps[..indx]
    ensures indx == -1 ==> target !in ps
  {
    indx := 0;
    while indx < nentries
      invariant 0 <= indx <= nentries && target !in ps[..indx]
    {
      assert |ps[indx]| < buffer.Length;
      CopyEntry(buffer, search[ptr[indx]..ptr[indx] + slen[indx]]);
      if target == CStringAt(buffer[..], 0) {
        return;
      }
      indx := indx + 1;
    }
    assert ps[..nentries] == ps;
    indx := -1;
  }

  // ------------------------------------------------------------------- EHattrcat

  predicate Reserved(name: string) { "INDXMAP:" <= name || "_FV_" <= name || "_BLKSOM:" <= name }

  /** The names EHattrcat lists. */
  function Listed(names: seq<string>): seq<string> {
    if names == [] then []
    else
      var n := names[|names| - 1];
      Listed(names[..|names| - 1]) + (if Reserved(n) then [] else [n])
  }

  lemma ListedStep(names: seq<string>, i: nat)
    requires i < |names|
    ensures Listed(names[..i + 1]) == Listed(names[..i]) + (if Reserved(names[i]) then [] else [names[i]])
  {
    assert names[..i + 1][..i] == names[..i];
  }

  /** A name is listed if and only if it is there and not reserved. */
  lemma {:induction false} ListedIff(names: seq<string>, name: string)
    ensures name in Listed(names) <==> name in names && !Reserved(name)
  {
    if names != [] {
      var i := |names| - 1;
      ListedIff(names[..i], name);
      assert names == names[..i] + [names[i]];
    }
  }

  /** The names EHattrcat leaves out are those that start with one of three prefixes, and
      no other. */
  lemma {:induction false} ReservedLeftOut(names: seq<string>, name: string)
    ensures name in Listed(names) <==> name in names && !("INDXMAP:" <= name) && !("_FV_" <= name) && !("_BLKSOM:" <= name)
  {
    ListedIff(names, name);
  }

  /** It makes no difference where such a name stands. */
  lemma ReservedNoMatter(a: seq<string>, p: string, x: string, b: seq<string>)
    requires p in {"INDXMAP:", "_FV_", "_BLKSOM:"}
    ensures Listed(a + [p + x] + b) == Listed(a + b)
  {
    assert p <= p + x;
    ListedAppend(a + [p + x], b);
    ListedAppend(a, [p + x]);
    ListedAppend(a, b);
    assert Listed([p + x]) == [];
  }

  /** Every other name stands in the list where it stands among the names. */
  lemma OtherListed(a: seq<string>, name: string, b: seq<string>)
    requires !("INDXMAP:" <= name) && !("_FV_" <= name) && !("_BLKSOM:" <= name)
    ensures Listed(a + [name] + b) == Listed(a) + [name] + Listed(b)
  {
    ListedAppend(a + [name], b);
    ListedAppend(a, [name]);
    assert Listed([name]) == [name];
  }

  /** Listing goes through the names in their order. */
  lemma {:induction false} ListedAppend(a: seq<string>, b: seq<string>)
    ensures Listed(a + b) == Listed(a) + Listed(b)
  {
    if b == [] {
      assert a + b == a;
    } else {
      var i := |b| - 1;
      assert (a + b)[..|a + b| - 1] == a + b[..i];
      ListedAppend(a, b[..i]);
      var x := if Reserved(b[i]) then [] else [b[i]];
      assert (a + b)[|a + b| - 1] == b[i] && Listed(a + b) == Listed(a + b[..i]) + x;
      assert Listed(a) + Listed(b[..i]) + x == Listed(a) + (Listed(b[..i]) + x);
    }
  }

  lemma {:induction false} ListedRoom(names: seq<string>, i: nat)
    requires i <= |names|
    ensures |Join(Listed(names[..i]), ',')| <= |Join(Listed(names), ',')|
    decreases |names| - i
  {
    if i == |names| {
      assert names[..i] == names;
    } else {
      ListedStep(names, i);
      if Reserved(names[i]) {
        assert Listed(names[..i + 1]) == Listed(names[..i]);
      } else {
        JoinMore(Listed(names[..i]), names[i], ',');
      }
      ListedRoom(names, i + 1);
    }
  }

  /** The text of the first i names, and of one more. */
  lemma TextStep(names: seq<string>, i: nat)
    requires i < |names|
    ensures var done, next := Listed(names[..i]), Listed(names[..i + 1]);
            if Reserved(names[i]) then next == done
            else |next| == |done| + 1
                 && Join(next, ',') == (if |done| == 0 then names[i] else Join(done, ',') + "," + names[i])
                 && |Join(next, ',')| <= |Join(Listed(names), ',')|
  {
    ListedStep(names, i);
    ListedRoom(names, i + 1);
    JoinMore(Listed(names[..i]), names[i], ',');
  }

  /** One name goes to the list: copied when it is the first, else appended
      behind a comma. */
  method AddName(attrnames: array<char>, name: string, first: bool, ghost before: string)
    requires '\0' !in name && (first || Holds(attrnames, before))
    requires |before| + 1 + |name| < attrnames.Length || (first && |name| < attrnames.Length)
    modifies attrnames
    ensures Holds(attrnames, if first then name else before + "," + name)
  {
    if first {
      StrCpy(attrnames, name);
    } else {
      StrCat(attrnames, ",", before);
      StrCat(attrnames, name, before + ",");
    }
  }

  /** One name more: counted, its size added, and appended where there is a list. */
  method CountName(attrnames: array?<char>, name: string, nattr: nat, strbufsize: nat, ghost text: string)
    returns (n: nat, size: nat, ghost next: string)
    requires '\0' !in name && strbufsize == |text| && (if nattr == 0 then text == "" else attrnames != null ==> Holds(attrnames, text))
    requires attrnames != null ==> (if nattr == 0 then |name| else |text| + 1 + |name|) < attrnames.Length
    modifies attrnames
    ensures n == nattr + 1 && next == (if nattr == 0 then name else text + "," + name) && size == |next|
    ensures attrnames != null ==> Holds(attrnames, next)
  {
    n := nattr + 1;
    if attrnames != null {
      AddName(attrnames, name, n == 1, text);
    }
    next := if n == 1 then name else text + "," + name;
    size := strbufsize + (if n == 1 then |name| else |name| + 1);
  }

  /** EHattrcat over the names of the Vgroup's Vdatas, in their order. */
  method AttrCat(names: seq<string>, attrnames: array?<char>) returns (nattr: nat, strbufsize: nat)
    requires forall i | 0 <= i < |names| :: '\0' !in names[i]
    requires attrnames != null ==> |Join(Listed(names), ',')| < attrnames.Length
    modifies attrnames
    ensures nattr == |Listed(names)| && strbufsize == |Join(Listed(names), ',')|
    ensures attrnames != null && nattr > 0 ==> Holds(attrnames, Join(Listed(names), ','))
    ensures attrnames != null && nattr == 0 ==> attrnames[..] == old(attrnames[..])
  {
    strbufsize, nattr := 0, 0;
    var i := 0;
    ghost var text := "";
    while i < |names|
      invariant 0 <= i <= |names| && nattr == |Listed(names[..i])|
      invariant text == Join(Listed(names[..i]), ',') && strbufsize == |text|
      invariant attrnames != null && nattr > 0 ==> Holds(attrnames, text)
      invariant attrnames != null && nattr == 0 ==> attrnames[..] == old(attrnames[..])
    {
      var name := names[i];
      TextStep(names, i);
      if !("INDXMAP:" <= name) && !("_FV_" <= name) && !("_BLKSOM:" <= name) {
        nattr, strbufsize, text := CountName(attrnames, name, nattr, strbufsize, text);
      }
      i := i + 1;
    }
    assert names[..|names|] == names;
  }

  /** Parsing the list gives the listed names back, when each of the names is a
      proper list entry. */
  lemma NamesBack(names: seq<string>)
    requires forall n <- names :: !Reserved(n) ==> n != "" && ',' !in n
    ensures Split(Join(Listed(names), ','), ',') == Listed(names)
  {
    var ls := Listed(names);
    forall n | n in ls ensures n != "" && ',' !in n {
      ListedIff(names, n);
    }
    if ls != [] {
      assert ls[0] in ls;
      forall i | 0 < i < |ls| ensures ',' !in ls[i] {
        assert ls[i] in ls;
      }
      SplitJoin(ls, ',');
    }
  }
}
