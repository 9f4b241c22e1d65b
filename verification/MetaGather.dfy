/** The fields SWdefinefield and GDdeffield gather for a merge, and the merged field
    SWdetach and GDdetach ask for. */
module MetaGather {
  import opened CText
  import opened ListText
  import opened MetaTree
  import opened MetaEdit
  import opened MetaRequest
  import opened MetaCalls
  import opened MetaLocate
  import opened MetaTheorem

  const NAMBUFSIZE: nat := 32000
  const DIMBUFSIZE: nat := 64000
  const COMB_FIELDS: nat := 512

  /** The names with their commas, the dimension lists with their semicolons, and how
      many entries of the combination array are in use. */
  datatype Gathered = Gathered(names: string, dims: string, count: nat)

  const NOTHING := Gathered("", "", 0)

  /** One more field; None where a buffer or the array is too small for it. */
  function Gather(g: Gathered, name: string, dims: seq<string>): Option<Gathered> {
    var one := if |dims| == 2 then "ONE," else "";
    if g.count >= COMB_FIELDS || |g.names| + |name| + 2 >= NAMBUFSIZE || (|dims| == 2 && |g.dims| + 5 >= DIMBUFSIZE)
       || |g.dims + one| + |Join(dims, ',')| + 2 >= DIMBUFSIZE then None
    else Some(Gathered(g.names + name + ",", g.dims + one + Join(dims, ',') + ";", g.count + 1))
  }

  /** Fields with their dimensions, one after the other. */
  function GatherAll(g: Gathered, fields: seq<(string, seq<string>)>): Option<Gathered>
    decreases |fields|
  {
    if fields == [] then Some(g)
    else match Gather(g, fields[0].0, fields[0].1) case None => None case Some(h) => GatherAll(h, fields[1..])
  }

  function NamesOf(fields: seq<(string, seq<string>)>): seq<string> { seq(|fields|, i requires 0 <= i < |fields| => fields[i].0) }

  /** What the dimension list of one field takes. */
  function ListSize(dims: seq<string>): nat { (if |dims| == 2 then 4 else 0) + |Join(dims, ',')| + 1 }

  function ListSizes(fields: seq<(string, seq<string>)>): nat {
    if fields == [] then 0 else ListSize(fields[0].1) + ListSizes(fields[1..])
  }

  lemma {:induction false} GatherFrom(g: Gathered, fields: seq<(string, seq<string>)>, names: seq<string>)
    requires fields != [] && names == NamesOf(fields)
    ensures GatherAll(g, fields).Some?
            <==> && g.count + |fields| <= COMB_FIELDS && |g.names| + |Join(names, ',')| + 2 < NAMBUFSIZE
                 && |g.dims| + ListSizes(fields) + 1 < DIMBUFSIZE
    ensures GatherAll(g, fields).Some? ==> GatherAll(g, fields).value.names == g.names + Join(names, ',') + ","
    decreases |fields|
  {
    var n := |fields|;
    assert names[0] == fields[0].0 && names[1..] == NamesOf(fields[1..]);
    if n > 1 {
      assert ListSizes(fields[1..]) >= 1;
      match Gather(g, fields[0].0, fields[0].1)
      case None =>
      case Some(h) =>
        GatherFrom(h, fields[1..], names[1..]);
        assert g.names + names[0] + "," + Join(names[1..], ',') == g.names + Join(names, ',');
    }
  }

  /** The dimension lists as they are gathered: with "ONE," in front of two dimensions. */
  predicate ListsOf(lists: seq<string>, fields: seq<(string, seq<string>)>) {
    |lists| == |fields|
    && forall i | 0 <= i < |fields| ::
         lists[i] == if |fields[i].1| == 2 then "ONE," + Join(fields[i].1, ',') else Join(fields[i].1, ',')
  }

  lemma {:induction false} GatheredDims(g: Gathered, fields: seq<(string, seq<string>)>, lists: seq<string>)
    requires fields != [] && ListsOf(lists, fields) && GatherAll(g, fields).Some?
    ensures GatherAll(g, fields).value.dims == g.dims + Join(lists, ';') + ";" && GatherAll(g, fields).value.count == g.count + |fields|
    decreases |fields|
  {
    var h := Gather(g, fields[0].0, fields[0].1).value;
    OneGathered(g, fields[0].0, fields[0].1, lists[0]);
    if |fields| > 1 {
      GatheredDims(h, fields[1..], lists[1..]);
      DimsChain(g.dims, lists[0], Join(lists[1..], ';'));
    }
  }

  lemma OneGathered(g: Gathered, name: string, dims: seq<string>, list: string)
    requires Gather(g, name, dims).Some? && list == if |dims| == 2 then "ONE," + Join(dims, ',') else Join(dims, ',')
    ensures Gather(g, name, dims).value.dims == g.dims + list + ";" && Gather(g, name, dims).value.count == g.count + 1
  {
    assert g.dims + "" == g.dims && g.dims + "ONE," + Join(dims, ',') == g.dims + ("ONE," + Join(dims, ','));
  }

  lemma DimsChain(g: string, a: string, b: string)
    ensures g + a + ";" + b + ";" == g + (a + [';'] + b) + ";"
  {
  }

  lemma {:induction false} SizesOf(fields: seq<(string, seq<string>)>, lists: seq<string>)
    requires fields != [] && ListsOf(lists, fields)
    ensures ListSizes(fields) == |Join(lists, ';')| + 1
  {
    assert |lists[0]| + 1 == ListSize(fields[0].1);
    if |fields| > 1 {
      SizesOf(fields[1..], lists[1..]);
    }
  }

  /** Fields are all taken if and only if the array has room for them and the two
      strings stay shorter than their buffers. They are then the names joined with commas
      and the dimension lists joined with semicolons, each with its delimiter behind. */
  lemma GatheredIff(fields: seq<(string, seq<string>)>, names: seq<string>, lists: seq<string>)
    requires fields != [] && names == NamesOf(fields) && ListsOf(lists, fields)
    ensures GatherAll(NOTHING, fields).Some?
            <==> |fields| <= 512 && |Join(names, ',')| + 2 < 32000 && |Join(lists, ';')| + 2 < 64000
    ensures GatherAll(NOTHING, fields).Some? ==>
              GatherAll(NOTHING, fields).value == Gathered(Join(names, ',') + ",", Join(lists, ';') + ";", |fields|)
  {
    GatherFrom(NOTHING, fields, names);
    SizesOf(fields, lists);
    if GatherAll(NOTHING, fields).Some? {
      GatheredDims(NOTHING, fields, lists);
      FromNothing(GatherAll(NOTHING, fields).value, Join(names, ','), Join(lists, ';'), |fields|);
    }
  }

  lemma FromNothing(g: Gathered, names: string, dims: string, n: nat)
    requires g.names == NOTHING.names + names + "," && g.dims == NOTHING.dims + dims + ";" && g.count == NOTHING.count + n
    ensures g == Gathered(names + ",", dims + ";", n)
  {
    assert NOTHING.names + names == names && NOTHING.dims + dims == dims;
  }

  /** The merged field of the gathered names, named after the first. */
  function MergedField(names: seq<string>): Entry
    requires names != []
  {
    Merged("MRGFLD_" + names[0], names)
  }

  /** Gathered fields whose names with their quotes and commas fill a utility string
      cannot be inserted as a merged field. */
  lemma MergeTooLong(f: MetaFile, k: Kind, name: string, names: seq<string>)
    requires FileOk(f) && WellShaped(f) && k != Point && SearchName(name) && FirstStruct(f.Of(k), name).At?
    requires NamesOk(names) && NameOk(MergedField(names).name) && |Join(names, ',')| + 2 * |names| >= UTLSTRSIZE
    ensures var r := AddEntry(k, name, MergedField(names));
            RequestOk(r) && Apply(f, r).Some? && WellShaped(Apply(f, r).value)
            && InsertText(Print(f), CallOf(r)) != Some(Print(Apply(f, r).value))
  {
    var r := AddEntry(k, name, MergedField(names));
    MergePlaced(f, r);
    QuotedItemsLength(names);
    MergedTooLong(f, r);
  }

  /** A swath or grid that is there has a place for a merged field. */
  lemma MergePlaced(f: MetaFile, r: Request)
    requires FileOk(f) && WellShaped(f) && r.AddEntry? && r.entry.Merged? && r.kind != Point && FirstStruct(f.Of(r.kind), r.name).At?
    requires SearchName(r.name) && EntryOk(r.entry)
    ensures RequestOk(r) && Apply(f, r).Some?
  {
    MergedIn(r.kind);
    SiteOk(f, r.kind, FirstStruct(f.Of(r.kind), r.name).pos);
    assert GroupOf(r.entry) == "MergedFields";
  }

  lemma MergedIn(k: Kind)
    requires k != Point
    ensures "MergedFields" in Schema(k)
  {
    if k == Swath {
      assert Schema(k)[5] == "MergedFields";
    } else {
      assert Schema(k)[2] == "MergedFields";
    }
  }

  // ------------------------------------------------------------------ such a merge

  /** Name number i of the longest documented length. */
  function LongName(i: nat): (n: string)
    requires i < 1000
    ensures |n| == MAX_NAME
  {
    seq(61, _ => 'a') + [Digit(i / 100), Digit(i / 10 % 10), Digit(i % 10)]
  }

  function LongNames(n: nat): seq<string>
    requires n <= 1000
  {
    seq(n, i requires 0 <= i < n => LongName(i))
  }

  predicate Distinct(ss: seq<string>) { forall i, j | 0 <= i < j < |ss| :: ss[i] != ss[j] }

  lemma LongNameOk(i: nat)
    requires i < 1000
    ensures NameOk(LongName(i)) && NameOk("MRGFLD_" + LongName(i))
  {
    NoWords(LongName(i));
    NoWords("MRGFLD_" + LongName(i));
  }

  lemma LongNamesApart(n: nat)
    requires n <= 1000
    ensures Distinct(LongNames(n))
  {
    forall i, j | 0 <= i < j < n ensures LongNames(n)[i] != LongNames(n)[j] {
      assert LongName(i)[61..] == [Digit(i / 100), Digit(i / 10 % 10), Digit(i % 10)];
      assert LongName(j)[61..] == [Digit(j / 100), Digit(j / 10 % 10), Digit(j % 10)];
      DigitsApart(i, j);
    }
  }

  lemma DigitsApart(i: nat, j: nat)
    requires i < j < 1000
    ensures [Digit(i / 100), Digit(i / 10 % 10), Digit(i % 10)] != [Digit(j / 100), Digit(j / 10 % 10), Digit(j % 10)]
  {
    if Digit(i / 100) == Digit(j / 100) && Digit(i / 10 % 10) == Digit(j / 10 % 10) {
      assert i / 10 == 10 * (i / 100) + i / 10 % 10 && j / 10 == 10 * (j / 100) + j / 10 % 10;
      assert i == 10 * (i / 10) + i % 10 && j == 10 * (j / 10) + j % 10;
      assert Digit(i % 10) != Digit(j % 10);
    }
  }

  const THREE_DIMS: seq<string> := ["Z", "Y", "X"]

  /** Fields of three dimensions with these names. */
  function LongFields(n: nat): seq<(string, seq<string>)>
    requires n <= 1000
  {
    seq(n, i requires 0 <= i < n => (LongName(i), THREE_DIMS))
  }

  /** Every swath and grid can be asked for such a merge: 490 different names of 64
      characters pass every test when the fields are defined. */
  lemma LongMergeAsked(f: MetaFile, k: Kind, name: string)
    requires FileOk(f) && WellShaped(f) && k != Point && SearchName(name) && FirstStruct(f.Of(k), name).At?
    ensures var names, fields := LongNames(490), LongFields(490);
            && NamesOk(names) && (forall m <- names :: |m| == MAX_NAME) && Distinct(names) && NamesOf(fields) == names
            && GatherAll(NOTHING, fields).Some? && GatherAll(NOTHING, fields).value.names == Join(names, ',') + ","
    ensures var r := AddEntry(k, name, Merged("MRGFLD_" + LongNames(490)[0], LongNames(490)));
            RequestOk(r) && Apply(f, r).Some? && WellShaped(Apply(f, r).value)
            && InsertText(Print(f), CallOf(r)) != Some(Print(Apply(f, r).value))
  {
    LongGathered();
    MergeTooLong(f, k, name, LongNames(490));
  }

  lemma LongGathered()
    ensures var names, fields := LongNames(490), LongFields(490);
            && NamesOk(names) && (forall m <- names :: |m| == MAX_NAME) && Distinct(names) && NamesOf(fields) == names
            && GatherAll(NOTHING, fields).Some? && GatherAll(NOTHING, fields).value.names == Join(names, ',') + ","
            && NameOk(MergedField(names).name) && |Join(names, ',')| + 2 * |names| >= UTLSTRSIZE
  {
    LongNamesOk(490);
    LongNamesApart(490);
    LongFirst(490);
    LongSizes(490);
    AllTaken(LongFields(490), LongNames(490));
  }

  /** Each list of the three dimensions takes six characters. */
  lemma LongSizes(n: nat)
    requires n <= 1000
    ensures NamesOf(LongFields(n)) == LongNames(n) && ListSizes(LongFields(n)) == 6 * n
  {
    ThreeDimsSize();
    forall p | p in LongFields(n) ensures ListSize(p.1) == 6 {
    }
    SizesAre(LongFields(n), 6);
  }

  lemma {:induction false} SizesAre(fields: seq<(string, seq<string>)>, size: nat)
    requires forall p <- fields :: ListSize(p.1) == size
    ensures ListSizes(fields) == size * |fields|
  {
    if fields != [] {
      assert fields[0] in fields;
      SizesAre(fields[1..], size);
      OneMoreTimes(size, |fields|);
    }
  }

  lemma OneMoreTimes(size: nat, n: nat)
    requires n > 0
    ensures size + size * (n - 1) == size * n
  {
  }

  lemma LongFirst(n: nat)
    requires 0 < n <= 1000
    ensures LongNames(n) != [] && NameOk(MergedField(LongNames(n)).name)
  {
    LongNameOk(0);
    assert LongNames(n)[0] == LongName(0);
  }

  lemma ThreeDimsSize()
    ensures ListSize(THREE_DIMS) == 6
  {
    assert THREE_DIMS[1..] == ["Y", "X"] && ["Y", "X"][1..] == ["X"];
  }

  lemma AllTaken(fields: seq<(string, seq<string>)>, names: seq<string>)
    requires |fields| == 490 && names == NamesOf(fields) && (forall m <- names :: |m| == MAX_NAME) && ListSizes(fields) == 6 * 490
    ensures GatherAll(NOTHING, fields).Some? && GatherAll(NOTHING, fields).value.names == Join(names, ',') + ","
    ensures |Join(names, ',')| == 31849 && |Join(names, ',')| + 2 * |names| >= UTLSTRSIZE
  {
    JoinLength(names, MAX_NAME);
    GatherFrom(NOTHING, fields, names);
  }

  lemma LongNamesOk(n: nat)
    requires 0 < n <= 1000
    ensures NamesOk(LongNames(n)) && forall m <- LongNames(n) :: |m| == MAX_NAME
  {
    forall m | m in LongNames(n) ensures NameOk(m) && |m| == MAX_NAME {
      var i :| 0 <= i < n && m == LongName(i);
      LongNameOk(i);
    }
  }
}
