/** What an interface is asked for, carried out on the stored metadata: the swath,
    grid and point interfaces build the strings in their buffers and call EHinsertmeta. */
module MetaApi {
  import opened CText
  import opened MetaTree
  import opened MetaEdit
  import opened MetaRequest
  import opened MetaCallers
  import opened MetaTheorem
  import opened MetaCString
  import opened MetaStore

  /** The request has its place in the tree and fits a utility string. */
  predicate Feasible(f: MetaFile, r: Request) {
    && FileOk(f) && WellShaped(f) && RequestOk(r) && Apply(f, r).Some? && WellShaped(Apply(f, r).value)
    && |Print(Apply(f, r).value)| < |Print(f)| + UTLSTRSIZE
  }

  function Next(f: MetaFile, r: Request): MetaFile
    requires Feasible(f, r)
  {
    Apply(f, r).value
  }

  /** The interface can be asked for it, no buffer of its own is overrun, and
      EHinsertmeta has a defined result on the text. */
  predicate Callable(t: string, a: Ask) { AskOk(a) && Arrives(a).Some? && InsertAsk(t, a).Some? }

  /** One call on the stored text. When the text is the print of a tree in which the
      request has its place, it is afterwards the print of the tree with what the
      caller's buffers leave of the request, unless that is a new grid that is cut. */
  method Carry(store: SdFile, a: Ask, ghost f: MetaFile) returns (status: int)
    requires store.Valid() && Callable(store.text, a)
    modifies store
    ensures store.Valid() && status == 0 && InsertAsk(old(store.text), a) == Some(store.text)
    ensures Feasible(f, Received(a)) && old(store.text) == Print(f) ==>
              var f' := Next(f, Received(a)); FileOk(f') && WellShaped(f') && (store.text == Print(f') <==> CreatesWhole(a))
    ensures old(store.nsec) <= store.nsec <= old(store.nsec) + 1
    ensures old(Fewest(store.nsec, store.text)) ==> Fewest(store.nsec, store.text)
  {
    ArrivesString(a);
    if Feasible(f, Received(a)) && store.text == Print(f) {
      AskRefines(f, a);
    }
    status := store.InsertMeta(Arrives(a).value);
  }

  /** The run starts from the print of the tree, every request has its place and fits,
      and no new grid is cut. */
  predicate FeasibleRun(t: string, f: MetaFile, asks: seq<Ask>) {
    FileOk(f) && WellShaped(f) && t == Print(f) && AsksOk(asks) && AllWhole(asks) && ApplyAll(f, ReceivedAll(asks)).Some?
  }

  /** Such a run ends in the print of the tree it makes. */
  lemma RunPrints(t: string, f: MetaFile, asks: seq<Ask>)
    requires FeasibleRun(t, f, asks)
    ensures var f' := ApplyAll(f, ReceivedAll(asks)).value; FileOk(f') && WellShaped(f') && InsertAsks(t, asks) == Some(Print(f'))
  {
    AsksRefine(f, asks);
    PrintsEnd(t, f, asks);
  }

  /** Over every run of calls the store holds what the calls make of the text, and grows
      by at most one section a call; a feasible run leaves the print of its tree. */
  method CarryAll(store: SdFile, asks: seq<Ask>, ghost f: MetaFile) returns (status: int)
    requires store.Valid() && AsksOk(asks) && InsertAsks(store.text, asks).Some?
    modifies store
    ensures store.Valid() && status == 0 && InsertAsks(old(store.text), asks) == Some(store.text)
    ensures FeasibleRun(old(store.text), f, asks) ==>
              var f' := ApplyAll(f, ReceivedAll(asks)).value; FileOk(f') && WellShaped(f') && store.text == Print(f')
    ensures old(store.nsec) <= store.nsec <= old(store.nsec) + |asks|
    ensures old(Fewest(store.nsec, store.text)) ==> Fewest(store.nsec, store.text)
  {
    if FeasibleRun(store.text, f, asks) {
      RunPrints(store.text, f, asks);
    }
    status := Run(store, asks);
  }

  method Run(store: SdFile, asks: seq<Ask>) returns (status: int)
    requires store.Valid() && AsksOk(asks) && InsertAsks(store.text, asks).Some?
    modifies store
    ensures store.Valid() && status == 0 && InsertAsks(old(store.text), asks) == Some(store.text)
    ensures old(store.nsec) <= store.nsec <= old(store.nsec) + |asks|
    ensures old(Fewest(store.nsec, store.text)) ==> Fewest(store.nsec, store.text)
    decreases |asks|
  {
    status := 0;
    if asks != [] {
      assert asks[0] in asks;
      status := Carry(store, asks[0], EMPTY_FILE);
      status := Run(store, asks[1..]);
    }
  }

  /** From a new file on: after every run the store has the fewest sections that hold its
      text. */
  method NewFile(asks: seq<Ask>) returns (store: SdFile, status: int)
    requires AsksOk(asks) && InsertAsks(INITIAL_TEXT, asks).Some?
    ensures fresh(store) && store.Valid() && status == 0 && store.nsec == |store.text| / 32000 + 1 <= |asks| + 1
    ensures InsertAsks(INITIAL_TEXT, asks) == Some(store.text)
    ensures FeasibleRun(INITIAL_TEXT, EMPTY_FILE, asks) ==>
              var f := ApplyAll(EMPTY_FILE, ReceivedAll(asks)).value; FileOk(f) && WellShaped(f) && store.text == Print(f)
  {
    store := new SdFile();
    status := CarryAll(store, asks, EMPTY_FILE);
  }
}
