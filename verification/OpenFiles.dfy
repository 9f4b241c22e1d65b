/** The table of open files as a value, its operations as steps, and what every
    run of them keeps. What the HDF library answers to a call is part of the
    operation. */
module OpenFiles {
  import opened CText

  const NEOSHDF: nat := 1000
  const EHIDOFFSET: nat := 524288

  /** One entry of the four parallel tables; kind and acs are 0 or 1. */
  datatype Slot = Slot(kind: int, acs: int, fid: int, sd: int)

  const FREE := Slot(0, 0, 0, 0)

  /** The table, and the file name behind each open HDF file id. */
  datatype State = State(slots: seq<Slot>, names: map<int, string>)

  datatype Access = Create | ReadWrite | Read | Other

  /** Answers of the library: limit is the status of the step that raises the
      number of files HDF may open, sd what SDstart returns, h what Hopen
      returns; status is what Hclose returns. */
  datatype Op =
    | Open(filename: string, access: Access, limit: int, sd: int, h: int)
    | Close(fid: int, status: int)

  function Active(slots: seq<Slot>): int {
    if slots == [] then 0 else Active(slots[..|slots| - 1]) + slots[|slots| - 1].kind
  }

  predicate WriterOf(slot: Slot, names: map<int, string>, filename: string) {
    slot.kind != 0 && slot.acs == 1 && slot.fid in names && names[slot.fid] == filename
  }

  predicate OpenForWrite(s: State, filename: string) { exists i :: 0 <= i < |s.slots| && WriterOf(s.slots[i], s.names, filename) }

  /** Whether the calls to the library are reached at all. */
  predicate Admitted(s: State, op: Op)
    requires op.Open?
  {
    Active(s.slots) < NEOSHDF && (op.access != Read ==> !OpenForWrite(s, op.filename)) && op.limit == 0
  }

  /** Whether Hopen is called; to create a file SDstart has to succeed first. */
  predicate CallsHopen(s: State, op: Op)
    requires op.Open?
  {
    Admitted(s, op) && match op.access case Create => op.sd != -1 case Other => false case _ => true
  }

  /** The entry a successful open stores. */
  function Opened(s: State, op: Op): Option<Slot>
    requires op.Open?
  {
    if !Admitted(s, op) then None
    else match op.access
      case Create => if op.sd != -1 then Some(Slot(1, 1, op.h, op.sd)) else None
      case ReadWrite => if op.h != -1 && op.sd != -1 then Some(Slot(1, 1, op.h, op.sd)) else None
      case Read => if op.h != -1 && op.sd != -1 then Some(Slot(1, 0, op.h, op.sd)) else None
      case Other => None
  }

  /** The lowest free entry, or the length of the table. */
  function FirstFree(slots: seq<Slot>): (i: nat)
    ensures i <= |slots| && (i < |slots| ==> slots[i].kind == 0) && forall j | 0 <= j < i :: slots[j].kind != 0
  {
    if slots == [] then 0
    else
      var i := FirstFree(slots[..|slots| - 1]);
      if i < |slots| - 1 || slots[|slots| - 1].kind == 0 then i else |slots|
  }

  function NamesAfter(s: State, op: Op): map<int, string> {
    match op
    case Open(filename, _, _, _, h) => if CallsHopen(s, op) && h != -1 then s.names[h := filename] else s.names
    case Close(fid, status) => if InRange(fid) && status == 0 then s.names - {EntryOf(s, fid).fid} else s.names
  }

  /** The range EHclose accepts. */
  predicate InRange(fid: int) { EHIDOFFSET <= fid < NEOSHDF + EHIDOFFSET }

  function EntryOf(s: State, fid: int): Slot
    requires InRange(fid)
  {
    if fid - EHIDOFFSET < |s.slots| then s.slots[fid - EHIDOFFSET] else FREE
  }

  function Put(slots: seq<Slot>, i: nat, slot: Slot): seq<Slot> { if i < |slots| then slots[i := slot] else slots }

  function Step(s: State, op: Op): State {
    match op
    case Open(_, _, _, _, _) =>
      var slots := match Opened(s, op) case None => s.slots case Some(slot) => Put(s.slots, FirstFree(s.slots), slot);
      State(slots, NamesAfter(s, op))
    case Close(fid, status) =>
      State(if InRange(fid) then Put(s.slots, fid - EHIDOFFSET, FREE) else s.slots, NamesAfter(s, op))
  }

  /** What the call returns: the new handle, or -1; the status of the close. */
  function Result(s: State, op: Op): int {
    match op
    case Open(_, _, _, _, _) =>
      if Opened(s, op).Some? && FirstFree(s.slots) < |s.slots| then FirstFree(s.slots) + EHIDOFFSET else -1
    case Close(fid, status) => if InRange(fid) then status else -1
  }

  /** What the library may answer: a new file id is none that is open; a file
      that SDstart created can be opened. */
  predicate Feasible(s: State, op: Op) {
    op.Open? ==> op.h != 0 && op.h !in s.names && (op.access == Create && op.sd != -1 ==> op.h != -1)
  }

  // ---------------------------------------------------------------- the invariant

  predicate SlotOk(slot: Slot, names: map<int, string>) {
    slot == FREE || (slot.kind == 1 && (slot.acs == 0 || slot.acs == 1) && slot.fid in names)
  }

  /** The two entries do not share a file id, nor write access to one file. */
  predicate Distinct(a: Slot, b: Slot, names: map<int, string>) {
    a.kind == 1 && b.kind == 1 ==>
      a.fid != b.fid && (a.acs == 1 && b.acs == 1 && a.fid in names && b.fid in names ==> names[a.fid] != names[b.fid])
  }

  predicate Inv(s: State) {
    && |s.slots| == NEOSHDF && 0 !in s.names && -1 !in s.names
    && (forall i | 0 <= i < |s.slots| :: SlotOk(s.slots[i], s.names))
    && forall i, j | 0 <= i < j < |s.slots| :: Distinct(s.slots[i], s.slots[j], s.names)
  }

  lemma {:induction false} ActiveCounts(slots: seq<Slot>)
    requires forall i | 0 <= i < |slots| :: slots[i].kind == 0 || slots[i].kind == 1
    ensures 0 <= Active(slots) <= |slots| && (Active(slots) < |slots| <==> FirstFree(slots) < |slots|)
  {
    if slots != [] {
      ActiveCounts(slots[..|slots| - 1]);
    }
  }

  /** An open succeeds exactly when fewer than NEOSHDF files are open, no writer
      has the file when write access is wanted, and the library's calls succeed;
      it then takes the lowest free entry and touches no other. */
  lemma OpenTakesLowest(s: State, op: Op)
    requires Inv(s) && op.Open? && Feasible(s, op)
    ensures Result(s, op) != -1 <==>
              Active(s.slots) < 1000 && op.limit == 0 && op.access != Other && op.sd != -1 && op.h != -1
              && (op.access == Read || !OpenForWrite(s, op.filename))
    ensures Result(s, op) == -1 ==> Step(s, op).slots == s.slots
    ensures Result(s, op) != -1 ==>
              var i := Result(s, op) - 524288;
              && 0 <= i < 1000 && s.slots[i] == FREE && (forall j | 0 <= j < i :: s.slots[j] != FREE)
              && Step(s, op).slots == s.slots[i := Slot(1, if op.access == Read then 0 else 1, op.h, op.sd)]
              && Step(s, op).names == s.names[op.h := op.filename]
  {
    assert forall i | 0 <= i < |s.slots| :: SlotOk(s.slots[i], s.names);
    ActiveCounts(s.slots);
  }

  /** An open that fails leaves the file with the HDF library exactly when Hopen
      succeeds and SDstart then fails: no handle will ever close it. */
  lemma FailedOpen(s: State, op: Op)
    requires Inv(s) && op.Open? && Feasible(s, op) && Result(s, op) == -1
    ensures Step(s, op).names
         == if Active(s.slots) < 1000 && op.limit == 0 && (op.access == Read || (op.access == ReadWrite && !OpenForWrite(s, op.filename)))
               && op.h != -1 && op.sd == -1
            then s.names[op.h := op.filename] else s.names
  {
    OpenTakesLowest(s, op);
  }

  lemma StoreKeeps(s: State, i: nat, slot: Slot, names: map<int, string>)
    requires Inv(s) && i < |s.slots| && s.slots[i] == FREE && names.Keys == s.names.Keys + {slot.fid}
    requires slot.kind == 1 && (slot.acs == 0 || slot.acs == 1) && slot.fid !in s.names && slot.fid != 0 && slot.fid != -1
    requires forall k | k in s.names :: names[k] == s.names[k]
    requires slot.acs == 1 ==> !OpenForWrite(s, names[slot.fid])
    ensures Inv(State(s.slots[i := slot], names))
  {
    var slots := s.slots[i := slot];
    forall k | 0 <= k < |slots| ensures SlotOk(slots[k], names) {
      assert SlotOk(s.slots[k], s.names);
    }
    forall k, l | 0 <= k < l < |slots| ensures Distinct(slots[k], slots[l], names) {
      assert SlotOk(s.slots[k], s.names) && SlotOk(s.slots[l], s.names) && Distinct(s.slots[k], s.slots[l], s.names);
      assert slot.acs == 1 ==> !WriterOf(s.slots[k], s.names, names[slot.fid]) && !WriterOf(s.slots[l], s.names, names[slot.fid]);
    }
  }

  lemma NamesGrow(s: State, names: map<int, string>, h: int, filename: string)
    requires Inv(s) && names == s.names[h := filename] && h !in s.names && h != 0 && h != -1
    ensures Inv(State(s.slots, names))
  {
    forall k | 0 <= k < |s.slots| ensures SlotOk(s.slots[k], names) {
      assert SlotOk(s.slots[k], s.names);
    }
    forall k, l | 0 <= k < l < |s.slots| ensures Distinct(s.slots[k], s.slots[l], names) {
      assert SlotOk(s.slots[k], s.names) && SlotOk(s.slots[l], s.names) && Distinct(s.slots[k], s.slots[l], s.names);
    }
  }

  lemma OpenKeeps(s: State, op: Op)
    requires Inv(s) && op.Open? && Feasible(s, op)
    ensures Inv(Step(s, op))
  {
    OpenTakesLowest(s, op);
    var names := NamesAfter(s, op);
    if Result(s, op) != -1 {
      StoreKeeps(s, Result(s, op) - EHIDOFFSET, Slot(1, if op.access == Read then 0 else 1, op.h, op.sd), names);
    } else if CallsHopen(s, op) && op.h != -1 {
      NamesGrow(s, names, op.h, op.filename);
    }
  }

  lemma CloseKeeps(s: State, op: Op)
    requires Inv(s) && op.Close?
    ensures Inv(Step(s, op))
  {
    if InRange(op.fid) {
      var i, t := op.fid - EHIDOFFSET, Step(s, op);
      forall k | 0 <= k < |t.slots| ensures SlotOk(t.slots[k], t.names) {
        assert SlotOk(s.slots[k], s.names);
        if k < i {
          assert Distinct(s.slots[k], s.slots[i], s.names);
        } else if i < k {
          assert Distinct(s.slots[i], s.slots[k], s.names);
        }
      }
      forall k, l | 0 <= k < l < |t.slots| ensures Distinct(t.slots[k], t.slots[l], t.names) {
        assert Distinct(s.slots[k], s.slots[l], s.names);
      }
    }
  }

  // -------------------------------------------------------------------- the close

  predicate Used(s: State, i: nat) { i < |s.slots| && s.slots[i] != FREE }

  lemma {:induction false} ActiveWithout(slots: seq<Slot>, i: nat)
    requires i < |slots|
    ensures Active(slots[i := FREE]) == Active(slots) - slots[i].kind
  {
    var n, freed := |slots| - 1, slots[i := FREE];
    if i == n {
      assert freed[..n] == slots[..n];
    } else {
      assert freed[..n] == slots[..n][i := FREE];
      ActiveWithout(slots[..n], i);
    }
  }

  /** A close of an id in range empties its entry, whatever the library answers, and
      leaves every other entry as it is; one entry less is active if it was in use. The
      file id leaves the library's memory if and only if Hclose succeeds, and no other
      does. Of another id, nothing changes. */
  lemma CloseFrees(s: State, fid: int, status: int)
    requires Inv(s)
    ensures var t := Step(s, Close(fid, status));
            && Inv(t) && |t.slots| == |s.slots| == 1000
            && Result(s, Close(fid, status)) == (if 524288 <= fid < 525288 then status else -1)
            && if 524288 <= fid < 525288
               then var i := fid - 524288;
                    && t.slots[i] == Slot(0, 0, 0, 0) && (forall k | 0 <= k < 1000 && k != i :: t.slots[k] == s.slots[k])
                    && Active(t.slots) == Active(s.slots) - (if Used(s, i) then 1 else 0)
                    && (forall h :: h in t.names <==> h in s.names && !(status == 0 && Used(s, i) && h == s.slots[i].fid))
                    && (forall h :: h in t.names ==> t.names[h] == s.names[h])
               else t == s
  {
    CloseKeeps(s, Close(fid, status));
    if InRange(fid) {
      assert SlotOk(s.slots[fid - EHIDOFFSET], s.names);
      ActiveWithout(s.slots, fid - EHIDOFFSET);
    }
  }

  /** The writer of a file is the only one, so after its close there is none. */
  lemma WriterGone(s: State, fid: int, status: int, filename: string)
    requires Inv(s) && 524288 <= fid < 525288 && WriterOf(s.slots[fid - 524288], s.names, filename)
    ensures OpenForWrite(s, filename) && !OpenForWrite(Step(s, Close(fid, status)), filename)
  {
    var i, t := fid - EHIDOFFSET, Step(s, Close(fid, status));
    CloseFrees(s, fid, status);
    forall k | 0 <= k < |t.slots| ensures !WriterOf(t.slots[k], t.names, filename) {
      assert SlotOk(s.slots[k], s.names) && SlotOk(s.slots[i], s.names);
      if k < i {
        assert Distinct(s.slots[k], s.slots[i], s.names);
      } else if i < k {
        assert Distinct(s.slots[i], s.slots[k], s.names);
      }
    }
  }

  // ------------------------------------------------------------------------ runs

  function Run(s: State, ops: seq<Op>): State
    decreases |ops|
  {
    if ops == [] then s else Run(Step(s, ops[0]), ops[1..])
  }

  predicate FeasibleRun(s: State, ops: seq<Op>)
    decreases |ops|
  {
    ops == [] || (Feasible(s, ops[0]) && FeasibleRun(Step(s, ops[0]), ops[1..]))
  }

  function Initial(): State { State(seq(NEOSHDF, _ => FREE), map[]) }

  lemma InitialOk()
    ensures Inv(Initial())
  {
  }

  lemma StepKeeps(s: State, op: Op)
    requires Inv(s) && Feasible(s, op)
    ensures Inv(Step(s, op))
  {
    if op.Open? {
      OpenKeeps(s, op);
    } else {
      CloseKeeps(s, op);
    }
  }

  lemma {:induction false} RunKeeps(s: State, ops: seq<Op>)
    requires Inv(s) && FeasibleRun(s, ops)
    ensures Inv(Run(s, ops))
    decreases |ops|
  {
    if ops != [] {
      StepKeeps(s, ops[0]);
      RunKeeps(Step(s, ops[0]), ops[1..]);
    }
  }

  /** After every run of opens and closes: unused entries are all zero, no two
      open files share an id, and no file is open for writing twice. */
  lemma EveryRun(ops: seq<Op>, i: nat, j: nat)
    requires FeasibleRun(Initial(), ops) && i < j < 1000
    ensures var s := Run(Initial(), ops);
            && |s.slots| == 1000 && (s.slots[i].kind == 0 ==> s.slots[i] == FREE)
            && (s.slots[i].kind != 0 && s.slots[j].kind != 0 ==> s.slots[i].fid != s.slots[j].fid)
            && forall name :: !(WriterOf(s.slots[i], s.names, name) && WriterOf(s.slots[j], s.names, name))
  {
    InitialOk();
    RunKeeps(Initial(), ops);
    var s := Run(Initial(), ops);
    assert SlotOk(s.slots[i], s.names) && SlotOk(s.slots[j], s.names) && Distinct(s.slots[i], s.slots[j], s.names);
  }

  // ----------------------------------------------------------------- the handles

  /** What EHchkfid finds; the test admits one id more than the table has
      entries. */
  datatype Check = BadRange | Inactive | Live(fid: int, sd: int, acs: int) | BeyondTable

  function CheckFid(s: State, fid: int): Check {
    if fid < EHIDOFFSET || fid > NEOSHDF + EHIDOFFSET then BadRange
    else if fid == NEOSHDF + EHIDOFFSET then BeyondTable
    else if EntryOf(s, fid).kind == 0 then Inactive
    else Live(EntryOf(s, fid).fid, EntryOf(s, fid).sd, EntryOf(s, fid).acs)
  }

  /** EHchkfid finds nothing for a handle in range exactly when its entry is free, and
      else what the entry holds. */
  lemma CheckIs(s: State, fid: int)
    requires Inv(s)
    ensures fid < 524288 || fid > 525288 ==> CheckFid(s, fid) == BadRange
    ensures fid == 525288 ==> CheckFid(s, fid) == BeyondTable
    ensures 524288 <= fid < 525288 ==>
              var slot := s.slots[fid - 524288];
              && (CheckFid(s, fid) == Inactive <==> slot == Slot(0, 0, 0, 0))
              && (slot != Slot(0, 0, 0, 0) ==> CheckFid(s, fid) == Live(slot.fid, slot.sd, slot.acs))
  {
    if InRange(fid) {
      assert SlotOk(s.slots[fid - EHIDOFFSET], s.names);
    }
  }

  /** EHchkfid rejects by range what EHclose rejects, except for one id, for which
      it reads behind the tables. */
  lemma RangesAgree(s: State, fid: int)
    ensures (CheckFid(s, fid) == BadRange <==> !InRange(fid)) <==> fid != NEOSHDF + EHIDOFFSET
  {
  }

  predicate Untouched(fid: int, ops: seq<Op>) { forall k | 0 <= k < |ops| :: ops[k].Close? ==> ops[k].fid != fid }

  lemma StepLeaves(s: State, op: Op, fid: int)
    requires Inv(s) && Feasible(s, op) && InRange(fid) && EntryOf(s, fid).kind != 0 && (op.Close? ==> op.fid != fid)
    ensures EntryOf(Step(s, op), fid) == EntryOf(s, fid)
  {
    if op.Open? {
      OpenTakesLowest(s, op);
    }
  }

  lemma {:induction false} RunLeaves(s: State, ops: seq<Op>, fid: int)
    requires Inv(s) && FeasibleRun(s, ops) && InRange(fid) && EntryOf(s, fid).kind != 0 && Untouched(fid, ops)
    ensures EntryOf(Run(s, ops), fid) == EntryOf(s, fid)
    decreases |ops|
  {
    if ops != [] {
      assert ops[0].Close? ==> ops[0].fid != fid;
      StepLeaves(s, ops[0], fid);
      StepKeeps(s, ops[0]);
      assert Untouched(fid, ops[1..]);
      RunLeaves(Step(s, ops[0]), ops[1..], fid);
    }
  }

  /** From a successful open until its handle is closed, whatever else is opened
      and closed, EHchkfid returns exactly what that open stored, and no other
      open returns the same handle. */
  lemma HandleLives(s: State, op: Op, ops: seq<Op>, last: Op)
    requires Inv(s) && op.Open? && Feasible(s, op) && Result(s, op) != -1
    requires FeasibleRun(Step(s, op), ops) && Untouched(Result(s, op), ops)
    requires last.Open? && Feasible(Run(Step(s, op), ops), last)
    ensures var fid, t := Result(s, op), Run(Step(s, op), ops);
            CheckFid(t, fid) == Live(op.h, op.sd, if op.access == Read then 0 else 1) && Result(t, last) != fid
  {
    var fid, u := Result(s, op), Step(s, op);
    OpenTakesLowest(s, op);
    StepKeeps(s, op);
    RunLeaves(u, ops, fid);
    RunKeeps(u, ops);
    OpenTakesLowest(Run(u, ops), last);
  }

  /** No open of the run returns the handle. */
  predicate NotGiven(s: State, ops: seq<Op>, fid: int)
    decreases |ops|
  {
    ops == [] || ((ops[0].Open? ==> Result(s, ops[0]) != fid) && NotGiven(Step(s, ops[0]), ops[1..], fid))
  }

  lemma StepLeavesFree(s: State, op: Op, fid: int)
    requires Inv(s) && Feasible(s, op) && InRange(fid) && EntryOf(s, fid) == FREE && (op.Open? ==> Result(s, op) != fid)
    ensures EntryOf(Step(s, op), fid) == FREE
  {
    if op.Open? {
      OpenTakesLowest(s, op);
    } else {
      CloseFrees(s, op.fid, op.status);
    }
  }

  lemma {:induction false} RunLeavesFree(s: State, ops: seq<Op>, fid: int)
    requires Inv(s) && FeasibleRun(s, ops) && InRange(fid) && EntryOf(s, fid) == FREE && NotGiven(s, ops, fid)
    ensures EntryOf(Run(s, ops), fid) == FREE
    decreases |ops|
  {
    if ops != [] {
      StepLeavesFree(s, ops[0], fid);
      StepKeeps(s, ops[0]);
      RunLeavesFree(Step(s, ops[0]), ops[1..], fid);
    }
  }

  /** From the close of a handle until an open returns it again, whatever else is opened
      and closed, EHchkfid finds nothing for it. */
  lemma HandleDies(s: State, fid: int, status: int, ops: seq<Op>)
    requires Inv(s) && 524288 <= fid < 525288
    requires var u := Step(s, Close(fid, status)); FeasibleRun(u, ops) && NotGiven(u, ops, fid)
    ensures CheckFid(Run(Step(s, Close(fid, status)), ops), fid) == Inactive
  {
    var u := Step(s, Close(fid, status));
    CloseFrees(s, fid, status);
    RunLeavesFree(u, ops, fid);
    RunKeeps(u, ops);
    CheckIs(Run(u, ops), fid);
  }

  /** No open of the run asks for the file for writing. */
  predicate NotWritten(ops: seq<Op>, filename: string) {
    forall k | 0 <= k < |ops| :: ops[k].Open? && ops[k].access != Read ==> ops[k].filename != filename
  }

  lemma StepUnwritten(s: State, op: Op, filename: string)
    requires Inv(s) && Feasible(s, op) && !OpenForWrite(s, filename)
    requires op.Open? && op.access != Read ==> op.filename != filename
    ensures !OpenForWrite(Step(s, op), filename)
  {
    var t := Step(s, op);
    if op.Open? {
      OpenTakesLowest(s, op);
    } else {
      CloseFrees(s, op.fid, op.status);
    }
    forall k | 0 <= k < |t.slots| ensures !WriterOf(t.slots[k], t.names, filename) {
      assert SlotOk(s.slots[k], s.names) && !WriterOf(s.slots[k], s.names, filename);
    }
  }

  lemma {:induction false} RunUnwritten(s: State, ops: seq<Op>, filename: string)
    requires Inv(s) && FeasibleRun(s, ops) && !OpenForWrite(s, filename) && NotWritten(ops, filename)
    ensures !OpenForWrite(Run(s, ops), filename)
    decreases |ops|
  {
    if ops != [] {
      StepUnwritten(s, ops[0], filename);
      StepKeeps(s, ops[0]);
      assert NotWritten(ops[1..], filename);
      RunUnwritten(Step(s, ops[0]), ops[1..], filename);
    }
  }

  /** Once its writer is closed, and until it is opened for writing again, a file can be
      opened for writing whenever fewer than 1000 files are open and the library's calls
      succeed. */
  lemma WritableAgain(s: State, fid: int, status: int, filename: string, ops: seq<Op>, last: Op)
    requires Inv(s) && 524288 <= fid < 525288 && WriterOf(s.slots[fid - 524288], s.names, filename)
    requires FeasibleRun(Step(s, Close(fid, status)), ops) && NotWritten(ops, filename)
    requires last.Open? && last.filename == filename && last.access != Other
    requires Feasible(Run(Step(s, Close(fid, status)), ops), last)
    ensures var t := Run(Step(s, Close(fid, status)), ops);
            Result(t, last) != -1 <==> Active(t.slots) < 1000 && last.limit == 0 && last.sd != -1 && last.h != -1
  {
    var u := Step(s, Close(fid, status));
    WriterGone(s, fid, status, filename);
    CloseKeeps(s, Close(fid, status));
    RunUnwritten(u, ops, filename);
    RunKeeps(u, ops);
    OpenTakesLowest(Run(u, ops), last);
  }
}
