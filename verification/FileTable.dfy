/** EHopen, EHclose and EHchkfid on the four global tables. */
module FileTable {
  import opened OpenFiles

  class Tables {
    const typeTable: array<int>
    const acsTable: array<int>
    const fidTable: array<int>
    const sdTable: array<int>

    /** The HDF library's own memory: the name each file id was opened with. */
    var names: map<int, string>

    ghost predicate Valid() {
      && typeTable.Length == acsTable.Length == fidTable.Length == sdTable.Length == NEOSHDF
      && typeTable != acsTable && typeTable != fidTable && typeTable != sdTable
      && acsTable != fidTable && acsTable != sdTable && fidTable != sdTable
    }

    ghost function SlotAt(i: nat): Slot
      requires Valid() && i < NEOSHDF
      reads typeTable, acsTable, fidTable, sdTable
    {
      Slot(typeTable[i], acsTable[i], fidTable[i], sdTable[i])
    }

    ghost function Slots(): (s: seq<Slot>)
      requires Valid()
      reads typeTable, acsTable, fidTable, sdTable
      ensures |s| == NEOSHDF && forall i | 0 <= i < NEOSHDF :: s[i] == SlotAt(i)
    {
      seq(NEOSHDF, i requires 0 <= i < NEOSHDF && Valid() reads typeTable, acsTable, fidTable, sdTable => SlotAt(i))
    }

    ghost function Value(): State
      requires Valid()
      reads this, typeTable, acsTable, fidTable, sdTable
    {
      State(Slots(), names)
    }

    constructor ()
      ensures Valid() && fresh(typeTable) && fresh(acsTable) && fresh(fidTable) && fresh(sdTable)
      ensures Value() == Initial()
    {
      typeTable := new int[NEOSHDF](_ => 0);
      acsTable := new int[NEOSHDF](_ => 0);
      fidTable := new int[NEOSHDF](_ => 0);
      sdTable := new int[NEOSHDF](_ => 0);
      names := map[];
    }

    /** The first loop of EHopen. */
    method CountOpen() returns (nfileopen: int)
      requires Valid()
      ensures nfileopen == Active(Slots())
    {
      nfileopen := 0;
      var i := 0;
      while i < NEOSHDF
        invariant 0 <= i <= NEOSHDF && nfileopen == Active(Slots()[..i])
      {
        assert Slots()[..i + 1][..i] == Slots()[..i];
        nfileopen := nfileopen + typeTable[i];
        i := i + 1;
      }
      assert Slots()[..NEOSHDF] == Slots();
    }

    /** The loop over the entries open for writing; Hfidinquire gives the names. */
    method AlreadyOpen(filename: string) returns (found: bool)
      requires Valid() && Inv(Value())
      ensures found == OpenForWrite(Value(), filename)
    {
      found := false;
      var i := 0;
      while i < NEOSHDF
        invariant 0 <= i <= NEOSHDF && !found
        invariant forall k | 0 <= k < i :: !WriterOf(Slots()[k], names, filename)
      {
        assert SlotOk(Value().slots[i], Value().names);
        assert Slots()[i] == SlotAt(i);
        if typeTable[i] != 0 && acsTable[i] == 1 {
          var testname := names[fidTable[i]];
          if testname == filename {
            assert WriterOf(Value().slots[i], names, filename);
            return true;
          }
        }
        i := i + 1;
      }
    }

    /** The last loop of EHopen: the new entry goes to the first one unused. */
    method Store(acs: int, h: int, sd: int) returns (fid: int)
      requires Valid()
      modifies typeTable, acsTable, fidTable, sdTable
      ensures Slots() == Put(old(Slots()), FirstFree(old(Slots())), Slot(1, acs, h, sd))
      ensures fid == if FirstFree(old(Slots())) < NEOSHDF then FirstFree(old(Slots())) + EHIDOFFSET else -1
    {
      ghost var slots := Slots();
      fid := -1;
      var i := 0;
      while i < NEOSHDF
        invariant 0 <= i <= NEOSHDF && Slots() == slots
        invariant forall k | 0 <= k < i :: slots[k].kind != 0
      {
        assert slots[i] == SlotAt(i);
        if typeTable[i] == 0 {
          fid := i + EHIDOFFSET;
          acsTable[i] := acs;
          typeTable[i] := 1;
          fidTable[i] := h;
          sdTable[i] := sd;
          assert forall k | 0 <= k < NEOSHDF && k != i :: SlotAt(k) == slots[k];
          return;
        }
        i := i + 1;
      }
    }

    /** EHopen. The answers of SDstart, Hopen and of the step that raises HDF's own
        limit are parameters. */
    method Open(filename: string, access: Access, limit: int, sd: int, h: int) returns (fid: int)
      requires Valid() && Inv(Value()) && Feasible(Value(), OpenFiles.Open(filename, access, limit, sd, h))
      modifies this, typeTable, acsTable, fidTable, sdTable
      ensures Valid() && Value() == Step(old(Value()), OpenFiles.Open(filename, access, limit, sd, h))
      ensures fid == Result(old(Value()), OpenFiles.Open(filename, access, limit, sd, h))
    {
      fid := -1;
      var status := limit;
      var acs, hdfFid, sdInterfaceID := 0, 0, 0;
      var nfileopen := CountOpen();
      if nfileopen >= NEOSHDF {
        return;
      }
      if access != Read {
        var found := AlreadyOpen(filename);
        if found {
          status := -1;
        }
      }
      if status == 0 {
        match access
        case Create =>
          sdInterfaceID := sd;
          if sdInterfaceID != -1 {
            hdfFid := h;
            names := names[h := filename];
            acs := 1;
          } else {
            status := -1;
          }
        case ReadWrite =>
          hdfFid := h;
          if hdfFid != -1 {
            names := names[h := filename];
            sdInterfaceID := sd;
            if sdInterfaceID != -1 {
              acs := 1;
            } else {
              status := -1;
            }
          } else {
            status := -1;
          }
        case Read =>
          hdfFid := h;
          if hdfFid == -1 {
            status := -1;
          } else {
            names := names[h := filename];
            sdInterfaceID := sd;
            if sdInterfaceID != -1 {
              acs := 0;
            } else {
              status := -1;
            }
          }
        case Other =>
          status := -1;
      }
      if status == 0 {
        fid := Store(acs, hdfFid, sdInterfaceID);
      }
    }

    /** EHclose; closeStatus is what Hclose returns. */
    method Close(fid: int, closeStatus: int) returns (status: int)
      requires Valid()
      modifies this, typeTable, acsTable, fidTable, sdTable
      ensures Valid() && Value() == Step(old(Value()), OpenFiles.Close(fid, closeStatus))
      ensures status == if 524288 <= fid < 525288 then closeStatus else -1
      ensures 524288 <= fid < 525288 ==> Slots() == old(Slots())[fid - 524288 := Slot(0, 0, 0, 0)]
      ensures fid < 524288 || fid >= 525288 ==> Slots() == old(Slots()) && names == old(names)
    {
      if EHIDOFFSET <= fid < NEOSHDF + EHIDOFFSET {
        ghost var slots := Slots();
        var fid0 := fid % EHIDOFFSET;
        assert fid0 == fid - EHIDOFFSET;
        var hdfFid := fidTable[fid0];
        status := closeStatus;
        if status == 0 {
          names := names - {hdfFid};
        }
        typeTable[fid0] := 0;
        acsTable[fid0] := 0;
        fidTable[fid0] := 0;
        sdTable[fid0] := 0;
        assert forall k | 0 <= k < NEOSHDF && k != fid0 :: SlotAt(k) == slots[k];
      } else {
        status := -1;
      }
    }

    /** EHchkfid. */
    method ChkFid(fid: int) returns (check: Check)
      requires Valid()
      ensures check == CheckFid(Value(), fid)
    {
      if fid < EHIDOFFSET || fid > NEOSHDF + EHIDOFFSET {
        check := BadRange;
      } else {
        var fid0 := fid % EHIDOFFSET;
        assert fid0 == fid - EHIDOFFSET;
        if fid0 >= NEOSHDF {
          check := BeyondTable;
        } else if typeTable[fid0] == 0 {
          assert Slots()[fid0] == SlotAt(fid0);
          check := Inactive;
        } else {
          assert Slots()[fid0] == SlotAt(fid0);
          check := Live(fidTable[fid0], sdTable[fid0], acsTable[fid0]);
        }
      }
    }
  }
}
