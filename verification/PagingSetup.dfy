/** `get_free_page` and `setup_paging` as they update memory in place. */
module PagingSetup {
  import opened PageAddr
  import opened PageFlags
  import opened Blocks
  import opened Zone
  import opened ZoneTheorems
  import opened ZoneInit
  import ZoneRuns
  import opened Paging
  import opened PagingTest

  class PageTables {
    /** The flags of `mem_map`, one per page of memory. */
    const memMap: array<Flags>
    /** Physical memory, word by word. */
    const ram: array<nat>
    /** `swapper_pg_dir` */
    const pgDir: array<nat>

    ghost predicate Valid() {
      pgDir.Length == ENTRIES && ram.Length == memMap.Length * ENTRIES && ram != pgDir
    }

    ghost function State(phys: nat): Machine
      reads memMap, ram, pgDir
    {
      Machine(memMap[..], ram[..], pgDir[..], phys)
    }

    /** Memory as it is found, and a directory of zeros. */
    constructor (flags: array<Flags>, memory: array<nat>)
      requires memory.Length == flags.Length * ENTRIES
      ensures Valid() && memMap == flags && ram == memory && fresh(pgDir)
      ensures forall e :: 0 <= e < ENTRIES ==> pgDir[e] == 0
    {
      memMap := flags;
      ram := memory;
      pgDir := new nat[ENTRIES](e => 0);
    }

    /** `get_free_page` */
    method GetFreePage() returns (addr: nat)
      modifies memMap
      ensures (memMap[..], addr) == GetFree(old(memMap[..]))
    {
      var i := 0;
      while i < memMap.Length
        invariant 0 <= i <= memMap.Length && memMap[..] == old(memMap[..])
        invariant FirstFree(memMap[..], i) == FirstFree(memMap[..], 0)
      {
        if !memMap[i].taken {
          memMap[i] := memMap[i].(taken := true);
          return i * PAGE_SIZE;
        }
        i := i + 1;
      }
      return 0;
    }

    /** The inner loop of `setup_paging`. */
    method FillTable(table: nat, start: nat) returns (phys: nat)
      requires start < memMap.Length * PAGE_SIZE ==> table / 4 + ENTRIES <= ram.Length
      modifies ram
      ensures (ram[..], phys) == Fill(old(ram[..]), table, 0, start, memMap.Length * PAGE_SIZE)
    {
      hide Entry;
      var total := memMap.Length * PAGE_SIZE;
      var j := 0;
      phys := start;
      while phys < total && j < ENTRIES
        invariant 0 <= j <= ENTRIES && start <= phys
        invariant Fill(ram[..], table, j, phys, total) == Fill(old(ram[..]), table, 0, start, total)
        decreases ENTRIES - j
      {
        ghost var before := ram[..];
        ram[table / 4 + j] := Entry(phys);
        assert ram[..] == before[table / 4 + j := Entry(phys)];
        j := j + 1;
        phys := phys + PAGE_SIZE;
      }
    }

    /** The nested loops of `setup_paging`. */
    method BuildTables(entries: nat)
      requires Valid() && KERNEL_PGD + entries <= ENTRIES
      modifies memMap, ram, pgDir
      ensures var r := Setup(old(State(0)), entries); State(r.phys) == r
    {
      hide Entry, GetFree, Fill;
      KernelPgd();
      var pgd := PgdIndex(PAGE_OFFSET);
      var phys := 0;
      var i := 0;
      while i < entries
        invariant 0 <= i <= entries
        invariant SetupFrom(State(phys), i, entries) == Setup(old(State(0)), entries)
      {
        ghost var m := State(phys);
        var table := GetFreePage();
        pgDir[pgd + i] := Entry(table);
        pgDir[i] := Entry(table);
        FreePageInRam(m);
        phys := FillTable(table, phys);
        assert State(phys).dir == m.dir[KERNEL_PGD + i := Entry(table)][i := Entry(table)];
        assert State(phys) == MapTable(m, i);
        i := i + 1;
      }
    }

    /** `release_page` */
    method ReleasePage(addr: nat)
      modifies memMap
      ensures memMap[..] == Release(old(memMap[..]), addr)
    {
      var q := addr / PAGE_SIZE;
      if q < memMap.Length { memMap[q] := memMap[q].(taken := false); }
    }

    /** `test_mmu`, whose store the hardware translates; `false` is a page fault. */
    method TestMmu() returns (ok: bool)
      requires Valid() && memMap.Length < WORD / PAGE_SIZE
      modifies memMap, ram
      ensures var r := SelfTest(old(State(0)));
              ok == r.Some? && (ok ==> State(0) == r.value)
    {
      hide Walk, GetFree;
      ghost var m := State(0);
      FreeAddress(memMap[..]);
      var addr := GetFreePage();
      var target := Walk(pgDir[..], ram[..], addr);
      if target.None? { return false; }
      var pa := target.value.pa;
      if pa / 4 < ram.Length { ram[pa / 4] := PATTERN; }
      assert ram[..] == Store(m.ram, pa);
      ReleasePage(addr);
      return true;
    }

    /** `setup_paging`: build the tables, then test them. */
    method SetupPaging(entries: nat) returns (ok: bool)
      requires Valid() && KERNEL_PGD + entries <= ENTRIES && memMap.Length < WORD / PAGE_SIZE
      modifies memMap, ram, pgDir
      ensures var r := SelfTest(Setup(old(State(0)), entries).(phys := 0));
              ok == r.Some? && (ok ==> State(0) == r.value)
    {
      hide Setup, SelfTest;
      BuildTables(entries);
      ok := TestMmu();
    }

    /** The paging part of `init_mem`: it comes back and the directory translates as `__pa`, exactly when
        there was room for the tables and the test. */
    method InitPaging() returns (entries: nat, ok: bool)
      requires Valid() && CanSetup(State(0))
      modifies memMap, ram, pgDir
      ensures entries == CountEntries(memMap.Length) && entries * ENTRIES <= memMap.Length
      ensures (ok && WalksAsExpected(State(0), entries)) <==> RoomForTest(old(memMap[..]), entries)
      ensures RoomForTest(old(memMap[..]), entries) ==>
                forall q :: 0 <= q < memMap.Length ==> memMap[q] == FlagsExpected(old(memMap[..]), entries, q)
    {
      hide Walk, RoomForTest, Setup, FlagsExpected;
      ghost var m := State(0);
      PagingSurvivesTestExactly(m);
      if RoomForTest(m.flags, CountEntries(memMap.Length)) {
        forall q | 0 <= q < memMap.Length { FlagsAfterTest(m, q); }
      }
      entries := CountEntries(memMap.Length);
      TestIgnoresPhys(Setup(m, entries));
      ok := SetupPaging(entries);
    }
  }

  /** The test does not look at the loop's last address. */
  lemma TestIgnoresPhys(m: Machine)
    requires FitsTogether(m) && |m.flags| < WORD / PAGE_SIZE
    ensures SelfTest(m).Some? <==> SelfTest(m.(phys := 0)).Some?
    ensures SelfTest(m).Some? ==> SelfTest(m.(phys := 0)).value == SelfTest(m).value.(phys := 0)
  {
    hide Walk, GetFree;
  }

  /** With room for the tables and the test, the pages of the tables are TAKEN when the page allocator
      starts, so whatever it does afterwards, a table's page is neither free nor handed out. */
  lemma TablePagesStayOut(m: Machine, z: Zone, ops: seq<ZoneRuns.Op>, q: nat)
    requires CanSetup(m) && CountEntries(|m.flags|) * ENTRIES <= |m.flags|
    requires RoomForTest(m.flags, CountEntries(|m.flags|))
    requires q < |m.flags| && PageBase(0, q) in Tables(m.flags, CountEntries(|m.flags|))
    requires SelfTest(Setup(m, CountEntries(|m.flags|))).Some?
    requires Fresh(z) && |z.pages| == |m.flags|
    requires var flags := SelfTest(Setup(m, CountEntries(|m.flags|))).value.flags;
             q < |flags| && z.pages[q].flags == flags[q]
    requires ZoneRuns.AllowedRun(ZoneRuns.Booted(z), ops)
    ensures var r := ZoneRuns.Run(ZoneRuns.Booted(z), ops);
            q !in FreeSet(r.zone) && !Covered(r.live, q)
  {
    hide FreeSet, Covered, Fresh, ZoneRuns.Run, ZoneRuns.Booted, ZoneRuns.AllowedRun, Setup, SelfTest, Tables, PageBase,
         RoomForTest, CanSetup;
    TestKeepsTablesTaken(m, q);
    ZoneRuns.ReachableStates(z, ops, q);
  }
}
