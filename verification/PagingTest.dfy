/** `setup_paging` with the self-test it ends in: the test stores through the new tables. */
module PagingTest {
  import opened Bits
  import opened Options
  import opened PageAddr
  import opened PageFlags
  import opened Sequences
  import opened Paging

  /** `release_page` */
  function Release(flags: seq<Flags>, addr: nat): (r: seq<Flags>)
    ensures |r| == |flags|
  {
    var q := addr / PAGE_SIZE;
    if q < |flags| then flags[q := flags[q].(taken := false)] else flags
  }

  /** What the self-test stores. */
  const PATTERN: nat := 0x5555

  function Store(ram: seq<nat>, addr: nat): (r: seq<nat>)
    ensures |r| == |ram|
  {
    if addr / 4 < |ram| then ram[addr / 4 := PATTERN] else ram
  }

  /** `test_mmu`: the store goes where the tables send the address; `None` is a page fault. The kernel
      runs with CR0.WP clear, so its stores need presence only. The reads that follow go through the
      same table and the same entry. */
  function SelfTest(m: Machine): (r: Option<Machine>)
    requires FitsTogether(m) && |m.flags| < WORD / PAGE_SIZE
    ensures r.Some? ==> FitsTogether(r.value)
  {
    var (flags, t) := GetFree(m.flags);
    match Walk(m.dir, m.ram, t)
    case None => None
    case Some(to) => Some(m.(flags := Release(flags, t), ram := Store(m.ram, to.pa)))
  }

  // ----- the pages after `n` calls of get_free_page

  function AfterCalls(flags: seq<Flags>, n: nat): (r: seq<Flags>)
    ensures |r| == |flags|
    decreases n
  {
    if n == 0 then flags else AfterCalls(GetFree(flags).0, n - 1)
  }

  lemma {:induction false} SetupFlags(m: Machine, i: nat, n: nat)
    requires FitsTogether(m) && KERNEL_PGD + n <= ENTRIES && i <= n
    ensures SetupFrom(m, i, n).flags == AfterCalls(m.flags, n - i)
    decreases n - i
  {
    hide MapTable, GetFree;
    if i == n {
    } else {
      SetupFlags(MapTable(m, i), i + 1, n);
    }
  }

  /** A call takes the lowest free page, so it takes one below `x` if there is one. */
  lemma CallBelow(flags: seq<Flags>, x: nat)
    requires x <= |flags|
    ensures var (after, t) := GetFree(flags);
            && CountFree(after[..x]) == (if CountFree(flags[..x]) > 0 then CountFree(flags[..x]) - 1 else 0)
            && (CountFree(flags) > 0 ==> (t / PAGE_SIZE < x <==> CountFree(flags[..x]) > 0))
  {
    hide CountFree;
    CountNone(flags);
    CountNone(flags[..x]);
    var i := FirstFree(flags, 0);
    if i < x {
      CountTaken(flags[..x], i);
      assert GetFree(flags).0[..x] == flags[..x][i := flags[i].(taken := true)];
      assert !flags[..x][i].taken;
    } else {
      assert GetFree(flags).0[..x] == flags[..x];
      assert forall j :: 0 <= j < x ==> flags[..x][j] == flags[j];
    }
  }

  lemma {:induction false} CallsBelow(flags: seq<Flags>, n: nat, x: nat)
    requires x <= |flags|
    ensures CountFree(AfterCalls(flags, n)[..x]) == if n <= CountFree(flags[..x]) then CountFree(flags[..x]) - n else 0
    decreases n
  {
    hide CountFree, GetFree;
    if n == 0 {
    } else {
      CallBelow(flags, x);
      CallsBelow(GetFree(flags).0, n - 1, x);
    }
  }

  /** No page of a table is free afterwards. */
  lemma {:induction false} TablesNotFree(flags: seq<Flags>, n: nat)
    ensures forall u :: u in Tables(flags, n) ==> !FreePage(AfterCalls(flags, n), u)
    ensures forall u :: FreePage(AfterCalls(flags, n), u) ==> FreePage(flags, u)
    decreases n
  {
    hide CountFree, GetFree, FreePage;
    if n == 0 {
    } else {
      GetFreeFacts(flags);
      NothingFree(flags, GetFree(flags).1);
      TablesNotFree(GetFree(flags).0, n - 1);
    }
  }

  lemma NothingFree(flags: seq<Flags>, u: nat)
    ensures CountFree(flags) == 0 ==> !FreePage(flags, u)
  {
    CountNone(flags);
  }

  lemma WholeSequence(flags: seq<Flags>)
    ensures flags[..|flags|] == flags
  {
  }

  lemma {:induction false} PrefixHasFewer(flags: seq<Flags>, x: nat)
    requires x <= |flags|
    ensures CountFree(flags[..x]) <= CountFree(flags)
    decreases |flags|
  {
    if x == |flags| {
      WholeSequence(flags);
    } else {
      var n := |flags| - 1;
      PrefixHasFewer(flags[..n], x);
      assert flags[..n][..x] == flags[..x];
    }
  }

  // ----- when the self-test leaves the tables right

  /** More than `n` of the mapped pages are free, or exactly `n` pages are free and page 0, which the
      test then uses, is none of them. */
  predicate RoomForTest(flags: seq<Flags>, n: nat)
    requires n * ENTRIES <= |flags|
  {
    n > 0 && (n < CountFree(flags[..n * ENTRIES]) || (n == CountFree(flags) && flags[0].taken))
  }

  lemma RoomIsEnough(flags: seq<Flags>, n: nat)
    requires n * ENTRIES <= |flags| && RoomForTest(flags, n)
    ensures Enough(flags, n)
  {
    hide CountFree;
    PrefixHasFewer(flags, n * ENTRIES);
  }

  /** The page the test uses, with every table on a page of its own. */
  lemma TestPage(m: Machine, n: nat)
    requires CanSetup(m) && n == CountEntries(|m.flags|) && n > 0 && Enough(m.flags, n)
    ensures n * ENTRIES <= |m.flags|
    ensures var t := GetFree(Setup(m, n).flags).1;
            RoomForTest(m.flags, n) <==> t < n * TABLE_SPAN && t !in Tables(m.flags, n)
  {
    hide CountFree, GetFree, Tables, FreePage, SetupFrom;
    EntriesRoundDown(|m.flags|);
    var b := Setup(m, n);
    SetupFlags(m.(phys := 0), 0, n);
    CallsBelow(m.flags, n, n * ENTRIES);
    CallsBelow(m.flags, n, |m.flags|);
    WholeSequence(m.flags);
    WholeSequence(b.flags);
    CallBelow(b.flags, n * ENTRIES);
    GetFreeFacts(b.flags);
    TablesNotFree(m.flags, n);
    PrefixHasFewer(m.flags, n * ENTRIES);
    if CountFree(b.flags) == 0 { LastPageUsed(m, n); }
  }

  /** No page is left: page 0 carries a table exactly when it was free or one page was missing. */
  lemma LastPageUsed(m: Machine, n: nat)
    requires CanSetup(m) && n == CountEntries(|m.flags|) && n > 0 && Enough(m.flags, n)
    requires CountFree(Setup(m, n).flags) == 0
    ensures 0 in Tables(m.flags, n) <==> !(n == CountFree(m.flags) && m.flags[0].taken)
  {
    hide CountFree, GetFree, Tables, SetupFrom;
    EntriesRoundDown(|m.flags|);
    var b := Setup(m, n);
    SetupFlags(m.(phys := 0), 0, n);
    SetupFrame(m.(phys := 0), 0, n);
    CallsBelow(m.flags, n, |m.flags|);
    WholeSequence(m.flags);
    WholeSequence(b.flags);
    CountNone(b.flags);
    TableMembers(m.flags, n);
    assert PageBase(0, 0) == 0;
  }

  // ----- the store and the tables

  /** A store on a page without a table leaves every table. */
  lemma StoreElsewhere(m: Machine, tables: seq<nat>, t: nat)
    requires Built(m, tables) && t % PAGE_SIZE == 0 && t !in tables
    ensures Built(m.(ram := Store(m.ram, t)), tables)
  {
    hide Entry, PageBase, Kept, DirOK;
    var r := Store(m.ram, t);
    forall j | 0 <= j < |tables| && Kept(tables, j) ensures TableOK(r, tables[j], j) {
      TableStays(m.ram, r, tables[j], t, j);
    }
  }

  lemma PatternDecodes()
    ensures Present(PATTERN) && FrameOf(PATTERN) == 0x5000
  {
    hide And;
    FramePart(PATTERN);
    LowBit(PATTERN);
  }

  /** A store on the page of table `j` sends the first address of its stretch astray. */
  lemma StoreOnTable(m: Machine, tables: seq<nat>, j: nat)
    requires Built(m, tables) && |m.ram| * 4 <= WORD && j < |tables|
    ensures j * TABLE_SPAN < WORD
    ensures Walk(m.dir, Store(m.ram, tables[j]), j * TABLE_SPAN) != Expected(|tables|, j * TABLE_SPAN)
  {
    hide Entry, Present, FrameOf, RightsOf, Kept, TableOK, PageBase;
    var va := j * TABLE_SPAN;
    assert va / TABLE_SPAN == j && va / PAGE_SIZE % ENTRIES == 0 && va % PAGE_SIZE == 0;
    assert m.dir[j] == DirEntry(tables, j);
    EntryDecodes(tables[j] / PAGE_SIZE);
    assert tables[j] == tables[j] / PAGE_SIZE * PAGE_SIZE;
    PatternDecodes();
  }

  lemma FrameIsAligned(w: nat)
    ensures FrameOf(w) % PAGE_SIZE == 0
  {
    hide And, Shl, Shr, Pow2;
    WordSize();
    MaskIsShift(12);
    AndShift(w, Pow2(20) - 1, 12);
    ShlMultiplies(And(Shr(w, 12), Pow2(20) - 1), 12);
  }

  /** Two tables on one page: the second page of the first one's stretch stays astray, because the
      store hits the first entry of some page. */
  lemma SharedStaysWrong(m: Machine, tables: seq<nat>, i: nat, j: nat, pa: nat)
    requires Built(m, tables) && |m.ram| * 4 <= WORD && i < j < |tables| && tables[i] == tables[j]
    requires pa % PAGE_SIZE == 0
    ensures i * TABLE_SPAN + PAGE_SIZE < WORD
    ensures Walk(m.dir, Store(m.ram, pa), i * TABLE_SPAN + PAGE_SIZE) != Expected(|tables|, i * TABLE_SPAN + PAGE_SIZE)
  {
    hide Entry, Present, FrameOf, Walk, Kept, PageBase;
    var k := LastTable(tables, j);
    var va := i * TABLE_SPAN + PAGE_SIZE;
    SecondPage(i);
    assert m.dir[i] == DirEntry(tables, i);
    assert TableOK(m.ram, tables[k], k);
    TableEntry(m.ram, tables[k], k, 1);
    FirstEntryOnly(pa, tables[k]);
    WalkThrough(m.dir, Store(m.ram, pa), va, tables[k], k);
  }

  lemma SecondPage(i: nat)
    requires i < KERNEL_PGD
    ensures var va := i * TABLE_SPAN + PAGE_SIZE;
            va / TABLE_SPAN == i && va / PAGE_SIZE % ENTRIES == 1 && Pa(va) == va && va % TABLE_SPAN == PAGE_SIZE
  {
    var va := i * TABLE_SPAN + PAGE_SIZE;
    QuotientIsUnique(va, TABLE_SPAN, i, PAGE_SIZE);
    QuotientIsUnique(va, PAGE_SIZE, i * ENTRIES + 1, 0);
    QuotientIsUnique(i * ENTRIES + 1, ENTRIES, i, 1);
  }

  lemma FirstEntryOnly(pa: nat, table: nat)
    requires pa % PAGE_SIZE == 0 && table % PAGE_SIZE == 0
    ensures pa / 4 != table / 4 + 1
  {
    var a, b := pa / PAGE_SIZE, table / PAGE_SIZE;
    assert pa / 4 == a * ENTRIES && table / 4 == b * ENTRIES;
  }

  // ----- the theorem

  lemma SetupIsBuilt(m: Machine, n: nat)
    requires CanSetup(m) && n == CountEntries(|m.flags|)
    ensures n * ENTRIES <= |m.flags| && Built(Setup(m, n), Tables(m.flags, n)) && |Setup(m, n).ram| * 4 <= WORD
  {
    hide Built, Tables, SetupFrom;
    EntriesRoundDown(|m.flags|);
    NothingBuilt(m);
    SetupBuilds(m.(phys := 0), [], n);
    assert [] + Tables(m.flags, n) == Tables(m.flags, n);
  }

  lemma FreeAddress(flags: seq<Flags>)
    requires |flags| < WORD / PAGE_SIZE
    ensures GetFree(flags).1 % PAGE_SIZE == 0 && GetFree(flags).1 <= |flags| * PAGE_SIZE < WORD
  {
  }

  /** With every table on its own page: the test passes exactly when its page is mapped and carries
      no table. */
  lemma TestOnGoodTables(m: Machine, n: nat)
    requires CanSetup(m) && n == CountEntries(|m.flags|) && NoDup(Tables(m.flags, n))
    ensures var r := SelfTest(Setup(m, n));
            var t := GetFree(Setup(m, n).flags).1;
            (r.Some? && WalksAsExpected(r.value, n)) <==> t < n * TABLE_SPAN && t !in Tables(m.flags, n)
  {
    hide Built, Tables, GetFree, Walk, NoDup, Setup, Store, Release, CanSetup;
    SetupBounds(m, n);
    SetupIsBuilt(m, n);
    var b, tables := Setup(m, n), Tables(m.flags, n);
    var t := GetFree(b.flags).1;
    FreeAddress(b.flags);
    WalkIsPa(b, tables, t);
    if t < n * TABLE_SPAN {
      var r := SelfTest(b).value;
      if t in tables {
        var j: nat :| j < |tables| && tables[j] == t;
        StoreOnTable(b, tables, j);
      } else {
        StoreElsewhere(b, tables, t);
        var s := b.(ram := Store(b.ram, t));
        forall va: nat | va < WORD ensures Walk(r.dir, r.ram, va) == Expected(n, va) { WalkIsPa(s, tables, va); }
      }
    }
  }

  lemma SetupBounds(m: Machine, n: nat)
    requires CanSetup(m) && n == CountEntries(|m.flags|)
    ensures FitsTogether(m) && KERNEL_PGD + n <= ENTRIES && |m.flags| < (n + 1) * ENTRIES
    ensures |m.flags| < WORD / PAGE_SIZE
  {
    EntriesRoundDown(|m.flags|);
  }

  lemma TestOnSharedTables(m: Machine, n: nat)
    requires CanSetup(m) && n == CountEntries(|m.flags|) && !NoDup(Tables(m.flags, n))
    ensures var r := SelfTest(Setup(m, n)); r.Some? ==> !WalksAsExpected(r.value, n)
  {
    hide Built, Tables, GetFree, NoDup, Setup, Store, Release, CanSetup, Present, FrameOf;
    SetupBounds(m, n);
    SetupIsBuilt(m, n);
    var b, tables := Setup(m, n), Tables(m.flags, n);
    var t := GetFree(b.flags).1;
    FreeAddress(b.flags);
    if SelfTest(b).Some? {
      var r := SelfTest(b).value;
      var pa := Walk(b.dir, b.ram, t).value.pa;
      WalkIsAligned(b, t);
      var i, j := TwoAlike(tables);
      SharedStaysWrong(b, tables, i, j, pa);
      hide Walk;
      assert r.ram == Store(b.ram, pa) && r.dir == b.dir;
    }
  }

  lemma WalkIsAligned(m: Machine, va: nat)
    requires |m.dir| == ENTRIES && va < WORD && va % PAGE_SIZE == 0 && Walk(m.dir, m.ram, va).Some?
    ensures Walk(m.dir, m.ram, va).value.pa % PAGE_SIZE == 0
  {
    hide Present, FrameOf;
    FrameIsAligned(m.ram[FrameOf(m.dir[va / TABLE_SPAN]) / 4 + va / PAGE_SIZE % ENTRIES]);
  }

  /** After `setup_paging` with its self-test every address of the low and kernel maps goes to `__pa`
      of it and every other is not present, exactly when there was room for the tables and the test. */
  lemma PagingSurvivesTestExactly(m: Machine)
    requires CanSetup(m)
    ensures var n := CountEntries(|m.flags|);
            && n * ENTRIES <= |m.flags|
            && var r := SelfTest(Setup(m, n));
               ((r.Some? && WalksAsExpected(r.value, n)) <==> RoomForTest(m.flags, n))
  {
    hide CanSetup, Setup, SelfTest, Tables, NoDup, CountFree, GetFree;
    var n := CountEntries(|m.flags|);
    SetupBounds(m, n);
    SetupIsBuilt(m, n);
    if n == 0 {
      NoTables(m.flags);
      TestOnGoodTables(m, n);
    } else {
      TablesDistinctExactly(m.flags, n);
      if NoDup(Tables(m.flags, n)) {
        TestOnGoodTables(m, n);
        TestPage(m, n);
      } else {
        TestOnSharedTables(m, n);
        if RoomForTest(m.flags, n) { RoomIsEnough(m.flags, n); }
      }
    }
  }

  lemma NoTables(flags: seq<Flags>)
    ensures NoDup(Tables(flags, 0))
  {
  }

  /** What the flags are after the test: the pages of the tables are TAKEN, the test's own page is free
      again, and nothing else changed; but when no page was left for the test, page 0 is free too. */
  function FlagsExpected(flags: seq<Flags>, n: nat, q: nat): Flags
    requires q < |flags|
  {
    if PageBase(0, q) in Tables(flags, n) then flags[q].(taken := true)
    else if q == 0 && n == CountFree(flags) then flags[q].(taken := false)
    else flags[q]
  }

  /** Taking a page and releasing it leaves the flags, unless there was none to take: then page 0 is
      released. */
  lemma TakeAndRelease(flags: seq<Flags>, q: nat)
    requires q < |flags|
    ensures var (after, t) := GetFree(flags);
            Release(after, t)[q] == if q == 0 && CountFree(flags) == 0 then flags[q].(taken := false) else flags[q]
  {
    hide CountFree;
    CountNone(flags);
  }

  lemma FlagsAfterTest(m: Machine, q: nat)
    requires CanSetup(m) && CountEntries(|m.flags|) * ENTRIES <= |m.flags|
    requires RoomForTest(m.flags, CountEntries(|m.flags|)) && q < |m.flags|
    ensures var n := CountEntries(|m.flags|);
            var r := SelfTest(Setup(m, n));
            r.Some? && |r.value.flags| == |m.flags| && r.value.flags[q] == FlagsExpected(m.flags, n, q)
  {
    hide SetupFrom, Tables, CountFree, GetFree, Walk, Release;
    var n := CountEntries(|m.flags|);
    PagingSurvivesTestExactly(m);
    SetupBounds(m, n);
    var b := Setup(m, n);
    SetupFrame(m.(phys := 0), 0, n);
    SetupFlags(m.(phys := 0), 0, n);
    CallsBelow(m.flags, n, |m.flags|);
    WholeSequence(m.flags);
    WholeSequence(b.flags);
    PrefixHasFewer(m.flags, n * ENTRIES);
    TakeAndRelease(b.flags, q);
    if n == CountFree(m.flags) { LastPageUsed(m, n); }
    assert PageBase(0, 0) == 0;
  }

  /** The test stores in the first word of a page without a table; beside it memory changes only on
      the pages of the tables. */
  lemma MemoryAfterTest(m: Machine, w: nat)
    requires CanSetup(m) && CountEntries(|m.flags|) * ENTRIES <= |m.flags|
    requires RoomForTest(m.flags, CountEntries(|m.flags|)) && w < |m.ram|
    requires PageBase(0, w / ENTRIES) !in Tables(m.flags, CountEntries(|m.flags|))
    ensures var b := Setup(m, CountEntries(|m.flags|));
            var t := GetFree(b.flags).1;
            var r := SelfTest(b);
            && r.Some? && |r.value.ram| == |m.ram| && t !in Tables(m.flags, CountEntries(|m.flags|))
            && r.value.ram[w] == if w == t / 4 then 0x5555 else m.ram[w]
  {
    hide SetupFrom, Tables, CountFree, GetFree, Walk, Release, RoomForTest, NoDup;
    var n := CountEntries(|m.flags|);
    PagingSurvivesTestExactly(m);
    SetupBounds(m, n);
    RoomIsEnough(m.flags, n);
    RoomMeansTables(m.flags, n);
    TestPage(m, n);
    var b := Setup(m, n);
    FreeAddress(b.flags);
    SetupFrame(m.(phys := 0), 0, n);
    SetupIsBuilt(m, n);
    TablesDistinctExactly(m.flags, n);
    WalkIsPa(b, Tables(m.flags, n), GetFree(b.flags).1);
  }

  lemma RoomMeansTables(flags: seq<Flags>, n: nat)
    requires n * ENTRIES <= |flags| && RoomForTest(flags, n)
    ensures n > 0 && |flags| > 0
  {
  }

  /** Then the pages of the tables are TAKEN after the test too. */
  lemma TestKeepsTablesTaken(m: Machine, q: nat)
    requires CanSetup(m) && CountEntries(|m.flags|) * ENTRIES <= |m.flags|
    requires RoomForTest(m.flags, CountEntries(|m.flags|))
    requires q < |m.flags| && PageBase(0, q) in Tables(m.flags, CountEntries(|m.flags|))
    ensures var r := SelfTest(Setup(m, CountEntries(|m.flags|)));
            r.Some? && |r.value.flags| == |m.flags| && r.value.flags[q].taken
  {
    hide CanSetup, Setup, SelfTest, RoomForTest, Tables, PageBase, CountFree;
    FlagsAfterTest(m, q);
  }
}
