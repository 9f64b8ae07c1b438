/** The page tables `setup_paging` builds, and the 32-bit page walk over them. */
module Paging {
  import opened Bits
  import opened Options
  import opened PageAddr
  import opened PageFlags
  import opened Sequences

  /** Entries of the directory and of each table. */
  const ENTRIES: nat := 1024
  /** The stretch of memory one table maps. */
  const TABLE_SPAN: nat := 0x40_0000
  const FRAME_MASK: nat := 0xFFFF_F000

  // ----- entries

  /** The C operator `|`, bit by bit. */
  function Or(a: nat, b: nat): nat
    decreases a + b
  {
    if a == 0 && b == 0 then 0
    else (if a % 2 == 1 || b % 2 == 1 then 1 else 0) + 2 * Or(a / 2, b / 2)
  }

  /** `(addr & 0xFFFFF000) | PG_PRESENT | PG_RW` */
  function Entry(addr: nat): nat { Or(Or(And(addr, FRAME_MASK), 1), 2) }

  predicate Present(w: nat) { And(w, 1) == 1 }

  function FrameOf(w: nat): nat { And(w, FRAME_MASK) }

  /** The bits of an entry beside the frame and the presence bit: bit 1 allows stores, bit 2 access
      from user mode, the rest caching, accounting and page size. */
  datatype Rights = Rights(writable: bool, others: nat)

  function RightsOf(w: nat): Rights { Rights(And(w, 2) == 2, And(w, 0xFFC)) }

  /** Stores are allowed, user mode is not, and no other bit is set. */
  const KERNEL_DATA := Rights(true, 0)

  lemma WordSize()
    ensures Pow2(32) == WORD && Pow2(12) == PAGE_SIZE
  {
    assert Pow2(12) == PAGE_SIZE;
    assert Pow2(20) == 0x10_0000;
    Pow2Sum(20, 12);
  }

  lemma FramePart(a: nat)
    requires a < WORD
    ensures And(a, FRAME_MASK) == a / PAGE_SIZE * PAGE_SIZE
  {
    hide And, Pow2;
    WordSize();
    HighBits(a, 12);
  }

  lemma {:induction false} OrZero(a: nat)
    ensures Or(a, 0) == a
  {
    if a == 0 {
    } else {
      OrZero(a / 2);
    }
  }

  lemma FrameArithmetic(f: nat)
    requires f < WORD / PAGE_SIZE
    ensures var a := f * PAGE_SIZE;
            a / PAGE_SIZE == f && (a + 3) / PAGE_SIZE == f && a + 3 < WORD && a % 4 == 0 && (a + 3) % 2 == 1
  {
    var a := f * PAGE_SIZE;
    QuotientIsUnique(a, PAGE_SIZE, f, 0);
    QuotientIsUnique(a + 3, PAGE_SIZE, f, 3);
    QuotientIsUnique(a, 4, f * 1024, 0);
    QuotientIsUnique(a + 3, 2, f * 2048 + 1, 1);
  }

  /** An entry is present, leads to the frame it was made for, is writable, and has no other bit set. */
  lemma EntryDecodes(f: nat)
    requires f < WORD / PAGE_SIZE
    ensures Present(Entry(f * PAGE_SIZE)) && FrameOf(Entry(f * PAGE_SIZE)) == f * PAGE_SIZE
    ensures RightsOf(Entry(f * PAGE_SIZE)) == KERNEL_DATA
    ensures Entry(f * PAGE_SIZE) < WORD
  {
    hide And, Or;
    var a := f * PAGE_SIZE;
    FrameArithmetic(f);
    FramePart(a);
    OrFlags(a);
    FramePart(a + 3);
    LowBit(a + 3);
    LowBits(f);
  }

  lemma {:induction false} AndBelowMultiple(f: nat, n: nat)
    ensures And(f * Pow2(n), Pow2(n) - 1) == 0
  {
    if n == 0 {
      AndZero(f);
    } else {
      AndBelowMultiple(f, n - 1);
      assert f * Pow2(n) == 2 * (f * Pow2(n - 1));
    }
  }

  lemma AndStep(a: nat, b: nat)
    ensures And(a, b) == (if a % 2 == 1 && b % 2 == 1 then 1 else 0) + 2 * And(a / 2, b / 2)
  {
  }

  lemma LowBits(f: nat)
    ensures And(f * PAGE_SIZE + 3, 2) == 2 && And(f * PAGE_SIZE + 3, 0xFFC) == 0
  {
    hide And, Pow2;
    var w, v := f * PAGE_SIZE + 3, f * 2048 + 1;
    assert w == 2 * v + 1 && v == 2 * (f * 1024) + 1;
    AndStep(w, 2);
    AndStep(v, 1);
    AndZero(f * 1024);
    AndStep(w, 0xFFC);
    AndStep(v, 0x7FE);
    Pow2Ten();
    AndBelowMultiple(f, 10);
  }

  lemma Pow2Ten()
    ensures Pow2(10) == 1024
  {
  }

  lemma OrFlags(a: nat)
    requires a % 4 == 0
    ensures Or(Or(a, 1), 2) == a + 3
  {
    OrZero(a / 2);
    OrZero(a / 2 / 2);
    assert Or(a, 1) == a + 1;
    assert Or(a / 2, 1) == a / 2 + 1;
  }

  lemma LowBit(a: nat)
    ensures Present(a) <==> a % 2 == 1
  {
    AndZero(a / 2);
  }

  lemma {:induction false} AndZero(a: nat)
    ensures And(a, 0) == 0
  {
    if a == 0 {
    } else {
      AndZero(a / 2);
    }
  }

  // ----- free pages

  /** The search of `get_free_page`. */
  function FirstFree(flags: seq<Flags>, i: nat): (r: nat)
    requires i <= |flags|
    ensures i <= r <= |flags|
    ensures forall j :: i <= j < r ==> flags[j].taken
    ensures r < |flags| ==> !flags[r].taken
    decreases |flags| - i
  {
    if i == |flags| || !flags[i].taken then i else FirstFree(flags, i + 1)
  }

  /** `get_free_page`: the first page that is not TAKEN becomes TAKEN; its address, or 0. */
  function GetFree(flags: seq<Flags>): (r: (seq<Flags>, nat))
    ensures |r.0| == |flags|
  {
    var i := FirstFree(flags, 0);
    if i < |flags| then (flags[i := flags[i].(taken := true)], i * PAGE_SIZE) else (flags, 0)
  }

  function CountFree(flags: seq<Flags>): nat {
    if flags == [] then 0
    else CountFree(flags[..|flags| - 1]) + if flags[|flags| - 1].taken then 0 else 1
  }

  lemma {:induction false} CountTaken(flags: seq<Flags>, i: nat)
    requires i < |flags| && !flags[i].taken
    ensures CountFree(flags[i := flags[i].(taken := true)]) == CountFree(flags) - 1
  {
    var after := flags[i := flags[i].(taken := true)];
    var n := |flags| - 1;
    if i == n {
      assert after[..n] == flags[..n];
    } else {
      CountTaken(flags[..n], i);
      assert after[..n] == flags[..n][i := flags[i].(taken := true)];
    }
  }

  lemma {:induction false} CountNone(flags: seq<Flags>)
    ensures CountFree(flags) == 0 <==> forall i :: 0 <= i < |flags| ==> flags[i].taken
  {
    if flags == [] {
    } else {
      var n := |flags| - 1;
      CountNone(flags[..n]);
      assert forall i :: 0 <= i < n ==> flags[..n][i] == flags[i];
      if CountFree(flags) == 0 {
        forall i | 0 <= i < |flags| ensures flags[i].taken { if i < n { assert flags[..n][i].taken; } }
      }
    }
  }

  /** The addresses of `n` successive calls of `get_free_page`. */
  function Tables(flags: seq<Flags>, n: nat): (r: seq<nat>)
    ensures |r| == n
    decreases n
  {
    if n == 0 then [] else [GetFree(flags).1] + Tables(GetFree(flags).0, n - 1)
  }

  predicate FreePage(flags: seq<Flags>, t: nat) {
    t % PAGE_SIZE == 0 && t / PAGE_SIZE < |flags| && !flags[t / PAGE_SIZE].taken
  }

  lemma GetFreeFacts(flags: seq<Flags>)
    ensures var (after, t) := GetFree(flags);
            if CountFree(flags) > 0 then
              && FreePage(flags, t) && !FreePage(after, t) && CountFree(after) == CountFree(flags) - 1
              && (t == 0 <==> |flags| > 0 && !flags[0].taken)
              && (|flags| > 0 ==> (after[0].taken <==> flags[0].taken || t == 0))
              && (forall u :: FreePage(after, u) ==> FreePage(flags, u))
            else after == flags && t == 0 && (|flags| > 0 ==> flags[0].taken)
  {
    hide CountFree;
    CountNone(flags);
    var i := FirstFree(flags, 0);
    if i < |flags| { CountTaken(flags, i); }
  }

  /** Each table is a page that was free, or page 0 once no page is left. */
  lemma {:induction false} TableMembers(flags: seq<Flags>, n: nat)
    ensures forall t :: t in Tables(flags, n) ==> FreePage(flags, t) || (t == 0 && n > CountFree(flags))
    ensures n > CountFree(flags) ==> 0 in Tables(flags, n)
    decreases n
  {
    hide CountFree, GetFree, FreePage;
    if n == 0 {
    } else {
      GetFreeFacts(flags);
      TableMembers(GetFree(flags).0, n - 1);
    }
  }

  /** Enough pages for `n` tables: one for each, or all but one when page 0, which then serves as
      the last, is TAKEN. */
  predicate Enough(flags: seq<Flags>, n: nat) {
    n <= CountFree(flags) || (n == CountFree(flags) + 1 && |flags| > 0 && flags[0].taken)
  }

  /** The tables lie on different pages exactly when there are enough. */
  lemma {:induction false} TablesDistinctExactly(flags: seq<Flags>, n: nat)
    requires |flags| > 0
    ensures NoDup(Tables(flags, n)) <==> Enough(flags, n)
    decreases n
  {
    hide CountFree, GetFree, FreePage;
    if n == 0 {
    } else {
      GetFreeFacts(flags);
      var (after, t) := GetFree(flags);
      TablesDistinctExactly(after, n - 1);
      TableMembers(after, n - 1);
      NoDupCons(t, Tables(after, n - 1));
      if CountFree(flags) == 0 && n >= 2 { TableMembers(after, n - 1); }
    }
  }

  lemma NoDupCons(t: nat, s: seq<nat>)
    ensures NoDup([t] + s) <==> t !in s && NoDup(s)
  {
    var u := [t] + s;
    if NoDup(u) {
      forall i | 0 <= i < |s| ensures s[i] != t { assert u[0] == t && u[i + 1] == s[i]; }
      forall i, j | 0 <= i < j < |s| ensures s[i] != s[j] { assert u[i + 1] == s[i] && u[j + 1] == s[j]; }
    }
  }

  // ----- setup_paging

  /** Page flags, the words of physical memory, the directory, and the next page to map. */
  datatype Machine = Machine(flags: seq<Flags>, ram: seq<nat>, dir: seq<nat>, phys: nat)

  predicate FitsTogether(m: Machine) { |m.dir| == ENTRIES && |m.ram| == |m.flags| * ENTRIES }

  /** The bytes of memory there are. */
  function TotalRam(m: Machine): nat { |m.flags| * PAGE_SIZE }

  /** The inner loop: entries for successive pages until the table or the memory ends. */
  function Fill(ram: seq<nat>, table: nat, j: nat, phys: nat, total: nat): (r: (seq<nat>, nat))
    requires j <= ENTRIES && (phys < total ==> table / 4 + ENTRIES <= |ram|)
    ensures |r.0| == |ram|
    decreases ENTRIES - j
  {
    if phys < total && j < ENTRIES then
      Fill(ram[table / 4 + j := Entry(phys)], table, j + 1, phys + PAGE_SIZE, total)
    else (ram, phys)
  }

  /** `pgd_index` */
  function PgdIndex(addr: nat): nat { addr / (ENTRIES * PAGE_SIZE) }

  /** Where the kernel half of the directory starts. */
  const KERNEL_PGD: nat := 768

  lemma KernelPgd()
    ensures PgdIndex(PAGE_OFFSET) == KERNEL_PGD
  {
  }

  lemma FreePageInRam(m: Machine)
    requires FitsTogether(m)
    ensures var t := GetFree(m.flags).1;
            t % PAGE_SIZE == 0 && (m.flags != [] ==> t / 4 + ENTRIES <= |m.ram|)
  {
  }

  /** One turn of the outer loop: a page for the table, two directory entries, the table. */
  function MapTable(m: Machine, i: nat): (r: Machine)
    requires FitsTogether(m) && KERNEL_PGD + i < ENTRIES
    ensures FitsTogether(r) && |r.flags| == |m.flags| && r.flags == GetFree(m.flags).0
  {
    var (flags, t) := GetFree(m.flags);
    FreePageInRam(m);
    var (ram, phys) := Fill(m.ram, t, 0, m.phys, TotalRam(m));
    Machine(flags, ram, m.dir[KERNEL_PGD + i := Entry(t)][i := Entry(t)], phys)
  }

  function SetupFrom(m: Machine, i: nat, n: nat): (r: Machine)
    requires FitsTogether(m) && KERNEL_PGD + n <= ENTRIES && i <= n
    ensures FitsTogether(r) && |r.flags| == |m.flags|
    decreases n - i
  {
    if i == n then m else SetupFrom(MapTable(m, i), i + 1, n)
  }

  /** `setup_paging` for `n` directory entries. */
  function Setup(m: Machine, n: nat): (r: Machine)
    requires FitsTogether(m) && KERNEL_PGD + n <= ENTRIES
    ensures FitsTogether(r) && |r.flags| == |m.flags|
  {
    SetupFrom(m.(phys := 0), 0, n)
  }

  // ----- what it has built

  /** Table `j` maps its stretch of memory onto itself. */
  ghost predicate TableOK(ram: seq<nat>, table: nat, j: nat) {
    && table / 4 + ENTRIES <= |ram|
    && forall x: nat :: x < ENTRIES ==> ram[table / 4 + x] == Entry(PageBase(j, x))
  }

  /** The physical address of page `x` of stretch `j`. */
  function PageBase(j: nat, x: nat): nat { (j * ENTRIES + x) * PAGE_SIZE }

  ghost predicate DirOK(dir: seq<nat>, tables: seq<nat>) {
    && |dir| == ENTRIES && KERNEL_PGD + |tables| <= ENTRIES
    && forall e :: 0 <= e < ENTRIES ==> dir[e] == DirEntry(tables, e)
  }

  function DirEntry(tables: seq<nat>, e: nat): nat {
    if e < |tables| then Entry(tables[e])
    else if KERNEL_PGD <= e < KERNEL_PGD + |tables| then Entry(tables[e - KERNEL_PGD])
    else 0
  }

  /** No later table was put on the same page. */
  ghost predicate Kept(tables: seq<nat>, j: nat)
    requires j < |tables|
  {
    forall x :: j < x < |tables| ==> tables[x] != tables[j]
  }

  ghost predicate Built(m: Machine, tables: seq<nat>) {
    && FitsTogether(m) && DirOK(m.dir, tables) && m.phys == |tables| * TABLE_SPAN
    && (forall j :: 0 <= j < |tables| ==> tables[j] % PAGE_SIZE == 0 && tables[j] / 4 + ENTRIES <= |m.ram|)
    && (forall j :: 0 <= j < |tables| && Kept(tables, j) ==> TableOK(m.ram, tables[j], j))
  }

  lemma {:induction false} FillFills(ram: seq<nat>, table: nat, i: nat, j: nat, total: nat)
    requires j <= ENTRIES && table / 4 + ENTRIES <= |ram| && PageBase(i, ENTRIES) <= total
    ensures var (r, p) := Fill(ram, table, j, PageBase(i, j), total);
            && p == PageBase(i, ENTRIES)
            && (forall w :: 0 <= w < |ram| && !(table / 4 + j <= w < table / 4 + ENTRIES) ==> r[w] == ram[w])
            && (forall x: nat :: j <= x < ENTRIES ==> r[table / 4 + x] == Entry(PageBase(i, x)))
    decreases ENTRIES - j
  {
    hide Entry;
    if j == ENTRIES {
    } else {
      assert PageBase(i, j + 1) == PageBase(i, j) + PAGE_SIZE && PageBase(i, j) < PageBase(i, ENTRIES);
      FillFills(ram[table / 4 + j := Entry(PageBase(i, j))], table, i, j + 1, total);
    }
  }

  /** A turn of the loop adds one table; tables on other pages stay as they are. */
  lemma BuildStep(m: Machine, tables: seq<nat>)
    requires Built(m, tables) && KERNEL_PGD + |tables| < ENTRIES && (|tables| + 1) * ENTRIES <= |m.flags|
    ensures Built(MapTable(m, |tables|), tables + [GetFree(m.flags).1])
  {
    hide Entry, GetFree, Kept, Fill;
    var i := |tables|;
    var t := GetFree(m.flags).1;
    var r := MapTable(m, i);
    var all := tables + [t];
    FreePageInRam(m);
    FillFills(m.ram, t, i, 0, TotalRam(m));
    assert PageBase(i, 0) == m.phys && PageBase(i, ENTRIES) == (i + 1) * TABLE_SPAN;
    forall j | 0 <= j < |all| && Kept(all, j) ensures TableOK(r.ram, all[j], j) {
      if j < i {
        KeptEarlier(tables, t, j);
        TableStays(m.ram, r.ram, all[j], t, j);
      } else {
        assert TableOK(r.ram, t, i);
      }
    }
  }

  lemma KeptEarlier(tables: seq<nat>, t: nat, j: nat)
    requires j < |tables| && Kept(tables + [t], j)
    ensures Kept(tables, j) && tables[j] != t
  {
    var all := tables + [t];
    assert all[|tables|] == t;
    forall x | j < x < |tables| ensures tables[x] != tables[j] { assert all[x] == tables[x]; }
  }

  lemma TableStays(ram: seq<nat>, after: seq<nat>, u: nat, t: nat, j: nat)
    requires TableOK(ram, u, j) && u % PAGE_SIZE == 0 && t % PAGE_SIZE == 0 && u != t && |after| == |ram|
    requires forall w :: 0 <= w < |ram| && !(t / 4 <= w < t / 4 + ENTRIES) ==> after[w] == ram[w]
    ensures TableOK(after, u, j)
  {
    hide Entry, PageBase;
    assert u / 4 + ENTRIES <= t / 4 || t / 4 + ENTRIES <= u / 4;
  }

  lemma {:induction false} SetupBuilds(m: Machine, tables: seq<nat>, n: nat)
    requires Built(m, tables) && |tables| <= n && KERNEL_PGD + n <= ENTRIES && n * ENTRIES <= |m.flags|
    ensures Built(SetupFrom(m, |tables|, n), tables + Tables(m.flags, n - |tables|))
    decreases n - |tables|
  {
    hide Built, GetFree, MapTable;
    BuiltShape(m, tables);
    if |tables| == n {
      assert tables + [] == tables;
    } else {
      var t := GetFree(m.flags).1;
      BuildStep(m, tables);
      var m1 := MapTable(m, |tables|);
      SetupBuilds(m1, tables + [t], n);
      assert tables + [t] + Tables(m1.flags, n - |tables| - 1) == tables + Tables(m.flags, n - |tables|);
    }
  }

  lemma BuiltShape(m: Machine, tables: seq<nat>)
    requires Built(m, tables)
    ensures FitsTogether(m)
  {
  }

  // ----- the walk

  /** Where an address leads, and the rights in the directory entry and in the table entry on the way. */
  datatype Mapping = Mapping(pa: nat, dirRights: Rights, pageRights: Rights)

  /** The 32-bit page walk: section 4.3 of volume 3A of the Intel 64 and IA-32 Architectures
      Software Developer's Manual. Words outside memory read as not present. */
  function Walk(dir: seq<nat>, ram: seq<nat>, va: nat): Option<Mapping>
    requires |dir| == ENTRIES && va < WORD
  {
    var pde := dir[va / TABLE_SPAN];
    var at := FrameOf(pde) / 4 + va / PAGE_SIZE % ENTRIES;
    if !Present(pde) || at >= |ram| || !Present(ram[at]) then None
    else Some(Mapping(FrameOf(ram[at]) + va % PAGE_SIZE, RightsOf(pde), RightsOf(ram[at])))
  }

  /** What `__pa` says for an address in the low or in the kernel map, open to stores from the kernel
      alone at both levels, and nothing elsewhere. */
  function Expected(n: nat, va: nat): Option<Mapping> {
    if Pa(va) < n * TABLE_SPAN then Some(ToKernelData(Pa(va))) else None
  }

  function ToKernelData(pa: nat): Mapping { Mapping(pa, KERNEL_DATA, KERNEL_DATA) }

  /** The stretch an address lies in, counted from the start of its half. */
  function Stretch(va: nat): nat { Pa(va) / TABLE_SPAN }

  /** The walk through one directory and one table entry. */
  lemma WalkThrough(dir: seq<nat>, ram: seq<nat>, va: nat, table: nat, k: nat)
    requires |dir| == ENTRIES && va < WORD && dir[va / TABLE_SPAN] == Entry(table) && table % PAGE_SIZE == 0
    requires table / 4 + ENTRIES <= |ram| && table < WORD && k < KERNEL_PGD
    requires var x := va / PAGE_SIZE % ENTRIES; ram[table / 4 + x] == Entry(PageBase(k, x))
    ensures Walk(dir, ram, va) == Some(ToKernelData(k * TABLE_SPAN + Pa(va) % TABLE_SPAN))
  {
    hide Entry, Present, FrameOf, RightsOf;
    var x := va / PAGE_SIZE % ENTRIES;
    assert table == table / PAGE_SIZE * PAGE_SIZE;
    EntryDecodes(table / PAGE_SIZE);
    EntryDecodes(k * ENTRIES + x);
    OffsetParts(va);
  }

  lemma OffsetParts(va: nat)
    requires va < WORD
    ensures Pa(va) % TABLE_SPAN == va / PAGE_SIZE % ENTRIES * PAGE_SIZE + va % PAGE_SIZE
  {
  }

  lemma TableEntry(ram: seq<nat>, table: nat, j: nat, x: nat)
    requires TableOK(ram, table, j) && x < ENTRIES
    ensures table / 4 + ENTRIES <= |ram| && ram[table / 4 + x] == Entry(PageBase(j, x))
  {
    hide Entry, PageBase;
  }

  lemma KeptInNoDup(tables: seq<nat>, j: nat)
    requires j < |tables| && NoDup(tables)
    ensures Kept(tables, j)
  {
  }

  /** With every table on its own page the walk agrees with `__pa` on all addresses. */
  lemma WalkIsPa(m: Machine, tables: seq<nat>, va: nat)
    requires Built(m, tables) && NoDup(tables) && |m.ram| * 4 <= WORD && va < WORD
    ensures Walk(m.dir, m.ram, va) == Expected(|tables|, va)
  {
    hide Entry, Present, FrameOf, Walk, NoDup, Kept, TableOK;
    assert m.dir[va / TABLE_SPAN] == DirEntry(tables, va / TABLE_SPAN);
    var j := Stretch(va);
    if j < |tables| {
      KeptInNoDup(tables, j);
      TableEntry(m.ram, tables[j], j, va / PAGE_SIZE % ENTRIES);
      WalkThrough(m.dir, m.ram, va, tables[j], j);
    } else {
      WalkStops(m.dir, m.ram, va);
    }
  }

  lemma WalkStops(dir: seq<nat>, ram: seq<nat>, va: nat)
    requires |dir| == ENTRIES && va < WORD && dir[va / TABLE_SPAN] == 0
    ensures Walk(dir, ram, va) == None
  {
    LowBit(0);
  }

  /** The last table on the same page. */
  lemma LastTable(tables: seq<nat>, k: nat) returns (r: nat)
    requires k < |tables|
    ensures k <= r < |tables| && tables[r] == tables[k] && Kept(tables, r)
    decreases |tables| - k
  {
    r := k;
    if x :| k < x < |tables| && tables[x] == tables[k] { r := LastTable(tables, x); }
  }

  /** Two tables on one page: the first one's stretch is sent to the memory of the last. */
  lemma SharedTableMisleads(m: Machine, tables: seq<nat>, i: nat, j: nat)
    requires Built(m, tables) && |m.ram| * 4 <= WORD && i < j < |tables| && tables[i] == tables[j]
    ensures i * TABLE_SPAN < WORD && Walk(m.dir, m.ram, i * TABLE_SPAN) != Expected(|tables|, i * TABLE_SPAN)
  {
    hide Entry, Present, FrameOf, Walk, Kept, TableOK;
    var k := LastTable(tables, j);
    var va := i * TABLE_SPAN;
    assert va / TABLE_SPAN == i;
    assert m.dir[i] == DirEntry(tables, i);
    TableEntry(m.ram, tables[k], k, va / PAGE_SIZE % ENTRIES);
    WalkThrough(m.dir, m.ram, va, tables[k], k);
  }

  /** `count_pgdir_entries`, in 32-bit arithmetic */
  function CountEntries(present: nat): nat { present * PAGE_SIZE % WORD / (PAGE_SIZE * ENTRIES) }

  lemma EntriesRoundDown(present: nat)
    requires present < WORD / PAGE_SIZE
    ensures CountEntries(present) == present / ENTRIES
  {
  }

  ghost predicate WalksAsExpected(m: Machine, n: nat)
    requires |m.dir| == ENTRIES
  {
    forall va: nat :: va < WORD ==> Walk(m.dir, m.ram, va) == Expected(n, va)
  }

  /** What `init_mem` hands over: a directory of zeros and at most a gigabyte to map. */
  ghost predicate CanSetup(m: Machine) {
    && FitsTogether(m) && |m.flags| < WORD / PAGE_SIZE && KERNEL_PGD + CountEntries(|m.flags|) <= ENTRIES
    && forall e :: 0 <= e < ENTRIES ==> m.dir[e] == 0
  }

  lemma NothingBuilt(m: Machine)
    requires FitsTogether(m) && forall e :: 0 <= e < ENTRIES ==> m.dir[e] == 0
    ensures Built(m.(phys := 0), [])
  {
  }

  /** The tables built translate every virtual address as `__pa` does, writable and for the kernel
      only, and leave every other address unmapped, exactly when there were enough free pages for
      them. */
  lemma TablesRefinePaExactly(m: Machine)
    requires CanSetup(m)
    ensures var n := CountEntries(|m.flags|);
            WalksAsExpected(Setup(m, n), n) <==> Enough(m.flags, n)
  {
    hide Built, Walk, Expected, CountFree, GetFree, NoDup;
    var n := CountEntries(|m.flags|);
    EntriesRoundDown(|m.flags|);
    NothingBuilt(m);
    SetupBuilds(m.(phys := 0), [], n);
    var r := Setup(m, n);
    var tables := Tables(m.flags, n);
    assert [] + tables == tables;
    if n > 0 { TablesDistinctExactly(m.flags, n); } else { EmptyNoDup(tables); }
    if NoDup(tables) {
      forall va: nat | va < WORD ensures Walk(r.dir, r.ram, va) == Expected(n, va) { WalkIsPa(r, tables, va); }
    } else {
      var i, j := TwoAlike(tables);
      SharedTableMisleads(r, tables, i, j);
    }
  }

  lemma EmptyNoDup(s: seq<nat>)
    requires |s| == 0
    ensures NoDup(s)
  {
  }

  lemma TwoAlike(s: seq<nat>) returns (i: nat, j: nat)
    requires !NoDup(s)
    ensures i < j < |s| && s[i] == s[j]
  {
    i, j :| 0 <= i < j < |s| && s[i] == s[j];
  }

  /** The count rounds down: every page of the zone is in the kernel map exactly when their number
      is a multiple of 1024. */
  lemma AllPagesMappedExactly(present: nat)
    requires present <= DIRECT_PAGES
    ensures (forall p: nat :: p < present ==>
               Expected(CountEntries(present), PageAddress(p)) == Some(ToKernelData(p * PAGE_SIZE)))
            <==> present % ENTRIES == 0
  {
    hide Expected;
    EntriesRoundDown(present);
    if present % ENTRIES == 0 {
      forall p: nat | p < present
        ensures Expected(CountEntries(present), PageAddress(p)) == Some(ToKernelData(p * PAGE_SIZE))
      {
        PageMapped(present, p);
      }
    } else {
      PageMapped(present, present - 1);
    }
  }

  lemma PageMapped(present: nat, p: nat)
    requires p < present <= DIRECT_PAGES
    ensures Expected(CountEntries(present), PageAddress(p)) ==
            if p < present / ENTRIES * ENTRIES then Some(ToKernelData(p * PAGE_SIZE)) else None
  {
    EntriesRoundDown(present);
    PageOfAddress(p, 0);
  }

  // ----- what else changes

  /** The pages of the tables become TAKEN and nothing else of the flags changes; memory changes
      on those pages only. */
  ghost predicate OnlyTables(m: Machine, r: Machine, tables: seq<nat>) {
    && |r.flags| == |m.flags| && |r.ram| == |m.ram|
    && (forall q :: 0 <= q < |m.flags| ==>
          r.flags[q] == if PageBase(0, q) in tables then m.flags[q].(taken := true) else m.flags[q])
    && (forall w :: 0 <= w < |m.ram| && PageBase(0, w / ENTRIES) !in tables ==> r.ram[w] == m.ram[w])
  }

  lemma WordElsewhere(table: nat, j: nat, w: nat)
    requires j < ENTRIES && table % PAGE_SIZE == 0 && PageBase(0, w / ENTRIES) != table
    ensures table / 4 + j != w
  {
    var t := table / PAGE_SIZE;
    assert table == t * PAGE_SIZE && table / 4 == t * ENTRIES;
  }

  lemma {:induction false} FillFrame(ram: seq<nat>, table: nat, j: nat, phys: nat, total: nat, w: nat)
    requires j <= ENTRIES && (phys < total ==> table / 4 + ENTRIES <= |ram|) && w < |ram|
    requires table % PAGE_SIZE == 0 && PageBase(0, w / ENTRIES) != table
    ensures Fill(ram, table, j, phys, total).0[w] == ram[w]
    decreases ENTRIES - j
  {
    hide Entry, PageBase;
    if phys < total && j < ENTRIES {
      WordElsewhere(table, j, w);
      FillFrame(ram[table / 4 + j := Entry(phys)], table, j + 1, phys + PAGE_SIZE, total, w);
    } else {
    }
  }

  lemma MapTableFrame(m: Machine, i: nat)
    requires FitsTogether(m) && KERNEL_PGD + i < ENTRIES
    ensures OnlyTables(m, MapTable(m, i), [GetFree(m.flags).1])
  {
    hide Entry, Fill;
    var t := GetFree(m.flags).1;
    var r := MapTable(m, i);
    FreePageInRam(m);
    forall w | 0 <= w < |m.ram| && PageBase(0, w / ENTRIES) !in [t] ensures r.ram[w] == m.ram[w] {
      FillFrame(m.ram, t, 0, m.phys, TotalRam(m), w);
    }
  }

  lemma OnlyTablesTrans(m: Machine, m1: Machine, r: Machine, a: seq<nat>, b: seq<nat>)
    requires OnlyTables(m, m1, a) && OnlyTables(m1, r, b)
    ensures OnlyTables(m, r, a + b)
  {
    hide PageBase;
  }

  lemma {:induction false} SetupFrame(m: Machine, i: nat, n: nat)
    requires FitsTogether(m) && KERNEL_PGD + n <= ENTRIES && i <= n
    ensures OnlyTables(m, SetupFrom(m, i, n), Tables(m.flags, n - i))
    decreases n - i
  {
    hide MapTable, GetFree, OnlyTables;
    if i == n { NothingChanged(m); }
    else {
      var m1 := MapTable(m, i);
      MapTableFrame(m, i);
      SetupFrame(m1, i + 1, n);
      OnlyTablesTrans(m, m1, SetupFrom(m1, i + 1, n), [GetFree(m.flags).1], Tables(m1.flags, n - i - 1));
    }
  }

  lemma NothingChanged(m: Machine)
    ensures OnlyTables(m, m, [])
  {
  }

  /** With a free page for every table, exactly the pages of the tables, all free before, become
      TAKEN, and no other page's flags or contents change. */
  lemma SetupTakesTables(m: Machine, n: nat, q: nat)
    requires FitsTogether(m) && KERNEL_PGD + n <= ENTRIES && n <= CountFree(m.flags) && q < |m.flags|
    ensures var r := Setup(m, n);
            && |r.flags| == |m.flags|
            && (PageBase(0, q) in Tables(m.flags, n) ==> !m.flags[q].taken && r.flags[q] == m.flags[q].(taken := true))
            && (PageBase(0, q) !in Tables(m.flags, n) ==>
                  && r.flags[q] == m.flags[q]
                  && forall x: nat :: x < ENTRIES ==> r.ram[WordAt(q, x)] == m.ram[WordAt(q, x)])
  {
    hide CountFree, GetFree, Tables, SetupFrom, PageBase, WordAt;
    SetupFrame(m.(phys := 0), 0, n);
    TableMembers(m.flags, n);
    PageOfBase(q);
    forall x: nat | x < ENTRIES ensures WordAt(q, x) < |m.ram| { WordInRange(m, q, x); }
  }

  lemma PageOfBase(q: nat)
    ensures PageBase(0, q) / PAGE_SIZE == q && (PageBase(0, q) == 0 <==> q == 0)
  {
  }

  lemma WordInRange(m: Machine, q: nat, x: nat)
    requires FitsTogether(m) && q < |m.flags| && x < ENTRIES
    ensures WordAt(q, x) < |m.ram|
  {
  }

  /** The index of word `x` of page `q`. */
  function WordAt(q: nat, x: nat): (w: nat)
    ensures x < ENTRIES ==> w / ENTRIES == q && w < (q + 1) * ENTRIES
  {
    q * ENTRIES + x
  }
}
