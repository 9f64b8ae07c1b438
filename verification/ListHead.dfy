/** The intrusive circular list at the level of its link words, refined to sequences. */
module ListHead {
  import opened Sequences

  /** What a link word holds: NULL, the address of a list node, or the address of something else
      that shares the word. */
  datatype Word = Null | Node(n: nat) | Address(a: nat)

  /** `struct list_head`. The nodes of all lists lie in one memory and are named by their index. */
  datatype Links = Links(next: Word, prev: Word)

  const NO_LINKS := Links(Null, Null)

  // ----- rings

  /** The words of the `i`-th node of a ring. */
  function MemberWords(head: nat, s: seq<nat>, i: nat): Links
    requires i < |s|
  {
    Links(Node(if i + 1 < |s| then s[i + 1] else head), Node(if i > 0 then s[i - 1] else head))
  }

  function HeadWords(head: nat, s: seq<nat>): Links {
    if s == [] then Links(Node(head), Node(head)) else Links(Node(s[0]), Node(s[|s| - 1]))
  }

  /** `head` anchors a well-formed ring through the nodes `s`, in this order. */
  ghost predicate Ring(mem: seq<Links>, head: nat, s: seq<nat>) {
    && NoDup(s) && head !in s && head < |mem| && mem[head] == HeadWords(head, s)
    && forall i :: 0 <= i < |s| ==> s[i] < |mem| && mem[s[i]] == MemberWords(head, s, i)
  }

  /** Only nodes of `touched` may differ. */
  ghost predicate OnlyTouches(before: seq<Links>, after: seq<Links>, touched: set<nat>) {
    |after| == |before| && forall n :: 0 <= n < |before| && n !in touched ==> after[n] == before[n]
  }

  /** The ring has no node in `touched`. */
  ghost predicate Avoids(head: nat, s: seq<nat>, touched: set<nat>) {
    head !in touched && forall x :: x in s ==> x !in touched
  }

  /** Every ring without a node in `touched` is as it was. */
  ghost predicate OtherRingsStay(before: seq<Links>, after: seq<Links>, touched: set<nat>) {
    forall g: nat, t: seq<nat> :: Ring(before, g, t) && Avoids(g, t, touched) ==> Ring(after, g, t)
  }

  lemma RingStays(before: seq<Links>, after: seq<Links>, touched: set<nat>, g: nat, t: seq<nat>)
    requires OnlyTouches(before, after, touched) && Ring(before, g, t) && Avoids(g, t, touched)
    ensures Ring(after, g, t)
  {
    hide MemberWords, HeadWords, NoDup;
    assert forall i :: 0 <= i < |t| ==> t[i] in t;
  }

  lemma UntouchedRingsStay(before: seq<Links>, after: seq<Links>, touched: set<nat>)
    requires OnlyTouches(before, after, touched)
    ensures OtherRingsStay(before, after, touched)
  {
    hide Ring, Avoids;
    forall g: nat, t: seq<nat> | Ring(before, g, t) && Avoids(g, t, touched) ensures Ring(after, g, t) {
      RingStays(before, after, touched, g, t);
    }
  }

  /** All nodes of a ring. */
  function NodesOf(head: nat, s: seq<nat>): set<nat> { {head} + set x | x in s }

  // ----- the operations

  /** `INIT_LIST_HEAD` */
  method InitListHead(mem: array<Links>, list: nat)
    requires list < mem.Length
    modifies mem
    ensures Ring(mem[..], list, []) && OnlyTouches(old(mem[..]), mem[..], {list})
  {
    mem[list] := mem[list].(next := Node(list));
    mem[list] := mem[list].(prev := Node(list));
  }

  /** `INIT_LIST_NULL` */
  method InitListNull(mem: array<Links>, node: nat)
    requires node < mem.Length
    modifies mem
    ensures mem[..] == old(mem[..])[node := NO_LINKS]
  {
    mem[node] := mem[node].(next := Null);
    mem[node] := mem[node].(prev := Null);
  }

  /** The node before and the node at position `i` of a ring, the head at both ends. */
  function Before(head: nat, s: seq<nat>, i: nat): nat
    requires i <= |s|
  {
    if i == 0 then head else s[i - 1]
  }

  function At(head: nat, s: seq<nat>, i: nat): nat
    requires i <= |s|
  {
    if i == |s| then head else s[i]
  }

  /** `generic_add`: link `mid` between the neighbours `beg` and `end`, which may be the same node.
      On a ring this inserts at position `i`. */
  method GenericAdd(mem: array<Links>, beg: nat, mid: nat, end: nat, ghost head: nat, ghost s: seq<nat>, ghost i: nat)
    requires Ring(mem[..], head, s) && i <= |s| && mid < mem.Length && mid != head && mid !in s
    requires beg == Before(head, s, i) && end == At(head, s, i)
    modifies mem
    ensures Ring(mem[..], head, Inserted(s, i, mid))
    ensures OnlyTouches(old(mem[..]), mem[..], {beg, mid, end})
  {
    ghost var m := mem[..];
    RingBounds(m, head, s, i);
    mem[mid] := mem[mid].(next := Node(end));
    mem[mid] := mem[mid].(prev := Node(beg));
    mem[beg] := mem[beg].(next := Node(mid));
    mem[end] := mem[end].(prev := Node(mid));
    InsertedRing(m, mem[..], head, s, i, mid);
  }

  lemma RingBounds(mem: seq<Links>, head: nat, s: seq<nat>, i: nat)
    requires Ring(mem, head, s) && i <= |s|
    ensures Before(head, s, i) < |mem| && At(head, s, i) < |mem|
  {
  }

  /** The words after the four stores of `generic_add`. */
  ghost predicate Spliced(m: seq<Links>, r: seq<Links>, beg: nat, mid: nat, end: nat) {
    && |r| == |m| && beg < |m| && mid < |m| && end < |m|
    && r[mid] == Links(Node(end), Node(beg))
    && r[beg] == Links(Node(mid), if beg == end then Node(mid) else m[beg].prev)
    && r[end] == Links(if beg == end then Node(mid) else m[end].next, Node(mid))
    && forall n :: 0 <= n < |m| && n != beg && n != mid && n != end ==> r[n] == m[n]
  }

  lemma InsertedNoDup(s: seq<nat>, i: nat, x: nat)
    requires NoDup(s) && i <= |s| && x !in s
    ensures NoDup(Inserted(s, i, x)) && forall y :: y in Inserted(s, i, x) <==> y in s || y == x
  {
    var t := Inserted(s, i, x);
    assert forall j :: 0 <= j < |t| ==> t[j] == if j < i then s[j] else if j == i then x else s[j - 1];
    forall y ensures y in t <==> y in s || y == x {
      if y in s { var j := Pos(s, y); assert t[if j < i then j else j + 1] == y; }
      assert t[i] == x;
    }
  }

  lemma InsertedAt(s: seq<nat>, i: nat, x: nat, j: nat)
    requires i <= |s| && j <= |s|
    ensures |Inserted(s, i, x)| == |s| + 1
    ensures Inserted(s, i, x)[j] == if j < i then s[j] else if j == i then x else s[j - 1]
  {
  }

  /** An old node of the ring after the splice. */
  lemma SplicedOld(m: seq<Links>, r: seq<Links>, head: nat, s: seq<nat>, i: nat, x: nat, j: nat)
    requires Ring(m, head, s) && i <= |s| && x !in s && j < |s|
    requires Spliced(m, r, Before(head, s, i), x, At(head, s, i))
    ensures s[j] < |r|
    ensures r[s[j]].next == if j + 1 == i then Node(x) else MemberWords(head, s, j).next
    ensures r[s[j]].prev == if j == i then Node(x) else MemberWords(head, s, j).prev
  {
    assert m[s[j]] == MemberWords(head, s, j) && s[j] != head;
    assert i < |s| && j != i ==> s[i] != s[j];
    assert i > 0 && j != i - 1 ==> s[i - 1] != s[j];
    assert 0 < i < |s| ==> s[i - 1] != s[i];
  }

  lemma RingHead(mem: seq<Links>, head: nat, s: seq<nat>)
    requires Ring(mem, head, s)
    ensures head < |mem| && mem[head] == HeadWords(head, s) && NoDup(s) && forall i :: 0 <= i < |s| ==> s[i] != head
  {
  }

  lemma SplicedHead(m: seq<Links>, r: seq<Links>, head: nat, s: seq<nat>, i: nat, x: nat)
    requires Ring(m, head, s) && i <= |s| && x !in s && x != head
    requires Spliced(m, r, Before(head, s, i), x, At(head, s, i))
    ensures r[head] == HeadWords(head, Inserted(s, i, x))
  {
    hide Inserted, NoDup, Ring;
    RingHead(m, head, s);
    InsertedAt(s, i, x, 0);
    InsertedAt(s, i, x, |s|);
  }

  lemma SplicedMember(m: seq<Links>, r: seq<Links>, head: nat, s: seq<nat>, i: nat, x: nat, j: nat)
    requires Ring(m, head, s) && i <= |s| && x != head && x !in s && j <= |s|
    requires Spliced(m, r, Before(head, s, i), x, At(head, s, i))
    ensures var t := Inserted(s, i, x); j < |t| && t[j] < |r| && r[t[j]] == MemberWords(head, t, j)
  {
    hide Inserted, NoDup, Ring;
    InsertedAt(s, i, x, j);
    if j > 0 { InsertedAt(s, i, x, j - 1); }
    if j < |s| { InsertedAt(s, i, x, j + 1); }
    if j < i { SplicedOld(m, r, head, s, i, x, j); }
    else if j > i { SplicedOld(m, r, head, s, i, x, j - 1); }
  }

  lemma InsertedRing(m: seq<Links>, r: seq<Links>, head: nat, s: seq<nat>, i: nat, x: nat)
    requires Ring(m, head, s) && i <= |s| && x != head && x !in s
    requires Spliced(m, r, Before(head, s, i), x, At(head, s, i))
    ensures Ring(r, head, Inserted(s, i, x))
  {
    hide NoDup, HeadWords, MemberWords, Inserted;
    InsertedAt(s, i, x, 0);
    InsertedNoDup(s, i, x);
    SplicedHead(m, r, head, s, i, x);
    forall j | 0 <= j <= |s|
      ensures Inserted(s, i, x)[j] < |r| && r[Inserted(s, i, x)[j]] == MemberWords(head, Inserted(s, i, x), j)
    {
      SplicedMember(m, r, head, s, i, x, j);
    }
  }

  /** `list_add` prepends. */
  method ListAdd(mem: array<Links>, head: nat, node: nat, ghost s: seq<nat>)
    requires Ring(mem[..], head, s) && node < mem.Length && node != head && node !in s
    modifies mem
    ensures Ring(mem[..], head, [node] + s)
    ensures OnlyTouches(old(mem[..]), mem[..], {head, node, At(head, s, 0)})
    ensures OtherRingsStay(old(mem[..]), mem[..], NodesOf(head, [node] + s))
  {
    hide MemberWords, NoDup, OtherRingsStay;
    GenericAdd(mem, head, node, mem[head].next.n, head, s, 0);
    assert Inserted(s, 0, node) == [node] + s;
    UntouchedRingsStay(old(mem[..]), mem[..], NodesOf(head, [node] + s));
  }

  /** `list_add_tail` appends. */
  method ListAddTail(mem: array<Links>, head: nat, node: nat, ghost s: seq<nat>)
    requires Ring(mem[..], head, s) && node < mem.Length && node != head && node !in s
    modifies mem
    ensures Ring(mem[..], head, s + [node])
    ensures OnlyTouches(old(mem[..]), mem[..], {head, node, Before(head, s, |s|)})
    ensures OtherRingsStay(old(mem[..]), mem[..], NodesOf(head, s + [node]))
  {
    hide MemberWords, NoDup, OtherRingsStay;
    GenericAdd(mem, mem[head].prev.n, node, head, head, s, |s|);
    assert Inserted(s, |s|, node) == s + [node];
    UntouchedRingsStay(old(mem[..]), mem[..], NodesOf(head, s + [node]));
  }

  /** `generic_del`: join the neighbours of `mid`. On a ring this removes position `i`. */
  method GenericDel(mem: array<Links>, mid: nat, ghost head: nat, ghost s: seq<nat>, ghost i: nat)
    requires Ring(mem[..], head, s) && i < |s| && mid == s[i]
    modifies mem
    ensures Ring(mem[..], head, Deleted(s, i)) && mem[mid] == old(mem[mid])
    ensures OnlyTouches(old(mem[..]), mem[..], {Before(head, s, i), At(head, s, i + 1)})
  {
    ghost var m := mem[..];
    assert mem[mid] == MemberWords(head, s, i);
    RingBounds(m, head, s, i);
    RingBounds(m, head, s, i + 1);
    var next, prev := mem[mid].next.n, mem[mid].prev.n;
    mem[next] := mem[next].(prev := Node(prev));
    mem[prev] := mem[prev].(next := Node(next));
    DeletedRing(m, mem[..], head, s, i);
    NeighboursDiffer(m, head, s, i);
  }

  lemma NeighboursDiffer(mem: seq<Links>, head: nat, s: seq<nat>, i: nat)
    requires Ring(mem, head, s) && i < |s|
    ensures Before(head, s, i) != s[i] && At(head, s, i + 1) != s[i] && s[i] != head
  {
    assert i > 0 ==> s[i - 1] != s[i];
    assert i + 1 < |s| ==> s[i] != s[i + 1];
    assert s[i] in s;
  }

  /** The words after the two stores of `generic_del`. */
  ghost predicate Joined(m: seq<Links>, r: seq<Links>, beg: nat, end: nat) {
    && |r| == |m| && beg < |m| && end < |m|
    && r[beg] == Links(Node(end), if beg == end then Node(beg) else m[beg].prev)
    && r[end] == Links(if beg == end then Node(end) else m[end].next, Node(beg))
    && forall n :: 0 <= n < |m| && n != beg && n != end ==> r[n] == m[n]
  }

  lemma DeletedAt(s: seq<nat>, i: nat, j: nat)
    requires i < |s| && j + 1 < |s|
    ensures |Deleted(s, i)| == |s| - 1 && Deleted(s, i)[j] == if j < i then s[j] else s[j + 1]
  {
  }

  lemma DeletedNoDup(s: seq<nat>, i: nat)
    requires NoDup(s) && i < |s|
    ensures NoDup(Deleted(s, i)) && forall y :: y in Deleted(s, i) <==> y in s && y != s[i]
  {
    var t := Deleted(s, i);
    assert forall j :: 0 <= j < |t| ==> t[j] == if j < i then s[j] else s[j + 1];
    forall y | y in s && y != s[i] ensures y in t {
      var j := Pos(s, y);
      assert t[if j < i then j else j - 1] == y;
    }
  }

  /** A node that stays on the ring after the join. */
  lemma JoinedOld(m: seq<Links>, r: seq<Links>, head: nat, s: seq<nat>, i: nat, j: nat)
    requires Ring(m, head, s) && i < |s| && j < |s| && j != i
    requires Joined(m, r, Before(head, s, i), At(head, s, i + 1))
    ensures s[j] < |r|
    ensures r[s[j]].next == if j + 1 == i then Node(At(head, s, i + 1)) else MemberWords(head, s, j).next
    ensures r[s[j]].prev == if j == i + 1 then Node(Before(head, s, i)) else MemberWords(head, s, j).prev
  {
    assert m[s[j]] == MemberWords(head, s, j) && s[j] in s;
    assert i > 0 && j != i - 1 ==> s[i - 1] != s[j];
    assert i + 1 < |s| && j != i + 1 ==> s[i + 1] != s[j];
    assert 0 < i && i + 1 < |s| ==> s[i - 1] != s[i + 1];
  }

  lemma JoinedHead(m: seq<Links>, r: seq<Links>, head: nat, s: seq<nat>, i: nat)
    requires Ring(m, head, s) && i < |s|
    requires Joined(m, r, Before(head, s, i), At(head, s, i + 1))
    ensures r[head] == HeadWords(head, Deleted(s, i))
  {
    hide Deleted, NoDup, Ring;
    RingHead(m, head, s);
    DeletedSize(s, i);
    if |s| > 1 {
      DeletedAt(s, i, 0);
      DeletedAt(s, i, |s| - 2);
    }
  }

  lemma DeletedSize(s: seq<nat>, i: nat)
    requires i < |s|
    ensures |Deleted(s, i)| == |s| - 1
  {
  }

  lemma JoinedMember(m: seq<Links>, r: seq<Links>, head: nat, s: seq<nat>, i: nat, j: nat)
    requires Ring(m, head, s) && i < |s| && j + 1 < |s| && Joined(m, r, Before(head, s, i), At(head, s, i + 1))
    ensures var t := Deleted(s, i); j < |t| && t[j] < |r| && r[t[j]] == MemberWords(head, t, j)
  {
    hide Deleted, NoDup, Ring, Joined;
    DeletedAt(s, i, j);
    if j > 0 { DeletedAt(s, i, j - 1); }
    if j + 2 < |s| { DeletedAt(s, i, j + 1); }
    JoinedOld(m, r, head, s, i, if j < i then j else j + 1);
  }

  lemma DeletedRing(m: seq<Links>, r: seq<Links>, head: nat, s: seq<nat>, i: nat)
    requires Ring(m, head, s) && i < |s| && Joined(m, r, Before(head, s, i), At(head, s, i + 1))
    ensures Ring(r, head, Deleted(s, i))
  {
    hide NoDup, HeadWords, MemberWords, Deleted;
    DeletedSize(s, i);
    DeletedNoDup(s, i);
    JoinedHead(m, r, head, s, i);
    forall j | 0 <= j < |s| - 1
      ensures Deleted(s, i)[j] < |r| && r[Deleted(s, i)[j]] == MemberWords(head, Deleted(s, i), j)
    {
      JoinedMember(m, r, head, s, i, j);
    }
  }

  /** `list_del` removes the node and clears its links. */
  method ListDel(mem: array<Links>, entry: nat, ghost head: nat, ghost s: seq<nat>, ghost i: nat)
    requires Ring(mem[..], head, s) && i < |s| && entry == s[i]
    modifies mem
    ensures Ring(mem[..], head, Deleted(s, i)) && entry < mem.Length && mem[entry] == NO_LINKS
    ensures OnlyTouches(old(mem[..]), mem[..], {Before(head, s, i), entry, At(head, s, i + 1)})
    ensures OtherRingsStay(old(mem[..]), mem[..], NodesOf(head, s))
  {
    hide MemberWords, HeadWords, NoDup, OtherRingsStay, Deleted;
    GenericDel(mem, entry, head, s, i);
    ghost var m := mem[..];
    InitListNull(mem, entry);
    LeaverIsOutside(old(mem[..]), head, s, i);
    RingStays(m, mem[..], {entry}, head, Deleted(s, i));
    UntouchedRingsStay(old(mem[..]), mem[..], NodesOf(head, s));
  }

  lemma LeaverIsOutside(mem: seq<Links>, head: nat, s: seq<nat>, i: nat)
    requires Ring(mem, head, s) && i < |s|
    ensures Avoids(head, Deleted(s, i), {s[i]})
  {
    DeletedNoDup(s, i);
    hide Deleted;
    assert s[i] in s;
  }

  /** `list_del_init` removes the node and leaves it a ring of its own. */
  method ListDelInit(mem: array<Links>, entry: nat, ghost head: nat, ghost s: seq<nat>, ghost i: nat)
    requires Ring(mem[..], head, s) && i < |s| && entry == s[i]
    modifies mem
    ensures Ring(mem[..], head, Deleted(s, i)) && Ring(mem[..], entry, [])
    ensures OnlyTouches(old(mem[..]), mem[..], {Before(head, s, i), entry, At(head, s, i + 1)})
    ensures OtherRingsStay(old(mem[..]), mem[..], NodesOf(head, s))
  {
    hide MemberWords, HeadWords, NoDup, OtherRingsStay, Deleted;
    GenericDel(mem, entry, head, s, i);
    ghost var m := mem[..];
    InitListHead(mem, entry);
    LeaverIsOutside(old(mem[..]), head, s, i);
    RingStays(m, mem[..], {entry}, head, Deleted(s, i));
    UntouchedRingsStay(old(mem[..]), mem[..], NodesOf(head, s));
  }

  /** `list_is_empty` */
  method ListIsEmpty(mem: array<Links>, head: nat, ghost s: seq<nat>) returns (empty: bool)
    requires Ring(mem[..], head, s)
    ensures empty <==> s == []
  {
    empty := mem[head].next == Node(head) && mem[head].prev == Node(head);
    assert s != [] ==> s[0] in s;
  }

  /** No node of `s` has any links left. */
  ghost predicate Cleared(mem: seq<Links>, s: seq<nat>) {
    forall x :: x in s ==> x < |mem| && mem[x] == NO_LINKS
  }

  /** The deleting traversal `list_for_each_del` with `list_del` as its body: it reads the next node
      before deleting, visits every node of the ring once and in order, and ends. */
  method DeleteAll(mem: array<Links>, head: nat, ghost s: seq<nat>) returns (ghost visited: seq<nat>)
    requires Ring(mem[..], head, s)
    modifies mem
    ensures Ring(mem[..], head, []) && visited == s && Cleared(mem[..], s)
    ensures OnlyTouches(old(mem[..]), mem[..], NodesOf(head, s))
    ensures OtherRingsStay(old(mem[..]), mem[..], NodesOf(head, s))
  {
    hide Ring, NoDup, OtherRingsStay, Deleted;
    FirstLinks(mem[..], head, s);
    var temp := mem[head].next.n;
    var save := mem[temp].next.n;
    ghost var n: nat := 0;
    visited := [];
    assert s[n..] == s;
    while temp != head
      invariant n <= |s| && Ring(mem[..], head, s[n..]) && visited == s[..n]
      invariant temp == At(head, s, n) && save == At(head, s, if n < |s| then n + 1 else n)
      invariant forall i :: 0 <= i < n ==> s[i] < mem.Length && mem[s[i]] == NO_LINKS
      invariant OnlyTouches(old(mem[..]), mem[..], NodesOf(head, s))
      decreases |s| - n
    {
      ghost var m := mem[..];
      ListDel(mem, temp, head, s[n..], 0);
      DeletedFirst(s, n);
      EarlierStay(m, mem[..], head, s, n);
      visited := visited + [temp];
      n := n + 1;
      FirstLinks(mem[..], head, s[n..]);
      temp := save;
      save := mem[save].next.n;
    }
    LoopEnds(head, s, n);
    assert s[n..] == [] && s[..n] == s;
    UntouchedRingsStay(old(mem[..]), mem[..], NodesOf(head, s));
  }

  lemma FirstLinks(mem: seq<Links>, head: nat, s: seq<nat>)
    requires Ring(mem, head, s)
    ensures head !in s && NoDup(s) && head < |mem| && mem[head].next == Node(At(head, s, 0)) && At(head, s, 0) < |mem|
    ensures s != [] ==> mem[s[0]].next == Node(At(head, s, 1))
  {
  }

  lemma LoopEnds(head: nat, s: seq<nat>, n: nat)
    requires n <= |s| && head !in s && At(head, s, n) == head
    ensures n == |s|
  {
  }

  lemma DeletedFirst(s: seq<nat>, n: nat)
    requires n < |s|
    ensures Deleted(s[n..], 0) == s[n + 1..]
  {
  }

  /** Deleting the first remaining node touches no node deleted before. */
  lemma EarlierStay(m: seq<Links>, r: seq<Links>, head: nat, s: seq<nat>, n: nat)
    requires n < |s| && NoDup(s) && head !in s
    requires OnlyTouches(m, r, {Before(head, s[n..], 0), s[n], At(head, s[n..], 1)})
    ensures forall i :: 0 <= i < n && s[i] < |m| ==> r[s[i]] == m[s[i]]
    ensures OnlyTouches(m, r, NodesOf(head, s))
  {
    forall i | 0 <= i < n && s[i] < |m| ensures r[s[i]] == m[s[i]] {
      assert s[i] in s && s[i] != s[n];
      assert n + 1 < |s| ==> s[i] != s[n + 1];
    }
    assert s[n] in s && (n + 1 < |s| ==> s[n + 1] in s);
  }
}
