/** Sequences of distinct indices: positions, removal. */
module Sequences {

  predicate NoDup(s: seq<nat>) {
    forall i, j :: 0 <= i < j < |s| ==> s[i] != s[j]
  }

  function Remove(s: seq<nat>, p: nat): seq<nat> {
    if s == [] then [] else if s[0] == p then s[1..] else [s[0]] + Remove(s[1..], p)
  }

  /** The first position of `x`. */
  function Pos(s: seq<nat>, x: nat): (i: nat)
    requires x in s
    ensures i < |s| && s[i] == x
  {
    if s[0] == x then 0 else 1 + Pos(s[1..], x)
  }

  function Inserted(s: seq<nat>, i: nat, x: nat): seq<nat>
    requires i <= |s|
  {
    s[..i] + [x] + s[i..]
  }

  function Deleted(s: seq<nat>, i: nat): seq<nat>
    requires i < |s|
  {
    s[..i] + s[i + 1..]
  }

  lemma {:induction false} RemoveMembers(s: seq<nat>, p: nat)
    requires NoDup(s) && p in s
    ensures |Remove(s, p)| == |s| - 1
    ensures forall q :: q in Remove(s, p) <==> q in s && q != p
  {
    assert s == [s[0]] + s[1..];
    if s[0] == p {
    } else {
      RemoveMembers(s[1..], p);
    }
  }

  lemma {:induction false} RemoveKeepsNoDup(s: seq<nat>, p: nat)
    requires NoDup(s) && p in s
    ensures NoDup(Remove(s, p))
  {
    if s[0] == p {
    } else {
      RemoveMembers(s[1..], p);
      RemoveKeepsNoDup(s[1..], p);
      var t := Remove(s[1..], p);
      assert forall i :: 0 <= i < |t| ==> t[i] in s[1..];
    }
  }

  /** Removing an element is deleting its position. */
  lemma {:induction false} RemoveIsDeleted(s: seq<nat>, p: nat)
    requires p in s
    ensures Remove(s, p) == Deleted(s, Pos(s, p))
  {
    if s[0] == p {
    } else {
      RemoveIsDeleted(s[1..], p);
    }
  }

  lemma PosUnique(s: seq<nat>, i: nat)
    requires NoDup(s) && i < |s|
    ensures Pos(s, s[i]) == i
  {
  }
}
