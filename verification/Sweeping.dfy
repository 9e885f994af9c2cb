/** What erasing from a vector does while the loop index keeps advancing, as in `retireNode` of
    `hazarderas/hazarderas.hpp` and `emptyRetireList` of
    `intervalbasedrec/IntervalBasedReclamation.hpp`: after an erase the next node moves to the
    place of the erased one and is not looked at in this pass.  `removable[p]` is the verdict
    on the p-th node of the list before the pass. */
module Sweeping {

  type Node = nat

  /** A node is freed iff it is removable and its predecessor was not freed. */
  predicate FreedAt(removable: seq<bool>, p: nat)
    requires p < |removable|
  {
    removable[p] && (p == 0 || !FreedAt(removable, p - 1))
  }

  /** The survivors, and the victims, among the first p nodes. */
  function KeptTo(list: seq<Node>, removable: seq<bool>, p: nat): seq<Node>
    requires p <= |list| == |removable|
  {
    if p == 0 then []
    else KeptTo(list, removable, p - 1) + (if FreedAt(removable, p - 1) then [] else [list[p - 1]])
  }

  function FreedTo(list: seq<Node>, removable: seq<bool>, p: nat): seq<Node>
    requires p <= |list| == |removable|
  {
    if p == 0 then []
    else FreedTo(list, removable, p - 1) + (if FreedAt(removable, p - 1) then [list[p - 1]] else [])
  }

  function Kept(list: seq<Node>, removable: seq<bool>): seq<Node>
    requires |list| == |removable|
  {
    KeptTo(list, removable, |list|)
  }

  function Freed(list: seq<Node>, removable: seq<bool>): seq<Node>
    requires |list| == |removable|
  {
    FreedTo(list, removable, |list|)
  }

  function CountTo(removable: seq<bool>, p: nat): nat
    requires p <= |removable|
  {
    if p == 0 then 0 else CountTo(removable, p - 1) + (if removable[p - 1] then 1 else 0)
  }

  /** How many nodes are removable. */
  function Count(removable: seq<bool>): nat {
    CountTo(removable, |removable|)
  }

  lemma OneMore(list: seq<Node>, removable: seq<bool>, p: nat)
    requires 0 < p <= |list| == |removable|
    ensures FreedAt(removable, p - 1) ==>
              KeptTo(list, removable, p) == KeptTo(list, removable, p - 1)
              && FreedTo(list, removable, p) == FreedTo(list, removable, p - 1) + [list[p - 1]]
    ensures !FreedAt(removable, p - 1) ==>
              KeptTo(list, removable, p) == KeptTo(list, removable, p - 1) + [list[p - 1]]
              && FreedTo(list, removable, p) == FreedTo(list, removable, p - 1)
  {
  }

  lemma OneMoreElement(k: multiset<Node>, f: multiset<Node>, l: multiset<Node>, x: Node)
    requires k + f == l
    ensures (k + multiset{x}) + f == l + multiset{x} && k + (f + multiset{x}) == l + multiset{x}
  {
  }

  lemma {:induction false} ConservedTo(list: seq<Node>, removable: seq<bool>, p: nat)
    requires p <= |list| == |removable|
    ensures multiset(KeptTo(list, removable, p)) + multiset(FreedTo(list, removable, p)) == multiset(list[..p])
    ensures |KeptTo(list, removable, p)| + |FreedTo(list, removable, p)| == p
  {
    if p == 0 {
      assert list[..p] == [];
    } else {
      ConservedTo(list, removable, p - 1);
      OneMore(list, removable, p);
      var k, f, x := KeptTo(list, removable, p - 1), FreedTo(list, removable, p - 1), list[p - 1];
      assert list[..p] == list[..p - 1] + [x];
      hide KeptTo, FreedTo, FreedAt;
      OneMoreElement(multiset(k), multiset(f), multiset(list[..p - 1]), x);
    }
  }

  /** Nothing is lost and nothing is deleted twice: survivors and victims make up the list. */
  lemma Conserved(list: seq<Node>, removable: seq<bool>)
    requires |list| == |removable|
    ensures multiset(Kept(list, removable)) + multiset(Freed(list, removable)) == multiset(list)
    ensures |Kept(list, removable)| + |Freed(list, removable)| == |list|
  {
    assert list[..|list|] == list;
    ConservedTo(list, removable, |list|);
  }

  /** Where the i-th survivor stood before the pass. */
  ghost function Place(removable: seq<bool>, p: nat, i: nat): nat
    requires p <= |removable|
  {
    if p == 0 then 0
    else if FreedAt(removable, p - 1) then Place(removable, p - 1, i)
    else if i == p - 1 - CountFreed(removable, p - 1) then p - 1
    else Place(removable, p - 1, i)
  }

  ghost function CountFreed(removable: seq<bool>, p: nat): (c: nat)
    requires p <= |removable|
    ensures c <= p
  {
    if p == 0 then 0 else CountFreed(removable, p - 1) + (if FreedAt(removable, p - 1) then 1 else 0)
  }

  lemma {:induction false} PlacesTo(list: seq<Node>, removable: seq<bool>, p: nat)
    requires p <= |list| == |removable|
    ensures |KeptTo(list, removable, p)| == p - CountFreed(removable, p)
    ensures forall i | 0 <= i < |KeptTo(list, removable, p)| ::
              var q := Place(removable, p, i);
              q < p && KeptTo(list, removable, p)[i] == list[q] && !FreedAt(removable, q)
    ensures forall i, j | 0 <= i < j < |KeptTo(list, removable, p)| :: Place(removable, p, i) < Place(removable, p, j)
  {
    if p > 0 { PlacesTo(list, removable, p - 1); }
  }

  /** The survivors keep their order: the i-th stands for the place of an increasing sequence of
      places that were not freed. */
  lemma OrderKept(list: seq<Node>, removable: seq<bool>)
    requires |list| == |removable|
    ensures forall i | 0 <= i < |Kept(list, removable)| ::
              var q := Place(removable, |list|, i);
              q < |list| && Kept(list, removable)[i] == list[q] && !FreedAt(removable, q)
    ensures forall i, j | 0 <= i < j < |Kept(list, removable)| :: Place(removable, |list|, i) < Place(removable, |list|, j)
  {
    PlacesTo(list, removable, |list|);
  }

  lemma {:induction false} HalfTo(list: seq<Node>, removable: seq<bool>, p: nat)
    requires p <= |list| == |removable|
    ensures |FreedTo(list, removable, p)| <= CountTo(removable, p)
    ensures 2 * |FreedTo(list, removable, p)| >=
              CountTo(removable, p) + (if p > 0 && FreedAt(removable, p - 1) then 1 else 0)
  {
    if p > 0 { HalfTo(list, removable, p - 1); }
  }

  /** A pass frees at least half of the removable nodes, and no others. */
  lemma FreesHalf(list: seq<Node>, removable: seq<bool>)
    requires |list| == |removable|
    ensures Count(removable) <= 2 * |Freed(list, removable)|
    ensures |Freed(list, removable)| <= Count(removable)
  {
    HalfTo(list, removable, |list|);
  }

  /** The bound is met: when all nodes are removable, every second one is freed. */
  lemma {:induction false} AllRemovable(list: seq<Node>, removable: seq<bool>, p: nat)
    requires p <= |list| == |removable| && forall q | 0 <= q < |removable| :: removable[q]
    ensures |KeptTo(list, removable, p)| == p / 2
    ensures forall q | 0 <= q < p :: FreedAt(removable, q) <==> q % 2 == 0
  {
    if p > 0 { AllRemovable(list, removable, p - 1); }
  }

  /** Which ones they are. */
  lemma {:induction false} EverySecond(list: seq<Node>, removable: seq<bool>, p: nat)
    requires p <= |list| == |removable| && forall q | 0 <= q < |removable| :: removable[q]
    ensures |KeptTo(list, removable, p)| == p / 2 && |FreedTo(list, removable, p)| == p - p / 2
    ensures forall q | 0 <= q < p / 2 :: KeptTo(list, removable, p)[q] == list[2 * q + 1]
    ensures forall q | 0 <= q < p - p / 2 :: FreedTo(list, removable, p)[q] == list[2 * q]
  {
    if p > 0 {
      EverySecond(list, removable, p - 1);
      AllRemovable(list, removable, p);
      assert FreedAt(removable, p - 1) <==> (p - 1) % 2 == 0;
      OneMore(list, removable, p);
      hide KeptTo, FreedTo, FreedAt;
    }
  }

  /** What is freed was removable. */
  lemma {:induction false} FreedWereRemovable(list: seq<Node>, removable: seq<bool>, p: nat)
    requires p <= |list| == |removable|
    ensures forall n | n in FreedTo(list, removable, p) :: exists q | 0 <= q < p :: list[q] == n && removable[q]
    ensures p == |list| ==> forall n | n in Freed(list, removable) :: exists q | 0 <= q < |list| :: list[q] == n && removable[q]
  {
    if p > 0 { FreedWereRemovable(list, removable, p - 1); }
  }

  lemma {:induction false} UnremovableAreKept(list: seq<Node>, removable: seq<bool>, p: nat)
    requires p <= |list| == |removable|
    ensures forall q | 0 <= q < p && !removable[q] :: list[q] in KeptTo(list, removable, p)
    ensures p == |list| ==> forall q | 0 <= q < |list| && !removable[q] :: list[q] in Kept(list, removable)
  {
    if p > 0 { UnremovableAreKept(list, removable, p - 1); }
  }

  /** The front is looked at by every pass. */
  lemma {:induction false} FrontIsFreed(list: seq<Node>, removable: seq<bool>, p: nat)
    requires 0 < p <= |list| == |removable| && removable[0]
    ensures |FreedTo(list, removable, p)| > 0 && FreedTo(list, removable, p)[0] == list[0]
    ensures p == |list| ==> |Freed(list, removable)| > 0 && Freed(list, removable)[0] == list[0]
  {
    if p > 1 { FrontIsFreed(list, removable, p - 1); }
  }

  // ---------------------------------------------------------------- the loop

  /** The vector when the loop is about to look at the node that was at place p. */
  ghost predicate AtPlace(list: seq<Node>, removable: seq<bool>, p: nat, cur: seq<Node>, i: nat) {
    && p <= |list| == |removable|
    && cur == KeptTo(list, removable, p) + list[p..]
    && (if p < |list| then i == |KeptTo(list, removable, p)| && (p > 0 ==> !FreedAt(removable, p - 1)) else i >= |cur|)
  }

  lemma Starts(list: seq<Node>, removable: seq<bool>)
    requires |list| == |removable|
    ensures AtPlace(list, removable, 0, list, 0)
  {
  }

  lemma NodeAtPlace(list: seq<Node>, removable: seq<bool>, p: nat, cur: seq<Node>, i: nat)
    requires AtPlace(list, removable, p, cur, i) && i < |cur|
    ensures p < |list| && cur[i] == list[p]
  {
  }

  /** Where the loop looks next. */
  function NextPlace(n: nat, p: nat, freed: bool): nat {
    if freed && p + 2 <= n then p + 2 else p + 1
  }

  /** Dropping the first of the nodes that are still to be looked at, and stepping over the next. */
  lemma DropOne(k: seq<Node>, rest: seq<Node>, i: nat)
    requires i == |k| && |rest| > 0
    ensures (k + rest)[..i] + (k + rest)[i + 1..] == k + rest[1..]
    ensures |rest| > 1 ==> k + rest[1..] == (k + [rest[1]]) + rest[2..]
  {
  }

  lemma KeptAfterErase(list: seq<Node>, removable: seq<bool>, p: nat)
    requires p < |list| == |removable| && removable[p] && (p > 0 ==> !FreedAt(removable, p - 1))
    ensures FreedAt(removable, p)
    ensures KeptTo(list, removable, p + 1) == KeptTo(list, removable, p)
    ensures FreedTo(list, removable, p + 1) == FreedTo(list, removable, p) + [list[p]]
    ensures p + 1 < |list| ==>
              && !FreedAt(removable, p + 1)
              && KeptTo(list, removable, p + 2) == KeptTo(list, removable, p) + [list[p + 1]]
              && FreedTo(list, removable, p + 2) == FreedTo(list, removable, p + 1)
  {
    OneMore(list, removable, p + 1);
    if p + 1 < |list| { OneMore(list, removable, p + 2); }
  }

  lemma Erases(list: seq<Node>, removable: seq<bool>, p: nat, cur: seq<Node>, i: nat)
    requires AtPlace(list, removable, p, cur, i) && i < |cur| && p < |list| && removable[p]
    ensures AtPlace(list, removable, NextPlace(|list|, p, true), cur[..i] + cur[i + 1..], i + 1)
    ensures FreedTo(list, removable, NextPlace(|list|, p, true)) == FreedTo(list, removable, p) + [list[p]]
  {
    hide KeptTo, FreedTo, FreedAt;
    KeptAfterErase(list, removable, p);
    DropOne(KeptTo(list, removable, p), list[p..], i);
    assert list[p..][1..] == list[p + 1..] && (p + 1 < |list| ==> list[p..][2..] == list[p + 2..]);
  }

  lemma Passes(list: seq<Node>, removable: seq<bool>, p: nat, cur: seq<Node>, i: nat)
    requires AtPlace(list, removable, p, cur, i) && i < |cur| && p < |list| && !removable[p]
    ensures AtPlace(list, removable, p + 1, cur, i + 1)
    ensures FreedTo(list, removable, p + 1) == FreedTo(list, removable, p)
  {
    var k := KeptTo(list, removable, p);
    assert list[p..] == [list[p]] + list[p + 1..];
    assert k + list[p..] == (k + [list[p]]) + list[p + 1..];
  }

  lemma Ends(list: seq<Node>, removable: seq<bool>, p: nat, cur: seq<Node>, i: nat)
    requires AtPlace(list, removable, p, cur, i) && i >= |cur|
    ensures p == |list| && cur == Kept(list, removable)
  {
  }

  /** The loop of a pass before it looks at the node that was at place p. */
  ghost predicate InSweep(list: seq<Node>, v: seq<bool>, p: nat, cur: seq<Node>, i: nat, gone: seq<Node>) {
    AtPlace(list, v, p, cur, i) && gone == FreedTo(list, v, p)
  }

  lemma SweepStarts(list: seq<Node>, v: seq<bool>)
    requires |list| == |v|
    ensures InSweep(list, v, 0, list, 0, [])
  {
    Starts(list, v);
  }

  lemma SweepGoesOn(list: seq<Node>, v: seq<bool>, p: nat, cur: seq<Node>, i: nat, gone: seq<Node>)
    requires InSweep(list, v, p, cur, i, gone) && i < |cur|
    ensures p < |list| == |v| && cur[i] == list[p]
    ensures v[p] ==> InSweep(list, v, NextPlace(|list|, p, true), cur[..i] + cur[i + 1..], i + 1, gone + [cur[i]])
    ensures !v[p] ==> InSweep(list, v, p + 1, cur, i + 1, gone)
  {
    NodeAtPlace(list, v, p, cur, i);
    if v[p] { Erases(list, v, p, cur, i); } else { Passes(list, v, p, cur, i); }
    hide KeptTo, FreedTo, FreedAt, AtPlace;
  }

  lemma SweepEnds(list: seq<Node>, v: seq<bool>, p: nat, cur: seq<Node>, i: nat, gone: seq<Node>)
    requires InSweep(list, v, p, cur, i, gone) && i >= |cur|
    ensures |list| == |v| && cur == Kept(list, v) && gone == Freed(list, v)
  {
    Ends(list, v, p, cur, i);
  }

  /** A pass adds nothing. */
  lemma {:induction false} KeptAreOld(list: seq<Node>, removable: seq<bool>, p: nat)
    requires p <= |list| == |removable|
    ensures forall n | n in KeptTo(list, removable, p) :: n in list
  {
    if p > 0 { KeptAreOld(list, removable, p - 1); }
  }

  /** What a pass has done up to a place does not depend on the verdicts from there on. */
  lemma {:induction false} SameSoFar(list: seq<Node>, v: seq<bool>, w: seq<bool>, p: nat)
    requires p <= |list| == |v| == |w| && forall q | 0 <= q < p :: v[q] == w[q]
    ensures KeptTo(list, v, p) == KeptTo(list, w, p) && FreedTo(list, v, p) == FreedTo(list, w, p)
    ensures forall q | 0 <= q < p :: FreedAt(v, q) == FreedAt(w, q)
  {
    if p > 0 { SameSoFar(list, v, w, p - 1); }
  }
}
