/** `hazardpointer/hazardpointer.hpp` as the object it is: the hazard table, and for each thread
    a vector of retired nodes with a counter.  The methods are run by one thread at a time here;
    `Hazards` has the scan with other threads at work.

    The vector is scanned on every call, because the threshold of line 71 is 0 and no size is
    below it. */
module HazardPointers {
  import opened Sweeping
  import Hazards

  const NULL: Node := 0

  /** No even place up to p holds a published node. */
  predicate Clean(list: seq<Node>, published: set<Node>, p: nat) {
    forall q | 0 <= q <= p && q < |list| && q % 2 == 0 :: list[q] !in published
  }

  /** The verdict of the pass on each place of the list.  The flag `deleteNode` is set once
      before the loop, so that a published node also keeps everything after it. */
  function Verdicts(list: seq<Node>, published: set<Node>): (v: seq<bool>)
    ensures |v| == |list| && forall p | 0 <= p < |list| :: v[p] == Clean(list, published, p)
  {
    seq(|list|, p requires 0 <= p < |list| => Clean(list, published, p))
  }

  /** The loop of a pass before it looks at the node that was at place p: the vector is `cur`,
      the index i, `flag` is `deleteNode`, and `gone` has been deleted. */
  ghost predicate InPass(list: seq<Node>, published: set<Node>, p: nat, cur: seq<Node>, i: nat, flag: bool, gone: seq<Node>) {
    var v := Verdicts(list, published);
    && AtPlace(list, v, p, cur, i)
    && gone == FreedTo(list, v, p)
    && (flag <==> p == 0 || Clean(list, published, p - 1))
    && (flag && p < |list| ==> p % 2 == 0)
  }

  lemma PassStarts(list: seq<Node>, published: set<Node>)
    ensures InPass(list, published, 0, list, 0, true, [])
  {
    Starts(list, Verdicts(list, published));
  }

  lemma FlagGoesOn(list: seq<Node>, published: set<Node>, p: nat, flag: bool)
    requires p < |list| && (flag <==> p == 0 || Clean(list, published, p - 1)) && (flag ==> p % 2 == 0)
    ensures flag && list[p] !in published <==> Clean(list, published, p)
    ensures Clean(list, published, p) ==>
              Clean(list, published, NextPlace(|list|, p, true) - 1)
              && (NextPlace(|list|, p, true) < |list| ==> NextPlace(|list|, p, true) % 2 == 0)
  {
  }

  /** One turn of the loop, erasing or not. */
  lemma PassGoesOn(list: seq<Node>, published: set<Node>, p: nat, cur: seq<Node>, i: nat, flag: bool, gone: seq<Node>)
    requires InPass(list, published, p, cur, i, flag, gone) && i < |cur|
    ensures p < |list|
    ensures flag && cur[i] !in published ==>
              InPass(list, published, NextPlace(|list|, p, true), cur[..i] + cur[i + 1..], i + 1, true, gone + [cur[i]])
    ensures !(flag && cur[i] !in published) ==> InPass(list, published, p + 1, cur, i + 1, false, gone)
  {
    var v := Verdicts(list, published);
    NodeAtPlace(list, v, p, cur, i);
    FlagGoesOn(list, published, p, flag);
    assert v[p] == Clean(list, published, p) && |v| == |list|;
    hide KeptTo, FreedTo, FreedAt, AtPlace, Clean, Verdicts;
    if v[p] { Erases(list, v, p, cur, i); } else { Passes(list, v, p, cur, i); }
  }

  lemma PassEnds(list: seq<Node>, published: set<Node>, p: nat, cur: seq<Node>, i: nat, flag: bool, gone: seq<Node>)
    requires InPass(list, published, p, cur, i, flag, gone) && i >= |cur|
    ensures cur == Kept(list, Verdicts(list, published)) && gone == Freed(list, Verdicts(list, published))
  {
    Ends(list, Verdicts(list, published), p, cur, i);
  }

  /** A pass frees exactly the even places before the first even place with a published node. */
  lemma {:induction false} PassIsExact(list: seq<Node>, published: set<Node>, p: nat)
    requires p < |list|
    ensures FreedAt(Verdicts(list, published), p) <==>
              p % 2 == 0 && forall q | 0 <= q <= p && q % 2 == 0 :: list[q] !in published
  {
    if p > 0 { PassIsExact(list, published, p - 1); }
  }

  /** Nothing that is published is freed. */
  lemma {:induction false} FreedAreUnpublished(list: seq<Node>, published: set<Node>, p: nat)
    requires p <= |list|
    ensures forall n | n in FreedTo(list, Verdicts(list, published), p) :: n !in published
    ensures p == |list| ==> forall n | n in Freed(list, Verdicts(list, published)) :: n !in published
  {
    if p > 0 {
      FreedAreUnpublished(list, published, p - 1);
      PassIsExact(list, published, p - 1);
    }
  }

  lemma {:induction false} PublishedAreKept(list: seq<Node>, published: set<Node>, p: nat)
    requires p <= |list|
    ensures forall n | n in list[..p] && n in published :: n in KeptTo(list, Verdicts(list, published), p)
    ensures p == |list| ==> forall n | n in list && n in published :: n in Kept(list, Verdicts(list, published))
  {
    assert list[..|list|] == list;
    if p > 0 {
      PublishedAreKept(list, published, p - 1);
      PassIsExact(list, published, p - 1);
      assert list[..p] == list[..p - 1] + [list[p - 1]];
    }
  }

  class HazardPointers {
    const threadCount: nat
    const table: array2<Node>
    const retired: array<seq<Node>>
    const retiredCount: array<nat>
    ghost var deleted: seq<Node>       // in the order of deletion

    ghost predicate Valid()
      reads this, retired, retiredCount
    {
      && threadCount <= table.Length0 == retired.Length == retiredCount.Length
      && forall t | 0 <= t < retired.Length :: retiredCount[t] == |retired[t]|
    }

    /** The nodes in the slots that a pass reads. */
    ghost function Published(): set<Node>
      requires threadCount <= table.Length0
      reads table
    {
      set k, j | 0 <= k < threadCount && 0 <= j < table.Length1 :: table[k, j]
    }

    constructor (numThreads: nat, maxThreads: nat, slots: nat)
      requires numThreads <= maxThreads
      ensures Valid() && fresh(table) && fresh(retired) && fresh(retiredCount)
      ensures threadCount == numThreads && table.Length0 == maxThreads && table.Length1 == slots
      ensures forall k, j | 0 <= k < maxThreads && 0 <= j < slots :: table[k, j] == NULL
      ensures deleted == [] && forall t | 0 <= t < maxThreads :: retired[t] == []
    {
      threadCount := numThreads;
      table := new Node[maxThreads, slots]((k, j) => NULL);
      retired := new seq<Node>[maxThreads](t => []);
      retiredCount := new nat[maxThreads](t => 0);
      deleted := [];
    }

    method Clear(tid: nat)
      requires tid < table.Length0
      modifies table
      ensures forall k, j | 0 <= k < table.Length0 && 0 <= j < table.Length1 ::
                table[k, j] == if k == tid then NULL else old(table[k, j])
    {
      for i := 0 to table.Length1
        invariant forall k, j | 0 <= k < table.Length0 && 0 <= j < table.Length1 ::
                    table[k, j] == if k == tid && j < i then NULL else old(table[k, j])
      {
        table[tid, i] := NULL;
      }
    }

    method StoreHazardPtr(index: nat, ptr: Node, tid: nat) returns (r: Node)
      requires tid < table.Length0 && index < table.Length1
      modifies table
      ensures r == ptr
      ensures forall k, j | 0 <= k < table.Length0 && 0 <= j < table.Length1 ::
                table[k, j] == if k == tid && j == index then ptr else old(table[k, j])
    {
      table[tid, index] := ptr;
      r := ptr;
    }

    /** Lines 77-87: the flag after the table was compared with one node. */
    method ScanTable(node: Node, deleteNode: bool) returns (still: bool)
      requires threadCount <= table.Length0
      ensures still <==> deleteNode && node !in Published()
      ensures still <==> deleteNode && forall k, j | 0 <= k < threadCount && 0 <= j < table.Length1 :: table[k, j] != node
    {
      still := deleteNode;
      for k := 0 to threadCount
        invariant still <==> deleteNode && forall x, j | 0 <= x < k && 0 <= j < table.Length1 :: table[x, j] != node
      {
        var j := 0;
        while j < table.Length1
          invariant 0 <= j <= table.Length1
          invariant still <==> deleteNode && forall x, y | 0 <= x <= k && 0 <= y < table.Length1 && (x < k || y < j) :: table[x, y] != node
        {
          if table[k, j] == node {
            still := false;
            break;
          }
          j := j + 1;
        }
      }
    }

    /** Retires ptr and makes one pass over the retired nodes of the thread.  What is deleted is in
        no slot, what is in a slot stays, and the front goes if it is in none. */
    method RetireNode(ptr: Node, tid: nat)
      requires Valid() && tid < retired.Length
      modifies retired, retiredCount, this`deleted
      ensures Valid()
      ensures forall t | 0 <= t < retired.Length && t != tid :: retired[t] == old(retired[t])
      ensures var list := old(retired[tid]) + [ptr];
              var v := Verdicts(list, Published());
              retired[tid] == Kept(list, v) && deleted == old(deleted) + Freed(list, v)
      ensures forall d, k, j | |old(deleted)| <= d < |deleted| && 0 <= k < threadCount && 0 <= j < table.Length1 ::
                table[k, j] != deleted[d]
      ensures forall k, j | 0 <= k < threadCount && 0 <= j < table.Length1 ::
                table[k, j] in old(retired[tid]) + [ptr] ==> table[k, j] in retired[tid]
      ensures var front := (old(retired[tid]) + [ptr])[0];
              (forall k, j | 0 <= k < threadCount && 0 <= j < table.Length1 :: table[k, j] != front) ==>
                |deleted| > |old(deleted)| && deleted[|old(deleted)|] == front
    {
      hide Kept, Freed, Verdicts, InPass;
      var deleteNode := true;
      retiredCount[tid] := retiredCount[tid] + 1;
      retired[tid] := retired[tid] + [ptr];
      ghost var list, published := retired[tid], Published();
      ghost var p, gone := 0, [];
      var i := 0;
      PassStarts(list, published);
      while i < |retired[tid]|
        invariant Valid() && p <= |list| && Published() == published
        invariant InPass(list, published, p, retired[tid], i, deleteNode, gone)
        invariant forall t | 0 <= t < retired.Length && t != tid :: retired[t] == old(retired[t])
        invariant deleted == old(deleted) + gone
        decreases |list| - p, |retired[tid]| - i
      {
        PassGoesOn(list, published, p, retired[tid], i, deleteNode, gone);
        var stptr := retired[tid][i];
        deleteNode := ScanTable(stptr, deleteNode);
        if deleteNode {
          retired[tid] := retired[tid][..i] + retired[tid][i + 1..];
          retiredCount[tid] := retiredCount[tid] - 1;
          deleted := deleted + [stptr];
          gone, p := gone + [stptr], NextPlace(|list|, p, true);
        } else {
          p := p + 1;
        }
        i := i + 1;
      }
      PassEnds(list, published, p, retired[tid], i, deleteNode, gone);
      SlotBySlot(list, old(deleted), tid);
    }

    /** The same, slot by slot. */
    lemma SlotBySlot(list: seq<Node>, before: seq<Node>, tid: nat)
      requires threadCount <= table.Length0 && tid < retired.Length && |list| > 0
      requires var v := Verdicts(list, Published());
               retired[tid] == Kept(list, v) && deleted == before + Freed(list, v)
      ensures forall d, k, j | |before| <= d < |deleted| && 0 <= k < threadCount && 0 <= j < table.Length1 ::
                table[k, j] != deleted[d]
      ensures forall k, j | 0 <= k < threadCount && 0 <= j < table.Length1 ::
                table[k, j] in list ==> table[k, j] in retired[tid]
      ensures (forall k, j | 0 <= k < threadCount && 0 <= j < table.Length1 :: table[k, j] != list[0]) ==>
                |deleted| > |before| && deleted[|before|] == list[0]
    {
      hide Kept, Freed;
      ghost var gone := Freed(list, Verdicts(list, Published()));
      FreedAreUnpublished(list, Published(), |list|);
      PublishedAreKept(list, Published(), |list|);
      if list[0] !in Published() { FrontIsFreed(list, Verdicts(list, Published()), |list|); }
      assert forall k, j | 0 <= k < threadCount && 0 <= j < table.Length1 :: table[k, j] in Published();
      assert forall d | |before| <= d < |deleted| :: deleted[d] == gone[d - |before|];
    }
  }

  // ---------------------------------------------------------------- what a pass does

  /** The retired nodes after some more calls of `retireNode`, while the table stands still. */
  function AfterCalls(list: seq<Node>, nodes: seq<Node>, published: set<Node>): seq<Node> {
    if nodes == [] then list
    else
      var before := AfterCalls(list, nodes[..|nodes| - 1], published) + [nodes[|nodes| - 1]];
      Kept(before, Verdicts(before, published))
  }

  predicate NonePublished(list: seq<Node>, published: set<Node>) {
    forall n | n in list :: n !in published
  }

  /** A backlog of s becomes floor((s + 1) / 2) by a call that finds no hazard. */
  lemma CallHalves(list: seq<Node>, n: Node, published: set<Node>)
    requires NonePublished(list + [n], published)
    ensures |Kept(list + [n], Verdicts(list + [n], published))| == (|list| + 1) / 2
    ensures NonePublished(Kept(list + [n], Verdicts(list + [n], published)), published)
  {
    AllRemovable(list + [n], Verdicts(list + [n], published), |list| + 1);
    KeptAreOld(list + [n], Verdicts(list + [n], published), |list| + 1);
  }

  function Pow2(k: nat): nat {
    if k == 0 then 1 else 2 * Pow2(k - 1)
  }

  lemma {:induction false} HalvedBelow(list: seq<Node>, nodes: seq<Node>, published: set<Node>, k: nat)
    requires NonePublished(list, published) && NonePublished(nodes, published)
    requires |list| <= Pow2(|nodes| + k)
    ensures NonePublished(AfterCalls(list, nodes, published), published)
    ensures |AfterCalls(list, nodes, published)| <= Pow2(k)
    ensures |AfterCalls(list, nodes, published)| == 0 <==> |list| == 0
  {
    if nodes != [] {
      var less, n := nodes[..|nodes| - 1], nodes[|nodes| - 1];
      HalvedBelow(list, less, published, k + 1);
      CallHalves(AfterCalls(list, less, published), n, published);
    }
  }

  /** Without hazards a backlog of at least one, and of at most 2 to the k, is one after k calls
      and stays there; an empty backlog stays empty. */
  lemma BacklogReachesOne(list: seq<Node>, nodes: seq<Node>, published: set<Node>, k: nat)
    requires NonePublished(list, published) && NonePublished(nodes, published)
    requires |list| <= Pow2(k) && k <= |nodes|
    ensures |AfterCalls(list, nodes, published)| == if |list| == 0 then 0 else 1
  {
    PowGrows(k, |nodes|);
    HalvedBelow(list, nodes, published, 0);
  }

  lemma {:induction false} PowGrows(k: nat, l: nat)
    requires k <= l
    ensures Pow2(k) <= Pow2(l)
  {
    if k < l { PowGrows(k, l - 1); }
  }

  lemma {:induction false} NothingFreed(list: seq<Node>, published: set<Node>, p: nat)
    requires p <= |list| && |list| > 0 && list[0] in published
    ensures KeptTo(list, Verdicts(list, published), p) == list[..p]
  {
    if p > 0 {
      NothingFreed(list, published, p - 1);
      assert !Clean(list, published, p - 1);
    }
  }

  /** One node that stays published at the front of the list keeps all others, however many are
      retired. */
  lemma {:induction false} OneHazardKeepsAll(list: seq<Node>, nodes: seq<Node>, published: set<Node>)
    requires |list| > 0 && list[0] in published
    ensures AfterCalls(list, nodes, published) == list + nodes
  {
    if nodes != [] {
      var less, n := nodes[..|nodes| - 1], nodes[|nodes| - 1];
      OneHazardKeepsAll(list, less, published);
      NothingFreed(list + less + [n], published, |list| + |nodes|);
      assert list + less + [n] == list + nodes;
    }
  }

  // ---------------------------------------------------------------- when the backlog is bounded

  /** However many unpublished nodes are retired, the backlog stays within b. */
  ghost predicate BoundedBy(list: seq<Node>, published: set<Node>, b: nat) {
    forall nodes | NonePublished(nodes, published) :: |AfterCalls(list, nodes, published)| <= b
  }

  lemma {:induction false} CallsInARow(list: seq<Node>, nodes: seq<Node>, more: seq<Node>, published: set<Node>)
    ensures AfterCalls(list, nodes + more, published) == AfterCalls(AfterCalls(list, nodes, published), more, published)
  {
    if more == [] {
      assert nodes + more == nodes;
    } else {
      var less := more[..|more| - 1];
      CallsInARow(list, nodes, less, published);
      assert (nodes + more)[..|nodes + more| - 1] == nodes + less;
    }
  }

  lemma {:induction false} NeverGrows(list: seq<Node>, nodes: seq<Node>, published: set<Node>)
    requires NonePublished(list, published) && NonePublished(nodes, published)
    ensures NonePublished(AfterCalls(list, nodes, published), published)
    ensures |AfterCalls(list, nodes, published)| <= |list| + 1
  {
    if nodes != [] {
      var less := nodes[..|nodes| - 1];
      NeverGrows(list, less, published);
      CallHalves(AfterCalls(list, less, published), nodes[|nodes| - 1], published);
    }
  }

  /** A node that is not freed is among the survivors, after those from before it. */
  lemma {:induction false} SurvivorAt(list: seq<Node>, v: seq<bool>, p: nat, n: nat)
    requires p < n <= |list| == |v| && !FreedAt(v, p)
    ensures |KeptTo(list, v, p)| < |KeptTo(list, v, n)| && KeptTo(list, v, n)[|KeptTo(list, v, p)|] == list[p]
  {
    if p + 1 < n { SurvivorAt(list, v, p, n - 1); }
  }

  lemma {:induction false} FirstFreedShifts(list: seq<Node>, v: seq<bool>, p: nat)
    requires 0 < p <= |list| == |v| && FreedAt(v, 0)
    ensures |KeptTo(list, v, p)| < p
  {
    if p > 1 { FirstFreedShifts(list, v, p - 1); }
  }

  /** While the front is not published it is freed, so that a published node moves forward. */
  lemma PublishedMovesForward(list: seq<Node>, n: Node, published: set<Node>, p: nat)
    requires 0 < p < |list| && list[p] in published && list[0] !in published
    ensures var after := Kept(list + [n], Verdicts(list + [n], published));
            exists q: nat :: q < p && q < |after| && after[q] in published
  {
    var all := list + [n];
    var v := Verdicts(all, published);
    PassIsExact(all, published, p);
    PassIsExact(all, published, 0);
    assert all[p] == list[p] && all[0] == list[0];
    SurvivorAt(all, v, p, |all|);
    FirstFreedShifts(all, v, p);
    assert Kept(all, v)[|KeptTo(all, v, p)|] == list[p];
  }

  /** After at most p calls a published node from place p, or one before it, is at the front. */
  lemma {:induction false} FrontIsReached(list: seq<Node>, n: Node, published: set<Node>, p: nat) returns (nodes: seq<Node>)
    requires p < |list| && list[p] in published && n !in published
    ensures NonePublished(nodes, published) && |nodes| <= p
    ensures |AfterCalls(list, nodes, published)| > 0 && AfterCalls(list, nodes, published)[0] in published
    decreases p
  {
    if list[0] in published {
      nodes := [];
    } else {
      PublishedMovesForward(list, n, published, p);
      var after := Kept(list + [n], Verdicts(list + [n], published));
      var q: nat :| q < p && q < |after| && after[q] in published;
      var rest := FrontIsReached(after, n, published, q);
      assert AfterCalls(list, [], published) == list && [n][..0] == [];
      assert AfterCalls(list, [n], published) == after;
      CallsInARow(list, [n], rest, published);
      nodes := [n] + rest;
    }
  }

  lemma {:induction false} UnpublishedExists(published: set<Node>) returns (n: Node)
    ensures n !in published && forall m | m in published :: m < n
    decreases |published|
  {
    if published == {} {
      n := 0;
    } else {
      var m :| m in published;
      var n' := UnpublishedExists(published - {m});
      n := if m < n' then n' else m + 1;
      assert forall k | k in published :: k == m || k in published - {m};
    }
  }

  lemma GrowsPast(list: seq<Node>, published: set<Node>, p: nat, b: nat)
    requires p < |list| && list[p] in published
    ensures !BoundedBy(list, published, b)
  {
    var n := UnpublishedExists(published);
    var nodes := FrontIsReached(list, n, published, p);
    var more := seq(b, k => n);
    CallsInARow(list, nodes, more, published);
    OneHazardKeepsAll(AfterCalls(list, nodes, published), more, published);
    assert NonePublished(nodes + more, published);
  }

  /** The exact condition.  While the table stands still, the backlog that unpublished nodes are
      added to is bounded if and only if no node of it is published, at whatever place. */
  lemma BoundedIffNonePublished(list: seq<Node>, published: set<Node>)
    ensures (exists b: nat :: BoundedBy(list, published, b)) <==> NonePublished(list, published)
  {
    if NonePublished(list, published) {
      forall nodes | NonePublished(nodes, published) ensures |AfterCalls(list, nodes, published)| <= |list| + 1 {
        NeverGrows(list, nodes, published);
      }
      assert BoundedBy(list, published, |list| + 1);
    } else {
      var p: nat :| p < |list| && list[p] in published;
      forall b: nat ensures !BoundedBy(list, published, b) { GrowsPast(list, published, p, b); }
    }
  }

  // ---------------------------------------------------------------- the steps of `Hazards` make the same pass

  /** The nodes published in the table of the step machine. */
  ghost function NodesIn(table: seq<seq<Node>>): set<Node> {
    set k, j | 0 <= k < |table| && 0 <= j < |table[k]| :: table[k][j]
  }

  ghost predicate Ready(table: seq<seq<Node>>, r: Hazards.Retirer) {
    && (forall k | 0 <= k < |table| :: |table[k]| > 0)
    && r.cursor.Scanning? && (r.cursor.k < |table| ==> r.cursor.j < |table[r.cursor.k]|)
  }

  /** One access of the scan. */
  ghost function ScanStep(table: seq<seq<Node>>, r: Hazards.Retirer): (r': Hazards.Retirer)
    requires Ready(table, r) && r.cursor.i < |r.list|
    ensures Ready(table, r')
  {
    if r.cursor.k < |table| then Hazards.Compare(r, table[r.cursor.k][r.cursor.j], |table[r.cursor.k]|) else Hazards.Decide(r)
  }

  /** The scan runs to its end while nobody else takes a step. */
  ghost function ScanOut(table: seq<seq<Node>>, r: Hazards.Retirer): Hazards.Retirer
    requires Ready(table, r)
    decreases if r.cursor.i < |r.list| then |r.list| - r.cursor.i else 0,
              if r.cursor.k < |table| then |table| - r.cursor.k else 0,
              if r.cursor.k < |table| then |table[r.cursor.k]| - r.cursor.j else 0
  {
    if r.cursor.i >= |r.list| then r else ScanOut(table, ScanStep(table, r))
  }

  /** While the flag is set, no slot before the cursor holds the node under it. */
  ghost predicate NoneBefore(table: seq<seq<Node>>, r: Hazards.Retirer)
    requires Ready(table, r) && r.cursor.i < |r.list|
  {
    r.cursor.flag ==>
      forall k, j | 0 <= k < |table| && 0 <= j < |table[k]| && Hazards.Passed(r.cursor, k, j) :: table[k][j] != r.list[r.cursor.i]
  }

  /** Where the scan stands when it has decided about the node under it. */
  ghost function Decided(table: seq<seq<Node>>, r: Hazards.Retirer): (r': Hazards.Retirer)
    requires Ready(table, r) && r.cursor.i < |r.list|
    ensures Ready(table, r')
  {
    var i := r.cursor.i;
    if r.cursor.flag && r.list[i] !in NodesIn(table) then
      Hazards.Retirer(r.list[..i] + r.list[i + 1..], r.count - 1, Hazards.Scanning(i + 1, 0, 0, true))
    else r.(cursor := Hazards.Scanning(i + 1, 0, 0, false))
  }

  lemma SlotCompared(table: seq<seq<Node>>, r: Hazards.Retirer)
    requires Ready(table, r) && r.cursor.i < |r.list| && NoneBefore(table, r) && r.cursor.k < |table|
    ensures var r' := ScanStep(table, r);
            && r'.list == r.list && r'.cursor.Scanning? && r'.cursor.i == r.cursor.i
            && NoneBefore(table, r') && Decided(table, r') == Decided(table, r)
  {
    var c, r' := r.cursor, ScanStep(table, r);
    if table[c.k][c.j] == r.list[c.i] {
      assert table[c.k][c.j] in NodesIn(table);
    } else {
      forall k, j | 0 <= k < |table| && 0 <= j < |table[k]| && Hazards.Passed(r'.cursor, k, j) && c.flag
        ensures table[k][j] != r'.list[c.i]
      {
        assert Hazards.Passed(c, k, j) || (k == c.k && j == c.j);
      }
    }
  }

  lemma AllCompared(table: seq<seq<Node>>, r: Hazards.Retirer)
    requires Ready(table, r) && r.cursor.i < |r.list| && NoneBefore(table, r) && r.cursor.k >= |table|
    ensures ScanStep(table, r) == Decided(table, r)
  {
    forall n | n in NodesIn(table) ensures r.cursor.flag ==> n != r.list[r.cursor.i] {
      var k, j :| 0 <= k < |table| && 0 <= j < |table[k]| && n == table[k][j];
      assert Hazards.Passed(r.cursor, k, j);
    }
  }

  lemma {:induction false} OneNode(table: seq<seq<Node>>, r: Hazards.Retirer)
    requires Ready(table, r) && r.cursor.i < |r.list| && NoneBefore(table, r)
    ensures ScanOut(table, r) == ScanOut(table, Decided(table, r))
    decreases if r.cursor.k < |table| then |table| - r.cursor.k else 0,
              if r.cursor.k < |table| then |table[r.cursor.k]| - r.cursor.j else 0
  {
    if r.cursor.k >= |table| {
      AllCompared(table, r);
    } else {
      SlotCompared(table, r);
      assert var r' := ScanStep(table, r); r'.cursor.k > r.cursor.k || (r'.cursor.k == r.cursor.k && r'.cursor.j > r.cursor.j);
      hide NoneBefore, Decided;
      OneNode(table, ScanStep(table, r));
    }
  }

  lemma FirstSlot(table: seq<seq<Node>>, r: Hazards.Retirer)
    requires Ready(table, r) && r.cursor.i < |r.list| && r.cursor.k == 0 && r.cursor.j == 0
    ensures NoneBefore(table, r)
  {
  }

  lemma {:induction false} ScanFrom(table: seq<seq<Node>>, r: Hazards.Retirer, list: seq<Node>, p: nat, gone: seq<Node>)
    requires Ready(table, r) && r.cursor.k == 0 && r.cursor.j == 0 && r.count == |r.list|
    requires InPass(list, NodesIn(table), p, r.list, r.cursor.i, r.cursor.flag, gone)
    ensures ScanOut(table, r).list == Kept(list, Verdicts(list, NodesIn(table)))
    ensures ScanOut(table, r).count == |ScanOut(table, r).list|
    decreases if r.cursor.i < |r.list| then |r.list| - r.cursor.i else 0
  {
    hide InPass, Kept, Verdicts;
    var i := r.cursor.i;
    if i >= |r.list| {
      PassEnds(list, NodesIn(table), p, r.list, i, r.cursor.flag, gone);
    } else {
      FirstSlot(table, r);
      OneNode(table, r);
      PassGoesOn(list, NodesIn(table), p, r.list, i, r.cursor.flag, gone);
      var frees := r.cursor.flag && r.list[i] !in NodesIn(table);
      hide NoneBefore, NodesIn, ScanOut;
      ScanFrom(table, Decided(table, r), list, if frees then NextPlace(|list|, p, true) else p + 1, if frees then gone + [r.list[i]] else gone);
    }
  }

  /** When nobody else moves, the scan that reads one slot at a time makes the pass of
      `RetireNode`: same survivors, same order. */
  lemma ScanIsPass(table: seq<seq<Node>>, list: seq<Node>, n: Node)
    requires forall k | 0 <= k < |table| :: |table[k]| > 0
    ensures Ready(table, Hazards.Retire(Hazards.Retirer(list, |list|, Hazards.Resting), n))
    ensures var r := ScanOut(table, Hazards.Retire(Hazards.Retirer(list, |list|, Hazards.Resting), n));
            r.list == Kept(list + [n], Verdicts(list + [n], NodesIn(table))) && r.count == |r.list|
  {
    PassStarts(list + [n], NodesIn(table));
    ScanFrom(table, Hazards.Retire(Hazards.Retirer(list, |list|, Hazards.Resting), n), list + [n], 0, []);
  }
}
