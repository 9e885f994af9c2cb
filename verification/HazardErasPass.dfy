/** `hazarderas/hazarderas.hpp` as the object it is: the era clock, the table of published eras,
    and for each thread a vector of retired nodes with a counter.  The methods are run by one
    thread at a time here; `Eras` has the same code with other threads at work.

    The scan of line 87 reads the row of the loop variable, as the loop is meant. */
module HazardErasPass {
  import opened Sweeping
  import Eras

  const WORD: nat := 0x1_0000_0000_0000_0000

  /** No published era lies in the life of a node. */
  predicate Removable(published: set<nat>, birth: nat, del: nat) {
    forall era | era in published :: era == 0 || era < birth || era > del
  }

  /** The nodes of the list have both eras. */
  predicate Stamped(list: seq<Node>, birth: map<Node, nat>, del: map<Node, nat>) {
    forall n | n in list :: n in birth && n in del
  }

  lemma StampedStays(list: seq<Node>, birth: map<Node, nat>, del: map<Node, nat>, item: Node, era: nat, i: nat)
    requires Stamped(list, birth, del)
    ensures Stamped(list, birth, del[item := era])
    ensures item in birth ==> Stamped(list + [item], birth, del[item := era])
    ensures i < |list| ==> list[i] in birth && list[i] in del && Stamped(list[..i] + list[i + 1..], birth, del)
  {
  }

  function Verdicts(list: seq<Node>, published: set<nat>, birth: map<Node, nat>, del: map<Node, nat>): (v: seq<bool>)
    requires Stamped(list, birth, del)
    ensures |v| == |list| && forall p | 0 <= p < |list| :: v[p] == Removable(published, birth[list[p]], del[list[p]])
  {
    seq(|list|, p requires 0 <= p < |list| => Removable(published, birth[list[p]], del[list[p]]))
  }

  /** What a pass frees, what it keeps, and that it does not spare the front. */
  lemma FreedAndKept(list: seq<Node>, published: set<nat>, birth: map<Node, nat>, del: map<Node, nat>)
    requires Stamped(list, birth, del)
    ensures forall n | n in list :: n in birth && n in del
    ensures var v := Verdicts(list, published, birth, del);
            && (forall n | n in Freed(list, v) :: n in birth && n in del)
            && (forall n, era | n in Freed(list, v) && era in published :: era == 0 || era < birth[n] || era > del[n])
            && (forall n, era | n in list && era in published && era != 0 && birth[n] <= era <= del[n] :: n in Kept(list, v))
            && (|list| > 0 && (forall era | era in published :: era == 0 || era < birth[list[0]] || era > del[list[0]]) ==>
                  |Freed(list, v)| > 0 && Freed(list, v)[0] == list[0])
  {
    var v := Verdicts(list, published, birth, del);
    FreedWereRemovable(list, v, |list|);
    UnremovableAreKept(list, v, |list|);
    if |list| > 0 && v[0] { FrontIsFreed(list, v, |list|); }
    hide Kept, Freed;
    forall n | n in Freed(list, v)
      ensures n in birth && n in del && forall era | era in published :: era == 0 || era < birth[n] || era > del[n]
    {
      var q :| 0 <= q < |list| && list[q] == n && v[q];
    }
    forall n, era | n in list && era in published && era != 0 && birth[n] <= era <= del[n] ensures n in Kept(list, v) {
      var q :| 0 <= q < |list| && list[q] == n;
      assert !v[q];
    }
  }

  class HazardEras {
    var clock: nat
    const table: array2<nat>
    const retired: array<seq<Node>>
    const retiredCount: array<nat>
    var birth: map<Node, nat>          // the field newEra of the nodes
    var del: map<Node, nat>            // the field delEra of the nodes
    ghost var deleted: seq<Node>       // in the order of deletion

    ghost predicate Valid()
      reads this, retired, retiredCount
    {
      && table.Length0 == retired.Length == retiredCount.Length && clock < WORD
      && (forall t | 0 <= t < retired.Length :: retiredCount[t] == |retired[t]|)
      && (forall t | 0 <= t < retired.Length :: Stamped(retired[t], birth, del))
    }

    ghost function Published(): set<nat>
      reads table
    {
      set k, j | 0 <= k < table.Length0 && 0 <= j < table.Length1 :: table[k, j]
    }

    constructor (maxThreads: nat, slots: nat)
      ensures Valid() && fresh(table) && fresh(retired) && fresh(retiredCount)
      ensures clock == 1 && table.Length0 == maxThreads && table.Length1 == slots
      ensures forall k, j | 0 <= k < maxThreads && 0 <= j < slots :: table[k, j] == 0
      ensures deleted == [] && birth == map[] && forall t | 0 <= t < maxThreads :: retired[t] == []
    {
      clock := 1;
      table := new nat[maxThreads, slots]((k, j) => 0);
      retired := new seq<Node>[maxThreads](t => []);
      retiredCount := new nat[maxThreads](t => 0);
      birth, del, deleted := map[], map[], [];
    }

    method Clear(tid: nat)
      requires tid < table.Length0
      modifies table
      ensures forall k, j | 0 <= k < table.Length0 && 0 <= j < table.Length1 ::
                table[k, j] == if k == tid then 0 else old(table[k, j])
    {
      for i := 0 to table.Length1
        invariant forall k, j | 0 <= k < table.Length0 && 0 <= j < table.Length1 ::
                    table[k, j] == if k == tid && j < i then 0 else old(table[k, j])
      {
        table[tid, i] := 0;
      }
    }

    /** `get_protected` on a pointer that nobody changes meanwhile: the era in the slot is the
        clock's afterwards, whatever it was before. */
    method GetProtected(index: nat, item: Node, tid: nat) returns (r: Node)
      requires tid < table.Length0 && index < table.Length1
      modifies table
      ensures r == item
      ensures forall k, j | 0 <= k < table.Length0 && 0 <= j < table.Length1 ::
                table[k, j] == if k == tid && j == index then clock else old(table[k, j])
    {
      var prevEra := table[tid, index];
      r := item;
      while prevEra != clock
        invariant prevEra == table[tid, index] && r == item
        invariant forall k, j | 0 <= k < table.Length0 && 0 <= j < table.Length1 && !(k == tid && j == index) ::
                    table[k, j] == old(table[k, j])
        decreases prevEra != clock
      {
        var currEra := clock;
        table[tid, index] := currEra;
        prevEra := currEra;
        r := item;
      }
    }

    /** Copies the era of one slot of the thread to another. */
    method ProtectEraRelease(index: nat, other: nat, tid: nat)
      requires tid < table.Length0 && index < table.Length1 && other < table.Length1
      modifies table
      ensures forall k, j | 0 <= k < table.Length0 && 0 <= j < table.Length1 ::
                table[k, j] == old(table[k, if k == tid && j == index then other else j])
    {
      var era := table[tid, other];
      if table[tid, index] == era {
        return;
      }
      table[tid, index] := era;
    }

    method CanRemoveNode(item: Node) returns (b: bool)
      requires item in birth && item in del
      ensures b <==> Removable(Published(), birth[item], del[item])
      ensures b <==> forall k, j | 0 <= k < table.Length0 && 0 <= j < table.Length1 ::
                       table[k, j] == 0 || table[k, j] < birth[item] || table[k, j] > del[item]
    {
      for i := 0 to table.Length0
        invariant forall k, j | 0 <= k < i && 0 <= j < table.Length1 ::
                    table[k, j] == 0 || table[k, j] < birth[item] || table[k, j] > del[item]
      {
        for j := 0 to table.Length1
          invariant forall y | 0 <= y < j :: table[i, y] == 0 || table[i, y] < birth[item] || table[i, y] > del[item]
        {
          var era := table[i, j];
          if era == 0 || era < birth[item] || era > del[item] {
            continue;
          }
          assert era in Published();
          return false;
        }
      }
      return true;
    }

    /** The loop of lines 107-117: one pass over the retired nodes of the thread. */
    method SweepRetired(tid: nat)
      requires Valid() && tid < retired.Length
      modifies this`deleted, retired, retiredCount
      ensures Valid()
      ensures forall t | 0 <= t < retired.Length && t != tid :: retired[t] == old(retired[t])
      ensures var list := old(retired[tid]);
              && Stamped(list, birth, del)
              && var v := Verdicts(list, Published(), birth, del);
                 retired[tid] == Kept(list, v) && deleted == old(deleted) + Freed(list, v)
    {
      hide Kept, Freed, InSweep, AtPlace, Stamped;
      ghost var list, published := retired[tid], Published();
      ghost var v := Verdicts(list, published, birth, del);
      ghost var p, gone := 0, [];
      var i := 0;
      SweepStarts(list, v);
      while i < |retired[tid]|
        invariant Valid() && p <= |list| && Published() == published
        invariant InSweep(list, v, p, retired[tid], i, gone)
        invariant forall t | 0 <= t < retired.Length && t != tid :: retired[t] == old(retired[t])
        invariant deleted == old(deleted) + gone
        decreases |list| - p, |retired[tid]| - i
      {
        SweepGoesOn(list, v, p, retired[tid], i, gone);
        StampedStays(retired[tid], birth, del, 0, 0, i);
        var stptr := retired[tid][i];
        var removable := CanRemoveNode(stptr);
        if removable {
          retired[tid] := retired[tid][..i] + retired[tid][i + 1..];
          deleted := deleted + [stptr];
          retiredCount[tid] := retiredCount[tid] - 1;
          gone, p := gone + [stptr], NextPlace(|list|, p, true);
        } else {
          p := p + 1;
        }
        i := i + 1;
      }
      SweepEnds(list, v, p, retired[tid], i, gone);
    }

    /** Retires item with the era of the clock, advances the clock, and makes one pass over the
        retired nodes of the thread.  What is deleted has no published era in its life, what has
        one stays, and the front goes if it has none. */
    method RetireNode(item: Node, tid: nat)
      requires Valid() && tid < retired.Length && item in birth
      modifies this`clock, this`del, this`deleted, retired, retiredCount
      ensures Valid()
      ensures clock == (old(clock) + 1) % WORD && del == old(del)[item := old(clock)]
      ensures forall t | 0 <= t < retired.Length && t != tid :: retired[t] == old(retired[t])
      ensures var list := old(retired[tid]) + [item];
              && Stamped(list, birth, del)
              && var v := Verdicts(list, Published(), birth, del);
                 retired[tid] == Kept(list, v) && deleted == old(deleted) + Freed(list, v)
      ensures forall d | |old(deleted)| <= d < |deleted| :: deleted[d] in birth && deleted[d] in del
      ensures forall d, k, j | |old(deleted)| <= d < |deleted| && 0 <= k < table.Length0 && 0 <= j < table.Length1 ::
                table[k, j] == 0 || table[k, j] < birth[deleted[d]] || table[k, j] > del[deleted[d]]
      ensures forall n, k, j | n in old(retired[tid]) + [item] && 0 <= k < table.Length0 && 0 <= j < table.Length1 ::
                n in birth && n in del && (1 <= table[k, j] && birth[n] <= table[k, j] <= del[n] ==> n in retired[tid])
      ensures var front := (old(retired[tid]) + [item])[0];
              && front in birth && front in del
              && ((forall k, j | 0 <= k < table.Length0 && 0 <= j < table.Length1 ::
                     table[k, j] == 0 || table[k, j] < birth[front] || table[k, j] > del[front]) ==>
                  |deleted| > |old(deleted)| && deleted[|old(deleted)|] == front)
    {
      hide Kept, Freed, Stamped, Removable, Verdicts;
      var currEra := clock;
      forall t | 0 <= t < retired.Length ensures Stamped(retired[t], birth, del[item := currEra]) {
        StampedStays(retired[t], birth, del, item, currEra, 0);
      }
      StampedStays(retired[tid], birth, del, item, currEra, 0);
      del := del[item := currEra];
      retired[tid] := retired[tid] + [item];
      retiredCount[tid] := retiredCount[tid] + 1;
      if clock == currEra {
        clock := (clock + 1) % WORD;
      }
      ghost var list := retired[tid];
      SweepRetired(tid);
      SlotBySlot(list, old(deleted), tid);
    }

    /** The same, slot by slot. */
    lemma SlotBySlot(list: seq<Node>, before: seq<Node>, tid: nat)
      requires Stamped(list, birth, del) && tid < retired.Length && |list| > 0
      requires var v := Verdicts(list, Published(), birth, del);
               retired[tid] == Kept(list, v) && deleted == before + Freed(list, v)
      ensures forall d | |before| <= d < |deleted| :: deleted[d] in birth && deleted[d] in del
      ensures forall d, k, j | |before| <= d < |deleted| && 0 <= k < table.Length0 && 0 <= j < table.Length1 ::
                table[k, j] == 0 || table[k, j] < birth[deleted[d]] || table[k, j] > del[deleted[d]]
      ensures forall n, k, j | n in list && 0 <= k < table.Length0 && 0 <= j < table.Length1 ::
                n in birth && n in del && (1 <= table[k, j] && birth[n] <= table[k, j] <= del[n] ==> n in retired[tid])
      ensures && list[0] in birth && list[0] in del
              && ((forall k, j | 0 <= k < table.Length0 && 0 <= j < table.Length1 ::
                     table[k, j] == 0 || table[k, j] < birth[list[0]] || table[k, j] > del[list[0]]) ==>
                  |deleted| > |before| && deleted[|before|] == list[0])
    {
      hide Kept, Freed;
      ghost var gone := Freed(list, Verdicts(list, Published(), birth, del));
      FreedAndKept(list, Published(), birth, del);
      assert forall k, j | 0 <= k < table.Length0 && 0 <= j < table.Length1 :: table[k, j] in Published();
      assert forall d | |before| <= d < |deleted| :: deleted[d] == gone[d - |before|] && deleted[d] in gone;
    }
  }

  // ---------------------------------------------------------------- the steps of `Eras` make the same pass

  /** The eras in the table of the step machine. */
  ghost function ErasIn(e: Eras.Table): set<nat> {
    set k, j | 0 <= k < |e.rows| && 0 <= j < |e.rows[k]| :: e.rows[k][j]
  }

  ghost predicate Ready(e: Eras.Table, r: Eras.Retirer) {
    && (forall k | 0 <= k < |e.rows| :: |e.rows[k]| > 0)
    && Stamped(r.list, e.birth, e.del)
    && r.cursor.Scanning? && (r.cursor.k < |e.rows| ==> r.cursor.j < |e.rows[r.cursor.k]|)
  }

  /** The scan runs to its end while nobody else takes a step. */
  ghost function ScanOut(e: Eras.Table, r: Eras.Retirer): Eras.Retirer
    requires Ready(e, r)
    decreases if r.cursor.i < |r.list| then |r.list| - r.cursor.i else 0,
              if r.cursor.k < |e.rows| then |e.rows| - r.cursor.k else 0,
              if r.cursor.k < |e.rows| then |e.rows[r.cursor.k]| - r.cursor.j else 0
  {
    if r.cursor.i >= |r.list| then Eras.Reclaim(e, r) else ScanOut(e, Eras.Reclaim(e, r))
  }

  /** No slot before the cursor blocks the node under it. */
  ghost predicate NoneBefore(e: Eras.Table, r: Eras.Retirer)
    requires Ready(e, r) && r.cursor.i < |r.list|
  {
    forall k, j | 0 <= k < |e.rows| && 0 <= j < |e.rows[k]| && Eras.Passed(r.cursor, k, j) ::
      !Eras.Blocks(e, e.rows[k][j], r.list[r.cursor.i])
  }

  /** Where the scan stands when it has decided about the node under it. */
  ghost function Decided(e: Eras.Table, r: Eras.Retirer): (r': Eras.Retirer)
    requires Ready(e, r) && r.cursor.i < |r.list|
    ensures Ready(e, r')
  {
    var i := r.cursor.i;
    if Removable(ErasIn(e), e.birth[r.list[i]], e.del[r.list[i]]) then
      Eras.Retirer(r.list[..i] + r.list[i + 1..], r.count - 1, Eras.Scanning(i + 1, 0, 0))
    else r.(cursor := Eras.Scanning(i + 1, 0, 0))
  }

  lemma NoneBlocks(e: Eras.Table, r: Eras.Retirer)
    requires Ready(e, r) && r.cursor.i < |r.list| && NoneBefore(e, r) && r.cursor.k >= |e.rows|
    ensures Removable(ErasIn(e), e.birth[r.list[r.cursor.i]], e.del[r.list[r.cursor.i]])
  {
    var n := r.list[r.cursor.i];
    forall era | era in ErasIn(e) ensures era == 0 || era < e.birth[n] || era > e.del[n] {
      var k, j :| 0 <= k < |e.rows| && 0 <= j < |e.rows[k]| && era == e.rows[k][j];
      assert Eras.Passed(r.cursor, k, j);
    }
  }

  lemma OneBlocks(e: Eras.Table, r: Eras.Retirer)
    requires Ready(e, r) && r.cursor.i < |r.list| && r.cursor.k < |e.rows|
    requires Eras.Blocks(e, Eras.EraOf(e, r.cursor.k, r.cursor.j), r.list[r.cursor.i])
    ensures !Removable(ErasIn(e), e.birth[r.list[r.cursor.i]], e.del[r.list[r.cursor.i]])
  {
    assert e.rows[r.cursor.k][r.cursor.j] in ErasIn(e);
  }

  lemma SlotPassed(e: Eras.Table, r: Eras.Retirer)
    requires Ready(e, r) && r.cursor.i < |r.list| && NoneBefore(e, r) && r.cursor.k < |e.rows|
    requires !Eras.Blocks(e, Eras.EraOf(e, r.cursor.k, r.cursor.j), r.list[r.cursor.i])
    ensures Ready(e, Eras.Reclaim(e, r)) && Eras.Reclaim(e, r).list == r.list
    ensures Eras.Reclaim(e, r).cursor.i == r.cursor.i && NoneBefore(e, Eras.Reclaim(e, r))
    ensures Decided(e, Eras.Reclaim(e, r)) == Decided(e, r)
  {
    var r' := Eras.Reclaim(e, r);
    forall k, j | 0 <= k < |e.rows| && 0 <= j < |e.rows[k]| && Eras.Passed(r'.cursor, k, j)
      ensures !Eras.Blocks(e, e.rows[k][j], r'.list[r'.cursor.i])
    {
      assert Eras.Passed(r.cursor, k, j) || (k == r.cursor.k && j == r.cursor.j);
    }
  }

  lemma {:induction false} OneNode(e: Eras.Table, r: Eras.Retirer)
    requires Ready(e, r) && r.cursor.i < |r.list| && NoneBefore(e, r)
    ensures ScanOut(e, r) == ScanOut(e, Decided(e, r))
    decreases if r.cursor.k < |e.rows| then |e.rows| - r.cursor.k else 0,
              if r.cursor.k < |e.rows| then |e.rows[r.cursor.k]| - r.cursor.j else 0
  {
    hide NoneBefore, Removable, ErasIn, Eras.Blocks, Eras.EraOf;
    if r.cursor.k >= |e.rows| {
      NoneBlocks(e, r);
    } else if Eras.Blocks(e, Eras.EraOf(e, r.cursor.k, r.cursor.j), r.list[r.cursor.i]) {
      OneBlocks(e, r);
    } else {
      SlotPassed(e, r);
      hide Decided;
      OneNode(e, Eras.Reclaim(e, r));
    }
  }

  lemma {:induction false} ScanFrom(e: Eras.Table, r: Eras.Retirer, list: seq<Node>, v: seq<bool>, p: nat)
    requires Ready(e, r) && r.cursor.k == 0 && r.cursor.j == 0
    requires Stamped(list, e.birth, e.del)
    requires v == Verdicts(list, ErasIn(e), e.birth, e.del) && AtPlace(list, v, p, r.list, r.cursor.i)
    requires r.count == |r.list|
    ensures ScanOut(e, r).list == Kept(list, v) && ScanOut(e, r).cursor.Resting?
    ensures ScanOut(e, r).count == |Kept(list, v)|
    decreases if r.cursor.i < |r.list| then |r.list| - r.cursor.i else 0
  {
    var i := r.cursor.i;
    hide KeptTo, FreedTo, FreedAt, NoneBefore;
    if i >= |r.list| {
      Ends(list, v, p, r.list, i);
    } else {
      NodeAtPlace(list, v, p, r.list, i);
      assert NoneBefore(e, r) by { FirstSlot(e, r); }
      OneNode(e, r);
      NextNode(e, r, list, v, p);
      hide AtPlace, ScanOut, Verdicts, Kept, Ready, Decided;
      ScanFrom(e, Decided(e, r), list, v, if v[p] then NextPlace(|list|, p, true) else p + 1);
    }
  }

  lemma FirstSlot(e: Eras.Table, r: Eras.Retirer)
    requires Ready(e, r) && r.cursor.i < |r.list| && r.cursor.k == 0 && r.cursor.j == 0
    ensures NoneBefore(e, r)
  {
  }

  lemma NextNode(e: Eras.Table, r: Eras.Retirer, list: seq<Node>, v: seq<bool>, p: nat)
    requires Ready(e, r) && r.cursor.i < |r.list| && r.count == |r.list|
    requires Stamped(list, e.birth, e.del)
    requires v == Verdicts(list, ErasIn(e), e.birth, e.del) && AtPlace(list, v, p, r.list, r.cursor.i) && p < |list|
    ensures var r' := Decided(e, r);
            && r'.cursor == Eras.Scanning(r.cursor.i + 1, 0, 0) && r'.count == |r'.list| && |r'.list| <= |r.list|
            && AtPlace(list, v, if v[p] then NextPlace(|list|, p, true) else p + 1, r'.list, r'.cursor.i)
  {
    NodeAtPlace(list, v, p, r.list, r.cursor.i);
    assert v[p] == Removable(ErasIn(e), e.birth[list[p]], e.del[list[p]]) && |v| == |list|;
    hide AtPlace, KeptTo, FreedTo, ErasIn, Removable, Verdicts;
    if v[p] { Erases(list, v, p, r.list, r.cursor.i); } else { Passes(list, v, p, r.list, r.cursor.i); }
  }

  /** When nobody else moves, the scan that reads one slot at a time makes the pass of
      `RetireNode`: same survivors, same order. */
  lemma ScanIsPass(e: Eras.Table, list: seq<Node>)
    requires forall k | 0 <= k < |e.rows| :: |e.rows[k]| > 0
    requires Stamped(list, e.birth, e.del)
    ensures Ready(e, Eras.Retirer(list, |list|, Eras.Scanning(0, 0, 0)))
    ensures var v, r := Verdicts(list, ErasIn(e), e.birth, e.del), ScanOut(e, Eras.Retirer(list, |list|, Eras.Scanning(0, 0, 0)));
            r.list == Kept(list, v) && r.count == |r.list| && r.cursor.Resting?
  {
    Starts(list, Verdicts(list, ErasIn(e), e.birth, e.del));
    ScanFrom(e, Eras.Retirer(list, |list|, Eras.Scanning(0, 0, 0)), list, Verdicts(list, ErasIn(e), e.birth, e.del), 0);
  }
}
