/** `intervalbasedrec/IntervalBasedReclamation.hpp` as the object it is: the global epoch, the
    reservations, and for each thread a vector of retired nodes with its counters.  The methods
    are run by one thread at a time here; `Intervals` has the same code with other threads at
    work.

    Counters are unsigned 64-bit words: `retireStat` is decremented for every deleted node and
    incremented after the pass, so that inside a pass it can wrap around to the largest word. */
module IntervalPasses {
  import opened Sweeping
  import Intervals

  const NULL: Node := 0
  const WORD := Intervals.WORD

  predicate Dated(list: seq<Node>, birth: map<Node, nat>, retire: map<Node, nat>) {
    forall n | n in list :: n in birth && n in retire
  }

  /** The verdict of a pass on each place of the list. */
  function Verdicts(list: seq<Node>, reservations: seq<nat>, birth: map<Node, nat>, retire: map<Node, nat>): (v: seq<bool>)
    requires Dated(list, birth, retire)
    ensures |v| == |list|
    ensures forall p | 0 <= p < |list| :: v[p] == !Intervals.Conflict(reservations, birth[list[p]], retire[list[p]])
  {
    seq(|list|, p requires 0 <= p < |list| => !Intervals.Conflict(reservations, birth[list[p]], retire[list[p]]))
  }

  lemma DatedStays(list: seq<Node>, birth: map<Node, nat>, retire: map<Node, nat>, obj: Node, e: nat, i: nat)
    requires Dated(list, birth, retire)
    ensures Dated(list, birth, retire[obj := e]) && Dated(list, birth[obj := e], retire)
    ensures obj in birth ==> Dated(list + [obj], birth, retire[obj := e])
    ensures i < |list| ==> list[i] in birth && list[i] in retire && Dated(list[..i] + list[i + 1..], birth, retire)
  {
  }

  /** Unsigned subtraction of one from the word that stands for x. */
  lemma DecIsMinusOne(w: nat, x: int)
    requires w == x % WORD
    ensures Intervals.Dec(w) == (x - 1) % WORD
  {
  }

  lemma IncIsPlusOne(w: nat, x: int)
    requires w == x % WORD
    ensures Intervals.Inc(w) == (x + 1) % WORD
  {
  }

  class IntervalBasedReclamation {
    var globalEpoch: nat
    const numThreads: nat
    const epochFreq: nat
    const emptyFreq: nat
    const reservations: array<nat>
    const allocStat: array<nat>
    const retireStat: array<nat>
    const retiredList: array<seq<Node>>
    const retiredNodesCount: array<nat>
    var birth: map<Node, nat>          // the field birth_epoch of the nodes
    var retire: map<Node, nat>         // the field retire_epoch of the nodes
    ghost var deleted: seq<Node>       // in the order of deletion

    ghost predicate Shape()
      reads this
    {
      && numThreads == reservations.Length == allocStat.Length == retireStat.Length == retiredList.Length == retiredNodesCount.Length
      && epochFreq > 0 && emptyFreq > 0 && globalEpoch < WORD
      && reservations != allocStat && reservations != retireStat && reservations != retiredNodesCount
      && allocStat != retireStat && allocStat != retiredNodesCount && retireStat != retiredNodesCount
    }

    /** The lists and counters of thread t, where `late` nodes are not counted by `retireStat` yet. */
    ghost predicate Counted(t: nat, late: nat)
      requires t < retiredList.Length == retireStat.Length == retiredNodesCount.Length
      reads this, retireStat, retiredList, retiredNodesCount
    {
      && retireStat[t] == (|retiredList[t]| - late) % WORD
      && retiredNodesCount[t] == |retiredList[t]| % WORD
      && Dated(retiredList[t], birth, retire)
    }

    /** At call boundaries both counters of every thread show the length of its list. */
    ghost predicate Valid()
      reads this, retireStat, retiredList, retiredNodesCount
    {
      Shape() && forall t: nat | t < numThreads :: Counted(t, 0)
    }

    constructor (threadCount: nat, epf: nat, emf: nat)
      requires epf > 0 && emf > 0
      ensures Valid() && numThreads == threadCount && epochFreq == epf && emptyFreq == emf
      ensures globalEpoch == 0 && deleted == []
      ensures forall t | 0 <= t < threadCount :: reservations[t] == Intervals.NONE && retiredList[t] == []
    {
      globalEpoch := 0;
      numThreads, epochFreq, emptyFreq := threadCount, epf, emf;
      reservations := new nat[threadCount](t => Intervals.NONE);
      allocStat := new nat[threadCount](t => 0);
      retireStat := new nat[threadCount](t => 0);
      retiredList := new seq<Node>[threadCount](t => []);
      retiredNodesCount := new nat[threadCount](t => 0);
      birth, retire, deleted := map[], map[], [];
      new;
      hide Dated, Counted;
      forall t: nat | t < numThreads ensures Counted(t, 0) { StartsCounted(t); }
    }

    lemma StartsCounted(t: nat)
      requires t < retiredList.Length == retireStat.Length == retiredNodesCount.Length
      requires retireStat[t] == 0 && retiredNodesCount[t] == 0 && retiredList[t] == []
      ensures Counted(t, 0)
    {
    }

    method StartOp(tid: nat)
      requires Valid() && tid < numThreads
      modifies reservations
      ensures Valid() && reservations[..] == old(reservations[..])[tid := globalEpoch]
    {
      var e := globalEpoch;
      reservations[tid] := e;
    }

    method EndOp(tid: nat)
      requires Valid() && tid < numThreads
      modifies reservations
      ensures Valid() && reservations[..] == old(reservations[..])[tid := Intervals.NONE]
    {
      reservations[tid] := Intervals.NONE;
    }

    /** The epoch moves on with every `epochFreq`-th allocation of a thread. */
    method AllocNode(tid: nat, obj: Node)
      requires Valid() && tid < numThreads
      modifies allocStat, this`globalEpoch, this`birth
      ensures Valid()
      ensures allocStat[..] == old(allocStat[..])[tid := Intervals.Inc(old(allocStat[tid]))]
      ensures globalEpoch == if Intervals.Inc(old(allocStat[tid])) % epochFreq == 0 then Intervals.Inc(old(globalEpoch)) else old(globalEpoch)
      ensures birth == old(birth)[obj := globalEpoch]
    {
      hide Dated;
      allocStat[tid] := Intervals.Inc(allocStat[tid]);
      if allocStat[tid] % epochFreq == 0 {
        globalEpoch := Intervals.Inc(globalEpoch);
      }
      forall t: nat | t < numThreads ensures Dated(retiredList[t], birth[obj := globalEpoch], retire) {
        assert old(Counted(t, 0));
        DatedStays(retiredList[t], birth, retire, obj, globalEpoch, 0);
      }
      birth := birth[obj := globalEpoch];
      forall t: nat | t < numThreads ensures Counted(t, 0) { assert old(Counted(t, 0)); }
    }

    method Conflict(reservEpoch: array<nat>, birthEpoch: nat, retireEpoch: nat) returns (b: bool)
      requires reservEpoch.Length == numThreads
      ensures b <==> Intervals.Conflict(reservEpoch[..], birthEpoch, retireEpoch)
      ensures b <==> exists k | 0 <= k < numThreads :: birthEpoch <= reservEpoch[k] <= retireEpoch
    {
      for i := 0 to numThreads
        invariant forall k | 0 <= k < i :: !(birthEpoch <= reservEpoch[k] <= retireEpoch)
      {
        if reservEpoch[i] >= birthEpoch && reservEpoch[i] <= retireEpoch {
          assert reservEpoch[..][i] == reservEpoch[i];
          return true;
        }
      }
      return false;
    }

    /** The copy that a pass works on. */
    method CopyReservations() returns (reservEpoch: array<nat>)
      requires Shape()
      ensures fresh(reservEpoch) && reservEpoch[..] == reservations[..]
    {
      reservEpoch := new nat[numThreads];
      for i := 0 to numThreads
        invariant forall k | 0 <= k < i :: reservEpoch[k] == reservations[k]
      {
        reservEpoch[i] := reservations[i];
      }
    }

    /** One pass.  The node that is being retired is in the list but not in `retireStat` yet. */
    method EmptyRetireList(tid: nat)
      requires Shape() && tid < numThreads && Counted(tid, 1)
      requires forall t: nat | t < numThreads && t != tid :: Counted(t, 0)
      modifies retiredList, retireStat, retiredNodesCount, this`deleted
      ensures Counted(tid, 1) && forall t: nat | t < numThreads && t != tid :: Counted(t, 0)
      ensures forall t: nat | t < numThreads && t != tid :: retiredList[t] == old(retiredList[t])
      ensures var list := old(retiredList[tid]);
              && Dated(list, birth, retire)
              && var v := Verdicts(list, reservations[..], birth, retire);
                 retiredList[tid] == Kept(list, v) && deleted == old(deleted) + Freed(list, v)
      ensures forall d | |old(deleted)| <= d < |deleted| :: deleted[d] in birth && deleted[d] in retire
      ensures forall d, k | |old(deleted)| <= d < |deleted| && 0 <= k < numThreads ::
                !(birth[deleted[d]] <= reservations[k] <= retire[deleted[d]])
      ensures forall n, k | n in old(retiredList[tid]) && n in birth && n in retire && 0 <= k < numThreads ::
                birth[n] <= reservations[k] <= retire[n] ==> n in retiredList[tid]
      ensures |old(retiredList[tid])| > 0 ==>
                var front := old(retiredList[tid])[0];
                && front in birth && front in retire
                && ((forall k | 0 <= k < numThreads :: !(birth[front] <= reservations[k] <= retire[front])) ==>
                    |deleted| > |old(deleted)| && deleted[|old(deleted)|] == front)
    {
      hide Kept, Freed, InSweep, AtPlace, Dated, Intervals.Conflict, Intervals.Dec, Intervals.Inc;
      var reservEpoch := CopyReservations();
      ghost var list := retiredList[tid];
      ghost var v := Verdicts(list, reservations[..], birth, retire);
      ghost var p, gone := 0, [];
      var i := 0;
      SweepStarts(list, v);
      while i < |retiredList[tid]|
        invariant p <= |list| && reservEpoch[..] == reservations[..] == old(reservations[..])
        invariant retireStat[tid] == (|retiredList[tid]| - 1) % WORD && retiredNodesCount[tid] == |retiredList[tid]| % WORD
        invariant Dated(retiredList[tid], birth, retire)
        invariant InSweep(list, v, p, retiredList[tid], i, gone)
        invariant forall t: nat | t < numThreads && t != tid ::
                    retiredList[t] == old(retiredList[t]) && retireStat[t] == old(retireStat[t])
                    && retiredNodesCount[t] == old(retiredNodesCount[t])
        invariant deleted == old(deleted) + gone
        decreases |list| - p, |retiredList[tid]| - i
      {
        SweepGoesOn(list, v, p, retiredList[tid], i, gone);
        DatedStays(retiredList[tid], birth, retire, 0, 0, i);
        var temp := retiredList[tid][i];
        var conflict := Conflict(reservEpoch, birth[temp], retire[temp]);
        if !conflict {
          DecIsMinusOne(retireStat[tid], |retiredList[tid]| - 1);
          DecIsMinusOne(retiredNodesCount[tid], |retiredList[tid]|);
          retiredList[tid] := retiredList[tid][..i] + retiredList[tid][i + 1..];
          deleted := deleted + [temp];
          retireStat[tid] := Intervals.Dec(retireStat[tid]);
          retiredNodesCount[tid] := Intervals.Dec(retiredNodesCount[tid]);
          gone, p := gone + [temp], NextPlace(|list|, p, true);
        } else {
          p := p + 1;
        }
        i := i + 1;
      }
      SweepEnds(list, v, p, retiredList[tid], i, gone);
      forall t: nat | t < numThreads && t != tid ensures Counted(t, 0) { assert old(Counted(t, 0)); }
      SlotBySlot(list, old(deleted), tid);
    }

    /** What a pass frees, what it keeps, and that it does not spare the front, slot by slot. */
    lemma SlotBySlot(list: seq<Node>, before: seq<Node>, tid: nat)
      requires Dated(list, birth, retire) && tid < retiredList.Length && numThreads == reservations.Length
      requires var v := Verdicts(list, reservations[..], birth, retire);
               retiredList[tid] == Kept(list, v) && deleted == before + Freed(list, v)
      ensures forall d | |before| <= d < |deleted| :: deleted[d] in birth && deleted[d] in retire
      ensures forall d, k | |before| <= d < |deleted| && 0 <= k < numThreads ::
                !(birth[deleted[d]] <= reservations[k] <= retire[deleted[d]])
      ensures forall n, k | n in list && n in birth && n in retire && 0 <= k < numThreads ::
                birth[n] <= reservations[k] <= retire[n] ==> n in retiredList[tid]
      ensures |list| > 0 ==>
                && list[0] in birth && list[0] in retire
                && ((forall k | 0 <= k < numThreads :: !(birth[list[0]] <= reservations[k] <= retire[list[0]])) ==>
                    |deleted| > |before| && deleted[|before|] == list[0])
    {
      ghost var v := Verdicts(list, reservations[..], birth, retire);
      ghost var gone := Freed(list, v);
      FreedWereRemovable(list, v, |list|);
      UnremovableAreKept(list, v, |list|);
      if |list| > 0 && v[0] { FrontIsFreed(list, v, |list|); }
      hide Kept, Freed;
      assert forall d | |before| <= d < |deleted| :: deleted[d] == gone[d - |before|] && deleted[d] in gone;
      assert forall k | 0 <= k < numThreads :: reservations[..][k] == reservations[k];
    }

    /** The node gets its retirement epoch and joins the list.  `retireStat` does not count it yet. */
    method Enlist(obj: Node, tid: nat)
      requires Valid() && tid < numThreads && obj in birth
      modifies this`retire, retiredList, retiredNodesCount
      ensures Shape() && Counted(tid, 1) && forall t: nat | t < numThreads && t != tid :: Counted(t, 0)
      ensures retire == old(retire)[obj := globalEpoch] && retiredList[tid] == old(retiredList[tid]) + [obj]
      ensures forall t: nat | t < numThreads && t != tid :: retiredList[t] == old(retiredList[t])
    {
      hide Dated;
      assert Counted(tid, 0);
      var re := globalEpoch;
      forall t: nat | t < numThreads ensures Dated(retiredList[t], birth, retire[obj := re]) {
        assert Counted(t, 0);
        DatedStays(retiredList[t], birth, retire, obj, re, 0);
      }
      DatedStays(retiredList[tid], birth, retire, obj, re, 0);
      IncIsPlusOne(retiredNodesCount[tid], |retiredList[tid]|);
      retire := retire[obj := re];
      retiredList[tid] := retiredList[tid] + [obj];
      retiredNodesCount[tid] := Intervals.Inc(retiredNodesCount[tid]);
      forall t: nat | t < numThreads && t != tid ensures Counted(t, 0) { assert old(Counted(t, 0)); }
    }

    /** `retireStat` counts the node at last. */
    method CountLate(tid: nat)
      requires Shape() && tid < numThreads && Counted(tid, 1) && forall t: nat | t < numThreads && t != tid :: Counted(t, 0)
      modifies retireStat
      ensures Valid()
    {
      hide Dated;
      IncIsPlusOne(retireStat[tid], |retiredList[tid]| - 1);
      retireStat[tid] := Intervals.Inc(retireStat[tid]);
      forall t: nat | t < numThreads && t != tid ensures Counted(t, 0) { assert old(Counted(t, 0)); }
    }

    /** Retires obj.  A pass is made exactly when the backlog before the call is a multiple of
        `emptyFreq`, although its test is on a counter that has wrapped in between. */
    method RetireNode(obj: Node, tid: nat)
      requires Valid() && tid < numThreads && (obj != NULL ==> obj in birth)
      modifies this`retire, this`deleted, retiredList, retireStat, retiredNodesCount
      ensures Valid()
      ensures forall t: nat | t < numThreads && t != tid :: retiredList[t] == old(retiredList[t])
      ensures retire == if obj == NULL then old(retire) else old(retire)[obj := globalEpoch]
      ensures obj == NULL ==> retiredList[tid] == old(retiredList[tid]) && deleted == old(deleted)
      ensures var list := old(retiredList[tid]) + [obj];
              obj != NULL ==>
                && Dated(list, birth, retire)
                && retiredList[tid] == AfterCall(old(retiredList[tid]), Call(obj, reservations[..]), emptyFreq, birth, retire)
                && deleted == old(deleted) + (if Fires(|list| - 1, emptyFreq) then Freed(list, Verdicts(list, reservations[..], birth, retire)) else [])
    {
      if obj == NULL {
        return;
      }
      hide Dated, Kept, Freed, Verdicts, Intervals.Inc, Intervals.Conflict;
      Enlist(obj, tid);
      if retireStat[tid] % emptyFreq == 0 {
        EmptyRetireList(tid);
      }
      CountLate(tid);
    }
  }

  /** A pass is made by a call that finds a backlog of this length. */
  predicate Fires(backlog: nat, emptyFreq: nat)
    requires emptyFreq > 0
  {
    backlog % WORD % emptyFreq == 0
  }

  // ---------------------------------------------------------------- the backlog

  /** As long as lists are shorter than a word can count, the backlog is what counts. */
  lemma FiresOnMultiples(backlog: nat, emptyFreq: nat)
    requires emptyFreq > 0 && backlog < WORD
    ensures Fires(backlog, emptyFreq) <==> backlog % emptyFreq == 0
  {
    assert backlog % WORD == backlog;
  }

  /** One call of `retireNode`: the node, and the reservations that its pass copies, if any. */
  datatype Call = Call(n: Node, reservations: seq<nat>)

  /** The list after a call, as the method `RetireNode` leaves it. */
  function AfterCall(list: seq<Node>, c: Call, emptyFreq: nat, birth: map<Node, nat>, retire: map<Node, nat>): seq<Node>
    requires emptyFreq > 0 && Dated(list + [c.n], birth, retire)
  {
    if Fires(|list|, emptyFreq) then Kept(list + [c.n], Verdicts(list + [c.n], c.reservations, birth, retire)) else list + [c.n]
  }

  /** A call that finds a backlog of a multiple of `emptyFreq` and no reservation frees every second
      node, the first one first, and keeps the others in order. */
  lemma NothingReserved(list: seq<Node>, c: Call, emptyFreq: nat, birth: map<Node, nat>, retire: map<Node, nat>)
    requires emptyFreq > 0 && Dated(list + [c.n], birth, retire) && |list| < WORD && |list| % emptyFreq == 0
    requires forall k | 0 <= k < |c.reservations| :: c.reservations[k] == 0xFFFF_FFFF_FFFF_FFFF
    requires forall n | n in list + [c.n] :: retire[n] < 0xFFFF_FFFF_FFFF_FFFF
    ensures var all, after := list + [c.n], AfterCall(list, c, emptyFreq, birth, retire);
            |after| == |all| / 2 && forall q | 0 <= q < |all| / 2 :: after[q] == all[2 * q + 1]
    ensures var all := list + [c.n];
            var gone := Freed(all, Verdicts(all, c.reservations, birth, retire));
            |gone| == |all| - |all| / 2 && forall q | 0 <= q < |all| - |all| / 2 :: gone[q] == all[2 * q]
  {
    var all := list + [c.n];
    var v := Verdicts(all, c.reservations, birth, retire);
    FiresOnMultiples(|list|, emptyFreq);
    forall q | 0 <= q < |v| ensures v[q] { assert all[q] in all; }
    EverySecond(all, v, |all|);
  }

  /** How many nodes of the list a pass has to keep. */
  function Conflicting(list: seq<Node>, reservations: seq<nat>, birth: map<Node, nat>, retire: map<Node, nat>): int
    requires Dated(list, birth, retire)
  {
    |list| - Count(Verdicts(list, reservations, birth, retire))
  }

  /** The list after some calls of one thread, each node with its final epochs. */
  function AfterCalls(calls: seq<Call>, emptyFreq: nat, birth: map<Node, nat>, retire: map<Node, nat>): (list: seq<Node>)
    requires emptyFreq > 0 && forall c | c in calls :: c.n in birth && c.n in retire
    ensures Dated(list, birth, retire)
  {
    if calls == [] then []
    else
      var before, c := AfterCalls(calls[..|calls| - 1], emptyFreq, birth, retire), calls[|calls| - 1];
      assert Dated(before + [c.n], birth, retire);
      KeptAreOld(before + [c.n], Verdicts(before + [c.n], c.reservations, birth, retire), |before| + 1);
      AfterCall(before, c, emptyFreq, birth, retire)
  }

  /** At most b nodes conflict in the pass of the i-th call, if it makes one. */
  ghost predicate ConflictsBounded(
    calls: seq<Call>, i: nat, b: nat, emptyFreq: nat, birth: map<Node, nat>, retire: map<Node, nat>)
    requires i < |calls| && emptyFreq > 0 && forall c | c in calls :: c.n in birth && c.n in retire
  {
    var before := AfterCalls(calls[..i], emptyFreq, birth, retire);
    assert Dated(before + [calls[i].n], birth, retire);
    Fires(|before|, emptyFreq) ==> Conflicting(before + [calls[i].n], calls[i].reservations, birth, retire) <= b
  }

  function CeilDiv(b: nat, e: nat): nat
    requires e > 0
  {
    (b + e - 1) / e
  }

  lemma CeilCovers(b: nat, e: nat)
    requires e > 0
    ensures b <= e * CeilDiv(b, e)
  {
    var q := b + e - 1;
    assert q == e * (q / e) + q % e;
  }

  lemma {:induction false} ProductAtLeast(e: nat, d: nat)
    requires d > 0
    ensures e * d >= e
  {
    if d > 1 {
      ProductAtLeast(e, d - 1);
      assert e * d == e * (d - 1) + e;
    }
  }

  lemma MultipleOf(e: nat, k: nat)
    requires e > 0
    ensures (e * k) % e == 0
  {
    var q := (e * k) / e;
    assert e * k == e * q + (e * k) % e;
    assert e * (k - q) == e * k - e * q && e * (q - k) == e * q - e * k;
    if k > q { ProductAtLeast(e, k - q); } else if q > k { ProductAtLeast(e, q - k); }
  }

  lemma BelowMultiple(x: nat, e: nat, k: nat)
    requires e > 0 && x <= e * k && x % e != 0
    ensures x < e * k
  {
    MultipleOf(e, k);
  }

  lemma CallStaysBelow(list: seq<Node>, c: Call, emptyFreq: nat, b: nat, birth: map<Node, nat>, retire: map<Node, nat>)
    requires emptyFreq > 0 && Dated(list + [c.n], birth, retire)
    requires |list| <= emptyFreq * CeilDiv(b, emptyFreq) && |list| < WORD
    requires Fires(|list|, emptyFreq) ==> Conflicting(list + [c.n], c.reservations, birth, retire) <= b
    ensures |AfterCall(list, c, emptyFreq, birth, retire)| <= emptyFreq * CeilDiv(b, emptyFreq)
  {
    FiresOnMultiples(|list|, emptyFreq);
    var v := Verdicts(list + [c.n], c.reservations, birth, retire);
    if Fires(|list|, emptyFreq) {
      CeilCovers(b, emptyFreq);
      Conserved(list + [c.n], v);
      FreesHalf(list + [c.n], v);
    } else {
      BelowMultiple(|list|, emptyFreq, CeilDiv(b, emptyFreq));
    }
  }

  /** The backlog bound: when at most b nodes conflict in any pass, the backlog of a thread never
      exceeds E * ceil(b / E), for E = emptyFreq. */
  lemma {:induction false} BacklogBound(calls: seq<Call>, b: nat, emptyFreq: nat, birth: map<Node, nat>, retire: map<Node, nat>)
    requires emptyFreq > 0 && (forall c | c in calls :: c.n in birth && c.n in retire)
    requires emptyFreq * CeilDiv(b, emptyFreq) < WORD
    requires forall i: nat | i < |calls| :: ConflictsBounded(calls, i, b, emptyFreq, birth, retire)
    ensures |AfterCalls(calls, emptyFreq, birth, retire)| <= emptyFreq * CeilDiv(b, emptyFreq)
  {
    if calls != [] {
      var less, c := calls[..|calls| - 1], calls[|calls| - 1];
      forall i: nat | i < |less| ensures ConflictsBounded(less, i, b, emptyFreq, birth, retire) {
        assert ConflictsBounded(calls, i, b, emptyFreq, birth, retire) && less[..i] == calls[..i];
      }
      BacklogBound(less, b, emptyFreq, birth, retire);
      assert ConflictsBounded(calls, |less|, b, emptyFreq, birth, retire);
      CallStaysBelow(AfterCalls(less, emptyFreq, birth, retire), c, emptyFreq, b, birth, retire);
    }
  }

  // ---------------------------------------------------------------- the steps of `Intervals` make the same pass

  /** Thread t is in one and the same pass from state a, where it has copied the reservations,
      to state b, whatever the other threads do meanwhile. */
  ghost predicate InOnePass(run: seq<Intervals.State>, steps: seq<Intervals.Step>, a: nat, b: nat, t: nat) {
    && Intervals.IsRun(run, steps) && a <= b < |run| && t < |run[a].threads|
    && run[a].threads[t].pc == Intervals.Sweep(0)
    && forall x | a <= x <= b :: t < |run[x].threads| && run[x].threads[t].pc.Sweep?
  }

  lemma ListIsDated(s: Intervals.State, t: nat)
    requires Intervals.Inv(s) && t < |s.threads|
    ensures Dated(s.threads[t].list, s.birth, s.retire)
  {
    assert Intervals.ThreadOk(s, s.threads[t]);
    forall n | n in s.threads[t].list ensures n in s.birth && n in s.retire { assert Intervals.NodeOk(s, n); }
  }

  /** The epochs of a retired node are final. */
  lemma EpochsStay(s: Intervals.State, st: Intervals.Step, n: Node)
    requires Intervals.Inv(s) && Intervals.Enabled(s, st) && n in s.retire && n in s.birth
    ensures var s' := Intervals.Apply(s, st);
            n in s'.birth && s'.birth[n] == s.birth[n] && n in s'.retire && s'.retire[n] == s.retire[n]
            && s.freed <= s'.freed
  {
    assert Intervals.ThreadOk(s, s.threads[st.t]);
  }

  lemma {:induction false} EpochsStayLong(run: seq<Intervals.State>, steps: seq<Intervals.Step>, a: nat, b: nat, n: Node)
    requires Intervals.IsRun(run, steps) && a <= b < |run| && n in run[a].retire && n in run[a].birth
    ensures n in run[b].birth && run[b].birth[n] == run[a].birth[n] && n in run[b].retire && run[b].retire[n] == run[a].retire[n]
  {
    hide Intervals.Inv, Intervals.Apply, Intervals.Enabled;
    if a < b {
      EpochsStayLong(run, steps, a, b - 1, n);
      Intervals.RunStep(run, steps, b - 1);
      Intervals.RunKeepsInv(run, steps, b - 1);
      EpochsStay(run[b - 1], steps[b - 1], n);
    }
  }

  /** One own step of the pass. */
  lemma SweepStep(s: Intervals.State, t: nat, list: seq<Node>, v: seq<bool>, p: nat, gone: seq<Node>)
    requires Intervals.Inv(s) && Intervals.Enabled(s, Intervals.Step(t, Intervals.Go)) && s.threads[t].pc.Sweep?
    requires Intervals.Apply(s, Intervals.Step(t, Intervals.Go)).threads[t].pc.Sweep?
    requires InSweep(list, v, p, s.threads[t].list, s.threads[t].pc.i, gone)
    requires p < |list| ==> v[p] == Intervals.Removable(s, s.threads[t].snap, list[p])
    ensures var th, s' := s.threads[t], Intervals.Apply(s, Intervals.Step(t, Intervals.Go));
            var freed := th.pc.i < |th.list| && v[p];
            && p < |list| == |v| && s'.threads[t].snap == th.snap
            && InSweep(list, v, if freed then NextPlace(|list|, p, true) else p + 1,
                       s'.threads[t].list, s'.threads[t].pc.i, if freed then gone + [list[p]] else gone)
            && (freed ==> list[p] in s'.freed)
  {
    var th := s.threads[t];
    SweepGoesOn(list, v, p, th.list, th.pc.i, gone);
    hide InSweep, Intervals.Conflict, Intervals.Inv;
  }

  lemma OthersSweep(s: Intervals.State, st: Intervals.Step, t: nat)
    requires Intervals.Enabled(s, st) && st.t != t && t < |s.threads|
    ensures Intervals.Apply(s, st).threads[t] == s.threads[t] && s.freed <= Intervals.Apply(s, st).freed
  {
    Intervals.OthersStand(s, st, t);
  }

  lemma GoesOn(s: Intervals.State, st: Intervals.Step)
    requires Intervals.Enabled(s, st) && s.threads[st.t].pc.Sweep?
    ensures st == Intervals.Step(st.t, Intervals.Go) && s.freed <= Intervals.Apply(s, st).freed
  {
  }

  /** How far the pass is: the places before p are decided as a pass on the copy decides them. */
  ghost predicate Decided(s: Intervals.State, t: nat, list: seq<Node>, v: seq<bool>, snap: seq<nat>, p: nat, gone: seq<Node>)
    requires t < |s.threads| && s.threads[t].pc.Sweep?
  {
    && InSweep(list, v, p, s.threads[t].list, s.threads[t].pc.i, gone)
    && s.threads[t].snap == snap && (forall n | n in gone :: n in s.freed)
  }

  lemma PassStep(
    s: Intervals.State, st: Intervals.Step, t: nat, list: seq<Node>, v: seq<bool>, snap: seq<nat>, p: nat, gone: seq<Node>)
    returns (p': nat, gone': seq<Node>)
    requires Intervals.Inv(s) && Intervals.Enabled(s, st) && t < |s.threads| && s.threads[t].pc.Sweep?
    requires t < |Intervals.Apply(s, st).threads| && Intervals.Apply(s, st).threads[t].pc.Sweep?
    requires Decided(s, t, list, v, snap, p, gone)
    requires |list| == |v| && (p < |list| ==> v[p] == Intervals.Removable(s, snap, list[p]))
    ensures Decided(Intervals.Apply(s, st), t, list, v, snap, p', gone')
  {
    hide Intervals.Inv, Intervals.Enabled, Intervals.Apply, Intervals.Removable, InSweep;
    if st.t != t {
      OthersSweep(s, st, t);
      p', gone' := p, gone;
    } else {
      GoesOn(s, st);
      SweepStep(s, t, list, v, p, gone);
      var freed := s.threads[t].pc.i < |s.threads[t].list| && v[p];
      p' := if freed then NextPlace(|list|, p, true) else p + 1;
      gone' := if freed then gone + [list[p]] else gone;
    }
  }

  lemma VerdictStays(run: seq<Intervals.State>, steps: seq<Intervals.Step>, a: nat, b: nat, list: seq<Node>, snap: seq<nat>, p: nat)
    requires Intervals.IsRun(run, steps) && a <= b < |run| && Dated(list, run[a].birth, run[a].retire) && p < |list|
    ensures Verdicts(list, snap, run[a].birth, run[a].retire)[p] == Intervals.Removable(run[b], snap, list[p])
  {
    EpochsStayLong(run, steps, a, b, list[p]);
  }

  lemma {:induction false} PassSoFar(run: seq<Intervals.State>, steps: seq<Intervals.Step>, a: nat, b: nat, t: nat, v: seq<bool>)
    returns (p: nat, gone: seq<Node>)
    requires InOnePass(run, steps, a, b, t) && Dated(run[a].threads[t].list, run[a].birth, run[a].retire)
    requires v == Verdicts(run[a].threads[t].list, run[a].threads[t].snap, run[a].birth, run[a].retire)
    ensures Decided(run[b], t, run[a].threads[t].list, v, run[a].threads[t].snap, p, gone)
  {
    hide Intervals.IsRun, Intervals.Apply, Intervals.Enabled, Intervals.Inv, Intervals.Removable, InSweep;
    var list, snap := run[a].threads[t].list, run[a].threads[t].snap;
    if a == b {
      SweepStarts(list, v);
      p, gone := 0, [];
    } else {
      p, gone := PassSoFar(run, steps, a, b - 1, t, v);
      Intervals.RunStep(run, steps, b - 1);
      Intervals.RunKeepsInv(run, steps, b - 1);
      if p < |list| { VerdictStays(run, steps, a, b - 1, list, snap, p); }
      assert t < |run[b - 1].threads| && run[b - 1].threads[t].pc.Sweep? && t < |run[b].threads| && run[b].threads[t].pc.Sweep?;
      hide Verdicts, Decided;
      p, gone := PassStep(run[b - 1], steps[b - 1], t, list, v, snap, p, gone);
    }
  }

  /** In every interleaving the pass of a thread is the exact pass on its copy of the
      reservations: when it has come to its end, what it kept is what `Sweeping` says, in
      order, and what it freed has been deleted. */
  lemma PassIsExact(run: seq<Intervals.State>, steps: seq<Intervals.Step>, a: nat, b: nat, t: nat)
    requires InOnePass(run, steps, a, b, t) && run[b].threads[t].pc.i >= |run[b].threads[t].list|
    ensures Dated(run[a].threads[t].list, run[a].birth, run[a].retire)
    ensures var list := run[a].threads[t].list;
            var v := Verdicts(list, run[a].threads[t].snap, run[a].birth, run[a].retire);
            run[b].threads[t].list == Kept(list, v) && forall n | n in Freed(list, v) :: n in run[b].freed
  {
    Intervals.RunKeepsInv(run, steps, a);
    ListIsDated(run[a], t);
    var list := run[a].threads[t].list;
    var v := Verdicts(list, run[a].threads[t].snap, run[a].birth, run[a].retire);
    var p, gone := PassSoFar(run, steps, a, b, t, v);
    hide Intervals.IsRun, Intervals.Inv, Verdicts;
    SweepEnds(list, v, p, run[b].threads[t].list, run[b].threads[t].pc.i, gone);
  }

  /** What `retireStat` counts: the list, but for the node that is being retired. */
  ghost predicate CounterOk(th: Intervals.Thread) {
    th.retireStat == (|th.list| - (if th.pc.Snapshot? || th.pc.Sweep? then 1 else 0)) % WORD
  }

  lemma StepKeepsCounter(s: Intervals.State, st: Intervals.Step, t: nat)
    requires Intervals.Enabled(s, st) && t < |s.threads| && CounterOk(s.threads[t])
    ensures t < |Intervals.Apply(s, st).threads| && CounterOk(Intervals.Apply(s, st).threads[t])
  {
    var th := s.threads[t];
    if st.t != t { Intervals.OthersStand(s, st, t); }
    else {
      var counted := |th.list| - (if th.pc.Snapshot? || th.pc.Sweep? then 1 else 0);
      IncIsPlusOne(th.retireStat, counted);
      DecIsMinusOne(th.retireStat, counted);
      hide Intervals.Removable, Intervals.Inc, Intervals.Dec;
    }
  }

  /** In every interleaving `retireStat` is the length of the list at call boundaries, modulo 2 to
      the 64, so that a pass is made exactly when the backlog is a multiple of `emptyFreq`. */
  lemma {:induction false} CounterIsLength(run: seq<Intervals.State>, steps: seq<Intervals.Step>, i: nat, t: nat)
    requires Intervals.IsRun(run, steps) && i < |run| && t < |run[i].threads|
    ensures CounterOk(run[i].threads[t])
    ensures run[i].threads[t].pc.Stamp? && run[i].emptyFreq > 0 ==>
              (Intervals.NextThread(run[i], run[i].threads[t]).pc.Snapshot? <==> Fires(|run[i].threads[t].list|, run[i].emptyFreq))
  {
    if i > 0 {
      Intervals.RunStep(run, steps, i - 1);
      SameThreads(run[i - 1], steps[i - 1]);
      CounterIsLength(run, steps, i - 1, t);
      hide Intervals.IsRun, Intervals.Enabled, Intervals.Apply, CounterOk;
      StepKeepsCounter(run[i - 1], steps[i - 1], t);
    }
    hide Intervals.IsRun, Intervals.Apply;
  }

  lemma SameThreads(s: Intervals.State, st: Intervals.Step)
    requires Intervals.Enabled(s, st)
    ensures |Intervals.Apply(s, st).threads| == |s.threads|
  {
  }
}
