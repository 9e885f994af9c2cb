/** How many steps a scan of a retired list takes that reads a table slot by slot. */
module ScanSteps {
  import Eras
  import Hazards

  /** The slots in the rows from k on. */
  function SlotsFrom(threads: nat, slots: nat, k: nat): nat
    decreases threads - k
  {
    if k >= threads then 0 else slots + SlotsFrom(threads, slots, k + 1)
  }

  function Times(n: nat, w: nat): nat {
    if n == 0 then 0 else w + Times(n - 1, w)
  }

  /** The steps left when the loop is at place i of a list of len nodes, with `here` slots to read for
      the node there, and `whole` slots for each one after it. */
  function StepsLeft(len: nat, i: nat, here: nat, whole: nat): nat {
    if i >= len then 1 else Times(len - 1 - i, whole + 1) + here + 2
  }

  /** The slots left to read in the row under the cursor and after it. */
  function Here(threads: nat, slots: nat, k: nat, j: nat): nat {
    if k < threads && j <= slots then SlotsFrom(threads, slots, k) - j else 0
  }

  lemma {:induction false} TimesGrows(m: nat, n: nat, w: nat)
    requires m <= n
    ensures Times(m, w) <= Times(n, w)
  {
    if m < n { TimesGrows(m, n - 1, w); }
  }

  lemma {:induction false} TimesIsProduct(n: nat, w: nat)
    ensures Times(n, w) == n * w
  {
    if n > 0 {
      TimesIsProduct(n - 1, w);
      assert n * w == (n - 1) * w + w;
    }
  }

  lemma {:induction false} SlotsAreProduct(threads: nat, slots: nat, k: nat)
    requires k <= threads
    ensures SlotsFrom(threads, slots, k) == (threads - k) * slots
    decreases threads - k
  {
    if k < threads {
      SlotsAreProduct(threads, slots, k + 1);
      assert (threads - k) * slots == (threads - (k + 1)) * slots + slots;
    }
  }

  lemma {:induction false} HereIsWithin(threads: nat, slots: nat, k: nat, j: nat)
    ensures Here(threads, slots, k, j) <= SlotsFrom(threads, slots, k) <= SlotsFrom(threads, slots, 0)
  {
    if k > 0 { HereIsWithin(threads, slots, k - 1, 0); }
  }

  /** One slot is read, or the rest of a row is left out. */
  lemma SlotRead(threads: nat, slots: nat, k: nat, j: nat)
    requires k < threads && j < slots
    ensures j + 1 < slots ==> Here(threads, slots, k, j + 1) < Here(threads, slots, k, j)
    ensures Here(threads, slots, k + 1, 0) < Here(threads, slots, k, j)
  {
  }

  /** The loop goes on to the next node, of a list that has not grown. */
  lemma NextNode(len: nat, len': nat, i: nat, here: nat, whole: nat)
    requires i < len && len' <= len
    ensures StepsLeft(len', i + 1, whole, whole) < StepsLeft(len, i, here, whole)
  {
    if i + 1 < len' { TimesGrows(len' - 2 - i, len - 2 - i, whole + 1); }
  }

  // ---------------------------------------------------------------- the scan of hazard pointers

  function HazardSteps(r: Hazards.Retirer, threads: nat, slots: nat): nat {
    if r.cursor.Scanning? then
      StepsLeft(|r.list|, r.cursor.i, Here(threads, slots, r.cursor.k, r.cursor.j), SlotsFrom(threads, slots, 0))
    else 0
  }

  lemma CompareFalls(r: Hazards.Retirer, v: nat, threads: nat, slots: nat)
    requires r.cursor.Scanning? && r.cursor.i < |r.list| && r.cursor.k < threads && r.cursor.j < slots
    ensures HazardSteps(Hazards.Compare(r, v, slots), threads, slots) < HazardSteps(r, threads, slots)
  {
    SlotRead(threads, slots, r.cursor.k, r.cursor.j);
  }

  lemma DecideFalls(r: Hazards.Retirer, threads: nat, slots: nat)
    requires r.cursor.Scanning? && r.cursor.i < |r.list|
    ensures HazardSteps(Hazards.Decide(r), threads, slots) < HazardSteps(r, threads, slots)
  {
    var whole, here := SlotsFrom(threads, slots, 0), Here(threads, slots, r.cursor.k, r.cursor.j);
    assert Here(threads, slots, 0, 0) == whole;
    if r.cursor.flag { NextNode(|r.list|, |r.list| - 1, r.cursor.i, here, whole); }
    else { NextNode(|r.list|, |r.list|, r.cursor.i, here, whole); }
  }

  /** What a whole scan of a list takes at most. */
  function WholeScan(len: nat, threads: nat, slots: nat): nat {
    StepsLeft(len, 0, SlotsFrom(threads, slots, 0), SlotsFrom(threads, slots, 0))
  }

  lemma WholeScanIs(len: nat, threads: nat, slots: nat)
    ensures WholeScan(len, threads, slots) == len * (threads * slots + 1) + 1
  {
    SlotsAreProduct(threads, slots, 0);
    if len > 0 {
      TimesIsProduct(len - 1, threads * slots + 1);
      assert len * (threads * slots + 1) == (len - 1) * (threads * slots + 1) + (threads * slots + 1);
    }
  }

  lemma RetireStarts(r: Hazards.Retirer, n: nat, threads: nat, slots: nat)
    ensures HazardSteps(Hazards.Retire(r, n), threads, slots) == WholeScan(|r.list| + 1, threads, slots)
  {
  }

  lemma {:induction false} WholeScanGrows(m: nat, n: nat, threads: nat, slots: nat)
    requires m <= n
    ensures WholeScan(m, threads, slots) <= WholeScan(n, threads, slots)
  {
    if 0 < m { TimesGrows(m - 1, n - 1, SlotsFrom(threads, slots, 0) + 1); }
  }

  // ---------------------------------------------------------------- retireNode of hazard eras

  function EraSteps(r: Eras.Retirer, threads: nat, slots: nat): nat {
    match r.cursor
    case Resting => 0
    case Stamping(_) => WholeScan(|r.list| + 1, threads, slots) + 3
    case Testing(_) => WholeScan(|r.list|, threads, slots) + 2
    case Adding => WholeScan(|r.list|, threads, slots) + 1
    case Scanning(i, k, j) => StepsLeft(|r.list|, i, Here(threads, slots, k, j), SlotsFrom(threads, slots, 0))
  }

  lemma ReclaimFalls(e: Eras.Table, r: Eras.Retirer, slots: nat)
    requires !r.cursor.Resting? && forall k | 0 <= k < |e.rows| :: |e.rows[k]| == slots
    requires r.cursor.Scanning? && r.cursor.k < |e.rows| ==> r.cursor.j < slots
    ensures EraSteps(Eras.Reclaim(e, r), |e.rows|, slots) < EraSteps(r, |e.rows|, slots)
    ensures var c := Eras.Reclaim(e, r).cursor; slots > 0 && c.Scanning? && c.k < |e.rows| ==> c.j < slots
  {
    if r.cursor.Scanning? && r.cursor.i < |r.list| {
      var whole, here := SlotsFrom(|e.rows|, slots, 0), Here(|e.rows|, slots, r.cursor.k, r.cursor.j);
      assert Here(|e.rows|, slots, 0, 0) == whole;
      NextNode(|r.list|, |r.list|, r.cursor.i, here, whole);
      NextNode(|r.list|, |r.list| - 1, r.cursor.i, here, whole);
      if r.cursor.k < |e.rows| { SlotRead(|e.rows|, slots, r.cursor.k, r.cursor.j); }
    }
  }
}
