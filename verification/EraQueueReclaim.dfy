/** What becomes of the nodes that a dequeue of the era queue takes out: none is lost, the life that
    a scan compares with is exactly the time between allocation and retirement, none is spared by a
    scan without a reason, and a thread between two calls protects none. */
module EraQueueReclaim {
  import opened QueueMemory
  import opened TailFifo
  import Eras
  import EraScans
  import Sweeping
  import opened EraQueue
  import opened EraQueueProofs
  import opened EraQueueResults
  import opened EraQueueCalls

  // ---------------------------------------------------------------- nothing leaks

  /** Between the exchange of head and the push to the retired list the node is in the hands of the
      dequeue. */
  predicate InHand(th: Thread, n: Node) {
    (th.pc.ReadItem? && th.node == n) || th.ret.cursor == Eras.Stamping(n)
  }

  /** A node that is out of the queue and not deleted waits in the retired list of the thread that
      took it out, or is about to be put there. */
  predicate Waits(s: State, n: Node) {
    n in s.m.life && s.m.life[n].Out? ==>
      && s.m.life[n].owner < |s.threads|
      && (n in s.threads[s.m.life[n].owner].ret.list || InHand(s.threads[s.m.life[n].owner], n))
  }

  lemma ErasedIsOne(list: seq<Node>, i: nat, n: Node)
    requires i < |list| && n in list && n != list[i]
    ensures n in list[..i] + list[i + 1..]
  {
    var k :| 0 <= k < |list| && list[k] == n;
    assert (list[..i] + list[i + 1..])[if k < i then k else k - 1] == n;
  }

  /** Which nodes a step puts out of the queue, and which it takes out of a retired list. */
  lemma OutInStep(m: Memory, e: Eras.Table, t: nat, th: Thread, n: Node)
    requires Safe(m, e, th) && (th.pc.Retiring? <==> !th.ret.cursor.Resting?)
    ensures var th', m' := NextThread(m, e, t, th), NextMemory(m, e, t, th);
            && (n in m'.life && m'.life[n].Out? ==> (n in m.life && m'.life[n] == m.life[n]) || (m'.life[n] == Out(0, t) && InHand(th', n)))
            && (n in th.ret.list && n in m'.life && !m'.life[n].Freed? ==> n in th'.ret.list)
            && (InHand(th, n) ==> InHand(th', n) || n in th'.ret.list)
  {
    if Eras.DeletesNow(e, th.ret) && n in th.ret.list && n != th.ret.list[th.ret.cursor.i] {
      ErasedIsOne(th.ret.list, th.ret.cursor.i, n);
    }
  }

  lemma StepKeepsWaiting(s: State, slots: nat, st: Step, n: Node)
    requires Inv(s, slots) && Enabled(s, st) && Waits(s, n)
    ensures Waits(Apply(s, st), n)
  {
    if st.a.Go? {
      CanGoFromInv(s, slots, st.t);
      assert ThreadOk(s.m, s.e, st.t, s.threads[st.t]);
      hide Inv, Apply, NextMemory, NextThread, NextTable;
      OutInStep(s.m, s.e, st.t, s.threads[st.t], n);
    } else {
      assert ThreadOk(s.m, s.e, st.t, s.threads[st.t]);
      hide Inv;
    }
  }

  /** Nothing leaks: in every run a node that is out of the queue and not deleted is in the retired
      list of the thread that took it out, or that thread is on its way to put it there. */
  lemma {:induction false} NothingLeaks(run: seq<State>, steps: seq<Step>, slots: nat, i: nat, n: Node)
    requires IsRun(run, steps, slots) && i < |run|
    ensures Waits(run[i], n)
  {
    hide IsRun, Inv, Apply, Waits;
    if i == 0 {
      StartsWaiting(run, steps, slots, n);
    } else {
      NothingLeaks(run, steps, slots, i - 1, n);
      RunStep(run, steps, slots, i - 1);
      RunKeepsInv(run, steps, slots, i - 1);
      StepKeepsWaiting(run[i - 1], slots, steps[i - 1], n);
    }
  }

  lemma StartsWaiting(run: seq<State>, steps: seq<Step>, slots: nat, n: Node)
    requires IsRun(run, steps, slots)
    ensures Waits(run[0], n)
  {
  }

  /** The eras of a node are what the clock showed: when its enqueue began, and when it was retired. */
  lemma ErasAreClock(s: State, slots: nat, st: Step, n: Node)
    requires Inv(s, slots) && Enabled(s, st)
    ensures var s', th := Apply(s, st), s.threads[st.t];
            && (n in s'.e.birth && n !in s.e.birth ==> s'.e.birth[n] == s.e.clock && th.pc.ReadEra? && th.own == n)
            && (n in s'.e.del && n !in s.e.del ==> s'.e.del[n] == s.e.clock && th.ret.cursor == Eras.Stamping(n))
            && (th.pc.ReadEra? && th.own == n ==> n in s'.e.birth && forall t, j :: Eras.EraOf(s'.e, t, j) <= s'.e.birth[n])
            && (n in s.e.birth ==> n in s'.e.birth && s'.e.birth[n] == s.e.birth[n])
            && (n in s.e.del ==> n in s'.e.del && s'.e.del[n] == s.e.del[n])
  {
    if st.a.Go? {
      CanGoFromInv(s, slots, st.t);
      var th := s.threads[st.t];
      StepKeepsTable(s.m, s.e, st.t, th);
      assert Eras.NodeAdvances(s.e, NextTable(s.e, st.t, th), n);
      assert ThreadOk(s.m, s.e, st.t, th) && Eras.TableOk(s.e);
      hide Inv, Apply, Eras.Advances, KnowsOk, RetiredOk, MemoryOk, EraLives;
      TableStep(s.e, st.t, th, n);
    }
  }

  lemma TableStep(e: Eras.Table, t: nat, th: Thread, n: Node)
    ensures var e' := NextTable(e, t, th);
            && (n in e'.birth && n !in e.birth ==> e'.birth[n] == e.clock && th.pc.ReadEra? && th.own == n)
            && (n in e'.del && n !in e.del ==> e'.del[n] == e.clock && th.ret.cursor == Eras.Stamping(n))
            && (th.pc.ReadEra? ==> e' == Eras.Born(e, th.own))
  {
  }

  // ---------------------------------------------------------------- idle threads protect nothing

  /** How far the slots are cleared. */
  predicate Cleared(row: seq<nat>, th: Thread) {
    && (th.pc.Idle? || th.pc.Done? ==> forall j | 0 <= j < |row| :: row[j] == 0)
    && (th.pc.ClearEnqueue? || th.pc.ClearDequeue? || th.pc.ClearEmpty? ==> forall j | 0 <= j < |row| && j < th.c :: row[j] == 0)
  }

  lemma StepClears(s: State, slots: nat, st: Step, r: nat)
    requires Inv(s, slots) && Enabled(s, st) && r < |s.threads| && Cleared(s.e.rows[r], s.threads[r])
    ensures |Apply(s, st).e.rows| == |Apply(s, st).threads| == |s.threads|
    ensures Cleared(Apply(s, st).e.rows[r], Apply(s, st).threads[r])
  {
    assert |s.e.rows[r]| == slots;
    if st.a.Go? {
      CanGoFromInv(s, slots, st.t);
      hide Inv, Apply, NextMemory, CanGo, Cleared, Rows;
      OtherRowsStand(s.e, st.t, s.threads[st.t], r);
      if r == st.t { RowClears(s.e, s.m, st.t, s.threads[st.t]); }
    }
  }

  lemma OtherRowsStand(e: Eras.Table, t: nat, th: Thread, r: nat)
    requires t < |e.rows| && r < |e.rows|
    ensures |NextTable(e, t, th).rows| == |e.rows|
    ensures r != t ==> NextTable(e, t, th).rows[r] == e.rows[r]
  {
  }

  lemma RowClears(e: Eras.Table, m: Memory, t: nat, th: Thread)
    requires Safe(m, e, th) && t < |e.rows| && !th.pc.Idle? && Cleared(e.rows[t], th)
    ensures |NextTable(e, t, th).rows| == |e.rows|
    ensures Cleared(NextTable(e, t, th).rows[t], NextThread(m, e, t, th))
  {
  }

  /** A thread between two calls shows no era in any of its slots. */
  lemma {:induction false} IdleProtectsNothing(run: seq<State>, steps: seq<Step>, slots: nat, i: nat, t: nat)
    requires IsRun(run, steps, slots) && i < |run| && t < |run[i].threads|
    ensures |run[i].e.rows| == |run[i].threads| && Cleared(run[i].e.rows[t], run[i].threads[t])
    ensures run[i].threads[t].pc.Idle? || run[i].threads[t].pc.Done? ==>
              forall j | 0 <= j < |run[i].e.rows[t]| :: run[i].e.rows[t][j] == 0
  {
    if i > 0 {
      hide IsRun, Inv, Apply;
      RunStep(run, steps, slots, i - 1);
      RunKeepsInv(run, steps, slots, i - 1);
      SameThreads(run[i - 1], slots, steps[i - 1]);
      IdleProtectsNothing(run, steps, slots, i - 1, t);
      StepClears(run[i - 1], slots, steps[i - 1], t);
    }
  }

  lemma SameThreads(s: State, slots: nat, st: Step)
    requires Inv(s, slots) && Enabled(s, st)
    ensures |Apply(s, st).threads| == |s.threads| == |s.e.rows|
  {
  }

  // ---------------------------------------------------------------- the scan is exact

  /** The tables of the states a..b. */
  ghost function Tables(run: seq<State>, a: nat, b: nat): (tables: seq<seq<seq<nat>>>)
    requires a <= b <= |run|
    ensures |tables| == b - a && forall x | 0 <= x < b - a :: tables[x] == run[a + x].e.rows
  {
    seq(b - a, x requires 0 <= x < b - a => run[a + x].e.rows)
  }

  /** Thread t scans the list from state a, where it starts, to state b. */
  ghost predicate Scans(run: seq<State>, steps: seq<Step>, slots: nat, a: nat, b: nat, t: nat, list: seq<Node>) {
    && IsRun(run, steps, slots) && a <= b < |run| && t < |run[a].threads|
    && run[a].threads[t].ret == Eras.Retirer(list, |list|, Eras.Scanning(0, 0, 0))
    && forall x | a <= x <= b :: t < |run[x].threads| && run[x].threads[t].pc.Retiring?
  }

  ghost predicate AllFreed(m: Memory, list: seq<Node>, v: seq<bool>)
    requires |v| == |list|
  {
    forall q | 0 <= q < |list| && v[q] :: list[q] in m.life && m.life[list[q]].Freed?
  }

  /** How far the scan is in state s. */
  ghost predicate ScanAt(
    s: State, t: nat, slots: nat, tables: seq<seq<seq<nat>>>, birth: map<Node, nat>, del: map<Node, nat>, list: seq<Node>, v: seq<bool>, p: nat)
  {
    && t < |s.threads| && |v| == |list| && EraScans.Dated(s.e, birth, del, list) && AllFreed(s.m, list, v)
    && EraScans.InScan(tables, |s.threads|, slots, birth, del, list, v, p, s.threads[t].ret)
  }

  lemma FreedStay(m: Memory, m': Memory, t: nat, list: seq<Node>, v: seq<bool>)
    requires |v| == |list| && Evolves(m, m', 0, t) && AllFreed(m, list, v)
    ensures AllFreed(m', list, v)
  {
    forall q | 0 <= q < |list| && v[q] ensures list[q] in m'.life && m'.life[list[q]].Freed? {
      assert NodeEvolves(m, m', 0, t, list[q]);
    }
  }

  lemma OwnScanStep(
    s: State, slots: nat, t: nat, tables: seq<seq<seq<nat>>>, birth: map<Node, nat>, del: map<Node, nat>, list: seq<Node>,
    v: seq<bool>, p: nat) returns (v': seq<bool>, p': nat)
    requires Inv(s, slots) && Enabled(s, Step(t, Go)) && s.threads[t].pc.Retiring?
    requires Apply(s, Step(t, Go)).threads[t].pc.Retiring? && ScanAt(s, t, slots, tables, birth, del, list, v, p)
    ensures ScanAt(Apply(s, Step(t, Go)), t, slots, tables + [s.e.rows], birth, del, list, v', p')
  {
    CanGoFromInv(s, slots, t);
    GoKeepsMine(s, slots, t);
    var r, s', th := s.threads[t].ret, Apply(s, Step(t, Go)), s.threads[t];
    assert |s.e.rows| == |s.threads| && slots > 0 && Rows(s.e, slots);
    ReclaimGoesOn(s.m, s.e, t, th);
    EraScans.DatedStays(s.e, s'.e, birth, del, list);
    FreedStay(s.m, s'.m, t, list, v);
    v', p' := v, p;
    hide Inv, Apply, MemoryOk, EraLives, ThreadOk, Evolves, Eras.Advances, Eras.TableOk, NextThread, NextTable, Safe;
    if r.cursor.k < |s.e.rows| {
      p' := EraScans.ScanProbes(tables, s.e, slots, birth, del, list, v, p, r);
    } else {
      v', p' := EraScans.ScanDeletes(tables, s.e, slots, birth, del, list, v, p, r);
      assert s'.m == Free(s.m, list[p]);
    }
    hide EraScans.InScan, EraScans.Dated;
  }

  lemma ReclaimGoesOn(m: Memory, e: Eras.Table, t: nat, th: Thread)
    requires Safe(m, e, th) && th.pc.Retiring? && th.ret.cursor.Scanning? && NextThread(m, e, t, th).pc.Retiring?
    ensures NextThread(m, e, t, th).ret == Eras.Reclaim(e, th.ret) && th.ret.cursor.i < |th.ret.list|
    ensures Eras.DeletesNow(e, th.ret) <==> th.ret.cursor.k >= |e.rows|
    ensures NextMemory(m, e, t, th) == if Eras.DeletesNow(e, th.ret) then Free(m, th.ret.list[th.ret.cursor.i]) else m
  {
  }

  lemma OtherScanStep(
    s: State, slots: nat, st: Step, t: nat, tables: seq<seq<seq<nat>>>, birth: map<Node, nat>, del: map<Node, nat>, list: seq<Node>,
    v: seq<bool>, p: nat)
    requires Inv(s, slots) && Enabled(s, st) && st.t != t && ScanAt(s, t, slots, tables, birth, del, list, v, p)
    ensures ScanAt(Apply(s, st), t, slots, tables + [s.e.rows], birth, del, list, v, p)
  {
    var s' := Apply(s, st);
    OthersStand(s, st, t);
    SameThreads(s, slots, st);
    StepRefinesFifo(s, slots, st);
    assert Eras.Advances(s.e, s'.e) by {
      if st.a.Go? { GoKeepsMine(s, slots, st.t); } else { Eras.NothingAdvances(s.e); }
    }
    hide Inv, Apply, Eras.Advances, Evolves;
    EraScans.DatedStays(s.e, s'.e, birth, del, list);
    FreedStay(s.m, s'.m, st.t, list, v);
    EraScans.ScanWaits(tables, s.e.rows, |s.threads|, slots, birth, del, list, v, p, s.threads[t].ret);
  }

  lemma ListIsDated(s: State, slots: nat, t: nat)
    requires Inv(s, slots) && t < |s.threads|
    ensures EraScans.Dated(s.e, s.e.birth, s.e.del, s.threads[t].ret.list)
  {
    assert ThreadOk(s.m, s.e, t, s.threads[t]);
    var r := s.threads[t].ret;
    forall i | 0 <= i < |r.list| ensures r.list[i] in s.e.birth && r.list[i] in s.e.del { assert Eras.EntryOk(s.e, r, i); }
  }

  lemma {:induction false} ScanSoFar(run: seq<State>, steps: seq<Step>, slots: nat, a: nat, b: nat, t: nat, list: seq<Node>)
    returns (v: seq<bool>, p: nat)
    requires Scans(run, steps, slots, a, b, t, list)
    ensures |run[b].threads| == |run[a].threads|
    ensures ScanAt(run[b], t, slots, Tables(run, a, b), run[a].e.birth, run[a].e.del, list, v, p)
  {
    hide IsRun, Inv, Apply, EraScans.InScan, EraScans.Dated;
    RunKeepsInv(run, steps, slots, a);
    var birth, del := run[a].e.birth, run[a].e.del;
    if a == b {
      ListIsDated(run[a], slots, t);
      SlotsExist(run[a], slots);
      EraScans.ScanStarts(run[a].e, |run[a].threads|, slots, birth, del, list);
      v, p := seq(|list|, _ => false), 0;
      assert Tables(run, a, b) == [];
    } else {
      v, p := ScanSoFar(run, steps, slots, a, b - 1, t, list);
      RunStep(run, steps, slots, b - 1);
      RunKeepsInv(run, steps, slots, b - 1);
      var s, st := run[b - 1], steps[b - 1];
      assert Tables(run, a, b) == Tables(run, a, b - 1) + [s.e.rows];
      SameThreads(s, slots, st);
      assert s.threads[t].pc.Retiring? && run[b].threads[t].pc.Retiring?;
      hide ScanAt, Tables;
      if st.t == t {
        GoOnly(s, st);
        v, p := OwnScanStep(s, slots, t, Tables(run, a, b - 1), birth, del, list, v, p);
      } else {
        OtherScanStep(s, slots, st, t, Tables(run, a, b - 1), birth, del, list, v, p);
      }
    }
  }

  lemma SlotsExist(s: State, slots: nat)
    requires Inv(s, slots)
    ensures slots >= 2
  {
  }

  /** At some moment from a to b slot j of thread k was empty or showed an era outside lo..hi. */
  ghost predicate SawOutside(run: seq<State>, a: nat, b: nat, k: nat, j: nat, lo: nat, hi: nat)
    requires a <= b <= |run|
  {
    exists x | a <= x < b ::
      k < |run[x].e.rows| && j < |run[x].e.rows[k]| && (run[x].e.rows[k][j] == 0 || run[x].e.rows[k][j] < lo || run[x].e.rows[k][j] > hi)
  }

  /** At some moment from a to b some slot showed an era in lo..hi. */
  ghost predicate SawInside(run: seq<State>, a: nat, b: nat, lo: nat, hi: nat)
    requires a <= b <= |run|
  {
    exists x, k, j | a <= x < b && 0 <= k < |run[x].e.rows| && 0 <= j < |run[x].e.rows[k]| ::
      run[x].e.rows[k][j] != 0 && lo <= run[x].e.rows[k][j] <= hi
  }

  lemma SeenInRun(run: seq<State>, a: nat, b: nat)
    requires a <= b < |run|
    ensures forall k: nat, j: nat, lo, hi | EraScans.SeenOutside(Tables(run, a, b), k, j, lo, hi) :: SawOutside(run, a, b, k, j, lo, hi)
    ensures forall lo, hi | EraScans.SeenInside(Tables(run, a, b), lo, hi) :: SawInside(run, a, b, lo, hi)
  {
    var tables := Tables(run, a, b);
    forall k: nat, j: nat, lo, hi | EraScans.SeenOutside(tables, k, j, lo, hi) ensures SawOutside(run, a, b, k, j, lo, hi) {
      var x :| 0 <= x < |tables| && k < |tables[x]| && j < |tables[x][k]|
               && (tables[x][k][j] == 0 || tables[x][k][j] < lo || tables[x][k][j] > hi);
      assert run[a + x].e.rows[k][j] == tables[x][k][j];
    }
    forall lo, hi | EraScans.SeenInside(tables, lo, hi) ensures SawInside(run, a, b, lo, hi) {
      var x :| 0 <= x < |tables| && EraScans.Shows(tables[x], lo, hi);
      var k, j :| 0 <= k < |tables[x]| && 0 <= j < |tables[x][k]| && tables[x][k][j] != 0 && lo <= tables[x][k][j] <= hi;
      assert run[a + x].e.rows[k][j] == tables[x][k][j];
    }
  }

  /** What the scan of the list has done when it is over.  `gone` says which places were freed, no
      two of them next to each other; the others are left, in order.  A node that is freed had, at
      some moment of the scan for each slot, no era of that slot in its life; and a node that was
      looked at and is left had an era in its life at some moment of the scan. */
  ghost predicate ScanIsExact(run: seq<State>, slots: nat, a: nat, b: nat, t: nat, list: seq<Node>, gone: seq<bool>)
    requires a <= b < |run| && t < |run[b].threads| && |gone| == |list|
  {
    var birth, del := run[a].e.birth, run[a].e.del;
    && run[b].threads[t].ret.list == Sweeping.Kept(list, gone)
    && (forall q | 0 <= q < |list| :: list[q] in birth && list[q] in del)
    && (forall q: nat | q < |list| && gone[q] :: list[q] in run[b].m.life && run[b].m.life[list[q]].Freed? && (q > 0 ==> !gone[q - 1]))
    && (forall q: nat, k: nat, j: nat {:trigger SawOutside(run, a, b, k, j, birth[list[q]], del[list[q]])}
          | q < |list| && gone[q] && k < |run[b].threads| && j < slots ::
          SawOutside(run, a, b, k, j, birth[list[q]], del[list[q]]))
    && (forall q: nat | q < |list| && !gone[q] && (q > 0 ==> !gone[q - 1]) :: SawInside(run, a, b, birth[list[q]], del[list[q]]))
  }

  /** In every interleaving the scan is exact. */
  lemma PassIsExact(run: seq<State>, steps: seq<Step>, slots: nat, a: nat, b: nat, t: nat, list: seq<Node>)
    requires Scans(run, steps, slots, a, b, t, list)
    requires run[b].threads[t].ret.cursor.Scanning? && run[b].threads[t].ret.cursor.i >= |run[b].threads[t].ret.list|
    ensures exists gone: seq<bool> :: |gone| == |list| && ScanIsExact(run, slots, a, b, t, list, gone)
  {
    hide IsRun;
    var gone, p := ScanSoFar(run, steps, slots, a, b, t, list);
    var birth, del, tables := run[a].e.birth, run[a].e.del, Tables(run, a, b);
    EraScans.ScanEnds(tables, |run[b].threads|, slots, birth, del, list, gone, p, run[b].threads[t].ret);
    SeenInRun(run, a, b);
    assert forall q | 0 <= q < |list| :: list[q] in birth && list[q] in del;
    hide EraScans.SeenOutside, EraScans.SeenInside, Tables, SawOutside, SawInside, EraScans.InScan, EraScans.Dated, Sweeping.Kept;
    forall q: nat | q < |list| && gone[q] ensures q > 0 ==> !gone[q - 1] {
      assert EraScans.JudgedRight(tables, |run[b].threads|, slots, birth, del, list, gone, q);
    }
    forall q: nat, k: nat, j: nat {:trigger SawOutside(run, a, b, k, j, birth[list[q]], del[list[q]])}
      | q < |list| && gone[q] && k < |run[b].threads| && j < slots
      ensures SawOutside(run, a, b, k, j, birth[list[q]], del[list[q]])
    {
      assert EraScans.JudgedRight(tables, |run[b].threads|, slots, birth, del, list, gone, q);
      assert EraScans.SeenOutside(tables, k, j, birth[list[q]], del[list[q]]);
    }
    forall q: nat | q < |list| && !gone[q] && (q > 0 ==> !gone[q - 1]) ensures SawInside(run, a, b, birth[list[q]], del[list[q]]) {
      assert EraScans.JudgedRight(tables, |run[b].threads|, slots, birth, del, list, gone, q);
    }
    assert ScanIsExact(run, slots, a, b, t, list, gone);
  }

  // ---------------------------------------------------------------- every dequeue makes a scan

  /** From x to y the thread makes a whole scan of the list. */
  ghost predicate WholeScan(run: seq<State>, steps: seq<Step>, slots: nat, x: nat, y: nat, t: nat, list: seq<Node>) {
    && Scans(run, steps, slots, x, y, t, list)
    && run[y].threads[t].ret.cursor.Scanning? && run[y].threads[t].ret.cursor.i >= |run[y].threads[t].ret.list|
  }

  /** In a step from a to b the thread moved head away from n. */
  ghost predicate TookHead(run: seq<State>, steps: seq<Step>, a: nat, b: nat, t: nat, n: Node) {
    exists j | a <= j < b && j < |steps| && j + 1 < |run| :: steps[j].t == t && run[j].m.head == n && run[j + 1].m.head != n
  }

  ghost predicate Scanned(run: seq<State>, steps: seq<Step>, slots: nat, a: nat, b: nat, t: nat)
    requires a < b < |run| && t < |run[a].threads| && t < |run[b].threads|
  {
    var th, list := run[b].threads[t], run[a].threads[t].ret.list;
    exists x, y | a < x <= y < b :: WholeScan(run, steps, slots, x, y, t, list + [th.node]) && th.ret.list == run[y].threads[t].ret.list
  }

  /** What the dequeue that began at a has done to its retired list by state b. */
  ghost predicate RetireSoFar(run: seq<State>, steps: seq<Step>, slots: nat, a: nat, b: nat, t: nat)
    requires a < b < |run| && t < |run[a].threads| && t < |run[b].threads|
  {
    var th, list := run[b].threads[t], run[a].threads[t].ret.list;
    if th.pc.ReadItem? then TookHead(run, steps, a, b, t, th.node) && th.ret.list == list
    else if th.pc.Retiring? then
      && TookHead(run, steps, a, b, t, th.node)
      && match th.ret.cursor
         case Resting => false
         case Stamping(n) => n == th.node && th.ret.list == list
         case Testing(_) => th.ret.list == list + [th.node]
         case Adding => th.ret.list == list + [th.node]
         case Scanning(_, _, _) => exists x | a < x <= b :: Scans(run, steps, slots, x, b, t, list + [th.node])
    else if th.pc.ClearDequeue? || (th.pc.Done? && th.result != NULL) then
      TookHead(run, steps, a, b, t, th.node) && Scanned(run, steps, slots, a, b, t)
    else th.ret.list == list
  }

  /** What a step of any thread does to the retired list of a dequeue. */
  lemma RetireMoves(s: State, slots: nat, st: Step, t: nat)
    requires Inv(s, slots) && Enabled(s, st) && t < |s.threads| && InDequeue(s.threads[t].pc)
    requires t < |Apply(s, st).threads| && !Apply(s, st).threads[t].pc.Idle?
    ensures var th, th' := s.threads[t], Apply(s, st).threads[t];
            && (th.pc.Done? || st.t != t ==> th' == th)
            && (st.t == t && th.pc.ReadItem? ==> th'.pc.Retiring? && th'.ret == th.ret.(cursor := Eras.Stamping(th.node)))
            && (st.t == t && th.pc.Retiring? ==> RetirerMoves(th, th'))
            && (st.t == t && (th.pc.ClearDequeue? || th.pc.ClearEmpty?) ==> th'.ret == th.ret && th'.result == th.result && (th'.pc == th.pc || th'.pc.Done?))
            && (st.t == t && !AfterTake(th.pc) ==>
                  th'.ret == th.ret && (th'.pc.ReadItem? <==> th.pc.HeadCas? && s.m.head == th.node)
                  && !th'.pc.Retiring? && !th'.pc.ClearDequeue? && (th'.pc.Done? ==> th.pc.ClearEmpty?))
            && (AfterTake(th.pc) || th.pc.HeadCas? ==> th'.node == th.node)
  {
    if st.t != t {
      OthersStand(s, st, t);
    } else {
      GoOnly(s, st);
      CanGoFromInv(s, slots, t);
      assert ThreadOk(s.m, s.e, t, s.threads[t]);
      hide Inv, Apply, NextMemory, NextTable, CanGo;
      OwnMoves(s.m, s.e, t, s.threads[t]);
    }
  }

  predicate AfterTake(pc: Pc) {
    pc.ReadItem? || pc.Retiring? || pc.ClearDequeue? || pc.Done?
  }

  /** How the retired list moves in a step of retireNode. */
  predicate RetirerMoves(th: Thread, th': Thread) {
    && th'.result == th.result
    && match th.ret.cursor
       case Resting => false
       case Stamping(n) => th'.pc.Retiring? && th'.ret.cursor.Testing? && th'.ret.list == th.ret.list + [n]
       case Testing(_) =>
         th'.pc.Retiring? && th'.ret.list == th.ret.list && (th'.ret.cursor.Adding? || th'.ret.cursor == Eras.Scanning(0, 0, 0))
       case Adding => th'.pc.Retiring? && th'.ret.list == th.ret.list && th'.ret.cursor == Eras.Scanning(0, 0, 0)
       case Scanning(i, _, _) =>
         || (th'.pc.Retiring? && th'.ret.cursor.Scanning?)
         || (th'.pc.ClearDequeue? && i >= |th.ret.list| && th'.ret.list == th.ret.list)
  }

  lemma OwnMoves(m: Memory, e: Eras.Table, t: nat, th: Thread)
    requires Safe(m, e, th) && InDequeue(th.pc) && !th.pc.Done? && (th.pc.Retiring? <==> !th.ret.cursor.Resting?)
    ensures var th' := NextThread(m, e, t, th);
            && (th.pc.ReadItem? ==> th'.pc.Retiring? && th'.ret == th.ret.(cursor := Eras.Stamping(th.node)))
            && (th.pc.Retiring? ==> RetirerMoves(th, th'))
            && (th.pc.ClearDequeue? || th.pc.ClearEmpty? ==> th'.ret == th.ret && th'.result == th.result && (th'.pc == th.pc || th'.pc.Done?))
            && (!AfterTake(th.pc) ==>
                  th'.ret == th.ret && (th'.pc.ReadItem? <==> th.pc.HeadCas? && m.head == th.node)
                  && !th'.pc.Retiring? && !th'.pc.ClearDequeue? && (th'.pc.Done? ==> th.pc.ClearEmpty?))
            && (AfterTake(th.pc) || th.pc.HeadCas? ==> th'.node == th.node)
  {
  }

  lemma TookStays(run: seq<State>, steps: seq<Step>, a: nat, b: nat, t: nat)
    ensures forall n | TookHead(run, steps, a, b, t, n) :: TookHead(run, steps, a, b + 1, t, n)
  {
  }

  lemma JustTook(run: seq<State>, steps: seq<Step>, a: nat, b: nat, t: nat, n: Node)
    requires a < b < |run| && b <= |steps| && steps[b - 1].t == t && run[b - 1].m.head == n && run[b].m.head != n
    ensures TookHead(run, steps, a, b, t, n)
  {
    var j := b - 1;
    assert steps[j].t == t && run[j].m.head == n && run[j + 1].m.head != n;
  }

  lemma ScanGoesOn(run: seq<State>, steps: seq<Step>, slots: nat, x: nat, b: nat, t: nat, list: seq<Node>)
    requires Scans(run, steps, slots, x, b, t, list) && b + 1 < |run|
    requires t < |run[b + 1].threads| && run[b + 1].threads[t].pc.Retiring?
    ensures Scans(run, steps, slots, x, b + 1, t, list)
  {
  }

  lemma ScanBegins(run: seq<State>, steps: seq<Step>, slots: nat, b: nat, t: nat)
    requires IsRun(run, steps, slots) && b < |run| && t < |run[b].threads| && run[b].threads[t].pc.Retiring?
    requires run[b].threads[t].ret.cursor == Eras.Scanning(0, 0, 0)
    ensures Scans(run, steps, slots, b, b, t, run[b].threads[t].ret.list)
  {
    NoUseAfterFree(run, steps, slots, b, t);
    hide IsRun;
  }

  lemma JustScanned(run: seq<State>, steps: seq<Step>, slots: nat, a: nat, b: nat, t: nat, x: nat)
    requires a < x <= b - 1 && b < |run| && t < |run[a].threads| && t < |run[b].threads|
    requires Scans(run, steps, slots, x, b - 1, t, run[a].threads[t].ret.list + [run[b].threads[t].node])
    requires var r := run[b - 1].threads[t].ret; r.cursor.Scanning? && r.cursor.i >= |r.list| && run[b].threads[t].ret.list == r.list
    ensures Scanned(run, steps, slots, a, b, t)
  {
    assert WholeScan(run, steps, slots, x, b - 1, t, run[a].threads[t].ret.list + [run[b].threads[t].node]);
  }

  lemma ScannedStays(run: seq<State>, steps: seq<Step>, slots: nat, a: nat, b: nat, t: nat)
    requires a < b && b + 1 < |run| && t < |run[a].threads| && t < |run[b].threads| && t < |run[b + 1].threads|
    requires Scanned(run, steps, slots, a, b, t)
    requires run[b + 1].threads[t].node == run[b].threads[t].node && run[b + 1].threads[t].ret.list == run[b].threads[t].ret.list
    ensures Scanned(run, steps, slots, a, b + 1, t)
  {
    var th, list := run[b].threads[t], run[a].threads[t].ret.list;
    var x, y :| a < x <= y < b && WholeScan(run, steps, slots, x, y, t, list + [th.node]) && th.ret.list == run[y].threads[t].ret.list;
    hide WholeScan;
  }

  lemma {:induction false} DequeueScansSoFar(run: seq<State>, steps: seq<Step>, slots: nat, a: nat, b: nat, t: nat)
    requires InCall(run, steps, slots, a, b, t) && steps[a].a.Dequeue?
    ensures t < |run[a].threads| && RetireSoFar(run, steps, slots, a, b, t)
  {
    hide IsRun, Inv, Apply, Contents, Evolves, Scans, Scanned, TookHead, Takes, TakesFirst;
    RunStep(run, steps, slots, b - 1);
    RunKeepsInv(run, steps, slots, b - 1);
    var s, st := run[b - 1], steps[b - 1];
    if a + 1 == b {
      CallKeepsRetired(s, slots, st);
    } else {
      DequeueScansSoFar(run, steps, slots, a, b - 1, t);
      DequeueProgress(run, steps, slots, a, b - 1, t);
      RetireMoves(s, slots, st, t);
      TookStays(run, steps, a, b - 1, t);
      if st.t == t { GoOnly(s, st); HeadOnlyByHeadCas(s, slots, t); }
      var th, th' := s.threads[t], run[b].threads[t];
      assert InDequeue(th.pc) && (th.pc.ClearEmpty? ==> th.result == NULL);
      assert th.pc.Retiring? || th.pc.ClearDequeue? ==> th.result != NULL;
      hide Enabled, DequeueOk, InDequeue;
      RetireGoesOn(run, steps, slots, a, b, t);
    }
  }

  lemma CallKeepsRetired(s: State, slots: nat, st: Step)
    requires Inv(s, slots) && Enabled(s, st) && st.a.Dequeue?
    ensures var th' := Apply(s, st).threads[st.t]; th'.pc.LoadHead? && th'.ret == s.threads[st.t].ret
  {
  }

  lemma RetireGoesOn(run: seq<State>, steps: seq<Step>, slots: nat, a: nat, b: nat, t: nat)
    requires IsRun(run, steps, slots) && a < b - 1 && b < |run| == |steps| + 1
    requires t < |run[a].threads| && t < |run[b - 1].threads| && t < |run[b].threads| && RetireSoFar(run, steps, slots, a, b - 1, t)
    requires forall n | TookHead(run, steps, a, b - 1, t, n) :: TookHead(run, steps, a, b, t, n)
    requires var th, th', st := run[b - 1].threads[t], run[b].threads[t], steps[b - 1];
             && InDequeue(th.pc)
             && (th.pc.ClearEmpty? ==> th.result == NULL) && (th.pc.ClearDequeue? ==> th.result != NULL)
             && (th.pc.Done? || st.t != t ==> th' == th)
             && (st.t == t && th.pc.ReadItem? ==> th'.pc.Retiring? && th'.ret == th.ret.(cursor := Eras.Stamping(th.node)))
             && (st.t == t && th.pc.Retiring? ==> RetirerMoves(th, th'))
             && (st.t == t && (th.pc.ClearDequeue? || th.pc.ClearEmpty?) ==> th'.ret == th.ret && th'.result == th.result && (th'.pc == th.pc || th'.pc.Done?))
             && (st.t == t && !AfterTake(th.pc) ==>
                   th'.ret == th.ret && !th'.pc.Retiring? && !th'.pc.ClearDequeue? && (th'.pc.Done? ==> th.pc.ClearEmpty?)
                   && (th'.pc.ReadItem? ==> run[b - 1].m.head == th.node == th'.node && run[b].m.head != th.node))
             && (AfterTake(th.pc) ==> th'.node == th.node)
    ensures RetireSoFar(run, steps, slots, a, b, t)
  {
    var list, th, th' := run[a].threads[t].ret.list, run[b - 1].threads[t], run[b].threads[t];
    hide IsRun, Scans, Scanned, TookHead, InDequeue;
    if th'.pc.Retiring? && th'.ret.cursor.Scanning? {
      if th.pc.Retiring? && th.ret.cursor.Scanning? {
        var x :| a < x <= b - 1 && Scans(run, steps, slots, x, b - 1, t, list + [th.node]);
        ScanGoesOn(run, steps, slots, x, b - 1, t, list + [th'.node]);
      } else {
        ScanBegins(run, steps, slots, b, t);
      }
    } else if th.pc.Retiring? && th.ret.cursor.Scanning? {
      var x :| a < x <= b - 1 && Scans(run, steps, slots, x, b - 1, t, list + [th.node]);
      JustScanned(run, steps, slots, a, b, t, x);
    } else if th'.pc.ReadItem? && !th.pc.ReadItem? {
      JustTook(run, steps, a, b, t, th.node);
    } else if th.pc.ClearDequeue? || (th.pc.Done? && th.result != NULL) {
      ScannedStays(run, steps, slots, a, b - 1, t);
    }
  }

  /** A dequeue that returns a value moved head away from a node, puts this node at the end of its
      retired list, and then makes one whole scan of the list, which is exact, before it is done;
      any other leaves its list alone. */
  lemma DequeueScans(run: seq<State>, steps: seq<Step>, slots: nat, a: nat, b: nat, t: nat)
    requires InCall(run, steps, slots, a, b, t) && steps[a].a.Dequeue? && run[b].threads[t].pc.Done?
    ensures t < |run[a].threads|
    ensures var th, list := run[b].threads[t], run[a].threads[t].ret.list;
            if th.result == NULL then th.ret.list == list
            else
              && TookHead(run, steps, a, b, t, th.node)
              && exists x, y | a < x <= y < b ::
                   && WholeScan(run, steps, slots, x, y, t, list + [th.node])
                   && th.ret.list == run[y].threads[t].ret.list
                   && exists gone: seq<bool> :: |gone| == |list| + 1 && ScanIsExact(run, slots, x, y, t, list + [th.node], gone)
  {
    DequeueScansSoFar(run, steps, slots, a, b, t);
    var th, list := run[b].threads[t], run[a].threads[t].ret.list;
    if th.result != NULL {
      var x, y :| a < x <= y < b && WholeScan(run, steps, slots, x, y, t, list + [th.node])
                  && th.ret.list == run[y].threads[t].ret.list;
      PassIsExact(run, steps, slots, x, y, t, list + [th.node]);
      hide InCall, IsRun, ScanIsExact, TookHead;
    }
  }
}
