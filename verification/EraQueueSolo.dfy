/** A call of the era queue that runs alone comes to its end: from every reachable state, wherever the
    other threads have been stopped, and within a bound that is known in advance.  The loops of
    `get_protected` go round once more only when the clock has moved since the slot was written. */
module EraQueueSolo {
  import opened QueueMemory
  import opened ScanSteps
  import Eras
  import opened EraQueue
  import opened EraQueueProofs
  import opened EraQueueCalls

  /** Tail is behind the last node. */
  function Lag(m: Memory): nat {
    if |m.order| > m.ti + 1 then 5 else 0
  }

  function ClearLeft(slots: nat, c: nat): nat {
    if c < slots then slots - c else 1
  }

  /** What another round of `get_protected` costs when slot j does not show the clock. */
  function Round(e: Eras.Table, t: nat, j: nat): nat {
    if Eras.EraOf(e, t, j) == e.clock then 0 else 3
  }

  /** An upper bound on the own steps of an enqueue that runs alone. */
  function EnqueueLeft(m: Memory, e: Eras.Table, t: nat, th: Thread, slots: nat): nat {
    var current, lag, round := th.node == m.tail, Lag(m), Round(e, t, 0);
    match th.pc
    case ReadEra => slots + 12 + lag
    case LoadTail => slots + 7 + round + lag
    case CheckTail => slots + (if current && round == 0 then 6 else 9) + lag
    case StoreTail => slots + (if th.era == e.clock then 8 else 11) + lag
    case TestTail => slots + (if !current then 8 + round + lag else if lag == 0 then 5 else 10 + round)
    case ReadNext => slots + (if !current then 9 + round + lag else if lag == 0 then 4 else 9 + round)
    case HelpTail => slots + 8 + round + (if current then 0 else lag)
    case LinkCas => slots + (if th.node in m.next && m.next[th.node] == NULL then 3 else 8 + round + lag)
    case SwingCas => slots + 2
    case ClearEnqueue => ClearLeft(slots, th.c)
    case _ => 0
  }

  /** An upper bound on the own steps of a dequeue that runs alone. */
  function DequeueLeft(m: Memory, e: Eras.Table, t: nat, th: Thread, threads: nat, slots: nat): nat {
    var taken := WholeScan(|th.ret.list| + 1, threads, slots) + slots + 5;
    var stale := if th.node == m.head then 0 else 12;
    var head, next := Round(e, t, 0), Round(e, t, 1);
    match th.pc
    case LoadHead => taken + 6 + head + next
    case CheckHead => taken + (if head == 0 then 5 else 8) + next + stale
    case StoreHead => taken + (if th.era == e.clock then 7 else 10) + next
    case CompareTail => taken + 4 + next + stale
    case LoadNext => taken + 3 + next + stale
    case CheckNext => taken + (if next == 0 then 2 else 5) + stale
    case StoreNext => taken + (if th.era == e.clock then 4 else 7) + stale
    case HeadCas => taken + 1 + stale
    case ReadItem => taken
    case Retiring => EraSteps(th.ret, threads, slots) + slots + 1
    case ClearDequeue => ClearLeft(slots, th.c)
    case ClearEmpty => ClearLeft(slots, th.c)
    case _ => 0
  }

  function StepsLeftOf(s: State, t: nat, slots: nat): nat
    requires t < |s.threads|
  {
    EnqueueLeft(s.m, s.e, t, s.threads[t], slots) + DequeueLeft(s.m, s.e, t, s.threads[t], |s.e.rows|, slots)
  }

  // ---------------------------------------------------------------- the scan stays in the table

  predicate InTable(e: Eras.Table, r: Eras.Retirer, slots: nat) {
    r.cursor.Scanning? && r.cursor.k < |e.rows| ==> r.cursor.j < slots
  }

  lemma StepInTable(s: State, slots: nat, st: Step, r: nat)
    requires Inv(s, slots) && Enabled(s, st) && r < |s.threads| && InTable(s.e, s.threads[r].ret, slots)
    ensures |Apply(s, st).threads| == |s.threads| && InTable(Apply(s, st).e, Apply(s, st).threads[r].ret, slots)
  {
    if st.a.Go? {
      CanGoFromInv(s, slots, st.t);
      RowsStay(s.e, st.t, s.threads[st.t], slots);
      assert ThreadOk(s.m, s.e, st.t, s.threads[st.t]);
      if r == st.t && s.threads[r].pc.Retiring? { ReclaimFalls(s.e, s.threads[r].ret, slots); }
      hide Inv, Apply, NextMemory, NextTable, EraSteps, CanGo;
      if r == st.t { CursorMoves(s.m, s.e, r, s.threads[r]); }
    }
  }

  lemma CursorMoves(m: Memory, e: Eras.Table, t: nat, th: Thread)
    requires Safe(m, e, th)
    ensures var r' := NextThread(m, e, t, th).ret;
            r' == th.ret || r'.cursor.Stamping? || (th.pc.Retiring? && r' == Eras.Reclaim(e, th.ret))
  {
  }

  lemma {:induction false} ScansStayInTable(run: seq<State>, steps: seq<Step>, slots: nat, i: nat, t: nat)
    requires IsRun(run, steps, slots) && i < |run| && t < |run[i].threads|
    ensures InTable(run[i].e, run[i].threads[t].ret, slots)
  {
    if i > 0 {
      hide IsRun, Inv, Apply, InTable;
      RunStep(run, steps, slots, i - 1);
      RunKeepsInv(run, steps, slots, i - 1);
      SameThreads(run[i - 1], slots, steps[i - 1]);
      ScansStayInTable(run, steps, slots, i - 1, t);
      StepInTable(run[i - 1], slots, steps[i - 1], t);
    }
  }

  lemma SameThreads(s: State, slots: nat, st: Step)
    requires Inv(s, slots) && Enabled(s, st)
    ensures |Apply(s, st).threads| == |s.threads|
  {
  }

  // ---------------------------------------------------------------- every own step counts

  lemma EnqueueFalls(m: Memory, e: Eras.Table, t: nat, th: Thread, slots: nat)
    requires CanGo(m, e, t, th) && InEnqueue(th.pc) && !th.pc.Done? && slots >= 2 && t < |e.rows| && |e.rows[t]| == slots
    ensures var th' := NextThread(m, e, t, th);
            && EnqueueLeft(NextMemory(m, e, t, th), NextTable(e, t, th), t, th', slots) < EnqueueLeft(m, e, t, th, slots)
            && InEnqueue(th'.pc)
  {
    if th.pc.ReadNext? || th.pc.HelpTail? || th.pc.LinkCas? {
      assert LinkedOk(m, th.node);
      SuccessorIsNext(m, th.node);
    }
    assert th.pc.ReadNext? && th.node != m.tail ==> m.pos[th.node] < m.ti;
    hide MemoryOk, ErasKnown, RetiredOk, EraLives, Eras.TableOk;
  }

  predicate BeforeTake(pc: Pc) {
    pc.LoadHead? || pc.CheckHead? || pc.StoreHead? || pc.CompareTail? || pc.LoadNext? || pc.CheckNext? || pc.StoreNext? || pc.HeadCas?
  }

  lemma SearchFalls(m: Memory, e: Eras.Table, t: nat, th: Thread, threads: nat, slots: nat)
    requires CanGo(m, e, t, th) && BeforeTake(th.pc) && slots >= 2 && t < |e.rows| && |e.rows[t]| == slots
    ensures var th' := NextThread(m, e, t, th);
            && DequeueLeft(NextMemory(m, e, t, th), NextTable(e, t, th), t, th', threads, slots) < DequeueLeft(m, e, t, th, threads, slots)
            && InDequeue(th'.pc)
  {
    hide MemoryOk, KnowsOk, ErasKnown, RetiredOk, EraLives, Eras.TableOk, WholeScan, EraSteps;
  }

  lemma TakeFalls(m: Memory, e: Eras.Table, t: nat, th: Thread, slots: nat)
    requires CanGo(m, e, t, th) && InDequeue(th.pc) && !BeforeTake(th.pc) && !th.pc.Done? && slots >= 2
    requires t < |e.rows| && (forall k | 0 <= k < |e.rows| :: |e.rows[k]| == slots) && InTable(e, th.ret, slots)
    ensures var th' := NextThread(m, e, t, th);
            && DequeueLeft(NextMemory(m, e, t, th), NextTable(e, t, th), t, th', |e.rows|, slots) < DequeueLeft(m, e, t, th, |e.rows|, slots)
            && InDequeue(th'.pc)
  {
    if th.pc.Retiring? {
      ReclaimFalls(e, th.ret, slots);
    }
    assert th.pc.ReadItem? ==> EraSteps(NextThread(m, e, t, th).ret, |e.rows|, slots) == WholeScan(|th.ret.list| + 1, |e.rows|, slots) + 3;
    hide MemoryOk, KnowsOk, ErasKnown, RetiredOk, EraLives, Eras.TableOk, WholeScan, EraSteps, Eras.Reclaim;
    hide NextMemory, NextTable;
  }

  /** Every own step brings the call nearer to its end. */
  lemma StepFalls(s: State, slots: nat, t: nat)
    requires Inv(s, slots) && Enabled(s, Step(t, Go)) && !s.threads[t].pc.Done? && InTable(s.e, s.threads[t].ret, slots)
    ensures |Apply(s, Step(t, Go)).threads| == |s.threads|
    ensures StepsLeftOf(Apply(s, Step(t, Go)), t, slots) < StepsLeftOf(s, t, slots)
  {
    CanGoFromInv(s, slots, t);
    RowsStay(s.e, t, s.threads[t], slots);
    assert slots >= 2 && Rows(s.e, slots);
    hide Inv, Apply, CanGo, NextMemory, NextThread, NextTable, InTable;
    var th := s.threads[t];
    if InEnqueue(th.pc) { EnqueueFalls(s.m, s.e, t, th, slots); }
    else if BeforeTake(th.pc) { SearchFalls(s.m, s.e, t, th, |s.e.rows|, slots); }
    else { TakeFalls(s.m, s.e, t, th, slots); }
    OneKind(s, t, slots);
    OneKind(Apply(s, Step(t, Go)), t, slots);
    hide EnqueueLeft, DequeueLeft;
  }

  /** A call is an enqueue or a dequeue. */
  lemma OneKind(s: State, t: nat, slots: nat)
    requires t < |s.threads|
    ensures InEnqueue(s.threads[t].pc) ==> DequeueLeft(s.m, s.e, t, s.threads[t], |s.e.rows|, slots) == 0
    ensures InDequeue(s.threads[t].pc) ==> EnqueueLeft(s.m, s.e, t, s.threads[t], slots) == 0
  {
  }

  lemma LeftIsBounded(s: State, slots: nat, t: nat)
    requires Inv(s, slots) && t < |s.threads|
    ensures StepsLeftOf(s, t, slots) <= 2 * slots + 30 + (|s.threads[t].ret.list| + 1) * (|s.threads| * slots + 1)
  {
    var r := s.threads[t].ret;
    WholeScanIs(|r.list| + 1, |s.threads|, slots);
    ScanIsWithin(r, |s.threads|, slots);
    assert |s.e.rows| == |s.threads| && slots >= 2;
    hide Inv, WholeScan, EraSteps;
  }

  lemma ScanIsWithin(r: Eras.Retirer, threads: nat, slots: nat)
    ensures EraSteps(r, threads, slots) <= WholeScan(|r.list| + 1, threads, slots) + 3
  {
    WholeScanGrows(|r.list|, |r.list| + 1, threads, slots);
    if r.cursor.Scanning? && r.cursor.i < |r.list| {
      TimesGrows(|r.list| - 1 - r.cursor.i, |r.list|, SlotsFrom(threads, slots, 0) + 1);
      HereIsWithin(threads, slots, r.cursor.k, r.cursor.j);
    }
  }

  /** From state a to state b only t moves, in the middle of one call. */
  ghost predicate Alone(run: seq<State>, steps: seq<Step>, slots: nat, a: nat, b: nat, t: nat) {
    && IsRun(run, steps, slots) && a <= b < |run| && t < |run[a].threads|
    && forall x | a <= x < b :: x < |steps| && steps[x].t == t && t < |run[x].threads| && !run[x].threads[t].pc.Idle? && !run[x].threads[t].pc.Done?
  }

  lemma {:induction false} AloneFalls(run: seq<State>, steps: seq<Step>, slots: nat, a: nat, b: nat, t: nat)
    requires Alone(run, steps, slots, a, b, t)
    ensures t < |run[b].threads| && StepsLeftOf(run[b], t, slots) + (b - a) <= StepsLeftOf(run[a], t, slots)
  {
    hide IsRun, Inv, Apply, StepsLeftOf, InTable;
    if a < b {
      AloneFalls(run, steps, slots, a, b - 1, t);
      RunStep(run, steps, slots, b - 1);
      RunKeepsInv(run, steps, slots, b - 1);
      assert steps[b - 1].t == t && !run[b - 1].threads[t].pc.Idle? && !run[b - 1].threads[t].pc.Done?;
      GoOnly(run[b - 1], steps[b - 1]);
      ScansStayInTable(run, steps, slots, b - 1, t);
      StepFalls(run[b - 1], slots, t);
    }
  }

  /** In the middle of a call a thread can always move. */
  lemma NeverStuck(run: seq<State>, steps: seq<Step>, slots: nat, i: nat, t: nat)
    requires IsRun(run, steps, slots) && i < |run| && t < |run[i].threads| && !run[i].threads[t].pc.Idle?
    ensures Enabled(run[i], Step(t, Go))
  {
    RunKeepsInv(run, steps, slots, i);
    hide IsRun;
  }

  /** A call that runs alone, from wherever it and the others have got to, is done after at most
      2 * slots + 30 + (r + 1) * (threads * slots + 1) own steps, for a retired list of r nodes. */
  lemma SoloCompletes(run: seq<State>, steps: seq<Step>, slots: nat, a: nat, b: nat, t: nat)
    requires Alone(run, steps, slots, a, b, t)
    ensures b - a <= 2 * slots + 30 + (|run[a].threads[t].ret.list| + 1) * (|run[a].threads| * slots + 1)
  {
    hide IsRun, StepsLeftOf, Inv;
    AloneFalls(run, steps, slots, a, b, t);
    RunKeepsInv(run, steps, slots, a);
    LeftIsBounded(run[a], slots, t);
  }
}
