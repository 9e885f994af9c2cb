/** A call of the hazard-pointer queue that runs alone comes to its end: from every reachable state,
    wherever the other threads have been stopped, and within a bound that is known in advance. */
module HazardQueueSolo {
  import opened QueueMemory
  import opened ScanSteps
  import Hazards
  import opened HazardQueue
  import opened HazardQueueProofs
  import opened HazardQueueResults

  /** Tail is behind the last node. */
  function Lag(m: Memory): nat {
    if |m.order| > m.ti + 1 then 1 else 0
  }

  function ClearLeft(slots: nat, c: nat): nat {
    if c < slots then slots - c else 1
  }

  /** An upper bound on the own steps of an enqueue that runs alone. */
  function EnqueueLeft(m: Memory, th: Thread, slots: nat): nat {
    var current, lag := th.node == m.tail, 5 * Lag(m);
    match th.pc
    case ReadTail => slots + 7 + lag
    case PublishTail => slots + (if current then 6 else 9) + lag
    case CheckTail => slots + (if current then 5 else 8) + lag
    case ReadNext => slots + (if current then 4 else 9) + lag
    case HelpTail => slots + (if current then 8 else 8 + lag)
    case LinkCas => slots + (if th.node in m.next && m.next[th.node] == NULL then 3 else 8 + lag)
    case SwingCas => slots + 2
    case ClearEnqueue => ClearLeft(slots, th.c)
    case _ => 0
  }

  /** An upper bound on the own steps of a dequeue that runs alone. */
  function DequeueLeft(m: Memory, th: Thread, threads: nat, slots: nat): nat {
    var scan := WholeScan(|th.ret.list| + 1, threads, slots);
    var taken := slots + 2 + scan;
    var stale := if th.node == m.head then 0 else 8;
    match th.pc
    case ReadHead => taken + 8
    case PublishHead => taken + 7 + stale
    case RecheckHead => taken + 6 + stale
    case CompareTail => taken + 5 + stale
    case LoadNext => taken + 4 + stale
    case PublishNext => taken + 3 + stale
    case RecheckNext => taken + 2 + stale
    case HeadCas => taken + 1 + stale
    case ReadItem => taken
    case ClearDequeue => ClearLeft(slots, th.c) + scan
    case Retiring => HazardSteps(th.ret, threads, slots)
    case ClearEmpty => ClearLeft(slots, th.c)
    case _ => 0
  }

  function StepsLeftOf(s: State, t: nat, slots: nat): nat
    requires t < |s.threads|
  {
    EnqueueLeft(s.m, s.threads[t], slots) + DequeueLeft(s.m, s.threads[t], |s.threads|, slots)
  }

  lemma EnqueueFalls(s: State, slots: nat, t: nat)
    requires CanGo(s, slots, t) && InEnqueue(s.threads[t].pc) && !s.threads[t].pc.Done?
    ensures var th, th' := s.threads[t], NextThread(s, t, s.threads[t]);
            && EnqueueLeft(NextMemory(s.m, |s.threads|, t, th), th', slots) < EnqueueLeft(s.m, th, slots)
            && InEnqueue(th'.pc)
  {
    var m, th := s.m, s.threads[t];
    if th.pc.ReadNext? || th.pc.HelpTail? || th.pc.LinkCas? {
      assert LinkedOk(m, th.node);
      SuccessorIsNext(m, th.node);
      if th.node != m.tail { TailIsPast(m, th.node, PosOf(m, th.node)); }
    }
    hide MemoryOk, GuardsOk, RetiredOk;
  }

  /** Looking for the head and its successor. */
  predicate BeforeTake(pc: Pc) {
    pc.ReadHead? || pc.PublishHead? || pc.RecheckHead? || pc.CompareTail? || pc.LoadNext? || pc.PublishNext? || pc.RecheckNext?
    || pc.HeadCas?
  }

  lemma SearchFalls(s: State, slots: nat, t: nat)
    requires CanGo(s, slots, t) && BeforeTake(s.threads[t].pc)
    ensures var th, th' := s.threads[t], NextThread(s, t, s.threads[t]);
            && DequeueLeft(NextMemory(s.m, |s.threads|, t, th), th', |s.threads|, slots) < DequeueLeft(s.m, th, |s.threads|, slots)
            && InDequeue(th'.pc)
  {
    var m, th := s.m, s.threads[t];
    assert LinkedOk(m, m.head);
    if th.pc.LoadNext? || th.pc.RecheckNext? { SuccessorIsNext(m, th.node); }
    hide MemoryOk, GuardsOk, RetiredOk, WholeScan, HazardSteps;
  }

  lemma TakeFalls(s: State, slots: nat, t: nat)
    requires CanGo(s, slots, t) && (s.threads[t].pc.ReadItem? || s.threads[t].pc.ClearDequeue? || s.threads[t].pc.ClearEmpty?)
    ensures var th, th' := s.threads[t], NextThread(s, t, s.threads[t]);
            && DequeueLeft(NextMemory(s.m, |s.threads|, t, th), th', |s.threads|, slots) < DequeueLeft(s.m, th, |s.threads|, slots)
            && InDequeue(th'.pc)
  {
    var m, th := s.m, s.threads[t];
    RetireStarts(th.ret, th.node, |s.threads|, slots);
    hide MemoryOk, GuardsOk, KnowsOk, RetiredOk, WholeScan, HazardSteps, Hazards.Retire;
  }

  lemma ScanFalls(s: State, slots: nat, t: nat)
    requires CanGo(s, slots, t) && s.threads[t].pc.Retiring?
    ensures var th, th' := s.threads[t], NextThread(s, t, s.threads[t]);
            && DequeueLeft(NextMemory(s.m, |s.threads|, t, th), th', |s.threads|, slots) < DequeueLeft(s.m, th, |s.threads|, slots)
            && InDequeue(th'.pc)
  {
    var r := s.threads[t].ret;
    assert r.cursor.Scanning?;
    if !Hazards.Finished(r) {
      if r.cursor.k < |s.hazards| {
        CompareFalls(r, s.hazards[r.cursor.k][r.cursor.j], |s.threads|, slots);
      } else {
        DecideFalls(r, |s.threads|, slots);
      }
      hide HazardSteps;
    }
    hide MemoryOk, GuardsOk, KnowsOk, RetiredOk;
  }

  /** Every own step brings the call nearer to its end. */
  lemma StepFalls(s: State, slots: nat, t: nat)
    requires Inv(s, slots) && Enabled(s, Step(t, Go)) && !s.threads[t].pc.Done?
    ensures |Apply(s, Step(t, Go)).threads| == |s.threads|
    ensures StepsLeftOf(Apply(s, Step(t, Go)), t, slots) < StepsLeftOf(s, t, slots)
  {
    NeverTouchesDead(s, slots, t);
    AllRows(s, slots);
    assert ThreadOk(s.m, s.hazards[t], t, slots, s.threads[t]);
    assert CanGo(s, slots, t);
    hide Inv, CanGo, NextMemory, NextThread, Safe, ScanReads;
    var pc := s.threads[t].pc;
    if InEnqueue(pc) { EnqueueFalls(s, slots, t); }
    else if pc.Retiring? { ScanFalls(s, slots, t); }
    else if BeforeTake(pc) { SearchFalls(s, slots, t); }
    else { TakeFalls(s, slots, t); }
    OneKind(s, t, slots);
    OneKind(Apply(s, Step(t, Go)), t, slots);
  }

  /** A call is an enqueue or a dequeue. */
  lemma OneKind(s: State, t: nat, slots: nat)
    requires t < |s.threads|
    ensures InEnqueue(s.threads[t].pc) ==> DequeueLeft(s.m, s.threads[t], |s.threads|, slots) == 0
    ensures InDequeue(s.threads[t].pc) ==> EnqueueLeft(s.m, s.threads[t], slots) == 0
  {
  }

  lemma LeftIsBounded(s: State, slots: nat, t: nat)
    requires Inv(s, slots) && t < |s.threads|
    ensures StepsLeftOf(s, t, slots) <= slots + 18 + (|s.threads[t].ret.list| + 1) * (|s.threads| * slots + 1)
  {
    var r := s.threads[t].ret;
    assert ThreadOk(s.m, s.hazards[t], t, slots, s.threads[t]);
    WholeScanIs(|r.list| + 1, |s.threads|, slots);
    ScanIsWithin(r, |s.threads|, slots);
    hide Inv, WholeScan, HazardSteps;
  }

  lemma ScanIsWithin(r: Hazards.Retirer, threads: nat, slots: nat)
    ensures HazardSteps(r, threads, slots) <= WholeScan(|r.list| + 1, threads, slots)
  {
    if r.cursor.Scanning? && r.cursor.i < |r.list| {
      TimesGrows(|r.list| - 1 - r.cursor.i, |r.list|, SlotsFrom(threads, slots, 0) + 1);
      HereIsWithin(threads, slots, r.cursor.k, r.cursor.j);
    }
  }

  /** From state a to state b only t moves, in the middle of one call. */
  ghost predicate Alone(run: seq<State>, steps: seq<Step>, slots: nat, a: nat, b: nat, t: nat) {
    && IsRun(run, steps, slots) && a <= b < |run| && t < |run[a].threads|
    && forall x | a <= x < b :: x < |steps| && steps[x].t == t && t < |run[x].threads| && !run[x].threads[t].pc.Idle? && !run[x].threads[t].pc.Done?
  }

  lemma {:induction false} AloneFalls(run: seq<State>, steps: seq<Step>, slots: nat, a: nat, b: nat, t: nat)
    requires Alone(run, steps, slots, a, b, t)
    ensures t < |run[b].threads| && StepsLeftOf(run[b], t, slots) + (b - a) <= StepsLeftOf(run[a], t, slots)
  {
    hide IsRun, Inv, Apply, StepsLeftOf;
    if a < b {
      AloneFalls(run, steps, slots, a, b - 1, t);
      RunStep(run, steps, slots, b - 1);
      RunKeepsInv(run, steps, slots, b - 1);
      assert steps[b - 1].t == t && !run[b - 1].threads[t].pc.Idle? && !run[b - 1].threads[t].pc.Done?;
      GoOnly(run[b - 1], steps[b - 1]);
      StepFalls(run[b - 1], slots, t);
    }
  }

  /** In the middle of a call a thread can always move. */
  lemma NeverStuck(run: seq<State>, steps: seq<Step>, slots: nat, i: nat, t: nat)
    requires IsRun(run, steps, slots) && i < |run| && t < |run[i].threads| && !run[i].threads[t].pc.Idle?
    ensures Enabled(run[i], Step(t, Go))
  {
    RunKeepsInv(run, steps, slots, i);
    NeverTouchesDead(run[i], slots, t);
    hide IsRun;
  }

  /** A call that runs alone, from wherever it and the others have got to, is done after at most
      slots + 18 + (r + 1) * (threads * slots + 1) own steps, for a retired list of r nodes. */
  lemma SoloCompletes(run: seq<State>, steps: seq<Step>, slots: nat, a: nat, b: nat, t: nat)
    requires Alone(run, steps, slots, a, b, t)
    ensures b - a <= slots + 18 + (|run[a].threads[t].ret.list| + 1) * (|run[a].threads| * slots + 1)
  {
    hide IsRun, StepsLeftOf, Inv;
    AloneFalls(run, steps, slots, a, b, t);
    RunKeepsInv(run, steps, slots, a);
    LeftIsBounded(run[a], slots, t);
  }
}
