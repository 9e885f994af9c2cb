/** A call of the hazard-pointer stack that runs alone comes to its end: from every reachable state,
    wherever the other threads have been stopped, and within a bound that is known in advance. */
module HazardStackSolo {
  import opened StackMemory
  import opened ScanSteps
  import Hazards
  import opened HazardStack
  import opened HazardStackResults

  function ClearLeft(slots: nat, c: nat): nat {
    if c < slots then slots - c else 1
  }

  /** An upper bound on the own steps of a push that runs alone. */
  function PushLeft(m: Memory, th: Thread, slots: nat): nat {
    var stale := th.node != m.top;
    match th.pc
    case ReadTop => slots + 6
    case PublishPush => slots + (if stale then 8 else 5)
    case CheckTop => slots + (if stale then 7 else 4)
    case StoreNext => slots + (if stale then 8 else 3)
    case PushCas => slots + (if stale then 7 else 2)
    case ClearPush => ClearLeft(slots, th.c)
    case _ => 0
  }

  /** An upper bound on the own steps of a pop that runs alone. */
  function PopLeft(m: Memory, th: Thread, threads: nat, slots: nat): nat {
    var taken := WholeScan(|th.ret.list| + 1, threads, slots) + slots + 2;
    var stale := if th.node == m.top then 0 else 6;
    match th.pc
    case LoadTop => taken + 6
    case PublishPop => taken + 5 + stale
    case RecheckTop => taken + 4 + stale
    case TestTop => taken + 3 + stale
    case LoadNext => taken + 2 + stale
    case PopCas => taken + 1 + stale
    case ReadItem => taken
    case Retiring => HazardSteps(th.ret, threads, slots) + slots + 1
    case ClearPop => ClearLeft(slots, th.c)
    case ClearEmpty => ClearLeft(slots, th.c)
    case _ => 0
  }

  function StepsLeftOf(s: State, t: nat, slots: nat): nat
    requires t < |s.threads|
  {
    PushLeft(s.m, s.threads[t], slots) + PopLeft(s.m, s.threads[t], |s.threads|, slots)
  }

  predicate InPush(pc: Pc) {
    Pushing(pc) || pc.ClearPush? || pc.Done?
  }

  predicate InPop(pc: Pc) {
    BeforePop(pc) || Popped(pc) || pc.ClearEmpty? || pc.Done?
  }

  lemma PushFalls(s: State, slots: nat, t: nat)
    requires CanGo(s, slots, t) && InPush(s.threads[t].pc) && !s.threads[t].pc.Done?
    ensures var th, th' := s.threads[t], NextThread(s, t, s.threads[t]);
            && PushLeft(NextMemory(s.m, |s.threads|, t, th), th', slots) < PushLeft(s.m, th, slots)
            && InPush(th'.pc)
  {
    hide MemoryOk, WorkOk, RetiredOk;
  }

  /** The steps that look for the top node. */
  predicate Looks(pc: Pc) {
    pc.LoadTop? || pc.PublishPop? || pc.RecheckTop? || pc.TestTop? || pc.LoadNext?
  }

  lemma LookFalls(s: State, slots: nat, t: nat)
    requires CanGo(s, slots, t) && InPop(s.threads[t].pc) && Looks(s.threads[t].pc)
    ensures var th, th' := s.threads[t], NextThread(s, t, s.threads[t]);
            && PopLeft(NextMemory(s.m, |s.threads|, t, th), th', |s.threads|, slots) < PopLeft(s.m, th, |s.threads|, slots)
            && InPop(th'.pc)
  {
    hide MemoryOk, WorkOk, RetiredOk, WholeScan, HazardSteps;
  }

  lemma PopFalls(s: State, slots: nat, t: nat)
    requires CanGo(s, slots, t) && InPop(s.threads[t].pc) && !s.threads[t].pc.Done? && !s.threads[t].pc.Retiring?
    ensures var th, th' := s.threads[t], NextThread(s, t, s.threads[t]);
            && PopLeft(NextMemory(s.m, |s.threads|, t, th), th', |s.threads|, slots) < PopLeft(s.m, th, |s.threads|, slots)
            && InPop(th'.pc)
  {
    if Looks(s.threads[t].pc) {
      LookFalls(s, slots, t);
      hide CanGo, NextThread, NextMemory, PopLeft;
    } else {
      RetireStarts(s.threads[t].ret, s.threads[t].node, |s.threads|, slots);
      hide MemoryOk, WorkOk, RetiredOk, WholeScan, HazardSteps;
    }
  }

  lemma ScanFalls(s: State, slots: nat, t: nat)
    requires CanGo(s, slots, t) && s.threads[t].pc.Retiring?
    ensures var th, th' := s.threads[t], NextThread(s, t, s.threads[t]);
            && PopLeft(NextMemory(s.m, |s.threads|, t, th), th', |s.threads|, slots) < PopLeft(s.m, th, |s.threads|, slots)
            && InPop(th'.pc)
  {
    var r := s.threads[t].ret;
    assert r.cursor.Scanning?;
    if !Hazards.Finished(r) {
      if r.cursor.k < |s.hazards| {
        CompareFalls(r, s.hazards[r.cursor.k][r.cursor.j], |s.threads|, slots);
      } else {
        DecideFalls(r, |s.threads|, slots);
      }
      hide HazardSteps;
    }
    hide MemoryOk, WorkOk, RetiredOk;
  }

  /** Every own step brings the call nearer to its end. */
  lemma StepFalls(s: State, slots: nat, t: nat)
    requires Inv(s, slots) && Enabled(s, Step(t, Go)) && !s.threads[t].pc.Done?
    ensures |Apply(s, Step(t, Go)).threads| == |s.threads|
    ensures StepsLeftOf(Apply(s, Step(t, Go)), t, slots) < StepsLeftOf(s, t, slots)
  {
    NeverTouchesDead(s, slots, t);
    AllRows(s, slots);
    assert ThreadOk(s.m, s.hazards[t], t, slots, s.threads[t]);
    assert CanGo(s, slots, t);
    hide Inv, CanGo, NextMemory, NextThread, Safe, ScanReads;
    var pc := s.threads[t].pc;
    if InPush(pc) { PushFalls(s, slots, t); }
    else if pc.Retiring? { ScanFalls(s, slots, t); }
    else { PopFalls(s, slots, t); }
    OneKind(s, t, slots);
    OneKind(Apply(s, Step(t, Go)), t, slots);
  }

  /** A call is a push or a pop. */
  lemma OneKind(s: State, t: nat, slots: nat)
    requires t < |s.threads|
    ensures InPush(s.threads[t].pc) ==> PopLeft(s.m, s.threads[t], |s.threads|, slots) == 0
    ensures InPop(s.threads[t].pc) ==> PushLeft(s.m, s.threads[t], slots) == 0
  {
  }

  lemma LeftIsBounded(s: State, slots: nat, t: nat)
    requires Inv(s, slots) && t < |s.threads|
    ensures StepsLeftOf(s, t, slots) <= slots + 14 + (|s.threads[t].ret.list| + 1) * (|s.threads| * slots + 1)
  {
    var r := s.threads[t].ret;
    assert ThreadOk(s.m, s.hazards[t], t, slots, s.threads[t]);
    WholeScanIs(|r.list| + 1, |s.threads|, slots);
    ScanIsWithin(r, |s.threads|, slots);
    hide Inv, WholeScan, HazardSteps;
  }

  lemma ScanIsWithin(r: Hazards.Retirer, threads: nat, slots: nat)
    ensures HazardSteps(r, threads, slots) <= WholeScan(|r.list| + 1, threads, slots)
  {
    if r.cursor.Scanning? && r.cursor.i < |r.list| {
      TimesGrows(|r.list| - 1 - r.cursor.i, |r.list|, SlotsFrom(threads, slots, 0) + 1);
      HereIsWithin(threads, slots, r.cursor.k, r.cursor.j);
    }
  }

  /** From state a to state b only t moves, in the middle of one call. */
  ghost predicate Alone(run: seq<State>, steps: seq<Step>, slots: nat, a: nat, b: nat, t: nat) {
    && IsRun(run, steps, slots) && a <= b < |run| && t < |run[a].threads|
    && forall x | a <= x < b :: x < |steps| && steps[x].t == t && t < |run[x].threads| && !run[x].threads[t].pc.Idle? && !run[x].threads[t].pc.Done?
  }

  lemma {:induction false} AloneFalls(run: seq<State>, steps: seq<Step>, slots: nat, a: nat, b: nat, t: nat)
    requires Alone(run, steps, slots, a, b, t)
    ensures t < |run[b].threads| && StepsLeftOf(run[b], t, slots) + (b - a) <= StepsLeftOf(run[a], t, slots)
  {
    hide IsRun, Inv, Apply, StepsLeftOf;
    if a < b {
      AloneFalls(run, steps, slots, a, b - 1, t);
      RunStep(run, steps, slots, b - 1);
      RunKeepsInv(run, steps, slots, b - 1);
      assert steps[b - 1].t == t && !run[b - 1].threads[t].pc.Idle? && !run[b - 1].threads[t].pc.Done?;
      GoOnly(run[b - 1], steps[b - 1]);
      StepFalls(run[b - 1], slots, t);
    }
  }

  /** In the middle of a call a thread can always move. */
  lemma NeverStuck(run: seq<State>, steps: seq<Step>, slots: nat, i: nat, t: nat)
    requires IsRun(run, steps, slots) && i < |run| && t < |run[i].threads| && !run[i].threads[t].pc.Idle?
    ensures Enabled(run[i], Step(t, Go))
  {
    RunKeepsInv(run, steps, slots, i);
    NeverTouchesDead(run[i], slots, t);
    hide IsRun;
  }

  /** A call that runs alone, from wherever it and the others have got to, is done after at most
      slots + 14 + (r + 1) * (threads * slots + 1) own steps, for a retired list of r nodes. */
  lemma SoloCompletes(run: seq<State>, steps: seq<Step>, slots: nat, a: nat, b: nat, t: nat)
    requires Alone(run, steps, slots, a, b, t)
    ensures b - a <= slots + 14 + (|run[a].threads[t].ret.list| + 1) * (|run[a].threads| * slots + 1)
  {
    hide IsRun, StepsLeftOf, Inv;
    AloneFalls(run, steps, slots, a, b, t);
    RunKeepsInv(run, steps, slots, a);
    LeftIsBounded(run[a], slots, t);
  }
}
