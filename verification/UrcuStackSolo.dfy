/** A call of the URCU stack that runs alone comes to its end: a push from every reachable state, and
    a pop when no other thread shows a version, because it waits for those that do. */
module UrcuStackSolo {
  import opened StackMemory
  import Urcu
  import opened UrcuSolo
  import opened UrcuStack
  import opened UrcuStackResults

  /** An upper bound on the own steps of a push that runs alone. */
  function PushLeft(m: Memory, th: Thread, lock: nat): nat {
    match th.pc
    case EnterA => 8
    case LockA => 3 + lock
    case ReadTop => 3
    case PushCas => if m.top == th.node then 2 else 4
    case UnlockA => 1
    case _ => 0
  }

  /** An upper bound on the own steps of a pop that runs alone. */
  function PopLeft(m: Memory, th: Thread, lock: nat, wait: nat, n: nat): nat {
    var stale := th.node != m.top;
    match th.pc
    case EnterB => n + 14
    case LockB => n + 10 + lock
    case LoadTop => n + 10
    case CheckTop => n + (if stale then 17 else 9)
    case LoadNext => n + (if stale then 16 else 8)
    case PopCas => n + (if stale then 15 else 7)
    case ReadItem => n + 6
    case RetryB => n + 15
    case UnlockEmpty => 1
    case UnlockB => n + 5
    case SyncB => n + 4
    case WaitB => 1 + wait
    case FreeB => 1
    case _ => 0
  }

  function StepsLeftOf(s: State, t: nat): nat
    requires t < |s.threads|
  {
    PushLeft(s.m, s.threads[t], LockLeft(s.u, t)) + PopLeft(s.m, s.threads[t], LockLeft(s.u, t), WaitLeft(s.u, t), |s.u.cells|)
  }

  predicate InPush(pc: Pc) {
    Pushing(pc) || pc.UnlockA?
  }

  lemma PushFalls(m: Memory, now: nat, t: nat, blank: set<Node>, th: Thread, lock: nat, lock': nat)
    requires Safe(m, th) && InPush(th.pc) && (th.pc.EnterA? ==> lock' == 3) && (th.pc.LockA? ==> lock > 0)
    ensures var th' := NextThread(m, blank, th);
            (InPush(th'.pc) || th'.pc.Done?) && PushLeft(NextMemory(m, now, t, th), th', lock') < PushLeft(m, th, lock)
  {
  }

  predicate InPop(pc: Pc) {
    BeforePop(pc) || Popped(pc) || pc.UnlockEmpty?
  }

  lemma PopFalls(m: Memory, now: nat, t: nat, blank: set<Node>, th: Thread, lock: nat, lock': nat, wait: nat, wait': nat, n: nat)
    requires Safe(m, th) && InPop(th.pc) && (th.pc.EnterB? ==> lock' == 3) && (th.pc.LockB? ==> lock > 0)
    requires (th.pc.SyncB? ==> wait' == n + 2) && (th.pc.WaitB? ==> wait > 0)
    ensures var th' := NextThread(m, blank, th);
            (InPop(th'.pc) || th'.pc.Done?) && PopLeft(NextMemory(m, now, t, th), th', lock', wait', n) < PopLeft(m, th, lock, wait, n)
  {
  }

  /** A call is a push or a pop. */
  lemma OneKind(m: Memory, th: Thread, lock: nat, wait: nat, n: nat)
    ensures InPush(th.pc) || th.pc.Done? ==> PopLeft(m, th, lock, wait, n) == 0
    ensures InPop(th.pc) || th.pc.Done? ==> PushLeft(m, th, lock) == 0
  {
  }

  /** A step of the stack code. */
  lemma GoFalls(s: State, t: nat)
    requires Inv(s) && Enabled(s, Step(t, Go)) && !s.threads[t].pc.Done?
    ensures StepsLeftOf(Apply(s, Step(t, Go)), t) < StepsLeftOf(s, t)
    ensures InPush(s.threads[t].pc) ==> InPush(Apply(s, Step(t, Go)).threads[t].pc) || Apply(s, Step(t, Go)).threads[t].pc.Done?
  {
    NeverTouchesDead(s, t);
    var th, s' := s.threads[t], Apply(s, Step(t, Go));
    assert ThreadOk(s.m, s.u.cells[t], t, th);
    if th.pc.EnterA? || th.pc.EnterB? { LockStarts(s.u, t); }
    if th.pc.SyncB? { WaitStarts(s.u, t); }
    assert |s'.u.cells| == |s.u.cells|;
    hide Inv, WorkOk, NextMemory, NextThread, PushLeft, PopLeft, Safe;
    var lock, lock' := LockLeft(s.u, t), LockLeft(s'.u, t);
    var wait, wait', n := WaitLeft(s.u, t), WaitLeft(s'.u, t), |s.u.cells|;
    OneKind(s.m, th, lock, wait, n);
    OneKind(s'.m, s'.threads[t], lock', wait', n);
    if InPush(th.pc) { PushFalls(s.m, s.u.now, t, s.blank, th, lock, lock'); }
    else { PopFalls(s.m, s.u.now, t, s.blank, th, lock, lock', wait, wait', n); }
  }

  /** An event inside `readLock` or `synchronizeRCU`. */
  lemma LibFalls(s: State, t: nat, e: Urcu.Event)
    requires Inv(s) && Enabled(s, Step(t, Lib(e))) && s.u.version < Urcu.UNASSIGNED
    requires s.threads[t].pc.WaitB? ==> NobodyShows(s.u, t)
    ensures StepsLeftOf(Apply(s, Step(t, Lib(e))), t) < StepsLeftOf(s, t)
    ensures Apply(s, Step(t, Lib(e))).threads == s.threads
  {
    assert ThreadOk(s.m, s.u.cells[t], t, s.threads[t]);
    if s.threads[t].pc.WaitB? { WaitEventFalls(s.u, t, e); } else { LockEventFalls(s.u, t, e); }
    hide Inv, LockLeft, WaitLeft, Urcu.Apply, WorkOk;
  }

  lemma StepFalls(s: State, st: Step)
    requires Inv(s) && Enabled(s, st) && s.u.version < Urcu.UNASSIGNED
    requires !s.threads[st.t].pc.Idle? && !s.threads[st.t].pc.Done?
    requires s.threads[st.t].pc.WaitB? ==> NobodyShows(s.u, st.t)
    ensures |Apply(s, st).threads| == |s.threads| && StepsLeftOf(Apply(s, st), st.t) < StepsLeftOf(s, st.t)
    ensures InPush(s.threads[st.t].pc) ==> InPush(Apply(s, st).threads[st.t].pc) || Apply(s, st).threads[st.t].pc.Done?
    ensures NobodyShows(s.u, st.t) ==> NobodyShows(Apply(s, st).u, st.t)
  {
    match st.a
    case Go => GoFalls(s, st.t); GoHides(s, st.t);
    case Lib(e) => LibFalls(s, st.t, e); if NobodyShows(s.u, st.t) { NobodyShowsStays(s.u, st.t, e); }
    case _ =>
  }

  lemma GoHides(s: State, t: nat)
    requires Enabled(s, Step(t, Go))
    ensures |Apply(s, Step(t, Go)).threads| == |s.threads|
    ensures NobodyShows(s.u, t) ==> NobodyShows(Apply(s, Step(t, Go)).u, t)
  {
    hide NextMemory, NextThread;
  }

  /** From state a to state b only t moves, in the middle of one call. */
  ghost predicate Alone(run: seq<State>, steps: seq<Step>, a: nat, b: nat, t: nat) {
    && IsRun(run, steps) && a <= b < |run| && t < |run[a].threads|
    && forall x | a <= x < b :: x < |steps| && steps[x].t == t && t < |run[x].threads| && !run[x].threads[t].pc.Idle? && !run[x].threads[t].pc.Done?
  }

  lemma {:induction false} AloneFalls(run: seq<State>, steps: seq<Step>, a: nat, b: nat, t: nat)
    requires Alone(run, steps, a, b, t) && (NobodyShows(run[a].u, t) || InPush(run[a].threads[t].pc))
    ensures t < |run[b].threads| && StepsLeftOf(run[b], t) + (b - a) <= StepsLeftOf(run[a], t)
    ensures NobodyShows(run[b].u, t) || InPush(run[b].threads[t].pc) || run[b].threads[t].pc.Done?
  {
    hide IsRun, Inv, Apply, StepsLeftOf, NobodyShows;
    if a < b {
      AloneFalls(run, steps, a, b - 1, t);
      RunStep(run, steps, b - 1);
      RunKeepsInv(run, steps, b - 1);
      assert steps[b - 1].t == t && !run[b - 1].threads[t].pc.Idle? && !run[b - 1].threads[t].pc.Done?;
      StepFalls(run[b - 1], steps[b - 1]);
    }
  }

  /** In the middle of a call a thread can always move. */
  lemma NeverStuck(run: seq<State>, steps: seq<Step>, i: nat, t: nat)
    requires IsRun(run, steps) && i < |run| && t < |run[i].threads| && !run[i].threads[t].pc.Idle?
    ensures exists a: Action :: Enabled(run[i], Step(t, a))
  {
    RunKeepsInv(run, steps, i);
    var s := run[i];
    assert ThreadOk(s.m, s.u.cells[t], t, s.threads[t]);
    HasEvent(s.u, t);
    hide IsRun, MemoryOk, Stamps, WorkOk;
    if Enabled(s, Step(t, Go)) {
    } else if s.threads[t].pc.WaitB? {
      var e: Urcu.Event :| (e.SyncCas? || e.SyncProbe?) && Urcu.Enabled(s.u, Urcu.Move(t, e));
      assert Enabled(s, Step(t, Lib(e)));
    } else {
      var e: Urcu.Event :| (e.LockStore? || e.LockReload? || e.LockRepair?) && Urcu.Enabled(s.u, Urcu.Move(t, e));
      assert Enabled(s, Step(t, Lib(e)));
    }
  }

  lemma LeftIsBounded(s: State, t: nat)
    requires t < |s.threads|
    ensures StepsLeftOf(s, t) <= |s.u.cells| + 17
    ensures InPush(s.threads[t].pc) ==> StepsLeftOf(s, t) <= 8
  {
  }

  /** A call that runs alone, from wherever it and the others have got to, is done after at most as
      many own steps as there are threads, and 17: a pop if no other thread shows a version, and a
      push whatever they show, after at most 8. */
  lemma SoloCompletes(run: seq<State>, steps: seq<Step>, a: nat, b: nat, t: nat)
    requires Alone(run, steps, a, b, t)
    ensures NobodyShows(run[a].u, t) ==> b - a <= |run[a].u.cells| + 17
    ensures InPush(run[a].threads[t].pc) ==> b - a <= 8
  {
    hide IsRun, StepsLeftOf, NobodyShows;
    LeftIsBounded(run[a], t);
    if NobodyShows(run[a].u, t) || InPush(run[a].threads[t].pc) { AloneFalls(run, steps, a, b, t); }
  }
}
