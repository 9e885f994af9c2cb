/** A call of the URCU queue that runs alone comes to its end when no other thread shows a version: it
    waits for those that do. */
module UrcuQueueSolo {
  import opened QueueMemory
  import Urcu
  import opened UrcuSolo
  import opened UrcuQueue
  import opened UrcuQueueProofs
  import opened UrcuQueueResults

  /** Tail is behind the last node. */
  function Lag(m: Memory): nat {
    if |m.order| > m.ti + 1 then 12 else 0
  }

  /** Tail is behind and head has caught up with it: a dequeue has to help first. */
  function Stuck(m: Memory): nat {
    if m.hi == m.ti && |m.order| > m.ti + 1 then 12 else 0
  }

  function NextOf(m: Memory, n: Node): Node {
    if n in m.next then m.next[n] else NULL
  }

  /** An upper bound on the own steps of an enqueue that runs alone: a round for a tail that is
      behind, one for a stale expected value, one for a node that is no longer the tail. */
  function EnqueueLeft(m: Memory, th: Thread, lock: nat, wait: nat, n: nat): nat {
    var current, lag, stale := th.node == m.tail, Lag(m), if th.expected == NULL then 0 else 12;
    match th.pc
    case ReadTail => n + 14 + lag + stale
    case EnterE => n + (if current then 13 else 23) + lag + stale
    case LockE => n + (if current then 9 else 18) + lock + lag + stale
    case CheckTail => n + (if current then 9 else 18) + lag + stale
    case ReadNextE => n + (if current then 8 else 17) + lag + stale
    case RecheckTail =>
      if !current then n + 16 + lag + stale
      else if th.nxt == NULL && NextOf(m, th.node) != NULL then n + 28 + lag
      else n + 7 + lag + stale
    case LinkCas => if NextOf(m, th.node) == NULL then n + 6 + lag + stale else n + 27 + lag
    case HelpTailE => n + 16 + stale + (if current then 0 else lag)
    case RetryE => n + 15 + lag + stale
    case SwingCas => n + 5
    case UnlockE => n + 4
    case SyncE => n + 3
    case WaitE => wait
    case _ => 0
  }

  /** An upper bound on the own steps of a dequeue that runs alone. */
  function DequeueLeft(m: Memory, th: Thread, lock: nat, wait: nat, n: nat): nat {
    var current, stuck := th.node == m.head, Stuck(m);
    var helps := if th.node == th.seenTail && m.tail != th.seenTail then 10 else 0;
    match th.pc
    case ReadHead => n + 16 + stuck
    case EnterD => n + (if current then 15 else 25) + stuck
    case LockD => n + (if current then 11 else 21) + lock + stuck
    case CheckHead => n + (if current then 11 else 21) + stuck
    case ReadTailD => n + (if current then 10 else 20) + stuck
    case ReadNextD => n + (if current then 9 + helps else 19) + stuck
    case RecheckHead => n + (if current then 8 + helps else 18) + stuck
    case HelpTailD => n + 17 + (if m.tail == th.seenTail then 0 else stuck)
    case HeadCas => n + (if current then 7 else 17 + stuck)
    case ReadItem => n + 6
    case RetryD => n + 17 + stuck
    case UnlockD => n + 5
    case SyncD => n + 4
    case WaitD => 1 + wait
    case FreeD => 1
    case _ => 0
  }

  function StepsLeftOf(s: State, t: nat): nat
    requires t < |s.threads|
  {
    var lock, wait, n := LockLeft(s.u, t), WaitLeft(s.u, t), |s.u.cells|;
    EnqueueLeft(s.m, s.threads[t], lock, wait, n) + DequeueLeft(s.m, s.threads[t], lock, wait, n)
  }

  predicate EnqueueRuns(pc: Pc) {
    InEnqueue(pc) && !pc.Done?
  }

  predicate DequeueRuns(pc: Pc) {
    BeforeTake(pc) || Unlinked(pc)
  }

  /** The steps of an enqueue that try to change the queue, or decide to. */
  predicate Tries(pc: Pc) {
    pc.RecheckTail? || pc.LinkCas? || pc.HelpTailE?
  }

  lemma TryFalls(m: Memory, began: nat, now: nat, t: nat, th: Thread, lock: nat, lock': nat, wait: nat, wait': nat, n: nat)
    requires MemoryOk(m) && EnqueueOk(m, began, t, th) && Safe(m, th) && Tries(th.pc)
    requires (th.pc.EnterE? ==> lock' == 3) && (th.pc.LockE? ==> lock > 0)
    requires (th.pc.SyncE? ==> wait' == n + 2) && (th.pc.WaitE? ==> wait > 0)
    ensures var th' := NextThread(m, th);
            (EnqueueRuns(th'.pc) || th'.pc.Done?) && EnqueueLeft(NextMemory(m, now, t, th), th', lock', wait', n) < EnqueueLeft(m, th, lock, wait, n)
  {
    assert LinkedOk(m, th.node);
    SuccessorIsNext(m, th.node);
    if th.pc.LinkCas? { StaleExpectedFails(m, th.node, th.expected); }
    hide MemoryOk;
  }

  lemma ReadFalls(m: Memory, began: nat, now: nat, t: nat, th: Thread, lock: nat, lock': nat, wait: nat, wait': nat, n: nat)
    requires MemoryOk(m) && EnqueueOk(m, began, t, th) && Safe(m, th) && EnqueueRuns(th.pc) && !Tries(th.pc)
    requires (th.pc.EnterE? ==> lock' == 3) && (th.pc.LockE? ==> lock > 0)
    requires (th.pc.SyncE? ==> wait' == n + 2) && (th.pc.WaitE? ==> wait > 0)
    ensures var th' := NextThread(m, th);
            (EnqueueRuns(th'.pc) || th'.pc.Done?) && EnqueueLeft(NextMemory(m, now, t, th), th', lock', wait', n) < EnqueueLeft(m, th, lock, wait, n)
  {
    hide MemoryOk, EnqueueOk;
  }

  lemma EnqueueFalls(m: Memory, began: nat, now: nat, t: nat, th: Thread, lock: nat, lock': nat, wait: nat, wait': nat, n: nat)
    requires MemoryOk(m) && EnqueueOk(m, began, t, th) && Safe(m, th) && EnqueueRuns(th.pc)
    requires (th.pc.EnterE? ==> lock' == 3) && (th.pc.LockE? ==> lock > 0)
    requires (th.pc.SyncE? ==> wait' == n + 2) && (th.pc.WaitE? ==> wait > 0)
    ensures var th' := NextThread(m, th);
            (EnqueueRuns(th'.pc) || th'.pc.Done?) && EnqueueLeft(NextMemory(m, now, t, th), th', lock', wait', n) < EnqueueLeft(m, th, lock, wait, n)
  {
    hide MemoryOk, EnqueueOk, NextMemory, NextThread, EnqueueLeft, Safe;
    if Tries(th.pc) { TryFalls(m, began, now, t, th, lock, lock', wait, wait', n); }
    else { ReadFalls(m, began, now, t, th, lock, lock', wait, wait', n); }
  }

  /** The steps of a dequeue that decide what to do, or help. */
  predicate Decides(pc: Pc) {
    pc.RecheckHead? || pc.HelpTailD?
  }

  lemma DecideFalls(m: Memory, c: Urcu.Cell, now: nat, t: nat, th: Thread, lock: nat, lock': nat, wait: nat, wait': nat, n: nat)
    requires MemoryOk(m) && DequeueOk(m, c, t, th) && Safe(m, th) && Decides(th.pc)
    requires (th.pc.EnterD? ==> lock' == 3) && (th.pc.LockD? ==> lock > 0)
    requires (th.pc.SyncD? ==> wait' == n + 2) && (th.pc.WaitD? ==> wait > 0)
    ensures var th' := NextThread(m, th);
            (DequeueRuns(th'.pc) || th'.pc.Done?) && DequeueLeft(NextMemory(m, now, t, th), th', lock', wait', n) < DequeueLeft(m, th, lock, wait, n)
  {
    hide LinkedOk, PrivateOk, DequeueOwns;
  }

  lemma SearchFalls(m: Memory, c: Urcu.Cell, now: nat, t: nat, th: Thread, lock: nat, lock': nat, wait: nat, wait': nat, n: nat)
    requires MemoryOk(m) && DequeueOk(m, c, t, th) && Safe(m, th) && BeforeTake(th.pc) && !Decides(th.pc)
    requires (th.pc.EnterD? ==> lock' == 3) && (th.pc.LockD? ==> lock > 0)
    requires (th.pc.SyncD? ==> wait' == n + 2) && (th.pc.WaitD? ==> wait > 0)
    ensures var th' := NextThread(m, th);
            (DequeueRuns(th'.pc) || th'.pc.Done?) && DequeueLeft(NextMemory(m, now, t, th), th', lock', wait', n) < DequeueLeft(m, th, lock, wait, n)
  {
    hide MemoryOk, DequeueOk;
  }

  lemma TakenFalls(m: Memory, c: Urcu.Cell, now: nat, t: nat, th: Thread, lock: nat, lock': nat, wait: nat, wait': nat, n: nat)
    requires MemoryOk(m) && DequeueOk(m, c, t, th) && Safe(m, th) && Unlinked(th.pc)
    requires (th.pc.EnterD? ==> lock' == 3) && (th.pc.LockD? ==> lock > 0)
    requires (th.pc.SyncD? ==> wait' == n + 2) && (th.pc.WaitD? ==> wait > 0)
    ensures var th' := NextThread(m, th);
            (DequeueRuns(th'.pc) || th'.pc.Done?) && DequeueLeft(NextMemory(m, now, t, th), th', lock', wait', n) < DequeueLeft(m, th, lock, wait, n)
  {
    hide MemoryOk, DequeueOk;
  }

  lemma DequeueFalls(m: Memory, c: Urcu.Cell, now: nat, t: nat, th: Thread, lock: nat, lock': nat, wait: nat, wait': nat, n: nat)
    requires MemoryOk(m) && DequeueOk(m, c, t, th) && Safe(m, th) && DequeueRuns(th.pc)
    requires (th.pc.EnterD? ==> lock' == 3) && (th.pc.LockD? ==> lock > 0)
    requires (th.pc.SyncD? ==> wait' == n + 2) && (th.pc.WaitD? ==> wait > 0)
    ensures var th' := NextThread(m, th);
            (DequeueRuns(th'.pc) || th'.pc.Done?) && DequeueLeft(NextMemory(m, now, t, th), th', lock', wait', n) < DequeueLeft(m, th, lock, wait, n)
  {
    hide MemoryOk, DequeueOk, NextMemory, NextThread, DequeueLeft, Safe;
    if Decides(th.pc) { DecideFalls(m, c, now, t, th, lock, lock', wait, wait', n); }
    else if BeforeTake(th.pc) { SearchFalls(m, c, now, t, th, lock, lock', wait, wait', n); }
    else { TakenFalls(m, c, now, t, th, lock, lock', wait, wait', n); }
  }

  /** A call is an enqueue or a dequeue. */
  lemma OneKind(m: Memory, th: Thread, lock: nat, wait: nat, n: nat)
    ensures EnqueueRuns(th.pc) || th.pc.Done? ==> DequeueLeft(m, th, lock, wait, n) == 0
    ensures DequeueRuns(th.pc) || th.pc.Done? ==> EnqueueLeft(m, th, lock, wait, n) == 0
  {
  }

  /** A step of the queue code. */
  lemma GoFalls(s: State, t: nat)
    requires Inv(s) && Enabled(s, Step(t, Go)) && !s.threads[t].pc.Done?
    ensures StepsLeftOf(Apply(s, Step(t, Go)), t) < StepsLeftOf(s, t)
  {
    NeverTouchesDead(s, t);
    var th, s', c := s.threads[t], Apply(s, Step(t, Go)), s.u.cells[t];
    assert ThreadOk(s.m, c, t, th);
    if th.pc.EnterE? || th.pc.EnterD? { LockStarts(s.u, t); }
    if th.pc.SyncE? || th.pc.SyncD? { WaitStarts(s.u, t); }
    assert |s'.u.cells| == |s.u.cells|;
    hide Inv, EnqueueOk, DequeueOk, NextMemory, NextThread, EnqueueLeft, DequeueLeft, Safe;
    var lock, lock' := LockLeft(s.u, t), LockLeft(s'.u, t);
    var wait, wait', n := WaitLeft(s.u, t), WaitLeft(s'.u, t), |s.u.cells|;
    OneKind(s.m, th, lock, wait, n);
    OneKind(s'.m, s'.threads[t], lock', wait', n);
    if EnqueueRuns(th.pc) { EnqueueFalls(s.m, c.began, s.u.now, t, th, lock, lock', wait, wait', n); }
    else { DequeueFalls(s.m, c, s.u.now, t, th, lock, lock', wait, wait', n); }
  }

  /** An event inside `readLock` or `synchronizeRCU`. */
  lemma LibFalls(s: State, t: nat, e: Urcu.Event)
    requires Inv(s) && Enabled(s, Step(t, Lib(e))) && s.u.version < Urcu.UNASSIGNED && NobodyShows(s.u, t)
    ensures StepsLeftOf(Apply(s, Step(t, Lib(e))), t) < StepsLeftOf(s, t)
  {
    assert ThreadOk(s.m, s.u.cells[t], t, s.threads[t]);
    if Waiting(s.threads[t].pc) { WaitEventFalls(s.u, t, e); } else { LockEventFalls(s.u, t, e); }
    NobodyShowsStays(s.u, t, e);
    hide Inv, LockLeft, WaitLeft, Urcu.Apply, EnqueueOk, DequeueOk;
  }

  lemma StepFalls(s: State, st: Step)
    requires Inv(s) && Enabled(s, st) && s.u.version < Urcu.UNASSIGNED && NobodyShows(s.u, st.t)
    requires !s.threads[st.t].pc.Idle? && !s.threads[st.t].pc.Done?
    ensures |Apply(s, st).threads| == |s.threads| && StepsLeftOf(Apply(s, st), st.t) < StepsLeftOf(s, st.t)
    ensures NobodyShows(Apply(s, st).u, st.t)
  {
    hide Inv, StepsLeftOf, NobodyShows;
    match st.a
    case Go => GoFalls(s, st.t); GoHides(s, st.t);
    case Lib(e) => LibFalls(s, st.t, e); NobodyShowsStays(s.u, st.t, e);
    case _ =>
  }

  lemma GoHides(s: State, t: nat)
    requires Enabled(s, Step(t, Go))
    ensures |Apply(s, Step(t, Go)).threads| == |s.threads|
    ensures NobodyShows(s.u, t) ==> NobodyShows(Apply(s, Step(t, Go)).u, t)
  {
    hide NextMemory, NextThread;
  }

  /** From state a to state b only t moves, in the middle of one call. */
  ghost predicate Alone(run: seq<State>, steps: seq<Step>, a: nat, b: nat, t: nat) {
    && IsRun(run, steps) && a <= b < |run| && t < |run[a].threads|
    && forall x | a <= x < b :: x < |steps| && steps[x].t == t && t < |run[x].threads| && !run[x].threads[t].pc.Idle? && !run[x].threads[t].pc.Done?
  }

  lemma {:induction false} AloneFalls(run: seq<State>, steps: seq<Step>, a: nat, b: nat, t: nat)
    requires Alone(run, steps, a, b, t) && NobodyShows(run[a].u, t)
    ensures t < |run[b].threads| && StepsLeftOf(run[b], t) + (b - a) <= StepsLeftOf(run[a], t)
    ensures NobodyShows(run[b].u, t)
  {
    hide IsRun, Inv, Apply, StepsLeftOf, NobodyShows;
    if a < b {
      AloneFalls(run, steps, a, b - 1, t);
      RunStep(run, steps, b - 1);
      RunKeepsInv(run, steps, b - 1);
      assert steps[b - 1].t == t && !run[b - 1].threads[t].pc.Idle? && !run[b - 1].threads[t].pc.Done?;
      StepFalls(run[b - 1], steps[b - 1]);
    }
  }

  /** In the middle of a call a thread can always move. */
  lemma NeverStuck(run: seq<State>, steps: seq<Step>, i: nat, t: nat)
    requires IsRun(run, steps) && i < |run| && t < |run[i].threads| && !run[i].threads[t].pc.Idle?
    ensures exists a: Action :: Enabled(run[i], Step(t, a))
  {
    RunKeepsInv(run, steps, i);
    var s := run[i];
    assert ThreadOk(s.m, s.u.cells[t], t, s.threads[t]);
    HasEvent(s.u, t);
    hide IsRun, MemoryOk, Stamps, EnqueueOk, DequeueOk;
    if Enabled(s, Step(t, Go)) {
    } else if Waiting(s.threads[t].pc) {
      var e: Urcu.Event :| (e.SyncCas? || e.SyncProbe?) && Urcu.Enabled(s.u, Urcu.Move(t, e));
      assert Enabled(s, Step(t, Lib(e)));
    } else {
      var e: Urcu.Event :| (e.LockStore? || e.LockReload? || e.LockRepair?) && Urcu.Enabled(s.u, Urcu.Move(t, e));
      assert Enabled(s, Step(t, Lib(e)));
    }
  }

  lemma LeftIsBounded(s: State, t: nat)
    requires t < |s.threads|
    ensures StepsLeftOf(s, t) <= |s.u.cells| + 47
  {
    OneKind(s.m, s.threads[t], LockLeft(s.u, t), WaitLeft(s.u, t), |s.u.cells|);
  }

  /** A call that runs alone while no other thread shows a version is done, from wherever it and the
      others have got to, after at most as many own steps as there are threads, and 47. */
  lemma SoloCompletes(run: seq<State>, steps: seq<Step>, a: nat, b: nat, t: nat)
    requires Alone(run, steps, a, b, t) && NobodyShows(run[a].u, t)
    ensures b - a <= |run[a].u.cells| + 47
  {
    hide IsRun, StepsLeftOf, NobodyShows;
    LeftIsBounded(run[a], t);
    AloneFalls(run, steps, a, b, t);
  }
}
