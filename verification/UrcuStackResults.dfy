/** What the invariant gives for runs of the URCU stack: memory safety, and a last-in-first-out
    stack from which no value is lost or taken twice. */
module UrcuStackResults {
  import opened StackMemory
  import Urcu
  import opened UrcuStack

  /** In every interleaving no step reads, writes or deletes a node that has been deleted. */
  lemma NoUseAfterFree(run: seq<State>, steps: seq<Step>, i: nat, t: nat)
    requires IsRun(run, steps) && i < |run| && t < |run[i].threads|
    ensures !run[i].crashed && Safe(run[i].m, run[i].threads[t])
  {
    RunKeepsInv(run, steps, i);
    NeverTouchesDead(run[i], t);
  }

  // ---------------------------------------------------------------- the stack as a sequence

  predicate StepPushes(s: State, st: Step) {
    st.t < |s.threads| && st.a.Go? && s.threads[st.t].pc.PushCas? && s.m.top == s.threads[st.t].node
  }

  predicate StepPops(s: State, st: Step) {
    st.t < |s.threads| && st.a.Go? && s.threads[st.t].pc.PopCas? && s.m.top == s.threads[st.t].node
  }

  /** What a step does to the stack.  A pop of the sentinel takes no value. */
  function EventOf(s: State, st: Step): Event {
    if StepPushes(s, st) then Pushes(s.threads[st.t].own)
    else if StepPops(s, st) && s.threads[st.t].node != SENTINEL then Takes(s.threads[st.t].node)
    else Quiet
  }

  /** A push puts one value on top, a pop takes the top value, and every other step leaves the
      stack alone; the sentinel is popped only when nothing else is left. */
  ghost predicate LifoStep(s: State, st: Step, s': State)
    requires st.t < |s.threads|
  {
    && EventStep(Contents(s.m), EventOf(s, st), Contents(s'.m))
    && (StepPops(s, st) && s.threads[st.t].node == SENTINEL ==> Contents(s.m) == [])
  }

  lemma MemoryRefinesLifo(m: Memory, c: Urcu.Cell, now: nat, t: nat, th: Thread)
    requires MemoryOk(m) && ThreadOk(m, c, t, th) && Safe(m, th)
    ensures var m' := NextMemory(m, now, t, th);
            if th.pc.PushCas? && m.top == th.node then Contents(m') == [th.own] + Contents(m)
            else if th.pc.PopCas? && m.top == th.node then
              if th.node != SENTINEL then Contents(m) == [th.node] + Contents(m') else Contents(m) == Contents(m') == []
            else Contents(m') == Contents(m)
  {
    hide ChainOk, CellOk;
    match th.pc
    case PushCas => if m.top == th.node { PushKeeps(m, now, t, th.own); }
    case PopCas => if m.top == th.node { PopKeeps(m, now, t); }
    case FreeB => FreeKeeps(m, now, t, th.node);
    case _ =>
  }

  /** Every step of every thread is a step of a last-in-first-out stack. */
  lemma StepRefinesLifo(s: State, st: Step)
    requires Inv(s) && Enabled(s, st)
    ensures LifoStep(s, st, Apply(s, st))
  {
    assert ThreadOk(s.m, s.u.cells[st.t], st.t, s.threads[st.t]);
    if st.a.Go? {
      NeverTouchesDead(s, st.t);
      hide NextMemory, MemoryOk, ThreadOk, Contents;
      MemoryRefinesLifo(s.m, s.u.cells[st.t], s.u.now, st.t, s.threads[st.t]);
    }
  }

  /** What the first i steps did to the stack. */
  ghost function History(run: seq<State>, steps: seq<Step>, i: nat): seq<Event>
    requires i <= |steps| < |run|
  {
    if i == 0 then [] else History(run, steps, i - 1) + [EventOf(run[i - 1], steps[i - 1])]
  }

  lemma RunStarts(run: seq<State>, steps: seq<Step>)
    requires IsRun(run, steps)
    ensures |run| == |steps| + 1 && Contents(run[0].m) == []
  {
    FreshOk();
  }

  /** Last in, first out: a sequential stack accepts the history of every run, and ends with
      the same values in the same order. */
  lemma {:induction false} LastInFirstOut(run: seq<State>, steps: seq<Step>, i: nat)
    requires IsRun(run, steps) && i < |run|
    ensures i <= |steps| < |run| && Replay(History(run, steps, i)) == Holds(Contents(run[i].m))
  {
    hide IsRun, Inv, Contents, Apply, Enabled, EventOf, EventStep;
    if i == 0 {
      RunStarts(run, steps);
    } else {
      RunStep(run, steps, i - 1);
      RunKeepsInv(run, steps, i - 1);
      LastInFirstOut(run, steps, i - 1);
      StepRefinesLifo(run[i - 1], steps[i - 1]);
      ReplayOne(History(run, steps, i - 1), EventOf(run[i - 1], steps[i - 1]), Contents(run[i - 1].m), Contents(run[i].m));
    }
  }

  lemma TakingIsFinal(s: State, st: Step, n: Node)
    requires Inv(s) && Enabled(s, st)
    ensures EventOf(s, st) == Takes(n) ==> !Gone(s.m, n) && Gone(Apply(s, st).m, n)
    ensures Gone(s.m, n) ==> Gone(Apply(s, st).m, n)
  {
    var th := s.threads[st.t];
    assert ThreadOk(s.m, s.u.cells[st.t], st.t, th);
    NothingEvolves(s.m, s.u.now, st.t);
    if st.a.PushItem? { AllocateKeeps(s.m, s.u.now, st.t, st.a.n); }
    if st.a.Go? { GoKeepsThread(s, st.t); }
    if s.m.top != NULL { TopIsListed(s.m); }
    hide MemoryOk, Evolves;
    if Gone(s.m, n) { GoneStays(s.m, Apply(s, st).m, s.u.now, st.t, n); }
  }

  lemma {:induction false} GoneForGood(run: seq<State>, steps: seq<Step>, i: nat, j: nat, n: Node)
    requires IsRun(run, steps) && i <= j < |run| && Gone(run[i].m, n)
    ensures Gone(run[j].m, n)
  {
    hide IsRun, Inv, Apply, Enabled, EventOf, Gone;
    if i < j {
      GoneForGood(run, steps, i, j - 1, n);
      RunStep(run, steps, j - 1);
      RunKeepsInv(run, steps, j - 1);
      TakingIsFinal(run[j - 1], steps[j - 1], n);
    }
  }

  /** No value is taken twice. */
  lemma TakenOnce(run: seq<State>, steps: seq<Step>, i: nat, j: nat, n: Node)
    requires IsRun(run, steps) && i < j < |steps| && EventOf(run[i], steps[i]) == Takes(n)
    ensures EventOf(run[j], steps[j]) != Takes(n)
  {
    RunStep(run, steps, i);
    RunStep(run, steps, j);
    hide IsRun, Inv, Apply, Enabled, EventOf, Gone;
    RunKeepsInv(run, steps, i);
    RunKeepsInv(run, steps, j);
    TakingIsFinal(run[i], steps[i], n);
    GoneForGood(run, steps, i + 1, j, n);
    TakingIsFinal(run[j], steps[j], n);
  }

  // ---------------------------------------------------------------- the calls

  /** The call that t starts at step a is still running at b. */
  ghost predicate InCall(run: seq<State>, steps: seq<Step>, a: nat, b: nat, t: nat) {
    && IsRun(run, steps) && a < b < |run|
    && steps[a].t == t && (steps[a].a.PushItem? || steps[a].a.PopItem?)
    && forall j | a < j <= b :: t < |run[j].threads| && !run[j].threads[t].pc.Idle?
  }

  /** How many steps of t in a..b put a value on the stack, and how many take one. */
  ghost function Works(run: seq<State>, steps: seq<Step>, a: nat, b: nat, t: nat): (int, int)
    requires a <= b < |run| == |steps| + 1
  {
    if a == b then (0, 0)
    else
      var w, e := Works(run, steps, a, b - 1, t), EventOf(run[b - 1], steps[b - 1]);
      if steps[b - 1].t != t then w
      else (w.0 + (if e.Pushes? then 1 else 0), w.1 + (if e.Takes? then 1 else 0))
  }

  lemma OthersStand(s: State, st: Step, t: nat)
    requires Enabled(s, st) && st.t != t && t < |s.threads|
    ensures t < |Apply(s, st).threads| && Apply(s, st).threads[t] == s.threads[t]
    ensures s.blank <= Apply(s, st).blank
  {
    hide NextMemory, NextThread;
  }

  lemma CallStarts(s: State, st: Step)
    requires Inv(s) && Enabled(s, st) && (st.a.PushItem? || st.a.PopItem?)
    ensures var th := Apply(s, st).threads[st.t];
            if st.a.PushItem? then th.pc.EnterA? && th.own == st.a.n else th.pc.EnterB?
    ensures !StepPushes(s, st) && !StepPops(s, st)
  {
  }

  /** t put the value n on top in this step. */
  ghost predicate PutsOnTop(s: State, st: Step, s': State, t: nat, n: Node) {
    st.t == t && Contents(s'.m) == [n] + Contents(s.m)
  }

  /** What a push of n has done by state b. */
  ghost predicate PushDone(run: seq<State>, steps: seq<Step>, a: nat, b: nat, t: nat, n: Node)
    requires a < b < |run| == |steps| + 1 && t < |run[b].threads|
  {
    var th := run[b].threads[t];
    && (Pushing(th.pc) || th.pc.UnlockA? || th.pc.Done?) && th.own == n
    && Works(run, steps, a, b, t) == (if Pushing(th.pc) then 0 else 1, 0)
    && (!Pushing(th.pc) ==> exists j | a <= j < b :: PutsOnTop(run[j], steps[j], run[j + 1], t, n))
  }

  lemma PushStep(s: State, st: Step, t: nat)
    requires Inv(s) && Enabled(s, st) && st.t == t
    requires Pushing(s.threads[t].pc) || s.threads[t].pc.UnlockA? || s.threads[t].pc.Done?
    requires !Apply(s, st).threads[t].pc.Idle?
    ensures var th, th' := s.threads[t], Apply(s, st).threads[t];
            && (Pushing(th'.pc) || th'.pc.UnlockA? || th'.pc.Done?) && !StepPops(s, st) && th'.own == th.own
            && (Pushing(th'.pc) <==> Pushing(th.pc) && !StepPushes(s, st))
            && (StepPushes(s, st) ==> Pushing(th.pc))
  {
    if st.a.Go? { NeverTouchesDead(s, t); }
    hide NextMemory, Inv;
  }

  lemma {:induction false} PushProgress(run: seq<State>, steps: seq<Step>, a: nat, b: nat, t: nat)
    requires InCall(run, steps, a, b, t) && steps[a].a.PushItem?
    ensures |run| == |steps| + 1 && PushDone(run, steps, a, b, t, steps[a].a.n)
  {
    hide IsRun, Inv, Contents, Apply, StepPushes, StepPops;
    RunStep(run, steps, b - 1);
    RunKeepsInv(run, steps, b - 1);
    var s, st := run[b - 1], steps[b - 1];
    StepRefinesLifo(s, st);
    if a + 1 == b {
      CallStarts(s, st);
      assert Works(run, steps, a, a, t) == (0, 0);
    } else {
      PushProgress(run, steps, a, b - 1, t);
      if st.t != t { OthersStand(s, st, t); }
      else {
        PushStep(s, st, t);
        if StepPushes(s, st) { assert PutsOnTop(s, st, run[b], t, steps[a].a.n); }
      }
    }
  }

  /** A push puts its value on top in exactly one step of the call. */
  lemma PushIsRight(run: seq<State>, steps: seq<Step>, a: nat, b: nat, t: nat)
    requires InCall(run, steps, a, b, t) && steps[a].a.PushItem? && run[b].threads[t].pc.Done?
    ensures |run| == |steps| + 1 && Works(run, steps, a, b, t) == (1, 0)
    ensures exists j | a <= j < b :: PutsOnTop(run[j], steps[j], run[j + 1], t, steps[a].a.n)
  {
    PushProgress(run, steps, a, b, t);
  }

  predicate BeforePop(pc: Pc) {
    pc.EnterB? || pc.LockB? || pc.LoadTop? || pc.CheckTop? || pc.LoadNext? || pc.PopCas? || pc.RetryB?
  }

  /** t took the value n from the top in this step. */
  ghost predicate TakesTop(s: State, st: Step, s': State, t: nat, n: Node) {
    st.t == t && Contents(s.m) == [n] + Contents(s'.m)
  }

  /** What a pop has done by state b. */
  ghost predicate PopDone(run: seq<State>, steps: seq<Step>, a: nat, b: nat, t: nat)
    requires a < b < |run| == |steps| + 1 && t < |run[b].threads|
  {
    var th := run[b].threads[t];
    var w := Works(run, steps, a, b, t);
    && (BeforePop(th.pc) || Popped(th.pc) || th.pc.UnlockEmpty? || th.pc.Done?)
    && w.0 == 0 && 0 <= w.1 <= 1
    && (BeforePop(th.pc) || th.pc.UnlockEmpty? ==> w.1 == 0)
    && (th.pc.ReadItem? ==> (w.1 == 1 <==> th.node != SENTINEL))
    && (w.1 == 1 ==> th.node != SENTINEL && th.node != NULL && (th.pc.ReadItem? || ResultOk(run[b], th)))
    && (w.1 == 1 ==> exists j | a <= j < b :: TakesTop(run[j], steps[j], run[j + 1], t, th.node))
    && (w.1 == 0 && !BeforePop(th.pc) ==> th.pc.ReadItem? || th.pc.UnlockEmpty? || th.result == NULL)
    && (w.1 == 0 && !BeforePop(th.pc) ==> exists j | a <= j < b :: Contents(run[j].m) == [])
  }

  /** The item of the node taken. */
  predicate ResultOk(s: State, th: Thread) {
    th.result == th.node || (th.result == NULL && th.node in s.blank)
  }

  lemma PopStep(s: State, st: Step, t: nat)
    requires Inv(s) && Enabled(s, st) && st.t == t && !s.threads[t].pc.Idle?
    requires var pc := s.threads[t].pc; BeforePop(pc) || Popped(pc) || pc.UnlockEmpty? || pc.Done?
    requires !Apply(s, st).threads[t].pc.Idle?
    ensures s.blank <= Apply(s, st).blank
    ensures var th, th' := s.threads[t], Apply(s, st).threads[t];
            && !th.pc.Done? && !StepPushes(s, st)
            && (BeforePop(th.pc) ==> BeforePop(th'.pc) || (th'.pc.UnlockEmpty? && Contents(s.m) == []) || (th'.pc.ReadItem? && StepPops(s, st)))
            && (Popped(th.pc) ==> (Popped(th'.pc) || th'.pc.Done?) && !th'.pc.ReadItem? && th'.node == th.node)
            && (th.pc.ReadItem? ==> th'.result == if th.node == SENTINEL || th.node in s.blank then NULL else th.node)
            && (Popped(th.pc) && !th.pc.ReadItem? ==> th'.result == th.result)
            && (th.pc.UnlockEmpty? ==> th'.pc.Done? && th'.result == NULL)
            && (StepPops(s, st) ==> th.node != NULL && BeforePop(th.pc) && th'.pc.ReadItem? && th'.node == th.node)
  {
    if st.a.Go? { NeverTouchesDead(s, t); }
    if s.m.top == NULL { NullTopIsEmpty(s.m); }
    hide NextMemory, Inv;
  }

  lemma {:induction false} PopProgress(run: seq<State>, steps: seq<Step>, a: nat, b: nat, t: nat)
    requires InCall(run, steps, a, b, t) && steps[a].a.PopItem?
    ensures |run| == |steps| + 1 && PopDone(run, steps, a, b, t)
  {
    hide IsRun, Inv, Contents, Apply, StepPushes, StepPops;
    RunStep(run, steps, b - 1);
    RunKeepsInv(run, steps, b - 1);
    var s, st := run[b - 1], steps[b - 1];
    StepRefinesLifo(s, st);
    if a + 1 == b {
      CallStarts(s, st);
      assert Works(run, steps, a, a, t) == (0, 0);
    } else {
      PopProgress(run, steps, a, b - 1, t);
      if st.t != t { OthersStand(s, st, t); }
      else {
        PopStep(s, st, t);
        if StepPops(s, st) && s.threads[t].node != SENTINEL {
          assert TakesTop(s, st, run[b], t, s.threads[t].node);
        }
      }
    }
  }

  /** A pop that returns a value took it from the top in exactly one step of its own.  A pop
      that returns null took a value that was pushed as null, or took nothing, and then the
      stack was empty at some moment of the call. */
  lemma PopIsRight(run: seq<State>, steps: seq<Step>, a: nat, b: nat, t: nat)
    requires InCall(run, steps, a, b, t) && steps[a].a.PopItem? && run[b].threads[t].pc.Done?
    ensures |run| == |steps| + 1
    ensures var th, w := run[b].threads[t], Works(run, steps, a, b, t);
            && w.0 == 0
            && (w.1 == 0 || w.1 == 1)
            && (w.1 == 1 ==> exists j | a <= j < b :: TakesTop(run[j], steps[j], run[j + 1], t, th.node))
            && (th.result != NULL ==> w.1 == 1 && th.result == th.node)
            && (th.result == NULL ==>
                  if w.1 == 1 then th.node in run[b].blank else exists j | a <= j < b :: Contents(run[j].m) == [])
  {
    hide IsRun, Inv, Contents, Apply, Works, TakesTop;
    PopProgress(run, steps, a, b, t);
  }
}
