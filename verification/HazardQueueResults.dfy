/** What the invariant gives for runs of the hazard-pointer queue: memory safety, and a
    first-in-first-out queue whose contents are the nodes after head up to tail. */
module HazardQueueResults {
  import opened QueueMemory
  import opened TailFifo
  import Hazards
  import opened HazardQueue
  import opened HazardQueueProofs

  /** In every interleaving no step reads, writes or deletes a node that has been deleted,
      and the printed counter of a thread is the length of its retired list. */
  lemma NoUseAfterFree(run: seq<State>, steps: seq<Step>, slots: nat, i: nat, t: nat)
    requires IsRun(run, steps, slots) && i < |run| && t < |run[i].threads|
    ensures !run[i].crashed && Safe(run[i].m, |run[i].threads|, run[i].threads[t])
    ensures run[i].threads[t].ret.count == |run[i].threads[t].ret.list|
  {
    RunKeepsInv(run, steps, slots, i);
    NeverTouchesDead(run[i], slots, t);
    assert ThreadOk(run[i].m, run[i].hazards[t], t, slots, run[i].threads[t]);
  }

  /** Head is never past tail, and tail is at most one link behind the last node. */
  lemma TailLagsByOne(run: seq<State>, steps: seq<Step>, slots: nat, i: nat)
    requires IsRun(run, steps, slots) && i < |run|
    ensures run[i].m.hi <= run[i].m.ti < |run[i].m.order| <= run[i].m.ti + 2
    ensures At(run[i].m, run[i].m.head, run[i].m.hi) && At(run[i].m, run[i].m.tail, run[i].m.ti)
  {
    RunKeepsInv(run, steps, slots, i);
  }

  // ---------------------------------------------------------------- the queue as a sequence

  lemma MemoryRefinesFifo(m: Memory, row: seq<Node>, threads: nat, t: nat, slots: nat, th: Thread)
    requires MemoryOk(m) && ThreadOk(m, row, t, slots, th) && Safe(m, threads, th)
    ensures FifoStep(m, NextMemory(m, threads, t, th))
  {
    hide GuardsOk, RetiredOk, PrivateOk, LinkedOk;
    match th.pc
    case HelpTail => if m.tail == th.node { SwingAppends(m, th.nxt); }
    case SwingCas => if m.tail == th.node { SwingAppends(m, th.own); }
    case HeadCas => if m.head == th.node { MoveRemoves(m, th.nxt, t); }
    case LinkCas => LinkIsQuiet(m, th.node, th.own);
    case _ => hide KnowsOk;
  }

  /** Every step of every thread is a step of a first-in-first-out queue. */
  lemma StepRefinesFifo(s: State, slots: nat, st: Step)
    requires Inv(s, slots) && Enabled(s, st)
    ensures FifoStep(s.m, Apply(s, st).m)
    ensures Evolves(s.m, Apply(s, st).m, 0, st.t)
  {
    var m, th := s.m, s.threads[st.t];
    assert ThreadOk(m, s.hazards[st.t], st.t, slots, th);
    if st.a.Go? {
      NeverTouchesDead(s, slots, st.t);
      hide NextMemory, NextThread, MemoryOk, FifoStep, Evolves, ThreadOk;
      MemoryRefinesFifo(m, s.hazards[st.t], |s.threads|, st.t, slots, th);
      StepKeepsMemory(m, s.hazards[st.t], |s.threads|, st.t, slots, th);
    } else {
      NothingEvolves(m, 0, st.t);
      if st.a.Enqueue? { AllocateKeeps(m, 0, st.t, st.a.n); }
    }
  }

  /** The memories of a run. */
  ghost function Trace(run: seq<State>): (trace: seq<Memory>)
    ensures |trace| == |run| && forall i | 0 <= i < |run| :: trace[i] == run[i].m
  {
    seq(|run|, i requires 0 <= i < |run| => run[i].m)
  }

  lemma RunStarts(run: seq<State>, steps: seq<Step>, slots: nat)
    requires IsRun(run, steps, slots)
    ensures Contents(run[0].m) == []
  {
  }

  /** First in, first out: what was enqueued is what was dequeued followed by the contents,
      in this order, at every state of every run. */
  lemma FirstInFirstOut(run: seq<State>, steps: seq<Step>, slots: nat, i: nat)
    requires IsRun(run, steps, slots) && i < |run|
    ensures Enqueued(Trace(run), i) == Dequeued(Trace(run), i) + Contents(run[i].m)
  {
    hide IsRun, Inv, Apply, Contents, Evolves, FifoStep, Enabled;
    RunStarts(run, steps, slots);
    forall j | 0 <= j < i ensures FifoStep(Trace(run)[j], Trace(run)[j + 1]) {
      RunStep(run, steps, slots, j);
      RunKeepsInv(run, steps, slots, j);
      StepRefinesFifo(run[j], slots, steps[j]);
    }
    FifoLaw(Trace(run), i);
  }

  // ---------------------------------------------------------------- the calls

  /** The call that t starts at step a is still running at b. */
  ghost predicate InCall(run: seq<State>, steps: seq<Step>, slots: nat, a: nat, b: nat, t: nat) {
    && IsRun(run, steps, slots) && a < b < |run|
    && steps[a].t == t && !steps[a].a.Go?
    && forall j | a < j <= b :: t < |run[j].threads| && !run[j].threads[t].pc.Idle?
  }

  predicate InDequeue(pc: Pc) {
    pc.ReadHead? || pc.PublishHead? || pc.RecheckHead? || pc.CompareTail? || pc.LoadNext? || pc.PublishNext?
    || pc.RecheckNext? || pc.HeadCas? || pc.ReadItem? || pc.ClearDequeue? || pc.Retiring? || pc.ClearEmpty? || pc.Done?
  }

  predicate InEnqueue(pc: Pc) {
    Enqueuing(pc) || pc.SwingCas? || pc.ClearEnqueue? || pc.Done?
  }

  /** How many steps of t in a..b move head. */
  ghost function Takes(run: seq<State>, steps: seq<Step>, a: nat, b: nat, t: nat): nat
    requires a <= b < |run| && |run| == |steps| + 1
  {
    if a == b then 0
    else Takes(run, steps, a, b - 1, t)
         + (if steps[b - 1].t == t && run[b].m.head != run[b - 1].m.head then 1 else 0)
  }

  /** t removed the value n from the front in this step. */
  ghost predicate TakesFirst(s: State, st: Step, s': State, t: nat, n: Node) {
    st.t == t && Contents(s.m) == [n] + Contents(s'.m)
  }

  /** What a dequeue has done by state b. */
  ghost predicate DequeueOk(run: seq<State>, steps: seq<Step>, a: nat, b: nat, t: nat)
    requires a < b < |run| && |run| == |steps| + 1 && t < |run[b].threads|
  {
    var th := run[b].threads[t];
    InDequeue(th.pc) &&
    if th.pc.ReadItem? || th.pc.ClearDequeue? || th.pc.Retiring? || (th.pc.Done? && th.result != NULL) then
      && Takes(run, steps, a, b, t) == 1
      && (!th.pc.ReadItem? ==> th.result == th.nxt) && th.nxt != NULL
      && exists j | a <= j < b :: TakesFirst(run[j], steps[j], run[j + 1], t, th.nxt)
    else
      && Takes(run, steps, a, b, t) == 0
      && (th.pc.ClearEmpty? || th.pc.Done? ==> th.result == NULL && exists j | a <= j < b :: Contents(run[j].m) == [])
  }

  lemma HeadOnlyByHeadCas(s: State, slots: nat, t: nat)
    requires Inv(s, slots) && Enabled(s, Step(t, Go))
    ensures var s' := Apply(s, Step(t, Go));
            (s'.m.head != s.m.head <==> s.threads[t].pc.HeadCas? && s.m.head == s.threads[t].node)
    ensures s.threads[t].pc.HeadCas? && s.m.head == s.threads[t].node ==>
              Apply(s, Step(t, Go)).m.head == s.threads[t].nxt != NULL && Apply(s, Step(t, Go)).m.tail == s.m.tail
    ensures s.threads[t].pc.CompareTail? && s.threads[t].node == s.m.tail ==> Contents(s.m) == []
  {
    NeverTouchesDead(s, slots, t);
    var m, th := s.m, s.threads[t];
    assert ThreadOk(m, s.hazards[t], t, slots, th);
    assert LinkedOk(m, th.nxt) && LinkedOk(m, m.head);
    hide GuardsOk, RetiredOk;
  }

  lemma DequeueStep(s: State, slots: nat, t: nat)
    requires Inv(s, slots) && Enabled(s, Step(t, Go)) && InDequeue(s.threads[t].pc)
    requires !Apply(s, Step(t, Go)).threads[t].pc.Idle?
    ensures var th, th' := s.threads[t], Apply(s, Step(t, Go)).threads[t];
            && InDequeue(th'.pc) && !th.pc.Done?
            && (th.pc.ReadItem? || th.pc.ClearDequeue? || th.pc.Retiring? ==>
                  (th'.pc.ClearDequeue? || th'.pc.Retiring? || th'.pc.Done?) && th'.nxt == th.nxt
                  && th'.result == if th.pc.ReadItem? then th.nxt else th.result)
            && (th.pc.ClearEmpty? ==> (th'.pc.ClearEmpty? || th'.pc.Done?) && th'.result == th.result)
            && (th.pc.CompareTail? && th.node == s.m.tail ==> th'.pc.ClearEmpty? && th'.result == NULL)
            && (th.pc.HeadCas? && s.m.head == th.node ==> th'.pc.ReadItem? && th'.nxt == th.nxt)
            && (th.pc.HeadCas? && s.m.head != th.node ==> th'.pc.ReadHead?)
            && (th.pc.CompareTail? && th.node != s.m.tail ==> th'.pc.LoadNext?)
            && (th.pc.ReadHead? || th.pc.PublishHead? || th.pc.RecheckHead? || th.pc.LoadNext? || th.pc.PublishNext?
                || th.pc.RecheckNext? ==>
                  !th'.pc.ReadItem? && !th'.pc.ClearDequeue? && !th'.pc.Retiring? && !th'.pc.Done? && !th'.pc.ClearEmpty?)
  {
    NeverTouchesDead(s, slots, t);
    hide NextMemory, Inv;
  }

  lemma {:induction false} DequeueProgress(run: seq<State>, steps: seq<Step>, slots: nat, a: nat, b: nat, t: nat)
    requires InCall(run, steps, slots, a, b, t) && steps[a].a.Dequeue?
    ensures DequeueOk(run, steps, a, b, t)
  {
    hide IsRun, Inv, Contents, Evolves, Apply;
    RunStep(run, steps, slots, b - 1);
    RunKeepsInv(run, steps, slots, b - 1);
    var s, st := run[b - 1], steps[b - 1];
    StepRefinesFifo(s, slots, st);
    if a + 1 == b {
      DequeueStarts(s, slots, st);
      assert Takes(run, steps, a, a, t) == 0;
    } else {
      DequeueProgress(run, steps, slots, a, b - 1, t);
      if st.t != t {
        OthersStand(s, st, t);
      } else {
        GoOnly(s, st);
        HeadOnlyByHeadCas(s, slots, t);
        DequeueStep(s, slots, t);
        if s.threads[t].pc.HeadCas? && s.m.head == s.threads[t].node {
          assert TakesFirst(s, st, run[b], t, s.threads[t].nxt);
        }
      }
    }
  }

  lemma DequeueStarts(s: State, slots: nat, st: Step)
    requires Inv(s, slots) && Enabled(s, st) && st.a.Dequeue?
    ensures Apply(s, st).threads[st.t].pc.ReadHead? && Apply(s, st).m == s.m
  {
  }

  lemma OthersStand(s: State, st: Step, t: nat)
    requires Enabled(s, st) && st.t != t && t < |s.threads|
    ensures t < |Apply(s, st).threads| && Apply(s, st).threads[t] == s.threads[t]
  {
    hide NextMemory, NextThread;
  }

  lemma GoOnly(s: State, st: Step)
    requires Enabled(s, st) && !s.threads[st.t].pc.Idle?
    ensures st.a.Go? && st == Step(st.t, Go)
  {
  }

  /** A dequeue that returns a value removed it from the front in exactly one step of its own;
      a dequeue that returns null moved nothing, and the queue was empty at some moment of it. */
  lemma DequeueIsRight(run: seq<State>, steps: seq<Step>, slots: nat, a: nat, b: nat, t: nat)
    requires InCall(run, steps, slots, a, b, t) && steps[a].a.Dequeue? && run[b].threads[t].pc.Done?
    ensures var r := run[b].threads[t].result;
            && Takes(run, steps, a, b, t) == (if r == NULL then 0 else 1)
            && (if r == NULL then exists j | a <= j < b :: Contents(run[j].m) == []
                else exists j | a <= j < b :: TakesFirst(run[j], steps[j], run[j + 1], t, r))
  {
    DequeueProgress(run, steps, slots, a, b, t);
  }

  /** Tail is at the node n or past it. */
  predicate Swung(m: Memory, n: Node) {
    n in m.pos && m.pos[n] <= m.ti
  }

  /** The step appends n to the queue. */
  ghost predicate Appends(m: Memory, m': Memory, n: Node) {
    m.tail != n && m'.tail == n && Contents(m') == Contents(m) + [n]
  }

  lemma SwungByAppend(m: Memory, m': Memory, t: nat, n: Node)
    requires MemoryOk(m) && MemoryOk(m') && Evolves(m, m', 0, t) && FifoStep(m, m')
    requires !Swung(m, n) && Swung(m', n)
    ensures Appends(m, m', n)
  {
    hide Contents, PrivateOk;
    assert NodeEvolves(m, m', 0, t, n);
    assert LinkedOk(m', n);
    assert m'.pos[n] <= m.ti ==> At(m, m.order[m'.pos[n]], m'.pos[n]);
  }

  lemma SwungStaysOne(m: Memory, m': Memory, t: nat, n: Node)
    requires Evolves(m, m', 0, t) && Swung(m, n)
    ensures Swung(m', n)
  {
    assert NodeEvolves(m, m', 0, t, n);
  }

  lemma {:induction false} SwingFound(run: seq<State>, steps: seq<Step>, slots: nat, i: nat, j: nat, n: Node)
    requires IsRun(run, steps, slots) && i <= j < |run|
    requires !Swung(run[i].m, n) && Swung(run[j].m, n)
    ensures exists k | i <= k < j :: Appends(run[k].m, run[k + 1].m, n)
  {
    hide IsRun;
    RunStep(run, steps, slots, j - 1);
    RunKeepsInv(run, steps, slots, j - 1);
    RunKeepsInv(run, steps, slots, j);
    hide Apply, Appends, MemoryOk, Evolves, FifoStep, ThreadOk, PairOk;
    if Swung(run[j - 1].m, n) {
      SwingFound(run, steps, slots, i, j - 1, n);
    } else {
      StepRefinesFifo(run[j - 1], slots, steps[j - 1]);
      SwungByAppend(run[j - 1].m, run[j].m, steps[j - 1].t, n);
      assert Appends(run[j - 1].m, run[j - 1 + 1].m, n);
    }
  }

  lemma {:induction false} SwungStays(run: seq<State>, steps: seq<Step>, slots: nat, i: nat, j: nat, n: Node)
    requires IsRun(run, steps, slots) && i <= j < |run| && Swung(run[i].m, n)
    ensures Swung(run[j].m, n)
  {
    hide IsRun, Inv, Apply, FifoStep, Evolves, Swung;
    if i < j {
      SwungStays(run, steps, slots, i, j - 1, n);
      RunStep(run, steps, slots, j - 1);
      RunKeepsInv(run, steps, slots, j - 1);
      StepRefinesFifo(run[j - 1], slots, steps[j - 1]);
      SwungStaysOne(run[j - 1].m, run[j].m, steps[j - 1].t, n);
    }
  }

  lemma AppendSwings(m: Memory, m': Memory, t: nat, n: Node)
    requires MemoryOk(m) && MemoryOk(m') && Evolves(m, m', 0, t) && FifoStep(m, m') && Appends(m, m', n)
    ensures !Swung(m, n) && Swung(m', n)
  {
    hide Contents, PrivateOk;
    assert NodeEvolves(m, m', 0, t, n);
    assert n in m.pos ==> LinkedOk(m, n);
  }

  lemma AppendAt(run: seq<State>, steps: seq<Step>, slots: nat, i: nat, n: Node)
    requires IsRun(run, steps, slots) && i + 1 < |run| && Appends(run[i].m, run[i + 1].m, n)
    ensures !Swung(run[i].m, n) && Swung(run[i + 1].m, n)
  {
    hide IsRun;
    RunStep(run, steps, slots, i);
    RunKeepsInv(run, steps, slots, i);
    RunKeepsInv(run, steps, slots, i + 1);
    hide Apply, Appends, MemoryOk, Evolves, FifoStep, ThreadOk, PairOk;
    StepRefinesFifo(run[i], slots, steps[i]);
    AppendSwings(run[i].m, run[i + 1].m, steps[i].t, n);
  }

  /** No node is appended twice in a run. */
  lemma AppendedOnce(run: seq<State>, steps: seq<Step>, slots: nat, i: nat, j: nat, n: Node)
    requires IsRun(run, steps, slots) && i < j && j + 1 < |run|
    requires Appends(run[i].m, run[i + 1].m, n)
    ensures !Appends(run[j].m, run[j + 1].m, n)
  {
    hide IsRun, Appends;
    AppendAt(run, steps, slots, i, n);
    SwungStays(run, steps, slots, i + 1, j, n);
    if Appends(run[j].m, run[j + 1].m, n) { AppendAt(run, steps, slots, j, n); }
  }

  lemma EnqueueStep(s: State, slots: nat, t: nat)
    requires Inv(s, slots) && Enabled(s, Step(t, Go)) && InEnqueue(s.threads[t].pc)
    requires !Apply(s, Step(t, Go)).threads[t].pc.Idle?
    ensures var th, th' := s.threads[t], Apply(s, Step(t, Go)).threads[t];
            && InEnqueue(th'.pc) && !th.pc.Done? && th'.own == th.own
            && (th'.pc.ClearEnqueue? || th'.pc.Done? ==> th.pc.SwingCas? || th.pc.ClearEnqueue?)
  {
    NeverTouchesDead(s, slots, t);
    hide NextMemory, Inv;
  }

  /** What an enqueue of n has done by state b. */
  lemma {:induction false} EnqueueProgress(run: seq<State>, steps: seq<Step>, slots: nat, a: nat, b: nat, t: nat, n: Node)
    requires InCall(run, steps, slots, a, b, t) && steps[a].a == Enqueue(n)
    ensures var th := run[b].threads[t];
            InEnqueue(th.pc) && th.own == n && (th.pc.ClearEnqueue? || th.pc.Done? ==> Swung(run[b].m, n))
  {
    hide IsRun, Inv, FifoStep, Apply, Evolves, Swung;
    RunStep(run, steps, slots, b - 1);
    RunKeepsInv(run, steps, slots, b - 1);
    var s, st := run[b - 1], steps[b - 1];
    StepRefinesFifo(s, slots, st);
    if a + 1 == b {
      EnqueueStarts(s, slots, st);
    } else {
      EnqueueProgress(run, steps, slots, a, b - 1, t, n);
      if Swung(s.m, n) { SwungStaysOne(s.m, run[b].m, st.t, n); }
      if st.t != t {
        OthersStand(s, st, t);
      } else {
        GoOnly(s, st);
        EnqueueStep(s, slots, t);
        if s.threads[t].pc.SwingCas? { SwingCasSwings(s, slots, t); }
      }
    }
  }

  lemma SwingCasSwings(s: State, slots: nat, t: nat)
    requires Inv(s, slots) && Enabled(s, Step(t, Go)) && s.threads[t].pc.SwingCas?
    ensures Swung(Apply(s, Step(t, Go)).m, s.threads[t].own)
  {
    assert ThreadOk(s.m, s.hazards[t], t, slots, s.threads[t]);
    if s.m.tail != s.threads[t].node { TailIsPast(s.m, s.threads[t].node, PosOf(s.m, s.threads[t].node)); }
    hide GuardsOk, RetiredOk;
  }

  lemma EnqueueStarts(s: State, slots: nat, st: Step)
    requires Inv(s, slots) && Enabled(s, st) && st.a.Enqueue?
    ensures var th := Apply(s, st).threads[st.t]; th.pc.ReadTail? && th.own == st.a.n
    ensures !Swung(s.m, st.a.n)
  {
    assert LinkedOk(s.m, st.a.n);
  }

  /** An enqueue takes effect when tail is swung to its node, by itself or by a helper, in a
      step between the start and the return of the call (and in no other, by AppendedOnce). */
  lemma EnqueueIsRight(run: seq<State>, steps: seq<Step>, slots: nat, a: nat, b: nat, t: nat, n: Node)
    requires InCall(run, steps, slots, a, b, t) && steps[a].a == Enqueue(n) && run[b].threads[t].pc.Done?
    ensures exists k | a <= k < b :: Appends(run[k].m, run[k + 1].m, n)
  {
    hide IsRun, Inv, Appends, Apply, Swung;
    EnqueueProgress(run, steps, slots, a, b, t, n);
    RunStep(run, steps, slots, a);
    RunKeepsInv(run, steps, slots, a);
    EnqueueStarts(run[a], slots, steps[a]);
    SwingFound(run, steps, slots, a, b, n);
  }
}
