/** What the calls of the era queue return: the same answers as those of the hazard-pointer
    queue, because the era queue is the same first-in-first-out machine. */
module EraQueueCalls {
  import opened QueueMemory
  import opened TailFifo
  import Eras
  import opened EraQueue
  import opened EraQueueProofs
  import opened EraQueueResults

  // ---------------------------------------------------------------- the calls

  /** The call that t starts at step a is still running at b. */
  ghost predicate InCall(run: seq<State>, steps: seq<Step>, slots: nat, a: nat, b: nat, t: nat) {
    && IsRun(run, steps, slots) && a < b < |run|
    && steps[a].t == t && !steps[a].a.Go?
    && forall j | a < j <= b :: t < |run[j].threads| && !run[j].threads[t].pc.Idle?
  }

  predicate InDequeue(pc: Pc) {
    pc.LoadHead? || pc.CheckHead? || pc.StoreHead? || pc.CompareTail? || pc.LoadNext? || pc.CheckNext? || pc.StoreNext?
    || pc.HeadCas? || pc.ReadItem? || pc.Retiring? || pc.ClearDequeue? || pc.ClearEmpty? || pc.Done?
  }

  predicate InEnqueue(pc: Pc) {
    Enqueuing(pc) || pc.SwingCas? || pc.ClearEnqueue? || pc.Done?
  }

  /** How many steps of t in a..b move head. */
  ghost function Takes(run: seq<State>, steps: seq<Step>, a: nat, b: nat, t: nat): nat
    requires a <= b < |run| && |run| == |steps| + 1
  {
    if a == b then 0
    else Takes(run, steps, a, b - 1, t)
         + (if steps[b - 1].t == t && run[b].m.head != run[b - 1].m.head then 1 else 0)
  }

  /** t removed the value n from the front in this step. */
  ghost predicate TakesFirst(s: State, st: Step, s': State, t: nat, n: Node) {
    st.t == t && Contents(s.m) == [n] + Contents(s'.m)
  }

  /** What a dequeue has done by state b. */
  ghost predicate DequeueOk(run: seq<State>, steps: seq<Step>, a: nat, b: nat, t: nat)
    requires a < b < |run| && |run| == |steps| + 1 && t < |run[b].threads|
  {
    var th := run[b].threads[t];
    InDequeue(th.pc) &&
    if th.pc.ReadItem? || th.pc.ClearDequeue? || th.pc.Retiring? || (th.pc.Done? && th.result != NULL) then
      && Takes(run, steps, a, b, t) == 1
      && (!th.pc.ReadItem? ==> th.result == th.nxt) && th.nxt != NULL
      && exists j | a <= j < b :: TakesFirst(run[j], steps[j], run[j + 1], t, th.nxt)
    else
      && Takes(run, steps, a, b, t) == 0
      && (th.pc.ClearEmpty? || th.pc.Done? ==> th.result == NULL && exists j | a <= j < b :: Contents(run[j].m) == [])
  }

  lemma HeadOnlyByHeadCas(s: State, slots: nat, t: nat)
    requires Inv(s, slots) && Enabled(s, Step(t, Go))
    ensures var s' := Apply(s, Step(t, Go));
            (s'.m.head != s.m.head <==> s.threads[t].pc.HeadCas? && s.m.head == s.threads[t].node)
    ensures s.threads[t].pc.HeadCas? && s.m.head == s.threads[t].node ==>
              Apply(s, Step(t, Go)).m.head == s.threads[t].nxt != NULL && Apply(s, Step(t, Go)).m.tail == s.m.tail
    ensures s.threads[t].pc.CompareTail? && s.threads[t].node == s.m.tail ==> Contents(s.m) == []
  {
    NeverTouchesDead(s, slots, t);
    var m, th := s.m, s.threads[t];
    CanGoFromInv(s, slots, t);
    assert ThreadOk(m, s.e, t, th);
    assert LinkedOk(m, th.nxt) && LinkedOk(m, m.head);
    hide RetiredOk, EraLives, Eras.TableOk, GuardsHeld, ErasKnown;
  }

  lemma DequeueStep(s: State, slots: nat, t: nat)
    requires Inv(s, slots) && Enabled(s, Step(t, Go)) && InDequeue(s.threads[t].pc)
    requires !Apply(s, Step(t, Go)).threads[t].pc.Idle?
    ensures var th, th' := s.threads[t], Apply(s, Step(t, Go)).threads[t];
            && InDequeue(th'.pc) && !th.pc.Done?
            && (th.pc.ReadItem? || th.pc.ClearDequeue? || th.pc.Retiring? ==>
                  (th'.pc.ClearDequeue? || th'.pc.Retiring? || th'.pc.Done?) && th'.nxt == th.nxt
                  && th'.result == if th.pc.ReadItem? then th.nxt else th.result)
            && (th.pc.ClearEmpty? ==> (th'.pc.ClearEmpty? || th'.pc.Done?) && th'.result == th.result)
            && (th.pc.CompareTail? && th.node == s.m.tail ==> th'.pc.ClearEmpty? && th'.result == NULL)
            && (th.pc.HeadCas? && s.m.head == th.node ==> th'.pc.ReadItem? && th'.nxt == th.nxt)
            && (th.pc.HeadCas? && s.m.head != th.node ==> th'.pc.LoadHead?)
            && (th.pc.CompareTail? && th.node != s.m.tail ==> th'.pc.LoadNext?)
            && (th.pc.LoadHead? || th.pc.CheckHead? || th.pc.StoreHead? || th.pc.LoadNext? || th.pc.CheckNext? || th.pc.StoreNext? ==>
                  !th'.pc.ReadItem? && !th'.pc.ClearDequeue? && !th'.pc.Retiring? && !th'.pc.Done? && !th'.pc.ClearEmpty?)
  {
    NeverTouchesDead(s, slots, t);
    hide NextMemory, Inv;
  }

  lemma {:induction false} DequeueProgress(run: seq<State>, steps: seq<Step>, slots: nat, a: nat, b: nat, t: nat)
    requires InCall(run, steps, slots, a, b, t) && steps[a].a.Dequeue?
    ensures DequeueOk(run, steps, a, b, t)
  {
    hide IsRun, Inv, Contents, Evolves, Apply;
    RunStep(run, steps, slots, b - 1);
    RunKeepsInv(run, steps, slots, b - 1);
    var s, st := run[b - 1], steps[b - 1];
    StepRefinesFifo(s, slots, st);
    if a + 1 == b {
      DequeueStarts(s, slots, st);
      assert Takes(run, steps, a, a, t) == 0;
    } else {
      DequeueProgress(run, steps, slots, a, b - 1, t);
      if st.t != t {
        OthersStand(s, st, t);
      } else {
        GoOnly(s, st);
        HeadOnlyByHeadCas(s, slots, t);
        DequeueStep(s, slots, t);
        if s.threads[t].pc.HeadCas? && s.m.head == s.threads[t].node {
          assert TakesFirst(s, st, run[b], t, s.threads[t].nxt);
        }
      }
    }
  }

  lemma DequeueStarts(s: State, slots: nat, st: Step)
    requires Inv(s, slots) && Enabled(s, st) && st.a.Dequeue?
    ensures Apply(s, st).threads[st.t].pc.LoadHead? && Apply(s, st).m == s.m
  {
  }

  lemma OthersStand(s: State, st: Step, t: nat)
    requires Enabled(s, st) && st.t != t && t < |s.threads|
    ensures t < |Apply(s, st).threads| && Apply(s, st).threads[t] == s.threads[t]
  {
    hide NextMemory, NextThread;
  }

  lemma GoOnly(s: State, st: Step)
    requires Enabled(s, st) && !s.threads[st.t].pc.Idle?
    ensures st.a.Go? && st == Step(st.t, Go)
  {
  }

  /** A dequeue that returns a value removed it from the front in exactly one step of its own;
      a dequeue that returns null moved nothing, and the queue was empty at some moment of it. */
  lemma DequeueIsRight(run: seq<State>, steps: seq<Step>, slots: nat, a: nat, b: nat, t: nat)
    requires InCall(run, steps, slots, a, b, t) && steps[a].a.Dequeue? && run[b].threads[t].pc.Done?
    ensures var r := run[b].threads[t].result;
            && Takes(run, steps, a, b, t) == (if r == NULL then 0 else 1)
            && (if r == NULL then exists j | a <= j < b :: Contents(run[j].m) == []
                else exists j | a <= j < b :: TakesFirst(run[j], steps[j], run[j + 1], t, r))
  {
    DequeueProgress(run, steps, slots, a, b, t);
  }

  /** Tail is at the node n or past it. */
  predicate Swung(m: Memory, n: Node) {
    n in m.pos && m.pos[n] <= m.ti
  }

  /** The step appends n to the queue. */
  ghost predicate Appends(m: Memory, m': Memory, n: Node) {
    m.tail != n && m'.tail == n && Contents(m') == Contents(m) + [n]
  }

  lemma SwungByAppend(m: Memory, m': Memory, t: nat, n: Node)
    requires MemoryOk(m) && MemoryOk(m') && Evolves(m, m', 0, t) && FifoStep(m, m')
    requires !Swung(m, n) && Swung(m', n)
    ensures Appends(m, m', n)
  {
    hide Contents, PrivateOk;
    assert NodeEvolves(m, m', 0, t, n);
    assert LinkedOk(m', n);
    assert m'.pos[n] <= m.ti ==> At(m, m.order[m'.pos[n]], m'.pos[n]);
  }

  lemma SwungStaysOne(m: Memory, m': Memory, t: nat, n: Node)
    requires Evolves(m, m', 0, t) && Swung(m, n)
    ensures Swung(m', n)
  {
    assert NodeEvolves(m, m', 0, t, n);
  }

  lemma {:induction false} SwingFound(run: seq<State>, steps: seq<Step>, slots: nat, i: nat, j: nat, n: Node)
    requires IsRun(run, steps, slots) && i <= j < |run|
    requires !Swung(run[i].m, n) && Swung(run[j].m, n)
    ensures exists k | i <= k < j :: Appends(run[k].m, run[k + 1].m, n)
  {
    hide IsRun;
    RunStep(run, steps, slots, j - 1);
    RunKeepsInv(run, steps, slots, j - 1);
    RunKeepsInv(run, steps, slots, j);
    hide Apply, Appends, MemoryOk, Evolves, FifoStep, ThreadOk, GuardsHeld, EraLives, Rows;
    if Swung(run[j - 1].m, n) {
      SwingFound(run, steps, slots, i, j - 1, n);
    } else {
      StepRefinesFifo(run[j - 1], slots, steps[j - 1]);
      SwungByAppend(run[j - 1].m, run[j].m, steps[j - 1].t, n);
      assert Appends(run[j - 1].m, run[j - 1 + 1].m, n);
    }
  }

  lemma {:induction false} SwungStays(run: seq<State>, steps: seq<Step>, slots: nat, i: nat, j: nat, n: Node)
    requires IsRun(run, steps, slots) && i <= j < |run| && Swung(run[i].m, n)
    ensures Swung(run[j].m, n)
  {
    hide IsRun, Inv, Apply, FifoStep, Evolves, Swung;
    if i < j {
      SwungStays(run, steps, slots, i, j - 1, n);
      RunStep(run, steps, slots, j - 1);
      RunKeepsInv(run, steps, slots, j - 1);
      StepRefinesFifo(run[j - 1], slots, steps[j - 1]);
      SwungStaysOne(run[j - 1].m, run[j].m, steps[j - 1].t, n);
    }
  }

  lemma AppendSwings(m: Memory, m': Memory, t: nat, n: Node)
    requires MemoryOk(m) && MemoryOk(m') && Evolves(m, m', 0, t) && FifoStep(m, m') && Appends(m, m', n)
    ensures !Swung(m, n) && Swung(m', n)
  {
    hide Contents, PrivateOk;
    assert NodeEvolves(m, m', 0, t, n);
    assert n in m.pos ==> LinkedOk(m, n);
  }

  lemma AppendAt(run: seq<State>, steps: seq<Step>, slots: nat, i: nat, n: Node)
    requires IsRun(run, steps, slots) && i + 1 < |run| && Appends(run[i].m, run[i + 1].m, n)
    ensures !Swung(run[i].m, n) && Swung(run[i + 1].m, n)
  {
    hide IsRun;
    RunStep(run, steps, slots, i);
    RunKeepsInv(run, steps, slots, i);
    RunKeepsInv(run, steps, slots, i + 1);
    hide Apply, Appends, MemoryOk, Evolves, FifoStep, ThreadOk, GuardsHeld, EraLives, Rows;
    StepRefinesFifo(run[i], slots, steps[i]);
    AppendSwings(run[i].m, run[i + 1].m, steps[i].t, n);
  }

  /** No node is appended twice in a run. */
  lemma AppendedOnce(run: seq<State>, steps: seq<Step>, slots: nat, i: nat, j: nat, n: Node)
    requires IsRun(run, steps, slots) && i < j && j + 1 < |run|
    requires Appends(run[i].m, run[i + 1].m, n)
    ensures !Appends(run[j].m, run[j + 1].m, n)
  {
    hide IsRun, Appends;
    AppendAt(run, steps, slots, i, n);
    SwungStays(run, steps, slots, i + 1, j, n);
    if Appends(run[j].m, run[j + 1].m, n) { AppendAt(run, steps, slots, j, n); }
  }

  lemma EnqueueStep(s: State, slots: nat, t: nat)
    requires Inv(s, slots) && Enabled(s, Step(t, Go)) && InEnqueue(s.threads[t].pc)
    requires !Apply(s, Step(t, Go)).threads[t].pc.Idle?
    ensures var th, th' := s.threads[t], Apply(s, Step(t, Go)).threads[t];
            && InEnqueue(th'.pc) && !th.pc.Done? && th'.own == th.own
            && (th'.pc.ClearEnqueue? || th'.pc.Done? ==> th.pc.SwingCas? || th.pc.ClearEnqueue?)
  {
    NeverTouchesDead(s, slots, t);
    hide NextMemory, Inv;
  }

  /** What an enqueue of n has done by state b. */
  lemma {:induction false} EnqueueProgress(run: seq<State>, steps: seq<Step>, slots: nat, a: nat, b: nat, t: nat, n: Node)
    requires InCall(run, steps, slots, a, b, t) && steps[a].a == Enqueue(n)
    ensures var th := run[b].threads[t];
            InEnqueue(th.pc) && th.own == n && (th.pc.ClearEnqueue? || th.pc.Done? ==> Swung(run[b].m, n))
  {
    hide IsRun, Inv, FifoStep, Apply, Evolves, Swung;
    RunStep(run, steps, slots, b - 1);
    RunKeepsInv(run, steps, slots, b - 1);
    var s, st := run[b - 1], steps[b - 1];
    StepRefinesFifo(s, slots, st);
    if a + 1 == b {
      EnqueueStarts(s, slots, st);
    } else {
      EnqueueProgress(run, steps, slots, a, b - 1, t, n);
      if Swung(s.m, n) { SwungStaysOne(s.m, run[b].m, st.t, n); }
      if st.t != t {
        OthersStand(s, st, t);
      } else {
        GoOnly(s, st);
        EnqueueStep(s, slots, t);
        if s.threads[t].pc.SwingCas? { SwingCasSwings(s, slots, t); }
      }
    }
  }

  lemma SwingCasSwings(s: State, slots: nat, t: nat)
    requires Inv(s, slots) && Enabled(s, Step(t, Go)) && s.threads[t].pc.SwingCas?
    ensures Swung(Apply(s, Step(t, Go)).m, s.threads[t].own)
  {
    CanGoFromInv(s, slots, t);
    assert ThreadOk(s.m, s.e, t, s.threads[t]);
    assert LinkedOk(s.m, s.threads[t].node);
    hide RetiredOk, EraLives, Eras.TableOk, GuardsHeld, ErasKnown;
  }

  lemma EnqueueStarts(s: State, slots: nat, st: Step)
    requires Inv(s, slots) && Enabled(s, st) && st.a.Enqueue?
    ensures var th := Apply(s, st).threads[st.t]; th.pc.ReadEra? && th.own == st.a.n
    ensures !Swung(s.m, st.a.n)
  {
    assert LinkedOk(s.m, st.a.n);
  }

  /** An enqueue takes effect when tail is swung to its node, by itself or by a helper, in a
      step between the start and the return of the call (and in no other, by AppendedOnce). */
  lemma EnqueueIsRight(run: seq<State>, steps: seq<Step>, slots: nat, a: nat, b: nat, t: nat, n: Node)
    requires InCall(run, steps, slots, a, b, t) && steps[a].a == Enqueue(n) && run[b].threads[t].pc.Done?
    ensures exists k | a <= k < b :: Appends(run[k].m, run[k + 1].m, n)
  {
    hide IsRun, Inv, Appends, Apply, Swung;
    EnqueueProgress(run, steps, slots, a, b, t, n);
    RunStep(run, steps, slots, a);
    RunKeepsInv(run, steps, slots, a);
    EnqueueStarts(run[a], slots, steps[a]);
    SwingFound(run, steps, slots, a, b, n);
  }
}
