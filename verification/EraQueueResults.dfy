/** What the invariant gives for runs of the era queue: memory safety, era containment, a
    first-in-first-out queue, and a bound on who can hold up a retired node. */
module EraQueueResults {
  import opened QueueMemory
  import opened TailFifo
  import Eras
  import opened EraQueue
  import opened EraQueueProofs

  /** In every interleaving no step reads, writes or deletes a node that has been deleted,
      and the printed counter of a thread is the length of its retired list. */
  lemma NoUseAfterFree(run: seq<State>, steps: seq<Step>, slots: nat, i: nat, t: nat)
    requires IsRun(run, steps, slots) && i < |run| && t < |run[i].threads|
    ensures !run[i].crashed && Safe(run[i].m, run[i].e, run[i].threads[t])
    ensures run[i].threads[t].ret.count == |run[i].threads[t].ret.list|
  {
    RunKeepsInv(run, steps, slots, i);
    NeverTouchesDead(run[i], slots, t);
    assert ThreadOk(run[i].m, run[i].e, t, run[i].threads[t]);
  }

  // ---------------------------------------------------------------- era containment

  /** The node that thread t loads in `get_protected` on slot j: from head or tail for slot 0,
      from the successor field of a node for slot 1. */
  function Target(th: Thread, j: nat): Node {
    if j == 0 then th.node else th.nxt
  }

  /** t is about to load the pointer in `get_protected` on slot j. */
  predicate AtLoad(pc: Pc, j: nat) {
    ((pc.LoadTail? || pc.LoadHead?) && j == 0) || (pc.LoadNext? && j == 1)
  }

  predicate AtCheck(pc: Pc, j: nat) {
    ((pc.CheckTail? || pc.CheckHead?) && j == 0) || (pc.CheckNext? && j == 1)
  }

  /** The last round of a call of `get_protected` by t on slot j: it loads the pointer in step l,
      finds the clock unchanged in step i, and returns. */
  predicate Returns(run: seq<State>, steps: seq<Step>, l: nat, i: nat, t: nat, j: nat) {
    && l < i < |steps| < |run| && steps[l] == steps[i] == Step(t, Go)
    && (forall x | l < x < i :: steps[x].t != t)
    && t < |run[l].threads| && AtLoad(run[l].threads[t].pc, j)
    && t < |run[i].threads| && Eras.EraOf(run[i].e, t, j) == run[i].e.clock
  }

  lemma HeldThroughStep(s: State, slots: nat, st: Step, t: nat, j: nat, n: Node)
    requires Inv(s, slots) && Enabled(s, st) && Held(s, t, j, n)
    requires Inv(Apply(s, st), slots) && Eras.EraOf(Apply(s, st).e, t, j) == Eras.EraOf(s.e, t, j)
    ensures Held(Apply(s, st), t, j, n)
  {
    if st.a.Go? { HeldStays(s, slots, st.t, t, j, n); }
    else {
      hide MemoryOk, EraLives, Eras.TableOk, ThreadOk, GuardsHeld, Rows;
      if st.a.Enqueue? { assert LinkedOk(s.m, st.a.n); }
    }
  }

  lemma {:induction false} HeldWhilePublished(run: seq<State>, steps: seq<Step>, slots: nat, i: nat, k: nat, t: nat, j: nat, n: Node)
    requires IsRun(run, steps, slots) && i <= k < |run| && Held(run[i], t, j, n)
    requires forall x | i <= x <= k :: Eras.EraOf(run[x].e, t, j) == Eras.EraOf(run[i].e, t, j)
    ensures Held(run[k], t, j, n)
  {
    hide IsRun, Inv, Apply, Held, Enabled, Eras.EraOf;
    if i < k {
      HeldWhilePublished(run, steps, slots, i, k - 1, t, j, n);
      RunStep(run, steps, slots, k - 1);
      RunKeepsInv(run, steps, slots, k - 1);
      RunKeepsInv(run, steps, slots, k);
      HeldThroughStep(run[k - 1], slots, steps[k - 1], t, j, n);
    }
  }

  predicate ListedNode(m: Memory, n: Node) {
    n in m.life && m.life[n].Listed?
  }

  /** What head and tail point to is always in the queue. */
  lemma EndsAreListed(s: State, slots: nat)
    requires Inv(s, slots)
    ensures ListedNode(s.m, s.m.head) && ListedNode(s.m, s.m.tail)
  {
    assert LinkedOk(s.m, s.m.head) && LinkedOk(s.m, s.m.tail);
  }

  /** The load of a node that is in the queue. */
  lemma LoadsListed(s: State, slots: nat, t: nat, j: nat)
    requires Inv(s, slots) && Enabled(s, Step(t, Go)) && AtLoad(s.threads[t].pc, j)
    requires t < |Apply(s, Step(t, Go)).threads|
    requires ListedNode(s.m, Target(Apply(s, Step(t, Go)).threads[t], j))
    ensures var s' := Apply(s, Step(t, Go));
            var n := Target(s'.threads[t], j);
            AtCheck(s'.threads[t].pc, j) && n in s'.m.pos && Eras.Loaded(s'.e, t, j, n) && s'.e == s.e
  {
    CanGoFromInv(s, slots, t);
    var th := s.threads[t];
    assert ThreadOk(s.m, s.e, t, th);
    var n := Target(Apply(s, Step(t, Go)).threads[t], j);
    assert PrivateOk(s.m, n) && LinkedOk(s.m, n) && LifeOk(s.m, s.e, n);
    hide MemoryOk, EraLives, Eras.TableOk, RetiredOk, GuardsHeld;
  }

  /** It stays covered by the clock check to come while other threads move. */
  lemma LoadedStaysBy(s: State, slots: nat, st: Step, t: nat, j: nat, n: Node)
    requires Inv(s, slots) && Enabled(s, st) && st.t != t && t < |s.threads|
    requires n in s.m.pos && Eras.Loaded(s.e, t, j, n)
    ensures var s' := Apply(s, st);
            && t < |s'.threads| && s'.threads[t] == s.threads[t]
            && n in s'.m.pos && Eras.Loaded(s'.e, t, j, n)
  {
    if st.a.Go? {
      CanGoFromInv(s, slots, st.t);
      var s' := Apply(s, st);
      StepKeepsMemory(s.m, s.e, st.t, s.threads[st.t]);
      StepKeepsTable(s.m, s.e, st.t, s.threads[st.t]);
      RowsStay(s.e, st.t, s.threads[st.t], slots);
      assert NodeEvolves(s.m, s'.m, 0, st.t, n);
      hide MemoryOk, EraLives, Eras.TableOk, ThreadOk, GuardsHeld, Rows, Eras.Loaded, Eras.EraOf, NextTable, NextMemory, NextThread;
      Eras.LoadedStays(s.e, s'.e, t, j, n);
    }
  }

  lemma {:induction false} LoadedUntil(
    run: seq<State>, steps: seq<Step>, slots: nat, l: nat, i: nat, t: nat, j: nat, n: Node)
    requires IsRun(run, steps, slots) && l < i < |run| && |run| == |steps| + 1
    requires steps[l] == Step(t, Go) && (forall x | l < x < i :: steps[x].t != t)
    requires t < |run[l].threads| && AtLoad(run[l].threads[t].pc, j)
    requires t < |run[l + 1].threads| && n == Target(run[l + 1].threads[t], j) && ListedNode(run[l].m, n)
    ensures t < |run[i].threads| && AtCheck(run[i].threads[t].pc, j) && n in run[i].m.pos && Eras.Loaded(run[i].e, t, j, n)
  {
    hide IsRun, Inv, Apply, Enabled, Eras.Loaded, AtLoad, AtCheck, ListedNode;
    RunStep(run, steps, slots, i - 1);
    RunKeepsInv(run, steps, slots, i - 1);
    if l + 1 == i {
      LoadsListed(run[l], slots, t, j);
    } else {
      LoadedUntil(run, steps, slots, l, i - 1, t, j, n);
      LoadedStaysBy(run[i - 1], slots, steps[i - 1], t, j, n);
    }
  }

  lemma HeldMeansCovered(s: State, slots: nat, t: nat, j: nat, n: Node)
    requires Inv(s, slots) && Held(s, t, j, n)
    ensures Alive(s.m, n) && n in s.e.birth && s.e.birth[n] <= Eras.EraOf(s.e, t, j)
    ensures n in s.e.del ==> Eras.EraOf(s.e, t, j) <= s.e.del[n]
  {
    assert LinkedOk(s.m, n);
  }

  /** Era containment, for every call of `get_protected` in the queue: a node that was in the
      queue when it was loaded is not deleted as long as the slot is not written, and the
      published era lies between its birth and its retirement, if any.  What head and tail
      point to is always in the queue; the successor of a node that was dequeued meanwhile need
      not be. */
  lemma EraContainment(
    run: seq<State>, steps: seq<Step>, slots: nat, l: nat, i: nat, k: nat, t: nat, j: nat)
    requires IsRun(run, steps, slots) && Returns(run, steps, l, i, t, j) && i < k < |run|
    requires t < |run[l + 1].threads|
    requires j == 1 ==> ListedNode(run[l].m, Target(run[l + 1].threads[t], j))
    requires forall x | i < x <= k :: Eras.EraOf(run[x].e, t, j) == Eras.EraOf(run[i].e, t, j)
    ensures var n, e, era := Target(run[l + 1].threads[t], j), run[k].e, Eras.EraOf(run[i].e, t, j);
            && Alive(run[k].m, n)
            && n in e.birth && e.birth[n] <= era && (n in e.del ==> era <= e.del[n])
  {
    var n := Target(run[l + 1].threads[t], j);
    LoadFromEnds(run, steps, slots, l, t, j);
    SlotInRow(run, steps, slots, i, t, j);
    hide IsRun, Inv, Apply, Enabled, Eras.Loaded, Eras.EraOf, AtLoad, AtCheck, ListedNode, Held;
    RunStep(run, steps, slots, i);
    LoadedUntil(run, steps, slots, l, i, t, j, n);
    RunKeepsInv(run, steps, slots, i);
    RunKeepsInv(run, steps, slots, k);
    CheckHolds(run[i], slots, t, j, n);
    HeldWhilePublished(run, steps, slots, i, k, t, j, n);
    HeldMeansCovered(run[k], slots, t, j, n);
  }

  lemma LoadFromEnds(run: seq<State>, steps: seq<Step>, slots: nat, l: nat, t: nat, j: nat)
    requires IsRun(run, steps, slots) && l < |steps| && steps[l] == Step(t, Go)
    requires t < |run[l].threads| && AtLoad(run[l].threads[t].pc, j)
    ensures |run| == |steps| + 1 && t < |run[l + 1].threads|
    ensures j == 0 ==> ListedNode(run[l].m, Target(run[l + 1].threads[t], j))
  {
    RunStep(run, steps, slots, l);
    RunKeepsInv(run, steps, slots, l);
    CanGoFromInv(run[l], slots, t);
    hide IsRun;
    EndsAreListed(run[l], slots);
    hide Inv, Apply, Enabled;
  }

  lemma SlotInRow(run: seq<State>, steps: seq<Step>, slots: nat, i: nat, t: nat, j: nat)
    requires IsRun(run, steps, slots) && i < |run| && j <= 1
    ensures j < slots
  {
  }

  // ---------------------------------------------------------------- who can hold up a retired node

  /** The next step of t stores an era into slot j that keeps the scans from deleting n. */
  predicate WillBlock(s: State, t: nat, j: nat, n: Node) {
    && t < |s.threads|
    && (((s.threads[t].pc.StoreTail? || s.threads[t].pc.StoreHead?) && j == 0) || (s.threads[t].pc.StoreNext? && j == 1))
    && Eras.Blocks(s.e, s.threads[t].era, n)
  }

  predicate BlockedBy(s: State, t: nat, j: nat, n: Node) {
    Eras.Blocks(s.e, Eras.EraOf(s.e, t, j), n)
  }

  /** The retirement of n has got past the clock. */
  predicate Past(s: State, n: Node) {
    n in s.e.birth && n in s.e.del && s.e.del[n] < s.e.clock
  }

  lemma StepBlocksNoMore(s: State, slots: nat, st: Step, t: nat, j: nat, n: Node)
    requires Inv(s, slots) && Enabled(s, st) && Past(s, n)
    ensures Past(Apply(s, st), n)
    ensures WillBlock(Apply(s, st), t, j, n) ==> WillBlock(s, t, j, n)
    ensures BlockedBy(Apply(s, st), t, j, n) ==> BlockedBy(s, t, j, n) || WillBlock(s, t, j, n)
  {
    if st.a.Go? {
      CanGoFromInv(s, slots, st.t);
      var th, s' := s.threads[st.t], Apply(s, st);
      StepKeepsTable(s.m, s.e, st.t, th);
      RowsStay(s.e, st.t, th, slots);
      assert Eras.NodeAdvances(s.e, s'.e, n);
      hide MemoryOk, Eras.TableOk, Eras.Advances, EraLives, Apply, NextMemory, ThreadOk, GuardsHeld;
      if t == st.t { OwnStep(s.m, s.e, t, th, j, n); }
    }
  }

  lemma OwnStep(m: Memory, e: Eras.Table, t: nat, th: Thread, j: nat, n: Node)
    requires Safe(m, e, th) && n in e.birth && n in e.del && e.del[n] < e.clock
    ensures var th', e' := NextThread(m, e, t, th), NextTable(e, t, th);
            && (th'.pc.StoreTail? || th'.pc.StoreHead? || th'.pc.StoreNext? ==> th'.era == e.clock && e'.clock == e.clock)
            && (Eras.EraOf(e', t, j) == Eras.EraOf(e, t, j) || Eras.EraOf(e', t, j) == 0
                || ((th.pc.StoreTail? || th.pc.StoreHead?) && j == 0 && Eras.EraOf(e', t, j) == th.era)
                || (th.pc.StoreNext? && j == 1 && Eras.EraOf(e', t, j) == th.era))
  {
  }

  /** Once the retirement of n has advanced the clock, nobody new can hold it up: a slot that
      blocks n later blocked it then, or its owner was at that moment already between reading
      the clock and storing; and a store decided later never blocks n. */
  lemma {:induction false} BlockersOnlyShrink(run: seq<State>, steps: seq<Step>, slots: nat, i: nat, k: nat, t: nat, j: nat, n: Node)
    requires IsRun(run, steps, slots) && i <= k < |run| && Past(run[i], n)
    ensures Past(run[k], n)
    ensures WillBlock(run[k], t, j, n) ==> WillBlock(run[i], t, j, n)
    ensures BlockedBy(run[k], t, j, n) ==> BlockedBy(run[i], t, j, n) || WillBlock(run[i], t, j, n)
  {
    hide IsRun, Inv, Apply, Enabled, Past, WillBlock, BlockedBy;
    if i < k {
      BlockersOnlyShrink(run, steps, slots, i, k - 1, t, j, n);
      RunStep(run, steps, slots, k - 1);
      RunKeepsInv(run, steps, slots, k - 1);
      StepBlocksNoMore(run[k - 1], slots, steps[k - 1], t, j, n);
    }
  }

  // ---------------------------------------------------------------- the queue as a sequence

  lemma MemoryRefinesFifo(m: Memory, e: Eras.Table, t: nat, th: Thread)
    requires CanGo(m, e, t, th)
    ensures FifoStep(m, NextMemory(m, e, t, th))
  {
    hide EraLives, Eras.TableOk, RetiredOk, ErasKnown, PrivateOk, LinkedOk;
    match th.pc
    case HelpTail => if m.tail == th.node { SwingAppends(m, th.nxt); }
    case SwingCas => if m.tail == th.node { SwingAppends(m, th.own); }
    case HeadCas => if m.head == th.node { MoveRemoves(m, th.nxt, t); }
    case LinkCas => LinkIsQuiet(m, th.node, th.own);
    case _ => hide KnowsOk;
  }

  /** Every step of every thread is a step of a first-in-first-out queue. */
  lemma StepRefinesFifo(s: State, slots: nat, st: Step)
    requires Inv(s, slots) && Enabled(s, st)
    ensures FifoStep(s.m, Apply(s, st).m) && Evolves(s.m, Apply(s, st).m, 0, st.t)
  {
    if st.a.Go? {
      CanGoFromInv(s, slots, st.t);
      hide NextMemory, NextThread, MemoryOk, FifoStep, CanGo, Apply, Evolves;
      MemoryRefinesFifo(s.m, s.e, st.t, s.threads[st.t]);
      StepKeepsMemory(s.m, s.e, st.t, s.threads[st.t]);
    } else {
      NothingEvolves(s.m, 0, st.t);
      if st.a.Enqueue? { AllocateKeeps(s.m, 0, st.t, st.a.n); }
    }
  }

  /** The memories of a run. */
  ghost function Trace(run: seq<State>): (trace: seq<Memory>)
    ensures |trace| == |run| && forall i | 0 <= i < |run| :: trace[i] == run[i].m
  {
    seq(|run|, i requires 0 <= i < |run| => run[i].m)
  }

  lemma RunStarts(run: seq<State>, steps: seq<Step>, slots: nat)
    requires IsRun(run, steps, slots)
    ensures Contents(run[0].m) == []
  {
  }

  /** First in, first out: what was enqueued is what was dequeued followed by the contents,
      in this order, at every state of every run. */
  lemma FirstInFirstOut(run: seq<State>, steps: seq<Step>, slots: nat, i: nat)
    requires IsRun(run, steps, slots) && i < |run|
    ensures Enqueued(Trace(run), i) == Dequeued(Trace(run), i) + Contents(run[i].m)
  {
    hide IsRun, Inv, Apply, Contents, FifoStep, Enabled;
    RunStarts(run, steps, slots);
    forall j | 0 <= j < i ensures FifoStep(Trace(run)[j], Trace(run)[j + 1]) {
      RunStep(run, steps, slots, j);
      RunKeepsInv(run, steps, slots, j);
      StepRefinesFifo(run[j], slots, steps[j]);
    }
    FifoLaw(Trace(run), i);
  }
}
