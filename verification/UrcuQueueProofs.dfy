/** The invariant of the URCU queue holds in every run.

    A node that a thread works on was in the queue at some moment after its section began; so it
    is alive, because a deleted node has a stamp that no running section reaches back to.  Such
    nodes have fixed places in the order of links, which is all that the code relies on: the
    successor of a node is the next one linked, head and tail only move on, and tail is never
    more than one behind the last node.  The variable `ptrnull` of enqueue may hold a successor
    of some earlier node; the place of that node is before the one at hand, so that it cannot
    match.  A step is taken apart into the memory, what the thread itself knows in an enqueue and
    in a dequeue, what the others know, the stamps, and the place in the grace-period code. */
module UrcuQueueProofs {
  import opened QueueMemory
  import Urcu
  import opened UrcuQueue

  // ---------------------------------------------------------------- what the other threads keep

  lemma PlaceStays(m: Memory, m': Memory, now: nat, t: nat, n: Node)
    requires Evolves(m, m', now, t) && Placed(m, n)
    ensures Placed(m', n) && PosOf(m', n) == PosOf(m, n)
  {
    assert NodeEvolves(m, m', now, t, n);
  }

  lemma HeldStays(m: Memory, m': Memory, now: nat, t: nat, began: nat, n: Node)
    requires Evolves(m, m', now, t) && Held(m, began, n) && began < now
    ensures Held(m', began, n)
  {
    assert NodeEvolves(m, m', now, t, n);
  }

  lemma OthersStay(m: Memory, m': Memory, now: nat, t: nat, r: nat, c: Urcu.Cell, th: Thread)
    requires Evolves(m, m', now, t) && r != t
    requires ThreadOk(m, c, r, th)
    requires Reading(th.pc) ==> c.began < now
    ensures ThreadOk(m', c, r, th)
  {
    if Placed(m, th.node) { PlaceStays(m, m', now, t, th.node); }
    if Placed(m, th.nxt) { PlaceStays(m, m', now, t, th.nxt); }
    if Placed(m, th.seenTail) { PlaceStays(m, m', now, t, th.seenTail); }
    if Placed(m, th.expected) { PlaceStays(m, m', now, t, th.expected); }
    if Held(m, c.began, th.node) && c.began < now { HeldStays(m, m', now, t, c.began, th.node); }
    if Held(m, c.began, th.nxt) && c.began < now { HeldStays(m, m', now, t, c.began, th.nxt); }
    assert NodeEvolves(m, m', now, t, th.own) && NodeEvolves(m, m', now, t, th.node);
    hide Held, Evolves, NodeEvolves;
  }

  // ---------------------------------------------------------------- the step of the thread itself

  lemma HeldIsAlive(s: State, t: nat, n: Node)
    requires MemoryOk(s.m) && Stamps(s.m.life, s.u) && Urcu.InSection(s.u, t) && Held(s.m, s.u.cells[t].began, n)
    ensures Alive(s.m, n)
  {
    assert LinkedOk(s.m, n);
  }

  lemma NeverTouchesDead(s: State, t: nat)
    requires Inv(s) && t < |s.threads|
    ensures Safe(s.m, s.threads[t])
  {
    var th, c := s.threads[t], s.u.cells[t];
    assert ThreadOk(s.m, c, t, th);
    if Reading(th.pc) {
      assert Urcu.InSection(s.u, t);
      if Held(s.m, c.began, th.node) { HeldIsAlive(s, t, th.node); }
      if Held(s.m, c.began, th.nxt) { HeldIsAlive(s, t, th.nxt); }
    }
    assert PrivateOk(s.m, th.node) && LinkedOk(s.m, th.node);
  }

  /** The compare-exchange of `enqueue` succeeds only on a null field with a null expected
      value: a stale `ptrnull` fails, and is refreshed. */
  lemma StaleExpectedFails(m: Memory, node: Node, expected: Node)
    requires MemoryOk(m) && Placed(m, node)
    requires expected != NULL ==> Placed(m, expected) && PosOf(m, expected) <= PosOf(m, node)
    ensures node in m.next
    ensures m.next[node] == expected ==> expected == NULL
  {
    SuccessorIsNext(m, node);
  }

  lemma StepKeepsMemory(m: Memory, c: Urcu.Cell, now: nat, t: nat, th: Thread)
    requires MemoryOk(m) && ThreadOk(m, c, t, th) && Safe(m, th)
    ensures MemoryOk(NextMemory(m, now, t, th)) && Evolves(m, NextMemory(m, now, t, th), now, t)
  {
    NothingEvolves(m, now, t);
    hide LinkedOk, PrivateOk, Evolves, Held;
    match th.pc
    case HelpTailE => if m.tail == th.node { SwingKeeps(m, now, t, th.nxt); }
    case LinkCas =>
      StaleExpectedFails(m, th.node, th.expected);
      if m.next[th.node] == th.expected { LinkKeeps(m, now, t, th.node, th.own); }
    case SwingCas => if m.tail == th.node { SwingKeeps(m, now, t, th.own); }
    case HelpTailD => if m.tail == th.seenTail { SwingKeeps(m, now, t, th.nxt); }
    case HeadCas => if m.head == th.node { MoveHeadKeeps(m, now, t, th.nxt); }
    case FreeD => FreeKeeps(m, now, t, th.node);
    case _ =>
  }

  lemma LinkKeepsEnqueue(m: Memory, began: nat, now: nat, t: nat, th: Thread)
    requires MemoryOk(m) && EnqueueOk(m, began, t, th) && Safe(m, th) && th.pc.LinkCas?
    ensures EnqueueOk(NextMemory(m, now, t, th), began, t, NextThread(m, th))
  {
    StaleExpectedFails(m, th.node, th.expected);
    SuccessorIsNext(m, th.node);
    assert PrivateOk(m, th.own) && LinkedOk(m, th.own);
    hide MemoryOk;
  }

  lemma StepKeepsEnqueue(m: Memory, c: Urcu.Cell, began': nat, now: nat, t: nat, th: Thread)
    requires MemoryOk(m) && ThreadOk(m, c, t, th) && Safe(m, th)
    requires Reading(th.pc) ==> began' == c.began
    ensures EnqueueOk(NextMemory(m, now, t, th), began', t, NextThread(m, th))
  {
    hide DequeueOk, CellOk;
    match th.pc
    case CheckTail => assert LinkedOk(m, m.tail); hide MemoryOk;
    case ReadNextE => SuccessorIsNext(m, th.node); hide LinkedOk, PrivateOk;
    case LinkCas => hide EnqueueOk, MemoryOk; LinkKeepsEnqueue(m, c.began, now, t, th);
    case SwingCas => hide MemoryOk;
    case _ => hide MemoryOk;
  }

  /** An `expected` value that was loaded from a field is a linked node, so it is not past the last one. */
  lemma DequeueReads(m: Memory, th: Thread)
    requires MemoryOk(m) && Placed(m, th.node)
    ensures th.node in m.next && Successor(m, th.node, m.next[th.node])
    ensures m.next[th.node] == NULL <==> PosOf(m, th.node) + 1 == |m.order|
  {
    SuccessorIsNext(m, th.node);
  }

  lemma HeadCasKeepsDequeue(m: Memory, c: Urcu.Cell, now: nat, t: nat, th: Thread)
    requires MemoryOk(m) && DequeueOk(m, c, t, th) && th.pc.HeadCas? && m.head == th.node
    ensures DequeueOk(MoveHead(m, th.nxt, now, t), c, t, th.(pc := ReadItem))
  {
    MoveHeadKeeps(m, now, t, th.nxt);
    assert LinkedOk(m, th.nxt) && LinkedOk(m, m.head);
  }

  lemma HeadIsHeld(m: Memory, began: nat)
    requires MemoryOk(m)
    ensures Held(m, began, m.head) && Held(m, began, m.tail) && PosOf(m, m.head) == m.hi && PosOf(m, m.tail) == m.ti
  {
    assert LinkedOk(m, m.head) && LinkedOk(m, m.tail);
  }

  /** How a thread comes to own a node that it took out, and how it gets rid of it. */
  lemma OwnsArrives(m: Memory, th: Thread)
    requires Safe(m, th)
    ensures var th' := NextThread(m, th);
            && (Unlinked(th'.pc) ==> th'.node == th.node)
            && (Unlinked(th'.pc) ==> if th'.pc.ReadItem? then th.pc.HeadCas? && m.head == th.node else Unlinked(th.pc))
            && (Unlinked(th.pc) ==> (Unlinked(th'.pc) && !th'.pc.ReadItem?) || th.pc.FreeD?)
            && (th'.pc.WaitD? ==> th.pc.SyncD?) && (th'.pc.FreeD? ==> th.pc.WaitD?)
            && th'.count == th.count + (if th.pc.ReadItem? then 1 else if th.pc.FreeD? then -1 else 0)
  {
  }

  lemma MineStays(m: Memory, now: nat, t: nat, th: Thread, n: Node)
    requires Safe(m, th) && MyOut(m, t, n) && !th.pc.FreeD?
    requires th.pc.LinkCas? ==> th.own in m.life && m.life[th.own].Private?
    requires m.head in m.life && m.life[m.head].Listed?
    ensures MyOut(NextMemory(m, now, t, th), t, n) && NextMemory(m, now, t, th).life[n] == m.life[n]
  {
  }

  lemma StepKeepsOwns(m: Memory, c: Urcu.Cell, c': Urcu.Cell, now: nat, t: nat, th: Thread)
    requires MemoryOk(m) && ThreadOk(m, c, t, th) && Safe(m, th)
    requires forall n | MyOut(m, t, n) :: m.life[n].at <= now
    requires th.pc.SyncD? ==> c'.called == now
    requires th.pc.WaitD? ==> c'.called == c.called
    requires th.pc.WaitD? ==> c'.updater.Returned?
    ensures DequeueOwns(NextMemory(m, now, t, th), c', t, NextThread(m, th))
  {
    OwnsArrives(m, th);
    HeadIsHeld(m, c.began);
    assert LinkedOk(m, m.head);
    assert th.pc.LinkCas? ==> th.own in m.life && m.life[th.own].Private?;
    hide EnqueueOk, CellOk, MemoryOk, DequeueKnows, NextThread;
    if Unlinked(th.pc) && !th.pc.FreeD? { MineStays(m, now, t, th, th.node); }
    hide Held, At;
  }

  lemma StepKeepsKnows(m: Memory, c: Urcu.Cell, now: nat, t: nat, th: Thread)
    requires MemoryOk(m) && ThreadOk(m, c, t, th) && Safe(m, th)
    ensures DequeueKnows(NextMemory(m, now, t, th), c.began, NextThread(m, th))
  {
    HeadIsHeld(m, c.began);
    hide EnqueueOk, CellOk, LinkedOk, PrivateOk, DequeueOwns;
    match th.pc
    case ReadNextD => DequeueReads(m, th);
    case HeadCas => if m.head == th.node { HeadCasKeepsDequeue(m, c, now, t, th); }
    case _ => hide MemoryOk;
  }

  lemma StepKeepsDequeue(m: Memory, c: Urcu.Cell, c': Urcu.Cell, now: nat, t: nat, th: Thread)
    requires MemoryOk(m) && ThreadOk(m, c, t, th) && Safe(m, th)
    requires forall n | MyOut(m, t, n) :: m.life[n].at <= now
    requires Reading(th.pc) ==> c'.began == c.began
    requires th.pc.SyncD? ==> c'.called == now
    requires th.pc.WaitD? ==> c'.called == c.called
    requires th.pc.WaitD? ==> c'.updater.Returned?
    ensures DequeueOk(NextMemory(m, now, t, th), c', t, NextThread(m, th))
  {
    StepKeepsOwns(m, c, c', now, t, th);
    StepKeepsKnows(m, c, now, t, th);
    hide MemoryOk, NextMemory, EnqueueOk, DequeueOwns, CellOk;
    if !Reading(th.pc) { KnowsOnlyReading(m, th); }
  }

  lemma KnowsOnlyReading(m: Memory, th: Thread)
    requires Safe(m, th) && !Reading(th.pc)
    ensures forall m', began :: DequeueKnows(m', began, NextThread(m, th))
  {
  }

  // ---------------------------------------------------------------- stamps

  lemma StampsThroughUrcu(life: map<Node, Life>, u: Urcu.State, mv: Urcu.Move)
    requires Stamps(life, u) && Urcu.Enabled(u, mv)
    ensures Stamps(life, Urcu.Apply(u, mv))
  {
    forall n | n in life && life[n].Freed? ensures Urcu.Covered(Urcu.Apply(u, mv), life[n].at) {
      Urcu.CoveredStays(u, mv, life[n].at);
    }
  }

  lemma GoStamps(s: State, t: nat)
    requires Inv(s) && Enabled(s, Step(t, Go)) && Safe(s.m, s.threads[t])
    ensures Stamps(NextMemory(s.m, s.u.now, t, s.threads[t]).life, s.u)
  {
    var th := s.threads[t];
    assert ThreadOk(s.m, s.u.cells[t], t, th);
    if th.pc.FreeD? { Urcu.GraceCovers(s.u, t, s.m.life[th.node].at); }
    hide MemoryOk, EnqueueOk;
  }

  // ---------------------------------------------------------------- every step, every run

  /** How the code moves between the parts that are inside a section and those that are not. */
  lemma PcMoves(m: Memory, th: Thread)
    requires Safe(m, th) && !th.pc.Idle?
    ensures var pc, pc' := th.pc, NextThread(m, th).pc;
            && (Reading(pc') ==> (Reading(pc) && LibEvent(pc).None?) || Locking(pc))
            && (Locking(pc') <==> pc.EnterE? || pc.EnterD?)
            && (Reclaiming(pc') ==> pc.UnlockE? || pc.UnlockD? || Reclaiming(pc))
            && (Waiting(pc') <==> pc.SyncE? || pc.SyncD?)
            && (!Locking(pc') && !Reading(pc') && !Reclaiming(pc') ==>
                  pc.RetryE? || pc.RetryD? || Waiting(pc) || pc.FreeD? || (LibEvent(pc).None? && !Locking(pc)))
  {
  }

  lemma GoCell(s: State, t: nat)
    requires Inv(s) && Enabled(s, Step(t, Go)) && Safe(s.m, s.threads[t])
    ensures CellOk(Apply(s, Step(t, Go)).u.cells[t], Apply(s, Step(t, Go)).threads[t].pc)
  {
    assert ThreadOk(s.m, s.u.cells[t], t, s.threads[t]);
    PcMoves(s.m, s.threads[t]);
    hide MemoryOk, Stamps, EnqueueOk, DequeueOk, NextMemory, NextThread, Inv, Safe;
  }

  lemma GoKeepsThread(s: State, t: nat)
    requires Inv(s) && Enabled(s, Step(t, Go))
    ensures Safe(s.m, s.threads[t])
    ensures var s' := Apply(s, Step(t, Go));
            MemoryOk(s'.m) && Evolves(s.m, s'.m, s.u.now, t) && ThreadOk(s'.m, s'.u.cells[t], t, s'.threads[t])
  {
    var th, c := s.threads[t], s.u.cells[t];
    NeverTouchesDead(s, t);
    assert ThreadOk(s.m, c, t, th);
    GoCell(s, t);
    assert forall n | MyOut(s.m, t, n) :: s.m.life[n].at <= s.u.now;
    hide MemoryOk, Evolves, Stamps, EnqueueOk, DequeueOk, NextMemory, NextThread;
    StepKeepsMemory(s.m, c, s.u.now, t, th);
    var c' := Apply(s, Step(t, Go)).u.cells[t];
    StepKeepsEnqueue(s.m, c, c'.began, s.u.now, t, th);
    StepKeepsDequeue(s.m, c, c', s.u.now, t, th);
  }

  lemma OthersKeep(s: State, s': State, t: nat, r: nat)
    requires Inv(s) && Evolves(s.m, s'.m, s.u.now, t) && r != t && r < |s.threads|
    requires |s'.threads| == |s.threads| && |s'.u.cells| == |s.u.cells|
    requires s'.threads[r] == s.threads[r] && s'.u.cells[r] == s.u.cells[r]
    ensures ThreadOk(s'.m, s'.u.cells[r], r, s'.threads[r])
  {
    var th, c := s.threads[r], s.u.cells[r];
    assert ThreadOk(s.m, c, r, th) && Urcu.ReaderOk(s.u, r);
    hide Evolves, MemoryOk, EnqueueOk, DequeueOk, Stamps;
    assert Reading(th.pc) ==> Urcu.InSection(s.u, r);
    OthersStay(s.m, s'.m, s.u.now, t, r, c, th);
  }

  lemma GoKeepsInv(s: State, t: nat)
    requires Inv(s) && Enabled(s, Step(t, Go)) && s.u.version < Urcu.UNASSIGNED
    ensures Inv(Apply(s, Step(t, Go)))
  {
    GoKeepsThread(s, t);
    GoStamps(s, t);
    var th := s.threads[t];
    var s' := Apply(s, Step(t, Go));
    hide MemoryOk, ThreadOk, Stamps, Evolves, NextMemory, NextThread, Safe;
    if LibEvent(th.pc).Some? {
      StampsThroughUrcu(s'.m.life, s.u, Urcu.Move(t, LibEvent(th.pc).value));
      Urcu.StepKeepsInv(s.u, Urcu.Move(t, LibEvent(th.pc).value));
    }
    hide Urcu.Inv;
    forall r | 0 <= r < |s'.threads| ensures ThreadOk(s'.m, s'.u.cells[r], r, s'.threads[r]) {
      if r != t { OthersKeep(s, s', t, r); }
    }
  }

  lemma LibKeepsThread(m: Memory, c: Urcu.Cell, c': Urcu.Cell, t: nat, th: Thread)
    requires ThreadOk(m, c, t, th) && (Locking(th.pc) || Waiting(th.pc))
    requires c'.called == c.called
    requires Locking(th.pc) ==> !c'.reader.Outside? && c'.updater == c.updater
    requires Waiting(th.pc) ==> c'.reader == c.reader && !c'.updater.NotSyncing?
    ensures ThreadOk(m, c', t, th)
  {
  }

  lemma LibKeepsInv(s: State, t: nat, e: Urcu.Event)
    requires Inv(s) && Enabled(s, Step(t, Lib(e))) && s.u.version < Urcu.UNASSIGNED
    ensures Inv(Apply(s, Step(t, Lib(e))))
  {
    hide MemoryOk, ThreadOk, Stamps;
    var s' := Apply(s, Step(t, Lib(e)));
    Urcu.StepKeepsInv(s.u, Urcu.Move(t, e));
    StampsThroughUrcu(s.m.life, s.u, Urcu.Move(t, e));
    assert ThreadOk(s.m, s.u.cells[t], t, s.threads[t]);
    LibKeepsThread(s.m, s.u.cells[t], s'.u.cells[t], t, s.threads[t]);
    forall r | 0 <= r < |s'.threads| ensures ThreadOk(s'.m, s'.u.cells[r], r, s'.threads[r]) {
      assert ThreadOk(s.m, s.u.cells[r], r, s.threads[r]);
    }
  }

  lemma CallKeepsInv(s: State, st: Step)
    requires Inv(s) && Enabled(s, st) && (st.a.Enqueue? || st.a.Dequeue?)
    ensures Inv(Apply(s, st))
  {
    var s' := Apply(s, st);
    assert ThreadOk(s.m, s.u.cells[st.t], st.t, s.threads[st.t]);
    NothingEvolves(s.m, s.u.now, st.t);
    if st.a.Enqueue? { AllocateKeeps(s.m, s.u.now, st.t, st.a.n); }
    assert Stamps(s'.m.life, s'.u);
    hide MemoryOk, Stamps, Evolves;
    forall r | 0 <= r < |s'.threads| ensures ThreadOk(s'.m, s'.u.cells[r], r, s'.threads[r]) {
      if r != st.t { OthersKeep(s, s', st.t, r); }
    }
  }

  lemma StepKeepsInv(s: State, st: Step)
    requires Inv(s) && Enabled(s, st) && s.u.version < Urcu.UNASSIGNED
    ensures Inv(Apply(s, st))
  {
    hide Inv;
    match st.a
    case Go => GoKeepsInv(s, st.t);
    case Lib(e) => LibKeepsInv(s, st.t, e);
    case _ => CallKeepsInv(s, st);
  }

  lemma InitInv(s: State)
    requires Init(s)
    ensures Inv(s)
  {
    EmptyOk();
  }

  lemma RunStep(run: seq<State>, steps: seq<Step>, i: nat)
    requires IsRun(run, steps) && i + 1 < |run|
    ensures |run| == |steps| + 1 && run[i].u.version < Urcu.UNASSIGNED
    ensures Enabled(run[i], steps[i]) && run[i + 1] == Apply(run[i], steps[i])
  {
    assert Follows(run, steps, i);
  }

  lemma {:induction false} RunKeepsInv(run: seq<State>, steps: seq<Step>, i: nat)
    requires IsRun(run, steps) && i < |run|
    ensures Inv(run[i])
  {
    if i == 0 { InitInv(run[0]); }
    else {
      hide IsRun, Inv, Apply;
      RunKeepsInv(run, steps, i - 1);
      RunStep(run, steps, i - 1);
      StepKeepsInv(run[i - 1], steps[i - 1]);
    }
  }
}
