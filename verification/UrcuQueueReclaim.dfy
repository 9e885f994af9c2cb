/** What becomes of the nodes that a dequeue of the URCU queue takes out, whom its calls wait for, and
    which of them leave their read section: all but a dequeue that finds nothing. */
module UrcuQueueReclaim {
  import opened QueueMemory
  import Urcu
  import opened UrcuQueue
  import opened UrcuQueueProofs
  import opened UrcuQueueResults

  // ---------------------------------------------------------------- nothing leaks

  /** A node that is out of the queue and not deleted is in the hands of the dequeue that took it
      out, which is still running. */
  predicate InHand(s: State, n: Node) {
    n in s.m.life && s.m.life[n].Out? ==>
      && s.m.life[n].owner < |s.threads|
      && Unlinked(s.threads[s.m.life[n].owner].pc) && s.threads[s.m.life[n].owner].node == n
  }

  lemma OutInStep(m: Memory, now: nat, t: nat, th: Thread, n: Node)
    requires Safe(m, th) && !th.pc.Idle?
    ensures var m', th' := NextMemory(m, now, t, th), NextThread(m, th);
            && (n in m'.life && m'.life[n].Out? ==>
                  (n in m.life && m'.life[n] == m.life[n]) || (m'.life[n] == Out(now, t) && th'.pc.ReadItem? && th'.node == n))
            && (Unlinked(th.pc) && n in m'.life && m'.life[n].Out? && th.node == n ==> Unlinked(th'.pc) && th'.node == n)
  {
  }

  lemma StepKeepsInHand(s: State, st: Step, n: Node)
    requires Inv(s) && Enabled(s, st) && InHand(s, n)
    ensures InHand(Apply(s, st), n)
  {
    if st.a.Go? {
      NeverTouchesDead(s, st.t);
      hide Inv, NextMemory, NextThread;
      OutInStep(s.m, s.u.now, st.t, s.threads[st.t], n);
      hide Safe;
    }
  }

  /** Nothing leaks, in every run. */
  lemma {:induction false} NothingLeaks(run: seq<State>, steps: seq<Step>, i: nat, n: Node)
    requires IsRun(run, steps) && i < |run|
    ensures InHand(run[i], n)
  {
    hide IsRun, Inv, Apply, InHand;
    if i == 0 {
      NoneAtStart(run, steps, n);
    } else {
      NothingLeaks(run, steps, i - 1, n);
      RunStep(run, steps, i - 1);
      RunKeepsInv(run, steps, i - 1);
      StepKeepsInHand(run[i - 1], steps[i - 1], n);
    }
  }

  lemma NoneAtStart(run: seq<State>, steps: seq<Step>, n: Node)
    requires IsRun(run, steps)
    ensures InHand(run[0], n)
  {
  }

  lemma StepKeepsOut(s: State, st: Step, t: nat, n: Node)
    requires Inv(s) && Enabled(s, st) && n in s.m.life && (MyOut(s.m, t, n) || s.m.life[n].Freed?)
    ensures var m' := Apply(s, st).m; n in m'.life && (MyOut(m', t, n) || m'.life[n].Freed?)
  {
    assert ThreadOk(s.m, s.u.cells[st.t], st.t, s.threads[st.t]);
    NothingEvolves(s.m, s.u.now, st.t);
    if st.a.Go? {
      NeverTouchesDead(s, st.t);
      StepKeepsMemory(s.m, s.u.cells[st.t], s.u.now, st.t, s.threads[st.t]);
    } else if st.a.Enqueue? {
      AllocateKeeps(s.m, s.u.now, st.t, st.a.n);
    }
    assert NodeEvolves(s.m, Apply(s, st).m, s.u.now, st.t, n);
    hide MemoryOk, ThreadOk, NextMemory, NextThread;
  }

  lemma {:induction false} OutOrFreed(run: seq<State>, steps: seq<Step>, i: nat, j: nat, t: nat, n: Node)
    requires IsRun(run, steps) && i <= j < |run| && MyOut(run[i].m, t, n)
    ensures n in run[j].m.life && (MyOut(run[j].m, t, n) || run[j].m.life[n].Freed?)
  {
    hide IsRun, Inv, Apply, Enabled;
    if i < j {
      OutOrFreed(run, steps, i, j - 1, t, n);
      RunStep(run, steps, j - 1);
      RunKeepsInv(run, steps, j - 1);
      StepKeepsOut(run[j - 1], steps[j - 1], t, n);
    }
  }

  /** What a thread has taken out is deleted when its call is done. */
  lemma FreedWhenDone(run: seq<State>, steps: seq<Step>, i: nat, j: nat, t: nat, n: Node)
    requires IsRun(run, steps) && i <= j < |run| && MyOut(run[i].m, t, n)
    requires t < |run[j].threads| && (run[j].threads[t].pc.Idle? || run[j].threads[t].pc.Done?)
    ensures n in run[j].m.life && run[j].m.life[n].Freed?
  {
    OutOrFreed(run, steps, i, j, t, n);
    NothingLeaks(run, steps, j, n);
  }

  /** Step j is the exchange of head by t that takes n out. */
  ghost predicate TakesOut(run: seq<State>, steps: seq<Step>, j: nat, t: nat, n: Node) {
    j < |steps| && j + 1 < |run| && steps[j].t == t && run[j].m.head == n && run[j + 1].m.head != n
  }

  lemma MovedHead(s: State, st: Step)
    requires Inv(s) && Enabled(s, st) && Apply(s, st).m.head != s.m.head
    ensures MyOut(Apply(s, st).m, st.t, s.m.head)
  {
    StepRefinesFifo(s, st);
    NeverTouchesDead(s, st.t);
    assert LinkedOk(s.m, s.m.head);
    hide Inv;
  }

  lemma {:induction false} WorkFound(run: seq<State>, steps: seq<Step>, a: nat, b: nat, t: nat) returns (j: nat)
    requires a <= b < |run| == |steps| + 1 && Works(run, steps, a, b, t).1 > 0
    ensures a <= j < b && TakesOut(run, steps, j, t, run[j].m.head)
  {
    if b > a && Works(run, steps, a, b - 1, t).1 > 0 { j := WorkFound(run, steps, a, b - 1, t); } else { j := b - 1; }
  }

  /** A dequeue that returns a value took the old head out in a step of its own, and when it is done
      that node is deleted. */
  lemma DequeueFrees(run: seq<State>, steps: seq<Step>, a: nat, b: nat, t: nat)
    requires InCall(run, steps, a, b, t) && steps[a].a.Dequeue?
    requires run[b].threads[t].pc.Done? && run[b].threads[t].result != NULL
    ensures exists j, n | a <= j < b && TakesOut(run, steps, j, t, n) :: n in run[b].m.life && run[b].m.life[n].Freed?
  {
    DequeueIsRight(run, steps, a, b, t);
    var j := WorkFound(run, steps, a, b, t);
    hide IsRun, Inv, Apply;
    RunStep(run, steps, j);
    RunKeepsInv(run, steps, j);
    MovedHead(run[j], steps[j]);
    FreedWhenDone(run, steps, j + 1, b, t, run[j].m.head);
    assert TakesOut(run, steps, j, t, run[j].m.head);
  }

  // ---------------------------------------------------------------- whom an enqueue waits for

  /** Step j is the link of the enqueue of t. */
  ghost predicate LinksIn(run: seq<State>, steps: seq<Step>, j: nat, t: nat) {
    j < |steps| && j < |run| && steps[j].t == t && StepLinks(run[j], steps[j])
  }

  /** What is known of the grace period of an enqueue that has linked its node in step j. */
  ghost predicate WaitSoFar(run: seq<State>, steps: seq<Step>, a: nat, b: nat, t: nat, j: nat)
    requires b < |run| && t < |run[b].threads| && t < |run[b].u.cells|
  {
    var pc, c := run[b].threads[t].pc, run[b].u.cells[t];
    && a <= j < b && LinksIn(run, steps, j, t) && run[j].u.now <= run[b].u.now
    && (pc.WaitE? || pc.Done? ==> run[j].u.now <= c.called)
    && (pc.Done? ==> c.updater.Returned?)
  }

  /** The grace period of t moves on by its own steps only. */
  lemma CellMoves(s: State, st: Step, t: nat)
    requires Inv(s) && Enabled(s, st) && t < |s.threads|
    ensures |Apply(s, st).u.cells| == |s.u.cells| == |s.threads| && s.u.now <= Apply(s, st).u.now
    ensures var th, c, c' := s.threads[t], s.u.cells[t], Apply(s, st).u.cells[t];
            if st.t != t then c' == c
            else
              && (th.pc.SyncE? && st.a.Go? ==> c'.called == s.u.now)
              && (th.pc.WaitE? ==> c'.called == c.called && (st.a.Go? ==> c'.updater.Returned? && c'.updater == c.updater))
              && (th.pc.Done? && st.a.Go? ==> c' == c)
  {
    assert ThreadOk(s.m, s.u.cells[t], t, s.threads[t]);
    hide MemoryOk, Stamps, NextMemory, NextThread, EnqueueOk, DequeueOk;
  }

  /** An enqueue after its link. */
  lemma AfterLinkGoesOn(s: State, st: Step, t: nat)
    requires Inv(s) && Enabled(s, st) && st.t == t && InEnqueue(s.threads[t].pc) && !BeforeLink(s.threads[t].pc)
    requires !Apply(s, st).threads[t].pc.Idle?
    ensures !s.threads[t].pc.Done?
    ensures var pc, pc' := s.threads[t].pc, Apply(s, st).threads[t].pc;
            && (pc'.WaitE? ==> pc.WaitE? || (pc.SyncE? && st.a.Go?))
            && (pc'.Done? ==> pc.WaitE? && st.a.Go?)
  {
    if st.a.Go? { NeverTouchesDead(s, t); }
    assert ThreadOk(s.m, s.u.cells[t], t, s.threads[t]);
    hide MemoryOk, Stamps, NextMemory;
  }

  lemma {:induction false} WaitsSoFar(run: seq<State>, steps: seq<Step>, a: nat, b: nat, t: nat) returns (j: nat)
    requires InCall(run, steps, a, b, t) && steps[a].a.Enqueue? && !BeforeLink(run[b].threads[t].pc)
    ensures t < |run[b].u.cells| && WaitSoFar(run, steps, a, b, t, j)
  {
    hide IsRun, Inv, Apply, StepLinks, Contents;
    RunStep(run, steps, b - 1);
    RunKeepsInv(run, steps, b - 1);
    var s, st := run[b - 1], steps[b - 1];
    j := b - 1;
    if a + 1 == b {
      CallStarts(s, st);
    } else {
      EnqueueProgress(run, steps, a, b - 1, t);
      CellMoves(s, st, t);
      if st.t != t { OthersStand(s, st, t); } else { EnqueueStep(s, st, t); }
      if BeforeLink(s.threads[t].pc) {
        assert LinksIn(run, steps, j, t);
        JustLinked(s, st, t);
      } else {
        j := WaitsSoFar(run, steps, a, b - 1, t);
        if st.t == t { AfterLinkGoesOn(s, st, t); }
        hide LinksIn, Enabled;
      }
    }
  }

  lemma JustLinked(s: State, st: Step, t: nat)
    requires Inv(s) && Enabled(s, st) && st.t == t && StepLinks(s, st)
    ensures var pc := Apply(s, st).threads[t].pc; !pc.WaitE? && !pc.Done?
  {
    NeverTouchesDead(s, t);
    hide Inv, NextMemory;
  }

  /** When an enqueue is done, every read section of any thread began after its link: all that were
      running then are over. */
  lemma EnqueueWaits(run: seq<State>, steps: seq<Step>, a: nat, b: nat, t: nat)
    requires InCall(run, steps, a, b, t) && steps[a].a.Enqueue? && run[b].threads[t].pc.Done?
    ensures exists j | a <= j < b && LinksIn(run, steps, j, t) ::
              forall r: nat | Urcu.InSection(run[b].u, r) :: run[b].u.cells[r].began > run[j].u.now
  {
    var j := WaitsSoFar(run, steps, a, b, t);
    RunKeepsInv(run, steps, b);
    Urcu.GraceCovers(run[b].u, t, run[j].u.now);
    hide IsRun, Inv;
  }

  // ---------------------------------------------------------------- which calls leave their section

  /** Where a call of t stands with its read section. */
  ghost predicate SectionOk(s: State, t: nat, enqueues: bool) {
    t < |s.threads| == |s.u.cells| &&
    var th, c := s.threads[t], s.u.cells[t];
    th.pc.Done? ==> if enqueues || th.result != NULL then c.reader.Outside? else c.reader.Reading?
  }

  lemma SectionStep(s: State, st: Step, t: nat, enqueues: bool)
    requires Inv(s) && Enabled(s, st) && t < |s.threads| && !s.threads[t].pc.Idle? && SectionOk(s, t, enqueues)
    requires if enqueues then InEnqueue(s.threads[t].pc) else BeforeTake(s.threads[t].pc) || Unlinked(s.threads[t].pc) || s.threads[t].pc.Done?
    requires Unlinked(s.threads[t].pc) && !s.threads[t].pc.ReadItem? ==> s.threads[t].result != NULL
    requires !Apply(s, st).threads[t].pc.Idle?
    ensures SectionOk(Apply(s, st), t, enqueues)
  {
    if st.t == t && st.a.Go? { NeverTouchesDead(s, t); }
    if st.t != t { OthersStand(s, st, t); CellMoves(s, st, t); }
    assert ThreadOk(s.m, s.u.cells[t], t, s.threads[t]);
    hide MemoryOk, Stamps, NextMemory, EnqueueOk, DequeueOk;
  }

  lemma {:induction false} SectionsSoFar(run: seq<State>, steps: seq<Step>, a: nat, b: nat, t: nat)
    requires InCall(run, steps, a, b, t)
    ensures SectionOk(run[b], t, steps[a].a.Enqueue?)
  {
    hide IsRun, Inv, Apply, Contents, StepLinks, SectionOk;
    RunStep(run, steps, b - 1);
    RunKeepsInv(run, steps, b - 1);
    if a + 1 == b {
      SectionStarts(run[a], steps[a]);
    } else {
      SectionsSoFar(run, steps, a, b - 1, t);
      if steps[a].a.Enqueue? { EnqueueProgress(run, steps, a, b - 1, t); } else { DequeueProgress(run, steps, a, b - 1, t); }
      SectionStep(run[b - 1], steps[b - 1], t, steps[a].a.Enqueue?);
    }
  }

  lemma SectionStarts(s: State, st: Step)
    requires Inv(s) && Enabled(s, st) && (st.a.Enqueue? || st.a.Dequeue?)
    ensures SectionOk(Apply(s, st), st.t, st.a.Enqueue?)
  {
  }

  /** Which calls leave their read section: every enqueue and every dequeue that returns a value does,
      so that its slot shows no version; and a dequeue that returns null does not: it is still inside
      when it is done, and its slot shows a version that the next synchronizer waits for. */
  lemma LeavesSectionIffNotNull(run: seq<State>, steps: seq<Step>, a: nat, b: nat, t: nat)
    requires InCall(run, steps, a, b, t) && run[b].threads[t].pc.Done?
    ensures t < |run[b].u.cells|
    ensures steps[a].a.Enqueue? || run[b].threads[t].result != NULL ==>
              run[b].u.cells[t].reader.Outside? && run[b].u.cells[t].slot >= Urcu.UNASSIGNED
    ensures steps[a].a.Dequeue? && run[b].threads[t].result == NULL ==>
              Urcu.InSection(run[b].u, t) && run[b].u.cells[t].slot <= run[b].u.version
  {
    SectionsSoFar(run, steps, a, b, t);
    RunKeepsInv(run, steps, b);
    assert Urcu.ReaderOk(run[b].u, t);
    hide IsRun, MemoryOk, Stamps, ThreadOk;
  }
}
