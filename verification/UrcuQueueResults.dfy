/** What the invariant gives for runs of the URCU queue: memory safety, and a first-in-first-out
    queue whose contents are all nodes after head. */
module UrcuQueueResults {
  import opened QueueMemory
  import TailFifo
  import Urcu
  import opened UrcuQueue
  import opened UrcuQueueProofs

  /** In every interleaving, also on the paths that enter `readLock` again without leaving
      their section, no step reads, writes or deletes a node that has been deleted. */
  lemma NoUseAfterFree(run: seq<State>, steps: seq<Step>, i: nat, t: nat)
    requires IsRun(run, steps) && i < |run| && t < |run[i].threads|
    ensures !run[i].crashed && Safe(run[i].m, run[i].threads[t])
  {
    RunKeepsInv(run, steps, i);
    NeverTouchesDead(run[i], t);
  }

  /** The link of `enqueue` never overwrites a successor: a compare-exchange whose expected
      value is a stale non-null `ptrnull` fails and refreshes it, and one that succeeds finds null. */
  lemma LinkNeverOverwrites(run: seq<State>, steps: seq<Step>, i: nat, t: nat)
    requires IsRun(run, steps) && i < |run| && t < |run[i].threads| && run[i].threads[t].pc.LinkCas?
    ensures Safe(run[i].m, run[i].threads[t])
    ensures var m, th := run[i].m, run[i].threads[t];
            && th.node in m.next
            && (m.next[th.node] == th.expected ==> th.expected == NULL)
            && (th.expected != NULL ==> NextThread(m, th).pc.ReadTail? && NextThread(m, th).expected == m.next[th.node])
  {
    RunKeepsInv(run, steps, i);
    NeverTouchesDead(run[i], t);
    var m, th := run[i].m, run[i].threads[t];
    assert ThreadOk(m, run[i].u.cells[t], t, th);
    StaleExpectedFails(m, th.node, th.expected);
  }

  // ---------------------------------------------------------------- the queue as a sequence

  /** The values in the queue: all nodes after head. */
  ghost function Contents(m: Memory): seq<Node> {
    if m.hi < |m.order| then AfterHead(m) else []
  }

  /** A successful link of n by a thread at its compare-exchange. */
  predicate Links(m: Memory, th: Thread) {
    th.pc.LinkCas? && th.node in m.next && m.next[th.node] == th.expected
  }

  /** The queue is left alone; or one value is appended, by the link of its enqueue; or the
      first value is removed, and then head is moved to that node. */
  ghost predicate FifoStep(m: Memory, m': Memory, linked: bool, n: Node) {
    if linked then Contents(m') == Contents(m) + [n] && m'.head == m.head
    else if m'.head != m.head then Contents(m) == [m'.head] + Contents(m')
    else Contents(m') == Contents(m)
  }

  lemma LinkAppends(m: Memory, last: Node, n: Node)
    requires MemoryOk(m)
    ensures Contents(LinkAfter(m, last, n)) == Contents(m) + [n]
  {
  }

  lemma SwingIsQuiet(m: Memory, n: Node)
    requires MemoryOk(m)
    ensures Contents(SwingTail(m, n)) == Contents(m)
  {
  }

  lemma MoveRemoves(m: Memory, n: Node, now: nat, t: nat)
    requires MemoryOk(m) && At(m, n, m.hi + 1) && m.hi < m.ti
    ensures Contents(m) == [n] + Contents(MoveHead(m, n, now, t)) && n != m.head
  {
    MoveHeadKeeps(m, now, t, n);
  }

  lemma MemoryRefinesFifo(m: Memory, c: Urcu.Cell, now: nat, t: nat, th: Thread)
    requires MemoryOk(m) && ThreadOk(m, c, t, th) && Safe(m, th)
    ensures FifoStep(m, NextMemory(m, now, t, th), Links(m, th), th.own)
    ensures NextMemory(m, now, t, th).head != m.head ==>
              th.pc.HeadCas? && m.head == th.node && NextMemory(m, now, t, th).head == th.nxt && th.nxt != NULL
    ensures th.pc.HeadCas? && m.head == th.node ==> NextMemory(m, now, t, th).head != m.head
  {
    hide LinkedOk, PrivateOk, Held, Contents;
    match th.pc
    case HelpTailE => SwingIsQuiet(m, th.nxt);
    case HelpTailD => SwingIsQuiet(m, th.nxt);
    case SwingCas => SwingIsQuiet(m, th.own);
    case LinkCas => LinkAppends(m, th.node, th.own);
    case HeadCas => if m.head == th.node { MoveRemoves(m, th.nxt, now, t); }
    case FreeD => assert Contents(Free(m, th.node)) == Contents(m) by { Freeing(m, th.node); }
    case _ =>
  }

  lemma Freeing(m: Memory, n: Node)
    requires n in m.life
    ensures Contents(Free(m, n)) == Contents(m)
  {
  }

  /** The value that this step appends, if it does. */
  predicate StepLinks(s: State, st: Step) {
    st.t < |s.threads| && st.a.Go? && Links(s.m, s.threads[st.t])
  }

  /** Every step of every thread is a step of a first-in-first-out queue. */
  lemma StepRefinesFifo(s: State, st: Step)
    requires Inv(s) && Enabled(s, st)
    ensures FifoStep(s.m, Apply(s, st).m, StepLinks(s, st), s.threads[st.t].own)
    ensures Apply(s, st).m.head != s.m.head ==>
              st.a.Go? && s.threads[st.t].pc.HeadCas? && Apply(s, st).m.head == s.threads[st.t].nxt
              && s.threads[st.t].nxt != NULL && Apply(s, st).threads[st.t].pc.ReadItem?
    ensures st.a.Go? && s.threads[st.t].pc.HeadCas? && s.m.head == s.threads[st.t].node ==> Apply(s, st).m.head != s.m.head
  {
    var th := s.threads[st.t];
    assert ThreadOk(s.m, s.u.cells[st.t], st.t, th);
    if st.a.Go? {
      NeverTouchesDead(s, st.t);
      hide NextMemory, MemoryOk, FifoStep, ThreadOk;
      MemoryRefinesFifo(s.m, s.u.cells[st.t], s.u.now, st.t, th);
    }
  }

  /** The values linked by enqueues, in order, up to state i. */
  ghost function Enqueued(run: seq<State>, steps: seq<Step>, i: nat): seq<Node>
    requires i < |run| == |steps| + 1
  {
    if i == 0 then []
    else Enqueued(run, steps, i - 1)
         + (if StepLinks(run[i - 1], steps[i - 1]) then [run[i - 1].threads[steps[i - 1].t].own] else [])
  }

  /** The values that head was moved to, in order, up to state i. */
  ghost function Dequeued(run: seq<State>, i: nat): seq<Node>
    requires i < |run|
  {
    if i == 0 then []
    else Dequeued(run, i - 1) + (if run[i].m.head != run[i - 1].m.head then [run[i].m.head] else [])
  }

  lemma RunStarts(run: seq<State>, steps: seq<Step>)
    requires IsRun(run, steps)
    ensures |run| == |steps| + 1 && Contents(run[0].m) == []
  {
  }

  /** First in, first out: what was enqueued is what was dequeued followed by the contents,
      in this order, at every state of every run. */
  lemma {:induction false} FirstInFirstOut(run: seq<State>, steps: seq<Step>, i: nat)
    requires IsRun(run, steps) && i < |run|
    ensures |run| == |steps| + 1 && Enqueued(run, steps, i) == Dequeued(run, i) + Contents(run[i].m)
  {
    hide IsRun, Inv, Apply, Contents, StepLinks;
    RunStarts(run, steps);
    if i > 0 {
      FirstInFirstOut(run, steps, i - 1);
      RunStep(run, steps, i - 1);
      RunKeepsInv(run, steps, i - 1);
      StepRefinesFifo(run[i - 1], steps[i - 1]);
      var n := if StepLinks(run[i - 1], steps[i - 1]) then [run[i - 1].threads[steps[i - 1].t].own] else [];
      var h := if run[i].m.head != run[i - 1].m.head then [run[i].m.head] else [];
      assert Contents(run[i - 1].m) + n == h + Contents(run[i].m);
      hide FifoStep;
      TailFifo.Requeue(Enqueued(run, steps, i - 1), Dequeued(run, i - 1), Contents(run[i - 1].m), Contents(run[i].m), h, n);
    }
  }

  // ---------------------------------------------------------------- the calls

  /** The call that t starts at step a is still running at b. */
  ghost predicate InCall(run: seq<State>, steps: seq<Step>, a: nat, b: nat, t: nat) {
    && IsRun(run, steps) && a < b < |run|
    && steps[a].t == t && (steps[a].a.Enqueue? || steps[a].a.Dequeue?)
    && forall j | a < j <= b :: t < |run[j].threads| && !run[j].threads[t].pc.Idle?
  }

  predicate InEnqueue(pc: Pc) {
    BeforeLink(pc) || pc.SwingCas? || pc.UnlockE? || pc.SyncE? || pc.WaitE? || pc.Done?
  }

  predicate BeforeTake(pc: Pc) {
    pc.ReadHead? || pc.EnterD? || pc.LockD? || pc.CheckHead? || pc.ReadTailD? || pc.ReadNextD? || pc.RecheckHead?
    || pc.HelpTailD? || pc.HeadCas? || pc.RetryD?
  }

  /** How many steps of t in a..b link a node, and how many move head. */
  ghost function Works(run: seq<State>, steps: seq<Step>, a: nat, b: nat, t: nat): (int, int)
    requires a <= b < |run| == |steps| + 1
  {
    if a == b then (0, 0)
    else
      var w := Works(run, steps, a, b - 1, t);
      if steps[b - 1].t != t then w
      else (w.0 + (if StepLinks(run[b - 1], steps[b - 1]) then 1 else 0),
            w.1 + (if run[b].m.head != run[b - 1].m.head then 1 else 0))
  }

  /** t appended the value n in this step. */
  ghost predicate PutsLast(s: State, st: Step, s': State, t: nat, n: Node) {
    st.t == t && Contents(s'.m) == Contents(s.m) + [n]
  }

  /** What an enqueue of n has done by state b. */
  ghost predicate EnqueueDone(run: seq<State>, steps: seq<Step>, a: nat, b: nat, t: nat, n: Node)
    requires a < b < |run| == |steps| + 1 && t < |run[b].threads|
  {
    var th := run[b].threads[t];
    && InEnqueue(th.pc) && th.own == n
    && Works(run, steps, a, b, t) == (if BeforeLink(th.pc) then 0 else 1, 0)
    && (!BeforeLink(th.pc) ==> exists j | a <= j < b :: PutsLast(run[j], steps[j], run[j + 1], t, n))
  }

  lemma EnqueueStep(s: State, st: Step, t: nat)
    requires Inv(s) && Enabled(s, st) && st.t == t && InEnqueue(s.threads[t].pc)
    requires !Apply(s, st).threads[t].pc.Idle?
    ensures !s.threads[t].pc.Idle?
    ensures var th, th' := s.threads[t], Apply(s, st).threads[t];
            && InEnqueue(th'.pc) && !s.threads[t].pc.HeadCas? && th'.own == th.own
            && (BeforeLink(th'.pc) <==> BeforeLink(th.pc) && !StepLinks(s, st))
            && (StepLinks(s, st) ==> BeforeLink(th.pc))
  {
    if st.a.Go? { NeverTouchesDead(s, t); }
    hide NextMemory, Inv;
  }

  lemma OthersStand(s: State, st: Step, t: nat)
    requires Enabled(s, st) && st.t != t && t < |s.threads|
    ensures t < |Apply(s, st).threads| && Apply(s, st).threads[t] == s.threads[t]
  {
    hide NextMemory, NextThread;
  }

  lemma CallStarts(s: State, st: Step)
    requires Inv(s) && Enabled(s, st) && (st.a.Enqueue? || st.a.Dequeue?)
    ensures var th := Apply(s, st).threads[st.t];
            if st.a.Enqueue? then th.pc.ReadTail? && th.own == st.a.n else th.pc.ReadHead?
    ensures !StepLinks(s, st) && Apply(s, st).m.head == s.m.head
  {
  }

  lemma {:induction false} EnqueueProgress(run: seq<State>, steps: seq<Step>, a: nat, b: nat, t: nat)
    requires InCall(run, steps, a, b, t) && steps[a].a.Enqueue?
    ensures |run| == |steps| + 1 && EnqueueDone(run, steps, a, b, t, steps[a].a.n)
  {
    hide IsRun, Inv, Contents, Apply, StepLinks;
    RunStep(run, steps, b - 1);
    RunKeepsInv(run, steps, b - 1);
    var s, st := run[b - 1], steps[b - 1];
    StepRefinesFifo(s, st);
    if a + 1 == b {
      CallStarts(s, st);
      assert Works(run, steps, a, a, t) == (0, 0);
    } else {
      EnqueueProgress(run, steps, a, b - 1, t);
      if st.t != t { OthersStand(s, st, t); }
      else {
        EnqueueStep(s, st, t);
        if StepLinks(s, st) { assert PutsLast(s, st, run[b], t, steps[a].a.n); }
      }
    }
  }

  /** An enqueue takes effect when it links its node: it does so in exactly one step of the call. */
  lemma EnqueueIsRight(run: seq<State>, steps: seq<Step>, a: nat, b: nat, t: nat)
    requires InCall(run, steps, a, b, t) && steps[a].a.Enqueue? && run[b].threads[t].pc.Done?
    ensures |run| == |steps| + 1 && Works(run, steps, a, b, t) == (1, 0)
    ensures exists j | a <= j < b :: PutsLast(run[j], steps[j], run[j + 1], t, steps[a].a.n)
  {
    EnqueueProgress(run, steps, a, b, t);
  }

  /** t removed the value n from the front in this step. */
  ghost predicate TakesFirst(s: State, st: Step, s': State, t: nat, n: Node) {
    st.t == t && Contents(s.m) == [n] + Contents(s'.m)
  }

  /** A null successor was loaded at a moment of the call when the queue was empty. */
  ghost predicate DequeueDone(run: seq<State>, steps: seq<Step>, a: nat, b: nat, t: nat)
    requires a < b < |run| == |steps| + 1 && t < |run[b].threads|
  {
    var th := run[b].threads[t];
    if Unlinked(th.pc) || (th.pc.Done? && th.result != NULL) then
      && Works(run, steps, a, b, t) == (0, 1)
      && (!th.pc.ReadItem? ==> th.result == th.nxt) && th.nxt != NULL
      && exists j | a <= j < b :: TakesFirst(run[j], steps[j], run[j + 1], t, th.nxt)
    else
      && (BeforeTake(th.pc) || th.pc.Done?)
      && Works(run, steps, a, b, t) == (0, 0)
      && ((th.pc.RecheckHead? && th.nxt == NULL) || th.pc.Done? ==>
            exists j | a <= j < b :: Contents(run[j].m) == [])
  }

  lemma DequeueStep(s: State, st: Step, t: nat)
    requires Inv(s) && Enabled(s, st) && st.t == t && !s.threads[t].pc.Idle?
    requires BeforeTake(s.threads[t].pc) || Unlinked(s.threads[t].pc) || s.threads[t].pc.Done?
    requires !Apply(s, st).threads[t].pc.Idle?
    ensures var th, th' := s.threads[t], Apply(s, st).threads[t];
            && !th.pc.Done? && !StepLinks(s, st)
            && (Unlinked(th.pc) ==> (Unlinked(th'.pc) || th'.pc.Done?) && !th'.pc.ReadItem? && th'.nxt == th.nxt
                                    && th'.result == if th.pc.ReadItem? then th.nxt else th.result)
            && (BeforeTake(th.pc) ==> BeforeTake(th'.pc) || (th'.pc.ReadItem? && th.pc.HeadCas?) || (th'.pc.Done? && th.pc.RecheckHead?))
            && (th'.pc.ReadItem? ==> th.pc.HeadCas? && s.m.head == th.node && th'.nxt == th.nxt)
            && (BeforeTake(th.pc) && th'.pc.Done? ==> th'.result == NULL && th.nxt == NULL)
            && (th'.pc.RecheckHead? ==> th.pc.ReadNextD? && (th'.nxt == NULL ==> Contents(s.m) == []))
  {
    if st.a.Go? { NeverTouchesDead(s, t); }
    assert ThreadOk(s.m, s.u.cells[t], t, s.threads[t]);
    if s.threads[t].pc.ReadNextD? { DequeueReads(s.m, s.threads[t]); }
    hide NextMemory, Stamps, LinkedOk, PrivateOk, EnqueueOk, CellOk;
  }

  lemma {:induction false} DequeueProgress(run: seq<State>, steps: seq<Step>, a: nat, b: nat, t: nat)
    requires InCall(run, steps, a, b, t) && steps[a].a.Dequeue?
    ensures |run| == |steps| + 1 && DequeueDone(run, steps, a, b, t)
  {
    hide IsRun, Inv, Contents, Apply, StepLinks;
    RunStep(run, steps, b - 1);
    RunKeepsInv(run, steps, b - 1);
    var s, st := run[b - 1], steps[b - 1];
    StepRefinesFifo(s, st);
    if a + 1 == b {
      CallStarts(s, st);
      assert Works(run, steps, a, a, t) == (0, 0);
    } else {
      DequeueProgress(run, steps, a, b - 1, t);
      if st.t != t { OthersStand(s, st, t); }
      else {
        DequeueStep(s, st, t);
        if run[b].m.head != s.m.head { assert TakesFirst(s, st, run[b], t, s.threads[t].nxt); }
      }
    }
  }

  /** A dequeue that returns a value removed it from the front in exactly one step of its own;
      one that returns null moved nothing, and at some moment of it nothing was after head. */
  lemma DequeueIsRight(run: seq<State>, steps: seq<Step>, a: nat, b: nat, t: nat)
    requires InCall(run, steps, a, b, t) && steps[a].a.Dequeue? && run[b].threads[t].pc.Done?
    ensures |run| == |steps| + 1
    ensures var r := run[b].threads[t].result;
            && Works(run, steps, a, b, t) == (0, if r == NULL then 0 else 1)
            && (if r == NULL then exists j | a <= j < b :: Contents(run[j].m) == []
                else exists j | a <= j < b :: TakesFirst(run[j], steps[j], run[j + 1], t, r))
  {
    DequeueProgress(run, steps, a, b, t);
  }
}
