/** The invariant of the hazard-pointer queue holds in every run.

    A step of thread t is looked at from three sides.  First t itself: the memory is in order
    again, t knows what it should about the places of its nodes in the queue, its guards are
    published and alive, and its retired list holds its own nodes, each once.  Then every other
    thread r: its guards survive, because a scan of t that deletes a node has read the whole
    table without passing a guard for that node, and all else that r knows is kept by the promise
    that t makes (Evolves).  Last every pair of a guard and a scan: a scan that moves does not
    pass a guard, a guard that is taken is on a node that is in the queue and so in no retired
    list, and all other guards and scans stand still. */
module HazardQueueProofs {
  import opened QueueMemory
  import Hazards
  import opened HazardQueue

  // ---------------------------------------------------------------- what the other threads keep

  /** Nodes that th guards are not deleted between m and m'. */
  predicate GuardsRespected(m': Memory, th: Thread) {
    && (GuardsNode(th.pc) ==> th.node in m'.life && !m'.life[th.node].Freed?)
    && (th.pc.ReadItem? ==> th.nxt in m'.life && !m'.life[th.nxt].Freed?)
  }

  lemma AtStays(m: Memory, m': Memory, t: nat, n: Node, i: int)
    requires Evolves(m, m', 0, t) && At(m, n, i)
    ensures At(m', n, i)
  {
    assert NodeEvolves(m, m', 0, t, n);
  }

  lemma OthersStay(m: Memory, m': Memory, t: nat, r: nat, row: seq<Node>, slots: nat, th: Thread)
    requires Evolves(m, m', 0, t) && r != t && GuardsRespected(m', th)
    requires ThreadOk(m, row, r, slots, th)
    ensures ThreadOk(m', row, r, slots, th)
  {
    assert NodeEvolves(m, m', 0, t, th.node) && NodeEvolves(m, m', 0, t, th.nxt) && NodeEvolves(m, m', 0, t, th.own);
    if At(m, th.node, PosOf(m, th.node)) { AtStays(m, m', t, th.node, PosOf(m, th.node)); }
    if At(m, th.nxt, PosOf(m, th.node) + 1) { AtStays(m, m', t, th.nxt, PosOf(m, th.node) + 1); }
    if At(m, th.own, PosOf(m, th.node) + 1) { AtStays(m, m', t, th.own, PosOf(m, th.node) + 1); }
    forall i | 0 <= i < |th.ret.list| ensures MyOut(m', r, th.ret.list[i]) {
      assert MyOut(m, r, th.ret.list[i]) && NodeEvolves(m, m', 0, t, th.ret.list[i]);
    }
  }

  // ---------------------------------------------------------------- the step of the thread itself

  lemma NeverTouchesDead(s: State, slots: nat, t: nat)
    requires Inv(s, slots) && t < |s.threads|
    ensures Safe(s.m, |s.threads|, s.threads[t])
    ensures s.threads[t].pc.Retiring? ==> ScanReads(s, s.threads[t].ret)
  {
    var th := s.threads[t];
    assert ThreadOk(s.m, s.hazards[t], t, slots, th);
    assert PrivateOk(s.m, th.node) && LinkedOk(s.m, th.node) && LinkedOk(s.m, th.nxt);
    if th.pc.Retiring? && Hazards.DeletesNow(th.ret, |s.threads|) {
      var n := th.ret.list[th.ret.cursor.i];
      assert MyOut(s.m, t, n) && LinkedOk(s.m, n) && PrivateOk(s.m, n);
    }
    assert th.pc.Retiring? && th.ret.cursor.k < |s.hazards| ==>
      ThreadOk(s.m, s.hazards[th.ret.cursor.k], th.ret.cursor.k, slots, s.threads[th.ret.cursor.k]);
  }

  /** The memory after a step of t. */
  lemma StepKeepsMemory(m: Memory, row: seq<Node>, threads: nat, t: nat, slots: nat, th: Thread)
    requires MemoryOk(m) && ThreadOk(m, row, t, slots, th) && Safe(m, threads, th)
    ensures MemoryOk(NextMemory(m, threads, t, th)) && Evolves(m, NextMemory(m, threads, t, th), 0, t)
  {
    NothingEvolves(m, 0, t);
    match th.pc
    case LinkCas => if m.next[th.node] == NULL { LinkKeeps(m, 0, t, th.node, th.own); }
    case HelpTail => if m.tail == th.node { SwingKeeps(m, 0, t, th.nxt); }
    case SwingCas => if m.tail == th.node { SwingKeeps(m, 0, t, th.own); }
    case HeadCas => if m.head == th.node { MoveHeadKeeps(m, 0, t, th.nxt); }
    case Retiring =>
      if Hazards.DeletesNow(th.ret, threads) {
        var n := th.ret.list[th.ret.cursor.i];
        assert MyOut(m, t, n);
        FreeKeeps(m, 0, t, n);
      }
    case _ =>
  }

  /** A step of t that may proceed. */
  ghost predicate CanGo(s: State, slots: nat, t: nat) {
    && t < |s.threads| == |s.hazards| && slots >= 2
    && (forall k | 0 <= k < |s.hazards| :: |s.hazards[k]| == slots)
    && MemoryOk(s.m) && ThreadOk(s.m, s.hazards[t], t, slots, s.threads[t])
    && Safe(s.m, |s.threads|, s.threads[t])
    && (s.threads[t].pc.Retiring? ==> ScanReads(s, s.threads[t].ret))
  }

  /** What the thread knows after a step that does not write to the queue. */
  lemma ReadKeepsKnowledge(s: State, t: nat, th: Thread)
    requires MemoryOk(s.m) && KnowsOk(s.m, t, th) && t < |s.hazards| && Safe(s.m, |s.threads|, th)
    requires (th.pc.Retiring? ==> ScanReads(s, th.ret)) && NextMemory(s.m, |s.threads|, t, th) == s.m
    requires !th.pc.LinkCas? && !th.pc.SwingCas?
    ensures KnowsOk(s.m, t, NextThread(s, t, th))
  {
    var m := s.m;
    match th.pc
    case CheckTail => assert LinkedOk(m, m.tail); hide MemoryOk;
    case ReadNext => SuccessorIsNext(m, th.node); hide MemoryOk;
    case RecheckHead => assert LinkedOk(m, m.head); hide MemoryOk;
    case CompareTail => if m.tail != th.node { TailIsPast(m, th.node, PosOf(m, th.node)); } hide MemoryOk;
    case LoadNext => SuccessorIsNext(m, th.node); assert LinkedOk(m, NULL); hide MemoryOk;
    case RecheckNext => SuccessorIsNext(m, th.node); hide MemoryOk;
    case _ => hide MemoryOk;
  }

  lemma LinkKeepsKnowledge(m: Memory, t: nat, th: Thread)
    requires MemoryOk(m) && KnowsOk(m, t, th) && th.pc.LinkCas? && th.node in m.next && m.next[th.node] == NULL
    ensures KnowsOk(LinkAfter(m, th.node, th.own), t, th.(pc := SwingCas))
  {
    assert PrivateOk(m, th.own) && LinkedOk(m, th.own);
    LinkKeeps(m, 0, t, th.node, th.own);
    hide MemoryOk, Evolves;
  }

  lemma SwingKeepsKnowledge(m: Memory, t: nat, th: Thread)
    requires MemoryOk(m) && KnowsOk(m, t, th) && th.pc.SwingCas?
    ensures KnowsOk(if m.tail == th.node then SwingTail(m, th.own) else m, t, th.(pc := ClearEnqueue, c := 0))
  {
    assert LinkedOk(m, m.tail);
    if m.tail != th.node { TailIsPast(m, th.node, PosOf(m, th.node)); }
  }

  lemma StepKeepsKnowledge(s: State, slots: nat, t: nat)
    requires CanGo(s, slots, t)
    ensures KnowsOk(NextMemory(s.m, |s.threads|, t, s.threads[t]), t, NextThread(s, t, s.threads[t]))
  {
    var m, th := s.m, s.threads[t];
    hide GuardsOk, RetiredOk;
    match th.pc
    case LinkCas => if m.next[th.node] == NULL { LinkKeepsKnowledge(m, t, th); } hide MemoryOk;
    case SwingCas => SwingKeepsKnowledge(m, t, th); hide MemoryOk, KnowsOk;
    case HelpTail => hide MemoryOk;
    case HeadCas => hide MemoryOk;
    case Retiring => hide MemoryOk;
    case _ => hide KnowsOk, MemoryOk; ReadKeepsKnowledge(s, t, th);
  }

  /** A node that tail is at or past, and that is not the tail, is behind it. */
  lemma TailIsPast(m: Memory, n: Node, i: int)
    requires MemoryOk(m) && At(m, n, i) && i <= m.ti && n != m.tail
    ensures i < m.ti
  {
  }

  lemma RetiredKept(m: Memory, m': Memory, t: nat, slots: nat, th: Thread, th': Thread)
    requires RetiredOk(m, t, slots, th)
    requires forall n | MyOut(m, t, n) :: MyOut(m', t, n)
    requires th'.ret.list == th.ret.list && th'.ret.count == th.ret.count
    requires th'.pc.ReadItem? || th'.pc.ClearDequeue? ==> MyOut(m', t, th'.node) && th'.node !in th.ret.list
    requires th'.pc.Retiring? <==> th'.ret.cursor.Scanning?
    requires th'.ret.cursor.Scanning? ==> th'.ret.cursor.j < slots
    ensures RetiredOk(m', t, slots, th')
  {
    forall i | 0 <= i < |th.ret.list| ensures MyOut(m', t, th.ret.list[i]) {
      assert MyOut(m, t, th.ret.list[i]);
    }
  }

  lemma DeleteKeepsRetired(m: Memory, t: nat, slots: nat, threads: nat, th: Thread)
    requires RetiredOk(m, t, slots, th) && th.pc.Retiring? && Hazards.DeletesNow(th.ret, threads) && slots >= 1
    requires th.ret.list[th.ret.cursor.i] in m.life
    ensures RetiredOk(Free(m, th.ret.list[th.ret.cursor.i]), t, slots, th.(ret := Hazards.Decide(th.ret)))
  {
    var m', th' := Free(m, th.ret.list[th.ret.cursor.i]), th.(ret := Hazards.Decide(th.ret));
    Hazards.EraseOne(th.ret.list, th.ret.cursor.i);
    forall i | 0 <= i < |th'.ret.list| ensures MyOut(m', t, th'.ret.list[i]) {
      assert MyOut(m, t, th.ret.list[if i < th.ret.cursor.i then i else i + 1]);
    }
  }

  lemma RetireKeepsRetired(m: Memory, t: nat, slots: nat, th: Thread)
    requires RetiredOk(m, t, slots, th) && th.pc.ClearDequeue? && slots >= 1
    ensures RetiredOk(m, t, slots, th.(pc := Retiring, ret := Hazards.Retire(th.ret, th.node)))
  {
    forall i | 0 <= i <= |th.ret.list| ensures MyOut(m, t, (th.ret.list + [th.node])[i]) {
      if i < |th.ret.list| { assert MyOut(m, t, th.ret.list[i]); }
    }
  }

  /** What an own step that neither retires nor scans does to the retired list: nothing. */
  lemma RetirerStands(s: State, t: nat, th: Thread)
    requires t < |s.hazards| && Safe(s.m, |s.threads|, th) && !th.pc.Retiring?
    requires !(th.pc.ClearDequeue? && NextThread(s, t, th).pc.Retiring?)
    ensures var th' := NextThread(s, t, th);
            && th'.ret == th.ret && !th'.pc.Retiring?
            && (th'.pc.ReadItem? ==> th.pc.HeadCas? && s.m.head == th.node && th'.node == th.node)
            && (th'.pc.ClearDequeue? ==> (th.pc.ReadItem? || th.pc.ClearDequeue?) && th'.node == th.node)
    ensures th.pc.HeadCas? && s.m.head == th.node ==> NextMemory(s.m, |s.threads|, t, th) == MoveHead(s.m, th.nxt, 0, t)
    ensures th.pc.ReadItem? || th.pc.ClearDequeue? ==> NextMemory(s.m, |s.threads|, t, th) == s.m
  {
  }

  lemma OwnStay(m: Memory, threads: nat, t: nat, th: Thread, n: Node)
    requires MyOut(m, t, n) && Safe(m, threads, th) && !(th.pc.Retiring? && Hazards.DeletesNow(th.ret, threads))
    requires th.pc.LinkCas? ==> th.own in m.life && m.life[th.own].Private?
    requires m.head in m.life && m.life[m.head].Listed?
    ensures MyOut(NextMemory(m, threads, t, th), t, n)
  {
  }

  lemma QuietKeepsRetired(s: State, slots: nat, t: nat)
    requires CanGo(s, slots, t) && !s.threads[t].pc.Retiring?
    requires !(s.threads[t].pc.ClearDequeue? && NextThread(s, t, s.threads[t]).pc.Retiring?)
    ensures RetiredOk(NextMemory(s.m, |s.threads|, t, s.threads[t]), t, slots, NextThread(s, t, s.threads[t]))
  {
    var m, th := s.m, s.threads[t];
    var m', th' := NextMemory(m, |s.threads|, t, th), NextThread(s, t, th);
    RetirerStands(s, t, th);
    assert LinkedOk(m, m.head);
    HeadIsNotRetired(m, t, slots, th);
    assert th.pc.LinkCas? ==> th.own in m.life && m.life[th.own].Private?;
    hide MemoryOk, NextThread, NextMemory, KnowsOk, GuardsOk;
    forall n | MyOut(m, t, n) ensures MyOut(m', t, n) { OwnStay(m, |s.threads|, t, th, n); }
    RetiredKept(m, m', t, slots, th, th');
  }

  lemma ScanKeepsRetired(s: State, slots: nat, t: nat)
    requires CanGo(s, slots, t) && s.threads[t].pc.Retiring?
    ensures RetiredOk(NextMemory(s.m, |s.threads|, t, s.threads[t]), t, slots, NextThread(s, t, s.threads[t]))
  {
    var m, th := s.m, s.threads[t];
    hide MemoryOk, KnowsOk, GuardsOk;
    if Hazards.DeletesNow(th.ret, |s.threads|) {
      DeleteKeepsRetired(m, t, slots, |s.threads|, th);
    } else {
      RetiredKept(m, m, t, slots, th, NextThread(s, t, th));
    }
  }

  lemma StepKeepsRetired(s: State, slots: nat, t: nat)
    requires CanGo(s, slots, t)
    ensures RetiredOk(NextMemory(s.m, |s.threads|, t, s.threads[t]), t, slots, NextThread(s, t, s.threads[t]))
  {
    var m, th := s.m, s.threads[t];
    if th.pc.Retiring? {
      ScanKeepsRetired(s, slots, t);
    } else if th.pc.ClearDequeue? && NextThread(s, t, th).pc.Retiring? {
      hide MemoryOk, KnowsOk, GuardsOk;
      RetireKeepsRetired(m, t, slots, th);
    } else {
      QuietKeepsRetired(s, slots, t);
    }
  }

  lemma HeadIsNotRetired(m: Memory, t: nat, slots: nat, th: Thread)
    requires RetiredOk(m, t, slots, th)
    ensures m.head in m.life && m.life[m.head].Listed? ==> m.head !in th.ret.list
  {
    forall i | 0 <= i < |th.ret.list| && th.ret.list[i] == m.head ensures MyOut(m, t, m.head) {
      assert MyOut(m, t, th.ret.list[i]);
    }
  }

  lemma UsableStays(m: Memory, threads: nat, t: nat, th: Thread, n: Node)
    requires MemoryOk(m) && Safe(m, threads, th) && !th.pc.Retiring? && Usable(m, n)
    requires Enqueuing(th.pc) ==> th.own in m.life && m.life[th.own] == Private(t)
    ensures Usable(NextMemory(m, threads, t, th), n)
  {
    assert PrivateOk(m, th.own) && LinkedOk(m, th.own);
  }

  lemma GuardsAdvance(s: State, m': Memory, t: nat, th: Thread)
    requires t < |s.hazards| && GuardsOk(s.m, s.hazards[t], th)
    requires Safe(s.m, |s.threads|, th) && (th.pc.Retiring? ==> ScanReads(s, th.ret))
    requires s.m.head != NULL
    requires th.pc.LoadNext? ==> s.m.next[th.node] != NULL
    requires !th.pc.Retiring? ==> Usable(m', s.m.head) && Usable(m', s.m.tail)
    requires GuardsNode(th.pc) ==> Usable(m', th.node)
    requires th.pc.HeadCas? && s.m.head == th.node ==> Usable(m', th.nxt)
    ensures GuardsOk(m', NextRow(s.hazards[t], th), NextThread(s, t, th))
  {
    hide Usable;
  }

  lemma StepKeepsGuards(s: State, slots: nat, t: nat)
    requires CanGo(s, slots, t)
    ensures GuardsOk(NextMemory(s.m, |s.threads|, t, s.threads[t]), NextRow(s.hazards[t], s.threads[t]), NextThread(s, t, s.threads[t]))
  {
    hide RetiredOk, NextThread, NextMemory;
    var m, th := s.m, s.threads[t];
    assert LinkedOk(m, m.head) && LinkedOk(m, m.tail);
    if th.pc.LoadNext? { SuccessorIsNext(m, th.node); }
    if !th.pc.Retiring? {
      if GuardsNode(th.pc) { UsableStays(m, |s.threads|, t, th, th.node); }
      if th.pc.HeadCas? && m.head == th.node { assert LinkedOk(m, th.nxt); UsableStays(m, |s.threads|, t, th, th.nxt); }
      UsableStays(m, |s.threads|, t, th, m.head);
      UsableStays(m, |s.threads|, t, th, m.tail);
    }
    GuardsAdvance(s, NextMemory(m, |s.threads|, t, th), t, th);
  }

  // ---------------------------------------------------------------- guards against scans

  /** A node that is not out of the queue is in no retired list. */
  lemma ListedIsNotMissed(m: Memory, r: nat, slots: nat, th: Thread, t: nat, j: nat, n: Node)
    requires RetiredOk(m, r, slots, th) && n in m.life && m.life[n].Listed?
    ensures Hazards.NotMissed(th.ret, t, j, n)
  {
    if th.ret.cursor.Scanning? && th.ret.cursor.i < |th.ret.list| {
      assert MyOut(m, r, th.ret.list[th.ret.cursor.i]);
    }
  }

  /** The scan of r, one step on, against a thread that stands still. */
  lemma ScanKeepsPair(s: State, slots: nat, t: nat, r: nat)
    requires CanGo(s, slots, r) && t < |s.threads| && t != r
    requires ThreadOk(s.m, s.hazards[t], t, slots, s.threads[t]) && PairOk(t, s.threads[t], s.threads[r].ret)
    ensures PairOk(t, s.threads[t], NextThread(s, r, s.threads[r]).ret)
  {
    var th, rt := s.threads[t], s.threads[r];
    hide KnowsOk, RetiredOk;
    if rt.pc.Retiring? && rt.ret.cursor.Scanning? && !Hazards.Finished(rt.ret) && rt.ret.cursor.k < |s.hazards| {
      var v := s.hazards[rt.ret.cursor.k][rt.ret.cursor.j];
      var n := |s.hazards[rt.ret.cursor.k]|;
      if GuardsNode(th.pc) { Hazards.CompareKeeps(rt.ret, v, n, t, 0, th.node); }
      if th.pc.ReadItem? { Hazards.CompareKeeps(rt.ret, v, n, t, 1, th.nxt); }
    }
  }

  /** A thread that moves keeps an old guard or takes a new one on a node that is in the queue. */
  /** Which guards an own step keeps, and which it takes. */
  lemma GuardsTaken(s: State, t: nat, th: Thread)
    requires t < |s.hazards| && s.m.head != NULL && Safe(s.m, |s.threads|, th) && (th.pc.Retiring? ==> ScanReads(s, th.ret))
    ensures var th' := NextThread(s, t, th);
            && (GuardsNode(th'.pc) ==> th'.node == th.node)
            && (GuardsNode(th'.pc) && !GuardsNode(th.pc) ==>
                  (th.pc.CheckTail? && s.m.tail == th.node) || (th.pc.RecheckHead? && s.m.head == th.node))
            && (th'.pc.ReadItem? ==> th.pc.HeadCas? && s.m.head == th.node && th'.nxt == th.nxt)
            && (GuardsNode(th'.pc) || th'.pc.ReadItem? ==> th'.ret == th.ret)
  {
  }

  /** The guards that are taken are on nodes that are in the queue. */
  lemma TakenAreListed(s: State, slots: nat, t: nat)
    requires CanGo(s, slots, t)
    ensures var m, th := s.m, s.threads[t];
            && m.head != NULL
            && (th.pc.CheckTail? && m.tail == th.node ==> th.node in m.life && m.life[th.node].Listed?)
            && (th.pc.RecheckHead? && m.head == th.node ==> th.node in m.life && m.life[th.node].Listed?)
            && (th.pc.HeadCas? && m.head == th.node ==> th.nxt in m.life && m.life[th.nxt].Listed?)
  {
    var m, th := s.m, s.threads[t];
    assert LinkedOk(m, m.head) && LinkedOk(m, m.tail) && LinkedOk(m, th.nxt);
    hide GuardsOk, RetiredOk;
  }

  lemma GuardKeepsPair(s: State, slots: nat, t: nat, r: nat)
    requires CanGo(s, slots, t) && r < |s.threads|
    requires RetiredOk(s.m, r, slots, s.threads[r]) && PairOk(t, s.threads[t], s.threads[r].ret)
    ensures t != r ==> PairOk(t, NextThread(s, t, s.threads[t]), s.threads[r].ret)
    ensures t == r ==> PairOk(t, NextThread(s, t, s.threads[t]), NextThread(s, t, s.threads[t]).ret)
  {
    var m, th := s.m, s.threads[t];
    TakenAreListed(s, slots, t);
    GuardsTaken(s, t, th);
    hide MemoryOk, ThreadOk, NextThread, Safe, ScanReads;
    if th.pc.CheckTail? && m.tail == th.node { ListedIsNotMissed(m, r, slots, s.threads[r], t, 0, th.node); }
    if th.pc.RecheckHead? && m.head == th.node { ListedIsNotMissed(m, r, slots, s.threads[r], t, 0, th.node); }
    if th.pc.HeadCas? && m.head == th.node { ListedIsNotMissed(m, r, slots, s.threads[r], t, 1, th.nxt); }
    hide RetiredOk, Hazards.NotMissed;
  }

  /** A published and validated node survives the step of any other thread. */
  lemma StepRespectsGuards(s: State, slots: nat, t: nat, r: nat)
    requires CanGo(s, slots, t) && r < |s.threads| && r != t
    requires ThreadOk(s.m, s.hazards[r], r, slots, s.threads[r]) && PairOk(r, s.threads[r], s.threads[t].ret)
    ensures GuardsRespected(NextMemory(s.m, |s.threads|, t, s.threads[t]), s.threads[r])
  {
    var th := s.threads[t];
    hide KnowsOk;
    StepKeepsMemory(s.m, s.hazards[t], |s.threads|, t, slots, th);
    if th.pc.Retiring? && Hazards.DeletesNow(th.ret, |s.threads|) {
      if GuardsNode(s.threads[r].pc) { Hazards.PublishedIsKept(th.ret, |s.threads|, r, 0, s.threads[r].node); }
      if s.threads[r].pc.ReadItem? { Hazards.PublishedIsKept(th.ret, |s.threads|, r, 1, s.threads[r].nxt); }
    }
  }

  // ---------------------------------------------------------------- every step, every run

  lemma AllRows(s: State, slots: nat)
    requires Inv(s, slots)
    ensures forall k | 0 <= k < |s.hazards| :: |s.hazards[k]| == slots
  {
    forall k | 0 <= k < |s.hazards| ensures |s.hazards[k]| == slots {
      assert ThreadOk(s.m, s.hazards[k], k, slots, s.threads[k]);
    }
  }

  lemma GoKeepsThreads(s: State, slots: nat, t: nat, r: nat)
    requires Inv(s, slots) && Enabled(s, Step(t, Go)) && r < |s.threads|
    ensures Safe(s.m, |s.threads|, s.threads[t])
    ensures var s' := Apply(s, Step(t, Go));
            MemoryOk(s'.m) && Evolves(s.m, s'.m, 0, t) && ThreadOk(s'.m, s'.hazards[r], r, slots, s'.threads[r])
  {
    NeverTouchesDead(s, slots, t);
    AllRows(s, slots);
    assert ThreadOk(s.m, s.hazards[t], t, slots, s.threads[t]);
    assert ThreadOk(s.m, s.hazards[r], r, slots, s.threads[r]) && PairOk(r, s.threads[r], s.threads[t].ret);
    hide MemoryOk, Evolves, NextMemory, NextThread, GuardsOk, KnowsOk, RetiredOk, PairOk;
    StepKeepsMemory(s.m, s.hazards[t], |s.threads|, t, slots, s.threads[t]);
    if r == t {
      StepKeepsKnowledge(s, slots, t);
      StepKeepsGuards(s, slots, t);
      StepKeepsRetired(s, slots, t);
    } else {
      StepRespectsGuards(s, slots, t, r);
      OthersStay(s.m, Apply(s, Step(t, Go)).m, t, r, s.hazards[r], slots, s.threads[r]);
    }
  }

  lemma GoKeepsPairs(s: State, slots: nat, x: nat, t: nat, r: nat)
    requires Inv(s, slots) && Enabled(s, Step(x, Go)) && t < |s.threads| && r < |s.threads|
    ensures PairOk(t, Apply(s, Step(x, Go)).threads[t], Apply(s, Step(x, Go)).threads[r].ret)
  {
    NeverTouchesDead(s, slots, x);
    AllRows(s, slots);
    assert ThreadOk(s.m, s.hazards[t], t, slots, s.threads[t]) && PairOk(t, s.threads[t], s.threads[r].ret);
    assert ThreadOk(s.m, s.hazards[r], r, slots, s.threads[r]);
    assert ThreadOk(s.m, s.hazards[x], x, slots, s.threads[x]);
    hide MemoryOk, NextMemory, NextThread, GuardsOk, KnowsOk, RetiredOk, PairOk;
    if t == x { GuardKeepsPair(s, slots, t, r); }
    else if r == x { ScanKeepsPair(s, slots, t, r); }
  }

  lemma CallKeepsInv(s: State, slots: nat, st: Step)
    requires Inv(s, slots) && Enabled(s, st) && !st.a.Go?
    ensures Inv(Apply(s, st), slots)
  {
    var s' := Apply(s, st);
    NothingEvolves(s.m, 0, st.t);
    if st.a.Enqueue? { AllocateKeeps(s.m, 0, st.t, st.a.n); }
    hide MemoryOk, Evolves;
    forall r | 0 <= r < |s'.threads| ensures ThreadOk(s'.m, s'.hazards[r], r, slots, s'.threads[r]) {
      assert ThreadOk(s.m, s.hazards[r], r, slots, s.threads[r]);
      if r != st.t {
        CallRespectsGuards(s, slots, st, r);
        OthersStay(s.m, s'.m, st.t, r, s.hazards[r], slots, s.threads[r]);
      } else {
        CallKeepsThread(s, s', slots, st);
      }
    }
    hide ThreadOk;
    forall t, r | 0 <= t < |s'.threads| && 0 <= r < |s'.threads| ensures PairOk(t, s'.threads[t], s'.threads[r].ret) {
      assert PairOk(t, s.threads[t], s.threads[r].ret);
    }
  }

  lemma CallRespectsGuards(s: State, slots: nat, st: Step, r: nat)
    requires Enabled(s, st) && !st.a.Go? && r < |s.threads| && ThreadOk(s.m, s.hazards[r], r, slots, s.threads[r])
    ensures GuardsRespected(Apply(s, st).m, s.threads[r])
  {
    hide KnowsOk, RetiredOk;
  }

  lemma CallKeepsThread(s: State, s': State, slots: nat, st: Step)
    requires Enabled(s, st) && !st.a.Go? && s' == Apply(s, st)
    requires ThreadOk(s.m, s.hazards[st.t], st.t, slots, s.threads[st.t])
    ensures ThreadOk(s'.m, s'.hazards[st.t], st.t, slots, s'.threads[st.t])
  {
    var th := s.threads[st.t];
    forall i | 0 <= i < |th.ret.list| ensures MyOut(s'.m, st.t, th.ret.list[i]) {
      assert MyOut(s.m, st.t, th.ret.list[i]);
    }
  }

  lemma StepKeepsInv(s: State, slots: nat, st: Step)
    requires Inv(s, slots) && Enabled(s, st)
    ensures Inv(Apply(s, st), slots)
  {
    if st.a.Go? {
      GoKeepsThreads(s, slots, st.t, st.t);
      var s' := Apply(s, st);
      hide ThreadOk, PairOk, MemoryOk, NextMemory, NextThread;
      forall r | 0 <= r < |s'.threads| ensures ThreadOk(s'.m, s'.hazards[r], r, slots, s'.threads[r]) {
        GoKeepsThreads(s, slots, st.t, r);
      }
      forall t, r | 0 <= t < |s'.threads| && 0 <= r < |s'.threads| ensures PairOk(t, s'.threads[t], s'.threads[r].ret) {
        GoKeepsPairs(s, slots, st.t, t, r);
      }
    } else {
      CallKeepsInv(s, slots, st);
    }
  }

  lemma InitInv(s: State, slots: nat)
    requires Init(s, slots)
    ensures Inv(s, slots)
  {
    EmptyOk();
  }

  lemma RunStep(run: seq<State>, steps: seq<Step>, slots: nat, i: nat)
    requires IsRun(run, steps, slots) && i + 1 < |run|
    ensures |run| == |steps| + 1 && Enabled(run[i], steps[i]) && run[i + 1] == Apply(run[i], steps[i])
  {
    assert Follows(run, steps, i);
  }

  lemma {:induction false} RunKeepsInv(run: seq<State>, steps: seq<Step>, slots: nat, i: nat)
    requires IsRun(run, steps, slots) && i < |run|
    ensures Inv(run[i], slots)
  {
    if i == 0 { InitInv(run[0], slots); }
    else {
      hide IsRun, Inv, Apply;
      RunKeepsInv(run, steps, slots, i - 1);
      RunStep(run, steps, slots, i - 1);
      StepKeepsInv(run[i - 1], slots, steps[i - 1]);
    }
  }
}
