/** The invariant of the era queue holds in every run.

    The heart is HeldStays: a node that is covered by a slot, alive, and not passed there by any
    scan stays so through every step of every thread while the slot is unchanged.  Guards are
    taken in two ways: when `get_protected` finds the clock unchanged (CheckHolds, where a node
    retired meanwhile would have moved the clock on before any scan), and for the successor of
    head at the exchange of head (HeadCasHolds, where the node is still in the queue and so in no
    retired list).  The rest follows the step of the thread itself through the memory, the table,
    the eras of the nodes, the places of nodes in the queue and the retired list, and shows for
    the others that their own nodes get no eras from it. */
module EraQueueProofs {
  import opened QueueMemory
  import Eras
  import opened EraQueue

  lemma NeverTouchesDead(s: State, slots: nat, t: nat)
    requires Inv(s, slots) && t < |s.threads|
    ensures Safe(s.m, s.e, s.threads[t])
  {
    var th := s.threads[t];
    assert ThreadOk(s.m, s.e, t, th) && GuardsHeld(s, t);
    assert LinkedOk(s.m, th.node) && LinkedOk(s.m, th.nxt);
    if th.pc.Retiring? {
      var c := th.ret.cursor;
      if c.Stamping? { assert LinkedOk(s.m, c.n) && PrivateOk(s.m, c.n); }
      if c.Scanning? && c.i < |th.ret.list| {
        var n := th.ret.list[c.i];
        assert MyOut(s.m, t, n) && LinkedOk(s.m, n) && PrivateOk(s.m, n);
      }
    }
  }

  // ---------------------------------------------------------------- the step of the thread itself

  /** A step of t that may proceed. */
  ghost predicate CanGo(m: Memory, e: Eras.Table, t: nat, th: Thread) {
    && MemoryOk(m) && Eras.TableOk(e) && EraLives(m, e) && ThreadOk(m, e, t, th) && Safe(m, e, th)
  }

  lemma StepKeepsMemory(m: Memory, e: Eras.Table, t: nat, th: Thread)
    requires CanGo(m, e, t, th)
    ensures MemoryOk(NextMemory(m, e, t, th)) && Evolves(m, NextMemory(m, e, t, th), 0, t)
  {
    hide Evolves, Eras.RetirerOk, ErasKnown, Eras.TableOk, EraLives;
    NothingEvolves(m, 0, t);
    match th.pc
    case LinkCas => if m.next[th.node] == NULL { LinkKeeps(m, 0, t, th.node, th.own); }
    case HelpTail => if m.tail == th.node { SwingKeeps(m, 0, t, th.nxt); }
    case SwingCas => if m.tail == th.node { SwingKeeps(m, 0, t, th.own); }
    case HeadCas => if m.head == th.node { MoveHeadKeeps(m, 0, t, th.nxt); }
    case Retiring =>
      if Eras.DeletesNow(e, th.ret) {
        assert MyOut(m, t, th.ret.list[th.ret.cursor.i]);
        FreeKeeps(m, 0, t, th.ret.list[th.ret.cursor.i]);
      }
    case _ =>
  }

  lemma StampIsNew(m: Memory, e: Eras.Table, t: nat, th: Thread)
    requires RetiredOk(m, e, t, th) && EraLives(m, e) && MemoryOk(m)
    ensures Eras.StampsNew(e, th.ret)
  {
    if th.ret.cursor.Stamping? {
      var n := th.ret.cursor.n;
      assert LifeOk(m, e, n) && PrivateOk(m, n);
    }
  }

  lemma StepKeepsTable(m: Memory, e: Eras.Table, t: nat, th: Thread)
    requires CanGo(m, e, t, th)
    ensures Eras.TableOk(NextTable(e, t, th)) && Eras.Advances(e, NextTable(e, t, th))
  {
    StampIsNew(m, e, t, th);
    hide MemoryOk, Eras.TableOk, Eras.Advances, Eras.RetirerOk, EraLives, RetiredOk, KnowsOk;
    Eras.NothingAdvances(e);
    match th.pc
    case ReadEra => Eras.BornKeeps(e, th.own);
    case StoreTail => Eras.PublishKeeps(e, t, 0, th.era);
    case StoreHead => Eras.PublishKeeps(e, t, 0, th.era);
    case StoreNext => Eras.PublishKeeps(e, t, 1, th.era);
    case ClearEnqueue => Eras.PublishKeeps(e, t, th.c, 0);
    case ClearDequeue => Eras.PublishKeeps(e, t, th.c, 0);
    case ClearEmpty => Eras.PublishKeeps(e, t, th.c, 0);
    case Retiring => Eras.ReclaimKeepsTable(e, th.ret);
    case _ =>
  }

  lemma QuietLife(m: Memory, e: Eras.Table, t: nat, th: Thread, n: Node)
    requires Safe(m, e, th) && KnowsOk(m, t, th) && ErasKnown(e, t, th) && !th.pc.Retiring? && LifeOk(m, e, n)
    requires th.pc.HeadCas? && m.head == th.node ==> m.head !in e.del && m.head in m.life && m.life[m.head].Listed?
    ensures LifeOk(NextMemory(m, e, t, th), NextTable(e, t, th), n)
  {
  }

  lemma ReclaimKeepsLives(m: Memory, e: Eras.Table, t: nat, th: Thread)
    requires CanGo(m, e, t, th) && th.pc.Retiring?
    ensures EraLives(NextMemory(m, e, t, th), NextTable(e, t, th))
  {
    var m', e' := NextMemory(m, e, t, th), NextTable(e, t, th);
    StepKeepsTable(m, e, t, th);
    if Eras.DeletesNow(e, th.ret) {
      assert Eras.EntryOk(e, th.ret, th.ret.cursor.i) && MyOut(m, t, th.ret.list[th.ret.cursor.i]);
    }
    hide MemoryOk, KnowsOk, ErasKnown, Eras.TableOk;
    forall n ensures LifeOk(m', e', n) {
      assert LifeOk(m, e, n) && Eras.NodeAdvances(e, e', n);
    }
  }

  lemma StepKeepsLives(m: Memory, e: Eras.Table, t: nat, th: Thread)
    requires CanGo(m, e, t, th)
    ensures EraLives(NextMemory(m, e, t, th), NextTable(e, t, th))
  {
    if th.pc.Retiring? { ReclaimKeepsLives(m, e, t, th); }
    else {
      assert LinkedOk(m, m.head) && LifeOk(m, e, m.head);
      hide MemoryOk, RetiredOk, Eras.TableOk, NextMemory, NextTable;
      forall n ensures LifeOk(NextMemory(m, e, t, th), NextTable(e, t, th), n) {
        assert LifeOk(m, e, n);
        QuietLife(m, e, t, th, n);
      }
    }
  }

  /** What the thread knows after a step that does not write to the queue. */
  lemma ReadKeepsKnowledge(m: Memory, e: Eras.Table, t: nat, th: Thread)
    requires MemoryOk(m) && KnowsOk(m, t, th) && Safe(m, e, th) && NextMemory(m, e, t, th) == m
    requires !th.pc.SwingCas? && !th.pc.LinkCas?
    ensures KnowsOk(m, t, NextThread(m, e, t, th))
  {
    match th.pc
    case LoadTail => assert LinkedOk(m, m.tail);
    case LoadHead => assert LinkedOk(m, m.head);
    case ReadNext => SuccessorIsNext(m, th.node);
    case LoadNext => SuccessorIsNext(m, th.node); assert LinkedOk(m, NULL);
    case _ => hide MemoryOk;
  }

  lemma LinkKeepsKnowledge(m: Memory, e: Eras.Table, t: nat, th: Thread)
    requires MemoryOk(m) && KnowsOk(m, t, th) && Safe(m, e, th) && th.pc.LinkCas?
    ensures KnowsOk(NextMemory(m, e, t, th), t, NextThread(m, e, t, th))
  {
    if m.next[th.node] == NULL {
      assert PrivateOk(m, th.own) && LinkedOk(m, th.own);
      LinkKeeps(m, 0, t, th.node, th.own);
    }
    hide MemoryOk, Evolves;
  }

  lemma SwingKeepsKnowledge(m: Memory, t: nat, th: Thread)
    requires MemoryOk(m) && KnowsOk(m, t, th) && th.pc.SwingCas?
    ensures KnowsOk(if m.tail == th.node then SwingTail(m, th.own) else m, t, th.(pc := ClearEnqueue, c := 0))
  {
    hide LinkedOk, PrivateOk;
  }

  lemma StepKeepsKnowledge(m: Memory, e: Eras.Table, t: nat, th: Thread)
    requires CanGo(m, e, t, th)
    ensures KnowsOk(NextMemory(m, e, t, th), t, NextThread(m, e, t, th))
  {
    hide RetiredOk, Eras.TableOk, EraLives, ErasKnown, MemoryOk;
    match th.pc
    case LinkCas => hide KnowsOk; LinkKeepsKnowledge(m, e, t, th);
    case SwingCas => hide KnowsOk; SwingKeepsKnowledge(m, t, th);
    case HelpTail =>
    case HeadCas =>
    case Retiring =>
    case _ => hide KnowsOk; ReadKeepsKnowledge(m, e, t, th);
  }

  lemma StepKeepsEras(m: Memory, e: Eras.Table, t: nat, th: Thread)
    requires CanGo(m, e, t, th)
    ensures ErasKnown(NextTable(e, t, th), t, NextThread(m, e, t, th))
  {
    var e' := NextTable(e, t, th);
    assert LifeOk(m, e, m.head) && LifeOk(m, e, m.tail) && LinkedOk(m, m.head) && LinkedOk(m, m.tail);
    if th.pc.LoadNext? { SuccessorIsNext(m, th.node); assert LifeOk(m, e, m.next[th.node]); }
    assert Enqueuing(th.pc) ==> LifeOk(m, e, th.own);
    StepKeepsTable(m, e, t, th);
    assert Eras.NodeAdvances(e, e', th.own);
    assert forall j :: Eras.EraOf(e, t, j) <= e.clock;
    hide MemoryOk, RetiredOk, EraLives, Eras.Advances, LinkedOk, Eras.ReclaimTable;
    assert KnowsOk(m, t, th) && ErasKnown(e, t, th);
    EraStep(m, e, t, th);
  }

  lemma EraStep(m: Memory, e: Eras.Table, t: nat, th: Thread)
    requires ErasKnown(e, t, th) && Safe(m, e, th) && Eras.TableOk(e)
    requires Enqueuing(th.pc) ==> th.own in e.birth || th.pc.ReadEra?
    requires Eras.Loaded(e, t, 0, m.head) && Eras.Loaded(e, t, 0, m.tail)
    requires th.pc.LoadNext? ==> m.next[th.node] in e.birth
    ensures ErasKnown(NextTable(e, t, th), t, NextThread(m, e, t, th))
  {
    EraArrivals(m, e, t, th);
    OwnArrives(m, e, t, th);
    if EraReads(th.pc) { ReadsOnly(e, t, th); }
    assert th.pc.CheckNext? ==> th.nxt in e.birth && e.birth[th.nxt] <= e.clock;
    hide NextThread, NextTable, Eras.TableOk, Eras.Loaded, Eras.EraOf, Safe;
  }

  predicate EraReads(pc: Pc) {
    pc.LoadTail? || pc.LoadHead? || pc.LoadNext? || pc.CheckTail? || pc.CheckHead? || pc.CheckNext?
  }

  lemma ReadsOnly(e: Eras.Table, t: nat, th: Thread)
    requires EraReads(th.pc)
    ensures NextTable(e, t, th) == e
  {
  }

  /** From where a thread comes to the steps of `get_protected`, and to the exchange of head. */
  lemma EraArrivals(m: Memory, e: Eras.Table, t: nat, th: Thread)
    requires Safe(m, e, th)
    ensures var th' := NextThread(m, e, t, th);
            && (th'.pc.CheckTail? ==> th.pc.LoadTail? && th'.node == m.tail)
            && (th'.pc.CheckHead? ==> th.pc.LoadHead? && th'.node == m.head)
            && (th'.pc.CheckNext? ==> th.pc.LoadNext? && th'.nxt == m.next[th.node])
            && (th'.pc.HeadCas? ==> th.pc.CheckNext? && th'.nxt == th.nxt && e.clock == Eras.EraOf(e, t, 1))
            && (th'.pc.StoreTail? || th'.pc.StoreHead? || th'.pc.StoreNext? ==>
                  (th.pc.CheckTail? || th.pc.CheckHead? || th.pc.CheckNext?) && th'.era == e.clock)
  {
  }

  lemma OwnArrives(m: Memory, e: Eras.Table, t: nat, th: Thread)
    requires Safe(m, e, th) && ErasKnown(e, t, th)
    ensures var th', e' := NextThread(m, e, t, th), NextTable(e, t, th);
            Enqueuing(th'.pc) ==> !th'.pc.ReadEra? && th'.own in e'.birth && th'.own !in e'.del
  {
  }

  /** The node that is stamped joins the list, the one that is deleted leaves it. */
  lemma ReclaimKeepsMine(m: Memory, e: Eras.Table, t: nat, th: Thread)
    requires Safe(m, e, th) && th.pc.Retiring? && Eras.RetirerOk(e, th.ret)
    requires forall i {:trigger th.ret.list[i]} | 0 <= i < |th.ret.list| :: MyOut(m, t, th.ret.list[i])
    requires th.ret.cursor.Stamping? ==> MyOut(m, t, th.ret.cursor.n)
    ensures var list, m' := Eras.Reclaim(e, th.ret).list, NextMemory(m, e, t, th);
            forall k {:trigger list[k]} | 0 <= k < |list| :: MyOut(m', t, list[k])
  {
    var m', list := NextMemory(m, e, t, th), Eras.Reclaim(e, th.ret).list;
    forall k | 0 <= k < |list| ensures MyOut(m', t, list[k]) {
      if Eras.DeletesNow(e, th.ret) {
        assert MyOut(m, t, th.ret.list[if k < th.ret.cursor.i then k else k + 1]);
      } else if k < |th.ret.list| {
        assert MyOut(m, t, th.ret.list[k]);
      }
    }
  }

  lemma ReclaimKeepsRetired(m: Memory, e: Eras.Table, t: nat, th: Thread)
    requires CanGo(m, e, t, th) && th.pc.Retiring?
    ensures RetiredOk(NextMemory(m, e, t, th), NextTable(e, t, th), t, NextThread(m, e, t, th))
  {
    StampIsNew(m, e, t, th);
    hide MemoryOk, KnowsOk, EraLives, ErasKnown;
    ReclaimKeepsMine(m, e, t, th);
    Eras.ReclaimKeepsRetirer(e, th.ret);
    hide NextMemory, Eras.RetirerOk, Eras.TableOk;
  }

  lemma RetirerAdvances(m: Memory, e: Eras.Table, t: nat, th: Thread)
    requires Safe(m, e, th) && !th.pc.Retiring? && th.ret.cursor.Resting?
    ensures var th' := NextThread(m, e, t, th);
            && th'.ret == th.ret.(cursor := if th.pc.ReadItem? then Eras.Stamping(th.node) else Eras.Resting)
            && (th'.pc.Retiring? <==> th.pc.ReadItem?)
            && (th'.pc.ReadItem? ==> th.pc.HeadCas? && m.head == th.node && th'.node == th.node)
    ensures NextTable(e, t, th).del == e.del
    ensures th.pc.HeadCas? && m.head == th.node ==> NextMemory(m, e, t, th) == MoveHead(m, th.nxt, 0, t)
    ensures th.pc.ReadItem? ==> NextMemory(m, e, t, th) == m
  {
  }

  lemma QuietKeepsRetired(m: Memory, e: Eras.Table, t: nat, th: Thread)
    requires CanGo(m, e, t, th) && !th.pc.Retiring?
    ensures RetiredOk(NextMemory(m, e, t, th), NextTable(e, t, th), t, NextThread(m, e, t, th))
  {
    var m', e', th' := NextMemory(m, e, t, th), NextTable(e, t, th), NextThread(m, e, t, th);
    StepKeepsMemory(m, e, t, th);
    StepKeepsTable(m, e, t, th);
    RetirerAdvances(m, e, t, th);
    assert LinkedOk(m, m.head) && LifeOk(m, e, m.head);
    hide NextMemory, NextTable, NextThread, MemoryOk, EraLives, Eras.TableOk, ErasKnown, KnowsOk;
    HeadIsNotRetired(m, t, th);
    Eras.RetirerStays(e, e', th.ret);
    forall i | 0 <= i < |th.ret.list| ensures MyOut(m', t, th.ret.list[i]) {
      assert MyOut(m, t, th.ret.list[i]) && NodeEvolves(m, m', 0, t, th.ret.list[i]);
      NoneFreed(m, e, t, th, th.ret.list[i]);
    }
    hide Evolves, Eras.Advances;
    forall i: nat ensures Eras.EntryOk(e', th'.ret, i) { assert Eras.EntryOk(e', th.ret, i); }
  }

  lemma NoneFreed(m: Memory, e: Eras.Table, t: nat, th: Thread, n: Node)
    requires MyOut(m, t, n) && Safe(m, e, th) && !th.pc.Retiring?
    requires th.pc.LinkCas? ==> th.own in m.life && m.life[th.own].Private?
    requires th.pc.HeadCas? && m.head == th.node ==> m.head in m.life && m.life[m.head].Listed?
    ensures MyOut(NextMemory(m, e, t, th), t, n)
  {
  }

  lemma StepKeepsRetired(m: Memory, e: Eras.Table, t: nat, th: Thread)
    requires CanGo(m, e, t, th)
    ensures RetiredOk(NextMemory(m, e, t, th), NextTable(e, t, th), t, NextThread(m, e, t, th))
  {
    hide CanGo;
    if th.pc.Retiring? { ReclaimKeepsRetired(m, e, t, th); } else { QuietKeepsRetired(m, e, t, th); }
  }

  lemma HeadIsNotRetired(m: Memory, t: nat, th: Thread)
    requires forall i {:trigger th.ret.list[i]} | 0 <= i < |th.ret.list| :: MyOut(m, t, th.ret.list[i])
    ensures m.head in m.life && m.life[m.head].Listed? ==> m.head !in th.ret.list
  {
    forall i | 0 <= i < |th.ret.list| && th.ret.list[i] == m.head ensures MyOut(m, t, m.head) {
      assert MyOut(m, t, th.ret.list[i]);
    }
  }

  // ---------------------------------------------------------------- era containment

  lemma CanGoFromInv(s: State, slots: nat, t: nat)
    requires Inv(s, slots) && Enabled(s, Step(t, Go))
    ensures CanGo(s.m, s.e, t, s.threads[t]) && Apply(s, Step(t, Go)).m == NextMemory(s.m, s.e, t, s.threads[t])
    ensures Apply(s, Step(t, Go)).e == NextTable(s.e, t, s.threads[t])
    ensures forall r | 0 <= r < |s.threads| ::
              Apply(s, Step(t, Go)).threads[r] == if r == t then NextThread(s.m, s.e, t, s.threads[t]) else s.threads[r]
    ensures !Apply(s, Step(t, Go)).crashed && |Apply(s, Step(t, Go)).threads| == |s.threads|
  {
    NeverTouchesDead(s, slots, t);
    assert ThreadOk(s.m, s.e, t, s.threads[t]);
    hide MemoryOk, NextMemory, NextThread, NextTable, ThreadOk, Safe;
  }

  lemma UsableStays(m: Memory, e: Eras.Table, t: nat, th: Thread, n: Node)
    requires CanGo(m, e, t, th) && Usable(m, n)
    requires Eras.DeletesNow(e, th.ret) ==> th.ret.list[th.ret.cursor.i] != n
    ensures Usable(NextMemory(m, e, t, th), n)
  {
    assert PrivateOk(m, th.own) && LinkedOk(m, th.own);
    hide EraLives, Eras.TableOk, RetiredOk, ErasKnown;
  }

  lemma OneScan(m: Memory, e: Eras.Table, t: nat, th: Thread, k: nat, j: nat, n: Node)
    requires RetiredOk(m, e, t, th) && Safe(m, e, th) && Eras.Covered(e, k, j, n) && Eras.NotMissed(th.ret, k, j, n)
    ensures Eras.NotMissed(NextThread(m, e, t, th).ret, k, j, n)
  {
    hide Eras.Covered, Eras.RetirerOk;
    if th.pc.Retiring? { Eras.ReclaimNotMissed(e, th.ret, k, j, n); }
  }

  /** A node that is held stays held while its slot is unchanged: it is not deleted, whatever
      any thread does. */
  lemma HeldStays(s: State, slots: nat, x: nat, t: nat, j: nat, n: Node)
    requires Inv(s, slots) && Enabled(s, Step(x, Go)) && Held(s, t, j, n)
    requires Rows(Apply(s, Step(x, Go)).e, slots)
    requires Eras.EraOf(Apply(s, Step(x, Go)).e, t, j) == Eras.EraOf(s.e, t, j)
    ensures Held(Apply(s, Step(x, Go)), t, j, n)
  {
    CanGoFromInv(s, slots, x);
    var s', th := Apply(s, Step(x, Go)), s.threads[x];
    StepKeepsTable(s.m, s.e, x, th);
    if Eras.DeletesNow(s.e, th.ret) { Eras.CoveredIsKept(s.e, th.ret, t, j, n); }
    UsableStays(s.m, s.e, x, th, n);
    Eras.CoveredStays(s.e, s'.e, t, j, n);
    hide NextMemory, NextThread, NextTable, MemoryOk, EraLives, Eras.TableOk, Eras.Advances, Eras.Covered, Apply, KnowsOk, ErasKnown;
    forall r | 0 <= r < |s'.threads| ensures Eras.NotMissed(s'.threads[r].ret, t, j, n) {
      if r == x { OneScan(s.m, s.e, x, th, t, j, n); }
    }
  }

  /** When the clock still shows the era in the slot, the node that was loaded is held. */
  lemma CheckHolds(s: State, slots: nat, t: nat, j: nat, n: Node)
    requires Inv(s, slots) && t < |s.threads| && j < slots && n in s.m.pos
    requires Eras.Loaded(s.e, t, j, n) && Eras.EraOf(s.e, t, j) == s.e.clock
    ensures Held(s, t, j, n)
  {
    assert LifeOk(s.m, s.e, n) && LinkedOk(s.m, n);
    assert ThreadOk(s.m, s.e, t, s.threads[t]);
    Eras.CheckProtects(s.e, t, j, n, s.threads[t].ret);
    hide MemoryOk, EraLives, KnowsOk, ErasKnown, Eras.TableOk;
    forall r | 0 <= r < |s.threads| ensures Eras.NotMissed(s.threads[r].ret, t, j, n) {
      assert ThreadOk(s.m, s.e, r, s.threads[r]);
      Eras.CheckProtects(s.e, t, j, n, s.threads[r].ret);
    }
  }

  /** A node that is in the queue is in no retired list. */
  lemma ListedHolds(s: State, slots: nat, t: nat, j: nat, n: Node)
    requires Inv(s, slots) && t < |s.threads| && n in s.m.pos && n in s.m.life && s.m.life[n].Listed?
    requires Eras.Covered(s.e, t, j, n)
    ensures Held(s, t, j, n)
  {
    forall r | 0 <= r < |s.threads| ensures Eras.NotMissed(s.threads[r].ret, t, j, n) {
      assert ThreadOk(s.m, s.e, r, s.threads[r]);
      var c := s.threads[r].ret.cursor;
      if c.Scanning? && c.i < |s.threads[r].ret.list| { assert MyOut(s.m, r, s.threads[r].ret.list[c.i]); }
    }
  }

  lemma RowsStay(e: Eras.Table, t: nat, th: Thread, slots: nat)
    requires Rows(e, slots)
    ensures Rows(NextTable(e, t, th), slots) && |NextTable(e, t, th).rows| == |e.rows|
    ensures forall k, j | k != t :: Eras.EraOf(NextTable(e, t, th), k, j) == Eras.EraOf(e, k, j)
    ensures GuardsNode(th.pc) ==> Eras.EraOf(NextTable(e, t, th), t, 0) == Eras.EraOf(e, t, 0)
    ensures th.pc.CheckTail? || th.pc.CheckHead? || th.pc.HeadCas? ==> NextTable(e, t, th) == e
  {
  }

  lemma OtherGuards(s: State, slots: nat, x: nat, t: nat)
    requires Inv(s, slots) && Enabled(s, Step(x, Go)) && t < |s.threads| && t != x
    ensures t < |Apply(s, Step(x, Go)).threads| && GuardsHeld(Apply(s, Step(x, Go)), t)
  {
    CanGoFromInv(s, slots, x);
    RowsStay(s.e, x, s.threads[x], slots);
    assert GuardsHeld(s, t);
    var th := s.threads[t];
    hide Inv, Apply, Held, NextTable, NextMemory, NextThread, MemoryOk;
    if GuardsNode(th.pc) { HeldStays(s, slots, x, t, 0, th.node); }
    if th.pc.ReadItem? { HeldStays(s, slots, x, t, 1, th.nxt); }
  }

  /** Which guards a step of the thread itself leaves, and which it takes. */
  lemma GuardsAdvance(m: Memory, e: Eras.Table, t: nat, th: Thread)
    requires Safe(m, e, th)
    ensures var th' := NextThread(m, e, t, th);
            && (GuardsNode(th'.pc) ==> th'.node == th.node)
            && (GuardsNode(th'.pc) && !GuardsNode(th.pc) ==>
                  (th.pc.CheckTail? || th.pc.CheckHead?) && e.clock == Eras.EraOf(e, t, 0))
    ensures var th' := NextThread(m, e, t, th);
            th'.pc.ReadItem? ==> th.pc.HeadCas? && m.head == th.node && th'.nxt == th.nxt
  {
  }

  lemma HeadCasHolds(s: State, slots: nat, t: nat)
    requires Inv(s, slots) && Enabled(s, Step(t, Go)) && s.threads[t].pc.HeadCas? && s.m.head == s.threads[t].node
    ensures Held(s, t, 1, s.threads[t].nxt)
  {
    var th := s.threads[t];
    assert ThreadOk(s.m, s.e, t, th) && LinkedOk(s.m, th.nxt) && LinkedOk(s.m, th.node) && LifeOk(s.m, s.e, th.nxt);
    ListedHolds(s, slots, t, 1, th.nxt);
  }

  lemma MyGuards(s: State, slots: nat, t: nat)
    requires Inv(s, slots) && Enabled(s, Step(t, Go))
    ensures t < |Apply(s, Step(t, Go)).threads| && GuardsHeld(Apply(s, Step(t, Go)), t)
  {
    CanGoFromInv(s, slots, t);
    var th := s.threads[t];
    var th' := Apply(s, Step(t, Go)).threads[t];
    RowsStay(s.e, t, th, slots);
    GuardsAdvance(s.m, s.e, t, th);
    assert GuardsHeld(s, t) && ThreadOk(s.m, s.e, t, th);
    hide Inv, Apply, Held, NextTable, NextMemory, NextThread, MemoryOk, RetiredOk, EraLives, Eras.TableOk, Eras.Loaded;
    if GuardsNode(th'.pc) {
      if !GuardsNode(th.pc) { CheckHolds(s, slots, t, 0, th.node); }
      HeldStays(s, slots, t, t, 0, th.node);
    }
    if th'.pc.ReadItem? {
      HeadCasHolds(s, slots, t);
      HeldStays(s, slots, t, t, 1, th.nxt);
    }
  }

  // ---------------------------------------------------------------- every step, every run

  lemma OthersStay(m: Memory, m': Memory, e: Eras.Table, e': Eras.Table, t: nat, r: nat, th: Thread)
    requires Evolves(m, m', 0, t) && Eras.TableOk(e) && Eras.Advances(e, e') && r != t
    requires ThreadOk(m, e, r, th) && (Enqueuing(th.pc) ==> (th.own in e'.birth <==> th.own in e.birth))
    requires forall j :: Eras.EraOf(e', r, j) == Eras.EraOf(e, r, j)
    requires forall n | MyOut(m, r, n) && n in e'.del :: n in e.del
    requires Enqueuing(th.pc) ==> th.own !in e'.del
    ensures ThreadOk(m', e', r, th)
  {
    assert NodeEvolves(m, m', 0, t, th.node) && NodeEvolves(m, m', 0, t, th.nxt) && NodeEvolves(m, m', 0, t, th.own);
    assert Eras.NodeAdvances(e, e', th.node) && Eras.NodeAdvances(e, e', th.nxt);
    if th.ret.cursor.Stamping? { assert NodeEvolves(m, m', 0, t, th.ret.cursor.n); }
    if th.pc.CheckTail? || th.pc.CheckHead? { Eras.LoadedStays(e, e', r, 0, th.node); }
    Eras.RetirerStays(e, e', th.ret);
    forall i | 0 <= i < |th.ret.list| ensures MyOut(m', r, th.ret.list[i]) {
      assert MyOut(m, r, th.ret.list[i]) && NodeEvolves(m, m', 0, t, th.ret.list[i]);
    }
    hide Eras.RetirerOk, Eras.Advances, Eras.TableOk;
    AtStays(m, m', t, th);
  }

  lemma AtStays(m: Memory, m': Memory, t: nat, th: Thread)
    requires Evolves(m, m', 0, t)
    ensures At(m, th.node, PosOf(m, th.node)) ==> At(m', th.node, PosOf(m', th.node)) && PosOf(m', th.node) == PosOf(m, th.node)
    ensures At(m, th.nxt, PosOf(m, th.node) + 1) ==> At(m', th.nxt, PosOf(m, th.node) + 1)
    ensures At(m, th.own, PosOf(m, th.node) + 1) ==> At(m', th.own, PosOf(m, th.node) + 1)
  {
    assert NodeEvolves(m, m', 0, t, th.node) && NodeEvolves(m, m', 0, t, th.nxt) && NodeEvolves(m, m', 0, t, th.own);
  }

  /** What a step of t adds to the eras of nodes concerns its own nodes only. */
  lemma OnlyMyEras(m: Memory, e: Eras.Table, t: nat, th: Thread, r: nat, n: Node)
    requires CanGo(m, e, t, th) && r != t
    requires n in m.life && ((m.life[n].Out? && m.life[n].owner == r) || m.life[n] == Private(r))
    ensures n in NextTable(e, t, th).del ==> n in e.del
    ensures n in NextTable(e, t, th).birth ==> n in e.birth
  {
    hide MemoryOk, Eras.TableOk, EraLives, Eras.RetirerOk;
  }

  lemma GoKeepsOther(s: State, slots: nat, t: nat, r: nat)
    requires Inv(s, slots) && Enabled(s, Step(t, Go)) && r < |s.threads| && r != t
    ensures var s' := Apply(s, Step(t, Go)); r < |s'.threads| && ThreadOk(s'.m, s'.e, r, s'.threads[r])
  {
    CanGoFromInv(s, slots, t);
    var th, x := s.threads[r], s.threads[t];
    assert ThreadOk(s.m, s.e, r, th);
    StepKeepsMemory(s.m, s.e, t, x);
    StepKeepsTable(s.m, s.e, t, x);
    RowsStay(s.e, t, x, slots);
    var e' := NextTable(s.e, t, x);
    assert Eras.NodeAdvances(s.e, e', th.own);
    hide Inv, Apply, NextTable, NextMemory, NextThread, MemoryOk, EraLives, Eras.TableOk, Eras.Advances, Evolves, Eras.RetirerOk;
    if Enqueuing(th.pc) { OnlyMyEras(s.m, s.e, t, x, r, th.own); }
    forall n | MyOut(s.m, r, n) && n in e'.del ensures n in s.e.del { OnlyMyEras(s.m, s.e, t, x, r, n); }
    OthersStay(s.m, NextMemory(s.m, s.e, t, x), s.e, e', t, r, th);
  }

  lemma GoKeepsMine(s: State, slots: nat, t: nat)
    requires Inv(s, slots) && Enabled(s, Step(t, Go))
    ensures var s' := Apply(s, Step(t, Go));
            && t < |s'.threads| && ThreadOk(s'.m, s'.e, t, s'.threads[t])
            && MemoryOk(s'.m) && Eras.TableOk(s'.e) && EraLives(s'.m, s'.e) && Rows(s'.e, slots)
            && |s'.e.rows| == |s'.threads| == |s.threads| && !s'.crashed
            && Evolves(s.m, s'.m, 0, t) && Eras.Advances(s.e, s'.e)
  {
    CanGoFromInv(s, slots, t);
    var th := s.threads[t];
    RowsStay(s.e, t, th, slots);
    hide Apply, NextTable, NextMemory, NextThread, CanGo, MemoryOk, EraLives, Eras.TableOk, Eras.Advances, Evolves, KnowsOk, ErasKnown, RetiredOk, Rows;
    StepKeepsMemory(s.m, s.e, t, th);
    StepKeepsTable(s.m, s.e, t, th);
    StepKeepsLives(s.m, s.e, t, th);
    StepKeepsKnowledge(s.m, s.e, t, th);
    StepKeepsEras(s.m, s.e, t, th);
    StepKeepsRetired(s.m, s.e, t, th);
  }

  lemma GoKeepsInv(s: State, slots: nat, t: nat)
    requires Inv(s, slots) && Enabled(s, Step(t, Go))
    ensures Inv(Apply(s, Step(t, Go)), slots)
  {
    GoKeepsMine(s, slots, t);
    var s' := Apply(s, Step(t, Go));
    assert slots >= 2;
    hide ThreadOk, GuardsHeld, MemoryOk, EraLives, Eras.TableOk, Rows, Apply;
    forall r | 0 <= r < |s'.threads| ensures ThreadOk(s'.m, s'.e, r, s'.threads[r]) {
      if r != t { GoKeepsOther(s, slots, t, r); }
    }
    forall r | 0 <= r < |s'.threads| ensures GuardsHeld(s', r) {
      if r == t { MyGuards(s, slots, t); } else { OtherGuards(s, slots, t, r); }
    }
  }

  lemma CallThread(s: State, slots: nat, st: Step, r: nat)
    requires Inv(s, slots) && Enabled(s, st) && !st.a.Go? && r < |s.threads|
    requires Evolves(s.m, Apply(s, st).m, 0, st.t)
    ensures var s' := Apply(s, st); ThreadOk(s'.m, s'.e, r, s'.threads[r])
  {
    var s', th := Apply(s, st), s.threads[r];
    assert ThreadOk(s.m, s.e, r, th);
    if st.a.Enqueue? { assert LifeOk(s.m, s.e, st.a.n); }
    assert Eras.TableOk(s.e);
    hide Inv, Evolves, Eras.TableOk;
    if r != st.t {
      hide Apply, ThreadOk;
      Eras.NothingAdvances(s.e);
      CallOthers(s, st, r);
      OthersStay(s.m, s'.m, s.e, s.e, st.t, r, th);
    } else {
      forall i | 0 <= i < |th.ret.list| ensures MyOut(s'.m, r, th.ret.list[i]) { assert MyOut(s.m, r, th.ret.list[i]); }
    }
  }

  lemma CallOthers(s: State, st: Step, r: nat)
    requires Enabled(s, st) && !st.a.Go? && r < |s.threads| && ThreadOk(s.m, s.e, r, s.threads[r])
    ensures r != st.t ==> Apply(s, st).threads[r] == s.threads[r] && Apply(s, st).e == s.e
    ensures Enqueuing(s.threads[r].pc) ==> s.threads[r].own !in s.e.del
  {
  }

  lemma CallGuards(s: State, slots: nat, st: Step, r: nat)
    requires Inv(s, slots) && Enabled(s, st) && !st.a.Go? && r < |s.threads|
    requires Evolves(s.m, Apply(s, st).m, 0, st.t)
    ensures GuardsHeld(Apply(s, st), r)
  {
    var s', th := Apply(s, st), s.threads[r];
    assert GuardsHeld(s, r);
    assert NodeEvolves(s.m, s'.m, 0, st.t, th.node) && NodeEvolves(s.m, s'.m, 0, st.t, th.nxt);
    hide Inv, Evolves;
  }

  lemma CallKeepsInv(s: State, slots: nat, st: Step)
    requires Inv(s, slots) && Enabled(s, st) && !st.a.Go?
    ensures Inv(Apply(s, st), slots) && Evolves(s.m, Apply(s, st).m, 0, st.t)
  {
    var s' := Apply(s, st);
    NothingEvolves(s.m, 0, st.t);
    if st.a.Enqueue? { AllocateKeeps(s.m, 0, st.t, st.a.n); assert LinkedOk(s.m, st.a.n); }
    forall n ensures LifeOk(s'.m, s'.e, n) { assert LifeOk(s.m, s.e, n); }
    forall r | 0 <= r < |s'.threads| ensures ThreadOk(s'.m, s'.e, r, s'.threads[r]) && GuardsHeld(s', r) {
      CallThread(s, slots, st, r);
      CallGuards(s, slots, st, r);
    }
  }

  lemma StepKeepsInv(s: State, slots: nat, st: Step)
    requires Inv(s, slots) && Enabled(s, st)
    ensures Inv(Apply(s, st), slots)
  {
    hide Inv;
    if st.a.Go? { GoKeepsInv(s, slots, st.t); } else { CallKeepsInv(s, slots, st); }
  }

  lemma InitInv(s: State, slots: nat)
    requires Init(s, slots)
    ensures Inv(s, slots)
  {
    EmptyOk();
    forall t, j ensures Eras.EraOf(s.e, t, j) <= s.e.clock {}
    forall n ensures LifeOk(s.m, s.e, n) {}
  }

  lemma RunStep(run: seq<State>, steps: seq<Step>, slots: nat, i: nat)
    requires IsRun(run, steps, slots) && i + 1 < |run|
    ensures |run| == |steps| + 1 && Enabled(run[i], steps[i]) && run[i + 1] == Apply(run[i], steps[i])
  {
    assert Follows(run, steps, i);
  }

  lemma {:induction false} RunKeepsInv(run: seq<State>, steps: seq<Step>, slots: nat, i: nat)
    requires IsRun(run, steps, slots) && i < |run|
    ensures Inv(run[i], slots)
  {
    if i == 0 { InitInv(run[0], slots); }
    else {
      hide IsRun, Inv, Apply;
      RunKeepsInv(run, steps, slots, i - 1);
      RunStep(run, steps, slots, i - 1);
      StepKeepsInv(run[i - 1], slots, steps[i - 1]);
    }
  }
}
