/** Each step of the era list, seen from the thread that makes it.

    The memory is in order again: an unmarked link that is not private belongs to a node in the
    list, so the place of a successful exchange is in the list, and the node that it takes out
    has no other link to it.  The table is in order again: what is published is the era of the
    clock or a copy of another slot.  The eras of nodes fit to their lives: what has been in the
    list has a birth era, what is retired is out of the list, and what is deleted was retired in
    an era that is over.  And the thread goes on to know what it should: of links, of the eras of
    the nodes it has just loaded, and of its retired nodes. */
module EraListProofs {
  import opened EraListMemory
  import Eras
  import opened EraList

  lemma NeverTouchesDead(s: State, slots: nat, t: nat)
    requires Inv(s, slots) && t < |s.threads|
    ensures Safe(s.m, s.threads[t])
  {
    var th := s.threads[t];
    assert ThreadOk(s.m, s.e, t, th) && GuardsHeld(s, t);
    assert NodeOk(s.m, HEAD);
    if th.op.Add? { assert NodeOk(s.m, th.op.own); }
    if Reclaiming(th.pc) {
      var c := th.ret.cursor;
      if c.Stamping? { assert NodeOk(s.m, c.n); }
      if c.Scanning? && c.i < |th.ret.list| { assert MyOut(s.m, t, th.ret.list[c.i]) && NodeOk(s.m, th.ret.list[c.i]); }
    }
    hide Eras.TableOk, Eras.RetirerOk, EraLives;
  }

  // ---------------------------------------------------------------- the step of the thread itself

  /** A step of t that may proceed.  Its guards count as far as they say what is in the list. */
  ghost predicate CanGo(m: Memory, e: Eras.Table, t: nat, th: Thread) {
    && MemoryOk(m) && Eras.TableOk(e) && EraLives(m, e) && ThreadOk(m, e, t, th) && Safe(m, th)
    && (UsesPred(th.pc) && th.pred != HEAD ==> Usable(m, th.pred))
    && (UsesCurr(th.pc) ==> Usable(m, th.curr) && th.curr != HEAD)
  }

  /** A link that is not marked and is not private belongs to a node in the list. */
  lemma UnmarkedIsListed(m: Memory, n: Node)
    requires MemoryOk(m) && (n == HEAD || Usable(m, n)) && n in m.link && !m.link[n].marked
    ensures IsListed(m, n) && IsListed(m, m.link[n].to) && m.link[n].to != HEAD
  {
    assert NodeOk(m, n);
  }

  lemma StepKeepsMemory(m: Memory, e: Eras.Table, t: nat, th: Thread)
    requires CanGo(m, e, t, th)
    ensures MemoryOk(NextMemory(m, e, t, th)) && Evolves(m, NextMemory(m, e, t, th), t)
  {
    hide Evolves, Eras.RetirerOk, ErasKnown, Eras.TableOk, EraLives;
    NothingEvolves(m, t);
    match th.pc
    case UnlinkCas => if m.link[th.pred] == Link(th.curr, false) { UnmarkedIsListed(m, th.pred); UnlinkKeeps(m, t, th.pred, th.curr); }
    case UnlinkOwn => if m.link[th.pred] == Link(th.curr, false) { UnmarkedIsListed(m, th.pred); UnlinkKeeps(m, t, th.pred, th.curr); }
    case DeleteOwn => DiscardKeeps(m, t, th.op.own);
    case StoreNextOwn => StoreOwnKeeps(m, t, th.op.own, th.curr);
    case LinkCas => if m.link[th.pred] == Link(th.curr, false) { UnmarkedIsListed(m, th.pred); LinkInKeeps(m, t, th.pred, th.op.own); }
    case MarkCas => if m.link[th.curr] == Link(th.nxt.to, false) { MarkOutKeeps(m, t, th.curr); }
    case Unlinking => FreeStep(m, e, t, th);
    case Retiring => FreeStep(m, e, t, th);
    case _ =>
  }

  lemma FreeStep(m: Memory, e: Eras.Table, t: nat, th: Thread)
    requires MemoryOk(m) && RetiredOk(m, e, t, th) && Safe(m, th) && Reclaiming(th.pc)
    ensures MemoryOk(NextMemory(m, e, t, th)) && Evolves(m, NextMemory(m, e, t, th), t)
  {
    NothingEvolves(m, t);
    if Eras.DeletesNow(e, th.ret) {
      assert MyOut(m, t, th.ret.list[th.ret.cursor.i]);
      FreeKeeps(m, t, th.ret.list[th.ret.cursor.i]);
    }
  }

  lemma StampIsNew(m: Memory, e: Eras.Table, t: nat, th: Thread)
    requires RetiredOk(m, e, t, th) && EraLives(m, e) && MemoryOk(m)
    ensures Eras.StampsNew(e, th.ret)
  {
    if th.ret.cursor.Stamping? {
      var n := th.ret.cursor.n;
      assert LifeOk(m, e, n) && NodeOk(m, n);
    }
  }

  lemma StepKeepsTable(m: Memory, e: Eras.Table, t: nat, th: Thread)
    requires CanGo(m, e, t, th)
    ensures Eras.TableOk(NextTable(e, t, th)) && Eras.Advances(e, NextTable(e, t, th))
  {
    StampIsNew(m, e, t, th);
    assert Eras.EraOf(e, t, 0) <= e.clock && Eras.EraOf(e, t, 1) <= e.clock;
    hide MemoryOk, Eras.TableOk, Eras.Advances, Eras.RetirerOk, EraLives, RetiredOk, KnowsOk;
    Eras.NothingAdvances(e);
    match th.pc
    case ReadEra => if th.op.Add? { Eras.BornKeeps(e, th.op.own); }
    case StoreCurr => Eras.PublishKeeps(e, t, 1, th.era);
    case StoreNext => Eras.PublishKeeps(e, t, 0, th.era);
    case CopyPred => Eras.PublishKeeps(e, t, 2, Eras.EraOf(e, t, 1));
    case CopyCurr => Eras.PublishKeeps(e, t, 1, Eras.EraOf(e, t, 0));
    case Clear => Eras.PublishKeeps(e, t, th.c, 0);
    case ClearRemove => Eras.PublishKeeps(e, t, th.c, 0);
    case Unlinking => Eras.ReclaimKeepsTable(e, th.ret);
    case Retiring => Eras.ReclaimKeepsTable(e, th.ret);
    case _ =>
  }

  lemma StepKeepsLives(m: Memory, e: Eras.Table, t: nat, th: Thread)
    requires CanGo(m, e, t, th)
    ensures EraLives(NextMemory(m, e, t, th), NextTable(e, t, th))
  {
    var m', e' := NextMemory(m, e, t, th), NextTable(e, t, th);
    StepKeepsMemory(m, e, t, th);
    StepKeepsTable(m, e, t, th);
    if Reclaiming(th.pc) { ReclaimKeepsLives(m, e, t, th); }
    else {
      hide Eras.TableOk, RetiredOk;
      forall n ensures LifeOk(m', e', n) {
        assert LifeOk(m, e, n) && NodeOk(m, n) && NodeEvolves(m, m', t, n);
        QuietLife(m, e, t, th, n);
      }
    }
  }

  lemma QuietLife(m: Memory, e: Eras.Table, t: nat, th: Thread, n: Node)
    requires Safe(m, th) && KnowsOk(m, t, th) && ErasKnown(m, e, t, th) && !Reclaiming(th.pc) && LifeOk(m, e, n)
    requires NodeEvolves(m, NextMemory(m, e, t, th), t, n)
    requires IsListed(m, HEAD) && (n in m.life ==> n in m.link)
    ensures LifeOk(NextMemory(m, e, t, th), NextTable(e, t, th), n)
  {
    assert NextTable(e, t, th).del == e.del && NextTable(e, t, th).clock == e.clock;
  }

  lemma ReclaimKeepsLives(m: Memory, e: Eras.Table, t: nat, th: Thread)
    requires CanGo(m, e, t, th) && Reclaiming(th.pc)
    ensures EraLives(NextMemory(m, e, t, th), NextTable(e, t, th))
  {
    var m', e' := NextMemory(m, e, t, th), NextTable(e, t, th);
    StepKeepsTable(m, e, t, th);
    if Eras.DeletesNow(e, th.ret) {
      assert Eras.EntryOk(e, th.ret, th.ret.cursor.i) && MyOut(m, t, th.ret.list[th.ret.cursor.i]);
    }
    hide MemoryOk, KnowsOk, ErasKnown, Eras.TableOk;
    forall n ensures LifeOk(m', e', n) {
      assert LifeOk(m, e, n) && Eras.NodeAdvances(e, e', n);
    }
  }

  /** What a thread knows when only its own position changes. */
  lemma ReadKeepsKnowledge(m: Memory, e: Eras.Table, t: nat, th: Thread)
    requires KnowsOk(m, t, th) && Safe(m, th) && NextMemory(m, e, t, th) == m
    requires !th.pc.StoreNextOwn? && !th.pc.MarkCas?
    requires UsesCurr(th.pc) ==> th.curr != HEAD
    requires th.pc.CheckCurr? ==> th.pred == HEAD
    requires LAST in m.link && m.link[LAST] == Link(LAST, false)
    ensures KnowsOk(m, t, NextThread(m, e, t, th))
  {
    hide Eras.EraOf, Eras.Reclaim, NextMemory;
    match th.pc
    case RecheckNext => RecheckKnowledge(m, e, t, th);
    case CheckPred =>
    case KeyTest =>
    case _ =>
  }

  lemma RecheckKnowledge(m: Memory, e: Eras.Table, t: nat, th: Thread)
    requires KnowsOk(m, t, th) && Safe(m, th) && th.pc.RecheckNext? && th.curr != HEAD
    requires LAST in m.link && m.link[LAST] == Link(LAST, false)
    ensures KnowsOk(m, t, NextThread(m, e, t, th))
  {
  }

  /** A write to the links leaves what the thread itself goes on to rely on. */
  lemma WriteKeepsKnowledge(m: Memory, e: Eras.Table, t: nat, th: Thread)
    requires CanGo(m, e, t, th)
    requires th.pc.UnlinkCas? || th.pc.DeleteOwn? || th.pc.StoreNextOwn? || th.pc.LinkCas? || th.pc.MarkCas? || th.pc.UnlinkOwn?
    ensures KnowsOk(NextMemory(m, e, t, th), t, NextThread(m, e, t, th))
  {
    assert NodeOk(m, th.curr);
    if th.op.Add? { assert NodeOk(m, th.op.own); }
    hide MemoryOk, RetiredOk, Eras.TableOk, EraLives, ErasKnown;
    match th.pc
    case UnlinkCas => UnlinkKnowledge(m, e, t, th);
    case UnlinkOwn => UnlinkKnowledge(m, e, t, th);
    case MarkCas => hide KnowsOk; MarkKnowledge(m, e, t, th);
    case _ => hide KnowsOk; AddKnowledge(m, e, t, th);
  }

  lemma UnlinkKnowledge(m: Memory, e: Eras.Table, t: nat, th: Thread)
    requires KnowsOk(m, t, th) && Safe(m, th) && (th.pc.UnlinkCas? || th.pc.UnlinkOwn?) && Usable(m, th.curr)
    ensures KnowsOk(NextMemory(m, e, t, th), t, NextThread(m, e, t, th))
  {
  }

  lemma MarkKnowledge(m: Memory, e: Eras.Table, t: nat, th: Thread)
    requires KnowsOk(m, t, th) && Safe(m, th) && th.pc.MarkCas?
    ensures KnowsOk(NextMemory(m, e, t, th), t, NextThread(m, e, t, th))
  {
  }

  lemma AddKnowledge(m: Memory, e: Eras.Table, t: nat, th: Thread)
    requires KnowsOk(m, t, th) && Safe(m, th) && (th.pc.DeleteOwn? || th.pc.StoreNextOwn? || th.pc.LinkCas?)
    ensures KnowsOk(NextMemory(m, e, t, th), t, NextThread(m, e, t, th))
  {
  }

  lemma ReclaimKeepsKnowledge(m: Memory, e: Eras.Table, t: nat, th: Thread)
    requires CanGo(m, e, t, th) && Reclaiming(th.pc)
    ensures KnowsOk(NextMemory(m, e, t, th), t, NextThread(m, e, t, th))
  {
    if Eras.DeletesNow(e, th.ret) { assert MyOut(m, t, th.ret.list[th.ret.cursor.i]); }
    hide MemoryOk, RetiredOk, Eras.TableOk, EraLives, ErasKnown;
  }

  lemma StepKeepsKnowledge(m: Memory, e: Eras.Table, t: nat, th: Thread)
    requires CanGo(m, e, t, th)
    ensures KnowsOk(NextMemory(m, e, t, th), t, NextThread(m, e, t, th))
  {
    if th.pc.UnlinkCas? || th.pc.DeleteOwn? || th.pc.StoreNextOwn? || th.pc.LinkCas? || th.pc.MarkCas? || th.pc.UnlinkOwn? {
      hide CanGo, KnowsOk;
      WriteKeepsKnowledge(m, e, t, th);
    } else if Reclaiming(th.pc) {
      hide CanGo, KnowsOk;
      ReclaimKeepsKnowledge(m, e, t, th);
    } else {
      assert th.pc.CheckCurr? ==> th.pred == HEAD;
      hide KnowsOk, RetiredOk, EraLives, ErasKnown, Eras.TableOk;
      ReadKeepsKnowledge(m, e, t, th);
    }
  }

  // ---------------------------------------------------------------- eras and retired nodes

  lemma StepKeepsEras(m: Memory, e: Eras.Table, t: nat, th: Thread)
    requires CanGo(m, e, t, th)
    ensures ErasKnown(NextMemory(m, e, t, th), NextTable(e, t, th), t, NextThread(m, e, t, th))
  {
    assert NodeOk(m, HEAD) && NodeOk(m, m.link[HEAD].to) && LifeOk(m, e, m.link[HEAD].to);
    if th.pc.LoadNext? { assert NodeOk(m, th.curr) && NodeOk(m, m.link[th.curr].to) && LifeOk(m, e, m.link[th.curr].to); }
    if th.op.Add? { assert LifeOk(m, e, th.op.own); }
    OwnEras(m, e, t, th);
    hide MemoryOk, RetiredOk, EraLives, Eras.TableOk, KnowsOk;
    LoadedEras(m, e, t, th);
    hide NextMemory, NextTable, NextThread, Eras.Loaded, Seen, IsListed;
  }

  lemma LoadedEras(m: Memory, e: Eras.Table, t: nat, th: Thread)
    requires Safe(m, th) && e.clock >= 1
    requires HEAD in m.link && Seen(m, m.link[HEAD].to) && Eras.Loaded(e, t, 1, m.link[HEAD].to)
    requires th.pc.LoadNext? && IsListed(m, th.curr) ==> Seen(m, m.link[th.curr].to) && Eras.Loaded(e, t, 0, m.link[th.curr].to)
    ensures var m', e', th' := NextMemory(m, e, t, th), NextTable(e, t, th), NextThread(m, e, t, th);
            && (th'.pc.CheckCurr? ==> th'.pred == HEAD && Seen(m', th'.curr) && Eras.Loaded(e', t, 1, th'.curr))
            && (th'.pc.CheckNext? && IsListed(m', th'.curr) ==> Seen(m', th'.nxt.to) && Eras.Loaded(e', t, 0, th'.nxt.to))
            && (th'.pc.StoreCurr? || th'.pc.StoreNext? ==> 1 <= th'.era <= e'.clock)
  {
    if th.pc.LoadCurr? || th.pc.LoadNext? || th.pc.CheckCurr? || th.pc.CheckNext? { ReadsOnly(m, e, t, th); }
    Arrivals(m, e, t, th);
    hide NextThread, NextMemory, NextTable, Seen, Eras.Loaded, IsListed;
  }

  lemma ReadsOnly(m: Memory, e: Eras.Table, t: nat, th: Thread)
    requires Safe(m, th) && (th.pc.LoadCurr? || th.pc.LoadNext? || th.pc.CheckCurr? || th.pc.CheckNext?)
    ensures NextMemory(m, e, t, th) == m && NextTable(e, t, th) == e
  {
  }

  /** From where a thread comes to the steps of `get_protected`. */
  lemma Arrivals(m: Memory, e: Eras.Table, t: nat, th: Thread)
    requires Safe(m, th)
    ensures var th' := NextThread(m, e, t, th);
            && (th'.pc.CheckCurr? ==> th.pc.LoadCurr? && th'.pred == HEAD && th'.curr == m.link[HEAD].to)
            && (th'.pc.CheckNext? ==> th.pc.LoadNext? && th'.curr == th.curr && th'.nxt == m.link[th.curr])
            && (th'.pc.StoreCurr? || th'.pc.StoreNext? ==> (th.pc.CheckCurr? || th.pc.CheckNext?) && th'.era == e.clock)
  {
  }

  lemma OwnEras(m: Memory, e: Eras.Table, t: nat, th: Thread)
    requires Safe(m, th) && KnowsOk(m, t, th) && ErasKnown(m, e, t, th)
    requires Reclaiming(th.pc) && th.ret.cursor.Stamping? ==> MyOut(m, t, th.ret.cursor.n)
    ensures var th', e' := NextThread(m, e, t, th), NextTable(e, t, th);
            HasOwn(th') ==> (th'.op.own in e'.birth <==> !th'.pc.ReadEra?) && th'.op.own !in e'.del
  {
    OwnArrives(m, e, t, th);
    hide NextThread, Safe;
  }

  lemma OwnArrives(m: Memory, e: Eras.Table, t: nat, th: Thread)
    requires Safe(m, th)
    ensures var th' := NextThread(m, e, t, th);
            th'.op == th.op && (HasOwn(th') ==> HasOwn(th) && !th'.pc.ReadEra?)
  {
  }

  /** The node that is stamped joins the list, the one that is deleted leaves it. */
  lemma ReclaimKeepsMine(m: Memory, e: Eras.Table, t: nat, th: Thread)
    requires Safe(m, th) && Reclaiming(th.pc) && Eras.RetirerOk(e, th.ret)
    requires forall i {:trigger th.ret.list[i]} | 0 <= i < |th.ret.list| :: MyOut(m, t, th.ret.list[i])
    requires th.ret.cursor.Stamping? ==> MyOut(m, t, th.ret.cursor.n)
    ensures var list, m' := Eras.Reclaim(e, th.ret).list, NextMemory(m, e, t, th);
            forall k {:trigger list[k]} | 0 <= k < |list| :: MyOut(m', t, list[k])
  {
    var m', list := NextMemory(m, e, t, th), Eras.Reclaim(e, th.ret).list;
    forall k | 0 <= k < |list| ensures MyOut(m', t, list[k]) {
      if Eras.DeletesNow(e, th.ret) {
        assert MyOut(m, t, th.ret.list[if k < th.ret.cursor.i then k else k + 1]);
      } else if k < |th.ret.list| {
        assert MyOut(m, t, th.ret.list[k]);
      }
    }
  }

  lemma ReclaimKeepsRetired(m: Memory, e: Eras.Table, t: nat, th: Thread)
    requires CanGo(m, e, t, th) && Reclaiming(th.pc)
    ensures RetiredOk(NextMemory(m, e, t, th), NextTable(e, t, th), t, NextThread(m, e, t, th))
  {
    StampIsNew(m, e, t, th);
    hide MemoryOk, KnowsOk, EraLives, ErasKnown;
    ReclaimKeepsMine(m, e, t, th);
    Eras.ReclaimKeepsRetirer(e, th.ret);
    hide NextMemory, Eras.RetirerOk, Eras.TableOk;
  }

  lemma RetirerAdvances(m: Memory, e: Eras.Table, t: nat, th: Thread)
    requires Safe(m, th) && !Reclaiming(th.pc) && th.ret.cursor.Resting?
    ensures var th' := NextThread(m, e, t, th);
            && th'.ret == th.ret.(cursor := if Reclaiming(th'.pc) then Eras.Stamping(th.curr) else Eras.Resting)
            && (Reclaiming(th'.pc) ==> (th.pc.UnlinkCas? && m.link[th.pred] == Link(th.curr, false)) || th.pc.ClearRemove?)
            && (th'.pc.ClearRemove? ==>
                  th'.curr == th.curr && (th.pc.ClearRemove? || (th.pc.UnlinkOwn? && m.link[th.pred] == Link(th.curr, false))))
    ensures NextTable(e, t, th).del == e.del
  {
  }

  lemma ListedIsNotRetired(m: Memory, e: Eras.Table, t: nat, th: Thread, n: Node)
    requires RetiredOk(m, e, t, th) && IsListed(m, n)
    ensures n !in th.ret.list
  {
    forall i | 0 <= i < |th.ret.list| && th.ret.list[i] == n ensures MyOut(m, t, n) {
      assert MyOut(m, t, th.ret.list[i]);
    }
  }

  lemma NoneFreed(m: Memory, e: Eras.Table, t: nat, th: Thread, n: Node)
    requires MyOut(m, t, n) && Safe(m, th) && KnowsOk(m, t, th) && !Reclaiming(th.pc)
    ensures MyOut(NextMemory(m, e, t, th), t, n)
  {
  }

  lemma QuietKeepsRetired(m: Memory, e: Eras.Table, t: nat, th: Thread)
    requires CanGo(m, e, t, th) && !Reclaiming(th.pc)
    ensures RetiredOk(NextMemory(m, e, t, th), NextTable(e, t, th), t, NextThread(m, e, t, th))
  {
    var m', e', th' := NextMemory(m, e, t, th), NextTable(e, t, th), NextThread(m, e, t, th);
    StepKeepsTable(m, e, t, th);
    RetirerAdvances(m, e, t, th);
    if (th.pc.UnlinkCas? || th.pc.UnlinkOwn?) && m.link[th.pred] == Link(th.curr, false) {
      UnmarkedIsListed(m, th.pred);
      ListedIsNotRetired(m, e, t, th, th.curr);
      assert LifeOk(m, e, th.curr);
      assert MyOut(m', t, th.curr);
    }
    if th.pc.ClearRemove? { assert m' == m; }
    hide NextTable, NextThread, MemoryOk, EraLives, Eras.TableOk, ErasKnown;
    Eras.RetirerStays(e, e', th.ret);
    forall i | 0 <= i < |th.ret.list| ensures MyOut(m', t, th.ret.list[i]) {
      assert MyOut(m, t, th.ret.list[i]);
      NoneFreed(m, e, t, th, th.ret.list[i]);
    }
    hide NextMemory, Eras.Advances, KnowsOk;
    forall i: nat ensures Eras.EntryOk(e', th'.ret, i) { assert Eras.EntryOk(e', th.ret, i); }
  }

  lemma StepKeepsRetired(m: Memory, e: Eras.Table, t: nat, th: Thread)
    requires CanGo(m, e, t, th)
    ensures RetiredOk(NextMemory(m, e, t, th), NextTable(e, t, th), t, NextThread(m, e, t, th))
  {
    hide CanGo;
    if Reclaiming(th.pc) { ReclaimKeepsRetired(m, e, t, th); } else { QuietKeepsRetired(m, e, t, th); }
  }
}
