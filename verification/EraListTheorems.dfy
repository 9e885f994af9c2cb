/** Era slots against scans in the era list: the guards of every thread, the invariant in every
    run, and memory safety. */
module EraListTheorems {
  import opened EraListMemory
  import Eras
  import opened EraList
  import opened EraListProofs

  lemma CanGoFromInv(s: State, slots: nat, t: nat)
    requires Inv(s, slots) && Enabled(s, Step(t, Go))
    ensures CanGo(s.m, s.e, t, s.threads[t])
    ensures Apply(s, Step(t, Go)).m == NextMemory(s.m, s.e, t, s.threads[t])
    ensures Apply(s, Step(t, Go)).e == NextTable(s.e, t, s.threads[t])
    ensures forall r | 0 <= r < |s.threads| ::
              Apply(s, Step(t, Go)).threads[r] == if r == t then NextThread(s.m, s.e, t, s.threads[t]) else s.threads[r]
    ensures !Apply(s, Step(t, Go)).crashed && |Apply(s, Step(t, Go)).threads| == |s.threads|
  {
    NeverTouchesDead(s, slots, t);
    assert ThreadOk(s.m, s.e, t, s.threads[t]) && GuardsHeld(s, t);
    hide MemoryOk, NextMemory, NextThread, NextTable, ThreadOk, Safe, Eras.TableOk, EraLives;
  }

  lemma UsableStays(m: Memory, e: Eras.Table, t: nat, th: Thread, n: Node)
    requires CanGo(m, e, t, th) && Usable(m, n)
    requires Eras.DeletesNow(e, th.ret) ==> th.ret.list[th.ret.cursor.i] != n
    ensures Usable(NextMemory(m, e, t, th), n)
  {
    hide EraLives, Eras.TableOk, RetiredOk, ErasKnown, MemoryOk;
  }

  lemma OneScan(m: Memory, e: Eras.Table, t: nat, th: Thread, k: nat, j: nat, n: Node)
    requires RetiredOk(m, e, t, th) && Safe(m, th) && Eras.Covered(e, k, j, n) && Eras.NotMissed(th.ret, k, j, n)
    ensures Eras.NotMissed(NextThread(m, e, t, th).ret, k, j, n)
  {
    hide Eras.Covered, Eras.RetirerOk;
    if Reclaiming(th.pc) { Eras.ReclaimNotMissed(e, th.ret, k, j, n); } else { RetirerAdvances(m, e, t, th); }
  }

  /** A node that is held stays held while its slot is unchanged: it is not deleted, whatever
      any thread does. */
  lemma HeldStays(s: State, slots: nat, x: nat, t: nat, j: nat, n: Node)
    requires Inv(s, slots) && Enabled(s, Step(x, Go)) && Held(s, t, j, n)
    requires Rows(Apply(s, Step(x, Go)).e, slots)
    requires Eras.EraOf(Apply(s, Step(x, Go)).e, t, j) == Eras.EraOf(s.e, t, j)
    ensures Held(Apply(s, Step(x, Go)), t, j, n)
  {
    CanGoFromInv(s, slots, x);
    var s', th := Apply(s, Step(x, Go)), s.threads[x];
    StepKeepsTable(s.m, s.e, x, th);
    if Eras.DeletesNow(s.e, th.ret) { Eras.CoveredIsKept(s.e, th.ret, t, j, n); }
    UsableStays(s.m, s.e, x, th, n);
    assert Eras.TableOk(s.e) && RetiredOk(s.m, s.e, x, th) && Safe(s.m, th);
    assert |s'.e.rows| == |s.e.rows|;
    hide NextMemory, NextThread, NextTable, MemoryOk, EraLives, Eras.TableOk, Eras.Advances, Apply, KnowsOk, ErasKnown, Inv, Safe, RetiredOk, CanGo;
    Eras.CoveredStays(s.e, s'.e, t, j, n);
    hide Eras.Covered;
    forall r | 0 <= r < |s'.threads| ensures Eras.NotMissed(s'.threads[r].ret, t, j, n) {
      if r == x { OneScan(s.m, s.e, x, th, t, j, n); }
    }
  }

  /** A copy of an era to a later slot holds what the earlier slot holds. */
  lemma HeldCopy(s: State, t: nat, j: nat, j': nat, n: Node)
    requires Held(s, t, j, n) && j < j' && t < |s.e.rows| && j' < |s.e.rows[t]| && Eras.EraOf(s.e, t, j') == Eras.EraOf(s.e, t, j)
    ensures Held(s, t, j', n)
  {
    forall r | 0 <= r < |s.threads| ensures Eras.NotMissed(s.threads[r].ret, t, j', n) {
      Eras.UpwardCopyProtects(s.e, s.threads[r].ret, t, j, j', n);
    }
    if |s.threads| == 0 { Eras.UpwardCopyProtects(s.e, Eras.Retirer([], 0, Eras.Resting), t, j, j', n); }
  }

  /** When the clock still shows the era in the slot, the node that was loaded is held. */
  lemma CheckHolds(s: State, slots: nat, t: nat, j: nat, n: Node)
    requires Inv(s, slots) && t < |s.threads| && j < slots && Seen(s.m, n)
    requires Eras.Loaded(s.e, t, j, n) && Eras.EraOf(s.e, t, j) == s.e.clock
    ensures Held(s, t, j, n)
  {
    assert LifeOk(s.m, s.e, n);
    assert ThreadOk(s.m, s.e, t, s.threads[t]);
    Eras.CheckProtects(s.e, t, j, n, s.threads[t].ret);
    hide MemoryOk, EraLives, KnowsOk, ErasKnown, GuardsHeld;
    forall r | 0 <= r < |s.threads| ensures Eras.NotMissed(s.threads[r].ret, t, j, n) {
      assert ThreadOk(s.m, s.e, r, s.threads[r]);
      Eras.CheckProtects(s.e, t, j, n, s.threads[r].ret);
    }
  }

  predicate Clearing(pc: Pc) {
    pc.Clear? || pc.ClearRemove?
  }

  /** Which slots a step writes. */
  lemma SlotsStay(e: Eras.Table, t: nat, th: Thread, slots: nat)
    requires Rows(e, slots)
    ensures Rows(NextTable(e, t, th), slots) && |NextTable(e, t, th).rows| == |e.rows|
    ensures forall k, j | k != t :: Eras.EraOf(NextTable(e, t, th), k, j) == Eras.EraOf(e, k, j)
    ensures var e' := NextTable(e, t, th);
            && (!th.pc.StoreNext? && !Clearing(th.pc) ==> Eras.EraOf(e', t, 0) == Eras.EraOf(e, t, 0))
            && (!th.pc.StoreCurr? && !th.pc.CopyCurr? && !Clearing(th.pc) ==> Eras.EraOf(e', t, 1) == Eras.EraOf(e, t, 1))
            && (!th.pc.CopyPred? && !Clearing(th.pc) ==> Eras.EraOf(e', t, 2) == Eras.EraOf(e, t, 2))
    ensures th.pc.CopyPred? && slots >= 3 && t < |e.rows| ==> Eras.EraOf(NextTable(e, t, th), t, 2) == Eras.EraOf(e, t, 1)
    ensures th.pc.CopyCurr? && slots >= 3 && t < |e.rows| ==> Eras.EraOf(NextTable(e, t, th), t, 1) == Eras.EraOf(e, t, 0)
  {
  }

  // ---------------------------------------------------------------- the guards of a thread that moves

  lemma PredArrives(m: Memory, e: Eras.Table, t: nat, th: Thread)
    requires Safe(m, th) && (th.pc.CheckCurr? ==> th.pred == HEAD)
    ensures var th' := NextThread(m, e, t, th);
            UsesPred(th'.pc) && th'.pred != HEAD ==>
              if th.pc.CopyPred? then th'.pred == th.curr else UsesPred(th.pc) && th'.pred == th.pred
  {
  }

  lemma CurrArrives(m: Memory, e: Eras.Table, t: nat, th: Thread)
    requires Safe(m, th)
    ensures var th' := NextThread(m, e, t, th);
            && (UsesCurr(th'.pc) && th.pc.CopyCurr? ==> th'.curr == th.nxt.to)
            && (UsesCurr(th'.pc) && th.pc.CheckCurr? ==> th'.curr == th.curr && e.clock == Eras.EraOf(e, t, 1))
            && (UsesCurr(th'.pc) && !th.pc.CopyCurr? && !th.pc.CheckCurr? ==> UsesCurr(th.pc) && th'.curr == th.curr)
            && (UsesCurr(th'.pc) ==> !th.pc.StoreCurr? && !Clearing(th.pc))
  {
  }

  lemma NextArrives(m: Memory, e: Eras.Table, t: nat, th: Thread)
    requires Safe(m, th)
    ensures var th' := NextThread(m, e, t, th);
            && (UsesNext(th'.pc) ==> th'.nxt == th.nxt && !th.pc.StoreNext? && !Clearing(th.pc))
            && (UsesNext(th'.pc) && !UsesNext(th.pc) ==> th.pc.CheckPred? && m.link[th.pred] == Link(th.curr, false))
            && (AwaitsPred(th'.pc) ==> th'.nxt == th.nxt && th'.curr == th.curr && !th.pc.StoreNext? && !Clearing(th.pc))
            && (AwaitsPred(th'.pc) ==> NextMemory(m, e, t, th) == m)
            && (AwaitsPred(th'.pc) && !AwaitsPred(th.pc) ==> th.pc.CheckNext? && e.clock == Eras.EraOf(e, t, 0))
  {
  }

  lemma MyPred(s: State, slots: nat, t: nat)
    requires Inv(s, slots) && Enabled(s, Step(t, Go))
    ensures var s' := Apply(s, Step(t, Go));
            t < |s'.threads| && (UsesPred(s'.threads[t].pc) && s'.threads[t].pred != HEAD ==> Held(s', t, 2, s'.threads[t].pred))
  {
    CanGoFromInv(s, slots, t);
    var th, s' := s.threads[t], Apply(s, Step(t, Go));
    var th' := s'.threads[t];
    SlotsStay(s.e, t, th, slots);
    assert GuardsHeld(s, t) && ThreadOk(s.m, s.e, t, th) && slots >= 3 && t < |s'.e.rows| && |s'.e.rows[t]| == slots;
    hide Inv, Apply, Held, NextTable, NextMemory, NextThread, MemoryOk, RetiredOk, EraLives, Eras.TableOk, Eras.Loaded, Eras.EraOf, KnowsOk;
    PredArrives(s.m, s.e, t, th);
    if UsesPred(th'.pc) && th'.pred != HEAD {
      if th.pc.CopyPred? {
        HeldStays(s, slots, t, t, 1, th.curr);
        HeldCopy(s', t, 1, 2, th.curr);
      } else {
        ClearsNoGuard(s.m, s.e, t, th);
        HeldStays(s, slots, t, t, 2, th.pred);
      }
    }
  }

  lemma ClearsNoGuard(m: Memory, e: Eras.Table, t: nat, th: Thread)
    requires Safe(m, th) && UsesPred(th.pc)
    ensures !Clearing(th.pc) && !th.pc.StoreCurr?
  {
  }

  lemma MyCurr(s: State, slots: nat, t: nat)
    requires Inv(s, slots) && Enabled(s, Step(t, Go))
    ensures var s' := Apply(s, Step(t, Go));
            t < |s'.threads| && (UsesCurr(s'.threads[t].pc) ==> Held(s', t, 1, s'.threads[t].curr))
  {
    CanGoFromInv(s, slots, t);
    var th, s' := s.threads[t], Apply(s, Step(t, Go));
    var th' := s'.threads[t];
    SlotsStay(s.e, t, th, slots);
    assert GuardsHeld(s, t) && ThreadOk(s.m, s.e, t, th) && slots >= 3 && t < |s'.e.rows| && |s'.e.rows[t]| == slots;
    hide Inv, Apply, Held, NextTable, NextMemory, NextThread, MemoryOk, RetiredOk, EraLives, Eras.TableOk, Eras.Loaded, Eras.EraOf, KnowsOk;
    CurrArrives(s.m, s.e, t, th);
    if UsesCurr(th'.pc) {
      if th.pc.CopyCurr? {
        HeldStays(s, slots, t, t, 0, th.nxt.to);
        HeldCopy(s', t, 0, 1, th.nxt.to);
      } else {
        if th.pc.CheckCurr? { CheckHolds(s, slots, t, 1, th.curr); }
        HeldStays(s, slots, t, t, 1, th.curr);
      }
    }
  }

  /** `pred` still links to `curr` without a mark: so `curr` is in the list, and was when its
      successor was read. */
  lemma PredShowsCurrListed(s: State, slots: nat, t: nat)
    requires Inv(s, slots) && t < |s.threads| && s.threads[t].pc.CheckPred? && s.threads[t].pred in s.m.link
    requires s.m.link[s.threads[t].pred] == Link(s.threads[t].curr, false)
    ensures IsListed(s.m, s.threads[t].curr)
  {
    assert GuardsHeld(s, t);
    UnmarkedIsListed(s.m, s.threads[t].pred);
  }

  lemma MyNext(s: State, slots: nat, t: nat)
    requires Inv(s, slots) && Enabled(s, Step(t, Go))
    ensures var s' := Apply(s, Step(t, Go));
            && t < |s'.threads|
            && (UsesNext(s'.threads[t].pc) ==> Held(s', t, 0, s'.threads[t].nxt.to))
            && (AwaitsPred(s'.threads[t].pc) && IsListed(s'.m, s'.threads[t].curr) ==> Held(s', t, 0, s'.threads[t].nxt.to))
  {
    CanGoFromInv(s, slots, t);
    var th, s' := s.threads[t], Apply(s, Step(t, Go));
    var th' := s'.threads[t];
    SlotsStay(s.e, t, th, slots);
    assert GuardsHeld(s, t) && ThreadOk(s.m, s.e, t, th) && slots >= 3;
    NextArrives(s.m, s.e, t, th);
    if UsesNext(th'.pc) && !UsesNext(th.pc) { PredShowsCurrListed(s, slots, t); }
    hide Inv, Apply, Held, NextTable, NextMemory, NextThread, MemoryOk, RetiredOk, EraLives, Eras.TableOk, Eras.Loaded, Eras.EraOf, KnowsOk, IsListed, Seen;
    if UsesNext(th'.pc) {
      HeldStays(s, slots, t, t, 0, th.nxt.to);
    }
    if AwaitsPred(th'.pc) && IsListed(s'.m, th'.curr) {
      if th.pc.CheckNext? { CheckHolds(s, slots, t, 0, th.nxt.to); }
      HeldStays(s, slots, t, t, 0, th.nxt.to);
    }
  }

  // ---------------------------------------------------------------- the guards of the other threads

  lemma ListedWas(m: Memory, m': Memory, t: nat, n: Node)
    requires Evolves(m, m', t) && Usable(m, n) && IsListed(m', n)
    ensures IsListed(m, n)
  {
    assert NodeEvolves(m, m', t, n);
  }

  lemma OtherGuards(s: State, slots: nat, x: nat, t: nat)
    requires Inv(s, slots) && Enabled(s, Step(x, Go)) && t < |s.threads| && t != x
    ensures t < |Apply(s, Step(x, Go)).threads| && GuardsHeld(Apply(s, Step(x, Go)), t)
  {
    CanGoFromInv(s, slots, x);
    var th, s' := s.threads[t], Apply(s, Step(x, Go));
    SlotsStay(s.e, x, s.threads[x], slots);
    StepKeepsMemory(s.m, s.e, x, s.threads[x]);
    assert GuardsHeld(s, t);
    if AwaitsPred(th.pc) && IsListed(s'.m, th.curr) { ListedWas(s.m, s'.m, x, th.curr); }
    hide Inv, Apply, Held, NextTable, NextMemory, NextThread, MemoryOk, Evolves, Eras.EraOf;
    if UsesPred(th.pc) && th.pred != HEAD { HeldStays(s, slots, x, t, 2, th.pred); }
    if UsesCurr(th.pc) { HeldStays(s, slots, x, t, 1, th.curr); }
    if UsesNext(th.pc) || (AwaitsPred(th.pc) && IsListed(s'.m, th.curr)) { HeldStays(s, slots, x, t, 0, th.nxt.to); }
  }

  // ---------------------------------------------------------------- every step, every run

  lemma SeenStays(m: Memory, m': Memory, t: nat, n: Node)
    requires Evolves(m, m', t) && Seen(m, n)
    ensures Seen(m', n)
  {
    assert NodeEvolves(m, m', t, n);
  }

  lemma OthersKnow(m: Memory, m': Memory, t: nat, r: nat, th: Thread)
    requires Evolves(m, m', t) && r != t && KnowsOk(m, r, th) && (UsesCurr(th.pc) ==> Usable(m, th.curr))
    ensures KnowsOk(m', r, th)
  {
    if th.op.Add? { assert NodeEvolves(m, m', t, th.op.own); }
    assert NodeEvolves(m, m', t, th.curr);
  }

  lemma OthersEras(m: Memory, m': Memory, e: Eras.Table, e': Eras.Table, t: nat, r: nat, th: Thread)
    requires Evolves(m, m', t) && Eras.TableOk(e) && Eras.Advances(e, e') && r != t && ErasKnown(m, e, r, th)
    requires UsesCurr(th.pc) ==> Usable(m, th.curr)
    requires forall j :: Eras.EraOf(e', r, j) == Eras.EraOf(e, r, j)
    requires HasOwn(th) ==> (th.op.own in e'.birth <==> th.op.own in e.birth) && th.op.own !in e'.del
    ensures ErasKnown(m', e', r, th)
  {
    assert e.clock <= e'.clock;
    hide Eras.TableOk, Eras.Advances, Evolves, Eras.Loaded, Seen;
    if th.pc.CheckCurr? { Eras.LoadedStays(e, e', r, 1, th.curr); SeenStays(m, m', t, th.curr); }
    if th.pc.CheckNext? && IsListed(m', th.curr) {
      ListedWas(m, m', t, th.curr);
      Eras.LoadedStays(e, e', r, 0, th.nxt.to);
      SeenStays(m, m', t, th.nxt.to);
    }
  }

  lemma OthersRetired(m: Memory, m': Memory, e: Eras.Table, e': Eras.Table, t: nat, r: nat, th: Thread)
    requires Evolves(m, m', t) && Eras.Advances(e, e') && r != t && RetiredOk(m, e, r, th)
    requires forall n | MyOut(m, r, n) && n in e'.del :: n in e.del
    ensures RetiredOk(m', e', r, th)
  {
    Eras.RetirerStays(e, e', th.ret);
    assert NodeEvolves(m, m', t, th.curr);
    if th.ret.cursor.Stamping? { assert NodeEvolves(m, m', t, th.ret.cursor.n); }
    forall i | 0 <= i < |th.ret.list| ensures MyOut(m', r, th.ret.list[i]) {
      assert MyOut(m, r, th.ret.list[i]) && NodeEvolves(m, m', t, th.ret.list[i]);
    }
  }

  /** What a step of t adds to the eras of nodes concerns its own nodes only. */
  lemma OnlyMyEras(m: Memory, e: Eras.Table, t: nat, th: Thread, r: nat, n: Node)
    requires CanGo(m, e, t, th) && r != t
    requires n in m.life && (m.life[n] == Out(r) || m.life[n] == Private(r))
    ensures n in NextTable(e, t, th).del ==> n in e.del
    ensures n in NextTable(e, t, th).birth ==> n in e.birth
  {
    hide MemoryOk, Eras.TableOk, EraLives, Eras.RetirerOk;
  }

  lemma GoKeepsOther(s: State, slots: nat, t: nat, r: nat)
    requires Inv(s, slots) && Enabled(s, Step(t, Go)) && r < |s.threads| && r != t
    ensures var s' := Apply(s, Step(t, Go)); r < |s'.threads| && ThreadOk(s'.m, s'.e, r, s'.threads[r])
  {
    CanGoFromInv(s, slots, t);
    var th, x := s.threads[r], s.threads[t];
    var m', e' := NextMemory(s.m, s.e, t, x), NextTable(s.e, t, x);
    assert ThreadOk(s.m, s.e, r, th) && GuardsHeld(s, r);
    StepKeepsMemory(s.m, s.e, t, x);
    StepKeepsTable(s.m, s.e, t, x);
    SlotsStay(s.e, t, x, slots);
    if th.op.Add? { assert Eras.NodeAdvances(s.e, e', th.op.own); }
    hide Inv, Apply, NextTable, NextMemory, NextThread, MemoryOk, EraLives, Eras.TableOk, Eras.Advances, Evolves, Eras.RetirerOk, Eras.Covered;
    if HasOwn(th) { OnlyMyEras(s.m, s.e, t, x, r, th.op.own); }
    forall n | MyOut(s.m, r, n) && n in e'.del ensures n in s.e.del { OnlyMyEras(s.m, s.e, t, x, r, n); }
    assert UsesCurr(th.pc) ==> Usable(s.m, th.curr);
    hide CanGo, GuardsHeld;
    OthersKnow(s.m, m', t, r, th);
    OthersEras(s.m, m', s.e, e', t, r, th);
    OthersRetired(s.m, m', s.e, e', t, r, th);
  }

  lemma GoKeepsMine(s: State, slots: nat, t: nat)
    requires Inv(s, slots) && Enabled(s, Step(t, Go))
    ensures var s' := Apply(s, Step(t, Go));
            && t < |s'.threads| && ThreadOk(s'.m, s'.e, t, s'.threads[t])
            && MemoryOk(s'.m) && Eras.TableOk(s'.e) && EraLives(s'.m, s'.e) && Rows(s'.e, slots)
            && |s'.e.rows| == |s'.threads| == |s.threads| && !s'.crashed
            && Evolves(s.m, s'.m, t) && Eras.Advances(s.e, s'.e)
  {
    CanGoFromInv(s, slots, t);
    var th := s.threads[t];
    SlotsStay(s.e, t, th, slots);
    hide Apply, NextTable, NextMemory, NextThread, CanGo, MemoryOk, EraLives, Eras.TableOk, Eras.Advances, Evolves, KnowsOk, ErasKnown, RetiredOk, Rows;
    StepKeepsMemory(s.m, s.e, t, th);
    StepKeepsTable(s.m, s.e, t, th);
    StepKeepsLives(s.m, s.e, t, th);
    StepKeepsKnowledge(s.m, s.e, t, th);
    StepKeepsEras(s.m, s.e, t, th);
    StepKeepsRetired(s.m, s.e, t, th);
  }

  lemma GoKeepsInv(s: State, slots: nat, t: nat)
    requires Inv(s, slots) && Enabled(s, Step(t, Go))
    ensures Inv(Apply(s, Step(t, Go)), slots)
  {
    GoKeepsMine(s, slots, t);
    var s' := Apply(s, Step(t, Go));
    assert slots >= 3;
    hide ThreadOk, MemoryOk, EraLives, Eras.TableOk, Rows, Apply, Held;
    forall r | 0 <= r < |s'.threads| ensures ThreadOk(s'.m, s'.e, r, s'.threads[r]) {
      if r != t { GoKeepsOther(s, slots, t, r); }
    }
    forall r | 0 <= r < |s'.threads| ensures GuardsHeld(s', r) {
      if r == t { MyPred(s, slots, t); MyCurr(s, slots, t); MyNext(s, slots, t); } else { OtherGuards(s, slots, t, r); }
    }
  }

  lemma HeldThroughCall(s: State, st: Step, t: nat, j: nat, n: Node)
    requires Enabled(s, st) && !st.a.Go? && Held(s, t, j, n)
    ensures Held(Apply(s, st), t, j, n)
  {
  }

  lemma CallThread(s: State, slots: nat, st: Step, r: nat)
    requires Inv(s, slots) && Enabled(s, st) && !st.a.Go? && r < |s.threads|
    requires Evolves(s.m, Apply(s, st).m, st.t)
    ensures var s' := Apply(s, st); ThreadOk(s'.m, s'.e, r, s'.threads[r])
  {
    var s', th := Apply(s, st), s.threads[r];
    assert ThreadOk(s.m, s.e, r, th) && GuardsHeld(s, r);
    Eras.NothingAdvances(s.e);
    if st.a.op.Add? { assert LifeOk(s.m, s.e, st.a.op.own); }
    hide MemoryOk, EraLives, Eras.TableOk, Evolves;
    if r != st.t {
      if HasOwn(th) { assert th.op.own in s.m.life; }
      OthersKnow(s.m, s'.m, st.t, r, th);
      OthersEras(s.m, s'.m, s.e, s.e, st.t, r, th);
      OthersRetired(s.m, s'.m, s.e, s.e, st.t, r, th);
    } else {
      forall i | 0 <= i < |th.ret.list| ensures MyOut(s'.m, r, th.ret.list[i]) { assert MyOut(s.m, r, th.ret.list[i]); }
    }
  }

  lemma CallGuards(s: State, slots: nat, st: Step, r: nat)
    requires Inv(s, slots) && Enabled(s, st) && !st.a.Go? && r < |s.threads|
    requires Evolves(s.m, Apply(s, st).m, st.t)
    ensures GuardsHeld(Apply(s, st), r)
  {
    var s', th := Apply(s, st), s.threads[r];
    assert GuardsHeld(s, r);
    if AwaitsPred(th.pc) && IsListed(s'.m, th.curr) { ListedWas(s.m, s'.m, st.t, th.curr); }
    hide MemoryOk, EraLives, Eras.TableOk, Evolves, ThreadOk, Held;
    if r != st.t {
      if UsesPred(th.pc) && th.pred != HEAD { HeldThroughCall(s, st, r, 2, th.pred); }
      if UsesCurr(th.pc) { HeldThroughCall(s, st, r, 1, th.curr); }
      if UsesNext(th.pc) || (AwaitsPred(th.pc) && IsListed(s'.m, th.curr)) { HeldThroughCall(s, st, r, 0, th.nxt.to); }
    }
  }

  lemma CallKeepsInv(s: State, slots: nat, st: Step)
    requires Inv(s, slots) && Enabled(s, st) && !st.a.Go?
    ensures Inv(Apply(s, st), slots)
  {
    var s' := Apply(s, st);
    NothingEvolves(s.m, st.t);
    if st.a.op.Add? { AllocateKeeps(s.m, st.t, st.a.op.own, st.a.key); }
    forall n ensures LifeOk(s'.m, s'.e, n) { assert LifeOk(s.m, s.e, n) && NodeEvolves(s.m, s'.m, st.t, n); }
    hide Evolves, MemoryOk;
    forall r | 0 <= r < |s'.threads| ensures ThreadOk(s'.m, s'.e, r, s'.threads[r]) && GuardsHeld(s', r) {
      CallThread(s, slots, st, r);
      CallGuards(s, slots, st, r);
    }
  }

  lemma StepKeepsInv(s: State, slots: nat, st: Step)
    requires Inv(s, slots) && Enabled(s, st)
    ensures Inv(Apply(s, st), slots)
  {
    hide Inv;
    if st.a.Go? { GoKeepsInv(s, slots, st.t); } else { CallKeepsInv(s, slots, st); }
  }

  lemma InitInv(s: State, slots: nat)
    requires Init(s, slots)
    ensures Inv(s, slots)
  {
    EmptyOk();
    forall t, j ensures Eras.EraOf(s.e, t, j) <= s.e.clock {}
    forall n ensures LifeOk(s.m, s.e, n) {}
  }

  lemma RunStep(run: seq<State>, steps: seq<Step>, slots: nat, i: nat)
    requires IsRun(run, steps, slots) && i + 1 < |run|
    ensures |run| == |steps| + 1 && Enabled(run[i], steps[i]) && run[i + 1] == Apply(run[i], steps[i])
  {
    assert Follows(run, steps, i);
  }

  lemma {:induction false} RunKeepsInv(run: seq<State>, steps: seq<Step>, slots: nat, i: nat)
    requires IsRun(run, steps, slots) && i < |run|
    ensures Inv(run[i], slots)
  {
    if i == 0 { InitInv(run[0], slots); }
    else {
      hide IsRun, Inv, Apply;
      RunKeepsInv(run, steps, slots, i - 1);
      RunStep(run, steps, slots, i - 1);
      StepKeepsInv(run[i - 1], slots, steps[i - 1]);
    }
  }

  // ---------------------------------------------------------------- results

  /** In every interleaving of add, remove and contains no step reads, writes or deletes a node
      that has been deleted, and the printed counter of a thread is the length of its retired list. */
  lemma NoUseAfterFree(run: seq<State>, steps: seq<Step>, slots: nat, i: nat, t: nat)
    requires IsRun(run, steps, slots) && i < |run| && t < |run[i].threads|
    ensures !run[i].crashed && Safe(run[i].m, run[i].threads[t])
    ensures run[i].threads[t].ret.count == |run[i].threads[t].ret.list|
  {
    RunKeepsInv(run, steps, slots, i);
    NeverTouchesDead(run[i], slots, t);
    assert ThreadOk(run[i].m, run[i].e, t, run[i].threads[t]);
  }

  /** The moving protection is never missed: whatever a thread holds as `pred`, `curr` or
      `next` through validated steps is alive, lies in the era of its slot, and no scan that is
      under way has already passed that slot for it. */
  lemma ProtectionIsNeverMissed(run: seq<State>, steps: seq<Step>, slots: nat, i: nat, t: nat)
    requires IsRun(run, steps, slots) && i < |run| && t < |run[i].threads|
    ensures var s, th := run[i], run[i].threads[t];
            && (UsesPred(th.pc) && th.pred != HEAD ==> Held(s, t, 2, th.pred))
            && (UsesCurr(th.pc) ==> Held(s, t, 1, th.curr))
            && (UsesNext(th.pc) ==> Held(s, t, 0, th.nxt.to))
  {
    RunKeepsInv(run, steps, slots, i);
    assert GuardsHeld(run[i], t);
  }

  /** A scan that deletes a node deletes none that a thread holds. */
  lemma HeldIsNotDeleted(run: seq<State>, steps: seq<Step>, slots: nat, i: nat, r: nat, t: nat)
    requires IsRun(run, steps, slots) && i < |run| && t < |run[i].threads| && r < |run[i].threads|
    requires Eras.DeletesNow(run[i].e, run[i].threads[r].ret)
    ensures var n, th := run[i].threads[r].ret.list[run[i].threads[r].ret.cursor.i], run[i].threads[t];
            && !(UsesPred(th.pc) && th.pred == n)
            && !(UsesCurr(th.pc) && th.curr == n)
            && !(UsesNext(th.pc) && th.nxt.to == n)
  {
    ProtectionIsNeverMissed(run, steps, slots, i, t);
    RunKeepsInv(run, steps, slots, i);
    var s, th, ret := run[i], run[i].threads[t], run[i].threads[r].ret;
    assert ThreadOk(s.m, s.e, r, s.threads[r]) && MyOut(s.m, r, ret.list[ret.cursor.i]);
    hide IsRun, Inv, MemoryOk, KnowsOk, ErasKnown;
    if UsesPred(th.pc) && th.pred != HEAD { Eras.CoveredIsKept(s.e, ret, t, 2, th.pred); }
    if UsesCurr(th.pc) { Eras.CoveredIsKept(s.e, ret, t, 1, th.curr); }
    if UsesNext(th.pc) { Eras.CoveredIsKept(s.e, ret, t, 0, th.nxt.to); }
  }
}
