/** The invariant holds in every run of the URCU list.

    The proof takes a step of thread t apart.  A step of the list code proper has an Outcome: a
    memory that is in order again, a promise to the other threads (Evolves), and what t itself
    knows afterwards; the Search lemmas show it for each kind of access.  What t holds for
    deletion is followed by the Garbage lemmas, from the unlink over the call of
    `synchronizeRCU` to the delete, and the stamps of deleted nodes by the Stamps lemmas, which
    get from `Urcu` that no section is left that began before.  GoKeepsInv, LibKeepsInv and
    CallKeepsInv put this together for the three kinds of steps. */
module UrcuListTheorems {
  import Urcu
  import opened UrcuList
  import opened UrcuListInvariant
  import opened UrcuListSteps

  // ---------------------------------------------------------------- one step of the list code

  /** The outcome of a step of t that started with knowledge of its own traversal. */
  ghost predicate Outcome(m: Memory, m': Memory, began: nat, now: nat, t: nat, th': Thread) {
    MemoryOk(m') && Evolves(m, m', now, t) && ProgressOk(m', began, t, th')
  }

  lemma SearchLinks(m: Memory, began: nat, now: nat, t: nat, th: Thread)
    requires MemoryOk(m) && ProgressOk(m, began, t, th) && Safe(m, th) && th.pc.LinkCas?
    ensures Outcome(m, NextMemory(m, now, t, th), began, now, t, NextThread(m, th))
  {
    hide Chain, Evolves, SetOk, Adjacent;
    LatestIsSet(m);
    NothingEvolves(m, now, t);
    if PredCas(m, th) {
      assert Linkable(m, began, t, th);
      LinkKeeps(m, began, now, t, th);
      LinkStep(m, Linking(m, th), began, t, th);
      assert NextMemory(m, now, t, th) == Linking(m, th);
    } else {
      RetryStep(m, began, t, th);
    }
  }

  lemma SearchMarks(m: Memory, began: nat, now: nat, t: nat, th: Thread)
    requires MemoryOk(m) && ProgressOk(m, began, t, th) && Safe(m, th) && th.pc.MarkCas? && began < now
    ensures Outcome(m, NextMemory(m, now, t, th), began, now, t, NextThread(m, th))
  {
    hide Chain, Evolves, SetOk, Adjacent;
    LatestIsSet(m);
    NothingEvolves(m, now, t);
    if m.next[th.curr] == Link(th.nxt.node, false) {
      MarkKeeps(m, began, now, t, th);
      assert NextMemory(m, now, t, th) == Marking(m, th);
      MarkStep(m, Marking(m, th), began, now, t, th);
    } else {
      RetryStep(m, began, t, th);
    }
  }

  lemma SearchUnlinks(m: Memory, began: nat, now: nat, t: nat, th: Thread)
    requires MemoryOk(m) && ProgressOk(m, began, t, th) && Safe(m, th) && th.pc.UnlinkCas?
    ensures Outcome(m, NextMemory(m, now, t, th), began, now, t, NextThread(m, th))
  {
    hide Chain, Evolves, SetOk, Adjacent;
    LatestIsSet(m);
    NothingEvolves(m, now, t);
    var m' := NextMemory(m, now, t, th);
    if PredCas(m, th) {
      assert Unlinkable(m, began, th);
      UnlinkKeeps(m, began, now, t, th);
    }
    UnlinkStep(m, m', began, t, th, if PredCas(m, th) then Some(th.curr) else None);
  }

  lemma SearchHelps(m: Memory, began: nat, now: nat, t: nat, th: Thread)
    requires MemoryOk(m) && ProgressOk(m, began, t, th) && Safe(m, th) && began < now
    requires th.pc.Decide? && th.nxt.mark && PredCas(m, th)
    ensures Outcome(m, NextMemory(m, now, t, th), began, now, t, NextThread(m, th))
  {
    hide Chain, Evolves, SetOk, Adjacent;
    LatestIsSet(m);
    NothingEvolves(m, now, t);
    assert Unlinkable(m, began, th);
    UnlinkKeeps(m, began, now, t, th);
    HelpStep(m, Unlink(m, now, t, th), began, now, t, th);
  }

  lemma SearchDecides(m: Memory, began: nat, now: nat, t: nat, th: Thread)
    requires MemoryOk(m) && ProgressOk(m, began, t, th) && Safe(m, th)
    requires th.pc.Decide? && !(th.nxt.mark && PredCas(m, th))
    ensures Outcome(m, NextMemory(m, now, t, th), began, now, t, NextThread(m, th))
  {
    hide Chain, Evolves, SetOk, Adjacent;
    LatestIsSet(m);
    NothingEvolves(m, now, t);
    if StopsAtKey(m, th) {
      if m.key[th.curr] == th.k {
        ReturnTrue(m, began, t, th, th.(wit := th.seen));
      } else {
        ReturnFalse(m, began, t, th, th.(wit := th.wit));
        if th.op.Add? { StoreOwnKeeps(m, now, t, th); }
      }
    } else if !th.nxt.mark {
      MoveOnStep(m, began, t, th);
    } else {
      RetryStep(m, began, t, th);
    }
  }

  lemma SearchReads(m: Memory, began: nat, now: nat, t: nat, th: Thread)
    requires MemoryOk(m) && ProgressOk(m, began, t, th) && Safe(m, th)
    requires th.pc.ReadHead? || th.pc.CheckHead? || th.pc.ReadNext? || th.pc.RecheckNext? || th.pc.CheckPred?
    ensures Outcome(m, NextMemory(m, now, t, th), began, now, t, NextThread(m, th))
  {
    hide Chain, Evolves, SetOk, Adjacent;
    LatestIsSet(m);
    NothingEvolves(m, now, t);
    match th.pc
    case ReadHead => ReadHeadStep(m, began, t, th);
    case CheckHead => CheckHeadStep(m, began, t, th);
    case ReadNext =>
      if StopsEarly(m, th) {
        ReturnFalse(m, began, t, th, th.(nxt := m.next[th.curr]));
        if th.op.Add? { StoreOwnKeeps(m, now, t, th); }
      } else {
        ReadNextStep(m, began, t, th);
      }
    case RecheckNext => RecheckStep(m, began, t, th);
    case CheckPred =>
      if PredCas(m, th) { PlaceIsLinked(m, began, th.pred, th.curr); }
      CheckPredStep(m, began, t, th);
  }

  /** All points outside `find` that change neither the list nor the verdict. */
  lemma CallsProgress(m: Memory, began: nat, now: nat, t: nat, th: Thread, began': nat)
    requires MemoryOk(m) && ProgressOk(m, began, t, th) && Safe(m, th)
    requires !Searching(th.pc) && !th.pc.FreeVictim? && !th.pc.FreeRetired? && !th.pc.Idle?
    ensures Outcome(m, NextMemory(m, now, t, th), began', now, t, NextThread(m, th))
  {
    hide Chain, Evolves, SetOk, Adjacent, Shape;
    NothingEvolves(m, now, t);
    if th.pc.Discard? { DiscardKeeps(m, now, t, th.own); }
  }

  lemma FreesProgress(m: Memory, began: nat, now: nat, t: nat, th: Thread, n: Node)
    requires MemoryOk(m) && ProgressOk(m, began, t, th) && Safe(m, th) && MyUnlinked(m.life, t, n)
    requires (th.pc.FreeVictim? && th.victim == Some(n)) || (th.pc.FreeRetired? && th.retired != [] && n == th.retired[0])
    ensures Outcome(m, NextMemory(m, now, t, th), began, now, t, NextThread(m, th))
  {
    hide MemoryOk, Evolves, ProgressOk;
    FreeKeeps(m, now, t, n);
    FreesKnow(m, NextMemory(m, now, t, th), began, t, th);
  }

  lemma FreesKnow(m: Memory, m': Memory, began: nat, t: nat, th: Thread)
    requires ProgressOk(m, began, t, th) && Safe(m, th) && m'.hist == m.hist
    requires th.pc.FreeVictim? || th.pc.FreeRetired?
    ensures ProgressOk(m', began, t, NextThread(m, th))
  {
  }

  lemma SearchOutcome(m: Memory, c: Urcu.Cell, now: nat, t: nat, th: Thread)
    requires MemoryOk(m) && ThreadOk(m, c, t, th) && Safe(m, th) && Searching(th.pc) && c.began < now
    ensures Outcome(m, NextMemory(m, now, t, th), c.began, now, t, NextThread(m, th))
  {
    hide MemoryOk, ProgressOk, Evolves, GarbageOk, NextThread, NextMemory;
    match th.pc
    case LinkCas => SearchLinks(m, c.began, now, t, th);
    case MarkCas => SearchMarks(m, c.began, now, t, th);
    case UnlinkCas => SearchUnlinks(m, c.began, now, t, th);
    case Decide =>
      if th.nxt.mark && PredCas(m, th) { SearchHelps(m, c.began, now, t, th); }
      else { SearchDecides(m, c.began, now, t, th); }
    case _ => SearchReads(m, c.began, now, t, th);
  }

  lemma GoOutcome(s: State, t: nat)
    requires Inv(s) && Enabled(s, t, Go)
    ensures Safe(s.m, s.threads[t])
    ensures var s' := Apply(s, t, Go);
            Outcome(s.m, s'.m, s'.u.cells[t].began, s.u.now, t, s'.threads[t])
  {
    var th, c := s.threads[t], s.u.cells[t];
    assert ThreadOk(s.m, c, t, th);
    assert th.pc.FreeRetired? ==> MyUnlinked(s.m.life, t, th.retired[0]);
    assert Searching(th.pc) ==> Urcu.ReaderOk(s.u, t) && Urcu.InSection(s.u, t);
    hide MemoryOk, ProgressOk, Evolves, GarbageOk, Stamps, NextThread, NextMemory, Outcome;
    NeverTouchesDead(s, t);
    if Searching(th.pc) {
      SearchOutcome(s.m, c, s.u.now, t, th);
    } else if th.pc.FreeVictim? || th.pc.FreeRetired? {
      FreesProgress(s.m, c.began, s.u.now, t, th, if th.pc.FreeVictim? then th.victim.value else th.retired[0]);
    } else {
      CallsProgress(s.m, c.began, s.u.now, t, th, Apply(s, t, Go).u.cells[t].began);
    }
  }

  // ---------------------------------------------------------------- what the step leaves in t's own hands

  lemma GoCell(s: State, t: nat)
    requires Inv(s) && Enabled(s, t, Go) && Safe(s.m, s.threads[t])
    ensures CellOk(Apply(s, t, Go).u.cells[t], Apply(s, t, Go).threads[t].pc)
  {
    hide MemoryOk, Stamps, ProgressOk, Garbage;
    assert ThreadOk(s.m, s.u.cells[t], t, s.threads[t]);
  }

  /** The garbage of t after a step that deletes nothing and unlinks nothing. */
  lemma GarbageKept(life: map<Node, Life>, life': map<Node, Life>, t: nat, victim: Maybe<Node>, retired: seq<Node>)
    requires Garbage(life, t, victim, retired)
    requires forall n | MyUnlinked(life, t, n) :: n in life' && life'[n] == life[n]
    requires forall n | MyUnlinked(life', t, n) :: MyUnlinked(life, t, n)
    ensures Garbage(life', t, victim, retired)
  {
  }

  /** A node that was linked joins the garbage once. */
  lemma GarbageGrows(life: map<Node, Life>, now: nat, t: nat, retired: seq<Node>, n: Node)
    requires Garbage(life, t, None, retired) && IsLinked(life, n)
    ensures Garbage(life[n := Unlinked(now, t)], t, None, retired + [n])
    ensures Garbage(life[n := Unlinked(now, t)], t, Some(n), retired)
  {
  }

  lemma SearchCounts(m: Memory, th: Thread)
    requires Safe(m, th) && Searching(th.pc) && th.victim.None? && th.count == |th.retired|
    requires th.pc.MarkCas? || th.pc.UnlinkCas? ==> th.op.Remove?
    ensures var th' := NextThread(m, th);
            && th'.count == |th'.retired| && (th'.victim.Some? ==> th'.pc.Unlock?)
            && (Searching(th'.pc) || th'.pc.Discard? || th'.pc.Unlock?)
  {
  }

  lemma SearchBatch(m: Memory, c: Urcu.Cell, now: nat, t: nat, th: Thread)
    requires Batch(m.life, c, th) && Safe(m, th) && Searching(th.pc)
    requires th.pc.MarkCas? || th.pc.UnlinkCas? ==> th.op.Remove?
    ensures Batch(NextMemory(m, now, t, th).life, c, NextThread(m, th))
  {
    SearchCounts(m, th);
    hide NextMemory, NextThread, Safe;
  }

  /** What becomes of the garbage of a searching thread: an unlink adds to it. */
  lemma UnlinkGarbage(m: Memory, began: nat, now: nat, t: nat, th: Thread)
    requires MemoryOk(m) && Garbage(m.life, t, None, th.retired) && FindOk(m, began, th) && Safe(m, th) && th.victim.None?
    requires (th.pc.UnlinkCas? || (th.pc.Decide? && th.nxt.mark)) && PredCas(m, th)
    ensures Garbage(NextMemory(m, now, t, th).life, t, NextThread(m, th).victim, NextThread(m, th).retired)
  {
    hide Chain, SetOk, Adjacent, Justified, Observed, Garbage;
    PlaceIsLinked(m, began, th.pred, th.curr);
    GarbageGrows(m.life, now, t, th.retired, th.curr);
    hide MemoryOk, FindOk;
  }

  lemma NoGarbage(m: Memory, now: nat, t: nat, th: Thread)
    requires Safe(m, th) && Searching(th.pc) && th.victim.None?
    requires !((th.pc.UnlinkCas? || (th.pc.Decide? && th.nxt.mark)) && PredCas(m, th))
    requires th.pc.LinkCas? || th.pc.Discard? ==> m.life[th.own] == Private(t)
    ensures NextThread(m, th).victim.None? && NextThread(m, th).retired == th.retired
    ensures var life' := NextMemory(m, now, t, th).life;
            && (forall n | MyUnlinked(m.life, t, n) :: n in life' && life'[n] == m.life[n])
            && (forall n | MyUnlinked(life', t, n) :: MyUnlinked(m.life, t, n))
  {
  }

  lemma SearchGarbage(m: Memory, c: Urcu.Cell, now: nat, t: nat, th: Thread)
    requires MemoryOk(m) && ThreadOk(m, c, t, th) && Safe(m, th) && Searching(th.pc)
    ensures Garbage(NextMemory(m, now, t, th).life, t, NextThread(m, th).victim, NextThread(m, th).retired)
  {
    assert th.victim.None?;
    assert th.pc.LinkCas? || th.pc.Discard? ==> m.life[th.own] == Private(t);
    hide MemoryOk, FindOk, OwnOk, Batch, Garbage, NextMemory, NextThread, Justified;
    if (th.pc.UnlinkCas? || (th.pc.Decide? && th.nxt.mark)) && PredCas(m, th) {
      UnlinkGarbage(m, c.began, now, t, th);
    } else {
      NoGarbage(m, now, t, th);
      GarbageKept(m.life, NextMemory(m, now, t, th).life, t, th.victim, th.retired);
    }
  }

  /** Outside `find` the garbage only gets ready: a wait that starts now covers all of it. */
  lemma CallsGarbage(life: map<Node, Life>, c: Urcu.Cell, c': Urcu.Cell, now: nat, t: nat, th: Thread, th': Thread)
    requires GarbageOk(life, c, t, th)
    requires forall n | MyUnlinked(life, t, n) :: life[n].at <= now
    requires c'.called == (if th.pc.CallVictim? || th.pc.CallRetired? then now else c.called)
    requires th.pc.WaitVictim? || th.pc.WaitRetired? ==> c'.updater.Returned?
    requires th' == th.(pc := th'.pc)
    requires match th.pc
             case Enter => th'.pc.Lock?
             case Lock => th'.pc.ReadHead?
             case Discard => th'.pc.Unlock? && th.victim.None?
             case Unlock => th'.pc == AfterUnlock(th)
             case CallVictim => th'.pc.WaitVictim?
             case WaitVictim => th'.pc.FreeVictim?
             case CallRetired => th'.pc.WaitRetired?
             case WaitRetired => th'.pc.FreeRetired?
             case Done => th'.pc.Idle?
             case _ => false
    ensures GarbageOk(life, c', t, th')
  {
  }

  lemma CallsKeepGarbage(s: State, t: nat)
    requires Inv(s) && Enabled(s, t, Go) && Safe(s.m, s.threads[t])
    requires var pc := s.threads[t].pc; !Searching(pc) && !pc.FreeVictim? && !pc.FreeRetired?
    ensures var s' := Apply(s, t, Go); GarbageOk(s'.m.life, s'.u.cells[t], t, s'.threads[t])
  {
    var th, c := s.threads[t], s.u.cells[t];
    var s' := Apply(s, t, Go);
    assert ThreadOk(s.m, c, t, th);
    assert th.pc.Discard? ==> s.m.life[th.own] == Private(t);
    hide MemoryOk, ProgressOk, Garbage;
    CallsGarbage(s.m.life, c, s'.u.cells[t], s.u.now, t, th, s'.threads[t]);
    hide Batch, Stamps;
    if th.pc.Discard? {
      assert s'.m.life == s.m.life[th.own := Discarded];
      assert GarbageOk(s.m.life, s'.u.cells[t], t, s'.threads[t]);
      GarbageKept(s.m.life, s'.m.life, t, th.victim, th.retired);
      BatchEarly(s.m.life, s'.m.life, s'.u.cells[t], s'.threads[t]);
    }
  }

  lemma BatchEarly(life: map<Node, Life>, life': map<Node, Life>, c: Urcu.Cell, th: Thread)
    requires Batch(life, c, th) && th.pc.Unlock?
    ensures Batch(life', c, th)
  {
  }

  lemma FreesGarbage(m: Memory, c: Urcu.Cell, now: nat, t: nat, th: Thread)
    requires GarbageOk(m.life, c, t, th) && Safe(m, th)
    requires th.pc.FreeVictim? || th.pc.FreeRetired?
    ensures GarbageOk(NextMemory(m, now, t, th).life, c, t, NextThread(m, th))
  {
    var m', th' := NextMemory(m, now, t, th), NextThread(m, th);
    assert forall i | 0 <= i < |th'.retired| :: MyUnlinked(m'.life, t, th'.retired[i]);
  }

  lemma GoGarbage(s: State, t: nat)
    requires Inv(s) && Enabled(s, t, Go) && Safe(s.m, s.threads[t])
    ensures var s' := Apply(s, t, Go); GarbageOk(s'.m.life, s'.u.cells[t], t, s'.threads[t])
  {
    var th, c := s.threads[t], s.u.cells[t];
    assert ThreadOk(s.m, c, t, th);
    assert th.pc.MarkCas? || th.pc.UnlinkCas? ==> th.op.Remove?;
    hide MemoryOk, ProgressOk, Garbage, Batch, Stamps, NextMemory, NextThread;
    if Searching(th.pc) {
      SearchGarbage(s.m, c, s.u.now, t, th);
      SearchBatch(s.m, c, s.u.now, t, th);
    } else if th.pc.FreeVictim? || th.pc.FreeRetired? {
      FreesGarbage(s.m, c, s.u.now, t, th);
    } else {
      CallsKeepGarbage(s, t);
    }
  }

  // ---------------------------------------------------------------- stamps

  /** A step of the memory other than a deletion leaves no section behind. */
  lemma StampsKept(life: map<Node, Life>, life': map<Node, Life>, u: Urcu.State)
    requires Stamps(life, u)
    requires forall n | n in life' && life'[n].Unlinked? :: (n in life && life'[n] == life[n]) || life'[n].at == u.now
    requires forall n | n in life' && life'[n].Freed? :: n in life && life'[n] == life[n]
    ensures Stamps(life', u)
  {
  }

  /** Once the wait is over, no running section can hold a node of the batch. */
  lemma GraceCovers(s: State, t: nat, n: Node)
    requires Inv(s) && t < |s.threads| && s.u.cells[t].updater.Returned?
    requires MyUnlinked(s.m.life, t, n) && Expired(s.m.life, s.u.cells[t].called, n)
    ensures Stamps(Free(s.m, n).life, s.u)
    ensures forall r: nat | Urcu.InSection(s.u, r) :: !Held(s.m.life, s.u.cells[r].began, n)
  {
    hide MemoryOk, ThreadOk;
    Urcu.GraceCovers(s.u, t, s.m.life[n].at);
  }

  /** Events of the grace-period code neither end nor begin a section in the past. */
  lemma StampsThroughUrcu(life: map<Node, Life>, u: Urcu.State, mv: Urcu.Move)
    requires Stamps(life, u) && Urcu.Enabled(u, mv)
    ensures Stamps(life, Urcu.Apply(u, mv))
  {
    forall n | n in life && life[n].Freed? ensures Urcu.Covered(Urcu.Apply(u, mv), life[n].at) {
      Urcu.CoveredStays(u, mv, life[n].at);
    }
  }

  lemma FreesStamps(s: State, t: nat)
    requires Inv(s) && t < |s.threads| && Safe(s.m, s.threads[t])
    requires s.threads[t].pc.FreeVictim? || s.threads[t].pc.FreeRetired?
    ensures Stamps(NextMemory(s.m, s.u.now, t, s.threads[t]).life, s.u)
  {
    var th, c := s.threads[t], s.u.cells[t];
    assert ThreadOk(s.m, c, t, th);
    hide MemoryOk, ProgressOk, Stamps;
    var n := if th.pc.FreeVictim? then th.victim.value else th.retired[0];
    assert MyUnlinked(s.m.life, t, n);
    GraceCovers(s, t, n);
  }

  lemma OtherStamps(m: Memory, u: Urcu.State, t: nat, th: Thread)
    requires Stamps(m.life, u) && Safe(m, th) && !th.pc.FreeVictim? && !th.pc.FreeRetired?
    ensures Stamps(NextMemory(m, u.now, t, th).life, u)
  {
    StampsKept(m.life, NextMemory(m, u.now, t, th).life, u);
  }

  lemma GoStamps(s: State, t: nat)
    requires Inv(s) && Enabled(s, t, Go) && Safe(s.m, s.threads[t])
    ensures Stamps(Apply(s, t, Go).m.life, Apply(s, t, Go).u)
  {
    hide MemoryOk, ThreadOk, Stamps, NextMemory, NextThread;
    var th := s.threads[t];
    if th.pc.FreeVictim? || th.pc.FreeRetired? {
      FreesStamps(s, t);
    } else {
      OtherStamps(s.m, s.u, t, th);
    }
    if LibEvent(th.pc).Some? {
      StampsThroughUrcu(NextMemory(s.m, s.u.now, t, th).life, s.u, Urcu.Move(t, LibEvent(th.pc).value));
    }
  }

  // ---------------------------------------------------------------- every step, every run

  /** The threads that do not move keep what they know. */
  lemma OthersKeep(s: State, s': State, t: nat, r: nat)
    requires Inv(s) && Evolves(s.m, s'.m, s.u.now, t) && r != t && r < |s.threads|
    requires |s'.threads| == |s.threads| && |s'.u.cells| == |s.u.cells|
    requires s'.threads[r] == s.threads[r] && s'.u.cells[r] == s.u.cells[r]
    ensures ThreadOk(s'.m, s'.u.cells[r], r, s'.threads[r])
  {
    hide Evolves, Chain, SetOk, ProgressOk, GarbageOk, Stamps;
    var th, c := s.threads[r], s.u.cells[r];
    assert ThreadOk(s.m, c, r, th) && Urcu.ReaderOk(s.u, r);
    assert Reading(th.pc) ==> Urcu.InSection(s.u, r);
    OthersStay(s.m, s'.m, s.u.now, t, r, c, th);
  }

  lemma GoKeepsInv(s: State, t: nat)
    requires Inv(s) && Enabled(s, t, Go) && s.u.version < Urcu.UNASSIGNED
    ensures Inv(Apply(s, t, Go))
  {
    GoOutcome(s, t);
    GoCell(s, t);
    GoGarbage(s, t);
    GoStamps(s, t);
    var th := s.threads[t];
    var s' := Apply(s, t, Go);
    hide MemoryOk, ThreadOk, Stamps, Evolves, ProgressOk, GarbageOk, CellOk, NextMemory, NextThread, Safe;
    if LibEvent(th.pc).Some? { Urcu.StepKeepsInv(s.u, Urcu.Move(t, LibEvent(th.pc).value)); }
    hide Urcu.Inv;
    forall r | 0 <= r < |s'.threads| ensures ThreadOk(s'.m, s'.u.cells[r], r, s'.threads[r]) {
      if r == t { ThreadFromParts(s'.m, s'.u.cells[t], t, s'.threads[t]); } else { OthersKeep(s, s', t, r); }
    }
  }

  lemma ThreadFromParts(m: Memory, c: Urcu.Cell, t: nat, th: Thread)
    requires CellOk(c, th.pc) && ProgressOk(m, c.began, t, th) && GarbageOk(m.life, c, t, th)
    ensures ThreadOk(m, c, t, th)
  {
  }

  lemma LibKeepsThread(m: Memory, c: Urcu.Cell, c': Urcu.Cell, t: nat, th: Thread)
    requires ThreadOk(m, c, t, th) && (th.pc.Lock? || Waiting(th.pc))
    requires c'.called == c.called
    requires th.pc.Lock? ==> !c'.reader.Outside? && c'.updater == c.updater
    requires Waiting(th.pc) ==> c'.reader == c.reader && !c'.updater.NotSyncing?
    ensures ThreadOk(m, c', t, th)
  {
  }

  lemma LibKeepsInv(s: State, t: nat, e: Urcu.Event)
    requires Inv(s) && Enabled(s, t, Lib(e)) && s.u.version < Urcu.UNASSIGNED
    ensures Inv(Apply(s, t, Lib(e)))
  {
    hide MemoryOk, ThreadOk, Stamps;
    var s' := Apply(s, t, Lib(e));
    Urcu.StepKeepsInv(s.u, Urcu.Move(t, e));
    StampsThroughUrcu(s.m.life, s.u, Urcu.Move(t, e));
    assert ThreadOk(s.m, s.u.cells[t], t, s.threads[t]);
    LibKeepsThread(s.m, s.u.cells[t], s'.u.cells[t], t, s.threads[t]);
    forall r | 0 <= r < |s'.threads| ensures ThreadOk(s'.m, s'.u.cells[r], r, s'.threads[r]) {
      assert ThreadOk(s.m, s.u.cells[r], r, s.threads[r]);
    }
  }

  lemma CallKeepsThread(m: Memory, m': Memory, c: Urcu.Cell, t: nat, th: Thread, op: Op, k: int, n: Node)
    requires ThreadOk(m, c, t, th) && th.pc.Idle? && |m.hist| > 0
    requires m' == if op.Add? then Allocate(m, t, k, n) else m
    ensures ThreadOk(m', c, t, StartCall(m, th, op, k, n))
  {
  }

  lemma CallKeepsInv(s: State, t: nat, op: Op, k: int, n: Node)
    requires Inv(s) && Enabled(s, t, Call(op, k, n))
    ensures Inv(Apply(s, t, Call(op, k, n)))
  {
    var s' := Apply(s, t, Call(op, k, n));
    assert ThreadOk(s.m, s.u.cells[t], t, s.threads[t]);
    LatestIsSet(s.m);
    hide MemoryOk, ThreadOk, Evolves;
    AllocateKeeps(s.m, s.u.now, t, k, n);
    NothingEvolves(s.m, s.u.now, t);
    StampsKept(s.m.life, s'.m.life, s.u);
    hide Stamps;
    CallKeepsThread(s.m, s'.m, s.u.cells[t], t, s.threads[t], op, k, n);
    forall r | 0 <= r < |s'.threads| ensures ThreadOk(s'.m, s'.u.cells[r], r, s'.threads[r]) {
      if r != t { OthersKeep(s, s', t, r); }
    }
  }

  lemma StepKeepsInv(s: State, st: Step)
    requires Inv(s) && Enabled(s, st.t, st.a) && s.u.version < Urcu.UNASSIGNED
    ensures Inv(Apply(s, st.t, st.a))
  {
    hide Inv;
    match st.a
    case Go => GoKeepsInv(s, st.t);
    case Lib(e) => LibKeepsInv(s, st.t, e);
    case Call(op, k, n) => CallKeepsInv(s, st.t, op, k, n);
  }

  lemma InitInv(s: State)
    requires Init(s)
    ensures Inv(s)
  {
  }

  lemma RunStep(run: seq<State>, steps: seq<Step>, i: nat)
    requires IsRun(run, steps) && i + 1 < |run|
    ensures i < |steps| && run[i].u.version < Urcu.UNASSIGNED
    ensures Enabled(run[i], steps[i].t, steps[i].a) && run[i + 1] == Apply(run[i], steps[i].t, steps[i].a)
  {
    assert Follows(run, steps, i);
  }

  lemma {:induction false} RunKeepsInv(run: seq<State>, steps: seq<Step>, i: nat)
    requires IsRun(run, steps) && i < |run|
    ensures Inv(run[i])
  {
    hide Inv, Init, Apply;
    if i == 0 { InitInv(run[0]); }
    else {
      RunKeepsInv(run, steps, i - 1);
      RunStep(run, steps, i - 1);
      StepKeepsInv(run[i - 1], steps[i - 1]);
    }
  }
}
