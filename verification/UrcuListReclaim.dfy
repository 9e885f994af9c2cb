/** What becomes of the nodes of the URCU list: the unlink of a remove takes effect exactly when its
    place still links to the node, what a thread has unlinked is deleted when its call returns, a
    node that was not linked is deleted by the add that made it, and a thread between two calls
    holds up no synchronizer. */
module UrcuListReclaim {
  import Urcu
  import opened UrcuList
  import opened UrcuListInvariant
  import opened UrcuListSteps
  import opened UrcuListTheorems
  import opened UrcuListResults

  // ---------------------------------------------------------------- the unlink

  /** The place that t came from links to curr, without a mark. */
  ghost predicate PlaceLinks(m: Memory, th: Thread) {
    match th.pred
    case Root => m.head == th.curr
    case Of(n) => n in m.next && m.next[n].node == th.curr && !m.next[n].mark
  }

  /** t is about to unlink curr: as the remove that has marked it, or as a find that saw the mark. */
  predicate AboutToUnlink(th: Thread) {
    th.pc.UnlinkCas? || (th.pc.Decide? && th.nxt.mark)
  }

  /** The node curr, which was in the list and marked, is taken out of it by t and kept in hand to be
      deleted, and its place links to its successor. */
  ghost predicate TakesOut(m: Memory, now: nat, t: nat, th: Thread, m': Memory, th': Thread) {
    && IsLinked(m.life, th.curr) && th.curr in m.next && m.next[th.curr].mark
    && th.curr in m'.life && m'.life[th.curr] == Unlinked(now, t)
    && (if th.pred.Root? then m'.head == m.next[th.curr].node
        else th.pred.node in m'.next && m'.next[th.pred.node] == Link(m.next[th.curr].node, false))
    && (th.pc.UnlinkCas? ==> th'.victim == Some(th.curr) && th'.pc.Unlock?)
    && (th.pc.Decide? ==> th'.retired == th.retired + [th.curr])
  }

  /** Nothing is changed. */
  predicate LeavesAlone(m: Memory, th: Thread, m': Memory, th': Thread) {
    && m' == m && th'.victim == None && th'.retired == th.retired
    && (if th.pc.UnlinkCas? then th'.pc.Unlock? else th'.pc.ReadHead?)
  }

  lemma UnlinkInStep(m: Memory, c: Urcu.Cell, now: nat, t: nat, th: Thread)
    requires MemoryOk(m) && ThreadOk(m, c, t, th) && Safe(m, th) && AboutToUnlink(th) && (th.pc.Decide? ==> !StopsAtKey(m, th))
    ensures if PlaceLinks(m, th) then TakesOut(m, now, t, th, NextMemory(m, now, t, th), NextThread(m, th))
            else LeavesAlone(m, th, NextMemory(m, now, t, th), NextThread(m, th))
  {
    if PlaceLinks(m, th) {
      assert PredCas(m, th);
      PlaceIsLinked(m, c.began, th.pred, th.curr);
    }
    hide Chain, SetOk;
  }

  /** The unlink is exact: it takes the node out of the list if the place still links to it, and if
      it does not, it changes nothing. */
  lemma UnlinkIsExact(s: State, t: nat)
    requires Inv(s) && Enabled(s, t, Go) && AboutToUnlink(s.threads[t])
    requires s.threads[t].pc.Decide? ==> !StopsAtKey(s.m, s.threads[t])
    ensures |Apply(s, t, Go).threads| == |s.threads|
    ensures var s', th := Apply(s, t, Go), s.threads[t];
            if PlaceLinks(s.m, th) then TakesOut(s.m, s.u.now, t, th, s'.m, s'.threads[t])
            else LeavesAlone(s.m, th, s'.m, s'.threads[t])
  {
    NeverTouchesDead(s, t);
    var m, th := s.m, s.threads[t];
    assert ThreadOk(m, s.u.cells[t], t, th);
    hide MemoryOk, ThreadOk, NextMemory, NextThread, TakesOut, LeavesAlone, PlaceLinks, Safe;
    UnlinkInStep(m, s.u.cells[t], s.u.now, t, th);
  }

  // ---------------------------------------------------------------- what is unlinked is deleted

  /** A thread between two calls has nothing left to delete. */
  lemma NothingInHand(s: State, t: nat, n: Node)
    requires Inv(s) && t < |s.threads| && (s.threads[t].pc.Idle? || s.threads[t].pc.Done?)
    ensures !MyUnlinked(s.m.life, t, n)
  {
    assert ThreadOk(s.m, s.u.cells[t], t, s.threads[t]);
  }

  lemma {:induction false} UnlinkedOrFreed(run: seq<State>, steps: seq<Step>, i: nat, j: nat, t: nat, n: Node)
    requires IsRun(run, steps) && i <= j < |run| && MyUnlinked(run[i].m.life, t, n)
    ensures n in run[j].m.life && (MyUnlinked(run[j].m.life, t, n) || run[j].m.life[n].Freed?)
  {
    hide IsRun, Inv, Apply, Enabled;
    if i < j {
      UnlinkedOrFreed(run, steps, i, j - 1, t, n);
      RunStep(run, steps, j - 1);
      RunKeepsInv(run, steps, j - 1);
      StepLives(run[j - 1], steps[j - 1], n);
    }
  }

  /** What a thread has unlinked, as a remover or as a helper, is deleted when its call is done. */
  lemma FreedWhenDone(run: seq<State>, steps: seq<Step>, i: nat, j: nat, t: nat, n: Node)
    requires IsRun(run, steps) && i <= j < |run| && MyUnlinked(run[i].m.life, t, n)
    requires t < |run[j].threads| && (run[j].threads[t].pc.Idle? || run[j].threads[t].pc.Done?)
    ensures n in run[j].m.life && run[j].m.life[n].Freed?
  {
    UnlinkedOrFreed(run, steps, i, j, t, n);
    RunKeepsInv(run, steps, j);
    NothingInHand(run[j], t, n);
  }

  /** The successful mark of a remove: its node is in the list. */
  lemma MarkedIsLinked(s: State, t: nat)
    requires Inv(s) && Enabled(s, t, Go) && s.threads[t].pc.MarkCas?
    requires Apply(s, t, Go).threads[t].pc.UnlinkCas?
    ensures var s', n := Apply(s, t, Go), s.threads[t].curr;
            IsLinked(s'.m.life, n) && n in s'.m.next && s'.m.next[n].mark && s'.threads[t].curr == n
  {
    NeverTouchesDead(s, t);
    assert ThreadOk(s.m, s.u.cells[t], t, s.threads[t]);
    hide Chain, SetOk, Stamps, GarbageOk;
  }

  /** After the unlink t takes no node out of the list any more in this call. */
  predicate PastUnlink(pc: Pc) {
    pc.Unlock? || pc.CallVictim? || pc.WaitVictim? || pc.FreeVictim? || pc.CallRetired? || pc.WaitRetired?
    || pc.FreeRetired? || pc.Done?
  }

  lemma PastUnlinkInStep(m: Memory, now: nat, t: nat, th: Thread, n: Node)
    requires Safe(m, th) && PastUnlink(th.pc) && IsLinked(m.life, n) && n in m.next && m.next[n].mark
    requires th.pc.FreeRetired? && th.retired != [] ==> MyUnlinked(m.life, t, th.retired[0])
    requires th.pc.FreeVictim? && th.victim.Some? ==> MyUnlinked(m.life, t, th.victim.value)
    ensures var m', th' := NextMemory(m, now, t, th), NextThread(m, th);
            && IsLinked(m'.life, n) && n in m'.next && m'.next[n].mark
            && (PastUnlink(th'.pc) || (th'.pc.Idle? && th.pc.Done?))
  {
  }

  lemma PastUnlinkKeeps(s: State, st: Step, n: Node)
    requires Inv(s) && Enabled(s, st.t, st.a) && PastUnlink(s.threads[st.t].pc) && IsLinked(s.m.life, n)
    requires n in s.m.next && s.m.next[n].mark
    ensures |Apply(s, st.t, st.a).threads| == |s.threads|
    ensures var s' := Apply(s, st.t, st.a);
            && IsLinked(s'.m.life, n) && n in s'.m.next && s'.m.next[n].mark
            && (PastUnlink(s'.threads[st.t].pc) || (s'.threads[st.t].pc.Idle? && s.threads[st.t].pc.Done?))
  {
    NeverTouchesDead(s, st.t);
    var th := s.threads[st.t];
    assert ThreadOk(s.m, s.u.cells[st.t], st.t, th);
    assert th.pc.FreeRetired? ==> MyUnlinked(s.m.life, st.t, th.retired[0]);
    assert th.pc.FreeVictim? ==> MyUnlinked(s.m.life, st.t, th.victim.value);
    hide Inv, ThreadOk, NextMemory, NextThread, Safe;
    PastUnlinkInStep(s.m, s.u.now, st.t, th, n);
  }

  lemma {:induction false} StaysMarked(run: seq<State>, steps: seq<Step>, i: nat, b: nat, t: nat, n: Node)
    requires IsRun(run, steps) && i <= b < |run| && |run| == |steps| + 1
    requires forall x | i <= x < b :: steps[x].t == t && t < |run[x].threads| && !run[x].threads[t].pc.Done?
    requires t < |run[i].threads| && PastUnlink(run[i].threads[t].pc)
    requires IsLinked(run[i].m.life, n) && n in run[i].m.next && run[i].m.next[n].mark
    ensures t < |run[b].threads| && PastUnlink(run[b].threads[t].pc)
    ensures IsLinked(run[b].m.life, n) && n in run[b].m.next && run[b].m.next[n].mark
  {
    hide IsRun, Inv, Apply, Enabled, PastUnlink;
    if i < b {
      StaysMarked(run, steps, i, b - 1, t, n);
      RunStep(run, steps, b - 1);
      RunKeepsInv(run, steps, b - 1);
      PastUnlinkKeeps(run[b - 1], steps[b - 1], n);
    }
  }

  lemma GoesAtUnlink(s: State, st: Step)
    requires Inv(s) && Enabled(s, st.t, st.a) && s.threads[st.t].pc.UnlinkCas?
    ensures st.a.Go?
  {
  }

  /** When a remove has marked its node and nobody else moves from then on, then the node is deleted
      when the remove is done if and only if the place still linked to it at the moment of the mark.
      Otherwise, when a new node has come between or the place is itself on its way out, the node
      stays in the list with its mark, for a later find to unlink, although the remove has answered
      true. */
  lemma RemoveFreesIffPlaceLinks(run: seq<State>, steps: seq<Step>, j: nat, b: nat, t: nat)
    requires IsRun(run, steps) && |run| == |steps| + 1 && j + 1 < b < |run|
    requires steps[j] == Step(t, Go) && t < |run[j].threads| && run[j].threads[t].pc.MarkCas?
    requires t < |run[j + 1].threads| && run[j + 1].threads[t].pc.UnlinkCas?
    requires forall x | j < x < b :: steps[x].t == t && t < |run[x].threads| && !run[x].threads[t].pc.Done?
    requires t < |run[b].threads| && run[b].threads[t].pc.Done?
    ensures var n, m := run[j].threads[t].curr, run[b].m;
            && n in m.life
            && (m.life[n].Freed? <==> PlaceLinks(run[j + 1].m, run[j + 1].threads[t]))
            && (!m.life[n].Freed? ==> m.life[n].Linked? && n in m.next && m.next[n].mark)
  {
    hide IsRun, Inv, Apply, Enabled;
    var n := run[j].threads[t].curr;
    RunStep(run, steps, j);
    RunKeepsInv(run, steps, j);
    MarkedIsLinked(run[j], t);
    RunStep(run, steps, j + 1);
    RunKeepsInv(run, steps, j + 1);
    assert steps[j + 1].t == t;
    GoesAtUnlink(run[j + 1], steps[j + 1]);
    UnlinkIsExact(run[j + 1], t);
    if PlaceLinks(run[j + 1].m, run[j + 1].threads[t]) {
      FreedWhenDone(run, steps, j + 2, b, t, n);
    } else {
      StaysMarked(run, steps, j + 2, b, t, n);
    }
  }

  /** How it comes about: an add links its node at the place of a remove just before the mark. */
  ghost predicate AddComesBetween(s: State, t: nat, r: nat) {
    && t < |s.threads| && r < |s.threads| && r != t
    && var th, ad := s.threads[t], s.threads[r];
       && th.pc.MarkCas? && th.curr in s.m.next && s.m.next[th.curr] == Link(th.nxt.node, false)
       && ad.pc.LinkCas? && ad.pred == th.pred && ad.curr == th.curr && PlaceLinks(s.m, ad)
  }

  lemma LinkComesFirst(s: State, t: nat, r: nat)
    requires Inv(s) && Enabled(s, r, Go) && AddComesBetween(s, t, r)
    ensures var s', th := Apply(s, r, Go), s.threads[t];
            && Enabled(s', t, Go) && s'.threads[t] == th && !PlaceLinks(s'.m, th)
            && th.curr in s'.m.next && s'.m.next[th.curr] == Link(th.nxt.node, false)
  {
    NeverTouchesDead(s, r);
    var m, th, ad := s.m, s.threads[t], s.threads[r];
    assert ThreadOk(m, s.u.cells[r], r, ad) && ThreadOk(m, s.u.cells[t], t, th);
    PlaceIsLinked(m, s.u.cells[r].began, ad.pred, ad.curr);
    assert ad.own != th.curr && (ad.pred.Of? ==> ad.pred.node != th.curr) by { assert FIRST !in m.key; }
    hide Inv, ThreadOk;
  }

  lemma MarkLeavesPlace(s: State, t: nat)
    requires Inv(s) && Enabled(s, t, Go) && s.threads[t].pc.MarkCas? && !PlaceLinks(s.m, s.threads[t])
    requires var th := s.threads[t]; th.curr in s.m.next && s.m.next[th.curr] == Link(th.nxt.node, false)
    ensures var s' := Apply(s, t, Go);
            && Enabled(s', t, Go) && s'.threads[t].pc.UnlinkCas? && s'.threads[t].result && !PlaceLinks(s'.m, s'.threads[t])
            && s'.threads[t].curr == s.threads[t].curr
  {
    NeverTouchesDead(s, t);
    hide Inv;
  }

  /** Then the remove marks its node, fails to unlink it, and answers true, and the node is still in
      the list. */
  lemma AddBetweenLeavesMarked(s: State, t: nat, r: nat)
    requires Inv(s) && Enabled(s, r, Go) && AddComesBetween(s, t, r) && s.u.version < Urcu.UNASSIGNED
    ensures var s1 := Apply(s, r, Go);
            && Enabled(s1, t, Go)
            && var s2 := Apply(s1, t, Go);
               && Enabled(s2, t, Go)
               && var s3, n := Apply(s2, t, Go), s.threads[t].curr;
                  && s3.threads[t].pc.Unlock? && s3.threads[t].result && s3.threads[t].victim == None
                  && IsLinked(s3.m.life, n) && n in s3.m.next && s3.m.next[n].mark
  {
    LinkComesFirst(s, t, r);
    StepKeepsInv(s, Step(r, Go));
    var s1 := Apply(s, r, Go);
    MarkLeavesPlace(s1, t);
    MarkedIsLinked(s1, t);
    assert s1.u.version == s.u.version;
    StepKeepsInv(s1, Step(t, Go));
    var s2 := Apply(s1, t, Go);
    UnlinkIsExact(s2, t);
    ResultStands(s2, t);
    hide Inv, Apply, Enabled, PlaceLinks;
  }

  lemma ResultStands(s: State, t: nat)
    requires Enabled(s, t, Go) && s.threads[t].pc.UnlinkCas? && Safe(s.m, s.threads[t])
    ensures Apply(s, t, Go).threads[t].result == s.threads[t].result
  {
  }

  // ---------------------------------------------------------------- new nodes

  /** A node that is not linked yet is the one of a running add. */
  predicate BelongsToAdd(s: State, n: Node) {
    n in s.m.life && s.m.life[n].Private? ==>
      && s.m.life[n].owner < |s.threads|
      && var th := s.threads[s.m.life[n].owner];
         th.op.Add? && OwnsNew(th.pc) && th.own == n
  }

  /** What is not linked after a step was not linked before. */
  lemma PrivateBefore(m: Memory, now: nat, t: nat, th: Thread, n: Node)
    requires Safe(m, th) && !th.pc.Idle?
    ensures var m' := NextMemory(m, now, t, th); n in m'.life && m'.life[n].Private? ==> n in m.life && m'.life[n] == m.life[n]
  {
  }

  /** An add goes on as long as its node is not linked. */
  lemma AddGoesOn(m: Memory, now: nat, t: nat, th: Thread)
    requires Safe(m, th) && th.op.Add? && OwnsNew(th.pc) && th.own in m.life && !th.pc.MarkCas? && !th.pc.UnlinkCas?
    ensures var m', th' := NextMemory(m, now, t, th), NextThread(m, th);
            th.own in m'.life && m'.life[th.own].Private? ==> th'.op.Add? && OwnsNew(th'.pc) && th'.own == th.own
  {
  }

  lemma StepKeepsNew(s: State, st: Step, n: Node)
    requires Inv(s) && Enabled(s, st.t, st.a) && BelongsToAdd(s, n)
    ensures BelongsToAdd(Apply(s, st.t, st.a), n)
  {
    var th := s.threads[st.t];
    assert ThreadOk(s.m, s.u.cells[st.t], st.t, th);
    hide Inv, ThreadOk, NextMemory, NextThread;
    if st.a.Go? {
      NeverTouchesDead(s, st.t);
      PrivateBefore(s.m, s.u.now, st.t, th, n);
      if th.op.Add? && OwnsNew(th.pc) && th.own in s.m.life { AddGoesOn(s.m, s.u.now, st.t, th); }
      hide Safe;
    } else {
      LibKeepsNew(s, st, n);
      hide Apply, Enabled, BelongsToAdd;
    }
  }

  lemma LibKeepsNew(s: State, st: Step, n: Node)
    requires Enabled(s, st.t, st.a) && !st.a.Go? && BelongsToAdd(s, n)
    ensures BelongsToAdd(Apply(s, st.t, st.a), n)
  {
  }

  /** No new node is lost: one that is not in the list, and was never, belongs to an add that has
      not answered yet, or that add has deleted it. */
  lemma {:induction false} NewNodesBelong(run: seq<State>, steps: seq<Step>, i: nat, n: Node)
    requires IsRun(run, steps) && i < |run|
    ensures BelongsToAdd(run[i], n)
  {
    hide IsRun, Inv, Apply, BelongsToAdd;
    if i == 0 {
      NoneAtStart(run, steps, n);
    } else {
      NewNodesBelong(run, steps, i - 1, n);
      RunStep(run, steps, i - 1);
      RunKeepsInv(run, steps, i - 1);
      StepKeepsNew(run[i - 1], steps[i - 1], n);
    }
  }

  lemma NoneAtStart(run: seq<State>, steps: seq<Step>, n: Node)
    requires IsRun(run, steps)
    ensures BelongsToAdd(run[0], n)
  {
  }

  // ---------------------------------------------------------------- idle threads hold up nobody

  /** A thread between two calls, or waiting for others, shows no version: it holds up no
      synchronizer. */
  lemma IdleHoldsUpNobody(run: seq<State>, steps: seq<Step>, i: nat, t: nat)
    requires IsRun(run, steps) && i < |run| && t < |run[i].threads|
    ensures |run[i].u.cells| == |run[i].threads|
    ensures var th, c := run[i].threads[t], run[i].u.cells[t];
            !th.pc.Lock? && !Reading(th.pc) ==> c.reader.Outside? && c.slot >= Urcu.UNASSIGNED > run[i].u.version
  {
    RunKeepsInv(run, steps, i);
    assert ThreadOk(run[i].m, run[i].u.cells[t], t, run[i].threads[t]);
    assert Urcu.ReaderOk(run[i].u, t);
  }
}
