/** A call of the URCU list that runs alone comes to its end when no other thread shows a version: it
    waits for those that do.  A search that finds its place changed goes back to the head once, and
    then meets each node of the list once. */
module UrcuListSolo {
  import Urcu
  import opened UrcuSolo
  import opened UrcuList
  import opened UrcuListInvariant
  import opened UrcuListSteps
  import opened UrcuListTheorems
  import opened UrcuListResults
  import opened UrcuListReclaim

  // ---------------------------------------------------------------- how far it is to the end of the list

  /** The nodes of the list after c. */
  ghost function Near(m: Memory, c: Node): nat {
    |Beyond(m, c)|
  }

  lemma NextIsNearer(m: Memory, c: Node)
    requires MemoryOk(m) && IsLinked(m.life, c) && c != FIRST
    ensures c in m.next && IsLinked(m.life, m.next[c].node) && Near(m, m.next[c].node) < Near(m, c)
  {
    var d := m.next[c].node;
    NextInChain(m, c, d);
    assert d in Beyond(m, c) && d !in Beyond(m, d);
    assert FIRST !in m.key;
    forall x | x in Beyond(m, d) ensures x in Beyond(m, c) - {d} {}
    hide MemoryOk;
    Subset(Beyond(m, d), Beyond(m, c) - {d});
  }

  lemma {:induction false} Subset(a: set<Node>, b: set<Node>)
    requires a <= b
    ensures |a| <= |b|
    decreases a
  {
    if a != {} {
      var x :| x in a;
      Subset(a - {x}, b - {x});
    }
  }

  lemma NoneFartherThanHead(m: Memory, c: Node)
    requires MemoryOk(m) && IsLinked(m.life, c)
    ensures Near(m, c) <= Near(m, m.head)
  {
    assert FIRST !in m.key;
    hide SetOk;
    forall x | x in Beyond(m, c) ensures x in Beyond(m, m.head) {}
    Subset(Beyond(m, c), Beyond(m, m.head));
  }

  /** Only the keys and which nodes are linked matter. */
  lemma SameNear(m: Memory, m': Memory, c: Node)
    requires m'.key == m.key && m'.life == m.life
    ensures Near(m', c) == Near(m, c)
  {
    assert Beyond(m', c) == Beyond(m, c);
  }

  lemma UnlinkedIsNotNear(m: Memory, now: nat, t: nat, th: Thread, d: Node)
    requires th.curr in m.life && !Below(m.key, d, th.curr)
    ensures Near(Unlink(m, now, t, th), d) == Near(m, d)
  {
    assert Beyond(Unlink(m, now, t, th), d) == Beyond(m, d);
  }

  // ---------------------------------------------------------------- the bound

  /** The search has its place: pred links to curr, and what was read of curr still stands. */
  ghost predicate OnTrack(m: Memory, th: Thread) {
    && PlaceLinks(m, th)
    && (th.pc.RecheckNext? || th.pc.CheckPred? || th.pc.Decide? ==> th.curr in m.next && m.next[th.curr] == th.nxt)
  }

  /** An upper bound on the own steps after find has returned. */
  function EndLeft(th: Thread, wait: nat, n: nat): nat {
    match th.pc
    case UnlinkCas => 2 * n + 10 + |th.retired|
    case Discard => 2 * n + 10 + |th.retired|
    case Unlock => 2 * n + 9 + |th.retired|
    case CallVictim => 2 * n + 8 + |th.retired|
    case WaitVictim => wait + n + 5 + |th.retired|
    case FreeVictim => n + 5 + |th.retired|
    case CallRetired => n + 4 + |th.retired|
    case WaitRetired => wait + 1 + |th.retired|
    case FreeRetired => if |th.retired| == 0 then 1 else |th.retired|
    case _ => 0
  }

  /** From the head on: five steps a node, one of them to delete it if it was unlinked. */
  function FromHead(th: Thread, n: nat, far: nat): nat {
    2 * n + 17 + |th.retired| + 5 * far
  }

  /** An upper bound on the own steps of a call that runs alone, for the nodes after curr and after
      the head. */
  ghost function CallLeft(m: Memory, th: Thread, lock: nat, wait: nat, n: nat, near: nat, far: nat): nat {
    var found, again := 2 * n + 12 + |th.retired| + 5 * near, FromHead(th, n, far);
    match th.pc
    case Enter => again + 4
    case Lock => again + lock
    case ReadHead => again
    case CheckHead => if m.head == th.curr && th.pred.Root? then found + 4 else again + 4
    case ReadNext => if OnTrack(m, th) then found + 3 else again + 3
    case RecheckNext => if OnTrack(m, th) then found + 2 else again + 2
    case CheckPred => if OnTrack(m, th) then found + 1 else if PlaceLinks(m, th) then again + 5 else again + 1
    case Decide => if OnTrack(m, th) then found else again + 4
    case LinkCas => if PlaceLinks(m, th) then 2 * n + 10 + |th.retired| else again + 1
    case MarkCas => if th.curr in m.next && m.next[th.curr] == Link(th.nxt.node, false) then 2 * n + 11 + |th.retired| else again + 1
    case _ => EndLeft(th, wait, n)
  }

  ghost function StepsLeftOf(s: State, t: nat): nat
    requires t < |s.threads|
  {
    CallLeft(s.m, s.threads[t], LockLeft(s.u, t), WaitLeft(s.u, t), |s.u.cells|,
             Near(s.m, s.threads[t].curr), Near(s.m, s.m.head))
  }

  // ---------------------------------------------------------------- every own step counts

  /** Up to the test of pred. */
  predicate Reads(pc: Pc) {
    pc.Enter? || pc.Lock? || pc.ReadHead? || pc.CheckHead? || pc.ReadNext? || pc.RecheckNext? || pc.CheckPred?
  }

  lemma ReadsFall(m: Memory, now: nat, t: nat, th: Thread, lock: nat, lock': nat, wait: nat, n: nat, near: nat, far: nat)
    requires Safe(m, th) && Reads(th.pc) && (th.pc.Enter? ==> lock' == 3) && (th.pc.Lock? ==> lock > 0)
    requires (th.op.Add? && th.pc.ReadNext? ==> th.pred != Of(th.own)) && (m.head == th.curr ==> near == far)
    ensures var th', m' := NextThread(m, th), NextMemory(m, now, t, th);
            var near' := if th.pc.ReadHead? then far else near;
            && CallLeft(m', th', lock', wait, n, near', far) < CallLeft(m, th, lock, wait, n, near, far)
            && m'.key == m.key && m'.life == m.life && m'.head == m.head
            && (th.pc.ReadHead? ==> th'.curr == m.head) && (!th.pc.ReadHead? ==> th'.curr == th.curr)
  {
  }

  /** At the decision: the search returns. */
  lemma ReturnFalls(m: Memory, now: nat, t: nat, th: Thread, lock: nat, wait: nat, n: nat, near: nat, far: nat)
    requires Safe(m, th) && th.pc.Decide? && StopsAtKey(m, th) && (th.op.Add? ==> th.pred != Of(th.own) && th.curr != th.own)
    ensures var th', m' := NextThread(m, th), NextMemory(m, now, t, th);
            && CallLeft(m', th', lock, wait, n, near, far) < CallLeft(m, th, lock, wait, n, near, far)
            && m'.key == m.key && m'.life == m.life && m'.head == m.head && th'.curr == th.curr
  {
  }

  /** It goes on to the next node, or back. */
  lemma MoveOnFalls(m: Memory, now: nat, t: nat, th: Thread, lock: nat, wait: nat, n: nat, near: nat, near': nat, far: nat)
    requires Safe(m, th) && th.pc.Decide? && !StopsAtKey(m, th) && !(th.nxt.mark && PlaceLinks(m, th))
    requires near' <= far || th.nxt.mark || !(th.curr in m.next && m.next[th.curr] == th.nxt)
    requires OnTrack(m, th) && !th.nxt.mark ==> near' < near
    ensures var th', m' := NextThread(m, th), NextMemory(m, now, t, th);
            && CallLeft(m', th', lock, wait, n, if th.nxt.mark then near else near', far) < CallLeft(m, th, lock, wait, n, near, far)
            && m' == m && (th'.curr == if th.nxt.mark then th.curr else th.nxt.node)
  {
  }

  /** What the thread does when it unlinks a node that it has found marked. */
  lemma HelpStep(m: Memory, now: nat, t: nat, th: Thread)
    requires Safe(m, th) && th.pc.Decide? && !StopsAtKey(m, th) && th.nxt.mark && PlaceLinks(m, th)
    ensures var th' := NextThread(m, th);
            && th'.pc.ReadNext? && th'.curr == th.nxt.node && th'.pred == th.pred && th'.retired == th.retired + [th.curr]
            && NextMemory(m, now, t, th) == Unlink(m, now, t, th)
  {
    assert PredCas(m, th);
  }

  lemma LinksAfterUnlink(m: Memory, now: nat, t: nat, th: Thread, th': Thread)
    requires th'.pred == th.pred && th'.curr == th.nxt.node
    ensures PlaceLinks(Unlink(m, now, t, th), th')
  {
  }

  /** It unlinks the node and goes on to the next one. */
  lemma HelpFalls(m: Memory, now: nat, t: nat, th: Thread, lock: nat, wait: nat, n: nat, near: nat, far: nat, near': nat, far': nat)
    requires Safe(m, th) && th.pc.Decide? && !StopsAtKey(m, th) && th.nxt.mark && OnTrack(m, th) && near' < near
    ensures var th', m' := NextThread(m, th), NextMemory(m, now, t, th);
            && CallLeft(m', th', lock, wait, n, near', far') < CallLeft(m, th, lock, wait, n, near, far)
            && m' == Unlink(m, now, t, th) && th'.curr == th.nxt.node
  {
    HelpStep(m, now, t, th);
    var th' := NextThread(m, th);
    LinksAfterUnlink(m, now, t, th, th');
    hide NextThread, NextMemory, PlaceLinks, StopsAtKey, Unlink, Safe;
  }

  /** After the search. */
  lemma EndFalls(
    m: Memory, now: nat, t: nat, th: Thread, lock: nat, lock': nat, wait: nat, wait': nat, n: nat, near: nat, far: nat, near': nat, far': nat)
    requires Safe(m, th) && !th.pc.Idle? && !th.pc.Done? && !Reads(th.pc) && !th.pc.Decide?
    requires (th.pc.CallVictim? || th.pc.CallRetired? ==> wait' == n + 2) && (th.pc.WaitVictim? || th.pc.WaitRetired? ==> wait > 0)
    requires th.pc.LinkCas? || th.pc.MarkCas? ==>
               NextMemory(m, now, t, th) == m ==> near' == near && far' == far
    ensures CallLeft(NextMemory(m, now, t, th), NextThread(m, th), lock', wait', n, near', far') < CallLeft(m, th, lock, wait, n, near, far)
  {
  }

  // ---------------------------------------------------------------- the step, the run

  /** What a step of the list code finds of the counts of URCU. */
  lemma CountsMove(s: State, t: nat)
    requires Inv(s) && Enabled(s, t, Go) && !s.threads[t].pc.Done?
    ensures Safe(s.m, s.threads[t])
    ensures var th, u' := s.threads[t], Apply(s, t, Go).u;
            && |u'.cells| == |s.u.cells|
            && (th.pc.Enter? ==> LockLeft(u', t) == 3) && (th.pc.Lock? ==> LockLeft(s.u, t) > 0)
            && (th.pc.CallVictim? || th.pc.CallRetired? ==> WaitLeft(u', t) == |s.u.cells| + 2)
            && (th.pc.WaitVictim? || th.pc.WaitRetired? ==> WaitLeft(s.u, t) > 0)
  {
    NeverTouchesDead(s, t);
    var th := s.threads[t];
    if th.pc.Enter? { LockStarts(s.u, t); }
    if th.pc.CallVictim? || th.pc.CallRetired? { WaitStarts(s.u, t); }
    hide Inv, NextMemory, NextThread;
  }

  /** A step of the list code before the decision, or after the search. */
  lemma PlainStepFalls(s: State, t: nat)
    requires Inv(s) && Enabled(s, t, Go) && !s.threads[t].pc.Done? && !s.threads[t].pc.Decide?
    ensures StepsLeftOf(Apply(s, t, Go), t) < StepsLeftOf(s, t)
  {
    CountsMove(s, t);
    var m, th, s' := s.m, s.threads[t], Apply(s, t, Go);
    assert ThreadOk(m, s.u.cells[t], t, th);
    OwnIsApart(m, s.u.cells[t].began, t, th);
    hide Inv, ThreadOk, Near, NextMemory, NextThread, CallLeft, LockLeft, WaitLeft, Safe, Urcu.Apply;
    var lock, lock' := LockLeft(s.u, t), LockLeft(s'.u, t);
    var wait, wait', n := WaitLeft(s.u, t), WaitLeft(s'.u, t), |s.u.cells|;
    var near, far := Near(m, th.curr), Near(m, m.head);
    var near', far' := Near(s'.m, s'.threads[t].curr), Near(s'.m, s'.m.head);
    if Reads(th.pc) {
      ReadsFall(m, s.u.now, t, th, lock, lock', wait', n, near, far);
      SameNear(m, s'.m, s'.threads[t].curr);
      SameNear(m, s'.m, m.head);
      ReadsDoNotWait(m, th, lock, wait, wait', n, near, far);
    } else {
      KeepsCurr(m, th);
      EndFalls(m, s.u.now, t, th, lock, lock', wait, wait', n, near, far, near', far');
    }
  }

  lemma ReadsDoNotWait(m: Memory, th: Thread, lock: nat, wait: nat, wait': nat, n: nat, near: nat, far: nat)
    requires Reads(th.pc)
    ensures CallLeft(m, th, lock, wait, n, near, far) == CallLeft(m, th, lock, wait', n, near, far)
  {
  }

  lemma KeepsCurr(m: Memory, th: Thread)
    requires Safe(m, th) && !Reads(th.pc) && !th.pc.Decide?
    ensures NextThread(m, th).curr == th.curr
  {
  }

  /** The new node of an add is not the place that the search has come to. */
  lemma OwnIsApart(m: Memory, began: nat, t: nat, th: Thread)
    requires ProgressOk(m, began, t, th)
    ensures th.op.Add? && (th.pc.ReadNext? || th.pc.Decide?) ==> th.pred != Of(th.own) && th.curr != th.own
  {
  }

  /** The facts about distances that the decision needs. */
  lemma DecideNear(m: Memory, c: Urcu.Cell, now: nat, t: nat, th: Thread)
    requires MemoryOk(m) && ThreadOk(m, c, t, th) && th.pc.Decide?
    ensures PlaceLinks(m, th) && th.nxt.mark ==>
              OnTrack(m, th) && Near(m, th.nxt.node) < Near(m, th.curr) && Near(Unlink(m, now, t, th), th.nxt.node) == Near(m, th.nxt.node)
    ensures OnTrack(m, th) ==> Near(m, th.nxt.node) < Near(m, th.curr)
    ensures !th.nxt.mark && th.curr in m.next && m.next[th.curr] == th.nxt ==> Near(m, th.nxt.node) <= Near(m, m.head)
  {
    if PlaceLinks(m, th) {
      PlaceIsLinked(m, c.began, th.pred, th.curr);
      NextIsNearer(m, th.curr);
      if th.nxt.mark {
        assert m.next[th.curr] == th.nxt;
        NextInChain(m, th.curr, th.curr);
        assert !Below(m.key, th.nxt.node, th.curr) by { assert Below(m.key, th.curr, th.nxt.node) && FIRST !in m.key; }
        UnlinkedIsNotNear(m, now, t, th, th.nxt.node);
      }
    }
    if !th.nxt.mark && th.curr in m.next && m.next[th.curr] == th.nxt {
      assert IsLinked(m.life, th.curr);
      NextInChain(m, th.curr, th.curr);
      NoneFartherThanHead(m, th.nxt.node);
    }
    hide MemoryOk, ThreadOk, Near, Unlink;
  }

  lemma DecisionFalls(s: State, t: nat)
    requires Inv(s) && Enabled(s, t, Go) && s.threads[t].pc.Decide?
    ensures StepsLeftOf(Apply(s, t, Go), t) < StepsLeftOf(s, t)
  {
    NeverTouchesDead(s, t);
    var m, th, s' := s.m, s.threads[t], Apply(s, t, Go);
    assert ThreadOk(m, s.u.cells[t], t, th);
    OwnIsApart(m, s.u.cells[t].began, t, th);
    assert s'.u == s.u;
    DecideNear(m, s.u.cells[t], s.u.now, t, th);
    hide Inv, ThreadOk, Near, NextMemory, NextThread, CallLeft, Safe, StopsAtKey, Unlink;
    var lock, wait, n := LockLeft(s.u, t), WaitLeft(s.u, t), |s.u.cells|;
    var near, far := Near(m, th.curr), Near(m, m.head);
    if StopsAtKey(m, th) {
      ReturnFalls(m, s.u.now, t, th, lock, wait, n, near, far);
      SameNear(m, s'.m, th.curr);
      SameNear(m, s'.m, m.head);
    } else if th.nxt.mark && PlaceLinks(m, th) {
      HelpFalls(m, s.u.now, t, th, lock, wait, n, near, far, Near(m, th.nxt.node), Near(s'.m, s'.m.head));
    } else {
      MoveOnFalls(m, s.u.now, t, th, lock, wait, n, near, Near(m, th.nxt.node), far);
    }
  }

  /** An event inside `readLock` or `synchronizeRCU`. */
  lemma LibFalls(s: State, t: nat, e: Urcu.Event)
    requires Inv(s) && Enabled(s, t, Lib(e)) && s.u.version < Urcu.UNASSIGNED && NobodyShows(s.u, t)
    ensures StepsLeftOf(Apply(s, t, Lib(e)), t) < StepsLeftOf(s, t)
  {
    assert ThreadOk(s.m, s.u.cells[t], t, s.threads[t]);
    if Waiting(s.threads[t].pc) { WaitEventFalls(s.u, t, e); } else { LockEventFalls(s.u, t, e); }
    NobodyShowsStays(s.u, t, e);
    hide Inv, LockLeft, WaitLeft, Urcu.Apply, ProgressOk, GarbageOk, Near;
  }

  lemma GoHides(s: State, t: nat)
    requires Enabled(s, t, Go)
    ensures |Apply(s, t, Go).threads| == |s.threads|
    ensures NobodyShows(s.u, t) ==> NobodyShows(Apply(s, t, Go).u, t)
  {
    hide NextMemory, NextThread;
  }

  lemma StepFalls(s: State, st: Step)
    requires Inv(s) && Enabled(s, st.t, st.a) && s.u.version < Urcu.UNASSIGNED && NobodyShows(s.u, st.t)
    requires !s.threads[st.t].pc.Idle? && !s.threads[st.t].pc.Done?
    ensures |Apply(s, st.t, st.a).threads| == |s.threads| && StepsLeftOf(Apply(s, st.t, st.a), st.t) < StepsLeftOf(s, st.t)
    ensures NobodyShows(Apply(s, st.t, st.a).u, st.t)
  {
    hide Inv, StepsLeftOf, NobodyShows;
    match st.a
    case Go =>
      if s.threads[st.t].pc.Decide? { DecisionFalls(s, st.t); } else { PlainStepFalls(s, st.t); }
      GoHides(s, st.t);
    case Lib(e) => LibFalls(s, st.t, e); NobodyShowsStays(s.u, st.t, e);
    case _ =>
  }

  /** From state a to state b only t moves, in the middle of one call. */
  ghost predicate Alone(run: seq<State>, steps: seq<Step>, a: nat, b: nat, t: nat) {
    && IsRun(run, steps) && a <= b < |run| && t < |run[a].threads|
    && forall x | a <= x < b :: x < |steps| && steps[x].t == t && t < |run[x].threads| && !run[x].threads[t].pc.Idle? && !run[x].threads[t].pc.Done?
  }

  lemma {:induction false} AloneFalls(run: seq<State>, steps: seq<Step>, a: nat, b: nat, t: nat)
    requires Alone(run, steps, a, b, t) && NobodyShows(run[a].u, t)
    ensures t < |run[b].threads| && StepsLeftOf(run[b], t) + (b - a) <= StepsLeftOf(run[a], t)
    ensures NobodyShows(run[b].u, t)
  {
    hide IsRun, Inv, Apply, StepsLeftOf, NobodyShows;
    if a < b {
      AloneFalls(run, steps, a, b - 1, t);
      RunStep(run, steps, b - 1);
      RunKeepsInv(run, steps, b - 1);
      assert steps[b - 1].t == t && !run[b - 1].threads[t].pc.Idle? && !run[b - 1].threads[t].pc.Done?;
      StepFalls(run[b - 1], steps[b - 1]);
    }
  }

  lemma CanMove(s: State, t: nat)
    requires t < |s.threads| == |s.u.cells| && Urcu.Inv(s.u) && !s.crashed
    requires CellOk(s.u.cells[t], s.threads[t].pc) && !s.threads[t].pc.Idle?
    ensures exists a: Action :: Enabled(s, t, a)
  {
    HasEvent(s.u, t);
    if Enabled(s, t, Go) {
    } else if Waiting(s.threads[t].pc) {
      var e: Urcu.Event :| (e.SyncCas? || e.SyncProbe?) && Urcu.Enabled(s.u, Urcu.Move(t, e));
      assert Enabled(s, t, Lib(e));
    } else {
      var e: Urcu.Event :| (e.LockStore? || e.LockReload? || e.LockRepair?) && Urcu.Enabled(s.u, Urcu.Move(t, e));
      assert Enabled(s, t, Lib(e));
    }
  }

  /** In the middle of a call a thread can always move. */
  lemma NeverStuck(run: seq<State>, steps: seq<Step>, i: nat, t: nat)
    requires IsRun(run, steps) && i < |run| && t < |run[i].threads| && !run[i].threads[t].pc.Idle?
    ensures exists a: Action :: Enabled(run[i], t, a)
  {
    RunKeepsInv(run, steps, i);
    assert ThreadOk(run[i].m, run[i].u.cells[t], t, run[i].threads[t]);
    hide IsRun, Enabled, MemoryOk, Stamps, ProgressOk, GarbageOk;
    CanMove(run[i], t);
  }

  /** The nodes of the list, the first node of the constructor included. */
  ghost function Listed(m: Memory): set<Node> {
    set x | x in m.life && IsLinked(m.life, x)
  }

  lemma LeftIsBounded(s: State, t: nat)
    requires Inv(s) && t < |s.threads|
    ensures StepsLeftOf(s, t) <= 2 * |s.u.cells| + 22 + |s.threads[t].retired| + 5 * |Listed(s.m)|
  {
    var m, th := s.m, s.threads[t];
    assert forall c :: Beyond(m, c) <= Listed(m);
    Subset(Beyond(m, th.curr), Listed(m));
    Subset(Beyond(m, m.head), Listed(m));
    LocksAreShort(s.u, t);
    hide Inv, PlaceLinks, OnTrack, LockLeft, WaitLeft;
  }

  lemma LocksAreShort(u: Urcu.State, t: nat)
    ensures LockLeft(u, t) <= 4 && WaitLeft(u, t) <= |u.cells| + 2
  {
  }

  /** A call that runs alone while no other thread shows a version is done, from wherever it and the
      others have got to, after at most 2 * threads + 22 + r + 5 * l own steps, where r is the number of
      nodes it has taken out already and l the number of nodes in the list. */
  lemma SoloCompletes(run: seq<State>, steps: seq<Step>, a: nat, b: nat, t: nat)
    requires Alone(run, steps, a, b, t) && NobodyShows(run[a].u, t)
    ensures b - a <= 2 * |run[a].u.cells| + 22 + |run[a].threads[t].retired| + 5 * |Listed(run[a].m)|
  {
    hide IsRun, Inv, StepsLeftOf, NobodyShows;
    RunKeepsInv(run, steps, a);
    LeftIsBounded(run[a], t);
    AloneFalls(run, steps, a, b, t);
  }

  // ---------------------------------------------------------------- a remove that runs alone

  /** A search that has run alone from its start has its place, also at the exchanges that follow. */
  ghost predicate HasPlace(m: Memory, th: Thread) {
    && (th.pc.CheckHead? ==> m.head == th.curr && th.pred.Root?)
    && (th.pc.ReadNext? || th.pc.RecheckNext? || th.pc.CheckPred? || th.pc.Decide? ==> OnTrack(m, th))
    && (th.pc.MarkCas? ==> PlaceLinks(m, th) && th.pred != Of(th.curr))
    && (th.pc.UnlinkCas? ==> PlaceLinks(m, th) && th.curr in m.key && m.key[th.curr] == th.k)
  }

  lemma SearchKeepsPlace(m: Memory, now: nat, t: nat, th: Thread)
    requires Safe(m, th) && HasPlace(m, th) && th.op.Remove? && (Reads(th.pc) || th.pc.Decide?)
    requires th.pc.Decide? && PlaceLinks(m, th) ==> th.pred != Of(th.curr)
    ensures HasPlace(NextMemory(m, now, t, th), NextThread(m, th))
  {
    if th.pc.Decide? && !StopsAtKey(m, th) && th.nxt.mark && PlaceLinks(m, th) {
      HelpStep(m, now, t, th);
      LinksAfterUnlink(m, now, t, th, NextThread(m, th));
      hide NextThread, NextMemory, Unlink;
    }
  }

  lemma MarkKeepsPlace(m: Memory, now: nat, t: nat, th: Thread)
    requires Safe(m, th) && HasPlace(m, th) && !Reads(th.pc) && !th.pc.Decide?
    requires th.pc.MarkCas? ==> th.curr in m.key && m.key[th.curr] == th.k
    ensures HasPlace(NextMemory(m, now, t, th), NextThread(m, th))
  {
  }

  lemma StepKeepsPlace(s: State, st: Step, t: nat)
    requires Inv(s) && Enabled(s, st.t, st.a) && st.t == t && s.threads[t].op.Remove? && HasPlace(s.m, s.threads[t])
    requires !s.threads[t].pc.Idle? && !s.threads[t].pc.Done?
    ensures HasPlace(Apply(s, t, st.a).m, Apply(s, t, st.a).threads[t])
  {
    if st.a.Go? {
      NeverTouchesDead(s, t);
      var m, th := s.m, s.threads[t];
      assert ThreadOk(m, s.u.cells[t], t, th);
      if th.pc.Decide? && PlaceLinks(m, th) {
        PlaceIsLinked(m, s.u.cells[t].began, th.pred, th.curr);
      }
      assert th.pc.Decide? && PlaceLinks(m, th) ==> th.pred != Of(th.curr) by { assert FIRST !in m.key; }
      hide Inv, ThreadOk, NextMemory, NextThread, HasPlace, PlaceLinks, Safe;
      if Reads(th.pc) || th.pc.Decide? { SearchKeepsPlace(m, s.u.now, t, th); } else { MarkKeepsPlace(m, s.u.now, t, th); }
    }
  }

  /** A call of t that began at a and has run alone since. */
  ghost predicate AloneInCall(run: seq<State>, steps: seq<Step>, a: nat, b: nat, t: nat) {
    InCall(run, steps, a, b, t) && b <= |steps| && forall x | a < x < b :: steps[x].t == t && !run[x].threads[t].pc.Done?
  }

  lemma CallHasPlace(s: State, st: Step)
    requires Enabled(s, st.t, st.a) && st.a.Call?
    ensures var th := Apply(s, st.t, st.a).threads[st.t]; th.pc.Enter? && HasPlace(Apply(s, st.t, st.a).m, th)
  {
    hide NextMemory, NextThread;
  }

  lemma {:induction false} PlaceInCall(run: seq<State>, steps: seq<Step>, a: nat, b: nat, t: nat)
    requires AloneInCall(run, steps, a, b, t) && steps[a].a.op.Remove?
    ensures run[b].threads[t].op.Remove? && HasPlace(run[b].m, run[b].threads[t])
  {
    hide IsRun, Inv, Apply, HasPlace;
    CallKeepsArguments(run, steps, a, b, t);
    RunStep(run, steps, b - 1);
    RunKeepsInv(run, steps, b - 1);
    if a + 1 == b {
      CallHasPlace(run[a], steps[a]);
    } else {
      PlaceInCall(run, steps, a, b - 1, t);
      StepKeepsPlace(run[b - 1], steps[b - 1], t);
    }
  }

  /** Only the unlink of a remove is followed by an answer that is true. */
  lemma TrueAfterUnlink(s: State, st: Step, t: nat)
    requires Inv(s) && Enabled(s, st.t, st.a) && st.t == t && s.threads[t].op.Remove? && !s.threads[t].pc.Idle?
    requires PastUnlink(Apply(s, t, st.a).threads[t].pc) && Apply(s, t, st.a).threads[t].result
    ensures st.a.Go? || PastUnlink(s.threads[t].pc)
    ensures s.threads[t].pc.UnlinkCas? || (PastUnlink(s.threads[t].pc) && s.threads[t].result)
  {
    assert ThreadOk(s.m, s.u.cells[t], t, s.threads[t]);
    if st.a.Go? { NeverTouchesDead(s, t); }
    hide MemoryOk, Stamps, GarbageOk, NextMemory;
  }

  lemma KeysStay(s: State, st: Step, n: Node)
    requires Enabled(s, st.t, st.a) && n in s.m.key && n in s.m.life
    ensures n in Apply(s, st.t, st.a).m.key && Apply(s, st.t, st.a).m.key[n] == s.m.key[n]
  {
    hide NextThread;
  }

  lemma {:induction false} DeletedSoFar(run: seq<State>, steps: seq<Step>, a: nat, b: nat, t: nat) returns (n: Node)
    requires AloneInCall(run, steps, a, b, t) && steps[a].a.op.Remove?
    requires PastUnlink(run[b].threads[t].pc) && run[b].threads[t].result
    ensures var m := run[b].m;
            && n in m.key && m.key[n] == steps[a].a.k
            && n in m.life && (MyUnlinked(m.life, t, n) || m.life[n].Freed?)
  {
    hide IsRun, Inv, Apply, HasPlace;
    CallKeepsArguments(run, steps, a, b, t);
    RunStep(run, steps, b - 1);
    RunKeepsInv(run, steps, b - 1);
    n := 0;
    var s, st := run[b - 1], steps[b - 1];
    if a + 1 == b {
      CallHasPlace(s, st);
    } else {
      PlaceInCall(run, steps, a, b - 1, t);
      CallKeepsArguments(run, steps, a, b - 1, t);
      TrueAfterUnlink(s, st, t);
      if s.threads[t].pc.UnlinkCas? {
        n := s.threads[t].curr;
        GoesAtUnlink(s, st);
        UnlinkIsExact(s, t);
        UnlinkHasPlace(s.m, s.threads[t]);
      } else {
        n := DeletedSoFar(run, steps, a, b - 1, t);
        StepLives(s, st, n);
      }
      KeysStay(s, st, n);
    }
  }

  lemma UnlinkHasPlace(m: Memory, th: Thread)
    requires HasPlace(m, th) && th.pc.UnlinkCas?
    ensures PlaceLinks(m, th) && th.curr in m.key && m.key[th.curr] == th.k
  {
  }

  /** A remove that runs alone and answers true has deleted a node with its key. */
  lemma SoloRemoveDeletes(run: seq<State>, steps: seq<Step>, a: nat, b: nat, t: nat)
    requires AloneInCall(run, steps, a, b, t) && steps[a].a.op.Remove?
    requires run[b].threads[t].pc.Done? && run[b].threads[t].result
    ensures exists n :: n in run[b].m.key && run[b].m.key[n] == steps[a].a.k && n in run[b].m.life && run[b].m.life[n].Freed?
  {
    var n := DeletedSoFar(run, steps, a, b, t);
    RunKeepsInv(run, steps, b);
    NothingInHand(run[b], t, n);
  }
}
