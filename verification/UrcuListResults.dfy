/** What the invariant gives for runs of the URCU list: memory safety, the sorted chain as a
    set, linearizable answers, and deletion exactly once. */
module UrcuListResults {
  import Urcu
  import opened UrcuList
  import opened UrcuListInvariant
  import opened UrcuListSteps
  import opened UrcuListTheorems

  // ---------------------------------------------------------------- memory safety

  /** In every interleaving of add, remove and contains no step reads, writes or deletes a
      node that has been deleted. */
  lemma NoUseAfterFree(run: seq<State>, steps: seq<Step>, i: nat, t: nat)
    requires IsRun(run, steps) && i < |run| && t < |run[i].threads|
    ensures !run[i].crashed
    ensures Safe(run[i].m, run[i].threads[t])
  {
    RunKeepsInv(run, steps, i);
    NeverTouchesDead(run[i], t);
  }

  /** A stamp on an unlinked or deleted node names a moment of the run when it was linked. */
  lemma {:induction false} StampMeansLinked(run: seq<State>, steps: seq<Step>, i: nat, n: Node)
    requires IsRun(run, steps) && i < |run|
    requires n in run[i].m.life && (run[i].m.life[n].Unlinked? || run[i].m.life[n].Freed?)
    ensures exists j | 0 <= j < i :: IsLinked(run[j].m.life, n) && run[j].u.now >= run[i].m.life[n].at
  {
    hide IsRun, Apply, Inv, Enabled;
    StartsLinked(run, steps, n);
    if i > 0 {
      RunStep(run, steps, i - 1);
      RunKeepsInv(run, steps, i - 1);
      StepLives(run[i - 1], steps[i - 1], n);
      if !IsLinked(run[i - 1].m.life, n) { StampMeansLinked(run, steps, i - 1, n); }
    }
  }

  lemma StartsLinked(run: seq<State>, steps: seq<Step>, n: Node)
    requires IsRun(run, steps)
    ensures n in run[0].m.life ==> run[0].m.life[n].Linked?
  {
  }

  /** The life cycle of a node.  Private(t) ends in the list or in a deletion by t; Linked ends
      by one compare-exchange, on a marked node only, whose winner becomes the owner; only the
      owner deletes; and nothing comes back. */
  ghost predicate LifeCycle(s: State, s': State, t: nat, n: Node) {
    && (n !in s.m.life ==> n !in s'.m.life || s'.m.life[n] == Private(t))
    && (n in s.m.life ==>
          && n in s'.m.life
          && var l, l' := s.m.life[n], s'.m.life[n];
             l' == l ||
             match l
             case Private(o) => o == t && (l'.Linked? || l'.Discarded?)
             case Linked => l' == Unlinked(s.u.now, t) && n in s.m.next && s.m.next[n].mark
             case Unlinked(at, o) => o == t && l' == Freed(at)
             case Freed(_) => false
             case Discarded => false)
  }

  lemma StepLives(s: State, st: Step, n: Node)
    requires Inv(s) && Enabled(s, st.t, st.a)
    ensures LifeCycle(s, Apply(s, st.t, st.a), st.t, n)
  {
    var t, m, th := st.t, s.m, s.threads[st.t];
    assert ThreadOk(m, s.u.cells[t], t, th);
    if st.a.Go? {
      NeverTouchesDead(s, t);
      assert th.pc.FreeRetired? ==> MyUnlinked(m.life, t, th.retired[0]);
      assert th.pc.FreeVictim? ==> MyUnlinked(m.life, t, th.victim.value);
      assert th.pc.LinkCas? || th.pc.Discard? ==> m.life[th.own] == Private(t);
      if (th.pc.UnlinkCas? || (th.pc.Decide? && th.nxt.mark)) && PredCas(m, th) {
        PlaceIsLinked(m, s.u.cells[t].began, th.pred, th.curr);
        assert th.curr in m.next && m.next[th.curr].mark;
      }
      hide Inv, ThreadOk;
      LivesInStep(m, s.u.now, t, th, n);
      hide NextMemory;
    }
  }

  /** What an access does to the life of a node. */
  lemma LivesInStep(m: Memory, now: nat, t: nat, th: Thread, n: Node)
    requires Safe(m, th)
    requires th.pc.FreeVictim? && th.victim.Some? ==> MyUnlinked(m.life, t, th.victim.value)
    requires th.pc.FreeRetired? && th.retired != [] ==> MyUnlinked(m.life, t, th.retired[0])
    requires th.pc.LinkCas? || th.pc.Discard? ==> m.life[th.own] == Private(t)
    requires (th.pc.UnlinkCas? || (th.pc.Decide? && th.nxt.mark)) && PredCas(m, th) ==>
               IsLinked(m.life, th.curr) && th.curr in m.next && m.next[th.curr].mark
    ensures var m' := NextMemory(m, now, t, th);
            && (n !in m.life ==> n !in m'.life)
            && (n in m.life ==> n in m'.life)
            && (n in m.life && m'.life[n] != m.life[n] ==>
                  match m.life[n]
                  case Private(o) => o == t && (m'.life[n].Linked? || m'.life[n].Discarded?)
                  case Linked => m'.life[n] == Unlinked(now, t) && n in m.next && m.next[n].mark
                  case Unlinked(at, o) => o == t && m'.life[n] == Freed(at)
                  case Freed(_) => false
                  case Discarded => false)
  {
  }

  /** The node a traversal stands on was in the list at some moment after the final load of
      its read section, in this run. */
  lemma HeldWasLinked(run: seq<State>, steps: seq<Step>, i: nat, t: nat)
    requires IsRun(run, steps) && i < |run| && t < |run[i].threads|
    requires Searching(run[i].threads[t].pc) && !run[i].threads[t].pc.ReadHead?
    ensures Urcu.InSection(run[i].u, t)
    ensures exists j | 0 <= j <= i ::
              IsLinked(run[j].m.life, run[i].threads[t].curr) && run[j].u.now > run[i].u.cells[t].began
  {
    RunKeepsInv(run, steps, i);
    var s, n := run[i], run[i].threads[t].curr;
    assert ThreadOk(s.m, s.u.cells[t], t, s.threads[t]) && Urcu.ReaderOk(s.u, t);
    assert Held(s.m.life, s.u.cells[t].began, n);
    if !IsLinked(s.m.life, n) {
      StampMeansLinked(run, steps, i, n);
    }
  }

  // ---------------------------------------------------------------- deletion exactly once

  /** This step executes `delete` on n. */
  predicate Deletes(s: State, st: Step, n: Node) {
    && st.t < |s.threads| && st.a.Go?
    && var th := s.threads[st.t];
       || (th.pc.FreeVictim? && th.victim == Some(n))
       || (th.pc.FreeRetired? && th.retired != [] && th.retired[0] == n)
       || (th.pc.Discard? && th.own == n)
  }

  ghost predicate Dead(life: map<Node, Life>, n: Node) {
    n in life && (life[n].Freed? || life[n].Discarded?)
  }

  lemma DeleteKills(s: State, st: Step, n: Node)
    requires Inv(s) && Enabled(s, st.t, st.a) && Deletes(s, st, n)
    ensures !Dead(s.m.life, n) && Dead(Apply(s, st.t, st.a).m.life, n)
    ensures n in s.m.life && !s.m.life[n].Linked?
  {
    NeverTouchesDead(s, st.t);
    var th := s.threads[st.t];
    assert ThreadOk(s.m, s.u.cells[st.t], st.t, th);
    assert th.pc.FreeRetired? ==> MyUnlinked(s.m.life, st.t, th.retired[0]);
    hide MemoryOk, Stamps, ProgressOk;
    assert th.pc.Discard? ==> OwnOk(s.m, st.t, th) by { assert ProgressOk(s.m, s.u.cells[st.t].began, st.t, th); }
  }

  lemma {:induction false} DeadStays(run: seq<State>, steps: seq<Step>, i: nat, j: nat, n: Node)
    requires IsRun(run, steps) && i <= j < |run|
    requires Dead(run[i].m.life, n)
    ensures Dead(run[j].m.life, n)
  {
    hide IsRun, Apply, Inv, Enabled;
    if i < j {
      DeadStays(run, steps, i, j - 1, n);
      RunStep(run, steps, j - 1);
      RunKeepsInv(run, steps, j - 1);
      StepLives(run[j - 1], steps[j - 1], n);
    }
  }

  lemma DeletedIsDead(run: seq<State>, steps: seq<Step>, i: nat, n: Node)
    requires IsRun(run, steps) && i < |steps| < |run| && Deletes(run[i], steps[i], n)
    ensures !Dead(run[i].m.life, n) && Dead(run[i + 1].m.life, n)
  {
    hide IsRun, Inv, Apply, Enabled, Deletes, Dead;
    RunStep(run, steps, i);
    RunKeepsInv(run, steps, i);
    DeleteKills(run[i], steps[i], n);
  }

  lemma NeverAgain(run: seq<State>, steps: seq<Step>, i: nat, j: nat, n: Node)
    requires IsRun(run, steps) && i < j < |steps| && Deletes(run[i], steps[i], n)
    ensures !Deletes(run[j], steps[j], n)
  {
    assert |run| == |steps| + 1;
    hide IsRun, Deletes, Dead;
    DeletedIsDead(run, steps, i, n);
    DeadStays(run, steps, i + 1, j, n);
    if Deletes(run[j], steps[j], n) { DeletedIsDead(run, steps, j, n); }
  }

  /** No node is deleted twice in a run. */
  lemma DeletedOnce(run: seq<State>, steps: seq<Step>, i: nat, j: nat, n: Node)
    requires IsRun(run, steps) && i < |steps| && j < |steps|
    requires Deletes(run[i], steps[i], n) && Deletes(run[j], steps[j], n)
    ensures i == j
  {
    hide IsRun, Deletes;
    if i < j { NeverAgain(run, steps, i, j, n); } else if j < i { NeverAgain(run, steps, j, i, n); }
  }

  /** Every node that is out of the list is owned by one running call, which still has it in
      hand; the printed counter is the number of nodes that `find` took out and that wait. */
  lemma NothingLeaks(run: seq<State>, steps: seq<Step>, i: nat, n: Node)
    requires IsRun(run, steps) && i < |run|
    requires n in run[i].m.life && run[i].m.life[n].Unlinked? && run[i].m.life[n].owner < |run[i].threads|
    ensures var th := run[i].threads[run[i].m.life[n].owner];
            && !th.pc.Idle? && !th.pc.Done?
            && (n in th.retired || th.victim == Some(n))
            && th.count == |th.retired|
  {
    RunKeepsInv(run, steps, i);
    var s := run[i];
    var t := s.m.life[n].owner;
    assert ThreadOk(s.m, s.u.cells[t], t, s.threads[t]);
    assert MyUnlinked(s.m.life, t, n);
  }

  // ---------------------------------------------------------------- the chain is the set

  /** A walk from `head` along `next`, stopping at FIRST. */
  ghost predicate Walk(m: Memory, p: seq<Node>) {
    && |p| > 0
    && if |p| == 1 then p[0] == m.head
       else
         var a := p[|p| - 2];
         Walk(m, p[..|p| - 1]) && a != FIRST && a in m.next && m.next[a].node == p[|p| - 1]
  }

  lemma NextInChain(m: Memory, c: Node, n: Node)
    requires MemoryOk(m) && IsLinked(m.life, c) && c != FIRST
    ensures c in m.next && IsLinked(m.life, m.next[c].node) && Below(m.key, c, m.next[c].node)
    ensures IsLinked(m.life, n) && Below(m.key, c, n) ==> n == m.next[c].node || Below(m.key, m.next[c].node, n)
    ensures !Below(m.key, m.next[c].node, m.next[c].node)
  {
    hide SetOk;
    assert Adjacent(m.key, m.life, c, m.next[c].node);
  }

  ghost predicate Ascending(key: map<Node, int>, p: seq<Node>) {
    forall i, j | 0 <= i < j < |p| :: Below(key, p[i], p[j])
  }

  lemma AscendingSnoc(key: map<Node, int>, q: seq<Node>, b: Node)
    requires |q| > 0 && Ascending(key, q) && Below(key, q[|q| - 1], b) && FIRST !in key
    ensures Ascending(key, q + [b])
  {
    forall i | 0 <= i < |q| ensures Below(key, q[i], b) {
      if i < |q| - 1 { assert Below(key, q[i], q[|q| - 1]); }
    }
  }

  /** Walks are strictly sorted and meet linked nodes only. */
  lemma {:induction false} WalkIsSorted(m: Memory, p: seq<Node>)
    requires MemoryOk(m) && Walk(m, p)
    ensures forall i | 0 <= i < |p| :: IsLinked(m.life, p[i])
    ensures Ascending(m.key, p)
  {
    if |p| > 1 {
      var q, b := p[..|p| - 1], p[|p| - 1];
      WalkIsSorted(m, q);
      assert p[|p| - 2] == q[|q| - 1] && p == q + [b];
      NextInChain(m, q[|q| - 1], b);
      assert FIRST !in m.key;
      hide MemoryOk, Ascending, Below, IsLinked;
      AscendingSnoc(m.key, q, b);
    } else {
      HeadIsLinked(m);
    }
  }

  lemma HeadIsLinked(m: Memory)
    requires MemoryOk(m)
    ensures IsLinked(m.life, m.head)
  {
  }

  ghost function Beyond(m: Memory, c: Node): set<Node> {
    set x | x in m.life && IsLinked(m.life, x) && Below(m.key, c, x)
  }

  lemma {:induction false} WalkReaches(m: Memory, p: seq<Node>, n: Node) returns (q: seq<Node>)
    requires MemoryOk(m) && Walk(m, p) && IsLinked(m.life, n)
    requires n == p[|p| - 1] || Below(m.key, p[|p| - 1], n)
    ensures Walk(m, q) && q[|q| - 1] == n
    decreases Beyond(m, p[|p| - 1])
  {
    var c := p[|p| - 1];
    if n == c {
      q := p;
    } else {
      WalkIsSorted(m, p);
      assert FIRST !in m.key;
      NextInChain(m, c, n);
      hide MemoryOk;
      var d := m.next[c].node;
      assert d in Beyond(m, c) && d !in Beyond(m, d);
      assert Beyond(m, d) <= Beyond(m, c);
      assert (p + [d])[..|p|] == p;
      q := WalkReaches(m, p + [d], n);
    }
  }

  /** The abstract set is what a reader of the memory sees: k is in it exactly when some walk
      from `head` ends at a node with key k whose successor field has no mark. */
  lemma SetIsReachable(run: seq<State>, steps: seq<Step>, i: nat, k: int)
    requires IsRun(run, steps) && i < |run|
    ensures k in run[i].m.index <==>
            exists p | Walk(run[i].m, p) :: CarriesKey(run[i].m, p[|p| - 1], k)
  {
    RunKeepsInv(run, steps, i);
    var m := run[i].m;
    if k in m.index {
      assert Carries(m, m.index[k], k);
      var q := WalkReaches(m, [m.head], m.index[k]);
      assert CarriesKey(m, q[|q| - 1], k);
    }
    if exists p | Walk(m, p) :: CarriesKey(m, p[|p| - 1], k) {
      var p :| Walk(m, p) && CarriesKey(m, p[|p| - 1], k);
      WalkIsSorted(m, p);
      assert Carries(m, p[|p| - 1], k);
    }
  }

  predicate CarriesKey(m: Memory, n: Node, k: int) {
    n in m.next && !m.next[n].mark && n in m.key && m.key[n] == k
  }

  // ---------------------------------------------------------------- the answers

  /** The set of keys in the list. */
  function Keys(s: State): set<int> {
    s.m.index.Keys
  }

  /** The step adds the key of the running call to the set and makes it answer true. */
  ghost predicate AddsKey(s: State, s': State, t: nat) {
    && t < |s.threads| == |s'.threads|
    && var th, th' := s.threads[t], s'.threads[t];
       && th.pc.LinkCas? && th.op.Add? && th'.pc.Unlock? && th'.result
       && th.k !in Keys(s) && Keys(s') == Keys(s) + {th.k}
  }

  ghost predicate RemovesKey(s: State, s': State, t: nat) {
    && t < |s.threads| == |s'.threads|
    && var th, th' := s.threads[t], s'.threads[t];
       && th.pc.MarkCas? && th.op.Remove? && th'.pc.UnlinkCas? && th'.result
       && th.k in Keys(s) && Keys(s') == Keys(s) - {th.k}
  }

  lemma LinkChangesSet(m: Memory, began: nat, now: nat, t: nat, th: Thread)
    requires MemoryOk(m) && ProgressOk(m, began, t, th) && Safe(m, th) && th.pc.LinkCas? && PredCas(m, th)
    ensures th.op.Add? && th.k !in m.index
    ensures var m' := NextMemory(m, now, t, th);
            m'.index.Keys == m.index.Keys + {th.k} && m'.hist == m.hist + [m'.index.Keys]
  {
    hide Chain, Shape, SetOk, Evolves;
    LinkKeeps(m, began, now, t, th);
    assert NextMemory(m, now, t, th) == Linking(m, th);
  }

  lemma MarkChangesSet(m: Memory, began: nat, now: nat, t: nat, th: Thread)
    requires MemoryOk(m) && ProgressOk(m, began, t, th) && Safe(m, th) && th.pc.MarkCas?
    requires m.next[th.curr] == Link(th.nxt.node, false)
    ensures th.op.Remove? && th.k in m.index
    ensures var m' := NextMemory(m, now, t, th);
            m'.index.Keys == m.index.Keys - {th.k} && m'.hist == m.hist + [m'.index.Keys]
  {
    hide Chain, Shape, SetOk, Evolves;
    MarkKeeps(m, began, now, t, th);
    assert NextMemory(m, now, t, th) == Marking(m, th);
  }

  lemma KeepsSet(m: Memory, now: nat, t: nat, th: Thread)
    requires Safe(m, th) && !(th.pc.LinkCas? && PredCas(m, th))
    requires !(th.pc.MarkCas? && m.next[th.curr] == Link(th.nxt.node, false))
    ensures NextMemory(m, now, t, th).index == m.index && NextMemory(m, now, t, th).hist == m.hist
  {
  }

  /** The list refines a set: a step leaves the set alone, or it is the successful link of an
      `add` whose key was absent, or the successful mark of a `remove` whose key was present. */
  lemma StepRefinesSet(s: State, st: Step)
    requires Inv(s) && Enabled(s, st.t, st.a)
    ensures var s' := Apply(s, st.t, st.a);
            || (Keys(s') == Keys(s) && s'.m.hist == s.m.hist)
            || ((AddsKey(s, s', st.t) || RemovesKey(s, s', st.t)) && s'.m.hist == s.m.hist + [Keys(s')])
  {
    var t, m, th := st.t, s.m, s.threads[st.t];
    assert ThreadOk(m, s.u.cells[t], t, th);
    hide Stamps, Urcu.Inv, GarbageOk, MemoryOk;
    if st.a.Go? {
      NeverTouchesDead(s, t);
      hide Inv;
      if th.pc.LinkCas? && PredCas(m, th) { LinkChangesSet(m, s.u.cells[t].began, s.u.now, t, th); }
      else if th.pc.MarkCas? && m.next[th.curr] == Link(th.nxt.node, false) { MarkChangesSet(m, s.u.cells[t].began, s.u.now, t, th); }
      else { KeepsSet(m, s.u.now, t, th); }
      hide ProgressOk, NextMemory;
    }
  }

  /** The call that t starts at step a is still running at b. */
  ghost predicate InCall(run: seq<State>, steps: seq<Step>, a: nat, b: nat, t: nat) {
    && IsRun(run, steps) && a < b < |run|
    && steps[a].t == t && steps[a].a.Call?
    && forall j | a < j <= b :: t < |run[j].threads| && !run[j].threads[t].pc.Idle?
  }

  lemma StepKeepsArguments(s: State, st: Step, t: nat)
    requires Enabled(s, st.t, st.a) && t < |s.threads|
    requires !(st.t == t && st.a.Call?)
    ensures |Apply(s, st.t, st.a).threads| == |s.threads|
    ensures var th, th' := s.threads[t], Apply(s, st.t, st.a).threads[t];
            th'.op == th.op && th'.k == th.k && th'.from == th.from
  {
    hide NextMemory;
  }

  lemma CallSetsArguments(s: State, st: Step)
    requires Enabled(s, st.t, st.a) && st.a.Call?
    ensures |Apply(s, st.t, st.a).threads| == |s.threads|
    ensures var th := Apply(s, st.t, st.a).threads[st.t];
            th.op == st.a.op && th.k == st.a.k && th.from == Latest(s.m) && !Committed(th)
    ensures Keys(Apply(s, st.t, st.a)) == Keys(s)
  {
  }

  lemma {:induction false} CallKeepsArguments(run: seq<State>, steps: seq<Step>, a: nat, b: nat, t: nat)
    requires InCall(run, steps, a, b, t)
    ensures var th := run[b].threads[t];
            th.op == steps[a].a.op && th.k == steps[a].a.k && th.from == Latest(run[a].m)
  {
    hide IsRun, Apply;
    RunStep(run, steps, b - 1);
    if a + 1 < b {
      CallKeepsArguments(run, steps, a, b - 1, t);
      StepKeepsArguments(run[b - 1], steps[b - 1], t);
    } else {
      CallSetsArguments(run[a], steps[a]);
    }
  }

  lemma LatestInState(s: State)
    requires Inv(s)
    ensures |s.m.hist| > 0 && s.m.hist[|s.m.hist| - 1] == Keys(s)
  {
    LatestIsSet(s.m);
  }

  /** The history grows by the new set at every change, and by nothing else. */
  lemma HistoryStep(run: seq<State>, steps: seq<Step>, i: nat)
    requires IsRun(run, steps) && i < |run|
    ensures |run[i].m.hist| > 0 && run[i].m.hist[|run[i].m.hist| - 1] == Keys(run[i])
    ensures i > 0 ==> run[i].m.hist == run[i - 1].m.hist || run[i].m.hist == run[i - 1].m.hist + [Keys(run[i])]
    ensures i > 0 ==> |run[i - 1].m.hist| > 0
  {
    hide IsRun, Inv, Apply, Enabled, AddsKey, RemovesKey;
    RunKeepsInv(run, steps, i);
    LatestInState(run[i]);
    if i > 0 {
      RunStep(run, steps, i - 1);
      RunKeepsInv(run, steps, i - 1);
      StepRefinesSet(run[i - 1], steps[i - 1]);
      HistoryStep(run, steps, i - 1);
    }
  }

  /** Every version between the start of the call and b was the set at a state of the call. */
  lemma {:induction false} VersionsOccur(run: seq<State>, steps: seq<Step>, a: nat, b: nat, w: nat)
    requires IsRun(run, steps) && a <= b < |run|
    requires Latest(run[a].m) <= w < |run[b].m.hist|
    ensures exists j | a <= j <= b :: Keys(run[j]) == run[b].m.hist[w]
  {
    hide IsRun;
    HistoryStep(run, steps, b);
    if w == |run[b].m.hist| - 1 {
      assert Keys(run[b]) == run[b].m.hist[w];
    } else if a < b {
      VersionsOccur(run, steps, a, b - 1, w);
    }
  }

  /** The call has already changed the set. */
  predicate Committed(th: Thread) {
    (th.pc.UnlinkCas? || Decided(th.pc)) && th.result && !th.op.Contains?
  }

  lemma ChangeCommits(s: State, st: Step)
    requires Inv(s) && Enabled(s, st.t, st.a) && !st.a.Call?
    requires !Apply(s, st.t, st.a).threads[st.t].pc.Idle?
    ensures var s' := Apply(s, st.t, st.a);
            && (Keys(s') != Keys(s) ==> !Committed(s.threads[st.t]))
            && (Committed(s'.threads[st.t]) <==> Committed(s.threads[st.t]) || Keys(s') != Keys(s))
  {
    StepRefinesSet(s, st);
    var th, c := s.threads[st.t], s.u.cells[st.t];
    assert ThreadOk(s.m, c, st.t, th);
    assert th.pc.LinkCas? || th.pc.Discard? ==> th.op.Add?;
    assert th.pc.MarkCas? || th.pc.UnlinkCas? ==> th.op.Remove?;
    if st.a.Go? {
      NeverTouchesDead(s, st.t);
      CommitsBySuccess(s.m, s.u.now, st.t, th);
    }
  }

  /** What the thread record shows: the two successful compare-exchanges commit, nothing else. */
  lemma CommitsBySuccess(m: Memory, now: nat, t: nat, th: Thread)
    requires Safe(m, th) && !NextThread(m, th).pc.Idle?
    requires th.pc.LinkCas? || th.pc.Discard? ==> th.op.Add?
    requires th.pc.MarkCas? || th.pc.UnlinkCas? ==> th.op.Remove?
    ensures Committed(th) ==> NextMemory(m, now, t, th).index == m.index
    ensures Committed(NextThread(m, th)) <==>
            || Committed(th)
            || (th.pc.LinkCas? && PredCas(m, th))
            || (th.pc.MarkCas? && m.next[th.curr] == Link(th.nxt.node, false))
  {
  }

  /** How many steps of t in a..b change the set. */
  ghost function Changes(run: seq<State>, steps: seq<Step>, a: nat, b: nat, t: nat): nat
    requires IsRun(run, steps) && a <= b < |run|
  {
    if a == b then 0
    else Changes(run, steps, a, b - 1, t)
         + (if steps[b - 1].t == t && Keys(run[b]) != Keys(run[b - 1]) then 1 else 0)
  }

  lemma {:induction false} ChangesOnce(run: seq<State>, steps: seq<Step>, a: nat, b: nat, t: nat)
    requires InCall(run, steps, a, b, t)
    ensures Changes(run, steps, a, b, t) == if Committed(run[b].threads[t]) then 1 else 0
  {
    hide IsRun, Inv;
    RunStep(run, steps, b - 1);
    var s, st := run[b - 1], steps[b - 1];
    RunKeepsInv(run, steps, b - 1);
    if a + 1 < b {
      ChangesOnce(run, steps, a, b - 1, t);
      if st.t == t {
        assert !st.a.Call?;
        hide Apply, Committed;
        ChangeCommits(s, st);
      } else {
        assert run[b].threads[t] == s.threads[t];
      }
    } else {
      hide Apply;
      CallSetsArguments(s, st);
      assert Changes(run, steps, a, b - 1, t) == 0;
    }
  }

  /** Every answer is right.  When a call is about to return, a `contains` answers what was
      true at some state of the call; a failing `add` (`remove`) saw its key present (absent)
      at some state of the call; and a call changes the set exactly once if it succeeds and
      never otherwise. */
  lemma AnswersAreRight(run: seq<State>, steps: seq<Step>, a: nat, b: nat, t: nat)
    requires InCall(run, steps, a, b, t) && run[b].threads[t].pc.Done?
    ensures var k, r := steps[a].a.k, run[b].threads[t].result;
            match steps[a].a.op
            case Contains =>
              && (exists j | a <= j <= b :: r <==> k in Keys(run[j]))
              && Changes(run, steps, a, b, t) == 0
            case Add =>
              && (!r ==> exists j | a <= j <= b :: k in Keys(run[j]))
              && Changes(run, steps, a, b, t) == (if r then 1 else 0)
            case Remove =>
              && (!r ==> exists j | a <= j <= b :: k !in Keys(run[j]))
              && Changes(run, steps, a, b, t) == (if r then 1 else 0)
  {
    CallKeepsArguments(run, steps, a, b, t);
    ChangesOnce(run, steps, a, b, t);
    RunKeepsInv(run, steps, b);
    var th := run[b].threads[t];
    assert ThreadOk(run[b].m, run[b].u.cells[t], t, th);
    VersionsOccur(run, steps, a, b, th.wit);
    var j :| a <= j <= b && Keys(run[j]) == run[b].m.hist[th.wit];
    assert th.k in Keys(run[j]) <==> th.k in run[b].m.hist[th.wit];
  }
}
