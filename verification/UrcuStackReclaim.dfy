/** What becomes of the nodes that a pop of the URCU stack takes: each is deleted when the pop is done,
    and a thread between two calls holds up no synchronizer. */
module UrcuStackReclaim {
  import opened StackMemory
  import Urcu
  import opened UrcuStack
  import opened UrcuStackResults

  /** A node that is out of the stack and not deleted is in the hands of the pop that took it, which
      is still running. */
  predicate InHand(s: State, n: Node) {
    n in s.m.life && s.m.life[n].Out? ==>
      && s.m.life[n].owner < |s.threads|
      && Popped(s.threads[s.m.life[n].owner].pc) && s.threads[s.m.life[n].owner].node == n
  }

  lemma OutInStep(m: Memory, now: nat, t: nat, blank: set<Node>, th: Thread, n: Node)
    requires Safe(m, th) && !th.pc.Idle?
    ensures var m', th' := NextMemory(m, now, t, th), NextThread(m, blank, th);
            && (n in m'.life && m'.life[n].Out? ==>
                  (n in m.life && m'.life[n] == m.life[n]) || (m'.life[n] == Out(now, t) && th'.pc.ReadItem? && th'.node == n))
            && (Popped(th.pc) && n in m'.life && m'.life[n].Out? && th.node == n ==> Popped(th'.pc) && th'.node == n)
  {
  }

  lemma StepKeepsInHand(s: State, st: Step, n: Node)
    requires Inv(s) && Enabled(s, st) && InHand(s, n)
    ensures InHand(Apply(s, st), n)
  {
    if st.a.Go? {
      NeverTouchesDead(s, st.t);
      hide Inv, NextMemory, NextThread;
      OutInStep(s.m, s.u.now, st.t, s.blank, s.threads[st.t], n);
      hide Safe;
    }
  }

  /** Nothing leaks, in every run. */
  lemma {:induction false} NothingLeaks(run: seq<State>, steps: seq<Step>, i: nat, n: Node)
    requires IsRun(run, steps) && i < |run|
    ensures InHand(run[i], n)
  {
    hide IsRun, Inv, Apply, InHand;
    if i == 0 {
      NoneAtStart(run, steps, n);
    } else {
      NothingLeaks(run, steps, i - 1, n);
      RunStep(run, steps, i - 1);
      RunKeepsInv(run, steps, i - 1);
      StepKeepsInHand(run[i - 1], steps[i - 1], n);
    }
  }

  lemma NoneAtStart(run: seq<State>, steps: seq<Step>, n: Node)
    requires IsRun(run, steps)
    ensures InHand(run[0], n)
  {
  }

  lemma StepKeepsOut(s: State, st: Step, t: nat, n: Node)
    requires Inv(s) && Enabled(s, st) && n in s.m.life && (MyOut(s.m, t, n) || s.m.life[n].Freed?)
    ensures var m' := Apply(s, st).m; n in m'.life && (MyOut(m', t, n) || m'.life[n].Freed?)
  {
    assert ThreadOk(s.m, s.u.cells[st.t], st.t, s.threads[st.t]);
    NothingEvolves(s.m, s.u.now, st.t);
    if st.a.Go? {
      NeverTouchesDead(s, st.t);
      StepKeepsMemory(s.m, s.u.cells[st.t], s.u.now, st.t, s.threads[st.t]);
    } else if st.a.PushItem? {
      AllocateKeeps(s.m, s.u.now, st.t, st.a.n);
    }
    assert NodeEvolves(s.m, Apply(s, st).m, s.u.now, st.t, n);
    hide MemoryOk, ThreadOk, NextMemory, NextThread;
  }

  lemma {:induction false} OutOrFreed(run: seq<State>, steps: seq<Step>, i: nat, j: nat, t: nat, n: Node)
    requires IsRun(run, steps) && i <= j < |run| && MyOut(run[i].m, t, n)
    ensures n in run[j].m.life && (MyOut(run[j].m, t, n) || run[j].m.life[n].Freed?)
  {
    hide IsRun, Inv, Apply, Enabled;
    if i < j {
      OutOrFreed(run, steps, i, j - 1, t, n);
      RunStep(run, steps, j - 1);
      RunKeepsInv(run, steps, j - 1);
      StepKeepsOut(run[j - 1], steps[j - 1], t, n);
    }
  }

  /** What a thread has taken from the stack is deleted when its call is done. */
  lemma FreedWhenDone(run: seq<State>, steps: seq<Step>, i: nat, j: nat, t: nat, n: Node)
    requires IsRun(run, steps) && i <= j < |run| && MyOut(run[i].m, t, n)
    requires t < |run[j].threads| && (run[j].threads[t].pc.Idle? || run[j].threads[t].pc.Done?)
    ensures n in run[j].m.life && run[j].m.life[n].Freed?
  {
    OutOrFreed(run, steps, i, j, t, n);
    NothingLeaks(run, steps, j, n);
  }

  lemma PopTakesOut(s: State, st: Step)
    requires Inv(s) && Enabled(s, st) && StepPops(s, st)
    ensures MyOut(Apply(s, st).m, st.t, s.m.top)
  {
    NeverTouchesDead(s, st.t);
    hide Inv;
  }

  /** Every node that a thread pops, the sentinel too, is deleted when its call is done. */
  lemma PopFrees(run: seq<State>, steps: seq<Step>, j: nat, b: nat, t: nat)
    requires IsRun(run, steps) && j < b < |run| && j < |steps| && steps[j].t == t && StepPops(run[j], steps[j])
    requires t < |run[b].threads| && (run[b].threads[t].pc.Idle? || run[b].threads[t].pc.Done?)
    ensures run[j].m.top in run[b].m.life && run[b].m.life[run[j].m.top].Freed?
  {
    hide IsRun, Inv, Apply;
    RunStep(run, steps, j);
    RunKeepsInv(run, steps, j);
    PopTakesOut(run[j], steps[j]);
    FreedWhenDone(run, steps, j + 1, b, t, run[j].m.top);
  }

  /** A thread that is not reading shows no version: it holds up no synchronizer. */
  lemma IdleHoldsUpNobody(run: seq<State>, steps: seq<Step>, i: nat, t: nat)
    requires IsRun(run, steps) && i < |run| && t < |run[i].threads|
    ensures |run[i].u.cells| == |run[i].threads|
    ensures var th, c := run[i].threads[t], run[i].u.cells[t];
            !Reading(th.pc) && !Locking(th.pc) && !th.pc.EnterB? ==>
              c.reader.Outside? && c.slot >= Urcu.UNASSIGNED > run[i].u.version
  {
    RunKeepsInv(run, steps, i);
    assert ThreadOk(run[i].m, run[i].u.cells[t], t, run[i].threads[t]);
    assert Urcu.ReaderOk(run[i].u, t);
  }
}
