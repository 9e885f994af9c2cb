/** What becomes of the nodes that a pop of the hazard-pointer stack takes: none is lost, none is
    spared by a scan without a reason, and a thread between two calls protects none. */
module HazardStackReclaim {
  import opened StackMemory
  import Hazards
  import opened HazardStack
  import opened HazardStackResults

  // ---------------------------------------------------------------- nothing leaks

  /** Between the exchange of top and the call of retireNode the node is in the hands of the pop. */
  predicate InHand(th: Thread, n: Node) {
    th.pc.ReadItem? && th.node == n
  }

  /** A node that is out of the stack and not deleted waits in the retired list of the thread that
      took it out, or is about to be put there. */
  predicate Waits(s: State, n: Node) {
    n in s.m.life && s.m.life[n].Out? ==>
      && s.m.life[n].owner < |s.threads|
      && (n in s.threads[s.m.life[n].owner].ret.list || InHand(s.threads[s.m.life[n].owner], n))
  }

  /** Which nodes a step puts out of the stack, and which it takes out of a retired list. */
  lemma OutInStep(s: State, t: nat, n: Node)
    requires Enabled(s, Step(t, Go)) && Safe(s.m, |s.threads|, s.threads[t])
    requires s.threads[t].pc.Retiring? ==> s.threads[t].ret.cursor.Scanning?
    ensures var th, s' := s.threads[t], Apply(s, Step(t, Go));
            var th' := s'.threads[t];
            && (n in s'.m.life && s'.m.life[n].Out? ==>
                  || (n in s.m.life && s'.m.life[n] == s.m.life[n])
                  || (s'.m.life[n] == Out(0, t) && InHand(th', n)))
            && (n in th.ret.list && n in s'.m.life && !s'.m.life[n].Freed? ==> n in th'.ret.list)
            && (InHand(th, n) ==> InHand(th', n) || n in th'.ret.list)
  {
    var th := s.threads[t];
    if th.pc.Retiring? && Hazards.DeletesNow(th.ret, |s.threads|) && n in th.ret.list && n != th.ret.list[th.ret.cursor.i] {
      ErasedIsOne(th.ret.list, th.ret.cursor.i, n);
    }
  }

  lemma ErasedIsOne(list: seq<Node>, i: nat, n: Node)
    requires i < |list| && n in list && n != list[i]
    ensures n in list[..i] + list[i + 1..]
  {
    var k :| 0 <= k < |list| && list[k] == n;
    assert (list[..i] + list[i + 1..])[if k < i then k else k - 1] == n;
  }

  lemma StepKeepsWaiting(s: State, slots: nat, st: Step, n: Node)
    requires Inv(s, slots) && Enabled(s, st) && Waits(s, n)
    ensures Waits(Apply(s, st), n)
  {
    var th := s.threads[st.t];
    assert ThreadOk(s.m, s.hazards[st.t], st.t, slots, th);
    if st.a.Go? {
      NeverTouchesDead(s, slots, st.t);
      hide Inv, ThreadOk;
      OutInStep(s, st.t, n);
      assert |Apply(s, st).threads| == |s.threads|;
      assert forall r | 0 <= r < |s.threads| && r != st.t :: Apply(s, st).threads[r] == s.threads[r];
      hide Apply;
    }
  }

  /** Nothing leaks: in every run a node that is out of the stack and not deleted is in the retired
      list of the thread that took it out, or that thread is on its way to put it there; and what
      is in a retired list is out of the stack, not deleted, and there once. */
  lemma {:induction false} NothingLeaks(run: seq<State>, steps: seq<Step>, slots: nat, i: nat, n: Node)
    requires IsRun(run, steps, slots) && i < |run|
    ensures Waits(run[i], n)
    ensures forall t | 0 <= t < |run[i].threads| && n in run[i].threads[t].ret.list ::
              n in run[i].m.life && run[i].m.life[n].Out? && run[i].m.life[n].owner == t
  {
    hide IsRun, Inv, Apply, Waits;
    if i == 0 {
      StartsWaiting(run, steps, slots, n);
    } else {
      NothingLeaks(run, steps, slots, i - 1, n);
      RunStep(run, steps, slots, i - 1);
      RunKeepsInv(run, steps, slots, i - 1);
      StepKeepsWaiting(run[i - 1], slots, steps[i - 1], n);
    }
    RunKeepsInv(run, steps, slots, i);
    forall t | 0 <= t < |run[i].threads| && n in run[i].threads[t].ret.list
      ensures n in run[i].m.life && run[i].m.life[n].Out? && run[i].m.life[n].owner == t
    {
      ListedAreOut(run[i], slots, t, n);
    }
  }

  lemma StartsWaiting(run: seq<State>, steps: seq<Step>, slots: nat, n: Node)
    requires IsRun(run, steps, slots)
    ensures Waits(run[0], n)
  {
  }

  lemma ListedAreOut(s: State, slots: nat, t: nat, n: Node)
    requires Inv(s, slots) && t < |s.threads| && n in s.threads[t].ret.list
    ensures MyOut(s.m, t, n)
  {
    assert ThreadOk(s.m, s.hazards[t], t, slots, s.threads[t]);
    var i :| 0 <= i < |s.threads[t].ret.list| && s.threads[t].ret.list[i] == n;
    assert MyOut(s.m, t, s.threads[t].ret.list[i]);
  }

  // ---------------------------------------------------------------- idle threads protect nothing

  /** How far the slots are cleared. */
  predicate Cleared(row: seq<Node>, th: Thread) {
    && (th.pc.Idle? || th.pc.Done? ==> forall j | 0 <= j < |row| :: row[j] == NULL)
    && (th.pc.ClearPush? || th.pc.ClearPop? || th.pc.ClearEmpty? ==> forall j | 0 <= j < |row| && j < th.c :: row[j] == NULL)
  }

  lemma StepClears(s: State, slots: nat, st: Step, r: nat)
    requires Inv(s, slots) && Enabled(s, st) && r < |s.threads| && Cleared(s.hazards[r], s.threads[r])
    ensures |Apply(s, st).hazards| == |Apply(s, st).threads| == |s.threads|
    ensures Cleared(Apply(s, st).hazards[r], Apply(s, st).threads[r])
  {
    if st.a.Go? {
      NeverTouchesDead(s, slots, st.t);
      hide Inv, NextMemory;
    }
  }

  /** A thread between two calls has no node in any of its slots. */
  lemma {:induction false} IdleProtectsNothing(run: seq<State>, steps: seq<Step>, slots: nat, i: nat, t: nat)
    requires IsRun(run, steps, slots) && i < |run| && t < |run[i].threads|
    ensures |run[i].hazards| == |run[i].threads| && Cleared(run[i].hazards[t], run[i].threads[t])
    ensures run[i].threads[t].pc.Idle? || run[i].threads[t].pc.Done? ==>
              forall j | 0 <= j < |run[i].hazards[t]| :: run[i].hazards[t][j] == NULL
  {
    if i > 0 {
      hide IsRun, Inv, Apply;
      RunStep(run, steps, slots, i - 1);
      RunKeepsInv(run, steps, slots, i - 1);
      SameThreads(run[i - 1], slots, steps[i - 1]);
      IdleProtectsNothing(run, steps, slots, i - 1, t);
      StepClears(run[i - 1], slots, steps[i - 1], t);
    }
  }

  lemma SameThreads(s: State, slots: nat, st: Step)
    requires Inv(s, slots) && Enabled(s, st)
    ensures |Apply(s, st).threads| == |s.threads|
  {
  }

  // ---------------------------------------------------------------- the scan is exact

  /** The tables of the states a..b. */
  ghost function Tables(run: seq<State>, a: nat, b: nat): (tables: seq<seq<seq<Node>>>)
    requires a <= b <= |run|
    ensures |tables| == b - a && forall x | 0 <= x < b - a :: tables[x] == run[a + x].hazards
  {
    seq(b - a, x requires 0 <= x < b - a => run[a + x].hazards)
  }

  /** Thread t scans the list from state a, where it starts, to state b. */
  ghost predicate Scans(run: seq<State>, steps: seq<Step>, slots: nat, a: nat, b: nat, t: nat, list: seq<Node>) {
    && IsRun(run, steps, slots) && a <= b < |run| && t < |run[a].threads|
    && run[a].threads[t].ret == Hazards.Retirer(list, |list|, Hazards.Scanning(0, 0, 0, true))
    && forall x | a <= x <= b :: t < |run[x].threads| && run[x].threads[t].pc.Retiring?
  }

  ghost predicate AllFreed(m: Memory, list: seq<Node>, h: nat) {
    forall d: nat | d < h && 2 * d < |list| :: list[2 * d] in m.life && m.life[list[2 * d]].Freed?
  }

  lemma OwnScanStep(s: State, slots: nat, t: nat, tables: seq<seq<seq<Node>>>, list: seq<Node>, h: nat) returns (h': nat)
    requires Inv(s, slots) && Enabled(s, Step(t, Go)) && s.threads[t].pc.Retiring?
    requires Apply(s, Step(t, Go)).threads[t].pc.Retiring?
    requires Hazards.InScan(tables, |s.threads|, slots, list, h, s.threads[t].ret) && AllFreed(s.m, list, h)
    ensures Hazards.InScan(tables + [s.hazards], |s.threads|, slots, list, h', Apply(s, Step(t, Go)).threads[t].ret)
    ensures AllFreed(Apply(s, Step(t, Go)).m, list, h')
  {
    NeverTouchesDead(s, slots, t);
    AllRows(s, slots);
    var r := s.threads[t].ret;
    assert ThreadOk(s.m, s.hazards[t], t, slots, s.threads[t]);
    assert |s.threads| == |s.hazards|;
    h' := if Hazards.Deciding(r, |s.threads|) && r.cursor.flag then h + 1 else h;
    if r.cursor.k < |s.hazards| {
      Hazards.ScanCompares(tables, s.hazards, slots, list, h, r);
    } else {
      Hazards.ScanDecides(tables, s.hazards, |s.threads|, slots, list, h, r);
    }
    hide Inv, Hazards.InScan, Hazards.Compare, ThreadOk;
  }

  lemma OtherScanStep(s: State, slots: nat, st: Step, t: nat, tables: seq<seq<seq<Node>>>, list: seq<Node>, h: nat)
    requires Inv(s, slots) && Enabled(s, st) && st.t != t && t < |s.threads|
    requires Hazards.InScan(tables, |s.threads|, slots, list, h, s.threads[t].ret) && AllFreed(s.m, list, h)
    ensures Hazards.InScan(tables + [s.hazards], |s.threads|, slots, list, h, Apply(s, st).threads[t].ret)
    ensures AllFreed(Apply(s, st).m, list, h)
  {
    OthersStand(s, st, t);
    StepKeepsInv(s, slots, st);
    Hazards.ScanWaits(tables, s.hazards, |s.threads|, slots, list, h, s.threads[t].ret);
    hide Inv, Hazards.InScan, Apply;
    forall d: nat | d < h && 2 * d < |list| ensures list[2 * d] in Apply(s, st).m.life && Apply(s, st).m.life[list[2 * d]].Freed? {
      assert NodeEvolves(s.m, Apply(s, st).m, 0, st.t, list[2 * d]);
    }
  }

  lemma {:induction false} ScanSoFar(run: seq<State>, steps: seq<Step>, slots: nat, a: nat, b: nat, t: nat, list: seq<Node>)
    returns (h: nat)
    requires Scans(run, steps, slots, a, b, t, list)
    ensures |run[b].threads| == |run[a].threads|
    ensures Hazards.InScan(Tables(run, a, b), |run[a].threads|, slots, list, h, run[b].threads[t].ret) && AllFreed(run[b].m, list, h)
  {
    hide IsRun, Inv, Apply, Hazards.InScan;
    if a == b {
      Hazards.ScanStarts(|run[a].threads|, slots, list);
      h := 0;
      assert Tables(run, a, b) == [];
    } else {
      h := ScanSoFar(run, steps, slots, a, b - 1, t, list);
      RunStep(run, steps, slots, b - 1);
      RunKeepsInv(run, steps, slots, b - 1);
      var s, st := run[b - 1], steps[b - 1];
      assert Tables(run, a, b) == Tables(run, a, b - 1) + [s.hazards];
      SameThreads(s, slots, st);
      assert s.threads[t].pc.Retiring? && run[b].threads[t].pc.Retiring?;
      hide AllFreed, Tables;
      if st.t == t {
        GoOnly(s, st);
        h := OwnScanStep(s, slots, t, Tables(run, a, b - 1), list, h);
      } else {
        OtherScanStep(s, slots, st, t, Tables(run, a, b - 1), list, h);
      }
    }
  }

  /** At some moment from a to b slot j of thread k did not hold n. */
  ghost predicate SawWithout(run: seq<State>, a: nat, b: nat, k: nat, j: nat, n: Node)
    requires a <= b <= |run|
  {
    exists x | a <= x < b :: k < |run[x].hazards| && j < |run[x].hazards[k]| && run[x].hazards[k][j] != n
  }

  /** At some moment from a to b some slot held n. */
  ghost predicate SawWith(run: seq<State>, a: nat, b: nat, n: Node)
    requires a <= b <= |run|
  {
    exists x, k, j | a <= x < b && 0 <= k < |run[x].hazards| && 0 <= j < |run[x].hazards[k]| :: run[x].hazards[k][j] == n
  }

  /** What the scan of the list has done when it is over: the nodes at the first h even places are
      deleted, all others are left, in order.  Each that is deleted was at some moment of the scan
      in no slot, slot by slot; and if the scan stopped deleting, then because the next one was in
      some slot at some moment of the scan. */
  ghost predicate ScanIsExact(run: seq<State>, slots: nat, a: nat, b: nat, t: nat, list: seq<Node>, h: nat)
    requires a <= b < |run| && t < |run[b].threads|
  {
    var left := run[b].threads[t].ret.list;
    && 2 * h <= |list| + 1 && |left| == |list| - h
    && (forall i | 0 <= i < |left| :: left[i] == list[if i < h then 2 * i + 1 else i + h])
    && (forall d: nat | d < h && 2 * d < |list| :: list[2 * d] in run[b].m.life && run[b].m.life[list[2 * d]].Freed?)
    && (forall d: nat, k: nat, j: nat | d < h && 2 * d < |list| && k < |run[b].threads| && j < slots ::
          SawWithout(run, a, b, k, j, list[2 * d]))
    && (2 * h < |list| ==> SawWith(run, a, b, list[2 * h]))
  }

  lemma SeenInRun(run: seq<State>, a: nat, b: nat)
    requires a <= b < |run|
    ensures forall k: nat, j: nat, n | Hazards.SeenWithout(Tables(run, a, b), k, j, n) :: SawWithout(run, a, b, k, j, n)
    ensures forall n | Hazards.SeenWith(Tables(run, a, b), n) :: SawWith(run, a, b, n)
  {
    var tables := Tables(run, a, b);
    forall k: nat, j: nat, n | Hazards.SeenWithout(tables, k, j, n) ensures SawWithout(run, a, b, k, j, n) {
      var x :| 0 <= x < |tables| && k < |tables[x]| && j < |tables[x][k]| && tables[x][k][j] != n;
      assert run[a + x].hazards[k][j] != n;
    }
    forall n | Hazards.SeenWith(tables, n) ensures SawWith(run, a, b, n) {
      var x :| 0 <= x < |tables| && Hazards.Holds(tables[x], n);
      var k, j :| 0 <= k < |tables[x]| && 0 <= j < |tables[x][k]| && tables[x][k][j] == n;
      assert run[a + x].hazards[k][j] == n;
    }
  }

  /** In every interleaving the scan is exact. */
  lemma PassIsExact(run: seq<State>, steps: seq<Step>, slots: nat, a: nat, b: nat, t: nat, list: seq<Node>)
    requires Scans(run, steps, slots, a, b, t, list) && Hazards.Finished(run[b].threads[t].ret)
    ensures exists h: nat :: ScanIsExact(run, slots, a, b, t, list, h)
  {
    hide IsRun;
    var h := ScanSoFar(run, steps, slots, a, b, t, list);
    Hazards.ScanEnds(Tables(run, a, b), |run[b].threads|, slots, list, h, run[b].threads[t].ret);
    SeenInRun(run, a, b);
    hide Hazards.SeenWithout, Hazards.SeenWith, Tables, SawWithout, SawWith;
    forall d: nat, k: nat, j: nat | d < h && 2 * d < |list| && k < |run[b].threads| && j < slots
      ensures SawWithout(run, a, b, k, j, list[2 * d])
    {
      assert Hazards.SeenNowhere(Tables(run, a, b), |run[b].threads|, slots, list[2 * d]);
      assert Hazards.SeenWithout(Tables(run, a, b), k, j, list[2 * d]);
    }
    assert ScanIsExact(run, slots, a, b, t, list, h);
  }

  // ---------------------------------------------------------------- every pop makes a scan

  /** From x to y the thread makes a whole scan of the list. */
  ghost predicate WholeScan(run: seq<State>, steps: seq<Step>, slots: nat, x: nat, y: nat, t: nat, list: seq<Node>) {
    Scans(run, steps, slots, x, y, t, list) && Hazards.Finished(run[y].threads[t].ret)
  }

  /** In a step from a to b the thread took n, as the top node, off the stack. */
  ghost predicate TookTop(run: seq<State>, steps: seq<Step>, a: nat, b: nat, t: nat, n: Node) {
    exists j | a <= j < b && j < |steps| && j < |run| :: steps[j].t == t && StepPops(run[j], steps[j]) && run[j].m.top == n
  }

  /** What the pop that began at a has done by state b. */
  ghost predicate PopSoFar(run: seq<State>, steps: seq<Step>, slots: nat, a: nat, b: nat, t: nat)
    requires a < b < |run| && t < |run[a].threads| && t < |run[b].threads|
  {
    var th, list := run[b].threads[t], run[a].threads[t].ret.list;
    if BeforePop(th.pc) || th.pc.ClearEmpty? then th.ret.list == list
    else if th.pc.ReadItem? then th.ret.list == list && TookTop(run, steps, a, b, t, th.node)
    else if th.pc.Retiring? then
      TookTop(run, steps, a, b, t, th.node) && exists x | a < x <= b :: Scans(run, steps, slots, x, b, t, list + [th.node])
    else if th.pc.ClearPop? then PopScanned(run, steps, slots, a, b, t)
    else th.pc.Done? && (PopScanned(run, steps, slots, a, b, t) || (th.ret.list == list && th.result == NULL))
  }

  ghost predicate PopScanned(run: seq<State>, steps: seq<Step>, slots: nat, a: nat, b: nat, t: nat)
    requires a < b < |run| && t < |run[a].threads| && t < |run[b].threads|
  {
    var th, list := run[b].threads[t], run[a].threads[t].ret.list;
    && TookTop(run, steps, a, b, t, th.node)
    && exists x, y | a < x <= y < b :: WholeScan(run, steps, slots, x, y, t, list + [th.node]) && th.ret.list == run[y].threads[t].ret.list
  }

  /** What a step of any thread does to the retired list of a pop. */
  lemma RetireMoves(s: State, slots: nat, st: Step, t: nat)
    requires Inv(s, slots) && Enabled(s, st) && t < |s.threads|
    requires var pc := s.threads[t].pc; BeforePop(pc) || Popped(pc) || pc.ClearEmpty? || pc.Done?
    requires t < |Apply(s, st).threads| && !Apply(s, st).threads[t].pc.Idle?
    ensures var th, th' := s.threads[t], Apply(s, st).threads[t];
            && (th.pc.Done? || st.t != t ==> th' == th)
            && (st.t == t && BeforePop(th.pc) ==>
                  th'.ret.list == th.ret.list
                  && (BeforePop(th'.pc) || th'.pc.ClearEmpty? || (th'.pc.ReadItem? && StepPops(s, st) && s.m.top == th'.node)))
            && (st.t == t && th.pc.ReadItem? ==>
                  th'.pc.Retiring? && th'.node == th.node
                  && th'.ret == Hazards.Retirer(th.ret.list + [th.node], |th.ret.list + [th.node]|, Hazards.Scanning(0, 0, 0, true)))
            && (st.t == t && th.pc.Retiring? ==>
                  th'.node == th.node
                  && (th'.pc.Retiring? || (th'.pc.ClearPop? && Hazards.Finished(th.ret) && th'.ret.list == th.ret.list)))
            && (st.t == t && (th.pc.ClearPop? || th.pc.ClearEmpty?) ==>
                  th'.node == th.node && th'.ret == th.ret && th'.result == th.result && (th'.pc == th.pc || th'.pc.Done?))
            && (th'.pc.ClearEmpty? && st.t == t && !th.pc.ClearEmpty? ==> th'.result == NULL)
  {
    if st.t != t {
      OthersStand(s, st, t);
    } else {
      GoOnly(s, st);
      NeverTouchesDead(s, slots, t);
      assert ThreadOk(s.m, s.hazards[t], t, slots, s.threads[t]);
      hide NextMemory, Inv, WorkOk;
    }
  }

  lemma TookStays(run: seq<State>, steps: seq<Step>, a: nat, b: nat, t: nat)
    ensures forall n | TookTop(run, steps, a, b, t, n) :: TookTop(run, steps, a, b + 1, t, n)
  {
  }

  lemma ScanGoesOn(run: seq<State>, steps: seq<Step>, slots: nat, x: nat, b: nat, t: nat, list: seq<Node>)
    requires Scans(run, steps, slots, x, b, t, list) && b + 1 < |run|
    requires t < |run[b + 1].threads| && run[b + 1].threads[t].pc.Retiring?
    ensures Scans(run, steps, slots, x, b + 1, t, list)
  {
  }

  lemma ScanBegins(run: seq<State>, steps: seq<Step>, slots: nat, b: nat, t: nat, list: seq<Node>)
    requires IsRun(run, steps, slots) && b < |run| && t < |run[b].threads| && run[b].threads[t].pc.Retiring?
    requires run[b].threads[t].ret == Hazards.Retirer(list, |list|, Hazards.Scanning(0, 0, 0, true))
    ensures Scans(run, steps, slots, b, b, t, list)
  {
  }

  lemma ScannedStays(run: seq<State>, steps: seq<Step>, slots: nat, a: nat, b: nat, t: nat)
    requires a < b && b + 1 < |run| && t < |run[a].threads| && t < |run[b].threads| && t < |run[b + 1].threads|
    requires PopScanned(run, steps, slots, a, b, t)
    requires run[b + 1].threads[t].node == run[b].threads[t].node && run[b + 1].threads[t].ret.list == run[b].threads[t].ret.list
    ensures PopScanned(run, steps, slots, a, b + 1, t)
  {
    TookStays(run, steps, a, b, t);
    var th, list := run[b].threads[t], run[a].threads[t].ret.list;
    var x, y :| a < x <= y < b && WholeScan(run, steps, slots, x, y, t, list + [th.node]) && th.ret.list == run[y].threads[t].ret.list;
    hide WholeScan;
  }

  lemma {:induction false} PopScansSoFar(run: seq<State>, steps: seq<Step>, slots: nat, a: nat, b: nat, t: nat)
    requires InCall(run, steps, slots, a, b, t) && steps[a].a.PopItem?
    ensures t < |run[a].threads| && PopSoFar(run, steps, slots, a, b, t)
  {
    hide IsRun, Inv, Apply, Contents, Hazards.Finished, Scans, PopScanned, TookTop;
    RunStep(run, steps, slots, b - 1);
    RunKeepsInv(run, steps, slots, b - 1);
    var s, st := run[b - 1], steps[b - 1];
    if a + 1 == b {
      CallKeepsRetired(s, slots, st);
    } else {
      PopScansSoFar(run, steps, slots, a, b - 1, t);
      ResultWhenEmpty(run, steps, slots, a, b - 1, t);
      var list, th, th' := run[a].threads[t].ret.list, s.threads[t], run[b].threads[t];
      RetireMoves(s, slots, st, t);
      TookStays(run, steps, a, b - 1, t);
      hide Enabled;
      if th'.pc.Retiring? {
        if th.pc.Retiring? {
          var x :| a < x <= b - 1 && Scans(run, steps, slots, x, b - 1, t, list + [th.node]);
          ScanGoesOn(run, steps, slots, x, b - 1, t, list + [th'.node]);
        } else {
          ScanBegins(run, steps, slots, b, t, list + [th'.node]);
        }
      } else if th.pc.Retiring? {
        var x :| a < x <= b - 1 && Scans(run, steps, slots, x, b - 1, t, list + [th.node]);
        JustScanned(run, steps, slots, a, b, t, x);
      } else if th'.pc.ReadItem? && !th.pc.ReadItem? {
        JustTook(run, steps, a, b, t);
      } else if PopScanned(run, steps, slots, a, b - 1, t) {
        if th.pc.ClearPop? || th.pc.Done? { ScannedStays(run, steps, slots, a, b - 1, t); }
      }
    }
  }

  lemma JustTook(run: seq<State>, steps: seq<Step>, a: nat, b: nat, t: nat)
    requires a < b < |run| && b <= |steps| && t < |run[b].threads|
    requires steps[b - 1].t == t && StepPops(run[b - 1], steps[b - 1]) && run[b - 1].m.top == run[b].threads[t].node
    ensures TookTop(run, steps, a, b, t, run[b].threads[t].node)
  {
    var j := b - 1;
    assert steps[j].t == t && StepPops(run[j], steps[j]);
  }

  lemma JustScanned(run: seq<State>, steps: seq<Step>, slots: nat, a: nat, b: nat, t: nat, x: nat)
    requires a < x <= b - 1 && b < |run| && t < |run[a].threads| && t < |run[b].threads| && t < |run[b - 1].threads|
    requires Scans(run, steps, slots, x, b - 1, t, run[a].threads[t].ret.list + [run[b].threads[t].node])
    requires Hazards.Finished(run[b - 1].threads[t].ret) && run[b].threads[t].ret.list == run[b - 1].threads[t].ret.list
    requires TookTop(run, steps, a, b, t, run[b].threads[t].node)
    ensures PopScanned(run, steps, slots, a, b, t)
  {
    assert WholeScan(run, steps, slots, x, b - 1, t, run[a].threads[t].ret.list + [run[b].threads[t].node]);
  }

  lemma ResultWhenEmpty(run: seq<State>, steps: seq<Step>, slots: nat, a: nat, b: nat, t: nat)
    requires InCall(run, steps, slots, a, b, t) && steps[a].a.PopItem?
    ensures var th := run[b].threads[t];
            && (BeforePop(th.pc) || Popped(th.pc) || th.pc.ClearEmpty? || th.pc.Done?)
            && (th.pc.ClearEmpty? ==> th.result == NULL)
  {
    PopProgress(run, steps, slots, a, b, t);
  }

  lemma CallKeepsRetired(s: State, slots: nat, st: Step)
    requires Inv(s, slots) && Enabled(s, st) && st.a.PopItem?
    ensures var th' := Apply(s, st).threads[st.t]; th'.pc.LoadTop? && th'.ret == s.threads[st.t].ret
  {
  }

  /** A pop that took the top node puts it at the end of its retired list and then makes one whole
      scan of it, which is exact, before it is done; one that took none returns null and leaves its
      list alone. */
  lemma PopScans(run: seq<State>, steps: seq<Step>, slots: nat, a: nat, b: nat, t: nat)
    requires InCall(run, steps, slots, a, b, t) && steps[a].a.PopItem? && run[b].threads[t].pc.Done?
    ensures t < |run[a].threads|
    ensures var th, list := run[b].threads[t], run[a].threads[t].ret.list;
            || (th.result == NULL && th.ret.list == list)
            || (TookTop(run, steps, a, b, t, th.node)
                && exists x, y | a < x <= y < b ::
                     && WholeScan(run, steps, slots, x, y, t, list + [th.node])
                     && th.ret.list == run[y].threads[t].ret.list
                     && exists h: nat :: ScanIsExact(run, slots, x, y, t, list + [th.node], h))
  {
    PopScansSoFar(run, steps, slots, a, b, t);
    var th, list := run[b].threads[t], run[a].threads[t].ret.list;
    if PopScanned(run, steps, slots, a, b, t) {
      var x, y :| a < x <= y < b && WholeScan(run, steps, slots, x, y, t, list + [th.node])
                  && th.ret.list == run[y].threads[t].ret.list;
      PassIsExact(run, steps, slots, x, y, t, list + [th.node]);
      hide InCall, IsRun, ScanIsExact, TookTop;
    }
  }
}
