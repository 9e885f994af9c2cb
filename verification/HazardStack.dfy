/** The stack of `hazardpointer/StackHazardPointer.hpp` on hazard pointers: one step per atomic
    access, any number of threads, any number of slots of at least one.

    The constructor of a node does not store its argument in the field `item`; here the value
    of a node is the node itself, as if it did.  A step that would touch deleted memory sets
    `crashed`. */
module HazardStack {
  import opened StackMemory
  import Hazards

  datatype Pc =
    | Idle
    // push
    | ReadTop | PublishPush | CheckTop | StoreNext | PushCas | ClearPush
    // pop
    | LoadTop | PublishPop | RecheckTop | TestTop | LoadNext | PopCas | ReadItem | Retiring | ClearPop | ClearEmpty
    | Done

  datatype Thread = Thread(
    pc: Pc, own: Node, node: Node, nxt: Node, result: Node, c: nat, ret: Hazards.Retirer)

  /** `hazards[t][j]` is slot j of thread t. */
  datatype State = State(m: Memory, hazards: seq<seq<Node>>, threads: seq<Thread>, crashed: bool)

  datatype Action = PushItem(n: Node) | PopItem | Go

  datatype Step = Step(t: nat, a: Action)

  ghost predicate Init(s: State, slots: nat) {
    && s.m == FRESH
    && |s.hazards| == |s.threads| && slots >= 1
    && (forall t | 0 <= t < |s.hazards| :: s.hazards[t] == seq(slots, _ => NULL))
    && (forall t | 0 <= t < |s.threads| ::
          s.threads[t].pc.Idle? && s.threads[t].ret == Hazards.Retirer([], 0, Hazards.Resting))
    && !s.crashed
  }

  /** The next access of the thread reads, writes and deletes live nodes only. */
  predicate Safe(m: Memory, threads: nat, th: Thread) {
    match th.pc
    case StoreNext => Alive(m, th.own)
    case LoadNext => Alive(m, th.node)
    case ReadItem => Alive(m, th.node)
    case Retiring => Hazards.DeletesNow(th.ret, threads) ==> Alive(m, th.ret.list[th.ret.cursor.i])
    case _ => true
  }

  predicate Enabled(s: State, st: Step) {
    && st.t < |s.threads| == |s.hazards|
    && !s.crashed
    && (st.a.Go? <==> !s.threads[st.t].pc.Idle?)
    && (st.a.PushItem? ==> st.a.n !in s.m.life && st.a.n != NULL)
    && (s.threads[st.t].pc.Retiring? ==> ScanReads(s, s.threads[st.t].ret))
  }

  /** The slot that the scan reads next is in the table. */
  predicate ScanReads(s: State, r: Hazards.Retirer) {
    r.cursor.Scanning? && r.cursor.i < |r.list| && r.cursor.k < |s.hazards| ==> r.cursor.j < |s.hazards[r.cursor.k]|
  }

  function Apply(s: State, st: Step): State
    requires Enabled(s, st)
  {
    var th := s.threads[st.t];
    match st.a
    case PushItem(n) =>
      s.(m := Allocate(s.m, st.t, n), threads := s.threads[st.t := th.(pc := ReadTop, own := n)])
    case PopItem => s.(threads := s.threads[st.t := th.(pc := LoadTop)])
    case Go =>
      if !Safe(s.m, |s.threads|, th) then s.(crashed := true)
      else
        State(NextMemory(s.m, |s.threads|, st.t, th),
              s.hazards[st.t := NextRow(s.hazards[st.t], th)],
              s.threads[st.t := NextThread(s, st.t, th)], false)
  }

  function NextThread(s: State, t: nat, th: Thread): Thread
    requires t < |s.hazards| && Safe(s.m, |s.threads|, th) && (th.pc.Retiring? ==> ScanReads(s, th.ret))
  {
    var m := s.m;
    match th.pc
    case Idle => th
    case ReadTop => th.(pc := PublishPush, node := m.top)
    case PublishPush => th.(pc := CheckTop)
    case CheckTop => th.(pc := if th.node == m.top then StoreNext else ReadTop)
    case StoreNext => th.(pc := PushCas)
    case PushCas => if m.top == th.node then th.(pc := ClearPush, c := 0) else th.(pc := ReadTop)
    case ClearPush => StepClear(|s.hazards[t]|, th, Done)

    case LoadTop => if m.top == NULL then th.(pc := ClearEmpty, c := 0, result := NULL) else th.(pc := PublishPop, node := m.top)
    case PublishPop => th.(pc := RecheckTop)
    case RecheckTop =>
      if m.top != th.node then th.(pc := PublishPop, node := m.top)
      else if th.node == NULL then th.(pc := ClearEmpty, c := 0, result := NULL)
      else th.(pc := TestTop)
    case TestTop => th.(pc := if m.top != th.node then LoadTop else LoadNext)
    case LoadNext => th.(pc := PopCas, nxt := m.next[th.node])
    case PopCas => th.(pc := if m.top == th.node then ReadItem else LoadTop)
    case ReadItem =>
      th.(pc := Retiring, result := if th.node == SENTINEL then NULL else th.node, ret := Hazards.Retire(th.ret, th.node))
    case Retiring =>
      if !th.ret.cursor.Scanning? || Hazards.Finished(th.ret) then th.(pc := ClearPop, c := 0, ret := th.ret.(cursor := Hazards.Resting))
      else if th.ret.cursor.k < |s.hazards| then
        th.(ret := Hazards.Compare(th.ret, s.hazards[th.ret.cursor.k][th.ret.cursor.j], |s.hazards[th.ret.cursor.k]|))
      else th.(ret := Hazards.Decide(th.ret))
    case ClearPop => StepClear(|s.hazards[t]|, th, Done)
    case ClearEmpty => StepClear(|s.hazards[t]|, th, Done)
    case Done => th.(pc := Idle)
  }

  /** One store of `clear`. */
  function StepClear(slots: nat, th: Thread, last: Pc): Thread {
    if th.c + 1 < slots then th.(c := th.c + 1) else th.(pc := last)
  }

  function NextRow(row: seq<Node>, th: Thread): seq<Node> {
    match th.pc
    case PublishPush => Put(row, 0, th.node)
    case PublishPop => Put(row, 0, th.node)
    case ClearPush => Put(row, th.c, NULL)
    case ClearPop => Put(row, th.c, NULL)
    case ClearEmpty => Put(row, th.c, NULL)
    case _ => row
  }

  function Put(row: seq<Node>, j: nat, n: Node): seq<Node> {
    if j < |row| then row[j := n] else row
  }

  function NextMemory(m: Memory, threads: nat, t: nat, th: Thread): Memory
    requires Safe(m, threads, th)
  {
    match th.pc
    case StoreNext => StoreOwn(m, th.own, th.node)
    case PushCas => if m.top == th.node then Push(m, th.own) else m
    case PopCas => if m.top == th.node then Pop(m, th.nxt, 0, t) else m
    case Retiring => if Hazards.DeletesNow(th.ret, threads) then Free(m, th.ret.list[th.ret.cursor.i]) else m
    case _ => m
  }

  /** State i + 1 comes from state i by step i. */
  ghost predicate Follows(run: seq<State>, steps: seq<Step>, i: nat)
    requires i < |steps| < |run|
  {
    Enabled(run[i], steps[i]) && run[i + 1] == Apply(run[i], steps[i])
  }

  ghost predicate IsRun(run: seq<State>, steps: seq<Step>, slots: nat) {
    && |run| == |steps| + 1
    && Init(run[0], slots)
    && forall i: nat {:trigger Follows(run, steps, i)} | i < |steps| :: Follows(run, steps, i)
  }

  // ---------------------------------------------------------------- the invariant

  /** Slot 0 holds `node`, and it was validated there. */
  predicate Guards(pc: Pc) {
    pc.TestTop? || pc.LoadNext? || pc.PopCas?
  }

  /** n has been on the stack and is not deleted. */
  predicate Usable(m: Memory, n: Node) {
    n in m.life && n in m.next && (m.life[n].Listed? || m.life[n].Out?)
  }

  predicate Pushing(pc: Pc) {
    pc.ReadTop? || pc.PublishPush? || pc.CheckTop? || pc.StoreNext? || pc.PushCas?
  }

  predicate MyOut(m: Memory, t: nat, n: Node) {
    n in m.life && m.life[n].Out? && m.life[n].owner == t
  }

  predicate WorkOk(m: Memory, row: seq<Node>, t: nat, th: Thread) {
    && |row| >= 1
    && (Pushing(th.pc) ==> th.own in m.life && m.life[th.own] == Private(t) && th.own in m.next)
    && (th.pc.PushCas? ==> m.next[th.own] == th.node)
    && (th.pc.RecheckTop? ==> row[0] == th.node)
    && (Guards(th.pc) ==> row[0] == th.node && Usable(m, th.node))
    && (th.pc.PopCas? ==> m.next[th.node] == th.nxt)
  }

  /** The retired nodes of t: its own, out of the stack, each once. */
  ghost predicate RetiredOk(m: Memory, t: nat, slots: nat, th: Thread) {
    && (forall i {:trigger th.ret.list[i]} | 0 <= i < |th.ret.list| :: MyOut(m, t, th.ret.list[i]))
    && (forall i, j | 0 <= i < j < |th.ret.list| :: th.ret.list[i] != th.ret.list[j])
    && (th.pc.ReadItem? ==> MyOut(m, t, th.node) && th.node !in th.ret.list)
    && th.ret.count == |th.ret.list|
    && (th.pc.Retiring? <==> th.ret.cursor.Scanning?)
    && (th.ret.cursor.Scanning? ==> th.ret.cursor.j < slots)
  }

  ghost predicate ThreadOk(m: Memory, row: seq<Node>, t: nat, slots: nat, th: Thread) {
    |row| == slots && WorkOk(m, row, t, th) && RetiredOk(m, t, slots, th)
  }

  /** No scan of r has passed a guard of th. */
  predicate PairOk(t: nat, th: Thread, r: Hazards.Retirer) {
    Guards(th.pc) ==> Hazards.NotMissed(r, t, 0, th.node)
  }

  ghost predicate Inv(s: State, slots: nat) {
    && |s.hazards| == |s.threads| && slots >= 1
    && MemoryOk(s.m)
    && !s.crashed
    && (forall t | 0 <= t < |s.threads| :: ThreadOk(s.m, s.hazards[t], t, slots, s.threads[t]))
    && (forall t, r | 0 <= t < |s.threads| && 0 <= r < |s.threads| :: PairOk(t, s.threads[t], s.threads[r].ret))
  }

  // ---------------------------------------------------------------- what the other threads keep

  lemma OthersStay(m: Memory, m': Memory, t: nat, r: nat, row: seq<Node>, slots: nat, th: Thread)
    requires Evolves(m, m', 0, t) && r != t
    requires Guards(th.pc) ==> th.node in m'.life && !m'.life[th.node].Freed?
    requires ThreadOk(m, row, r, slots, th)
    ensures ThreadOk(m', row, r, slots, th)
  {
    assert NodeEvolves(m, m', 0, t, th.node) && NodeEvolves(m, m', 0, t, th.own);
    forall i | 0 <= i < |th.ret.list| ensures MyOut(m', r, th.ret.list[i]) {
      assert MyOut(m, r, th.ret.list[i]) && NodeEvolves(m, m', 0, t, th.ret.list[i]);
    }
  }

  // ---------------------------------------------------------------- the step of the thread itself

  lemma NeverTouchesDead(s: State, slots: nat, t: nat)
    requires Inv(s, slots) && t < |s.threads|
    ensures Safe(s.m, |s.threads|, s.threads[t])
    ensures s.threads[t].pc.Retiring? ==> ScanReads(s, s.threads[t].ret)
  {
    var th := s.threads[t];
    assert ThreadOk(s.m, s.hazards[t], t, slots, th);
    if th.pc.Retiring? && Hazards.DeletesNow(th.ret, |s.threads|) {
      assert MyOut(s.m, t, th.ret.list[th.ret.cursor.i]);
    }
    assert th.pc.Retiring? && th.ret.cursor.k < |s.hazards| ==>
      ThreadOk(s.m, s.hazards[th.ret.cursor.k], th.ret.cursor.k, slots, s.threads[th.ret.cursor.k]);
  }

  /** The memory after a step of t. */
  lemma StepKeepsMemory(m: Memory, row: seq<Node>, threads: nat, t: nat, slots: nat, th: Thread)
    requires MemoryOk(m) && ThreadOk(m, row, t, slots, th) && Safe(m, threads, th)
    ensures MemoryOk(NextMemory(m, threads, t, th)) && Evolves(m, NextMemory(m, threads, t, th), 0, t)
  {
    hide Evolves, ChainOk;
    NothingEvolves(m, 0, t);
    match th.pc
    case StoreNext => StoreOwnKeeps(m, 0, t, th.own, th.node);
    case PushCas => if m.top == th.node { PushKeeps(m, 0, t, th.own); }
    case PopCas => if m.top == th.node { PopKeeps(m, 0, t); }
    case Retiring =>
      if Hazards.DeletesNow(th.ret, threads) {
        assert MyOut(m, t, th.ret.list[th.ret.cursor.i]);
        FreeKeeps(m, 0, t, th.ret.list[th.ret.cursor.i]);
      }
    case _ =>
  }

  /** A step of t that may proceed. */
  ghost predicate CanGo(s: State, slots: nat, t: nat) {
    && t < |s.threads| == |s.hazards| && slots >= 1
    && (forall k | 0 <= k < |s.hazards| :: |s.hazards[k]| == slots)
    && MemoryOk(s.m) && ThreadOk(s.m, s.hazards[t], t, slots, s.threads[t])
    && Safe(s.m, |s.threads|, s.threads[t])
    && (s.threads[t].pc.Retiring? ==> ScanReads(s, s.threads[t].ret))
  }

  lemma StepKeepsWork(s: State, slots: nat, t: nat)
    requires CanGo(s, slots, t)
    ensures WorkOk(NextMemory(s.m, |s.threads|, t, s.threads[t]), NextRow(s.hazards[t], s.threads[t]), t, NextThread(s, t, s.threads[t]))
  {
    if s.m.top != NULL { TopIsListed(s.m); }
    hide RetiredOk, MemoryOk;
  }

  lemma RetiredKept(m: Memory, m': Memory, t: nat, slots: nat, th: Thread, th': Thread)
    requires RetiredOk(m, t, slots, th)
    requires forall n | MyOut(m, t, n) :: MyOut(m', t, n)
    requires th'.ret.list == th.ret.list && th'.ret.count == th.ret.count
    requires th'.pc.ReadItem? ==> MyOut(m', t, th'.node) && th'.node !in th.ret.list
    requires th'.pc.Retiring? <==> th'.ret.cursor.Scanning?
    requires th'.ret.cursor.Scanning? ==> th'.ret.cursor.j < slots
    ensures RetiredOk(m', t, slots, th')
  {
    forall i | 0 <= i < |th.ret.list| ensures MyOut(m', t, th.ret.list[i]) {
      assert MyOut(m, t, th.ret.list[i]);
    }
  }

  lemma DeleteKeepsRetired(m: Memory, t: nat, slots: nat, threads: nat, th: Thread)
    requires RetiredOk(m, t, slots, th) && th.pc.Retiring? && Hazards.DeletesNow(th.ret, threads) && slots >= 1
    requires th.ret.list[th.ret.cursor.i] in m.life
    ensures RetiredOk(Free(m, th.ret.list[th.ret.cursor.i]), t, slots, th.(ret := Hazards.Decide(th.ret)))
  {
    var m', th' := Free(m, th.ret.list[th.ret.cursor.i]), th.(ret := Hazards.Decide(th.ret));
    Hazards.EraseOne(th.ret.list, th.ret.cursor.i);
    forall i | 0 <= i < |th'.ret.list| ensures MyOut(m', t, th'.ret.list[i]) {
      assert MyOut(m, t, th.ret.list[if i < th.ret.cursor.i then i else i + 1]);
    }
  }

  lemma RetireKeepsRetired(m: Memory, t: nat, slots: nat, th: Thread, th': Thread)
    requires RetiredOk(m, t, slots, th) && th.pc.ReadItem? && slots >= 1
    requires th'.pc.Retiring? && th'.ret == Hazards.Retire(th.ret, th.node)
    ensures RetiredOk(m, t, slots, th')
  {
    forall i | 0 <= i <= |th.ret.list| ensures MyOut(m, t, (th.ret.list + [th.node])[i]) {
      if i < |th.ret.list| { assert MyOut(m, t, th.ret.list[i]); }
    }
  }

  lemma TopIsNotRetired(m: Memory, t: nat, slots: nat, th: Thread)
    requires MemoryOk(m) && RetiredOk(m, t, slots, th) && m.top != NULL
    ensures m.top !in th.ret.list
  {
    TopIsListed(m);
    forall i | 0 <= i < |th.ret.list| && th.ret.list[i] == m.top ensures MyOut(m, t, m.top) {
      assert MyOut(m, t, th.ret.list[i]);
    }
  }

  lemma StepKeepsRetired(s: State, slots: nat, t: nat)
    requires CanGo(s, slots, t)
    ensures RetiredOk(NextMemory(s.m, |s.threads|, t, s.threads[t]), t, slots, NextThread(s, t, s.threads[t]))
  {
    var m, th := s.m, s.threads[t];
    var m', th' := NextMemory(m, |s.threads|, t, th), NextThread(s, t, th);
    if th.pc.Retiring? && Hazards.DeletesNow(th.ret, |s.threads|) {
      DeleteKeepsRetired(m, t, slots, |s.threads|, th);
    } else if th.pc.ReadItem? {
      RetireKeepsRetired(m, t, slots, th, th');
    } else {
      if m.top != NULL { TopIsNotRetired(m, t, slots, th); TopIsListed(m); }
      assert forall n | MyOut(m, t, n) :: MyOut(m', t, n);
      hide MemoryOk;
      RetiredKept(m, m', t, slots, th, th');
    }
  }

  // ---------------------------------------------------------------- guards against scans

  /** A node that is on the stack is in no retired list. */
  lemma ListedIsNotMissed(m: Memory, r: nat, slots: nat, th: Thread, t: nat, j: nat, n: Node)
    requires RetiredOk(m, r, slots, th) && n in m.life && m.life[n].Listed?
    ensures Hazards.NotMissed(th.ret, t, j, n)
  {
    if th.ret.cursor.Scanning? && th.ret.cursor.i < |th.ret.list| {
      assert MyOut(m, r, th.ret.list[th.ret.cursor.i]);
    }
  }

  /** The scan of r, one step on, against a thread that stands still. */
  lemma ScanKeepsPair(s: State, slots: nat, t: nat, r: nat)
    requires CanGo(s, slots, r) && t < |s.threads| && t != r
    requires ThreadOk(s.m, s.hazards[t], t, slots, s.threads[t]) && PairOk(t, s.threads[t], s.threads[r].ret)
    ensures PairOk(t, s.threads[t], NextThread(s, r, s.threads[r]).ret)
  {
    var th, rt := s.threads[t], s.threads[r];
    hide RetiredOk, MemoryOk;
    if rt.pc.Retiring? && rt.ret.cursor.Scanning? && !Hazards.Finished(rt.ret) && rt.ret.cursor.k < |s.hazards| {
      if Guards(th.pc) {
        Hazards.CompareKeeps(rt.ret, s.hazards[rt.ret.cursor.k][rt.ret.cursor.j], |s.hazards[rt.ret.cursor.k]|, t, 0, th.node);
      }
    }
  }

  /** A thread that moves keeps an old guard or takes a new one on a node that is on the stack. */
  lemma GuardKeepsPair(s: State, slots: nat, t: nat, r: nat)
    requires CanGo(s, slots, t) && r < |s.threads|
    requires RetiredOk(s.m, r, slots, s.threads[r]) && PairOk(t, s.threads[t], s.threads[r].ret)
    ensures t != r ==> PairOk(t, NextThread(s, t, s.threads[t]), s.threads[r].ret)
    ensures t == r ==> PairOk(t, NextThread(s, t, s.threads[t]), NextThread(s, t, s.threads[t]).ret)
  {
    var m, th := s.m, s.threads[t];
    if th.pc.RecheckTop? && m.top == th.node != NULL {
      TopIsListed(m);
      ListedIsNotMissed(m, r, slots, s.threads[r], t, 0, th.node);
    }
    hide MemoryOk;
  }

  /** A published and validated node survives the step of any other thread. */
  lemma StepRespectsGuards(s: State, slots: nat, t: nat, r: nat)
    requires CanGo(s, slots, t) && r < |s.threads| && r != t && Guards(s.threads[r].pc)
    requires ThreadOk(s.m, s.hazards[r], r, slots, s.threads[r]) && PairOk(r, s.threads[r], s.threads[t].ret)
    ensures var m' := NextMemory(s.m, |s.threads|, t, s.threads[t]);
            s.threads[r].node in m'.life && !m'.life[s.threads[r].node].Freed?
  {
    var th := s.threads[t];
    StepKeepsMemory(s.m, s.hazards[t], |s.threads|, t, slots, th);
    hide MemoryOk;
    if th.pc.Retiring? && Hazards.DeletesNow(th.ret, |s.threads|) {
      Hazards.PublishedIsKept(th.ret, |s.threads|, r, 0, s.threads[r].node);
    }
  }

  // ---------------------------------------------------------------- every step, every run

  lemma AllRows(s: State, slots: nat)
    requires Inv(s, slots)
    ensures forall k | 0 <= k < |s.hazards| :: |s.hazards[k]| == slots
  {
    forall k | 0 <= k < |s.hazards| ensures |s.hazards[k]| == slots {
      assert ThreadOk(s.m, s.hazards[k], k, slots, s.threads[k]);
    }
  }

  lemma GoKeepsThreads(s: State, slots: nat, t: nat, r: nat)
    requires Inv(s, slots) && Enabled(s, Step(t, Go)) && r < |s.threads|
    ensures Safe(s.m, |s.threads|, s.threads[t])
    ensures var s' := Apply(s, Step(t, Go));
            MemoryOk(s'.m) && Evolves(s.m, s'.m, 0, t) && ThreadOk(s'.m, s'.hazards[r], r, slots, s'.threads[r])
  {
    NeverTouchesDead(s, slots, t);
    AllRows(s, slots);
    assert ThreadOk(s.m, s.hazards[t], t, slots, s.threads[t]);
    assert ThreadOk(s.m, s.hazards[r], r, slots, s.threads[r]) && PairOk(r, s.threads[r], s.threads[t].ret);
    assert |NextRow(s.hazards[t], s.threads[t])| == slots;
    hide MemoryOk, Evolves, NextMemory, NextThread, NextRow, WorkOk, RetiredOk, PairOk;
    StepKeepsMemory(s.m, s.hazards[t], |s.threads|, t, slots, s.threads[t]);
    if r == t {
      StepKeepsWork(s, slots, t);
      StepKeepsRetired(s, slots, t);
    } else {
      if Guards(s.threads[r].pc) { StepRespectsGuards(s, slots, t, r); }
      OthersStay(s.m, Apply(s, Step(t, Go)).m, t, r, s.hazards[r], slots, s.threads[r]);
    }
  }

  lemma GoKeepsPairs(s: State, slots: nat, x: nat, t: nat, r: nat)
    requires Inv(s, slots) && Enabled(s, Step(x, Go)) && t < |s.threads| && r < |s.threads|
    ensures PairOk(t, Apply(s, Step(x, Go)).threads[t], Apply(s, Step(x, Go)).threads[r].ret)
  {
    NeverTouchesDead(s, slots, x);
    AllRows(s, slots);
    assert ThreadOk(s.m, s.hazards[t], t, slots, s.threads[t]) && PairOk(t, s.threads[t], s.threads[r].ret);
    assert ThreadOk(s.m, s.hazards[r], r, slots, s.threads[r]);
    assert ThreadOk(s.m, s.hazards[x], x, slots, s.threads[x]);
    hide MemoryOk, NextMemory, NextThread, WorkOk, RetiredOk, PairOk;
    if t == x { GuardKeepsPair(s, slots, t, r); }
    else if r == x { ScanKeepsPair(s, slots, t, r); }
  }

  lemma CallKeepsInv(s: State, slots: nat, st: Step)
    requires Inv(s, slots) && Enabled(s, st) && !st.a.Go?
    ensures Inv(Apply(s, st), slots) && Evolves(s.m, Apply(s, st).m, 0, st.t)
  {
    var s' := Apply(s, st);
    NothingEvolves(s.m, 0, st.t);
    if st.a.PushItem? { AllocateKeeps(s.m, 0, st.t, st.a.n); }
    forall r | 0 <= r < |s'.threads| ensures ThreadOk(s'.m, s'.hazards[r], r, slots, s'.threads[r]) {
      assert ThreadOk(s.m, s.hazards[r], r, slots, s.threads[r]);
      hide MemoryOk;
      if r != st.t { OthersStay(s.m, s'.m, st.t, r, s.hazards[r], slots, s.threads[r]); }
      else { CallKeepsThread(s, s', slots, st); }
    }
    forall t, r | 0 <= t < |s'.threads| && 0 <= r < |s'.threads| ensures PairOk(t, s'.threads[t], s'.threads[r].ret) {
      assert PairOk(t, s.threads[t], s.threads[r].ret);
    }
  }

  lemma CallKeepsThread(s: State, s': State, slots: nat, st: Step)
    requires Enabled(s, st) && !st.a.Go? && s' == Apply(s, st)
    requires ThreadOk(s.m, s.hazards[st.t], st.t, slots, s.threads[st.t])
    ensures ThreadOk(s'.m, s'.hazards[st.t], st.t, slots, s'.threads[st.t])
  {
    var th := s.threads[st.t];
    forall i | 0 <= i < |th.ret.list| ensures MyOut(s'.m, st.t, th.ret.list[i]) {
      assert MyOut(s.m, st.t, th.ret.list[i]);
    }
  }

  lemma StepKeepsInv(s: State, slots: nat, st: Step)
    requires Inv(s, slots) && Enabled(s, st)
    ensures Inv(Apply(s, st), slots) && Evolves(s.m, Apply(s, st).m, 0, st.t)
  {
    if st.a.Go? {
      GoKeepsThreads(s, slots, st.t, st.t);
      var s' := Apply(s, st);
      hide ThreadOk, PairOk, MemoryOk, NextMemory, NextThread, Evolves;
      forall r | 0 <= r < |s'.threads| ensures ThreadOk(s'.m, s'.hazards[r], r, slots, s'.threads[r]) {
        GoKeepsThreads(s, slots, st.t, r);
      }
      forall t, r | 0 <= t < |s'.threads| && 0 <= r < |s'.threads| ensures PairOk(t, s'.threads[t], s'.threads[r].ret) {
        GoKeepsPairs(s, slots, st.t, t, r);
      }
    } else {
      CallKeepsInv(s, slots, st);
    }
  }

  lemma InitInv(s: State, slots: nat)
    requires Init(s, slots)
    ensures Inv(s, slots)
  {
    FreshOk();
  }

  lemma RunStep(run: seq<State>, steps: seq<Step>, slots: nat, i: nat)
    requires IsRun(run, steps, slots) && i + 1 < |run|
    ensures |run| == |steps| + 1 && Enabled(run[i], steps[i]) && run[i + 1] == Apply(run[i], steps[i])
  {
    assert Follows(run, steps, i);
  }

  lemma {:induction false} RunKeepsInv(run: seq<State>, steps: seq<Step>, slots: nat, i: nat)
    requires IsRun(run, steps, slots) && i < |run|
    ensures Inv(run[i], slots)
  {
    if i == 0 { InitInv(run[0], slots); }
    else {
      hide IsRun, Inv, Apply;
      RunKeepsInv(run, steps, slots, i - 1);
      RunStep(run, steps, slots, i - 1);
      StepKeepsInv(run[i - 1], slots, steps[i - 1]);
    }
  }
}
