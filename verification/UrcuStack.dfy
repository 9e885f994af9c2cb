/** The stack of `urcu/StackURCU.hpp` on the grace periods of `Urcu`: one step per atomic
    access, any number of threads.  A value is the node that carries it; `push` accepts a null
    item, and `blank` holds the nodes that were pushed with one.  `pop` may enter `readLock`
    again without having left its section.  A step that would touch deleted memory sets
    `crashed`. */
module UrcuStack {
  import opened StackMemory
  import Urcu

  datatype Pc =
    | Idle
    // push
    | EnterA | LockA | ReadTop | PushCas | UnlockA
    // pop
    | EnterB | LockB | LoadTop | CheckTop | LoadNext | PopCas | ReadItem | RetryB | UnlockEmpty
    | UnlockB | SyncB | WaitB | FreeB
    | Done

  datatype Thread = Thread(pc: Pc, own: Node, node: Node, nxt: Node, result: Node, count: int)

  datatype State = State(u: Urcu.State, m: Memory, blank: set<Node>, threads: seq<Thread>, crashed: bool)

  datatype Action = PushItem(n: Node, isNull: bool) | PopItem | Go | Lib(e: Urcu.Event)

  datatype Step = Step(t: nat, a: Action)

  datatype Maybe<T> = None | Some(value: T)

  ghost predicate Init(s: State) {
    && Urcu.Init(s.u) && |s.u.cells| == |s.threads|
    && s.m == FRESH && s.blank == {}
    && (forall t | 0 <= t < |s.threads| :: s.threads[t].pc.Idle? && s.threads[t].count == 0)
    && !s.crashed
  }

  /** The next access of the thread reads, writes and deletes live nodes only. */
  predicate Safe(m: Memory, th: Thread) {
    match th.pc
    case ReadTop => Alive(m, th.own)
    case LoadNext => Alive(m, th.node)
    case ReadItem => Alive(m, th.node)
    case FreeB => Alive(m, th.node)
    case _ => true
  }

  function LibEvent(pc: Pc): Maybe<Urcu.Event> {
    match pc
    case EnterA => Some(Urcu.LockLoad)
    case EnterB => Some(Urcu.LockLoad)
    case UnlockA => Some(Urcu.Unlock)
    case RetryB => Some(Urcu.Unlock)
    case UnlockEmpty => Some(Urcu.Unlock)
    case UnlockB => Some(Urcu.Unlock)
    case SyncB => Some(Urcu.SyncLoad)
    case _ => None
  }

  predicate Locking(pc: Pc) {
    pc.LockA? || pc.LockB?
  }

  predicate Enabled(s: State, st: Step) {
    && st.t < |s.threads| == |s.u.cells|
    && !s.crashed
    && var th := s.threads[st.t];
       match st.a
       case PushItem(n, _) => th.pc.Idle? && n !in s.m.life && n != NULL
       case PopItem => th.pc.Idle?
       case Lib(e) =>
         && Urcu.Enabled(s.u, Urcu.Move(st.t, e))
         && (if e.LockStore? || e.LockReload? || e.LockRepair? then Locking(th.pc)
             else (e.SyncCas? || e.SyncProbe?) && th.pc.WaitB?)
       case Go =>
         && !th.pc.Idle?
         && (Locking(th.pc) ==> s.u.cells[st.t].reader.Reading?)
         && (th.pc.WaitB? ==> s.u.cells[st.t].updater.Returned?)
         && (LibEvent(th.pc).Some? ==> Urcu.Enabled(s.u, Urcu.Move(st.t, LibEvent(th.pc).value)))
  }

  function Apply(s: State, st: Step): State
    requires Enabled(s, st)
  {
    var th := s.threads[st.t];
    match st.a
    case PushItem(n, isNull) =>
      s.(m := Allocate(s.m, st.t, n), blank := if isNull then s.blank + {n} else s.blank,
         threads := s.threads[st.t := th.(pc := EnterA, own := n)])
    case PopItem => s.(threads := s.threads[st.t := th.(pc := EnterB)])
    case Lib(e) => s.(u := Urcu.Apply(s.u, Urcu.Move(st.t, e)))
    case Go =>
      if !Safe(s.m, th) then s.(crashed := true)
      else
        State(if LibEvent(th.pc).Some? then Urcu.Apply(s.u, Urcu.Move(st.t, LibEvent(th.pc).value)) else s.u,
              NextMemory(s.m, s.u.now, st.t, th), s.blank,
              s.threads[st.t := NextThread(s.m, s.blank, th)], false)
  }

  function NextThread(m: Memory, blank: set<Node>, th: Thread): Thread
    requires Safe(m, th)
  {
    match th.pc
    case Idle => th
    case EnterA => th.(pc := LockA)
    case LockA => th.(pc := ReadTop)
    case ReadTop => th.(pc := PushCas, node := m.top)
    case PushCas => th.(pc := if m.top == th.node then UnlockA else ReadTop)
    case UnlockA => th.(pc := Done)
    case EnterB => th.(pc := LockB)
    case LockB => th.(pc := LoadTop)
    case LoadTop => th.(pc := if m.top == NULL then UnlockEmpty else CheckTop, node := m.top)
    case CheckTop => th.(pc := if m.top != th.node then RetryB else LoadNext)
    case LoadNext => th.(pc := PopCas, nxt := m.next[th.node])
    case PopCas => th.(pc := if m.top == th.node then ReadItem else EnterB)
    case ReadItem =>
      th.(pc := UnlockB, count := th.count + 1, result := if th.node == SENTINEL || th.node in blank then NULL else th.node)
    case RetryB => th.(pc := EnterB)
    case UnlockEmpty => th.(pc := Done, result := NULL)
    case UnlockB => th.(pc := SyncB)
    case SyncB => th.(pc := WaitB)
    case WaitB => th.(pc := FreeB)
    case FreeB => th.(pc := Done, count := th.count - 1)
    case Done => th.(pc := Idle)
  }

  function NextMemory(m: Memory, now: nat, t: nat, th: Thread): Memory
    requires Safe(m, th)
  {
    match th.pc
    case ReadTop => StoreOwn(m, th.own, m.top)
    case PushCas => if m.top == th.node then Push(m, th.own) else m
    case PopCas => if m.top == th.node then Pop(m, th.nxt, now, t) else m
    case FreeB => Free(m, th.node)
    case _ => m
  }

  /** State i + 1 comes from state i by step i. */
  ghost predicate Follows(run: seq<State>, steps: seq<Step>, i: nat)
    requires i < |steps| < |run|
  {
    Enabled(run[i], steps[i]) && run[i + 1] == Apply(run[i], steps[i])
  }

  ghost predicate IsRun(run: seq<State>, steps: seq<Step>) {
    && |run| == |steps| + 1
    && Init(run[0])
    && (forall i | 0 <= i < |run| :: run[i].u.version < Urcu.UNASSIGNED)
    && forall i: nat {:trigger Follows(run, steps, i)} | i < |steps| :: Follows(run, steps, i)
  }

  // ---------------------------------------------------------------- the invariant

  /** n was on the stack at some moment after stamp `began`. */
  predicate Held(m: Memory, began: nat, n: Node) {
    && n in m.life && n in m.next
    && match m.life[n]
       case Listed => true
       case Out(at, _) => at > began
       case Freed(at) => at > began
       case Private(_) => false
  }

  ghost predicate Stamps(life: map<Node, Life>, u: Urcu.State) {
    && (forall n | n in life && life[n].Out? :: life[n].at <= u.now)
    && (forall n | n in life && life[n].Freed? :: Urcu.Covered(u, life[n].at))
  }

  predicate Reading(pc: Pc) {
    pc.ReadTop? || pc.PushCas? || pc.UnlockA? || pc.LoadTop? || pc.CheckTop? || pc.LoadNext? || pc.PopCas? || pc.ReadItem?
    || pc.RetryB? || pc.UnlockEmpty? || pc.UnlockB?
  }

  /** Where the thread is inside the grace-period code. */
  predicate CellOk(c: Urcu.Cell, pc: Pc) {
    && (Reading(pc) ==> c.reader.Reading?)
    && (Locking(pc) ==> !c.reader.Outside?)
    && (pc.EnterB? ==> c.reader.Outside? || c.reader.Reading?)
    && (!Reading(pc) && !Locking(pc) && !pc.EnterB? ==> c.reader.Outside?)
    && (if pc.WaitB? then !c.updater.NotSyncing? else !Urcu.Syncing(c))
  }

  predicate Pushing(pc: Pc) {
    pc.EnterA? || pc.LockA? || pc.ReadTop? || pc.PushCas?
  }

  predicate Popped(pc: Pc) {
    pc.ReadItem? || pc.UnlockB? || pc.SyncB? || pc.WaitB? || pc.FreeB?
  }

  predicate MyOut(m: Memory, t: nat, n: Node) {
    n in m.life && m.life[n].Out? && m.life[n].owner == t
  }

  predicate WorkOk(m: Memory, c: Urcu.Cell, t: nat, th: Thread) {
    && (Pushing(th.pc) ==> th.own in m.life && m.life[th.own] == Private(t) && th.own in m.next)
    && (th.pc.PushCas? ==> m.next[th.own] == th.node)
    && (th.pc.CheckTop? || th.pc.LoadNext? || th.pc.PopCas? ==> Held(m, c.began, th.node) && th.node != NULL)
    && (th.pc.PopCas? ==> m.next[th.node] == th.nxt)
    && (Popped(th.pc) ==> MyOut(m, t, th.node))
    && (th.pc.WaitB? || th.pc.FreeB? ==> m.life[th.node].at <= c.called)
    && (th.pc.FreeB? ==> c.updater.Returned?)
    && th.count == (if Popped(th.pc) && !th.pc.ReadItem? then 1 else 0)
  }

  predicate ThreadOk(m: Memory, c: Urcu.Cell, t: nat, th: Thread) {
    CellOk(c, th.pc) && WorkOk(m, c, t, th)
  }

  ghost predicate Inv(s: State) {
    && |s.u.cells| == |s.threads|
    && Urcu.Inv(s.u)
    && MemoryOk(s.m)
    && Stamps(s.m.life, s.u)
    && !s.crashed
    && forall t | 0 <= t < |s.threads| :: ThreadOk(s.m, s.u.cells[t], t, s.threads[t])
  }

  // ---------------------------------------------------------------- every step keeps it

  lemma OthersStay(m: Memory, m': Memory, now: nat, t: nat, r: nat, c: Urcu.Cell, th: Thread)
    requires Evolves(m, m', now, t) && r != t
    requires ThreadOk(m, c, r, th)
    requires Reading(th.pc) ==> c.began < now
    ensures ThreadOk(m', c, r, th)
  {
    assert NodeEvolves(m, m', now, t, th.own) && NodeEvolves(m, m', now, t, th.node);
  }

  lemma NeverTouchesDead(s: State, t: nat)
    requires Inv(s) && t < |s.threads|
    ensures Safe(s.m, s.threads[t])
  {
    assert ThreadOk(s.m, s.u.cells[t], t, s.threads[t]);
    assert Reading(s.threads[t].pc) ==> Urcu.InSection(s.u, t);
  }

  lemma StepKeepsMemory(m: Memory, c: Urcu.Cell, now: nat, t: nat, th: Thread)
    requires MemoryOk(m) && ThreadOk(m, c, t, th) && Safe(m, th)
    ensures MemoryOk(NextMemory(m, now, t, th)) && Evolves(m, NextMemory(m, now, t, th), now, t)
  {
    hide Evolves, ChainOk;
    NothingEvolves(m, now, t);
    match th.pc
    case ReadTop => StoreOwnKeeps(m, now, t, th.own, m.top);
    case PushCas => if m.top == th.node { PushKeeps(m, now, t, th.own); }
    case PopCas => if m.top == th.node { PopKeeps(m, now, t); }
    case FreeB => FreeKeeps(m, now, t, th.node);
    case _ =>
  }

  lemma StepKeepsWork(m: Memory, c: Urcu.Cell, c': Urcu.Cell, now: nat, t: nat, blank: set<Node>, th: Thread)
    requires MemoryOk(m) && ThreadOk(m, c, t, th) && Safe(m, th)
    requires forall n | MyOut(m, t, n) :: m.life[n].at <= now
    requires Reading(th.pc) ==> c'.began == c.began
    requires th.pc.SyncB? ==> c'.called == now
    requires th.pc.WaitB? ==> c'.called == c.called && c'.updater.Returned?
    ensures WorkOk(NextMemory(m, now, t, th), c', t, NextThread(m, blank, th))
  {
    hide CellOk;
    if m.top != NULL { TopIsListed(m); }
  }

  lemma StampsThroughUrcu(life: map<Node, Life>, u: Urcu.State, mv: Urcu.Move)
    requires Stamps(life, u) && Urcu.Enabled(u, mv)
    ensures Stamps(life, Urcu.Apply(u, mv))
  {
    forall n | n in life && life[n].Freed? ensures Urcu.Covered(Urcu.Apply(u, mv), life[n].at) {
      Urcu.CoveredStays(u, mv, life[n].at);
    }
  }

  lemma GoStamps(s: State, t: nat)
    requires Inv(s) && Enabled(s, Step(t, Go)) && Safe(s.m, s.threads[t])
    ensures Stamps(NextMemory(s.m, s.u.now, t, s.threads[t]).life, s.u)
  {
    var th := s.threads[t];
    assert ThreadOk(s.m, s.u.cells[t], t, th);
    if th.pc.FreeB? { Urcu.GraceCovers(s.u, t, s.m.life[th.node].at); }
    hide MemoryOk;
  }

  lemma GoCell(s: State, t: nat)
    requires Inv(s) && Enabled(s, Step(t, Go)) && Safe(s.m, s.threads[t])
    ensures CellOk(Apply(s, Step(t, Go)).u.cells[t], Apply(s, Step(t, Go)).threads[t].pc)
  {
    assert ThreadOk(s.m, s.u.cells[t], t, s.threads[t]);
    hide MemoryOk, Stamps, WorkOk, NextMemory;
  }

  lemma GoKeepsThread(s: State, t: nat)
    requires Inv(s) && Enabled(s, Step(t, Go))
    ensures Safe(s.m, s.threads[t])
    ensures var s' := Apply(s, Step(t, Go));
            MemoryOk(s'.m) && Evolves(s.m, s'.m, s.u.now, t) && ThreadOk(s'.m, s'.u.cells[t], t, s'.threads[t])
  {
    var th, c := s.threads[t], s.u.cells[t];
    NeverTouchesDead(s, t);
    assert ThreadOk(s.m, c, t, th);
    GoCell(s, t);
    assert forall n | MyOut(s.m, t, n) :: s.m.life[n].at <= s.u.now;
    hide MemoryOk, Evolves, Stamps, WorkOk, NextMemory, NextThread;
    StepKeepsMemory(s.m, c, s.u.now, t, th);
    StepKeepsWork(s.m, c, Apply(s, Step(t, Go)).u.cells[t], s.u.now, t, s.blank, th);
  }

  lemma OthersKeep(s: State, s': State, t: nat, r: nat)
    requires Inv(s) && Evolves(s.m, s'.m, s.u.now, t) && r != t && r < |s.threads|
    requires |s'.threads| == |s.threads| && |s'.u.cells| == |s.u.cells|
    requires s'.threads[r] == s.threads[r] && s'.u.cells[r] == s.u.cells[r]
    ensures ThreadOk(s'.m, s'.u.cells[r], r, s'.threads[r])
  {
    var th, c := s.threads[r], s.u.cells[r];
    assert ThreadOk(s.m, c, r, th) && Urcu.ReaderOk(s.u, r);
    hide Evolves, MemoryOk, WorkOk, Stamps;
    assert Reading(th.pc) ==> Urcu.InSection(s.u, r);
    OthersStay(s.m, s'.m, s.u.now, t, r, c, th);
  }

  lemma GoKeepsInv(s: State, t: nat)
    requires Inv(s) && Enabled(s, Step(t, Go)) && s.u.version < Urcu.UNASSIGNED
    ensures Inv(Apply(s, Step(t, Go)))
  {
    GoKeepsThread(s, t);
    GoStamps(s, t);
    var th := s.threads[t];
    var s' := Apply(s, Step(t, Go));
    hide MemoryOk, ThreadOk, Stamps, Evolves, NextMemory, NextThread, Safe;
    if LibEvent(th.pc).Some? {
      StampsThroughUrcu(s'.m.life, s.u, Urcu.Move(t, LibEvent(th.pc).value));
      Urcu.StepKeepsInv(s.u, Urcu.Move(t, LibEvent(th.pc).value));
    }
    hide Urcu.Inv;
    forall r | 0 <= r < |s'.threads| ensures ThreadOk(s'.m, s'.u.cells[r], r, s'.threads[r]) {
      if r != t { OthersKeep(s, s', t, r); }
    }
  }

  lemma LibKeepsThread(m: Memory, c: Urcu.Cell, c': Urcu.Cell, t: nat, th: Thread)
    requires ThreadOk(m, c, t, th) && (Locking(th.pc) || th.pc.WaitB?)
    requires c'.called == c.called
    requires Locking(th.pc) ==> !c'.reader.Outside? && c'.updater == c.updater
    requires th.pc.WaitB? ==> c'.reader == c.reader && !c'.updater.NotSyncing?
    ensures ThreadOk(m, c', t, th)
  {
  }

  lemma LibKeepsInv(s: State, t: nat, e: Urcu.Event)
    requires Inv(s) && Enabled(s, Step(t, Lib(e))) && s.u.version < Urcu.UNASSIGNED
    ensures Inv(Apply(s, Step(t, Lib(e))))
  {
    hide MemoryOk, ThreadOk, Stamps;
    var s' := Apply(s, Step(t, Lib(e)));
    Urcu.StepKeepsInv(s.u, Urcu.Move(t, e));
    StampsThroughUrcu(s.m.life, s.u, Urcu.Move(t, e));
    assert ThreadOk(s.m, s.u.cells[t], t, s.threads[t]);
    LibKeepsThread(s.m, s.u.cells[t], s'.u.cells[t], t, s.threads[t]);
    forall r | 0 <= r < |s'.threads| ensures ThreadOk(s'.m, s'.u.cells[r], r, s'.threads[r]) {
      assert ThreadOk(s.m, s.u.cells[r], r, s.threads[r]);
    }
  }

  lemma CallKeepsInv(s: State, st: Step)
    requires Inv(s) && Enabled(s, st) && (st.a.PushItem? || st.a.PopItem?)
    ensures Inv(Apply(s, st))
  {
    var s' := Apply(s, st);
    assert ThreadOk(s.m, s.u.cells[st.t], st.t, s.threads[st.t]);
    NothingEvolves(s.m, s.u.now, st.t);
    if st.a.PushItem? { AllocateKeeps(s.m, s.u.now, st.t, st.a.n); }
    assert Stamps(s'.m.life, s'.u);
    hide MemoryOk, Stamps, Evolves;
    forall r | 0 <= r < |s'.threads| ensures ThreadOk(s'.m, s'.u.cells[r], r, s'.threads[r]) {
      if r != st.t { OthersKeep(s, s', st.t, r); }
    }
  }

  lemma StepKeepsInv(s: State, st: Step)
    requires Inv(s) && Enabled(s, st) && s.u.version < Urcu.UNASSIGNED
    ensures Inv(Apply(s, st))
  {
    hide Inv;
    match st.a
    case Go => GoKeepsInv(s, st.t);
    case Lib(e) => LibKeepsInv(s, st.t, e);
    case _ => CallKeepsInv(s, st);
  }

  lemma InitInv(s: State)
    requires Init(s)
    ensures Inv(s)
  {
    FreshOk();
  }

  lemma RunStep(run: seq<State>, steps: seq<Step>, i: nat)
    requires IsRun(run, steps) && i + 1 < |run|
    ensures |run| == |steps| + 1 && run[i].u.version < Urcu.UNASSIGNED
    ensures Enabled(run[i], steps[i]) && run[i + 1] == Apply(run[i], steps[i])
  {
    assert Follows(run, steps, i);
  }

  lemma {:induction false} RunKeepsInv(run: seq<State>, steps: seq<Step>, i: nat)
    requires IsRun(run, steps) && i < |run|
    ensures Inv(run[i])
  {
    if i == 0 { InitInv(run[0]); }
    else {
      hide IsRun, Inv, Apply;
      RunKeepsInv(run, steps, i - 1);
      RunStep(run, steps, i - 1);
      StepKeepsInv(run[i - 1], steps[i - 1]);
    }
  }
}
