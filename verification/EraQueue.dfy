/** The queue of `hazarderas/QueueHazardEras.hpp` on hazard eras: one step per atomic access,
    any number of threads, any number of slots of at least two.

    `get_protected` is three steps: load the pointer, compare the clock with the era in the
    slot, and, when they differ, store the clock's value and start over.  The value of a node
    is the node itself.  A step that would touch deleted memory sets `crashed`. */
module EraQueue {
  import opened QueueMemory
  import Eras

  datatype Pc =
    | Idle
    // enqueue
    | ReadEra | LoadTail | CheckTail | StoreTail | TestTail | ReadNext | LinkCas | HelpTail | SwingCas | ClearEnqueue
    // dequeue
    | LoadHead | CheckHead | StoreHead | CompareTail | LoadNext | CheckNext | StoreNext
    | HeadCas | ReadItem | Retiring | ClearDequeue | ClearEmpty
    | Done

  datatype Thread = Thread(
    pc: Pc, own: Node, node: Node, nxt: Node, era: nat, result: Node, c: nat, ret: Eras.Retirer)

  datatype State = State(m: Memory, e: Eras.Table, threads: seq<Thread>, crashed: bool)

  datatype Action = Enqueue(n: Node) | Dequeue | Go

  datatype Step = Step(t: nat, a: Action)

  ghost predicate Init(s: State, slots: nat) {
    && s.m == EMPTY
    && |s.e.rows| == |s.threads| && slots >= 2
    && s.e.clock == 1 && s.e.birth == map[SENTINEL := 1] && s.e.del == map[]
    && (forall t | 0 <= t < |s.e.rows| :: s.e.rows[t] == seq(slots, _ => 0))
    && (forall t | 0 <= t < |s.threads| ::
          s.threads[t].pc.Idle? && s.threads[t].ret == Eras.Retirer([], 0, Eras.Resting))
    && !s.crashed
  }

  /** The next access of the thread reads, writes and deletes live nodes only.  A scan reads the
      eras of the nodes in its list. */
  predicate Safe(m: Memory, e: Eras.Table, th: Thread) {
    match th.pc
    case ReadNext => Alive(m, th.node)
    case LinkCas => Alive(m, th.node)
    case LoadNext => Alive(m, th.node)
    case ReadItem => Alive(m, th.nxt)
    case Retiring =>
      && (th.ret.cursor.Stamping? ==> Alive(m, th.ret.cursor.n))
      && (th.ret.cursor.Scanning? && th.ret.cursor.i < |th.ret.list| ==> Alive(m, th.ret.list[th.ret.cursor.i]))
    case _ => true
  }

  predicate Enabled(s: State, st: Step) {
    && st.t < |s.threads| == |s.e.rows|
    && !s.crashed
    && (st.a.Go? <==> !s.threads[st.t].pc.Idle?)
    && (st.a.Enqueue? ==> st.a.n !in s.m.life && st.a.n != NULL)
  }

  function Apply(s: State, st: Step): State
    requires Enabled(s, st)
  {
    var th := s.threads[st.t];
    match st.a
    case Enqueue(n) =>
      s.(m := Allocate(s.m, st.t, n), threads := s.threads[st.t := th.(pc := ReadEra, own := n)])
    case Dequeue => s.(threads := s.threads[st.t := th.(pc := LoadHead)])
    case Go =>
      if !Safe(s.m, s.e, th) then s.(crashed := true)
      else
        State(NextMemory(s.m, s.e, st.t, th), NextTable(s.e, st.t, th),
              s.threads[st.t := NextThread(s.m, s.e, st.t, th)], false)
  }

  function NextThread(m: Memory, e: Eras.Table, t: nat, th: Thread): Thread
    requires Safe(m, e, th)
  {
    var slots := if t < |e.rows| then |e.rows[t]| else 0;
    match th.pc
    case Idle => th
    case ReadEra => th.(pc := LoadTail)
    case LoadTail => th.(pc := CheckTail, node := m.tail)
    case CheckTail => if e.clock == Eras.EraOf(e, t, 0) then th.(pc := TestTail) else th.(pc := StoreTail, era := e.clock)
    case StoreTail => th.(pc := LoadTail)
    case TestTail => th.(pc := if th.node == m.tail then ReadNext else LoadTail)
    case ReadNext => th.(nxt := m.next[th.node], pc := if m.next[th.node] == NULL then LinkCas else HelpTail)
    case LinkCas => th.(pc := if m.next[th.node] == NULL then SwingCas else LoadTail)
    case HelpTail => th.(pc := LoadTail)
    case SwingCas => th.(pc := ClearEnqueue, c := 0)
    case ClearEnqueue => StepClear(slots, th)

    case LoadHead => th.(pc := CheckHead, node := m.head)
    case CheckHead => if e.clock == Eras.EraOf(e, t, 0) then th.(pc := CompareTail) else th.(pc := StoreHead, era := e.clock)
    case StoreHead => th.(pc := LoadHead)
    case CompareTail => if th.node == m.tail then th.(pc := ClearEmpty, c := 0, result := NULL) else th.(pc := LoadNext)
    case LoadNext => th.(pc := CheckNext, nxt := m.next[th.node])
    case CheckNext => if e.clock == Eras.EraOf(e, t, 1) then th.(pc := HeadCas) else th.(pc := StoreNext, era := e.clock)
    case StoreNext => th.(pc := LoadNext)
    case HeadCas => th.(pc := if m.head == th.node then ReadItem else LoadHead)
    case ReadItem => th.(pc := Retiring, result := th.nxt, ret := th.ret.(cursor := Eras.Stamping(th.node)))
    case Retiring =>
      var r' := Eras.Reclaim(e, th.ret);
      if r'.cursor.Resting? then th.(pc := ClearDequeue, c := 0, ret := r') else th.(ret := r')
    case ClearDequeue => StepClear(slots, th)
    case ClearEmpty => StepClear(slots, th)
    case Done => th.(pc := Idle)
  }

  /** One store of `clear`. */
  function StepClear(slots: nat, th: Thread): Thread {
    if th.c + 1 < slots then th.(c := th.c + 1) else th.(pc := Done)
  }

  function NextTable(e: Eras.Table, t: nat, th: Thread): Eras.Table {
    match th.pc
    case ReadEra => Eras.Born(e, th.own)
    case StoreTail => Eras.Publish(e, t, 0, th.era)
    case StoreHead => Eras.Publish(e, t, 0, th.era)
    case StoreNext => Eras.Publish(e, t, 1, th.era)
    case ClearEnqueue => Eras.Publish(e, t, th.c, 0)
    case ClearDequeue => Eras.Publish(e, t, th.c, 0)
    case ClearEmpty => Eras.Publish(e, t, th.c, 0)
    case Retiring => Eras.ReclaimTable(e, th.ret)
    case _ => e
  }

  function NextMemory(m: Memory, e: Eras.Table, t: nat, th: Thread): Memory
    requires Safe(m, e, th)
  {
    match th.pc
    case LinkCas => if m.next[th.node] == NULL then LinkAfter(m, th.node, th.own) else m
    case HelpTail => if m.tail == th.node then SwingTail(m, th.nxt) else m
    case SwingCas => if m.tail == th.node then SwingTail(m, th.own) else m
    case HeadCas => if m.head == th.node then MoveHead(m, th.nxt, 0, t) else m
    case Retiring => if Eras.DeletesNow(e, th.ret) then Free(m, th.ret.list[th.ret.cursor.i]) else m
    case _ => m
  }

  /** State i + 1 comes from state i by step i. */
  ghost predicate Follows(run: seq<State>, steps: seq<Step>, i: nat)
    requires i < |steps| < |run|
  {
    Enabled(run[i], steps[i]) && run[i + 1] == Apply(run[i], steps[i])
  }

  ghost predicate IsRun(run: seq<State>, steps: seq<Step>, slots: nat) {
    && |run| == |steps| + 1
    && Init(run[0], slots)
    && forall i: nat {:trigger Follows(run, steps, i)} | i < |steps| :: Follows(run, steps, i)
  }

  // ---------------------------------------------------------------- the invariant

  predicate Usable(m: Memory, n: Node) {
    n in m.pos && n in m.life && !m.life[n].Freed?
  }

  /** n is alive, covered by slot j of t, and no scan is past that slot for n. */
  ghost predicate Held(s: State, t: nat, j: nat, n: Node) {
    && Usable(s.m, n) && Eras.Covered(s.e, t, j, n)
    && forall r | 0 <= r < |s.threads| :: Eras.NotMissed(s.threads[r].ret, t, j, n)
  }

  /** The states in which `node` was returned by `get_protected(0, …)` and is still in use. */
  predicate GuardsNode(pc: Pc) {
    pc.TestTail? || pc.ReadNext? || pc.LinkCas? || pc.CompareTail? || pc.LoadNext? || pc.CheckNext? || pc.StoreNext? || pc.HeadCas?
  }

  ghost predicate GuardsHeld(s: State, t: nat)
    requires t < |s.threads|
  {
    var th := s.threads[t];
    && (GuardsNode(th.pc) ==> Held(s, t, 0, th.node))
    && (th.pc.ReadItem? ==> Held(s, t, 1, th.nxt))
  }

  predicate Enqueuing(pc: Pc) {
    pc.ReadEra? || pc.LoadTail? || pc.CheckTail? || pc.StoreTail? || pc.TestTail? || pc.ReadNext? || pc.LinkCas? || pc.HelpTail?
  }

  function PosOf(m: Memory, n: Node): int {
    if n in m.pos then m.pos[n] else -1
  }

  predicate MyOut(m: Memory, t: nat, n: Node) {
    n in m.life && m.life[n].Out? && m.life[n].owner == t
  }

  /** What a thread knows of the order of the nodes. */
  ghost predicate KnowsOk(m: Memory, t: nat, th: Thread) {
    var i := PosOf(m, th.node);
    && (Enqueuing(th.pc) ==> th.own in m.life && m.life[th.own] == Private(t))
    && (th.pc.CheckTail? || th.pc.TestTail? || th.pc.ReadNext? || th.pc.LinkCas? ==> At(m, th.node, i) && i <= m.ti)
    && (th.pc.HelpTail? ==> At(m, th.node, i) && i <= m.ti && At(m, th.nxt, i + 1))
    && (th.pc.SwingCas? ==> At(m, th.node, i) && i <= m.ti && At(m, th.own, i + 1))
    && (th.pc.ClearEnqueue? ==> th.own in m.pos && m.pos[th.own] <= m.ti)
    && (th.pc.CheckHead? || th.pc.CompareTail? ==> At(m, th.node, i) && i <= m.hi)
    && (th.pc.LoadNext? || th.pc.StoreNext? ==> At(m, th.node, i) && i < m.ti)
    && (th.pc.CheckNext? || th.pc.HeadCas? ==> At(m, th.node, i) && i < m.ti && At(m, th.nxt, i + 1))
  }

  /** What a thread knows of eras. */
  ghost predicate ErasKnown(e: Eras.Table, t: nat, th: Thread) {
    && (Enqueuing(th.pc) ==> (th.own in e.birth <==> !th.pc.ReadEra?) && th.own !in e.del)
    && (th.pc.CheckTail? || th.pc.CheckHead? ==> Eras.Loaded(e, t, 0, th.node))
    && (th.pc.StoreTail? || th.pc.StoreHead? || th.pc.StoreNext? ==> 1 <= th.era <= e.clock)
    && (th.pc.CheckNext? ==> th.nxt in e.birth)
    && (th.pc.HeadCas? ==> th.nxt in e.birth && e.birth[th.nxt] <= Eras.EraOf(e, t, 1) && Eras.EraOf(e, t, 1) >= 1)
  }

  /** The retired nodes of t: its own, out of the queue. */
  ghost predicate RetiredOk(m: Memory, e: Eras.Table, t: nat, th: Thread) {
    && Eras.RetirerOk(e, th.ret)
    && (forall i {:trigger th.ret.list[i]} | 0 <= i < |th.ret.list| :: MyOut(m, t, th.ret.list[i]))
    && (th.pc.ReadItem? ==> MyOut(m, t, th.node) && th.node !in e.del && th.node !in th.ret.list)
    && (th.ret.cursor.Stamping? ==>
          MyOut(m, t, th.ret.cursor.n) && th.ret.cursor.n !in e.del && th.ret.cursor.n !in th.ret.list)
    && (th.pc.Retiring? <==> !th.ret.cursor.Resting?)
  }

  /** The life of a node and its eras. */
  predicate LifeOk(m: Memory, e: Eras.Table, n: Node) {
    && (n in m.pos ==> n in e.birth)
    && (n in e.birth || n in e.del ==> n in m.life)
    && (n in m.life && n in e.del ==> m.life[n].Out? || m.life[n].Freed?)
    && (n in m.life && m.life[n].Freed? ==> n in e.del && e.del[n] < e.clock)
  }

  ghost predicate EraLives(m: Memory, e: Eras.Table) {
    forall n {:trigger LifeOk(m, e, n)} :: LifeOk(m, e, n)
  }

  ghost predicate ThreadOk(m: Memory, e: Eras.Table, t: nat, th: Thread) {
    KnowsOk(m, t, th) && ErasKnown(e, t, th) && RetiredOk(m, e, t, th)
  }

  ghost predicate Rows(e: Eras.Table, slots: nat) {
    forall t | 0 <= t < |e.rows| :: |e.rows[t]| == slots
  }

  ghost predicate Inv(s: State, slots: nat) {
    && |s.e.rows| == |s.threads| && slots >= 2
    && MemoryOk(s.m) && Eras.TableOk(s.e) && EraLives(s.m, s.e) && Rows(s.e, slots)
    && !s.crashed
    && (forall t | 0 <= t < |s.threads| :: ThreadOk(s.m, s.e, t, s.threads[t]))
    && (forall t | 0 <= t < |s.threads| :: GuardsHeld(s, t))
  }
}
