/** The queue of `hazardpointer/QueueHazardPointer.hpp` on hazard pointers: one step per atomic
    access, any number of threads, any number of slots of at least two.

    The constructor of a node does not store its argument in the field `item`; here the value
    of a node is the node itself, as if it did.  A step that would touch deleted memory sets
    `crashed`. */
module HazardQueue {
  import opened QueueMemory
  import Hazards

  datatype Pc =
    | Idle
    // enqueue
    | ReadTail | PublishTail | CheckTail | ReadNext | LinkCas | HelpTail | SwingCas | ClearEnqueue
    // dequeue
    | ReadHead | PublishHead | RecheckHead | CompareTail | LoadNext | PublishNext | RecheckNext
    | HeadCas | ReadItem | ClearDequeue | Retiring | ClearEmpty
    | Done

  datatype Thread = Thread(
    pc: Pc, own: Node, node: Node, nxt: Node, result: Node, c: nat, ret: Hazards.Retirer)

  /** `hazards[t][j]` is slot j of thread t. */
  datatype State = State(m: Memory, hazards: seq<seq<Node>>, threads: seq<Thread>, crashed: bool)

  datatype Action = Enqueue(n: Node) | Dequeue | Go

  datatype Step = Step(t: nat, a: Action)

  ghost predicate Init(s: State, slots: nat) {
    && s.m == EMPTY
    && |s.hazards| == |s.threads| && slots >= 2
    && (forall t | 0 <= t < |s.hazards| :: s.hazards[t] == seq(slots, _ => NULL))
    && (forall t | 0 <= t < |s.threads| ::
          s.threads[t].pc.Idle? && s.threads[t].ret == Hazards.Retirer([], 0, Hazards.Resting))
    && !s.crashed
  }

  /** The next access of the thread reads, writes and deletes live nodes only. */
  predicate Safe(m: Memory, threads: nat, th: Thread) {
    match th.pc
    case ReadNext => Alive(m, th.node)
    case LinkCas => Alive(m, th.node)
    case LoadNext => Alive(m, th.node)
    case RecheckNext => Alive(m, th.node)
    case ReadItem => Alive(m, th.nxt)
    case Retiring => Hazards.DeletesNow(th.ret, threads) ==> Alive(m, th.ret.list[th.ret.cursor.i])
    case _ => true
  }

  predicate Enabled(s: State, st: Step) {
    && st.t < |s.threads| == |s.hazards|
    && !s.crashed
    && (st.a.Go? <==> !s.threads[st.t].pc.Idle?)
    && (st.a.Enqueue? ==> st.a.n !in s.m.life && st.a.n != NULL)
    && (s.threads[st.t].pc.Retiring? ==> ScanReads(s, s.threads[st.t].ret))
  }

  /** The slot that the scan reads next is in the table. */
  predicate ScanReads(s: State, r: Hazards.Retirer) {
    r.cursor.Scanning? && r.cursor.i < |r.list| && r.cursor.k < |s.hazards| ==> r.cursor.j < |s.hazards[r.cursor.k]|
  }

  function Apply(s: State, st: Step): State
    requires Enabled(s, st)
  {
    var th := s.threads[st.t];
    match st.a
    case Enqueue(n) =>
      s.(m := Allocate(s.m, st.t, n), threads := s.threads[st.t := th.(pc := ReadTail, own := n)])
    case Dequeue => s.(threads := s.threads[st.t := th.(pc := ReadHead)])
    case Go =>
      if !Safe(s.m, |s.threads|, th) then s.(crashed := true)
      else
        State(NextMemory(s.m, |s.threads|, st.t, th),
              s.hazards[st.t := NextRow(s.hazards[st.t], th)],
              s.threads[st.t := NextThread(s, st.t, th)], false)
  }

  function NextThread(s: State, t: nat, th: Thread): Thread
    requires t < |s.hazards| && Safe(s.m, |s.threads|, th) && (th.pc.Retiring? ==> ScanReads(s, th.ret))
  {
    var m := s.m;
    match th.pc
    case Idle => th
    case ReadTail => th.(pc := PublishTail, node := m.tail)
    case PublishTail => th.(pc := CheckTail)
    case CheckTail => th.(pc := if th.node == m.tail then ReadNext else ReadTail)
    case ReadNext => th.(nxt := m.next[th.node], pc := if m.next[th.node] == NULL then LinkCas else HelpTail)
    case LinkCas => th.(pc := if m.next[th.node] == NULL then SwingCas else ReadTail)
    case HelpTail => th.(pc := ReadTail)
    case SwingCas => th.(pc := ClearEnqueue, c := 0)
    case ClearEnqueue => StepClear(|s.hazards[t]|, th, Done)

    case ReadHead => th.(pc := if m.head == NULL then CompareTail else PublishHead, node := m.head)
    case PublishHead => th.(pc := RecheckHead)
    case RecheckHead => if m.head == th.node then th.(pc := CompareTail) else th.(pc := PublishHead, node := m.head)
    case CompareTail => if th.node == m.tail then th.(pc := ClearEmpty, c := 0, result := NULL) else th.(pc := LoadNext)
    case LoadNext => th.(pc := if m.next[th.node] == NULL then HeadCas else PublishNext, nxt := m.next[th.node])
    case PublishNext => th.(pc := RecheckNext)
    case RecheckNext =>
      if m.next[th.node] == th.nxt then th.(pc := HeadCas) else th.(pc := PublishNext, nxt := m.next[th.node])
    case HeadCas => th.(pc := if m.head == th.node then ReadItem else ReadHead)
    case ReadItem => th.(pc := ClearDequeue, c := 0, result := th.nxt)
    case ClearDequeue =>
      var th' := StepClear(|s.hazards[t]|, th, Retiring);
      if th'.pc.Retiring? then th'.(ret := Hazards.Retire(th.ret, th.node)) else th'
    case Retiring =>
      if !th.ret.cursor.Scanning? || Hazards.Finished(th.ret) then th.(pc := Done, ret := th.ret.(cursor := Hazards.Resting))
      else if th.ret.cursor.k < |s.hazards| then
        th.(ret := Hazards.Compare(th.ret, s.hazards[th.ret.cursor.k][th.ret.cursor.j], |s.hazards[th.ret.cursor.k]|))
      else th.(ret := Hazards.Decide(th.ret))
    case ClearEmpty => StepClear(|s.hazards[t]|, th, Done)
    case Done => th.(pc := Idle)
  }

  /** One store of `clear`. */
  function StepClear(slots: nat, th: Thread, last: Pc): Thread {
    if th.c + 1 < slots then th.(c := th.c + 1) else th.(pc := last)
  }

  function NextRow(row: seq<Node>, th: Thread): seq<Node> {
    match th.pc
    case PublishTail => Put(row, 0, th.node)
    case PublishHead => Put(row, 0, th.node)
    case PublishNext => Put(row, 1, th.nxt)
    case ClearEnqueue => Put(row, th.c, NULL)
    case ClearDequeue => Put(row, th.c, NULL)
    case ClearEmpty => Put(row, th.c, NULL)
    case _ => row
  }

  function Put(row: seq<Node>, j: nat, n: Node): seq<Node> {
    if j < |row| then row[j := n] else row
  }

  function NextMemory(m: Memory, threads: nat, t: nat, th: Thread): Memory
    requires Safe(m, threads, th)
  {
    match th.pc
    case LinkCas => if m.next[th.node] == NULL then LinkAfter(m, th.node, th.own) else m
    case HelpTail => if m.tail == th.node then SwingTail(m, th.nxt) else m
    case SwingCas => if m.tail == th.node then SwingTail(m, th.own) else m
    case HeadCas => if m.head == th.node then MoveHead(m, th.nxt, 0, t) else m
    case Retiring => if Hazards.DeletesNow(th.ret, threads) then Free(m, th.ret.list[th.ret.cursor.i]) else m
    case _ => m
  }

  /** State i + 1 comes from state i by step i. */
  ghost predicate Follows(run: seq<State>, steps: seq<Step>, i: nat)
    requires i < |steps| < |run|
  {
    Enabled(run[i], steps[i]) && run[i + 1] == Apply(run[i], steps[i])
  }

  ghost predicate IsRun(run: seq<State>, steps: seq<Step>, slots: nat) {
    && |run| == |steps| + 1
    && Init(run[0], slots)
    && forall i: nat {:trigger Follows(run, steps, i)} | i < |steps| :: Follows(run, steps, i)
  }

  // ---------------------------------------------------------------- the invariant

  /** Slot 0 holds `node`, and it was validated there. */
  predicate GuardsNode(pc: Pc) {
    pc.ReadNext? || pc.LinkCas? || pc.CompareTail? || pc.LoadNext? || pc.PublishNext? || pc.RecheckNext? || pc.HeadCas?
  }

  predicate Usable(m: Memory, n: Node) {
    n in m.pos && n in m.life && !m.life[n].Freed?
  }

  /** The guards of a thread: what is published, and alive. */
  predicate GuardsOk(m: Memory, row: seq<Node>, th: Thread) {
    && |row| >= 2
    && (GuardsNode(th.pc) ==> row[0] == th.node && Usable(m, th.node))
    && (th.pc.CheckTail? || th.pc.RecheckHead? ==> row[0] == th.node)
    && (th.pc.RecheckNext? || th.pc.HeadCas? ==> row[1] == th.nxt)
    && (th.pc.ReadItem? ==> row[1] == th.nxt && Usable(m, th.nxt))
  }

  predicate Enqueuing(pc: Pc) {
    pc.ReadTail? || pc.PublishTail? || pc.CheckTail? || pc.ReadNext? || pc.LinkCas? || pc.HelpTail?
  }

  /** What a thread knows of the order of the nodes. */
  ghost predicate KnowsOk(m: Memory, t: nat, th: Thread) {
    && (Enqueuing(th.pc) ==> th.own in m.life && m.life[th.own] == Private(t))
    && match th.pc
       case ReadNext => At(m, th.node, PosOf(m, th.node)) && PosOf(m, th.node) <= m.ti
       case LinkCas => At(m, th.node, PosOf(m, th.node)) && PosOf(m, th.node) <= m.ti
       case HelpTail => PosOf(m, th.node) <= m.ti && At(m, th.node, PosOf(m, th.node)) && At(m, th.nxt, PosOf(m, th.node) + 1)
       case SwingCas => PosOf(m, th.node) <= m.ti && At(m, th.node, PosOf(m, th.node)) && At(m, th.own, PosOf(m, th.node) + 1)
       case ClearEnqueue => th.own in m.pos && m.pos[th.own] <= m.ti
       case CompareTail => At(m, th.node, PosOf(m, th.node)) && PosOf(m, th.node) <= m.hi
       case LoadNext => At(m, th.node, PosOf(m, th.node)) && PosOf(m, th.node) < m.ti
       case PublishNext => At(m, th.node, PosOf(m, th.node)) && PosOf(m, th.node) < m.ti && At(m, th.nxt, PosOf(m, th.node) + 1)
       case RecheckNext => At(m, th.node, PosOf(m, th.node)) && PosOf(m, th.node) < m.ti && At(m, th.nxt, PosOf(m, th.node) + 1)
       case HeadCas => At(m, th.node, PosOf(m, th.node)) && PosOf(m, th.node) < m.ti && At(m, th.nxt, PosOf(m, th.node) + 1)
       case _ => true
  }

  function PosOf(m: Memory, n: Node): int {
    if n in m.pos then m.pos[n] else -1
  }

  predicate MyOut(m: Memory, t: nat, n: Node) {
    n in m.life && m.life[n].Out? && m.life[n].owner == t
  }

  /** The retired nodes of t: its own, out of the queue, each once. */
  ghost predicate RetiredOk(m: Memory, t: nat, slots: nat, th: Thread) {
    && (forall i {:trigger th.ret.list[i]} | 0 <= i < |th.ret.list| :: MyOut(m, t, th.ret.list[i]))
    && (forall i, j | 0 <= i < j < |th.ret.list| :: th.ret.list[i] != th.ret.list[j])
    && (th.pc.ReadItem? || th.pc.ClearDequeue? ==> MyOut(m, t, th.node) && th.node !in th.ret.list)
    && th.ret.count == |th.ret.list|
    && (th.pc.Retiring? <==> th.ret.cursor.Scanning?)
    && (th.ret.cursor.Scanning? ==> th.ret.cursor.j < slots)
  }

  ghost predicate ThreadOk(m: Memory, row: seq<Node>, t: nat, slots: nat, th: Thread) {
    |row| == slots && GuardsOk(m, row, th) && KnowsOk(m, t, th) && RetiredOk(m, t, slots, th)
  }

  /** No scan of r has passed a guard of th. */
  predicate PairOk(t: nat, th: Thread, r: Hazards.Retirer) {
    && (GuardsNode(th.pc) ==> Hazards.NotMissed(r, t, 0, th.node))
    && (th.pc.ReadItem? ==> Hazards.NotMissed(r, t, 1, th.nxt))
  }

  ghost predicate Inv(s: State, slots: nat) {
    && |s.hazards| == |s.threads| && slots >= 2
    && MemoryOk(s.m)
    && !s.crashed
    && (forall t | 0 <= t < |s.threads| :: ThreadOk(s.m, s.hazards[t], t, slots, s.threads[t]))
    && (forall t, r | 0 <= t < |s.threads| && 0 <= r < |s.threads| :: PairOk(t, s.threads[t], s.threads[r].ret))
  }
}
