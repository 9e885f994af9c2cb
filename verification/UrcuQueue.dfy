/** The queue of `urcu/QueueURCU.hpp` on the grace periods of `Urcu`: one step per atomic
    access, any number of threads.  A value is the node that carries it.

    `enqueue` and `dequeue` may enter `readLock` again without having left their section, and
    a `dequeue` that finds nothing returns without leaving it.  A step that would touch
    deleted memory sets `crashed`. */
module UrcuQueue {
  import opened QueueMemory
  import Urcu

  datatype Pc =
    | Idle
    // enqueue
    | ReadTail | EnterE | LockE | CheckTail | ReadNextE | RecheckTail | HelpTailE | LinkCas | SwingCas
    | RetryE | UnlockE | SyncE | WaitE
    // dequeue
    | ReadHead | EnterD | LockD | CheckHead | ReadTailD | ReadNextD | RecheckHead | HelpTailD | HeadCas
    | ReadItem | RetryD | UnlockD | SyncD | WaitD | FreeD
    | Done

  /** `expected` is the variable `ptrnull`, which a failed compare-exchange overwrites. */
  datatype Thread = Thread(
    pc: Pc, own: Node, node: Node, nxt: Node, seenTail: Node, expected: Node, result: Node, count: int)

  datatype State = State(u: Urcu.State, m: Memory, threads: seq<Thread>, crashed: bool)

  datatype Action = Enqueue(n: Node) | Dequeue | Go | Lib(e: Urcu.Event)

  datatype Step = Step(t: nat, a: Action)

  datatype Maybe<T> = None | Some(value: T)

  ghost predicate Init(s: State) {
    && Urcu.Init(s.u) && |s.u.cells| == |s.threads|
    && s.m == EMPTY
    && (forall t | 0 <= t < |s.threads| :: s.threads[t].pc.Idle? && s.threads[t].count == 0)
    && !s.crashed
  }

  /** The next access of the thread reads, writes and deletes live nodes only. */
  predicate Safe(m: Memory, th: Thread) {
    match th.pc
    case ReadNextE => Alive(m, th.node)
    case LinkCas => Alive(m, th.node)
    case ReadNextD => Alive(m, th.node)
    case ReadItem => Alive(m, th.nxt)
    case FreeD => Alive(m, th.node)
    case _ => true
  }

  /** The first access of a call into `URCU`, made by the queue code's own step. */
  function LibEvent(pc: Pc): Maybe<Urcu.Event> {
    match pc
    case EnterE => Some(Urcu.LockLoad)
    case EnterD => Some(Urcu.LockLoad)
    case RetryE => Some(Urcu.Unlock)
    case RetryD => Some(Urcu.Unlock)
    case UnlockE => Some(Urcu.Unlock)
    case UnlockD => Some(Urcu.Unlock)
    case SyncE => Some(Urcu.SyncLoad)
    case SyncD => Some(Urcu.SyncLoad)
    case _ => None
  }

  predicate Locking(pc: Pc) {
    pc.LockE? || pc.LockD?
  }

  predicate Waiting(pc: Pc) {
    pc.WaitE? || pc.WaitD?
  }

  predicate Enabled(s: State, st: Step) {
    && st.t < |s.threads| == |s.u.cells|
    && !s.crashed
    && var th := s.threads[st.t];
       match st.a
       case Enqueue(n) => th.pc.Idle? && n !in s.m.life && n != NULL
       case Dequeue => th.pc.Idle?
       case Lib(e) =>
         && Urcu.Enabled(s.u, Urcu.Move(st.t, e))
         && (if e.LockStore? || e.LockReload? || e.LockRepair? then Locking(th.pc)
             else (e.SyncCas? || e.SyncProbe?) && Waiting(th.pc))
       case Go =>
         && !th.pc.Idle?
         && (Locking(th.pc) ==> s.u.cells[st.t].reader.Reading?)
         && (Waiting(th.pc) ==> s.u.cells[st.t].updater.Returned?)
         && (LibEvent(th.pc).Some? ==> Urcu.Enabled(s.u, Urcu.Move(st.t, LibEvent(th.pc).value)))
  }

  function Apply(s: State, st: Step): State
    requires Enabled(s, st)
  {
    var th := s.threads[st.t];
    match st.a
    case Enqueue(n) =>
      s.(m := Allocate(s.m, st.t, n), threads := s.threads[st.t := th.(pc := ReadTail, own := n, expected := NULL)])
    case Dequeue => s.(threads := s.threads[st.t := th.(pc := ReadHead)])
    case Lib(e) => s.(u := Urcu.Apply(s.u, Urcu.Move(st.t, e)))
    case Go =>
      if !Safe(s.m, th) then s.(crashed := true)
      else
        State(if LibEvent(th.pc).Some? then Urcu.Apply(s.u, Urcu.Move(st.t, LibEvent(th.pc).value)) else s.u,
              NextMemory(s.m, s.u.now, st.t, th), s.threads[st.t := NextThread(s.m, th)], false)
  }

  function NextThread(m: Memory, th: Thread): Thread
    requires Safe(m, th)
  {
    match th.pc
    case Idle => th
    case ReadTail => th.(pc := EnterE, node := m.tail)
    case EnterE => th.(pc := LockE)
    case LockE => th.(pc := CheckTail)
    case CheckTail => th.(pc := if th.node == m.tail then ReadNextE else RetryE)
    case ReadNextE => th.(pc := RecheckTail, nxt := m.next[th.node])
    case RecheckTail => th.(pc := if m.tail != th.node then RetryE else if th.nxt != NULL then HelpTailE else LinkCas)
    case HelpTailE => th.(pc := RetryE)
    case LinkCas =>
      if m.next[th.node] == th.expected then th.(pc := SwingCas)
      else th.(pc := ReadTail, expected := m.next[th.node])
    case SwingCas => th.(pc := UnlockE)
    case RetryE => th.(pc := ReadTail)
    case UnlockE => th.(pc := SyncE)
    case SyncE => th.(pc := WaitE)
    case WaitE => th.(pc := Done)

    case ReadHead => th.(pc := EnterD, node := m.head)
    case EnterD => th.(pc := LockD)
    case LockD => th.(pc := CheckHead)
    case CheckHead => th.(pc := if th.node == m.head then ReadTailD else RetryD)
    case ReadTailD => th.(pc := ReadNextD, seenTail := m.tail)
    case ReadNextD => th.(pc := RecheckHead, nxt := m.next[th.node])
    case RecheckHead =>
      if m.head != th.node then th.(pc := ReadHead)
      else if th.nxt == NULL then th.(pc := Done, result := NULL)
      else if th.node == th.seenTail then th.(pc := HelpTailD)
      else th.(pc := HeadCas)
    case HelpTailD => th.(pc := ReadHead)
    case HeadCas => th.(pc := if m.head == th.node then ReadItem else ReadHead)
    case ReadItem => th.(pc := UnlockD, result := th.nxt, count := th.count + 1)
    case RetryD => th.(pc := ReadHead)
    case UnlockD => th.(pc := SyncD)
    case SyncD => th.(pc := WaitD)
    case WaitD => th.(pc := FreeD)
    case FreeD => th.(pc := Done, count := th.count - 1)
    case Done => th.(pc := Idle)
  }

  function NextMemory(m: Memory, now: nat, t: nat, th: Thread): Memory
    requires Safe(m, th)
  {
    match th.pc
    case HelpTailE => if m.tail == th.node then SwingTail(m, th.nxt) else m
    case LinkCas => if m.next[th.node] == th.expected then LinkAfter(m, th.node, th.own) else m
    case SwingCas => if m.tail == th.node then SwingTail(m, th.own) else m
    case HelpTailD => if m.tail == th.seenTail then SwingTail(m, th.nxt) else m
    case HeadCas => if m.head == th.node then MoveHead(m, th.nxt, now, t) else m
    case FreeD => Free(m, th.node)
    case _ => m
  }

  /** State i + 1 comes from state i by step i. */
  ghost predicate Follows(run: seq<State>, steps: seq<Step>, i: nat)
    requires i < |steps| < |run|
  {
    Enabled(run[i], steps[i]) && run[i + 1] == Apply(run[i], steps[i])
  }

  ghost predicate IsRun(run: seq<State>, steps: seq<Step>) {
    && |run| == |steps| + 1
    && Init(run[0])
    && (forall i | 0 <= i < |run| :: run[i].u.version < Urcu.UNASSIGNED)
    && forall i: nat {:trigger Follows(run, steps, i)} | i < |steps| :: Follows(run, steps, i)
  }

  // ---------------------------------------------------------------- the invariant

  /** n was in the queue, or was its dummy, at some moment after stamp `began`. */
  predicate Held(m: Memory, began: nat, n: Node) {
    && n in m.pos && n in m.life
    && match m.life[n]
       case Listed => true
       case Out(at, _) => at > began
       case Freed(at) => at > began
       case Private(_) => false
  }

  ghost predicate Stamps(life: map<Node, Life>, u: Urcu.State) {
    && (forall n | n in life && life[n].Out? :: life[n].at <= u.now)
    && (forall n | n in life && life[n].Freed? :: Urcu.Covered(u, life[n].at))
  }

  function PosOf(m: Memory, n: Node): int {
    if n in m.pos then m.pos[n] else -1
  }

  predicate Placed(m: Memory, n: Node) {
    At(m, n, PosOf(m, n))
  }

  predicate Reading(pc: Pc) {
    pc.CheckTail? || pc.ReadNextE? || pc.RecheckTail? || pc.HelpTailE? || pc.LinkCas? || pc.SwingCas? || pc.RetryE? || pc.UnlockE?
    || pc.CheckHead? || pc.ReadTailD? || pc.ReadNextD? || pc.RecheckHead? || pc.HelpTailD? || pc.HeadCas? || pc.ReadItem?
    || pc.RetryD? || pc.UnlockD?
  }

  /** After readUnlock and before the return. */
  predicate Reclaiming(pc: Pc) {
    pc.SyncE? || pc.WaitE? || pc.SyncD? || pc.WaitD? || pc.FreeD?
  }

  /** Where the thread is inside the grace-period code.  Between calls it may still be
      inside a read section. */
  predicate CellOk(c: Urcu.Cell, pc: Pc) {
    && (Reading(pc) ==> c.reader.Reading?)
    && (Locking(pc) ==> !c.reader.Outside?)
    && (Reclaiming(pc) ==> c.reader.Outside?)
    && (!Locking(pc) && !Reading(pc) ==> c.reader.Outside? || c.reader.Reading?)
    && (if Waiting(pc) then !c.updater.NotSyncing? else !Urcu.Syncing(c))
  }

  predicate BeforeLink(pc: Pc) {
    pc.ReadTail? || pc.EnterE? || pc.LockE? || pc.CheckTail? || pc.ReadNextE? || pc.RecheckTail? || pc.HelpTailE? || pc.LinkCas? || pc.RetryE?
  }

  predicate MyOut(m: Memory, t: nat, n: Node) {
    n in m.life && m.life[n].Out? && m.life[n].owner == t
  }

  /** The successor of the i-th node, or NULL, as a load of its field showed it. */
  predicate Successor(m: Memory, n: Node, nxt: Node) {
    nxt != NULL ==> At(m, nxt, PosOf(m, n) + 1)
  }

  predicate EnqueueOk(m: Memory, began: nat, t: nat, th: Thread) {
    && (BeforeLink(th.pc) ==>
          && th.own in m.life && m.life[th.own] == Private(t)
          && (th.expected != NULL ==> Placed(m, th.expected)))
    && match th.pc
       case ReadNextE => Held(m, began, th.node) && Placed(m, th.node) && PosOf(m, th.node) <= m.ti
       case RecheckTail =>
         && Held(m, began, th.node) && Placed(m, th.node) && PosOf(m, th.node) <= m.ti && Successor(m, th.node, th.nxt)
         && (th.nxt == NULL && th.expected != NULL ==> PosOf(m, th.expected) <= PosOf(m, th.node))
       case HelpTailE => Placed(m, th.node) && Successor(m, th.node, th.nxt) && th.nxt != NULL
       case LinkCas =>
         && Held(m, began, th.node) && Placed(m, th.node) && PosOf(m, th.node) <= m.ti
         && (th.expected != NULL ==> PosOf(m, th.expected) <= PosOf(m, th.node))
       case SwingCas => Placed(m, th.node) && PosOf(m, th.node) <= m.ti && At(m, th.own, PosOf(m, th.node) + 1)
       case _ => true
  }

  predicate Unlinked(pc: Pc) {
    pc.ReadItem? || pc.UnlockD? || pc.SyncD? || pc.WaitD? || pc.FreeD?
  }

  /** What a thread knows of the nodes that its dequeue looks at. */
  predicate DequeueKnows(m: Memory, began: nat, th: Thread) {
    match th.pc
    case ReadTailD => Held(m, began, th.node) && Placed(m, th.node) && PosOf(m, th.node) <= m.hi
    case ReadNextD =>
      && Held(m, began, th.node) && Placed(m, th.node) && PosOf(m, th.node) <= m.hi
      && Placed(m, th.seenTail) && PosOf(m, th.node) <= PosOf(m, th.seenTail) <= m.ti
    case RecheckHead =>
      && Placed(m, th.node) && PosOf(m, th.node) <= m.hi
      && Placed(m, th.seenTail) && PosOf(m, th.node) <= PosOf(m, th.seenTail) <= m.ti
      && Successor(m, th.node, th.nxt)
    case HelpTailD => Placed(m, th.node) && th.seenTail == th.node && Successor(m, th.node, th.nxt) && th.nxt != NULL
    case HeadCas => Placed(m, th.node) && PosOf(m, th.node) < m.ti && Successor(m, th.node, th.nxt) && th.nxt != NULL
    case ReadItem => Held(m, began, th.nxt)
    case _ => true
  }

  /** The node that a dequeue has taken out is its own until it is deleted. */
  predicate DequeueOwns(m: Memory, c: Urcu.Cell, t: nat, th: Thread) {
    && th.count == (if Unlinked(th.pc) && !th.pc.ReadItem? then 1 else 0)
    && (Unlinked(th.pc) ==> MyOut(m, t, th.node))
    && (th.pc.WaitD? || th.pc.FreeD? ==> m.life[th.node].at <= c.called)
    && (th.pc.FreeD? ==> c.updater.Returned?)
  }

  predicate DequeueOk(m: Memory, c: Urcu.Cell, t: nat, th: Thread) {
    DequeueOwns(m, c, t, th) && DequeueKnows(m, c.began, th)
  }

  predicate ThreadOk(m: Memory, c: Urcu.Cell, t: nat, th: Thread) {
    CellOk(c, th.pc) && EnqueueOk(m, c.began, t, th) && DequeueOk(m, c, t, th)
  }

  ghost predicate Inv(s: State) {
    && |s.u.cells| == |s.threads|
    && Urcu.Inv(s.u)
    && MemoryOk(s.m)
    && Stamps(s.m.life, s.u)
    && !s.crashed
    && forall t | 0 <= t < |s.threads| :: ThreadOk(s.m, s.u.cells[t], t, s.threads[t])
  }
}
