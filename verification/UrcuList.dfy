/** The ordered list of `urcu/LinkedListURCU.hpp` running on the grace periods of `Urcu`:
    one step per atomic access, any number of threads.

    The constructor makes two nodes without a key, here FIRST and LAST.  `find` stops as soon
    as the successor is LAST, so it never gets past FIRST and every key is inserted before it.
    The fields of LAST are never read and are not part of the state.

    `life`, `index`, `hist` and the fields `from`, `wit` and `seen` of a thread record history;
    no step branches on them.  A step that would touch deleted memory sets `crashed`. */
module UrcuList {
  import Urcu

  type Node = nat
  const FIRST: Node := 0
  const LAST: Node := 1

  /** The value of a `next` field: a pointer and its mark bit. */
  datatype Link = Link(node: Node, mark: bool)

  /** The place a traversal came from: the field `head`, or the `next` field of a node. */
  datatype Pred = Root | Of(node: Node)

  datatype Op = Add | Remove | Contains

  datatype Maybe<T> = None | Some(value: T)

  datatype Life =
    | Private(owner: nat)              // allocated, not linked yet
    | Linked
    | Unlinked(at: nat, owner: nat)    // taken out of the list by a CAS of owner
    | Freed(at: nat)                   // deleted after it was unlinked
    | Discarded                        // deleted without ever being linked

  datatype Pc =
    | Idle | Enter | Lock
    | ReadHead | CheckHead | ReadNext | RecheckNext | CheckPred | Decide
    | LinkCas | MarkCas | UnlinkCas | Discard | Unlock
    | CallVictim | WaitVictim | FreeVictim
    | CallRetired | WaitRetired | FreeRetired
    | Done

  datatype Thread = Thread(
    pc: Pc, op: Op, k: int,
    own: Node, pred: Pred, curr: Node, nxt: Link,
    victim: Maybe<Node>, retired: seq<Node>, count: int,
    result: bool,
    from: nat, wit: nat, seen: nat)

  /** What all threads share: the pointers and keys of the program, and the history of
      the nodes and of the abstract set. */
  datatype Memory = Memory(
    head: Node, next: map<Node, Link>, key: map<Node, int>,
    life: map<Node, Life>, index: map<int, Node>, hist: seq<set<int>>)

  datatype State = State(u: Urcu.State, m: Memory, threads: seq<Thread>, crashed: bool)

  /** What a thread does next: start a call (with the address that `new` would return),
      make one access of the list code, or one access inside `readLock` or `synchronizeRCU`. */
  datatype Action = Call(op: Op, k: int, n: Node) | Go | Lib(e: Urcu.Event)

  // ---------------------------------------------------------------- the program

  ghost predicate Init(s: State) {
    && Urcu.Init(s.u)
    && |s.u.cells| == |s.threads|
    && s.m == Memory(FIRST, map[FIRST := Link(LAST, false)], map[], map[FIRST := Linked], map[], [{}])
    && (forall t | 0 <= t < |s.threads| ::
          var th := s.threads[t];
          th.pc.Idle? && th.victim.None? && th.retired == [] && th.count == 0 && th.from == 0)
    && !s.crashed
  }

  predicate Alive(m: Memory, n: Node) {
    n in m.life && n in m.next && !m.life[n].Freed? && !m.life[n].Discarded?
  }

  predicate PredAlive(m: Memory, p: Pred) {
    p.Of? ==> Alive(m, p.node)
  }

  /** The next access of the thread reads, writes and deletes live nodes only.  The steps in which
      `find` may return to `add` contain the store into the new node. */
  predicate Safe(m: Memory, th: Thread) {
    match th.pc
    case ReadNext => Alive(m, th.curr) && (th.op.Add? ==> Alive(m, th.own))
    case RecheckNext => Alive(m, th.curr)
    case CheckPred => PredAlive(m, th.pred)
    case Decide => Alive(m, th.curr) && PredAlive(m, th.pred) && (th.op.Add? ==> Alive(m, th.own))
    case LinkCas => Alive(m, th.own) && PredAlive(m, th.pred)
    case MarkCas => Alive(m, th.curr)
    case UnlinkCas => PredAlive(m, th.pred)
    case Discard => Alive(m, th.own)
    case FreeVictim => th.victim.Some? ==> Alive(m, th.victim.value)
    case FreeRetired => th.retired != [] ==> Alive(m, th.retired[0])
    case _ => true
  }

  predicate Enabled(s: State, t: nat, a: Action) {
    && t < |s.threads| == |s.u.cells|
    && !s.crashed
    && var th := s.threads[t];
       match a
       case Call(op, k, n) => th.pc.Idle? && n !in s.m.life && n != LAST
       case Lib(e) =>
         && Urcu.Enabled(s.u, Urcu.Move(t, e))
         && (if e.LockStore? || e.LockReload? || e.LockRepair? then th.pc.Lock?
             else (e.SyncCas? || e.SyncProbe?) && (th.pc.WaitVictim? || th.pc.WaitRetired?))
       case Go =>
         match th.pc
         case Idle => false
         case Lock => s.u.cells[t].reader.Reading?
         case WaitVictim => s.u.cells[t].updater.Returned?
         case WaitRetired => s.u.cells[t].updater.Returned?
         case _ => LibEvent(th.pc).Some? ==> Urcu.Enabled(s.u, Urcu.Move(t, LibEvent(th.pc).value))
  }

  /** The first access of a call into `URCU`, made by the list code's own step. */
  function LibEvent(pc: Pc): Maybe<Urcu.Event> {
    match pc
    case Enter => Some(Urcu.LockLoad)
    case Unlock => Some(Urcu.Unlock)
    case CallVictim => Some(Urcu.SyncLoad)
    case CallRetired => Some(Urcu.SyncLoad)
    case _ => None
  }

  /** One step of thread t.  It changes the grace-period state, the memory and the
      record of t, and nothing else. */
  function Apply(s: State, t: nat, a: Action): State
    requires Enabled(s, t, a)
  {
    match a
    case Lib(e) => s.(u := Urcu.Apply(s.u, Urcu.Move(t, e)))
    case Call(op, k, n) =>
      s.(m := if op.Add? then Allocate(s.m, t, k, n) else s.m,
         threads := s.threads[t := StartCall(s.m, s.threads[t], op, k, n)])
    case Go =>
      var th := s.threads[t];
      if !Safe(s.m, th) then s.(crashed := true)
      else
        State(if LibEvent(th.pc).Some? then Urcu.Apply(s.u, Urcu.Move(t, LibEvent(th.pc).value)) else s.u,
              NextMemory(s.m, s.u.now, t, th), s.threads[t := NextThread(s.m, th)], false)
  }

  function Allocate(m: Memory, t: nat, k: int, n: Node): Memory {
    m.(next := m.next[n := Link(n, false)], key := m.key[n := k], life := m.life[n := Private(t)])
  }

  /** The index of the current version of the abstract set. */
  function Latest(m: Memory): nat {
    if |m.hist| == 0 then 0 else |m.hist| - 1
  }

  function StartCall(m: Memory, th: Thread, op: Op, k: int, n: Node): Thread {
    th.(pc := Enter, op := op, k := k, own := n, from := Latest(m))
  }

  function LinkAt(m: Memory, p: Pred): Link
    requires p.Of? ==> p.node in m.next
  {
    if p.Root? then Link(m.head, false) else m.next[p.node]
  }

  function SetLink(m: Memory, p: Pred, n: Node): Memory {
    if p.Root? then m.(head := n) else m.(next := m.next[p.node := Link(n, false)])
  }

  /** The compare-exchange on `pred` from curr to another unmarked pointer succeeds. */
  predicate PredCas(m: Memory, th: Thread)
    requires PredAlive(m, th.pred)
  {
    LinkAt(m, th.pred) == Link(th.curr, false)
  }

  /** `find` returns without having found the key because the successor is LAST. */
  predicate StopsEarly(m: Memory, th: Thread)
    requires th.curr in m.next
  {
    m.next[th.curr].node == LAST
  }

  /** `find` returns at curr, whose key is not smaller. */
  predicate StopsAtKey(m: Memory, th: Thread) {
    !th.nxt.mark && th.curr in m.key && m.key[th.curr] >= th.k
  }

  /** Where the code continues when `find` returns. */
  function FindReturns(th: Thread, found: bool): Thread {
    match th.op
    case Contains => th.(pc := Unlock, result := found)
    case Remove => if found then th.(pc := MarkCas) else th.(pc := Unlock, result := false)
    case Add => if found then th.(pc := Discard, result := false) else th.(pc := LinkCas)
  }

  function AfterUnlock(th: Thread): Pc {
    if th.victim.Some? then CallVictim else AfterVictim(th)
  }

  function AfterVictim(th: Thread): Pc {
    if th.retired != [] then CallRetired else Done
  }

  function NextThread(m: Memory, th: Thread): Thread
    requires Safe(m, th)
  {
    match th.pc
    case Idle => th
    case Enter => th.(pc := Lock)
    case Lock => th.(pc := ReadHead)
    case ReadHead => th.(pc := CheckHead, pred := Root, curr := m.head, wit := Latest(m))
    case CheckHead => th.(pc := if m.head == th.curr then ReadNext else ReadHead)
    case ReadNext =>
      if StopsEarly(m, th) then FindReturns(th.(nxt := m.next[th.curr]), false)
      else th.(pc := RecheckNext, nxt := m.next[th.curr], seen := Latest(m))
    case RecheckNext => th.(pc := if m.next[th.curr] == th.nxt then CheckPred else ReadHead)
    case CheckPred => th.(pc := if PredCas(m, th) then Decide else ReadHead)
    case Decide =>
      if StopsAtKey(m, th) then
        var found := m.key[th.curr] == th.k;
        FindReturns(th.(wit := if found then th.seen else th.wit), found)
      else if !th.nxt.mark then
        th.(pc := ReadNext, pred := Of(th.curr), curr := th.nxt.node, wit := th.seen)
      else if PredCas(m, th) then
        th.(pc := ReadNext, curr := th.nxt.node, wit := Latest(m),
            retired := th.retired + [th.curr], count := th.count + 1)
      else th.(pc := ReadHead)
    case LinkCas =>
      if PredCas(m, th) then th.(pc := Unlock, result := true, wit := |m.hist|)
      else th.(pc := ReadHead)
    case MarkCas =>
      if m.next[th.curr] == Link(th.nxt.node, false) then th.(pc := UnlinkCas, result := true, wit := |m.hist|)
      else th.(pc := ReadHead)
    case UnlinkCas => th.(pc := Unlock, victim := if PredCas(m, th) then Some(th.curr) else None)
    case Discard => th.(pc := Unlock)
    case Unlock => th.(pc := AfterUnlock(th))
    case CallVictim => th.(pc := WaitVictim)
    case WaitVictim => th.(pc := FreeVictim)
    case FreeVictim => th.(pc := AfterVictim(th), victim := None)
    case CallRetired => th.(pc := WaitRetired)
    case WaitRetired => th.(pc := FreeRetired)
    case FreeRetired =>
      if |th.retired| <= 1 then th.(pc := Done, retired := [], count := th.count - |th.retired|)
      else th.(retired := th.retired[1..], count := th.count - 1)
    case Done => th.(pc := Idle)
  }

  function NextMemory(m: Memory, now: nat, t: nat, th: Thread): Memory
    requires Safe(m, th)
  {
    match th.pc
    case ReadNext =>
      if StopsEarly(m, th) && th.op.Add? then StoreOwn(m, th) else m
    case Decide =>
      if StopsAtKey(m, th) then
        if th.op.Add? && m.key[th.curr] != th.k then StoreOwn(m, th) else m
      else if th.nxt.mark && PredCas(m, th) then Unlink(m, now, t, th)
      else m
    case LinkCas =>
      if PredCas(m, th) then
        SetLink(m, th.pred, th.own).(life := m.life[th.own := Linked], index := m.index[th.k := th.own],
                                     hist := m.hist + [m.index.Keys + {th.k}])
      else m
    case MarkCas =>
      if m.next[th.curr] == Link(th.nxt.node, false) then
        m.(next := m.next[th.curr := Link(th.nxt.node, true)], index := m.index - {th.k},
           hist := m.hist + [m.index.Keys - {th.k}])
      else m
    case UnlinkCas => if PredCas(m, th) then Unlink(m, now, t, th) else m
    case Discard => m.(life := m.life[th.own := Discarded])
    case FreeVictim => if th.victim.Some? then Free(m, th.victim.value) else m
    case FreeRetired => if th.retired != [] then Free(m, th.retired[0]) else m
    case _ => m
  }

  /** `newNode->next.store(curr)` */
  function StoreOwn(m: Memory, th: Thread): Memory {
    m.(next := m.next[th.own := Link(th.curr, false)])
  }

  /** The successful compare-exchange that takes curr out of the list. */
  function Unlink(m: Memory, now: nat, t: nat, th: Thread): Memory {
    SetLink(m, th.pred, th.nxt.node).(life := m.life[th.curr := Unlinked(now, t)])
  }

  function Free(m: Memory, n: Node): Memory
    requires n in m.life
  {
    m.(life := m.life[n := Freed(if m.life[n].Unlinked? then m.life[n].at else 0)])
  }

  datatype Step = Step(t: nat, a: Action)

  /** State i + 1 comes from state i by step i. */
  ghost predicate Follows(run: seq<State>, steps: seq<Step>, i: nat)
    requires i < |steps| < |run|
  {
    Enabled(run[i], steps[i].t, steps[i].a) && run[i + 1] == Apply(run[i], steps[i].t, steps[i].a)
  }

  /** A run: every state follows from the one before by a step of some thread, with versions
      below the two reserved constants. */
  ghost predicate IsRun(run: seq<State>, steps: seq<Step>) {
    && |run| == |steps| + 1
    && Init(run[0])
    && (forall i | 0 <= i < |run| :: run[i].u.version < Urcu.UNASSIGNED)
    && forall i: nat {:trigger Follows(run, steps, i)} | i < |steps| :: Follows(run, steps, i)
  }
}
