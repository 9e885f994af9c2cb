/** The list of `hazarderas/LinkedListHazardEras.hpp` on hazard eras, for the protection of its
    nodes: one step per atomic access, any number of threads, any number of slots of at least
    three.  `find` keeps the era of `next` in slot 0, of `curr` in slot 1 and of `pred` in slot
    2, and only ever copies eras to a later slot.  A step that would touch deleted memory sets
    `crashed`.

    `tail` is never changed, so that its load is part of the step that loads `next` again; after
    an unlink `curr` is the successor without its mark. */
module EraList {
  import opened EraListMemory
  import Eras

  datatype Pc =
    | Idle
    | ReadEra
    // find
    | LoadCurr | CheckCurr | StoreCurr | LoadNext | CheckNext | StoreNext | RecheckNext | CheckPred
    | KeyTest | CopyPred | UnlinkCas | Unlinking | CopyCurr
    // add after find
    | DeleteOwn | StoreNextOwn | LinkCas
    // remove after find
    | MarkCas | UnlinkOwn | ClearRemove | Retiring
    | Clear | Done

  datatype Op = Add(own: Node) | Remove | Contains

  datatype Thread = Thread(
    pc: Pc, op: Op, key: int, pred: Node, curr: Node, nxt: Link, era: nat, c: nat, result: bool, ret: Eras.Retirer)

  datatype State = State(m: Memory, e: Eras.Table, threads: seq<Thread>, crashed: bool)

  datatype Action = Call(op: Op, key: int) | Go

  datatype Step = Step(t: nat, a: Action)

  ghost predicate Init(s: State, slots: nat) {
    && s.m == EMPTY
    && |s.e.rows| == |s.threads| && slots >= 3
    && s.e.clock == 1 && s.e.birth == map[LAST := 1] && s.e.del == map[]
    && (forall t | 0 <= t < |s.e.rows| :: s.e.rows[t] == seq(slots, _ => 0))
    && (forall t | 0 <= t < |s.threads| ::
          s.threads[t].pc.Idle? && s.threads[t].ret == Eras.Retirer([], 0, Eras.Resting))
    && !s.crashed
  }

  /** The retiring code reads the eras of the nodes in its list. */
  predicate ReclaimSafe(m: Memory, r: Eras.Retirer) {
    && (r.cursor.Stamping? ==> Alive(m, r.cursor.n))
    && (r.cursor.Scanning? && r.cursor.i < |r.list| ==> Alive(m, r.list[r.cursor.i]))
  }

  /** The next access of the thread reads, writes and deletes live nodes only. */
  predicate Safe(m: Memory, th: Thread) {
    match th.pc
    case LoadCurr => Alive(m, HEAD)
    case LoadNext => Alive(m, th.curr)
    case RecheckNext => Alive(m, th.curr)
    case CheckPred => Alive(m, th.pred)
    case KeyTest => Alive(m, th.curr)
    case UnlinkCas => Alive(m, th.pred)
    case DeleteOwn => th.op.Add? && Alive(m, th.op.own)
    case StoreNextOwn => th.op.Add? && Alive(m, th.op.own)
    case LinkCas => th.op.Add? && Alive(m, th.pred)
    case MarkCas => Alive(m, th.curr)
    case UnlinkOwn => Alive(m, th.pred)
    case Unlinking => ReclaimSafe(m, th.ret)
    case Retiring => ReclaimSafe(m, th.ret)
    case _ => true
  }

  predicate Enabled(s: State, st: Step) {
    && st.t < |s.threads| == |s.e.rows|
    && !s.crashed
    && (st.a.Go? <==> !s.threads[st.t].pc.Idle?)
    && (st.a.Call? && st.a.op.Add? ==> st.a.op.own !in s.m.life)
  }

  function Apply(s: State, st: Step): State
    requires Enabled(s, st)
  {
    var th := s.threads[st.t];
    match st.a
    case Call(op, key) =>
      var th' := th.(pc := if op.Add? then ReadEra else LoadCurr, op := op, key := key);
      s.(m := if op.Add? then Allocate(s.m, st.t, op.own, key) else s.m, threads := s.threads[st.t := th'])
    case Go =>
      if !Safe(s.m, th) then s.(crashed := true)
      else
        State(NextMemory(s.m, s.e, st.t, th), NextTable(s.e, st.t, th),
              s.threads[st.t := NextThread(s.m, s.e, st.t, th)], false)
  }

  function KeyOf(m: Memory, n: Node): int {
    if n in m.key then m.key[n] else 0
  }

  /** Where the operation goes on when `find` returns. */
  function AfterFind(th: Thread, found: bool): Thread {
    match th.op
    case Add(_) => th.(pc := if found then DeleteOwn else StoreNextOwn)
    case Remove => if found then th.(pc := MarkCas) else th.(pc := Clear, c := 0, result := false)
    case Contains => th.(pc := Done, result := found)
  }

  function NextThread(m: Memory, e: Eras.Table, t: nat, th: Thread): Thread
    requires Safe(m, th)
  {
    match th.pc
    case Idle => th
    case ReadEra => th.(pc := LoadCurr)
    case LoadCurr => th.(pc := CheckCurr, pred := HEAD, curr := m.link[HEAD].to)
    case CheckCurr => if e.clock == Eras.EraOf(e, t, 1) then th.(pc := LoadNext) else th.(pc := StoreCurr, era := e.clock)
    case StoreCurr => th.(pc := LoadCurr)
    case LoadNext => th.(pc := CheckNext, nxt := m.link[th.curr])
    case CheckNext => if e.clock == Eras.EraOf(e, t, 0) then th.(pc := RecheckNext) else th.(pc := StoreNext, era := e.clock)
    case StoreNext => th.(pc := LoadNext)
    case RecheckNext =>
      if m.link[th.curr] != th.nxt then th.(pc := LoadCurr)
      else if th.nxt.to == LAST then AfterFind(th, false)
      else th.(pc := CheckPred)
    case CheckPred =>
      th.(pc := if m.link[th.pred] != Link(th.curr, false) then LoadCurr else if th.nxt.marked then UnlinkCas else KeyTest)
    case KeyTest =>
      if KeyOf(m, th.curr) < th.key then th.(pc := CopyPred) else AfterFind(th, KeyOf(m, th.curr) == th.key)
    case CopyPred => th.(pc := CopyCurr, pred := th.curr)
    case UnlinkCas =>
      if m.link[th.pred] == Link(th.curr, false) then th.(pc := Unlinking, ret := th.ret.(cursor := Eras.Stamping(th.curr)))
      else th.(pc := LoadCurr)
    case Unlinking =>
      var r' := Eras.Reclaim(e, th.ret);
      th.(pc := if r'.cursor.Resting? then CopyCurr else Unlinking, ret := r')
    case CopyCurr => th.(pc := LoadNext, curr := th.nxt.to)
    case DeleteOwn => th.(pc := Clear, c := 0, result := false)
    case StoreNextOwn => th.(pc := LinkCas)
    case LinkCas =>
      if m.link[th.pred] == Link(th.curr, false) then th.(pc := Clear, c := 0, result := true) else th.(pc := LoadCurr)
    case MarkCas => th.(pc := if m.link[th.curr] == Link(th.nxt.to, false) then UnlinkOwn else LoadCurr)
    case UnlinkOwn =>
      th.(pc := if m.link[th.pred] == Link(th.curr, false) then ClearRemove else Clear, c := 0, result := true)
    case ClearRemove =>
      if th.c + 1 < Slots(e, t) then th.(c := th.c + 1)
      else th.(pc := Retiring, ret := th.ret.(cursor := Eras.Stamping(th.curr)))
    case Retiring =>
      var r' := Eras.Reclaim(e, th.ret);
      th.(pc := if r'.cursor.Resting? then Done else Retiring, ret := r')
    case Clear => if th.c + 1 < Slots(e, t) then th.(c := th.c + 1) else th.(pc := Done)
    case Done => th.(pc := Idle)
  }

  function Slots(e: Eras.Table, t: nat): nat {
    if t < |e.rows| then |e.rows[t]| else 0
  }

  function NextTable(e: Eras.Table, t: nat, th: Thread): Eras.Table {
    match th.pc
    case ReadEra => if th.op.Add? then Eras.Born(e, th.op.own) else e
    case StoreCurr => Eras.Publish(e, t, 1, th.era)
    case StoreNext => Eras.Publish(e, t, 0, th.era)
    case CopyPred => Eras.Publish(e, t, 2, Eras.EraOf(e, t, 1))
    case CopyCurr => Eras.Publish(e, t, 1, Eras.EraOf(e, t, 0))
    case Clear => Eras.Publish(e, t, th.c, 0)
    case ClearRemove => Eras.Publish(e, t, th.c, 0)
    case Unlinking => Eras.ReclaimTable(e, th.ret)
    case Retiring => Eras.ReclaimTable(e, th.ret)
    case _ => e
  }

  predicate Reclaiming(pc: Pc) {
    pc.Unlinking? || pc.Retiring?
  }

  function NextMemory(m: Memory, e: Eras.Table, t: nat, th: Thread): Memory
    requires Safe(m, th)
  {
    match th.pc
    case UnlinkCas => if m.link[th.pred] == Link(th.curr, false) then Unlink(m, th.pred, th.curr, th.nxt.to, t) else m
    case DeleteOwn => Discard(m, th.op.own)
    case StoreNextOwn => StoreOwn(m, th.op.own, th.curr)
    case LinkCas => if m.link[th.pred] == Link(th.curr, false) then LinkIn(m, th.pred, th.op.own) else m
    case MarkCas => if m.link[th.curr] == Link(th.nxt.to, false) then MarkOut(m, th.curr) else m
    case UnlinkOwn => if m.link[th.pred] == Link(th.curr, false) then Unlink(m, th.pred, th.curr, th.nxt.to, t) else m
    case Unlinking => if Eras.DeletesNow(e, th.ret) then Free(m, th.ret.list[th.ret.cursor.i]) else m
    case Retiring => if Eras.DeletesNow(e, th.ret) then Free(m, th.ret.list[th.ret.cursor.i]) else m
    case _ => m
  }

  /** State i + 1 comes from state i by step i. */
  ghost predicate Follows(run: seq<State>, steps: seq<Step>, i: nat)
    requires i < |steps| < |run|
  {
    Enabled(run[i], steps[i]) && run[i + 1] == Apply(run[i], steps[i])
  }

  ghost predicate IsRun(run: seq<State>, steps: seq<Step>, slots: nat) {
    && |run| == |steps| + 1
    && Init(run[0], slots)
    && forall i: nat {:trigger Follows(run, steps, i)} | i < |steps| :: Follows(run, steps, i)
  }

  // ---------------------------------------------------------------- the invariant

  /** n has been in the list and is not deleted. */
  predicate Usable(m: Memory, n: Node) {
    n in m.life && n in m.link && (m.life[n].Listed? || m.life[n].Out?)
  }

  /** n has been in the list. */
  predicate Seen(m: Memory, n: Node) {
    n in m.life && n in m.link && n != HEAD && (m.life[n].Listed? || m.life[n].Out? || m.life[n].Freed?)
  }

  /** n is alive, covered by slot j of t, and no scan is past that slot for n. */
  ghost predicate Held(s: State, t: nat, j: nat, n: Node) {
    && n != HEAD && Usable(s.m, n) && Eras.Covered(s.e, t, j, n)
    && forall r | 0 <= r < |s.threads| :: Eras.NotMissed(s.threads[r].ret, t, j, n)
  }

  /** In use: `pred`, by slot 2. */
  predicate UsesPred(pc: Pc) {
    UsesCurr(pc) || UsesNext(pc) || pc.StoreNextOwn? || pc.LinkCas?
  }

  /** In use: `curr`, by slot 1. */
  predicate UsesCurr(pc: Pc) {
    pc.LoadNext? || pc.CheckNext? || pc.StoreNext? || pc.RecheckNext? || pc.CheckPred? || pc.KeyTest? || pc.CopyPred?
    || pc.UnlinkCas? || pc.MarkCas? || pc.UnlinkOwn?
  }

  /** In use: `next`, by slot 0. */
  predicate UsesNext(pc: Pc) {
    pc.KeyTest? || pc.CopyPred? || pc.UnlinkCas? || pc.Unlinking? || pc.CopyCurr?
  }

  /** `next` was read and its era stands; whether it was in the list is not known before `pred`
      has been looked at. */
  predicate AwaitsPred(pc: Pc) {
    pc.RecheckNext? || pc.CheckPred?
  }

  ghost predicate GuardsHeld(s: State, t: nat)
    requires t < |s.threads|
  {
    var th := s.threads[t];
    && (UsesPred(th.pc) && th.pred != HEAD ==> Held(s, t, 2, th.pred))
    && (UsesCurr(th.pc) ==> Held(s, t, 1, th.curr))
    && (UsesNext(th.pc) ==> Held(s, t, 0, th.nxt.to))
    && (AwaitsPred(th.pc) && IsListed(s.m, th.curr) ==> Held(s, t, 0, th.nxt.to))
  }

  predicate MyOut(m: Memory, t: nat, n: Node) {
    n in m.life && m.life[n] == Out(t)
  }

  /** The node of a running `add`, until it is linked or deleted. */
  predicate HasOwn(th: Thread) {
    th.op.Add? && !th.pc.Idle? && !th.pc.Clear? && !th.pc.ClearRemove? && !th.pc.Retiring? && !th.pc.Done?
  }

  /** What a thread knows of the links. */
  ghost predicate KnowsOk(m: Memory, t: nat, th: Thread) {
    && (HasOwn(th) ==> th.op.own in m.life && m.life[th.op.own] == Private(t))
    && (th.pc.DeleteOwn? || th.pc.StoreNextOwn? || th.pc.LinkCas? ==> th.op.Add?)
    && (th.pc.MarkCas? || th.pc.UnlinkOwn? ==> th.op.Remove?)
    && (UsesPred(th.pc) ==> th.pred != LAST)
    && (th.pc.CheckPred? || th.pc.KeyTest? || th.pc.CopyPred? || th.pc.UnlinkCas? || th.pc.MarkCas? || th.pc.UnlinkOwn? ==>
          th.curr != LAST && th.curr != HEAD)
    && (th.pc.CheckPred? && th.nxt.marked ==> th.curr in m.link && m.link[th.curr] == th.nxt)
    && (th.pc.UnlinkCas? ==> th.nxt.marked && th.curr in m.link && m.link[th.curr] == th.nxt)
    && (th.pc.LinkCas? ==> th.op.own in m.link && m.link[th.op.own] == Link(th.curr, false))
    && (th.pc.UnlinkOwn? ==> th.curr in m.link && m.link[th.curr] == Link(th.nxt.to, true))
  }

  /** What a thread knows of eras. */
  ghost predicate ErasKnown(m: Memory, e: Eras.Table, t: nat, th: Thread) {
    && (HasOwn(th) ==> (th.op.own in e.birth <==> !th.pc.ReadEra?) && th.op.own !in e.del)
    && (th.pc.CheckCurr? ==> th.pred == HEAD && Seen(m, th.curr) && Eras.Loaded(e, t, 1, th.curr))
    && (th.pc.CheckNext? && IsListed(m, th.curr) ==> Seen(m, th.nxt.to) && Eras.Loaded(e, t, 0, th.nxt.to))
    && (th.pc.StoreCurr? || th.pc.StoreNext? ==> 1 <= th.era <= e.clock)
  }

  /** The retired nodes of t: its own, out of the list. */
  ghost predicate RetiredOk(m: Memory, e: Eras.Table, t: nat, th: Thread) {
    && Eras.RetirerOk(e, th.ret)
    && (forall i {:trigger th.ret.list[i]} | 0 <= i < |th.ret.list| :: MyOut(m, t, th.ret.list[i]))
    && (th.pc.ClearRemove? ==> MyOut(m, t, th.curr) && th.curr !in e.del && th.curr !in th.ret.list)
    && (th.ret.cursor.Stamping? ==>
          MyOut(m, t, th.ret.cursor.n) && th.ret.cursor.n !in e.del && th.ret.cursor.n !in th.ret.list)
    && (Reclaiming(th.pc) <==> !th.ret.cursor.Resting?)
  }

  /** The life of a node and its eras. */
  predicate LifeOk(m: Memory, e: Eras.Table, n: Node) {
    && (Seen(m, n) ==> n in e.birth)
    && (n in e.birth || n in e.del ==> n in m.life && n != HEAD)
    && (n in m.life && n in e.del ==> m.life[n].Out? || m.life[n].Freed?)
    && (n in m.life && m.life[n].Freed? ==> n in e.del && e.del[n] < e.clock)
  }

  ghost predicate EraLives(m: Memory, e: Eras.Table) {
    forall n {:trigger LifeOk(m, e, n)} :: LifeOk(m, e, n)
  }

  ghost predicate ThreadOk(m: Memory, e: Eras.Table, t: nat, th: Thread) {
    KnowsOk(m, t, th) && ErasKnown(m, e, t, th) && RetiredOk(m, e, t, th)
  }

  ghost predicate Rows(e: Eras.Table, slots: nat) {
    forall t | 0 <= t < |e.rows| :: |e.rows[t]| == slots
  }

  ghost predicate Inv(s: State, slots: nat) {
    && |s.e.rows| == |s.threads| && slots >= 3
    && MemoryOk(s.m) && Eras.TableOk(s.e) && EraLives(s.m, s.e) && Rows(s.e, slots)
    && !s.crashed
    && (forall t | 0 <= t < |s.threads| :: ThreadOk(s.m, s.e, t, s.threads[t]))
    && (forall t | 0 <= t < |s.threads| :: GuardsHeld(s, t))
  }
}
