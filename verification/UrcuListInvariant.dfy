/** The invariant of the URCU list and the promise that every step makes to the threads
    that do not move. */
module UrcuListInvariant {
  import Urcu
  import opened UrcuList

  // ---------------------------------------------------------------- the shared memory

  ghost predicate IsLinked(life: map<Node, Life>, n: Node) {
    n in life && life[n].Linked?
  }

  /** The order of the list: by key, FIRST after every key. */
  ghost predicate Below(key: map<Node, int>, a: Node, b: Node) {
    a in key && (b == FIRST || (b in key && key[a] < key[b]))
  }

  ghost predicate KeyBelow(key: map<Node, int>, n: Node, k: int) {
    n in key && key[n] < k
  }

  ghost predicate KeyAbove(key: map<Node, int>, n: Node, k: int) {
    n == FIRST || (n in key && key[n] > k)
  }

  /** Domains, the two constructor nodes, and what marks mean. */
  ghost predicate Shape(m: Memory) {
    && m.next.Keys == m.life.Keys
    && m.key.Keys == m.life.Keys - {FIRST}
    && LAST !in m.life
    && IsLinked(m.life, FIRST)
    && FIRST in m.next && m.next[FIRST] == Link(LAST, false)
    && (forall n | n in m.next && n != FIRST :: m.next[n].node != LAST)
    && (forall n | n in m.life && n in m.next && m.life[n].Private? :: !m.next[n].mark)
    && forall n | n in m.life && n in m.next :: m.life[n].Unlinked? || m.life[n].Freed? ==> m.next[n].mark
  }

  /** c is the linked node right after p. */
  ghost predicate Adjacent(key: map<Node, int>, life: map<Node, Life>, p: Node, c: Node) {
    && IsLinked(life, c)
    && Below(key, p, c)
    && forall x | IsLinked(life, x) :: !(Below(key, p, x) && Below(key, x, c))
  }

  /** The linked nodes form one strictly sorted chain from `head` to FIRST. */
  ghost predicate Chain(head: Node, next: map<Node, Link>, key: map<Node, int>, life: map<Node, Life>) {
    && IsLinked(life, head)
    && (forall x | IsLinked(life, x) :: x == head || Below(key, head, x))
    && (forall a, b | IsLinked(life, a) && IsLinked(life, b) :: a == b || Below(key, a, b) || Below(key, b, a))
    && (forall n | n in next && IsLinked(life, n) && n != FIRST :: Adjacent(key, life, n, next[n].node))
  }

  /** n carries the key k of the abstract set: linked and without a mark. */
  ghost predicate Carries(m: Memory, n: Node, k: int) {
    IsLinked(m.life, n) && n in m.next && !m.next[n].mark && n in m.key && m.key[n] == k
  }

  ghost predicate SetOk(m: Memory) {
    && (forall k | k in m.index :: Carries(m, m.index[k], k))
    && (forall n, k | Carries(m, n, k) :: k in m.index && m.index[k] == n)
    && |m.hist| > 0
    && m.hist[|m.hist| - 1] == m.index.Keys
  }

  /** Nothing that a running section could have seen linked is freed. */
  ghost predicate Stamps(life: map<Node, Life>, u: Urcu.State) {
    && (forall n | n in life && life[n].Unlinked? :: life[n].at <= u.now)
    && (forall n | n in life && life[n].Freed? :: Urcu.Covered(u, life[n].at))
  }

  ghost predicate MemoryOk(m: Memory) {
    Shape(m) && Chain(m.head, m.next, m.key, m.life) && SetOk(m)
  }

  // ---------------------------------------------------------------- one thread

  /** n was linked at some moment after stamp `began`. */
  ghost predicate Held(life: map<Node, Life>, began: nat, n: Node) {
    && n in life
    && match life[n]
       case Linked => true
       case Unlinked(at, _) => at > began
       case Freed(at) => at > began
       case _ => false
  }

  ghost predicate PredOk(m: Memory, began: nat, th: Thread) {
    th.pred.Of? ==> Held(m.life, began, th.pred.node) && KeyBelow(m.key, th.pred.node, th.k)
  }

  ghost predicate Version(hist: seq<set<int>>, th: Thread, w: nat) {
    th.from <= w < |hist|
  }

  /** k was not in the set at version w, which lies inside the call. */
  ghost predicate WasAbsent(hist: seq<set<int>>, th: Thread, w: nat) {
    Version(hist, th, w) && th.k !in hist[w]
  }

  ghost predicate WasPresent(hist: seq<set<int>>, th: Thread, w: nat) {
    Version(hist, th, w) && th.k in hist[w]
  }

  /** If c is past k then k was absent at version w: the place before c was below k. */
  ghost predicate AbsentBefore(m: Memory, th: Thread, c: Node, w: nat) {
    KeyAbove(m.key, c, th.k) ==> WasAbsent(m.hist, th, w)
  }

  /** What the load of `curr->next` showed, provided curr was linked then. */
  ghost predicate Observed(m: Memory, began: nat, th: Thread) {
    && Held(m.life, began, th.nxt.node)
    && (!th.nxt.mark && th.curr in m.key && m.key[th.curr] == th.k ==> WasPresent(m.hist, th, th.seen))
    && (!th.nxt.mark && KeyBelow(m.key, th.curr, th.k) ==> AbsentBefore(m, th, th.nxt.node, th.seen))
  }

  /** A marked successor field never changes again. */
  ghost predicate MarkSeen(next: map<Node, Link>, th: Thread) {
    th.nxt.mark ==> th.curr in next && next[th.curr] == th.nxt
  }

  /** The result of the call was decided at version wit, inside the call. */
  ghost predicate Justified(hist: seq<set<int>>, th: Thread) {
    && Version(hist, th, th.wit)
    && match th.op
       case Contains => th.result <==> th.k in hist[th.wit]
       case Add =>
         if th.result then
           th.from < th.wit && th.k !in hist[th.wit - 1] && hist[th.wit] == hist[th.wit - 1] + {th.k}
         else th.k in hist[th.wit]
       case Remove =>
         if th.result then
           th.from < th.wit && th.k in hist[th.wit - 1] && hist[th.wit] == hist[th.wit - 1] - {th.k}
         else th.k !in hist[th.wit]
  }

  predicate Searching(pc: Pc) {
    pc.ReadHead? || pc.CheckHead? || pc.ReadNext? || pc.RecheckNext? || pc.CheckPred? || pc.Decide?
    || pc.LinkCas? || pc.MarkCas? || pc.UnlinkCas?
  }

  predicate Reading(pc: Pc) {
    Searching(pc) || pc.Discard? || pc.Unlock?
  }

  predicate Waiting(pc: Pc) {
    pc.WaitVictim? || pc.WaitRetired?
  }

  predicate Decided(pc: Pc) {
    !pc.Idle? && !pc.Enter? && !pc.Lock? && !Searching(pc)
  }

  /** The new node of an `add` is still private here. */
  predicate OwnsNew(pc: Pc) {
    pc.Enter? || pc.Lock? || (Searching(pc) && !pc.MarkCas? && !pc.UnlinkCas?) || pc.Discard?
  }

  /** Where the thread is inside the grace-period code. */
  predicate CellOk(c: Urcu.Cell, pc: Pc) {
    if Reading(pc) then c.reader.Reading? && !Urcu.Syncing(c)
    else if pc.Lock? then !c.reader.Outside? && !Urcu.Syncing(c)
    else c.reader.Outside? && (if Waiting(pc) then !c.updater.NotSyncing? else !Urcu.Syncing(c))
  }

  ghost predicate OwnOk(m: Memory, t: nat, th: Thread) {
    th.op.Add? && OwnsNew(th.pc) ==>
      th.own in m.life && m.life[th.own] == Private(t) && th.own in m.key && m.key[th.own] == th.k
  }

  ghost predicate MyUnlinked(life: map<Node, Life>, t: nat, n: Node) {
    n in life && life[n].Unlinked? && life[n].owner == t
  }

  /** The nodes that t has unlinked and not deleted yet: all of them, each once. */
  ghost predicate Garbage(life: map<Node, Life>, t: nat, victim: Maybe<Node>, retired: seq<Node>) {
    && (forall i | 0 <= i < |retired| :: MyUnlinked(life, t, retired[i]))
    && (forall i, j | 0 <= i < j < |retired| :: retired[i] != retired[j])
    && (victim.Some? ==> MyUnlinked(life, t, victim.value) && victim.value !in retired)
    && (forall n | MyUnlinked(life, t, n) :: n in retired || victim == Some(n))
  }

  /** Which garbage there is at which point, and that the wait covers it. */
  ghost predicate Batch(life: map<Node, Life>, c: Urcu.Cell, th: Thread) {
    && th.count == |th.retired|
    && (th.victim.Some? ==> th.pc.Unlock? || th.pc.CallVictim? || th.pc.WaitVictim? || th.pc.FreeVictim?)
    && (th.pc.CallVictim? || th.pc.WaitVictim? || th.pc.FreeVictim? ==> th.victim.Some?)
    && (th.pc.WaitVictim? || th.pc.FreeVictim? ==> Expired(life, c.called, th.victim.value))
    && (th.pc.WaitRetired? || th.pc.FreeRetired? ==>
          forall i | 0 <= i < |th.retired| :: Expired(life, c.called, th.retired[i]))
    && (th.pc.FreeVictim? || th.pc.FreeRetired? ==> c.updater.Returned?)
    && (th.pc.CallRetired? || th.pc.WaitRetired? || th.pc.FreeRetired? ==> th.retired != [])
    && (th.pc.Idle? || th.pc.Enter? || th.pc.Lock? || th.pc.Done? ==> th.retired == [])
  }

  /** n was unlinked before the call stamped `called`. */
  ghost predicate Expired(life: map<Node, Life>, called: nat, n: Node) {
    n in life && life[n].Unlinked? && life[n].at <= called
  }

  /** What holds at every point of the loop once curr is known. */
  ghost predicate AtCurr(m: Memory, began: nat, th: Thread) {
    PredOk(m, began, th) && Held(m.life, began, th.curr) && AbsentBefore(m, th, th.curr, th.wit)
  }

  /** What the traversal knows at each point. */
  ghost predicate FindOk(m: Memory, began: nat, th: Thread) {
    match th.pc
    case ReadHead => true
    case CheckHead => AtCurr(m, began, th)
    case ReadNext => AtCurr(m, began, th)
    case RecheckNext =>
      && AtCurr(m, began, th) && th.curr != FIRST && MarkSeen(m.next, th)
      && (IsLinked(m.life, th.curr) ==> Observed(m, began, th))
    case CheckPred =>
      && AtCurr(m, began, th) && th.curr != FIRST && MarkSeen(m.next, th)
      && (IsLinked(m.life, th.curr) ==> Observed(m, began, th))
    case Decide =>
      AtCurr(m, began, th) && th.curr != FIRST && MarkSeen(m.next, th) && Observed(m, began, th)
    case LinkCas =>
      && th.op.Add? && PredOk(m, began, th) && Held(m.life, began, th.curr) && KeyAbove(m.key, th.curr, th.k)
      && th.own in m.next && m.next[th.own] == Link(th.curr, false)
    case MarkCas =>
      && th.op.Remove? && PredOk(m, began, th) && Held(m.life, began, th.curr) && Held(m.life, began, th.nxt.node)
      && th.curr in m.key && m.key[th.curr] == th.k
    case UnlinkCas =>
      && th.op.Remove? && PredOk(m, began, th) && Held(m.life, began, th.curr) && th.curr in m.key
      && th.curr in m.next && m.next[th.curr] == Link(th.nxt.node, true) && Justified(m.hist, th)
    case Discard => th.op.Add?
    case _ => true
  }

  /** What a thread knows of its call: the traversal, its new node, its verdict. */
  ghost predicate ProgressOk(m: Memory, began: nat, t: nat, th: Thread) {
    && FindOk(m, began, th)
    && OwnOk(m, t, th)
    && th.from < |m.hist|
    && (Decided(th.pc) ==> Justified(m.hist, th))
  }

  ghost predicate GarbageOk(life: map<Node, Life>, c: Urcu.Cell, t: nat, th: Thread) {
    Garbage(life, t, th.victim, th.retired) && Batch(life, c, th)
  }

  ghost predicate ThreadOk(m: Memory, c: Urcu.Cell, t: nat, th: Thread) {
    CellOk(c, th.pc) && ProgressOk(m, c.began, t, th) && GarbageOk(m.life, c, t, th)
  }

  ghost predicate Inv(s: State) {
    && |s.u.cells| == |s.threads|
    && Urcu.Inv(s.u)
    && MemoryOk(s.m)
    && Stamps(s.m.life, s.u)
    && !s.crashed
    && forall t | 0 <= t < |s.threads| :: ThreadOk(s.m, s.u.cells[t], t, s.threads[t])
  }

  // ---------------------------------------------------------------- the promise to other threads

  /** How the life of a node may change in a step of t at clock `now`. */
  ghost predicate LifeStep(now: nat, t: nat, l: Life, l': Life) {
    match l
    case Private(o) => if o != t then l' == l else !l'.Unlinked? && !l'.Freed?
    case Linked => l'.Linked? || (l'.Unlinked? && l'.at >= now && l'.owner == t)
    case Unlinked(at, o) => l' == l || (o == t && l' == Freed(at))
    case Freed(_) => l' == l
    case Discarded => l' == l
  }

  /** What a step of t promises about the memory to all other threads. */
  ghost predicate Evolves(m: Memory, m': Memory, now: nat, t: nat) {
    && m.hist <= m'.hist
    && (forall n | n in m.key :: n in m'.key && m'.key[n] == m.key[n])
    && (forall n | n in m.life && n !in m.key :: n !in m'.key)
    && (forall n | n in m.life :: n in m'.life && LifeStep(now, t, m.life[n], m'.life[n]))
    && (forall n | n in m'.life && n !in m.life :: m'.life[n] == Private(t))
    && (forall n | n in m.next && m.next[n].mark :: n in m'.next && m'.next[n] == m.next[n])
    && (forall n | n in m.next && n in m.life && m.life[n].Private? && m.life[n].owner != t ::
          n in m'.next && m'.next[n] == m.next[n])
  }

  lemma HeldStays(m: Memory, m': Memory, now: nat, t: nat, began: nat, n: Node)
    requires Evolves(m, m', now, t) && Held(m.life, began, n) && began < now
    ensures Held(m'.life, began, n)
  {
    assert LifeStep(now, t, m.life[n], m'.life[n]);
  }

  lemma JustifiedStays(hist: seq<set<int>>, hist': seq<set<int>>, th: Thread)
    requires hist <= hist' && Justified(hist, th)
    ensures Justified(hist', th)
  {
  }

  lemma GarbageStays(m: Memory, m': Memory, now: nat, t: nat, r: nat, c: Urcu.Cell, th: Thread)
    requires Evolves(m, m', now, t) && r != t
    requires GarbageOk(m.life, c, r, th)
    ensures GarbageOk(m'.life, c, r, th)
  {
    forall n | MyUnlinked(m.life, r, n) ensures MyUnlinked(m'.life, r, n) && m'.life[n] == m.life[n] {
      assert LifeStep(now, t, m.life[n], m'.life[n]);
    }
    forall n | MyUnlinked(m'.life, r, n) ensures MyUnlinked(m.life, r, n) {
      if n in m.life { assert LifeStep(now, t, m.life[n], m'.life[n]); }
    }
  }

  lemma ObservedStays(m: Memory, m': Memory, now: nat, t: nat, began: nat, th: Thread)
    requires Evolves(m, m', now, t) && began < now && Shape(m)
    requires Held(m.life, began, th.curr) && Observed(m, began, th)
    ensures Observed(m', began, th)
  {
    HeldStays(m, m', now, t, began, th.nxt.node);
  }

  lemma PlaceStays(m: Memory, m': Memory, now: nat, t: nat, began: nat, th: Thread)
    requires Evolves(m, m', now, t) && began < now && Shape(m)
    requires PredOk(m, began, th) && Held(m.life, began, th.curr)
    ensures PredOk(m', began, th) && Held(m'.life, began, th.curr)
    ensures AtCurr(m, began, th) ==> AtCurr(m', began, th)
    ensures KeyAbove(m.key, th.curr, th.k) ==> KeyAbove(m'.key, th.curr, th.k)
    ensures MarkSeen(m.next, th) ==> MarkSeen(m'.next, th)
    ensures IsLinked(m'.life, th.curr) ==> IsLinked(m.life, th.curr)
  {
    HeldStays(m, m', now, t, began, th.curr);
    if th.pred.Of? { HeldStays(m, m', now, t, began, th.pred.node); }
    assert LifeStep(now, t, m.life[th.curr], m'.life[th.curr]);
  }

  lemma FindStays(m: Memory, m': Memory, now: nat, t: nat, r: nat, began: nat, th: Thread)
    requires Evolves(m, m', now, t) && r != t && began < now && Shape(m)
    requires FindOk(m, began, th) && OwnOk(m, r, th)
    ensures FindOk(m', began, th)
  {
    if Searching(th.pc) && !th.pc.ReadHead? {
      PlaceStays(m, m', now, t, began, th);
      match th.pc
      case RecheckNext => if IsLinked(m.life, th.curr) { ObservedStays(m, m', now, t, began, th); }
      case CheckPred => if IsLinked(m.life, th.curr) { ObservedStays(m, m', now, t, began, th); }
      case Decide => ObservedStays(m, m', now, t, began, th);
      case MarkCas => HeldStays(m, m', now, t, began, th.nxt.node);
      case UnlinkCas => JustifiedStays(m.hist, m'.hist, th);
      case _ =>
    }
  }

  /** A thread that does not move keeps what it knows. */
  lemma OthersStay(m: Memory, m': Memory, now: nat, t: nat, r: nat, c: Urcu.Cell, th: Thread)
    requires Evolves(m, m', now, t) && r != t && Shape(m)
    requires ThreadOk(m, c, r, th)
    requires Reading(th.pc) ==> c.began < now
    ensures ThreadOk(m', c, r, th)
  {
    if Searching(th.pc) { FindStays(m, m', now, t, r, c.began, th); }
    GarbageStays(m, m', now, t, r, c, th);
    if Decided(th.pc) { JustifiedStays(m.hist, m'.hist, th); }
    if th.own in m.life { assert LifeStep(now, t, m.life[th.own], m'.life[th.own]); }
  }
}
