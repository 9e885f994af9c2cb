/** The memory of a Treiber stack, shared by its two versions in
    `hazardpointer/StackHazardPointer.hpp` and `urcu/StackURCU.hpp`: the fields `top` and
    `next`, with the history of the nodes.  `chain` is the list from top down, and `life`
    records what became of a node; the program has neither, and no step branches on them.

    The constructor pushes a sentinel without an item.  It is popped like any other node. */
module StackMemory {

  type Node = nat
  const NULL: Node := 0
  const SENTINEL: Node := 1

  datatype Life =
    | Private(owner: nat)            // allocated, not linked yet
    | Listed
    | Out(at: nat, owner: nat)       // popped by owner
    | Freed(at: nat)

  datatype Memory = Memory(top: Node, next: map<Node, Node>, life: map<Node, Life>, chain: seq<Node>)

  const FRESH := Memory(SENTINEL, map[SENTINEL := NULL], map[SENTINEL := Listed], [SENTINEL])

  predicate Alive(m: Memory, n: Node) {
    n in m.life && n in m.next && !m.life[n].Freed?
  }

  // ---------------------------------------------------------------- the accesses that write

  function Allocate(m: Memory, t: nat, n: Node): Memory {
    m.(next := m.next[n := NULL], life := m.life[n := Private(t)])
  }

  /** `node->next.store(temp)` on a node that is not linked yet. */
  function StoreOwn(m: Memory, own: Node, below: Node): Memory {
    m.(next := m.next[own := below])
  }

  /** A successful compare-exchange of `top` to a new node. */
  function Push(m: Memory, n: Node): Memory {
    m.(top := n, life := m.life[n := Listed], chain := [n] + m.chain)
  }

  /** A successful compare-exchange of `top` to a successor, by t at moment `now`. */
  function Pop(m: Memory, below: Node, now: nat, t: nat): Memory {
    m.(top := below, life := m.life[m.top := Out(now, t)], chain := if m.chain == [] then [] else m.chain[1..])
  }

  function Free(m: Memory, n: Node): Memory
    requires n in m.life
  {
    m.(life := m.life[n := Freed(if m.life[n].Out? then m.life[n].at else 0)])
  }

  // ---------------------------------------------------------------- the invariant

  /** The node at place i of the chain, NULL past its end. */
  function Nth(m: Memory, i: nat): Node {
    if i < |m.chain| then m.chain[i] else NULL
  }

  predicate ChainOk(m: Memory, i: nat) {
    i < |m.chain| ==>
      var n := m.chain[i];
      && n != NULL && n in m.life && m.life[n].Listed? && n in m.next && m.next[n] == Nth(m, i + 1)
      && (n == SENTINEL ==> i + 1 == |m.chain|)
  }

  ghost predicate MemoryOk(m: Memory) {
    && m.top == Nth(m, 0)
    && (forall i: nat {:trigger ChainOk(m, i)} :: ChainOk(m, i))
    && (forall i, j | 0 <= i < j < |m.chain| :: m.chain[i] != m.chain[j])
    && m.next.Keys == m.life.Keys && NULL !in m.life && SENTINEL in m.life && !m.life[SENTINEL].Private?
  }

  ghost predicate LifeStep(now: nat, t: nat, l: Life, l': Life) {
    match l
    case Private(o) => if o == t then l'.Private? || l'.Listed? else l' == l
    case Listed => l'.Listed? || l' == Out(now, t)
    case Out(at, o) => l' == l || (o == t && l' == Freed(at))
    case Freed(_) => l' == l
  }

  ghost predicate NodeEvolves(m: Memory, m': Memory, now: nat, t: nat, n: Node) {
    && (n in m.life ==> n in m'.life && LifeStep(now, t, m.life[n], m'.life[n]))
    && (n in m'.life && n !in m.life ==> m'.life[n] == Private(t))
    && (n in m.life && n in m.next && (m.life[n].Private? ==> m.life[n].owner != t) ==>
          n in m'.next && m'.next[n] == m.next[n])
  }

  /** What a step of t promises to all other threads: a linked node keeps its successor. */
  ghost predicate Evolves(m: Memory, m': Memory, now: nat, t: nat) {
    forall n {:trigger NodeEvolves(m, m', now, t, n)} :: NodeEvolves(m, m', now, t, n)
  }

  /** The values on the stack, top first: the nodes without the sentinel. */
  function Contents(m: Memory): seq<Node> {
    if |m.chain| > 0 && m.chain[|m.chain| - 1] == SENTINEL then m.chain[..|m.chain| - 1] else m.chain
  }

  // ---------------------------------------------------------------- every write keeps it

  lemma FreshOk()
    ensures MemoryOk(FRESH) && Contents(FRESH) == []
  {
  }

  lemma NothingEvolves(m: Memory, now: nat, t: nat)
    ensures Evolves(m, m, now, t)
  {
    forall x ensures NodeEvolves(m, m, now, t, x) {}
  }

  lemma AllocateKeeps(m: Memory, now: nat, t: nat, n: Node)
    requires MemoryOk(m) && n !in m.life && n != NULL
    ensures MemoryOk(Allocate(m, t, n)) && Evolves(m, Allocate(m, t, n), now, t)
  {
    var m' := Allocate(m, t, n);
    forall i: nat ensures ChainOk(m', i) { assert ChainOk(m, i); }
    forall x ensures NodeEvolves(m, m', now, t, x) {}
  }

  lemma StoreOwnKeeps(m: Memory, now: nat, t: nat, own: Node, below: Node)
    requires MemoryOk(m) && own in m.life && m.life[own] == Private(t)
    ensures MemoryOk(StoreOwn(m, own, below)) && Evolves(m, StoreOwn(m, own, below), now, t)
  {
    var m' := StoreOwn(m, own, below);
    forall i: nat ensures ChainOk(m', i) { assert ChainOk(m, i); }
    forall x ensures NodeEvolves(m, m', now, t, x) {}
  }

  lemma PushKeeps(m: Memory, now: nat, t: nat, n: Node)
    requires MemoryOk(m) && n in m.life && m.life[n] == Private(t) && n in m.next && m.next[n] == m.top
    ensures MemoryOk(Push(m, n)) && Evolves(m, Push(m, n), now, t)
    ensures Contents(Push(m, n)) == [n] + Contents(m)
  {
    var m' := Push(m, n);
    forall i | 0 <= i < |m.chain| ensures m.chain[i] != n { assert ChainOk(m, i); }
    forall i: nat ensures ChainOk(m', i) { if i > 0 { assert ChainOk(m, i - 1); } }
    forall x ensures NodeEvolves(m, m', now, t, x) {}
  }

  lemma PopKeeps(m: Memory, now: nat, t: nat)
    requires MemoryOk(m) && m.top != NULL
    ensures m.top in m.next && m.top in m.life && m.life[m.top].Listed?
    ensures MemoryOk(Pop(m, m.next[m.top], now, t)) && Evolves(m, Pop(m, m.next[m.top], now, t), now, t)
    ensures m.top != SENTINEL ==> Contents(m) == [m.top] + Contents(Pop(m, m.next[m.top], now, t))
    ensures m.top == SENTINEL ==> Contents(m) == Contents(Pop(m, m.next[m.top], now, t)) == []
  {
    assert ChainOk(m, 0);
    var m' := Pop(m, m.next[m.top], now, t);
    forall i: nat ensures ChainOk(m', i) { assert ChainOk(m, i + 1); }
    forall x ensures NodeEvolves(m, m', now, t, x) {}
  }

  lemma FreeKeeps(m: Memory, now: nat, t: nat, n: Node)
    requires MemoryOk(m) && n in m.life && m.life[n].Out? && m.life[n].owner == t
    ensures MemoryOk(Free(m, n)) && Evolves(m, Free(m, n), now, t)
    ensures Contents(Free(m, n)) == Contents(m)
  {
    var m' := Free(m, n);
    forall i: nat ensures ChainOk(m', i) { assert ChainOk(m, i); }
    forall x ensures NodeEvolves(m, m', now, t, x) {}
  }

  /** The top node is on the stack. */
  lemma TopIsListed(m: Memory)
    requires MemoryOk(m) && m.top != NULL
    ensures m.top in m.life && m.life[m.top].Listed? && m.top in m.next
  {
    assert ChainOk(m, 0);
  }

  /** A null top means that nothing is on the stack. */
  lemma NullTopIsEmpty(m: Memory)
    requires MemoryOk(m) && m.top == NULL
    ensures Contents(m) == []
  {
    assert ChainOk(m, 0);
  }

  /** n has been on the stack and was taken from it. */
  predicate Gone(m: Memory, n: Node) {
    n in m.life && (m.life[n].Out? || m.life[n].Freed?)
  }

  lemma GoneStays(m: Memory, m': Memory, now: nat, t: nat, n: Node)
    requires Evolves(m, m', now, t) && Gone(m, n)
    ensures Gone(m', n)
  {
    assert NodeEvolves(m, m', now, t, n);
  }

  // ---------------------------------------------------------------- histories

  /** What one step does to the stack. */
  datatype Event = Pushes(n: Node) | Takes(n: Node) | Quiet

  ghost predicate EventStep(c: seq<Node>, e: Event, c': seq<Node>) {
    match e
    case Pushes(n) => c' == [n] + c
    case Takes(n) => c == [n] + c'
    case Quiet => c' == c
  }

  datatype Outcome = Wrong | Holds(values: seq<Node>)

  /** A sequential stack, empty at first, that is given the history h: what it holds at the end,
      or Wrong if some value is taken that was not on top. */
  function Replay(h: seq<Event>): Outcome {
    if h == [] then Holds([])
    else
      var before, e := Replay(h[..|h| - 1]), h[|h| - 1];
      if before.Wrong? || e.Quiet? then before
      else if e.Pushes? then Holds([e.n] + before.values)
      else if before.values == [] || before.values[0] != e.n then Wrong
      else Holds(before.values[1..])
  }

  lemma ReplayOne(h: seq<Event>, e: Event, c: seq<Node>, c': seq<Node>)
    requires Replay(h) == Holds(c) && EventStep(c, e, c')
    ensures Replay(h + [e]) == Holds(c')
  {
    assert (h + [e])[..|h + [e]| - 1] == h;
  }

  /** The values pushed and the values taken in a history. */
  function Pushed(h: seq<Event>): multiset<Node> {
    if h == [] then multiset{}
    else Pushed(h[..|h| - 1]) + (if h[|h| - 1].Pushes? then multiset{h[|h| - 1].n} else multiset{})
  }

  function Taken(h: seq<Event>): multiset<Node> {
    if h == [] then multiset{}
    else Taken(h[..|h| - 1]) + (if h[|h| - 1].Takes? then multiset{h[|h| - 1].n} else multiset{})
  }

  /** A history that a sequential stack accepts loses nothing and invents nothing. */
  lemma {:induction false} NothingLost(h: seq<Event>)
    requires Replay(h).Holds?
    ensures Pushed(h) == Taken(h) + multiset(Replay(h).values)
  {
    if h != [] {
      NothingLost(h[..|h| - 1]);
      var before, e := Replay(h[..|h| - 1]).values, h[|h| - 1];
      if e.Takes? { assert before == [e.n] + before[1..]; }
    }
  }
}
