/** The memory of a Michael-Scott queue, shared by its three versions in
    `hazardpointer/QueueHazardPointer.hpp`, `hazarderas/QueueHazardEras.hpp` and
    `urcu/QueueURCU.hpp`: the fields `head`, `tail` and `next`, with the history of the nodes.

    `order` lists every node that was ever linked, first linked first, starting with the
    sentinel; `hi` and `ti` are the places of head and tail in it and `pos` is its inverse.
    The program has none of these four, and no step branches on them. */
module QueueMemory {

  type Node = nat
  const NULL: Node := 0
  const SENTINEL: Node := 1

  datatype Life =
    | Private(owner: nat)            // allocated, not linked yet
    | Listed                         // linked, head has not passed it
    | Out(at: nat, owner: nat)       // head was moved past it by owner
    | Freed(at: nat)

  datatype Memory = Memory(
    head: Node, tail: Node, next: map<Node, Node>,
    life: map<Node, Life>, order: seq<Node>, pos: map<Node, nat>, hi: nat, ti: nat)

  const EMPTY := Memory(SENTINEL, SENTINEL, map[SENTINEL := NULL], map[SENTINEL := Listed],
                        [SENTINEL], map[SENTINEL := 0], 0, 0)

  predicate Alive(m: Memory, n: Node) {
    n in m.life && n in m.next && !m.life[n].Freed?
  }

  // ---------------------------------------------------------------- the accesses that write

  function Allocate(m: Memory, t: nat, n: Node): Memory {
    m.(next := m.next[n := NULL], life := m.life[n := Private(t)])
  }

  /** A successful compare-exchange of the successor field of the last node. */
  function LinkAfter(m: Memory, last: Node, n: Node): Memory {
    m.(next := m.next[last := n], life := m.life[n := Listed],
       order := m.order + [n], pos := m.pos[n := |m.order|])
  }

  /** A successful compare-exchange of `tail` to the successor. */
  function SwingTail(m: Memory, n: Node): Memory {
    m.(tail := n, ti := m.ti + 1)
  }

  /** A successful compare-exchange of `head` to the successor, by t at moment `now`. */
  function MoveHead(m: Memory, n: Node, now: nat, t: nat): Memory {
    m.(head := n, hi := m.hi + 1, life := m.life[m.head := Out(now, t)])
  }

  function Free(m: Memory, n: Node): Memory
    requires n in m.life
  {
    m.(life := m.life[n := Freed(if m.life[n].Out? then m.life[n].at else 0)])
  }

  // ---------------------------------------------------------------- the invariant

  /** n is the i-th node ever linked. */
  predicate At(m: Memory, n: Node, i: int) {
    0 <= i < |m.order| && m.order[i] == n && n in m.pos && m.pos[n] == i
  }

  /** A node that was linked: its place, its successor, and whether head has passed it. */
  predicate LinkedOk(m: Memory, n: Node) {
    n in m.pos ==>
      var i := m.pos[n];
      && At(m, n, i) && n != NULL && n in m.next && n in m.life
      && (if i + 1 < |m.order| then At(m, m.next[n], i + 1) else m.next[n] == NULL)
      && (if i < m.hi then m.life[n].Out? || m.life[n].Freed? else m.life[n].Listed?)
  }

  /** A node that was not linked belongs to its thread alone. */
  predicate PrivateOk(m: Memory, n: Node) {
    && (n in m.next ==> n in m.life)
    && (n in m.life && n !in m.pos ==> m.life[n].Private? && n != NULL && n in m.next && m.next[n] == NULL)
  }

  ghost predicate MemoryOk(m: Memory) {
    && m.hi <= m.ti < |m.order| <= m.ti + 2
    && At(m, m.head, m.hi) && At(m, m.tail, m.ti)
    && (forall i | 0 <= i < |m.order| :: At(m, m.order[i], i))
    && (forall n {:trigger LinkedOk(m, n)} :: LinkedOk(m, n))
    && (forall n {:trigger PrivateOk(m, n)} :: PrivateOk(m, n))
  }

  /** How the life of a node may change in a step of t at moment `now`. */
  ghost predicate LifeStep(now: nat, t: nat, l: Life, l': Life) {
    match l
    case Private(o) => if o == t then l'.Private? || l'.Listed? else l' == l
    case Listed => l'.Listed? || l' == Out(now, t)
    case Out(at, o) => l' == l || (o == t && l' == Freed(at))
    case Freed(_) => l' == l
  }

  ghost predicate NodeEvolves(m: Memory, m': Memory, now: nat, t: nat, n: Node) {
    && (n in m.pos ==> n in m'.pos && m'.pos[n] == m.pos[n])
    && (n in m.life ==> n in m'.life && LifeStep(now, t, m.life[n], m'.life[n]))
    && (n in m'.life && n !in m.life ==> m'.life[n] == Private(t))
    && (n in m.next && m.next[n] != NULL ==> n in m'.next && m'.next[n] == m.next[n])
    && (n in m.life && m.life[n].Private? && m.life[n].owner != t ==>
          (n !in m.pos ==> n !in m'.pos) && (n in m.next ==> n in m'.next && m'.next[n] == m.next[n]))
  }

  /** What a step of t promises to all other threads. */
  ghost predicate Evolves(m: Memory, m': Memory, now: nat, t: nat) {
    && m.order <= m'.order && m.hi <= m'.hi && m.ti <= m'.ti
    && forall n {:trigger NodeEvolves(m, m', now, t, n)} :: NodeEvolves(m, m', now, t, n)
  }

  /** The values in the queue when an enqueue counts from the swing of `tail`. */
  function UpToTail(m: Memory): seq<Node>
    requires m.hi <= m.ti < |m.order|
  {
    m.order[m.hi + 1..m.ti + 1]
  }

  /** The values in the queue when an enqueue counts from the link. */
  function AfterHead(m: Memory): seq<Node>
    requires m.hi < |m.order|
  {
    m.order[m.hi + 1..]
  }

  // ---------------------------------------------------------------- every write keeps it

  lemma EmptyOk()
    ensures MemoryOk(EMPTY)
  {
  }

  lemma NothingEvolves(m: Memory, now: nat, t: nat)
    ensures Evolves(m, m, now, t)
  {
    forall x ensures NodeEvolves(m, m, now, t, x) {}
  }

  lemma AllocateKeeps(m: Memory, now: nat, t: nat, n: Node)
    requires MemoryOk(m) && n !in m.life && n != NULL
    ensures MemoryOk(Allocate(m, t, n)) && Evolves(m, Allocate(m, t, n), now, t)
  {
    var m' := Allocate(m, t, n);
    assert LinkedOk(m, n) && LinkedOk(m, m.head) && LinkedOk(m, m.tail);
    forall x ensures LinkedOk(m', x) { assert LinkedOk(m, x); }
    forall x ensures PrivateOk(m', x) { assert PrivateOk(m, x); }
    forall x ensures NodeEvolves(m, m', now, t, x) { assert LinkedOk(m, x) && PrivateOk(m, x); }
  }

  lemma LinkKeeps(m: Memory, now: nat, t: nat, last: Node, n: Node)
    requires MemoryOk(m) && last in m.pos && last in m.next && m.next[last] == NULL
    requires m.pos[last] <= m.ti
    requires n in m.life && m.life[n] == Private(t)
    ensures MemoryOk(LinkAfter(m, last, n)) && Evolves(m, LinkAfter(m, last, n), now, t)
    ensures m.pos[last] == m.ti == |m.order| - 1
  {
    var m' := LinkAfter(m, last, n);
    assert LinkedOk(m, last) && LinkedOk(m, NULL) && PrivateOk(m, n) && LinkedOk(m, n) && LinkedOk(m, m.head) && LinkedOk(m, m.tail);
    forall x ensures LinkedOk(m', x) {
      assert LinkedOk(m, x);
    }
    forall x ensures PrivateOk(m', x) { assert PrivateOk(m, x); }
    forall x ensures NodeEvolves(m, m', now, t, x) { assert LinkedOk(m, x) && PrivateOk(m, x); }
  }

  lemma SwingKeeps(m: Memory, now: nat, t: nat, n: Node)
    requires MemoryOk(m) && At(m, n, m.ti + 1)
    ensures MemoryOk(SwingTail(m, n)) && Evolves(m, SwingTail(m, n), now, t)
    ensures UpToTail(SwingTail(m, n)) == UpToTail(m) + [n]
    ensures AfterHead(SwingTail(m, n)) == AfterHead(m)
  {
    var m' := SwingTail(m, n);
    forall x ensures NodeEvolves(m, m', now, t, x) {}
    forall x ensures LinkedOk(m', x) { assert LinkedOk(m, x); }
    forall x ensures PrivateOk(m', x) { assert PrivateOk(m, x); }
  }

  lemma MoveHeadKeeps(m: Memory, now: nat, t: nat, n: Node)
    requires MemoryOk(m) && At(m, n, m.hi + 1) && m.hi < m.ti
    ensures MemoryOk(MoveHead(m, n, now, t)) && Evolves(m, MoveHead(m, n, now, t), now, t)
    ensures UpToTail(m) == [n] + UpToTail(MoveHead(m, n, now, t))
    ensures AfterHead(m) == [n] + AfterHead(MoveHead(m, n, now, t))
    ensures m.head in m.life && m.life[m.head].Listed?
  {
    var m' := MoveHead(m, n, now, t);
    assert LinkedOk(m, m.head);
    forall x ensures LinkedOk(m', x) { assert LinkedOk(m, x); }
    forall x ensures PrivateOk(m', x) { assert PrivateOk(m, x); }
    forall x ensures NodeEvolves(m, m', now, t, x) { assert LinkedOk(m, x) && PrivateOk(m, x); }
  }

  lemma FreeKeeps(m: Memory, now: nat, t: nat, n: Node)
    requires MemoryOk(m) && n in m.life && m.life[n].Out? && m.life[n].owner == t
    ensures MemoryOk(Free(m, n)) && Evolves(m, Free(m, n), now, t)
  {
    var m' := Free(m, n);
    assert PrivateOk(m, n) && LinkedOk(m, n);
    forall x ensures LinkedOk(m', x) { assert LinkedOk(m, x); }
    forall x ensures PrivateOk(m', x) { assert PrivateOk(m, x); }
    forall x ensures NodeEvolves(m, m', now, t, x) { assert LinkedOk(m, x) && PrivateOk(m, x); }
  }

  /** A successor field that is not null names the next node ever linked. */
  lemma SuccessorIsNext(m: Memory, n: Node)
    requires MemoryOk(m) && n in m.pos
    ensures n in m.next && At(m, n, m.pos[n])
    ensures if m.pos[n] + 1 < |m.order| then At(m, m.next[n], m.pos[n] + 1) else m.next[n] == NULL
    ensures m.next[n] != NULL <==> m.pos[n] + 1 < |m.order|
  {
    assert LinkedOk(m, n);
    if m.pos[n] + 1 < |m.order| { assert LinkedOk(m, m.next[n]); }
  }

  /** No two nodes have the same successor. */
  lemma OnePredecessor(m: Memory, a: Node, b: Node)
    requires MemoryOk(m) && a in m.pos && b in m.pos && a in m.next && b in m.next
    requires m.next[a] == m.next[b] != NULL
    ensures a == b
  {
    SuccessorIsNext(m, a);
    SuccessorIsNext(m, b);
  }
}
