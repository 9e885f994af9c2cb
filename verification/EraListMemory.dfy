/** The memory of the list of `hazarderas/LinkedListHazardEras.hpp`: links with a mark, and the
    history of the nodes.  The constructor makes one sentinel that is head and tail and links to
    itself; the cell `head` is treated as a node HEAD that holds only a link. */
module EraListMemory {

  type Node = nat
  const HEAD: Node := 0
  const LAST: Node := 1            // the sentinel

  datatype Link = Link(to: Node, marked: bool)

  datatype Life =
    | Private(owner: nat)          // allocated, not linked yet
    | Discarded                    // deleted without having been linked
    | Listed
    | Out(owner: nat)              // unlinked by owner
    | Freed

  datatype Memory = Memory(link: map<Node, Link>, life: map<Node, Life>, key: map<Node, int>)

  const EMPTY := Memory(
    map[HEAD := Link(LAST, false), LAST := Link(LAST, false)], map[HEAD := Listed, LAST := Listed], map[])

  predicate Alive(m: Memory, n: Node) {
    n in m.life && n in m.link && !m.life[n].Freed? && !m.life[n].Discarded?
  }

  predicate IsListed(m: Memory, n: Node) {
    n in m.life && m.life[n].Listed?
  }

  // ---------------------------------------------------------------- the accesses that write

  function Allocate(m: Memory, t: nat, n: Node, k: int): Memory {
    Memory(m.link[n := Link(LAST, false)], m.life[n := Private(t)], m.key[n := k])
  }

  function StoreOwn(m: Memory, own: Node, below: Node): Memory {
    m.(link := m.link[own := Link(below, false)])
  }

  function LinkIn(m: Memory, pred: Node, own: Node): Memory {
    m.(link := m.link[pred := Link(own, false)], life := m.life[own := Listed])
  }

  function MarkOut(m: Memory, curr: Node): Memory
    requires curr in m.link
  {
    m.(link := m.link[curr := Link(m.link[curr].to, true)])
  }

  function Unlink(m: Memory, pred: Node, curr: Node, next: Node, t: nat): Memory {
    m.(link := m.link[pred := Link(next, false)], life := m.life[curr := Out(t)])
  }

  function Free(m: Memory, n: Node): Memory {
    m.(life := m.life[n := Freed])
  }

  function Discard(m: Memory, n: Node): Memory {
    m.(life := m.life[n := Discarded])
  }

  // ---------------------------------------------------------------- the invariant

  predicate NodeOk(m: Memory, n: Node) {
    n in m.life ==>
      && n in m.link
      && (m.life[n].Listed? ==> IsListed(m, m.link[n].to) && m.link[n].to != HEAD)
      && (m.life[n].Private? ==> !m.link[n].marked)
      && (m.life[n].Out? || m.life[n].Freed? ==> m.link[n].marked)
  }

  /** No node has two links to it, apart from the sentinel's own. */
  predicate OneSource(m: Memory, a: Node, b: Node) {
    IsListed(m, a) && IsListed(m, b) && a != LAST && b != LAST && a != b && a in m.link && b in m.link ==>
      m.link[a].to != m.link[b].to
  }

  ghost predicate MemoryOk(m: Memory) {
    && IsListed(m, HEAD) && IsListed(m, LAST) && HEAD in m.link && LAST in m.link
    && !m.link[HEAD].marked && m.link[LAST] == Link(LAST, false)
    && (forall n {:trigger NodeOk(m, n)} :: NodeOk(m, n))
    && (forall a, b {:trigger OneSource(m, a, b)} :: OneSource(m, a, b))
  }

  ghost predicate LifeStep(t: nat, l: Life, l': Life) {
    match l
    case Private(o) => if o == t then l'.Private? || l'.Listed? || l'.Discarded? else l' == l
    case Listed => l'.Listed? || l' == Out(t)
    case Out(o) => l' == l || (o == t && l'.Freed?)
    case Freed => l' == l
    case Discarded => l' == l
  }

  ghost predicate NodeEvolves(m: Memory, m': Memory, t: nat, n: Node) {
    && (n in m.life ==> n in m'.life && LifeStep(t, m.life[n], m'.life[n]))
    && (n in m'.life && n !in m.life ==> m'.life[n] == Private(t))
    && (n in m.link && n in m.life ==> n in m'.link)
    && (n in m.link && n in m.life && (m.link[n].marked || (m.life[n].Private? && m.life[n].owner != t)) ==>
          m'.link[n] == m.link[n])
  }

  /** What a step of t promises to all other threads. */
  ghost predicate Evolves(m: Memory, m': Memory, t: nat) {
    forall n {:trigger NodeEvolves(m, m', t, n)} :: NodeEvolves(m, m', t, n)
  }

  // ---------------------------------------------------------------- every write keeps it

  lemma EmptyOk()
    ensures MemoryOk(EMPTY)
  {
  }

  lemma NothingEvolves(m: Memory, t: nat)
    ensures Evolves(m, m, t)
  {
    forall x ensures NodeEvolves(m, m, t, x) {}
  }

  lemma AllocateKeeps(m: Memory, t: nat, n: Node, k: int)
    requires MemoryOk(m) && n !in m.life
    ensures MemoryOk(Allocate(m, t, n, k)) && Evolves(m, Allocate(m, t, n, k), t)
  {
    var m' := Allocate(m, t, n, k);
    forall x ensures NodeOk(m', x) { assert NodeOk(m, x); }
    forall a, b ensures OneSource(m', a, b) { assert OneSource(m, a, b); }
    forall x ensures NodeEvolves(m, m', t, x) {}
  }

  lemma StoreOwnKeeps(m: Memory, t: nat, own: Node, below: Node)
    requires MemoryOk(m) && own in m.life && m.life[own] == Private(t)
    ensures MemoryOk(StoreOwn(m, own, below)) && Evolves(m, StoreOwn(m, own, below), t)
  {
    var m' := StoreOwn(m, own, below);
    forall x ensures NodeOk(m', x) { assert NodeOk(m, x); }
    forall a, b ensures OneSource(m', a, b) { assert OneSource(m, a, b); }
    forall x ensures NodeEvolves(m, m', t, x) { assert NodeOk(m, x); }
  }

  lemma LinkInKeeps(m: Memory, t: nat, pred: Node, own: Node)
    requires MemoryOk(m) && IsListed(m, pred) && pred != LAST
    requires own in m.life && m.life[own] == Private(t) && pred in m.link && own in m.link
    requires !m.link[pred].marked && m.link[own] == m.link[pred]
    ensures MemoryOk(LinkIn(m, pred, own)) && Evolves(m, LinkIn(m, pred, own), t)
  {
    var m' := LinkIn(m, pred, own);
    assert NodeOk(m, pred);
    forall x ensures NodeOk(m', x) { assert NodeOk(m, x); }
    forall a, b ensures OneSource(m', a, b) {
      assert OneSource(m, a, b) && OneSource(m, a, pred) && OneSource(m, pred, b) && NodeOk(m, a) && NodeOk(m, b);
    }
    forall x ensures NodeEvolves(m, m', t, x) {}
  }

  lemma MarkOutKeeps(m: Memory, t: nat, curr: Node)
    requires MemoryOk(m) && curr in m.link && curr in m.life && !m.link[curr].marked && curr != LAST && curr != HEAD
    requires !m.life[curr].Private?
    ensures MemoryOk(MarkOut(m, curr)) && Evolves(m, MarkOut(m, curr), t)
  {
    var m' := MarkOut(m, curr);
    forall x ensures NodeOk(m', x) { assert NodeOk(m, x); }
    forall a, b ensures OneSource(m', a, b) { assert OneSource(m, a, b); }
    forall x ensures NodeEvolves(m, m', t, x) {}
  }

  /** Unlinking a marked node from the one place that links to it. */
  lemma UnlinkKeeps(m: Memory, t: nat, pred: Node, curr: Node)
    requires MemoryOk(m) && IsListed(m, pred) && pred != LAST && pred in m.link && m.link[pred] == Link(curr, false)
    requires curr in m.link && m.link[curr].marked && curr != LAST
    ensures IsListed(m, curr)
    ensures MemoryOk(Unlink(m, pred, curr, m.link[curr].to, t)) && Evolves(m, Unlink(m, pred, curr, m.link[curr].to, t), t)
  {
    var m' := Unlink(m, pred, curr, m.link[curr].to, t);
    assert NodeOk(m, pred) && NodeOk(m, curr) && OneSource(m, pred, curr);
    forall x ensures NodeOk(m', x) { assert NodeOk(m, x) && OneSource(m, x, pred) && OneSource(m, x, curr); }
    forall a, b ensures OneSource(m', a, b) {
      assert OneSource(m, a, b) && OneSource(m, a, curr) && OneSource(m, curr, b) && NodeOk(m, a) && NodeOk(m, b);
    }
    forall x ensures NodeEvolves(m, m', t, x) {}
  }

  lemma FreeKeeps(m: Memory, t: nat, n: Node)
    requires MemoryOk(m) && n in m.life && m.life[n] == Out(t)
    ensures MemoryOk(Free(m, n)) && Evolves(m, Free(m, n), t)
  {
    var m' := Free(m, n);
    forall x ensures NodeOk(m', x) { assert NodeOk(m, x); }
    forall a, b ensures OneSource(m', a, b) { assert OneSource(m, a, b); }
    forall x ensures NodeEvolves(m, m', t, x) {}
  }

  lemma DiscardKeeps(m: Memory, t: nat, n: Node)
    requires MemoryOk(m) && n in m.life && m.life[n] == Private(t)
    ensures MemoryOk(Discard(m, n)) && Evolves(m, Discard(m, n), t)
  {
    var m' := Discard(m, n);
    forall x ensures NodeOk(m', x) { assert NodeOk(m, x); }
    forall a, b ensures OneSource(m', a, b) { assert OneSource(m, a, b); }
    forall x ensures NodeEvolves(m, m', t, x) {}
  }
}
