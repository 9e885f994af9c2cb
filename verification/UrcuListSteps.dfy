/** Every write of the list code keeps the memory of the URCU list in order.

    There are four writes that matter: the link of a new node, the mark, the unlink, and the
    store into a node that is not linked yet.  For each of them there is a lemma about the chain
    (neighbours in the list are neighbours in the order of the keys), one about the abstract set
    (the index of unmarked nodes), and one that puts them together with the promise to the other
    threads.  A link needs that the key fits between its neighbours, and an unlink that the node
    is marked, so that its key has left the set before; both are what the traversal has found
    out.  The lemmas about the abstract set also follow its versions: a key that was absent or
    present when the traversal looked stays so in the version that it noted. */
module UrcuListSteps {
  import Urcu
  import opened UrcuList
  import opened UrcuListInvariant

  // ---------------------------------------------------------------- facts about the chain

  /** Nothing is between two neighbours, so a key between them is not in the set. */
  lemma NotBetween(m: Memory, p: Pred, c: Node, k: int)
    requires MemoryOk(m)
    requires p.Root? ==> m.head == c
    requires p.Of? ==> Adjacent(m.key, m.life, p.node, c) && KeyBelow(m.key, p.node, k)
    requires KeyAbove(m.key, c, k)
    ensures k !in m.index
  {
    if k in m.index {
      var n := m.index[k];
      assert Carries(m, n, k);
      if p.Of? {
        assert Below(m.key, p.node, n) && Below(m.key, n, c);
      }
    }
  }

  /** A held place without a mark is in the list, and so is what it points to. */
  lemma PlaceIsLinked(m: Memory, began: nat, p: Pred, c: Node)
    requires MemoryOk(m)
    requires p.Of? ==> Held(m.life, began, p.node) && p.node in m.key
    requires LinkAt(m, p) == Link(c, false)
    ensures IsLinked(m.life, c)
    ensures p.Root? ==> m.head == c
    ensures p.Of? ==> IsLinked(m.life, p.node) && p.node != FIRST && Adjacent(m.key, m.life, p.node, c)
  {
  }

  /** The last version of the history is the abstract set. */
  lemma LatestIsSet(m: Memory)
    requires MemoryOk(m)
    ensures |m.hist| > 0 && m.hist[|m.hist| - 1] == m.hist[Latest(m)] == m.index.Keys
  {
  }

  lemma NothingEvolves(m: Memory, now: nat, t: nat)
    ensures Evolves(m, m, now, t)
  {
  }

  // ---------------------------------------------------------------- what each access does to the memory

  /** The two memories differ in nodes that are not in the list only. */
  ghost predicate SameList(m: Memory, m': Memory) {
    && m'.head == m.head && m'.index == m.index && m'.hist == m.hist
    && (forall x | x in m'.life && m'.life[x].Linked? :: x in m.life && m.life[x].Linked?)
    && (forall x | x in m.life && m.life[x].Linked? :: x in m'.life && m'.life[x].Linked?)
    && (forall x | IsLinked(m.life, x) :: x in m.next && x in m'.next && m'.next[x] == m.next[x])
    && (forall x | IsLinked(m.life, x) :: (x in m'.key <==> x in m.key) && (x in m.key ==> m'.key[x] == m.key[x]))
  }

  lemma SameListKeepsChain(m: Memory, m': Memory)
    requires MemoryOk(m) && SameList(m, m')
    ensures Chain(m'.head, m'.next, m'.key, m'.life)
  {
    hide SetOk, Carries;
    forall x, y | IsLinked(m.life, x) && IsLinked(m.life, y)
      ensures Below(m'.key, x, y) <==> Below(m.key, x, y)
    {
    }
    assert forall x :: IsLinked(m'.life, x) <==> IsLinked(m.life, x);
    hide Below, IsLinked;
    forall x | x in m'.next && IsLinked(m'.life, x) && x != FIRST
      ensures Adjacent(m'.key, m'.life, x, m'.next[x].node)
    {
      assert Adjacent(m.key, m.life, x, m.next[x].node);
    }
  }

  lemma SameListKeepsSet(m: Memory, m': Memory)
    requires MemoryOk(m) && SameList(m, m')
    ensures SetOk(m')
  {
    hide Chain, Adjacent;
    forall j | j in m'.index ensures Carries(m', m'.index[j], j) {
      assert Carries(m, m.index[j], j);
    }
    forall x, j | Carries(m', x, j) ensures j in m'.index && m'.index[j] == x {
      assert Carries(m, x, j);
    }
  }

  lemma AllocateKeeps(m: Memory, now: nat, t: nat, k: int, n: Node)
    requires MemoryOk(m) && n !in m.life && n != LAST
    ensures MemoryOk(Allocate(m, t, k, n)) && Evolves(m, Allocate(m, t, k, n), now, t)
  {
    AllocateEvolves(m, now, t, k, n);
    AllocateKeepsMemory(m, t, k, n);
  }

  lemma AllocateEvolves(m: Memory, now: nat, t: nat, k: int, n: Node)
    requires MemoryOk(m) && n !in m.life
    ensures Evolves(m, Allocate(m, t, k, n), now, t)
  {
    hide Chain, Adjacent, SetOk, Carries;
  }

  lemma AllocateKeepsMemory(m: Memory, t: nat, k: int, n: Node)
    requires MemoryOk(m) && n !in m.life && n != LAST
    ensures MemoryOk(Allocate(m, t, k, n))
  {
    hide Chain, Adjacent, SetOk, Carries;
    var m' := Allocate(m, t, k, n);
    assert SameList(m, m');
    SameListKeepsChain(m, m');
    SameListKeepsSet(m, m');
  }

  lemma StoreOwnKeeps(m: Memory, now: nat, t: nat, th: Thread)
    requires MemoryOk(m) && th.own in m.life && m.life[th.own] == Private(t) && th.curr != LAST
    ensures MemoryOk(StoreOwn(m, th)) && Evolves(m, StoreOwn(m, th), now, t)
  {
    hide Chain, Adjacent, SetOk, Carries;
    var m' := StoreOwn(m, th);
    SameListKeepsChain(m, m');
    SameListKeepsSet(m, m');
  }

  lemma DiscardKeeps(m: Memory, now: nat, t: nat, n: Node)
    requires MemoryOk(m) && n in m.life && m.life[n] == Private(t)
    ensures MemoryOk(m.(life := m.life[n := Discarded])) && Evolves(m, m.(life := m.life[n := Discarded]), now, t)
  {
    hide Chain, Adjacent, SetOk, Carries;
    var m' := m.(life := m.life[n := Discarded]);
    SameListKeepsChain(m, m');
    SameListKeepsSet(m, m');
  }

  lemma FreeKeeps(m: Memory, now: nat, t: nat, n: Node)
    requires MemoryOk(m) && MyUnlinked(m.life, t, n)
    ensures MemoryOk(Free(m, n)) && Evolves(m, Free(m, n), now, t)
  {
    hide Chain, Adjacent, SetOk, Carries;
    var m' := Free(m, n);
    SameListKeepsChain(m, m');
    SameListKeepsSet(m, m');
  }

  /** A place and a marked node right after it: the compare-exchange of `find` and of `remove`. */
  ghost predicate Unlinkable(m: Memory, began: nat, th: Thread) {
    && PredOk(m, began, th) && PredAlive(m, th.pred) && PredCas(m, th)
    && th.curr in m.next && m.next[th.curr] == Link(th.nxt.node, true)
  }

  /** Each node of the chain has one place before it. */
  lemma OnePredecessor(m: Memory, a: Node, p: Pred, c: Node)
    requires MemoryOk(m)
    requires IsLinked(m.life, a) && Adjacent(m.key, m.life, a, c)
    requires p.Root? ==> m.head == c
    requires p.Of? ==> IsLinked(m.life, p.node) && Adjacent(m.key, m.life, p.node, c)
    ensures p == Of(a)
  {
  }

  /** The neighbour of a removed node becomes the neighbour of the place before it. */
  lemma AdjacentSkips(m: Memory, life': map<Node, Life>, p: Node, c: Node, d: Node)
    requires MemoryOk(m)
    requires IsLinked(m.life, p) && Adjacent(m.key, m.life, p, c) && Adjacent(m.key, m.life, c, d)
    requires forall x | IsLinked(life', x) :: IsLinked(m.life, x) && x != c
    requires IsLinked(life', d)
    ensures Adjacent(m.key, life', p, d)
  {
    hide SetOk, Carries;
    forall x | IsLinked(life', x) ensures !(Below(m.key, p, x) && Below(m.key, x, d)) {
      assert x == c || Below(m.key, x, c) || Below(m.key, c, x);
    }
  }

  lemma UnlinkFacts(m: Memory, began: nat, now: nat, t: nat, th: Thread)
    requires MemoryOk(m) && Unlinkable(m, began, th)
    ensures IsLinked(m.life, th.curr) && th.curr != FIRST && Adjacent(m.key, m.life, th.curr, th.nxt.node)
    ensures IsLinked(Unlink(m, now, t, th).life, th.nxt.node) && th.nxt.node != th.curr
    ensures th.pred.Of? ==> IsLinked(m.life, th.pred.node) && th.pred.node != th.curr && th.pred.node != FIRST
    ensures th.pred.Of? ==> Adjacent(m.key, m.life, th.pred.node, th.curr)
    ensures th.pred.Root? ==> m.head == th.curr
    ensures var life' := Unlink(m, now, t, th).life;
            forall x :: IsLinked(life', x) <==> IsLinked(m.life, x) && x != th.curr
  {
    hide SetOk, Carries;
    PlaceIsLinked(m, began, th.pred, th.curr);
    assert Adjacent(m.key, m.life, th.curr, th.nxt.node);
  }

  lemma UnlinkKeepsHead(m: Memory, began: nat, now: nat, t: nat, th: Thread)
    requires MemoryOk(m) && Unlinkable(m, began, th)
    ensures var m' := Unlink(m, now, t, th);
            IsLinked(m'.life, m'.head) && forall x | IsLinked(m'.life, x) :: x == m'.head || Below(m'.key, m'.head, x)
  {
    hide SetOk, Carries;
    UnlinkFacts(m, began, now, t, th);
    var c, d := th.curr, th.nxt.node;
    forall x | IsLinked(m.life, x) && x != c ensures Below(m.key, c, x) ==> x == d || Below(m.key, d, x) {
      assert !(Below(m.key, c, x) && Below(m.key, x, d));
    }
  }

  lemma UnlinkKeepsChain(m: Memory, began: nat, now: nat, t: nat, th: Thread)
    requires MemoryOk(m) && Unlinkable(m, began, th)
    ensures var m' := Unlink(m, now, t, th); Chain(m'.head, m'.next, m'.key, m'.life)
    ensures IsLinked(Unlink(m, now, t, th).life, th.nxt.node) && th.nxt.node != th.curr
    ensures th.pred.Of? ==> IsLinked(m.life, th.pred.node) && th.pred.node != th.curr
    ensures IsLinked(m.life, th.curr) && th.curr != FIRST
    ensures th.pred.Of? ==> var m' := Unlink(m, now, t, th); Adjacent(m'.key, m'.life, th.pred.node, th.nxt.node)
  {
    hide SetOk, Carries, Adjacent, Shape, Below;
    UnlinkFacts(m, began, now, t, th);
    UnlinkKeepsHead(m, began, now, t, th);
    var m' := Unlink(m, now, t, th);
    var c, d := th.curr, th.nxt.node;
    if th.pred.Of? { AdjacentSkips(m, m'.life, th.pred.node, c, d); }
    forall x | x in m'.next && IsLinked(m'.life, x) && x != FIRST
      ensures Adjacent(m'.key, m'.life, x, m'.next[x].node)
    {
      assert th.pred != Of(x) ==> Adjacent(m.key, m.life, x, m.next[x].node);
      if th.pred != Of(x) {
        if m.next[x].node == c { OnePredecessor(m, x, th.pred, c); }
        StaysAdjacent(m.key, m.life, m'.life, x, m.next[x].node, c);
      }
    }
  }

  /** Two neighbours stay neighbours when another node goes. */
  lemma StaysAdjacent(key: map<Node, int>, life: map<Node, Life>, life': map<Node, Life>, a: Node, b: Node, gone: Node)
    requires Adjacent(key, life, a, b) && b != gone
    requires forall x :: IsLinked(life', x) <==> IsLinked(life, x) && x != gone
    ensures Adjacent(key, life', a, b)
  {
  }

  lemma UnlinkKeeps(m: Memory, began: nat, now: nat, t: nat, th: Thread)
    requires MemoryOk(m) && Unlinkable(m, began, th)
    ensures MemoryOk(Unlink(m, now, t, th)) && Evolves(m, Unlink(m, now, t, th), now, t)
    ensures IsLinked(m.life, th.curr)
    ensures KeyAbove(m.key, th.nxt.node, th.k) ==> th.k !in m.index
    ensures IsLinked(Unlink(m, now, t, th).life, th.nxt.node)
  {
    hide Shape, Chain, Adjacent, SetOk, Carries, Evolves;
    UnlinkKeepsChain(m, began, now, t, th);
    UnlinkEvolves(m, began, now, t, th);
    UnlinkKeepsShape(m, began, now, t, th);
    UnlinkKeepsSet(m, began, now, t, th);
    var m' := Unlink(m, now, t, th);
    if KeyAbove(m.key, th.nxt.node, th.k) { NotBetween(m', th.pred, th.nxt.node, th.k); }
  }

  lemma UnlinkEvolves(m: Memory, began: nat, now: nat, t: nat, th: Thread)
    requires MemoryOk(m) && Unlinkable(m, began, th)
    ensures Evolves(m, Unlink(m, now, t, th), now, t)
  {
    hide Chain, Adjacent, SetOk, Carries;
    UnlinkKeepsChain(m, began, now, t, th);
  }

  lemma UnlinkKeepsShape(m: Memory, began: nat, now: nat, t: nat, th: Thread)
    requires MemoryOk(m) && Unlinkable(m, began, th)
    ensures Shape(Unlink(m, now, t, th))
  {
    hide Chain, Adjacent, SetOk, Carries;
    UnlinkKeepsChain(m, began, now, t, th);
  }

  lemma UnlinkKeepsSet(m: Memory, began: nat, now: nat, t: nat, th: Thread)
    requires MemoryOk(m) && Unlinkable(m, began, th)
    ensures SetOk(Unlink(m, now, t, th))
  {
    hide Chain, Adjacent;
    UnlinkKeepsChain(m, began, now, t, th);
    var m' := Unlink(m, now, t, th);
    forall x, j | Carries(m', x, j) ensures j in m'.index && m'.index[j] == x {
      assert Carries(m, x, j);
    }
    forall j | j in m'.index ensures Carries(m', m'.index[j], j) {
      assert Carries(m, m.index[j], j);
    }
  }

  /** A place and the node right after it, with a private node that fits between. */
  ghost predicate Linkable(m: Memory, began: nat, t: nat, th: Thread) {
    && PredOk(m, began, th) && PredAlive(m, th.pred) && PredCas(m, th)
    && KeyAbove(m.key, th.curr, th.k)
    && th.own in m.life && m.life[th.own] == Private(t) && th.own in m.key && m.key[th.own] == th.k
    && th.own in m.next && m.next[th.own] == Link(th.curr, false)
  }

  function Linking(m: Memory, th: Thread): Memory {
    SetLink(m, th.pred, th.own).(life := m.life[th.own := Linked], index := m.index[th.k := th.own],
                                 hist := m.hist + [m.index.Keys + {th.k}])
  }

  /** Where a key that fits between a place and its neighbour stands in the whole list. */
  lemma FitsBetween(m: Memory, p: Pred, n: Node, c: Node, x: Node)
    requires Shape(m) && Chain(m.head, m.next, m.key, m.life) && IsLinked(m.life, x)
    requires p.Root? ==> m.head == c
    requires p.Of? ==> IsLinked(m.life, p.node) && Adjacent(m.key, m.life, p.node, c) && Below(m.key, p.node, n)
    requires IsLinked(m.life, c) && Below(m.key, n, c) && n != FIRST
    ensures Below(m.key, x, n) || Below(m.key, n, x)
    ensures Below(m.key, n, x) ==> x == c || Below(m.key, c, x)
    ensures Below(m.key, x, n) ==> p.Of? && (x == p.node || Below(m.key, x, p.node))
  {
    assert x == c || Below(m.key, x, c) || Below(m.key, c, x);
    if p.Of? {
      assert x == p.node || Below(m.key, x, p.node) || Below(m.key, p.node, x);
    }
  }

  /** A new node leaves neighbours elsewhere in the list neighbours. */
  lemma InsertElsewhere(key: map<Node, int>, life: map<Node, Life>, life': map<Node, Life>, p: Pred, n: Node, x: Node, d: Node)
    requires IsLinked(life, x) && Adjacent(key, life, x, d) && p != Of(x)
    requires forall y | IsLinked(life', y) :: y == n || IsLinked(life, y)
    requires IsLinked(life', d)
    requires p.Of? ==> IsLinked(life, p.node)
    requires Below(key, x, n) ==> p.Of? && (x == p.node || Below(key, x, p.node))
    requires p.Of? && Below(key, n, d) ==> Below(key, p.node, d)
    ensures Adjacent(key, life', x, d)
  {
    hide Below;
  }

  /** A new node is the neighbour of the place before it and of the node after it. */
  lemma InsertHere(key: map<Node, int>, life: map<Node, Life>, life': map<Node, Life>, p: Node, n: Node, c: Node)
    requires Adjacent(key, life, p, c) && FIRST !in key
    requires forall y | IsLinked(life', y) :: y == n || IsLinked(life, y)
    requires IsLinked(life', n) && IsLinked(life', c) && n != FIRST && p != FIRST
    requires Below(key, p, n) && Below(key, n, c)
    ensures Adjacent(key, life', p, n)
    ensures Adjacent(key, life', n, c)
  {
  }

  lemma InsertFirst(key: map<Node, int>, life: map<Node, Life>, life': map<Node, Life>, n: Node, c: Node)
    requires FIRST !in key && forall x | IsLinked(life, x) :: x == c || Below(key, c, x)
    requires forall y | IsLinked(life', y) :: y == n || IsLinked(life, y)
    requires IsLinked(life', c) && n != FIRST && Below(key, n, c)
    ensures Adjacent(key, life', n, c)
    ensures forall x | IsLinked(life', x) :: x == n || Below(key, n, x)
  {
  }

  /** m' is m with the node n between the place p and the node c. */
  ghost predicate Inserted(m: Memory, m': Memory, p: Pred, n: Node, c: Node) {
    && (p.Of? ==> IsLinked(m.life, p.node) && p.node != FIRST && Adjacent(m.key, m.life, p.node, c) && Below(m.key, p.node, n))
    && (p.Root? ==> m.head == c)
    && IsLinked(m.life, c) && Below(m.key, n, c) && n != FIRST && n in m.life && m.life[n].Private?
    && m'.key == m.key && m'.life == m.life[n := Linked]
    && n in m'.next && m'.next[n].node == c
    && (p.Of? ==> m'.next == m.next[p.node := Link(n, false)] && m'.head == m.head)
    && (p.Root? ==> m'.next == m.next && m'.head == n)
  }

  lemma InsertKeepsNeighbours(m: Memory, m': Memory, p: Pred, n: Node, c: Node, x: Node)
    requires Shape(m) && Chain(m.head, m.next, m.key, m.life) && Inserted(m, m', p, n, c)
    requires x in m'.next && IsLinked(m'.life, x) && x != FIRST
    ensures Adjacent(m'.key, m'.life, x, m'.next[x].node)
  {
    if p.Of? { InsertHere(m.key, m.life, m'.life, p.node, n, c); } else { InsertFirst(m.key, m.life, m'.life, n, c); }
    if x != n && p != Of(x) {
      var d := m.next[x].node;
      assert Adjacent(m.key, m.life, x, d);
      FitsBetween(m, p, n, c, x);
      FitsBetween(m, p, n, c, d);
      InsertElsewhere(m.key, m.life, m'.life, p, n, x, d);
    }
  }

  lemma InsertKeepsOrder(m: Memory, m': Memory, p: Pred, n: Node, c: Node)
    requires Shape(m) && Chain(m.head, m.next, m.key, m.life) && Inserted(m, m', p, n, c)
    ensures IsLinked(m'.life, m'.head)
    ensures forall x | IsLinked(m'.life, x) :: x == m'.head || Below(m'.key, m'.head, x)
    ensures forall a, b | IsLinked(m'.life, a) && IsLinked(m'.life, b) :: a == b || Below(m'.key, a, b) || Below(m'.key, b, a)
  {
    forall x | IsLinked(m.life, x) ensures Below(m.key, x, n) || Below(m.key, n, x) {
      FitsBetween(m, p, n, c, x);
    }
    if p.Of? { FitsBetween(m, p, n, c, m.head); } else { InsertFirst(m.key, m.life, m'.life, n, c); }
  }

  lemma LinkKeepsChain(m: Memory, began: nat, t: nat, th: Thread)
    requires MemoryOk(m) && Linkable(m, began, t, th)
    ensures var m' := Linking(m, th); Chain(m'.head, m'.next, m'.key, m'.life)
    ensures th.k !in m.index
    ensures th.pred.Of? ==> th.pred.node != th.own && IsLinked(m.life, th.pred.node)
  {
    PlaceIsLinked(m, began, th.pred, th.curr);
    NotBetween(m, th.pred, th.curr, th.k);
    var m' := Linking(m, th);
    assert Inserted(m, m', th.pred, th.own, th.curr);
    hide SetOk, Shape, Adjacent, Inserted;
    InsertKeepsOrder(m, m', th.pred, th.own, th.curr);
    forall x | x in m'.next && IsLinked(m'.life, x) && x != FIRST
      ensures Adjacent(m'.key, m'.life, x, m'.next[x].node)
    {
      InsertKeepsNeighbours(m, m', th.pred, th.own, th.curr, x);
    }
  }

  lemma LinkKeeps(m: Memory, began: nat, now: nat, t: nat, th: Thread)
    requires MemoryOk(m) && Linkable(m, began, t, th)
    ensures MemoryOk(Linking(m, th)) && Evolves(m, Linking(m, th), now, t)
    ensures th.k !in m.index && Linking(m, th).index.Keys == m.index.Keys + {th.k}
  {
    hide Shape, Chain, Adjacent, SetOk, Carries, Evolves;
    LinkKeepsChain(m, began, t, th);
    LinkEvolves(m, began, now, t, th);
    LinkKeepsShape(m, began, t, th);
    LinkKeepsSet(m, began, t, th);
  }

  lemma LinkEvolves(m: Memory, began: nat, now: nat, t: nat, th: Thread)
    requires MemoryOk(m) && Linkable(m, began, t, th)
    ensures Evolves(m, Linking(m, th), now, t)
  {
    hide Chain, Adjacent, SetOk, Carries;
    LinkKeepsChain(m, began, t, th);
  }

  lemma LinkKeepsShape(m: Memory, began: nat, t: nat, th: Thread)
    requires MemoryOk(m) && Linkable(m, began, t, th)
    ensures Shape(Linking(m, th))
  {
    hide Chain, Adjacent, SetOk, Carries;
    LinkKeepsChain(m, began, t, th);
  }

  lemma LinkKeepsSet(m: Memory, began: nat, t: nat, th: Thread)
    requires MemoryOk(m) && Linkable(m, began, t, th)
    ensures SetOk(Linking(m, th))
  {
    hide Chain, Adjacent;
    LinkKeepsChain(m, began, t, th);
    var m' := Linking(m, th);
    forall x, j | Carries(m', x, j) ensures j in m'.index && m'.index[j] == x {
      if x != th.own { assert Carries(m, x, j); }
    }
    forall j | j in m'.index ensures Carries(m', m'.index[j], j) {
      if j != th.k { assert Carries(m, m.index[j], j); }
    }
  }

  function Marking(m: Memory, th: Thread): Memory {
    m.(next := m.next[th.curr := Link(th.nxt.node, true)], index := m.index - {th.k},
       hist := m.hist + [m.index.Keys - {th.k}])
  }

  lemma MarkKeepsSet(m: Memory, began: nat, th: Thread)
    requires MemoryOk(m) && Held(m.life, began, th.curr)
    requires th.curr in m.key && m.key[th.curr] == th.k
    requires th.curr in m.next && m.next[th.curr] == Link(th.nxt.node, false)
    ensures SetOk(Marking(m, th))
    ensures th.k in m.index && Marking(m, th).index.Keys == m.index.Keys - {th.k}
  {
    hide Chain, Adjacent;
    var m' := Marking(m, th);
    assert Carries(m, th.curr, th.k);
    forall x, j | Carries(m', x, j) ensures j in m'.index && m'.index[j] == x {
      assert Carries(m, x, j);
    }
    forall j | j in m'.index ensures Carries(m', m'.index[j], j) {
      assert Carries(m, m.index[j], j);
    }
  }

  lemma MarkKeepsChain(m: Memory, th: Thread)
    requires MemoryOk(m) && th.curr in m.next && m.next[th.curr] == Link(th.nxt.node, false)
    ensures var m' := Marking(m, th); Chain(m'.head, m'.next, m'.key, m'.life)
  {
    hide SetOk, Carries, Below, IsLinked;
    var m' := Marking(m, th);
    forall x | x in m'.next && IsLinked(m'.life, x) && x != FIRST
      ensures Adjacent(m'.key, m'.life, x, m'.next[x].node)
    {
      assert Adjacent(m.key, m.life, x, m.next[x].node);
    }
  }

  lemma MarkKeeps(m: Memory, began: nat, now: nat, t: nat, th: Thread)
    requires MemoryOk(m) && Held(m.life, began, th.curr)
    requires th.curr in m.key && m.key[th.curr] == th.k
    requires th.curr in m.next && m.next[th.curr] == Link(th.nxt.node, false)
    ensures MemoryOk(Marking(m, th)) && Evolves(m, Marking(m, th), now, t)
    ensures th.k in m.index && Marking(m, th).index.Keys == m.index.Keys - {th.k}
  {
    MarkKeepsSet(m, began, th);
    MarkKeepsChain(m, th);
    MarkEvolves(m, began, now, t, th);
    hide Evolves, Chain, Adjacent, SetOk, Carries;
  }

  lemma MarkEvolves(m: Memory, began: nat, now: nat, t: nat, th: Thread)
    requires MemoryOk(m) && Held(m.life, began, th.curr)
    requires th.curr in m.next && m.next[th.curr] == Link(th.nxt.node, false)
    ensures Evolves(m, Marking(m, th), now, t)
  {
    hide Chain, SetOk;
  }

  // ---------------------------------------------------------------- what each access does to its own thread

  /** Everything a thread may touch is alive. */
  lemma NeverTouchesDead(s: State, t: nat)
    requires Inv(s) && t < |s.threads|
    ensures Safe(s.m, s.threads[t])
  {
    var th, c := s.threads[t], s.u.cells[t];
    assert ThreadOk(s.m, c, t, th);
    if Searching(th.pc) {
      assert Urcu.InSection(s.u, t);
      assert OwnOk(s.m, t, th);
      HeldIsAlive(s, t, th.curr);
      if th.pred.Of? { HeldIsAlive(s, t, th.pred.node); }
    }
    if th.pc.Discard? { assert OwnOk(s.m, t, th); }
    if th.pc.FreeRetired? { assert MyUnlinked(s.m.life, t, th.retired[0]); }
  }

  lemma HeldIsAlive(s: State, t: nat, n: Node)
    requires Inv(s) && Urcu.InSection(s.u, t)
    ensures Held(s.m.life, s.u.cells[t].began, n) ==> Alive(s.m, n)
  {
  }

  lemma ReadHeadStep(m: Memory, began: nat, t: nat, th: Thread)
    requires MemoryOk(m) && ProgressOk(m, began, t, th) && th.pc.ReadHead?
    ensures ProgressOk(m, began, t, th.(pc := CheckHead, pred := Root, curr := m.head, wit := Latest(m)))
  {
    if KeyAbove(m.key, m.head, th.k) { NotBetween(m, Root, m.head, th.k); }
  }

  lemma CheckHeadStep(m: Memory, began: nat, t: nat, th: Thread)
    requires ProgressOk(m, began, t, th) && th.pc.CheckHead?
    ensures ProgressOk(m, began, t, th.(pc := ReadNext)) && ProgressOk(m, began, t, th.(pc := ReadHead))
  {
  }

  /** The two re-reads: only the second one, of the place before, shows that curr was in the
      list when its successor was loaded. */
  lemma RecheckStep(m: Memory, began: nat, t: nat, th: Thread)
    requires ProgressOk(m, began, t, th) && th.pc.RecheckNext?
    ensures ProgressOk(m, began, t, th.(pc := CheckPred)) && ProgressOk(m, began, t, th.(pc := ReadHead))
  {
  }

  lemma CheckPredStep(m: Memory, began: nat, t: nat, th: Thread)
    requires ProgressOk(m, began, t, th) && th.pc.CheckPred?
    ensures ProgressOk(m, began, t, th.(pc := ReadHead))
    ensures IsLinked(m.life, th.curr) ==> ProgressOk(m, began, t, th.(pc := Decide))
  {
  }

  /** What a load of the successor of a linked node shows. */
  lemma Observe(m: Memory, began: nat, th: Thread)
    requires MemoryOk(m) && th.from < |m.hist|
    requires IsLinked(m.life, th.curr) && th.curr != FIRST && th.curr in m.next && th.nxt == m.next[th.curr]
    requires th.seen == Latest(m)
    ensures Observed(m, began, th)
  {
    assert Adjacent(m.key, m.life, th.curr, th.nxt.node);
    if KeyBelow(m.key, th.curr, th.k) && KeyAbove(m.key, th.nxt.node, th.k) {
      NotBetween(m, Of(th.curr), th.nxt.node, th.k);
    }
    if !th.nxt.mark && th.curr in m.key { assert Carries(m, th.curr, m.key[th.curr]); }
  }

  lemma ReadNextStep(m: Memory, began: nat, t: nat, th: Thread)
    requires MemoryOk(m) && ProgressOk(m, began, t, th) && th.pc.ReadNext? && Alive(m, th.curr)
    requires !StopsEarly(m, th)
    ensures ProgressOk(m, began, t, th.(pc := RecheckNext, nxt := m.next[th.curr], seen := Latest(m)))
  {
    var th' := th.(pc := RecheckNext, nxt := m.next[th.curr], seen := Latest(m));
    if IsLinked(m.life, th.curr) { Observe(m, began, th'); }
  }

  /** `find` returns true: the key was present at version wit. */
  lemma ReturnTrue(m: Memory, began: nat, t: nat, th: Thread, th0: Thread)
    requires ProgressOk(m, began, t, th) && th.pc.Decide? && StopsAtKey(m, th) && m.key[th.curr] == th.k
    requires th0 == th.(wit := th.seen)
    ensures ProgressOk(m, began, t, FindReturns(th0, true))
  {
  }

  /** `find` returns false: the key was absent at version wit. */
  lemma ReturnFalse(m: Memory, began: nat, t: nat, th: Thread, th0: Thread)
    requires ProgressOk(m, began, t, th) && (th.pc.Decide? || th.pc.ReadNext?)
    requires th0 == th.(nxt := th0.nxt)
    requires KeyAbove(m.key, th.curr, th.k)
    ensures !th.op.Add? ==> ProgressOk(m, began, t, FindReturns(th0, false))
    ensures th.op.Add? ==> ProgressOk(StoreOwn(m, th), began, t, FindReturns(th0, false))
  {
  }

  lemma MoveOnStep(m: Memory, began: nat, t: nat, th: Thread)
    requires ProgressOk(m, began, t, th) && th.pc.Decide? && !StopsAtKey(m, th) && !th.nxt.mark && Shape(m)
    ensures ProgressOk(m, began, t, th.(pc := ReadNext, pred := Of(th.curr), curr := th.nxt.node, wit := th.seen))
  {
  }

  lemma RetryStep(m: Memory, began: nat, t: nat, th: Thread)
    requires ProgressOk(m, began, t, th) && (th.pc.Decide? || th.pc.LinkCas? || th.pc.MarkCas?)
    ensures ProgressOk(m, began, t, th.(pc := ReadHead))
  {
  }

  lemma HelpStep(m: Memory, m': Memory, began: nat, now: nat, t: nat, th: Thread)
    requires ProgressOk(m, began, t, th) && th.pc.Decide? && began < now && Evolves(m, m', now, t)
    requires m'.hist == m.hist && m'.key == m.key && |m.hist| > 0 && m.hist[|m.hist| - 1] == m.index.Keys
    requires IsLinked(m'.life, th.nxt.node)
    requires KeyAbove(m.key, th.nxt.node, th.k) ==> th.k !in m.index
    requires forall n | n in m.life && m.life[n].Private? :: n in m'.life && m'.life[n] == m.life[n]
    ensures ProgressOk(m', began, t,
                       th.(pc := ReadNext, curr := th.nxt.node, wit := Latest(m),
                           retired := th.retired + [th.curr], count := th.count + 1))
  {
    if th.pred.Of? { HeldStays(m, m', now, t, began, th.pred.node); }
  }

  lemma LinkStep(m: Memory, m': Memory, began: nat, t: nat, th: Thread)
    requires ProgressOk(m, began, t, th) && th.pc.LinkCas?
    requires |m.hist| > 0 && m.hist[|m.hist| - 1] == m.index.Keys
    requires m'.hist == m.hist + [m.index.Keys + {th.k}] && th.k !in m.index
    ensures ProgressOk(m', began, t, th.(pc := Unlock, result := true, wit := |m.hist|))
  {
  }

  lemma MarkStep(m: Memory, m': Memory, began: nat, now: nat, t: nat, th: Thread)
    requires ProgressOk(m, began, t, th) && th.pc.MarkCas? && began < now && Evolves(m, m', now, t)
    requires |m.hist| > 0 && m.hist[|m.hist| - 1] == m.index.Keys
    requires m'.hist == m.hist + [m.index.Keys - {th.k}] && th.k in m.index
    requires th.curr in m'.next && m'.next[th.curr] == Link(th.nxt.node, true)
    ensures ProgressOk(m', began, t, th.(pc := UnlinkCas, result := true, wit := |m.hist|))
  {
    HeldStays(m, m', now, t, began, th.curr);
    if th.pred.Of? { HeldStays(m, m', now, t, began, th.pred.node); }
  }

  lemma UnlinkStep(m: Memory, m': Memory, began: nat, t: nat, th: Thread, victim: Maybe<Node>)
    requires ProgressOk(m, began, t, th) && th.pc.UnlinkCas? && m'.hist == m.hist
    ensures ProgressOk(m', began, t, th.(pc := Unlock, victim := victim))
  {
  }
}
