/** The first-in-first-out queue that the hazard-pointer queue and the era queue are: its
    contents are the nodes after head up to tail, an enqueue takes effect when tail is swung. */
module TailFifo {
  import opened QueueMemory

  /** The values in the queue: the nodes after head, up to tail. */
  ghost function Contents(m: Memory): seq<Node> {
    if m.hi <= m.ti < |m.order| then UpToTail(m) else []
  }

  /** The queue is left alone; or one value is appended, and then tail is swung to that node;
      or the first value is removed, and then head is moved to that node. */
  ghost predicate FifoStep(m: Memory, m': Memory) {
    if m'.tail != m.tail then
      Contents(m') == Contents(m) + [m'.tail] && m'.head == m.head && m'.ti == m.ti + 1
    else if m'.head != m.head then
      Contents(m) == [m'.head] + Contents(m') && m'.ti == m.ti
    else
      Contents(m') == Contents(m) && m'.ti == m.ti
  }

  lemma LinkIsQuiet(m: Memory, last: Node, n: Node)
    requires MemoryOk(m)
    ensures FifoStep(m, LinkAfter(m, last, n))
  {
    assert UpToTail(LinkAfter(m, last, n)) == UpToTail(m);
  }

  lemma SwingAppends(m: Memory, n: Node)
    requires MemoryOk(m) && At(m, n, m.ti + 1)
    ensures FifoStep(m, SwingTail(m, n))
  {
    SwingKeeps(m, 0, 0, n);
  }

  lemma MoveRemoves(m: Memory, n: Node, t: nat)
    requires MemoryOk(m) && At(m, n, m.hi + 1) && m.hi < m.ti
    ensures FifoStep(m, MoveHead(m, n, 0, t))
  {
    MoveHeadKeeps(m, 0, t, n);
  }

  /** The values that tail was swung to, in order, up to moment i of a trace. */
  ghost function Enqueued(trace: seq<Memory>, i: nat): seq<Node>
    requires i < |trace|
  {
    if i == 0 then []
    else Enqueued(trace, i - 1) + (if trace[i].tail != trace[i - 1].tail then [trace[i].tail] else [])
  }

  /** The values that head was moved to, in order, up to moment i of a trace. */
  ghost function Dequeued(trace: seq<Memory>, i: nat): seq<Node>
    requires i < |trace|
  {
    if i == 0 then []
    else Dequeued(trace, i - 1) + (if trace[i].head != trace[i - 1].head then [trace[i].head] else [])
  }

  lemma Requeue(e: seq<Node>, d: seq<Node>, c: seq<Node>, c': seq<Node>, h: seq<Node>, n: seq<Node>)
    requires e == d + c && c + n == h + c'
    ensures e + n == (d + h) + c'
  {
    assert (d + c) + n == d + (c + n);
  }

  /** First in, first out: what was enqueued is what was dequeued followed by the contents,
      in this order, at every moment of a trace of such steps. */
  lemma {:induction false} FifoLaw(trace: seq<Memory>, i: nat)
    requires i < |trace| && Contents(trace[0]) == []
    requires forall j | 0 <= j < i :: FifoStep(trace[j], trace[j + 1])
    ensures Enqueued(trace, i) == Dequeued(trace, i) + Contents(trace[i])
  {
    hide Contents;
    if i > 0 {
      FifoLaw(trace, i - 1);
      assert FifoStep(trace[i - 1], trace[i - 1 + 1]);
      var n := if trace[i].tail != trace[i - 1].tail then [trace[i].tail] else [];
      var h := if trace[i].head != trace[i - 1].head then [trace[i].head] else [];
      assert Contents(trace[i - 1]) + n == h + Contents(trace[i]);
      hide FifoStep;
      Requeue(Enqueued(trace, i - 1), Dequeued(trace, i - 1), Contents(trace[i - 1]), Contents(trace[i]), h, n);
    }
  }
}
