/** The scan of `retireNode` in `hazardpointer/hazardpointer.hpp` as steps: one load of the
    hazard table at a time, while other threads write to the table.  What it sees of one
    published slot decides whether the node in that slot can be deleted. */
module Hazards {

  type Node = nat

  /** Where a thread is in the scan: list position i, hazard slot j of thread k, and the flag
      `deleteNode`, which is set once per call and never set again. */
  datatype Cursor = Resting | Scanning(i: nat, k: nat, j: nat, flag: bool)

  /** The retired list of one thread, its counter, and its scan. */
  datatype Retirer = Retirer(list: seq<Node>, count: int, cursor: Cursor)

  /** `push_back`, counter, and the start of the loop. */
  function Retire(r: Retirer, n: Node): Retirer {
    Retirer(r.list + [n], r.count + 1, Scanning(0, 0, 0, true))
  }

  predicate Finished(r: Retirer) {
    r.cursor.Scanning? && r.cursor.i >= |r.list|
  }

  /** All slots have been compared with list[i]. */
  predicate Deciding(r: Retirer, threads: nat) {
    r.cursor.Scanning? && r.cursor.i < |r.list| && r.cursor.k >= threads
  }

  predicate DeletesNow(r: Retirer, threads: nat) {
    Deciding(r, threads) && r.cursor.flag
  }

  /** One comparison of list[i] with the slot under the cursor, which holds v. */
  function Compare(r: Retirer, v: Node, slots: nat): Retirer
    requires r.cursor.Scanning? && r.cursor.i < |r.list|
  {
    var c := r.cursor;
    r.(cursor := if v == r.list[c.i] then c.(k := c.k + 1, j := 0, flag := false)
                 else if c.j + 1 < slots then c.(j := c.j + 1)
                 else c.(k := c.k + 1, j := 0))
  }

  /** `erase` and `delete`, or keep; either way the index moves on. */
  function Decide(r: Retirer): Retirer
    requires r.cursor.Scanning? && r.cursor.i < |r.list|
  {
    var c := r.cursor;
    if c.flag then
      Retirer(r.list[..c.i] + r.list[c.i + 1..], r.count - 1, Scanning(c.i + 1, 0, 0, true))
    else
      r.(cursor := Scanning(c.i + 1, 0, 0, false))
  }

  /** The cursor has already read slot j of thread t for the current node. */
  predicate Passed(c: Cursor, t: nat, j: nat)
    requires c.Scanning?
  {
    t < c.k || (t == c.k && j < c.j)
  }

  /** The scan has not passed slot j of thread t while n, published there, looks deletable. */
  predicate NotMissed(r: Retirer, t: nat, j: nat, n: Node) {
    r.cursor.Scanning? && r.cursor.i < |r.list| && r.list[r.cursor.i] == n && r.cursor.flag ==> !Passed(r.cursor, t, j)
  }

  /** A scan that reads the table slot by slot does not miss a node that stays published. */
  lemma CompareKeeps(r: Retirer, v: Node, slots: nat, t: nat, j: nat, n: Node)
    requires r.cursor.Scanning? && r.cursor.i < |r.list|
    requires NotMissed(r, t, j, n) && j < slots
    requires r.cursor.k == t && r.cursor.j == j ==> v == n
    ensures NotMissed(Compare(r, v, slots), t, j, n)
  {
  }

  lemma PublishedIsKept(r: Retirer, threads: nat, t: nat, j: nat, n: Node)
    requires NotMissed(r, t, j, n) && t < threads && DeletesNow(r, threads)
    ensures r.list[r.cursor.i] != n
  {
  }

  /** Erasing one entry of a list without repetitions. */
  lemma EraseOne(list: seq<Node>, i: nat)
    requires i < |list|
    requires forall a, b | 0 <= a < b < |list| :: list[a] != list[b]
    ensures var e := list[..i] + list[i + 1..];
            && |e| == |list| - 1
            && (forall a, b | 0 <= a < b < |e| :: e[a] != e[b])
            && (forall a | 0 <= a < |e| :: e[a] in list && e[a] != list[i])
  {
  }

  // ---------------------------------------------------------------- what a scan does to the list

  /** The first h even places of the list are erased, and nothing else. */
  ghost predicate Halved(list: seq<Node>, h: nat, cur: seq<Node>) {
    && 2 * h <= |list| + 1 && |cur| == |list| - h
    && forall i | 0 <= i < |cur| :: cur[i] == list[if i < h then 2 * i + 1 else i + h]
  }

  /** In one of the tables slot j of thread k held something else than n. */
  ghost predicate SeenWithout(tables: seq<seq<seq<Node>>>, k: nat, j: nat, n: Node) {
    exists x | 0 <= x < |tables| :: k < |tables[x]| && j < |tables[x][k]| && tables[x][k][j] != n
  }

  /** In one of the tables some slot held n. */
  ghost predicate SeenWith(tables: seq<seq<seq<Node>>>, n: Node) {
    exists x | 0 <= x < |tables| :: Holds(tables[x], n)
  }

  ghost predicate Holds(table: seq<seq<Node>>, n: Node) {
    exists k, j | 0 <= k < |table| && 0 <= j < |table[k]| :: table[k][j] == n
  }

  /** All slots have been seen without n. */
  ghost predicate SeenNowhere(tables: seq<seq<seq<Node>>>, threads: nat, slots: nat, n: Node) {
    forall k: nat, j: nat | k < threads && j < slots :: SeenWithout(tables, k, j, n)
  }

  /** A scan of the list under way, while the table was what `tables` says: so far it has freed the
      first h even places.  It goes on, or it has met a hazard and will free nothing more. */
  ghost predicate InScan(tables: seq<seq<seq<Node>>>, threads: nat, slots: nat, list: seq<Node>, h: nat, r: Retirer) {
    && r.cursor.Scanning? && r.count == |r.list| && Halved(list, h, r.list)
    && (forall d: nat | d < h && 2 * d < |list| :: SeenNowhere(tables, threads, slots, list[2 * d]))
    && if r.cursor.flag then
         && r.cursor.i == h
         && (2 * h < |list| ==>
               forall k: nat, j: nat | k < threads && j < slots && Passed(r.cursor, k, j) :: SeenWithout(tables, k, j, list[2 * h]))
       else 2 * h < |list| && SeenWith(tables, list[2 * h])
  }

  lemma ScanStarts(threads: nat, slots: nat, list: seq<Node>)
    ensures InScan([], threads, slots, list, 0, Retirer(list, |list|, Scanning(0, 0, 0, true)))
  {
  }

  lemma SeenStays(tables: seq<seq<seq<Node>>>, table: seq<seq<Node>>)
    ensures forall k: nat, j: nat, n | SeenWithout(tables, k, j, n) :: SeenWithout(tables + [table], k, j, n)
    ensures forall n | SeenWith(tables, n) :: SeenWith(tables + [table], n)
  {
    var more := tables + [table];
    forall k: nat, j: nat, n | SeenWithout(tables, k, j, n) ensures SeenWithout(more, k, j, n) {
      var x :| 0 <= x < |tables| && k < |tables[x]| && j < |tables[x][k]| && tables[x][k][j] != n;
      assert more[x] == tables[x];
    }
    forall n | SeenWith(tables, n) ensures SeenWith(more, n) {
      var x :| 0 <= x < |tables| && Holds(tables[x], n);
      assert more[x] == tables[x];
    }
  }

  /** Another thread takes a step. */
  lemma ScanWaits(tables: seq<seq<seq<Node>>>, table: seq<seq<Node>>, threads: nat, slots: nat, list: seq<Node>, h: nat, r: Retirer)
    requires InScan(tables, threads, slots, list, h, r)
    ensures InScan(tables + [table], threads, slots, list, h, r)
  {
    SeenStays(tables, table);
    hide SeenWithout, SeenWith, Halved;
  }

  lemma ScanCompares(tables: seq<seq<seq<Node>>>, table: seq<seq<Node>>, slots: nat, list: seq<Node>, h: nat, r: Retirer)
    requires InScan(tables, |table|, slots, list, h, r) && r.cursor.i < |r.list| && r.cursor.k < |table|
    requires |table[r.cursor.k]| == slots && r.cursor.j < slots
    ensures InScan(tables + [table], |table|, slots, list, h, Compare(r, table[r.cursor.k][r.cursor.j], slots))
  {
    var c, v, more := r.cursor, table[r.cursor.k][r.cursor.j], tables + [table];
    SeenStays(tables, table);
    assert more[|tables|] == table;
    assert Holds(table, v);
    if c.flag {
      assert r.list[c.i] == list[2 * h];
      assert v == r.list[c.i] ==> SeenWith(more, list[2 * h]);
      assert v != r.list[c.i] ==> SeenWithout(more, c.k, c.j, list[2 * h]);
    }
    hide SeenWithout, SeenWith, Halved, Holds;
  }

  lemma HalvedOneMore(list: seq<Node>, h: nat, cur: seq<Node>)
    requires Halved(list, h, cur) && h < |cur|
    ensures Halved(list, h + 1, cur[..h] + cur[h + 1..])
  {
  }

  lemma ScanDecides(tables: seq<seq<seq<Node>>>, table: seq<seq<Node>>, threads: nat, slots: nat, list: seq<Node>, h: nat, r: Retirer)
    requires InScan(tables, threads, slots, list, h, r) && Deciding(r, threads)
    ensures InScan(tables + [table], threads, slots, list, if r.cursor.flag then h + 1 else h, Decide(r))
    ensures r.cursor.flag ==> 2 * h < |list| && r.list[r.cursor.i] == list[2 * h]
  {
    SeenStays(tables, table);
    if r.cursor.flag {
      HalvedOneMore(list, h, r.list);
      assert SeenNowhere(tables + [table], threads, slots, list[2 * h]);
    }
    hide SeenWithout, SeenWith, Halved;
  }

  /** When the scan is over it has freed all even places, or it has met a hazard. */
  lemma ScanEnds(tables: seq<seq<seq<Node>>>, threads: nat, slots: nat, list: seq<Node>, h: nat, r: Retirer)
    requires InScan(tables, threads, slots, list, h, r) && Finished(r)
    ensures Halved(list, h, r.list) && (2 * h < |list| ==> SeenWith(tables, list[2 * h]))
  {
  }
}
