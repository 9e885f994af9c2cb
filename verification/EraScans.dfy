/** What a scan of `retireNode` in `hazarderas/hazarderas.hpp` does to the retired list while other
    threads write to the table of eras: the exact pass of `Sweeping`, with the verdict that each node
    got when it was looked at. */
module EraScans {
  import opened Sweeping
  import Eras

  /** In one of the tables slot j of thread k was empty or showed an era outside lo..hi. */
  ghost predicate SeenOutside(tables: seq<seq<seq<nat>>>, k: nat, j: nat, lo: nat, hi: nat) {
    exists x | 0 <= x < |tables| ::
      k < |tables[x]| && j < |tables[x][k]| && (tables[x][k][j] == 0 || tables[x][k][j] < lo || tables[x][k][j] > hi)
  }

  ghost predicate SeenNowhere(tables: seq<seq<seq<nat>>>, threads: nat, slots: nat, lo: nat, hi: nat) {
    forall k: nat, j: nat | k < threads && j < slots :: SeenOutside(tables, k, j, lo, hi)
  }

  ghost predicate Shows(table: seq<seq<nat>>, lo: nat, hi: nat) {
    exists k, j | 0 <= k < |table| && 0 <= j < |table[k]| :: table[k][j] != 0 && lo <= table[k][j] <= hi
  }

  /** In one of the tables some slot showed an era in lo..hi. */
  ghost predicate SeenInside(tables: seq<seq<seq<nat>>>, lo: nat, hi: nat) {
    exists x | 0 <= x < |tables| :: Shows(tables[x], lo, hi)
  }

  /** The eras of the nodes of the list are these. */
  predicate Dated(e: Eras.Table, birth: map<Node, nat>, del: map<Node, nat>, list: seq<Node>) {
    forall i | 0 <= i < |list| ::
      && list[i] in birth && list[i] in del && list[i] in e.birth && list[i] in e.del
      && e.birth[list[i]] == birth[list[i]] && e.del[list[i]] == del[list[i]]
  }

  lemma DatedStays(e: Eras.Table, e': Eras.Table, birth: map<Node, nat>, del: map<Node, nat>, list: seq<Node>)
    requires Dated(e, birth, del, list) && Eras.Advances(e, e')
    ensures Dated(e', birth, del, list)
  {
    forall i | 0 <= i < |list| ensures Eras.NodeAdvances(e, e', list[i]) {}
  }

  /** The verdict on place q is what the tables say, if the place was looked at. */
  ghost predicate JudgedRight(
    tables: seq<seq<seq<nat>>>, threads: nat, slots: nat, birth: map<Node, nat>, del: map<Node, nat>, list: seq<Node>, v: seq<bool>, q: nat)
    requires q < |list| == |v| && list[q] in birth && list[q] in del
  {
    && (v[q] ==> (q > 0 ==> !v[q - 1]) && SeenNowhere(tables, threads, slots, birth[list[q]], del[list[q]]))
    && (!v[q] && (q > 0 ==> !v[q - 1]) ==> SeenInside(tables, birth[list[q]], del[list[q]]))
  }

  /** A scan of the list under way, while the table was what `tables` says, with its verdicts up to
      place p. */
  ghost predicate InScan(
    tables: seq<seq<seq<nat>>>, threads: nat, slots: nat, birth: map<Node, nat>, del: map<Node, nat>, list: seq<Node>,
    v: seq<bool>, p: nat, r: Eras.Retirer)
  {
    && r.cursor.Scanning? && r.count == |r.list| && (r.cursor.k < threads ==> r.cursor.j < slots)
    && AtPlace(list, v, p, r.list, r.cursor.i)
    && (forall q | 0 <= q < |list| :: list[q] in birth && list[q] in del)
    && (forall q: nat | q < |list| && q < p :: JudgedRight(tables, threads, slots, birth, del, list, v, q))
    && (forall q | p <= q < |v| :: !v[q])
    && (r.cursor.i < |r.list| && p < |list| ==>
          && (p > 0 ==> !v[p - 1])
          && forall k: nat, j: nat | k < threads && j < slots && Eras.Passed(r.cursor, k, j) ::
               SeenOutside(tables, k, j, birth[list[p]], del[list[p]]))
  }

  lemma ScanStarts(e: Eras.Table, threads: nat, slots: nat, birth: map<Node, nat>, del: map<Node, nat>, list: seq<Node>)
    requires Dated(e, birth, del, list) && slots > 0
    ensures InScan([], threads, slots, birth, del, list, seq(|list|, _ => false), 0, Eras.Retirer(list, |list|, Eras.Scanning(0, 0, 0)))
  {
    Starts(list, seq(|list|, _ => false));
  }

  lemma SeenStays(tables: seq<seq<seq<nat>>>, table: seq<seq<nat>>)
    ensures forall k: nat, j: nat, lo, hi | SeenOutside(tables, k, j, lo, hi) :: SeenOutside(tables + [table], k, j, lo, hi)
    ensures forall lo, hi | SeenInside(tables, lo, hi) :: SeenInside(tables + [table], lo, hi)
  {
    var more := tables + [table];
    forall k: nat, j: nat, lo, hi | SeenOutside(tables, k, j, lo, hi) ensures SeenOutside(more, k, j, lo, hi) {
      var x :| 0 <= x < |tables| && k < |tables[x]| && j < |tables[x][k]|
               && (tables[x][k][j] == 0 || tables[x][k][j] < lo || tables[x][k][j] > hi);
      assert more[x] == tables[x];
    }
    forall lo, hi | SeenInside(tables, lo, hi) ensures SeenInside(more, lo, hi) {
      var x :| 0 <= x < |tables| && Shows(tables[x], lo, hi);
      assert more[x] == tables[x];
    }
  }

  /** Another thread takes a step. */
  lemma ScanWaits(
    tables: seq<seq<seq<nat>>>, table: seq<seq<nat>>, threads: nat, slots: nat, birth: map<Node, nat>, del: map<Node, nat>,
    list: seq<Node>, v: seq<bool>, p: nat, r: Eras.Retirer)
    requires InScan(tables, threads, slots, birth, del, list, v, p, r)
    ensures InScan(tables + [table], threads, slots, birth, del, list, v, p, r)
  {
    SeenStays(tables, table);
    assert |list| == |v|;
    hide SeenOutside, SeenInside, AtPlace;
    forall q: nat | q < |list| && q < p ensures JudgedRight(tables + [table], threads, slots, birth, del, list, v, q) {
      assert JudgedRight(tables, threads, slots, birth, del, list, v, q);
    }
  }

  /** One load of a slot. */
  lemma ScanProbes(
    tables: seq<seq<seq<nat>>>, e: Eras.Table, slots: nat, birth: map<Node, nat>, del: map<Node, nat>,
    list: seq<Node>, v: seq<bool>, p: nat, r: Eras.Retirer) returns (p': nat)
    requires InScan(tables, |e.rows|, slots, birth, del, list, v, p, r) && Dated(e, birth, del, list)
    requires r.cursor.i < |r.list| && r.cursor.k < |e.rows| && (forall k | 0 <= k < |e.rows| :: |e.rows[k]| == slots)
    ensures InScan(tables + [e.rows], |e.rows|, slots, birth, del, list, v, p', Eras.Reclaim(e, r))
    ensures Eras.Reclaim(e, r).list == r.list
  {
    var c, more := r.cursor, tables + [e.rows];
    ScanWaits(tables, e.rows, |e.rows|, slots, birth, del, list, v, p, r);
    NodeAtPlace(list, v, p, r.list, c.i);
    var n := list[p];
    assert more[|tables|] == e.rows;
    var era := e.rows[c.k][c.j];
    assert list[p] == r.list[c.i] && e.birth[n] == birth[n] && e.del[n] == del[n];
    if Eras.Blocks(e, era, n) {
      p' := p + 1;
      assert Shows(e.rows, birth[n], del[n]);
      assert SeenInside(more, birth[n], del[n]);
      Passes(list, v, p, r.list, c.i);
      assert JudgedRight(more, |e.rows|, slots, birth, del, list, v, p);
    } else {
      p' := p;
      assert SeenOutside(more, c.k, c.j, birth[n], del[n]);
    }
    hide SeenOutside, SeenInside, AtPlace, JudgedRight, Shows, Dated;
  }

  /** The verdicts so far stand when the next node is deleted, and the place after it is not looked
      at. */
  lemma JudgedAgain(
    tables: seq<seq<seq<nat>>>, threads: nat, slots: nat, birth: map<Node, nat>, del: map<Node, nat>,
    list: seq<Node>, v: seq<bool>, w: seq<bool>, p: nat)
    requires p < |list| == |v| == |w| && (forall q | 0 <= q < |list| :: list[q] in birth && list[q] in del)
    requires forall q: nat | q < |list| && q < p :: JudgedRight(tables, threads, slots, birth, del, list, v, q)
    requires (p > 0 ==> !v[p - 1]) && SeenNowhere(tables, threads, slots, birth[list[p]], del[list[p]])
    requires (forall q | p <= q < |v| :: !v[q]) && w == v[p := true]
    ensures forall q: nat | q < |list| && q <= p + 1 :: JudgedRight(tables, threads, slots, birth, del, list, w, q)
  {
    hide SeenNowhere, SeenInside;
    forall q: nat | q < |list| && q <= p + 1 ensures JudgedRight(tables, threads, slots, birth, del, list, w, q) {
      if q < p { assert JudgedRight(tables, threads, slots, birth, del, list, v, q); }
    }
  }

  lemma DeleteMoves(list: seq<Node>, v: seq<bool>, w: seq<bool>, p: nat, cur: seq<Node>, i: nat)
    requires AtPlace(list, v, p, cur, i) && i < |cur| && p < |list| == |w| && w == v[p := true]
    ensures AtPlace(list, w, NextPlace(|list|, p, true), cur[..i] + cur[i + 1..], i + 1)
  {
    SameSoFar(list, v, w, p);
    hide KeptTo, FreedTo, FreedAt;
    Erases(list, w, p, cur, i);
  }

  /** All slots have been read, none of them with an era in the life of the node. */
  lemma AllSlotsRead(
    tables: seq<seq<seq<nat>>>, threads: nat, slots: nat, birth: map<Node, nat>, del: map<Node, nat>,
    list: seq<Node>, v: seq<bool>, p: nat, r: Eras.Retirer)
    requires InScan(tables, threads, slots, birth, del, list, v, p, r) && r.cursor.i < |r.list| && r.cursor.k >= threads
    ensures p < |list| == |v| && r.list[r.cursor.i] == list[p] && (forall q | 0 <= q < |list| :: list[q] in birth && list[q] in del)
    ensures (p > 0 ==> !v[p - 1]) && SeenNowhere(tables, threads, slots, birth[list[p]], del[list[p]])
    ensures AtPlace(list, v, p, r.list, r.cursor.i) && r.count == |r.list| && forall q | p <= q < |v| :: !v[q]
    ensures forall q: nat | q < |list| && q < p :: JudgedRight(tables, threads, slots, birth, del, list, v, q)
  {
    NodeAtPlace(list, v, p, r.list, r.cursor.i);
    hide SeenOutside, JudgedRight;
  }

  /** The node is deleted. */
  lemma ScanDeletes(
    tables: seq<seq<seq<nat>>>, e: Eras.Table, slots: nat, birth: map<Node, nat>, del: map<Node, nat>,
    list: seq<Node>, v: seq<bool>, p: nat, r: Eras.Retirer) returns (v': seq<bool>, p': nat)
    requires InScan(tables, |e.rows|, slots, birth, del, list, v, p, r) && Eras.DeletesNow(e, r) && slots > 0
    ensures InScan(tables + [e.rows], |e.rows|, slots, birth, del, list, v', p', Eras.Reclaim(e, r))
    ensures p < |list| == |v| == |v'| && r.list[r.cursor.i] == list[p] && v' == v[p := true] && p < p'
  {
    var more := tables + [e.rows];
    hide InScan;
    ScanWaits(tables, e.rows, |e.rows|, slots, birth, del, list, v, p, r);
    AllSlotsRead(more, |e.rows|, slots, birth, del, list, v, p, r);
    v', p' := v[p := true], NextPlace(|list|, p, true);
    JudgedAgain(more, |e.rows|, slots, birth, del, list, v, v', p);
    DeleteMoves(list, v, v', p, r.list, r.cursor.i);
    NextJudged(more, e, slots, birth, del, list, v', p, p', r);
  }

  lemma NextJudged(
    more: seq<seq<seq<nat>>>, e: Eras.Table, slots: nat, birth: map<Node, nat>, del: map<Node, nat>,
    list: seq<Node>, w: seq<bool>, p: nat, p': nat, r: Eras.Retirer)
    requires p < |list| == |w| && p' == NextPlace(|list|, p, true) && Eras.DeletesNow(e, r) && r.count == |r.list| && slots > 0
    requires forall q | 0 <= q < |list| :: list[q] in birth && list[q] in del
    requires forall q: nat | q < |list| && q <= p + 1 :: JudgedRight(more, |e.rows|, slots, birth, del, list, w, q)
    requires forall q | p < q < |w| :: !w[q]
    requires AtPlace(list, w, p', r.list[..r.cursor.i] + r.list[r.cursor.i + 1..], r.cursor.i + 1)
    ensures InScan(more, |e.rows|, slots, birth, del, list, w, p', Eras.Reclaim(e, r))
  {
    hide SeenOutside, JudgedRight, AtPlace;
  }

  /** When the scan is over its verdicts are complete. */
  lemma ScanEnds(
    tables: seq<seq<seq<nat>>>, threads: nat, slots: nat, birth: map<Node, nat>, del: map<Node, nat>, list: seq<Node>,
    v: seq<bool>, p: nat, r: Eras.Retirer)
    requires InScan(tables, threads, slots, birth, del, list, v, p, r) && r.cursor.i >= |r.list|
    ensures p == |list| == |v| && r.list == Kept(list, v)
    ensures forall q: nat | q < |list| :: JudgedRight(tables, threads, slots, birth, del, list, v, q)
  {
    Ends(list, v, p, r.list, r.cursor.i);
  }
}
