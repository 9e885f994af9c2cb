/** The protocol of `hazarderas/hazarderas.hpp` as steps: the era clock, the table of published
    eras, the birth and retirement eras of the nodes, and `retireNode` with its scan, one access
    to shared memory at a time.

    `canRemoveNode` reads row `threadID` of the table in every turn of its loop over all threads
    (line 87); the loop is modelled as written for, with the row of the loop variable. */
module Eras {
  import Hazards

  type Node = nat

  /** `rows[t][j]` is slot j of thread t; `birth` and `del` are the fields `newEra` and `delEra`. */
  datatype Table = Table(clock: nat, rows: seq<seq<nat>>, birth: map<Node, nat>, del: map<Node, nat>)

  /** Where a thread is in `retireNode`.  A scan is at list position i, slot j of thread k. */
  datatype Cursor = Resting | Stamping(n: Node) | Testing(era: nat) | Adding | Scanning(i: nat, k: nat, j: nat)

  /** The retired list of one thread, its counter, and its progress. */
  datatype Retirer = Retirer(list: seq<Node>, count: int, cursor: Cursor)

  function EraOf(e: Table, t: nat, j: nat): nat {
    if t < |e.rows| && j < |e.rows[t]| then e.rows[t][j] else 0
  }

  /** The test of `canRemoveNode` for one slot. */
  predicate Blocks(e: Table, era: nat, n: Node) {
    era != 0 && n in e.birth && n in e.del && e.birth[n] <= era <= e.del[n]
  }

  // ---------------------------------------------------------------- the accesses that write

  function Publish(e: Table, t: nat, j: nat, era: nat): Table {
    if t < |e.rows| then e.(rows := e.rows[t := Put(e.rows[t], j, era)]) else e
  }

  function Put(row: seq<nat>, j: nat, era: nat): seq<nat> {
    if j < |row| then row[j := era] else row
  }

  /** A new node gets the era of the clock. */
  function Born(e: Table, n: Node): Table {
    e.(birth := e.birth[n := e.clock])
  }

  /** What one access of `retireNode` does to the table: the retirement era is stamped, or the
      clock is advanced. */
  function ReclaimTable(e: Table, r: Retirer): Table {
    match r.cursor
    case Stamping(n) => e.(del := e.del[n := e.clock])
    case Adding => e.(clock := e.clock + 1)
    case _ => e
  }

  /** No slot blocks list[i]; it is erased and deleted. */
  predicate DeletesNow(e: Table, r: Retirer) {
    r.cursor.Scanning? && r.cursor.i < |r.list| && r.cursor.k >= |e.rows|
  }

  /** One access of `retireNode`. */
  function Reclaim(e: Table, r: Retirer): Retirer {
    match r.cursor
    case Resting => r
    case Stamping(n) => Retirer(r.list + [n], r.count + 1, Testing(e.clock))
    case Testing(era) => r.(cursor := if e.clock == era then Adding else Scanning(0, 0, 0))
    case Adding => r.(cursor := Scanning(0, 0, 0))
    case Scanning(i, k, j) =>
      if i >= |r.list| then r.(cursor := Resting)
      else if k >= |e.rows| then Retirer(r.list[..i] + r.list[i + 1..], r.count - 1, Scanning(i + 1, 0, 0))
      else if Blocks(e, EraOf(e, k, j), r.list[i]) then r.(cursor := Scanning(i + 1, 0, 0))
      else if j + 1 < |e.rows[k]| then r.(cursor := Scanning(i, k, j + 1))
      else r.(cursor := Scanning(i, k + 1, 0))
  }

  // ---------------------------------------------------------------- invariants

  ghost predicate TableOk(e: Table) {
    && e.clock >= 1
    && (forall t, j :: EraOf(e, t, j) <= e.clock)
    && (forall n | n in e.birth :: e.birth[n] <= e.clock)
    && (forall n | n in e.del :: e.del[n] <= e.clock)
  }

  ghost predicate NodeAdvances(e: Table, e': Table, n: Node) {
    && (n in e.birth ==> n in e'.birth && e'.birth[n] == e.birth[n])
    && (n in e.del ==> n in e'.del && e'.del[n] == e.del[n])
    && (n in e'.del && n !in e.del ==> e'.del[n] >= e.clock)
  }

  /** The clock only grows, eras of nodes are never changed, and nothing is retired with an
      era of the past. */
  ghost predicate Advances(e: Table, e': Table) {
    && e.clock <= e'.clock && |e.rows| == |e'.rows|
    && forall n {:trigger NodeAdvances(e, e', n)} :: NodeAdvances(e, e', n)
  }

  predicate Advancing(c: Cursor) {
    c.Testing? || c.Adding?
  }

  /** The nodes of a retired list have eras; the clock is past them, but for the node that is
      being retired just now. */
  predicate EntryOk(e: Table, r: Retirer, i: nat) {
    i < |r.list| ==>
      && r.list[i] in e.birth && r.list[i] in e.del
      && e.del[r.list[i]] <= e.clock
      && (i + 1 < |r.list| || !Advancing(r.cursor) ==> e.del[r.list[i]] < e.clock)
      && (i + 1 == |r.list| && r.cursor.Testing? ==> e.del[r.list[i]] == r.cursor.era)
  }

  ghost predicate RetirerOk(e: Table, r: Retirer) {
    && (forall i: nat {:trigger EntryOk(e, r, i)} :: EntryOk(e, r, i))
    && (forall i, j | 0 <= i < j < |r.list| :: r.list[i] != r.list[j])
    && r.count == |r.list|
  }

  /** Slot j of t holds an era between the birth of n and its retirement, past or to come. */
  predicate Covered(e: Table, t: nat, j: nat, n: Node) {
    && t < |e.rows| && j < |e.rows[t]| && e.rows[t][j] != 0
    && n in e.birth && e.birth[n] <= e.rows[t][j]
    && (n in e.del ==> e.rows[t][j] <= e.del[n])
  }

  /** What holds of a node that `get_protected` has just loaded from a link of a live
      structure, before it compares the clock with the era in the slot. */
  predicate Loaded(e: Table, t: nat, j: nat, n: Node) {
    n in e.birth && (n in e.del ==> EraOf(e, t, j) <= e.del[n])
  }

  /** The scan has already read slot j of thread t for the current node. */
  predicate Passed(c: Cursor, t: nat, j: nat)
    requires c.Scanning?
  {
    t < c.k || (t == c.k && j < c.j)
  }

  /** The scan is not past slot j of t for the node n. */
  predicate NotMissed(r: Retirer, t: nat, j: nat, n: Node) {
    r.cursor.Scanning? && r.cursor.i < |r.list| && r.list[r.cursor.i] == n ==> !Passed(r.cursor, t, j)
  }

  // ---------------------------------------------------------------- every write keeps them

  lemma NothingAdvances(e: Table)
    ensures Advances(e, e)
  {
    forall n ensures NodeAdvances(e, e, n) {}
  }

  lemma PublishKeeps(e: Table, t: nat, j: nat, era: nat)
    requires TableOk(e) && era <= e.clock
    ensures TableOk(Publish(e, t, j, era)) && Advances(e, Publish(e, t, j, era))
    ensures forall t', j' | !(t' == t && j' == j) :: EraOf(Publish(e, t, j, era), t', j') == EraOf(e, t', j')
    ensures t < |e.rows| ==> |Publish(e, t, j, era).rows[t]| == |e.rows[t]|
  {
    var e' := Publish(e, t, j, era);
    forall t', j' ensures EraOf(e', t', j') <= e'.clock { assert EraOf(e, t', j') <= e.clock; }
    forall n ensures NodeAdvances(e, e', n) {}
  }

  lemma BornKeeps(e: Table, n: Node)
    requires TableOk(e) && n !in e.birth
    ensures TableOk(Born(e, n)) && Advances(e, Born(e, n))
  {
    var e' := Born(e, n);
    forall t', j' ensures EraOf(e', t', j') <= e'.clock { assert EraOf(e, t', j') <= e.clock; }
    forall n' ensures NodeAdvances(e, e', n') {}
  }

  /** The node that a step of `retireNode` stamps has not been retired before. */
  predicate StampsNew(e: Table, r: Retirer) {
    r.cursor.Stamping? ==> r.cursor.n in e.birth && r.cursor.n !in e.del && r.cursor.n !in r.list
  }

  lemma ReclaimKeepsTable(e: Table, r: Retirer)
    requires TableOk(e) && StampsNew(e, r)
    ensures TableOk(ReclaimTable(e, r)) && Advances(e, ReclaimTable(e, r)) && ReclaimTable(e, r).rows == e.rows
  {
    var e' := ReclaimTable(e, r);
    forall t', j' ensures EraOf(e', t', j') <= e'.clock { assert EraOf(e, t', j') <= e.clock; }
    forall n ensures NodeAdvances(e, e', n) {}
  }

  lemma RetirerStays(e: Table, e': Table, r: Retirer)
    requires RetirerOk(e, r) && Advances(e, e')
    ensures RetirerOk(e', r)
  {
    forall i: nat ensures EntryOk(e', r, i) {
      assert EntryOk(e, r, i);
      if i < |r.list| { assert NodeAdvances(e, e', r.list[i]); }
    }
  }

  lemma ReclaimKeepsRetirer(e: Table, r: Retirer)
    requires TableOk(e) && RetirerOk(e, r) && StampsNew(e, r)
    ensures RetirerOk(ReclaimTable(e, r), Reclaim(e, r))
  {
    var e', r' := ReclaimTable(e, r), Reclaim(e, r);
    if DeletesNow(e, r) { Hazards.EraseOne(r.list, r.cursor.i); }
    forall i: nat ensures EntryOk(e', r', i) {
      assert EntryOk(e, r, i);
      if DeletesNow(e, r) { assert EntryOk(e, r, i + 1); }
    }
  }

  // ---------------------------------------------------------------- what a published era is worth

  lemma CoveredStays(e: Table, e': Table, t: nat, j: nat, n: Node)
    requires TableOk(e) && Advances(e, e') && Covered(e, t, j, n)
    requires t < |e'.rows| && j < |e'.rows[t]| && EraOf(e', t, j) == EraOf(e, t, j)
    ensures Covered(e', t, j, n)
  {
    assert NodeAdvances(e, e', n) && EraOf(e, t, j) <= e.clock;
  }

  lemma LoadedStays(e: Table, e': Table, t: nat, j: nat, n: Node)
    requires TableOk(e) && Advances(e, e') && Loaded(e, t, j, n) && EraOf(e', t, j) == EraOf(e, t, j)
    ensures Loaded(e', t, j, n)
  {
    assert NodeAdvances(e, e', n) && EraOf(e, t, j) <= e.clock;
  }

  /** When the clock still shows the era in the slot, the node that was loaded is covered, it is
      not deleted, and no scan has got to it. */
  lemma CheckProtects(e: Table, t: nat, j: nat, n: Node, r: Retirer)
    requires TableOk(e) && RetirerOk(e, r) && Loaded(e, t, j, n)
    requires t < |e.rows| && j < |e.rows[t]| && EraOf(e, t, j) == e.clock
    ensures Covered(e, t, j, n) && (n in e.del ==> e.del[n] == e.clock) && NotMissed(r, t, j, n)
  {
    if r.cursor.Scanning? { assert EntryOk(e, r, r.cursor.i); }
  }

  /** A scan that reads the table slot by slot does not miss a node that stays covered. */
  lemma ReclaimNotMissed(e: Table, r: Retirer, t: nat, j: nat, n: Node)
    requires RetirerOk(e, r) && Covered(e, t, j, n) && NotMissed(r, t, j, n)
    ensures NotMissed(Reclaim(e, r), t, j, n)
  {
    if r.cursor.Scanning? { assert EntryOk(e, r, r.cursor.i); }
  }

  /** So it does not delete it. */
  lemma CoveredIsKept(e: Table, r: Retirer, t: nat, j: nat, n: Node)
    requires Covered(e, t, j, n) && NotMissed(r, t, j, n) && DeletesNow(e, r)
    ensures r.list[r.cursor.i] != n
  {
  }

  /** Copying an era to a later slot, as `protectEraRelease(2, 1)` and `(1, 0)` do, is safe
      against every scan, because scans read the slots in ascending order. */
  lemma UpwardCopyProtects(e: Table, r: Retirer, t: nat, j: nat, j': nat, n: Node)
    requires Covered(e, t, j, n) && NotMissed(r, t, j, n) && j < j'
    requires j' < |e.rows[t]| && EraOf(e, t, j') == EraOf(e, t, j)
    ensures Covered(e, t, j', n) && NotMissed(r, t, j', n)
  {
  }

  /** The scan of r after some more accesses, while the table stands still. */
  function ScanOn(e: Table, r: Retirer, accesses: nat): Retirer {
    if accesses == 0 then r else Reclaim(e, ScanOn(e, r, accesses - 1))
  }

  predicate Deletes(e: Table, r: Retirer, n: Node) {
    DeletesNow(e, r) && r.list[r.cursor.i] == n
  }

  /** Slot j of t is copied to slot j', the scan of r makes some accesses, slot j is overwritten,
      the scan makes some more accesses, and then it deletes n. */
  predicate CopyLoses(e: Table, r: Retirer, t: nat, j: nat, j': nat, n: Node, first: nat, era: nat, last: nat) {
    var copied := Publish(e, t, j', EraOf(e, t, j));
    var moved := Publish(copied, t, j, era);
    Deletes(moved, ScanOn(moved, ScanOn(copied, r, first), last), n)
  }

  /** A scan is under way, and n is held by slot j of t, in a table with rows of this length. */
  ghost predicate HeldBefore(slots: nat, e: Table, r: Retirer, t: nat, j: nat, n: Node) {
    && TableOk(e) && RetirerOk(e, r) && r.cursor.Scanning?
    && (forall k | 0 <= k < |e.rows| :: |e.rows[k]| == slots)
    && Covered(e, t, j, n) && NotMissed(r, t, j, n)
  }

  /** Moving an era from slot j to slot j' never loses the node that it holds. */
  ghost predicate MoveIsSafe(slots: nat, j: nat, j': nat) {
    forall e: Table, r: Retirer, t: nat, n: Node, first: nat, era: nat, last: nat
      {:trigger CopyLoses(e, r, t, j, j', n, first, era, last)}
      | HeldBefore(slots, e, r, t, j, n) && era <= e.clock :: !CopyLoses(e, r, t, j, j', n, first, era, last)
  }

  /** The scan keeps what it must keep, whether it is still under way or at its end. */
  lemma {:induction false} ScanKeepsHeld(e: Table, r: Retirer, accesses: nat, t: nat, j: nat, n: Node)
    requires TableOk(e) && RetirerOk(e, r) && (r.cursor.Scanning? || r.cursor.Resting?)
    requires Covered(e, t, j, n) && NotMissed(r, t, j, n)
    ensures var r' := ScanOn(e, r, accesses);
            RetirerOk(e, r') && NotMissed(r', t, j, n) && (r'.cursor.Scanning? || r'.cursor.Resting?)
  {
    if accesses > 0 {
      ScanKeepsHeld(e, r, accesses - 1, t, j, n);
      var r' := ScanOn(e, r, accesses - 1);
      ReclaimNotMissed(e, r', t, j, n);
      ReclaimKeepsRetirer(e, r');
    }
  }

  /** A later slot is read after the earlier one by every scan. */
  lemma MovedUpIsKept(
    slots: nat, e: Table, r: Retirer, t: nat, j: nat, j': nat, n: Node, first: nat, era: nat, last: nat)
    requires HeldBefore(slots, e, r, t, j, n) && j < j' < slots && era <= e.clock
    ensures !CopyLoses(e, r, t, j, j', n, first, era, last)
  {
    var copied := Publish(e, t, j', EraOf(e, t, j));
    var moved := Publish(copied, t, j, era);
    PublishKeeps(e, t, j', EraOf(e, t, j));
    CoveredStays(e, copied, t, j, n);
    UpwardCopyProtects(copied, r, t, j, j', n);
    RetirerStays(e, copied, r);
    PublishKeeps(copied, t, j, era);
    CoveredStays(copied, moved, t, j', n);
    hide Publish, Covered, NotMissed, TableOk, RetirerOk, Advances;
    ScanKeepsHeld(copied, r, first, t, j', n);
    RetirerStays(copied, moved, ScanOn(copied, r, first));
    ScanKeepsHeld(moved, ScanOn(copied, r, first), last, t, j', n);
    var r' := ScanOn(moved, ScanOn(copied, r, first), last);
    if DeletesNow(moved, r') { CoveredIsKept(moved, r', t, j', n); }
  }

  /** One thread whose slot j, and no other slot, shows era 1, and a scan at that slot for a node
      that was born and retired in era 1. */
  function Lonely(slots: nat, j: nat): Table {
    Table(2, [seq(slots, k => if k == j then 1 else 0)], map[7 := 1], map[7 := 1])
  }

  lemma LonelyIsHeld(slots: nat, j: nat)
    requires j < slots
    ensures HeldBefore(slots, Lonely(slots, j), Retirer([7], 1, Scanning(0, 0, j)), 0, j, 7)
  {
    var e, r := Lonely(slots, j), Retirer([7], 1, Scanning(0, 0, j));
    forall t, k ensures EraOf(e, t, k) <= e.clock {}
    forall i: nat ensures EntryOk(e, r, i) {}
  }

  lemma {:induction false} EmptySlotsArePassed(e: Table, j: nat, accesses: nat)
    requires |e.rows| == 1 && j + accesses < |e.rows[0]|
    requires forall k | j <= k < |e.rows[0]| :: e.rows[0][k] == 0
    ensures ScanOn(e, Retirer([7], 1, Scanning(0, 0, j)), accesses) == Retirer([7], 1, Scanning(0, 0, j + accesses))
  {
    if accesses > 0 { EmptySlotsArePassed(e, j, accesses - 1); }
  }

  /** An earlier slot can have been read before the copy, and the later one is then read after
      it was overwritten. */
  lemma MovedDownIsLost(slots: nat, j: nat, j': nat)
    requires j' < j < slots
    ensures exists last: nat ::
              CopyLoses(Lonely(slots, j), Retirer([7], 1, Scanning(0, 0, j)), 0, j, j', 7, 0, 0, last)
  {
    var e, r := Lonely(slots, j), Retirer([7], 1, Scanning(0, 0, j));
    var moved := Publish(Publish(e, 0, j', EraOf(e, 0, j)), 0, j, 0);
    EmptySlotsArePassed(moved, j, slots - 1 - j);
    assert ScanOn(moved, r, slots - j) == Retirer([7], 1, Scanning(0, 1, 0));
    assert CopyLoses(e, r, 0, j, j', 7, 0, 0, slots - j);
  }

  /** Moving an era between two slots is safe against every scan exactly when it goes to a later
      slot.  `find` of the list on hazard eras only moves eras up. */
  lemma MoveIsSafeIffUpward(slots: nat, j: nat, j': nat)
    requires j < slots && j' < slots && j != j'
    ensures MoveIsSafe(slots, j, j') <==> j < j'
  {
    if j < j' {
      forall e: Table, r: Retirer, t: nat, n: Node, first: nat, era: nat, last: nat
        | HeldBefore(slots, e, r, t, j, n) && era <= e.clock
        ensures !CopyLoses(e, r, t, j, j', n, first, era, last)
      {
        MovedUpIsKept(slots, e, r, t, j, j', n, first, era, last);
      }
    } else {
      LonelyIsHeld(slots, j);
      MovedDownIsLost(slots, j, j');
      hide HeldBefore, CopyLoses;
      var last: nat :| CopyLoses(Lonely(slots, j), Retirer([7], 1, Scanning(0, 0, j)), 0, j, j', 7, 0, 0, last);
    }
  }
}
