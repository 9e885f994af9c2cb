/** How many events `readLock` and `synchronizeRCU` take when the thread moves alone. */
module UrcuSolo {
  import opened Urcu

  /** The events left of a `readLock` under way, and the step of the caller that follows it. */
  function LockLeft(u: State, t: nat): nat {
    if t >= |u.cells| then 0
    else
      match u.cells[t].reader
      case Outside => 0
      case Loaded(rv) => if rv == u.version then 3 else 4
      case Stored(rv) => if rv == u.version then 2 else 3
      case Reloaded(_) => 2
      case Reading => 1
  }

  /** The events left of a `synchronizeRCU` under way, when no slot holds it up, and the step of the
      caller that follows it. */
  function WaitLeft(u: State, t: nat): nat {
    if t >= |u.cells| then 0
    else
      match u.cells[t].updater
      case NotSyncing => 0
      case Called(_) => |u.cells| + 2
      case Scanning(_, i) => if i < |u.cells| then |u.cells| - i + 1 else 2
      case Returned => 1
  }

  /** No other thread shows a version: all of them are outside, or have not stored one yet. */
  ghost predicate NobodyShows(u: State, t: nat) {
    forall r: nat | r < |u.cells| && r != t :: u.cells[r].slot >= UNASSIGNED
  }

  lemma LockEventFalls(u: State, t: nat, e: Event)
    requires Enabled(u, Move(t, e)) && (e.LockStore? || e.LockReload? || e.LockRepair?)
    ensures var u' := Apply(u, Move(t, e));
            && 0 < LockLeft(u', t) < LockLeft(u, t) && u'.cells[t].updater == u.cells[t].updater
            && !u'.cells[t].reader.Outside?
  {
  }

  lemma LockStarts(u: State, t: nat)
    requires Enabled(u, Move(t, LockLoad))
    ensures LockLeft(Apply(u, Move(t, LockLoad)), t) == 3
  {
  }

  lemma WaitStarts(u: State, t: nat)
    requires Enabled(u, Move(t, SyncLoad))
    ensures WaitLeft(Apply(u, Move(t, SyncLoad)), t) == |u.cells| + 2
  {
  }

  lemma WaitEventFalls(u: State, t: nat, e: Event)
    requires Inv(u) && Enabled(u, Move(t, e)) && (e.SyncCas? || e.SyncProbe?) && u.version < UNASSIGNED
    requires NobodyShows(u, t) && u.cells[t].reader.Outside?
    ensures var u' := Apply(u, Move(t, e)); 0 < WaitLeft(u', t) < WaitLeft(u, t) && u'.cells[t].reader == u.cells[t].reader
  {
    assert ReaderOk(u, t) && UpdaterOk(u, t);
  }

  /** Own events leave the slots of the others alone. */
  lemma NobodyShowsStays(u: State, t: nat, e: Event)
    requires Enabled(u, Move(t, e)) && NobodyShows(u, t)
    ensures NobodyShows(Apply(u, Move(t, e)), t) && |Apply(u, Move(t, e)).cells| == |u.cells|
  {
  }

  /** In the middle of either there is an event to make. */
  lemma HasEvent(u: State, t: nat)
    requires Inv(u) && t < |u.cells|
    ensures var r := u.cells[t].reader; r.Loaded? || r.Stored? || r.Reloaded? ==>
              exists e: Event | e.LockStore? || e.LockReload? || e.LockRepair? :: Enabled(u, Move(t, e))
    ensures Syncing(u.cells[t]) ==> exists e: Event | e.SyncCas? || e.SyncProbe? :: Enabled(u, Move(t, e))
  {
    assert UpdaterOk(u, t);
    match u.cells[t].reader
    case Loaded(_) => assert Enabled(u, Move(t, LockStore));
    case Stored(_) => assert Enabled(u, Move(t, LockReload));
    case Reloaded(_) => assert Enabled(u, Move(t, LockRepair));
    case _ =>
    match u.cells[t].updater
    case Called(_) => assert Enabled(u, Move(t, SyncCas));
    case Scanning(_, _) => assert Enabled(u, Move(t, SyncProbe));
    case _ =>
  }
}
