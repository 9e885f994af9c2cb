/** The versioned grace period of `urcu/URCU.hpp`.

    Every atomic access of `readLock`, `readUnlock` and `synchronizeRCU` is one
    event.  Two stamps that the program does not have record history: `began` is
    the moment of the final version load of a thread's latest read section, and
    `called` the moment of the version load of its latest `synchronizeRCU`.
    Both are taken from one clock, `now`. */
module Urcu {

  const WORD: nat := 0x1_0000_0000_0000_0000
  const NOT_READING: nat := 0xFFFF_FFFF_FFFF_FFFE
  const UNASSIGNED: nat := 0xFFFF_FFFF_FFFF_FFFD

  /** How far a thread is through `readLock`. */
  datatype Reader =
    | Outside
    | Loaded(rv: nat)      // first version load done
    | Stored(rv: nat)      // slot holds rv
    | Reloaded(nrv: nat)   // final load done and different: the repairing store is due
    | Reading

  /** How far a thread is through `synchronizeRCU`. */
  datatype Updater =
    | NotSyncing
    | Called(w: nat)             // version load done
    | Scanning(w: nat, i: nat)   // compare-exchange done, spinning on slot i
    | Returned

  datatype Cell = Cell(slot: nat, reader: Reader, began: nat, updater: Updater, called: nat)

  datatype State = State(version: nat, now: nat, cells: seq<Cell>)

  datatype Event =
    | LockLoad | LockStore | LockReload | LockRepair | Unlock
    | SyncLoad | SyncCas | SyncProbe

  datatype Move = Move(t: nat, e: Event)

  predicate Init(s: State) {
    && s.version == 0
    && forall t | 0 <= t < |s.cells| ::
         s.cells[t].slot == UNASSIGNED && s.cells[t].reader.Outside? && s.cells[t].updater.NotSyncing?
  }

  /** The section of t has begun: its final version load is done. */
  predicate InSection(s: State, t: nat) {
    t < |s.cells| && (s.cells[t].reader.Reloaded? || s.cells[t].reader.Reading?)
  }

  predicate Syncing(c: Cell) {
    c.updater.Called? || c.updater.Scanning?
  }

  /** Which event the code of thread t can perform.  `readLock` may be entered again
      without an intervening `readUnlock`. */
  predicate Enabled(s: State, m: Move) {
    && m.t < |s.cells|
    && var c := s.cells[m.t];
       match m.e
       case LockLoad => (c.reader.Outside? || c.reader.Reading?) && !Syncing(c)
       case LockStore => c.reader.Loaded?
       case LockReload => c.reader.Stored?
       case LockRepair => c.reader.Reloaded?
       case Unlock => c.reader.Reading? && !Syncing(c)
       case SyncLoad => (c.reader.Outside? || c.reader.Reading?) && !Syncing(c)
       case SyncCas => c.updater.Called?
       case SyncProbe => c.updater.Scanning? && c.updater.i < |s.cells|
  }

  function Apply(s: State, m: Move): State
    requires Enabled(s, m)
  {
    var c := s.cells[m.t];
    match m.e
    case LockLoad =>
      s.(cells := s.cells[m.t := c.(reader := Loaded(s.version))])
    case LockStore =>
      s.(cells := s.cells[m.t := c.(slot := c.reader.rv, reader := Stored(c.reader.rv))])
    case LockReload =>
      s.(now := s.now + 1,
         cells := s.cells[m.t := c.(began := s.now,
                                    reader := if s.version == c.reader.rv then Reading else Reloaded(s.version))])
    case LockRepair =>
      s.(cells := s.cells[m.t := c.(slot := c.reader.nrv, reader := Reading)])
    case Unlock =>
      s.(cells := s.cells[m.t := c.(slot := NOT_READING, reader := Outside)])
    case SyncLoad =>
      s.(now := s.now + 1, cells := s.cells[m.t := c.(called := s.now, updater := Called(s.version))])
    case SyncCas =>
      s.(version := if s.version == c.updater.w then (c.updater.w + 1) % WORD else s.version,
         cells := s.cells[m.t := c.(updater := Scanning(c.updater.w, 0))])
    case SyncProbe =>
      var i := c.updater.i;
      if s.cells[i].slot <= c.updater.w then s
      else s.(cells := s.cells[m.t := c.(updater := if i + 1 == |s.cells| then Returned
                                                    else Scanning(c.updater.w, i + 1))])
  }

  /** A run: states joined by moves, with versions below the two reserved constants. */
  ghost predicate IsRun(run: seq<State>, moves: seq<Move>) {
    && |run| == |moves| + 1
    && Init(run[0])
    && (forall i | 0 <= i < |run| :: run[i].version < UNASSIGNED)
    && forall i | 0 <= i < |moves| :: Enabled(run[i], moves[i]) && run[i + 1] == Apply(run[i], moves[i])
  }

  // ---------------------------------------------------------------- the grace period

  /** What is known of thread t alone. */
  predicate ReaderOk(s: State, t: nat)
    requires t < |s.cells|
  {
    var c := s.cells[t];
    && (c.reader.Outside? ==> c.slot >= UNASSIGNED)
    && (c.reader.Loaded? ==> c.reader.rv <= s.version)
    && (c.reader.Stored? ==> c.reader.rv <= s.version && c.slot == c.reader.rv)
    && (c.reader.Reloaded? ==> c.slot < c.reader.nrv <= s.version)
    && (c.reader.Reading? ==> c.slot <= s.version)
    && (InSection(s, t) ==> c.began < s.now)
  }

  /** The section of t began before the current call of u. */
  predicate Old(s: State, u: nat, t: nat)
    requires u < |s.cells|
  {
    InSection(s, t) && s.cells[t].began <= s.cells[u].called
  }

  /** What the call of u knows of thread t: an older section still shows an awaited version. */
  predicate WaitOk(s: State, u: nat, t: nat)
    requires u < |s.cells| && t < |s.cells|
  {
    Old(s, u, t) ==>
      match s.cells[u].updater
      case NotSyncing => true
      case Called(w) => s.cells[t].slot <= w && (s.cells[t].reader.Reloaded? ==> s.cells[t].reader.nrv <= w)
      case Scanning(w, i) =>
        i <= t && s.cells[t].slot <= w && (s.cells[t].reader.Reloaded? ==> s.cells[t].reader.nrv <= w)
      case Returned => false
  }

  predicate UpdaterOk(s: State, u: nat)
    requires u < |s.cells|
  {
    var c := s.cells[u];
    && (!c.updater.NotSyncing? ==> c.called < s.now)
    && (c.updater.Called? ==> c.updater.w <= s.version)
    && (c.updater.Scanning? ==> c.updater.w < s.version && c.updater.i < |s.cells|)
  }

  ghost predicate Inv(s: State) {
    && (forall t | 0 <= t < |s.cells| :: ReaderOk(s, t) && UpdaterOk(s, t))
    && (forall u, t | 0 <= u < |s.cells| && 0 <= t < |s.cells| :: WaitOk(s, u, t))
  }

  lemma StepKeepsReader(s: State, m: Move, t: nat)
    requires Inv(s) && Enabled(s, m) && s.version < UNASSIGNED && t < |s.cells|
    ensures ReaderOk(Apply(s, m), t)
  {
    assert ReaderOk(s, t) && UpdaterOk(s, m.t);
  }

  lemma StepKeepsUpdater(s: State, m: Move, u: nat)
    requires Inv(s) && Enabled(s, m) && s.version < UNASSIGNED && u < |s.cells|
    ensures UpdaterOk(Apply(s, m), u)
  {
    assert UpdaterOk(s, u) && UpdaterOk(s, m.t);
  }

  lemma StepKeepsWait(s: State, m: Move, u: nat, t: nat)
    requires Inv(s) && Enabled(s, m) && s.version < UNASSIGNED
    requires u < |s.cells| && t < |s.cells|
    ensures WaitOk(Apply(s, m), u, t)
  {
    assert WaitOk(s, u, t) && ReaderOk(s, t) && UpdaterOk(s, u);
  }

  lemma StepKeepsInv(s: State, m: Move)
    requires Inv(s) && Enabled(s, m) && s.version < UNASSIGNED
    ensures Inv(Apply(s, m))
  {
    var s' := Apply(s, m);
    forall t | 0 <= t < |s'.cells| ensures ReaderOk(s', t) && UpdaterOk(s', t) {
      StepKeepsReader(s, m, t);
      StepKeepsUpdater(s, m, t);
    }
    forall u, t | 0 <= u < |s'.cells| && 0 <= t < |s'.cells| ensures WaitOk(s', u, t) {
      StepKeepsWait(s, m, u, t);
    }
  }

  lemma {:induction false} RunKeepsInv(run: seq<State>, moves: seq<Move>, i: nat)
    requires IsRun(run, moves) && i < |run|
    ensures Inv(run[i])
  {
    if i > 0 {
      RunKeepsInv(run, moves, i - 1);
      assert Enabled(run[i - 1], moves[i - 1]);
      StepKeepsInv(run[i - 1], moves[i - 1]);
    }
  }

  /** The grace period.  Thread u makes its version load at step a, when the section of t
      has begun.  When that call has returned, that section is over: t is outside, or in
      a section with a later final load. */
  lemma GracePeriod(run: seq<State>, moves: seq<Move>, a: nat, b: nat, u: nat, t: nat)
    requires IsRun(run, moves) && a < b < |run|
    requires moves[a] == Move(u, SyncLoad)
    requires u < |run[b].cells| && run[b].cells[u].updater.Returned? && run[b].cells[u].called == run[a].now
    requires InSection(run[a], t)
    ensures InSection(run[b], t) ==> run[b].cells[t].began > run[a].now > run[a].cells[t].began
  {
    RunKeepsInv(run, moves, a);
    RunKeepsInv(run, moves, b);
    assert ReaderOk(run[a], t);
    if InSection(run[b], t) {
      assert WaitOk(run[b], u, t);
    }
  }

  /** No running section began before stamp `at`: nothing taken out of a structure then
      can be in the hands of a reader. */
  ghost predicate Covered(s: State, at: nat) {
    at <= s.now && forall t: nat | InSection(s, t) :: at <= s.cells[t].began
  }

  lemma CoveredStays(s: State, m: Move, at: nat)
    requires Enabled(s, m) && Covered(s, at)
    ensures Covered(Apply(s, m), at)
  {
    forall t: nat | InSection(Apply(s, m), t) ensures at <= Apply(s, m).cells[t].began {
      assert Apply(s, m).cells[t].began == s.now || InSection(s, t);
    }
  }

  /** A returned call covers every stamp taken before it. */
  lemma GraceCovers(s: State, u: nat, at: nat)
    requires Inv(s) && u < |s.cells| && s.cells[u].updater.Returned? && at <= s.cells[u].called
    ensures Covered(s, at)
    ensures forall t: nat | InSection(s, t) :: at < s.cells[t].began
  {
    assert UpdaterOk(s, u);
    forall t: nat | InSection(s, t) ensures at < s.cells[t].began {
      assert WaitOk(s, u, t);
    }
  }

  // ---------------------------------------------------------------- never held up by new readers

  /** An upper bound on the reader events of t before its slot stops showing an awaited
      version for good. */
  function Debt(s: State, t: nat, w: nat): nat
    requires t < |s.cells|
  {
    var c := s.cells[t];
    match c.reader
    case Outside => 0
    case Loaded(rv) => if rv <= w then 3 else if c.slot <= w then 1 else 0
    case Stored(rv) => if rv <= w then 2 else 0
    case Reloaded(nrv) => if nrv <= w then 5 else if c.slot <= w then 1 else 0
    case Reading => if c.slot <= w then 4 else 0
  }

  predicate ReaderEvent(e: Event) {
    e.LockLoad? || e.LockStore? || e.LockReload? || e.LockRepair? || e.Unlock?
  }

  /** Once the version is past w no event makes a debt grow, and a reader event of a thread
      that is in debt pays some of it. */
  lemma DebtFalls(s: State, m: Move, t: nat, w: nat)
    requires Inv(s) && Enabled(s, m) && w < s.version < UNASSIGNED && t < |s.cells|
    ensures Debt(Apply(s, m), t, w) <= Debt(s, t, w)
    ensures m.t == t && ReaderEvent(m.e) && Debt(s, t, w) > 0 ==> Debt(Apply(s, m), t, w) < Debt(s, t, w)
    ensures w < Apply(s, m).version
  {
    assert ReaderOk(s, t);
    assert UpdaterOk(s, m.t);
  }

  /** A slot that shows an awaited version belongs to a thread that is in debt and
      that has a reader event to make. */
  lemma BlockedSlotCanMove(s: State, t: nat, w: nat)
    requires Inv(s) && w < s.version < UNASSIGNED && t < |s.cells|
    requires s.cells[t].slot <= w
    ensures Debt(s, t, w) > 0
    ensures !Syncing(s.cells[t]) ==> exists e | ReaderEvent(e) :: Enabled(s, Move(t, e))
  {
    assert ReaderOk(s, t);
    match s.cells[t].reader
    case Outside =>
    case Loaded(_) => assert Enabled(s, Move(t, LockStore));
    case Stored(_) => assert Enabled(s, Move(t, LockReload));
    case Reloaded(_) => assert Enabled(s, Move(t, LockRepair));
    case Reading => assert !Syncing(s.cells[t]) ==> Enabled(s, Move(t, Unlock));
  }

  function DebtSum(s: State, n: nat, w: nat): nat
    requires n <= |s.cells|
  {
    if n == 0 then 0 else DebtSum(s, n - 1, w) + Debt(s, n - 1, w)
  }

  lemma {:induction false} DebtSumFalls(s: State, m: Move, n: nat, w: nat)
    requires Inv(s) && Enabled(s, m) && w < s.version < UNASSIGNED && n <= |s.cells|
    ensures DebtSum(Apply(s, m), n, w) <= DebtSum(s, n, w)
    ensures m.t < n && ReaderEvent(m.e) && Debt(s, m.t, w) > 0 ==> DebtSum(Apply(s, m), n, w) < DebtSum(s, n, w)
  {
    if n > 0 {
      DebtSumFalls(s, m, n - 1, w);
      DebtFalls(s, m, n - 1, w);
    }
  }

  lemma {:induction false} DebtSumBound(s: State, n: nat, w: nat)
    requires n <= |s.cells|
    ensures DebtSum(s, n, w) <= 5 * n
  {
    if n > 0 {
      DebtSumBound(s, n - 1, w);
    }
  }

  /** How many reader events in steps i..j are made by threads that are in debt to w. */
  ghost function Delays(run: seq<State>, moves: seq<Move>, i: nat, j: nat, w: nat): nat
    requires IsRun(run, moves) && i <= j < |run|
    decreases j - i
  {
    if i == j then 0
    else
      assert Enabled(run[i], moves[i]);
      Delays(run, moves, i + 1, j, w)
      + (if ReaderEvent(moves[i].e) && Debt(run[i], moves[i].t, w) > 0 then 1 else 0)
  }

  lemma {:induction false} DelaysAreOwed(run: seq<State>, moves: seq<Move>, i: nat, j: nat, w: nat)
    requires IsRun(run, moves) && i <= j < |run|
    requires w < run[i].version
    ensures |run[i].cells| == |run[j].cells|
    ensures Delays(run, moves, i, j, w) + DebtSum(run[j], |run[j].cells|, w) <= DebtSum(run[i], |run[i].cells|, w)
    decreases j - i
  {
    if i < j {
      RunKeepsInv(run, moves, i);
      assert Enabled(run[i], moves[i]);
      DebtFalls(run[i], moves[i], moves[i].t, w);
      DebtSumFalls(run[i], moves[i], |run[i].cells|, w);
      DelaysAreOwed(run, moves, i + 1, j, w);
    }
  }

  /** A synchronizer is never held up by new readers.  From its compare-exchange on, won or
      lost, the version is past the awaited one, and in any continuation of the run all
      threads together make at most five delaying reader events per thread. */
  lemma NotHeldUpByNewReaders(run: seq<State>, moves: seq<Move>, i: nat, j: nat, u: nat)
    requires IsRun(run, moves) && i <= j < |run|
    requires u < |run[i].cells| && run[i].cells[u].updater.Scanning?
    ensures run[i].cells[u].updater.w < run[i].version
    ensures Delays(run, moves, i, j, run[i].cells[u].updater.w) <= 5 * |run[i].cells|
  {
    RunKeepsInv(run, moves, i);
    assert UpdaterOk(run[i], u);
    var w := run[i].cells[u].updater.w;
    DelaysAreOwed(run, moves, i, j, w);
    DebtSumBound(run[i], |run[i].cells|, w);
  }

  /** The slot of t falls back from a later version to an awaited one in this step. */
  predicate FallsBack(s: State, m: Move, t: nat, w: nat)
    requires Enabled(s, m) && t < |s.cells|
  {
    s.cells[t].slot > w && Apply(s, m).cells[t].slot <= w
  }

  ghost function Fallbacks(run: seq<State>, moves: seq<Move>, i: nat, j: nat, t: nat, w: nat): nat
    requires IsRun(run, moves) && i <= j < |run|
    requires forall k | i <= k <= j :: t < |run[k].cells|
    decreases j - i
  {
    if i == j then 0
    else
      assert Enabled(run[i], moves[i]);
      Fallbacks(run, moves, i + 1, j, t, w) + (if FallsBack(run[i], moves[i], t, w) then 1 else 0)
  }

  /** Whether t is in the middle of a `readLock` whose first load is stale. */
  predicate StaleLoad(s: State, t: nat, w: nat)
    requires t < |s.cells|
  {
    s.cells[t].reader.Loaded? && s.cells[t].reader.rv <= w
  }

  lemma FallsBackOnlyByStaleStore(s: State, m: Move, t: nat, w: nat)
    requires Inv(s) && Enabled(s, m) && w < s.version < UNASSIGNED && t < |s.cells|
    ensures FallsBack(s, m, t, w) ==> StaleLoad(s, t, w) && m == Move(t, LockStore)
    ensures StaleLoad(Apply(s, m), t, w) ==> StaleLoad(s, t, w) && !FallsBack(s, m, t, w)
  {
    assert ReaderOk(s, t);
  }

  /** Each slot falls back to an awaited version at most once, and only by the first store of
      a `readLock` that was already in flight at the compare-exchange. */
  lemma {:induction false} FallsBackAtMostOnce(run: seq<State>, moves: seq<Move>, i: nat, j: nat, t: nat, w: nat)
    requires IsRun(run, moves) && i <= j < |run|
    requires w < run[i].version && t < |run[i].cells|
    ensures forall k | i <= k <= j :: |run[k].cells| == |run[i].cells|
    ensures Fallbacks(run, moves, i, j, t, w) <= if StaleLoad(run[i], t, w) then 1 else 0
    decreases j - i
  {
    if i < j {
      RunKeepsInv(run, moves, i);
      assert Enabled(run[i], moves[i]);
      DebtFalls(run[i], moves[i], t, w);
      FallsBackOnlyByStaleStore(run[i], moves[i], t, w);
      FallsBackAtMostOnce(run, moves, i + 1, j, t, w);
    }
  }

  /** One reader event of t after its stale store: it sees a later version. */
  lemma StaleStoreReloads(s: State, t: nat, e: Event, w: nat)
    requires Inv(s) && w < s.version < UNASSIGNED && Enabled(s, Move(t, e)) && ReaderEvent(e)
    requires s.cells[t].reader.Stored? && s.cells[t].reader.rv <= w
    ensures var r := Apply(s, Move(t, e)).cells[t].reader; e.LockReload? && r.Reloaded? && r.nrv > w
  {
  }

  lemma RepairPaysAll(s: State, t: nat, e: Event, w: nat)
    requires Enabled(s, Move(t, e)) && ReaderEvent(e)
    requires s.cells[t].reader.Reloaded? && s.cells[t].reader.nrv > w
    ensures var s' := Apply(s, Move(t, e)); e.LockRepair? && s'.cells[t].slot > w && Debt(s', t, w) == 0
  {
  }

  /** From a to b no reader event is made by t. */
  ghost predicate NoReaderEvent(moves: seq<Move>, a: nat, b: nat, t: nat) {
    forall x | a <= x < b && x < |moves| :: moves[x].t == t ==> !ReaderEvent(moves[x].e)
  }

  lemma {:induction false} ReaderStands(run: seq<State>, moves: seq<Move>, a: nat, b: nat, t: nat)
    requires IsRun(run, moves) && a <= b < |run| && t < |run[a].cells| && NoReaderEvent(moves, a, b, t)
    ensures t < |run[b].cells| && run[b].cells[t].reader == run[a].cells[t].reader
  {
    if a < b {
      ReaderStands(run, moves, a, b - 1, t);
      assert Enabled(run[b - 1], moves[b - 1]);
    }
  }

  lemma {:induction false} VersionStaysPast(run: seq<State>, moves: seq<Move>, a: nat, b: nat, w: nat)
    requires IsRun(run, moves) && a <= b < |run| && w < run[a].version
    ensures w < run[b].version
  {
    if a < b {
      VersionStaysPast(run, moves, a, b - 1, w);
      RunKeepsInv(run, moves, b - 1);
      assert Enabled(run[b - 1], moves[b - 1]);
      assert UpdaterOk(run[b - 1], moves[b - 1].t);
    }
  }

  /** The `readLock` that made the stale store repairs it, wherever it is stopped and whatever
      all others do meanwhile: its next two events are the reload and the repair, and after them
      the slot is past the awaited version and the thread owes nothing. */
  lemma StaleStoreIsRepaired(run: seq<State>, moves: seq<Move>, i: nat, a: nat, b: nat, t: nat, w: nat)
    requires IsRun(run, moves) && i <= a < b < |moves|
    requires t < |run[i].cells| && run[i].cells[t].reader.Stored? && run[i].cells[t].reader.rv <= w < run[i].version
    requires moves[a].t == t && ReaderEvent(moves[a].e) && NoReaderEvent(moves, i, a, t)
    requires moves[b].t == t && ReaderEvent(moves[b].e) && NoReaderEvent(moves, a + 1, b, t)
    ensures moves[a].e.LockReload? && moves[b].e.LockRepair?
    ensures t < |run[b + 1].cells| && run[b + 1].cells[t].slot > w && Debt(run[b + 1], t, w) == 0
  {
    ReaderStands(run, moves, i, a, t);
    VersionStaysPast(run, moves, i, a, w);
    RunKeepsInv(run, moves, a);
    StaleStoreReloads(run[a], t, moves[a].e, w);
    ReaderStands(run, moves, a + 1, b, t);
    RepairPaysAll(run[b], t, moves[b].e, w);
  }

  // ---------------------------------------------------------------- the wait ends

  /** How many reader events t makes in steps i..j. */
  ghost function ReaderEvents(moves: seq<Move>, i: nat, j: nat, t: nat): nat
    requires i <= j <= |moves|
  {
    if i == j then 0
    else ReaderEvents(moves, i, j - 1, t) + (if moves[j - 1].t == t && ReaderEvent(moves[j - 1].e) then 1 else 0)
  }

  /** How many loads of slots the spinning u makes in steps i..j. */
  ghost function Probes(moves: seq<Move>, i: nat, j: nat, u: nat): nat
    requires i <= j <= |moves|
  {
    if i == j then 0
    else Probes(moves, i, j - 1, u) + (if moves[j - 1] == Move(u, SyncProbe) then 1 else 0)
  }

  /** A debt is paid off by as many own reader events as it counts, and is never run up again. */
  lemma {:induction false} DebtIsPaid(run: seq<State>, moves: seq<Move>, i: nat, j: nat, t: nat, w: nat)
    requires IsRun(run, moves) && i <= j < |run| && t < |run[i].cells| && w < run[i].version
    ensures |run[j].cells| == |run[i].cells| && w < run[j].version
    ensures Debt(run[j], t, w) <= Debt(run[i], t, w)
    ensures Debt(run[j], t, w) > 0 ==> Debt(run[j], t, w) + ReaderEvents(moves, i, j, t) <= Debt(run[i], t, w)
  {
    if i < j {
      DebtIsPaid(run, moves, i, j - 1, t, w);
      RunKeepsInv(run, moves, j - 1);
      assert Enabled(run[j - 1], moves[j - 1]);
      DebtFalls(run[j - 1], moves[j - 1], t, w);
    }
  }

  /** Nobody's section, running or about to begin, will show a version up to w again. */
  ghost predicate NobodyOwes(s: State, w: nat) {
    forall t | 0 <= t < |s.cells| :: Debt(s, t, w) == 0
  }

  /** When nobody owes, a load of a slot by the spinning thread takes it to the next slot. */
  lemma ProbeAdvances(s: State, u: nat)
    requires Inv(s) && Enabled(s, Move(u, SyncProbe)) && s.version < UNASSIGNED
    requires NobodyOwes(s, s.cells[u].updater.w)
    ensures var c, c' := s.cells[u].updater, Apply(s, Move(u, SyncProbe)).cells[u].updater;
            c' == if c.i + 1 == |s.cells| then Returned else Scanning(c.w, c.i + 1)
  {
    var w, i := s.cells[u].updater.w, s.cells[u].updater.i;
    assert UpdaterOk(s, u) && Debt(s, i, w) == 0;
    if s.cells[i].slot <= w { BlockedSlotCanMove(s, i, w); }
  }

  lemma OtherMovesKeepScan(s: State, m: Move, u: nat)
    requires Enabled(s, m) && u < |s.cells| && s.cells[u].updater.Scanning? && m != Move(u, SyncProbe)
    ensures Apply(s, m).cells[u].updater == s.cells[u].updater
  {
  }

  lemma NobodyOwesStays(s: State, m: Move, w: nat)
    requires Inv(s) && Enabled(s, m) && w < s.version < UNASSIGNED && NobodyOwes(s, w)
    ensures NobodyOwes(Apply(s, m), w)
  {
    forall t | 0 <= t < |s.cells| ensures Debt(Apply(s, m), t, w) == 0 { DebtFalls(s, m, t, w); }
  }

  /** From a state in which nobody owes, every load that u makes while it is still spinning
      takes it one slot on. */
  lemma {:induction false} SpinAdvances(run: seq<State>, moves: seq<Move>, m: nat, j: nat, u: nat)
    requires IsRun(run, moves) && m <= j < |run| && u < |run[m].cells|
    requires run[m].cells[u].updater.Scanning? && NobodyOwes(run[m], run[m].cells[u].updater.w)
    requires forall x | m <= x <= j :: u < |run[x].cells| && run[x].cells[u].updater.Scanning?
    ensures NobodyOwes(run[j], run[m].cells[u].updater.w)
    ensures run[j].cells[u].updater.w == run[m].cells[u].updater.w
    ensures run[j].cells[u].updater.i == run[m].cells[u].updater.i + Probes(moves, m, j, u)
  {
    if m < j {
      SpinAdvances(run, moves, m, j - 1, u);
      var s, w := run[j - 1], run[m].cells[u].updater.w;
      RunKeepsInv(run, moves, j - 1);
      assert Enabled(s, moves[j - 1]) && UpdaterOk(s, u);
      NobodyOwesStays(s, moves[j - 1], w);
      hide Inv, NobodyOwes;
      if moves[j - 1] == Move(u, SyncProbe) { ProbeAdvances(s, u); } else { OtherMovesKeepScan(s, moves[j - 1], u); }
    }
  }

  /** The wait ends.  Thread u spins from state i on.  When every thread that owes at i has
      made as many reader events as it owes, which is at most five (so its sections end), nobody
      owes any more, and the call that is still spinning makes fewer loads than there are slots. */
  lemma WaitEnds(run: seq<State>, moves: seq<Move>, i: nat, m: nat, j: nat, u: nat)
    requires IsRun(run, moves) && i <= m <= j < |run| && u < |run[i].cells|
    requires forall x | i <= x <= j :: u < |run[x].cells| && run[x].cells[u].updater.Scanning?
    requires forall t | 0 <= t < |run[i].cells| ::
               ReaderEvents(moves, i, m, t) >= Debt(run[i], t, run[i].cells[u].updater.w)
    ensures forall t | 0 <= t < |run[i].cells| :: Debt(run[i], t, run[i].cells[u].updater.w) <= 5
    ensures run[m].cells[u].updater.w == run[i].cells[u].updater.w && NobodyOwes(run[m], run[i].cells[u].updater.w)
    ensures Probes(moves, m, j, u) < |run[i].cells|
  {
    var w := run[i].cells[u].updater.w;
    RunKeepsInv(run, moves, i);
    RunKeepsInv(run, moves, j);
    assert UpdaterOk(run[i], u) && UpdaterOk(run[j], u);
    DebtIsPaid(run, moves, i, m, u, w);
    DebtIsPaid(run, moves, i, j, u, w);
    SameCall(run, moves, i, m, u);
    forall t | 0 <= t < |run[m].cells| ensures Debt(run[m], t, w) == 0 { DebtIsPaid(run, moves, i, m, t, w); }
    SpinAdvances(run, moves, m, j, u);
  }

  lemma {:induction false} SameCall(run: seq<State>, moves: seq<Move>, i: nat, m: nat, u: nat)
    requires IsRun(run, moves) && i <= m < |run|
    requires forall x | i <= x <= m :: u < |run[x].cells| && run[x].cells[u].updater.Scanning?
    ensures run[m].cells[u].updater.w == run[i].cells[u].updater.w
  {
    if i < m {
      SameCall(run, moves, i, m - 1, u);
      assert Enabled(run[m - 1], moves[m - 1]);
    }
  }
}
