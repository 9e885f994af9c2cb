/** The protocol of `intervalbasedrec/IntervalBasedReclamation.hpp` as steps: the global epoch,
    one reservation per thread, and passes that first copy all reservations, one load at a time,
    and then compare the retired nodes of the thread with the copy.

    The machine calls nothing: a client may start and end operations, allocate nodes, and retire
    each allocated node once, in any order. */
module Intervals {

  type Node = nat
  const NULL: Node := 0
  const WORD: nat := 0x1_0000_0000_0000_0000
  const NONE: nat := 0xFFFF_FFFF_FFFF_FFFF      // UINT64_MAX, no reservation

  /** `conflict` of lines 85-92: some reservation lies in the life of the node. */
  predicate Conflict(snap: seq<nat>, birth: nat, retire: nat) {
    exists i | 0 <= i < |snap| :: birth <= snap[i] <= retire
  }

  datatype Pc =
    | Idle
    | LoadEpoch | StoreEpoch(e: nat)             // start_op
    | Leave                                      // end_op
    | Tick(n: Node) | GiveBirth(n: Node)         // allocNode
    | Stamp(n: Node) | Snapshot | Sweep(i: nat)  // retireNode

  datatype Thread = Thread(pc: Pc, allocStat: nat, retireStat: nat, list: seq<Node>, snap: seq<nat>)

  /** `birth` and `retire` are the epochs stored in the nodes; `used` and `claimed` are the nodes
      given to `allocNode` and to `retireNode`. */
  datatype State = State(
    epoch: nat, res: seq<nat>, birth: map<Node, nat>, retire: map<Node, nat>,
    used: set<Node>, claimed: set<Node>, freed: set<Node>, threads: seq<Thread>, epochFreq: nat, emptyFreq: nat)

  datatype Action = StartOp | EndOp | Alloc(n: Node) | Retire(n: Node) | Go

  datatype Step = Step(t: nat, a: Action)

  ghost predicate Init(s: State) {
    && s.epoch == 0 && |s.res| == |s.threads| && s.epochFreq > 0 && s.emptyFreq > 0
    && (forall t | 0 <= t < |s.res| :: s.res[t] == NONE)
    && (forall t | 0 <= t < |s.threads| :: s.threads[t] == Thread(Idle, 0, 0, [], []))
    && s.birth == map[] && s.retire == map[] && s.used == {} && s.claimed == {} && s.freed == {}
  }

  predicate Enabled(s: State, st: Step) {
    && st.t < |s.threads| == |s.res| && s.epochFreq > 0 && s.emptyFreq > 0
    && (st.a.Go? <==> !s.threads[st.t].pc.Idle?)
    && (st.a.Alloc? ==> st.a.n !in s.used && st.a.n != NULL)
    && (st.a.Retire? ==> st.a.n == NULL || (st.a.n in s.birth && st.a.n !in s.claimed))
  }

  /** Subtraction and addition on the counters wrap around. */
  function Dec(x: nat): nat {
    if x == 0 then WORD - 1 else x - 1
  }

  function Inc(x: nat): nat {
    (x + 1) % WORD
  }

  function Erase(list: seq<Node>, i: nat): seq<Node> {
    if i < |list| then list[..i] + list[i + 1..] else list
  }

  /** The pass does not keep the node n. */
  predicate Removable(s: State, snap: seq<nat>, n: Node) {
    n in s.birth && n in s.retire && !Conflict(snap, s.birth[n], s.retire[n])
  }

  function Apply(s: State, st: Step): State
    requires Enabled(s, st)
  {
    var t, th := st.t, s.threads[st.t];
    s.(epoch := if th.pc.Tick? then Inc(s.epoch) else s.epoch,
       res := s.res[t := if th.pc.StoreEpoch? then th.pc.e else if th.pc.Leave? then NONE else s.res[t]],
       birth := if th.pc.GiveBirth? then s.birth[th.pc.n := s.epoch] else s.birth,
       retire := if th.pc.Stamp? then s.retire[th.pc.n := s.epoch] else s.retire,
       used := if st.a.Alloc? then s.used + {st.a.n} else s.used,
       claimed := if st.a.Retire? && st.a.n != NULL then s.claimed + {st.a.n} else s.claimed,
       freed := if Deletes(s, th) then s.freed + {th.list[th.pc.i]} else s.freed,
       threads := s.threads[t := if st.a.Go? then NextThread(s, th) else Starts(s, th, st.a)])
  }

  /** The pass erases and deletes its i-th node. */
  predicate Deletes(s: State, th: Thread) {
    th.pc.Sweep? && th.pc.i < |th.list| && Removable(s, th.snap, th.list[th.pc.i])
  }

  function Starts(s: State, th: Thread, a: Action): Thread
    requires s.epochFreq > 0
  {
    match a
    case StartOp => th.(pc := LoadEpoch)
    case EndOp => th.(pc := Leave)
    case Alloc(n) =>
      var count := Inc(th.allocStat);
      th.(pc := if count % s.epochFreq == 0 then Tick(n) else GiveBirth(n), allocStat := count)
    case Retire(n) => if n == NULL then th else th.(pc := Stamp(n))
    case Go => th
  }

  function NextThread(s: State, th: Thread): Thread
    requires s.emptyFreq > 0
  {
    match th.pc
    case Idle => th
    case LoadEpoch => th.(pc := StoreEpoch(s.epoch))
    case StoreEpoch(e) => th.(pc := Idle)
    case Leave => th.(pc := Idle)
    case Tick(n) => th.(pc := GiveBirth(n))
    case GiveBirth(n) => th.(pc := Idle)
    case Stamp(n) =>
      var th' := th.(list := th.list + [n]);
      if th.retireStat % s.emptyFreq == 0 then th'.(pc := Snapshot, snap := [])
      else th'.(pc := Idle, retireStat := Inc(th.retireStat))
    case Snapshot =>
      if |th.snap| < |s.res| then th.(snap := th.snap + [s.res[|th.snap|]]) else th.(pc := Sweep(0))
    case Sweep(i) =>
      if i >= |th.list| then th.(pc := Idle, retireStat := Inc(th.retireStat))
      else if Deletes(s, th) then th.(pc := Sweep(i + 1), list := Erase(th.list, i), retireStat := Dec(th.retireStat))
      else th.(pc := Sweep(i + 1))
  }

  /** A run in which the epoch does not reach the reserved value. */
  ghost predicate IsRun(run: seq<State>, steps: seq<Step>) {
    && |run| == |steps| + 1
    && Init(run[0])
    && (forall i | 0 <= i < |run| :: run[i].epoch < NONE)
    && forall i | 0 <= i < |steps| :: Enabled(run[i], steps[i]) && run[i + 1] == Apply(run[i], steps[i])
  }

  // ---------------------------------------------------------------- the invariant

  predicate NodeOk(s: State, n: Node) {
    && (n in s.birth ==> n in s.used && s.birth[n] <= s.epoch)
    && (n in s.retire ==> n in s.birth && n in s.claimed && s.birth[n] <= s.retire[n] <= s.epoch)
    && (n in s.claimed ==> n in s.birth)
    && (n in s.freed ==> n in s.retire)
  }

  ghost predicate ThreadOk(s: State, th: Thread) {
    && (th.pc.StoreEpoch? ==> th.pc.e <= s.epoch)
    && (th.pc.Tick? || th.pc.GiveBirth? ==> th.pc.n in s.used && th.pc.n !in s.birth)
    && (th.pc.Stamp? ==> th.pc.n in s.claimed && th.pc.n !in s.retire)
    && (forall n | n in th.list :: n in s.retire)
  }

  /** No two threads work on the same node. */
  predicate Apart(a: Pc, b: Pc) {
    && ((a.Tick? || a.GiveBirth?) && (b.Tick? || b.GiveBirth?) ==> a.n != b.n)
    && (a.Stamp? && b.Stamp? ==> a.n != b.n)
  }

  ghost predicate Inv(s: State) {
    && |s.res| == |s.threads|
    && (forall n {:trigger NodeOk(s, n)} :: NodeOk(s, n))
    && (forall t | 0 <= t < |s.threads| :: ThreadOk(s, s.threads[t]))
    && (forall t, r | 0 <= t < r < |s.threads| :: Apart(s.threads[t].pc, s.threads[r].pc))
  }

  lemma StepNodes(s: State, st: Step)
    requires Inv(s) && Enabled(s, st) && s.epoch < NONE
    ensures forall n {:trigger NodeOk(Apply(s, st), n)} :: NodeOk(Apply(s, st), n)
  {
    var s' := Apply(s, st);
    assert ThreadOk(s, s.threads[st.t]);
    forall n ensures NodeOk(s', n) {
      assert NodeOk(s, n);
      if st.a.Go? && s.threads[st.t].pc.Sweep? && s.threads[st.t].pc.i < |s.threads[st.t].list| {
        assert NodeOk(s, s.threads[st.t].list[s.threads[st.t].pc.i]);
      }
    }
  }

  lemma OwnThread(s: State, st: Step)
    requires Enabled(s, st) && ThreadOk(s, s.threads[st.t]) && s.epoch < NONE
    requires st.a.Alloc? ==> st.a.n !in s.birth
    requires st.a.Retire? && st.a.n != NULL ==> st.a.n !in s.retire
    ensures ThreadOk(Apply(s, st), Apply(s, st).threads[st.t])
  {
  }

  lemma StepThread(s: State, st: Step, r: nat)
    requires Inv(s) && Enabled(s, st) && s.epoch < NONE && r < |s.threads|
    ensures ThreadOk(Apply(s, st), Apply(s, st).threads[r])
  {
    var s', th := Apply(s, st), s.threads[r];
    assert ThreadOk(s, th) && ThreadOk(s, s.threads[st.t]);
    assert r < st.t ==> Apart(s.threads[r].pc, s.threads[st.t].pc);
    assert st.t < r ==> Apart(s.threads[st.t].pc, s.threads[r].pc);
    if st.a.Alloc? { assert NodeOk(s, st.a.n); }
    if st.a.Retire? { assert NodeOk(s, st.a.n); }
    hide Inv, NodeOk, Removable;
    if r == st.t { hide Apart; OwnThread(s, st); }
  }

  lemma StepApart(s: State, st: Step, t: nat, r: nat)
    requires Inv(s) && Enabled(s, st) && t < r < |s.threads|
    ensures Apart(Apply(s, st).threads[t].pc, Apply(s, st).threads[r].pc)
  {
    assert ThreadOk(s, s.threads[t]) && ThreadOk(s, s.threads[r]) && Apart(s.threads[t].pc, s.threads[r].pc);
    assert s.threads[t].pc.Stamp? ==> NodeOk(s, s.threads[t].pc.n);
    assert s.threads[r].pc.Stamp? ==> NodeOk(s, s.threads[r].pc.n);
    hide Inv, ThreadOk, Removable, Deletes;
  }

  lemma StepKeepsInv(s: State, st: Step)
    requires Inv(s) && Enabled(s, st) && s.epoch < NONE
    ensures Inv(Apply(s, st)) && s.epoch <= Apply(s, st).epoch
  {
    var s' := Apply(s, st);
    StepNodes(s, st);
    assert |s'.res| == |s'.threads| == |s.threads| && s.epoch <= s'.epoch;
    hide Apply, NodeOk, ThreadOk, Apart;
    forall r | 0 <= r < |s'.threads| ensures ThreadOk(s', s'.threads[r]) { StepThread(s, st, r); }
    forall t, r | 0 <= t < r < |s'.threads| ensures Apart(s'.threads[t].pc, s'.threads[r].pc) { StepApart(s, st, t, r); }
  }

  lemma RunStep(run: seq<State>, steps: seq<Step>, i: nat)
    requires IsRun(run, steps) && i + 1 < |run|
    ensures |run| == |steps| + 1 && run[i].epoch < NONE
    ensures Enabled(run[i], steps[i]) && run[i + 1] == Apply(run[i], steps[i])
  {
  }

  lemma {:induction false} RunKeepsInv(run: seq<State>, steps: seq<Step>, i: nat)
    requires IsRun(run, steps) && i < |run|
    ensures Inv(run[i])
  {
    if i > 0 {
      hide Inv, Apply, Enabled;
      RunKeepsInv(run, steps, i - 1);
      RunStep(run, steps, i - 1);
      StepKeepsInv(run[i - 1], steps[i - 1]);
    }
  }

  // ---------------------------------------------------------------- snapshot lifetime

  /** A pass of r that has the node n in its list and has copied the reservation of t. */
  predicate Copied(th: Thread, t: nat, n: Node) {
    (th.pc.Snapshot? || th.pc.Sweep?) && n in th.list && t < |th.snap|
  }

  predicate CopyOk(th: Thread, t: nat, e: nat, n: Node) {
    && (Copied(th, t, n) ==> th.snap[t] == e)
    && (th.pc.Sweep? && n in th.list ==> t < |th.snap|)
  }

  /** The reservation e of t keeps n: it is in the life of n, whenever n is retired, and it is
      what every pass that can see n has copied. */
  ghost predicate Keeps(s: State, t: nat, e: nat, n: Node) {
    && t < |s.threads| && t < |s.res| && s.res[t] == e && e <= s.epoch
    && n in s.birth && s.birth[n] <= e
    && (n in s.retire ==> e <= s.retire[n])
    && n !in s.freed
    && forall r | 0 <= r < |s.threads| :: CopyOk(s.threads[r], t, e, n)
  }

  lemma StepCopy(s: State, st: Step, t: nat, e: nat, n: Node, r: nat)
    requires Inv(s) && Enabled(s, st) && Keeps(s, t, e, n) && r < |s.threads|
    ensures CopyOk(Apply(s, st).threads[r], t, e, n)
  {
    assert CopyOk(s.threads[r], t, e, n);
  }

  /** One step of any thread, as long as the slot of t shows the same reservation. */
  lemma StepKeeps(s: State, st: Step, t: nat, e: nat, n: Node)
    requires Inv(s) && Enabled(s, st) && s.epoch < NONE && Keeps(s, t, e, n) && Apply(s, st).res[t] == e
    ensures Keeps(Apply(s, st), t, e, n)
  {
    var s', th := Apply(s, st), s.threads[st.t];
    assert NodeOk(s, n) && ThreadOk(s, th) && CopyOk(th, t, e, n);
    if st.a.Go? && th.pc.Sweep? && th.pc.i < |th.list| && th.list[th.pc.i] == n {
      assert Conflict(th.snap, s.birth[n], s.retire[n]);
    }
    forall r | 0 <= r < |s'.threads| ensures CopyOk(s'.threads[r], t, e, n) { StepCopy(s, st, t, e, n, r); }
  }

  lemma {:induction false} RunKeeps(run: seq<State>, steps: seq<Step>, i: nat, k: nat, t: nat, e: nat, n: Node)
    requires IsRun(run, steps) && i <= k < |run| && Keeps(run[i], t, e, n)
    requires forall x | i <= x <= k :: t < |run[x].res| && run[x].res[t] == e
    ensures Keeps(run[k], t, e, n)
  {
    if i < k {
      hide Inv, Apply, Enabled, Keeps, IsRun;
      RunKeeps(run, steps, i, k - 1, t, e, n);
      RunStep(run, steps, k - 1);
      RunKeepsInv(run, steps, k - 1);
      StepKeeps(run[k - 1], steps[k - 1], t, e, n);
    }
  }

  /** Thread t loads the epoch in step a and stores it in step b: one call of `start_op`. */
  ghost predicate StartsOp(run: seq<State>, steps: seq<Step>, a: nat, b: nat, t: nat) {
    && IsRun(run, steps) && a < b < |steps| && t < |run[a].threads|
    && steps[a] == steps[b] == Step(t, Go) && run[a].threads[t].pc.LoadEpoch?
    && forall x | a < x < b :: steps[x].t != t
  }

  lemma OthersStand(s: State, st: Step, t: nat)
    requires Enabled(s, st) && st.t != t && t < |s.threads|
    ensures t < |Apply(s, st).threads| && Apply(s, st).threads[t] == s.threads[t]
  {
    hide NextThread, Starts;
  }

  lemma BornStays(s: State, st: Step, n: Node)
    requires Inv(s) && Enabled(s, st) && n in s.birth
    ensures n in Apply(s, st).birth && Apply(s, st).birth[n] == s.birth[n]
  {
    assert ThreadOk(s, s.threads[st.t]);
  }

  lemma {:induction false} LoadedStays(run: seq<State>, steps: seq<Step>, a: nat, b: nat, t: nat, n: Node)
    requires IsRun(run, steps) && a < b < |run| && |run| == |steps| + 1 && t < |run[a].threads|
    requires steps[a] == Step(t, Go) && run[a].threads[t].pc.LoadEpoch? && (forall x | a < x < b :: steps[x].t != t)
    requires n in run[a].birth
    ensures t < |run[b].threads| && run[b].threads[t].pc == StoreEpoch(run[a].epoch)
    ensures n in run[b].birth && run[b].birth[n] <= run[a].epoch
  {
    hide IsRun, Inv, Apply, Enabled;
    RunStep(run, steps, b - 1);
    RunKeepsInv(run, steps, b - 1);
    if a + 1 == b {
      EpochLoaded(run[a], t, n);
    } else {
      LoadedStays(run, steps, a, b - 1, t, n);
      OthersStand(run[b - 1], steps[b - 1], t);
    }
    BornStays(run[b - 1], steps[b - 1], n);
  }

  lemma EpochLoaded(s: State, t: nat, n: Node)
    requires Inv(s) && Enabled(s, Step(t, Go)) && s.threads[t].pc.LoadEpoch? && n in s.birth
    ensures t < |Apply(s, Step(t, Go)).threads| && Apply(s, Step(t, Go)).threads[t].pc == StoreEpoch(s.epoch)
    ensures s.birth[n] <= s.epoch
  {
    assert NodeOk(s, n);
  }

  lemma StoreKeeps(s: State, t: nat, n: Node)
    requires Inv(s) && Enabled(s, Step(t, Go)) && s.epoch < NONE && s.threads[t].pc.StoreEpoch?
    requires n in s.birth && s.birth[n] <= s.threads[t].pc.e && n !in s.retire
    ensures Keeps(Apply(s, Step(t, Go)), t, s.threads[t].pc.e, n)
  {
    var s', e := Apply(s, Step(t, Go)), s.threads[t].pc.e;
    assert NodeOk(s, n) && ThreadOk(s, s.threads[t]);
    forall r | 0 <= r < |s'.threads| ensures CopyOk(s'.threads[r], t, e, n) { assert ThreadOk(s, s.threads[r]); }
  }

  /** Snapshot lifetime: a node that had its birth epoch when `start_op` read the epoch, and was
      not retired when `start_op` stored its reservation, is deleted by no thread as long as the
      slot shows that reservation. */
  lemma SnapshotLifetime(run: seq<State>, steps: seq<Step>, a: nat, b: nat, k: nat, t: nat, n: Node)
    requires StartsOp(run, steps, a, b, t) && b < k < |run|
    requires n in run[a].birth && n !in run[b].retire
    requires forall x | b < x <= k :: t < |run[x].res| && run[x].res[t] == run[b + 1].res[t]
    ensures n !in run[k].freed
    ensures run[b + 1].res[t] == run[a].epoch
  {
    var e := run[a].epoch;
    hide Inv, Apply, Enabled, Keeps;
    LoadedStays(run, steps, a, b, t, n);
    RunStep(run, steps, b);
    RunKeepsInv(run, steps, b);
    StoreKeeps(run[b], t, n);
    StoresEpoch(run[b], t);
    RunKeeps(run, steps, b + 1, k, t, e, n);
    KeptIsNotFreed(run[k], t, e, n);
  }

  lemma StoresEpoch(s: State, t: nat)
    requires Enabled(s, Step(t, Go)) && s.threads[t].pc.StoreEpoch?
    ensures t < |Apply(s, Step(t, Go)).res| && Apply(s, Step(t, Go)).res[t] == s.threads[t].pc.e
  {
  }

  lemma KeptIsNotFreed(s: State, t: nat, e: nat, n: Node)
    requires Keeps(s, t, e, n)
    ensures n !in s.freed
  {
  }

  // ---------------------------------------------------------------- who can hold up a retired node

  predicate InLife(s: State, e: nat, n: Node) {
    n in s.birth && n in s.retire && s.birth[n] <= e <= s.retire[n]
  }

  /** The next step of t stores a reservation in the life of n. */
  predicate WillBlock(s: State, t: nat, n: Node) {
    t < |s.threads| && s.threads[t].pc.StoreEpoch? && InLife(s, s.threads[t].pc.e, n)
  }

  predicate BlockedBy(s: State, t: nat, n: Node) {
    t < |s.res| && InLife(s, s.res[t], n)
  }

  /** n was retired in an epoch that is over. */
  predicate Past(s: State, n: Node) {
    n in s.retire && s.retire[n] < s.epoch
  }

  lemma StepBlocksNoMore(s: State, st: Step, t: nat, n: Node)
    requires Inv(s) && Enabled(s, st) && s.epoch < NONE && Past(s, n)
    ensures Past(Apply(s, st), n)
    ensures WillBlock(Apply(s, st), t, n) ==> WillBlock(s, t, n)
    ensures BlockedBy(Apply(s, st), t, n) ==> BlockedBy(s, t, n) || WillBlock(s, t, n)
  {
    assert NodeOk(s, n) && ThreadOk(s, s.threads[st.t]);
    hide Inv, NodeOk, Deletes;
  }

  /** Once the epoch has moved past the retirement of n, only reservations that were there, or
      whose epoch was already read, can keep it: an operation that starts later never does. */
  lemma {:induction false} BlockersOnlyShrink(run: seq<State>, steps: seq<Step>, i: nat, k: nat, t: nat, n: Node)
    requires IsRun(run, steps) && i <= k < |run| && Past(run[i], n)
    ensures Past(run[k], n)
    ensures WillBlock(run[k], t, n) ==> WillBlock(run[i], t, n)
    ensures BlockedBy(run[k], t, n) ==> BlockedBy(run[i], t, n) || WillBlock(run[i], t, n)
  {
    hide IsRun, Inv, Apply, Enabled, Past, WillBlock, BlockedBy;
    if i < k {
      BlockersOnlyShrink(run, steps, i, k - 1, t, n);
      RunStep(run, steps, k - 1);
      RunKeepsInv(run, steps, k - 1);
      StepBlocksNoMore(run[k - 1], steps[k - 1], t, n);
    }
  }

  // ---------------------------------------------------------------- nothing else is held up

  /** A pass frees the node it stands on exactly when no reservation that it has copied lies in
      the life of the node. */
  lemma PassFreesUnlessReserved(s: State, t: nat)
    requires Inv(s) && Enabled(s, Step(t, Go)) && s.threads[t].pc.Sweep? && s.threads[t].pc.i < |s.threads[t].list|
    ensures var s', th := Apply(s, Step(t, Go)), s.threads[t];
            var i, n := th.pc.i, th.list[th.pc.i];
            && n in s.birth && n in s.retire
            && if exists k | 0 <= k < |th.snap| :: s.birth[n] <= th.snap[k] <= s.retire[n] then
                 s'.freed == s.freed && s'.threads[t].list == th.list
               else
                 s'.freed == s.freed + {n} && s'.threads[t].list == th.list[..i] + th.list[i + 1..]
  {
    var th := s.threads[t];
    assert ThreadOk(s, th);
    assert th.list[th.pc.i] in th.list;
    assert NodeOk(s, th.list[th.pc.i]);
  }

  /** So a node is kept by a pass only for a reservation in its life. */
  lemma KeptForALife(s: State, t: nat)
    requires Inv(s) && Enabled(s, Step(t, Go)) && s.threads[t].pc.Sweep? && s.threads[t].pc.i < |s.threads[t].list|
    ensures var th, n := s.threads[t], s.threads[t].list[s.threads[t].pc.i];
            n in Apply(s, Step(t, Go)).freed || exists k | 0 <= k < |th.snap| :: InLife(s, th.snap[k], n)
  {
    PassFreesUnlessReserved(s, t);
    hide Inv, Apply, Enabled;
  }

  /** After `end_op` the thread holds up no node, and it does not until it starts again. */
  lemma EndOpReleases(s: State, st: Step)
    requires Inv(s) && Enabled(s, st) && s.epoch < NONE
    ensures var s', th := Apply(s, st), s.threads[st.t];
            && (th.pc.Leave? ==> s'.res[st.t] == NONE && forall n :: !BlockedBy(s', st.t, n))
            && (forall r | 0 <= r < |s.res| && s.res[r] == NONE && s'.res[r] != NONE :: r == st.t && th.pc.StoreEpoch?)
  {
    var s' := Apply(s, st);
    StepKeepsInv(s, st);
    if s.threads[st.t].pc.Leave? {
      forall n ensures !BlockedBy(s', st.t, n) { assert NodeOk(s', n) && s'.epoch < NONE; }
    }
  }

  /** The epochs in a node are what the clock showed: at its birth, and at its retirement. */
  lemma EpochsAreRead(s: State, st: Step, n: Node)
    requires Enabled(s, st)
    ensures var s' := Apply(s, st);
            && (n in s'.birth && n !in s.birth ==> s'.birth[n] == s.epoch && s.threads[st.t].pc == GiveBirth(n))
            && (n in s'.retire && n !in s.retire ==> s'.retire[n] == s.epoch && s.threads[st.t].pc == Stamp(n))
            && (s.threads[st.t].pc == GiveBirth(n) ==> n in s'.birth)
            && (s.threads[st.t].pc == Stamp(n) ==> n in s'.retire && n in s'.threads[st.t].list)
  {
  }

  // ---------------------------------------------------------------- how the epoch moves

  /** How many allocations t has started by state i. */
  ghost function Allocations(steps: seq<Step>, i: nat, t: nat): nat
    requires i <= |steps|
  {
    if i == 0 then 0 else Allocations(steps, i - 1, t) + (if steps[i - 1].t == t && steps[i - 1].a.Alloc? then 1 else 0)
  }

  /** How many times t, or anybody, has moved the epoch by state i. */
  ghost function Ticks(run: seq<State>, steps: seq<Step>, i: nat, t: nat): nat
    requires i <= |steps| < |run|
  {
    if i == 0 then 0
    else Ticks(run, steps, i - 1, t) + (if steps[i - 1].t == t && run[i].epoch != run[i - 1].epoch then 1 else 0)
  }

  ghost function AllTicks(run: seq<State>, steps: seq<Step>, i: nat): nat
    requires i <= |steps| < |run|
  {
    if i == 0 then 0 else AllTicks(run, steps, i - 1) + (if run[i].epoch != run[i - 1].epoch then 1 else 0)
  }

  lemma OneTick(s: State, st: Step)
    requires Enabled(s, st) && s.epoch < NONE
    ensures Apply(s, st).epoch == s.epoch + (if s.threads[st.t].pc.Tick? then 1 else 0)
    ensures Apply(s, st).epochFreq == s.epochFreq && |Apply(s, st).threads| == |s.threads|
  {
  }

  /** Where the allocation of a thread stands after a step: its counter, and whether it has yet to
      move the epoch. */
  lemma CountersMove(s: State, st: Step, t: nat)
    requires Enabled(s, st) && t < |s.threads|
    ensures var th, th' := s.threads[t], Apply(s, st).threads[t];
            var count := Inc(th.allocStat);
            if st.t == t && st.a.Alloc? then
              !th.pc.Tick? && th'.allocStat == count && (th'.pc.Tick? <==> count % s.epochFreq == 0)
            else
              th'.allocStat == th.allocStat && (th'.pc.Tick? <==> th.pc.Tick? && st.t != t)
  {
  }

  lemma IncBelow(a: nat)
    ensures a + 1 < WORD ==> Inc(a) == a + 1
  {
  }

  lemma RunStarts(run: seq<State>, steps: seq<Step>, t: nat)
    requires IsRun(run, steps)
    ensures |run| == |steps| + 1 && run[0].epoch == 0 && run[0].epochFreq > 0
    ensures t < |run[0].threads| ==> run[0].threads[t].allocStat == 0 && run[0].threads[t].pc.Idle?
  {
  }

  lemma FarMultiples(e: nat, d: int)
    requires e > 0
    ensures d >= 2 ==> e * d >= 2 * e
    ensures d <= -1 ==> e * d + e <= 0
  {
    if d >= 2 { assert e * d == e * (d - 2) + 2 * e; }
    if d <= -1 { assert e * d + e == e * (d + 1); }
  }

  lemma NextMultiple(a: nat, e: nat)
    requires e > 0
    ensures (a + 1) / e == a / e + (if (a + 1) % e == 0 then 1 else 0)
  {
    var d := (a + 1) / e - a / e;
    assert a + 1 == e * ((a + 1) / e) + (a + 1) % e && a == e * (a / e) + a % e;
    assert e * d == e * ((a + 1) / e) - e * (a / e);
    FarMultiples(e, d);
    assert d == 0 || d == 1;
    assert e * 0 == 0 && e * 1 == e;
  }

  /** The epoch moves exactly with every `epochFreq`-th allocation of a thread: each thread has
      moved it as often as epochFreq goes into the number of its allocations, but for the move it is
      about to make, and nothing else moves it. */
  lemma {:induction false} EpochCountsAllocations(run: seq<State>, steps: seq<Step>, i: nat, t: nat)
    requires IsRun(run, steps) && i < |run| && t < |run[i].threads| && Allocations(steps, i, t) < WORD
    ensures run[i].epoch == AllTicks(run, steps, i)
    ensures run[i].epochFreq == run[0].epochFreq > 0 && |run[i].threads| == |run[0].threads|
    ensures run[i].threads[t].allocStat == Allocations(steps, i, t)
    ensures Ticks(run, steps, i, t) + (if run[i].threads[t].pc.Tick? then 1 else 0) == Allocations(steps, i, t) / run[0].epochFreq
  {
    hide IsRun, Enabled, Apply, Inc;
    RunStarts(run, steps, t);
    if i > 0 {
      RunStep(run, steps, i - 1);
      var s, st := run[i - 1], steps[i - 1];
      OneTick(s, st);
      EpochCountsAllocations(run, steps, i - 1, t);
      CountersMove(s, st, t);
      var a := Allocations(steps, i - 1, t);
      assert a + 1 < WORD ==> Inc(a) == a + 1 by { IncBelow(a); }
      NextMultiple(a, run[0].epochFreq);
    }
  }
}
