# Safe memory reclamation and its lock-free containers

This project models the four schemes for safe memory reclamation of the repository (user-level RCU,
hazard pointers, hazard eras, and interval-based reclamation) and the containers that are built on
them (a Harris-Michael list, Michael-Scott queues and Treiber stacks), and proves that they are
correct.

There are three layers.

* **Protocols as step machines.** Each step of `Urcu`, `Hazards`, `Eras` and `Intervals` is one
  atomic access of one thread. A run is any finite interleaving of any number of threads.
* **Containers as step machines on top of them.** `UrcuList`, `UrcuQueue`, `UrcuStack`,
  `HazardQueue`, `HazardStack`, `EraQueue` and `EraList` have one step per atomic access of the
  container code. A step that would read, write or delete a deleted node sets `crashed`; the memory
  safety theorems say that no run gets there. The refinement theorems say that the steps are those
  of a sequential set, queue or stack, and that what each call returns was right at some moment of
  the call. The files named `...Reclaim` say that nothing leaks and that nothing is spared without
  a reason: what a call takes out is deleted or waits in a retired list, every scan is exact, and
  an idle thread holds up nobody. Those named `...Solo` say that a call that runs alone comes to its
  end, with a bound on its steps.
* **Reclamation passes as classes.** `HazardPointers`, `HazardErasPass` and `IntervalPasses` are the
  objects with their vectors and counters, and their methods have the loops of the source. They are
  proved against `Sweeping`, the exact meaning of erasing from a vector while its index goes on. The
  steps of `Intervals`, whose passes work on a private copy of the reservations, are shown to make
  the same passes in every interleaving, and those of `Hazards` and `Eras` when nobody else moves.
  While others write to the table, a scan frees a node when it has read every slot at some moment
  without it, and keeps a node that it judges because some slot showed it at such a moment.

How the files belong together:

| files | content |
|---|---|
| `Urcu` | the grace period, and how long a synchronizer can be held up |
| `UrcuSolo`, `ScanSteps` | how many own steps a readLock, a wait and a scan can still take |
| `UrcuList`, `UrcuListInvariant`, `UrcuListSteps`, `UrcuListTheorems`, `UrcuListResults`, `UrcuListReclaim`, `UrcuListSolo` | the list on URCU |
| `QueueMemory`, `TailFifo` | what the three queues share |
| `HazardQueue`, `HazardQueueProofs`, `HazardQueueResults`, `HazardQueueReclaim`, `HazardQueueSolo` | the queue on hazard pointers |
| `UrcuQueue`, `UrcuQueueProofs`, `UrcuQueueResults`, `UrcuQueueReclaim`, `UrcuQueueSolo` | the queue on URCU |
| `EraQueue`, `EraQueueProofs`, `EraQueueResults`, `EraQueueCalls`, `EraQueueReclaim`, `EraQueueSolo` | the queue on hazard eras |
| `StackMemory` | what the two stacks share |
| `UrcuStack`, `UrcuStackResults`, `UrcuStackReclaim`, `UrcuStackSolo` | the stack on URCU |
| `HazardStack`, `HazardStackResults`, `HazardStackReclaim`, `HazardStackSolo` | the stack on hazard pointers |
| `Hazards`, `Eras`, `EraScans` | scans that read a table slot by slot while others write to it |
| `EraListMemory`, `EraList`, `EraListProofs`, `EraListTheorems`, `EraListReclaim` | the list on hazard eras: its moving protection and its deletions |
| `Intervals` | epoch reservations and their snapshots |
| `Sweeping`, `HazardPointers`, `HazardErasPass`, `IntervalPasses` | reclamation passes as methods |

## How the source is modelled

* Memory is sequentially consistent. A node is a number, and `new` returns one that was never used
  before. A link with a mark bit is a number and a boolean.
* Stamps, life cycles, orders and witnesses are history: the program has none of them and no step
  branches on them.
* Loads of fields that never change after construction (`tail` of the lists, keys, `newEra`) are part
  of the step that uses them. The first access inside `readLock`, `readUnlock` and `synchronizeRCU`
  is a step of the caller.
* Unsigned counters wrap. The URCU version and the IBR epoch wrap too; runs are those in which the
  version stays below the two reserved constants (`urcu/URCU.hpp:7-8`) and the epoch below `UINT64_MAX`.
  The era clock wraps in the class of `HazardErasPass`; in the step machines on eras it is a number
  without bound, so that their runs are those in which the clock stays below 2 to the 64.
* `hazarderas/hazarderas.hpp:87` reads row `threadID` of the table in a loop over all rows. The
  models read the row of the loop variable, as the loop is meant.
* The constructors at `hazardpointer/QueueHazardPointer.hpp:18`, `hazardpointer/StackHazardPointer.hpp:19`
  and `hazarderas/QueueHazardEras.hpp:23` assign the parameter to itself and leave the field `item`
  unset. The value of a node is the node itself here, as if they did set it.
* After an unlink, `curr = next` can carry the mark bit (`urcu/LinkedListURCU.hpp:178`,
  `hazarderas/LinkedListHazardEras.hpp:166`). It is modelled without it.
* `readLock` can be entered again by a thread that has not left its section
  (`urcu/QueueURCU.hpp:121-133`, `urcu/StackURCU.hpp:73-92`): the old section ends and a new one begins.
* In the list on URCU the two nodes that the constructor makes are FIRST and LAST. `find` stops as
  soon as the successor is LAST, so every key is inserted before FIRST.
* `push` of the URCU stack accepts a null item; the set `blank` holds the nodes that were pushed with one.
* One claim that is usually made for hazard pointers is false of this code: that the backlog of
  retired nodes is bounded. The flag of line 68 of `hazardpointer/hazardpointer.hpp` is set once per
  pass, so that a published node keeps everything after it, and every pass brings it closer to the
  front. `HazardPointers.BoundedIffNonePublished` gives the exact condition: while the hazard table
  stands still the backlog is bounded if and only if none of the retired nodes is published.
* `find` of the list on hazard eras copies eras to later slots only. `Eras.MoveIsSafeIffUpward` says
  that this is what its safety hangs on: moving an era between two slots is safe against every scan
  exactly when it goes to a later one.
* A remove of the list on URCU that answers true has not always deleted its node. When an add comes
  between the place and the node before the mark, the unlink fails and the marked node stays in the
  list for a later `find`. `UrcuListReclaim.AddBetweenLeavesMarked` is that case, and
  `UrcuListReclaim.RemoveFreesIffPlaceLinks` gives the exact condition.
* Two calls do not give back what they hold: a dequeue of the URCU queue that returns null stays in
  its read section (`UrcuQueueReclaim.LeavesSectionIffNotNull`), and `contains` of the list on hazard
  eras returns without clearing its slots (`hazarderas/LinkedListHazardEras.hpp:110-111`).

## Model

| member | source | states |
|---|---|---|
| Urcu.StepKeepsInv | urcu/URCU.hpp:49-75 | every access of readLock, readUnlock and synchronizeRCU keeps the invariant: an older section shows an awaited version until it ends, also between the two loads or stores of readLock |
| Urcu.GracePeriod | urcu/URCU.hpp:49-75 | when synchronizeRCU has returned, every section whose final version load came before the call's version load is over, for any number of readers and updaters |
| Urcu.GraceCovers | urcu/URCU.hpp:66-75 | a returned call covers all stamps before it: no running section began before them |
| Urcu.DebtFalls | urcu/URCU.hpp:49-75 | once the version is past the awaited one no event of anyone makes a thread's debt of delaying events grow, and each own event of a thread in debt pays some |
| Urcu.BlockedSlotCanMove | urcu/URCU.hpp:49-74 | a slot that still holds up a synchronizer belongs to a thread with a reader event to make |
| Urcu.NotHeldUpByNewReaders | urcu/URCU.hpp:66-75 | after its compare-exchange, won or lost, the version is past the awaited one, and all later delaying reader events together are at most five per thread, whoever starts to read |
| Urcu.DebtIsPaid | urcu/URCU.hpp:49-64 | what a thread owes is paid off by as many own reader events and is never run up again |
| Urcu.WaitEnds | urcu/URCU.hpp:66-75 | if sections end, the wait ends: when every thread has made as many reader events as it owed, which is at most five, a call that is still spinning makes fewer loads than there are slots |
| Urcu.FallsBackOnlyByStaleStore | urcu/URCU.hpp:51-52 | a slot falls back to an awaited version only by the first store of a readLock that was in flight |
| Urcu.FallsBackAtMostOnce | urcu/URCU.hpp:49-58 | in every run a slot falls back to an awaited version at most once, and not at all if no stale load was in flight |
| Urcu.StaleStoreIsRepaired | urcu/URCU.hpp:49-58 | in every run, wherever the readLock that made the stale store is stopped and whatever others do, its next two events are the reload and the repair, after which the slot is past the awaited version and nothing is owed |
| UrcuListTheorems.StepKeepsInv | urcu/LinkedListURCU.hpp:60-208 | every step of add, remove, contains, find and deleteRetired keeps the sorted chain, the abstract set, the stamps and what every thread knows |
| UrcuListResults.NoUseAfterFree | urcu/LinkedListURCU.hpp:60-208 | no step of any run dereferences, changes or deletes a deleted node |
| UrcuListResults.StampMeansLinked | urcu/LinkedListURCU.hpp:110-118 | the stamp of an unlinked or deleted node names a moment of the run when it was in the list |
| UrcuListResults.HeldWasLinked | urcu/LinkedListURCU.hpp:142-184 | the node a traversal stands on was in the list at some moment after its section began |
| UrcuListResults.StepLives | urcu/LinkedListURCU.hpp:103-118 | a linked node leaves the list by one winning compare-exchange, only when marked; only the winner deletes it; nothing is linked again (when it does leave: `UrcuListReclaim`) |
| UrcuListResults.DeleteKills | urcu/LinkedListURCU.hpp:114-118 | what is deleted was not deleted before and is not in the list |
| UrcuListResults.DeletedOnce | urcu/LinkedListURCU.hpp:71-118 | no node is deleted twice in a run |
| UrcuListResults.NothingLeaks | urcu/LinkedListURCU.hpp:167-208 | every unlinked node is in the hands of the one running call that unlinked it, and the printed counter is the length of its vector |
| UrcuListResults.WalkIsSorted | urcu/LinkedListURCU.hpp:142-184 | every walk from head meets nodes of the list only, in strictly ascending order of keys |
| UrcuListResults.SetIsReachable | urcu/LinkedListURCU.hpp:142-196 | a key is in the abstract set exactly when a walk from head ends at an unmarked node with that key |
| UrcuListResults.StepRefinesSet | urcu/LinkedListURCU.hpp:60-122 | add takes effect at its link, of an absent key, and remove at its mark, of a present key; all other steps leave the set alone |
| UrcuListResults.ChangesOnce | urcu/LinkedListURCU.hpp:60-122 | a call changes the set exactly once if it has committed and never otherwise |
| UrcuListResults.VersionsOccur | urcu/LinkedListURCU.hpp:142-184 | every version of the set between the start of a call and a later state was the set at some state in between |
| UrcuListResults.AnswersAreRight | urcu/LinkedListURCU.hpp:60-184 | what contains answers, and what a failing add or remove says, was true of the set at some moment inside the call, also when find stopped early or had helped; a successful one changed the set exactly once |
| UrcuListReclaim.UnlinkIsExact | urcu/LinkedListURCU.hpp:109-118 | the unlinking exchange of a remove or a find takes its node out of the list, by this thread and into its hands, exactly when the place links to the node without a mark; otherwise it changes nothing |
| UrcuListReclaim.FreedWhenDone | urcu/LinkedListURCU.hpp:113-118 | what a thread has unlinked, as remover or as helper, is deleted when its call is done |
| UrcuListReclaim.RemoveFreesIffPlaceLinks | urcu/LinkedListURCU.hpp:103-120 | a remove that has marked its node and then runs alone ends with the node deleted if and only if the place still linked to it at the mark; otherwise the node stays in the list with its mark |
| UrcuListReclaim.AddBetweenLeavesMarked | urcu/LinkedListURCU.hpp:76-120 | how that fails: an add links its node between the place and the node, and the remove marks, fails to unlink and answers true with its node still in the list |
| UrcuListReclaim.NewNodesBelong | urcu/LinkedListURCU.hpp:60-85 | a new node that was never in the list belongs to an add that has not answered, or that add has deleted it |
| UrcuListReclaim.IdleHoldsUpNobody | urcu/LinkedListURCU.hpp:60-134 | a thread between two calls, or waiting, shows no version and holds up no synchronizer |
| UrcuListSolo.SoloCompletes | urcu/LinkedListURCU.hpp:60-208 | a call that runs alone, from any reachable state in which no other thread shows a version, takes at most 2 * threads + 22 + r + 5 * l steps, for r nodes unlinked already and l nodes in the list |
| UrcuListSolo.NeverStuck | urcu/LinkedListURCU.hpp:60-208 | in the middle of a call a thread always has a step |
| UrcuListSolo.SoloRemoveDeletes | urcu/LinkedListURCU.hpp:87-122 | a remove that runs alone and answers true has deleted a node with its key |
| UrcuQueueProofs.StepKeepsInv | urcu/QueueURCU.hpp:50-165 | every step of enqueue, dequeue and deleteRetiredNodes keeps the invariant of the queue |
| UrcuQueueProofs.StaleExpectedFails | urcu/QueueURCU.hpp:54-92 | the field at the link can equal the expected value only when that is null: a stale value is the successor of an earlier node, and no two nodes have the same successor |
| UrcuQueueResults.NoUseAfterFree | urcu/QueueURCU.hpp:50-165 | no step of any run touches a deleted node, also on the paths that enter readLock again |
| UrcuQueueResults.LinkNeverOverwrites | urcu/QueueURCU.hpp:54-91 | the link compare-exchange succeeds on a null field only; a stale expected value fails and is refreshed |
| UrcuQueueResults.StepRefinesFifo | urcu/QueueURCU.hpp:50-147 | enqueue appends at its link, dequeue removes the first at its head exchange, other steps change nothing, for the nodes after head as contents |
| UrcuQueueResults.FirstInFirstOut | urcu/QueueURCU.hpp:50-147 | at every state what was enqueued is what was dequeued followed by the contents, in order |
| UrcuQueueResults.EnqueueIsRight | urcu/QueueURCU.hpp:50-98 | an enqueue appends its value in exactly one step of the call |
| UrcuQueueResults.DequeueIsRight | urcu/QueueURCU.hpp:100-147 | a dequeue that returns a value removed it from the front in one step of its own; one that returns null removed nothing and saw the queue empty at some moment |
| UrcuQueueReclaim.NothingLeaks | urcu/QueueURCU.hpp:134-165 | a node that is out of the queue and not deleted is in the hands of the running dequeue that took it out |
| UrcuQueueReclaim.DequeueFrees | urcu/QueueURCU.hpp:134-165 | when a dequeue that returns a value is done, the node that it took out in a step of its own is deleted |
| UrcuQueueReclaim.EnqueueWaits | urcu/QueueURCU.hpp:87-98 | when an enqueue is done, all sections that were running at its link are over |
| UrcuQueueReclaim.LeavesSectionIffNotNull | urcu/QueueURCU.hpp:95-147 | every enqueue and every dequeue that returns a value ends outside a section with a slot that shows no version; a dequeue that returns null ends inside one, and its slot shows a version |
| UrcuQueueSolo.SoloCompletes | urcu/QueueURCU.hpp:50-165 | a call that runs alone, from any reachable state in which no other thread shows a version, takes at most threads + 47 steps |
| UrcuQueueSolo.NeverStuck | urcu/QueueURCU.hpp:50-165 | in the middle of a call a thread always has a step |
| QueueMemory.SuccessorIsNext | urcu/QueueURCU.hpp:87-93 | the successor of a node is the next node ever linked, or null for the last |
| QueueMemory.OnePredecessor | urcu/QueueURCU.hpp:73-91 | no two nodes have the same successor |
| Hazards.CompareKeeps | hazardpointer/hazardpointer.hpp:78-88 | a scan that reads the table slot by slot does not pass the slot of a node that stays published there |
| Hazards.PublishedIsKept | hazardpointer/hazardpointer.hpp:89-95 | such a node is not the one that a scan deletes |
| HazardQueueProofs.StepKeepsInv | hazardpointer/QueueHazardPointer.hpp:44-92 | every step of enqueue, dequeue and of the scan keeps the invariant of the queue and its guards |
| HazardQueueResults.NoUseAfterFree | hazardpointer/QueueHazardPointer.hpp:44-92 | no step of any run touches a deleted node; the printed counter is the length of the retired list |
| HazardQueueResults.TailLagsByOne | hazardpointer/QueueHazardPointer.hpp:50-71 | head is never past tail and tail is at most one link behind the last node |
| HazardQueueResults.StepRefinesFifo | hazardpointer/QueueHazardPointer.hpp:44-92 | a value is appended when tail is swung to its node and removed when head is, other steps change nothing, for the nodes after head up to tail as contents |
| HazardQueueResults.FirstInFirstOut | hazardpointer/QueueHazardPointer.hpp:44-92 | at every state what was enqueued is what was dequeued followed by the contents, in order |
| HazardQueueResults.EnqueueIsRight | hazardpointer/QueueHazardPointer.hpp:44-72 | an enqueue takes effect in a step between its start and its return, by itself or by a helper |
| HazardQueueResults.AppendedOnce | hazardpointer/QueueHazardPointer.hpp:44-72 | no node is appended twice in a run |
| HazardQueueResults.DequeueIsRight | hazardpointer/QueueHazardPointer.hpp:75-92 | a dequeue that returns a value removed it from the front in one step of its own; one that returns null moved nothing, and head had reached tail, so that the queue was empty, at some moment of the call |
| HazardQueueReclaim.NothingLeaks | hazardpointer/QueueHazardPointer.hpp:81-86 | in every run a node that is out of the queue and not deleted is in the retired list of the thread that took it out, or in the hands of its dequeue before the call of retireNode; and a retired list holds only such nodes |
| HazardQueueReclaim.DequeueRetires | hazardpointer/QueueHazardPointer.hpp:75-92 | a dequeue that returns a value took out the node that was head, and when it is done that node is deleted or in its retired list |
| HazardQueueReclaim.IdleProtectsNothing | hazardpointer/QueueHazardPointer.hpp:62-91 | a thread between two calls, or in retireNode, has null in all its slots |
| HazardQueueReclaim.PassIsExact | hazardpointer/hazardpointer.hpp:67-97 | in every interleaving a scan deletes the nodes at the first h even places and keeps the others in order, for some h; each deleted one was absent from every slot at some moment of the scan, and the node at the next even place was in a slot at some moment of it |
| HazardQueueReclaim.DequeueScans | hazardpointer/QueueHazardPointer.hpp:75-92 | a dequeue that returns a value puts the old head at the end of its retired list and makes one whole exact scan of it; any other leaves the list alone |
| HazardQueueSolo.SoloCompletes | hazardpointer/QueueHazardPointer.hpp:44-92 | a call that runs alone, from any reachable state, takes at most slots + 18 + (r + 1) * (threads * slots + 1) steps, for r retired nodes |
| HazardQueueSolo.NeverStuck | hazardpointer/QueueHazardPointer.hpp:44-92 | in the middle of a call a thread always has a step |
| TailFifo.FifoLaw | hazardpointer/QueueHazardPointer.hpp:44-92 | any trace of such steps is first in, first out |
| StackMemory.NothingLost | urcu/StackURCU.hpp:48-99 | in a history that a sequential stack accepts, what was pushed is what was taken together with what is left |
| StackMemory.PopKeeps | urcu/StackURCU.hpp:66-99 | a pop takes the top value, and the sentinel only when nothing else is left, so that it is only ever at the bottom |
| UrcuStack.StepKeepsInv | urcu/StackURCU.hpp:48-117 | every step of push, pop and deleteRetiredNodes keeps the invariant of the stack |
| UrcuStackResults.NoUseAfterFree | urcu/StackURCU.hpp:48-117 | no step of any run touches a deleted node, also on the paths that enter readLock again |
| UrcuStackResults.StepRefinesLifo | urcu/StackURCU.hpp:48-99 | push puts its value on top at its exchange, pop takes the top value, the sentinel is popped only from an empty stack, other steps change nothing |
| UrcuStackResults.LastInFirstOut | urcu/StackURCU.hpp:48-99 | a sequential stack accepts the history of every run and ends with the same values in the same order |
| UrcuStackResults.TakenOnce | urcu/StackURCU.hpp:66-99 | no value is taken twice |
| UrcuStackResults.PushIsRight | urcu/StackURCU.hpp:48-64 | a push puts its value on top in exactly one step of the call |
| UrcuStackResults.PopIsRight | urcu/StackURCU.hpp:66-99 | a pop returns the value it took from the top; a null result means that it took a value pushed as null, or nothing, and then the stack was empty at some moment |
| UrcuStackReclaim.NothingLeaks | urcu/StackURCU.hpp:88-117 | a node that is out of the stack and not deleted is in the hands of the running pop that took it |
| UrcuStackReclaim.PopFrees | urcu/StackURCU.hpp:88-117 | every node that a thread pops, the sentinel too, is deleted when its call is done |
| UrcuStackReclaim.IdleHoldsUpNobody | urcu/StackURCU.hpp:48-99 | a thread that is not reading shows no version and holds up no synchronizer |
| UrcuStackSolo.SoloCompletes | urcu/StackURCU.hpp:48-117 | a call that runs alone, from any reachable state, is done: a push within 8 steps, and a pop, when no other thread shows a version, within threads + 17 |
| UrcuStackSolo.NeverStuck | urcu/StackURCU.hpp:48-117 | in the middle of a call a thread always has a step |
| HazardStack.StepKeepsInv | hazardpointer/StackHazardPointer.hpp:42-90 | every step of push, pop and of the scan keeps the invariant of the stack and its guards |
| HazardStackResults.NoUseAfterFree | hazardpointer/StackHazardPointer.hpp:42-90 | no step of any run touches a deleted node; the printed counter is the length of the retired list |
| HazardStackResults.StepRefinesLifo | hazardpointer/StackHazardPointer.hpp:42-90 | push puts its value on top at its exchange, pop takes the top value, other steps change nothing |
| HazardStackResults.LastInFirstOut | hazardpointer/StackHazardPointer.hpp:42-90 | a sequential stack accepts the history of every run and ends with the same values in the same order |
| HazardStackResults.TakenOnce | hazardpointer/StackHazardPointer.hpp:64-90 | no value is taken twice |
| HazardStackResults.PushIsRight | hazardpointer/StackHazardPointer.hpp:42-62 | a push puts its value on top in exactly one step of the call |
| HazardStackResults.PopIsRight | hazardpointer/StackHazardPointer.hpp:64-90 | a pop returns the value it took from the top in one step; a null result means that the stack was empty at some moment and nothing was taken |
| HazardStackReclaim.NothingLeaks | hazardpointer/StackHazardPointer.hpp:81-87 | in every run a node that is out of the stack and not deleted is in the retired list of the thread that took it, or in the hands of its pop before the call of retireNode; and a retired list holds only such nodes |
| HazardStackReclaim.IdleProtectsNothing | hazardpointer/StackHazardPointer.hpp:57-88 | a thread between two calls has null in all its slots |
| HazardStackReclaim.PassIsExact | hazardpointer/hazardpointer.hpp:67-97 | in every interleaving a scan deletes the nodes at the first h even places and keeps the others in order, for some h; each deleted one was absent from every slot at some moment of the scan, and the node at the next even place was in a slot at some moment of it |
| HazardStackReclaim.PopScans | hazardpointer/StackHazardPointer.hpp:64-90 | a pop that took the top node puts it at the end of its retired list and makes one whole exact scan of it; one that took none returns null and leaves the list alone |
| HazardStackSolo.SoloCompletes | hazardpointer/StackHazardPointer.hpp:42-90 | a call that runs alone, from any reachable state, takes at most slots + 14 + (r + 1) * (threads * slots + 1) steps, for r retired nodes |
| HazardStackSolo.NeverStuck | hazardpointer/StackHazardPointer.hpp:42-90 | in the middle of a call a thread always has a step |
| Eras.CheckProtects | hazarderas/hazarderas.hpp:58-70 | when the clock still shows the era in the slot, the node that was loaded while linked is covered by that era, not deleted, and no scan has got to it |
| Eras.ReclaimNotMissed | hazarderas/hazarderas.hpp:82-118 | no step of retireNode or of its scan passes the slot of a covered node |
| Eras.CoveredIsKept | hazarderas/hazarderas.hpp:106-117 | a covered node is not the one that a scan deletes |
| Eras.UpwardCopyProtects | hazarderas/hazarderas.hpp:72-96 | an era copied to a later slot protects there, whatever scans are under way |
| Eras.MoveIsSafeIffUpward | hazarderas/hazarderas.hpp:72-96 | for every row length and two slots: copying an era and overwriting its old slot never loses the node to a scan, wherever the scan stands and goes on, if and only if the copy goes to a later slot |
| Eras.ReclaimKeepsRetirer | hazarderas/hazarderas.hpp:98-118 | retireNode keeps its list without repetitions, with eras that the clock is past, and its counter equal to the length |
| EraQueueProofs.HeldStays | hazarderas/hazarderas.hpp:58-118 | whatever any thread does, a node that is held stays alive, covered and not passed by a scan while its slot is unchanged |
| EraQueueProofs.StepKeepsInv | hazarderas/QueueHazardEras.hpp:51-98 | every step of enqueue, dequeue and retireNode keeps the invariant of the queue |
| EraQueueResults.NoUseAfterFree | hazarderas/QueueHazardEras.hpp:51-98 | no step of any run touches a deleted node; the printed counter is the length of the retired list |
| EraQueueResults.EraContainment | hazarderas/hazarderas.hpp:58-96 | for every call of get_protected in the queue, on head, tail or next: a node that was in the queue when it was loaded, which is always so for head and tail, is not deleted while the slot is not written, and the published era lies between its birth era and its retirement era |
| EraQueueResults.EndsAreListed | hazarderas/QueueHazardEras.hpp:51-98 | what head and tail point to is always in the queue |
| EraQueueResults.BlockersOnlyShrink | hazarderas/hazarderas.hpp:58-118 | after a retirement has advanced the clock only slots that blocked the node, or stores already decided, can block it; a get_protected that starts later never does |
| EraQueueResults.StepRefinesFifo | hazarderas/QueueHazardEras.hpp:51-98 | every step is a step of a first-in-first-out queue of the nodes after head up to tail |
| EraQueueResults.FirstInFirstOut | hazarderas/QueueHazardEras.hpp:51-98 | at every state what was enqueued is what was dequeued followed by the contents, in order |
| EraQueueCalls.EnqueueIsRight | hazarderas/QueueHazardEras.hpp:51-79 | an enqueue takes effect in a step between its start and its return, by itself or by a helper |
| EraQueueCalls.AppendedOnce | hazarderas/QueueHazardEras.hpp:51-79 | no node is appended twice in a run |
| EraQueueCalls.DequeueIsRight | hazarderas/QueueHazardEras.hpp:81-98 | a dequeue that returns a value removed it from the front in one step of its own; one that returns null moved nothing, and head had reached tail, so that the queue was empty, at some moment of the call |
| EraQueueReclaim.NothingLeaks | hazarderas/QueueHazardEras.hpp:87-91 | in every run a node that is out of the queue and not deleted is in the retired list of the thread that took it out, or in the hands of its dequeue or its retireNode |
| EraQueueReclaim.ErasAreClock | hazarderas/QueueHazardEras.hpp:51-98 | the birth era of a node is the clock at the start of its enqueue, not before any era shown then, its retirement era the clock at its retirement, and neither ever changes |
| EraQueueReclaim.IdleProtectsNothing | hazarderas/QueueHazardEras.hpp:69-97 | a thread between two calls shows no era in any slot |
| EraQueueReclaim.PassIsExact | hazarderas/hazarderas.hpp:82-118 | in every interleaving a scan deletes no two neighbours of its list; what goes had in every slot, when the slot was read, no era between its birth and its retirement, and what stays after a neighbour that stayed had such an era in some slot |
| EraQueueReclaim.DequeueScans | hazarderas/QueueHazardEras.hpp:81-98 | a dequeue that returns a value moved head from a node, puts this node at the end of its retired list and makes one whole exact scan of it; any other leaves the list alone |
| EraQueueSolo.SoloCompletes | hazarderas/QueueHazardEras.hpp:51-98 | a call that runs alone, from any reachable state, takes at most 2 * slots + 30 + (r + 1) * (threads * slots + 1) steps, for r retired nodes |
| EraQueueSolo.NeverStuck | hazarderas/QueueHazardEras.hpp:51-98 | in the middle of a call a thread always has a step |
| EraListMemory.UnlinkKeeps | hazarderas/LinkedListHazardEras.hpp:96-98 | unlinking a marked node from the one place that links to it keeps every link of a listed node on a listed node |
| EraListTheorems.PredShowsCurrListed | hazarderas/LinkedListHazardEras.hpp:142-145 | when pred still links to curr without a mark, curr is in the list, and so its successor was when it was read |
| EraListTheorems.StepKeepsInv | hazarderas/LinkedListHazardEras.hpp:59-173 | every step of add, remove, contains and find keeps the invariant of links and era slots |
| EraListTheorems.NoUseAfterFree | hazarderas/LinkedListHazardEras.hpp:59-173 | no step of any run touches a deleted node |
| EraListTheorems.ProtectionIsNeverMissed | hazarderas/LinkedListHazardEras.hpp:127-167 | what a thread holds as pred, curr or next through validated steps is alive, covered by slot 2, 1 or 0, and not passed there by any scan under way |
| EraListTheorems.HeldIsNotDeleted | hazarderas/LinkedListHazardEras.hpp:127-167 | a scan that deletes a node deletes none that a thread holds as pred, curr or next |
| EraListReclaim.NothingLeaks | hazarderas/LinkedListHazardEras.hpp:81-104 | in every run a node that is out of the list and not deleted is in the retired list of the thread that unlinked it, or in the hands of its remove, its find or its retireNode |
| EraListReclaim.ErasAreClock | hazarderas/LinkedListHazardEras.hpp:59-98 | the birth era of a node is the clock at the start of its add, not before any era shown then, its retirement era the clock at its retirement, and neither ever changes |
| EraListReclaim.ExchangesAreExact | hazarderas/LinkedListHazardEras.hpp:71-101 | an unlink takes its node out into the thread's hands when the place links to it unmarked, and changes nothing otherwise; a link puts the new node in exactly then; an add that fails deletes its node |
| EraListReclaim.IdleProtectsNothing | hazarderas/LinkedListHazardEras.hpp:59-112 | a thread between two calls shows no era in any slot, unless its last call was contains; one in the retireNode of a remove neither |
| EraListReclaim.PassIsExact | hazarderas/hazarderas.hpp:82-118 | in every interleaving a scan deletes no two neighbours of its list; what goes had in every slot, when the slot was read, no era between its birth and its retirement, and what stays after a neighbour that stayed had such an era in some slot |
| EraListReclaim.RetireScans | hazarderas/LinkedListHazardEras.hpp:98-164 | each call of retireNode, of remove and of find, puts its node at the end of the retired list and makes one whole exact scan of it |
| Intervals.StepKeepsInv | intervalbasedrec/IntervalBasedReclamation.hpp:48-113 | every access of start_op, end_op, allocNode, retireNode and the pass keeps birth epochs before retirement epochs before the global epoch |
| Intervals.SnapshotLifetime | intervalbasedrec/IntervalBasedReclamation.hpp:48-113 | a node born before start_op read the epoch and not retired before its reservation was stored is freed by no thread while the slot shows that reservation |
| Intervals.BlockersOnlyShrink | intervalbasedrec/IntervalBasedReclamation.hpp:48-113 | once the epoch is past the retirement of a node no operation that starts later can keep it |
| Intervals.PassFreesUnlessReserved | intervalbasedrec/IntervalBasedReclamation.hpp:85-112 | the pass frees the node it stands on exactly when no copied reservation is at least its birth epoch and at most its retirement epoch, and keeps it in the list otherwise |
| Intervals.EndOpReleases | intervalbasedrec/IntervalBasedReclamation.hpp:48-54 | end_op stores no reservation, after which the thread blocks no node; only the store of its own start_op can change that |
| Intervals.EpochsAreRead | intervalbasedrec/IntervalBasedReclamation.hpp:56-73 | birth and retirement epochs are the global epoch at those moments, and a retired node is in the list |
| Intervals.EpochCountsAllocations | intervalbasedrec/IntervalBasedReclamation.hpp:56-65 | in every run each thread has moved the epoch as often as epochFreq goes into its number of allocations, but for the move it is about to make, and nothing else moves it |
| Sweeping.Conserved | intervalbasedrec/IntervalBasedReclamation.hpp:101-112 | survivors and victims of a pass together are the old list, as multisets |
| Sweeping.OrderKept | intervalbasedrec/IntervalBasedReclamation.hpp:101-112 | the survivors are the nodes at places that were not freed, in their old order |
| Sweeping.FreesHalf | hazarderas/hazarderas.hpp:107-117 | a pass frees at least half of the removable nodes and no others |
| Sweeping.AllRemovable | hazarderas/hazarderas.hpp:107-117 | when all nodes are removable exactly the even places are freed |
| Sweeping.EverySecond | hazarderas/hazarderas.hpp:107-117 | they are deleted in order and the odd places remain in order |
| HazardPointers.HazardPointers.constructor | hazardpointer/hazardpointer.hpp:23-34 | all slots null, all lists empty, counters equal to lengths |
| HazardPointers.HazardPointers.Clear | hazardpointer/hazardpointer.hpp:45-49 | the slots of the thread are null, all others unchanged |
| HazardPointers.HazardPointers.StoreHazardPtr | hazardpointer/hazardpointer.hpp:52-55 | one slot holds the pointer, all others unchanged |
| HazardPointers.HazardPointers.ScanTable | hazardpointer/hazardpointer.hpp:77-88 | the flag survives exactly when it was set and no slot of any thread, from 0 on, holds the node |
| HazardPointers.HazardPointers.RetireNode | hazardpointer/hazardpointer.hpp:67-97 | the list is what a pass with the sticky flag keeps of the old list with the new node, and the counter its length; no deleted node is in any slot of the table, every node in a slot stays, and a front node in no slot is deleted |
| HazardPointers.PassIsExact | hazardpointer/hazardpointer.hpp:67-97 | a pass frees exactly the even places before the first even place whose node is published |
| HazardPointers.CallHalves | hazardpointer/hazardpointer.hpp:67-97 | without hazards a backlog s becomes floor((s + 1) / 2) |
| HazardPointers.BacklogReachesOne | hazardpointer/hazardpointer.hpp:67-97 | without hazards a backlog between 1 and 2 to the k is 1 after k calls, and an empty one stays empty |
| HazardPointers.PublishedMovesForward | hazardpointer/hazardpointer.hpp:67-97 | while the front is not published a published node comes closer to the front with every call |
| HazardPointers.BoundedIffNonePublished | hazardpointer/hazardpointer.hpp:67-97 | while the table stands still the backlog stays bounded, however many unpublished nodes are retired, if and only if no retired node is published, at whatever place |
| HazardPointers.ScanIsPass | hazardpointer/hazardpointer.hpp:67-97 | the scan that reads one slot at a time makes the same pass when nobody else moves |
| HazardErasPass.HazardEras.constructor | hazarderas/hazarderas.hpp:24-35 | clock 1, all slots empty, all lists empty |
| HazardErasPass.HazardEras.Clear | hazarderas/hazarderas.hpp:50-56 | the slots of the thread are empty, all others unchanged |
| HazardErasPass.HazardEras.GetProtected | hazarderas/hazarderas.hpp:58-70 | the pointer is returned and the slot shows the era of the clock, all others unchanged |
| HazardErasPass.HazardEras.ProtectEraRelease | hazarderas/hazarderas.hpp:72-80 | one slot shows the era of another, all others unchanged |
| HazardErasPass.HazardEras.CanRemoveNode | hazarderas/hazarderas.hpp:82-96 | true exactly when every slot is empty or shows an era before the birth or after the retirement of the node |
| HazardErasPass.HazardEras.SweepRetired | hazarderas/hazarderas.hpp:107-117 | the loop over the retired list leaves what a pass keeps by the published eras, and deletes the others in order |
| HazardErasPass.HazardEras.RetireNode | hazarderas/hazarderas.hpp:98-118 | the node gets the clock's era, the clock advances and wraps, the list is what a pass keeps and the counter its length; every slot is empty or outside the life of each deleted node, a node with an era of its life in a slot stays, and a front node without one is deleted |
| HazardErasPass.ScanIsPass | hazarderas/hazarderas.hpp:82-118 | the scan that reads one slot at a time makes the same pass when nobody else moves |
| IntervalPasses.IntervalBasedReclamation.constructor | intervalbasedrec/IntervalBasedReclamation.hpp:28-41 | epoch 0, no reservations, all lists empty, counters 0 |
| IntervalPasses.IntervalBasedReclamation.StartOp | intervalbasedrec/IntervalBasedReclamation.hpp:48-51 | the slot of the thread shows the epoch, all others unchanged |
| IntervalPasses.IntervalBasedReclamation.EndOp | intervalbasedrec/IntervalBasedReclamation.hpp:52-54 | the slot of the thread shows no reservation, all others unchanged |
| IntervalPasses.IntervalBasedReclamation.AllocNode | intervalbasedrec/IntervalBasedReclamation.hpp:56-65 | the epoch moves on with every epochFreq-th allocation, and the node gets the epoch after that |
| IntervalPasses.IntervalBasedReclamation.Conflict | intervalbasedrec/IntervalBasedReclamation.hpp:85-92 | true exactly when some copied reservation is at least the birth and at most the retirement epoch |
| IntervalPasses.IntervalBasedReclamation.EmptyRetireList | intervalbasedrec/IntervalBasedReclamation.hpp:94-113 | the list is what a pass keeps, what it frees is deleted in order, and retireStat stays one behind the length modulo 2 to the 64 although it can wrap |
| IntervalPasses.IntervalBasedReclamation.RetireNode | intervalbasedrec/IntervalBasedReclamation.hpp:67-83 | at call boundaries retireStat is the length modulo 2 to the 64; a pass is made exactly when the backlog before the call, as a word, is a multiple of emptyFreq; null changes nothing |
| IntervalPasses.FiresOnMultiples | intervalbasedrec/IntervalBasedReclamation.hpp:78-81 | below 2 to the 64 passes fire exactly on multiples of emptyFreq |
| IntervalPasses.NothingReserved | intervalbasedrec/IntervalBasedReclamation.hpp:67-113 | a call that finds a backlog of a multiple of emptyFreq and every reservation UINT64_MAX frees exactly the even places and keeps the odd ones in order |
| IntervalPasses.BacklogBound | intervalbasedrec/IntervalBasedReclamation.hpp:67-113 | when at most b nodes conflict in any pass the backlog never exceeds E * ceil(b / E), for E the emptyFreq |
| IntervalPasses.PassIsExact | intervalbasedrec/IntervalBasedReclamation.hpp:94-113 | in every interleaving a pass keeps and frees exactly what the class's pass does for the copy of the reservations that the thread has made |
| IntervalPasses.CounterIsLength | intervalbasedrec/IntervalBasedReclamation.hpp:67-83 | in every interleaving retireStat is the length of the thread's list modulo 2 to the 64 at call boundaries, and a pass fires exactly when the backlog, as a word, is a multiple of emptyFreq |

## Left out

- The benchmarks, the Makefiles and the dumps: timing, random workloads and printing.
- Weak memory orderings, the allocator, reuse of addresses, pointer bits, and destructors.
- Calls of `enqueue` and of the hazard-pointer `push` with null: they return false at once and touch nothing.
- `intervalbasedrec/IntervalBasedReclamation.hpp` under its list, queue and stack: one start epoch does not cover nodes that are born later in the operation, so only the lifetime of nodes born before it and the backlog are stated.
- Set semantics of the lists on hazard pointers, hazard eras and intervals: head and tail are one self-linked sentinel, and `find` breaks before it compares the last real node.
- Memory safety of `hazardpointer/LinkedListHazardPointer.hpp`: it reads `curr->next` (line 129) before it validates `curr` (line 139).
- Liveness of `urcu/QueueURCU.hpp` after a dequeue that finds nothing: it holds up synchronizers (`UrcuQueueReclaim.LeavesSectionIffNotNull`), so solo completion is stated for when nobody else shows a version.
- A bound on the steps of a call of the list on hazard eras: the order of its keys, on which the length of a search depends, is not part of this model.
- `hazarderas/StackHazardEras.hpp`, `intervalbasedrec/QueueIBR.hpp`, `intervalbasedrec/StackIBR.hpp`: they repeat shapes that are covered.
- HazardPointers.HazardPointers.RetireNode: runs alone on its table; `HazardQueueReclaim.PassIsExact` and `HazardStackReclaim.PassIsExact` have the scan with other threads at work.
- HazardErasPass.HazardEras.RetireNode: runs alone on its table; `EraQueueReclaim.PassIsExact` and `EraListReclaim.PassIsExact` have the scan with other threads at work.
- HazardErasPass.HazardEras.GetProtected: the pointer does not change during the call; `EraQueue` and `EraList` have it with other threads at work.
- IntervalPasses.IntervalBasedReclamation.RetireNode: runs alone; `Intervals` has the pass with other threads at work, and `IntervalPasses.PassIsExact` says that it is the same.
- Intervals.SnapshotLifetime: each node is retired once, by a caller that got it from `allocNode`; that is the duty of the containers.
