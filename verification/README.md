# A verified model of the coroutine runtime

The repository is a user-level coroutine library in the G-M-P style: coroutines
(`uthread`), threads that run scheduler loops (`sched`), and one processor `p`
that carries the ready queue, a tree of sleepers, a tree of fd waiters and an
epoll instance. This project models its four hard parts and proves what they
are for.

| file | what it holds |
|---|---|
| `RBShape.dfy`, `RBTree.dfy` | the intrusive red-black tree of `tree.h`: a heap of nodes with parent links, changed in place; the pure part is a tree with a zipper |
| `TreeMap.dfy` | the same tree seen as a map from key to node |
| `EntryTrees.dfy` | one of p's trees with the entry and the key field that every coroutine has for it |
| `Splay.dfy` | the top-down splay tree of `tree.h`, in place on the heap |
| `Entries.dfy`, `Wrappers.dfy` | entries in key order and the comparator, which both kinds of tree share; options |
| `FdKeys.dfy` | the macros that pack an fd and an event into a tree key |
| `Timer.dfy` | the ten-slot timer wheel, linked lists edited in place, the countdowns that it refines, and the wheel as the scheduler uses it |
| `Writev.dfy` | the partial-write loop over an iovec array |
| `SchedState.dfy` | the runtime as a state machine: one step is the code between two context switches |
| `SchedCode.dfy` | the scheduler's code over shared fields, two red-black trees and the timer wheel, changed in place; every action of the state machine is one of its methods |
| `SchedCore.dfy`, `SchedControl.dfy`, `SchedSteps.dfy` | the invariant, the effects that keep it, and that every step has one of them |
| `SchedActs.dfy`, `SchedBits.dfy` | what each action does in every run, field by field, and what the status bits say |
| `SchedRuns.dfy`, `SchedSpans.dfy`, `SchedRace.dfy` | the promises, for every state, step and stretch of every run |

## How the scheduler is modelled

- `SchedRuns.IsRun` admits *any* sequence of actions from the initial state:
  turns of any scheduler, user calls of any running coroutine, ticks, clock
  moves. An action that cannot happen leaves the state as it is, so "for every
  sequence" is "for every run". The promises speak of state n of a run, or of
  states n and n + 1, for every run and every n.
- `SchedCode.Runtime` is the same runtime as code. Its two trees are red-black
  trees on the heap, its timers the wheel. `Perform` does any action, and
  `Execute` any run: the code ends in the state that the state machine names,
  with both trees in order. The state machine's maps are what the trees hold.
  `wakeup_time_usec` and `fd_wait` are kept in the tree entries, where the
  comparators read them, and once more in the coroutine's record; the two are
  equal in every state, and a key is written only while its entry is in no tree.
- A failed `assert`, the use of a null `p` and an empty `sched_idle` end the
  process: the phase becomes `Aborted` with a reason and stays so. No good
  behaviour of callers is assumed to avoid them; `SchedRuns.Faults` says
  exactly which action in which state ends in which fault.
- A step is atomic: `tick`, `add_timer` and the code between two switches. The
  preempting signal lands in user code, where it is a yield.
- epoll is a set of fds: adding one that is there fails, removing one that is
  not there fails, and nobody closes a waited fd. The list that `epoll_wait`
  returns is arbitrary.
- The clock never goes back. Coroutine identities are never used again, so a
  finished coroutine can still be named.
- The status word follows the code, also where it is odd: `_uthread_init`
  overwrites it; the write branches of `_uthread_cancel_event` and
  `handle_event` test and clear `BIT(UT_EVENT_WR)`, which has the value of the
  READY bit; nothing clears EXPIRED or FDEOF; `1<<31-1` is `1<<30`.
- A timed-out join always ends the process: its `fd_wait` is -1, so the
  `EPOLL_CTL_DEL` of `_uthread_cancel_event` fails (`uthread_sched.c:84`). The
  branch of `uthread_join` for a timeout is modelled and is reached only by a
  coroutine whose EXPIRED bit is left over from an earlier wait.

## Where a promise needs a condition

- `uthread_writev` sends everything, but returns the number of bytes sent only
  if the last iovec is not empty; otherwise it returns 0. `UthreadWritev` states
  both, `EmptyLastEntry` is an input.
- One pass over the ready queue resumes exactly what was queued when it began,
  if that was not nothing. A pass that began with an empty queue may still
  resume a coroutine that another thread appends between `uthread_sched.c:228`
  and `:229`. `PassExact` is the exact condition, `EmptyPassRaces` a whole run
  in which it happens.

## Model

| member | source | states |
|---|---|---|
| RBTree.Head.constructor | uthread_sched.c:324-325 | an initialised tree is well formed and empty |
| RBTree.Head.RotateLeft | tree.h:336-354 | the pointers become those of the rotated tree, parent links included; entries, their order and the node set stay |
| RBTree.Head.RotateRight | tree.h:356-374 | the mirror image |
| RBTree.Head.InsertFixLeft | tree.h:407-423 | one turn of the insert fix-up on the left: a red-red edge is repaired or moves up; nothing is lost and heights stay equal |
| RBTree.Head.InsertFixRight | tree.h:424-440 | the mirror image |
| RBTree.Head.InsertColor | tree.h:401-443 | from one red node with possibly a red parent to a red-black tree with a black root and the same entries; the loop ends and the grandparent is never null |
| RBTree.Head.Search | tree.h:597-608 | the search ends at an equal key or at the free link where the key belongs, after s steps with 2^s <= (n+1)^2 |
| RBTree.Head.Insert | tree.h:590-619 | an element with an equal key, the given one itself if it is in the tree, is returned and no cell of the tree changes; or exactly the new node is added at its place in key order, and all red-black, order and parent-link invariants hold again |
| RBTree.Head.LiftRedSiblingLeft | tree.h:452-457 | a red sibling is rotated above the parent; the new sibling is black and not null |
| RBTree.Head.TurnOutSiblingLeft | tree.h:466-475 | the sibling's inner red child is turned outwards |
| RBTree.Head.RepayLeftSide | tree.h:476-483 | the last rotation repays the missing black on the left |
| RBTree.Head.FixBlackSiblingLeft | tree.h:458-483 | with a black sibling the missing black is repaid, or the sibling turns red and the shortage moves up one level |
| RBTree.Head.RemoveFixLeft | tree.h:451-483 | one turn of the delete fix-up on the left: entries stay, and the tree is repaired or the shortage is nearer to the root |
| RBTree.Head.FixBlackSiblingRight | tree.h:491-517 | the mirror image of the black-sibling cases |
| RBTree.Head.RemoveFixRight | tree.h:484-517 | the mirror image of the whole turn |
| RBTree.Head.RemoveColor | tree.h:445-521 | from a tree one black short at the focus to a red-black tree with the same entries; the sibling is never null and the loop ends |
| RBTree.Head.Unlink | tree.h:572-583 | a node with at most one child is bypassed; everything else stays linked |
| RBTree.Head.Successor | tree.h:533-536 | the loop finds the least node of the right subtree |
| RBTree.Head.TakePlace | tree.h:552-563 | a node takes over another's place, colour and links |
| RBTree.Head.RemoveInner | tree.h:532-570 | with two children the successor is spliced out and takes the removed node's place, also when it is the direct child |
| RBTree.Head.Detach | tree.h:523-584 | all three cases take exactly the one entry out and leave at most one black short at the child |
| RBTree.Head.Remove | tree.h:523-588 | exactly the given node leaves, every other entry keeps its place, and all red-black, order and parent-link invariants hold again |
| RBTree.Head.Find | tree.h:621-637 | the element with the key, or null exactly when there is none; s steps with 2^s <= (n+1)^2 |
| RBTree.Head.NFind | tree.h:639-658 | the least element not below the key: all before it are smaller, all from it on are not |
| RBTree.Head.Next | tree.h:660-680 | the element after the i-th is the (i+1)-st, or null after the last |
| RBTree.Head.Prev | tree.h:682-702 | the element before the i-th is the (i-1)-st, or null before the first |
| RBTree.Head.NextThenPrev | tree.h:660-702 | RB_PREV undoes RB_NEXT |
| RBTree.Head.MinMax | tree.h:704-717 | the first or last element, null for an empty tree; s steps with 2^s <= (n+1)^2 |
| RBTree.Head.Foreach | tree.h:731-734 | every element exactly once in increasing key order, and then the end |
| Entries.Cmp | uthread.c:263-281 | the sign of the result is the order of the two keys |
| RBShape.HeightBound | tree.h:54-56 | every red-black tree of n nodes has height at most 2 lg (n+1), stated as 2^height <= (n+1)^2 |
| RBShape.HeightByBlack | tree.h:47-52 | the height is at most twice the black height |
| RBShape.SizeByBlack | tree.h:47-52 | black height h takes at least 2^h - 1 nodes |
| RBShape.MinFirst | tree.h:533-536 | the leftmost node of a subtree is its first entry, and the rest is what stays |
| RBShape.PromotedWhole | tree.h:532-570 | putting the successor in the removed node's place removes exactly that entry from the order |
| RBShape.SplicedWhole | tree.h:528-531 | putting the only child in the removed node's place removes exactly that entry from the order |
| RBShape.RepaidLeft | tree.h:466-483 | the final case of the delete fix-up gives a tree of the full black height |
| RBShape.SunkLeft | tree.h:458-465 | painting the sibling red moves the shortage to the parent |
| TreeMap.Insert | tree.h:590-619 | RB_INSERT on the map view: a key that is there stays bound, any other gets bound to the new node; the node set grows by that node or not at all, and no key changes |
| TreeMap.Remove | tree.h:523-588 | RB_REMOVE on the map view takes away the binding of that node's key and no other; the node set loses that node, and no key changes |
| TreeMap.Find | tree.h:621-637 | RB_FIND is the lookup in the map |
| TreeMap.Min | tree.h:704-717 | RB_MIN is the binding with the least key |
| EntryTrees.EntryTree.SetKey | uthread_sched.c:427 | a key field is written only while its entry is in no tree; tree and bindings stay |
| EntryTrees.EntryTree.Insert | uthread_sched.c:393-428 | RB_INSERT of a coroutine: who holds the key already, or the coroutine gets bound under its key field; the tree stays in order |
| EntryTrees.EntryTree.Remove | uthread_sched.c:446 | RB_REMOVE of a coroutine that is in the tree: its binding goes, and no other; the tree stays in order |
| EntryTrees.EntryTree.Find | uthread_sched.c:57-59 | RB_FIND: the coroutine bound to the key, whose key field it is, or none |
| EntryTrees.EntryTree.Min | uthread_sched.c:100 | RB_MIN: a bound coroutine whose key field is the least key, or none exactly when nothing is bound |
| EntryTrees.EntryTree.SeeTree | uthread_sched.c:20-21 | a coroutine is bound exactly when its entry is in the tree under its key field |
| Splay.Head.RotateRight | tree.h:82-86 | the rotation keeps the three parts and the in-order sequence |
| Splay.Head.RotateLeft | tree.h:88-92 | the mirror image |
| Splay.Head.LinkLeft | tree.h:94-98 | the root moves to the end of the right part; all of that part stays above the key |
| Splay.Head.LinkRight | tree.h:100-104 | the root moves to the end of the left part; all of that part stays below the key |
| Splay.Head.Finish | tree.h:106-111 | the three parts become one well-formed tree |
| Splay.Head.Splay | tree.h:202-236 | entries and order stay; no entry lies between the key and the new root |
| Splay.SplayedAway | tree.h:202-236 | so after a splay the key is at the root or nowhere in the tree |
| Splay.Head.Find | tree.h:121-131 | the element with the key, then at the root, or null exactly when there is none |
| Splay.Head.Insert | tree.h:158-180 | an element with an equal key, the given one itself if it is in the tree, is returned and the entries stay; or exactly the new node is added at its place in key order |
| Splay.NoRightChild | tree.h:194-196 | splaying a key above all keys leaves the root without a right child |
| Splay.Head.TakeRoot | tree.h:189-198 | the root's entry, and no other, leaves |
| Splay.Head.Remove | tree.h:182-201 | exactly the element with the key leaves, or nothing when there is none |
| Splay.Head.SplayMinMax | tree.h:241-272 | entries and order stay and the first or last element comes to the root |
| Splay.Head.MinMax | tree.h:147-152 | the first or last element, null for an empty tree |
| Splay.Head.Next | tree.h:133-145 | the element after the i-th is the (i+1)-st, or null after the last; entries stay |
| Splay.Head.Foreach | tree.h:286-289 | every element exactly once in increasing key order, although every step rearranges the tree |
| FdKeys.Unpack | uthread_sched.c:15-17 | FD_ONLY and FD_EVENT undo FD_KEY |
| FdKeys.KeyOrder | uthread.c:274-281 | key order is lexicographic on (fd, event), and equal keys mean equal pairs |
| FdKeys.OrAdds | uthread_sched.c:15 | on 64-bit words the or of the shifted fd and the event is their sum |
| Countdowns.Remaining | timer.c:43-71 | over any run a node counts its ticks down, and is gone after len + 1 of them |
| Countdowns.FiresOnce | timer.c:43-85 | a node added with any len >= 0 fires at step i of a run if and only if step i is the (len+1)-th following tick |
| TimerWheel.Wheel.constructor | timer.c:14-17 | an empty wheel has no countdowns |
| TimerWheel.Wheel.AddTimer | timer.c:73-85 | the pending countdowns gain the new node with len ticks to go, and change in nothing else |
| TimerWheel.Wheel.Tick | timer.c:43-71 | the pending countdowns make one tick: those at 0 fire, each once, all others lose one; a signal goes out for each fired node whose flag is set |
| TimerWheel.Added | timer.c:73-85 | head insertion into slot (len + current) mod 10 with len / 10 rounds stands for a countdown of len |
| TimerWheel.SweptAll | timer.c:48-70 | a sweep of the current slot alone is one tick of every countdown of the wheel |
| TimerWheel.WaitOfNew | timer.c:75-81 | ((slot - current) mod 10) + 10 * rotation is len for a new node |
| TimerWheel.ChainCut | timer.c:64 | unlinking through the pointer to the pointer takes out that node only |
| Timers.TimerSet.Add | uthread.c:295 | one more pending countdown of 1 for the coroutine, and no other change |
| Timers.TimerSet.Tick | timer.c:43-71 | a coroutine is signalled exactly when its flag is set and one of its countdowns is at 0; all countdowns make one tick |
| Timers.WhoIsSignalled | timer.c:58-60 | the signals of a tick are those of the fired nodes whose coroutine has its flag set |
| Writev.KernelWritten | uthread_socket.c:296 | a call with something to write takes at least one byte and at most all |
| Writev.AnyShortWrite | uthread_socket.c:296 | every such short write is among the modelled answers |
| Writev.Advance | uthread_socket.c:300-309 | after n bytes the remaining iovecs gather to exactly the rest of the request |
| Writev.UthreadWritev | uthread_socket.c:289-318 | under any answers of the kernel the bytes sent followed by the remaining iovecs are the original request, and their number is what the kernel took up to the answer that ends the call: the first failure, the first write with nothing left, or the write of the rest when the last iovec is not empty; the result is -1, 0 or the full length accordingly, and until such an answer the call goes on |
| Writev.EmptyLastEntry | uthread_socket.c:300-317 | an input for which everything is sent and 0 is returned |
| SchedState.MinExists | uthread_sched.c:100 | a non-empty sleeping tree has a least key |
| SchedCode.Runtime.DeschedSleep | uthread_sched.c:443-451 | RB_REMOVE meets a coroutine that is in the sleeping tree; afterwards both trees are in order and hold what the state machine says |
| SchedCode.Runtime.DeschedEvent | uthread_sched.c:51-67 | what RB_FIND finds leaves both trees, which stay in order; its entry is then in no waiting tree |
| SchedCode.Runtime.CancelEvent | uthread_sched.c:70-92 | fd_wait is reset only after the entry has left the waiting tree, both trees stay in order, and the effect is that of the state machine, the failed EPOLL_CTL_DEL included |
| SchedCode.Runtime.HandleEvent | uthread_sched.c:175-209 | from any reachable state every tree operation of the call is legal, both trees stay in order, and the effect is that of the state machine, which HandleDoes and WholeEvent say |
| SchedCode.Runtime.SchedSleep | uthread_sched.c:422-435 | the deadline is written while the entry is in no tree, RB_INSERT fails exactly for a deadline that is taken, and both trees stay in order; RegisterDoes and JoinDoes say what the deadline is |
| SchedCode.Runtime.AddWaiter | uthread_sched.c:389-393 | the key is written while the entry is in no tree, and the unchecked RB_INSERT binds it or leaves an equal one; both trees stay in order |
| SchedCode.Runtime.RegisterEvent | uthread_sched.c:372-399 | a coroutine that is in neither tree enters both, which stay in order, or exactly the named assert fails |
| SchedCode.Runtime.SetWakeup | uthread_sched.c:427 | wakeup_time_usec is written only while the coroutine is in no sleeping tree |
| SchedCode.Runtime.SetFdWait | uthread_sched.c:390-402 | fd_wait is written only while the coroutine is in no waiting tree |
| SchedCode.Runtime.FirstSleeper | uthread_sched.c:100 | RB_MIN of the sleeping tree is the coroutine with the least wake-up time |
| SchedCode.Runtime.ExpireTurn | uthread_sched.c:100-111 | from any reachable state every tree operation of a turn of the expiry loop is legal, both trees stay in order, and the effect is that of the state machine |
| SchedCode.Runtime.Tick | timer.c:43-71 | the wheel's signals are the state machine's, and the wheel holds its timers |
| SchedCode.Runtime.Perform | uthread_sched.c:213-276 | from any reachable state every action, done by the code on trees and wheel, is the step of the state machine, and leaves both trees and the wheel in order; what each step is say the lemmas of SchedActs |
| SchedCode.Runtime.InOrder | uthread_sched.c:20-21 | both trees are sorted red-black trees with nodes of their own, and hold exactly the sleeping and the fd-waiting coroutines under their key fields |
| SchedCode.Execute | uthread_sched.c:213-276 | for every run: the code, started afresh and given its actions, ends in the run's last state with both trees in order |
| SchedCode.CanCancel | uthread_sched.c:72-91 | in a reachable state _uthread_cancel_event meets the one that waits for the watched fd, or an fd that is not watched |
| SchedCode.AwakeUnlinked | uthread_sched.c:390-427 | in a reachable state a coroutine that does not sleep is in neither tree, so its keys may be written |
| SchedSteps.DispatchEffect | uthread.c:283-297 | a switch to an awake coroutine makes it current, armed and with a timer node of 1 tick, fixes its whole record, and touches no other but a finished target that it forgets |
| SchedSteps.PassOnEffect | uthread_sched.c:229-233 | the ready loop takes the first of the queue and runs it |
| SchedSteps.HandleEventEffect | uthread_sched.c:175-209 | the coroutine found is the one registered for exactly that pair, its fd agrees, its EPOLL_CTL_DEL succeeds, and it alone leaves the trees |
| SchedSteps.CancelEventEffect | uthread_sched.c:70-92 | for an fd waiter the EPOLL_CTL_DEL succeeds and it alone leaves both trees and the interest set |
| SchedSteps.JoinerHasNoFd | uthread_sched.c:84 | for a joiner the EPOLL_CTL_DEL fails |
| SchedSteps.ExpireEffect | uthread_sched.c:100-109 | one turn of the expiry loop wakes an fd waiter at its deadline, or aborts when the first sleeper is a joiner |
| SchedSteps.YieldEffect | uthread.c:208-214 | a yield puts the coroutine at the end of the ready queue, or aborts without p |
| SchedSteps.RegisterEffect | uthread_sched.c:372-404 | the coroutine enters both trees and the fd the interest set, or exactly the named assert fails |
| SchedSteps.JoinEffect | uthread.c:420-461 | the caller sleeps as the only joiner of the target, or nothing changes, or the deadline is taken |
| SchedSteps.ExitJoinedEffect | uthread.c:302-307 | an exit with a joiner moves the joiner to the ready queue |
| SchedSteps.HandOffEffect | uthread.c:336-345 | no coroutine moves when p is handed over, and the caller's flag is off, whether or not p goes |
| SchedSteps.StepInv | uthread_sched.c:213-276 | every step of every kind keeps the whole invariant, or ends the process by a fault |
| SchedCore.KeyFree | uthread_sched.c:386-393 | an fd not in the interest set has no key in the waiting tree, so the unchecked insert meets no equal key |
| SchedControl.ControlHandedOff | uthread.c:336-345 | ownership, signal targets and the progress of pass and sweep survive a hand-off |
| SchedControl.ControlTick | timer.c:43-71 | and a tick |
| SchedCore.CoreCreated | uthread.c:192-203 | a new coroutine at the end of the ready queue keeps every tree, place and count in agreement |
| SchedRuns.PassBack | uthread_sched.c:234-237 | the ready loop ends with the coroutine that was last in the queue, and then all of it has been resumed |
| SchedRuns.StillHasP | uthread_sched.c:228-261 | a scheduler meets a null p only after a sweep that woke someone, or in the second handle_event |
| SchedRuns.Invariant | uthread_sched.c:213-276 | every state of every run that has not aborted satisfies the whole invariant |
| SchedRuns.InitInv | uthread.c:112-133 | so does the initial state: the main coroutine alone, ready and counted |
| SchedRuns.TreesAgree | uthread_sched.c:443-451 | in every run: bound in the sleeping map exactly when SLEEPING is set, the waiting map within it, and every key is the key field of its coroutine; Execute says that the trees hold these maps |
| SchedRuns.KeysFixed | uthread_sched.c:372-440 | no step changes wakeup_time_usec or fd_wait of a coroutine that is and stays asleep; the writes inside a step are those of SetWakeup and SetFdWait |
| SchedRuns.InterestAgrees | uthread_sched.c:386-402 | in every run the epoll interest set is the set of fds in the waiting tree, each fd once |
| SchedRuns.EventWakesItsWaiter | uthread_sched.c:175-209 | in every run an event takes exactly the coroutine of that pair out of both trees and runs it, or changes nothing |
| SchedRuns.OnePlace | uthread.c:299-318 | in every run each live coroutine is in exactly one of ready queue, current and sleeping tree, once, and a finished one in none |
| SchedRuns.LiveCount | uthread.c:243-260 | in every run the count is the number of coroutines created and not exited, and exit(0) is reached only when all have exited; LoopTopDoes says that it is reached then |
| SchedRuns.NoneStranded | uthread_sched.c:28-39 | in every run, if nobody runs while the count is positive, somebody is ready, asleep or waiting |
| SchedRuns.WorkIsTakenUp | uthread_sched.c:221-275 | and then p's owner goes into its loop instead of leaving |
| SchedRuns.SignalsHitTheRunner | timer.c:58-60 | in every run each signal goes to the thread of the scheduler that is running that coroutine, also across a hand-off |
| SchedRuns.SignalledByTheSecondTick | uthread.c:294-297 | in every run a coroutine that keeps running with its flag set has been signalled by the second tick after its resume |
| SchedRuns.JoinersSleep | uthread.c:445-448 | in every run the joiner of a live coroutine sleeps, waits on no fd, and is shared by no other |
| SchedRuns.ExitWakesTheJoiner | uthread.c:302-306 | in every run an exit moves the joiner, and nobody else, from the sleeping tree to the end of the ready queue, where it was not before |
| SchedRuns.PassPrefix | uthread_sched.c:228-238 | in every run what a pass has resumed is a prefix of the queue it began with, each once, and the rest still heads the queue |
| SchedRuns.PassIsFifo | uthread_sched.c:228-238 | whatever step happens meanwhile, the pass stays as it is, resumes the next of that queue, or ends with all of it resumed |
| SchedRuns.SweepInOrder | uthread_sched.c:94-113 | in every run a sweep serves the least deadline, none before its time, in non-decreasing order; when it ends every sleeper left is past the clock |
| SchedRuns.Faults | uthread_sched.c:228-428 | exactly which action in which reachable state ends the process, and by which fault |
| SchedActs.YieldDoes | uthread.c:208-214 | in every run a yield puts the coroutine at the end of the ready queue, with its flag off, and changes nothing else |
| SchedActs.CreateDoes | uthread.c:172-206 | in every run a create adds one new coroutine to the count and to the end of the ready queue, and changes nothing else |
| SchedActs.DetachDoes | uthread.c:410-417 | a detach sets the DETACHED bit of its target and nothing else |
| SchedActs.HandOffDoes | uthread.c:336-345 | a disk operation clears the caller's flag, and moves p to the first idle scheduler exactly when p is here with a non-empty queue |
| SchedActs.ExitDoes | uthread.c:299-307 | an exit sets EXITED, takes one off the count, wakes the joiner and no other, and clears the current coroutine |
| SchedActs.RegisterDoes | uthread_sched.c:372-430 | a registration at time t with a timeout of m milliseconds sleeps until t + 1000 m microseconds, or t + 2^30 seconds when m is 0; it enters both trees under its keys and the interest set, and nothing else changes |
| SchedActs.JoinDoes | uthread.c:420-448 | a join of oneself, of a detached, joined or finished target changes nothing; any other sleeps for 10 seconds at most as the target's joiner |
| SchedActs.GivesBack | uthread_sched.c:234-238 | when a coroutine gives its scheduler back, the ready loop ends without p or with the last of its queue, and every other loop goes on where it stands |
| SchedActs.TickDoes | timer.c:43-71 | a tick makes the timers count and signals who is armed and due, and changes nothing else |
| SchedActs.LoopTopDoes | uthread_sched.c:221-275 | in every run a turn at the top of the loop reaches exit(0) if and only if the live count is zero; otherwise it goes on exactly when p is here with somebody ready, asleep or waiting, and else spins |
| SchedActs.StartingDoes | uthread_sched.c:361-367 | a new thread tells p its thread id and enters the loop |
| SchedActs.PollDoes | uthread_sched.c:134-172 | in every run a poll takes the kernel's list exactly when nothing is ready and every sleeping deadline lies ahead, and no event otherwise |
| SchedActs.DrainDoes | uthread_sched.c:248-260 | with p the last event of the list comes next, its read half first, and the rest stays on the list; without p or events the scheduler goes back to the top |
| SchedActs.HandleDoes | uthread_sched.c:260-261 | after the read half of an event comes the write half, and after that the rest of the list, whether or not anybody was found; who waits for exactly the pair leaves both trees and the interest set and runs |
| SchedActs.ExpireDoes | uthread_sched.c:100-112 | a turn of the sweep serves the least deadline if it has passed, as expired; else the pass over the queue as it is begins |
| SchedActs.PassDoes | uthread_sched.c:229-233 | a turn of the ready loop runs the first of the queue and leaves the rest, or ends the loop when there is none |
| SchedBits.StatusBits | uthread_sched.c:378-403 | in every run WAIT_RD and WAIT_WR are set exactly while the coroutine sleeps in such a wait, and NEW only before it has ever run |
| SchedBits.EventStatus | uthread_sched.c:194-207 | woken by an event a coroutine loses the bits of its wait, gains FDEOF exactly for a hang-up, and is READY exactly if it waited to read; no other bit changes |
| SchedBits.ExpiredStatus | uthread_sched.c:102-107 | woken by its deadline a coroutine loses the bits of its wait and gains EXPIRED; no other bit but READY changes |
| SchedBits.QueueStatus | uthread.c:240-297 | taken from the ready queue a new coroutine has READY for its only bit and any other keeps its bits; nobody else changes but a target that forgets its joiner |
| SchedSpans.NotBefore | uthread_sched.c:422-428 | no sweep switches to a registered coroutine before its timeout has passed since the registration, or 2^30 seconds for a timeout of 0 |
| SchedSpans.WholeEvent | uthread_sched.c:248-262 | from an event to the state where the scheduler is back at its list, while p stays bound, it has looked for who waits to read and then for who waits to write, and switched to whoever was there |
| SchedSpans.WholePoll | uthread_sched.c:134-262 | from a poll to the state where its events are done with, while p stays bound, each event of the kernel's list is handled once, the last first, when nothing was ready or due, and none otherwise |
| SchedSpans.WholePass | uthread_sched.c:228-238 | from the step that begins a pass over a non-empty queue to the one that ends it, while p stays bound, the scheduler switches to exactly that queue, in order, each once |
| SchedSpans.WholeSweep | uthread_sched.c:94-113 | of two switches in one expiry sweep the earlier serves the earlier deadline, and none is served before its time, whatever happens in between |
| SchedSpans.WholeSlice | timer.c:58-60 | a coroutine that is switched to and keeps running with its flag set over two ticks is sent a signal by one of them |
| SchedRace.PassExact | uthread_sched.c:228-238 | the ready loop's step is the right one if and only if the pass began with a non-empty queue, or found and resumed nothing |
| SchedRace.EmptyPassRaces | uthread_sched.c:228-229 | a run in which a pass resumes a coroutine that was not queued when it began |

## Left out

- `_switch`, stacks and contexts: a switch is a step boundary.
- Symbol hooking (`myhook.c`) and the other socket wrappers: retry loops around system calls; the `writev` inside `uthread_writev` is the kernel's.
- Coroutine ids and `bitmap_ut`: identities are distinct by construction, which the id counter does not guarantee after it wraps round.
- Memory lifetime: nothing is freed, so reads after free in resume, join and the wheel are not seen; allocation never fails.
- Return values passed through `uthread_join`. Its own result after waking up is computed by the code (`GoOn`), and no promise is made about it.
- SchedCode.Runtime.ExpireTurn: one turn of the loop. The loops of `_sched_run` and of the expiry sweep contain switches to other threads' work, so they are places (`Pc`) of the state machine and not one `while`; `WholePass` and `WholeSweep` speak of them as stretches of a run.
- That one `uthread` is one piece of memory: its two tree entries and its other fields are separate, with the coroutine's number in each.
- Data races inside a step, mutexes and signal masks: every step is atomic, also the one from `uthread_sched.c:229` to the switch.
- Timer nodes outlive a resume and may signal a later run of the same coroutine early; the claim is only that a signal comes no later than the second tick.
- 64-bit and 32-bit wrap-around of deadlines, lengths, rotations and counters: numbers are unbounded. `uthread_join` and the socket wrappers pass fixed small timeouts.
- The milliseconds that `_uthread_poll` passes to `epoll_wait`, and `epoll_wait` itself: only whether its list is used is modelled.
- SchedState.Poll: a poll that is interrupted or fails is not modelled.
- RB_AUGMENT, which is empty here, and RB_FOREACH_SAFE, RB_FOREACH_REVERSE and their kin.
- Splay.Head.SplayMinMax: requires a nonzero direction, because with 0 the loop of the source does not end.
- TimerWheel.Wheel.AddTimer: requires len >= 0; the library passes 1, and a negative len can give a negative slot in C.
