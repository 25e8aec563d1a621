# goant: verified models of its hardest cores

goant is a JavaScript engine written in Go. This project models five of its cores in Dafny and proves what they are for:

- **Agents and Atomics** (`Turns`, `TurnRuns`, `TurnEnds`, `AgentCluster`, `WaitList`, `AsyncWaits`, `SharedMemory`, `AtomicsArith`).
  Agents run in goroutines and take turns on one lock with a queue of tickets, a pre-emption flag and a few atomics read
  outside the mutex. The model gives every agent a program counter and makes each atomic access and each critical section
  entry its own step, so that the theorems hold for every interleaving. On top of it stand the wait list with its blocking
  and asynchronous waiters, the comparison before a wait, and the arithmetic of read-modify-write.
- **Arrays** (`ArrayMoves`, `ArrayJoin`, `ArrayFlatten`). The in-place methods over overlapping ranges with holes, join over
  cyclic arrays, and flattening to a depth.
- **Keyed collections** (`KeyedValues`, `Collections`, `SetAlgebra`). The tombstoned slots and the index of Map and Set
  against a simple insertion-ordered map, and the set methods against set algebra.
- **Analyses and exact arithmetic** (`Syntax`, `CodeScan`, `Hoisting`, `HoistingRule`, `Calendar`, `Arithmetic`, `BigIntBounds`).
- **Embedding** (`RuntimePool`, `GraphExport`). The pool of Runtimes under concurrency and the export of object graphs.

Code that changes state is a class or a method with the source's fields and loops, proved equal to a specification function;
the theorems are about that function over every input and every run. `Wrappers` holds Option and Result.

Some results say that the code does less than one may expect. They are stated as lemmas with the input or the exact condition:
`TurnRuns.ClearLosesYield`, `AsyncWaits.DeadlineBeatsWoken` and `AsyncWaits.EarlierDeadlineBeatsWoken` (the comment at
internal/engine/agent.go:683-684 says otherwise), `SharedMemory.ObjectTimeoutLosesWakeup`,
`HoistingRule.ForAwaitIsOverlooked`, `HoistingRule.UsingHeadDoesNotHide`, `HoistingRule.AsyncFunctionDoesNotHide`,
`HoistingRule.FunctionExpressionIsAdded`, `HoistingRule.ClassExpressionIsAdded`, `HoistingRule.HeadExpressionIsAdded`,
`HoistingRule.ClassExpressionHides`,
`BigIntBounds.AcceptedTooBigIff`, `BigIntBounds.MaximalTimesOneRefused`, `Calendar.TwelveMonthsAreAYear`,
`RuntimePool.LiveOutlivesClose`.

`dafny verify dfyconfig.toml` checks the whole project.

## Model

| member | source | states |
|---|---|---|
| `Turns.InitInv` | internal/engine/agent.go:487-497 | the state that ensureCluster builds satisfies the scheduler invariant |
| `Turns.StepRole` | internal/engine/agent.go:139-173 | every step keeps: the turn is in one place, the queue is the run of tickets not yet granted, and a popped ticket is with the agent that popped it |
| `Turns.PopRole` | internal/engine/agent.go:163-173 | handing the turn to the head of the queue keeps that |
| `Turns.StepLock` | internal/engine/agent.go:139-173 | every step keeps: exactly the agent inside a critical section owns mu, and queued is the length of the queue but for the one step in which it is being republished |
| `Turns.StepHolder` | internal/engine/agent.go:130-162 | every step keeps: holder is the agent between its store in claim and its compare-and-swap in giveTurn, and nobody else |
| `Turns.StepAsk` | internal/engine/agent.go:130-158 | every step keeps: while somebody is queued, a running owner has its flag up or somebody is still going to raise it |
| `Turns.StepInv` | internal/engine/agent.go:114-221 | every step of every agent keeps the whole invariant |
| `Turns.StopInv` | internal/engine/interrupt.go:101-112 | so does an interrupt from the host at any moment |
| `Turns.ClearInvIff` | internal/engine/interrupt.go:114-121 | ClearInterrupt keeps it iff the flag is down already, or it belongs to no running owner whom nobody will ask again although somebody is queued, nor to an agent that is just yielding |
| `TurnRuns.MutualExclusion` | internal/engine/agent.go:114-194 | in every reachable state, whatever the host interrupts or clears: held is true iff exactly one agent has the turn, at most one ticket is being handed over, holder is nil or the owner, only the announced owner runs JavaScript, and queued is the length of the queue whenever mu is free |
| `TurnRuns.NoLostYield` | internal/engine/agent.go:114-221 | along any run, whatever the agents and the host do, in every state with somebody queued the owner has been asked, or has yet to look at queued, or is giving the turn up, or the turn is on its way, or a joiner will still raise the flag, iff the host never clears a running owner with somebody queued and no joiner about to ask |
| `TurnRuns.NoLostYieldFrom` | internal/engine/agent.go:114-221 | the same from any state with one turn in which nobody has been forgotten |
| `TurnRuns.OutsideForgetsNobody` | internal/engine/interrupt.go:114-121 | so a host that clears only Runtimes that are not running JavaScript never drops a request |
| `TurnRuns.ForgottenIff` | internal/engine/agent.go:130-221 | that is, for every state with one turn, the part of the invariant about flags |
| `TurnRuns.ClearForgetsWhen` | internal/engine/interrupt.go:114-121 | for a single ClearInterrupt: somebody is forgotten iff it clears a running owner with somebody queued and no joiner about to ask |
| `TurnRuns.ClearLosesYield` | internal/engine/interrupt.go:114-121 | one such run: the request to yield is dropped and the owner runs on |
| `TurnRuns.RunQueue` | internal/engine/agent.go:139-173 | over any run tickets are only appended, and exactly one leaves the queue per hand-over |
| `TurnRuns.FirstComeFirstServed` | internal/engine/agent.go:139-173 | an agent with k tickets ahead moves up by exactly one per hand-over and does not get the turn in the first k |
| `TurnRuns.ServedAtTurn` | internal/engine/agent.go:160-173 | and gets it at the hand-over numbered k+1 |
| `TurnRuns.Progress` | internal/engine/agent.go:130-221 | while anybody is queued, some agent can take a step that needs nothing but a script reaching a safepoint |
| `TurnRuns.BoundedWait` | internal/engine/agent.go:130-221 | whatever the interleaving, with k tickets ahead fewer than (k+1)(37N+1) scheduler steps are taken before the turn arrives |
| `TurnEnds.OutIff` | internal/engine/agent.go:183-221 | over any run an agent has returned, or is giving the turn up for good, iff it was before or its script has ended in the run |
| `TurnEnds.GoneOnlyAtEnd` | internal/engine/agent.go:183-221 | in every reachable state an agent has returned only if its script ended, and one whose script has ended never runs, queues or joins again |
| `TurnEnds.AfterHandOver` | internal/engine/agent.go:160-221 | at the last step of a hand-over an agent whose script has ended is gone for good; one that yielded or paused is outside the turn and can enter join as soon as mu is free |
| `TurnEnds.StopIsKept` | internal/engine/agent.go:196-202 | once the host has asked a script to stop, no request for the turn and no hand-over takes that back |
| `TurnEnds.StoppedDoesNotYield` | internal/engine/agent.go:196-221 | a script that has been asked to stop does not yield at a safepoint |
| `TurnEnds.HandsOverWhenQueued` | internal/engine/agent.go:130-135 | an agent that takes the turn asks itself to hand over iff somebody is counted as queued; one that yields goes on iff nobody is |
| `TurnEnds.YieldsOnlyToSomebody` | internal/engine/agent.go:209-221 | so, with mu free, the turn is given up at a safepoint iff the queue is not empty |
| `AgentClusters.AgentCluster.constructor` | internal/engine/agent.go:487-497 | a new cluster: its creator runs and has the turn |
| `AgentClusters.AgentCluster.RaiseYield` | internal/engine/agent.go:198-202 | the flag is raised unless it is up, whoever raised it |
| `AgentClusters.AgentCluster.JoinNext` | internal/engine/agent.go:139-158 | the fields change in place exactly as the specification step of join says, one access to shared state at a time |
| `AgentClusters.AgentCluster.ClaimNext` | internal/engine/agent.go:130-135 | likewise for claim |
| `AgentClusters.AgentCluster.RunNext` | internal/engine/agent.go:190-196 | likewise for a running agent |
| `AgentClusters.AgentCluster.YieldNext` | internal/engine/agent.go:209-221 | likewise for yieldTurn |
| `AgentClusters.AgentCluster.GiveNext` | internal/engine/agent.go:160-173 | likewise for giveTurn |
| `AgentClusters.AgentCluster.RunSchedule` | internal/engine/agent.go:114-221 | any schedule of agents and host on the fields themselves ends in the specified state, with one turn, and with nobody forgotten if no clear forgets anybody |
| `WaitLists.ApplyInv` | internal/engine/agent.go:243-333 | parking, notifying and finishing keep: the list is the unanswered waiters, oldest first; an answer is "ok" iff a notify claimed the waiter; no waiter without a deadline is answered otherwise; the notifies returned one per claimed waiter |
| `WaitLists.NotifyInv` | internal/engine/agent.go:307-333 | the notify part of it |
| `WaitLists.Conservation` | internal/engine/agent.go:243-333 | over any run the sum of what notifies returned is the waiters told "ok" plus those claimed and not told yet, a waiter is told "ok" iff it was claimed, even if its timer fired, and one without a deadline is told nothing else |
| `WaitLists.NotifyClaimsOldest` | internal/engine/agent.go:307-333 | a notify claims unclaimed waiters of its location only, as many as asked for or all there are, and never a younger one before an older one |
| `WaitLists.ClaimedOnce` | internal/engine/agent.go:307-333 | a claimed waiter is never claimed again and can only be told "ok" |
| `WaitLists.CanFinishWhen` | internal/engine/agent.go:243-304 | a listed waiter can be finished iff a notify has claimed it or it has a deadline |
| `WaitLists.WaitList.Enlist` | internal/engine/agent.go:243-264 | the waiter joins the end of the list |
| `WaitLists.WaitList.Wake` | internal/engine/agent.go:307-333 | the loop claims exactly the specified waiters and returns their number |
| `WaitLists.WaitList.Settle` | internal/engine/agent.go:641-657 | the waiter leaves the list, and a claim overrides the timer |
| `AsyncWaits.AsyncQueue.Park` | internal/engine/agent.go:575-603 | the waiter joins the list and its entry the queue, with a deadline iff the timeout is one |
| `AsyncWaits.WaitingEntries` | internal/engine/agent.go:615-636 | what settling leaves is, in order, the entries that have not been notified and have no deadline or a later one than now |
| `AsyncWaits.AsyncQueue.SettleReady` | internal/engine/agent.go:615-636 | the loop that shrinks the slice it walks leaves exactly those entries; every waiter of another entry is told "ok" if it was notified and "timed-out" if not, and leaves the list; nobody else is told anything; the result says whether any entry was settled |
| `AsyncWaits.FinishReadyAnswers` | internal/engine/agent.go:615-657 | the answers and the list after settling, waiter by waiter |
| `AsyncWaits.AsyncQueue.PickNext` | internal/engine/agent.go:663-700 | the choice of the blocking loop: the earliest deadline if any entry has one, and the older of equal ones; else the oldest entry that was notified, or the oldest of all if another agent exists; -1 iff there is neither |
| `AsyncWaits.NextMeans` | internal/engine/agent.go:663-700 | the meaning of that choice in terms of deadlines and positions |
| `AsyncWaits.WokenIsTakenWhen` | internal/engine/agent.go:676-690 | a notified entry is chosen iff, when it has no deadline, no entry has one and no older entry can settle, and, when it has one, no entry has an earlier deadline or the same and is older |
| `AsyncWaits.ChoiceIsWokenWhen` | internal/engine/agent.go:676-690 | so what is waited for is a notified entry iff some notified entry is first in line in that sense |
| `AsyncWaits.DeadlineBeatsWoken` | internal/engine/agent.go:683-690 | a far deadline is preferred to a notified entry without one, contrary to the comment there |
| `AsyncWaits.EarlierDeadlineBeatsWoken` | internal/engine/agent.go:683-690 | and an earlier deadline to a notified entry with a later one |
| `SharedMemory.ActInv` | internal/engine/builtin_atomics_ops.go:196-235 | with stores, comparisons, immediate answers and notifies interleaved: an agent whose comparison matched with a primitive timeout that parks still has the turn, and the cell still holds what it compared with |
| `SharedMemory.ScriptsCan` | internal/engine/builtin_atomics_ops.go:196-235 | what a running script can do at any time, and what it can do once it holds mu |
| `SharedMemory.CompareMatches` | internal/engine/builtin_atomics_ops.go:196-235 | a comparison matches iff the cell holds the value, and changes nothing else |
| `SharedMemory.NoLostWakeup` | internal/engine/builtin_atomics_ops.go:210-235 | any run from such a match to a store or notify passes through the waiter joining the list, while the cell still held the value and before anything was stored or notified |
| `SharedMemory.NotifyReachesWaiter` | internal/engine/builtin_atomics.go:285-323 | any run from such a match to a notify of the location for all who wait there leaves the waiter claimed, unless it had a deadline that passed; without a deadline always |
| `SharedMemory.ListedWaiterIsFound` | internal/engine/agent.go:307-333 | a notify for enough waiters claims a waiter of the location unless it was answered before |
| `SharedMemory.ObjectTimeoutLosesWakeup` | internal/engine/builtin_atomics_ops.go:215-223 | with an object as timeout it fails: its valueOf stores and notifies nobody, and then the waiter joins |
| `ArrayMoves.RelativeIndex` | internal/engine/builtin_array.go:53-80 | the clamped position of a relative index, infinities included |
| `ArrayMoves.DeleteCount` | internal/engine/builtin_array.go:1511-1526 | the clamp of the delete count in every case, infinities included |
| `ArrayMoves.SplicedAt` | internal/engine/builtin_array.go:1495-1600 | where each slot of a splice comes from |
| `ArrayMoves.ArrayLike.Splice` | internal/engine/builtin_array.go:1495-1600 | for every start, count and items: the slots become old[..s] ++ items ++ old[s+d..] with holes kept, nothing is left at or past the new length, and the removed slots are returned; or a TypeError with nothing changed |
| `ArrayMoves.ArrayLike.CloseGap` | internal/engine/builtin_array.go:1559-1577 | the loop that moves the tail down and deletes the end |
| `ArrayMoves.ArrayLike.OpenGap` | internal/engine/builtin_array.go:1578-1592 | the loop that moves the tail up from its end |
| `ArrayMoves.SpliceUndone` | internal/engine/builtin_array.go:1495-1600 | splicing the removed slots back undoes a splice |
| `ArrayMoves.ArrayLike.CopyWithin` | internal/engine/builtin_array.go:902-966 | for every overlap the result is the simultaneous copy, holes included, and nothing else changes |
| `ArrayMoves.CopyIsSplice` | internal/engine/builtin_array.go:902-966 | which is the copied range spliced over the target |
| `ArrayMoves.ArrayLike.Reverse` | internal/engine/builtin_array.go:1258-1318 | slot i becomes slot n-1-i, holes included, and nothing past the length changes |
| `ArrayMoves.ReverseTwice` | internal/engine/builtin_array.go:1258-1318 | reversing is its own inverse |
| `ArrayMoves.ReversedAt` | internal/engine/builtin_array.go:1258-1318 | the slot at i comes from n - 1 - i, holes included |
| `ArrayMoves.ArrayLike.Shift` | internal/engine/builtin_array.go:584-633 | the first slot is returned and every other moves down by one |
| `ArrayMoves.ArrayLike.Unshift` | internal/engine/builtin_array.go:634-684 | the items come before the old slots, or a TypeError with nothing changed |
| `ArrayMoves.UnshiftThenShift` | internal/engine/builtin_array.go:584-684 | unshifting k items and shifting k times restores the array and returns the items |
| `ArrayJoin.Runtime.EnterJoin` | internal/engine/builtin_array.go:2323-2336 | reports whether the array is already being joined, and marks it |
| `ArrayJoin.Runtime.Join` | internal/engine/builtin_array.go:686-733 | ends on every finite array graph; the text is the specified one, and the set of arrays being joined is restored on every exit |
| `ArrayJoin.MetAgainIsEmpty` | internal/engine/builtin_array.go:2323-2342 | an array that is already being joined gives the empty string, and the joins inside see it as an empty array |
| `ArrayJoin.DepthIsGreatest` | internal/engine/builtin_array.go:686-754 | the depth is the greatest over the nested arrays |
| `ArrayJoin.DepthBound` | internal/engine/builtin_array.go:686-754 | the nesting is at most the number of arrays not being joined |
| `ArrayJoin.JoinIsNaive` | internal/engine/builtin_array.go:686-754 | where no path comes back to an array being joined, the text is that of plain recursive join, shared sub-arrays included |
| `ArrayJoin.NaiveEndsIffAcyclic` | internal/engine/builtin_array.go:686-754 | plain recursive join ends iff no path from the array returns to itself, and then agrees |
| `ArrayFlatten.Flattener.FlattenInto` | internal/engine/builtin_array.go:2240-2290 | the recursion adds exactly the specified elements to the target, fails exactly when it runs out of room, and restores the recursion counter on every exit |
| `ArrayFlatten.FiniteDepth` | internal/engine/builtin_array.go:2240-2290 | for a depth below saturation, with that much room, the result is the flattening of the standard |
| `ArrayFlatten.FlatOneSlot` | internal/engine/builtin_array.go:2240-2290 | what one slot becomes at each depth; holes disappear |
| `ArrayFlatten.FlatConcat` | internal/engine/builtin_array.go:2240-2290 | flattening goes slot by slot |
| `ArrayFlatten.DepthOf` | internal/engine/builtin_array.go:1744-1759 | a depth argument in every case: negative, below saturation, saturated, infinite |
| `ArrayFlatten.AnyDepth` | internal/engine/builtin_array.go:2240-2290 | for any finite depth and any room: it fails iff the room runs out on an array still to be opened, and else gives the standard result |
| `ArrayFlatten.SaturatedDepth` | internal/engine/builtin_array.go:2240-2290 | for the saturated depth it succeeds iff the room suffices to leave no array, and then gives the flattening by any depth that large |
| `ArrayFlatten.FlatInfinity` | internal/engine/builtin_array.go:1735-1767 | flat(Infinity) leaves no array, or fails |
| `ArrayFlatten.FlatCompose` | internal/engine/builtin_array.go:2240-2290 | flattening by d and then by e is flattening by d + e |
| `ArrayFlatten.CyclesAlwaysFail` | internal/engine/builtin_array.go:2240-2247 | an array on a cycle of any length can not be flattened without bound, however much room there is |
| `KeyedValues.KeysAgree` | internal/engine/builtin_collections.go:14-44 | two values have the same canonical key iff SameValueZero holds of them |
| `KeyedValues.NormKeepsKey` | internal/engine/builtin_collections.go:46-51 | normalising -0 does not change the key |
| `KeyedValues.NaNRange` | internal/engine/builtin_collections.go:19-22 | the doubles that are NaN, as a range of bit patterns |
| `KeyedValues.NormMapKeyIs` | internal/engine/builtin_collections.go:46-51 | only -0 is changed, into +0 |
| `Collections.LookupPut` | internal/engine/builtin_collections.go:53-100 | setting a key changes what is found under that key only |
| `Collections.PutPlaces` | internal/engine/builtin_collections.go:53-100 | an existing key keeps its place, and a new one goes to the end, with -0 made +0 |
| `Collections.LookupDrop` | internal/engine/builtin_collections.go:432-442 | deleting a key leaves every other key as it was |
| `Collections.DropOne` | internal/engine/builtin_collections.go:432-442 | and takes out one entry, the rest in order |
| `Collections.ApplyMeans` | internal/engine/builtin_collections.go:53-175 | what each operation, the two getOrInsert among them, leaves under every key |
| `Collections.ApplyKeepsDistinct` | internal/engine/builtin_collections.go:53-175 | no two entries ever have the same key, whatever callbacks do |
| `Collections.Collection.Set` | internal/engine/builtin_collections.go:76-91 | the entries become those of the simple insertion-ordered map after set, and index, slots and values stay consistent |
| `Collections.Collection.Find` | internal/engine/builtin_collections.go:92-101 | returns what the simple map holds under the key |
| `Collections.Collection.GetOrInsert` | internal/engine/builtin_collections.go:102-119 | refines the simple map |
| `Collections.Collection.GetOrInsertComputed` | internal/engine/builtin_collections.go:120-148 | refines the simple map for every callback, which may itself change the collection, throw, or not be callable |
| `Collections.Collection.Add` | internal/engine/builtin_collections.go:304-316 | refines the simple map |
| `Collections.Collection.Remove` | internal/engine/builtin_collections.go:432-441 | tombstones exactly the entry of the key and says whether there was one |
| `Collections.Collection.Clear` | internal/engine/builtin_collections.go:443-448 | no entry is left |
| `Collections.Collection.Size` | internal/engine/builtin_collections.go:422-430 | the count of live slots is the number of entries and of index keys |
| `Collections.Collection.RunAll` | internal/engine/builtin_collections.go:76-169 | over any sequence of operations, callbacks nested to any depth, the live slots in order are the entries of the simple map |
| `Collections.IndexFinds` | internal/engine/builtin_collections.go:76-169 | index is a bijection between canonical keys and live slots |
| `Collections.IndexSize` | internal/engine/builtin_collections.go:422-430 | so the live slots are as many as the index keys |
| `SetAlgebra.NewSetFrom` | internal/engine/builtin_collections.go:540-553 | the set holds the given values without duplicates, in the order of their first occurrence |
| `SetAlgebra.RestrictOrder` | internal/engine/builtin_collections.go:600-800 | filtering keeps the order |
| `SetAlgebra.Union` | internal/engine/builtin_collections.go:693-717 | this set's elements, then the other's that are not among them, without duplicates |
| `SetAlgebra.Intersection` | internal/engine/builtin_collections.go:718-758 | both branches give the mathematical intersection, each in its own order |
| `SetAlgebra.Difference` | internal/engine/builtin_collections.go:759-795 | both branches give the same list |
| `SetAlgebra.SymmetricDifference` | internal/engine/builtin_collections.go:796-844 | the toggle loop, duplicates allowed, gives what only this set has and then what only the other has |
| `SetAlgebra.ToggleOn` | internal/engine/builtin_collections.go:810-839 | one more key that this set lacks keeps the loop invariant of the toggle |
| `SetAlgebra.ToggleOff` | internal/engine/builtin_collections.go:810-839 | one more key that this set has keeps it |
| `SetAlgebra.IsSubsetOf` | internal/engine/builtin_collections.go:845-875 | decides inclusion, the size shortcut included |
| `SetAlgebra.IsSupersetOf` | internal/engine/builtin_collections.go:876-902 | decides inclusion the other way |
| `SetAlgebra.IsDisjointFrom` | internal/engine/builtin_collections.go:903-945 | both branches decide disjointness |
| `CodeScan.ScanCode` | internal/engine/ast.go:371-428 | for every tree and every mask: the wanted part of what three separate passes report, each with its own stopping rule |
| `CodeScan.FactsStep` | internal/engine/ast.go:371-428 | one node of the three passes is one node of the fused walk |
| `CodeScan.FactsOccur` | internal/engine/ast.go:371-428 | each pass finds its fact iff a chain of child nodes leads to it, entering no function (or only its parameters, for arguments) and, for eval, no class |
| `CodeScan.FunctionFacts` | internal/engine/ast.go:432-487 | what the three accessors answer, in terms of the body and of which parameters count |
| `CodeScan.FunctionNode.Scan` | internal/engine/ast.go:432-459 | a function's three flags are what the separate passes say of its body and parameters |
| `CodeScan.FunctionNode.FuncUsesArguments` | internal/engine/ast.go:463-468 | the answer does not depend on which accessor was asked first |
| `CodeScan.FunctionNode.FuncUsesNewTarget` | internal/engine/ast.go:473-478 | likewise |
| `CodeScan.FunctionNode.FuncHasDirectEval` | internal/engine/ast.go:482-487 | likewise |
| `HoistingRule.WalksArePaths` | internal/engine/ast.go:659-744 | the walks of the collectors are the paths through no for-await statement and no export, and what either side takes for hidden along them differs by the declarations that go uncounted and the class expressions that are counted |
| `HoistingRule.CollectedExactly` | internal/engine/ast.go:659-744 | a name is collected iff the rule of the language hoists it by a path through no for-await statement, no export and no list with a class expression of its name; or it names a function or class expression that stands as a statement (at the top level any, below it a plain one in sloppy code that nothing counted hides); or it names a plain function that nothing hides but a using head, an async function or a generator |
| `HoistingRule.MissedIff` | internal/engine/ast.go:659-744 | a hoisted name is missed iff every path that hoists it goes through a for-await statement or an export or is masked by a class expression, and nothing leaks it |
| `HoistingRule.AddedIff` | internal/engine/ast.go:659-744 | a name that is not hoisted is collected iff it leaks: by a function or class expression that stands as a statement, or by a plain function under a declaration that is not counted |
| `HoistingRule.BodyVarNamesExactly` | internal/engine/ast.go:518-549 | collectBodyVarNames reports a name iff some path declares it with var, outside nested functions and through no for-await statement and no export |
| `HoistingRule.OrdinaryIsExact` | internal/engine/ast.go:518-744 | on a tree without such statements, expressions and scopes both collectors follow the rule exactly |
| `HoistingRule.OrdinaryBodyIsExact` | internal/engine/ast.go:558-564 | and so does the collector over the statements of a body, its own top-level declarations hiding names below |
| `HoistingRule.HoistedNamesExactly` | internal/engine/ast.go:558-564 | the exact result for the statement list of any body |
| `HoistingRule.ForAwaitIsOverlooked` | internal/engine/ast.go:540-543 | the names that a for-await statement declares with var are found by neither collector |
| `HoistingRule.DeclarationsAreHoisted` | internal/engine/ast.go:659-744 | what plain function and class declarations hoist at and below the top level |
| `HoistingRule.DeclarationsHide` | internal/engine/ast.go:571-618 | which declarations hide a name in a list and in the head of a loop |
| `HoistingRule.ExportIsOverlooked` | internal/engine/ast.go:659-744 | an export declares what its declaration does, and the collectors find none of it |
| `HoistingRule.FunctionExpressionIsAdded` | internal/engine/ast.go:664-673 | (function f(){}); is a bare function node (internal/engine/parser.go:1088-1092, 3882-3884), hoists nothing, and is collected at the top level always, async or not, and below it in sloppy code |
| `HoistingRule.ClassExpressionIsAdded` | internal/engine/ast.go:682-687 | (class C {}); hoists nothing and is collected at the top level |
| `HoistingRule.HeadExpressionIsAdded` | internal/engine/ast.go:706-714 | so is a function expression in the head of a for statement, in sloppy code |
| `HoistingRule.ClassExpressionHides` | internal/engine/ast.go:586-589 | a class expression that stands in a block keeps a function of its name further in from being collected, though it hides nothing |
| `HoistingRule.UsingHeadDoesNotHide` | internal/engine/ast.go:596-605 | a function under a using head of its name is collected |
| `HoistingRule.AsyncFunctionDoesNotHide` | internal/engine/ast.go:571-592 | so is one under a block that declares an async function of its name |
| `Hoisting.CollectedIffWalk` | internal/engine/ast.go:659-744 | what is collected in terms of the walks that the code takes |
| `Hoisting.StrictIsBodyVarNames` | internal/engine/ast.go:518-549 | strict and below the top level, the result equals collectBodyVarNames for every tree and every shadow set |
| `Hoisting.Monotone` | internal/engine/ast.go:551-569 | sloppy mode only adds names, and a larger shadow only removes them |
| `Hoisting.BindsIff` | internal/engine/ast.go:620-650 | a binding target binds a name iff a chain of targets leads from it to that identifier: array elements, property values, what a default is given to, what rest collects into |
| `Hoisting.DeclaratorsBind` | internal/engine/ast.go:664-681 | a declaration binds what the targets of its declarators bind |
| `Hoisting.ListDeclares` | internal/engine/ast.go:571-592 | a list declares the names of its let, const, using and await using declarations and of its classes |
| `Hoisting.CollectBindingNames` | internal/engine/ast.go:620-650 | adds exactly the names of a binding target |
| `Hoisting.LexNamesOfList` | internal/engine/ast.go:571-592 | adds exactly the names a list declares lexically |
| `Hoisting.CollectBodyVarNames` | internal/engine/ast.go:518-549 | the recursive collector adds exactly the specified names |
| `Hoisting.CollectVarFuncNamesNode` | internal/engine/ast.go:659-744 | the recursive collector adds exactly the specified names |
| `Hoisting.CollectVarFuncNamesMode` | internal/engine/ast.go:558-564 | the collector over a list adds exactly the specified names |
| `Calendar.FirstOfMonth` | internal/engine/builtin_date.go:654-668 | for every year and month the era formula is DayFromYear plus the days of the earlier months |
| `Calendar.YearLength` | internal/engine/builtin_date.go:654-668 | DayFromYear grows by 366 exactly in leap years and by 365 otherwise |
| `Calendar.NextDay` | internal/engine/builtin_date.go:654-668 | the next calendar date has the next number |
| `Calendar.DayBefore` | internal/engine/builtin_date.go:654-668 | the date before has the number before |
| `Calendar.DateExists` | internal/engine/builtin_date.go:654-668 | every integer is the number of a date |
| `Calendar.DayNumberInjective` | internal/engine/builtin_date.go:654-668 | and of one only |
| `Calendar.TwelveMonthsAreAYear` | internal/engine/builtin_date.go:616-629 | twelve months on are one year on, for every real argument, iff truncation crosses zero in neither the month nor the year |
| `Calendar.TimeRoundTrip` | internal/engine/builtin_date.go:609-649 | day, hour, minute, second and millisecond read back from a time value are those it was made from |
| `Calendar.EveryTimeValue` | internal/engine/builtin_date.go:609-668 | every whole number of milliseconds is the time value of a date and a clock reading |
| `Calendar.Magnitudes` | internal/engine/builtin_date.go:654-668 | within 400000 years every intermediate value stays below 2^53, and within 280000 so does the product in makeDate |
| `Calendar.DateFromComponents` | internal/engine/builtin_date.go:554-597 | the loops over the components compute the specified time value; a result implies that all seven are finite |
| `Calendar.ComponentsAreTheDate` | internal/engine/builtin_date.go:554-597 | components of a calendar date give its time value, years 0 to 99 read as 1900 to 1999, or NaN outside the range of timeClip |
| `Calendar.TruncIs` | internal/engine/builtin_date.go:609-648 | truncation is toward zero |
| `Calendar.TruncModIs` | internal/engine/builtin_date.go:616-630 | the remainder of a truncating division has the sign of the dividend |
| `Calendar.EpochStartsAtZero` | internal/engine/builtin_date.go:654-668 | January 1970 starts at day zero |
| `Calendar.SevenComponents` | internal/engine/builtin_date.go:554-648 | for any seven finite components: fractions are dropped, months count on across years, and the rest is a sum in milliseconds; NaN out of range |
| `Calendar.AnyComponents` | internal/engine/builtin_date.go:554-597 | missing components are the first month, the first day or zero; a missing year or one that is not finite gives NaN; an eighth is ignored |
| `BigIntBounds.AsIntNWraps` | internal/engine/builtin_bigint.go:361-377 | the result is in range and congruent to v modulo 2^bits, early return included |
| `BigIntBounds.SignedUnique` | internal/engine/builtin_bigint.go:361-377 | and is the only such number |
| `BigIntBounds.NoBits` | internal/engine/builtin_bigint.go:361-377 | zero bits leave zero |
| `BigIntBounds.AsUintNWraps` | internal/engine/builtin_bigint.go:382-391 | likewise unsigned |
| `BigIntBounds.UnsignedUnique` | internal/engine/builtin_bigint.go:382-391 | and is the only such number |
| `BigIntBounds.ModulusStaysSmall` | internal/engine/builtin_bigint.go:361-398 | no modulus past 2^(BitLen(v)+1) is built for asIntN, nor past the limit for asUintN after its guard |
| `BigIntBounds.AcceptedWrapFits` | internal/engine/builtin_bigint.go:396-398 | what the guard lets through is no wider than the limit or than v itself |
| `BigIntBounds.RefusedWrap` | internal/engine/builtin_bigint.go:396-398 | what it refuses is past the limit, except iff the magnitude is a multiple of the modulus or just below one, which no value within the limit is |
| `BigIntBounds.MultiplyBound` | internal/engine/builtin_bigint.go:285-289 | an accepted product fits; a refused one fits iff a factor is zero, or the factors have one bit more than the limit together and one is at most the limit divided by the other |
| `BigIntBounds.MaximalTimesOneRefused` | internal/engine/builtin_bigint.go:285-289 | so the largest numbers can not be multiplied by one, nor larger ones by zero |
| `BigIntBounds.RefusedPowerIsTooBig` | internal/engine/builtin_bigint.go:409-419 | a refused power truly exceeds the limit |
| `BigIntBounds.AcceptedPowerIsBounded` | internal/engine/builtin_bigint.go:409-419 | an accepted one has at most BitLen(x) * (limit / (BitLen(x)-1) + 1) bits |
| `BigIntBounds.PowerFitsWhen` | internal/engine/builtin_bigint.go:409-419 | an accepted power fits while the bits of all factors together stay within the limit, and does not once one bit less each fills it |
| `BigIntBounds.PowerFitsIff` | internal/engine/builtin_bigint.go:409-419 | exactly, it fits iff the exponent is at most the integer logarithm of the limit to the base |
| `BigIntBounds.AcceptedTooBigIff` | internal/engine/builtin_bigint.go:409-419 | so the powers that are accepted although they are too big are those from there to the last exponent accepted; every base has some |
| `BigIntBounds.PowerOfTwoExact` | internal/engine/builtin_bigint.go:409-419 | for the k-th power of two: it fits iff k * y is below the limit, and is accepted iff y is at most limit / k + 1 |
| `BigIntBounds.LeftShiftIsScaling` | internal/engine/builtin_bigint.go:314-345 | a shift to the left, by either operator and any count, is scaling by a power of two, and fails iff the result is past the limit |
| `BigIntBounds.RightShiftIsScaling` | internal/engine/builtin_bigint.go:314-345 | a shift to the right never fails or widens, and is scaling rounded down, but that a count past 64 bits leaves only the sign, which is the same iff the value fits the count |
| `BigIntBounds.QuotientAndRemainder` | internal/engine/builtin_bigint.go:290-299 | quotient and remainder put the dividend together, and the remainder is smaller and takes its sign |
| `AtomicsArith.BitwiseIsBitByBit` | internal/engine/builtin_atomics.go:187-189 | and, or and xor act on every bit separately |
| `AtomicsArith.ReducedOperandStoresTheSame` | internal/engine/builtin_atomics_ops.go:80-138 | an operand reduced modulo 2^32 stores the same element as the unreduced one, for every operation and every width up to 32 |
| `AtomicsArith.NarrowNeverOverflows` | internal/engine/builtin_atomics_ops.go:109-138 | the narrow operations stay within 2^33, so neither int64 nor a double loses anything |
| `AtomicsArith.NarrowIsElement` | internal/engine/builtin_atomics_ops.go:164-180 | the conversions of atomicsNarrow give the one number of the width congruent to the input |
| `AtomicsArith.WrapBigIsElement` | internal/engine/builtin_atomics_ops.go:142-147 | likewise for atomicsWrapBig, which leaves a stored element alone |
| `AtomicsArith.ExpectationMatches` | internal/engine/builtin_atomics.go:266-271 | an expectation matches iff it is congruent to the cell, reduced or not |
| `AtomicsArith.TestBitIs` | internal/engine/builtin_atomics.go:187-189 | bit i of a number is the parity of its quotient by 2^i |
| `AtomicsArith.ElementRanges` | internal/engine/builtin_atomics_ops.go:164-180 | the range of each element type in numbers |
| `AtomicsArith.ElementStores` | internal/engine/builtin_atomics.go:185-190 | what each operation stores: the sum, the difference or the operand modulo the width, or and, or and xor on each bit of the width, always in range |
| `AtomicsArith.View.ReadModifyWrite` | internal/engine/builtin_atomics_ops.go:109-138 | every branch, whatever the coercions did to the view: the error; or the old element is returned, the cell holds what the operation stores, operation by operation, and no other cell changes |
| `AtomicsArith.View.CompareExchange` | internal/engine/builtin_atomics.go:241-273 | likewise: the old element is returned, and the replacement is stored iff the cell is congruent to the expectation |
| `AtomicsArith.View.CheckedIndex` | internal/engine/builtin_atomics_ops.go:65-75 | the index is judged by the length from before its coercion |
| `RuntimePool.StepInv` | scope.go:280-442 | every step of every goroutine keeps the pool invariant |
| `RuntimePool.OnceStep` | scope.go:372-442 | every Runtime stays in exactly one of: parked, leased, waiting to be closed, closed once |
| `RuntimePool.LiveStep` | scope.go:372-442 | live stays idle + leased + being built + those dropped by Close or by a build that panicked |
| `RuntimePool.UseStep` | scope.go:415-435 | parked Runtimes ended clean and within their limits; no Runtime runs more than MaxUses jobs |
| `RuntimePool.PoolSafety` | scope.go:280-442 | all of it in every state that any interleaving of Do and Close reaches, with no Runtime in two places, closed twice or leased after being closed, and idle within MaxIdle |
| `RuntimePool.AcquireHandsOut` | scope.go:372-399 | a closed pool hands nothing out; an open one the Runtime parked last, and it builds only when none is parked |
| `RuntimePool.NeverStuck` | scope.go:280-442 | a goroutine can always take its next step |
| `RuntimePool.BuildEnds` | scope.go:388-399 | a build gives a new Runtime, or takes back what was counted, or panics and does not |
| `RuntimePool.KeptWhen` | scope.go:415-423 | a Runtime is kept after a job iff the job was clean, another use is allowed and the heap is within the limit |
| `RuntimePool.ParkedWhen` | scope.go:425-435 | a kept one is parked iff the pool is open and has room, and else closed |
| `RuntimePool.NothingLeaks` | scope.go:337-354 | once closed and quiet, every Runtime ever built has been closed exactly once, and live is what Close dropped and panicking builds left |
| `RuntimePool.LiveOutlivesClose` | scope.go:340-369 | so Stats can report one live Runtime for ever: after one job and Close |
| `RuntimePool.Pool.Acquire` | scope.go:372-399 | the fields change in place as the specification step says |
| `RuntimePool.Pool.Build` | scope.go:391-413 | likewise when New returns |
| `RuntimePool.Pool.EndJob` | scope.go:304-312 | likewise for the deferred function of Do |
| `RuntimePool.Pool.Release` | scope.go:425-435 | likewise for release |
| `RuntimePool.Pool.Discard` | scope.go:437-442 | likewise for discard |
| `RuntimePool.Pool.TakeAll` | scope.go:340-349 | likewise for Close under the mutex |
| `RuntimePool.Pool.CloseTaken` | scope.go:350-353 | the loop of Close closes all it took |
| `RuntimePool.Pool.RunSchedule` | scope.go:280-442 | any schedule of goroutines on the fields themselves ends in the specified state and keeps the pool safe |
| `RuntimePool.DrainedCloses` | scope.go:350-353 | each exactly as often as it was held, and touches nothing else |
| `GraphExport.Exporter.Export` | convert.go:839-934 | ends on every finite heap; keeps containers already recorded, fills every new one, and returns the image of the value |
| `GraphExport.Exporter.ExportArray` | convert.go:895-914 | recorded before it is filled, filled in place |
| `GraphExport.Exporter.ExportRecord` | convert.go:916-934 | likewise for an object and its keys |
| `GraphExport.ExportValue` | convert.go:825-934 | on any finite heap, cyclic or not, it ends; every recorded object is fully copied, addresses are one to one, and the result stands for the value kind by kind |
| `GraphExport.ValuesKept` | convert.go:839-934 | at the end of every path the copy holds the same boolean, number, string, integer, symbol, time, bytes or function, nil exactly for undefined and null, a slice exactly for an array and a map exactly for an object |
| `GraphExport.EdgeCommutes` | convert.go:895-934 | the copy commutes with every element and every key, and has no others |
| `GraphExport.PathCommutes` | convert.go:839-934 | so with every path |
| `GraphExport.SharingPreserved` | convert.go:825-837 | two paths meet in one object iff they meet in one container |
| `GraphExport.CopiesWhatIsReachable` | convert.go:839-934 | exactly the reachable arrays and objects are copied, each once |

## Left out

- TurnRuns.Progress: assumes no more than that a running script reaches a safepoint; that enabled steps are eventually taken is the Go scheduler's business.
- TurnRuns.BoundedWait: counts scheduler steps while the host neither stops a script nor clears a flag.
- Safepoints are one step: interruptPending and interruptStops (internal/engine/interrupt.go:143-161) read the flag twice, and only a flag that asks for the turn calls yieldTurn; heap-limit and blob interrupts are host interrupts here.
- Timers are a nondeterministic "deadline passed", and agentSleep is a pause; real time is not modelled.
- The agent's reports, broadcasts, realm construction and script compilation.
- ArrayMoves.ArrayLike.Splice: indices are unbounded integers, so the rounding of the length check near 2^53 in doubles is not modelled.
- Getters, setters, proxies, species constructors, inherited indexed properties and exceptions in the array methods: Get, Set and Delete succeed on an ordinary object.
- Array.prototype.flatMap's mapper, and the result index past 2^53 - 1 in flattenIntoArray; the recursion limit is a number of nested calls.
- ArrayJoin.Runtime.Join: toLocaleString and user-defined toString are not modelled; an element has a known text or is an array.
- Live iteration by forEach and the iterators, and Map.groupBy, which stores keys without normalising them.
- SetAlgebra.Intersection: proved for set records whose has, keys and size agree and do not change anything; inconsistent records are not modelled, nor are errors thrown by them. Keys past 2^24 are dropped as in the source.
- KeyedValues.KeysAgree: objects, symbols and big integers are numbered or exact values; object identity is the heap's business.
- Calendar.DateFromComponents: arguments are already numbers; the shift from local time, setters and parsing are left out, and a real has no negative zero.
- Calendar.TimeRoundTrip: exact arithmetic; doubles agree within the bounds of Calendar.Magnitudes.
- Addition and subtraction of BigInts, which check no limit.
- HoistingRule.CollectedExactly: statements are entered by kind, and expressions are told from declarations by the flags fnFuncExpr and fnParen; that the parser puts declarations nowhere else and sets the flags so (internal/engine/parser.go:1091, 1230, 1247) is not modelled, and a plain function of an enclosing block is not counted as hiding another of its name, since it is hoisted under that name itself.
- BigInt values are unbounded integers; the fresh big.Int and its place in the Runtime's pool are not modelled.
- The check that a view is an integer typed array, and store, load and isLockFree on it.
- RuntimePool.StepInv: contexts, scopes and heap statistics enter as the outcome of a job; an interrupt that arrives from an earlier job's watcher is not modelled.
- GraphExport.Exporter.Export: property reads succeed; typed arrays export like arrays of their numbers; two empty Go slices count as different containers.
- ExportTo, the conversion from Go to JavaScript, and JSON.
- The parser, the collector, the compiler's code generation and the just-in-time compiler.
