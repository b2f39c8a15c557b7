# deai, verified

deai is a small object runtime: reference counted objects with members, signals and typed
methods, plus plugins that use them. This project models its most delicate code in Dafny,
step by step and branch by branch, and proves what the code is for.

| file | models |
|---|---|
| `Values.dfy`, `DiTypes.dfy` | the recursive values of object.h and the references they hold; the type tags |
| `Runtime.dfy` | object.c: strong and weak counts, destruction with re-entrant destructors, the member table, deep copy and free, the anonymous roots of main.c |
| `Lifetimes.dfy` | what exact counts mean: destructors run once, blocks are freed once, no garbage without cycles; whole runs |
| `Reentry.dfy` | object.c: what foreign code may do to a member table while loops over it run; two runs, step by step |
| `MarkSweep.dfy` | object.c: the three-colour leak and cycle detector |
| `SignalLog.dfy`, `Signals.dfy`, `SignalHub.dfy` | object.c: signals, listen handles and re-entrant emission; what a right history of events is, the state it determines, the methods |
| `Seqs.dfy`, `Bits.dfy`, `HashTable.dfy` | uthash.h: bucket chains and order list over the same nodes, bucket expansion |
| `MergeSort.dfy`, `ListSort.dfy` | uthash.h: the in-place list sort |
| `Lists.dfy`, `Links.dfy`, `Walks.dfy`, `Forests.dfy`, `ProcessTree.dfy` | list.h and main.c: killing all descendants of a process, for processes enumerated in any order |
| `StringBuf.dfy`, `LineSplit.dfy` | string_buf.c and spawn.c: lines from a chunked stream |
| `Signature.dfy` | plugins/dbus/sedes.c: D-Bus type signatures of values |
| `Modifiers.dfy`, `AtomCache.dfy` | plugins/xorg/xorg.c: eight lists in shared arrays; a cache with two indices |
| `Conversion.dfy`, `TypedCall.dfy` | include/utils.h and callable.c: conversions, typed calls, closures, typed getters |

**Foreign code.** Destructors, signal handlers and everything else that the runtime calls
without knowing it are arbitrary finite scripts of API calls, nested to any depth. A call
whose own contract does not hold when it is reached (releasing a reference that nobody
holds, say) is skipped, so each script stands for every run in which foreign code keeps the
contracts it is given. The record of who holds which reference (`Book`) and the histories of
events are not kept by the program: they decide what foreign code may do and carry the proofs.

**Findings.** Where the code does not do what it is meant to do, the model follows the code
and a lemma says so:

- `Runtime.RuleExact`: `check_new_member` skips a prefix of the wrong length for deleters; it
  keeps the rule for internal names exactly outside two families of names, and
  `Runtime.DeleterGap` shows a member of each.
- `Reentry.UnlinkKeepsIff`, `Reentry.FinalizeKeepsIff` and `Reentry.FinalizeAllIff`: the loop that
  removes the members of an object saves its next member. It follows a freed pointer exactly if foreign
  code, while the loop runs, removes the member that is saved, or finalizes the object again while one is
  saved and so comes to remove that one. `Reentry.SavedMemberRemoved` is a run that comes
  to a destructor which can do that.
- `Lifetimes.NoGarbageIff`: even without cycles an object can outlive all references that lead to
  it, exactly if an object that is dead was left with a member that leads to it.
  `Lifetimes.LeftoverIsLate`: such a member was added when the members were being swept and none
  was saved, or after that; members added earlier are removed. `Reentry.LateLeaks` is a run in which a
  destructor adds one.
- `MarkSweep.LeakMeans`: the leak detector follows members that are objects, not what is inside arrays,
  tuples and variants, and it lists blocks until they are freed. It reports a leak exactly if there is garbage,
  or a block is kept for weak references only, or something is reachable in a way that it does not follow.
- `SignalHub.FreedUnlessSkipped`: `di_emitn` never gives back its weak reference to a handle
  that it skips; the memory of that handle is lost. `SignalHub.SkippedHandle` is a run that loses one.
- `SignalHub.SurvivorIff`: `di_destroy_object` detaches the signals also if a strong reference that was taken
  meanwhile keeps the object. Every signal struct is still in the table of its living owner, where
  `di_listen_handle_dtor` deletes it, exactly if no such reference is left or nothing listened to the object.
  `SignalHub.SurvivorDetached` is a hub with an object for which it fails.
- `SignalHub.HookFreesSignal`: whenever `__new_signal` announces a signal, that signal has no listener yet. If
  the hook adds one and drops it, the struct is freed, and `di_listen_to` goes on to use it.
- `ProcessTree.KillAllDescendants`: `__list_splice` takes its first argument for a head, so a
  process that is enumerated after one of its children is reached by no walk. All descendants are
  signalled exactly if this happens to none of them. `ProcessTree.ChildBeforeParent` is a run that
  signals nobody.
- `Signature.OverrunIff`: an array counts a first element without a length as -1, so what is written
  can be longer than what was measured. The writer leaves its block exactly if the characters of that
  element do not fit into the room of what is still to come. `Signature.WritesTooMuch` has a value
  of each kind. `Signature.SigIsComplete`: a tuple without elements gets a signature that is not a
  D-Bus type.
- `Modifiers.FindModifiers`: the code does not check the bound of its arrays; it stays within them
  exactly if there are at most 256 entries. `Modifiers.TooManyEntries` is a keymap with 264.
- `StringBuf.Buffer.Dump`: `string_buf_lpush` records the length that it is given for a string that ends before
  the first NUL. Dumping stays within its blocks exactly if no NUL was pushed. `LineSplit.WholeOutput`: reading
  the output of a child does so exactly if no chunk has a NUL behind its last newline; then each line is the
  piece of the output up to its first NUL, and all lines are the pieces exactly if the output has no NUL
  (`LineSplit.CutIsPieces`).
- `Conversion.IntegersExact`: three pairs of integer types never convert.
- `TypedCall.RawGetXT`: fetching a member as nil succeeds and keeps the copy.

## Model

| member | source | states |
|---|---|---|
| Runtime.Heap.NewObject | object.c:301-326 | a new address, one strong reference and the implicit weak one; nothing else changes and the heap stays consistent |
| Runtime.Heap.RefObject | object.c:441-445 | exactly one strong count goes up by one |
| Runtime.Heap.WeaklyRefObject | object.c:447-451 | exactly one weak count goes up by one |
| Runtime.Heap.Upgrade | object.c:453-460 | an upgrade succeeds exactly while the strong count is positive, and then counts the new reference |
| Runtime.Heap.DecrementWeak | object.c:462-470 | one weak count goes down, and the block is freed exactly when it was the last one |
| Runtime.Heap.DropWeakRef | object.c:472-477 | one weak reference less, counts still exact, no destructor runs |
| Runtime.Heap.UnrefObject | object.c:479-491 | dropping any strong reference, with the whole cascade it sets off, terminates and leaves every count exact; if it was not the last one, one count drops and nothing else happens |
| Runtime.Heap.Destroy | object.c:416-428 | a destruction ends with the object destroyed and its destructor run first, whatever the destructor does; its members are gone, unless it got one when no loop would reach it (`Signals.FinishOwnerInv` is about its signals) |
| Runtime.Heap.FinalizeBody | object.c:378-404 | the destructor runs before any member goes, at most once; the member loop survives whatever its removals set off, if nothing takes the saved member away (`Reentry` says when that is) |
| Runtime.Heap.RemoveMembers | object.c:390-403 | under the same condition, the loop with a saved next member removes every member, also those added while one is saved, although each removal may run foreign code |
| Runtime.Heap.FinalizeObject | object.c:406-413 | finalizing, also while a member loop of the object removes its last member, keeps the heap consistent, runs the destructor with the members still there, and clears it |
| Runtime.Heap.FreeValue | object.c:645-711 | freeing a value of any depth takes away exactly the references at its leaves; if none is the last of its kind the counts drop by exactly these |
| Runtime.Heap.CopyValue | object.c:713-777 | copying a value of any depth raises every count by exactly the number of its references at the leaves of the value |
| Runtime.Heap.AddMember | object.c:500-574 | on success the object takes the value over, on failure the value is freed: its references are accounted for either way |
| Runtime.Heap.AddMemberClone | object.c:576-586 | as above, with a copy: the caller keeps its own references |
| Runtime.Heap.AddMemberMove | object.c:603-617 | as above, with the caller's own references: it gives them up also on failure, except for a value of type nil, which changes nothing |
| Runtime.Heap.RemoveMemberRaw | object.c:347-364 | an absent name changes nothing; a present one goes, and with it exactly its references |
| Runtime.Heap.RawGetX | object.c:183-195 | the counts rise by exactly the references in the returned value, and not at all if there is none |
| Runtime.CheckNewMember | object.c:500-542 | which names are taken or internal, as the code decides it |
| Runtime.RuleExact | object.c:500-542 | for a new name, the check refuses the accessors of internal names, and only these, exactly if the name is outside two families |
| Runtime.DeleterGap | object.c:500-542 | a deleter of an internal name that is let through, and a harmless name that is refused |
| Runtime.Heap.AddAnonymousRoot | main.c:457-467 | a handle never used before, and one more reference to the object |
| Runtime.Heap.RemoveAnonymousRoot | main.c:470-479 | an unknown handle changes nothing; a known one releases exactly its reference |
| Runtime.Heap.RootsDtor | main.c:481-503 | every root is released exactly once, although the releases may remove or add roots |
| Runtime.Heap.RunScript | object.c:301-491 | every run of calls, with all destructors it sets off, terminates, keeps the heap consistent, and makes its calls in order |
| Reentry.UnlinkKeepsIff | object.c:390-403 | removing a member leaves all running loops in order, and the heap consistent, exactly if no loop has saved this member |
| Reentry.FinalizeKeepsIff | object.c:378-413 | the first removals of a second finalization leave the loops that run in order exactly if none of these members is saved |
| Reentry.FinalizeAllIff | object.c:378-413 | all its removals do exactly if no loop of the object has a member saved |
| Reentry.SavedMemberRemoved | object.c:390-403 | a run from the beginning to a destructor that holds the owner and finds the saved member in its table; removing it leaves a loop with a member that is gone |
| Lifetimes.DestructorOnce | object.c:378-388 | no destructor runs twice, and one whose object is finished did run |
| Lifetimes.FreedExactly | object.c:462-491 | a block is freed exactly when no reference of either kind is left, and not before its destruction is over |
| Lifetimes.AliveExactly | object.c:453-491 | an object is alive exactly while a strong reference to it exists |
| Lifetimes.ReachableIsAlive | object.c:378-491 | whatever a path of members leads to is alive, cycles or not |
| Lifetimes.AliveIsReachable | object.c:378-491 | without cycles of strong references, something leads to whatever is alive: foreign code, a root, or what a dead object was left with |
| Lifetimes.NoGarbage | object.c:378-491 | without cycles, an object is alive exactly if foreign code, a root or what a dead object was left with leads to it |
| Lifetimes.NoGarbageIff | object.c:378-491 | without cycles, exactly what foreign code and roots reach is alive if and only if they reach all that dead objects were left with |
| Lifetimes.LeftoverIsLate | object.c:390-403 | a dead object is left with members only if it got one when no loop would reach it |
| Lifetimes.EverythingFreed | object.c:378-491 | when everything is given back, an acyclic heap is freed completely exactly if no dead object was left with a reference; if no object got a member too late, all tables are empty and all destructors have run |
| Lifetimes.CycleLeaks | object.c:999-1032 | the acyclicity above is needed |
| Reentry.LateLeaks | object.c:378-439 | a run from the beginning, in which a destructor adds a member to the object whose last member is being removed, to an end at which that member keeps an object alive, out of reach |
| Lifetimes.AnyRun | object.c:301-491 | every run of calls from the beginning ends with nothing in progress, with no destructor run twice, and without garbage but for leftovers and cycles |
| Lifetimes.CopyThenFree | object.c:645-777 | copying a value and freeing the copy is the identity on the heap |
| MarkSweep.Tracker.Dfs | object.c:999-1017 | the search terminates on any graph, only darkens, blackens what it starts from, and warns exactly when it meets a cycle |
| MarkSweep.GreyCycle | object.c:1000-1006 | a grey object that is met again lies on a reachable cycle |
| MarkSweep.WalkGoesBack | object.c:999-1017 | without a warning, edges between black objects go back in the finishing order |
| MarkSweep.NoCycle | object.c:999-1017 | no warning means that no reachable cycle exists |
| MarkSweep.AllMarked | object.c:1019-1032 | when the search from all roots is over, the marked objects are the reachable ones |
| MarkSweep.ListedClosed | object.c:999-1032 | a consistent heap satisfies what the detector assumes of the list of all objects |
| MarkSweep.UnseenIff | object.c:1019-1032 | something reachable is not reached by the search exactly if something held is no starting point, or a reference that is not followed leads out of what is reached |
| MarkSweep.LeakMeans | object.c:1019-1032 | in a consistent heap an unfreed block is out of reach of the search exactly if an object is alive and out of reach, or a dead one is kept by weak references, or something reachable is not reached by the search |
| MarkSweep.Tracker.MarkAndSweep | object.c:1019-1032 | true exactly if a listed object is out of reach; marks exactly the reachable objects; warns exactly if a reachable cycle exists |
| SignalLog.NeverCalledAgain | docs/design_evolution/listener_shenanigans.rst:7 | a handle that was dropped is called by no emission afterwards |
| SignalLog.TurnsInOrder | object.c:899-943 | each emission gives the handles it copied their turns in list order, each once |
| SignalLog.CalledIffAlive | object.c:899-905 | a handle is called exactly if it had not died when its turn came |
| SignalLog.HooksAlternate | object.c:829-844 | between two `__new_signal` for a signal there is a `__del_signal` |
| SignalLog.ClosesAlternate | object.c:794-812 | before each `__del_signal` there is a `__new_signal` with no other `__del_signal` in between |
| SignalLog.NoHookAfterDeath | object.c:794-812 | no hook is called for an object whose destruction is complete |
| SignalLog.FreedOnce | object.c:813-821 | no signal struct and no handle is freed twice |
| Signals.OpenSignalInv | object.c:830-844 | creating a signal struct keeps all invariants: tables, weak counts, hooks, history |
| Signals.AddListenerInv | object.c:846-860 | adding a listener keeps all invariants, in particular the list is the one the history describes |
| Signals.LeaveInv | object.c:787-793 | a listener that leaves keeps all invariants |
| Signals.CloseSignalInv | object.c:794-816 | freeing the struct of a signal without listeners keeps all invariants, whether its owner is alive, dying or gone |
| Signals.FinishOwnerInv | object.c:429-438 | detaching the signals of a destroyed object keeps all invariants |
| Signals.KeptTrans | object.c:863-945 | what foreign code may do while a call is in progress composes over any number of calls |
| SignalHub.Hub.ListenTo | object.c:824-861 | the new handle comes first among the listeners, the others stay as they were |
| SignalHub.Hub.HandleDtor | object.c:787-822 | the handle leaves, its entry is freed, and an empty signal is closed and freed |
| SignalHub.Hub.FreeSignal | object.c:794-816 | the table of a live owner loses the signal, its hook is told, its weak reference is dropped |
| SignalHub.Hub.DropHandle | object.c:479-491 | dropping the last reference leaves the handle dead, with everything released code did in between |
| SignalHub.Hub.Release | object.c:416-439 | after the last reference is dropped the owner's death is complete, whatever ran meanwhile |
| SignalHub.Hub.Snapshot | object.c:873-898 | the copied handles are exactly the listeners, newest first, and each copy holds a weak reference |
| SignalHub.TurnFacts | object.c:899-909 | at its turn a handle's memory is there, and a handle that can be upgraded is not being destroyed, so reading its handler cannot fail |
| SignalHub.Hub.TakeTurn | object.c:899-925 | a turn calls the handler exactly if the handle is alive, whatever earlier handlers did |
| SignalHub.Hub.EmitN | object.c:863-945 | every emission, with nested emissions and handlers that drop, listen, emit or release anything, finishes, and gives exactly the listeners it began with their turns |
| SignalHub.Hub.Run | object.c:787-945 | every run keeps the invariants, finishes all emissions it begins, and gives back all weak references but those of skipped handles |
| SignalHub.AnyRun | object.c:787-945 | the same for every run from the beginning |
| SignalHub.FreedUnlessSkipped | object.c:899-924 | the memory of a dead handle is given back exactly if no emission skipped it |
| SignalHub.SkippedHandle | object.c:899-924 | a run in which it is not: a handler drops the next handle, which dies, is skipped once and keeps its memory for good |
| SignalHub.TableIsListeners | object.c:794-844 | an owner's table holds exactly the signals with listeners, and the hooks have announced exactly these |
| SignalHub.FreedWithLastListener | object.c:794-816 | a signal struct is freed exactly when its last handle died, before or after its owner |
| SignalHub.OneEntry | object.c:846-860 | a live handle has exactly one entry, in the list of its signal, whose counter is the length of the list |
| SignalHub.SurvivorIff | object.c:416-439 | when a destruction ends, every signal struct is in the table of its owner, unless that is gone, exactly if no strong reference is left or nothing listened to the object |
| SignalHub.SurvivorDetached | object.c:794-802 | a hub in which it is not: two handles listen to an object that is being destroyed, and a reference to it stays |
| SignalHub.HookFreesSignal | object.c:829-846 | whenever a new signal is announced, listening to it and leaving frees its struct, with all invariants kept, before `di_listen_to` adds its own listener |
| Bits.MaskIsMod | uthash.h:441-444 | masking with a power of two minus one is the remainder |
| Bits.ShiftMaskIsCeil | uthash.h:866-868 | the shift and mask compute the rounded up quotient |
| Bits.CeilDivIsLeast | uthash.h:838-852 | which is the least chain length that holds all items |
| HashTable.Table.MakeTable | uthash.h:223-249 | an empty table of 32 buckets |
| HashTable.Table.AppendList | uthash.h:289-295 | the order list with the new item behind it, all links right |
| HashTable.Table.AddToTable | uthash.h:348-356 | the item is in the bucket of its hash, all chains and counts are right, and the table is doubled exactly if the bucket was crowded |
| HashTable.Table.Add | uthash.h:407-426 | the map gets the key, the insertion order the item at its end, and all structure is kept |
| HashTable.Table.Find | uthash.h:176-184 | the item that the map holds for the key, and none exactly if it holds none |
| HashTable.Table.FindInBucket | uthash.h:768-787 | an item of the chain with hash and key, or none if the chain has none |
| HashTable.Table.Delete | uthash.h:461-488 | the map loses the key, the insertion order the item, and nothing else changes; the last item takes the table with it |
| HashTable.UnlinkFromChain | uthash.h:812-824 | the chain without the item, links and head right |
| HashTable.Table.MoveHead | uthash.h:873-892 | one item of the old chain moves to its new bucket while the rest stays linked |
| HashTable.Table.ExpandBuckets | uthash.h:856-906 | twice the buckets, the same items in the same order, each where its hash says; ideal length, overflow count, multipliers and the stop of further expansion are as defined |
| HashTable.MovedAll | uthash.h:872-893 | after the loop no item is lost, doubled or misplaced |
| HashTable.MultSpans | uthash.h:878-882 | the multiplier of a chain is 0 up to the ideal length; beyond, it is the number of ideal lengths that the chain spans, but one less if that length is 1 or the chain is one item too long |
| HashTable.CountsSum | uthash.h:790-800 | the bucket counts sum to the number of items |
| HashTable.AnyRun | uthash.h:176-488 | any run of insertions, lookups and deletions from a new table finds a key exactly if the insertion-ordered sequence of keys holds it, and leaves exactly that sequence |
| HashTable.AddRefines | uthash.h:407-426 | appending an item with a new key extends the map by it |
| HashTable.DeleteRefines | uthash.h:461-488 | removing an item removes its key and no other |
| MergeSort.MergeStable | uthash.h:938-965 | merging two stable runs, the left one first on ties, gives a stable run |
| MergeSort.PassDoubles | uthash.h:926-977 | a pass turns sorted runs into sorted runs of twice the length |
| MergeSort.SortIsStable | uthash.h:913-995 | the passes compute the stable sorted permutation, for any total preorder |
| MergeSort.StableIsUnique | uthash.h:913-995 | and there is only one |
| MergeSort.PassesKeep | uthash.h:913-995 | the result is a permutation even if the comparison is no order |
| ListSort.FirstRunEnds | uthash.h:929-937 | the second run starts behind the first, or nowhere |
| ListSort.MergeRuns | uthash.h:938-974 | the relinking loop appends exactly the merge of the two runs and leaves the rest of the list intact |
| ListSort.Pass | uthash.h:921-986 | one pass over the list, and whether it was the last |
| ListSort.Sort | uthash.h:913-995 | the sort terminates with both links of all nodes and both ends right |
| ListSort.SortTable | uthash.h:913-995 | a sorted table is the same map, and its order is the stable sort of what it was |
| Lists.SpliceBetween | list.h:256-266 | the payload of a list, without its head, goes between two neighbours of another |
| Lists.AddBetween | list.h:54-60 | one node goes between two neighbours |
| Lists.DeleteEntry | list.h:91-112 | the list without the node |
| Forests.LinkedIsPreOrder | main.c:237-251 | splicing each process behind its parent, parents first, gives a pre-order of the whole forest |
| Links.LateNodesLost | main.c:242-251 | spliced in any order, a node that comes after one of its children loses its only predecessor for good |
| ProcessTree.LinkOne | main.c:242-251 | one splice, on the nodes, whatever was linked before |
| ProcessTree.LinkAll | main.c:237-251 | the links after the loop, for processes in any order; the list of the pre-order, if parents come first |
| ProcessTree.ListIsWholeIff | main.c:237-251 | the list holds all processes exactly if none comes after one of its children |
| Walks.WalkedLeads | main.c:252-263 | after any splices in any order, the links lead from a node through descendants of it, none of them late, each after its parent, and then to a node whose parent is not among them |
| Walks.WalkedAllIff | main.c:252-263 | these are all descendants exactly if none of them was spliced after one of its own children |
| ProcessTree.Walk | main.c:252-263 | the walk terminates on these links, signals what it passes and stops at the first process whose parent it has not visited |
| ProcessTree.KillAllDescendants | main.c:163-268 | for any order of enumeration: only proper descendants are signalled, each at most once, parents before children; all of them are, if and only if none is enumerated after one of its own children |
| ProcessTree.VictimsOrderly | main.c:252-263 | whatever the order, those signalled are proper descendants, each once, parents before children |
| ProcessTree.ChildBeforeParent | list.h:256-266 | our grandchild is enumerated before our child: of two descendants none is signalled |
| StringBuf.Buffer.Push | string_buf.c:30-36 | the contents grow by the string, through the tail pointer |
| StringBuf.Buffer.LPush | string_buf.c:38-45 | the contents grow by the bytes before the first NUL; the recorded lengths stay right exactly if there is none |
| StringBuf.Buffer.Clear | string_buf.c:51-61 | the buffer is empty |
| StringBuf.Buffer.Dump | string_buf.c:63-90 | stays within its blocks exactly if no NUL was pushed; then one terminated string with everything pushed, and the buffer is empty |
| LineSplit.PiecesJoin | spawn.c:75-101 | the pieces of a stream hold no newline, and joined by newlines they are the stream |
| LineSplit.PiecesUnique | spawn.c:75-101 | no other pieces do that |
| LineSplit.CutIsPieces | spawn.c:75-101 | the pieces are strings, none cut off at a NUL, exactly if the stream has no NUL |
| LineSplit.SplitChunk | spawn.c:79-99 | a chunk completes exactly the lines that its newlines end, and the buffer holds the rest; it fails exactly if it has a newline and a NUL was pushed before |
| LineSplit.OutputHandler | spawn.c:75-101 | however the reads cut the stream, the lines are those of the stream; the buffer is sound exactly if no chunk had a NUL behind its last newline |
| LineSplit.Flush | spawn.c:116-120 | the rest is emitted, unless nothing was ever read; it fails exactly if a NUL was pushed |
| LineSplit.WholeOutput | spawn.c:75-129 | over the life of a child the emitted lines are the pieces of its output, up to the first NUL of each and independent of chunks, or it fails, exactly if a chunk has a NUL behind its last newline; an empty output emits nothing |
| Signature.VerifyIsSig | plugins/dbus/sedes.c:277-317 | for values without tuples verification succeeds exactly on signatures that begin with the value's own and consumes just that, so arrays pass exactly if homogeneous |
| Signature.TuplesRefused | plugins/dbus/sedes.c:277-317 | values with tuples never verify |
| Signature.PrefixFree | plugins/dbus/sedes.c:277-317 | no signature of a tuple-free value is a proper prefix of another |
| Signature.LengthIsSig | plugins/dbus/sedes.c:243-275 | the precomputed length of an accepted value is the length of its signature |
| Signature.TupleLengths | plugins/dbus/sedes.c:260-272 | a tuple is measured exactly if all its elements are, as their sum and the parentheses |
| Signature.RoomIff | plugins/dbus/sedes.c:243-275 | what is written stays within the precomputed length and any room behind it exactly if the first element without a length on the way, if there is one, fits into the room of what is still to come |
| Signature.OverrunIff | plugins/dbus/sedes.c:376-383 | the writer leaves the block that is allocated exactly if the value does not fit in this sense |
| Signature.AcceptedFits | plugins/dbus/sedes.c:376-383 | a value that gets a signature never makes it do so |
| Signature.WritesTooMuch | plugins/dbus/sedes.c:243-275 | a value that is measured as 0 and written with 2 characters, out of bounds alone and within bounds in a tuple |
| Signature.ToBuffer | plugins/dbus/sedes.c:324-374 | exactly the accepted values are written, each as its signature, described by its node, and nothing around it is touched |
| Signature.ChildrenTile | plugins/dbus/sedes.c:350-371 | the children of a tuple lie side by side and fill it up to the parentheses |
| Signature.TypeSignature | plugins/dbus/sedes.c:376-388 | exactly the accepted values get a signature, of the precomputed length; exactly those that have a length and do not fit overrun the block |
| Signature.SigIsComplete | plugins/dbus/sedes.c:324-374 | the signature is one single complete type exactly if no tuple is empty ("Type System" section of the D-Bus Specification) |
| Modifiers.KeysExact | plugins/xorg/xorg.c:286-313 | the row of a modifier holds exactly its keys, each once, the last found first |
| Modifiers.ListsPush | plugins/xorg/xorg.c:302-306 | the new entry keeps the eight lists disjoint and acyclic and uses the next free node |
| Modifiers.MoreToCome | plugins/xorg/xorg.c:302-306 | whenever another entry is found, there are more in all than have been recorded |
| Modifiers.Scan | plugins/xorg/xorg.c:286-320 | after all keys, list by list the entries are those of the rows, and none is lost; it runs out of nodes exactly if there are more than 256 entries in all |
| Modifiers.FindModifiers | plugins/xorg/xorg.c:257-344 | with at most 256 entries, and only then, row by row exactly the keys of the modifier, zero padded to the longest row |
| Modifiers.TooManyEntries | plugins/xorg/xorg.c:286-320 | a keymap with 264 entries, for which it fails |
| AtomCache.Cache.Insert | plugins/xorg/xorg.c:117-124 | an entry whose key is missing in one index is missing in both, so both can take it |
| AtomCache.Cache.GetAtomName | plugins/xorg/xorg.c:105-127 | the name the server has for the atom; the server is asked only for atoms not cached, and a failure changes nothing |
| AtomCache.Cache.InternAtom | plugins/xorg/xorg.c:128-155 | the atom the server has for the name, or 0 if it fails |
| AtomCache.IndicesAgree | plugins/xorg/xorg.c:117-124 | both indices hold the same entries, a bijection of names and atoms |
| AtomCache.Cache.Session | plugins/xorg/xorg.c:105-155 | over any interleaving of both lookups every answer is the server's |
| Conversion.IntegersExact | include/utils.h:25-104 | an integer is converted, value unchanged, exactly if it fits and the pair of types is not one of the three that never convert |
| TypedCall.Convert | include/utils.h:119-200 | exactly the convertible values succeed, the result means the same, and the ownership flag says who owns it |
| TypedCall.RawGetXT | object.c:247-267 | to a type other than nil, references change exactly by those of the result, and not at all on failure |
| TypedCall.PassArgument | callable.c:74-130 | an argument is passed, as nil's substitute if need be, or refused |
| TypedCall.TypedTrampoline | callable.c:50-155 | the function is called exactly if all arguments can be passed, with what the caller passed, and on every way out each reference made for the arguments is released once |
| TypedCall.Closure.Call | callable.c:158-173 | the same for a closure, with its captures first; a wrong number of arguments is refused |
| TypedCall.CreateClosure | callable.c:187-243 | a closure owns a copy of exactly what it captures; on failure nothing is owned |
| TypedCall.Closure.Free | callable.c:175-185 | freeing a closure gives back exactly what it captured |

## Left out

- Integer widths of counters: `ref_count`, `weak_ref_count`, `num_items` and the like do not wrap; the conversions of include/utils.h do model their 32 and 64 bits.
- TypedCall.Convert: an integer converted to float keeps its value in the model; the code rounds.
- Memory layout, alignment, allocation failure, `errno` texts, logging, libev, libffi, dbus, xcb, xkb, `/proc` and file descriptors: their results are parameters.
- `di_setx`, `di_getx` and the getter, setter and deleter handlers of members; `di_call_internal`; setting a destructor after creation: not modelled.
- Runtime.Heap.RunScript: a script does not remove a member that a running loop has saved, and does not finalize an object while one of its loops has a member saved; what the code does after that is undefined.
- Runtime.Heap.RemoveMemberRaw: the member is not one that a running loop has saved, as above.
- Runtime.Heap.FinalizeObject: no running loop of the object has a member saved, as above.
- MarkSweep.Tracker.MarkAndSweep: the list of all objects is a sequence; dumping and excess counts are left out.
- SignalHub.TurnFacts: scripts do not finalize a live listen handle and do not remove its `__handler`; after either, at its next turn the upgrade succeeds and the code aborts at object.c:909.
- SignalHub.Hub.EmitN: the handler object that a handle holds is not counted here (`Runtime` counts members).
- SignalHub.Hub.FreeSignal: the `__del_signal` hook is part of the script that runs once the struct is freed; in the code only the freeing of what nobody else can reach comes after it.
- SignalHub.Hub.Release: no strong reference survives a destruction; `SignalHub.SurvivorIff` says what happens otherwise.
- SignalHub.Hub.ListenTo: the `__new_signal` hook does not call back into the signal code (`SignalHub.HookFreesSignal` shows what can happen); the listener list is a sequence, and `Lists` models the node operations of list.h.
- HashTable.Table.Add: the key must be absent, as uthash demands; the hash function is a parameter; replacing, sorted insertion, Bloom filters and selection are left out.
- ListSort.SortTable: the comparison depends on keys and hashes only.
- ProcessTree.KillAllDescendants: no process is its own ancestor, and our own process is in the table; the sentinel has no visited parent, while the code never sets the one of its sentinel.
- LineSplit.WholeOutput: the model stops where the code leaves its blocks; handlers do not call back into the reader.
- Signature.Length: the loop over the elements of an array is the intended one, bounded by the array; the code bounds it by the element type. Arrays have elements. Reading a signature past what was written counts as a mismatch.
- Signature.TypeSignature: the model stops where the code writes past its block; what happens then is undefined.
- Modifiers.FindModifiers: which modifiers a key activates is a function of the key; the model stops where the code writes past its arrays.
- TypedCall.Ledger.CopyValue: copying is one step here (its recursion is in `Runtime`); the blocks that hold arrays, tuples and variants are not counted. Unwrapping an owned variant leaves its block behind.
- Serialization of values into D-Bus messages, the Lua plugin, event sources, file watches, match rules and the C++ bindings are left out.
