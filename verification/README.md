# Proofs about the in-memory structures of the spaced-repetition tool

The tool keeps its cards in six Leitner boxes and rests on a few hand-written or ported data structures. This project
models seven of them and the box queues in Dafny and proves what each is for.

* `IdrTrie.dfy`, `IdrWalk.dfy`, `Idr.dfy`: the id allocator, a 256-way radix tree with per-node "full" bitmaps, counts,
  growth and shrinking at the root, a backtracking search for a free slot, and a hint for lookups. Nodes live in an arena
  (a map from addresses to layers); a ghost map from tree positions to addresses says which node is where. Every
  operation is proved against the partial map `Contents()` from ids to pointers.
* `Ida.dfy`: the allocator of plain ids on top of it, whose leaf slots hold bitmaps of 960 ids, so that "full" means
  something else at its leaves. Operations are proved against the set `Ids()`.
* `PoolChain.dfy`, `Mempool.dfy`: the compacting pool behind handles. The arena is bytes and headers; writing bytes
  over a header destroys it, and writing a header destroys the bytes under it. A ghost chain of blocks says what the arena
  holds; every operation is proved against the set `InUse()` of live chunks with their bytes, and with their address while
  they are locked.
* `RbShape.dfy`, `RbLinks.dfy`, `RbSplice.dfy`, `RbTree.dfy`: red-black trees with parent pointers and user-defined
  subtree summaries. The tree is proved against a ghost tree and its in-order sequence; the fix-up loops carry the tree
  apart into a subtree and its context. The two mirrored halves of the fix-up loops are written once, with a side.
* `CvsRing.dfy`, `CvsInit.dfy`, `CvsPool.dfy`: the compact pool in slots of four bytes. Memory is a sequence of slots, two
  16-bit halves each, and every field (pad, block index, length, links, guards) is read and written there, packed as in the
  source. How many slots a pool gets and how its trunks are laid out is modelled for any number of blocks and trunks;
  allocation and release for one trunk of at most one block. A ghost map of nodes and a ghost list say what is stored.
* `SlabPool.dfy`: the slab pool of objects of one size, its free lists threaded through the objects, and its loading at other
  addresses. Memory is a store of words and content by address. Every operation is proved against a pool without addresses:
  slabs, free lists in order, content. Two pools that say the same there behave alike.
* `Bitmap.dfy`: bitmaps as arrays of 64-bit words: lowest and highest bit, searches, full and empty, setting and clearing a
  range. A word is the sequence of its bits.
* `Weight.dfy`: counting set bits. Here words are machine words: `hweight64` adds neighbouring fields within one, and what it
  comes to is the number of bits `Bitmap.dfy` speaks of.
* `Boxes.dfy`: the six box queues and their mirror in the metadata file (first line, counts, chain of next lines). A ghost
  record of moves says which item left which box for which, a load being a move from the file.
* `Session.dfy`: a practice session on the boxes: `move_to_lbox`, `go_lbox_internal` and `go_lbox`, which call each other to
  make way in boxes that fill, and to load and walk over all boxes when box 0 is done. The answers are an arbitrary stream,
  right or wrong, that the session reads from; what becomes of the items is stated in terms of it.

## Findings

* `idr_destroy` on a tree of four layers never pops the top layer (src/idr.c:654): the walk starts at 32 bits and `fls` of an
  id is at most 32. `Idr.Destroy` states exactly what is lost, and when; `DestroyLosesRoot` is a sequence of calls
  that loses a layer.
* `idr_is_empty` answers for non-null pointers only (src/idr.c:904-912): an id bound to NULL is not seen. `Idr.IsEmpty` is
  exact, and `EmptyWithAnId` is a tree with an id that is said to be empty.
* `ida_destroy` does not free the bitmaps in the leaves (src/idr.c:1124-1128): memory is left over exactly when ids were
  (`Ida.Destroy`); `DestroyLeavesBitmap` is a sequence of calls after which one is.
* `alloc_mem_chunk` gives up at once when `free < size` (src/mempool.c:487-490), with the remark that no consolidation would
  help. Joining free chunks also gains their headers, so it might: there are such requests exactly when three chunks or more
  are free (`PoolChain.EarlyExitIsHasty`). `HandlePool.RefusedWithRoom` allocates and frees its way to such a pool and is
  refused. The exact condition for success, with chunks locked or not, is in the contract of `Pool.AllocMemChunk`.
* When sliding has made a fragment other than handle 0 that is large enough, `alloc_mem_chunk` still asks for the size of a
  header besides before it tries (src/mempool.c:507-515), and may return 0. `HandlePool.RefusedThenGranted` locks one chunk,
  has a request refused, and has the same request granted right afterwards.
* `init_mem_pool` compares `nosplit` with a `size_t` (src/mempool.c:51-53): a negative value stays, and a split may then lack
  room for the new header. `SplitLeavesRoom` gives the exact values, overflow of the later subtraction aside;
  `SplitWithoutRoom` allocates and frees its way to a pool whose next split leaves a fragment of less than no bytes.
* `cvsp_alloc` adds to an unsigned `size` (src/cvspool.c:300): for the seven largest sizes the sum wraps round and a node of
  three slots is handed out. `NeedIsEnough` has the exact condition. The header of a busy node takes one slot, not the two
  that inc/cvspool.h:9-16 speaks of.
* `cvsp_free` finds the free node before by two bytes that may be content (src/cvspool.c:520-524). The tests are right
  exactly when these bytes are not 0xFFF7 after a busy node, and nothing past the trunk looks like a free node
  (`GuardsTell`); `GuardMisled` is a sequence of calls after which the check of the head
  would fail.
* `objpool_ser` follows `recent_slab` (src/objpool.c:261), which only a search sets: `RecentSet` says when an allocation
  leaves it set, and after a single allocation it is NULL (`NothingRecent`). `ObjPool.Save` asks that it is not.
* `bitmap_full` and `bitmap_empty` look at the whole first word when asked about no bits at all (inc/bitmap.h:24-28,
  src/bitmap.c:438-468): `NoneForNoBits` has the exact condition.
* `go n` may never end: when the item that uses up the number the user gave fills one of the boxes 1 to 4, way is to be made
  there, but nothing is asked for any more (`IdleIffUsedUp`), and the loop at src/vs.c:102-109 goes on with the box full.
  A round of making way moves something exactly when the number is not used up (`Session.GoLbox`); `Session.MakeMove` states
  that otherwise no number of rounds ends it; `NeverMakesWay` is a sequence of calls that gets there.
* A box that is emptied names as its first item whatever lies before the list head (src/vs.c:61-62, `Boxes.TakeHead`); the
  rebuild never reads it. A negative argument to `load` loads as much as fits (src/ltsys.c:169-176): `RequestRespected` says
  that a request is kept to exactly when it is not negative or nothing can be loaded.

## Model

| member | source | states |
|---|---|---|
| IdrTrie.MarkIffAllTaken | src/idr.c:203-223 | in a well-formed tree the bit a parent keeps for a child is set exactly when every id below that child is taken |
| IdrTrie.MarkMeansTaken | src/idr.c:203-223 | a set bit on the path of an id says that the id is taken |
| IdrTrie.MissingBelow | src/idr.c:284-291 | under a clear bit there is a free id, so the search may go down without coming back empty |
| IdrTrie.Shrink | src/idr.c:606-622 | dropping a root whose only child is the first one changes no binding and no bit elsewhere, and keeps the tree well-formed |
| IdrTrie.Detach | src/idr.c:565-583 | taking an emptied layer off its parent changes no other binding, bit or count |
| IdrTrie.ClearIdle | src/idr.c:553-559 | on the path to an id that is not taken every bit is clear already, so clearing them before looking changes nothing |
| IdrTrie.HintAnswers | inc/idr.h:124-133 | a hint whose prefix matches answers for every id as the full descent does |
| IdMap.IdrMaxBits | src/idr.c:73-78 | the largest id of a tree is that of eight bits a layer, at most 31 |
| IdMap.SamePrefix | src/idr.c:85-88 | the masked prefix is the id without the bits below the layer, and two ids have the same prefix exactly when their paths agree from the top down to the layer |
| IdrTrie.HeldIsLookup | src/idr.c:689-716 | the slot at the end of the path of an id holds its binding, or NULL exactly when there is none |
| IdrWalk.FlsShr | src/idr.c:650-657 | the highest bit in which two ids differ lies above a byte exactly when their prefixes above it differ: the bits that change tell where two paths part |
| IdrWalk.NothingUpTo | src/idr.c:818-828 | when a path ends in NULL nothing is bound from the id to the start of the next subtree, so rounding up skips no id |
| IdrWalk.WalkPop | src/idr.c:765-769 | the stack popped to a level whose prefix did not change is the stack of the next id |
| IdrWalk.AlignedNext | src/idr.c:764-764 | the plain step of the full walk stays on subtree borders, so it skips no id either |
| IdrWalk.AllReleased | src/idr.c:628-662 | the release walk pops every layer, except the root of a four-layer tree |
| IdMap.Idr.SubAlloc | src/idr.c:254-323 | finds the least free id from the start on, or says that all ids of the tree from there on are taken, through every backtracking step and restart |
| IdMap.Idr.GetEmptySlot | src/idr.c:325-390 | the same over growth of the tree; what fails half-way leaves tree and free list consistent |
| IdMap.Idr.MarkFull | src/idr.c:203-223 | marking a leaf slot marks exactly the ancestors that have become full |
| IdMap.Idr.FillSlot | src/idr.c:396-407 | binds exactly the id found, and sets the hint to its leaf |
| IdMap.Idr.Alloc | src/idr.c:491-515 | returns the least unallocated id from start on below the limit and adds only that binding; -ENOSPC only when all are allocated, the map then unchanged |
| IdMap.Idr.AllocCyclic | src/idr.c:530-541 | the least free id from the cursor on, else from start on; the cursor goes past the id returned; -ENOSPC exactly when all are allocated and start is not negative, -EINVAL for a negative one |
| IdMap.Idr.SubRemove | src/idr.c:549-587 | removes one binding if the id is allocated, and otherwise leaves all bits and bindings, although it clears bits of the path first |
| IdMap.Idr.Remove | src/idr.c:594-625 | deletes exactly the binding of the id, or nothing; exactly the layers of the path that held only this id are freed, and a root left with its first child only goes too |
| IdMap.Idr.RemoveId | src/idr.c:594-625 | the same for a client: any id, of any map without bitmaps |
| IdMap.Idr.RemoveAll | src/idr.c:628-662 | leaves no binding and no layer, but loses the root of a four-layer tree |
| IdMap.Idr.Destroy | src/idr.c:677-686 | likewise, and frees the free list |
| IdMap.DestroyLosesRoot | src/idr.c:637-661 | a sequence of calls after which a layer is neither freed nor reachable |
| IdMap.EmptyWithAnId | src/idr.c:904-912 | a tree that holds an id and is said to be empty |
| IdMap.Idr.FindSlowpath | src/idr.c:689-716 | the full descent answers the map, for every int |
| IdMap.Idr.Find | inc/idr.h:124-133 | so does lookup through the hint |
| IdMap.Idr.ForEach | src/idr.c:737-774 | visits exactly the ids with non-null pointers, ascending, once each, until the callback answers non-zero |
| IdMap.Idr.GetNext | src/idr.c:789-832 | the least id from the given one on with a non-null pointer |
| IdMap.Idr.Replace | src/idr.c:848-878 | rebinds an allocated id and returns the old pointer; errors for others |
| IdMap.Idr.IsEmpty | src/idr.c:904-912 | whether every id is bound to NULL |
| IdMap.Idr.PreGet | src/idr.c:225-236 | fills the free list without touching the tree |
| IdAllocator.FullCount | src/idr.c:1041-1044 | a bitmap's count is 960 exactly when all its bits are set |
| IdAllocator.ClearOne | src/idr.c:1096-1098 | clearing one bit keeps the count equal to the number of set bits |
| IdAllocator.OldChunk | src/idr.c:1036-1044 | setting a bit adds one id, and the slot becomes full exactly when the bitmap does |
| IdAllocator.KeepChunk | src/idr.c:1085-1098 | clearing a bit takes one id out and opens the slot |
| IdAllocator.Ida.PreGet | src/idr.c:955-973 | reserves layers and a bitmap without changing the set of ids; fails exactly when there is no spare bitmap and no memory |
| IdAllocator.Ida.GetNewAbove | src/idr.c:991-1063 | the least free id from the start on; -EAGAIN only when something was not reserved and that id would be the first one of its chunk, -ENOSPC only when all are allocated; at most one chunk is searched in vain; a success gives one reserved layer back |
| IdAllocator.Ida.Remove | src/idr.c:1071-1117 | takes exactly the id out |
| IdAllocator.Ida.SimpleGet | src/idr.c:1143-1182 | the least free id in a range; otherwise the set is as before; -ENOMEM exactly when nothing can be reserved |
| IdAllocator.Ida.Destroy | src/idr.c:1124-1128 | empties the tree; bitmaps stay behind exactly when ids were allocated |
| IdAllocator.DestroyLeavesBitmap | src/idr.c:1124-1128 | a sequence of calls after which a bitmap stays behind |
| PoolChain.SumFills | src/mempool.c:312-464 | free sizes, live sizes and headers always sum to the arena |
| PoolChain.FreesBound | src/mempool.c:163-228 | with no two free neighbours, free chunks outnumber live ones by at most one |
| PoolChain.UnusedHandle | src/mempool.c:319-336 | with fewer live chunks than were asked for, a handle other than 0 is unused |
| PoolChain.JoinTiled | src/mempool.c:168-228 | joining two free neighbours keeps the arena tiled in address order |
| PoolChain.SlideTiled | src/mempool.c:264-303 | so does sliding a chunk over the free one after it |
| PoolChain.SplitTiled | src/mempool.c:338-367 | and cutting a piece off the end of a free chunk |
| PoolChain.ChunksSlide | src/mempool.c:264-303 | sliding changes no chunk in use, nor the address of a locked one |
| PoolChain.SqueezedKept | src/mempool.c:493-525 | what squeezing all free space into handle 0 gives is kept by joins and slides |
| PoolChain.SettledSqueezed | src/mempool.c:493-525 | when nothing is locked and nothing can slide, handle 0 has that size |
| PoolChain.RoomySqueezed | src/mempool.c:312-464 | no fragment can take more than that |
| PoolChain.SlideReaches | src/mempool.c:264-303 | what the free space between two locked chunks comes to is kept by a slide |
| PoolChain.JoinReaches | src/mempool.c:168-228 | and by a join |
| PoolChain.SettledReaches | src/mempool.c:493-525 | when nothing can slide, some fragment has n bytes exactly when somewhere between two locked chunks the free space comes to n |
| PoolChain.EarlyExitIsHasty | src/mempool.c:487-490 | some request larger than what is free could be met exactly when at least three chunks are free |
| HandlePool.RefusedWithRoom | src/mempool.c:487-490 | four allocations and two releases lead to a pool without locks that refuses a request it has room for |
| HandlePool.SplitLeavesRoom | src/mempool.c:51-53 | wherever the later subtraction stays within an int, a split leaves room for its header, exactly when nosplit is not negative or one of the two least ints |
| HandlePool.SplitWithoutRoom | src/mempool.c:382-457 | two allocations and a release lead to a pool with a negative nosplit whose best fragment is split although the rest would be smaller than its header |
| HandlePool.MergedApart | src/mempool.c:168-228 | merging a freed chunk leaves no two free neighbours |
| HandlePool.CarvedKeeps | src/mempool.c:312-464 | an allocation adds one chunk under a new handle and changes no other |
| HandlePool.Pool.constructor | src/mempool.c:44-95 | a new pool is one free chunk under handle 0; it keeps back room for a header exactly when nosplit was not negative |
| HandlePool.Pool.LockMemChunk | src/mempool.c:112-135 | fixes a released chunk in place and returns where its bytes are; the guards never disagree with the table |
| HandlePool.Pool.ReleaseMemChunk | src/mempool.c:143-160 | makes it movable again |
| HandlePool.Pool.MergeChunks | src/mempool.c:168-228 | what the neighbours' links and the result are after merging on both sides |
| HandlePool.Pool.FreeMemChunk | src/mempool.c:235-255 | takes exactly that chunk out of use, other bytes and locked addresses unchanged, and merges it with its free neighbours |
| HandlePool.Pool.SlideChunkUp | src/mempool.c:264-303 | the bytes arrive although source and destination overlap, and headers are rewritten around them |
| HandlePool.Pool.AttemptToAlloc | src/mempool.c:312-464 | succeeds exactly when some fragment is large enough, takes a smallest one, and splits it exactly when more than nosplit is left over |
| HandlePool.Pool.AllocMemChunk | src/mempool.c:477-528 | succeeds exactly when 0 < size <= free and either some fragment can take the request at once, or somewhere between two locked chunks the free space comes to size plus a header; success adds one chunk; where a fragment fits, a smallest one is carved and nothing slides; on failure all has been slid that can be, and nothing in use has changed |
| HandlePool.Pool.SlideForRoom | src/mempool.c:501-525 | the walk past locked chunks ends with room exactly when there is some to be had between two of them, else with nothing left to slide |
| HandlePool.Pool.Retry | src/mempool.c:508-520 | the attempt after sliding always succeeds |
| HandlePool.RefusedThenGranted | src/mempool.c:507-515 | allocations, releases and a lock lead to a pool that refuses a request and then grants the same one |
| RbShape.PlugOrder | src/rbtree.c:438-467 | the sequence of a tree is what lies before a subtree, the subtree's, and what lies behind |
| RbShape.HeightBound | src/rbtree.c:27-45 | a red-black tree of n nodes is at most 2 log2(n + 1) high |
| RbShape.RotatedOrder | src/rbtree.c:143-157 | a rotation keeps the in-order sequence |
| RbShape.Unplug | src/rbtree.c:208-213 | subtree and context of a red-black tree agree on black heights and colours |
| RbLinks.RightSum | inc/rbtree_augmented.h:53-84 | summaries that agree with the computation everywhere are the meaning of the contents in order |
| RbLinks.RotateLinks | src/rbtree.c:62-70 | after a rotation's writes parents, children, colours and summaries are consistent |
| RbLinks.HoldsParts | src/rbtree.c:62-70 | an arena holds a tree exactly when it holds a subtree and its context |
| RbSplice.Stored | inc/rbtree_augmented.h:55-66 | storing a recomputed summary leaves only its parent's in doubt |
| RbSplice.Settled | inc/rbtree_augmented.h:61-62 | a recomputed summary equal to the stored one makes all summaries above right: the early break |
| RbSplice.SwapLinks | inc/rbtree_augmented.h:159-217 | parents and children are consistent once the successor stands in the node's place |
| RbTrees.SummaryMeans | inc/rbtree_augmented.h:53-84 | in a valid tree every node's stored summary is that of its subtree's sequence |
| RbTrees.SwapBalance | inc/rbtree_augmented.h:207-215 | where the successor was, its child is painted black or a black node is missing |
| RbTrees.SpliceBalance | inc/rbtree_augmented.h:134-157 | a node's only child is red under a black node and can take its colour |
| RbTrees.Raised | src/rbtree.c:217-234 | case 1 of erasure keeps the shortage and makes the sibling black |
| RbTrees.PaidBack | src/rbtree.c:288-308 | case 4 of erasure makes up for the missing black node |
| RbTrees.Flipped | src/rbtree.c:96-116 | case 1 of insertion moves the fix-up two levels up |
| RbTrees.RbTree.RotateTop | src/rbtree.c:143-158 | one rotation in the arena, also when an unfinished one lies below it |
| RbTrees.RbTree.InsertColor | src/rbtree.c:72-195 | a linked red leaf yields a red-black tree with the same sequence and right summaries |
| RbTrees.RbTree.EraseColor | src/rbtree.c:201-361 | one black node short through the hole is repaired, through all four cases, sequence and summaries kept |
| RbTrees.RbTree.Propagate | inc/rbtree_augmented.h:55-66 | makes all summaries right, stopping early or not |
| RbTrees.RbTree.EraseAugmented | inc/rbtree_augmented.h:126-221 | takes exactly the node out of the sequence and tells where a black node is missing |
| RbTrees.RbTree.Erase | src/rbtree.c:390-396 | exactly the node leaves the sequence; all red-black rules, links and summaries hold again |
| RbTrees.RbTree.LinkNode | inc/rbtree.h:84-91 | hangs in a red leaf and writes nothing else; with the summary of an empty subtree in it, only the summaries above are in doubt |
| RbTrees.RbTree.Insert | src/rbtree.c:385-388 | linking and rebalancing insert the node at its place in the sequence |
| RbTrees.RbTree.Extreme | src/rbtree.c:414-436 | the first or the last node in order |
| RbTrees.RbTree.Beside | src/rbtree.c:438-495 | the next or the previous node in order, NULL at the ends |
| RbTrees.RbTree.Enumerate | src/rbtree.c:414-467 | first and next list the sequence, each node once |
| RbTrees.RbTree.ReplaceNode | src/rbtree.c:497-511 | the tree is the old one with the new node in the victim's place, shape and colours kept |
| LeitnerBoxes.Taken | src/vs.c:59-71 | taking the head keeps chain, counts and all other items |
| LeitnerBoxes.Put | src/vs.c:73-89 | adding a tail keeps every chain |
| LeitnerBoxes.RequestRespected | src/ltsys.c:169-176 | no more is loaded than was asked for exactly when the request is not negative or nothing can be loaded |
| LeitnerBoxes.Boxes.LboxIsFull | src/vs.c:38-46 | full exactly when the queue has reached its limit, the last box never |
| LeitnerBoxes.Boxes.TakeHead | src/vs.c:59-71 | the head leaves its box, and a busy item takes its count |
| LeitnerBoxes.Boxes.MoveToLbox | src/vs.c:55-91 | the head of one queue goes to the end of another; memory and metadata stay the same |
| LeitnerBoxes.Boxes.Load | src/ltsys.c:167-206 | the next items go to the end of box 0: the least of what was asked for, the setting, the room and what is left; for a negative request, all that fits |
| LeitnerBoxes.Boxes.Reload | src/vs.c:351-386 | whatever is in memory, the boxes and levels there were before are rebuilt from the metadata alone, queues in order |
| LeitnerBoxes.Boxes.AnyRun | src/vs.c:55-215 | after any run of loads, moves and restarts each queue, with what came to it behind, is what left it and then what it has become; every loaded item is in the box of its level, once, and in no other |
| LeitnerSession.IdleIffUsedUp | src/vs.c:123-128 | nothing is asked for exactly when the user gave a number and it is used up |
| LeitnerSession.LesserLimit | src/vs.c:123-128 | otherwise the lesser of the two limits counts, and without any there is no end |
| LeitnerSession.FromTheTable | src/vs.c:17-25 | the limits are those of the table, for every box and kind |
| LeitnerSession.LimitLeavesSome | src/vs.c:17-25 | a limited round empties no full box; making way is always limited |
| LeitnerSession.Visited | src/vs.c:253-261 | in the first circle, what is asked for first belongs to the least box that holds items, or to those full above it |
| LeitnerSession.Session.MakeMove | src/vs.c:55-111 | whether the new box is full is told exactly; way is made until it is not, but for box 0, where there is one round; when the item was the last one asked for, way is never made and nothing moves any more |
| LeitnerSession.Session.AskOne | src/vs.c:178-209 | the head goes to box 0 for a wrong answer and a box up for a right one, first of all that happens |
| LeitnerSession.Session.GoInternal | src/vs.c:117-215 | each answer goes with the head of its box; the result is the number of answers, and so is what the user's number falls by; nothing moves exactly when that is used up, the box is empty or the session is cut off; as long as no box fills no more are asked for than the lesser limit, and fewer only when the box is empty or the number used up; more than the user's number only after an answer that filled a box used it up |
| LeitnerSession.Session.GoLbox | src/vs.c:221-269 | the first item asked for is from the highest of the boxes that are full one after another; making way in a box that holds items moves something exactly when the user's number is not used up; the limits are those of the table |
| LeitnerSession.Session.GoOn | src/vs.c:235-266 | when box 0 is done: box 1 if it holds more than a few, else a load if there is anything to load, else the walk from the least box that holds items |
| LeitnerSession.Session.WalkBoxes | src/vs.c:250-264 | a walk that ends by itself leaves all loaded items in the last box |
| LeitnerSession.Session.CmdGo | src/ltsys.c:215-242 | whatever the answers and whatever way is made: each item goes where its answer sends it; each queue with what came to it behind is what left it and then what it has become; the number reported is that of the answers; what is asked for or loaded first is told; a session that ends by itself has asked for as many items as the user wanted, or all are in the last box |
| LeitnerSession.NeverMakesWay | src/vs.c:102-109 | a sequence of calls after which way is to be made for ever |
| CompactRing.LinkedWithout | src/cvspool.c:344-350 | passing over a node in both directions leaves a circular list of the others |
| CompactRing.LinkedInstead | src/cvspool.c:541-553 | a node that takes over the links of another stands in its place, both ways |
| CompactRing.CutTiled | src/cvspool.c:350-361 | cutting a node keeps the slots covered without gap or overlap |
| CompactRing.JoinTiled | src/cvspool.c:529-541 | so does joining two neighbours |
| CompactPool.SplitRep | src/cvspool.c:350-361 | the writes that take the front of a node leave headers, tails and links that tell of the cut node in the old one's place |
| CompactPool.FreeNextRep | src/cvspool.c:541-553 | the writes that join with the next node leave it in that node's place in the list |
| CompactPool.FreeBothRep | src/cvspool.c:529-539 | the writes that join three nodes take the last one off the list, also where list and slot neighbours coincide |
| CompactPool.NeedIsEnough | src/cvspool.c:300-300 | a node has room for what was asked for unless the sum of unsigned ints wraps |
| CompactPool.NeedIsWanted | src/cvspool.c:298-300 | otherwise it is the least node with room for a header and so many bytes |
| CompactPool.GuardsTell | src/cvspool.c:514-527 | the two tests find exactly the free neighbours if and only if the guards do not lie |
| CompactPool.GuardMisled | src/cvspool.c:520-524 | a sequence of calls after which content passes for a free tail and the check would fail |
| CompactPool.AllocUndone | src/cvspool.c:502-570 | releasing what was just allocated gives back the nodes, and the list but for its order |
| CompactPool.Trunk.constructor | src/cvspool.c:80-137 | a new trunk has one free node |
| CompactPool.Trunk.FindFit | src/cvspool.c:315-328 | the first node in list order that fits exactly or leaves a node over |
| CompactPool.Trunk.Take | src/cvspool.c:341-364 | a node that fits exactly leaves the list; free and used slots still sum to the total |
| CompactPool.Trunk.Split | src/cvspool.c:341-364 | the rest of a node stays in its place in the list |
| CompactPool.Trunk.Alloc | src/cvspool.c:286-366 | the first fit in list order, or NULL exactly when nothing fits; the node handed out is the least with room for a header and the bytes asked for; all other content kept |
| CompactPool.Trunk.FreeLone | src/cvspool.c:554-569 | a node without free neighbours comes last in the list |
| CompactPool.Trunk.FreeNext | src/cvspool.c:541-553 | a node takes in the free one after it and its place |
| CompactPool.Trunk.FreePrev | src/cvspool.c:539-541 | the free node before takes it in |
| CompactPool.Trunk.FreeBoth | src/cvspool.c:529-539 | three nodes become one |
| CompactPool.Trunk.Free | src/cvspool.c:502-570 | exactly the node becomes free, merged with its free neighbours; no two free nodes are neighbours, all other content kept |
| CompactInit.SlotsNumAdjust | src/cvspool.c:139-171 | the least total from the argument on that makes trunks whose last block has room for a node; at most two more |
| CompactInit.InitTrunk | src/cvspool.c:80-137 | for up to 16 blocks: one free node a block, encoded as a circular list in both directions; the length check never fails |
| CompactInit.InitPool | src/cvspool.c:212-246 | every trunk of a pool of any size is such a trunk; all but the last are full; the total is the least from the argument on that can be cut so |
| CompactInit.FirstSlots | src/cvspool.c:80-137 | all slots of a new trunk but the head's are free |
| SlabPool.TakenShows | src/objpool.c:171-174 | taking the head of a free list leaves list, words and content of the slab in agreement |
| SlabPool.GivenShows | src/objpool.c:191-200 | so does giving an object back |
| SlabPool.MovedWord | src/objpool.c:291-312 | moving a word along with its slab keeps what it says, for free, last and busy objects |
| SlabPool.RecentSet | src/objpool.c:155-166 | when an allocation leaves a slab as the recent one |
| SlabPool.NothingRecent | src/objpool.c:261-261 | after one allocation there is no recent slab |
| SlabPool.ObjPool.constructor | src/objpool.c:101-125 | sizes are rounded up to words; the pool is empty |
| SlabPool.ObjPool.InitSlab | src/objpool.c:54-65 | all objects of a new slab are free, in address order |
| SlabPool.ObjPool.AddNewSlab | src/objpool.c:67-83 | a new slab comes first, all others as they were |
| SlabPool.ObjPool.FindSlab | src/objpool.c:160-167 | the first slab in list order with a free object |
| SlabPool.ObjPool.Alloc | src/objpool.c:150-179 | an object that was free: the first of the recent slab when it has one, else of the first slab in list order that has, which is then the recent one, else of a new slab; no content changes |
| SlabPool.ObjPool.Free | src/objpool.c:191-200 | the object joins its own slab's list at the head |
| SlabPool.ObjPool.Save | src/objpool.c:226-266 | the image says slabs, lists in order and content |
| SlabPool.ObjPool.LoadSlab | src/objpool.c:285-313 | a saved slab says at its new address what it said at the old one |
| SlabPool.ObjPool.Load | src/objpool.c:268-333 | the loaded pool says what the image says, list order, recent slab and counter included |
| SlabPool.SaveAndLoad | src/objpool.c:226-333 | saving and loading at any other addresses gives the same pool |
| SlabPool.TwinAlloc | src/objpool.c:150-179 | a pool and its copy serve an allocation from the same place and stay the same |
| SlabPool.TwinFree | src/objpool.c:191-200 | and so when the same object is given back |
| WordBitmaps.Ffs | src/bitmap.c:189-218 | the lowest one bit of a word |
| WordBitmaps.Fls | src/bitmap.c:227-256 | the highest one bit of a word |
| WordBitmaps.FindNextBit | src/bitmap.c:288-325 | the least one bit at or after an offset, or the size, for any size and offset |
| WordBitmaps.FindNextZeroBit | src/bitmap.c:332-369 | the same for zero bits |
| WordBitmaps.BitmapNone | src/bitmap.c:423-467 | full, or empty: no bit below the size is the other way round; for size 0 the whole first word |
| WordBitmaps.NoneForNoBits | src/bitmap.c:438-467 | the answer is right exactly when there are bits or the first word has none to find |
| WordBitmaps.SetRange | src/bitmap.c:470-510 | setting or clearing changes exactly the bits of the range |
| WordWeights.HammingWeight | src/bitmap.c:534-548 | the sum over fields of two, four, eight bits and more is the number of set bits of the word, for all words |
| WordWeights.OnesMasked | inc/bitmap.h:24-28 | masking a word leaves exactly the set bits below a place |
| WordWeights.WeightOf | src/bitmap.c:557-571 | the number of set bits below the size |
| WordWeights.BitmapWeight | src/bitmap.c:573-578 | the same; for no bits at all, those of the whole first word |
| WordWeights.BitmapWeight2 | src/bitmap.c:582-588 | the number of set bits below the size, for every size |

## Left out

- Compact pools: allocation and release over several blocks or trunks, growth by another trunk, node ids, iteration and serialisation (src/cvspool.c:173-195, 369-500, 572-700).
- The id tree does not sit on the slab pool here: its layers come from and go back to fresh addresses.
- `src/objpool.c`: where malloc puts a slab, and what is in it, are parameters; the callbacks on loaded objects, the table of saved slabs for them, pool ids and `destroy_objpool` are not modelled. A saved slab is copied and patched in one pass.
- The id tree keeps its bitmaps as sequences of booleans and searches them bit by bit (`IdMap.FindNextZeroBit`); the search over words is modelled on its own, with the same contract.
- `find_first_bit` and `find_first_zero_bit` (src/bitmap.c:375-420): the same loops from offset 0.
- Counting bits where a long has 32 bits (src/bitmap.c:525-536), and a count beyond an int: the result is a number of any size.
- `idr_preload` and its per-cpu buffer (src/idr.c:435-468): layers come from the free list or from the allocator.
- Locks and RCU: operations are atomic, and a freed layer is freed at once.
- Warnings and their text: calls that only warn return without effect.
- The shift by 32 bits at src/idr.c:290-291: whether the two sides compare equal is left open, as both ways end in -ENOSPC.
- `ida_simple_remove` (src/idr.c:1190-1199): a range check and one call.
- Heap objects of the source are entries of an arena map, so that aliasing of layers, chunks and tree nodes is by address.
- Allocation failure in `init_mem_pool` (src/mempool.c:55-93), `free_mem_pool` and the printed statistics.
- Unions of parent and colour in one word: the tree nodes have two fields.
- The callbacks of a plain tree, which do nothing: the tree always carries summaries, of any type.
- HandlePool.Pool.AllocMemChunk: asks that nosplit is at least the size of a header, as it is unless the pool was set up with a negative one, or else that the fragment it takes is not split without room; what the overlapping headers lead to otherwise is not modelled (likewise `AttemptToAlloc`).
- RbTrees.RbTree.Insert: assumes that the client has stored the summary of an empty subtree in the new node, which `rb_link_node` does not do.
- RbTrees.RbTree.ReplaceNode: promises nothing about summaries, because the source leaves them to the caller.
- Sessions: prompts, tries and texts; an answer is right or wrong. A session is cut off after any number of answers and rounds, as the user may do; that one ends by itself is not claimed, and not true.
- `src/msm.c`, files and mapped memory: the metadata are fields that change with each write.
- The parser, the shell, logging and help texts.
