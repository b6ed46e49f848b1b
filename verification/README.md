# Aware: verified model

Aware is a load balancer on DPDK. This project models the data structures and loops its packet path
rests on, and proves for all inputs and all reachable states what they are for:

- **Routes** (`Radix*.dfy`, `alpha/al_radix.c`): the BSD radix tree. Nodes are cells of a memory,
  relinked one assignment at a time; masks are interned in a second tree. `rn_addroute`
  and `rn_delete` keep an invariant that ties the tree, the chains of equal keys, the lifted mask
  lists and the pairs of cells to the set of stored routes, which each changes by exactly one, and
  `rn_match` then equals a linear scan for the longest covering prefix.
- **Red-black tree** (`Rb*.dfy`, `alpha/al_tree.c`): insert, delete, next and lookup over left,
  right, parent and colour fields with a shared sentinel. The right-hand cases are proved by
  mirroring the left-hand ones.
- **Slab pool** (`Slab*.dfy`, `alpha/al_slab.c`): page runs, class lists, bitmaps, statistics, and
  the set of live blocks, which each allocation and release changes by exactly one.
- **Adaptive radix tree** (`Art*.dfy`, `alpha/al_radix_tree.c`): the four node layouts, path
  compression with ten stored bytes, and the map the tree stands for.
- **Workers and rings** (`Workers.dfy`, `Queues.dfy`, `Polling.dfy`, `Ring*.dfy`, `alpha/al_worker.c`,
  `alpha/al_dpdk.c`, `alpha/al_dev.c`): a step system. Every worker has a place in its round, in a
  vport write, in packet processing and in a write to the hardware, the kernel, the switch or
  another worker, and the buffers it holds there; one step is one burst, one buffer freed or one
  loop test, and a run interleaves the steps of all workers in any order.
- **Checksums** (`Checksum.dfy`, `alpha/al_chksum.c`), **local ports** (`Ports.dfy`,
  `alpha/al_tuple5.c`) and **base 64** (`Base64.dfy`, `base64.h` of the PAM example).

A class holds the state that the code updates in place; its `Valid()` is the invariant, and the main
theorem about it is that every method keeps it and changes the abstract state (routes, order, live
blocks, map) as its row below says. A safety statement for every run follows, since every state a
run reaches is valid.

`dafny verify dfyconfig.toml` verifies the project.

## Where the code does not do what it is for

Four laws fail on some inputs. The model keeps the code as it is; each law is proved with the exact
condition under which it holds.

- **Longest-prefix match.** A query whose significant bits are all ones ends its descent at the root
  leaf of ones. Unless a route to that very address exists, `rn_match` returns null even where a
  default or shorter route covers the query. `RadixMatch.Match` states the equivalence (`Missed` is
  the condition a caller can test: all-one query, no route with the all-one key);
  `RadixScan.DefaultMissedRun` is a run that shows the failure.
- **Queue polling.** The loop index in the worker is an 8-bit number. Each queue is polled by one
  worker once a round, and every round ends, if and only if queues and workers together are at most
  256 (`Workers.AllRoundsOk`); `Workers.NeverEnds` is two workers with 255 queues. Each queue has one
  worker that polls it at all if and only if there are at most 256 queues and this holds or the
  number of workers divides 256 (`Workers.OnePollerIff`, and queue by queue `Workers.OnePollsIff`,
  `Workers.SomePollsIff`; in terms of the queues of the devices `Polling.EachReadByOneIff`). No ring
  has two consumers if and only if this sum is at most 256 or the number of workers divides 256
  (`RingOwners.SoleConsumersIff`); `RingShared.TwoConsumers` is a run of three workers with 255 queues
  in which two workers take from one switch ring.
- **Hand-over.** A packet from outside whose connection the worker does not know goes to the worker
  that the table of local ports names. If that is the worker itself, there is no ring for it. In every
  run the buffers are accounted for and only rings that exist are touched, if and only if no worker
  hands over to itself (`RingSteps.RunInvIff`); `RingSteps.NoSuchRing` is what happens then.
- **Local port range.** `port_init` starts at any odd 16-bit number. The allocator stays within ports
  1 to 60000, and tries them all, if and only if the start is at most 60000 (`Ports.CycleOk`);
  `Ports.ZeroTried` starts at 65535 and tries port 0. The macro in `port_init` is named for keeping
  the start in the range, which it does not do; the model follows the code.

## Terms used in the table

*Rank* of a route: 0 for a default route, with a mask the bit at which its prefix ends, and more than
any of these for a host route. *Covers*: the route's key and the query agree on its prefix. *Clash*: the one
red node whose parent may be red. *Short*: the one subtree whose paths have one black node too few.
*Live*: handed out and not released. *Apart*: queues and workers together are at most 256, or the
number of workers divides 256.

## Model

| member | source | states |
|---|---|---|
| RadixScan.MatchIsScan | alpha/al_radix.c:196-295 | an answer of rn_match is what a linear scan over all stored leaves returns, for every table and query: the descent and the climb refine the scan |
| RadixScan.ScanBest | alpha/al_radix.c:196-295 | the reference scan returns null exactly when no listed route covers the query, and otherwise a covering route that no covering route outranks |
| RadixScan.AnswerUnique | alpha/al_radix.c:549-558 | no two routes of one rank cover the same query, so longest-prefix match has one answer |
| RadixScan.CoversInBytes | alpha/al_radix.c:175-191 | a masked route covers a query exactly when no significant byte of (query xor key) has a bit that the stored mask selects |
| RadixScan.DefaultMissed | alpha/al_radix.c:230-243 | in any table with a route of rank 0 and none for the all-one address, the all-one query is covered and yet missed |
| RadixScan.DefaultOnly | alpha/al_radix.c:517-674 | a concrete run of init and one rn_addroute: a table whose only route is a default route |
| RadixScan.DefaultMissedRun | alpha/al_radix.c:196-295 | on that run a query ending in 255.255 is covered by the default route and rn_match returns null |
| RadixTable.RouteTable.constructor | alpha/al_radix.c:1048-1085 | a new table is well formed and holds no route |
| RadixTable.RouteTable.AddRoute | alpha/al_radix.c:517-674 | keeps the whole table invariant; on success exactly one route, with the given key bits and rank, is added and every other route is unchanged; null means that a leaf of this key and rank is already there (a route, or for a host route to the all-zero or all-one address a root leaf), or that there was no memory for a new mask, and then the routes are unchanged |
| RadixTable.RouteTable.Labels | alpha/al_radix.c:536-543 | interning the mask keeps the invariant and yields the index, mask pointer and contiguity flag whose rank is that of the route asked for |
| RadixTable.RouteTable.Place | alpha/al_radix.c:544-606 | with the mask known, the route is added or its twin found: success exactly if the pair of key and rank was not taken |
| RadixTable.RouteTable.AddFresh | alpha/al_radix.c:599-673 | a key new to the tree: after promotion and lifting the table invariant holds and one route was added |
| RadixTable.JoinTwin | alpha/al_radix.c:572-673 | the leaf joins the chain at its rank and its mask is lifted: one route is added |
| RadixTable.RouteTable.AddTwin | alpha/al_radix.c:546-598 | a key already present: the leaf joins its chain unless the chain has a member of the same rank, in which case nothing changes |
| RadixTable.RouteTable.DeleteRoute | alpha/al_radix.c:676-858 | keeps the whole table invariant; the route of the given key and mask, or without a mask the most specific leaf of the key, goes, every other route keeps its key and rank, and its two cells are free again; null, with nothing changed, exactly when there is no such leaf or it is a root leaf |
| RadixTable.RouteTable.AddAndDelete | alpha/al_radix.c:517-858 | rn_addroute and then rn_delete with the same key and mask: the route just added is the one that goes, its cells are spare again, and the table has the routes it had |
| RadixTable.AddedPicked | alpha/al_radix.c:685-706 | the leaf that rn_delete picks for a key and mask just added is the leaf that was added |
| RadixTable.AddThenDelete | alpha/al_radix.c:517-858 | with one route added and the same one removed, the routes and the answer of every lookup are as before |
| RadixTable.OtherAnswers | alpha/al_radix.c:676-858 | deleting a route changes the answer of no lookup that it was not the answer of |
| RadixTable.RouteTable.Target | alpha/al_radix.c:685-706 | the search, the comparison and the walk along the chain find the leaf meant, or null exactly when there is none |
| RadixTable.PickedOnce | alpha/al_radix.c:699-706 | at most one leaf is meant by a key and a mask, or by a key alone |
| RadixTable.PickedRank | alpha/al_radix.c:699-706 | with a contiguous mask, the leaf meant is the one of that key and prefix length, if and only if |
| RadixTable.FindMasked | alpha/al_radix.c:704-706 | the walk finds the member of the chain that has the mask, and null exactly when none has |
| RadixTable.Remove | alpha/al_radix.c:707-857 | a root leaf stays; any other leaf goes, and the table invariant holds again |
| RadixDelete.Delist | alpha/al_radix.c:708-741 | the climb and the search find the entry of the leaf; without it every mask list is right for all other leaves, so the branches for a missing entry are never taken |
| RadixUnlist.UnlistedInv | alpha/al_radix.c:731-736 | taking the entry out leaves every list with exactly the entries of the other leaves |
| RadixDelete.DeleteLeaf | alpha/al_radix.c:742-857 | from there to the end: the leaf goes, the rest of the routes stay, both invariants hold |
| RadixDelete.DeleteTwin | alpha/al_radix.c:755-796 | a leaf with others of its key: the chain closes up, and an inner node in its second cell moves to the head of the chain |
| RadixDelete.DeleteAlone | alpha/al_radix.c:798-853 | the last leaf of its key: the node above goes with it, and an inner node in its second cell takes the cell of that node |
| RadixDelete.LeaveFirst | alpha/al_radix.c:760-766 | removing the head of a chain by the code's assignments |
| RadixDelete.LeaveAfter | alpha/al_radix.c:768-776 | removing a later member |
| RadixDelete.Before | alpha/al_radix.c:769-770 | the loop finds the member in front, so the branch for not finding it is never taken |
| RadixLeave.ExitInv | alpha/al_radix.c:755-777 | either keeps the tree and its chains well formed |
| RadixLeave.ExitRoutes | alpha/al_radix.c:755-777 | and leaves a right table if the leaf had no entry left |
| RadixDelete.HandOn | alpha/al_radix.c:778-795 | the second cell is active exactly if it holds a node of the tree; if so the node moves and every link to it follows |
| RadixDepart.RoomLeft | alpha/al_radix.c:779-783 | the cell it moves to is not in use: no other route of the key holds a node, and the head of the chain is not a root leaf |
| RadixDelete.MoveNode | alpha/al_radix.c:782-794 | the copy and the three redirected links amount to moving the node |
| RadixMove.MovedInv | alpha/al_radix.c:837-852 | moving a node to an unused cell keeps the tree well formed |
| RadixMove.MovedRoutes | alpha/al_radix.c:837-852 | and the whole routing table |
| RadixMove.SameUsedRoutes | alpha/al_radix.c:854-856 | what is in cells that the tree does not use does not matter |
| RadixDelete.Prune | alpha/al_radix.c:798-833 | the sibling hangs on the grandparent, and the entries of the node in between pass down |
| RadixPrune.PrunedInv | alpha/al_radix.c:798-807 | taking out the leaf and the node above it keeps the tree well formed |
| RadixPrune.PrunedRoutes | alpha/al_radix.c:798-833 | after demotion every entry is where the smaller tree needs it |
| RadixPrune.PrunedSorted | alpha/al_radix.c:812-815 | appending the node's list to that of an inner sibling keeps it sorted |
| RadixDemote.DemoteChain | alpha/al_radix.c:820-831 | the loop unmarks exactly the leaves whose entry was on the node, and meets every entry: none is orphaned |
| RadixDemote.NextEntry | alpha/al_radix.c:817-821 | entries come in the order of the chain: the test on the next entry tells whether a member is demoted |
| RadixDepart.AloneHolds | alpha/al_radix.c:837-838 | a route alone in its chain holds a node of the tree, and the node above it is not the top |
| RadixPairs.DepartedPairs | alpha/al_radix.c:676-858 | whichever way a route goes: every inner node is the second cell of one route, each key without a root leaf has exactly one such route, the pair of the route is spare and spare pairs stay spare |
| RadixPairs.ArrivedPairs | alpha/al_radix.c:517-674 | the same when a route comes |
| RadixArrive.StepArrives | alpha/al_radix.c:599-606 | a route with a new key brings the inner node in its second cell |
| RadixArrive.JoiningArrives | alpha/al_radix.c:572-598 | a route that joins a chain leaves its second cell unused |
| RadixRegrow.GrownInv | alpha/al_radix.c:755-807 | a tree whose nodes stem from a well-formed one, with leaves gone, is well formed |
| RadixRegrow.ListGrown | alpha/al_radix.c:755-807 | a node that keeps its range of bits has a right list without the leaves that are gone |
| RadixTable.RouteTable.Match | alpha/al_radix.c:196-295 | the result is the longest covering route, and null when none covers, if and only if the query is not a missed all-one query with a covering route; for a missed query the result is null |
| RadixMatch.Match | alpha/al_radix.c:196-295 | the same for every table that meets the invariant, whatever calls made it |
| RadixMatch.Whole | alpha/al_radix.c:230-243 | when the whole key compares equal the chain head, or for a root leaf the member behind it, is the answer, or null for a missed query |
| RadixMatch.ScanChain | alpha/al_radix.c:254-266 | the first member of the closest chain that the query satisfies is the overall answer; otherwise no member covers the query |
| RadixMatch.ScanList | alpha/al_radix.c:279-292 | the first usable entry of a mask list is the overall answer; otherwise every covering route ends at or before the bit of the parent |
| RadixMatch.Climb | alpha/al_radix.c:269-294 | the climb to the top returns the answer, null only when no route covers the query |
| RadixMatch.BestInChain | alpha/al_radix.c:254-266 | no route elsewhere is longer than the first covering member of the closest chain |
| RadixMatch.BestInList | alpha/al_radix.c:279-292 | no route elsewhere is longer than the first entry on the way up whose index is not past the differing bit |
| RadixMatch.SearchMasked | alpha/al_radix.c:87-101 | descending by masked bits reaches the chain that holds the masked key |
| RadixMatch.FindInChain | alpha/al_radix.c:285-287 | following the chain for a given mask finds the one member that has it |
| RadixMatch.SatisfiesLeaf | alpha/al_radix.c:175-191 | true exactly when no bit selected by the mask, or no bit at all without a mask, differs on the bytes that query, key and mask all have |
| RadixTree.Search | alpha/al_radix.c:68-81 | the leaf reached shares at least as long a prefix with the key as any leaf of the tree |
| RadixTree.UnderByAgreement | alpha/al_radix.c:68-81 | a leaf that agrees with a leaf below a node up to the bit of its parent is below that node too |
| RadixTree.SameNode | alpha/al_radix.c:68-81 | two nodes over a common leaf whose bit ranges overlap are one node |
| RadixBits.TestBit | alpha/al_radix.c:68-81 | the byte offset and bit mask of an inner node test exactly its bit of the key |
| RadixBits.FirstDifference | alpha/al_radix.c:245-249 | the shifting loop finds the first differing bit of two bytes |
| RadixBits.DifferenceFromEnd | alpha/al_radix.c:368-372 | counting down from the end of the byte finds the same bit |
| RadixBits.MatchKeys | alpha/al_radix.c:228-247 | a lookup finds the first differing byte and bit, or that the keys agree |
| RadixBits.CompareKeys | alpha/al_radix.c:352-372 | so does insertion, on the bytes from the offset on |
| RadixBits.AgreeBytes | alpha/al_radix.c:363-373 | agreement of bytes is agreement of bits |
| RadixHead.Head.constructor | alpha/al_radix.c:1016-1032 | a new tree is well formed over its two root leaves |
| RadixHead.Head.Insert | alpha/al_radix.c:345-407 | rn_insert: a key that is present is found with the tree unchanged; a new key is linked in at its place, all other leaves keep their keys, and the tree stays well formed |
| RadixHead.FindPart | alpha/al_radix.c:352-373 | the first part finds a closest leaf and the bit at which the new key parts from it |
| RadixHead.Descend | alpha/al_radix.c:376-382 | one step of the second descent goes to the child on the key's side and keeps the way |
| RadixHead.FindSite | alpha/al_radix.c:374-382 | the second descent stops at the one edge where a node that tests this bit belongs |
| RadixHead.Link | alpha/al_radix.c:388-401 | the assignments of rn_newpair and the relinking amount to inserting the pair on that edge |
| RadixInsert.InsertedInv | alpha/al_radix.c:388-401 | inserting the pair on such an edge keeps the tree well formed |
| RadixInsert.NoTestAtPart | alpha/al_radix.c:374-382 | no node over the closest leaf tests the parting bit, so the descent never has to choose there |
| RadixMask.AddMask | alpha/al_radix.c:409-479 | rn_addmask: equal masks (after normalisation) yield one interned leaf, with its index and contiguity; null exactly when it is not interned and only a search was asked for or there is no memory |
| RadixMask.Normalise | alpha/al_radix.c:420-439 | ones up to the offset, the mask bytes behind it, no trailing zero byte, and the length in byte 0 |
| RadixMask.FindMask | alpha/al_radix.c:440-444 | null exactly when no interned mask has these bytes |
| RadixMask.StoreMask | alpha/al_radix.c:445-455 | a new mask is added and no other changes |
| RadixMask.MaskIndex | alpha/al_radix.c:463-478 | the index is the position behind the last leading one, and the flag says whether the ones are contiguous |
| RadixMask.ContigMeans | alpha/al_radix.c:463-477 | behind the counted leading ones of a byte, the CONTIG test holds exactly if no other one follows |
| RadixMask.InternedOnce | alpha/al_radix.c:440-455 | no two interned masks agree on their bytes |
| RadixOrder.RnRefines | alpha/al_radix.c:103-126 | true exactly when the first mask is strictly finer than the second |
| RadixOrder.RnLexobetter | alpha/al_radix.c:481-493 | true exactly when the first mask is longer, or as long and larger in some byte |
| RadixOrder.RefinesMeansLonger | alpha/al_radix.c:549-556 | for contiguous masks, refining means a longer prefix |
| RadixOrder.LexoBetterMeansLonger | alpha/al_radix.c:549-556 | for contiguous masks, so does coming first in the lexicographic order |
| RadixChain.JoinFirst | alpha/al_radix.c:572-583 | joining at the head of a chain by the code's assignments |
| RadixChain.JoinAfter | alpha/al_radix.c:584-590 | joining behind a member |
| RadixChain.JoinedInv | alpha/al_radix.c:572-590 | either keeps the tree and its chains well formed |
| RadixAdd.CompareMember | alpha/al_radix.c:550-556 | the loop's test tells equal rank, lower rank and higher rank apart |
| RadixAdd.ChainPlace | alpha/al_radix.c:549-558 | the loop finds the place by descending rank, or the member of the same mask |
| RadixAdd.JoinRoute | alpha/al_radix.c:572-606 | after joining, only the mask list entry of the new leaf is missing and all other routes are unchanged |
| RadixAdd.PromoteChain | alpha/al_radix.c:616-622 | the chain of the sibling is promoted: its liftable masks are listed at the new node |
| RadixAdd.SplitList | alpha/al_radix.c:623-631 | the mask list of the sibling is split where the index passes the new bit |
| RadixAdd.FreshRoute | alpha/al_radix.c:599-631 | after promotion from below, only the entry of the new leaf is missing and all other routes are unchanged |
| RadixAdd.HighestNode | alpha/al_radix.c:632-640 | the climb ends at the one node where the mask belongs |
| RadixAdd.ListPlace | alpha/al_radix.c:647-671 | the place in its list by descending index |
| RadixAdd.LiftEntry | alpha/al_radix.c:632-673 | with the entry in place the table invariant holds again, and the routes are unchanged |
| RadixPromote.StepPending | alpha/al_radix.c:607-631 | promotion puts every entry where the grown tree needs it, but for the new leaf |
| RadixJoin.JoiningPending | alpha/al_radix.c:572-606 | joining a chain leaves every other entry right |
| RadixLift.LiftedInv | alpha/al_radix.c:647-673 | inserting the entry at its place restores the whole invariant |
| RadixLift.NoRival | alpha/al_radix.c:652-660 | with cleared host bits no list has two entries of one index: the branch for equal masks is never taken |
| RadixAdd.ContiguousMask | alpha/al_radix.c:463-477 | the index of an interned contiguous mask is its prefix length |
| RadixAdd.MasksGrown | alpha/al_radix.c:536-543 | interning another mask does not disturb the routes |
| RbTree.Tree.constructor | alpha/al_tree.h:30-34 | the empty tree is red-black |
| RbTree.Tree.Insert | alpha/al_tree.c:11-80 | the tree is red-black, ordered and consistently linked again, and the in-order sequence of nodes is the old one with the node put behind all keys not above its own |
| RbTree.Tree.Delete | alpha/al_tree.c:107-271 | the tree is red-black, ordered and consistently linked again, and the in-order sequence is the old one without the node, whose key is cleared |
| RbTree.Tree.Lookup | alpha/al_tree.c:362-384 | null exactly when no node has the key, otherwise a node that has it; 2 to the number of steps is at most (n + 1) squared |
| RbTree.Tree.Next | alpha/al_tree.c:334-360 | the next node in order, null behind the last |
| RbTree.Tree.Walk | alpha/al_tree.c:334-360 | from the minimum on, repeated al_rbtree_next visits every node once, in order |
| RbTree.Tree.Min | alpha/al_tree.h:53-61 | the first node of a subtree in order |
| RbTree.MakeKey | alpha/al_tree.h:63-66 | both 32-bit numbers can be read off the key, so distinct pairs have distinct keys |
| RbTree.Tree.InsertValue | alpha/al_tree.c:83-105 | the new red leaf sits at its gap in the order, and is the only node that can clash with its parent |
| RbTree.Tree.LeftRotate | alpha/al_tree.c:274-301 | a tree of the same in-order sequence with the right child rotated up |
| RbTree.Tree.RightRotate | alpha/al_tree.c:304-331 | the mirror image |
| RbTree.Tree.Settle | alpha/al_tree.c:35-79 | the insert loop ends, in a red-black tree of the same nodes in the same order |
| RbTree.Tree.PushLeft | alpha/al_tree.c:38-45 | under a red uncle the clash moves to the grandparent |
| RbTree.Tree.PushRight | alpha/al_tree.c:57-64 | mirror image of PushLeft |
| RbTree.Tree.SettleLeft | alpha/al_tree.c:37-54 | one round for a parent that is a left child keeps the one possible clash and brings its end nearer |
| RbTree.Tree.SettleRight | alpha/al_tree.c:56-77 | one round for a parent that is a right child |
| RbTree.Tree.Repair | alpha/al_tree.c:208-270 | the delete loop ends, in a red-black tree of the same nodes in the same order |
| RbTree.Tree.RepairLeft | alpha/al_tree.c:210-237 | one round for a left child keeps the one shortage of a black node and brings its end nearer |
| RbTree.Tree.RepairRight | alpha/al_tree.c:239-267 | one round for a right child |
| RbTree.Tree.LeanLeft | alpha/al_tree.c:213-218 | a red sibling is rotated up: the shortage stays, and the sibling is black |
| RbTree.Tree.LendLeft | alpha/al_tree.c:220-222 | a sibling with black children turns red: the shortage moves to the parent |
| RbTree.Tree.TiltLeft | alpha/al_tree.c:225-230 | a red inner nephew becomes the sibling, with a red outer child |
| RbTree.Tree.CloseLeft | alpha/al_tree.c:232-236 | a red outer nephew pays for the missing node: nothing is short any more |
| RbTree.Tree.LeanRight | alpha/al_tree.c:242-247 | mirror image of LeanLeft |
| RbTree.Tree.LendRight | alpha/al_tree.c:249-251 | mirror image of LendLeft |
| RbTree.Tree.TiltRight | alpha/al_tree.c:254-259 | mirror image of TiltLeft |
| RbTree.Tree.CloseRight | alpha/al_tree.c:261-265 | mirror image of CloseLeft |
| RbTree.Tree.DeleteRoot | alpha/al_tree.c:136-147 | removing a root with at most one child leaves a red-black tree |
| RbTree.Tree.Unlink | alpha/al_tree.c:149-160 | removing a node with at most one child leaves a red-black tree, or one that is short of one black node below its parent |
| RbTree.Tree.Exchange | alpha/al_tree.c:162-200 | a node with two children is replaced by its successor, leaving a red-black tree or one shortage where the successor was |
| RbInsert.PushedClash | alpha/al_tree.c:38-45 | recolouring under a red uncle moves the clash to the grandparent |
| RbInsert.TwistedClash | alpha/al_tree.c:47-50 | rotating an inner grandchild makes it the outer case |
| RbInsert.SettledClash | alpha/al_tree.c:70-76 | recolouring and rotating the outer grandchild ends the clash |
| RbRepair.LeaningShort | alpha/al_tree.c:213-218 | every path keeps its black count but for the one shortage when a red sibling is rotated up |
| RbRepair.LentShort | alpha/al_tree.c:220-222 | the same when the sibling turns red and the shortage moves up |
| RbRepair.TiltingShort | alpha/al_tree.c:254-259 | the same when the inner nephew is rotated up |
| RbRepair.ClosingShort | alpha/al_tree.c:232-236 | the final rotation removes the shortage |
| RbDelete.CutLinks | alpha/al_tree.c:149-160 | without the removed node the rest is a tree in the same order |
| RbDelete.CutShort | alpha/al_tree.c:149-160 | a removed black node leaves exactly one subtree one black node short |
| RbDelete.ReplacedLinks | alpha/al_tree.c:162-194 | with the successor in its place throughout, the tree and its order are the same |
| RbColor.MirroredLinks | alpha/al_tree.c:304-331 | the mirror image of a tree is a tree of the reversed order, which carries every left case over to the right |
| RbHeight.HeightBlack | alpha/al_tree.c:362-384 | no way down is longer than twice the black height, plus one below a red node |
| RbHeight.SizeBlack | alpha/al_tree.c:362-384 | a subtree of black height b has at least 2^b - 1 nodes |
| RbHeight.HeightBound | alpha/al_tree.c:362-384 | 2 to the height is at most (n + 1) squared: the height is at most 2 log2(n + 1) |
| SlabPool.SlabPool.constructor | alpha/al_slab.c:112-132 | a new pool is valid: one free run of all pages, nothing live, all statistics zero |
| SlabPool.Layout | alpha/al_slab.c:98-132 | descriptors and pages fit between the given bounds without overlap, the pages are aligned, and a page is given up only if it would not fit |
| SlabPool.SlabPool.Alloc | alpha/al_slab.c:151-368 | keeps the pool valid; if no class has chunks of that size, null exactly when no free run has that many bytes, and otherwise null exactly when there is neither a free page nor a free chunk of the smallest class that holds it; on null nothing changes; otherwise exactly one block becomes live, whole pages with less than a page to spare or a chunk of that class, and no page is cut while a chunk is free |
| SlabPool.SlabPool.Free | alpha/al_slab.c:405-606 | keeps the pool valid; the block that begins at the address is released and no other; where no block begins nothing changes |
| SlabPool.SlabPool.AllocPages | alpha/al_slab.c:609-657 | the first run on the free list that is large enough is taken, null exactly when there is none |
| SlabPool.SlabPool.AllocLarge | alpha/al_slab.c:159-171 | a request of more than half a page gets whole pages, less than one page more than it asked for; null exactly when no free run has that many bytes |
| SlabPool.SlabPool.AllocSmall | alpha/al_slab.c:183-363 | a chunk of the class from a page that has one, and then no page is touched, or from one new page; null exactly when neither exists |
| SlabPool.SlabPool.FreeChunk | alpha/al_slab.c:481-557 | one chunk is released; the last chunk of a page frees the page |
| SlabPool.SlabPool.FreeWhole | alpha/al_slab.c:559-580 | a page allocation is released |
| SlabPool.SlotFor | alpha/al_slab.c:173-181 | the class is the smallest whose chunks hold the request |
| SlabPool.SizesInBytes | alpha/al_slab.c:68-80 | no class holds a request exactly when it is above 2048 bytes; the classes are 64 bytes and its doubles, and the chunks of a page fill its 4096 bytes |
| SlabPool.ShiftFor | alpha/al_slab.c:174-176 | the shift loop finds the smallest power of two that is not below the size |
| SlabPool.Decode | alpha/al_slab.c:481-531 | on a page of chunks, the address arithmetic of free finds exactly the live chunk that begins there, if any |
| SlabPool.DecodePages | alpha/al_slab.c:559-580 | on other pages it finds exactly the page allocation that begins there, if any |
| SlabPool.Restored | alpha/al_slab.c:660-737 | when nothing is live the pool is as it was made: one free run of all pages, statistics zero |
| SlabLive.LiveInPool | alpha/al_slab.c:151-368 | in every valid state a live block lies inside the pool and is aligned to its chunk size or to a page |
| SlabLive.LiveDisjoint | alpha/al_slab.c:151-368 | no two live blocks overlap |
| SlabLive.TookGains | alpha/al_slab.c:618-650 | taking pages makes one block live and leaves all others |
| SlabLive.GainsThrough | alpha/al_slab.c:292-359 | so does taking a page and cutting it into chunks |
| SlabLive.FreedLoses | alpha/al_slab.c:660-737 | freeing a run of pages releases its one block and leaves all others |
| SlabLive.BlockAt | alpha/al_slab.c:417-484 | the page and chunk number of a block follow from its offset |
| SlabLive.TagMeans | alpha/al_slab.c:420-422 | the tag bits in prev tell the class of a page |
| SlabLive.AllFree | alpha/al_slab.c:660-737 | with nothing live there is one free run, since no two free runs are adjacent |
| SlabTake.FindRun | alpha/al_slab.c:614-616 | the first run on the free list of at least n pages, or null when none is |
| SlabTake.TakeRun | alpha/al_slab.c:618-650 | the first n pages of the run are taken and the rest takes its place on the list |
| SlabTake.TookOk | alpha/al_slab.c:618-650 | the page invariant holds afterwards: partition into runs, each free run listed once, none adjacent to another |
| SlabTake.Fill | alpha/al_slab.c:635-650 | the descriptors of the pages taken |
| SlabGive.FreePages | alpha/al_slab.c:660-737 | the freed run is joined with its free neighbours on both sides, put first on the free list, and the page invariant holds |
| SlabGive.Begin | alpha/al_slab.c:666-678 | the descriptors of the run are cleared and it leaves its list |
| SlabGive.JoinNext | alpha/al_slab.c:680-699 | a free run behind is joined, whole |
| SlabGive.JoinPrev | alpha/al_slab.c:701-725 | a free run before is joined, found through its last page |
| SlabGive.Finish | alpha/al_slab.c:727-736 | the joined run goes to the front of the free list |
| SlabChunks.FirstHasRoom | alpha/al_slab.c:185-188 | the first page on a class list has a free chunk, and an empty list means that every page of the class is full |
| SlabChunks.FirstClear | alpha/al_slab.c:235-238 | the first clear bit |
| SlabChunks.TakeChunk | alpha/al_slab.c:233-288 | a clear bit is set; a page that becomes full leaves its list; the page invariant holds |
| SlabChunks.CutPage | alpha/al_slab.c:327-358 | a new page of the class with its first chunk in use goes on the class list; the page invariant holds |
| SlabChunks.GiveChunk | alpha/al_slab.c:481-557 | the bit is cleared; a page that was full goes back on its list, a page that becomes empty is freed; the page invariant holds |
| SlabChunks.Reopen | alpha/al_slab.c:494-502 | a full page goes back to the front of the list of its class |
| SlabLists.TakenOk | alpha/al_slab.c:618-633 | unlinking a descriptor keeps every doubly linked list right |
| SlabLists.PushedOk | alpha/al_slab.c:727-736 | so does pushing one to the front |
| SlabLists.ReplacedOk | alpha/al_slab.c:618-626 | so does replacing one by another |
| SlabPages.PaintedOk | alpha/al_slab.c:660-737 | joining pages into one run keeps the partition |
| SlabPages.SplitOk | alpha/al_slab.c:618-650 | so does splitting a run |
| SlabCount.TookCounted | alpha/al_slab.c:639 | pfree falls by the pages taken and still counts the free pages |
| SlabCount.CutCounted | alpha/al_slab.c:335-355 | stats.used and stats.total count the chunks of a new page |
| SlabCount.SetCounted | alpha/al_slab.c:233-288 | stats.used counts one chunk more |
| SlabCount.ClearCounted | alpha/al_slab.c:587-589 | stats.used counts one chunk less |
| SlabCount.PageCounted | alpha/al_slab.c:510-512 | an emptied page leaves stats.total and joins pfree |
| SlabCount.WholeCounted | alpha/al_slab.c:666 | pfree grows by the pages freed |
| SlabTally.CountersMean | alpha/al_slab.c:335-355 | in every valid pool pfree is the number of free pages, stats.used of a class the number of its live chunks, and stats.total the number of chunks that its pages hold |
| ArtTree.Tree.constructor | alpha/al_radix_tree.c:59-63 | the empty tree stands for the empty map |
| ArtTree.Tree.Search | alpha/al_radix_tree.c:266-295 | exactly what the map says, for every key and whatever lies in memory behind it |
| ArtTree.Tree.Insert | alpha/al_radix_tree.c:649-654 | the map is updated at the key, the old value is returned, and the size is the number of keys |
| ArtTree.Tree.Delete | alpha/al_radix_tree.c:816-825 | the key is removed from the map, its value is returned, and the size is the number of keys |
| ArtTree.Tree.Iter | alpha/al_radix_tree.c:886-888 | every entry of the map once, in strictly ascending lexicographic order of keys |
| ArtTree.Tree.Minimum | alpha/al_radix_tree.c:352-354 | the entry whose key precedes all others, null for the empty map |
| ArtTree.Tree.Maximum | alpha/al_radix_tree.c:359-361 | the entry whose key follows all others, null for the empty map |
| ArtTree.ListedSize | alpha/al_radix_tree.c:649-654 | a list of distinct keys that holds the map is as long as the map |
| ArtOps.Search | alpha/al_radix_tree.c:266-295 | a value is returned exactly if the tree holds it under the key, though only ten prefix bytes are compared on the way |
| ArtOps.FindChild | alpha/al_radix_tree.c:139-224 | the slot of the child for a byte in all four layouts, or none |
| ArtOps.CheckPrefix | alpha/al_radix_tree.c:235-243 | how many of the stored prefix bytes the key has |
| ArtOps.Mismatch | alpha/al_radix_tree.c:281-286 | a key that differs in a stored prefix byte, or ends before it, is not below the node |
| ArtOps.PrefixMismatch | alpha/al_radix_tree.c:534-553 | where the key leaves the full prefix, also beyond the ten stored bytes |
| ArtOps.CompareOn | alpha/al_radix_tree.c:545-550 | the comparison with the minimum leaf behind the stored bytes |
| ArtOps.CommonPrefix | alpha/al_radix_tree.c:371-379 | the longest common prefix of two keys from a depth on |
| ArtOps.Minimum | alpha/al_radix_tree.c:298-321 | the descent ends at the leaf whose key precedes all others of the tree |
| ArtOps.SplitLeaf | alpha/al_radix_tree.c:574-588 | a leaf with another key becomes a well-formed node over both leaves |
| ArtInsert.Insert | alpha/al_radix_tree.c:555-638 | path compression stays exact, the key has the value, every other key is as before, and the old value is returned |
| ArtInsert.SplitPrefix | alpha/al_radix_tree.c:600-623 | a prefix is split where the key leaves it; the old node keeps exactly the bytes behind, the first ten of them stored |
| ArtInsert.Shorten | alpha/al_radix_tree.c:606-618 | the shortened prefix, taken from the node itself or from its minimum leaf |
| ArtInsert.InsertBelow | alpha/al_radix_tree.c:626-637 | descending into the child for the next byte, or adding a leaf there |
| ArtInsert.RelabelledWF | alpha/al_radix_tree.c:600-623 | moving bytes between a prefix and the way to the node keeps it well formed |
| ArtDelete.Delete | alpha/al_radix_tree.c:766-806 | path compression stays exact, the key is gone, every other key is as before, and its value is returned |
| ArtDelete.Collapse | alpha/al_radix_tree.c:727-748 | a node left with one child is replaced by it, with the joined prefix, and holds the same entries |
| ArtDelete.Concatenate | alpha/al_radix_tree.c:729-745 | the joined prefix: own bytes, the child's byte, the child's bytes, the first ten stored |
| ArtDelete.DeleteBelow | alpha/al_radix_tree.c:789-805 | the child for the next byte loses the key |
| ArtOrder.Iterate | alpha/al_radix_tree.c:828-874 | the keys come in ascending order, each entry once |
| ArtOrder.Last | alpha/al_radix_tree.c:324-347 | the largest key of the tree |
| ArtPaths.Below | alpha/al_radix_tree.c:235-256 | every key below a node begins with the bytes on the way to it |
| ArtPaths.ByPath | alpha/al_radix_tree.c:266-295 | a key is found by the byte behind the prefix or not at all |
| ArtPaths.OneValue | alpha/al_radix_tree.c:266-295 | no key has two values |
| ArtPaths.RehungUpdated | alpha/al_radix_tree.c:626-637 | an update below one child is an update of the node |
| ArtPaths.RehungWithout | alpha/al_radix_tree.c:789-805 | a removal below one child is a removal from the node |
| ArtGrow.AddChild | alpha/al_radix_tree.c:516-529 | one child more for the byte, all others unchanged, in the layout the fill level calls for |
| ArtGrow.AddSorted | alpha/al_radix_tree.c:484-499 | the keys of a 4- or 16-child node stay sorted |
| ArtGrow.Grow4 | alpha/al_radix_tree.c:501-513 | the byte-to-child function is unchanged from 4 to 16 |
| ArtGrow.Grow16 | alpha/al_radix_tree.c:467-481 | and from 16 to 48 |
| ArtGrow.Grow48 | alpha/al_radix_tree.c:400-412 | and from 48 to 256 |
| ArtGrow.Add48 | alpha/al_radix_tree.c:393-399 | the first empty slot is found and mapped |
| ArtGrow.Add256 | alpha/al_radix_tree.c:387-391 | with the count in one byte, right also for 256 children |
| ArtShrink.RemoveChild | alpha/al_radix_tree.c:751-764 | one child less, all others unchanged, in the layout the fill level calls for |
| ArtShrink.RemoveSorted | alpha/al_radix_tree.c:704-708 | the keys stay sorted and gap-free |
| ArtShrink.Shrink16 | alpha/al_radix_tree.c:710-717 | the byte-to-child function is unchanged from 16 to 4, at 3 children |
| ArtShrink.Remove48 | alpha/al_radix_tree.c:680-684 | slot and mapping are cleared |
| ArtShrink.Shrink48 | alpha/al_radix_tree.c:686-701 | from 48 to 16, at 12 children |
| ArtShrink.Remove256 | alpha/al_radix_tree.c:656-658 | with the count in one byte |
| ArtShrink.Shrink256 | alpha/al_radix_tree.c:662-677 | from 256 to 48, at 37 children |
| Checksum.PseudoChecksum | alpha/al_chksum.c:91-139 | for every chain of buffers, any split points and odd lengths, the complement of the one's complement sum of the pseudo header and all bytes |
| Checksum.FlatChecksum | alpha/al_chksum.c:91-139 | for every chain it equals the checksum of source, destination, zero, protocol, length and the bytes in one flat buffer |
| Checksum.SplitAnywhere | alpha/al_chksum.c:103-123 | two chains with the same bytes in order, split anywhere and at any alignment, have the same checksum |
| Checksum.ConcatParts | alpha/al_chksum.c:103-119 | the bytes of a chain are those of its buffers, in order, none left out |
| Checksum.KnownAnswer | alpha/al_chksum.c:91-139 | two buffers 12 34 and 56 78, addresses 0.0.0.0, protocol 6, length 4: 0x4997 |
| Checksum.ChainSum | alpha/al_chksum.c:103-123 | one fold and, after an odd buffer, one swap per buffer keep the accumulator at the sum of all bytes so far |
| Checksum.AddBuffer | alpha/al_chksum.c:104-115 | one buffer more |
| Checksum.AddHeader | alpha/al_chksum.c:124-131 | the pseudo header is added without overflow of 32 bits |
| Checksum.StandardChecksum | alpha/al_chksum.c:157-196 | the one's complement sum of the bytes at either alignment, for up to 0x20000 bytes |
| Checksum.Bulk | alpha/al_chksum.c:171-175 | the word loop does not overflow 32 bits for up to 0x20000 bytes |
| Checksum.InetChecksum | alpha/al_chksum.c:208-211 | its complement |
| Checksum.StoredChecks | alpha/al_chksum.c:208-211 | stored in a zeroed, even-aligned field, the checksum makes a recomputation return zero |
| Checksum.InNetworkOrder | alpha/al_chksum.c:208-211 | read in network byte order it is the checksum of section 1 of RFC 1071 |
| Checksum.FoldTwice | alpha/al_chksum.c:135-136 | two folds bring any 32-bit sum down to 16 bits |
| Checksum.FoldOnce | alpha/al_chksum.c:106-110 | one fold is enough for two 16-bit numbers |
| Checksum.SwapBack | alpha/al_chksum.c:111-123 | a byte swap undoes an odd shift |
| Checksum.SumOdd | alpha/al_chksum.c:111-114 | behind an odd number of bytes a buffer contributes its sum with the bytes swapped |
| Checksum.IsUnique | alpha/al_chksum.c:187-188 | the 16-bit value of a sum is unique |
| Checksum.IsResidue | alpha/al_chksum.c:187-188 | it is zero for a zero sum and otherwise the residue modulo 65535 in 1..65535 |
| Workers.AllRoundsOk | alpha/al_worker.c:45-54 | each worker polls exactly its own queues, once, if and only if queues and workers together are at most 256 |
| Workers.Round | alpha/al_worker.c:45-54 | the indices polled, in order, are those of the 8-bit count, for as many steps as one cares to look; the loop ends as soon as one is not below the number of queues |
| Workers.RoundsOk | alpha/al_worker.c:45-54 | within that bound every worker's round is right |
| Workers.LastWraps | alpha/al_worker.c:45-54 | beyond it the worker of the last queue wraps around in 8 bits |
| Workers.Owner | alpha/al_worker.c:45-54 | every queue is in the share of some worker |
| Workers.OneOwner | alpha/al_worker.c:45-54 | and of one only, at one position |
| Workers.NeverEnds | alpha/al_worker.c:45-54 | two workers and 255 queues: worker 0 stays below the bound for ever |
| Workers.OnePollerIff | alpha/al_worker.c:45-54 | over all rounds, each queue is polled by exactly one worker if and only if there are at most 256 queues, and queues and workers together are at most 256 or the number of workers divides 256 |
| Workers.OnePollsIff | alpha/al_worker.c:45-54 | queue by queue: a queue below 256 has no second worker that polls it if and only if the number of workers divides 256, or no index wraps around into its residue class |
| Workers.SomePollsIff | alpha/al_worker.c:45-54 | a queue is polled by some worker if and only if its number fits into eight bits |
| Workers.TwoPoll | alpha/al_worker.c:45-54 | any other queue below 256 is polled by two workers, its owner and the one that wraps around into its residue class |
| Workers.ComesRem | alpha/al_worker.c:45-54 | under the condition of its queue, whatever worker comes to a queue, wrapped or not, is congruent to it |
| Workers.OwnerComes | alpha/al_worker.c:45-54 | the owner of a queue comes to it, wrap-around or not |
| Queues.FillTable | alpha/al_dpdk.c:298-408 | the loops of al_init_port fill the queue table: for each port its hardware queues, one switch queue for each worker, and the kernel queue |
| Queues.EntryAt | alpha/al_dpdk.c:298-408 | every entry is a queue there is, at its place: port by port, the hardware queues, the switch queues, the kernel queue |
| Queues.QueueThere | alpha/al_dpdk.c:298-408 | every hardware queue, every switch queue and every kernel queue is in the table, at its place |
| Queues.OneEntry | alpha/al_dpdk.c:298-408 | index i of the table is queue e if and only if e is a queue there is and i its place: one entry for each, and no other |
| Queues.TableExample | alpha/al_dpdk.c:298-408 | the table of two ports with two and one hardware queues and one worker |
| Polling.EachReadByOneIff | alpha/al_worker.c:45-54 | each queue of the hardware, the switch and the kernel is read by exactly one worker if and only if the table has at most 256 entries, and entries and workers together are at most 256 or the number of workers divides 256 |
| Polling.ReadByOneIff | alpha/al_worker.c:45-54 | queue by queue: read by exactly one worker if and only if its place in the table is polled by exactly one |
| Rings.CreateRings | alpha/al_dpdk.c:223-242 | exactly these rings are created, empty: for each port those of init_port_dev, and one from each worker to each other |
| Rings.CreatePort | alpha/al_dev.c:41-69 | the rings of one port: none for a worker with a queue of its own |
| RingSteps.RunInv | alpha/al_dev.c:86-247 | in every state of every run in which no worker hands a buffer over to itself, with the steps of all workers interleaved in any way, every buffer that came in was transmitted, freed or taken over, is in one ring or in the hands of one worker, as often as it came in; no ring is touched that was not created |
| RingSteps.RunInvIff | alpha/al_ip_input.c:28-33 | and in those runs only: the invariant holds in all states of a run if and only if no worker hands over to itself |
| RingSteps.NoSuchRing | alpha/al_dpdk.c:231-233 | if one does, its next step puts the buffer into a ring that was never created |
| RingSteps.RunBounded | alpha/al_main_process.c:32-116 | in every state of every run no burst is longer than the array it is in: 512 taken for transmission, 256 received, looked at and collected together, or to be written |
| RingSteps.RunRounds | alpha/al_worker.c:45-54 | in every state of every run a worker that polls is at an index its loop comes to |
| RingSteps.StepInv | alpha/al_dev.c:86-247 | each step keeps this, unless it is a hand-over to oneself: one burst to or from a ring or the hardware, one buffer freed, one loop test |
| RingSteps.StepKept | alpha/al_dev.c:86-247 | a step of one worker changes no other worker |
| RingSteps.ReturnsEmpty | alpha/al_dev.c:116-129 | a write that returns has nothing left in its hands |
| RingSteps.RingThere | alpha/al_dev.c:103-122 | the ring at which a write takes, or to which it puts, was created |
| RingSteps.TakeMoved | alpha/al_dev.c:103-108 | what a write takes from a ring is in its hands |
| RingSteps.PutMoved | alpha/al_dev.c:121-126 | what does not fit into the ring stays in its hands, to be freed |
| RingSteps.PollMoved | alpha/al_dev.c:131-140 | what a poll takes from a switch ring is on its way to the hardware |
| RingSteps.WriteMoved | alpha/al_dev.c:172-183 | what is taken from a thread ring is processed, and at last the own burst |
| RingSteps.ProcessMoved | alpha/al_main_process.c:34-116 | each buffer looked at is freed, taken over, handed over, sent on its own or collected, and those collected are sent on together; where to is said by `RingRoutes.Verdicts` and `RingRoutes.CollectedGoOn` |
| RingOwners.SingleSided | alpha/al_dev.c:61-69 | in every such run, all steps that lengthen a ring are by one worker, and all steps that shorten it are by one, for a switch ring if its queue is polled by its owner alone: what the single-producer, single-consumer flags promise, for hardware, kernel, switch and thread rings |
| RingOwners.StepDisciplined | alpha/al_dev.c:86-247 | a step appends to a ring as its producer, takes from its front as its consumer, or leaves it alone |
| RingOwners.OneConsumer | alpha/al_dev.c:131-132 | a switch ring whose queue is polled by its owner alone has one consumer, a thread ring the worker it leads to, any other the worker congruent to its number |
| RingOwners.ConsumersIff | alpha/al_dev.c:131-132 | a switch ring has a consumer if and only if its queue is below 256, and then just one if and only if no other worker wraps around to that queue |
| RingOwners.SoleConsumersIff | alpha/al_dev.c:61-69 | no ring has two consumers if and only if the polls of the workers are apart |
| RingOwners.SharedRing | alpha/al_dev.c:61-69 | otherwise a switch ring of the first port has two |
| RingShared.BothTake | alpha/al_dev.c:131-140 | two workers that come to the queue of a switch ring both take from it in some run, if the ring is filled by a third whose first queue is not a switch queue |
| Rings.FilledOk | alpha/al_dpdk.c:298-408 | the queue table that al_init_port fills is one that the step system takes: every entry names a port there is, and each switch queue has one entry |
| RingOwners.CollisionIff | alpha/al_worker.c:45-54 | some run lets two workers poll the same queue if and only if the polls are not apart |
| RingOwners.CollisionRun | alpha/al_worker.c:45-54 | the run that does, for every such number of workers and queues |
| RingShared.TwoConsumers | alpha/al_worker.c:45-54 | three workers and two ports of 1 and 246 hardware queues: a run in which workers 1 and 2 both take from the first switch ring |
| RingProgress.CallEnds | alpha/al_dev.c:86-247 | while a worker stays in one write, the number of its own steps is bounded by what was left at the start, however the others refill the rings |
| RingProgress.CallShrinks | alpha/al_dev.c:86-247 | every step of a worker brings the end of its write nearer |
| RingRoutes.FramesGoOn | alpha/al_main_process.c:34-116 | in every run, whatever the other workers do: of the frames that a worker received on a hardware queue and collected, some, from the front, are transmitted to the kernel interface of that port by worker 0, or put into the kernel ring of that port by any other worker, and it frees the rest; those received from the kernel go into its switch ring of that port |
| RingRoutes.CollectedGoOn | alpha/al_main_process.c:116 | when processing ends, a write of exactly the collected buffers begins: to the kernel interface of the port for a hardware queue, to the switch for a kernel queue |
| RingRoutes.WholeWrite | alpha/al_dev.c:86-129 | every write from its beginning to its return, with other workers in between: one step hands over a prefix of its burst, transmitted if the worker has a queue of its own there and otherwise into its ring, and it frees the rest |
| RingRoutes.StillHandling | alpha/al_dev.c:163-186 | from the poll to the end of processing the burst stays with its worker, its port and its direction, and what was collected is what the verdicts said |
| RingRoutes.Verdicts | alpha/al_main_process.c:34-116 | what each verdict leads to: freed, taken over, collected, or a write of just that buffer to the kernel, the switch or another worker |
| RingRoutes.Answers | alpha/al_dev.c:142-160 | an answer is a new buffer and goes to the switch |
| RingRoutes.Receives | alpha/al_dev.c:73-84 | a poll of a hardware or kernel queue takes up to 256 buffers, all that were received if there are fewer |
| RingRoutes.SwitchedOut | alpha/al_dev.c:131-140 | what a poll takes from a switch ring, up to 256 buffers from its front, goes to the hardware of that port |
| RingRoutes.TakesOwn | alpha/al_dev.c:103-114 | a write takes 512 buffers, or what there is, from the front of a ring that leads to its own target, and transmits there |
| RingRoutes.OwnBurst | alpha/al_dev.c:116-126 | the own burst is untouched until a prefix of it is handed over in one step; then one buffer is freed in each step |
| RingFlush.AllWrites | alpha/al_worker.c:56-63 | in every run, between the end of its polls and its next round a worker begins for port 0, port 1 and so on the write to the hardware, that of the switch and that to the kernel, in this order, and each once |
| RingFlush.FlushStep | alpha/al_worker.c:56-63 | a worker between its writes begins the next of them, or after the last port its next round |
| RingFlush.PollsDone | alpha/al_worker.c:45-56 | it comes to the writes exactly when its index is not below the number of queues |
| RingOwners.Served | alpha/al_dev.c:102-124 | every ring towards the hardware or the kernel and every ring between workers has a consumer: the worker congruent to its number, worker 0, or the worker it leads to |
| RingCalls.BurstWrite | alpha/al_dev.c:86-129 | a write with no other worker in between: it returns with empty hands, takes one burst from each ring q with q mod qcnt equal to the worker, and appends to its own ring what there is room for; transmitted is the prefix the hardware takes of each burst, in order, and freed is the rest of each, in order, and nothing else |
| RingCalls.Drain | alpha/al_dev.c:102-114 | the loop over the rings: one burst from each that the worker looks after, and from no other |
| RingCalls.DrainOne | alpha/al_dev.c:105-113 | one ring: a burst is taken, the prefix that the hardware takes is transmitted, and the rest is freed |
| RingCalls.PutOwn | alpha/al_dev.c:122 | what fits goes behind the worker's own ring |
| RingCalls.SendOwn | alpha/al_dev.c:116 | some prefix of the own burst is transmitted |
| RingCalls.RestAll | alpha/al_dev.c:117-119 | the rest is freed and the call returns |
| Ports.PortTable.constructor | alpha/al_tuple5.c:31-55 | an empty table with an odd start |
| Ports.PortTable.Allocate | alpha/al_tuple5.c:367-436 | ends after at most 60000 tries; the first port of the cycle that is neither filtered nor in use is taken, recorded once, and becomes the new start; from a start in range, failure with memory left means that every port 1 to 60000 is blocked; no connection ever has two entries |
| Ports.PortTable.Try | alpha/al_tuple5.c:384-431 | one try: the next port is taken exactly if it is not blocked and there is memory |
| Ports.PortTable.Used | alpha/al_tuple5.c:262-282 | whether the bucket of the key has an entry that clashes; for non-zero addresses, whether the table holds the tuple |
| Ports.ClashesIff | alpha/al_tuple5.c:262-282 | an entry clashes if and only if it is the tuple itself, with any address in the place of a zero one |
| Ports.PortTable.Insert | alpha/al_tuple5.c:96-127 | with memory, one entry more for the tuple and no other change; without, failure and no change |
| Ports.PortTable.Delete | alpha/al_tuple5.c:162-186 | one entry of the tuple less, if it had any, and no other change |
| Ports.AllBlocked | alpha/al_tuple5.c:381-424 | from a start in range, a blocked cycle means that every port of the range is blocked |
| Ports.CycleOk | alpha/al_tuple5.c:386-388 | the cycle stays within ports 1 to 60000, and tries all of them, if and only if the start is not above 60000 |
| Ports.InRange | alpha/al_tuple5.c:386-388 | from a start in range the ports come round in order |
| Ports.EachTried | alpha/al_tuple5.c:386-388 | each port is tried |
| Ports.TriedOnce | alpha/al_tuple5.c:386-388 | none twice |
| Ports.OutOfRange | alpha/al_tuple5.c:386-388 | from a start above the range the counter runs through 65535 and 0 |
| Ports.InitialStart | alpha/al_tuple5.c:52-53 | the initial start is the random number if that is odd, and otherwise the next |
| Ports.StartsAre | alpha/al_tuple5.c:52-53 | every odd 16-bit number is an initial start, and no other number is |
| Ports.ZeroTried | alpha/al_tuple5.c:52-53 | so it can be 65535, and then port 0 is tried |
| Base64.RoundTrip | restbed/example/pam_authentication/source/base64.h:38-120 | decoding the encoding of any byte sequence gives it back |
| Base64.Encode | restbed/example/pam_authentication/source/base64.h:38-79 | the loop over three-byte groups computes the encoding of section 4 of RFC 4648 |
| Base64.Decode | restbed/example/pam_authentication/source/base64.h:81-120 | for every text, valid or not, the loop computes the decoding of its leading letters |
| Base64.Shape | restbed/example/pam_authentication/source/base64.h:59-75 | the encoding has 4 * ceil(n / 3) characters: letters, then the padding for n bytes |
| Base64.GroupValue | restbed/example/pam_authentication/source/base64.h:48-51 | the four values of a group are the base-64 digits of the number whose base-256 digits are its bytes |
| Base64.LetterIs | restbed/example/pam_authentication/source/base64.h:28-31 | the letter of each value below 64 is the character of the alphabet at that place |
| Base64.TailValue | restbed/example/pam_authentication/source/base64.h:59-75 | the letters for the last one or two bytes are the leading base-64 digits of their number filled up with zero bits, followed by the padding |
| Base64.TripleValue | restbed/example/pam_authentication/source/base64.h:95-97 | the three bytes of a full group are the base-256 digits of the number whose base-64 digits are its values |
| Base64.PartialValue | restbed/example/pam_authentication/source/base64.h:104-116 | two or three last letters give one or two bytes, the number of their values without its last bits |
| Base64.EncodingParts | restbed/example/pam_authentication/source/base64.h:44-57 | the encoding of whole groups and more is the encoding of the groups and that of the rest |
| Base64.DecodingParts | restbed/example/pam_authentication/source/base64.h:89-102 | the decoding of whole groups of letters and more is that of the groups and that of the rest |
| Base64.Examples | restbed/example/pam_authentication/source/base64.h:38-79 | the first test vectors of section 10 of RFC 4648 |
| Base64.GroupBack | restbed/example/pam_authentication/source/base64.h:95-97 | a full group comes back, whatever follows it |
| Base64.OnlyLetters | restbed/example/pam_authentication/source/base64.h:89 | nothing from the first character outside the alphabet on matters |

## Left out

Routes (`alpha/al_radix.c`):
- RadixTable.RouteTable.AddRoute: contiguous masks and keys with cleared host bits only, one key length per table, a byte offset of at least 1; for other masks the code orders chains by rules for which longest-prefix match is not defined.
- RadixTable.RouteTable.Match: same tables; the query has the table's key length.
- RadixMatch.ScanList: a mask list is a sequence of entries, and the `rm_leaf` pointer of a contiguous entry is followed directly; the code's reference counts are not modelled.
- RadixHead.Head.Insert: memory for nodes is given by the caller, as in the code; the bytes of keys before the offset are not compared.
- RadixTable.RouteTable.DeleteRoute: same tables; a leaf's `rn_mklist` is a mark and its entry is known by value, since no two entries are equal; RNF_ACTIVE of a cell is that the cell is not blank, and the reference count of an entry, always 0 in these tables, is left out.
- rn_walktree and its variants, rn_lookup: not modelled.
- Exhaustion of memory in rn_new_radix_mask: not modelled; the code then returns with the route stored but not listed.

Red-black tree (`alpha/al_tree.c`):
- RbTree.Tree.Delete: states that the key of the removed node is cleared, not its links.
- The data field, and insert callbacks other than al_rbtree_insert_value.

Slab pool (`alpha/al_slab.c`):
- SlabPool.SlabPool.Free: addresses from the end of the last page to the end of the pool are excluded, where the code would read a descriptor past the last one.
- SlabPool.SlabPool.constructor: pools with at least one page; `Layout` says where the pages lie.
- The word `slab` is a datatype (length, bitmap, or shift with bitmap) and not 64 packed bits; classes below 64 bytes do not occur with min_shift 6.
- Counters of requests and failures, calloc's clearing, the lock (each call is one step), logging.

Adaptive radix tree (`alpha/al_radix_tree.c`):
- Nodes are values, so update in place and aliasing of children are not captured; in the code every node has one parent.
- ArtTree.Tree.Insert: a key that is a proper prefix of a stored key, or the other way round, is excluded, since the code then reads behind the end of a key.
- ArtTree.Tree.Iter: the portable comparison and a callback that never stops; the SSE branches compare signed bytes.
- art_iter_prefix, art_tree_destroy, exhaustion of memory.

Checksums (`alpha/al_chksum.c`):
- Checksum.PseudoChecksum: little-endian hosts, and an offset within the first buffer.
- inet6_chksum_pseudo and chksum: not modelled; they treat odd lengths in another way.

Workers, rings and ports:
- Workers.Round: looks at the first steps of a round only, as many as asked for, since a round need not end.
- RingSteps.RunInv: what becomes of a buffer in packet processing is any verdict; the master thread and capture are left out.
- RingOwners.SoleConsumersIff: at most 256 workers, and fewer than 256 hardware queues on the first port, which is what the code's 8-bit numbers hold.
- RingShared.BothTake: rings whose producer is one of the two consumers, or begins its round at a switch queue, are left out.
- RingSteps.StepInv: a burst to or from a ring is one step, as the ring library promises for one producer and one consumer; how much a ring has room for, and how much the hardware takes, is any number.
- Queues.FillTable: ports whose set-up fails are left out; the count of hardware queues is the 8-bit number the code stores.
- Ports.PortTable.Allocate: IPv4; the filter is a predicate on ports; network byte order and locks are left out. The IPv6 path consults the IPv4 filter.
- Ports.PortTable.Insert: without memory it fails, which is what the code is meant to do; as written, `port_create` tests a pointer that nothing has set when the pool is empty.

Elsewhere: sessions and time-outs, weighted round robin, GSLB, ICMP, the REST interface, netlink and DPDK set-up are mostly plumbing or would only add easy members.
