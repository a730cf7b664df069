# Open vSwitch in Dafny

This project models the parts of Open vSwitch, with the BPF filter programs of Oko, in which a
fast structure has to agree with a simple one, and proves that it does. Eight components are
covered.

| component | modules | what is proved |
|---|---|---|
| concurrent hash maps, `lib/cmap.c` and `lib/ccmap.c` | CuckooTable, CuckooSearch, CuckooTransfer, HashLoad, ProtectedFind, CmapReaders, Cmap, Ccmap | lookups are linearizable against a writer that moves entries store by store; displacement paths are loop-free although no visited set is kept; both maps refine a map and a multiset over every sequence of operations |
| flow classifier, `lib/classifier.c` | Trie, Flows, Subtables, PortsShortcut, SubtableUpdates, Classifier | staged, trie-assisted, pruned lookup is a linear scan; the mask it emits settles the outcome for every flow that agrees on it; when a change to the rules is seen in a version |
| filter programs, `lib/bpf.h`, `lib/bpf.c` | FilterChain | the recorded chain together with the mask is a sound cache key |
| kernel flow table, `datapath/flow_table.c` | FlowTable, FlowReaders, FlowRehashes | lookups are right for any contents of the mask cache; reference counts are exact; rehashing conserves flows, and when it disturbs a concurrent reader |
| action execution, `datapath/actions.c` | Actions, DeferredSamples | processing ends for any flow table, in FIFO order within its bounds; delayed output means the same as cloning; when a deferred sample does what its list says |
| action codec, `datapath/flow_netlink.c` | NetlinkActions, NetlinkDump | dumping undoes copying, through nested lengths, buffer growth and the rewriting of set actions |
| BFD, `lib/bfd.c` | Bfd, BfdProtocol, BfdPolling, BfdSession | two-node safety over an unreliable channel, and when timers may change |
| Internet checksum, `lib/csum.c` | Csum | the checksum of RFC 1071 and the updates of RFC 1624, with exact conditions |

Code that updates memory step by step is modelled by methods with loops and by classes; each
method is proved against a function or a stated property, and the laws are lemmas about those.
Hash functions, random numbers, BPF verdicts and the clock are parameters, so every statement
holds for all of them. Integer widths are written out where they matter.

## Where the code does less than it promises

Each of these is stated with the exact condition under which the promise holds.

- The ports trie of the classifier reports too few bits when the last stage of a mask has bits
  besides the ports, as the IGMP group address is (`PortsShortcut.SafePortsExact`).
- Adding a rule for a later version takes the rule it displaces out of the earlier ones too
  (`Classifier.AddingExact`), and a new removal version of a rule that was already gone brings
  it back (`Classifier.RemovalExact`), unless lookups there have no need of the rule.
- `cmap_find_protected` misses entries that are in their second bucket
  (`ProtectedFind.ProtectedExact`).
- A hash map of 2^29 buckets can not grow: the load assertion of the rehash would fire
  (`HashLoad.GrowthFitsExactly`).
- A deferred sample runs one action of its list, because the length passed on is that of the
  first argument, and runs it without the truncation before it (`DeferredSamples.DeferredExact`).
  The documentation of the attribute says that the actions are executed; the model follows the
  code.
- A packet that becomes much shorter between its truncation and its output is sent whole
  (`Actions.TruncatedLength`).
- A Final packet that is received again ends a later poll sequence of BFD
  (`BfdPolling.AloneExact`, `BfdPolling.StaleFinalEndsPoll`).
- The detection time of BFD is taken with the session's own multiplier instead of the peer's
  (`Bfd.DetectionExact`).
- A reader of the kernel flow table may miss flows if two rehashes begin while it walks a
  bucket with two of them still ahead (`FlowRehashes.MissExact`); with one rehash it does not
  (`FlowReaders.WalkMeets`).
- The checksum is wrong for some data of every odd length on big-endian hosts, and of every
  length above 131074 bytes (`Csum.LengthExact`), and an update whose new data is all zeros
  differs from computing anew (`Csum.Recalc16Exact`).

Clients of the classifier are told not to use priority INT_MIN; a rule that has it is never
returned (`Classifier.LookupIsLinearScan`).

## Model

| member | source | states |
|---|---|---|
| CuckooTable.OtherHashIsInvolution | lib/cmap.c:187-193 | the partner of a bucket's partner is that bucket again, so an entry can be moved back and forth between its two candidates |
| CuckooTable.FindIsView | lib/cmap.c:317-353 | in a table at rest, searching the two candidate buckets finds exactly the entry the map has for a hash, although removed entries leave their hash behind in other slots |
| CuckooTable.PathCanDisplace | lib/cmap.c:622-631 | a path between full candidate buckets and a bucket with room is one along which entries can be moved |
| CuckooTable.MovedStrict | lib/cmap.c:724-735 | after any number of the backward moves of a displacement, every hash in the map is still found whole in one of its two candidate buckets |
| CuckooTable.DisplacedSettled | lib/cmap.c:622-751 | a completed displacement adds the new hash and loses, duplicates or changes nothing else; no stale slot with the same hash comes before a live one |
| CuckooTable.DisplacedUnique | lib/cmap.c:724-747 | after a displacement no hash is live in two slots |
| CuckooTable.StoreSettled | lib/cmap.c:536-586 | storing a chain, or nothing, in the slot that a search for the hash stops at changes the map for that hash only |
| CuckooSearch.RepeatingChildWasReached | lib/cmap.c:650-721 | without a list of visited buckets: if a path in the queue would visit a bucket twice, the end of that path was already reached by an earlier entry |
| CuckooSearch.FoundPath | lib/cmap.c:668-736 | a free slot found from an entry of the queue completes a path of pairwise distinct buckets |
| CuckooSearch.Exhaustive | lib/cmap.c:633-751 | if the queue never fills up, every path up to the maximum depth has been followed |
| CuckooSearch.FindPath | lib/cmap.c:632-751 | a path that is found is loop-free, starts at a candidate bucket, is at most MAX_DEPTH + 2 buckets long and ends in a bucket with room; if none is found and the queue did not fill up, there is no room within reach |
| CuckooTransfer.TransferOne | lib/cmap.c:862-881 | one slot at a time, the chains seen so far and no others have been transferred |
| CuckooTransfer.TransferAll | lib/cmap.c:862-881 | after the last bucket the transferred map is the whole map |
| HashLoad.GrowthFitsExactly | lib/cmap.c:210-220 | the assertion of a rehash that the entries fit the doubled array holds exactly while there are fewer than 2^29 buckets, after which the product wraps around; as every array grows by doubling, larger ones are never reached |
| HashLoad.FirstGrowthFits | lib/cmap.c:210-220 | the one-bucket array of an empty map, whose limit is zero, can be grown |
| HashLoad.ShrinkFits | lib/cmap.c:216-220 | a map below the lower limit fits an array half the size |
| ProtectedFind.FoundIsPresent | lib/cmap.c:475-505 | the lookup for a map that cannot change finds nothing that the map does not have |
| ProtectedFind.MissesSecond | lib/cmap.c:489-505 | it misses an entry in the second bucket of its hash, because it derives another bucket from the hash itself |
| ProtectedFind.ProtectedExact | lib/cmap.c:489-505 | it agrees with the ordinary lookup in every table at rest exactly if the two candidates of the hash coincide, or the bucket it derives happens to be the second one |
| CmapReaders.WriterStepOK | lib/cmap.c:520-531 | each single store of an operation keeps every present hash whole in at least one candidate bucket, and changes the counters of the buckets it disturbs |
| CmapReaders.ReaderStepOK | lib/cmap.c:277-353 | each load of a lookup keeps what the lookup may conclude, given the counters it has read |
| CmapReaders.MoveCompletes | lib/cmap.c:520-531 | the stores of a displacement, one after the other, make the table that DisplacedSettled describes |
| CmapReaders.RunOK | lib/cmap.c:329-353 | the invariant of writer and readers holds in every state of every interleaving, with any number of readers and of replaced bucket arrays |
| CmapReaders.HistoryIsReal | lib/cmap.c:329-374 | the values recorded for a lookup are values the map held since the call |
| CmapReaders.LookupIsLinearizable | lib/cmap.c:329-374 | what a lookup returns is what the map held for its hash at some instant of the call; in particular it is never the chain of another hash |
| CmapReaders.PresentIsFound | lib/cmap.c:329-374 | a lookup of a hash that is present throughout the call does not return null |
| Cmap.WritesAreStores | lib/cmap.c:520-586 | the writes of every operation of the class are a sequence of the stores that interleave with readers |
| Cmap.Splice | lib/cmap.c:797-827 | replacing or removing one node of a chain leaves the other nodes in order |
| Cmap.Impl.Find | lib/cmap.c:329-374 | finds the chain of a hash or nothing |
| Cmap.Impl.SetBucket | lib/cmap.c:520-531 | the slot is replaced, and the counter of its bucket moves by two |
| Cmap.Impl.InsertDup | lib/cmap.c:536-586 | succeeds exactly if the bucket has a slot with this hash, and then puts the new nodes in front of the chain, reviving a stale slot if that is what it finds |
| Cmap.Impl.InsertBucket | lib/cmap.c:590-603 | succeeds exactly if the bucket has an unused slot, and adds the hash to the map |
| Cmap.Impl.Displace | lib/cmap.c:724-747 | moves the entries of a path and adds the hash to the map |
| Cmap.Impl.TryInsert | lib/cmap.c:757-770 | adds nodes in front of the chain of a hash, or changes nothing |
| Cmap.Impl.ReplaceIn | lib/cmap.c:796-827 | replaces a node in one candidate bucket, or reports that the hash is not there and changes nothing |
| Cmap.TryRehash | lib/cmap.c:862-881 | an array filled without failure represents the same map |
| Cmap.ConcurrentMap.Find | lib/cmap.c:365-374 | finds the chain of a hash exactly if the map has one |
| Cmap.ConcurrentMap.Count | lib/cmap.c:265-268 | the count is the number of nodes in the map |
| Cmap.ConcurrentMap.Rehash | lib/cmap.c:883-904 | a rehash keeps the map and leaves it below its upper limit |
| Cmap.ConcurrentMap.Expand | lib/cmap.c:778-785 | growing keeps the map and makes room below the limit; the source's own load assertion is met |
| Cmap.ConcurrentMap.Insert | lib/cmap.c:772-794 | adds one node in front of the chain of its hash and counts it |
| Cmap.ConcurrentMap.ReplaceNode | lib/cmap.c:839-850 | one of the two buckets has the node: the assertion of the source does not fire, and the map changes in that node only |
| Cmap.ConcurrentMap.Replace | lib/cmap.c:829-860 | replaces or removes one node, keeps the count exact, and shrinks a map that has become too empty |
| Ccmap.CountImpl.Find | lib/ccmap.c:207-238 | the count of a hash, although slots with count zero are not skipped |
| Ccmap.CountImpl.TryInc | lib/ccmap.c:454-469 | adds to the count of one hash or changes nothing |
| Ccmap.CountImpl.IncBfs | lib/ccmap.c:336-452 | makes room for a new hash by displacement, or changes nothing |
| Ccmap.CountImpl.DecCount | lib/ccmap.c:496-530 | a hash with a count is found in one of its buckets: the assertion of the source does not fire |
| Ccmap.TryRehash | lib/ccmap.c:544-560 | an array filled without failure has the same counts |
| Ccmap.CountMap.Find | lib/ccmap.c:222-238 | increments minus decrements of a hash |
| Ccmap.CountMap.Count | lib/ccmap.c:194-199 | increments minus decrements of all hashes |
| Ccmap.CountMap.Rehash | lib/ccmap.c:562-581 | keeps all counts and the number of distinct hashes, below the new limit |
| Ccmap.CountMap.Expand | lib/ccmap.c:471-494 | growing keeps all counts; the load assertion is met while the array has fewer than 2^29 buckets |
| Ccmap.CountMap.Inc | lib/ccmap.c:471-494 | adds one to the multiset of hashes and returns the new count |
| Ccmap.CountMap.Dec | lib/ccmap.c:513-542 | takes one from the multiset of hashes and returns the new count |
| Ccmap.CountMap.Shrink | lib/ccmap.c:531-540 | a map with few distinct hashes fits the smaller array |
| Trie.BranchCount | lib/classifier.c:1913-1939 | a new branch stores its prefix, of any length, and nothing else |
| Trie.InsertedCount | lib/classifier.c:2150-2194 | inserting adds one to the count of that prefix and changes no other, through splits of nodes |
| Trie.InsertedValid | lib/classifier.c:2150-2194 | nodes stay compressed: none but the root is empty, none is longer than a word, each starts with the bit of its edge and leads to some rule |
| Trie.RemovedCount | lib/classifier.c:2205-2276 | removing takes one from the count of a stored prefix and changes no other, through pruning and merging; removing an absent prefix changes nothing |
| Trie.RemovedValid | lib/classifier.c:2205-2276 | pruning leaves no useless node |
| Trie.SomethingStored | lib/classifier.c:2228-2270 | a tree that is not empty stores some prefix |
| Trie.MaskBitsFit | lib/classifier.c:2043-2074 | a lookup never asks for more bits than the field has |
| Trie.StoredNeedsBits | lib/classifier.c:2043-2074 | a lookup looks at all bits of every prefix it finds |
| Trie.AgreeingValues | lib/classifier.c:2043-2074 | every value that agrees on the returned number of bits has the same stored prefixes, of every length |
| Trie.LengthsAreStored | lib/classifier.c:2056-2062 | the lengths noted on the way down are those at which the value has a stored prefix |
| Trie.InsertPrefix | lib/classifier.c:2150-2194 | the loop computes the insertion above |
| Trie.FindPrefix | lib/classifier.c:2205-2222 | the descent finds the node of the prefix and the edges to it, or there is nothing to remove |
| Trie.RemovePrefix | lib/classifier.c:2205-2276 | the two loops compute the removal above |
| Trie.LookupValue | lib/classifier.c:2043-2074 | a length is reported exactly if a prefix of that length is stored for the value, with the number of bits that decide |
| Flows.StagesCover | lib/classifier.c:1539-1565 | between them the stages take every word of the mask, once and in order, also when the last segment adds none |
| Flows.ComputeStages | lib/classifier.c:1539-1565 | one stage for each segment that has mask bits; if the rest of the flow has none, the last of those is the final stage |
| Flows.FoldAgrees | lib/classifier-private.h:233-313 | flows that agree on the mask bits of some words hash alike over them |
| Flows.LastStageIsFullHash | lib/classifier-private.h:270-313 | the hash continued through all stages is the hash computed in one go |
| Flows.HashRange | lib/classifier-private.h:289-313 | continues an unfinished hash over one stage |
| Flows.StagedHashes | lib/classifier-private.h:350-382 | the hashes of a rule are those a flow with the same masked bits gets |
| Flows.PrefixLen | lib/classifier.c:2094-2123 | n if the mask of the field is exactly its first n bits; 0 exactly if it is no prefix |
| Subtables.StageRefutes | lib/classifier.c:1773-1782 | a hash that an index does not have rules out every match that agrees with the flow so far |
| Subtables.TrieRefutes | lib/classifier.c:1635-1659 | a prefix length missing from a trie lookup rules out every match of the subtable, for all flows that agree on the bits looked at |
| Subtables.PortsDecide | lib/classifier.c:1794-1809 | the ports trie settles a miss if the last stage has only ports |
| Subtables.DecidedForAll | lib/classifier.h:36-95 | once the bits looked at rule out all matches, or cover the mask, every flow that agrees on them gets the same outcome |
| Subtables.CheckTrie | lib/classifier.c:1625-1661 | skips exactly if the prefix length is not stored for the flow and the bits looked at are no more than the subtable needs, or are looked at already |
| Subtables.CheckTries | lib/classifier.c:1609-1663 | skips exactly if some trie does, and adds the bits of the first that does, which rule out all matches |
| Subtables.FindMatch | lib/classifier.c:1696-1743 | the first rule of the match that is visible and not ruled out by a known program result, and the programs of those passed over |
| Subtables.HashFinds | lib/classifier.c:1789-1793 | a match that the flow has is found under the last of its staged hashes |
| Subtables.SearchStages | lib/classifier.c:1764-1791 | a miss in a trie or an index rules out all matches by the bits folded into the mask; otherwise the hash of the last stage is returned |
| Subtables.FindMatchWc | lib/classifier.c:1745-1820 | the outcome is that of looking for the masked flow among all matches, and the mask settles it; the mask is exactly that of Looked, a trie, an index or the ports trie ending the search |
| Subtables.FindMatchPlain | lib/classifier.c:1752-1756 | without a mask to fill in, one hash over the whole subtable mask gives the same outcome |
| PortsShortcut.LookedDecides | lib/classifier.c:1764-1819 | for masks whose last stage has only ports, the bits reported, by tries, indices or the ports trie, settle the outcome |
| PortsShortcut.UnsafeFails | lib/classifier.c:1794-1819 | for every other mask with ports, and any fields with prefix tries, there are a subtable, tries and two flows that agree on the reported bits and get different outcomes |
| PortsShortcut.SafePortsExact | lib/classifier.c:1794-1819 | whichever fields have prefix tries, the reported bits settle every search, for any contents of subtable and tries and after any earlier searches, exactly if the mask has no ports or its last stage has no bits besides them |
| SubtableUpdates.AddedKeeps | lib/classifier.c:602-666 | the list of rules with the same match stays ordered by priority, and gains the new rule in place of at most one |
| SubtableUpdates.DisplacedIff | lib/classifier.c:605-627 | a rule is displaced exactly if one of the same priority stays visible forever |
| SubtableUpdates.NewSubtable | lib/classifier.c:1524-1583 | an empty subtable for a mask keeps all invariants |
| SubtableUpdates.AddMatch | lib/classifier.c:563-601 | indices, ports trie and rule map gain one match and stay exact |
| SubtableUpdates.RemoveMatch | lib/classifier.c:789-808 | indices, ports trie and rule map lose one match and stay exact |
| SubtableUpdates.AddToMatch | lib/classifier.c:602-669 | the rules of the subtable change by the new and the displaced rule only |
| SubtableUpdates.AddRule | lib/classifier.c:558-691 | the highest priority stays exact, and its count between one and the number of rules that have it |
| SubtableUpdates.FindMax | lib/classifier.c:813-830 | the highest priority among the heads of the lists is that of all rules |
| SubtableUpdates.RemoveRule | lib/classifier.c:748-831 | the subtable loses that rule only; the highest priority stays exact |
| SubtableUpdates.SetRemoved | lib/classifier.c:306-331 | only the removal version of that rule changes |
| Classifier.BestIsBest | lib/classifier.c:1705-1740 | the rule a subtable yields has the highest priority of its usable matching rules, and there is one exactly if there is any |
| Classifier.LookupIsLinearScan | lib/classifier.c:953-1039 | through subtables in priority order with pruning, a lookup finds a rule exactly if a linear scan over all rules would find one of a priority above INT_MIN, and one of the highest priority |
| Classifier.DecidedLookup | lib/classifier.h:36-95 | every flow that agrees on the accumulated mask gets the same rule and passes over the same rules |
| Classifier.LookupIn | lib/classifier.c:953-1039 | the loop returns the outcome of the scan, and the mask settles each subtable it visited |
| Classifier.ReorderedOK | lib/classifier.c:675-698 | the priority vector stays sorted, with each subtable once under its highest priority |
| Classifier.WithoutOK | lib/classifier.c:1587-1605 | the same without one subtable |
| Classifier.TrieWithOK | lib/classifier.c:575-583 | each prefix trie counts, for every prefix, the matches of all subtables that have it, after a match is added |
| Classifier.TrieWithoutOK | lib/classifier.c:798-802 | and after a match is removed |
| Classifier.InsertPrefixes | lib/classifier.c:575-583 | the loop over all tries keeps each of them exact |
| Classifier.RemovePrefixes | lib/classifier.c:798-802 | and so does the loop that takes a match out |
| Classifier.NoPortsLeft | lib/classifier.c:1587-1605 | the ports trie of a subtable without rules is empty, as the source asserts |
| Classifier.ReplaceRule | lib/classifier.c:539-701 | all invariants are kept; the rules change by the new and the displaced one, and a rule is displaced exactly if an equal one of the same priority stays visible |
| Classifier.DropRule | lib/classifier.c:719-847 | all invariants are kept and only that rule goes; a subtable without rules is taken out |
| Classifier.ChangeRemoved | lib/classifier.c:306-331 | all invariants are kept and only the version changes |
| Classifier.VersionIsolation | lib/classifier-private.h:110-133 | lookups in a version depend on the rules visible in it: same ones, same presence and priority, and the same rule if the best is unique |
| Classifier.AddingExact | lib/classifier.c:540-701 | adding a rule for a later version keeps the outcomes of all lookups in version u exactly if the rule that would be displaced, if any, is not visible in u, or has priority INT_MIN, or is shadowed: every flow it matches has another visible rule of at least its priority that depends on no other program |
| Classifier.RemovalExact | lib/classifier.c:306-331 | a new removal version keeps the outcomes of all lookups in version u, up to a choice between equal priorities, exactly if the rule is visible in u before and after or neither, or has priority INT_MIN, or is shadowed |
| Classifier.RemovingExact | lib/classifier.c:719-847 | removing a rule keeps the outcomes of all lookups in version u exactly if they have no need of it in the same sense |
| Classifier.LosingExact | lib/classifier-private.h:110-133 | the common law: if version u loses a rule and nothing else, its lookups keep their outcomes exactly if the rule has priority INT_MIN or is shadowed |
| Classifier.OnlyRuleIsMissed | lib/classifier.c:616-660 | in a classifier with one rule, whose place another takes for a later version, the flows of the rule find nothing any more in the version it was added for |
| Classifier.OnlyRuleIsLost | lib/classifier.c:616-660 | two insertions that bring that about, for any rule above priority INT_MIN |
| Classifier.FlowClassifier.constructor | lib/classifier.c:343-366 | an empty classifier keeps all invariants |
| Classifier.FlowClassifier.Replace | lib/classifier.c:520-701 | the rules change as for ReplaceRule, the displaced rule is the one WouldDisplace names, the rule count stays exact, and lookups in each earlier version keep their outcomes exactly if AddingExact says so |
| Classifier.FlowClassifier.Remove | lib/classifier.c:719-847 | removes the rule if it is there and says so; nothing else changes, and lookups in each version keep their outcomes exactly if they have no need of the rule |
| Classifier.FlowClassifier.SetRemovedVersion | lib/classifier.c:306-331 | only the version changes; lookups in every version, earlier or later, keep their outcomes exactly if RemovalExact says so, and in versions before both removal versions they are the same |
| Classifier.FlowClassifier.Lookup | lib/classifier.c:953-1039 | the outcome of a linear scan, with a mask such that all flows agreeing on it get the same outcome |
| FilterChain.BestRejects | lib/classifier.c:1705-1740 | with the programs passed over still ruled out and that of the rule found still in, a subtable yields the same rule |
| FilterChain.FoundRejects | lib/classifier.c:953-1039 | and so does the whole classifier, whatever else is known of other programs |
| FilterChain.ChainDecides | lib/classifier.c:1174-1241 | every packet that satisfies a recorded chain is classified to the rule it was recorded for |
| FilterChain.FilterState.RunFilterProg | lib/bpf.h:66-78 | the result of the program on this packet; a program with a known result is not run again |
| FilterChain.FilterState.ChainAdd | lib/bpf.c:91-115 | appends exactly if the program is not in the chain |
| FilterChain.FilterState.MatchesChain | lib/bpf.h:80-95 | true exactly if the packet has all results the chain expects |
| FilterChain.FilterState.Round | lib/classifier.c:1223-1239 | one lookup either settles the classification or adds a program to those known not to match |
| FilterChain.FilterState.Classify | lib/classifier.c:1201-1241 | for any history of true results: ends; runs no program twice; returns the highest-priority rule whose program, if any, matches; and every packet that agrees on the mask and satisfies the chain is classified to the same rule |
| FlowTable.EqualMasksMatchAlike | datapath/flow_table.c:834-843 | masks that compare equal match the same keys |
| FlowTable.InsertFlow | datapath/flow_table.c:397-413 | adds exactly that flow, in the bucket of its hash |
| FlowTable.DeleteFlow | datapath/flow_table.c:804-815 | removes exactly that flow |
| FlowTable.Rehash | datapath/flow_table.c:415-456 | a new instance of any size has exactly the flows of the old one |
| FlowTable.ReallocMasks | datapath/flow_table.c:238-264 | the masks are the same and in the same order |
| FlowTable.MaskedFlowLookup | datapath/flow_table.c:543-563 | finds a flow of this mask exactly if one matches |
| FlowTable.FlowLookup | datapath/flow_table.c:565-605 | whatever index it starts from, finds a flow exactly if some flow matches under its own mask; the index returned is that of its mask |
| FlowTable.LookupUfid | datapath/flow_table.c:728-744 | finds a flow exactly if one has the identifier |
| FlowTable.FindMask | datapath/flow_table.c:845-861 | finds an equal mask exactly if the array has one |
| FlowTable.FreeSlot | datapath/flow_table.c:896-905 | an array with fewer masks than slots has a free one |
| FlowTable.MaskInsert | datapath/flow_table.c:863-914 | no two masks of the array are equal; one reference more; the array grows by 16 exactly if it is full |
| FlowTable.MaskRemove | datapath/flow_table.c:760-801 | one reference less; a mask goes with its last reference, and a sparse array is halved |
| FlowTable.RefsAdded | datapath/flow_table.c:907-913 | reference counts equal the number of flows using each mask after a flow is added |
| FlowTable.RefsRemoved | datapath/flow_table.c:778-801 | and after one is removed |
| FlowTable.InsertAndGrow | datapath/flow_table.c:916-960 | the instance doubles exactly if it has more flows than buckets; this and the rehash that is due at times keep the flows |
| FlowTable.Table.constructor | datapath/flow_table.c:266-303 | an empty table keeps all invariants |
| FlowTable.Table.LookupStats | datapath/flow_table.c:607-669 | for any contents of the cache and any packet hash: finds a flow exactly if one matches, and the only one if only one does; the cache then leads to its mask |
| FlowTable.Table.Lookup | datapath/flow_table.c:671-680 | the same without the cache |
| FlowTable.Table.LookupByUfid | datapath/flow_table.c:728-744 | exactly the flows of the table that have an identifier can be found by it |
| FlowTable.Table.Insert | datapath/flow_table.c:916-976 | the flow set gains that flow in both tables, the mask count and references stay exact, the flow matches exactly the keys its mask was given for, and no other flow matches more or less |
| FlowTable.Table.Remove | datapath/flow_table.c:803-821 | the flow set loses that flow in both tables, and the rest of the flows match as before |
| FlowReaders.LeadsPast | datapath/flow_table.c:803-821 | taking a flow out by one store leaves every walk sound: those that would come to it by the link that is set go past it, the others, from flows removed before, are not disturbed |
| FlowReaders.NextOK | datapath/flow_table.c:415-442 | every load of a reader and every store of an insertion, a removal, a rehash or its publication keeps the invariant, if no rehash begins while a reader is on an instance that was replaced |
| FlowReaders.RunOK | datapath/flow_table.c:415-456 | the invariant in every state of every interleaving, with any number of readers, operations and rehashes |
| FlowReaders.WalkMeets | datapath/flow_table.c:543-563 | a reader that has come to the end of its bucket has met every flow that was in the bucket when it began and stayed in the table, although a rehash links all flows anew meanwhile |
| FlowReaders.WalkMeetsOnly | datapath/flow_table.c:543-563 | and it has met no flow that was not in the bucket when it began |
| FlowRehashes.NextToCopy | datapath/flow_table.c:424-439 | until all flows have been copied, bucket by bucket and each bucket from its head, there is a next one, so every rehash can be completed |
| FlowRehashes.MissExact | datapath/flow_table.c:414-442 | from any sound state, with a writer that rehashes only after an insertion, to as many or twice as many buckets, and copies in order: a reader can miss a flow that stays in the table, in some continuation, exactly if it has at least two flows still to meet; the next one is always met, since only flows that are gone come before it |
| FlowRehashes.BucketExact | datapath/flow_table.c:917-939 | a reader that begins on a bucket of any sound table can miss a flow of it exactly if the bucket holds at least two |
| FlowRehashes.EmptyTableMisses | datapath/flow_table.c:276-294 | a run from the empty table of 1024 buckets in which that happens: two node versions are not enough for two rehashes |
| Actions.Put | datapath/actions.c:103-128 | a full queue drops the entry; otherwise it goes to the end and nothing is overwritten |
| Actions.FullLengthWalks | datapath/actions.c:1071-1072 | with the length of a list the loop over its attributes meets all of them and nothing behind them |
| Actions.FirstLengthWalks | datapath/actions.c:1186-1197 | with the length of the first argument, which is what a deferred sample passes, it stops after one action, or before it if that has no argument |
| Actions.TruncatedLength | datapath/actions.c:759-764 | what is sent is within the truncation exactly if the packet has not grown since, and has not become shorter than what is to be cut off, in which case the unsigned difference wraps and all of it is sent |
| Actions.RunSample | datapath/actions.c:843-909 | defers at most one entry and changes nothing that was queued |
| Actions.RunActions | datapath/actions.c:1057-1176 | ends for every flow table; nesting stays within the limit, and the queue only grows |
| Actions.Drain | datapath/actions.c:1178-1202 | takes out every entry, including those added on the way, in order |
| Actions.Outermost | datapath/actions.c:1204-1230 | leaves the queue empty and the level zero for the next packet |
| Actions.DeferredRunInOrder | datapath/actions.c:84-128 | for any flow table, also one that recirculates to itself, at most nine entries are deferred per outermost packet and each runs once, in the order queued |
| DeferredSamples.DeferredExact | datapath/actions.c:869-908 | for a packet, its key and the list of a sample: the deferred entry has the effects of the whole list, in every flow table and state, exactly if the one action that runs has the same effects on the untruncated packet and no action reached after it does anything; a list that is only a truncation never qualifies, since what is behind it in memory runs |
| DeferredSamples.UpcallExact | datapath/actions.c:882-894 | the upcall that a sample makes at once is the one its list asks for exactly if nothing was to be cut off the packet before, or the list itself cuts off something |
| DeferredSamples.SecondOutputLost | datapath/actions.c:1186-1197 | of two outputs in a sample, the second is never made |
| DeferredSamples.TruncationLost | datapath/actions.c:882-908 | a truncation before an output in a sample is lost: the packet is sent whole |
| Actions.Datapath.AddDeferred | datapath/actions.c:103-128 | the array with head and tail is the queue: a full one is left alone, and an entry goes behind all others |
| Actions.Datapath.DoSample | datapath/actions.c:843-909 | on the array too, a sample that is one upcall is made at once and any other is deferred or dropped |
| Actions.Datapath.DoOutput | datapath/actions.c:750-787 | what is left after cutting, with the unsigned wrap, is sent, and comes in again, if it does, at one level deeper and before the rest of the actions |
| Actions.Datapath.ProcessPacket | datapath/actions.c:1186-1197 | a packet that comes in while another is executed runs the actions of its flow within the same queue |
| Actions.Datapath.ExecuteActions | datapath/actions.c:1204-1230 | the level is restored; only the outermost call runs what was deferred, which the eager meaning does after the whole list |
| Actions.Datapath.DoAction | datapath/actions.c:1085-1168 | up to the output that it leaves for later, one action does what it means when nothing is put off |
| Actions.Datapath.DoExecuteActions | datapath/actions.c:1057-1176 | for any length, the loop over the attributes has the meaning of the actions it meets: putting off each output until the next action sends the same packets to the same ports in the same order as sending a copy at once |
| Actions.Datapath.RunNext | datapath/actions.c:1186-1197 | an entry is taken out before it runs, so what it defers goes behind it and is not lost |
| Actions.Datapath.ProcessDeferred | datapath/actions.c:1178-1202 | entries that are added while the queue is drained run as well, and the array is reset |
| NetlinkActions.NestingIsBounded | datapath/flow_netlink.c:2219-2220 | accepted samples are nested less deeply than SAMPLE_ACTION_DEPTH |
| NetlinkActions.SetMeansTheSame | datapath/flow_netlink.c:2144-2170 | the masked set that replaces a plain set leaves the value of the plain set in the field, whatever it held |
| NetlinkActions.ActionBuffer.constructor | datapath/flow_netlink.c:1678-1693 | an empty buffer with room for the user's actions |
| NetlinkActions.ActionBuffer.Reserve | datapath/flow_netlink.c:1742-1776 | within twice the user's length (see CopyIsAtMostTwice) one doubling always makes enough room, and it is refused only if the size limit would be exceeded |
| NetlinkActions.ActionBuffer.Append | datapath/flow_netlink.c:1778-1795 | the attribute is added at the end or nothing changes |
| NetlinkActions.ActionBuffer.NestedStart | datapath/flow_netlink.c:1807-1818 | a header of an empty attribute is added |
| NetlinkActions.ActionBuffer.NestedEnd | datapath/flow_netlink.c:1820-1827 | the 16-bit length filled in afterwards makes everything since the start one attribute; it is never cut off |
| NetlinkActions.ActionBuffer.AppendMasked | datapath/flow_netlink.c:2144-2170 | a plain set is kept as one masked set with its value and a full mask |
| NetlinkActions.ActionBuffer.CopySample | datapath/flow_netlink.c:1834-1883 | accepted only as Accepts says, refused only otherwise or for lack of room; kept with the probability first |
| NetlinkActions.ActionBuffer.CopyActions | datapath/flow_netlink.c:2211-2381 | accepted only if each action is accepted in what the ones before it leave of the packet, and refused only otherwise or for lack of room; the buffer gains exactly the encoding of the converted list |
| NetlinkActions.ActionBuffer.CopyAction | datapath/flow_netlink.c:2222-2376 | the same for one action |
| NetlinkDump.CopyIsAtMostTwice | datapath/flow_netlink.c:2144-2170 | the kernel's copy is at most twice as long as the user's list |
| NetlinkDump.CopyAll | datapath/flow_netlink.c:2384-2401 | a list that is kept is an accepted one, in the kernel's form; an accepted list that fits is always kept |
| NetlinkDump.DumpMasked | datapath/flow_netlink.c:2473-2492 | reads a converted set back from its bytes as the plain set |
| NetlinkDump.DumpSample | datapath/flow_netlink.c:2403-2437 | reads a sample back from its bytes |
| NetlinkDump.DumpActions | datapath/flow_netlink.c:2494-2535 | reading the buffer attribute by attribute gives the list it encodes, with converted sets turned back |
| NetlinkDump.UndoneIsNormal | datapath/flow_netlink.c:2211-2535 | undoing the conversion of an accepted list gives the list back, normalised |
| NetlinkDump.CopyThenDump | datapath/flow_netlink.c:2384-2535 | the dump of an accepted list is the list itself with type flags cleared, padding zeroed and the probability of each sample first |
| NetlinkDump.NormalStays | datapath/flow_netlink.c:2384-2535 | a list already written that way comes back byte for byte |
| Bfd.JitterBounds | lib/bfd.c:974-1005 | packets go out after 75 to 100 percent of the interval, which is at least a second unless the session is up (sections 6.8.3 and 6.8.7 of RFC 5880) |
| Bfd.DetectionExact | lib/bfd.c:843-844 | the detection time after a packet is that of section 6.8.4 of RFC 5880, with the multiplier of the packet, exactly if the session has the same multiplier |
| Bfd.StepKeeps | lib/bfd.c:706-889 | after every operation, for any packets whatever: above Down the remote discriminator is known, and Poll and Final are not both set |
| Bfd.TightenedByPollOnly | lib/bfd.c:399-420 | while a session stays up, min_tx rises or min_rx falls only when a poll sequence ends, to the values polled for (section 6.8.3 of RFC 5880) |
| Bfd.PollValuesKept | lib/bfd.c:961-972 | the values of a poll sequence do not change while it lasts |
| BfdProtocol.AlwaysWellFormed | lib/bfd.c:706-889 | both sessions keep those properties in every state of every run |
| BfdProtocol.WasSent | lib/bfd.c:592-669 | every packet under way was made from a past state of its sender |
| BfdProtocol.UpNeedsPeer | lib/bfd.c:847-875 | in every run, over a channel that drops, duplicates, delays and reorders, a session comes up only if its peer was in Init or Up before, holding this session's discriminator (section 6.8.6 of RFC 5880) |
| BfdProtocol.EndOfPollWasAnswered | lib/bfd.c:817-832 | when a poll sequence ends, the peer has received a Poll of this session |
| BfdPolling.AloneExact | lib/bfd.c:817-822 | from any state in which it polls, a session can end the sequence without a step of its peer exactly if a Final that it would accept is under way already |
| BfdPolling.StaleFinalEndsPoll | lib/bfd.c:817-822 | a run from two new sessions in which that happens: the second of two sequences ends by the answer to the first, with no Poll sent and no step of the peer, and a slower interval is adopted |
| BfdPolling.FirstPollIsAnswered | lib/bfd.c:817-832 | the first sequence in which a session sends a Poll ends only after the peer received a Poll of that sequence, which carried the values that are adopted (section 6.5 of RFC 5880) |
| BfdProtocol.AdoptsWhatItPolled | lib/bfd.c:643-655 | the values adopted are those on every packet sent during the sequence, each of which had Poll set (section 6.5 of RFC 5880) |
| BfdProtocol.TightenedInRun | lib/bfd.c:399-420 | in every run, intervals of a session that stays up are tightened by the end of a poll only |
| BfdSession.SessionState.constructor | lib/bfd.c:371-392 | a new session is Down, is in no poll sequence and knows nothing of a peer |
| BfdSession.SessionState.MakeTransition | lib/bfd.c:846-879 | the nested tests make the transition of the state table in section 6.2 of RFC 5880 |
| BfdSession.SessionState.ProcessPacket | lib/bfd.c:706-889 | a packet that section 6.8.6 of RFC 5880 discards changes nothing; any other makes the transition of section 6.2, sets Final exactly if it has Poll, and ends a poll sequence exactly if it has Final, when the interval polled for is adopted; the configuration is not touched |
| BfdSession.SessionState.PutPacket | lib/bfd.c:591-669 | the packet names both discriminators, has Poll during a sequence, with the values polled for, and Final once after a Poll, never both: the assertion of the source does not fire; the next one is due after 75 to 100 percent of the interval |
| BfdSession.SessionState.DoRun | lib/bfd.c:551-579 | a session goes down exactly if its detection time is over, and then knows nothing of its peer; an interval that is not the configured one is polled for, unless a poll is to be answered first |
| BfdSession.SessionState.DoConfigure | lib/bfd.c:399-442 | a session that is up takes over at once only intervals that send faster or expect less, and polls for any change unless a poll is to be answered first; a sequence that is under way keeps its values |
| Csum.Fold | lib/csum.c:60-66 | the 16-bit value congruent to the sum modulo 2^16 - 1 that is zero only for zero |
| Csum.Add32IsTwoAdd16 | lib/csum.h:48-51 | adding 32 bits is adding the two halves, with wrap-around |
| Csum.Continue | lib/csum.c:39-50 | adds all words, modulo 2^32 |
| Csum.Finish | lib/csum.c:60-66 | the complement of the folded sum |
| Csum.Compute | lib/csum.c:28-32 | the checksum of section 2 of RFC 1071 exactly under the condition of RightExactly |
| Csum.NoOverflow | lib/csum.c:39-50 | up to 131074 bytes fit a 32-bit sum |
| Csum.RightExactly | lib/csum.c:28-66 | for any data: the result is the checksum exactly if the wraps of the 32-bit sum and what the last odd byte is short by add up to a multiple of 2^16 - 1, and a sum that is not zero does not wrap to zero |
| Csum.LengthExact | lib/csum.c:28-50 | the result is right for all data of a length exactly if that is at most 131074 and, on a big-endian host, even |
| Csum.OddByteExact | lib/csum.c:46-48 | the code computes the checksum exactly if the host is little-endian, the length even or the last byte zero |
| Csum.ChecksumVerifies | lib/csum.c:28-32 | data whose checksum is put into a field that was zero has the checksum zero, on either kind of host |
| Csum.SumInPieces | lib/csum.c:34-50 | pieces of even length may be added one after the other |
| Csum.ByteOrderIndependent | lib/csum.c:22-32 | computed on either kind of host, the checksum has the same bytes in memory |
| Csum.Recalc16Exact | lib/csum.c:69-83 | for a 16-bit field at an even offset of any data, updating the checksum equals computing it anew exactly unless all bytes of the new data are zero (section 3 of RFC 1624) |
| Csum.Recalc32Exact | lib/csum.c:86-93 | the same for a 32-bit field, in either byte order |
| Csum.Recalc48 | lib/csum.c:96-109 | the same for an Ethernet address in the data |
| Csum.Recalc128 | lib/csum.c:112-126 | the same for an IPv6 address in the data |

## Left out

- CmapReaders.LookupIsLinearizable: assumes that no bucket counter moves by 2^32 during one lookup, and sequentially consistent steps instead of C11 atomics; reclaiming memory after a grace period is not modelled.
- Cmap.ConcurrentMap.Insert: the random bases of a rehash are a finite list that the caller supplies, and the method reports failure if none of them works; that the retry loops of the source end is not claimed.
- Cmap.ConcurrentMap.Rehash: the same holds of it; the classes have the bucket sizes of 64-bit hosts, while the load limits of HashLoad cover both.
- Ccmap.CountMap.Rehash: draws its bases from a finite list as well.
- Cmap.Impl.Find: nodes linked by `next` pointers are a sequence, so the links themselves and their order of update are not modelled; CmapReaders treats a chain as one value.
- Ccmap.CountMap.Inc: requires fewer than 2^32 additions in all, since counts are 32 bits wide.
- Lookups in a counting map that run concurrently with a writer: there is no recheck of a counter, so only the single-threaded refinement is stated.
- Classifier.FlowClassifier.Replace: rule objects, subtables and list nodes are values, so aliasing and the moment at which concurrent readers see each pointer are not modelled; the subtables' hash maps and counting maps are represented by their contents, whose laws are those of Cmap and Ccmap; publishing the priority vector is immediate, and equal priorities are kept in order of arrival where the library's sort leaves that open.
- Classifier.FlowClassifier.Lookup: conjunctive matches are not modelled; the mask is shown to settle the outcome if every subtable's last stage has only ports or no ports, which PortsShortcut.SafePortsExact shows to be exact for each search; the set of tries is fixed, since classifier_set_prefix_fields is not modelled.
- FilterChain.FilterState.Classify: requires program identifiers below 256, the number of results kept for a packet; lookups that replay a chain by position, without a packet history, are not modelled.
- Flows.HashRange: words of a flow are sets of bit positions and the hash functions are parameters.
- Trie.InsertPrefix: bits are sequences, so the shifting of 32-bit words in raw_get_prefix and prefix_equal_bits is represented by comparing sequences.
- FlowTable.Table.Insert: flushing the table is left out, since it frees flows without releasing masks; statistics and allocation failures are not modelled.
- FlowReaders.WalkMeets: requires that no rehash begins while a reader is on an instance that was replaced, which a grace period between rehashes would give, and FlowRehashes.MissExact says when it is needed; how long a reader takes, and when the rehash timer is due, is open; steps are sequentially consistent, and flows are freed only when no reader can reach them.
- FlowRehashes.MissExact: a new instance may spread flows over its buckets in any way, as its random seed may; that flows with equal hashes stay together is not modelled.
- Actions.Datapath.DoSample: if the only action of a sample is a truncation, the code reads past the list; what it finds there is taken to be some attribute of an action, an arbitrary one.
- Actions.Datapath.DoAction: actions that change the packet are one kind, with an arbitrary effect on packet and key or a failure; key extraction, cloning and upcalls always succeed; fragmentation is left out.
- NetlinkActions.ActionBuffer.CopyActions: the user's actions come as a tree of attributes, so the walk over the bytes of the request is not modelled, while that over the kernel's copy is; tunnel and connection tracking attributes are not modelled, nor is the parsing of user-space attributes, which is a parameter; input attributes are padded, and hosts are little-endian.
- NetlinkActions.ActionBuffer.constructor: assumes that the allocator rounds the largest permitted request to at most 64 KB, as the kernel's size classes do.
- NetlinkDump.DumpActions: the message being built always has room.
- BfdSession.SessionState.ProcessPacket: the forwarding flag, decay counters, statistics and logging are left out; whether decay is due and its outcome are parameters.
- Packet parsing, connection tracking, virtual ports, the user-space datapath, the database and the command-line tools are not part of this model.
