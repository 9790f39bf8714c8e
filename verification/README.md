# libbpf's type graph, loader, dumper and linker, in Dafny

The repository vendors libbpf. This project models the parts of it that do more than plumbing, in the imperative form
the C code has, and proves what they are for:

- **BTF deduplication** (`Dedup`, with `BtfTypes`, `BtfEqual`, `TypeSection`, `Forest`, `Bisim`, `DedupInv`, `RefPass`,
  `DedupResult`, `Finite`). The passes work in place on a type section, a parent-pointer map and a hypothetical map. A
  type means its unfolding into a tree; the main theorem, `Dedup.Dedup.Run`, is that deduplication keeps every meaning,
  leaves no duplicates, and on well-kinded input fails exactly when a chain of reference types is closed.
- **The hash map** it rests on (`HashView`, `HashTable`, `HashRuns`): linked bucket chains, refining an abstract map and,
  with appends, a multimap over whole runs.
- **The loader generator** (`BpfMachine`, `BpfFlow`, `BpfSafety`, `BpfRuns`, `GenEmit`, `GenMeaning`, `GenRuns`, `GenTasks`,
  `GenCalls`, `GenLoads`, `GenPatches`, `GenReturns`, `GenLoader`). Emitted code has a small-step semantics (sections 4 and
  5 of RFC 9669) on registers and a byte-addressed memory, in which helpers return anything. Every emitter proves that the
  slots it adds obey a flow discipline, and code that obeys it always reaches an exit with the right result. Every call
  proves what its code does in all runs: the command it issues finds in memory the attributes it needs.
- **The C dumper's ordering** (`DumpGraph`, `DumpSpec`, `DumpWalks`, `DumpRank`, `DumpOrder`, `DumpCases`): what has to
  be complete by value is queued first; what a call reaches, queues and leaves; when a typedef is queued twice.
- **The static linker** (`LinkerSyms`, `LinkerLayout`, `LinkerRelos`, `LinkerFixups`, `LinkerFile`): symbol resolution
  over any files (binding and visibility as in the System V gABI, chapter 4, "Symbol Table"), section layout, and
  relocation, from a file's sections to the references in its code.
- **The BTF builder, serializer and parser** (`Bytes`, `BtfBlob`, `BtfBuild`): the offset index tiles the section, and
  reading back what was written in either byte order yields the same types.
- **Satellites**: `Jhash`, VLAN tags (`Vlan`, IEEE 802.1Q clause 9), the jited line-info index (`Linfo`).

`Common` and `Bytes` hold what several components share. Reading order within a component follows the list. Predicates
that carry the main claims: `DedupResult.Deduplicated`, `DedupInv.Inv`, `BpfFlow.Loader`, `BpfSafety.EndsWell`,
`GenMeaning.CmdOk`, `GenMeaning.Sound`, `GenReturns.EndsAsWanted`,
`DumpGraph.Inv`, `DumpWalks.Closed`, `LinkerSyms.Resolved`, `LinkerRelos.PlacedAt`, `LinkerFixups.Denotes`,
`BtfBlob.Tiles`, `HashRuns.Run`.

## Where the code and its comments part

The model follows the code. Where a member is named, it states the exact condition or a concrete input:

- `hashmap.h:91-96` says that a lookup returns the entry appended last. Growing reverses chains, so this holds exactly
  after an even number of growths, or when that entry also equals the far end of its chain (`HashRuns.FindsLastAppended`);
  after four appends it fails (`HashRuns.FirstAppendedFound`).
- `gen_loader.c:132-139` stores the jump over the cleanup code in 16 bits without a check. It is the intended distance
  exactly below 32768 slots, in every generated program (`GenLoader.Generate`); 11000 programs are too many
  (`GenLoader.ManyPrograms`).
- `gen_loader.c:156-160` rounds sizes up in 32 bits. The seven greatest wrap around to 0 (`GenLoader.WrapsExactly`), and
  `gen_loader.c:1027-1029` does not check that the stack has a slot for another program. Calls without either, on maps there
  are and with relocations inside their programs, are `GenLoader.Sane`.
- `linker.c:1876-1885` speaks of two definitions of which one has to be weak. A weak definition that a strong extern has
  made global conflicts too (`LinkerSyms.HardenedWeakConflicts`).
- `bpf_prog_linfo.c:70-73` checks address order "within a func", but not in the last one (`Linfo.LastFunctionUnchecked`).
  The exact condition for right answers, in every function, is `Linfo.RightExactlyIfStepped`.
- `btf_dump.c:465-609` never marks a typedef as being ordered, so it can enter the queue twice (`DumpCases.QueuedTwice`).
  That takes a chain of strong links from the typedef back to itself past a prototype used by value
  (`DumpWalks.OrderOnce`), and not every such chain does it (`DumpCases.LoopedOnce`). Structs, unions, enums and forward
  declarations are queued once (`DumpGraph.QueuedOnce`). A prototype's return type is not marked as referenced
  (`btf_dump.c:308-371`, `DumpOrder.MarkReferenced`).
- `btf_dump.c:264-266` promises full definitions of structs used through pointers only. A call on a pointer to a named
  struct queues none (`DumpCases.PointerOnly`). What a call does queue is `DumpWalks.CallQueues` and
  `DumpWalks.CallQueuesExactly`; a struct a prototype takes by value can be missed (`DumpCases.NotQueued`).
- `btf.c:1601-1604` lets the 16-bit element count overflow at 65535 elements: the calls that add elements say exactly when
  the object stays well-formed (`BtfBuild.Btf.AddElem`), and `BtfBuild.OverfullSection` makes the overflowing call.
- Pushing a popped VLAN tag back rewrites its protocol to 0x8100, so frames with 0x88a8 do not come back (`Vlan.PushPop`).

## Model

| member | source | states |
|---|---|---|
| `Dedup.Dedup.Run` | eBPF/libbpf/src/btf.c:3079-3137 | Whole deduplication, in place. On success every original id has a new id in range, new ids number the canonical types densely and in order, no two comparable output types are equal, no struct or union that stayed was, when its turn came, bisimilar to an earlier one that stayed, every forward enum with a compatible full enum is resolved, each type's new id is a type of its name, and without forward types the new id unfolds, to every depth, to the tree the original id unfolded to. An unknown kind gives -EINVAL; a well-kinded section succeeds exactly when no chain of reference kinds is closed, and gives -ELOOP otherwise |
| `Dedup.Dedup.constructor` | eBPF/libbpf/src/btf.c:3264-3319 | The starting state meets the invariant of every pass: only void, VAR and DATASEC are mapped, each to itself |
| `Dedup.Dedup.Resolve` | eBPF/libbpf/src/btf.c:3869-3874 | Following parent pointers terminates, at the root of the forest |
| `Dedup.Dedup.ResolveFwdId` | eBPF/libbpf/src/btf.c:3880-3894 | A forward declaration resolves to its definition if one is recorded, anything else to itself |
| `Dedup.Dedup.PrimType` | eBPF/libbpf/src/btf.c:3760-3842 | One step of the primitive pass keeps the forest, the sound and complete candidate table and the absence of equal canonical types, and fails exactly on unknown kinds |
| `Dedup.Dedup.FindEnum` | eBPF/libbpf/src/btf.c:3799-3818 | Looking for an enum moves only canonical forward enums, and only to the full enum being added; a forward enum moves nothing |
| `Dedup.Dedup.FindEqual` | eBPF/libbpf/src/btf.c:3787-3797 | The answer is an equal candidate, or the id itself and then no candidate of that hash is equal |
| `Dedup.Dedup.PrimTypes` | eBPF/libbpf/src/btf.c:3844-3854 | The primitive pass succeeds exactly when all kinds are known |
| `Dedup.Dedup.IsEquiv` | eBPF/libbpf/src/btf.c:4033-4190 | The search terminates on every cyclic graph. If it answers 1, all pairs recorded since the call are closed under following references and the two types are related; if some functional bisimulation extends what is recorded and pairs the two types, it answers 1; from a searchable type of a well-kinded graph it never fails |
| `Dedup.Dedup.MatchRecords` | eBPF/libbpf/src/btf.c:4078-4187 | The record-by-record test accepts exactly local matches, and fails only on two records of one kind it does not know |
| `Dedup.Dedup.ClearHypot` | eBPF/libbpf/src/btf.c:3222-3230 | Emptying the list empties the whole hypothetical map |
| `Dedup.Dedup.SearchEquiv` | eBPF/libbpf/src/btf.c:4341-4346 | A fresh search: 0 means that no functional bisimulation pairs the two structs; 1 means every recorded pair matches locally and, without forward types, has one meaning |
| `Dedup.Dedup.MergeOne` | eBPF/libbpf/src/btf.c:4218-4279 | Merging one recorded pair keeps the forest and the table, leaves no pair of a forward declaration and its definition unresolved, and un-resolves none |
| `Dedup.Dedup.MergeHypotMap` | eBPF/libbpf/src/btf.c:4218-4279 | After the merge, both sides of every recorded forward/definition pair resolve to a definition |
| `Dedup.Dedup.FindStruct` | eBPF/libbpf/src/btf.c:4322-4352 | The chosen candidate is a struct of the same meaning; if none is chosen, no canonical struct processed earlier is bisimilar to this one, whatever its hash |
| `Dedup.Dedup.StructType` | eBPF/libbpf/src/btf.c:4303-4359 | A struct becomes canonical only if no functional bisimulation relates it to a canonical struct processed earlier; on well-kinded graphs the step cannot fail |
| `Dedup.Dedup.StructTypes` | eBPF/libbpf/src/btf.c:4361-4371 | After the struct pass every struct and union is mapped, parent pointers lead to mapped types only, and of all structs and unions that became canonical none was bisimilar to an earlier one when its turn came |
| `Dedup.Dedup.RefType` | eBPF/libbpf/src/btf.c:4397-4521 | The recursion terminates; -ELOOP is returned only when a chain of reference kinds closes on itself; otherwise the type is mapped to a root and every earlier result is left alone |
| `Dedup.Dedup.RefTypes` | eBPF/libbpf/src/btf.c:4523-4536 | The pass returns -ELOOP exactly when some chain of reference kinds is closed; otherwise all reference types refer to canonical types, and no type changes its meaning |
| `Dedup.Dedup.RemapId` | eBPF/libbpf/src/btf.c:4603-4615 | Looking up the new id of a resolvable reference never returns an error |
| `Dedup.Dedup.RemapType` | eBPF/libbpf/src/btf.c:4627-4647 | One record gets all its references renumbered, and nothing else |
| `Dedup.Dedup.RemapTypes` | eBPF/libbpf/src/btf.c:4627-4647 | Renumbering never fails and rewrites every reference of every record, and nothing else, to its final id |
| `Dedup.Dedup.CompactAndRemap` | eBPF/libbpf/src/btf.c:4549-4647 | Compaction and renumbering cannot fail after the other passes, and leave the deduplicated types of the whole claim |
| `BtfTypes.RedirectKeepsMeaning` | eBPF/libbpf/src/btf.c:4397-4521 | Exchanging references for references of the same meaning changes the unfolding of no type, to no depth |
| `BtfTypes.SetRefFacts` | eBPF/libbpf/src/btf.c:4709-4779 | Overwriting one reference changes neither the label of a record nor its other references |
| `BtfEqual.EqualMeansIdentical` | eBPF/libbpf/src/btf.c:3430-3662 | Every equality test accepts exactly identical records, so equality respects every hash |
| `BtfEqual.CompatEnumSameHash` | eBPF/libbpf/src/btf.c:3471-3517 | Compatible enums, forward ones included, share a hash, so a forward enum meets every full enum it stands for |
| `BtfEqual.ShallowEqualSameHash` | eBPF/libbpf/src/btf.c:3524-3564 | Structs that are equal but for their members' types share the member hash |
| `BtfEqual.SameShapeSameHash` | eBPF/libbpf/src/btf.c:3524-3564 | The signature hash of a struct or union takes in nothing but its shape: two of one shape share it, whatever ids their members refer to |
| `DedupInv.ShapeIsLabel` | eBPF/libbpf/src/btf.c:3541-3564 | Two structs or unions have one shape exactly if they agree in everything but references |
| `BtfEqual.IdenticalStructsSame` | eBPF/libbpf/src/btf.c:3916-3938 | Identical structs are identical records |
| `Forest.LinkToRoot` | eBPF/libbpf/src/btf.c:4218-4279 | Pointing an id at another root keeps the map free of cycles |
| `Forest.LinkFresh` | eBPF/libbpf/src/btf.c:3808-3816 | Pointing an id nobody points at anywhere keeps the map free of cycles |
| `Forest.RootAfterLink` | eBPF/libbpf/src/btf.c:3869-3874 | Linking one root to another moves exactly the ids that resolved to it |
| `Bisim.LocalMatchLabel` | eBPF/libbpf/src/btf.c:4083-4187 | Without forward types a local match leaves nothing but references to differ |
| `Bisim.LocalMatchExactly` | eBPF/libbpf/src/btf.c:4083-4187 | Without forward types two records match locally exactly if they agree in everything but references and are of a kind the test knows |
| `Bisim.ForwardMatch` | eBPF/libbpf/src/btf.c:4085-4103 | A forward declaration matches exactly the structs, or if so flagged the unions, of its name, on either side |
| `Bisim.ClosedUnfold` | eBPF/libbpf/src/btf.c:4033-4190 | All pairs of a closed hypothetical map unfold alike, to every depth |
| `Bisim.ClosedSameMeaning` | eBPF/libbpf/src/btf.c:4033-4190 | A recorded pair of a closed map denotes one type |
| `Bisim.PairCloses` | eBPF/libbpf/src/btf.c:4096-4184 | Once all references of a new pair are related, the pair is closed, and so is everything recorded since |
| `DedupInv.InvInit` | eBPF/libbpf/src/btf.c:3264-3319 | The initial map meets the invariant |
| `DedupInv.InvLink` | eBPF/libbpf/src/btf.c:4303-4359 | Pointing a non-candidate at a type of the same meaning keeps kinds, table, distinctness and meaning |
| `DedupInv.InvSelf` | eBPF/libbpf/src/btf.c:3837-3841 | Making a type canonical that equals no candidate, and adding it to the table, keeps the invariant |
| `DedupInv.EnumStep` | eBPF/libbpf/src/btf.c:3808-3816 | Resolving a canonical forward enum to a compatible full one keeps the invariant |
| `DedupInv.MergePair` | eBPF/libbpf/src/btf.c:4218-4279 | Each of the three cases of merging a pair keeps the invariant and the stage of the struct pass |
| `DedupInv.MergeResolves` | eBPF/libbpf/src/btf.c:4225-4278 | Merging a pair resolves its forward declaration and keeps every resolution made before |
| `DedupInv.ResolvedStep` | eBPF/libbpf/src/btf.c:3799-3841 | Each step of the primitive pass leaves every forward enum resolved that has a compatible full enum among the types so far |
| `DedupInv.HistoryOn` | eBPF/libbpf/src/btf.c:4303-4371 | One step of the struct pass keeps the history: of the structs and unions made canonical so far none was bisimilar to an earlier one at its turn |
| `DedupInv.StructLink` | eBPF/libbpf/src/btf.c:4347-4354 | Mapping a struct to an equivalent candidate keeps the invariant |
| `DedupInv.StructsClose` | eBPF/libbpf/src/btf.c:4361-4371 | When all structs are mapped, parent pointers lead to mapped types only |
| `DedupInv.EquivMeans` | eBPF/libbpf/src/btf.c:4341-4347 | A positive search yields good pairs and, without forward types, one meaning |
| `RefPass.AllFinishedNoCycle` | eBPF/libbpf/src/btf.c:4397-4536 | If every reference type has finished, no chain of reference kinds is closed |
| `RefPass.StackClosesCycle` | eBPF/libbpf/src/btf.c:4406-4407 | Meeting a type in progress exhibits a closed chain |
| `RefPass.PathDescends` | eBPF/libbpf/src/btf.c:4397-4536 | Along a chain of finished types the finishing order strictly decreases |
| `RefPass.PutSameMeaning` | eBPF/libbpf/src/btf.c:4422-4425 | Rewriting a reference in place to its canonical type changes the meaning of no type |
| `RefPass.InvFinish` | eBPF/libbpf/src/btf.c:4516-4520 | Mapping a finished reference type to an equal candidate, or to itself, keeps the invariant |
| `RefPass.StageFinish` | eBPF/libbpf/src/btf.c:4516-4520 | The stack and the finishing order stay consistent when a type finishes |
| `DedupResult.RefDone` | eBPF/libbpf/src/btf.c:4523-4536 | After a successful reference pass every id is mapped and reference types refer to canonical types |
| `DedupResult.NewIds` | eBPF/libbpf/src/btf.c:4549-4595 | New ids are an order-preserving bijection from self-mapped ids onto a dense range |
| `DedupResult.OutputWF` | eBPF/libbpf/src/btf.c:4627-4647 | The renumbered graph is a well-formed type graph |
| `DedupResult.OutputUnfold` | eBPF/libbpf/src/btf.c:4549-4647 | To every depth, a type's final id unfolds in the output as the type did before compaction |
| `DedupResult.OutputHasNoDups` | eBPF/libbpf/src/btf.c:4397-4647 | No two types of the output that are deduplicated by equality are equal |
| `DedupResult.FinalNamed` | eBPF/libbpf/src/btf.c:4549-4647 | The type behind a new id has the name and kind of the original, or is the definition of its forward declaration |
| `DedupResult.CopiesBisimilar` | eBPF/libbpf/src/btf.c:4303-4359 | Two self-referential copies of a struct that differ in the ids of their members only are bisimilar, so the second is merged into the first |
| `DedupResult.CompactedRemapped` | eBPF/libbpf/src/btf.c:4549-4647 | Compaction and renumbering together yield exactly the canonical records, renumbered |
| `DedupResult.RemapFits` | eBPF/libbpf/src/btf.c:4603-4615 | Every reference of a surviving record has a valid new id |
| `TypeSection.Section.Get` | eBPF/libbpf/src/btf.c:457-464 | A lookup through the offset index reads the record of that id |
| `TypeSection.Section.PutRef` | eBPF/libbpf/src/btf.c:4422-4425 | Writing a reference through a pointer into the buffer changes that reference of that record and nothing else |
| `TypeSection.Section.SlideDown` | eBPF/libbpf/src/btf.c:4571-4580 | One move of the compaction, on overlapping memory, keeps everything not yet looked at |
| `TypeSection.Section.SlideAll` | eBPF/libbpf/src/btf.c:4562-4581 | No record and no offset is overwritten before it is read; the loop fails only on a canonical type of unknown kind |
| `TypeSection.Section.Compact` | eBPF/libbpf/src/btf.c:4549-4595 | The section and its index hold exactly the surviving records, end to end, new ids are dense and in order, and the strings start where the types end |
| `TypeSection.SurvivorsSorted` | eBPF/libbpf/src/btf.c:4567-4581 | The surviving ids are exactly the self-mapped ones, in increasing order |
| `TypeSection.SlidMove` | eBPF/libbpf/src/btf.c:4571-4580 | The state of the compaction after one record has moved |
| `TypeSection.LaidPut` | eBPF/libbpf/src/btf.c:4422-4425 | Overwriting a word of one record leaves all others where and as they are |
| `HashView.HashBitsBelow` | eBPF/libbpf/src/hashmap.h:15-29 | A bucket index is below the capacity that goes with its number of bits |
| `HashView.PushForKey` | eBPF/libbpf/src/hashmap.c:24-29 | A push adds to the front of one key's entries and to no other key's |
| `HashView.SetForKey` | eBPF/libbpf/src/hashmap.c:168-181 | Replacing a found entry changes the first entry of its key only |
| `HashView.RemoveForKey` | eBPF/libbpf/src/hashmap.c:31-36 | Unlinking a found entry removes the first entry of its key only |
| `HashView.GrowReverses` | eBPF/libbpf/src/hashmap.c:101-128 | Growing keeps every entry, in the bucket its hash now selects, and reverses each key's order |
| `HashView.CountRehashed` | eBPF/libbpf/src/hashmap.c:101-128 | Rehashing neither loses nor invents an entry |
| `HashTable.AddEntry` | eBPF/libbpf/src/hashmap.c:24-29 | Relinking keeps all bucket chains and puts the entry at the front of its own |
| `HashTable.Unlink` | eBPF/libbpf/src/hashmap.c:31-36 | Relinking skips exactly the entry, whether a bucket or another entry pointed to it |
| `HashTable.HashMap.MoveBucket` | eBPF/libbpf/src/hashmap.c:117-120 | Moving a whole chain relinks its entries one by one into the new buckets |
| `HashTable.HashMap.MoveAll` | eBPF/libbpf/src/hashmap.c:117-120 | All chains together are exactly the rehashed table, on the same entries |
| `HashTable.HashMap.Grow` | eBPF/libbpf/src/hashmap.c:101-128 | Capacity doubles from at least 4, every key's entries come back reversed, and a failed or impossible allocation leaves the table as it was |
| `HashTable.HashMap.FindEntry` | eBPF/libbpf/src/hashmap.c:130-152 | The entry found is the first of the key, with the pointer that leads to it; none is found exactly if the key has no entry |
| `HashTable.HashMap.MakeRoom` | eBPF/libbpf/src/hashmap.c:187-192 | There is room for one more below three quarters of the capacity, or the call fails for lack of memory |
| `HashTable.HashMap.InsertNew` | eBPF/libbpf/src/hashmap.c:187-203 | A new entry comes first among its key's; other keys are untouched but for a growth's reversal |
| `HashTable.HashMap.Insert` | eBPF/libbpf/src/hashmap.c:154-204 | The result, the old entry reported, the size and the entries of every key, for all four strategies |
| `HashTable.HashMap.Find` | eBPF/libbpf/src/hashmap.c:206-218 | The first entry of the key is returned, if there is one |
| `HashTable.HashMap.Delete` | eBPF/libbpf/src/hashmap.c:220-240 | Exactly the first entry of the key is removed and reported |
| `HashTable.HashMap.EachKeyEntry` | eBPF/libbpf/src/hashmap.h:179-185 | Iterating over a key meets every entry of the key, and no other, in chain order: as many values as the key has entries, each that of its entry |
| `HashTable.HashMap.constructor` | eBPF/libbpf/src/hashmap.c:38-49 | An empty table meets the invariant: capacity 0 or a power of two of at least 4, entries in their buckets, size at most three quarters |
| `HashRuns.DoOps` | eBPF/libbpf/src/hashmap.c:154-240 | Any calls on an empty table form a run of the abstract steps |
| `HashRuns.RunIsMap` | eBPF/libbpf/src/hashmap.h:84-97 | Without appends the table is a map across all growths and failed allocations: a key has what the latest successful call for an equal key left |
| `HashRuns.RunIsMultimap` | eBPF/libbpf/src/hashmap.h:84-97 | With appends only it is a multimap: a key has everything appended for it, as often as appended |
| `HashRuns.IterateAppended` | eBPF/libbpf/src/hashmap.h:179-185 | After any appends to an empty table, iterating over a key finds as a multiset exactly the values appended for equal keys, across all growths and failures |
| `HashRuns.OrderFlips` | eBPF/libbpf/src/hashmap.c:117-120 | While nothing is written for a key, its order flips with every growth |
| `HashRuns.FindsLastAppended` | eBPF/libbpf/src/hashmap.h:91-96 | The header's promise that a lookup returns the entry inserted last holds exactly if the table has grown an even number of times since, or that entry equals the one at the far end of its chain |
| `HashRuns.FirstAppendedFound` | eBPF/libbpf/src/hashmap.c:101-128 | The promise fails in every table of four appends: two with one key and two with another make it grow once, and the lookup of the first key returns the value appended first, whatever the keys hash to |
| `BpfFlow.Append` | eBPF/libbpf/src/gen_loader.c:96-108 | Emitting a slot that the flow accepts keeps the whole program well-typed |
| `BpfFlow.Skipped` | eBPF/libbpf/src/gen_loader.c:344-354 | A pending landing place stays pending until it is reached, and no command is issued or checked in between |
| `BpfFlow.Lands` | eBPF/libbpf/src/gen_loader.c:344-368 | A forward jump lands inside the program, never on the second slot of a 64-bit load |
| `BpfSafety.MainStep` | eBPF/libbpf/src/gen_loader.c:282-295 | Each step of the prologue or body goes forward, or to the cleanup label after a failed check, or ends the run with 0 |
| `BpfSafety.CleanupStep` | eBPF/libbpf/src/gen_loader.c:141-153 | The cleanup code only goes forward, keeps R7 and ends the run with it |
| `BpfSafety.LoaderEndsWell` | eBPF/libbpf/src/gen_loader.c:113-154 | For all helper results and memory contents a loader reaches an exit: it returns 0 after all commands succeeded in order, or the negative R7 of the first failing check after a prefix of them; only descriptors above 0 are closed |
| `BpfRuns.LoadStored` | eBPF/libbpf/src/gen_loader.c:211-264 | A value stored in memory is read back, as far as it fitted |
| `GenRuns.DoStoreKfunc` | eBPF/libbpf/src/gen_loader.c:690-714 | Running the code after a kfunc lookup: on failure the instruction is cleared, on success it has the BTF id, and a module's descriptor goes to the slot and the slot's index to the instruction |
| `GenRuns.DoStoreKsym` | eBPF/libbpf/src/gen_loader.c:820-840 | Running the code after a typed ksym lookup: both immediates get the halves of the result, or on failure are cleared together with the source register |
| `GenRuns.DoKsymAddr` | eBPF/libbpf/src/gen_loader.c:771-778 | Running the code after an address lookup: both immediates get the halves of the address, or the run goes to the cleanup code unless the symbol is missing |
| `GenRuns.DoCopyKsym` | eBPF/libbpf/src/gen_loader.c:806-814 | Running the copy of a known ksym: both immediates are copied, and without the second the source register is cleared |
| `GenRuns.DoSysBpf` | eBPF/libbpf/src/gen_loader.c:266-275 | Running a command: it is issued with the memory there is, its result goes to R7, and only its attributes may have changed |
| `GenRuns.CloseIdles` | eBPF/libbpf/src/gen_loader.c:344-354 | A close, logged or not, changes no memory and no register that matters |
| `GenMeaning.UpdateHolds` | eBPF/libbpf/src/gen_loader.c:1059-1065 | The attributes of a good element update: the descriptor that creating the map returned, the addresses of key and value |
| `GenMeaning.PopulateHolds` | eBPF/libbpf/src/gen_loader.c:1083-1091 | The same for an outer map, whose value is the inner map's descriptor |
| `GenMeaning.FreezeHolds` | eBPF/libbpf/src/gen_loader.c:1105-1109 | The attributes of a good freeze: the map's descriptor |
| `GenMeaning.MapHolds` | eBPF/libbpf/src/gen_loader.c:476-499 | The attributes of a good map creation: the BTF's and the inner map's descriptors if used, and the context's size unless it is 0 |
| `GenMeaning.BtfHolds` | eBPF/libbpf/src/gen_loader.c:431-441 | The attributes of a good BTF load: the address of the data and the log details |
| `GenMeaning.ProgHolds` | eBPF/libbpf/src/gen_loader.c:975-1004 | The attributes of a good program load: the addresses of all its data, the descriptor array, log details and the BTF's descriptor |
| `GenMeaning.AttachHolds` | eBPF/libbpf/src/gen_loader.c:1003-1013 | And the BTF id and descriptor of its attach target, as a lookup of the target's name returned them |
| `GenMeaning.SlotReturned` | eBPF/libbpf/src/gen_loader.c:443-521 | The descriptor kept for each map and program is the one that the command creating it returned; for the BTF and inner maps that of the latest command |
| `GenMeaning.GoodOn` | eBPF/libbpf/src/gen_loader.c:266-275 | One more command with the right attributes keeps a good history good |
| `GenMeaning.ArrivesOn` | eBPF/libbpf/src/gen_loader.c:417-1112 | If every run arrives at a call with a good history, and the call's code leads on, every run arrives after it |
| `GenTasks.StillKeeps` | eBPF/libbpf/src/gen_loader.c:417-1112 | Memory changed only where a command's code may write still holds the context and all descriptors |
| `GenCalls.UpdateLeads` | eBPF/libbpf/src/gen_loader.c:1043-1067 | Every run of the code of an element update issues it with the right attributes, or is in the cleanup code |
| `GenCalls.PopulateLeads` | eBPF/libbpf/src/gen_loader.c:1070-1095 | The same for filling an outer map |
| `GenCalls.FreezeLeads` | eBPF/libbpf/src/gen_loader.c:1097-1112 | The same for a freeze |
| `GenCalls.LoadBtfLeads` | eBPF/libbpf/src/gen_loader.c:417-446 | The same for a BTF load, whose descriptor is then on the stack |
| `GenLoads.MapCreateLeads` | eBPF/libbpf/src/gen_loader.c:448-524 | The same for a map creation, whose descriptor is then in its slot |
| `GenLoads.ProgLoadLeads` | eBPF/libbpf/src/gen_loader.c:932-1030 | The same for a program load, past its attach target and any relocations, whose descriptor is then on the stack |
| `GenReturns.PrologueArrives` | eBPF/libbpf/src/gen_loader.c:113-139 | Every run passes the prologue with the context's address kept and the stack cleared |
| `GenReturns.WholeRun` | eBPF/libbpf/src/gen_loader.c:113-406 | Every run of a finished loader issues the commands wanted, each with the right attributes, or a part of them if it fails; on success the context has all descriptors |
| `GenReturns.CleanupReturns` | eBPF/libbpf/src/gen_loader.c:141-153 | The cleanup code returns the negative R7 and issues no command |
| `GenEmit.Emitter.Emit` | eBPF/libbpf/src/gen_loader.c:96-102 | Nothing is emitted once an error is set; otherwise one accepted slot is added and the program stays well-typed |
| `GenEmit.Emitter.EmitLoad` | eBPF/libbpf/src/gen_loader.c:104-108 | A 64-bit load takes two slots that no jump separates |
| `GenEmit.Emitter.AddData` | eBPF/libbpf/src/gen_loader.c:156-173 | Data is reserved at the end of the blob, rounded up to 8 bytes, and stays aligned so |
| `GenEmit.Emitter.RelStore` | eBPF/libbpf/src/gen_loader.c:211-218 | An address in the blob is stored in the blob; nothing is issued or left unchecked |
| `GenEmit.Emitter.MoveBlob2Blob` | eBPF/libbpf/src/gen_loader.c:220-228 | A blob value is copied within the blob |
| `GenEmit.Emitter.MoveBlob2Ctx` | eBPF/libbpf/src/gen_loader.c:230-236 | A blob value goes to the context |
| `GenEmit.Emitter.MoveCtx2Blob` | eBPF/libbpf/src/gen_loader.c:238-250 | A context value goes to the blob; with the zero check, the jump over the store lands right after it |
| `GenEmit.Emitter.MoveStack2Blob` | eBPF/libbpf/src/gen_loader.c:252-258 | A stack value goes to the blob |
| `GenEmit.Emitter.MoveStack2Ctx` | eBPF/libbpf/src/gen_loader.c:260-264 | A stack value goes to the context |
| `GenEmit.Emitter.SysBpfCmd` | eBPF/libbpf/src/gen_loader.c:266-275 | One command is issued with its attributes in the blob, and its result becomes due for a check |
| `GenEmit.Emitter.CheckErr` | eBPF/libbpf/src/gen_loader.c:282-295 | A backward jump goes to the cleanup label and fits 16 bits, or an error is set |
| `GenEmit.Emitter.DebugRegs` | eBPF/libbpf/src/gen_loader.c:298-333 | The log code is 6 slots that no jump enters, or nothing without logging |
| `GenEmit.Emitter.SysCloseR1` | eBPF/libbpf/src/gen_loader.c:344-354 | The hand-counted skip over a close lands right after the close and its log code |
| `GenEmit.Emitter.SysCloseStack` | eBPF/libbpf/src/gen_loader.c:356-360 | A stack descriptor is closed if positive |
| `GenEmit.Emitter.SysCloseBlob` | eBPF/libbpf/src/gen_loader.c:362-368 | A blob descriptor is closed if positive, in 6 slots, 12 with logging |
| `GenEmit.Emitter.CleanStackFds` | eBPF/libbpf/src/gen_loader.c:143-148 | The cleanup code closes every stack slot in use, 3 slots each |
| `GenEmit.Emitter.CleanMapFds` | eBPF/libbpf/src/gen_loader.c:149-150 | The cleanup code closes every map descriptor in the blob |
| `GenEmit.Emitter.Init` | eBPF/libbpf/src/gen_loader.c:113-154 | The precomputed jump over the cleanup code equals its real length; the program takes the shape of a loader exactly if that length fits 16 bits signed, and the whole prologue stays at its front ever after |
| `GenEmit.Emitter.FindByName` | eBPF/libbpf/src/gen_loader.c:612-625 | A lookup by name and kind leaves its result in R7 with no check due |
| `GenEmit.Emitter.KallsymsLookupName` | eBPF/libbpf/src/gen_loader.c:631-648 | A symbol lookup leaves its result in R7 and the address in R9 |
| `GenEmit.Emitter.StoreKfunc` | eBPF/libbpf/src/gen_loader.c:690-714 | The three outcomes of a kfunc lookup join again after the block, whatever the counted distances jump over |
| `GenEmit.Emitter.StoreKsymAddr` | eBPF/libbpf/src/gen_loader.c:771-778 | A missing weak symbol skips the check; any other failure goes to the cleanup label |
| `GenEmit.Emitter.StoreKsymBtf` | eBPF/libbpf/src/gen_loader.c:820-840 | Success and failure of a ksym lookup join again after the block |
| `GenEmit.Emitter.CopyKsymBtf` | eBPF/libbpf/src/gen_loader.c:806-814 | The copy of a known ksym's slots is exactly the counted code, and its jump lands at its end |
| `GenEmit.Emitter.EndBody` | eBPF/libbpf/src/gen_loader.c:394-395 | Adding the final return of 0 completes the loader, with exactly the commands issued before |
| `GenLoader.Gen.constructor` | eBPF/libbpf/src/gen_loader.c:113-154 | The first state of a generator: the prologue with its jump over the cleanup code of the counted length, and no error if that fits in memory |
| `GenLoader.Gen.LoadBtf` | eBPF/libbpf/src/gen_loader.c:417-446 | One BTF_LOAD is issued and checked before its descriptor is stored on the stack. In every run its attributes then hold the address of the BTF data and the context's log details |
| `GenLoader.Gen.MapCreate` | eBPF/libbpf/src/gen_loader.c:448-524 | One MAP_CREATE is issued; a tracked map's descriptor goes to its slot of the array right after the check, and indices are consecutive and below 64. In every run its attributes then hold the descriptors of the loaded BTF and the inner map, if used, and the context's size for it, unless that is 0 |
| `GenLoader.Gen.RecordAttachTarget` | eBPF/libbpf/src/gen_loader.c:526-538 | A target name is kept, truncated to 127 characters; exactly 128 is refused |
| `GenLoader.Gen.GetKsymDesc` | eBPF/libbpf/src/gen_loader.c:583-607 | The symbol of that name gains a reference, or a new one is added and no other has that name |
| `GenLoader.Gen.AddKfuncBtfFd` | eBPF/libbpf/src/gen_loader.c:188-197 | A reserved slot while there is one, else a slot in fresh data |
| `GenLoader.Gen.LinkKfunc` | eBPF/libbpf/src/gen_loader.c:660-729 | A first reference to a kfunc is looked up, checked unless weak, and gets a descriptor slot of its own, stored by the counted code |
| `GenLoader.SlotsAppend` | eBPF/libbpf/src/gen_loader.c:188-197 | A new kfunc's slot is in bounds and shared with no other kfunc |
| `GenLoader.SlotsUpdate` | eBPF/libbpf/src/gen_loader.c:583-607 | Changing reference counts keeps slots apart |
| `GenLoader.PatchRuns` | eBPF/libbpf/src/gen_loader.c:660-843 | In every run the code of a relocation leaves in the instruction, and for a kfunc in its descriptor slot, what the lookup of the symbol's name returned, or what an earlier relocation of the symbol found; or it goes to the cleanup code |
| `GenLoader.WrapsExactly` | eBPF/libbpf/src/gen_loader.c:156-160 | Rounding a 32-bit size up to 8 bytes wraps around for exactly the seven greatest sizes, and then no room is reserved |
| `GenLoader.Gen.EmitReloKfunc` | eBPF/libbpf/src/gen_loader.c:660-729 | The relocated instruction gets a new lookup's results, or on a further reference the two fields an earlier relocation of the symbol found; all jumps land and all slots stay apart |
| `GenLoader.Gen.EmitReloKsymTypeless` | eBPF/libbpf/src/gen_loader.c:750-781 | Both immediates of the relocated load get the address looked up, or on a further reference those of the symbol's first load |
| `GenLoader.Gen.EmitReloKsymBtf` | eBPF/libbpf/src/gen_loader.c:797-843 | Both immediates of the relocated load, and its source register, follow the lookup, or on a further reference the symbol's first load |
| `GenLoader.Gen.EmitRelo` | eBPF/libbpf/src/gen_loader.c:861-883 | The code of the right kind of relocation, for the instruction meant, follows, and in every run writes to that instruction, descriptor slots and fresh data only; every kind other than VAR and FUNC is an error |
| `GenLoader.Gen.EmitRelos` | eBPF/libbpf/src/gen_loader.c:885-891 | The codes of all queued relocations follow each other in order, each for its own instruction, or an error is set; in every run they write nowhere but to the program, descriptor slots and fresh data |
| `GenLoader.Gen.CleanupRelos` | eBPF/libbpf/src/gen_loader.c:902-930 | For every symbol whose relocations opened a descriptor the code that closes it is there; all reserved slots are given back and the queues are empty |
| `GenLoader.Gen.ProgLoad` | eBPF/libbpf/src/gen_loader.c:932-1030 | One PROG_LOAD is issued; its descriptor goes to the next stack slot right after the check, and relocation state is reset. In every run its attributes then hold the addresses of license, instructions, debug records, relocations and descriptor array, the log details, the BTF's descriptor, and the two halves of what the lookup of its attach target returned |
| `GenLoader.Gen.MapUpdateElem` | eBPF/libbpf/src/gen_loader.c:1032-1068 | One MAP_UPDATE_ELEM is issued, and checked last. In every run its attributes then hold the descriptor that creating that map returned, and the addresses of the key and of the value, which is the user's if the context has one |
| `GenLoader.Gen.PopulateOuterMap` | eBPF/libbpf/src/gen_loader.c:1070-1095 | One MAP_UPDATE_ELEM is issued, and checked last. In every run its attributes then hold the descriptor that creating the outer map returned, the address of the key, and that of the inner map's descriptor |
| `GenLoader.Gen.MapFreeze` | eBPF/libbpf/src/gen_loader.c:1097-1112 | One MAP_FREEZE is issued, and checked last. In every run its attributes then hold the descriptor that creating that map returned |
| `GenLoader.Gen.Finish` | eBPF/libbpf/src/gen_loader.c:370-406 | Without an error the program is a loader whose commands are those of the calls, in order; it ends by closing its own BTF and moving the descriptors of all programs and maps to their places in the context. Too few programs or a wrong number of maps is -EFAULT |
| `GenLoader.FinishedRuns` | eBPF/libbpf/src/gen_loader.c:370-406 | After any calls that end without an error, every run of the program ends well within twice as many steps as it has slots |
| `GenLoader.JumpOverLands` | eBPF/libbpf/src/gen_loader.c:132-139 | In every run the first jump lands behind the cleanup code exactly if that code is below 32768 slots |
| `GenLoader.JumpOverTooFar` | eBPF/libbpf/src/gen_loader.c:132-139 | With more cleanup code than that, which no error reports, the loader's first jump leaves the program backwards |
| `GenLoader.MakeCalls` | eBPF/libbpf/src/gen_loader.c:417-1112 | Any calls between initialization and finish issue exactly their commands, in order, unless an error is set; every run of what they emit issues them with the right attributes |
| `GenLoader.Generate` | eBPF/libbpf/src/gen_loader.c:113-406 | From initialization to finish, for any calls: without an error, every run jumps over the cleanup code exactly if that is below 32768 slots; then every run ends well and the commands are those of the calls; just beyond, every run faults. If the calls are sane and blob, stack and context lie apart, every command of every run has the attributes it needs when it is issued, and a run that returns 0 leaves the descriptors of all maps and programs in the context |
| `GenLoader.ManyPrograms` | eBPF/libbpf/src/gen_loader.c:132-139 | For an object of 11000 programs the generator reports no error, and its loader faults in every run |
| `DumpGraph.InvSettle` | eBPF/libbpf/src/btf_dump.c:373-389 | Settling a type whose by-value needs are settled keeps the order promised |
| `DumpGraph.InvRequeue` | eBPF/libbpf/src/btf_dump.c:555-573 | Queueing a typedef a second time, as `DumpCases.QueuedTwice` shows to happen, does not break the order |
| `DumpGraph.NeedsQueuedFirst` | eBPF/libbpf/src/btf_dump.c:391-446 | Whatever a queued named struct or union contains by value, through arrays, modifiers, typedefs and anonymous composites, and that needs queueing, was queued before it |
| `DumpGraph.QueuedOnce` | eBPF/libbpf/src/btf_dump.c:373-389 | No struct, union, enum or forward declaration is queued twice over the life of a dumper |
| `DumpGraph.NoValueCycle` | eBPF/libbpf/src/btf_dump.c:465-609 | No type that was ordered successfully contains itself by value |
| `DumpGraph.PathBack` | eBPF/libbpf/src/btf_dump.c:465-609 | Along every by-value path the order only goes back |
| `DumpOrder.CycleFrom` | eBPF/libbpf/src/btf_dump.c:489-495 | Meeting a struct being ordered again, by strong links, exhibits a strong cycle |
| `DumpOrder.Dumper.OrderType` | eBPF/libbpf/src/btf_dump.c:465-609 | The recursion is the function `DumpSpec.Order` of the states, and terminates when all cycles pass through structs or unions; a type reached without a pointer, or by a strong link, has all its by-value needs queued first; -ELOOP exhibits a cycle of strong links, -EINVAL an unknown kind |
| `DumpOrder.Dumper.OrderPtr` | eBPF/libbpf/src/btf_dump.c:503-506 | A pointer is marked even when its target fails |
| `DumpOrder.Dumper.OrderTypedef` | eBPF/libbpf/src/btf_dump.c:555-573 | A typedef is queued after its target, and settled if the link is strong |
| `DumpOrder.Dumper.OrderComposite` | eBPF/libbpf/src/btf_dump.c:511-539 | A struct or union is queued after all its members' needs |
| `DumpOrder.Dumper.OrderProto` | eBPF/libbpf/src/btf_dump.c:580-598 | The return type and the parameters are ordered in turn, and the first error is the prototype's; how strong it is otherwise, `DumpSpec.AsStrongAsStrongest` says |
| `DumpSpec.AsStrongAsStrongest` | eBPF/libbpf/src/btf_dump.c:580-598 | Members or parameters together are a strong link exactly if one of them is when its turn comes |
| `DumpOrder.Dumper.DumpType` | eBPF/libbpf/src/btf_dump.c:274-294 | One call queues a definition order for its type on top of all earlier calls'. After a success no ordering is in progress; it queued only types that strong links lead to, each a named struct or union, a typedef, or an enum or forward declaration that is named or that nothing refers to, and every such type it newly ordered; of the named structs and unions all that links reach without a prototype used by value; and over the dumper's life no typedef without a loop was queued twice |
| `DumpWalks.OrderMoves` | eBPF/libbpf/src/btf_dump.c:465-609 | A call changes no state but those of types not ordered yet, only adds to the queue, and leaves no type in progress when it succeeds |
| `DumpWalks.OrderReaches` | eBPF/libbpf/src/btf_dump.c:465-609 | A call touches and queues nothing but types that strong links lead to from its own |
| `DumpWalks.OrderMeets` | eBPF/libbpf/src/btf_dump.c:465-609 | After a success everything the type needs, as deep as strong links go, is ordered; a prototype's needs are those it has behind a pointer |
| `DumpWalks.OrderQueues` | eBPF/libbpf/src/btf_dump.c:511-539 | Of the named structs and unions a call queues exactly those it orders |
| `DumpWalks.OrderNeeds` | eBPF/libbpf/src/btf_dump.c:465-609 | A call queues no type that needs no definition of its own, and every type it newly orders that does |
| `DumpWalks.CallQueues` | eBPF/libbpf/src/btf_dump.c:259-294 | Which named structs and unions one call queues: only such as strong links lead to and that were not ordered; all such if no prototype is used by value on the way |
| `DumpWalks.CallQueuesExactly` | eBPF/libbpf/src/btf_dump.c:259-294 | Where no prototype can be met by value, a call queues exactly the named structs and unions that strong links lead to and that were not ordered before |
| `DumpWalks.OrderOnce` | eBPF/libbpf/src/btf_dump.c:555-573 | A typedef is queued at most once unless a chain of strong links leads from it back to itself, past a prototype used by value |
| `DumpCases.QueuedTwice` | eBPF/libbpf/src/btf_dump.c:555-573 | A typedef of a callback that takes the struct holding it by value is queued twice by one call: before the struct and after it |
| `DumpCases.DumpCallback` | eBPF/libbpf/src/btf_dump.c:555-573 | The dumper itself, on that type graph, queues the typedef twice |
| `DumpCases.LoopedOnce` | eBPF/libbpf/src/btf_dump.c:555-573 | The loop is necessary, not sufficient: a callback that returns that struct has the loop and is queued once, because the strength of links behind a pointer depends on what has been ordered by then |
| `DumpCases.PointerOnly` | eBPF/libbpf/src/btf_dump.c:259-269 | A call on any pointer to a named struct or union that is not ordered queues nothing, against the comment's promise of full definitions |
| `DumpCases.ArrayBehind` | eBPF/libbpf/src/btf_dump.c:503-509 | The element struct of an array behind a pointer is ordered all the same: C wants it complete |
| `DumpCases.AnonymousBehind` | eBPF/libbpf/src/btf_dump.c:503-529 | So is a struct that an anonymous struct or union behind a pointer holds by value |
| `DumpCases.NotQueued` | eBPF/libbpf/src/btf_dump.c:465-609 | Nor need it on a prototype's typedef: after a call on a pointer to it, the typedef is ordered and the struct it takes by value is not, and a call on the typedef itself leaves it so |
| `DumpRank.RankedExactly` | eBPF/libbpf/src/btf_dump.c:465-609 | The graphs for which termination is claimed are exactly those where every cycle of references passes through a struct or union |
| `DumpOrder.MarkReferenced` | eBPF/libbpf/src/btf_dump.c:308-371 | A type is marked exactly if some other type refers to it, a prototype's return type excepted; unknown kinds are refused |
| `DumpOrder.New` | eBPF/libbpf/src/btf_dump.c:148-189 | A dumper starts with an empty history, or unknown kinds are refused |
| `LinkerSyms.ConflictTest` | eBPF/libbpf/src/linker.c:1876-1885 | The test on two flags and a binding is exactly a conflict with the history of the name |
| `LinkerSyms.ResolveLoses` | eBPF/libbpf/src/linker.c:1896-1928 | A losing or extern occurrence tightens binding and visibility only |
| `LinkerSyms.ResolveWins` | eBPF/libbpf/src/linker.c:1896-1951 | A winning definition replaces what the name stands for |
| `LinkerSyms.ResolveNew` | eBPF/libbpf/src/linker.c:1954-1995 | The first occurrence of a name starts its history |
| `LinkerSyms.AtMostOneStrong` | eBPF/libbpf/src/linker.c:1876-1941 | A name linked successfully has at most one strong definition, and the output shows it |
| `LinkerSyms.HardenedWeakConflicts` | eBPF/libbpf/src/linker.c:1876-1903 | A weak definition made global by a strong extern conflicts with a later strong definition, though it alone would not |
| `LinkerSyms.TablesUpdate` | eBPF/libbpf/src/linker.c:1890-1951 | Updating one global symbol and its entry touches no other name |
| `LinkerSyms.TablesNew` | eBPF/libbpf/src/linker.c:1977-1995 | A new global symbol gets the one entry of its name |
| `LinkerSyms.Linker.FindGlobSym` | eBPF/libbpf/src/linker.c:1255-1270 | The entry of a name is found exactly if there is one |
| `LinkerSyms.Linker.ResolveKnown` | eBPF/libbpf/src/linker.c:1869-1952 | Exactly when a further occurrence of a name is refused, and how the history grows otherwise; on success binding is global iff some occurrence was, visibility is the maximum, and the kept definition is the strong one, else the first |
| `LinkerSyms.Linker.AddSym` | eBPF/libbpf/src/linker.c:1954-1998 | A new symbol is appended; a section remembers its symbol and a global name gets its entry |
| `LinkerSyms.Linker.AppendSym` | eBPF/libbpf/src/linker.c:1802-1998 | The exact error for every symbol, and the exact new state on success: a history entry, a symbol, or the section's symbol again. A local symbol's output symbol has its size and type, the index of its output section, and its value moved by the place of its section |
| `LinkerSyms.Linker.AppendGlobal` | eBPF/libbpf/src/linker.c:1840-1998 | A global symbol maps to the one entry of its name, in every file |
| `LinkerSyms.Linker.AppendSyms` | eBPF/libbpf/src/linker.c:1214-1245 | The first error of a symbol is the file's; otherwise the history of names is that of all its symbols taken in one after the other, every global symbol maps to the one output symbol of its name, and every local one to a symbol placed as its section was |
| `LinkerSyms.Linker.constructor` | eBPF/libbpf/src/linker.c:295-438 | The output starts with the all-zero symbol, the sections of the string and symbol tables, and no global name |
| `LinkerSyms.FindGlobSymBtf` | eBPF/libbpf/src/linker.c:1649-1716 | The loop finds the entry of the first DATASEC that lists the symbol, if the last declaration before agrees, else that declaration; ambiguous BTF is -EINVAL and missing BTF -ENOENT |
| `LinkerSyms.Linker.FindDst` | eBPF/libbpf/src/linker.c:1840-1868 | The output section of a global symbol, or the error of its BTF or of a section it names that is not there |
| `LinkerSyms.FileOccurrences` | eBPF/libbpf/src/linker.c:1214-1245 | The history of each name after a file is the earlier one followed by what the file contributes |
| `LinkerSyms.FilesOccurrences` | eBPF/libbpf/src/linker.c:440-471 | So after any files it is the concatenation of what they contribute |
| `LinkerSyms.OriginsOfFiles` | eBPF/libbpf/src/linker.c:440-471 | Every occurrence in a name's history comes from a symbol of that name in one of the files, with its value moved by the place of its section there |
| `LinkerSyms.DefinitionShown` | eBPF/libbpf/src/linker.c:1934-1968 | The output symbol of a defined name is a symbol of some file, at the place its section was given |
| `LinkerSyms.Linker.LinkAll` | eBPF/libbpf/src/linker.c:440-471 | Files linked one after the other: the first error, or the state all of them lead to, and every global symbol of every file maps to the entry of its name |
| `LinkerSyms.LinkFiles` | eBPF/libbpf/src/linker.c:440-471 | Any files linked successfully from an empty output: each global name stands for what its occurrences in all files resolve to, namely binding global iff one is, the greatest visibility, at most one strong definition, and that one or else the first weak one kept. Each defined name shows a symbol of that name in some file: its value there plus the place of its section, the index of that section's output section, its size and type; and each local symbol of each file maps to one placed so |
| `LinkerLayout.AlignUpFacts` | eBPF/libbpf/src/linker.c:1084-1143 | The aligned offset is the next multiple of the alignment |
| `LinkerLayout.NewOffFacts` | eBPF/libbpf/src/linker.c:1084-1143 | A section is put behind everything before it at a multiple of its own alignment, and of 8 if executable |
| `LinkerLayout.ExtendKeeps` | eBPF/libbpf/src/linker.c:1084-1143 | Extending a section keeps its pieces disjoint and aligned, its padding zero and its earlier contents in place, and ends with the new data |
| `LinkerLayout.Pow2Multiple` | eBPF/libbpf/src/linker.c:700-703 | Of two powers of two the greater is a multiple of the smaller |
| `LinkerRelos.Output.FindDstSec` | eBPF/libbpf/src/linker.c:1039-1052 | The first output section of that name is found, if any |
| `LinkerRelos.Output.InitSec` | eBPF/libbpf/src/linker.c:983-1037 | An output section takes its kind from the first source section with contents |
| `LinkerRelos.Output.ExtendSec` | eBPF/libbpf/src/linker.c:1084-1143 | The source section's data lies in a piece of its own at the recorded offset, and all earlier pieces stay |
| `LinkerRelos.Output.AppendSec` | eBPF/libbpf/src/linker.c:1170-1208 | One data section is placed behind all earlier ones or merged by name; it is refused exactly for another kind of output section of its name, or for a differing license or version |
| `LinkerRelos.Output.AppendSecData` | eBPF/libbpf/src/linker.c:1162-1212 | After success every data section of the file lies at its recorded place, apart from all others; output sections only grew at their ends |
| `LinkerRelos.PlacedStays` | eBPF/libbpf/src/linker.c:1162-1212 | A section placed once stays placed through all later extensions |
| `LinkerFixups.FixDenotes` | eBPF/libbpf/src/linker.c:2069-2087 | An adjusted instruction refers to the image of its target exactly if the sum fits 32 bits and, for a call, the target moved by a multiple of 8 |
| `LinkerFixups.FixAllAt` | eBPF/libbpf/src/linker.c:2054-2094 | An instruction with one adjustment has its immediate adjusted by exactly that, whatever happens to the others |
| `LinkerFixups.RefDenotesImage` | eBPF/libbpf/src/linker.c:2054-2094 | After all relocations of a section, each reference through a section symbol that is alone at its instruction denotes the image of what it denoted in the file, exactly if the new immediate fits |
| `LinkerFixups.BaseAligned` | eBPF/libbpf/src/linker.c:1084-1143 | Every place in an executable section is a multiple of 8, so the division for calls is exact |
| `LinkerFixups.RelocateSec` | eBPF/libbpf/src/linker.c:2054-2094 | The emitted relocations are the source's, moved and renumbered; the section's place holds its data with every section-symbol reference adjusted, and no other byte changes; a section symbol in a section without code is -EINVAL |
| `LinkerFixups.FixOne` | eBPF/libbpf/src/linker.c:2083-2087 | One adjusted immediate keeps the layout of the output |
| `LinkerFixups.PlacedElsewhere` | eBPF/libbpf/src/linker.c:2083-2087 | Adjusting one section leaves all sections with places of their own where and as they are |
| `LinkerFile.PlaceRelSec` | eBPF/libbpf/src/linker.c:2023-2049 | A section of relocations gets a place, or is refused exactly if the output section of its name is of another kind |
| `LinkerFile.AppendRelos` | eBPF/libbpf/src/linker.c:2000-2098 | Over all sections of relocations of a file: each such reference denotes the image of what it denoted, every other section keeps its data, and every place stays |
| `LinkerFile.AddFile` | eBPF/libbpf/src/linker.c:440-471 | A file from its sections to its relocations: after success each reference from code through a section symbol, alone at its instruction, denotes the image of its target at the target section's place, exactly if the new immediate fits 32 bits; code places are multiples of 8, so calls need no more |
| `BtfBuild.Btf.constructor` | eBPF/libbpf/src/btf.c:782-821 | An empty object: types right after the header, strings right after the types |
| `BtfBuild.Btf.AddStr` | eBPF/libbpf/src/btf.c:1573-1593 | A known string gets its known offset and changes nothing; a new one lies at the offset returned, and all earlier strings stay; it fails exactly when a new one does not fit |
| `BtfBuild.Btf.Commit` | eBPF/libbpf/src/btf.c:1606-1618 | The new record is the next id, `type_off` stays 0, `str_off` equals `type_len`, and the offset index still tiles the section |
| `BtfBuild.Btf.NewType` | eBPF/libbpf/src/btf.c:1811-1849 | What all additions share: a new record under the next id exactly if there is room, or no change to the types |
| `BtfBuild.Btf.AddInt` | eBPF/libbpf/src/btf.c:1811-1849 | The exact error condition, and the record added |
| `BtfBuild.Btf.AddFloat` | eBPF/libbpf/src/btf.c:1859-1890 | The exact error condition, and the record added |
| `BtfBuild.Btf.AddRefKind` | eBPF/libbpf/src/btf.c:1904-1931 | The exact error condition, and the record added |
| `BtfBuild.Btf.AddUnnamedRef` | eBPF/libbpf/src/btf.c:1940-1943 | The exact error condition, and the record added, for pointers and unnamed modifiers |
| `BtfBuild.Btf.AddNamedRef` | eBPF/libbpf/src/btf.c:2259-2265 | The exact error condition, and the record added, for typedefs and type tags |
| `BtfBuild.Btf.AddFunc` | eBPF/libbpf/src/btf.c:2327-2345 | The exact error condition, and the record added, whose count field is the linkage |
| `BtfBuild.Btf.AddFwd` | eBPF/libbpf/src/btf.c:2223-2249 | The exact error condition, and the record added: a forward enum is an enum without values |
| `BtfBuild.Btf.AddArray` | eBPF/libbpf/src/btf.c:1954-1981 | The exact error condition, and the record added |
| `BtfBuild.Btf.AddComposite` | eBPF/libbpf/src/btf.c:1984-2011 | An empty struct or union is added; only memory can fail |
| `BtfBuild.Btf.AddEnum` | eBPF/libbpf/src/btf.c:2131-2160 | The exact error condition, and the record added |
| `BtfBuild.Btf.AddFuncProto` | eBPF/libbpf/src/btf.c:2359-2383 | The exact error condition, and the record added |
| `BtfBuild.Btf.AddVar` | eBPF/libbpf/src/btf.c:2446-2482 | The exact error condition, and the record added |
| `BtfBuild.Btf.AddDatasec` | eBPF/libbpf/src/btf.c:2496-2523 | The exact error condition, and the record added |
| `BtfBuild.Btf.AddDeclTag` | eBPF/libbpf/src/btf.c:2583-2613 | The exact error condition, and the record added |
| `BtfBuild.Btf.AddElem` | eBPF/libbpf/src/btf.c:2089-2115 | One more element of the last type, counted in its header, exactly if there is room; the object stays well-formed exactly if the count was below 65535 |
| `BtfBuild.Btf.AddField` | eBPF/libbpf/src/btf.c:2063-2116 | The exact error condition, and the member added with its bit-field encoding |
| `BtfBuild.Btf.AddEnumValue` | eBPF/libbpf/src/btf.c:2170-2212 | The exact error, in the order the checks are made, and the value added modulo 2^32 |
| `BtfBuild.Btf.AddFuncParam` | eBPF/libbpf/src/btf.c:2393-2434 | The exact error, and the parameter added |
| `BtfBuild.Btf.AddDatasecVarInfo` | eBPF/libbpf/src/btf.c:2535-2571 | The exact error, and the entry added |
| `BtfBuild.OverfullSection` | eBPF/libbpf/src/btf.c:1601-1604 | A section gets 65536 variables, no call fails, and after the last the type counts none of them and the object is no longer well-formed |
| `BtfBuild.GrownFits` | eBPF/libbpf/src/btf.c:1601-1604 | One more element keeps a record well-formed exactly if its count is below 65535; beyond, the count becomes 0 |
| `BtfBuild.LaidGrow` | eBPF/libbpf/src/btf.c:2108-2115 | Growing the last record in place moves no other record |
| `BtfBuild.Btf.RawData` | eBPF/libbpf/src/btf.c:1224-1272 | The serialized bytes in either byte order; swapping record by record swaps every word exactly once |
| `BtfBuild.SwapRest` | eBPF/libbpf/src/btf.c:334-401 | Every word after the base record is swapped, and nothing outside the record; unknown kinds change nothing |
| `BtfBuild.SwapType` | eBPF/libbpf/src/btf.c:1249-1261 | Base and rest of a record are swapped, without reading a swapped header |
| `BtfBuild.ParseTypeSec` | eBPF/libbpf/src/btf.c:403-439 | Parsing in place succeeds exactly when the words, in native order, are a sequence of whole records of known kinds; the index rebuilt tiles the section |
| `BtfBuild.LoadSections` | eBPF/libbpf/src/btf.c:833-881 | String and type sections are accepted exactly as the format says |
| `BtfBuild.New` | eBPF/libbpf/src/btf.c:833-881 | Reading raw data yields what the format means, or the format's error |
| `BtfBuild.WriteAndRead` | eBPF/libbpf/src/btf.c:1224-1272 | Whatever was built, written in either byte order and read back, has the same types under the same ids and the same strings |
| `BtfBlob.HdrRound` | eBPF/libbpf/src/btf.c:210-267 | A header read back from its bytes is the header |
| `BtfBlob.SwapHdrTwice` | eBPF/libbpf/src/btf.c:210-218 | Swapping a header twice restores it |
| `BtfBlob.ParseLaid` | eBPF/libbpf/src/btf.c:403-439 | Walking a tiled section finds exactly its records |
| `BtfBlob.ParseTiles` | eBPF/libbpf/src/btf.c:403-439 | What a successful walk finds tiles the section |
| `BtfBlob.BlobRound` | eBPF/libbpf/src/btf.c:833-881 | Decoding an encoded object, in either byte order, yields its types and strings |
| `BtfBlob.FileLayout` | eBPF/libbpf/src/btf.c:1224-1268 | Where every field of the header, every word of the types and every string byte is in the file, in either byte order |
| `Jhash.JhashMix` | eBPF/eBPF_tutorial/headers/jhash.h:33-41 | The mixing macro computes the six lines of the mixing function |
| `Jhash.MixBijective` | eBPF/eBPF_tutorial/headers/jhash.h:33-41 | Mixing is a bijection on the three words: an explicit inverse undoes it from either side |
| `Jhash.FinalBijective` | eBPF/eBPF_tutorial/headers/jhash.h:43-52 | The final mixing is a bijection on the three words too |
| `Jhash.Jhash` | eBPF/eBPF_tutorial/headers/jhash.h:68-105 | Hashing bytes, with its fall-through switch, is hashing the zero-padded words with the byte length as seed |
| `Jhash.Jhash2` | eBPF/eBPF_tutorial/headers/jhash.h:114-142 | Hashing words block by block is the recursive hash |
| `Jhash.BytesAsWords` | eBPF/eBPF_tutorial/headers/jhash.h:56-142 | Hashing the little-endian bytes of words equals hashing the words, for every length and seed |
| `Jhash.Jhash3Words` | eBPF/eBPF_tutorial/headers/jhash.h:157-160 | The three-word variant equals hashing three words |
| `Jhash.Jhash2Words` | eBPF/eBPF_tutorial/headers/jhash.h:162-165 | The two-word variant equals hashing two words |
| `Jhash.Jhash1Word` | eBPF/eBPF_tutorial/headers/jhash.h:167-170 | The one-word variant equals hashing one word |
| `Jhash.BlocksTellApart` | eBPF/eBPF_tutorial/headers/jhash.h:121-129 | Keys of one length that differ in exactly one full block leave different states after the blocks |
| `Jhash.AbsorbIsBlocks` | eBPF/eBPF_tutorial/headers/jhash.h:121-129 | Those blocks are the ones the hash takes in before its last |
| `Vlan.PopPush` | eBPF/eBPF_tutorial/common/rewrite_helpers.h:22-108 | Popping what was pushed restores every byte, and the id comes back modulo 2^16 (IEEE 802.1Q clause 9) |
| `Vlan.PushPop` | eBPF/eBPF_tutorial/common/rewrite_helpers.h:22-108 | Pushing the popped tag back restores the frame exactly if its outer tag protocol was 0x8100 |
| `Vlan.VlanProtos` | eBPF/eBPF_tutorial/common/parsing_helpers.h:68-72 | A protocol field is that of a tag exactly if its bytes are 0x81 0x00 or 0x88 0xa8 (IEEE 802.1Q clause 9) |
| `Vlan.XdpMd.Push` | eBPF/eBPF_tutorial/common/rewrite_helpers.h:69-108 | Through moves of the head and copies in place, the frame becomes the pushed one, or stays if there is no headroom |
| `Vlan.XdpMd.Pop` | eBPF/eBPF_tutorial/common/rewrite_helpers.h:22-64 | The outer id and the popped frame, or -1 and the frame as it was |
| `Vlan.ParseEthhdrVlan` | eBPF/eBPF_tutorial/common/parsing_helpers.h:79-122 | The loop over tags yields the EtherType, the position and the ids of the recursive parse; a short header is -1 |
| `Vlan.PushParse` | eBPF/eBPF_tutorial/common/parsing_helpers.h:79-122 | A pushed frame parses to the same EtherType and payload with the new id first, as long as its own tags leave the parser room for one more |
| `Linfo.ProgLinfo.Dissect` | eBPF/libbpf/src/bpf_prog_linfo.c:22-86 | It succeeds exactly when the records can be cut into runs that start at the functions' addresses, rise and fit, and then it has recorded that cut |
| `Linfo.NextStart` | eBPF/libbpf/src/bpf_prog_linfo.c:46-77 | Such a cut starts the next function exactly at the first record of its address, so there is at most one |
| `Linfo.RunsInOrder` | eBPF/libbpf/src/bpf_prog_linfo.c:22-86 | The runs are consecutive and non-empty |
| `Linfo.RunOf` | eBPF/libbpf/src/bpf_prog_linfo.c:22-86 | Every record lies in the run of exactly one function |
| `Linfo.ProgLinfo.LfindAddrFunc` | eBPF/libbpf/src/bpf_prog_linfo.c:181-216 | The record before the first one above the address, and exactly when there is none |
| `Linfo.ProgLinfo.Lfind` | eBPF/libbpf/src/bpf_prog_linfo.c:219-246 | The same by instruction offset |
| `Linfo.FindsGreatest` | eBPF/libbpf/src/bpf_prog_linfo.c:181-216 | In every function but the last, the record found has the greatest address not above the query |
| `Linfo.RightExactlyIfStepped` | eBPF/libbpf/src/bpf_prog_linfo.c:181-216 | For every function's run: all lookups answer with the greatest address not above the query exactly if the run is stepped, that is, its first address is the least, and wherever the next record exceeds all before it, or the run ends, the record is as great as any before it and no later one falls between the two |
| `Linfo.SteppedRising` | eBPF/libbpf/src/bpf_prog_linfo.c:46-77 | Runs with rising addresses are stepped, and no others where addresses are distinct |
| `Linfo.LookupsRight` | eBPF/libbpf/src/bpf_prog_linfo.c:181-216 | In every function but the last a dissected index has checked that addresses rise, so all lookups are right; in the last function, with distinct addresses, they are right exactly if addresses rise |
| `Linfo.FallingBackHarmless` | eBPF/libbpf/src/bpf_prog_linfo.c:46-80 | Rising is not necessary where addresses repeat: in the run 20, 30, 20, 30 every lookup is right |
| `Linfo.LastFunctionUnchecked` | eBPF/libbpf/src/bpf_prog_linfo.c:46-80 | In the last function a lookup need not be right: a dissected index whose addresses fall again, and the query it answers wrongly |

## Left out

- Split BTF with a base object, `.BTF.ext`, string deduplication (`strset.c` is not part of this model): names are
  interned offsets, and equal names are equal offsets.
- Deduplication assumes successful allocation and in-range references. Offsets into the type section are counted in
  32-bit words. Candidates of a hash are met in an arbitrary order.
- Dedup.Dedup.Run: preservation of meaning is claimed for graphs without forward declarations and forward enums; with them
  a reference may rightly gain a definition, and what is proved is that recorded forward/definition pairs resolve.
  `-EINVAL` is exact for unknown kinds only in one direction: a graph with a VAR, DATASEC or DECL_TAG behind a followed
  reference may or may not fail.
- Dedup.Dedup.IsEquiv: completeness is relative to functional bisimulations, one candidate for each canonical type; graphs
  that need one canonical type paired with two candidates are accepted only where the code's shortcuts for identical
  arrays and structs apply.
- The candidate table of deduplication is a map from hashes to lists, which `HashRuns.RunIsMultimap` justifies; the
  two are not joined in one program.
- `str_hash` (`hashmap.h:32-41`), `hashmap__clear` and the whole-table iteration; `delete` during an iteration.
- HashTable.HashMap.Grow: a capacity of 2^61 buckets, whose byte size overflows, counts as a failed allocation.
- What the generator puts into the blob beforehand (programs, BTF data, names, keys, the fields of attributes known when it
  runs) and log messages: memory starts with any contents, and of those what is proved is where they stay as they were. Hosts
  are little-endian. Registers are unbounded numbers that loads, shifts and 32-bit operations cut to their width.
- That the loader closes each descriptor exactly once: the stack slot of an inner map is not cleared after its close.
- GenEmit.Emitter.AddData: where data lies and how much room it takes; what it holds is not modelled.
- GenLoader.Gen.EmitRelo: what each relocation leaves in its instruction is `GenLoader.PatchRuns`; the attributes theorem
  (`GenLoader.Generate`) takes from the relocations only where they may write.
- GenLoader.Generate: the attributes theorem assumes sane calls, and blob, stack and context that do not overlap.
- DumpOrder.Dumper.OrderType: termination is claimed for graphs in which every cycle passes through a struct or union
  (`DumpRank.RankedExactly`); on other graphs the C code need not terminate. An error exhibits a cycle of strong links;
  that every such cycle is found is stated as the absence of by-value cycles after success (`DumpGraph.NoValueCycle`).
- DumpWalks.OrderOnce: the loop is necessary for a typedef to be queued twice, and no condition on the graph alone is given
  that is also sufficient, since the strength of a link depends on the calls made before (`DumpCases.LoopedOnce`).
- DumpWalks.CallQueues: past a prototype used by value, whether a struct is queued depends on the calls made before.
- Text output of the dumper, and the second pass over the queue.
- The comparison of two global symbols' types and the merging of incomplete extern types in the linker: both are flags of
  an occurrence, read where the code calls them. BTF and BTF.ext of linked files.
- LinkerSyms.Linker.AppendSym: a global definition or section symbol outside any section, for which the code dereferences
  no section, is excluded by `SrcOk`.
- LinkerFixups.RelocateSec: relocations of code against section symbols lie inside their section and that section has
  bytes; the code verifies neither, and has no meaning beyond.
- LinkerFile.AddFile: symbol indexes of relocations are those of any map; `LinkerSyms` says what symbols map to. A
  reference is followed if no second relocation against a section symbol is at its instruction, and there is one section
  of relocations for a section. The bytes of the relocation entries are values here; reading and writing ELF files.
- The builder's set of strings is a map; `btf__add_type`, `btf__add_btf` and the cached raw data of an unmodified object.
- BtfBuild.Btf.RawData: the size of the object is below 2^32, the width in which the code computes it.
- Vlan.XdpMd.Push: whether the kernel grants a move of the packet head, beyond the limits of the buffer, is a parameter.
- Big-endian and 32-bit hosts for `jhash` and `hash_bits`.
- Tutorial packet programs, attach and netlink code, option parsing, probes, header macros: no property beyond one branch.
