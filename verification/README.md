# Proofs about Petrachor's core data structures

A Dafny model of six parts of the client, and proofs of what each of them is for. Each module
follows one source file; classes carry the fields the source updates in place, loops carry the
invariants of the source's loops, and the functions they are proved against have their own lemmas.
`dafny verify dfyconfig.toml` checks everything.

1. **Merkle Patricia trie** (`HexPrefix`, `TrieShape`, `TrieNode`, `TrieInsert`, `TrieRemove`,
   `TrieMap`, `TrieDefinition`, `TrieDB`, `TrieHash`, `TrieWalk`, `TrieIterator`). `TrieShape.Trie`
   is the trie as a tree; `MergeAt`, `DeleteAt` and what they call are the source's functions on RLP
   nodes over the hash-addressed, inlining store. The two are shown to agree, insertion and removal
   to keep the tree canonical, and canonical trees with equal bindings to be equal. So a root
   depends on the map alone (`TrieDB.RootForgetsHistory`), and is the hash of what the one-shot
   builder writes (`TrieDB.GenericTrieDB.RootNodeIsOneShot`, `TrieHash.Rlp256`), and of the node
   that Appendix D of the Yellow Paper defines for the map (`TrieDB.RunRootIsDefined`). The
   iterator's stack shows every pair once, in key order (`TrieIterator.ListAll`).
2. **EVM interpreter and optimizer** (`VmCode`, `VmOptimizer`, `VmLockstep`, `VmLongPool`,
   `VmMeaning`, `VmGas`, `VmPrices`).
   The in-place rewriting is proved against `VmCode.Optimized`, and the rewritten code to run in
   lockstep with the user's (`VmLockstep.Lockstep`, `VmLockstep.Interpreter.Exec`). The 64-bit gas
   registers are proved against charges over unbounded numbers (`VmGas.Meter.Execute`), of which
   every one lowers the gas (`VmGas.SpendLowers`). `VmMeaning` and `VmPrices` say in plain numbers
   what the instructions do and cost.
3. **RLP** (`Bytes`, `Rlp`, `RlpStream`, `RlpReader`), as in Appendix B of the Yellow Paper: strict
   reading and writing are mutual inverses, late headers under a stack of open lists included.
4. **Block queue** (`BlockQueue`, `BlockQueueRuns`). Each region under the locks is one method, so
   that any interleaving of any number of verifiers is a sequence of calls; a ghost history records
   what entered the line and what became of it. `BlockQueueRuns.Run` is about all interleavings.
5. **Fork choice, reorganisation and blooms** (`BlockChain`, `BlockChainRuns`, `BloomIndex`).
   `BlockChainRuns.Run` is about all sequences of imports and rewinds.
6. **Intervals, synchronisation and the gas limit** (`RangeMask`, `Chunks`, `BlockSync`,
   `SyncMeaning`, `StrandedBodies`, `GasLimit`). The handlers of `BlockSync` are proved against
   `BlockSync.Step`, runs of events against what each event keeps (`BlockSync.StepKeeps`), and
   `SyncMeaning` says what the steps do number by number.

`Options`, `Numbers` and `Sequences` hold what several modules share.

## What is assumed

- `sha3` is a function of which nothing is known. That no two different stored nodes have the same
  hash is a `requires` (`CollisionFree`) of every theorem that needs it.
- The store is a sequence of all that was ever inserted. `TrieDB.MemoryDB` shows that the source's
  map with counts reads the same: `kill` lowers a count, and lookups ignore counts.
- In `BlockChain`, a hash is of one block only; `BlockChainRuns.OnePerHash` says so of a run.
- In `BlockQueue`, no block has the hash of a list of uncles, as the queue keeps a block's hash in
  the field of the uncles' hash while it is being verified.
- In `VmLockstep`, the operations that are not pushes, jumps or `STOP` are an arbitrary function of
  the machine; memory, storage and the host are one opaque value. All pushes share one cost and
  stack effect, as the metrics tables have it (`EvmcTable`), every operation changes the size of the
  stack as the tables say (`KeepsSizes`), and every one costs gas (`Charges`); the last follows
  where they are charged for as `VmGas` says (`VmLockstep.MeteredCharges`).
- In `VmGas`, the table's costs are below 2^15 and, but for SSTORE, which is priced by its own
  rules and stands in the table with 0, positive; the host returns at most the gas it was sent.

## What the source does not quite do

The model follows the code. Where a law fails, the exact condition is proved.

- A long push whose constant has an index of 65536 or more gets the constant at the index modulo
  65536. Rewritten and original code agree step by step exactly as long as every long push that is
  executed still gets its own constant (`VmLockstep.AgreeExactly`); `VmLongPool.Parts` shows a
  program that parts from its start. With no more than 65536 constants they always agree.
- `withBlockBloom` finds a block in the range if and only if `latest` is at most 2^32 - 256 or the
  block is below 256 (`BloomIndex.SearchFinds`, with `BloomIndex.MissesBlock256` for an example). Its
  one caller, libethereum/ClientBase.cpp:196-242, stops at the head's number. The bloom of block 0 is
  never entered, so a search for its author's bits misses it
  (`BlockChain.BlockChain.WithBlockBloom`).
- `RangeMask::lowest` drops elements when asked for so many that a sum wraps around
  (`RangeMask.LowestExactly`, with `RangeMask.LowestWraps` for an example).
- `operator-=` on another mask is set difference if and only if all that the ground gains from the
  argument is in the argument; otherwise what it gains becomes elements
  (`RangeMask.RangeMask.Minus`, with `RangeMask.MinusGains` for an example). A mask taken from
  itself stays as it was.
- After `onPeerNewBlock` a body may be left without its header; `BlockSync.ImportKeeps` says exactly
  when. Such a body can make two assertions fail: that of `mergeInto`, when the header returns, and
  that of `collectBlocks` (libethereum/BlockChainSync.cpp:662), when no header is left.
  `BlockSync.FailsExactly` has the exact condition of both in any state, `BlockSync.Clash` and
  `BlockSync.Leftover`; `StrandedBodies.MergeFails` and `StrandedBodies.CollectFails` are runs that
  come to them. `removeItem` removes a run of items, where its name speaks of one.
- The index `treeRoute` returns is that of the common ancestor if and only if this is not the target;
  otherwise it is one more, unlike the examples at libethereum/BlockChain.h:270-275
  (`BlockChain.TreeRoute`).
- `childGasLimit` can leave the window that `verify` checks if the limit is below three divisors
  (`GasLimit.InWindow`, with `GasLimit.TwoSharesRejected` for an example). The parameters of the
  main network are within the bound.

## Model

| member | source | states |
|---|---|---|
| `Bytes.BERoundTrip` | libdevcore/CommonData.h:154-163 | reading the compact big-endian form of a number gives the number, and the form has no leading zero |
| `Bytes.BEUnique` | libdevcore/CommonData.h:138-163 | a byte string without leading zero is the compact form of the number it reads as |
| `Bytes.BESize` | libdevcore/CommonData.h:216-221 | a number fits k bytes exactly when its compact form is no longer than k |
| `Bytes.BytesRequired` | libdevcore/CommonData.h:216-221 | the shift-counting loop returns the length of the compact form |
| `Bytes.FromBigEndian` | libdevcore/CommonData.h:138-144 | the accumulator loop computes the value of the byte string |
| `Bytes.Weights` | libdevcore/CommonData.h:138-144 | the first bytes of a big-endian string weigh most: each byte 256 times the one behind it |
| `Rlp.ExactSize` | libdevcore/RLP.cpp:46-63 | a string that is accepted is exactly header and payload of one item, neither shorter nor longer |
| `Rlp.SizeAsEncoded` | libdevcore/RLP.h:357 | the size of the front item, which is never larger than the string |
| `Rlp.HeaderRead` | libdevcore/RLP.cpp:136-232 | every header the writer produces is read back as the same kind and length |
| `Rlp.EncodedSize` | libdevcore/RLP.cpp:125-134 | in a longer string the reader finds exactly the encoded item at the front |
| `Rlp.DecodeEncode` | libdevcore/RLP.cpp:46-245 | decoding the encoding of any tree below the size limit gives the tree back |
| `Rlp.HeaderCanonical` | libdevcore/RLP.cpp:136-232 | a header the reader accepts is byte for byte the one the writer produces, so no non-minimal length and no two-byte single byte is accepted |
| `Rlp.EncodeDecode` | libdevcore/RLP.cpp:46-245 | any byte string that reads without error, outermost item VeryStrict, re-encodes to itself |
| `Rlp.EncodeInjective` | libdevcore/RLP.cpp:46-245 | no two trees below the size limit share an encoding |
| `Rlp.DecodeInjective` | libdevcore/RLP.cpp:46-245 | no two accepted strings read as the same tree |
| `Rlp.AppendixBData` | libdevcore/RLP.cpp:313-332 | Appendix B of the Yellow Paper in its own numbers, for byte arrays: 128 and the length, or 183 and the length of the length |
| `Rlp.AppendixBList` | libdevcore/RLP.cpp:254-291 | and for sequences: 192, or 247 |
| `RlpReader.SplitJoin` | libdevcore/RLP.cpp:65-108 | the slices of a payload, joined, are the payload |
| `RlpReader.SliceSize` | libdevcore/RLP.cpp:65-108 | every slice is an item of exactly its own size |
| `RlpReader.SplitFrom` | libdevcore/RLP.cpp:93-108 | what follows k slices splits into the remaining slices |
| `RlpReader.SlicesOfList` | libdevcore/RLP.cpp:93-108 | the slices of an encoded list are its encoded items, in order |
| `RlpReader.RLP.At` | libdevcore/RLP.cpp:93-108 | operator[] with its last-index cache gives the i-th slice, or null past the end, whatever was asked before |
| `RlpReader.RLP.TakeItem` | libdevcore/RLP.cpp:93-108 | the item at the offset of the k-th slice is that slice |
| `RlpReader.RLP.Items` | libdevcore/RLP.cpp:234-245 | the counting loop gives the number of slices |
| `RlpReader.NextCursor` | libdevcore/RLP.cpp:65-76 | what stands behind the k-th item is the next item, or the end of the data |
| `RlpReader.Iterator.Begin` | libdevcore/RLP.cpp:78-91 | the iterator begins at the first slice, and at the end of an item that is not a list |
| `RlpReader.Iterator.Advance` | libdevcore/RLP.cpp:65-76 | one step goes to the next slice and stops behind the last |
| `RlpReader.Iterator.AtEnd` | libdevcore/RLP.cpp:65-91 | the iterator equals end() exactly when all slices are behind it |
| `RlpReader.ToList` | libdevcore/RLP.cpp:110-123 | iterating collects the same items as operator[] gives for every index; an item that is not a list gives none or throws, as the flags say |
| `RlpStream.Note` | libdevcore/RLP.cpp:254-291 | counting items off the open lists keeps every open list waiting for something |
| `RlpStream.PutIsEncode` | libdevcore/RLP.cpp:293-332 | appendList(n) and the writes of the n children add exactly the Appendix B encoding as one item, at any depth and whatever lists that closes |
| `RlpStream.PutAllIsEncode` | libdevcore/RLP.cpp:293-332 | the same for a row of items of an open list |
| `RlpStream.WriteBackwards` | libdevcore/RLP.h:455-467 | pushInt writes the number's bytes before a position, leaving all others |
| `RlpStream.WriteLongHeader` | libdevcore/RLP.cpp:274-285 | the long header is written in place over the bytes that were shifted away |
| `RlpStream.RLPStream.constructor` | libdevcore/RLP.h:395-399 | an empty stream with no open list |
| `RlpStream.RLPStream.InsertHeader` | libdevcore/RLP.cpp:270-287 | the header goes in front of the payload, the bytes before and after staying the same |
| `RlpStream.RLPStream.ClosedOffsets` | libdevcore/RLP.cpp:268-287 | the recorded start is where the payload really starts, and starts of outer lists stay valid when an inner list's header is inserted |
| `RlpStream.RLPStream.WaitFor` | libdevcore/RLP.cpp:262-266 | an open list waits for fewer items |
| `RlpStream.RLPStream.CloseLast` | libdevcore/RLP.cpp:266-288 | closing a list moves its header and payload into the list around it |
| `RlpStream.RLPStream.NoteAppended` | libdevcore/RLP.cpp:254-291 | the loop over the stack of open lists fails exactly when too many items are counted or a list is too long, and keeps all offsets valid |
| `RlpStream.RLPStream.AppendRaw` | libdevcore/RLP.cpp:247-252 | raw bytes join the innermost open list |
| `RlpStream.RLPStream.AppendList` | libdevcore/RLP.cpp:293-301 | opens a list, or writes and counts an empty one |
| `RlpStream.RLPStream.AppendData` | libdevcore/RLP.cpp:313-332 | data go in as in Appendix B, for all three header forms |
| `RlpStream.RLPStream.AppendBytes` | libdevcore/RLP.cpp:313-332 | compact bytes go in as the number they spell, others as they are |
| `RlpStream.Stripped` | libdevcore/RLP.cpp:316-318 | the loop over leading zeros leaves the shortest bytes of the same value |
| `RlpStream.RLPStream.WriteTree` | libdevcore/RLP.cpp:293-332 | the recursive writer does what the specification of a write says |
| `RlpStream.EncodeTree` | libdevcore/RLP.cpp:247-366 | a tree written to a fresh stream: no call throws, no list stays open, and out() is the tree's encoding |
| `HexPrefix.UnpackAt` | libdevcore/TrieCommon.h:31-34 | nibble i of a byte string is the i-th of its unpacked nibbles |
| `HexPrefix.Halves` | libdevcore/TrieCommon.h:31-34 | the high half of each byte comes first |
| `HexPrefix.UnpackPack` | libdevcore/TrieCommon.cpp:46-82 | unpacking the packed bytes of an even number of nibbles gives the nibbles back |
| `HexPrefix.PackUnpack` | libdevcore/TrieCommon.h:31-34 | packing all nibbles of a byte string gives the byte string |
| `HexPrefix.HPRoundTrip` | libdevcore/TrieCommon.h:97-112 | keyOf and isLeaf read back the path and the flag that were encoded (Yellow Paper, Appendix C), so the encoding is injective |
| `HexPrefix.HPReadTrip` | libdevcore/TrieCommon.h:97-112 | a byte string with a proper flag nibble and zero padding is the encoding of what keyOf and isLeaf read from it |
| `HexPrefix.AppendixC` | libdevcore/TrieCommon.cpp:46-61 | Appendix C in its own numbers: the flag nibble is 2 for a leaf and 1 more for an odd path, and then come pairs of nibbles |
| `HexPrefix.HexPrefixVector` | libdevcore/TrieCommon.cpp:46-61 | the loop over pairs of nibbles gives the hex-prefix form of the part of the vector |
| `HexPrefix.HexPrefixBytes` | libdevcore/TrieCommon.cpp:63-82 | the nibble-by-nibble loop, which ORs into the last byte, gives the form of the slice |
| `HexPrefix.HexPrefixTwo` | libdevcore/TrieCommon.cpp:84-114 | the same of two slices one after the other |
| `HexPrefix.Shared` | libdevcore/TrieCommon.h:38-48 | a common prefix after which the two differ or one ends |
| `HexPrefix.SharedUnique` | libdevcore/TrieCommon.h:38-48 | there is only one such length |
| `HexPrefix.SharedNibbles` | libdevcore/TrieCommon.h:38-48 | the counter loop finds it for any two ranges |
| `HexPrefix.ContainsIsShared` | libdevcore/TrieCommon.h:66 | contains holds exactly when the argument is a prefix |
| `TrieShape.SomeKey` | libdevcore/TrieDB.h:930-1079 | a canonical trie that is not empty binds some path |
| `TrieShape.Spread` | libdevcore/TrieDB.h:1154-1198 | a canonical branch binds two paths without a common first nibble |
| `TrieShape.SpreadExt` | libdevcore/TrieDB.h:1154-1198 | a canonical extension binds two paths that share exactly its path |
| `TrieShape.CanonicalUnique` | libdevcore/TrieDB.h:930-1232 | canonical tries with the same bindings are equal |
| `TrieNode.CollisionFreeBytes` | libdevcore/MemoryDB.cpp:59-131 | the assumption used is the usual one: sha3 is injective on the byte strings that were stored |
| `TrieNode.StoredMore` | libdevcore/MemoryDB.cpp:86-102 | a stored trie stays stored whatever is inserted later |
| `TrieNode.DerefRef` | libdevcore/TrieDB.h:946-955 | following a child's reference, inlined below 32 bytes and by hash otherwise, gives the child's node |
| `TrieNode.RefBySize` | libdevcore/TrieDB.h:1124-1131 | a child stands in its parent exactly if its encoding has less than 32 bytes, and is else there by its hash; what the parent keeps has less than 32 bytes or exactly 33 |
| `TrieNode.AtIsGet` | libdevcore/TrieDB.h:795-830 | reading a path through the store gives what the trie binds, and nothing for other paths |
| `TrieInsert.CleveFollows` | libdevcore/TrieDB.h:1133-1152 | cleve on the stored node gives the stored node of the cut trie, the lower part in the store |
| `TrieInsert.BranchFollows` | libdevcore/TrieDB.h:1200-1232 | branch on the stored node gives the stored node of the branch with one use |
| `TrieInsert.PlaceFollows` | libdevcore/TrieDB.h:1081-1104 | place sets the value of a leaf or branch and changes nothing else |
| `TrieInsert.MergeAtFollows` | libdevcore/TrieDB.h:837-928 | mergeAt on the stored node of any trie gives the stored node of the trie with the binding, having written exactly the nodes it lists |
| `TrieInsert.InsGet` | libdevcore/TrieDB.h:837-928 | after an insertion the path is bound to the value and every other path as before |
| `TrieInsert.InsCanonical` | libdevcore/TrieDB.h:837-928 | insertion keeps a trie canonical: no extension above a two-item node, no branch with fewer than two uses |
| `TrieRemove.UniqueInUseMeans` | libdevcore/TrieCommon.cpp:116-128 | the answer is the only item in use if there is exactly one, and 255 otherwise |
| `TrieRemove.UniqueInUseLoop` | libdevcore/TrieCommon.cpp:116-128 | the loop that keeps the one used item computes that |
| `TrieRemove.GraftFollows` | libdevcore/TrieDB.h:1154-1179 | graft joins an extension with a two-item node below it, and leaves it above a branch |
| `TrieRemove.CollapseFollows` | libdevcore/TrieDB.h:1181-1198 | merge of a branch with one use left, followed by graft, gives the stored node of the collapsed trie |
| `TrieRemove.DeleteAtFollows` | libdevcore/TrieDB.h:957-1079 | deleteAt on the stored node of a canonical trie over keys of one length gives the stored node of the trie without the path, or reports that the path is not bound |
| `TrieRemove.DelGet` | libdevcore/TrieDB.h:957-1079 | removal unbinds the path and nothing else, and reports nothing exactly when the path was not bound |
| `TrieRemove.DelCanonical` | libdevcore/TrieDB.h:957-1079 | removal keeps a trie canonical and its paths as long as they were |
| `TrieRemove.InsKeysLen` | libdevcore/TrieDB.h:837-928 | insertion keeps all paths of one length |
| `TrieMap.SameMapSameTrie` | libdevcore/TrieDB.h:777-1232 | canonical tries that hold the same map are equal, so no history shows |
| `TrieMap.InsBinds` | libdevcore/TrieDB.h:777-793 | insertion updates the map |
| `TrieMap.DelBinds` | libdevcore/TrieDB.h:930-944 | removal removes the key from the map |
| `TrieDB.MemoryDB.Insert` | libdevcore/MemoryDB.cpp:86-102 | the store remembers the value under its hash, and its count grows |
| `TrieDB.MemoryDB.Kill` | libdevcore/MemoryDB.cpp:104-131 | the count falls, and every lookup answers as before |
| `TrieDB.MemoryDB.LookUp` | libdevcore/MemoryDB.cpp:59-73 | the value inserted last under the hash, or the empty string |
| `TrieDB.ReadAtIsMap` | libdevcore/TrieDB.h:795-830 | at() returns what the map binds, and the empty string for a key the map lacks |
| `TrieDB.EarlierRootAnswers` | libdevcore/TrieDB.h:795-830 | whatever is written later, an earlier root still answers as it did |
| `TrieDB.StepFollows` | libdevcore/TrieDB.h:777-793 | one insertion, or one removal among keys of one length, leads to a state that holds the canonical trie of the changed map |
| `TrieDB.RunTree` | libdevcore/TrieDB.h:777-944 | the tree a run of operations leads to is canonical |
| `TrieDB.RunFollows` | libdevcore/TrieDB.h:777-944 | every run of insertions and removals ends without error in a state that holds the canonical trie of the run's map |
| `TrieDB.RootForgetsHistory` | libdevcore/TrieDB.h:777-944 | two runs, of any keys and any order, with the same resulting map end with the same root hash |
| `TrieDB.RunRootIsDefined` | libdevcore/TrieDB.h:1124-1131 | the root after any run is the hash of the node that Appendix D of the Yellow Paper defines for the run's map, told of the map alone |
| `TrieDB.EmptyRoot` | libdevcore/TrieDB.h:75 | the root of the empty trie is the hash of the byte 0x80 |
| `TrieDB.GenericTrieDB.At` | libdevcore/TrieDB.h:795-798 | reads the map |
| `TrieDB.GenericTrieDB.Insert` | libdevcore/TrieDB.h:777-793 | never fails, and the contents become the updated map; nothing is lost from the store |
| `TrieDB.GenericTrieDB.Remove` | libdevcore/TrieDB.h:930-944 | never fails, also for an absent key, and the contents lose the key |
| `TrieDB.GenericTrieDB.RootNodeIsOneShot` | libdevcore/TrieHash.cpp:94-110 | the incremental trie's root node is byte for byte what rlp256 writes for the same map, and the root is its hash |
| `TrieHash.SharedPrefix` | libdevcore/TrieHash.cpp:41-54 | the loop finds how far all entries of the range agree, and that they agree no further |
| `TrieHash.Hash256Aux` | libdevcore/TrieHash.cpp:81-92 | the node of a range goes in raw below 32 bytes and by hash otherwise |
| `TrieHash.Hash256Rlp` | libdevcore/TrieHash.cpp:27-79 | the stream holds the node of the canonical trie of the range, for every sorted range |
| `TrieHash.Hash256Leaf` | libdevcore/TrieHash.cpp:32-37 | one entry gives a leaf |
| `TrieHash.Hash256Ext` | libdevcore/TrieHash.cpp:55-60 | entries that go on alike give an extension |
| `TrieHash.Hash256Branch` | libdevcore/TrieHash.cpp:61-78 | other ranges give a branch, an entry that ends here its value |
| `TrieHash.Hash256Children` | libdevcore/TrieHash.cpp:66-74 | the loop over the nibbles writes the 16 children |
| `TrieHash.BranchUses` | libdevcore/TrieHash.cpp:61-78 | such a branch has at least two uses, so the one-shot trie is canonical as well |
| `TrieHash.AsNibbles` | libdevcore/CommonData.cpp:123-133 | a key's nibbles are those of its bytes, high half first |
| `TrieHash.InsertSorted` | libdevcore/TrieHash.cpp:98-102 | the sorted map stays sorted and gains the entry |
| `TrieHash.Rlp256` | libdevcore/TrieHash.cpp:94-105 | rlp256 writes, byte for byte, the root node of any canonical trie with the same bindings, however it came about, which is the one Appendix D defines for the map |
| `TrieDefinition.NodeIsStructural` | libdevcore/TrieHash.cpp:27-92 | every canonical trie's node is what Appendix D defines: a leaf for one path, an extension by the longest common beginning, a branch otherwise, nodes from 32 bytes on by hash |
| `TrieDefinition.RefIsComposed` | libdevcore/TrieHash.cpp:81-92 | and what a parent keeps of it |
| `TrieDefinition.RootIsDefined` | libdevcore/TrieHash.cpp:94-106 | so the root node of a canonical trie over a map is the one defined for the map |
| `TrieWalk.EntryBinds` | libdevcore/TrieDB.h:505-765 | every entry of the visiting order is a binding of the trie |
| `TrieWalk.BindingListed` | libdevcore/TrieDB.h:505-765 | every binding is an entry |
| `TrieWalk.EntriesAscend` | libdevcore/TrieDB.h:505-765 | the entries come in strictly ascending lexicographic order |
| `TrieWalk.SeekSkips` | libdevcore/TrieDB.h:638-664 | passing over empty slots, the value first and then the children, loses no entry |
| `TrieWalk.PairSides` | libdevcore/TrieDB.h:578-589 | what the comparisons of the searched key with a node's path decide: all entries below come before the key, none does, or the search goes on |
| `TrieWalk.ForkOrder` | libdevcore/TrieCommon.h:69-85 | where a key does not go through a path, everything below the path lies on the same side of the key |
| `TrieWalk.SkipKey` | libdevcore/TrieDB.h:638-664 | the key is given up only where the slot it leads to is empty, and that loses no entry |
| `TrieWalk.TurnPasses` | libdevcore/TrieDB.h:530-666 | every turn of the loop passes over entries below the key only, and gets closer to the end or finds an entry |
| `TrieIterator.IsEarlierThan` | libdevcore/TrieCommon.h:69-85 | the counter loop decides the order of a key and a path the key does not go through |
| `TrieIterator.SeekChild` | libdevcore/TrieDB.h:638-664 | the loop over the slots finds the first one in use |
| `TrieIterator.TurnFrames` | libdevcore/TrieDB.h:530-666 | one turn on nodes, keys and child numbers does what the abstract turn does, read back from the store |
| `TrieIterator.Iterator.Search` | libdevcore/TrieDB.h:530-666 | terminates, at the first entry not below the key, or at the end |
| `TrieIterator.Iterator.Begin` | libdevcore/TrieDB.h:505-510 | all entries are still to come |
| `TrieIterator.Iterator.LowerBound` | libdevcore/TrieDB.h:512-517 | exactly the entries not below the key are still to come |
| `TrieIterator.Iterator.Next` | libdevcore/TrieDB.h:668-765 | the current entry is left behind, and nothing else |
| `TrieIterator.Iterator.At` | libdevcore/TrieDB.h:519-528 | the current entry's key and value |
| `TrieIterator.EntriesAreContents` | libdevcore/TrieDB.h:505-765 | the entries are exactly the pairs of the trie's map |
| `TrieIterator.AboveKeeps` | libdevcore/TrieDB.h:512-517 | what lower_bound leaves out is exactly what lies below the key |
| `TrieIterator.KeyOrder` | libdevcore/TrieDB.h:505-765 | the order of paths is the lexicographic order of byte keys |
| `TrieIterator.KeyLessMeans` | libdevcore/TrieCommon.h:74-86 | of two keys that one is smaller that ends or has the smaller byte where they part |
| `TrieIterator.ListAll` | libdevcore/TrieDB.h:505-765 | iterating from begin() to end() shows the pairs of the map, each once, in key order |
| `TrieIterator.ListFrom` | libdevcore/TrieDB.h:158 | iterating from lower_bound() to end() shows the pairs whose keys are not below the given one, each once, in key order |
| `VmCode.ReachesApart` | libaleth-interpreter/VMOpt.cpp:51-78 | instructions do not overlap |
| `VmCode.OneBefore` | libaleth-interpreter/VMOpt.cpp:83-151 | only one instruction ends where a given one starts |
| `VmCode.PoolGrows` | libaleth-interpreter/VMOpt.cpp:103-116 | the constants of a part of the code come first among those of more code |
| `VmCode.InPool` | libaleth-interpreter/VMOpt.cpp:103-116 | a long push finds its constant at its own index |
| `VmOptimizer.BinarySearch` | libaleth-interpreter/VMCalls.cpp:79-93 | finds a number in the sorted table exactly when it is there |
| `VmOptimizer.AfterThis` | libaleth-interpreter/VMOpt.cpp:120-146 | what follows an instruction becomes a constant jump exactly when the instruction pushes a destination that is in the table |
| `VmOptimizer.VM.CopyCode` | libaleth-interpreter/VMOpt.cpp:31-40 | the code with 33 zero bytes behind it |
| `VmOptimizer.VM.VerifyJumpDest` | libaleth-interpreter/VMCalls.cpp:79-93 | accepts a number exactly when it is a JUMPDEST at the start of an instruction, 63-bit check included |
| `VmOptimizer.VM.BuildTable` | libaleth-interpreter/VMOpt.cpp:50-78 | the table is sorted and holds exactly the JUMPDEST bytes at instruction starts; the optimizer's own operations are gone from user code |
| `VmOptimizer.VM.Decode` | libaleth-interpreter/VMOpt.cpp:92-96 | the shifting loop computes the value of the push data |
| `VmOptimizer.VM.Stash` | libaleth-interpreter/VMOpt.cpp:98-118 | the value joins the pool and its offset modulo 65536 the code |
| `VmOptimizer.VM.ConstJump` | libaleth-interpreter/VMOpt.cpp:120-146 | a jump after a push becomes its verified form exactly if the pushed destination verifies |
| `VmOptimizer.VM.Turn` | libaleth-interpreter/VMOpt.cpp:83-151 | one turn settles one instruction for good |
| `VmOptimizer.VM.Rewrite` | libaleth-interpreter/VMOpt.cpp:80-151 | the in-place loop turns every instruction into what the specification of the rewritten code says |
| `VmOptimizer.VM.Optimize` | libaleth-interpreter/VMOpt.cpp:42-154 | code, table and pool are exactly the rewritten program |
| `VmLockstep.StepAgrees` | libaleth-interpreter/VM.cpp:1175-1297 | from a reachable state one instruction has the same outcome in both codes; for a long push that runs, exactly when its offset leads to its own constant |
| `VmLockstep.StaysReachable` | libaleth-interpreter/VM.cpp:1196-1268 | every step leads to an instruction boundary below the end of the extended code, with a stack of at most 1024, and to a constant jump only with its destination on top |
| `VmLockstep.InitialReachable` | libaleth-interpreter/VM.cpp:239-257 | the entry state is such a state |
| `VmLockstep.SmallPoolFits` | libaleth-interpreter/VMOpt.cpp:103-116 | offsets fit if no more than 65536 constants are pooled |
| `VmLockstep.Lockstep` | libaleth-interpreter/VM.cpp:1175-1297 | after any number of steps the rewritten code is in the same state, or has ended in the same way, as the user's code; all states on the way are reachable, so no read leaves the code |
| `VmLockstep.PartsWhereOffsetWraps` | libaleth-interpreter/VMOpt.cpp:103-116 | in one step, a long push parts the two if and only if its 16-bit offset leads to another constant, which takes an index of 65536 or more |
| `VmLockstep.AgreeExactly` | libaleth-interpreter/VMOpt.cpp:103-116 | over any number of steps, the two runs agree at every step if and only if every long push the user's run executes finds its own constant |
| `VmLockstep.PoolFitsRuns` | libaleth-interpreter/VMOpt.cpp:103-116 | where all constants' offsets fit, every long push of every run finds its own |
| `VmLongPool.Parts` | libaleth-interpreter/VMOpt.cpp:103-116 | a program of 65537 constants that, run from its start, has pushed 1 in the user's code and 0 in the rewritten code |
| `VmLongPool.PlainScheduleFits` | libaleth-interpreter/VM.cpp:1428-1436 | there are tables and operations as that run assumes them |
| `VmLongPool.LastPush` | libaleth-interpreter/VMOpt.cpp:103-116 | its last constant has index 65536, and another constant stands at index 0 |
| `VmLockstep.StepCharges` | libaleth-interpreter/VM.cpp:182-187 | every instruction that goes on lowers the gas |
| `VmLockstep.MeteredCharges` | libaleth-interpreter/VM.cpp:182-204 | operations that are charged for as the metering says all cost gas, so that every run ends |
| `VmLockstep.Interpreter.UpdateIOGas` | libaleth-interpreter/VM.cpp:182-187 | out of gas exactly if the charge exceeds what is left, which then stays |
| `VmLockstep.Interpreter.PushConstant` | libaleth-interpreter/VM.cpp:1175-1193 | the pooled constant is pushed and its data bytes are skipped |
| `VmLockstep.Interpreter.PushNumber` | libaleth-interpreter/VM.cpp:1196-1249 | the bytes that follow are pushed as one number and skipped |
| `VmLockstep.Interpreter.Jump` | libaleth-interpreter/VM.cpp:1251-1297 | all four jumps, checked and unchecked |
| `VmLockstep.Interpreter.Step` | libaleth-interpreter/VM.cpp:215-225 | fetch, stack check and the operation's case do what one step of the specification says |
| `VmLockstep.Interpreter.Exec` | libaleth-interpreter/VM.cpp:239-257 | optimizes and runs to the end, which gas guarantees; where every long push executed on the way finds its own constant, the end is the one of the user's unrewritten code |
| `VmMeaning.StartOrData` | libaleth-interpreter/VMOpt.cpp:43-76 | a byte is an instruction exactly if it is no data of a push |
| `VmMeaning.StackBounds` | libaleth-interpreter/VM.cpp:162-172 | pushes, jumps and STOP underflow exactly if the stack has fewer items than they take, and overflow exactly if it would have more than 1024 |
| `VmMeaning.Pushes` | libaleth-interpreter/VM.cpp:1196-1249 | a push pushes the bytes that follow, zeros beyond the code, as one number, and goes on behind them |
| `VmMeaning.Jumps` | libaleth-interpreter/VM.cpp:1251-1257 | a jump goes to a JUMPDEST byte that is an instruction below 2^63, or is bad |
| `VmMeaning.JumpsIf` | libaleth-interpreter/VM.cpp:1259-1268 | and with a condition only if that is not zero |
| `VmMeaning.Stops` | libaleth-interpreter/VM.cpp:374-379 | STOP stops |
| `VmMeaning.Others` | libaleth-interpreter/VM.cpp:215-225 | any other operation does its effect within the stack bounds of its table entry |
| `VmMeaning.Rewritten` | libaleth-interpreter/VMOpt.cpp:84-160 | the rewritten bytes: pushes of more than 5 bytes become the constant's offset and the bytes to skip, jumps after a push of their destination the unchecked form, all else stays |
| `VmMeaning.PoolIsBig` | libaleth-interpreter/VMOpt.cpp:103-116 | the pool holds the numbers of exactly those pushes, in order |
| `VmMeaning.PushRun` | libaleth-interpreter/VM.cpp:1196-1249 | a code of up to 1024 pushes, given gas, leaves all its numbers on the stack |
| `VmMeaning.PushTooMany` | libaleth-interpreter/VM.cpp:162-172 | and one of more runs out of stack at the 1025th |
| `VmMeaning.PushesStop` | libaleth-interpreter/VM.cpp:239-257 | otherwise the run stops behind the last push |
| `VmGas.MemGasBig` | libaleth-interpreter/VM.cpp:174-180 | memory of 2^37 words costs more than 63 bits can hold |
| `VmGas.SpendLowers` | libaleth-interpreter/VMCalls.cpp:100-290 | every instruction that goes on strictly lowers the gas, calls with stipend and failed calls included, and gas plus the worth of the memory too |
| `VmGas.RunEnds` | libaleth-interpreter/VM.cpp:182-204 | no run is longer than the gas it starts with |
| `VmGas.RunPaysMemory` | libaleth-interpreter/VM.cpp:174-204 | the memory charges of a run add up to the charge for its final memory at once |
| `VmGas.RunKeepsWorth` | libaleth-interpreter/VM.cpp:174-204 | gas and the worth of the memory never exceed what there was at the start |
| `VmGas.TooFar` | libaleth-interpreter/VM.cpp:198-204 | a reach beyond 63 bits costs more than any gas there may be |
| `VmGas.BigOperands` | libaleth-interpreter/VM.h:148-154 | where a 63-bit check fails, unbounded numbers run out of gas as well |
| `VmGas.CreateRoom` | libaleth-interpreter/VMCalls.cpp:111-118 | the hashing charge of CREATE2 cannot wrap the 64-bit sum |
| `VmGas.Meter.UpdateGas` | libaleth-interpreter/VM.cpp:189-196 | adds memory and copying to the register without wrapping, or is out of gas |
| `VmGas.Meter.UpdateMem` | libaleth-interpreter/VM.cpp:198-204 | memory grows to whole words and is paid for |
| `VmGas.Meter.CallCreate` | libaleth-interpreter/VMCalls.cpp:125-159 | gas sent and returned, all but one 64th |
| `VmGas.Meter.CallContract` | libaleth-interpreter/VMCalls.cpp:162-290 | gas sent, stipend and gas returned; the gas of the message, a signed 64-bit number, never overflows |
| `VmGas.Meter.Operands` | libaleth-interpreter/VM.cpp:374-560 | the checks of an instruction's operands come out as on unbounded numbers |
| `VmGas.Meter.Execute` | libaleth-interpreter/VM.cpp:374-560 | the 64-bit registers and 63-bit checks charge exactly what unbounded numbers would, and report out of gas exactly when those do |
| `VmPrices.MemoryIsLeast` | libaleth-interpreter/VM.cpp:198-204 | after an instruction memory has every byte the instruction touches, and is the least number of words, not less than before, that does |
| `VmPrices.SpendIs` | libaleth-interpreter/VM.cpp:174-204 | an instruction goes on exactly if the gas pays its price in the numbers of the Yellow Paper and 3 w + w^2 / 512 for the memory it adds, and leaves exactly what is left, with a 64th held back from calls |
| `VmPrices.CallsOut` | libaleth-interpreter/VMCalls.cpp:125-290 | what comes back from contracts created or called |
| `BlockQueue.KeptInOrder` | libethereum/BlockQueue.cpp:91-173 | what passed, followed by what waits, is what was kept in the order it came |
| `BlockQueue.GoodKeepsOrder` | libethereum/BlockQueue.cpp:91-173 | in every reachable state the blocks that entered m_verified, and then all that wait, are those that entered m_unverified, in that order, but for those that threw or had a bad parent |
| `BlockQueue.SplitUnique` | libethereum/BlockQueue.h:185-189 | taking the blocks of one parent out of the map loses none and doubles none |
| `BlockQueue.SplitAppend` | libethereum/BlockQueue.h:185-189 | and keeps the order they came in |
| `BlockQueue.AwakeOrAsleep` | libethereum/BlockQueue.cpp:472-494 | each waiting block either joins the line or goes on waiting |
| `BlockQueue.NoneLeftBehind` | libethereum/BlockQueue.cpp:472-494 | none goes on waiting for the new block, or for a block that joined with it |
| `BlockQueue.WokenByParent` | libethereum/BlockQueue.cpp:472-494 | none joins before its parent |
| `BlockQueue.RejectedGood` | libethereum/BlockQueue.cpp:116-127 | a block that threw leaves all invariants of the queue intact |
| `BlockQueue.AcceptedGood` | libethereum/BlockQueue.cpp:134-172 | so does a block that passes, or is found to have a bad parent |
| `BlockQueue.JoinedGood` | libethereum/BlockQueue.cpp:175-265 | so does a new block at the end |
| `BlockQueue.TakenGood` | libethereum/BlockQueue.cpp:433-458 | so does a batch that is handed over |
| `BlockQueue.RemoveSlot` | libethereum/BlockQueue.h:110-122 | remove by hash takes out exactly the slot of the work |
| `BlockQueue.Released` | libethereum/BlockQueue.cpp:160-173 | what drainVerified releases: all before the first unfinished block, each of which passes or has a bad parent and is bad then |
| `BlockQueue.BlockQueue.Start` | libethereum/BlockQueue.cpp:95-108 | the first unverified block moves to the end of m_verifying as an unfinished mark |
| `BlockQueue.BlockQueue.Release` | libethereum/BlockQueue.cpp:136-144 | a finished block at the front passes, or is bad if its parent is |
| `BlockQueue.BlockQueue.DrainVerified` | libethereum/BlockQueue.cpp:160-173 | exactly what is finished at the front is released, unchanged and in order: to m_verified, or to the known bad where the parent is bad |
| `BlockQueue.BlockQueue.Failed` | libethereum/BlockQueue.cpp:116-127 | the block is known bad and loses its place, and exactly what it held up is released |
| `BlockQueue.BlockQueue.Replace` | libethereum/BlockQueue.h:124-136 | the finished block takes the place of its mark |
| `BlockQueue.BlockQueue.Succeeded` | libethereum/BlockQueue.cpp:130-156 | whichever verifier finishes, in any order, the line keeps its order: the first is released with all that only waited for it, and any other takes its finished block to its slot |
| `BlockQueue.BlockQueue.NoteReady` | libethereum/BlockQueue.cpp:472-494 | the loop over the growing list of parents moves exactly the blocks that waited for this parent, directly or through others, to the end of the line |
| `BlockQueue.BlockQueue.Import` | libethereum/BlockQueue.cpp:175-265 | the checks in order, and what becomes of the block: refused, waiting for its parent, or at the end of the line |
| `BlockQueue.BlockQueue.Drain` | libethereum/BlockQueue.cpp:433-458 | the first verified blocks are handed over, unless some are being imported; each one's parent is in the chain or earlier in the batch |
| `BlockQueue.BlockQueue.DoneDrain` | libethereum/BlockQueue.cpp:333-348 | after a good import the invariants hold with the blocks in the chain |
| `BlockQueue.BlockQueue.ChainGrows` | libethereum/BlockQueue.cpp:333-348 | blocks that get into the chain keep the invariants |
| `BlockQueueRuns.Run` | libethereum/BlockQueue.cpp:91-458 | after any interleaving of verifiers, imports and drains: the blocks handed over, and then those in line, are those that entered m_unverified, in that order, but for those that threw or had a bad parent; parents are handed over before children, and no block twice |
| `BlockQueueRuns.Take` | libethereum/BlockQueue.cpp:91-458 | one turn of any thread keeps all that |
| `BlockQueueRuns.NotFirst` | libethereum/BlockQueue.cpp:95-108 | the block a verifier takes is none of those in flight |
| `BlockQueueRuns.BatchReady` | libethereum/BlockQueue.cpp:433-458 | what is handed over was ready, none of it twice |
| `BloomIndex.ChunkIdInjective` | libethereum/BlockChain.h:327 | although the id wraps around, no two chunks of the two levels share one |
| `BloomIndex.AddedCollates` | libethereum/BlockChain.cpp:846-853 | adding a bloom keeps every upper slot the OR of its sixteen lower slots |
| `BloomIndex.SlotsStand` | libethereum/BlockChain.h:320-327 | under which id, and where in the chunk, the two slots of a block number stand |
| `BloomIndex.RebuildStep` | libethereum/BlockChain.cpp:979-1019 | rebuilding an upper slot from the lower ones restores this |
| `BloomIndex.Blooms.Add` | libethereum/BlockChain.cpp:842-853 | the lower slot of the number and the upper slot above gain the bloom, and no other slot changes |
| `BloomIndex.Blooms.Clear` | libethereum/BlockChain.cpp:979-1019 | the lower slots of the range are emptied, all other lower slots stay, and the upper slots are collated again |
| `BloomIndex.ContainedAbove` | libethereum/BlockChain.cpp:1299-1337 | a lower slot that contains a bloom has it in the upper slot above, so the search cannot miss it |
| `BloomIndex.WithInLow` | libethereum/BlockChain.cpp:1299-1337 | the search of one lower chunk |
| `BloomIndex.WithInHigh` | libethereum/BlockChain.cpp:1299-1337 | the search of one upper chunk finds what its lower chunks hold, in order |
| `BloomIndex.With` | libethereum/BlockChain.cpp:1285-1297 | exactly which numbers the search finds, in ascending order: those from the first on with the query in their slot, as far as the upper chunk that the rounded up last number names |
| `BloomIndex.SearchFinds` | libethereum/BlockChain.cpp:1285-1297 | so a number in the range whose slot contains the query is found if and only if rounding up the last number does not wrap 2^32 or the number is below 256 |
| `BloomIndex.SearchEnds` | libethereum/BlockChain.cpp:1285-1297 | what is found above the last number lies in the next upper chunk |
| `BloomIndex.MissesBlock256` | libethereum/BlockChain.cpp:1285-1297 | an index whose only bloom stands at 256: a search up to 2^32 - 1 finds nothing |
| `BlockChain.LineTo` | libethereum/BlockChain.cpp:1092-1143 | the line of an ancestor is the beginning of a block's line |
| `BlockChain.MeetOnce` | libethereum/BlockChain.cpp:1092-1143 | two lines that agree at a height agree below it |
| `BlockChain.TreeRoute` | libethereum/BlockChain.cpp:1092-1143 | the route runs down from one block to the lowest common ancestor, which it names, and up to the other; the index is the ancestor's if and only if that is not the target |
| `BlockChain.Descend` | libethereum/BlockChain.cpp:1096-1118 | the walk down to a height |
| `BlockChain.Meet` | libethereum/BlockChain.cpp:1118-1134 | the walk down on both sides ends at the highest block on both lines |
| `BlockChain.DeadAndAlive` | libethereum/BlockChain.cpp:966-976 | the loop that splits the route gives old-chain-minus-new and new-chain-minus-old |
| `BlockChain.MaximalAfter` | libethereum/BlockChain.cpp:808-815 | an import leaves the head maximal in total difficulty, then gas used, among all blocks there are |
| `BlockChain.RewoundGood` | libethereum/BlockChain.cpp:1071-1090 | after a rewind the number index and the blooms follow the line to the lower head |
| `BlockChain.InsertedGood` | libethereum/BlockChain.cpp:766-977 | after an import they follow the line to the head, whether or not that is the new block |
| `BlockChain.BlockChain.NumberHash` | libethereum/BlockChain.h:189 | up to the head, the ancestor of the head with this number |
| `BlockChain.BlockChain.WithBlockBloom` | libethereum/BlockChain.cpp:1285-1337 | through all imports, reorganisations and rewinds: a canonical block in the range but block 0 whose bloom contains the query is found, ascending and once, if and only if the last number is at most 2^32 - 256 or the block's number is below 256; block 0 is found for an empty query only; what is found above the last number is in the next 256-block chunk |
| `BlockChain.BlockChain.Rewind` | libethereum/BlockChain.cpp:1071-1090 | the head becomes the ancestor at the height, the blooms above it are gone |
| `BlockChain.BlockChain.EnterRoute` | libethereum/BlockChain.cpp:826-871 | the loop back to the common ancestor indexes exactly the new blocks |
| `BlockChain.BlockChain.EnterBlock` | libethereum/BlockChain.cpp:836-870 | a block's bloom and hash are indexed under its number |
| `BlockChain.BlockChain.ClearReverted` | libethereum/BlockChain.cpp:822-824 | the reverted blocks' blooms are cleared, if anything is reverted |
| `BlockChain.BlockChain.Reorganise` | libethereum/BlockChain.cpp:816-871 | the indices follow the line to the new head across any fork |
| `BlockChain.BlockChain.ChooseHead` | libethereum/BlockChain.cpp:808-885 | the new block becomes head exactly if it is better |
| `BlockChain.BlockChain.Insert` | libethereum/BlockChain.cpp:766-977 | of a new block, or one above the head that was there before a rewind: the head stays maximal, the number index holds exactly its ancestors, blooms are found for exactly the canonical blocks, dead and fresh are what left and what joined the canonical chain, and nothing stored of any block changes |
| `BlockChain.BlockChain.Import` | libethereum/BlockChain.cpp:649-735 | what is refused and why, and that nothing changes then: a block that is known, unless it is above a head that was set back; a block without known parent; and one that fails verification; the head changes exactly if the total difficulty is greater, or with tie-breaking the same and more gas was used |
| `BlockChain.EntryStays` | libethereum/BlockChain.cpp:1355-1377 | what a block that comes again would enter is what is there |
| `BlockChain.TotalIsSum` | libethereum/BlockChain.cpp:649-735 | a total difficulty is the sum of the difficulties on the line |
| `BlockChainRuns.Run` | libethereum/BlockChain.cpp:649-1090 | in every run of imports, repeated ones included, and rewinds: number index and blooms follow the line to the head, whose total difficulty is the sum of the difficulties on it; no block imported since the last rewind has a greater total difficulty than the head, or with tie-breaking the same and more gas used, nor has any block where there was no rewind |
| `BlockChainRuns.Take` | libethereum/BlockChain.cpp:649-1090 | one import or rewind keeps all that |
| `BlockChainRuns.StillNotAbove` | libethereum/BlockChain.cpp:808-815 | a block that is not better than the head is not better than a later one |
| `RangeMask.OneRepresentation` | libdevcore/RangeMask.h:228-233 | sorted, non-empty, disjoint and non-adjacent ranges of equal sets are equal |
| `RangeMask.HasMeans` | libdevcore/RangeMask.h:130-136 | a range has its begin, but not its end |
| `RangeMask.HullMeans` | libdevcore/RangeMask.h:103-106 | the ground of a union begins and ends with one of the two |
| `RangeMask.TurnJoins` | libdevcore/RangeMask.h:235-291 | each case of the loop of unionWith adds the part of the range it passes over, and nothing else |
| `RangeMask.RangeMask.UnionWithRange` | libdevcore/RangeMask.h:235-291 | set union with a range, and the loop ends |
| `RangeMask.RangeMask.UnionTurn` | libdevcore/RangeMask.h:235-291 | every turn goes forward |
| `RangeMask.RangeMask.UnionWith` | libdevcore/RangeMask.h:103-110 | set union with a mask, on the joined grounds; a mask joined with itself stays |
| `RangeMask.RangeMask.Inverted` | libdevcore/RangeMask.h:81-94 | the complement in the ground |
| `RangeMask.RangeMask.Invert` | libdevcore/RangeMask.h:98 | the mask becomes its complement |
| `RangeMask.InvertedTwice` | libdevcore/RangeMask.h:81-98 | inverting twice gives the same mask, representation included |
| `RangeMask.RangeMask.Minus` | libdevcore/RangeMask.h:101 | set difference if and only if all that the ground gains is in the argument; the exact result otherwise, and of a mask taken from itself |
| `RangeMask.MinusGains` | libdevcore/RangeMask.h:101 | taking the empty mask of [0, 3) from the mask {0} of [0, 2) leaves {0, 2} |
| `RangeMask.RangeMask.Contains` | libdevcore/RangeMask.h:130-136 | membership |
| `RangeMask.ListHas` | libdevcore/RangeMask.h:193-201 | the list of elements holds exactly the members |
| `RangeMask.ListAscends` | libdevcore/RangeMask.h:193-201 | it is strictly ascending |
| `RangeMask.RangeMask.Size` | libdevcore/RangeMask.h:203-209 | the number of elements |
| `RangeMask.LowestExactly` | libdevcore/RangeMask.h:70-76 | lowest gives the smallest elements, as many as asked for or there are, if and only if the number asked for exceeds the number there are by too little to wrap 2^32 counted from the end of the last range |
| `RangeMask.LowestWraps` | libdevcore/RangeMask.h:70-76 | asked for 2^32-1 elements, the mask of one element gives none |
| `RangeMask.LowestGood` | libdevcore/RangeMask.h:70-76 | where nothing wraps the result is a well-formed mask |
| `RangeMask.RangeMask.LowestRanges` | libdevcore/RangeMask.h:70-76 | the loop computes that |
| `RangeMask.RangeMask.Next` | libdevcore/RangeMask.h:191-201 | the smallest member above, or the ground's end; from 2^32-1 it starts over |
| `RangeMask.NextInList` | libdevcore/RangeMask.h:191-201 | from one element on, the one that follows it |
| `RangeMask.RangeMask.Iterate` | libdevcore/RangeMask.h:166-201 | begin() to end() shows each element once, in order |
| `Chunks.HeadAfterGap` | libethereum/BlockChainSync.cpp:493-499 | where a number is missing and the next is there, the next is the head of a chunk, so at() finds it |
| `Chunks.OneRepresentation` | libethereum/BlockChainSync.cpp:58-157 | non-empty, disjoint and maximal chunks of equal maps are equal |
| `Chunks.GetMeans` | libethereum/BlockChainSync.cpp:58-84 | a number has the item that stands for it in the chunk it lies in |
| `Chunks.BoundHolds` | libethereum/BlockChainSync.cpp:58-69 | a number is there if and only if its chunk starts there or the chunk before the lower bound reaches it |
| `Chunks.RemovedGet` | libethereum/BlockChainSync.cpp:86-101 | removeItem drops the unbroken run that starts at the number and keeps all else |
| `Chunks.BelowGet` | libethereum/BlockChainSync.cpp:103-122 | removeAllStartingWith keeps exactly what lies below |
| `Chunks.MergedGet` | libethereum/BlockChainSync.cpp:124-157 | mergeInto binds one number and changes no other |
| `Chunks.MergedGood` | libethereum/BlockChainSync.cpp:124-157 | chunks that now touch are joined, so they stay maximal |
| `Chunks.ChunkMap.HaveItem` | libethereum/BlockChainSync.cpp:58-69 | whether the number is there |
| `Chunks.ChunkMap.FindItem` | libethereum/BlockChainSync.cpp:71-84 | the item of a number, or none |
| `Chunks.ChunkMap.RemoveItem` | libethereum/BlockChainSync.cpp:86-101 | the edit in place does that |
| `Chunks.ChunkMap.RemoveAllStartingWith` | libethereum/BlockChainSync.cpp:103-122 | the edit in place does that |
| `Chunks.ChunkMap.MergeInto` | libethereum/BlockChainSync.cpp:124-157 | asserts exactly if the number is there; otherwise the edit in place does that |
| `Chunks.ChunkMap.Extend` | libethereum/BlockChainSync.cpp:130-144 | a chunk grows at its end, up to and with the next |
| `Chunks.ChunkMap.Insert` | libethereum/BlockChainSync.cpp:146-156 | a new chunk is joined with the next |
| `Chunks.ChunkMap.At` | libethereum/BlockChainSync.cpp:499 | does not throw where a chunk starts at the number |
| `Chunks.ChunkMap.DropFirst` | libethereum/BlockChainSync.cpp:647-659 | the first items go, and the rest of their chunk is kept under its new head |
| `BlockSync.PlacedLinked` | libethereum/BlockChainSync.cpp:481-513 | a header that passes the checks keeps all headers linked parent to child |
| `BlockSync.UncheckedLinked` | libethereum/BlockChainSync.cpp:481-513 | without a common header they stay linked if and only if the new header fits both neighbours |
| `BlockSync.DroppedCovered` | libethereum/BlockChainSync.cpp:703-704 | after removeItem on both maps each body has its header if and only if no body is missing before one whose header goes |
| `BlockSync.FailsExactly` | libethereum/BlockChainSync.cpp:447-526 | the assertion of mergeInto, or that of collectBlocks, fails at an event if and only if the state before meets a condition: a header is added whose empty body is there and stays, or all headers are collected but not all bodies |
| `BlockSync.CoveredNeverFails` | libethereum/BlockChainSync.cpp:447-664 | while every body has its header neither assertion fails |
| `BlockSync.StepKeeps` | libethereum/BlockChainSync.cpp:447-786 | every event keeps both maps well-formed and, where a common header is known, all headers linked; and every body its header, but for an import, where this is so if and only if the import is safe |
| `BlockSync.ImportKeeps` | libethereum/BlockChainSync.cpp:690-713 | after the import of a block each body still has its header if and only if no header was outside the run that goes, or each body in the headers' run was in the bodies' |
| `BlockSync.CollectKeeps` | libethereum/BlockChainSync.cpp:580-666 | whatever the queue answers, collecting keeps bodies with headers and headers linked |
| `BlockSync.OfferDone` | libethereum/BlockChainSync.cpp:594-638 | all blocks are offered if and only if the queue objects to none |
| `BlockSync.OfferMeans` | libethereum/BlockChainSync.cpp:594-638 | how many blocks are offered, why the loop ends, and that the last imported block is the last that the queue took above the old one |
| `BlockSync.RunFails` | libethereum/BlockChainSync.cpp:447-786 | a run of any events fails an assertion if and only if it comes to a state that meets the condition for the next event; until then both maps are well-formed |
| `BlockSync.SafeRun` | libethereum/BlockChainSync.cpp:447-786 | a run of any events in which every import is safe fails no assertion, and ends with every body at its header |
| `BlockSync.BlockChainSync.constructor` | libethereum/BlockChainSync.cpp:161-166 | nothing is known but the head |
| `BlockSync.BlockChainSync.OnHeader` | libethereum/BlockChainSync.cpp:447-526 | the handler does the step of the specification, at() does not throw, and mergeInto asserts exactly under the condition, in every state |
| `BlockSync.BlockChainSync.Consider` | libethereum/BlockChainSync.cpp:478-526 | a mismatch with the header before, or with the last imported block, restarts; otherwise the header is placed, and what it disowns dropped |
| `BlockSync.BlockChainSync.CheckNext` | libethereum/BlockChainSync.cpp:493-510 | a next header with another parent is dropped with all that follows, in both maps |
| `BlockSync.BlockChainSync.AddHeader` | libethereum/BlockChainSync.cpp:513-523 | the header goes in, with an empty body if that is its body, which asserts exactly if a body is there |
| `BlockSync.BlockChainSync.RestartSync` | libethereum/BlockChainSync.cpp:776-786 | both maps are empty, the common header is forgotten |
| `BlockSync.BlockChainSync.ResetSync` | libethereum/BlockChainSync.cpp:763-774 | both maps are empty, all else stays |
| `BlockSync.BlockChainSync.OnBlockImported` | libethereum/BlockChainSync.cpp:184-195 | a higher block of another source counts as the last imported one |
| `BlockSync.BlockChainSync.OnBody` | libethereum/BlockChainSync.cpp:561-574 | a body goes in only once and only next to its header, so its mergeInto never asserts |
| `BlockSync.BlockChainSync.OfferBlocks` | libethereum/BlockChainSync.cpp:594-638 | the loop over the blocks notes number and hash of the last that was taken above the old one, stops at a bad block and starts over at a fork |
| `BlockSync.BlockChainSync.CollectBlocks` | libethereum/BlockChainSync.cpp:580-666 | what was offered goes from both maps alike, and the assertion that no body is left without headers fails exactly under the condition |
| `BlockSync.BlockChainSync.OnImported` | libethereum/BlockChainSync.cpp:690-713 | the runs that start at the imported block go, and all bodies where no header is left |
| `BlockSync.BlockChainSync.RequestBlocks` | libethereum/BlockChainSync.cpp:315-329 | while no common header is known the last imported block goes back to before the first header |
| `SyncMeaning.PassedOver` | libethereum/BlockChainSync.cpp:449-463 | headers before the start, headers that are there, and after a common header those not above the last imported block change nothing |
| `SyncMeaning.CommonFound` | libethereum/BlockChainSync.cpp:467-476 | the header of a known block is the common header |
| `SyncMeaning.MisfitMeans` | libethereum/BlockChainSync.cpp:481-491 | a header does not fit exactly if the one before has another hash than its parent's, or if it follows the last imported block and that is not its parent |
| `SyncMeaning.NextFits` | libethereum/BlockChainSync.cpp:481-491 | the header after the last imported block, with its hash for the parent, fits unless another one stands before it |
| `SyncMeaning.MisfitRestarts` | libethereum/BlockChainSync.cpp:487-491 | a header that does not fit restarts all |
| `SyncMeaning.HeaderGoesIn` | libethereum/BlockChainSync.cpp:493-526 | any other header goes in, with an empty body if it has one; what follows goes exactly if the next header has another parent, and nothing else changes |
| `SyncMeaning.BodyGoesIn` | libethereum/BlockChainSync.cpp:561-574 | a body goes in exactly where its header is and no body |
| `SyncMeaning.ImportedGoes` | libethereum/BlockChainSync.cpp:690-713 | the runs from the imported block on go, and all bodies if no header is left |
| `SyncMeaning.ImportedLater` | libethereum/BlockChainSync.cpp:684-688 | a block beyond the next changes nothing |
| `SyncMeaning.CollectedGo` | libethereum/BlockChainSync.cpp:580-666 | as many headers and bodies go as both first chunks have, and the last imported block is the last that the queue took |
| `SyncMeaning.NotCollected` | libethereum/BlockChainSync.cpp:582-589 | nothing is collected unless both start after the last imported block |
| `SyncMeaning.RequestGoesBack` | libethereum/BlockChainSync.cpp:315-329 | the next request is for the block before the first header, or the last imported one if that is earlier |
| `SyncMeaning.MinedCounts` | libethereum/BlockChainSync.cpp:184-195 | a higher block of another source counts as the last imported one |
| `StrandedBodies.MergeFails` | libethereum/BlockChainSync.cpp:447-526 | a run of headers and the import of a block after which the next header makes the assertion of mergeInto fail |
| `StrandedBodies.CollectFails` | libethereum/BlockChainSync.cpp:580-666 | a run after which collecting makes the assertion that no body is left fail |
| `GasLimit.ChildIs` | libethashseal/Ethash.cpp:139-148 | below a sixth of 2^256 the rule gives what it gives on unbounded numbers |
| `GasLimit.ChildInNumbers` | libethashseal/Ethash.cpp:139-148 | the same in plain numbers |
| `GasLimit.AcceptsInNumbers` | libethashseal/Ethash.cpp:95-107 | a limit is accepted within the absolute bounds and strictly less than a share from the parent's |
| `GasLimit.InWindow` | libethashseal/Ethash.cpp:95-107 | the child's limit is strictly inside the window if and only if the parent's limit is at least the divisor and, at or above the target, the use does not lift it to the window's end |
| `GasLimit.AtLeast` | libethashseal/Ethash.cpp:95-107 | nor is it below the least limit |
| `GasLimit.ChildAccepted` | libethashseal/Ethash.cpp:95-148 | with a least limit of three divisors and a target not below it, verify accepts the child's limit unless it exceeds the greatest limit |
| `GasLimit.TwoSharesRejected` | libethashseal/Ethash.cpp:95-148 | with two divisors only, the child of a full block is rejected |

## Left out

- TrieDB.GenericTrieDB.Remove: takes a key of the length of those stored, as the secure trie does; among keys of different lengths the source enters a leaf's value, and indexes a branch with an empty key.
- TrieRemove.DeleteAtFollows: the same.
- TrieDB.GenericTrieDB.Insert: takes no empty value, which could not be told from absence.
- TrieHash.Rlp256: takes no empty values either, and keys and values short enough for the 64-bit lengths of RLP.
- Reference counts of the trie store, `purge` and `EnforceRefs`: `place` may kill a node that was never stored, so the counts are not exact.
- The secure-trie wrappers, `orderedTrieRoot`, `descend` and the debug output: thin layers over what is modelled.
- The outcome `Corrupt` of the trie functions stands for a reference that the store cannot follow or a node of no known shape; the source reads an empty node or stops there. It is proved not to happen.
- TrieIterator.Iterator.Next: `next()` without a key is modelled as the search with an empty key, which takes the same turns.
- RlpReader.Iterator.Begin: takes a list only if it is well-formed; on others the source throws in the middle.
- RlpReader.ToList: takes a list only if it is well-formed, for the same reason.
- RlpStream.RLPStream.AppendData: data are shorter than 2^64 bytes; `append` of numbers and the typed conversions of `RLP.h` are not modelled, which append, and read, what `append` and `payload` of a byte string do.
- VmLockstep.Lockstep: says nothing about what the opaque operations do; the halting operations besides `STOP` and the jumps of unused extensions are among them.
- VmGas.Meter.Execute: MLOAD, MSTORE and MSTORE8 beyond 2^32, where the offset is cast to 32 bits after it was charged for, and the charges of halting operations are not modelled.
- BlockQueue.BlockQueue.Import: asks for a parent that is not known to be bad, as `updateBad_WITH_LOCK` follows otherwise: it goes by what `removeIf` returns, which is what `std::remove_if` leaves behind and so unspecified.
- BlockQueue.BlockQueue.DoneDrain: asks for a batch without bad blocks, for the same reason.
- BlockQueueRuns.Take: a turn that offers such a block, or ends such a batch, does nothing.
- `BlockQueue::clear` during a verification, and `retryAllUnknown`, which step outside the invariants; the queue of future blocks, of which only the result of import is modelled; sizes in bytes and difficulties, which are not conserved as coded. The chain, a multimap in order of hashes and the threads' waiting are a set, the order of arrival per parent, and method calls.
- The `m_blockHashes` cache, children lists, transaction addresses, receipts and notifications of `insertBlockAndExtras`; the bloom chunks' cache and their copy on disk are one map; a block's bloom is its log bloom with its author's bits.
- BlockChain.BlockChain.Import: takes block numbers below 2^32 - 1; that all checks of `verifyBlock`, the time and the state pass is a parameter.
- BlockChainRuns.Run: the same.
- BlockChain.TreeRoute: only with the common ancestor and both sides in the route, as import calls it.
- `BlockChain::insert` and `insertWithoutParent`, which bypass fork choice, and imports that need not be new, which no caller asks for. Rewinding keeps the indices right but not the head maximal. Total difficulties are unbounded.
- A branch of `RangeMask::unionWith` that cannot be reached: a range after the bound that begins at it.
- In `BlockSync`, the sets of downloads under way, the map from a body's roots to its number (a parameter here), peers, and events; the queue's answers are parameters. Nothing is said of what follows a failed assertion; the checks of developers' builds in `invariants()` are not modelled.
- GasLimit.InWindow: takes no parent's limit of a sixth of 2^256 or more, where products of the rule wrap around; the greatest limit of the networks is far below.
- GasLimit.AtLeast: the same.
- GasLimit.ChildAccepted: the same.
- Networking, logging, databases, JSON, key stores, and cryptography.
