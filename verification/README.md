# LessChain in Dafny

LessChain is a sharded blockchain. Committees execute blocks for shards whose
state they do not hold: they fetch the accounts a block touches together with
Merkle proofs, execute, and compute the new state root from the proofs alone.
Clients drive cross-shard transfers through a debit, a credit and, if the
credit comes too late, a rollback, timed by beacons on a third chain. This
project models that core and proves what it promises.

## The parts

Each module follows one file of the system or one step of an argument.

- Tries. `Keys`, `Rlp`, `Tree`, `TreeMap`, `TreeUnique`: key encodings, RLP, the
  trie as a value, and why a map has exactly one canonical trie. `Codec`,
  `Nodes`, `Hashing`, `TrieObject`: stored encodings, partly loaded nodes, hash
  caches, and the trie object that combines them. `Proof`: building and
  verifying Merkle proofs.
- The committee. `Rebuild`, `RebuildRoot`: a new root from proof nodes that are
  overwritten in place. `Ledger`, `TxPool`, `AccountEntry`, `Execution`: packing
  and executing a block, account entries, and the equality of the committee's
  root and the shard's. `Binding`: a root determines the accounts.
  `StateRequest`: the shard's answer to a committee, and a block from end to end.
- List roots. `StackValue` is the streaming trie on values and its relation to
  the ordinary trie; `StackTrie` is the linked, updated form, proved to do the
  same; `DeriveSha` feeds it a list.
- Cross-shard transfers. `Client` is the client; `Flow` is the life of a
  transfer; `CrossShard` is the whole system as a machine whose runs are all
  interleavings, `CrossShardInv`, `CrossShardBeacon` and `CrossShardRuns` its
  invariant and theorems, `CrossShardAccounts` the balances account by account;
  `LateReceipt` is a run that shows a condition is needed.
- The node store. `NodeCache`, `NodeCacheSteps`, `Database`: reference counts,
  flush list, garbage collection, flushing and committing. `SyncState`,
  `SyncSteps`, `Sync`: the download scheduler.
- Consensus and chain services. `Pbft`, `PbftRuns`, `PbftInv`, `PbftSettled`;
  `Beacon`; `Reconfig`.

Code that updates objects in place is a class or a method with a `modifies`
clause, proved against a function or predicate on values; the theorems are
about those.

## What is assumed

- Keccak is an arbitrary function to 32 bytes. Such a function has collisions;
  where one would matter, the hypothesis names a finite set of strings on which
  there is none (`NoClash`, or a store that returns only preimages).
- Lengths fit the eight length bytes of RLP (`Fits`).
- `Rebuild` overwrites proof nodes that are shared by hash, so it needs that no
  recorded hash occurs at two paths of the trie (`Distinct`). For account keys
  that are hashes of addresses this is again the absence of near-collisions.
- `BlockRoot` asks for proofs that hold the paths of the fetched accounts;
  `AnswerRequest` proves that the shard's answer does, and `RequestAndExecute`
  puts the two together.
- In a run of the cross-shard system, beacons are of committed blocks and become
  known in height order. Messages may take any time and arrive in any order.
  Atomicity holds in runs where no credit's receipt is late for the beacon block
  that passes its deadline; `BeaconExact` shows that in every state of
  such a run this is exactly what the next beacon block must meet, and
  `LateReceipt` gives a run without it.
- The node store sees children before parents (trie/committer.go:86-169), each
  `Dereference` gives up a root reference that is there, references go down in
  a Merkle order, and the meta-root's zero hash names no node. Disk writes
  succeed.
- In a download, leaf callbacks do not fail, and `AddSubTrie` and `AddCodeEntry`
  name a parent whose data has arrived, as the callbacks do.
- PBFT: honest nodes and a network that neither forges nor duplicates, between two
  resets, from any sequence numbers. Requests have different digests, and the
  number a round is proposed under was not used since the reset; `NumbersRise`
  shows that for numbers that never go back, as block numbers do
  (committee/worker.go:265-268). No message outlives a reset.
- Reconfiguration: different VRF values, one result for each node, with the
  committee of its VRF value.
- Beacon events arrive with non-decreasing positive Ethereum heights.

## Where code and comments differ

- The comment on `VerifyProof` asks for a proof that contains the key's value
  (trie/proof.go:102-104); the code also accepts a proof of absence and answers
  with no value. The comment on `Prove` promises at least the root node
  (trie/proof.go:95-97); for the empty trie there is none, and the proof is then
  refused (`EmptyRefused`, `ProofAccepted`).
- `HandlePrePrepare` takes over the primary's sequence number
  (pbft/messageHandle.go:61-67), where PBFT (OSDI 1999, section 4.2) rejects a
  message with an unexpected one; the model does what the code does.

## Model

| member | source | states |
|---|---|---|
| `Keys.UnpackPack` | trie/encoding.go:101-134 | packing an even run of nibbles into bytes and splitting the bytes again gives the nibbles back |
| `Keys.PackUnpack` | trie/encoding.go:101-134 | splitting bytes into nibbles and packing them again gives the bytes back |
| `Keys.KeybytesRoundTrip` | trie/encoding.go:101-128 | `hexToKeybytes` undoes `keybytesToHex` on every byte string |
| `Keys.HexRoundTrip` | trie/encoding.go:101-128 | `keybytesToHex` undoes `hexToKeybytes` on every key of an even number of nibbles with terminator, for which `hexToKeybytes` never panics |
| `Keys.KeybytesToHexInjective` | trie/encoding.go:101-110 | different byte keys have different nibble keys |
| `Keys.CompactRoundTrip` | trie/encoding.go:41-99 | `compactToHex` undoes `hexToCompact` on every well-formed nibble key, odd or even, with or without terminator |
| `Keys.PrefixLen` | trie/encoding.go:137-148 | the length of the common prefix: everything before it agrees, and the next elements, if both exist, differ |
| `Keys.PrefixLenUnique` | trie/encoding.go:137-148 | no other length has that property |
| `Keys.CommonPrefix` | trie/encoding.go:137-148 | the loop of `prefixLen` computes it |
| `Keys.DecodeNibbles` | trie/encoding.go:130-134 | the loop writes the packed nibbles to its part of the buffer and nothing else |
| `Keys.KeybytesToHexLoop` | trie/encoding.go:101-110 | the loop computes the nibble key |
| `Keys.HexToCompactAlloc` | trie/encoding.go:41-56 | the allocating form fills its buffer with the compact key |
| `Keys.HexToCompactInPlace` | trie/encoding.go:60-85 | the in-place form leaves exactly the result of `hexToCompact` in the prefix of its own buffer, for every well-formed key that is not empty |
| `Rlp.BigEndianRoundTrip` | trie/node_enc.go:27-33 | reading a big-endian number back gives the number (RLP of the Ethereum Yellow Paper, Appendix B) |
| `Rlp.ReadHeader` | trie/node.go:111-129 | reading the tag of an item gives its kind, tag size and content size |
| `Rlp.SplitString` | trie/node.go:131-170 | splitting off an encoded string gives its content and what follows, single bytes included |
| `Rlp.SplitList` | trie/node.go:111-129 | splitting off an encoded list gives its payload and what follows |
| `Rlp.CountItems` | trie/node.go:111-129 | counting the values of a concatenation of items gives their number, which is how a node is told to be short or full |
| `TreeMap.OnlyChildMeaning` | trie/trie.go:435-446 | the three answers mean exactly: no child, at least two children, one child at that position and no other |
| `TreeMap.InsertCanonical` | trie/trie.go:286-353 | insertion keeps a trie canonical: no short node under a short node, at least two children in a full node, only values in slot 16, no empty keys |
| `TreeMap.InsertGet` | trie/trie.go:286-353 | after insertion the key has the new value and every other key its old answer |
| `TreeMap.ReduceCanonical` | trie/trie.go:435-469 | collapsing a full node that may have one child left gives a canonical node |
| `TreeMap.ReduceGet` | trie/trie.go:435-469 | the collapse changes no answer |
| `TreeMap.DeleteCanonical` | trie/trie.go:378-493 | deletion keeps a trie canonical |
| `TreeMap.DeleteGet` | trie/trie.go:378-493 | after deletion the key is absent and every other key has its old answer |
| `TreeUnique.CanonicalUnique` | trie/trie.go:286-493 | two canonical tries with the same answers are the same trie |
| `TreeUnique.ApplyHolds` | trie/trie.go:267-284 | one `TryUpdate` on the trie of a map gives the trie of the updated map; an empty value deletes |
| `TreeUnique.RunRefinesMap` | trie/trie.go:267-493 | after every run of updates and deletions the trie is canonical and answers like a plain map |
| `TreeUnique.HoldsUnique` | trie/trie.go:267-493 | there is only one trie for each map |
| `TreeUnique.RunOrderIrrelevant` | trie/trie.go:267-493 | two runs that end in the same map end in the same trie, so in the same root hash |
| `Codec.DecodeEnc` | trie/node.go:111-197 | decoding a node encoding gives the node it was written for, with its children left as hashes where they were hashed, whatever bytes follow |
| `Codec.EncIsList` | trie/node_enc.go:35-64 | a node encoding is a list with the payload the node type calls for |
| `Codec.RefIsItem` | trie/node_enc.go:35-64 | each child reference inside a node is one complete item |
| `Nodes.ResolveRep` | trie/trie.go:502-515 | loading a hash fails exactly when the store lacks it, and otherwise gives a node for the same trie |
| `Nodes.TryGet` | trie/trie.go:126-160 | on a partly loaded trie the answer is the trie's answer, the returned node stands for the same trie, and the only error is a node missing from the store |
| `Nodes.TryInsertOk` | trie/trie.go:286-353 | `insert` on a partly loaded trie gives a node for the trie after insertion, reports a change exactly if there is one, and marks a changed node as dirty and unhashed; the only error is a missing node |
| `Nodes.FindOnlyChild` | trie/trie.go:435-446 | the loop over the children in memory, with its early exit, computes the position |
| `Nodes.OnlyChildSame` | trie/trie.go:435-446 | the position among the nodes in memory is that among the children of the trie |
| `Nodes.DeleteChanges` | trie/trie.go:378-493 | deletion changes a canonical trie exactly when the key is present |
| `Nodes.TryDeleteOk` | trie/trie.go:378-493 | `delete` on a partly loaded trie gives a node for the trie after deletion, with the same guarantees |
| `Hashing.CollapseOk` | trie/hasher.go:95-140 | the collapsed node encodes to the encoding computed from scratch, and the cached node still stands for the same trie |
| `Hashing.HashOfOk` | trie/hasher.go:59-90 | hashing with caches gives the hash or embedded node computed from scratch, and every cached hash it leaves is the hash of that node's encoding |
| `Hashing.ToHashOk` | trie/hasher.go:146-166 | a node under 32 bytes stays embedded unless forced, and the hash cached for a forced one is valid at the root only |
| `TrieObject.Trie.Empty` | trie/trie.go:82-97 | the empty trie |
| `TrieObject.Trie.Open` | trie/trie.go:82-97 | opening a root hash gives the trie that hash commits to, or fails because the store lacks its root |
| `TrieObject.Trie.TryGet` | trie/trie.go:118-124 | the answer of the trie; loading nodes changes the object but not the trie |
| `TrieObject.Trie.TryUpdate` | trie/trie.go:267-284 | the trie after the update, or no change and a missing-node error; `unhashed` counts up either way |
| `TrieObject.Trie.TryDelete` | trie/trie.go:364-373 | the trie after the deletion, or no change and a missing-node error |
| `TrieObject.Trie.Hash` | trie/trie.go:528-592 | after any history the root hash is the one computed from scratch, and the trie stays as it is |
| `Proof.DecodeNodeDecoded` | trie/node.go:111-197 | whatever bytes decode, the result has the shape that walking relies on |
| `Proof.WalkLoop` | trie/proof.go:573-601 | the loop of `get` computes the first hash, value or gap on the way down |
| `Proof.VerifyProof` | trie/proof.go:105-129 | on a store of arbitrary bytes the loop never panics, and in any number of rounds it computes the verdict `Verify` |
| `Proof.VerifyTrue` | trie/proof.go:105-129 | on a store that agrees with the trie the verdict is the truth, or an honest refusal for a missing node; with the whole path in the store it is the truth |
| `Proof.VerifySound` | trie/proof.go:105-129 | for the root hash of any trie and any store of preimages, the loop ends within two rounds per key byte and one more, and an answer is the trie's own value or absence |
| `Proof.EmptyRefused` | trie/proof.go:105-129 | a proof against the empty trie is always refused, so absence from it cannot be proved |
| `Proof.ReadProof` | committee/proof.go:14-21 | the first element with the asked hash, so never anything but a preimage; not found only if there is none |
| `Proof.CollectPath` | trie/proof.go:37-71 | collects exactly the nodes on the key's path, loading what is not in memory |
| `Proof.Prove` | trie/proof.go:37-89 | adds exactly the root and the hashed nodes of the path from `fromLevel` on, each under its hash |
| `Proof.PathCovers` | trie/proof.go:37-129 | a store with these nodes holds all that the verifier asks for |
| `Proof.ProofAccepted` | trie/proof.go:37-129 | the proof `Prove` builds is accepted if and only if the trie is not empty, and then gives the trie's answer |
| `Rebuild.StateTrieOfMap` | committee/worker.go:339-400 | the trie of a map with keys of one length has values only at that depth |
| `Rebuild.NotEmbedded` | committee/worker.go:354-359 | with values of 32 bytes or more no node is embedded, so a child is always a hash |
| `Rebuild.ReplaceHolds` | committee/worker.go:339-400 | replacing the updated values in place gives the trie of the updated map |
| `Rebuild.ReplaceShape` | committee/worker.go:339-400 | replacing values keeps the shape of the trie |
| `Rebuild.RebuildHelper` | committee/worker.go:339-400 | rebuilding a sub-trie over the shared, overwritten proof nodes returns the hash of that sub-trie with its values replaced, and touches only nodes of that sub-trie |
| `Rebuild.RebuildLeaf` | committee/worker.go:378-392 | the leaf case: value replaced if updated, key compacted, new hash returned |
| `Rebuild.RebuildExtension` | committee/worker.go:367-377 | the extension case |
| `Rebuild.RebuildFull` | committee/worker.go:352-366 | the loop over the children of a full node |
| `RebuildRoot.AnalyseStates` | committee/worker.go:210-248 | one object per proof node hash, from the first element with that hash; fails exactly on an element that is no node |
| `RebuildRoot.ProofsPristine` | committee/worker.go:210-248 | every proof node that belongs to the trie decodes to that very node |
| `RebuildRoot.CoveringReached` | committee/worker.go:346-350 | where no proof node is recorded, nothing below was updated |
| `RebuildRoot.EmptyNotProven` | committee/worker.go:346-350 | no proof node has the hash of the empty trie |
| `RebuildRoot.NewStateRoot` | committee/worker.go:304-400 | from the old root, the proofs and the updated accounts alone: the root hash of every trie that holds the updated state, for every state including the empty one |
| `StackValue.SummaryOk` | trie/stacktrie.go:376-458 | what hashing a stack node yields is the encoding, or its hash, of the trie node it stands for |
| `StackValue.StackRootOk` | trie/stacktrie.go:461-478 | the final hash of a stack is the root hash of the trie it stands for |
| `StackValue.SealOk` | trie/stacktrie.go:227-235 | hashing the nearest elder sibling does not change the trie a branch stands for |
| `StackValue.FeedOk` | trie/stacktrie.go:222-357 | inserting a key that comes after all earlier ones never panics and gives a stack for the trie after the ordinary insertion |
| `StackValue.FeedSound` | trie/stacktrie.go:222-357 | whatever is inserted, in any order, the stack keeps its shape unless it panics |
| `StackValue.StreamRel` | trie/stacktrie.go:183-357 | the stack after an increasing stream stands for the trie after the same updates |
| `StackValue.StreamRoot` | trie/stacktrie.go:183-478 | for every increasing, prefix-free stream of non-empty values the stack trie never panics and its root is that of every trie holding those pairs |
| `StackTrie.StackTrie.constructor` | trie/stacktrie.go:64-69 | a new stack trie is empty |
| `StackTrie.StackTrie.DiffIndex` | trie/stacktrie.go:211-218 | the first difference; runs off the end exactly when the new key is a proper prefix of the node's key |
| `StackTrie.StackTrie.SealElder` | trie/stacktrie.go:227-235 | the loop hashes exactly the nearest elder sibling, in place |
| `StackTrie.StackTrie.InsertBranch` | trie/stacktrie.go:224-242 | in-place insertion into a branch does what `Feed` does to its value, panicking in the same cases |
| `StackTrie.StackTrie.InsertExt` | trie/stacktrie.go:244-297 | the same for an extension, split or not |
| `StackTrie.StackTrie.InsertLeaf` | trie/stacktrie.go:299-344 | the same for a leaf |
| `StackTrie.StackTrie.Insert` | trie/stacktrie.go:222-357 | `insert` on linked, updated nodes refines `Feed` |
| `StackTrie.StackTrie.TryUpdate` | trie/stacktrie.go:183-190 | one update, with its panic on an empty value |
| `StackTrie.StackTrie.HashRec` | trie/stacktrie.go:376-458 | hashing in place turns a node into a hashed one with the same summary |
| `StackTrie.StackTrie.Hash` | trie/stacktrie.go:461-478 | the root hash of the stack |
| `StackTrie.StackTrie.Reset` | trie/stacktrie.go:198-206 | empty again |
| `DeriveSha.BigEndianBefore` | core/hashing.go:65-91 | big-endian encodings of equal length are ordered like the numbers |
| `DeriveSha.IndexKeyBefore` | core/hashing.go:65-91 | in the order the list is fed, index keys are strictly increasing and none is a prefix of a later one |
| `DeriveSha.IndexKeyInjective` | core/hashing.go:65-91 | different indices have different keys |
| `DeriveSha.EachIndexOnce` | core/hashing.go:65-91 | every index is fed at exactly one position: 1 to 127, then 0, then the rest |
| `DeriveSha.UpdatesIncreasing` | core/hashing.go:65-91 | so the stream meets what the stack trie asks for, for every list length |
| `DeriveSha.UpdatesMap` | core/hashing.go:65-91 | the stream's map sends each index key to its element and holds nothing else |
| `DeriveSha.DeriveSha` | core/hashing.go:65-91 | the root of every trie that maps each index key to its element; the only other outcome is the panic on an element without bytes |
| `Ledger.ExecuteTotal` | shard/shard.go:280-297 | a transaction changes a shard's total by its own amount, self-transfers included |
| `Ledger.ExecuteAccount` | shard/shard.go:280-297 | balance and nonce of every account after a transaction of each kind: the sender of a first leg pays and its nonce grows, the recipient of an intra-shard transfer or a credit receives, a rollback gives back; a transfer to oneself leaves the balance |
| `Ledger.TransferMoves` | shard/shard.go:280-297 | an intra-shard transfer takes the value from the sender, gives it to the recipient and touches nobody else |
| `Ledger.RollbackRestores` | shard/shard.go:280-297 | a rollback after its debit restores every account, nonces included |
| `Ledger.TotalSet` | shard/shard.go:280-297 | how the total changes when one account does |
| `TxPool.TxPool.AddTxWithoutLock` | committee/txpool.go:69-82 | rollbacks and other transactions queue up separately |
| `TxPool.TxPool.Pending` | committee/txpool.go:104-161 | packs rollbacks first, then live pending transactions up to the size, dropping the credits past their deadline that it meets; returns the related addresses, each once |
| `TxPool.PackedConserves` | committee/txpool.go:104-161 | a transaction that is no credit, or a credit for which the next block is at most its confirmation height plus its rollback height, is in the block or still in the pool, as often as it was; no other credit is packed |
| `TxPool.PackedSize` | committee/txpool.go:104-161 | the block is not larger than a non-negative size |
| `TxPool.PackedUnique` | committee/txpool.go:104-161 | pool, size and height determine the block and what stays in the pool |
| `TxPool.PackedFull` | committee/txpool.go:104-161 | rollbacks go first; a block that is not full leaves nothing in the pool, and a negative size takes everything; what stays is a suffix of each queue |
| `TxPool.LiveConcat` | committee/txpool.go:131-153 | the live part of a queue keeps the order |
| `TxPool.LiveElements` | committee/txpool.go:131-153 | of a queue stay all transactions but the credits for which the next block is above confirmation height plus rollback height, as often as before |
| `TxPool.RelatedAddrs` | committee/txpool.go:163-184 | exactly the addresses the transactions touch, each once |
| `AccountEntry.EntryLayout` | core/state_account.go:11-16 | an account entry is a list of exactly four strings that read back as nonce, balance, storage root and code hash, in this order |
| `AccountEntry.EntryRoundTrip` | committee/worker.go:216-222 | decoding an encoded entry gives the entry |
| `AccountEntry.AccountInjective` | committee/worker.go:382-387 | different accounts have different entries |
| `Execution.ExecuteLocal` | committee/worker.go:432-474 | a transaction depends on and changes only its related accounts |
| `Execution.ExecuteAllLocal` | committee/worker.go:405-414 | running a block on the fetched accounts gives each of them the value of the full run |
| `Execution.Touch` | committee/worker.go:416-430 | balance and nonce of one account change in place and it is recorded as updated |
| `Execution.ExecuteTransaction` | committee/worker.go:432-474 | the in-place execution agrees with the shard's, and records exactly the touched accounts |
| `Execution.ExecuteTransactions` | committee/worker.go:405-414 | the same for a whole block |
| `Execution.EncodeUpdated` | committee/worker.go:379-388 | the updated accounts as entries, each with the storage root and code hash it was fetched with; fails exactly on a negative balance |
| `Execution.DecodeAccounts` | committee/worker.go:210-222 | one object for each fetched entry, holding what the entry says; fails only on an entry that does not decode |
| `Execution.AnswerFetched` | committee/worker.go:210-222 | the objects decoded from the entries of the trie hold the accounts of the shard |
| `Execution.FetchAccounts` | committee/worker.go:251-318 | the fetched objects agree with the shard's accounts |
| `Execution.OverlayState` | committee/worker.go:405-474 | overlaying the touched accounts' entries gives the state after the full run |
| `Execution.BlockRoot` | committee/worker.go:251-318 | for every block whose related accounts were fetched with proofs, the committee's root is the root of every trie holding the shard's state after its own run; it fails only on a malformed proof or a negative balance |
| `Binding.EncInjective` | trie/node_enc.go:35-64 | if the hash function has no collision on their node encodings, two tries with the same root encoding are the same |
| `Binding.RootBinds` | trie/trie.go:528-592 | then two tries with the same root hash are the same |
| `Binding.EntriesBind` | committee/worker.go:379-388 | the same entries come from the same accounts |
| `Binding.StateBinds` | committee/worker.go:251-318 | so a state root determines every account: states that differ in a balance or nonce have different roots |
| `StateRequest.PathLong` | shard/msgHandler.go:65-75 | in a state trie every node of a path is hashed, so the proof holds all of them |
| `StateRequest.AnswerRequest` | shard/msgHandler.go:48-79 | the proofs of all requested accounts hold each account's whole path and nothing but nodes of the trie |
| `StateRequest.NodesDecode` | trie/node.go:111-197 | every node of a trie decodes |
| `StateRequest.RequestAndExecute` | committee/worker.go:251-297 | a block from request to root: with the shard's own answer the committee's root is the shard's, and only a missing node or a negative balance can prevent it |
| `Client.Client.AddTXReceipts` | client/get.go:34-41 | receipts are appended in order |
| `Client.Client.AddTBs` | client/get.go:61-74 | heights are learned, then receipts processed, then deadlines looked at, after which no running deadline is passed and exactly the passed ones were queued for rollback; fails exactly when processing does |
| `Client.Client.ProcessTXReceipts` | client/get.go:80-141 | the index loop with removals handles each receipt whose beacon is known once, in order, and keeps the others |
| `Client.Client.Apply` | client/get.go:100-137 | what one confirmed receipt does, with its two fatal branches |
| `Client.Client.CheckExpiredTXs` | client/client.go:127-149 | moves exactly the transfers whose recipient shard is known to be higher than confirmation height plus rollback height to the rollback queue, in some order, while deleting from the table it ranges over; all others stay |
| `Client.ExpireSweeps` | client/client.go:127-149 | a transfer leaves the deadline table, and joins the rollback queue once, exactly if the recipient shard is known to be higher than its confirmation height plus its rollback height |
| `Client.LearnMeaning` | client/get.go:61-74 | exactly the block's beacons become known, and the known height of a shard is the highest one heard of |
| `Client.ProcessMeaning` | client/get.go:80-141 | receipts without a beacon wait on, in order, and each confirmed debit queues its credit with the recipient shard's known height |
| `Client.DeadlineMeaning` | client/get.go:100-137 | a confirmed debit without its credit has its deadline running from that height, a confirmed credit ends it, and no other deadline changes |
| `Client.Client.SendRollbackTxs` | client/send.go:55-85 | sends the first transfers of the rollback queue, each to its committee, and keeps the rest |
| `Client.Client.SendCross2Txs` | client/send.go:88-115 | the same for credits |
| `Client.Client.SendPendingTxs` | client/send.go:118-157 | the same for first legs; each is marked intra- or cross-shard |
| `Client.Dispatch` | client/send.go:88-115 | sorts transactions by target committee, keeping their order |
| `Client.ForShardAll` | client/send.go:88-115 | each transaction is in its committee's list as often as in the input, and in no other |
| `Client.ForShardConcat` | client/send.go:88-115 | the lists keep the order |
| `Flow.FirstLeg` | committee/worker.go:432-474 | executing a first leg keeps the transfer invariant; it was not executed before |
| `Flow.SecondLeg` | committee/txpool.go:131-155 | executing a credit within its deadline: it was not credited or given back before, and never will be given back |
| `Flow.GiveBack` | committee/worker.go:432-474 | executing a rollback: it was neither credited nor given back before |
| `Flow.DropCredits` | committee/txpool.go:131-155 | throwing away credits whose recipient shard's next block is past the deadline keeps the invariant |
| `Flow.ConfirmDebit` | client/get.go:106-119 | a debit is confirmed once; credit and deadline start |
| `Flow.ConfirmCredit` | client/get.go:120-129 | a credit's receipt finds its running deadline |
| `Flow.ExpireOne` | client/client.go:127-149 | giving up a transfer that is past its deadline and was not credited keeps the invariant |
| `CrossShardInv.SendPendingKeeps` | client/send.go:118-157 | sending first legs keeps the system invariant |
| `CrossShardInv.SendCross2Keeps` | client/send.go:88-115 | so does sending credits |
| `CrossShardInv.SendRollbackKeeps` | client/send.go:55-85 | and sending rollbacks |
| `CrossShardInv.DeliverKeeps` | committee/txpool.go:69-101 | a transaction arrives at its committee |
| `CrossShardInv.PackKeeps` | committee/txpool.go:104-161 | a block is packed; no credit in it is past its deadline, and none that is within it is lost |
| `CrossShardInv.ExecKeeps` | committee/worker.go:432-474 | a transaction is executed and its receipt sent |
| `CrossShardInv.SealKeeps` | shard/msgHandler.go:98-115 | the shard's height grows by one |
| `CrossShardInv.DeliverReceiptKeeps` | client/client.go:122-124 | a receipt arrives at its client |
| `CrossShardBeacon.ProcessKeeps` | client/get.go:80-141 | processing receipts never fails, keeps the invariant, and leaves no receipt whose beacon is known |
| `CrossShardBeacon.PastIsOverdue` | client/client.go:127-149 | if no receipt is late, a transfer the client finds past its deadline was never credited: the pool's deadline test and the client's strict expiry test do not overlap |
| `CrossShardBeacon.CreditedPast` | client/client.go:127-149 | a transfer past its deadline was credited exactly if the credit's receipt is still on its way |
| `CrossShardBeacon.BeaconExact` | client/client.go:127-149 | a beacon block makes the client give back only uncredited transfers if and only if no credit's receipt is late for it |
| `CrossShardBeacon.SlackSuffices` | client/client.go:134-138 | a beacon block is in time if no credit's receipt is outstanding from a block below the height it makes known |
| `CrossShardBeacon.BeaconKeeps` | client/get.go:61-74 | a beacon block in time is handled without failure and keeps the invariant |
| `CrossShardRuns.StepKeeps` | client/get.go:61-141 | every step of every participant keeps the system invariant |
| `CrossShardRuns.RunInv` | client/get.go:61-141 | the invariant holds in every state of every timely run |
| `CrossShardRuns.Atomic` | committee/txpool.go:131-155 | in every state of every timely run no transfer is both credited and given back, and either happens only after the debit |
| `CrossShardRuns.CreditAround` | committee/txpool.go:131-155 | in every state of every timely run a confirmed, uncredited transfer still has its credit in some queue, message, pool or block while the recipient shard's next block is within the deadline, and is not given back |
| `CrossShardRuns.ConfirmedAt` | client/get.go:106-119 | a debit is confirmed by a beacon block of its client, with the recipient shard's height the client knows then |
| `CrossShardRuns.RunCurrent` | client/client.go:127-149 | in every state of every run no client has a running deadline that it knows to be passed |
| `CrossShardRuns.OverdueReturned` | client/client.go:127-149 | in every state of every timely run a confirmed, uncredited transfer whose client knows the recipient shard to be past the deadline has left the table and is either returned or has its one rollback on the way |
| `CrossShardRuns.NeverFails` | client/get.go:104-129 | the client's fatal branches are never taken: each receipt finds its transfer, each credit's receipt finds its deadline |
| `CrossShardRuns.Conservation` | committee/worker.go:432-474 | balances of all shards plus debited open transfers are the same in every state of a run |
| `CrossShardRuns.QuietEnd` | client/client.go:183-186 | when queues, pools and messages are empty, each cross-shard transfer ended exactly one way and the balances sum to the initial total |
| `CrossShardRuns.QuietEnded` | client/client.go:183-186 | then every transfer was executed, and one within a shard is never given back |
| `CrossShardAccounts.AccountBalances` | committee/worker.go:432-474 | in every state of every timely run each account of each shard has its initial balance, plus the executed intra-shard and credited transfers to it, minus its executed transfers that were not returned |
| `CrossShardAccounts.QuietBalances` | client/client.go:183-186 | when everything is quiet each balance is the initial one changed by the full transfers that were not returned |
| `CrossShardRuns.BlockIds` | committee/worker.go:191-208 | the transactions of a block have different ids, so the receipt table keyed by id gives each its receipt |
| `LateReceipt.LateReceiptBreaksAtomicity` | client/client.go:127-149 | a concrete run with a late receipt in which a transfer is credited and also given back, so the condition cannot be dropped |
| `NodeCache.UnlinkOk` | trie/database.go:552-563 | unlinking an oldest, newest or inner node leaves a proper doubly linked list of the others |
| `NodeCache.AppendOk` | trie/database.go:331-337 | appending a node keeps the list |
| `NodeCache.DropHead` | trie/database.go:651-662 | so does dropping the head |
| `NodeCacheSteps.InsertSane` | trie/database.go:312-339 | a node whose children are cached or on disk may be inserted; counters still cover references, and every reference still leads to the cache or disk |
| `NodeCacheSteps.ReferenceSane` | trie/database.go:481-499 | one more reference keeps these invariants |
| `NodeCacheSteps.CountDownSane` | trie/database.go:538-550 | counting down one dropped reference keeps them |
| `NodeCacheSteps.LeaveSane` | trie/database.go:551-568 | a node whose counter reached zero is referred to by nothing that stays |
| `Database.Database.constructor` | trie/database.go:281-301 | an empty cache over a disk |
| `Database.Database.Insert` | trie/database.go:312-339 | adds the node at the end of the flush list with counter zero, raises exactly its cached children's counters once per occurrence, and keeps data availability |
| `Database.Database.Reference` | trie/database.go:481-499 | adds one reference unless the child is not cached or the reference exists (roots may repeat) |
| `Database.Database.Dereference` | trie/database.go:502-574 | drops one root reference with its cascade: nothing stays whose counter fell to zero, nothing leaves but the root and what leaving nodes referred to, the other counters fall by exactly the dropped references, and every remaining reference still leads to the cache or disk |
| `Database.Database.Release` | trie/database.go:538-574 | the recursive part of `dereference`, with nodes on their way out |
| `Database.Database.Unlink` | trie/database.go:552-563 | the three-way switch takes one node off the flush list and changes nothing else |
| `Database.Database.Cap` | trie/database.go:581-676 | writes out the oldest nodes, as few as bring the estimated size within the limit, then drops exactly these; the disk stays complete |
| `Database.Database.FlushOldest` | trie/database.go:611-639 | the first loop: as few of the oldest nodes as bring the estimated size within the limit are on disk afterwards, in list order |
| `Database.PrefixComplete` | trie/database.go:611-639 | children are older than parents, so any number of oldest nodes on disk is complete |
| `Database.Database.Commit` | trie/database.go:684-742 | the root is on disk and uncached; whatever left the cache is on disk with all it refers to, what is new on disk is a cached node as it was, and the disk stays complete |
| `Database.Database.CommitNode` | trie/database.go:745-775 | children before parents, with full batches written and uncached on the way |
| `Database.Database.WriteBatch` | trie/database.go:762-772 | a batch goes to disk, then exactly its nodes leave the cache |
| `Database.Database.Uncache` | trie/database.go:788-820 | one written node leaves the cache, the others keep their content |
| `SyncSteps.ScheduleNode` | trie/sync.go:320-342 | a new request, or one more parent of an old one, keeps counters equal to occurrences |
| `SyncSteps.FinishNode` | trie/sync.go:421-442 | a request that waits for nothing has all it needs stored, and may be stored |
| `SyncSteps.CountDown` | trie/sync.go:433-440 | who is counted down is pending, has its data, and waited |
| `Sync.Sync.constructor` | trie/sync.go:134-145 | a download of a root into a closed database |
| `Sync.Sync.AddSubTrie` | trie/sync.go:148-177 | registers the sub-trie unless it is empty or stored; panics exactly on an unknown parent |
| `Sync.Sync.AddCodeEntry` | trie/sync.go:182-214 | the same for a code |
| `Sync.Sync.Children` | trie/sync.go:346-416 | runs the leaf callbacks and lists the children not stored; everything the node needs is recorded |
| `Sync.Sync.CommitNode` | trie/sync.go:421-442 | stores a request and, recursively, every request that thereby waits for nothing |
| `Sync.Sync.Settle` | trie/sync.go:433-441 | the loop over the parents, one count for each occurrence |
| `Sync.Sync.Process` | trie/sync.go:255-295 | whatever arrives: its outcome, its data kept, no request and no received data lost, and all invariants |
| `Sync.Sync.Flush` | trie/sync.go:299-310 | the batch goes to the database as it is |
| `Sync.Sync.DepsAreOccurrences` | trie/sync.go:320-442 | a pending request's counter is the number of its occurrences in parent lists |
| `Sync.Sync.StoredIsClosed` | trie/sync.go:255-442 | every child of a stored node is stored, and so are the sub-tries and codes its leaves ask for |
| `Sync.Sync.StoredIsDeep` | trie/sync.go:255-442 | so every path of child hashes from a stored node stays in the store |
| `Sync.Sync.NeverStuck` | trie/sync.go:255-442 | while anything is pending, some request still lacks its data, so a download cannot stall on data it already has |
| `Pbft.MaliciousNums` | pbft/pbft.go:68-68 | 3f + 1 nodes or up to two more, for any committee that is not empty |
| `Pbft.PbftNode.constructor` | pbft/pbft.go:53-86 | a new node |
| `Pbft.PbftNode.Reset` | pbft/pbft.go:88-97 | forgets everything but the sequence number |
| `Pbft.PbftNode.SetSequenceID` | pbft/messageHandle.go:10-14 | only the sequence number changes |
| `Pbft.PbftNode.Propose` | pbft/messageHandle.go:17-53 | only the primary proposes: the request is pooled and the round takes the current sequence number |
| `Pbft.PbftNode.HandlePrePrepare` | pbft/messageHandle.go:55-94 | adopts the sequence number, rejects a wrong digest, else stores the request and prepares |
| `Pbft.PbftNode.HandlePrepare` | pbft/messageHandle.go:96-139 | counts the prepare and commits once when enough are there |
| `Pbft.PbftNode.HandleCommit` | pbft/messageHandle.go:153-202 | counts the commit and replies once when 2f are there |
| `Pbft.PbftNode.HandleReply` | pbft/messageHandle.go:204-233 | counts the reply and ends the round once when enough are there |
| `Pbft.OnlyBrought` | pbft/messageHandle.go:55-139 | whatever messages arrive, a node knows a digest exactly if it knew it before or a pre-prepare brought its request, and commits to nothing else |
| `PbftInv.SetKeeps` | pbft/messageHandle.go:10-14 | setting the sequence number between rounds keeps the protocol invariant |
| `PbftInv.ProposeKeeps` | pbft/messageHandle.go:17-53 | so does proposing under a new number |
| `PbftInv.PrePrepareKeeps` | pbft/messageHandle.go:55-94 | and a pre-prepare |
| `PbftInv.PrepareKeeps` | pbft/messageHandle.go:96-139 | and a prepare |
| `PbftInv.CommitKeeps` | pbft/messageHandle.go:153-202 | and a commit |
| `PbftInv.ReplyKeeps` | pbft/messageHandle.go:204-233 | and a reply |
| `PbftInv.RunInv` | pbft/messageHandle.go:17-233 | the invariant holds in every state of every run that starts after a reset, whatever the sequence numbers |
| `PbftInv.DistinctSenders` | pbft/toolFuncs.go:13-25 | the senders counted for a digest are as many as the entries |
| `PbftInv.CommitQuorum` | pbft/messageHandle.go:96-139 | a node commits only after 2f different non-leaders prepared the round, itself among them unless it leads |
| `PbftInv.ReplyQuorum` | pbft/messageHandle.go:153-202 | a node finishes a round only after 2f different other nodes committed it |
| `PbftInv.RoundsEnd` | pbft/messageHandle.go:204-233 | the leader ends the rounds in the order they were proposed, each once and before the next is proposed, each after replies of 2f different nodes that finished it |
| `PbftInv.NumbersRise` | node/node.go:107-109 | if the numbers set never go back, each is new and rounds are proposed in increasing order |
| `PbftSettled.CommittedExactly` | pbft/messageHandle.go:96-139 | in every state of every run a node has committed a round if and only if it counted a prepare, and 2f of them (2f - 1 unless it leads) |
| `PbftSettled.RepliedExactly` | pbft/messageHandle.go:153-202 | in every state of every run a node has finished a round if and only if it counted a commit, and 2f of them |
| `PbftSettled.EndedExactly` | pbft/messageHandle.go:204-233 | in every state of every run a round has ended if and only if the leader counted a reply, and replies of 2f different nodes |
| `PbftSettled.Settled` | pbft/messageHandle.go:96-233 | with no message on the way, a node has finished a round if and only if 2f other nodes, and at least one, committed it, and the round has ended if and only if 2f nodes besides the leader, and at least one, finished it |
| `PbftSettled.NoneStuck` | pbft/messageHandle.go:153-233 | with no message on the way, a round that all nodes of a committee of two or more committed has ended, and all nodes finished it |
| `PbftSettled.Unlocked` | pbft/messageHandle.go:10-53 | then the sequence lock is free and all rounds have ended in order |
| `PbftSettled.AloneNeverEnds` | pbft/messageHandle.go:204-233 | a committee of one node never ends a round |
| `Beacon.BeaconChain.GenerateBlock` | beaconChain/ethChainInterface.go:83-158 | takes all waiting events and emits at most one block, exactly if one of them is higher than a waiting height: heights strictly increase, a block holds all and only the events of its height, no height is skipped, and each shard's beacons are appended in order |
| `Beacon.BeaconChain.Drain` | beaconChain/ethChainInterface.go:95-117 | the loop that groups events by height and shard; it finds the lowest waiting height and whether an event overtakes it |
| `Beacon.BeaconChain.Confirm` | beaconChain/ethChainInterface.go:131-157 | the lowest group becomes a block and leaves |
| `Beacon.Collect` | beaconChain/ethChainInterface.go:135-146 | the group's lists, one for each shard |
| `Beacon.NextHeight` | beaconChain/ethChainInterface.go:83-158 | what is known up to a height plus the next group is what is known up to that height: nothing lost, doubled or reordered |
| `Reconfig.LessMeaning` | node/reconfig.go:137-142 | one VRF value is below another exactly if it is a proper prefix or smaller at the first byte that differs |
| `Reconfig.SortByVrf` | node/reconfig.go:137-142 | sorted by VRF, and a permutation |
| `Reconfig.SortedUnique` | node/reconfig.go:137-142 | with different VRF values there is one sorted order |
| `Reconfig.GroupResults` | node/reconfig.go:130-136 | all results grouped by new committee, whatever the iteration order |
| `Reconfig.Reassign` | node/reconfig.go:127-186 | each committee's row is its group in VRF order, indices without gaps; the local node notes its own place |
| `Reconfig.Deterministic` | node/reconfig.go:127-186 | nodes that hold the same results compute the same table |
| `Reconfig.VrfValue2Shard` | utils/utils.go:146-148 | every VRF value leads to a committee that exists |
| `Reconfig.EveryNodePlaced` | node/reconfig.go:127-186 | every node has a place, in the committee its result names |
| `Reconfig.OnePlaceOnly` | node/reconfig.go:127-186 | no address has two places |
| `Reconfig.LocalMatches` | node/reconfig.go:145-186 | the local node's new committee, index and address are its entry in the table |

## Left out

- NewStateRoot: does not cover a proof node whose hash occurs at two paths, because the shared object is overwritten on the first visit and the second one reads it; see "What is assumed".
- VerifyProof: takes a bound on its rounds, because over a store that answers with bytes of another hash the loop need not end; `VerifySound` and `ProofAccepted` show which bound always suffices otherwise.
- Dereference: does not cover a root that is cached but not referenced, because the code then counts down a reference that does not exist.
- NeverStuck: takes it as given that waiting requests form a Merkle order, which is a property of the hash function and the data.
- Insert: keeps node sizes as they are given, where the code truncates them to 16 bits.
- Cap: takes the total size as an argument, because the stored totals are not an exact account (the cleaner takes the size of child tables from the wrong total, trie/database.go:811-813).
- Counters are unbounded: the 16-bit and 32-bit reference counters of the node store and all block heights do not wrap around; account nonces do.
- `VerifyRangeProof` and its helpers, trie iterators, the secure trie, the committer and `TryGetNode`.
- Writing nodes out while the streaming trie runs (`StackTrie` with a database) and its binary serialisation.
- Object pools, the parallel branch of the hasher, locks and goroutines: each operation is atomic, and concurrency is the interleaving of operations.
- The clean cache, preimages and metrics of the node store.
- Order and throttling of downloads: any requested item may arrive next.
- The children of a trie node are a sequence that is replaced, not an array that is updated; keys in the streaming trie are sequences, so its in-place key packing is covered by `HexToCompactInPlace` only.
- `sort.Slice` is represented by an insertion sort; only its result matters, and it is proved unique.
- Signatures, VRF computation, the beacon contract, message framing and the network.
- The creation of accounts that a committee asks for and the shard does not have yet (shard/msgHandler.go:33-36).
- Account code and storage: accounts have neither, as in this system.
- The address of the previous leader that `HandleSendReconfigResults2ComNodes` picks up, the end of a reconfiguration and the state transfer that follows it (node/reconfig.go:188-383).
- PBFT with faulty nodes, view changes and the request for old messages. Whether all nodes come to commit a round depends on the order of messages: a prepare that overtakes its pre-prepare is refused and not sent again (pbft/messageHandle.go:96-139).
- The simulated beacon mode and confirmation delays above zero.
- Timestamps, statistics and logging.
