# Transaction trackers, modelled in Dafny

The repository collects nineteen solutions to one exercise: a *transaction
tracker*. Each tracker is a closure built from a chain client `api` and an
output boundary `outputApi`. It receives three kinds of events:

- `newBlock(blockHash, parent)`: a block was announced;
- `newTransaction(value)`: a transaction was broadcast;
- `finalized(blockHash)`: a block was finalized.

It reports two kinds of outcome:

- `onTxSettled(tx, state)`: the transaction was included in a block, or became
  invalid there;
- `onTxDone(tx, state)`: the block it settled in was finalized.

The chain client answers three questions about a block: its body
(`getBody`), whether a transaction is valid against it (`isTxValid`), and
whether an included transaction succeeded (`isTxSuccessful`). One tracker
also calls `api.unpin`.

The exercise asks for settled and done notifications in arrival order, with
no redundant notification. Most solutions fall short of that in some way.
Each module here models one solution *as written*, branch for branch, and
proves what that code actually does: the promised properties where they
hold, and a lemma that exhibits the behaviour where they do not.

Shared modules:

- `Types`: hashes and transactions (strings; `""` is JavaScript's falsy
  hash), the `Settled` object, the three events, and a `Note` per call to
  the output boundary. It also holds the chain client's read side as a
  datatype of total functions (`Api`) and sequence helpers for JavaScript's
  `indexOf`/`splice`.
- `Ancestry`: parent maps, their acyclicity, and the walk towards the root
  that several trackers perform.
- `Settlement`: the settle pass and the done pass shared by the seven
  trackers that keep one settlement map per block hash, plus the *ledger*
  invariant. The ledger ties those maps and the done set to the sequence
  of notifications: a state is stored iff it was notified; a transaction is
  settled at most once per block and done at most once, and only after it
  was settled with that state.

Each tracker is a `class Tracker` whose fields are the closure's state. The
notifications go into a `trace: seq<Note>` field. Trackers that make claims
about reads also log the client calls they make. Every handler is a method
whose `ensures` ties the new state and the new notifications to a
specification function of the old state. The properties of those functions
are proved as separate lemmas.

## Model

| member | source | states |
|---|---|---|
| Types.RemoveFirst | src/solutions/emibotti.ts:61 | `splice(indexOf(x), 1)` on a present `x` removes one occurrence of `x` (length down by one, multiset minus `{x}`); on an absent `x` the array is unchanged |
| Types.RemoveAt | src/solutions/magofoco.ts:181 | `splice(i, 1)`: the elements before `i` stay, the ones after move down by one |
| Types.RemoveFirstNoDuplicates | src/solutions/illegalcall.ts:158-161 | removing a transaction from a duplicate-free queue keeps it duplicate-free and removes exactly that transaction |
| Types.RemoveFirstAfter | src/solutions/illegalcall.ts:158-161 | removing an element that occurs in none of the earlier entries leaves those entries and the later ones in place |
| Ancestry.HeightDecreases | src/solutions/snehagupta1907.ts:44-51 | over acyclic parent links, each step of the parent walk strictly lowers the remaining height, so the walk ends |
| Ancestry.EmptyAcyclic | src/solutions/snehagupta1907.ts:42 | the parent map starts empty, hence acyclic |
| Ancestry.FreshBlockKeepsAcyclic | src/solutions/snehagupta1907.ts:54 | recording the parent of a new block that is nobody's parent yet keeps the links acyclic |
| Ancestry.LineageSpec | src/solutions/snehagupta1907.ts:44-51 | the walk from `h` is empty iff `h` is falsy, starts at `h`, holds no falsy hash, follows a recorded parent at each step, and stops at a block with no truthy recorded parent |
| Ancestry.LineageTransitive | src/solutions/snehagupta1907.ts:44-51 | being on the walk is transitive: an ancestor of an ancestor is an ancestor |
| Settlement.IndexOf | src/solutions/magofoco.ts:87 | `indexOf` of a present element: the first position holding it |
| Settlement.IndexOfUnique | src/solutions/magofoco.ts:87 | the position holding `x` with no earlier `x` is `indexOf(x)` |
| Settlement.IndexOfPrefix | src/solutions/magofoco.ts:87 | an element of a prefix has the same first position in the prefix and in the whole array |
| Settlement.ArrivalOrderDistinct | src/solutions/template.ts:52-74 | notes in strict arrival order name pairwise distinct transactions |
| Settlement.ArrivalOrderExtend | src/solutions/template.ts:52-74 | a note for the newest arrival, appended to notes about earlier arrivals, keeps arrival order |
| Settlement.ArrivalOrderWiden | src/solutions/template.ts:77-79 | a new arrival does not disturb the order of notes about earlier arrivals |
| Settlement.Decide | src/solutions/template.ts:55-68 | a transaction settles at a block iff it is included or invalid there. The state is valid iff it is included and valid, it carries the block hash, and a valid state carries the client's success flag |
| Settlement.Judge | src/solutions/magofoco.ts:115-129 | the state given without looking at the body: valid iff `isTxValid`, with the success flag, at the block |
| Settlement.ScanBlockStep | src/solutions/template.ts:52-74 | one loop turn: a transaction already in the block's map, or left unsettled by the rule, changes nothing; otherwise its state is stored and notified |
| Settlement.ScanBlockSpec | src/solutions/template.ts:52-74 | the settle pass notifies, in arrival order, exactly the queued transactions absent from the block's map that the rule settles. Each note carries the rule's state, which is stored. Earlier entries of the map are kept, and every new entry was notified |
| Settlement.Outcome | src/solutions/jasonaw98.ts:60-77 | the state a filtered candidate gets agrees with the settle rule whenever the rule settles it |
| Settlement.CandidatesSpec | src/solutions/jasonaw98.ts:54-58 | the `filter` keeps exactly the queued transactions not in the block's map that are included or invalid, and adds no duplicates |
| Settlement.SettleAllSpec | src/solutions/jasonaw98.ts:60-81 | the `forEach` notifies every candidate once at its own position and stores its state; it leaves every other entry alone |
| Settlement.FilterThenSettleIsScan | src/solutions/jasonaw98.ts:54-81 | over a duplicate-free queue, filter-then-notify gives exactly the interleaved pass of `template.ts` |
| Settlement.FilterThenSettleRepeatsDuplicates | src/solutions/kanasjnr.ts:57-79 | with a transaction queued twice, filter-then-notify settles it twice at one block, the interleaved pass once |
| Settlement.DoneScanSpec | src/solutions/template.ts:85-93 | the done pass reports, in arrival order, exactly the queued transactions stored in the finalized block's map and not yet done. Each note carries the stored state, and exactly those transactions join the done set |
| Settlement.LedgerInit | src/solutions/template.ts:40-42 | the empty state satisfies the ledger invariant |
| Settlement.DoneImpliesSettled | src/solutions/template.ts:81-94 | under the ledger invariant every done notification repeats an earlier settled notification with the same state |
| Settlement.BlockMap | src/solutions/template.ts:47-51 | the block's map: the stored one, or a fresh empty map when missing |
| Settlement.LedgerAfterSettle | src/solutions/template.ts:52-74 | a pass that stores and notifies only new entries at the block, in arrival order, keeps the ledger invariant |
| Settlement.SettlePassKeepsLedger | src/solutions/template.ts:44-75 | the interleaved settle pass keeps the ledger invariant and emits only settled notes at the block |
| Settlement.FilterPassKeepsLedger | src/solutions/jasonaw98.ts:45-82 | the filter-then-notify pass over a duplicate-free queue equals the interleaved one, and keeps the ledger invariant |
| Settlement.DonePassKeepsLedger | src/solutions/template.ts:81-94 | the done pass against a stored map keeps the ledger invariant and emits only done notes |
| Settlement.LedgerAfterDone | src/solutions/template.ts:85-93 | reporting stored, not-yet-done entries in arrival order, and adding them to the done set, keeps the ledger invariant |
| Template.Tracker.constructor | src/solutions/template.ts:40-42 | empty queue, maps, done set and trace |
| Template.Tracker.OnNewBlock | src/solutions/template.ts:44-75 | one body fetch. The block's map is created if missing and replaced by the settle pass's map. The trace grows by exactly the pass's settled notes, and the ledger invariant is kept |
| Template.Tracker.SettleQueue | src/solutions/template.ts:52-74 | the loop computes the settle pass over the queue |
| Template.Tracker.OnNewTx | src/solutions/template.ts:77-79 | the transaction is appended iff not yet queued; nothing else changes |
| Template.Tracker.OnFinalized | src/solutions/template.ts:81-94 | nothing happens for a block without a map. Otherwise the done set and the trace follow the done pass over the queue, and the ledger invariant is kept |
| Template.Tracker.Dispatch | src/solutions/template.ts:96-108 | settled notes only on `newBlock`, done notes only on `finalized`; the queue and the trace only grow, and the ledger invariant holds after every event |
| Jasonaw98.Tracker.constructor | src/solutions/jasonaw98.ts:41-43 | empty queue, maps, completed set and trace |
| Jasonaw98.Tracker.OnNewBlock | src/solutions/jasonaw98.ts:45-82 | one body fetch. The block's map and the trace follow filter-then-notify over the candidates, which equals the interleaved pass, so the ledger invariant is kept |
| Jasonaw98.Tracker.SettleReady | src/solutions/jasonaw98.ts:60-81 | the `forEach` stores and notifies every candidate with its state |
| Jasonaw98.Tracker.OnNewTx | src/solutions/jasonaw98.ts:84-88 | appended iff not yet queued |
| Jasonaw98.Tracker.OnFinalized | src/solutions/jasonaw98.ts:90-101 | nothing without a map; otherwise the done pass over the queue, keeping the ledger invariant |
| Jasonaw98.Tracker.Dispatch | src/solutions/jasonaw98.ts:103-115 | notes match the event kind, the queue and the trace only grow, the ledger invariant holds |
| Kalmndo.Tracker.constructor | src/solutions/kalmndo.ts:40-42 | empty queue, maps, completed set and trace |
| Kalmndo.Tracker.OnNewBlock | src/solutions/kalmndo.ts:44-78 | one body fetch. The block's map and the trace follow filter-then-notify over the candidates, which equals the interleaved pass, so the ledger invariant is kept |
| Kalmndo.Tracker.SettleReady | src/solutions/kalmndo.ts:59-77 | the `forEach` stores and notifies every candidate with its state |
| Kalmndo.Tracker.OnNewTx | src/solutions/kalmndo.ts:80-84 | appended iff not yet queued |
| Kalmndo.Tracker.OnFinalized | src/solutions/kalmndo.ts:86-97 | nothing without a map; otherwise the done pass over the queue, keeping the ledger invariant |
| Kalmndo.Tracker.Dispatch | src/solutions/kalmndo.ts:99-111 | notes match the event kind, the queue and the trace only grow, the ledger invariant holds |
| Prananda21.Tracker.constructor | src/solutions/prananda21.ts:40-42 | empty state: the tracker starts inert |
| Prananda21.Tracker.OnNewBlock | src/solutions/prananda21.ts:44-78 | one body fetch and the block's map created. From an inert state (empty queue) nothing is notified or stored |
| Prananda21.Tracker.SettleReady | src/solutions/prananda21.ts:60-77 | the `forEach` stores and notifies every candidate with its state |
| Prananda21.Tracker.OnNewTx | src/solutions/prananda21.ts:80-83 | pushes only a transaction that is already queued, so an empty queue stays empty |
| Prananda21.Tracker.OnFinalized | src/solutions/prananda21.ts:85-89 | changes nothing (no `modifies` clause); the lookup finds a map exactly when the block has one, and for an inert tracker that map is empty |
| Prananda21.Tracker.Dispatch | src/solutions/prananda21.ts:85-104 | the tracker stays inert (no queued transaction, no notification) whatever the events; `finalized` changes nothing |
| Daficreatella25.RecordedKeeps | src/solutions/daficreatella25.ts:87-88 | overwriting records for notified transactions never loses a record |
| Daficreatella25.RecordedAppend | src/solutions/daficreatella25.ts:87-88 | one more settled notification overwrites exactly that transaction's record with the state and its block |
| Daficreatella25.RecordedSpec | src/solutions/daficreatella25.ts:87-88 | for distinct notified transactions that all have records, each record holds the state it was notified with, the others are untouched, and no key is added |
| Daficreatella25.SettlePassRecords | src/solutions/daficreatella25.ts:53-91 | after the settle pass every notified transaction's record holds its state and the block; every other record is unchanged |
| Daficreatella25.Tracker.constructor | src/solutions/daficreatella25.ts:40-43 | empty records, arrival list, maps, done set and trace |
| Daficreatella25.Tracker.OnNewBlock | src/solutions/daficreatella25.ts:45-92 | one body fetch. The block's map, the trace and the records follow the settle pass over the arrival list, repeats included, and the ledger invariant is kept |
| Daficreatella25.Tracker.SettleOrder | src/solutions/daficreatella25.ts:53-91 | the loop computes the settle pass and overwrites the records of the notified transactions |
| Daficreatella25.Tracker.OnNewTx | src/solutions/daficreatella25.ts:94-100 | the record is reset to an unsettled one with an empty block, and the transaction is appended even when it repeats |
| Daficreatella25.Tracker.OnFinalized | src/solutions/daficreatella25.ts:102-113 | nothing without a map; otherwise the done pass over the arrival list. Repeats are reported once, and the ledger invariant is kept |
| Daficreatella25.Tracker.Dispatch | src/solutions/daficreatella25.ts:115-128 | notes match the event kind, the arrival list and the trace only grow, the ledger invariant holds |
| Kanasjnr.TrackerState.constructor | src/solutions/kanasjnr.ts:45-49 | the lazily created state: empty arrivals, maps and done set |
| Kanasjnr.ApiObject.constructor | src/solutions/kanasjnr.ts:43-44 | an `api` object starts with no tracker state |
| Kanasjnr.Tracker.constructor | src/solutions/kanasjnr.ts:40-123 | the tracker closes over the `api` object and has notified nothing, so its (empty) notes agree with any shared state |
| Kanasjnr.Tracker.State | src/solutions/kanasjnr.ts:43-49 | returns the state stored on the `api` object, creating and storing a fresh empty one when missing |
| Kanasjnr.Tracker.OnNewBlock | src/solutions/kanasjnr.ts:40-80 | one body fetch. A first call only creates the state and the block's empty map. Otherwise the block's map and the trace follow filter-then-notify over the arrivals, equal to the interleaved pass. Only settled notes at this block are added, the tracker's notes keep agreeing with the shared state (settled once per block, done once), and the shared state only grows |
| Kanasjnr.Tracker.SettleCandidates | src/solutions/kanasjnr.ts:63-79 | the loop stores and notifies every candidate with its state |
| Kanasjnr.Tracker.OnNewTx | src/solutions/kanasjnr.ts:82-91 | creates the state if missing; the transaction is appended iff not yet queued; maps, done set and notes unchanged |
| Kanasjnr.Tracker.OnFinalized | src/solutions/kanasjnr.ts:93-107 | nothing before any state exists or for a block without a map; otherwise the done pass over the arrivals. Only done notes are added and the tracker's notes keep agreeing with the shared state |
| Kanasjnr.Tracker.Dispatch | src/solutions/kanasjnr.ts:109-122 | one handler per event; the trace only grows by notes of the event's kind; every settled or done note of this tracker matches the state stored under its block, no transaction is settled twice at one block or done twice; the shared state is never replaced and only grows |
| Kanasjnr.DispatchBeside | src/solutions/kanasjnr.ts:43-49 | one tracker handling any event keeps every other tracker over the same `api` object valid and leaves its notes untouched |
| Kanasjnr.AgreesGrow | src/solutions/kanasjnr.ts:43-49 | notes that agree with the shared state keep agreeing once it grows, whichever tracker grew it |
| Kanasjnr.AgreesAfterSettle | src/solutions/kanasjnr.ts:52-79 | the settle pass at a block adds only settled notes at that block, keeps the notes agreeing and settled once per block, and only grows the shared maps |
| Kanasjnr.AgreesAfterDone | src/solutions/kanasjnr.ts:93-107 | the done pass adds only done notes, each for a transaction not done before, keeps the notes agreeing, and only grows the done set |
| Kanasjnr.SettlePassStates | src/solutions/kanasjnr.ts:63-79 | the states a pass stores carry their own block hash and always have a type |
| Kanasjnr.SharedQueue | src/solutions/kanasjnr.ts:82-91 | two trackers built over one `api` object share a queue: a transaction announced to the first is queued for the second |
| Yoghantara08.TxsOfSnoc | src/solutions/yoghantara08.ts:69 | one more note adds its transaction at the end of the key order |
| Yoghantara08.TxsOfSpec | src/solutions/yoghantara08.ts:69 | the inserted keys are exactly the notes' transactions, position by position |
| Yoghantara08.BlockOrder | src/solutions/yoghantara08.ts:52 | a reused map keeps its key order; a new map starts with none |
| Yoghantara08.SettlePassKeepsOrder | src/solutions/yoghantara08.ts:56-71 | a settle pass appends exactly the newly settled transactions to the block's key order, so every map's key order lists its keys, each once |
| Yoghantara08.BlockOrderAfterScan | src/solutions/yoghantara08.ts:56-71 | after a pass, the block's key order is duplicate-free and lists exactly the map's keys |
| Yoghantara08.AppendFreshDistinct | src/solutions/yoghantara08.ts:69 | appending new keys in arrival order keeps the key order free of repeats |
| Yoghantara08.DoneCoversBlockMap | src/solutions/yoghantara08.ts:78-82 | walking a block's map in insertion order marks every key done and reports every entry not finalized before |
| Yoghantara08.Tracker.constructor | src/solutions/yoghantara08.ts:40-44 | empty set, maps, key orders, finalized set and trace |
| Yoghantara08.Tracker.OnNewTx | src/solutions/yoghantara08.ts:46-48 | added iff not yet in the set |
| Yoghantara08.Tracker.OnNewBlock | src/solutions/yoghantara08.ts:50-72 | one body fetch. The block's map, its key order and the trace follow the settle pass over the set in insertion order, and the ledger invariant is kept |
| Yoghantara08.Tracker.SettleNew | src/solutions/yoghantara08.ts:56-71 | the loop computes the settle pass and extends the key order by the settled transactions |
| Yoghantara08.Tracker.OnFinalized | src/solutions/yoghantara08.ts:74-83 | nothing without a map. Otherwise the done pass over the map's own key order, in insertion order rather than arrival order, keeping the ledger invariant |
| Yoghantara08.Tracker.Dispatch | src/solutions/yoghantara08.ts:85-98 | notes match the event kind, the set and the trace only grow, the ledger invariant holds |
| Snehagupta1907.Stamp | src/solutions/snehagupta1907.ts:87 | `{ blockHash, ...state }`: the object carries the block. It has no `type` iff there is no stored state, is invalid iff the state is invalid, and is valid with the stored flag iff the state is valid |
| Snehagupta1907.IsDesIffLineage | src/solutions/snehagupta1907.ts:44-51 | `isDes(hash, ancestor)` is true iff `ancestor` is on the parent walk from `hash` |
| Snehagupta1907.IsDesOrder | src/solutions/snehagupta1907.ts:44-51 | a truthy block descends from itself, and descent is transitive |
| Snehagupta1907.Candidates | src/solutions/snehagupta1907.ts:56-59 | the filter keeps, in arrival order, exactly the records that are not done, not settled at this hash, and whose first settling block is unset or not an ancestor-or-self of this block |
| Snehagupta1907.SettleOneSpec | src/solutions/snehagupta1907.ts:69-99 | handling one candidate. The first settling block is set, moved or kept. Included: valid with the success flag, never asking `isTxValid`. Excluded and invalid: invalid. Excluded and valid: no notification and no mark. A notified record is marked settled at this hash |
| Snehagupta1907.SettlePass | src/solutions/snehagupta1907.ts:69-99 | the `forEach` keeps the number of records |
| Snehagupta1907.SettlePassSpec | src/solutions/snehagupta1907.ts:69-99 | the pass updates exactly the candidates, each once. Its notes come from distinct candidates in ascending position, and every candidate that settles is notified |
| Snehagupta1907.Unfinished | src/solutions/snehagupta1907.ts:116-117 | the `finalized` filter keeps, in arrival order, exactly the records that are not done and have a first settling block |
| Snehagupta1907.DoneSweep | src/solutions/snehagupta1907.ts:118-125 | the sweep keeps the number of records |
| Snehagupta1907.DoneSweepRecords | src/solutions/snehagupta1907.ts:118-125 | a waiting record is marked done iff the finalized block is its first settling block or descends from it; nothing else changes |
| Snehagupta1907.DoneSweepNotes | src/solutions/snehagupta1907.ts:118-125 | one done note per record marked done, in ascending position, reporting the first settling block and the stored state |
| Snehagupta1907.SettleExtend | src/solutions/snehagupta1907.ts:69-99 | a step that only adds settled-at hashes and notifies settlements at newly added hashes keeps the records consistent with the notifications |
| Snehagupta1907.DoneExtend | src/solutions/snehagupta1907.ts:118-125 | a step that marks waiting records done and reports each once keeps the records consistent with the notifications |
| Snehagupta1907.SettlePassKeepsConsistent | src/solutions/snehagupta1907.ts:53-100 | `newBlock` keeps the records consistent with the notifications (settled at most once per block hash, done at most once), and emits only settled notes at the block |
| Snehagupta1907.DoneSweepKeepsConsistent | src/solutions/snehagupta1907.ts:113-126 | `finalized` keeps the records consistent with the notifications, and emits only done notes |
| Snehagupta1907.DoneWithoutSettlement | src/solutions/snehagupta1907.ts:71-98 | a transaction excluded from but valid at the first block it meets is never notified settled. Finalizing that block still reports it done, with a state that has no `type` |
| Snehagupta1907.SettlePassArrivalOrdered | src/solutions/snehagupta1907.ts:56-99 | settled notes of one `newBlock` follow arrival order |
| Snehagupta1907.DoneSweepArrivalOrdered | src/solutions/snehagupta1907.ts:115-125 | done notes of one `finalized` follow arrival order |
| Snehagupta1907.Tracker.constructor | src/solutions/snehagupta1907.ts:39-42 | no records, counter zero, no parents, nothing notified or asked |
| Snehagupta1907.Tracker.OnNewTx | src/solutions/snehagupta1907.ts:102-111 | appends a fresh record with the next arrival number, even for a repeat, and bumps the counter |
| Snehagupta1907.Tracker.OnNewBlock | src/solutions/snehagupta1907.ts:53-100 | records the parent, then applies the settle pass to the candidates. The body is fetched once, and only when there is a candidate. Notes are settled only and in arrival order, and consistency is kept |
| Snehagupta1907.Tracker.SettleCandidates | src/solutions/snehagupta1907.ts:63-99 | the `forEach` with a lazily fetched body: exactly one fetch, then the settle pass |
| Snehagupta1907.Tracker.HandleCandidate | src/solutions/snehagupta1907.ts:69-99 | one candidate's record, note and client calls, as the outcome rule gives them |
| Snehagupta1907.Tracker.OnFinalized | src/solutions/snehagupta1907.ts:113-126 | the done sweep over the waiting records, in arrival order, with no client call; consistency is kept |
| Snehagupta1907.Tracker.Dispatch | src/solutions/snehagupta1907.ts:128-140 | notes match the event kind; only `newTransaction` adds a record |
| Johnthecat.RankDecreases | src/solutions/johnthecat.ts:69-80 | the rank that bounds `pruneBranch` strictly drops from a block to each of its stored children |
| Johnthecat.SubtreesHas | src/solutions/johnthecat.ts:69-80 | every branch under a stored child in the list is part of the concatenated branches |
| Johnthecat.SubtreesFrom | src/solutions/johnthecat.ts:69-80 | every block in the concatenated branches comes from the branch of some stored child in the list |
| Johnthecat.SubtreeSpec | src/solutions/johnthecat.ts:69-80 | `pruneBranch` lists the block first and only stored blocks. The list is closed under stored children, and every other listed block is a child of a listed one: it is the block and exactly its stored descendants |
| Johnthecat.FlagKeepsAcyclic | src/solutions/johnthecat.ts:87 | setting `finalized` changes no child list, so child lists stay acyclic |
| Johnthecat.MarkShrinks | src/solutions/johnthecat.ts:87 | marking an unfinalized block shrinks the set of unfinalized blocks, which bounds the upward walk |
| Johnthecat.WalkFlags | src/solutions/johnthecat.ts:82-110 | on an already finalized block, `finalizeBlock` returns nothing and changes nothing. Otherwise exactly the returned blocks, each once and each previously unfinalized, become finalized, and no other field of any block changes |
| Johnthecat.WalkChain | src/solutions/johnthecat.ts:82-110 | the returned finalized list starts at the block and steps parent by parent. It stops at a root, or at a parent that is finalized or already listed |
| Johnthecat.SiblingBranchesStored | src/solutions/johnthecat.ts:91-101 | the sibling branches hold only stored blocks |
| Johnthecat.WalkPrunedStored | src/solutions/johnthecat.ts:82-110 | everything `finalizeBlock` returns as pruned is a stored block |
| Johnthecat.InOrderExtend | src/solutions/johnthecat.ts:124-150 | taking or skipping the last element of the pending set keeps a list in set order |
| Johnthecat.SettleScanSplit | src/solutions/johnthecat.ts:124-150 | the loop splits the pending set by inclusion in the body. Included transactions are processed in set order; the others stay pending, without duplicates |
| Johnthecat.SettleScanNotes | src/solutions/johnthecat.ts:124-150 | included transactions are settled valid with the success flag, or invalid, according to `isTxValid`. Excluded ones are settled invalid iff `isTxValid` says so, else not notified. Notes follow arrival order |
| Johnthecat.DoneState | src/solutions/johnthecat.ts:178-189 | the done state carries the recording block, is valid iff the transaction is valid and successful there, then with `successful` true, and always has a type |
| Johnthecat.DoneList | src/solutions/johnthecat.ts:176-193 | one done note per recorded transaction, in record order, each with its done state |
| Johnthecat.DoneAllRecords | src/solutions/johnthecat.ts:172-194 | exactly the records of the finalized blocks are deleted. Every done note is about a transaction recorded under one of them, at that block and with its done state |
| Johnthecat.DoneAllGrouped | src/solutions/johnthecat.ts:172-194 | done notes are grouped by block, in the order `finalizeBlock` returned the blocks (newest first) |
| Johnthecat.GroupedExtend | src/solutions/johnthecat.ts:172-194 | appending the notes of the next block keeps the grouping |
| Johnthecat.DoneAllOnce | src/solutions/johnthecat.ts:172-194 | with duplicate-free records, no (block, transaction) pair is reported done twice |
| Johnthecat.Registered | src/solutions/johnthecat.ts:152 | `blocks[blockHash] = createBlock(...)`: the block is stored as a fresh, childless, unfinalized block and the other keys stay |
| Johnthecat.RegisterKeepsAcyclic | src/solutions/johnthecat.ts:47-67 | registering a block keeps child lists acyclic |
| Johnthecat.WalkKeepsAcyclic | src/solutions/johnthecat.ts:82-110 | `finalizeBlock` keeps child lists acyclic |
| Johnthecat.RemoveKeepsAcyclic | src/solutions/johnthecat.ts:168-170 | deleting blocks keeps child lists acyclic |
| Johnthecat.Tracker.constructor | src/solutions/johnthecat.ts:112-115 | no blocks, an empty pending set, no records, nothing notified or fetched |
| Johnthecat.Tracker.CreateBlock | src/solutions/johnthecat.ts:47-67 | returns a fresh block and appends its hash to the child list of a stored, truthy parent; nothing else changes |
| Johnthecat.Tracker.PruneBranch | src/solutions/johnthecat.ts:69-80 | the recursive method computes `Subtree` |
| Johnthecat.Tracker.CollectSiblings | src/solutions/johnthecat.ts:91-101 | the sibling loop computes `SiblingBranches` |
| Johnthecat.Tracker.FinalizeBlock | src/solutions/johnthecat.ts:82-110 | the blocks, finalized list and pruned list are those of `Walk` and `WalkPruned` |
| Johnthecat.Tracker.OnNewBlock | src/solutions/johnthecat.ts:117-154 | registers the block. With an empty pending set nothing else happens. Otherwise the body is fetched once and the pending set, the block's record and the trace are those of `SettleScan` |
| Johnthecat.Tracker.SettlePending | src/solutions/johnthecat.ts:124-150 | the loop's result is `SettleScan` of the pending set |
| Johnthecat.Tracker.SettleNext | src/solutions/johnthecat.ts:125-149 | one iteration extends the `SettleScan` of the prefix by one transaction |
| Johnthecat.Tracker.OnNewTx | src/solutions/johnthecat.ts:156-158 | adds the transaction to the pending set unless it is there already; nothing else changes |
| Johnthecat.Tracker.ReportBlock | src/solutions/johnthecat.ts:176-193 | appends `DoneList` of the block's record |
| Johnthecat.Tracker.OnFinalized | src/solutions/johnthecat.ts:160-195 | an unknown block changes nothing. Otherwise the blocks are `Walk`'s minus the pruned ones, and records and trace are those of `DoneAll` over the newly finalized blocks |
| Johnthecat.Tracker.DeletePruned | src/solutions/johnthecat.ts:168-170 | removes exactly the pruned blocks |
| Johnthecat.Tracker.ReportFinalized | src/solutions/johnthecat.ts:172-194 | records and trace become those of `DoneAll` |
| Johnthecat.Tracker.Dispatch | src/solutions/johnthecat.ts:197-210 | notes match the event kind |
| Magofoco.BlockIndex | src/solutions/magofoco.ts:64-66 | `findIndex` by hash returns the first matching position, or nothing when no stored block carries the hash |
| Magofoco.ParentMap | src/solutions/magofoco.ts:40-46 | the parent links of the stored blocks: every stored hash maps to its parent, and only stored hashes are keys |
| Magofoco.AnnouncedSpec | src/solutions/magofoco.ts:61-75 | announcing a block keeps hashes unique, stores the hash (with its parent when it is new), and moves no block or parent link. Only a truthy stored parent's single child slot changes, to the new hash |
| Magofoco.PathUnfold | src/solutions/magofoco.ts:147-156 | one step of the walk: a stored block is followed by the walk from its parent; an unknown block gives an empty walk |
| Magofoco.FindInParentMap | src/solutions/magofoco.ts:147-156 | `find` by hash succeeds exactly for stored hashes and finds the recorded parent |
| Magofoco.PathHeights | src/solutions/magofoco.ts:147-156 | every walked block is stored and no higher than the start |
| Magofoco.PresentPathSpec | src/solutions/magofoco.ts:147-156 | the walk is empty iff the block is unknown. It starts at the block, steps to each parent, ends at a block whose parent is not stored, and visits no block twice |
| Magofoco.DropMembers | src/solutions/magofoco.ts:185-190 | after the removal loop, a block remains iff it was stored and its hash was not walked; hashes stay unique |
| Magofoco.DropStep | src/solutions/magofoco.ts:185-190 | one `findIndex`/`splice` pass removes one more hash |
| Magofoco.DropOne | src/solutions/magofoco.ts:185-190 | with unique hashes, `findIndex` then `splice` removes every block with that hash |
| Magofoco.DropNone | src/solutions/magofoco.ts:185-190 | removing no hash keeps every block |
| Magofoco.DropTwice | src/solutions/magofoco.ts:185-190 | removing hashes one after the other is removing them together |
| Magofoco.DropUnchanged | src/solutions/magofoco.ts:185-190 | a hash no block carries removes nothing |
| Magofoco.InsertPerm | src/solutions/magofoco.ts:112 | insertion adds exactly the element |
| Magofoco.InsertSorted | src/solutions/magofoco.ts:112 | insertion into a sorted sequence keeps it sorted |
| Magofoco.InsertStable | src/solutions/magofoco.ts:112 | insertion puts the element after all others with its key |
| Magofoco.InsertSpec | src/solutions/magofoco.ts:112 | insertion keeps order, adds exactly the element, and places it after its equal keys |
| Magofoco.WithKeyConcat | src/solutions/magofoco.ts:112 | selecting one key distributes over concatenation |
| Magofoco.WithKeyAbsent | src/solutions/magofoco.ts:112 | a key no element has selects nothing |
| Magofoco.SortSpec | src/solutions/magofoco.ts:112 | `sort` by arrival position is a permutation, sorted by key, and stable (elements with equal keys keep their order) |
| Magofoco.IncludedArrivalsSpec | src/solutions/magofoco.ts:80-91 | the first loop collects exactly the body entries that have arrived and are not yet settled at this block, each tagged with its first arrival position |
| Magofoco.InvalidArrivalsSpec | src/solutions/magofoco.ts:96-108 | the second loop collects exactly the arrivals not in the body, not yet settled at this block, and invalid there |
| Magofoco.NewArrivalsSpec | src/solutions/magofoco.ts:80-112 | the sorted candidates are exactly the eligible arrivals (included or invalid, not yet settled here), in non-decreasing arrival position |
| Magofoco.SettleArrivalsSpec | src/solutions/magofoco.ts:114-137 | one settled note and one record per candidate, in candidate order, both with the judged state and the record with the first arrival position |
| Magofoco.CoherentGrow | src/solutions/magofoco.ts:140-142 | a new arrival keeps every record coherent (judged state, first arrival position) |
| Magofoco.NewArrivalsEligible | src/solutions/magofoco.ts:80-112 | every sorted candidate is eligible and arrival positions do not decrease |
| Magofoco.NewBlockNotes | src/solutions/magofoco.ts:61-138 | each settled note has its judged state, is about an eligible transaction, and notes follow first arrival |
| Magofoco.NewBlockComplete | src/solutions/magofoco.ts:61-138 | every eligible transaction is notified settled with its judged state |
| Magofoco.NewBlockCoherent | src/solutions/magofoco.ts:114-137 | the pushed records keep the record invariant |
| Magofoco.PathSplit | src/solutions/magofoco.ts:159-167 | the records split, as a multiset, into those settled on the walk and the others |
| Magofoco.DoneNotesSpec | src/solutions/magofoco.ts:172-183 | one done note per collected record, with its stored state |
| Magofoco.FindRecord | src/solutions/magofoco.ts:176-180 | `findIndex` finds a record of the transaction at the block, or reports that none exists |
| Magofoco.SpliceEachSpec | src/solutions/magofoco.ts:172-183 | with coherent records, each splice removes exactly a collected record: the result is the records minus the collected ones |
| Magofoco.FinalizeRecords | src/solutions/magofoco.ts:144-183 | `finalized` removes exactly the records settled on the walk and keeps the record invariant |
| Magofoco.FinalizeNotes | src/solutions/magofoco.ts:144-183 | `finalized` reports every record settled on the walk, each once, with its stored state, in non-decreasing first arrival, stably |
| Magofoco.Tracker.constructor | src/solutions/magofoco.ts:57-59 | no arrivals, blocks, records or notes |
| Magofoco.Tracker.OnNewBlock | src/solutions/magofoco.ts:61-138 | blocks become `Announced`. Trace and records grow by `SettleArrivals` of the sorted candidates. Notes are settled only |
| Magofoco.Tracker.AddBlock | src/solutions/magofoco.ts:64-75 | the block bookkeeping is `Announced` |
| Magofoco.Tracker.CollectIncluded | src/solutions/magofoco.ts:80-91 | the loop computes `IncludedArrivals` |
| Magofoco.Tracker.CollectInvalid | src/solutions/magofoco.ts:96-108 | the loop appends `InvalidArrivals` |
| Magofoco.Tracker.SettleCandidates | src/solutions/magofoco.ts:114-137 | the loop appends `SettleArrivals` notes and records |
| Magofoco.Tracker.OnNewTx | src/solutions/magofoco.ts:140-142 | appends the transaction, repeats included; nothing else changes |
| Magofoco.Tracker.OnFinalized | src/solutions/magofoco.ts:144-191 | reports the walked records sorted by arrival, splices them out, and drops the walked blocks |
| Magofoco.Tracker.WalkPath | src/solutions/magofoco.ts:147-156 | the loop computes `PresentPath` |
| Magofoco.Tracker.CollectOnPath | src/solutions/magofoco.ts:159-167 | the loop computes `OnPath` |
| Magofoco.Tracker.ReportAndSplice | src/solutions/magofoco.ts:172-183 | the loop appends `DoneNotes` and computes `SpliceEach` |
| Magofoco.Tracker.RemoveBlocks | src/solutions/magofoco.ts:185-190 | the loop computes `Drop` |
| Magofoco.Tracker.Dispatch | src/solutions/magofoco.ts:193-206 | notes match the event kind |
| Illegalcall.SettleRoundSpec | src/solutions/illegalcall.ts:51-87 | one settled note per queued transaction that is invalid, or valid and included, with `Decide`'s state, in queue order. Exactly those transactions now map to this block; the others keep their block |
| Illegalcall.PairsStep | src/solutions/illegalcall.ts:52-57 | each pass adds the validity key of its (block, transaction) pair |
| Illegalcall.FinalizePathIsLineage | src/solutions/illegalcall.ts:96-104 | for a truthy block, the collected walk is the block's lineage without its root-most element, which is never collected |
| Illegalcall.ShouldFinalizeSpec | src/solutions/illegalcall.ts:109-127 | the `some` test holds iff a walked block with a cached body includes the transaction or finds it invalid |
| Illegalcall.DoneRoundSpec | src/solutions/illegalcall.ts:106-162 | every queued transaction that passes the test is reported done once, in queue order, against the block it last settled at and with the state judged there. Exactly the others stay queued, without duplicates |
| Illegalcall.Tracker.constructor | src/solutions/illegalcall.ts:40-45 | empty queue, maps and caches; nothing notified or asked |
| Illegalcall.Tracker.CheckValid | src/solutions/illegalcall.ts:52-57 | returns the client's answer, caches it, and asks the client only on a miss |
| Illegalcall.Tracker.CheckSuccess | src/solutions/illegalcall.ts:72-77 | the same for `isTxSuccessful` |
| Illegalcall.Tracker.FetchBody | src/solutions/illegalcall.ts:58-62 | the same for `getBody` |
| Illegalcall.Tracker.OnNewBlock | src/solutions/illegalcall.ts:47-88 | records the parent. Trace and settled-at map are `SettleRound`'s. The body is cached only when the queue is non-empty, and validity is cached for every queued pair. The cache invariant holds (each client question asked at most once) |
| Illegalcall.Tracker.SettleNext | src/solutions/illegalcall.ts:51-87 | one pass extends the loop state by one transaction |
| Illegalcall.Tracker.SettleOne | src/solutions/illegalcall.ts:52-86 | one transaction: the body and validity are cached; a note and a new settled-at block exactly when `Decide` gives a state |
| Illegalcall.Tracker.DecideOne | src/solutions/illegalcall.ts:52-86 | the cached checks give exactly `Decide`'s outcome. The body is cached, the validity key is added, and the call log only grows |
| Illegalcall.Tracker.OnNewTx | src/solutions/illegalcall.ts:90-93 | queues the transaction unless it is already queued |
| Illegalcall.Tracker.OnFinalized | src/solutions/illegalcall.ts:95-164 | the trace and the queue are `DoneRound` over the collected walk and a snapshot of the queue; the caches only grow |
| Illegalcall.Tracker.Sweep | src/solutions/illegalcall.ts:106-163 | the loop over the queue snapshot appends `DoneRound`'s notes, done notes only, and leaves its kept transactions queued |
| Illegalcall.Tracker.CollectPath | src/solutions/illegalcall.ts:96-104 | the `while (parentBlockHash)` loop computes `FinalizePath` |
| Illegalcall.Tracker.FinalizeNext | src/solutions/illegalcall.ts:108-162 | one pass extends the sweep state by one snapshot entry |
| Illegalcall.Tracker.ReportAndDrop | src/solutions/illegalcall.ts:129-161 | reports the transaction done with its judged state and splices it out of the queue |
| Illegalcall.Tracker.ShouldFinalizeCached | src/solutions/illegalcall.ts:109-127 | the cached test answers `ShouldFinalize` |
| Illegalcall.Tracker.ReportDone | src/solutions/illegalcall.ts:130-156 | reports done against the last settling block (the empty hash if none), with the state judged there |
| Illegalcall.Tracker.Dispatch | src/solutions/illegalcall.ts:166-179 | notes match the event kind |
| Mathigertner.ChainSpec | src/solutions/mathigertner.ts:133-142 | `buildChainFromBlock` is the block's lineage read backwards. It ends with the block, each element is the recorded parent of the next, it holds no empty hash, and its first element has no truthy recorded parent |
| Mathigertner.SettleIncludedSpec | src/solutions/mathigertner.ts:57-73 | one valid settled note, with the success flag, per pending transaction in the body, in pending order, and none for the others: validity is never asked |
| Mathigertner.FirstIncludingSpec | src/solutions/mathigertner.ts:102-109 | a block is found iff some chain block includes the transaction, and the one found is the root-most such block |
| Mathigertner.FoundIndices | src/solutions/mathigertner.ts:95-125 | the collected `toRemove` indices are increasing, in range, and exactly the positions whose transaction some chain block includes |
| Mathigertner.DoneFoundSpec | src/solutions/mathigertner.ts:95-125 | every pending transaction some chain block includes is reported done once, in pending order, as valid with its success flag at the block found |
| Mathigertner.UnfoundSpec | src/solutions/mathigertner.ts:95-130 | exactly the pending transactions no chain block includes remain, without duplicates |
| Mathigertner.SpliceDescending | src/solutions/mathigertner.ts:128-130 | splicing the collected indices removes one entry per index |
| Mathigertner.SpliceBeforeLast | src/solutions/mathigertner.ts:128-130 | splicing indices below the last position keeps the last element last |
| Mathigertner.SpliceLeavesUnfound | src/solutions/mathigertner.ts:128-130 | splicing out the collected indices, highest first, leaves exactly the unfound transactions in order |
| Mathigertner.Tracker.constructor | src/solutions/mathigertner.ts:38-41 | nothing pending, recorded or finalized; nothing notified or asked |
| Mathigertner.Tracker.OnNewTransaction | src/solutions/mathigertner.ts:43-47 | appends unless already pending |
| Mathigertner.Tracker.OnNewBlock | src/solutions/mathigertner.ts:49-79 | records the parent and fetches the body first. The trace grows by `SettleIncluded`; later calls are only `isTxSuccessful`; the pending list is unchanged |
| Mathigertner.Tracker.BuildChainFromBlock | src/solutions/mathigertner.ts:133-142 | the `unshift` loop computes `Chain` |
| Mathigertner.Tracker.OnFinalized | src/solutions/mathigertner.ts:81-131 | marks the chain finalized, appends `DoneFound`, and leaves `Unfound` pending |
| Mathigertner.Tracker.SpliceOut | src/solutions/mathigertner.ts:128-130 | the reverse splice loop computes `SpliceDescending` |
| Mathigertner.Tracker.MarkFinalized | src/solutions/mathigertner.ts:86-90 | adds every chain block to the finalized set |
| Mathigertner.Tracker.CollectDone | src/solutions/mathigertner.ts:95-125 | appends `DoneFound` and returns `FoundIndices`; done notes only |
| Mathigertner.Tracker.FindIncluding | src/solutions/mathigertner.ts:99-109 | the inner search answers `FirstIncluding`, with the empty hash when none |
| Mathigertner.Tracker.Dispatch | src/solutions/mathigertner.ts:144-157 | notes match the event kind |
| Hardslinger.FindParentSpec | src/solutions/hardslinger.ts:126 | `chain.entries().find` yields a key iff some key's successor list holds the block, and it yields the first such key in insertion order |
| Hardslinger.CanonicalChainAppends | src/solutions/hardslinger.ts:121-139 | the accumulated `path` argument always ends up as the suffix of the result |
| Hardslinger.CanonicalChainSpec | src/solutions/hardslinger.ts:121-139 | the canonical chain lists the ancestors root first and excludes the block itself. It is empty iff the block is empty or has no parent, ends with the parent, steps parent to child, and starts with an empty or parentless hash |
| Hardslinger.SettleEntriesSpec | src/solutions/hardslinger.ts:55-67 | every note settles a tracked entry at the block: invalid only if invalid there, valid (with the success flag) only if the body includes it |
| Hardslinger.SettleEntriesCount | src/solutions/hardslinger.ts:55-67 | a transaction is named once per firing branch per tracked copy |
| Hardslinger.EntryMentions | src/solutions/hardslinger.ts:56-66 | one entry's notes name only that entry, once per firing branch |
| Hardslinger.InvalidIncludedSettlesTwice | src/solutions/hardslinger.ts:56-66 | an entry invalid at a block whose body includes it is settled invalid and then valid in the same event |
| Hardslinger.FinalizeSpec | src/solutions/hardslinger.ts:99-119 | `finalize` reports only the finalized block's own included entries, as valid at that block with the success flag |
| Hardslinger.FinalizeCount | src/solutions/hardslinger.ts:99-119 | each included transaction is named once per tracked copy per canonical chain element, so never for an empty chain |
| Hardslinger.DoneEntriesSpec | src/solutions/hardslinger.ts:106-113 | one pass reports only included tracked entries, valid at the finalized block |
| Hardslinger.DoneEntriesCount | src/solutions/hardslinger.ts:106-113 | one pass names each included transaction once per tracked copy |
| Hardslinger.Tracker.constructor | src/solutions/hardslinger.ts:12-15 | no arrivals, memo or successor lists; nothing notified or fetched |
| Hardslinger.Tracker.GetTxs | src/solutions/hardslinger.ts:148-156 | returns the client's body and fetches it only on the first request |
| Hardslinger.Tracker.BuildChain | src/solutions/hardslinger.ts:141-146 | appends the block to the parent's successor list, creating the list at the end of the key order if absent |
| Hardslinger.Tracker.OnNewBlock | src/solutions/hardslinger.ts:46-78 | extends the successor map, appending the parent to the key order iff it is new, memoises the body, fetching it iff it was not memoised, and appends `SettleEntries` over the arrivals |
| Hardslinger.Tracker.SettlePass | src/solutions/hardslinger.ts:55-67 | the `forEach` appends `SettleEntries`; settled notes only |
| Hardslinger.Tracker.OnNewTx | src/solutions/hardslinger.ts:82-86 | appends the transaction, repeats included |
| Hardslinger.Tracker.OnFinalized | src/solutions/hardslinger.ts:88-93 | appends one `DoneEntries` pass per canonical chain element, then clears the successor map |
| Hardslinger.Tracker.Finalize | src/solutions/hardslinger.ts:99-119 | one `DoneEntries` pass per canonical chain element, each against the finalized block's own body |
| Hardslinger.Tracker.DoneRounds | src/solutions/hardslinger.ts:103-117 | the outer `forEach` appends the same `DoneEntries` pass once per round; memoised bodies stay the client's |
| Hardslinger.Tracker.DoneRound | src/solutions/hardslinger.ts:104-115 | one round fetches the finalized block's body through the memo, then appends one `DoneEntries` pass |
| Hardslinger.Tracker.DonePass | src/solutions/hardslinger.ts:106-113 | the inner `forEach` appends `DoneEntries` |
| Hardslinger.Tracker.Dispatch | src/solutions/hardslinger.ts:158-175 | notes match the event kind |
| Marsian83.FindBlock | src/solutions/marsian83.ts:109-111 | `getBlock` finds the first block with the hash, or nothing when none has it |
| Marsian83.Without | src/solutions/marsian83.ts:94-96 | the sibling filter keeps exactly the children other than the block |
| Marsian83.Siblings | src/solutions/marsian83.ts:88-100 | an unknown block has no siblings. Every sibling differs from the block and is some stored block's child |
| Marsian83.ChildlessNoSiblings | src/solutions/marsian83.ts:88-100 | when no block has a child, no block has siblings |
| Marsian83.Register | src/solutions/marsian83.ts:102-107 | `registerTxn` appends to the first block with the hash and to no other; hashes, parents and children stay |
| Marsian83.RegisterStep | src/solutions/marsian83.ts:102-107 | registering nothing changes nothing, and registering one more is registering the concatenation |
| Marsian83.SameHashesSameBlock | src/solutions/marsian83.ts:109-111 | `getBlock` depends only on the hashes in order |
| Marsian83.RemoveBlock | src/solutions/marsian83.ts:129-134 | `removeBlock` drops exactly the object `getBlock` finds, and nothing for an unknown hash |
| Marsian83.RankedSub | src/solutions/marsian83.ts:113-127 | dropping blocks keeps the ranking that bounds the recursion |
| Marsian83.Prune | src/solutions/marsian83.ts:113-127 | `pruneBranch` only removes blocks, and an unknown hash changes nothing |
| Marsian83.PruneAll | src/solutions/marsian83.ts:120-123 | the loop over the children only removes blocks |
| Marsian83.ChildlessSub | src/solutions/marsian83.ts:113-127 | dropping blocks from a chain without children leaves a chain without children |
| Marsian83.ChildlessPrune | src/solutions/marsian83.ts:113-127 | without children, pruning a block removes exactly that block |
| Marsian83.PruneSiblings | src/solutions/marsian83.ts:40-43 | the finalization loop only removes blocks and unpins once per sibling |
| Marsian83.PruneSiblingsStep | src/solutions/marsian83.ts:40-43 | one turn prunes the first sibling and unpins its pruned list, then the loop carries on |
| Marsian83.SettleBodySpec | src/solutions/marsian83.ts:18-30 | each body entry, tracked or not, gets exactly one settled note at the block, entry by entry. It is valid iff valid there, with the success flag, and invalid otherwise |
| Marsian83.SettleBodyCount | src/solutions/marsian83.ts:18-30 | each transaction is settled as often as the body lists it |
| Marsian83.Chain.constructor | src/solutions/marsian83.ts:74-77 | no blocks, no ids, counter zero |
| Marsian83.Chain.AddBlock | src/solutions/marsian83.ts:79-81 | appends a record with no children and no transactions, keeping all blocks childless |
| Marsian83.Chain.AddTxn | src/solutions/marsian83.ts:83-86 | a new transaction gets the next id, starting at 1; a repeat changes nothing |
| Marsian83.Chain.RegisterTxn | src/solutions/marsian83.ts:102-107 | the blocks become `Register`'s, still childless |
| Marsian83.Chain.RemoveBlockOf | src/solutions/marsian83.ts:129-134 | the blocks become `RemoveBlock`'s |
| Marsian83.Chain.PruneBranch | src/solutions/marsian83.ts:113-127 | the blocks become `Prune`'s. It returns the direct children, or nothing for an unknown hash |
| Marsian83.Chain.PruneChildren | src/solutions/marsian83.ts:118-123 | the loop prunes each child's branch in turn, giving `PruneAll`, and collects exactly the children, in order |
| Marsian83.Tracker.constructor | src/solutions/marsian83.ts:10-11 | a fresh chain; nothing notified |
| Marsian83.Tracker.OnNewBlock | src/solutions/marsian83.ts:13-31 | adds the block, registers every sorted body entry with it, and appends `SettleBody` |
| Marsian83.Tracker.OnNewTx | src/solutions/marsian83.ts:33-35 | a new transaction gets the next id; a repeat changes nothing |
| Marsian83.Tracker.OnFinalized | src/solutions/marsian83.ts:37-44 | blocks and trace are those of `PruneSiblings` over the block's siblings; only unpin notes are added; a chain without children stays without children |
| Marsian83.Tracker.PruneEach | src/solutions/marsian83.ts:40-43 | the loop computes `PruneSiblings` |
| Marsian83.Tracker.PruneOne | src/solutions/marsian83.ts:41-42 | prunes one sibling and unpins its `|| []` list |
| Marsian83.Tracker.Dispatch | src/solutions/marsian83.ts:46-59 | notes match the event kind, given a body order that is a permutation of the block body; no event gives a block a child |
| Marsian83.FinalizeIsInert | src/solutions/marsian83.ts:37-44 | in every reachable state (no block ever gets a child), finalization prunes nothing and unpins nothing |
| Ghkrishna.MergeSpec | src/solutions/GHkrishna.ts:47-52 | the `{ ...block, ...updatedBlock }` merge: an empty patch changes nothing, a full patch replaces the record, an absent field keeps its value, and merging the same patch again changes nothing |
| Ghkrishna.Keep | src/solutions/GHkrishna.ts:33-39 | the iteration order left after deletions keeps exactly the remaining keys, in order, without duplicates |
| Ghkrishna.KeepKeep | src/solutions/GHkrishna.ts:33-39 | filtering the order twice is filtering by the smaller key set |
| Ghkrishna.ByParent | src/solutions/GHkrishna.ts:28-30 | the filter returns only stored blocks with this parent, and every stored block with this parent |
| Ghkrishna.DeleteTree | src/solutions/GHkrishna.ts:33-39 | `deleteBlock` only removes blocks and removes the block; an unknown hash changes nothing |
| Ghkrishna.DeleteEach | src/solutions/GHkrishna.ts:37 | deleting each child in turn only removes blocks and removes every child |
| Ghkrishna.DeleteTreeSpec | src/solutions/GHkrishna.ts:33-39 | `deleteBlock` removes the block and every child listed by a removed block, and nothing that is not listed by a removed block |
| Ghkrishna.DeleteEachSpec | src/solutions/GHkrishna.ts:37 | the same closure property for a list of roots |
| Ghkrishna.KeepAll | src/solutions/GHkrishna.ts:33-39 | filtering by a superset of the order's keys changes nothing |
| Ghkrishna.BlockManager.constructor | src/solutions/GHkrishna.ts:19-21 | an empty map |
| Ghkrishna.BlockManager.AddBlock | src/solutions/GHkrishna.ts:23-25 | stores the block under its own hash; a new key goes to the end of the iteration order, an overwritten key keeps its place, and the block is then found by id |
| Ghkrishna.BlockManager.GetBlocksByParent | src/solutions/GHkrishna.ts:28-30 | exactly the stored blocks with this parent |
| Ghkrishna.BlockManager.DeleteBlock | src/solutions/GHkrishna.ts:33-39 | the map becomes `DeleteTree`'s, and the order keeps the remaining keys |
| Ghkrishna.BlockManager.GetBlockById | src/solutions/GHkrishna.ts:42-44 | a block is returned iff stored, and it is the stored one |
| Ghkrishna.BlockManager.UpdateBlock | src/solutions/GHkrishna.ts:47-52 | merges the patch into a stored record; an unknown hash changes nothing |
| Ghkrishna.SettleBodySpec | src/solutions/GHkrishna.ts:125-145 | a transaction is notified iff the body lists it and it was tracked and not yet settled, and then exactly once however often listed. Valid-and-successful settles it and keeps it; anything else settles it invalid and forgets it. Other entries stay as they were |
| Ghkrishna.DoneAllSpec | src/solutions/GHkrishna.ts:177-179 | one done note per body entry, tracked or not, valid and successful at the finalized block, so a transaction is reported as often as the body lists it |
| Ghkrishna.Tracker.constructor | src/solutions/GHkrishna.ts:56-66 | empty block manager and transaction map, no finalized block, nothing notified |
| Ghkrishna.Tracker.OnNewBlock | src/solutions/GHkrishna.ts:96-149 | stores the block with its body (a new hash goes to the end of the iteration order, a known one keeps its place), appends it to a stored truthy parent's child list, and applies `SettleBody` |
| Ghkrishna.Tracker.SettleTxs | src/solutions/GHkrishna.ts:125-145 | the `forEach` computes `SettleBody`; settled notes only |
| Ghkrishna.Tracker.OnNewTx | src/solutions/GHkrishna.ts:151-163 | (re)creates an unsettled entry, even over a settled one |
| Ghkrishna.Tracker.OnFinalized | src/solutions/GHkrishna.ts:165-192 | remembers the block and appends `DoneAll` of its body |
| Ghkrishna.Tracker.Dispatch | src/solutions/GHkrishna.ts:194-207 | notes match the event kind |
| Divljo31.Shared.constructor | src/solutions/divljo31.ts:11-13 | the module-level maps and sets start empty |
| Divljo31.SettleBodySpec | src/solutions/divljo31.ts:52-73 | one settled note per body entry, in body order, each with the entry's outcome at the block. Afterwards the pending set holds, each once, exactly the pending transactions the body does not list plus the body entries invalid at the block |
| Divljo31.SettleBodyCount | src/solutions/divljo31.ts:52-73 | the loop settles each transaction as often as the body lists it |
| Divljo31.FlushSpec | src/solutions/divljo31.ts:74-77 | each leftover pending transaction gets one invalid note at the block, in insertion order |
| Divljo31.NewBlockNotesSettled | src/solutions/divljo31.ts:45-78 | `onNewBlock` emits settled notes only |
| Divljo31.NewBlockCount | src/solutions/divljo31.ts:45-78 | a transaction is settled once per body entry, plus once more as invalid when it was pending and absent from the body or is in the body but invalid, so an invalid body entry is settled invalid at least twice |
| Divljo31.DoneBodySpec | src/solutions/divljo31.ts:87-104 | done notes follow the body entry by entry with each entry's outcome, whatever the tracker has seen, so a transaction is reported as often as the body lists it |
| Divljo31.Tracker.constructor | src/solutions/divljo31.ts:15-16 | the tracker closes over the given client and the shared module state |
| Divljo31.Tracker.OnNewBlock | src/solutions/divljo31.ts:45-78 | records the body and the block, empties the pending set, and appends `NewBlockNotes` |
| Divljo31.Tracker.SettleTxs | src/solutions/divljo31.ts:52-73 | the body loop computes `SettleBody` |
| Divljo31.Tracker.SettleOne | src/solutions/divljo31.ts:53-72 | one turn computes `SettleStep` |
| Divljo31.Tracker.FlushPending | src/solutions/divljo31.ts:74-77 | appends `Flush` of the pending set |
| Divljo31.Tracker.OnNewTx | src/solutions/divljo31.ts:80-85 | adds the transaction to the pending set unless it is there |
| Divljo31.Tracker.OnFinalized | src/solutions/divljo31.ts:87-104 | appends `DoneBody` of the finalized block's body |
| Divljo31.Tracker.Dispatch | src/solutions/divljo31.ts:106-119 | notes match the event kind |
| Emibotti.Spliced | src/solutions/emibotti.ts:61 | splicing out at `indexOf` removes exactly one copy |
| Emibotti.ScanStep | src/solutions/emibotti.ts:43-63 | one visit of the `for...of` iterator, then the rest of the walk from the next index |
| Emibotti.ScanShrinks | src/solutions/emibotti.ts:43-63 | a walk only removes entries and visits only entries of the array |
| Emibotti.ScanCount | src/solutions/emibotti.ts:43-63 | a transaction the walk does not drop keeps its count; one it drops loses one entry per visit |
| Emibotti.ScanKeepsAll | src/solutions/emibotti.ts:43-63 | when nothing is dropped, the walk visits every entry from the index on and leaves the array unchanged |
| Emibotti.ScanSkipsShiftedEntry | src/solutions/emibotti.ts:43-63 | splicing during iteration skips: of two distinct dropped entries, the second shifts into the first one's slot, is never visited, and stays |
| Emibotti.EmittedShape | src/solutions/emibotti.ts:43-83 | every note names a visited transaction: a valid one settled with its success flag at a new block, a successful one reported done at a finalized block |
| Emibotti.EmittedCount | src/solutions/emibotti.ts:43-83 | a transaction is named once per emitting visit: the valid visits at a new block, the successful (dropped) visits at a finalized block |
| Emibotti.ValidTxsRenotified | src/solutions/emibotti.ts:41-64 | when every tracked transaction is valid at the block, the block removes nothing and settles each again, once per entry |
| Emibotti.Tracker.constructor | src/solutions/emibotti.ts:39 | an empty array; nothing notified |
| Emibotti.Tracker.OnNewBlock | src/solutions/emibotti.ts:41-64 | the array and the notes are those of the new-block `Scan` |
| Emibotti.Tracker.OnNewTx | src/solutions/emibotti.ts:66-68 | appends, duplicates included |
| Emibotti.Tracker.OnFinalized | src/solutions/emibotti.ts:70-83 | the array and the notes are those of the finalized `Scan` |
| Emibotti.Tracker.WalkArray | src/solutions/emibotti.ts:43-63 | the index loop computes `Scan` and its `Emitted` notes |
| Emibotti.Tracker.VisitEntry | src/solutions/emibotti.ts:44-62 | one visit emits `EmitOne` and splices as `AfterVisit` says |
| Emibotti.Tracker.Dispatch | src/solutions/emibotti.ts:85-98 | notes match the event kind |
| Sairanjit.FirstWithParent | src/solutions/sairanjit.ts:73 | `find` by parent returns the first top-level block with that parent, or nothing when none has it |
| Sairanjit.TotalConcat | src/solutions/sairanjit.ts:76-97 | the nested block count adds up over concatenation |
| Sairanjit.PlaceSpec | src/solutions/sairanjit.ts:73-97 | the new block is stored exactly once more. It becomes the last child of the first top-level block sharing its parent and nothing else changes; without such a block it is appended at the top level, whichever of the two remaining branches runs |
| Sairanjit.Verdict | src/solutions/sairanjit.ts:104-106 | the outcome carries the block, is valid and successful iff the entry is successful there, and invalid otherwise; validity is never asked |
| Sairanjit.BodyNotesSpec | src/solutions/sairanjit.ts:99-112 | every body entry, tracked or not, gets exactly one note in body order with its verdict, so a transaction is named as often as the body lists it |
| Sairanjit.Tracker.constructor | src/solutions/sairanjit.ts:39-64 | an empty pool and block list, no finalized block, nothing notified |
| Sairanjit.Tracker.OnNewBlock | src/solutions/sairanjit.ts:68-113 | places the block with its body and appends the settled `BodyNotes` |
| Sairanjit.Tracker.Notify | src/solutions/sairanjit.ts:99-112 | the `forEach` appends `BodyNotes`, settled or done as asked |
| Sairanjit.Tracker.OnNewTx | src/solutions/sairanjit.ts:115-126 | appends an unsettled entry with index 0, duplicates included |
| Sairanjit.Tracker.OnFinalized | src/solutions/sairanjit.ts:128-139 | remembers the block and appends the done `BodyNotes` of its body |
| Sairanjit.Tracker.Dispatch | src/solutions/sairanjit.ts:141-154 | notes match the event kind |
| Tortillaguy.SettleOne | src/solutions/TortillaGuy.ts:62-75 | the note settles the transaction at the block: valid with its success flag iff the body lists it, invalid otherwise |
| Tortillaguy.SettlePendingSpec | src/solutions/TortillaGuy.ts:62-75 | every pending entry gets exactly one settled note per block, in pending order, so a transaction is settled at each block as often as it was announced |
| Tortillaguy.Stored | src/solutions/TortillaGuy.ts:57-61 | the block is stored and, under a truthy parent, appended to the parent's child list (the block's own fresh list when it is its own parent); other entries stay |
| Tortillaguy.Tracker.constructor | src/solutions/TortillaGuy.ts:51-52 | an empty chain and pending list; nothing notified |
| Tortillaguy.Tracker.OnNewBlock | src/solutions/TortillaGuy.ts:54-76 | the chain becomes `Stored`'s and the trace grows by `SettlePending` |
| Tortillaguy.Tracker.SettleAll | src/solutions/TortillaGuy.ts:62-75 | the `forEach` appends `SettlePending`; settled notes only |
| Tortillaguy.Tracker.OnNewTx | src/solutions/TortillaGuy.ts:78-81 | appends, duplicates included |
| Tortillaguy.Tracker.OnFinalized | src/solutions/TortillaGuy.ts:83 | changes nothing |
| Tortillaguy.Tracker.Dispatch | src/solutions/TortillaGuy.ts:85-98 | notes match the event kind; the pending list only grows |

## Left out

- `index.ts` is not part of this model: it loads fixtures, runs an evaluator that is not shown, and prints a score (I/O).
- The chain client and the output boundary are not shown. The client's read side is the `Api` datatype of total functions. `onTxSettled`/`onTxDone` calls, and the one `unpin` call site (src/solutions/marsian83.ts:42), become `Note`s appended to each tracker's `trace`. Client reads are logged only where a tracker's behaviour depends on them (`calls`, `bodyFetches`).
- Logging with `console.log` (src/solutions/hardslinger.ts:52-53,90 and src/solutions/TortillaGuy.ts:55) is output only and is left out. That includes the `isTxValid` calls made inside the log line at src/solutions/hardslinger.ts:53.
- Calls whose result is thrown away are left out: `isTxValid` at src/solutions/GHkrishna.ts:155 and src/solutions/sairanjit.ts:118, and the `find` at src/solutions/sairanjit.ts:100.
- State that no handler reads or writes is left out: src/solutions/GHkrishna.ts:64,66 and src/solutions/sairanjit.ts:45-49,60-62.
- JavaScript's `undefined` is modelled as the empty hash `""`. Both are falsy, and every source test on them is a truthiness test.
- Runtime `TypeError`s become preconditions. These are a missing parent reached by `finalizeBlock` (`WalkSafe`, src/solutions/johnthecat.ts:103) and an unrecorded truthy parent in src/solutions/TortillaGuy.ts:60.
- Walks that never end on a cyclic parent relation are excluded by an `Acyclic` precondition: `isDes` and the `finalized` walks of magofoco, illegalcall, mathigertner and hardslinger.
- Records mutated through a dictionary or array are modelled as values held in a `map` or `seq` field. No two places alias one record in these trackers, so in-place update and value update agree.
- Marsian83.Tracker.OnNewBlock: the in-place `sort` at src/solutions/marsian83.ts:16 has a comparator that yields `NaN` for unknown ids, so its order is implementation-defined. The sorted body is a parameter constrained only to be a permutation of the body.
- Marsian83.SettleBodySpec: an invalid state here carries no `successful: false` field, because the `Settled` datatype has no such field for invalid states.
- Illegalcall.Tracker.CheckValid: the cache keys `${blockHash}-${txn}` are modelled as (block, transaction) pairs. Strings whose separator makes two pairs collide are not modelled.
- Illegalcall.Tracker.OnNewBlock: states that the success cache and the call log only grow. It does not say which success entries are added; the cache invariant still bounds every client question to one call.
- Illegalcall.Tracker.OnFinalized: states that the caches and the call log only grow, not which entries the `some` test and the done report add.
- Mathigertner.Tracker.OnNewBlock: states the first call is the body fetch and every later call is `isTxSuccessful`. It does not list which transactions are asked.
- Johnthecat.Tracker.SettlePending: deleting from a `Set` while iterating it is modelled as iteration over an insertion-ordered snapshot. Only the current element is ever deleted, so the two agree.
- In kanasjnr, the state hung on the `api` object through `(api as any).__trackerState` is a `TrackerState` object shared by reference between trackers. Property lookup on other keys of that object is not modelled.
- In divljo31, the module-level `bodies`, `seenBlocks` and `seenTxs` are one `Shared` object handed to every tracker.
- JavaScript `Map`/`Set` iteration order is modelled by an explicit key order (`keyOrder` in yoghantara08, `order` in GHkrishna, `chainOrder` in hardslinger). Plain-object (`Record`) key order and prototype keys such as `__proto__` are not modelled; those trackers never iterate over such an object's keys.
- Magofoco.SortSpec: `Array.prototype.sort` is modelled as a stable insertion sort, matching the stability the language requires of it.
- In marsian83, the recursion of `pruneBranch` is bounded by a ghost ranking of child links. No operation ever adds a child, so the ranking is trivial in reachable states.
- Hardslinger.Tracker.Finalize: the availability of `toReversed` and of iterator helpers (src/solutions/hardslinger.ts:103,126) is assumed. The reversal does not matter, since every pass reads only the finalized block's own body.
