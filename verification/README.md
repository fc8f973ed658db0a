# VectorLedger, verified

A Dafny model of the core of VectorLedger, a double-entry ledger with a write-ahead log, a SQLite index, a BLAKE3
hash chain, Merkle proofs, a four-eyes approval queue and an audit log. `dafny verify dfyconfig.toml` checks the
whole project.

The ledger is a state machine (`Ledger.Step`, `Ledger.Run`) over the in-memory maps, the SQLite tables and the
write-ahead log. The store itself is a class (`LedgerStore.Store`) whose methods update those fields in the order
the program does and are proved to perform exactly those steps. Theorems about the machine therefore hold of
every sequence of calls on the store. The four-eyes queue and the audit log have the same two layers: a class
whose methods write step by step, and a machine in which a call can be cut, or interleaved, between any two steps.

Hashing is a parameter everywhere. No theorem assumes collision resistance; statements that need it read "equal,
or here are two distinct inputs with the same hash", with the inputs taken from the data at hand.

| module | what it holds |
|---|---|
| `Bytes`, `Hashing` | little-endian integers, hexadecimal, hash inputs |
| `Merkle` | the tree, its proofs, soundness, completeness, what a root commits to |
| `Entries`, `Parsing` | journal entries, their canonical bytes, a parser that undoes them |
| `Chain` | chain verification, ranges, the tip commits to the history |
| `Balances`, `Ledger`, `Invariants` | the balance cache, the store's operations, what every run keeps |
| `Outcomes` | what posting, reversing and settling accept, refuse and write, said without naming the checks |
| `LedgerStore` | the store as an object, operation by operation |
| `History`, `Recovery` | the cache of any run, replay of the log beside an index that may lag behind |
| `Standing`, `Integrity`, `Holds`, `Guards` | reversals, sealed hashes, legal holds, balance and exposure guards |
| `Totals`, `Reports`, `Snapshots` | conservation, the ledger equation, reconciliation, snapshot reads |
| `Bounds` | no balance, delta or sum of any run leaves i128 |
| `Scenarios` | concrete runs at which the store departs from its comments |
| `Transfers`, `Correction` | two-line entries, the concurrent correction workflow |
| `FourEyes`, `FourEyesRuns`, `FourEyesAgreement` | the approval queue, its runs under crashes and failures, when its files agree |
| `Audit` | the audit log under concurrent appends and reopenings |

## Where the code and its comments differ

The model follows the code. Each of these is a lemma with the exact condition, not only a remark.

- An index that holds some but not all entries makes recovery lose the balance effects of the entries it holds
  (`Recovery.RecoveredBalance`, `Scenarios.PartialIndexLosesBalance`).
- A new record for an existing account can change the side on which its balance grows; cache, rebuild, snapshot reads
  and reports then disagree (`History.CachedBalance`, `Recovery.RecoveredBalance`, `Scenarios.TypeChangeBreaksRebuild`).
- Neither reversal nor a new account record checks the guarded balance (`Guards.NeverOverdrawn`,
  `Scenarios.ReversalOverdraws`, `Scenarios.RecordGuardsDebt`).
- Reconciliation signs Suspense accounts the other way from the cache (`Reports.ReconcileInRun`).
- Range bounds from 2^63 on, and a missing upper bound, scan other rows than they say (`Chain.RangeScanIsExact`,
  `Chain.OpenEndedRangeIsVacuous`).
- A content hash computed before the sequence number is assigned is kept, and then does not verify
  (`Integrity.ChainVerifiesExactlyWhenSealedRight`, `Integrity.EarlyContentHashNeedsCollision`).
- The precision bound is 10^18 for every precision up to 18, not 10^(18 - precision), and the least i64 passes it
  (`Reports.MaxMinorIs`, `Reports.PrecisionRefuses`, `Reports.LeastAmountIsAccepted`).
- A Merkle root does not commit to the number of items (`Merkle.DuplicatedTailKeepsRoot`).
- Effective and posting times outside the i64 nanosecond range hash like the epoch (`Parsing.CanonicalUpToTimes`,
  `Parsing.TimeAliasing`).
- A hold is said to last until it is explicitly lifted, but filing a new record without the flag ends it too
  (`Holds.HoldLasts`, `Scenarios.RecordLiftsHold`).
- An approval is posted at most once over every run that is not interrupted between a posting and the record of its
  approval (`FourEyesRuns.PostedAtMostOnce`). An interruption just there, by a crash or by a failed append, lets a
  retry add a second entry exactly when the entry has no idempotency key and the account checks still pass
  (`FourEyesRuns.RetryAfterCrashPostsTwice`, `FourEyesRuns.RetryAfterFailurePostsTwice`).
- `post_entry` accepts entries under the status Reversal, which then undo nothing (`Standing.ReversalsAreOneToOne`).
- Rejection does not look at the approved file, nor approval at the rejected one: an interruption right after a
  decision is recorded can leave one id both approved and rejected (`FourEyesAgreement.HarmlessRunsAgree`,
  `FourEyesAgreement.HarmfulApproval`, `FourEyesAgreement.HarmfulRejection`).
- A failed flush or sync leaves the audit line in the file and the tip behind it, so the next append breaks the chain
  (`Audit.LogVerifiesExactly`, `Audit.FailedSyncBreaksChain`).
- A reopened audit log takes its next number from the last line, which need not carry the highest number
  (`Audit.ReopenRepeatsNumbers`).

## Model

| member | source | states |
|---|---|---|
| `Recovery.RecoveryFromLogAlone` | crates/vledger-ledger/src/store.rs:565-870 | for every run, replaying the log with an empty index restores the whole live state: accounts, holds, cache, counters, tip, reversals, settlements, index |
| `Recovery.RecoveryWithIndex` | crates/vledger-ledger/src/store.rs:700-859 | for every run and an index holding the first m of n entries: everything but the cache is restored; the cache is right for m = 0, holds the entries beyond m for 0 < m < n, and for m = n is the journal folded up under the final account records |
| `Recovery.StepKeepsTraced` | crates/vledger-ledger/src/store.rs:700-859 | every operation keeps it true that replaying the log restores the state up to its cache, for every part of the journal the index may hold; also when the cache was lost by an earlier recovery |
| `Recovery.RecoveryOfTraced` | crates/vledger-ledger/src/store.rs:565-870 | recovery of such a state changes nothing but its cache |
| `Recovery.RecoveredBalance` | crates/vledger-ledger/src/store.rs:848-859 | for every run, a recovered balance is right if and only if: the index was complete and what was counted on the other side than the account's final record counts nets to zero; or it was not and the entries it held had added nothing to the balance |
| `History.RunFollows` | crates/vledger-ledger/src/store.rs:936-958 | for every run the cache is the journal folded up, each entry under the account records of the time |
| `History.CachedBalance` | crates/vledger-ledger/src/store.rs:936-958 | for every run a cached balance is the signed sum over the journal if and only if what was counted on the other side than the final record counts nets to zero |
| `Scenarios.PartialIndexLosesBalance` | crates/vledger-ledger/src/store.rs:743-754 | a concrete run: an index that holds one of two entries leaves an empty cash account with a balance after recovery |
| `Scenarios.TypeChangeBreaksRebuild` | crates/vledger-ledger/src/entry_db.rs:1162-1195 | a concrete run: cash of 100 filed anew as a liability is recovered from a complete index as -100 |
| `LedgerStore.Store.Open` | crates/vledger-ledger/src/store.rs:565-870 | opening a store on a log and an index yields the recovered state that the recovery theorems are about |
| `LedgerStore.Store.ReplayFromWal` | crates/vledger-ledger/src/store.rs:665-859 | the streaming replay, with its assumption that the index is current and the final rebuild, computes that state |
| `LedgerStore.Store.ReplayEntryRow` | crates/vledger-ledger/src/store.rs:687-804 | one replayed entry: skipped, or applied and indexed, as the assumption and the index's highest sequence decide |
| `LedgerStore.Store.RebuildBalanceCache` | crates/vledger-ledger/src/entry_db.rs:1162-1195 | the rebuild folds the index rows into the cache, abandoning an entry at its first line on an unknown account |
| `Recovery.RebuildIsReplay` | crates/vledger-ledger/src/entry_db.rs:1162-1195 | when every account is known, the rebuild gives the same cache as applying the entries one by one |
| `Recovery.RebuildStops` | crates/vledger-ledger/src/entry_db.rs:1162-1195 | otherwise the rebuild of an entry applies its lines up to the first unknown account and none after it |
| `LedgerStore.Store.CreateAccount` | crates/vledger-ledger/src/store.rs:1076-1086 | the record is filed as given and logged, the hold set follows its flag, and nothing else changes |
| `LedgerStore.Store.CloseAccount` | crates/vledger-ledger/src/store.rs:1094-1111 | a known account becomes Closed, its other fields kept, and is logged; an unknown one is an error that changes nothing |
| `LedgerStore.Store.SetLegalHold` | crates/vledger-ledger/src/store.rs:1968-1982 | flag, hold set and log change together; an unknown account is an error that changes nothing |
| `LedgerStore.Store.PostEntry` | crates/vledger-ledger/src/store.rs:1128-1334 | the new state is the machine's posting step, and the result is the sequence, the earlier sequence of a repeated key, or the first failed check |
| `LedgerStore.CheckLines` | crates/vledger-ledger/src/store.rs:1148-1205 | no error if and only if every line passes; otherwise the error of the first line that fails; which lines pass is `Outcomes.LineRefusedFor` |
| `LedgerStore.NetDebitDeltas` | crates/vledger-ledger/src/store.rs:1228-1235 | the map built line by line holds exactly the touched accounts, each with its debits less its credits |
| `LedgerStore.TotalDebits` | crates/vledger-ledger/src/store.rs:1237-1244 | the map built line by line holds the sum of each account's debit lines |
| `LedgerStore.CheckAccounts` | crates/vledger-ledger/src/store.rs:1246-1288 | in whatever order accounts are visited: an error belongs to an account that fails, and no error means none fails |
| `Outcomes.AcceptedExactly` | crates/vledger-ledger/src/store.rs:1128-1289 | an entry is appended if and only if it has two lines, its sides agree, its key is not in the journal, every line is on a known, Active, unheld account of its currency, within the currency's bound and approved where that is required, and every account keeps its exposure limit and its guarded balance |
| `Outcomes.LineRefusedFor` | crates/vledger-ledger/src/store.rs:1148-1205 | which error a line gets, with its particulars: that of the first check to fail, in the order of the checks, and none if and only if all pass |
| `Outcomes.AccountRefusedFor` | crates/vledger-ledger/src/store.rs:1246-1288 | which error an account gets over the sum of its lines: exposure first, then balance, with the figures reported |
| `Outcomes.SumsBySide` | crates/vledger-ledger/src/store.rs:1228-1244 | net debit and debit total of an account are sums over its own lines by side |
| `Outcomes.PostedRow` | crates/vledger-ledger/src/store.rs:1291-1334 | the row appended is the caller's entry in every field but number, posting time and hashes |
| `Outcomes.RepeatedKeyAnswer` | crates/vledger-ledger/src/store.rs:1132-1144 | the answer to a repeated key is the number of the first entry that carries it |
| `Outcomes.OtherStatusMovesNothing` | crates/vledger-ledger/src/store.rs:1309-1316 | posting under any status but Posted and Reversal leaves every balance as it was |
| `Outcomes.ReversalRefusedFor` | crates/vledger-ledger/src/store.rs:1360-1398 | which error a reversal gets: status, then the first held account, then an earlier reversal, and none if and only if all three pass |
| `Outcomes.ReversedRow` | crates/vledger-ledger/src/store.rs:1400-1506 | a reversal appends one entry with the caller's texts and times and the original's lines opposed, currency included, indexes it, and commits entry and link in one transaction |
| `Outcomes.SettledExactly` | crates/vledger-ledger/src/store.rs:1909-1946 | a settlement goes through if and only if the entry is found and none of its accounts is held, whatever its status, and changes that one settlement and the log |
| `Outcomes.UnknownIsNotFound` | crates/vledger-ledger/src/store.rs:1360-1376 | an id that no entry has is not found, by reversal and settlement alike |
| `LedgerStore.Store.ReverseEntry` | crates/vledger-ledger/src/store.rs:1353-1506 | the new state is the machine's reversal step, and the result is the reversal's id or exactly the failed check; what is refused and appended is `Outcomes.ReversalRefusedFor` and `Outcomes.ReversedRow` |
| `LedgerStore.Store.ApplySettlementEvent` | crates/vledger-ledger/src/store.rs:1909-1946 | success records the status and logs it and changes nothing else, failure changes nothing, and the result is success or exactly the failed check |
| `LedgerStore.Store.ReconcileAndRecord` | crates/vledger-ledger/src/store.rs:2056-2103 | reports as reconciliation does, and logs one record |
| `LedgerStore.Store.UpdateBalanceCache` | crates/vledger-ledger/src/store.rs:936-958 | one line moves one balance by its signed amount; a line on an unknown account moves none |
| `LedgerStore.Store.InsertIntoIndex` | crates/vledger-ledger/src/entry_db.rs:644-684 | the row is added once, in order, if and only if its sequence and its key are both free; its accounts are cross-referenced either way |
| `LedgerStore.FindEntry` | crates/vledger-ledger/src/store.rs:1360-1376 | scanning for an id and then looking up its sequence finds the last row with that id |
| `LedgerStore.FlipLines` | crates/vledger-ledger/src/store.rs:1400-1415 | each line on the same account, in the same currency and amount, on the other side, with a memo that names the old line |
| `Entries.Validate` | crates/vledger-ledger/src/entry.rs:128-152 | success if and only if there are two lines and debits equal credits, with the exact error otherwise |
| `Entries.CanonicalBytes` | crates/vledger-ledger/src/entry.rs:173-262 | the buffer filled field by field is the canonical encoding the theorems are about |
| `Entries.SealedEntryVerifies` | crates/vledger-ledger/src/entry.rs:287-324 | a sealed entry verifies if and only if its content hash was unset or already right |
| `Entries.FullySealedEntryVerifies` | crates/vledger-ledger/src/entry.rs:306-324 | an entry whose two hashes are both recomputed always verifies |
| `Parsing.ReadEntryBack` | crates/vledger-ledger/src/entry.rs:173-262 | a parser recovers every hashed field from the canonical bytes and stops exactly at their end |
| `Parsing.CanonicalIsPrefixFree` | crates/vledger-ledger/src/entry.rs:173-262 | no canonical encoding is a proper prefix of another |
| `Parsing.CanonicalIsInjective` | crates/vledger-ledger/src/entry.rs:173-262 | equal encodings if and only if equal hashed fields |
| `Parsing.CanonicalUpToTimes` | crates/vledger-ledger/src/entry.rs:198-211 | without the bound on instants: equal encodings if and only if equal hashed fields with both times clipped to what is written for them |
| `Parsing.TimeAliasing` | crates/vledger-ledger/src/entry.rs:198-211 | two pairs of times are confused if and only if, one by one, they agree or each is zero or out of range |
| `Parsing.CanonicalLayout` | crates/vledger-ledger/src/entry.rs:173-262 | the canonical bytes field by field, in order, with lengths, absent marks and reference flags written out |
| `Parsing.HeaderLayout` | crates/vledger-ledger/src/entry.rs:194-211 | the offsets of version, id, sequence, status and both times, and the number of each status |
| `Parsing.LineLayout` | crates/vledger-ledger/src/entry.rs:251-259 | the offsets of a line's ids, amount and side, and its texts |
| `Hashing.InputLayouts` | crates/vledger-crypto/src/hash.rs:19-97 | what is hashed for a leaf, a node and a link: prefix bytes, and the order of the parts |
| `Chain.VerifyFrom` | crates/vledger-ledger/src/store.rs:1660-1681 | success if and only if the chain is valid, with its tip; otherwise the first unsound entry is named |
| `Chain.VerifyRange` | crates/vledger-ledger/src/store.rs:1689-1725 | success if and only if the scanned rows are a valid chain from their own first link, with count and tip; otherwise the first unsound entry is named |
| `Chain.OpenEndedRangeIsVacuous` | crates/vledger-ledger/src/store.rs:1689-1699 | an upper bound from 2^63 on, and a missing one, scans nothing on every table, so the check always succeeds |
| `Chain.WholeChainIsTwoRanges` | crates/vledger-ledger/src/store.rs:1660-1725 | full verification is equivalent to verifying two adjacent ranges, the link between them and the zero start |
| `Chain.RangeScanIsExact` | crates/vledger-ledger/src/entry_db.rs:1051-1071 | for all u64 bounds on gap-free rows: the scan returns the rows between the bounds if and only if the table is empty; or the upper bound is below 2^63 and the lower one is too, or the upper one is 0; or the upper bound is from 2^63 on and the lower one lies beyond the table or beyond the upper one |
| `Chain.TipBindsHistory` | crates/vledger-ledger/src/store.rs:1660-1681 | two verified chains with one tip have the same history, or a collision or a preimage of the zero hash is exhibited |
| `Chain.TipDeterminesEntries` | crates/vledger-ledger/src/entry.rs:287-324 | and then every hashed field of every entry is the same |
| `Integrity.ChainVerifiesExactlyWhenSealedRight` | crates/vledger-ledger/src/store.rs:1295-1298 | for every run whatever: sequences are 1 to n without a gap, the tip is the last chain hash, and the chain verifies if and only if every accepted post came with an unset or right content hash |
| `Integrity.EarlyContentHashNeedsCollision` | crates/vledger-ledger/src/entry.rs:272-299 | a content hash taken before the sequence was assigned verifies if and only if two different encodings collide |
| `Invariants.StepKeepsInv` | crates/vledger-ledger/src/store.rs:1076-1506 | every operation keeps: gap-free rows, unique keys, balanced entries on known accounts, matching cross references, holds equal flags |
| `Invariants.RunKeepsInv` | crates/vledger-ledger/src/store.rs:1076-1506 | so does every run |
| `Invariants.StepKeepsCache` | crates/vledger-ledger/src/store.rs:1076-1086 | an operation keeps every cached balance equal to the signed sum over the journal if and only if it does not file a record that counts an existing balance on the other side |
| `Invariants.JournalGrows` | crates/vledger-ledger/src/store.rs:1295-1334 | the journal is append-only: an operation adds at most one entry, at the end |
| `Balances.ApplyEntriesBalance` | crates/vledger-ledger/src/store.rs:936-958 | the running cache is, on every account, the signed net of the entries folded into it |
| `Standing.BalanceIsSumOfWhatStands` | crates/vledger-ledger/src/store.rs:1353-1506 | for every run whatever, repeated ids included: each journal net is the sum over the entries that neither were reversed nor reverse another, and the cached balance is that sum, signed, if and only if what was counted on the other side than the final record counts nets to zero |
| `Standing.StandingBalance` | crates/vledger-ledger/src/store.rs:1353-1506 | in particular the cached balance is that sum when no record with a balance was replaced by one of the other side |
| `Standing.ReversalsAreOneToOne` | crates/vledger-ledger/src/store.rs:1391-1498 | for every run: reversals pair Posted entries one to one with mirror entries that name them, the reversal index holds exactly those pairs, and every Reversal entry is in a pair if and only if no caller posted an entry under that status |
| `Standing.IndexTellsWhatStands` | crates/vledger-ledger/src/store.rs:1391-1398 | where ids do not repeat, an entry stands if and only if the reversal index holds its id neither as an original nor as a reversal |
| `Holds.HoldSetIsFlags` | crates/vledger-ledger/src/store.rs:873-880 | for every run the hold set is the set of accounts whose flag is set |
| `Holds.HoldLasts` | crates/vledger-ledger/src/account.rs:84-86 | an account is held in every state of a run if and only if nothing in the run lifts the hold or files a record without it |
| `Holds.HoldFreezesBalance` | crates/vledger-ledger/src/store.rs:1377-1390 | while a hold lasts, no run whatever appends an entry on the account or moves its balance, also when the account is filed anew with its hold |
| `Holds.HoldFreezesAccount` | crates/vledger-ledger/src/store.rs:1383-1390 | and, ids being unique, none records a reversal or settlement of an entry that touches it, whatever the entries' status |
| `Scenarios.RecordLiftsHold` | crates/vledger-ledger/src/store.rs:1076-1086 | a concrete run: a held cash account is filed anew without the flag, nobody lifts the hold, and a payment from it is appended |
| `Guards.AdmissionThroughout` | crates/vledger-ledger/src/store.rs:1146-1265 | for every run, every entry but those that `reverse_entry` appended balanced, on accounts that were then known, Active, not held, of the line's currency, approved where they require it, and within their exposure limits |
| `Guards.ExposureThroughout` | crates/vledger-ledger/src/store.rs:1251-1265 | in particular its debit lines on each account added up to no more than the exposure limit of the time |
| `Guards.ClosedTakesNoPosts` | crates/vledger-ledger/src/store.rs:1094-1157 | after an account is closed no run accepts an entry that touches it, unless it is filed anew |
| `Guards.PostKeepsNonNegative` | crates/vledger-ledger/src/store.rs:1266-1287 | an accepted post leaves a guarded balance non-negative, however many lines hit it |
| `Guards.StepNonNegative` | crates/vledger-ledger/src/store.rs:1220-1289 | a step keeps all guarded balances non-negative if and only if it is neither a reversal whose effect has been spent nor a record that starts guarding an overdrawn balance |
| `Guards.NeverOverdrawn` | crates/vledger-ledger/src/store.rs:1353-1506 | a run never has a guarded account overdrawn if and only if each of its reversals was covered and no record started guarding an overdrawn balance |
| `Scenarios.ReversalOverdraws` | crates/vledger-ledger/src/store.rs:1353-1506 | a concrete run from the empty ledger in which a reversal leaves a guarded cash account at -100 |
| `Scenarios.RecordGuardsDebt` | crates/vledger-ledger/src/store.rs:1076-1086 | a concrete run in which a new record guards a cash account that stands at -100 |
| `Totals.JournalNetsToZero` | crates/vledger-ledger/src/entry.rs:128-152 | conservation: over all accounts a balanced journal nets to zero |
| `Totals.NoSumOverflows` | crates/vledger-ledger/src/store.rs:1992-2142 | with fewer than 2^63 lines no account net, not twice one, and no sum of signed nets over accounts reaches 2^127 with either sign |
| `Bounds.NoCachedSumOverflows` | crates/vledger-ledger/src/store.rs:1992-2142 | for every run with fewer than 2^63 lines, whatever records accounts were filed under: cached balances and all sums of them, signed in any way, are below 2^126 in magnitude, and reconciliation deltas below 2^127 |
| `Totals.SideTotalBound` | crates/vledger-ledger/src/entry.rs:128-152 | nor do the totals taken in validation |
| `Reports.CheckFinancialInvariants` | crates/vledger-ledger/src/store.rs:2117-2142 | success if and only if the Asset and Expense balances add up to the Liability, Equity and Income balances, whatever the visiting order; otherwise both sums |
| `Reports.EquationInRun` | crates/vledger-ledger/src/store.rs:2117-2142 | for every run those sums differ by the Contra and Suspense balances, less twice what was counted on the other side than the final records count; success if and only if these two agree |
| `Reports.EquationDiffersByExcluded` | crates/vledger-ledger/src/store.rs:2117-2142 | where the cache is the signed sum over the journal, they differ by the Contra and Suspense balances, and agree if and only if those cancel |
| `Reports.Reconcile` | crates/vledger-ledger/src/store.rs:1992-2044 | reports each account whose cached and recomputed balances differ, once, with its code, both values and their difference, and no other |
| `Reports.ReconcileInRun` | crates/vledger-ledger/src/store.rs:1992-2044 | for every run, the delta found on every account, and that an account is reported if and only if it is not zero |
| `Reports.ReconcileReportsSuspense` | crates/vledger-ledger/src/store.rs:1992-2044 | where the cache is the signed sum over the journal, the reported accounts are exactly the Suspense accounts with a balance, each with delta minus twice it |
| `Reports.MaxMinorIs` | crates/vledger-ledger/src/store.rs:1184-1192 | the saturating computation gives exactly 10^18 for every precision up to 18, and the largest i64 beyond |
| `Reports.PrecisionRefuses` | crates/vledger-ledger/src/store.rs:1184-1201 | in a currency of precision up to 18 the check refuses an amount if and only if it is beyond 10^18 in magnitude and not the least i64 |
| `Reports.AcceptedAmounts` | crates/vledger-ledger/src/store.rs:1184-1201 | accepted amounts in such currencies are within 10^18 or are the least i64 |
| `Reports.LeastAmountIsAccepted` | crates/vledger-ledger/src/store.rs:1184-1201 | an entry of the least i64 between open, unguarded accounts is accepted under every registry |
| `Snapshots.BalanceAtSnapshot` | crates/vledger-ledger/src/store.rs:2185-2226 | the scan over the account's cross-referenced entries computes the snapshot balance |
| `Snapshots.CurrentSnapshotIsCache` | crates/vledger-ledger/src/store.rs:2170-2226 | for every run, the scan at the current snapshot equals the cached balance if and only if what was counted on the other side than the final record counts nets to zero; entries with several lines on the account count once |
| `Snapshots.SnapshotsAreStable` | crates/vledger-ledger/src/store.rs:2170-2237 | after every later run a fixed snapshot lists the same entries, and gives an account the same balance if and only if it was opened later, grows on the same side still, or nets to zero up to the snapshot |
| `Correction.CorrectionIsExactlyOnce` | crates/vledger-ledger/src/correction_concurrency_tests.rs:156-236 | for any number of callers, amounts of either sign and any interleaving with each other and with other traffic: nobody fails, at most one reversal and one correction are appended, every finished caller returns the numbers of these two entries, and the balances are corrected; a guarded cash account must cover what the two entries take from it |
| `Correction.AnyRetryCompletes` | crates/vledger-ledger/src/correction_concurrency_tests.rs:156-236 | wherever callers stopped, one retry, with new ids and times at each step, finishes the correction in at most four steps |
| `Correction.KeysDiffer` | crates/vledger-ledger/src/correction_concurrency_tests.rs:156-236 | the two keys derived from an entry id are distinct, as the two theorems require |
| `Merkle.NextLayer` | crates/vledger-crypto/src/merkle.rs:44-59 | the pairing loop computes the next layer, duplicating the last node of an odd one |
| `Merkle.ComputeRoot` | crates/vledger-crypto/src/merkle.rs:28-40 | the loop over layers computes the tree's root, zero for no items |
| `Merkle.Verify` | crates/vledger-crypto/src/merkle.rs:86-100 | success if and only if the path folds the leaf hash to the root |
| `Merkle.BuildProof` | crates/vledger-crypto/src/merkle.rs:109-146 | completeness: a proof if and only if the index is in range, and it verifies against the root with one step per layer, on the sides given by the binary digits of the index |
| `Merkle.SmallRoots` | crates/vledger-crypto/src/merkle.rs:28-59 | the roots of one, two and three items written out, hash by hash |
| `Merkle.FoldCons` | crates/vledger-crypto/src/merkle.rs:86-100 | a path is folded from its first step on, each sibling on the side its flag says |
| `Merkle.DepthIsCeilLog2` | crates/vledger-crypto/src/merkle.rs:109-146 | the number of layers, hence the path length, is the ceiling of log2 of the leaf count |
| `Merkle.MerkleSoundness` | crates/vledger-crypto/src/merkle.rs:86-100 | a path of any length that leads to the root starts from an item, or a collision between path and tree is exhibited |
| `Merkle.EmptyTreeHasNoMembers` | crates/vledger-crypto/src/merkle.rs:28-31 | a path that verifies against the empty root exhibits a preimage of the zero hash |
| `Merkle.RootCommitsToPaddedItems` | crates/vledger-crypto/src/merkle.rs:28-59 | equal padded lists have equal roots, and equal roots come from equal padded lists or exhibit a collision |
| `Merkle.EqualLengthBinding` | crates/vledger-crypto/src/merkle.rs:28-59 | lists of equal length with equal roots are equal, or a collision is exhibited |
| `Merkle.DuplicatedTailKeepsRoot` | crates/vledger-crypto/src/merkle.rs:49-54 | repeating the last item of an odd list keeps the root |
| `FourEyes.FourEyesQueue.constructor` | crates/vledger-foureyes/src/queue.rs:310-335 | opening loads every parsable pending record, the last line of an id winning |
| `FourEyes.FourEyesQueue.FindInDecided` | crates/vledger-foureyes/src/queue.rs:351-375 | the scan returns the first record of the id, or none |
| `FourEyes.FourEyesQueue.RemovePendingLines` | crates/vledger-foureyes/src/queue.rs:264-307 | the rewritten file has every line but those of the id, unparsable ones included |
| `FourEyes.LoadWithout` | crates/vledger-foureyes/src/queue.rs:264-335 | loading the rewritten file is loading the old one without the id |
| `FourEyes.WithoutConcat` | crates/vledger-foureyes/src/queue.rs:264-307 | lines are kept or dropped one by one and stay in order |
| `FourEyes.WithoutOne` | crates/vledger-foureyes/src/queue.rs:264-307 | a line is dropped if and only if it parses and carries the id |
| `FourEyes.FourEyesQueue.Submit` | crates/vledger-foureyes/src/queue.rs:66-105 | a pending record is appended to the file and remembered |
| `FourEyes.FourEyesQueue.Approve` | crates/vledger-foureyes/src/queue.rs:120-170 | the whole outcome: the earlier approval, the failed check, a failed post that changes nothing, or the decided record moved from pending to approved |
| `FourEyes.ApproveOutcome` | crates/vledger-foureyes/src/queue.rs:120-170 | a record comes back if and only if the id is in the approved file, or is pending, from another submitter, and posts; which record or error that is, and the queue left behind, in every case |
| `FourEyes.FourEyesQueue.Reject` | crates/vledger-foureyes/src/queue.rs:173-209 | the whole outcome: the failed check, or the decided record moved from pending to rejected |
| `FourEyes.RejectOutcome` | crates/vledger-foureyes/src/queue.rs:173-209 | a record comes back if and only if the id is pending from another submitter; which record or error, and the queue left behind, in every case |
| `FourEyesRuns.ApprovalIsRun` | crates/vledger-foureyes/src/queue.rs:120-170 | an approval that is not cut short does in its four steps what the method does |
| `FourEyesRuns.SubmissionIsRun` | crates/vledger-foureyes/src/queue.rs:66-105 | a submission that is not cut short does in its two steps what the method does |
| `FourEyesRuns.RejectionIsRun` | crates/vledger-foureyes/src/queue.rs:173-209 | a rejection that is not cut short does in its three steps what the method does |
| `FourEyesRuns.SafeUnderCrashes` | crates/vledger-foureyes/src/queue.rs:120-209 | over every run with crashes of queue and ledger, failures, retries and ledger traffic: no decision by the submitter, no submission lost, every approved id posted, and a keyed approval adds at most one entry |
| `FourEyesRuns.ApprovedIsNeverPostedAgain` | crates/vledger-foureyes/src/queue.rs:132-139 | once an id is in the approved file no continuation posts it again |
| `FourEyesRuns.PostedAtMostOnce` | crates/vledger-foureyes/src/queue.rs:120-170 | over every run with no crash or failure between a posting and the record of its approval, whatever is interrupted elsewhere: each id, keyed or not, is posted at most once and adds at most one entry |
| `FourEyesRuns.RetryAfterCrashPostsTwice` | crates/vledger-foureyes/src/queue.rs:120-156 | after a crash between post and append, the retry adds a second entry if and only if there is no key and the account checks pass against the recovered balances |
| `FourEyesRuns.RetryAfterFailurePostsTwice` | crates/vledger-foureyes/src/queue.rs:150-156 | after a failed append of the approval, the retry in the same process adds a second entry if and only if there is no key and the account checks pass against the live balances |
| `FourEyesRuns.UnguardedRetry` | crates/vledger-foureyes/src/queue.rs:120-156 | and where no touched balance is guarded those checks do still pass |
| `FourEyesAgreement.ApprovalAgrees` | crates/vledger-foureyes/src/queue.rs:120-170 | an approval leaves no id in both decision files if and only if there was none and it did not go through for a rejected id |
| `FourEyesAgreement.RejectionAgrees` | crates/vledger-foureyes/src/queue.rs:173-209 | and a rejection, if and only if it did not go through for an approved id |
| `FourEyesAgreement.HarmlessRunsAgree` | crates/vledger-foureyes/src/queue.rs:120-307 | a run with no crash or failure between recording a decision and removing its pending line, and no failure between that and forgetting the record, never has an id both approved and rejected, and its files partition the submitted ids between calls |
| `FourEyesAgreement.HarmfulApproval` | crates/vledger-foureyes/src/queue.rs:155-157 | from any state with a postable pending record, each of those interruptions of an approval lets the posted and approved id be rejected too |
| `FourEyesAgreement.HarmfulRejection` | crates/vledger-foureyes/src/queue.rs:193-195 | and each of those interruptions of a rejection lets the rejected id be posted and approved |
| `FourEyesAgreement.UninterruptedPartition` | crates/vledger-foureyes/src/queue.rs:66-307 | in uninterrupted runs memory is the pending file, the three files partition the submitted ids, and the approved file lists each successful post once, in order |
| `Audit.AuditLog.constructor` | crates/vledger-audit/src/log.rs:38-60 | opening resumes after the last line that parses, under the next number, and from number 1 and the zero hash if none does |
| `Audit.ZeroTextIsZeroHash` | crates/vledger-audit/src/event.rs:118-120 | the text a first event is chained to is the hexadecimal zero hash |
| `Audit.AuditLog.Commit` | crates/vledger-audit/src/log.rs:75-92 | under the lock the caller's number, time and text are hashed and chained to the tip; then an error before the line is written, an error after it that leaves the tip behind, or the line written and the tip advanced |
| `Audit.AuditLog.Append` | crates/vledger-audit/src/log.rs:63-93 | without interleaving the event carries the next number, with the same three outcomes; the number is used up by all of them |
| `Audit.AuditLog.VerifyChain` | crates/vledger-audit/src/log.rs:108-141 | the exact count if and only if the file is a linked chain; otherwise the problem of the first bad line |
| `Audit.StepLinks` | crates/vledger-audit/src/event.rs:139-163 | a written event keeps the file a linked chain if and only if the tip is the chain hash of the file's last event |
| `Audit.LogVerifiesExactly` | crates/vledger-audit/src/log.rs:63-141 | for every interleaving, failure and reopening: the file is a linked chain while nothing is written between a failure after a write and the next reopening; once something is, it is not, unless an event's chain hash equals its own previous hash |
| `Audit.FailedSyncBreaksChain` | crates/vledger-audit/src/log.rs:82-90 | from any good log: after a write whose sync failed, the next append leaves a linked chain if and only if the first event's chain hash is the tip it was chained to |
| `Audit.NumbersAreAccountedFor` | crates/vledger-audit/src/log.rs:63-73 | every number drawn is written, in flight or lost, exactly once |
| `Audit.NumbersArePermutation` | crates/vledger-audit/src/log.rs:63-93 | with nothing in flight or lost the file's numbers are a permutation of 1 to n |
| `Audit.NumbersCanBeOutOfOrder` | crates/vledger-audit/src/log.rs:63-93 | any two overlapping appends can reach the file in the other order |
| `Audit.AppendAfterReopen` | crates/vledger-audit/src/log.rs:147-174 | a reopened log continues the chain of its file, under the number after the last event's |
| `Audit.ReopenRepeatsNumbers` | crates/vledger-audit/src/log.rs:147-174 | for every log: after a reopening some later run repeats a number the file holds if and only if the last event does not carry the highest number |
| `Audit.TipBindsLog` | crates/vledger-audit/src/event.rs:123-163 | two files that verify with one tip hold the same events, number, instant and text, under the same hashes, or a collision or a preimage of the zero hash is exhibited |
| `Audit.EventBytesInjective` | crates/vledger-audit/src/event.rs:123-137 | what is hashed of an event fixes its number, instant and text |
| `Audit.AlteredEventNeedsCollision` | crates/vledger-audit/src/event.rs:154-163 | an event altered in number, instant or text, its content hash kept, verifies only on a collision |

## Left out

- Import mode (`open_for_import`, `import_entry_direct`): it bypasses cache, holds and index by design.
- Checkpoints with a start segment above 0, and the SQLite accounts table used only then; replay starts at segment 0.
- Page store, page cursors, log framing, checksums and signatures: recovered state does not depend on them.
- `reconciliation_history`, which the live store never fills; only its log record is modelled.
- SQL text, migrations, triggers, full-text search and the lock file.
- I/O and SQLite errors inside the store: every commit succeeds and every index write takes effect. In the
  four-eyes queue an error can cut an operation after any durable step, and in the audit log before or after the
  line is written.
- Torn file writes: a line is in a file whole or not at all, and a rename is atomic.
- Settlement lifecycle rules: the code does not enforce them, so any status follows any other.
- Wrap-around of the 64-bit sequence counter; sequences are unbounded, and their encoding is cut to 64 bits.
- `i64::abs` of the least value is modelled as in release mode, where it wraps; a debug build stops there.
- Upper-casing in the currency registry's lookup: the registry is a map from the codes as written.
- Text is kept as bytes; `Utf8` covers the ASCII literals the program itself writes.
- Account name, parent, domain and creation time, which no operation reads.
- Serialisation of log payloads and of four-eyes payloads: decoding returns what was encoded.
- The order in which a hash map yields accounts: where it shows in an error, any failing account may be named.
- Truly concurrent calls on one four-eyes queue: calls are serialised, and only crashes, failures and ledger traffic
  come between their steps.
- The crypto crate's own `verify_chain` over `ChainEntry` values: the same loop as the store's chain verification.
- Ciphers, key derivation, signatures, password hashing, HSM clients, TLS, compliance rules, licence tiers, the
  in-memory index crate, audit export and client SDKs.
- Holds.HoldFreezesAccount: what is appended gets a new id. The store does not check ids, and it files reversals and
  settlements under the id, so with repeated ids one filed for another entry would show.
- Correction.CorrectionIsExactlyOnce: the two accounts are open, without exposure limit and four-eyes control, and no
  other traffic writes to them or uses the two keys.
