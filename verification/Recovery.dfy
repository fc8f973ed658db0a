/** Rebuilding the store from its write-ahead log, next to an index that may lag behind it. */
module Recovery {
  import opened Bytes
  import opened Entries
  import opened Chain
  import opened Balances
  import opened Ledger
  import opened Invariants
  import opened History

  // ---- Replay ----

  /** `current` is the replay's assumption that the index already holds every entry. */
  datatype Replay = Replay(state: State, current: bool)

  /** An entry the index is assumed to hold only advances the counters; any other entry goes through
      the cache, and into the index when its sequence is beyond `max`. */
  function ReplayEntry(max: nat, r: Replay, e: JournalEntry): (out: Replay) {
    var s := r.state.(
      nextSequence := if e.sequence >= r.state.nextSequence then e.sequence + 1 else r.state.nextSequence,
      tip := e.chainHash);
    if r.current && e.sequence <= max then Replay(s, true)
    else Replay(s.(cache := ApplyEntry(s.accounts, s.cache, e),
                   index := if e.sequence > max then InsertEntry(s.index, e) else s.index), false)
  }

  function ReplayPayload(max: nat, r: Replay, p: Payload): (out: Replay) {
    match p
    case AccountRow(_, account) => r.(state := PutAccount(r.state, account))
    case EntryRow(e) => ReplayEntry(max, r, e)
    case ReversalRow(original, reversal) =>
      r.(state := r.state.(reversals := r.state.reversals[original := reversal]))
    case SettlementRow(id, status) => r.(state := r.state.(settlements := r.state.settlements[id := status]))
    case ReconciliationRow => r
  }

  function ReplayTx(max: nat, r: Replay, tx: Tx): (out: Replay) {
    if tx == [] then r
    else ReplayPayload(max, ReplayTx(max, r, tx[..|tx| - 1]), tx[|tx| - 1])
  }

  function ReplayWal(max: nat, r: Replay, wal: seq<Tx>): (out: Replay) {
    if wal == [] then r
    else ReplayTx(max, ReplayWal(max, r, wal[..|wal| - 1]), wal[|wal| - 1])
  }

  /** Lines before the first one on an unknown account. */
  function KnownPrefix(accounts: Accounts, lines: seq<JournalLine>): (n: nat)
    ensures n <= |lines|
    ensures LinesKnown(accounts, lines[..n])
    ensures n < |lines| ==> lines[n].accountId !in accounts
  {
    if lines == [] then 0
    else
      var n := KnownPrefix(accounts, lines[..|lines| - 1]);
      assert lines[..|lines| - 1][..n] == lines[..n];
      if n == |lines| - 1 && lines[n].accountId in accounts then n + 1 else n
  }

  /** The rebuild abandons an entry at its first line on an unknown account. */
  function RebuildEntry(accounts: Accounts, cache: Cache, e: JournalEntry): (r: Cache) {
    if AffectsBalance(e.status) then ApplyLines(accounts, cache, e.lines[..KnownPrefix(accounts, e.lines)])
    else cache
  }

  /** The rebuild applies the lines before the first one on an unknown account, and none after it. */
  lemma {:induction false} RebuildStops(accounts: Accounts, cache: Cache, e: JournalEntry, n: nat)
    requires n < |e.lines| && LinesKnown(accounts, e.lines[..n]) && e.lines[n].accountId !in accounts
    requires e.status == Posted || e.status == Reversal
    ensures RebuildEntry(accounts, cache, e) == ApplyLines(accounts, cache, e.lines[..n])
  {
    var m := KnownPrefix(accounts, e.lines);
    assert forall j :: 0 <= j < m ==> e.lines[..m][j] == e.lines[j];
    assert forall j :: 0 <= j < m ==> e.lines[j].accountId in accounts;
    assert forall j :: 0 <= j < n ==> e.lines[..n][j] == e.lines[j];
    assert forall j :: 0 <= j < n ==> e.lines[j].accountId in accounts;
  }

  function RebuildCache(accounts: Accounts, cache: Cache, rows: seq<JournalEntry>): (r: Cache) {
    if rows == [] then cache
    else RebuildEntry(accounts, RebuildCache(accounts, cache, rows[..|rows| - 1]), rows[|rows| - 1])
  }

  /** When the assumption held to the end, counters, tip and cache are taken from the index. */
  function Conclude(r: Replay): (out: State) {
    if !r.current then r.state
    else
      var rows := r.state.index.rows;
      r.state.(nextSequence := MaxSequence(rows) + 1,
               tip := if rows == [] then r.state.tip else rows[|rows| - 1].chainHash,
               cache := RebuildCache(r.state.accounts, r.state.cache, rows))
  }

  function ReplayStart(wal: seq<Tx>, index: Index): (r: Replay) {
    Replay(EMPTY.(index := index, wal := wal), MaxSequence(index.rows) > 0)
  }

  /** Opening the store on a log and an index. */
  function Recover(wal: seq<Tx>, index: Index): (r: State) {
    Conclude(ReplayWal(MaxSequence(index.rows), ReplayStart(wal, index), wal))
  }

  // ---- What a step writes to the log ----

  function Committed(k: Sealer, s: State, op: Op): (r: seq<Tx>) {
    var a := Appended(k, s, op);
    if WritesAccount(s, op) then [[AccountRow(if op.OpCreate? then Insert else Delete, Written(s, op))]]
    else if a.Some? && op.OpReverse? then [[EntryRow(a.value), ReversalRow(op.entryId, op.details.id)]]
    else if a.Some? then [[EntryRow(a.value)]]
    else if op.OpSettle? && SettlementError(s, op.entryId).None? then [[SettlementRow(op.entryId, op.status)]]
    else if op.OpRecordReconciliation? then [[ReconciliationRow]]
    else []
  }

  lemma {:induction false} StepCommits(k: Sealer, s: State, op: Op)
    ensures Step(k, s, op).wal == s.wal + Committed(k, s, op)
  {
    assert s.wal + [] == s.wal;
    var a := Appended(k, s, op);
    if a.Some? {
      assert [EntryRow(a.value)] + [] == [EntryRow(a.value)];
      if op.OpReverse? {
        assert [EntryRow(a.value)] + [ReversalRow(op.entryId, op.details.id)]
            == [EntryRow(a.value), ReversalRow(op.entryId, op.details.id)];
      }
    }
  }

  lemma {:induction false} StepReversals(k: Sealer, s: State, op: Op)
    ensures Step(k, s, op).reversals ==
      if op.OpReverse? && Appended(k, s, op).Some? then s.reversals[op.entryId := op.details.id] else s.reversals
  {
    match op
    case OpReverse(id, details) =>
    case _ =>
  }

  lemma {:induction false} StepSettlements(k: Sealer, s: State, op: Op)
    ensures Step(k, s, op).settlements ==
      if op.OpSettle? && SettlementError(s, op.entryId).None? then s.settlements[op.entryId := op.status]
      else s.settlements
  {
    match op
    case OpSettle(id, status) =>
    case _ =>
  }

  lemma {:induction false} ReplayOne(max: nat, r: Replay, p: Payload)
    ensures ReplayTx(max, r, [p]) == ReplayPayload(max, r, p)
  {
    assert [p][..0] == [];
  }

  lemma {:induction false} ReplayTwo(max: nat, r: Replay, p: Payload, q: Payload)
    ensures ReplayTx(max, r, [p, q]) == ReplayPayload(max, ReplayPayload(max, r, p), q)
  {
    assert [p, q][..1] == [p];
    ReplayOne(max, r, p);
  }

  lemma {:induction false} ReplaySnoc(max: nat, r: Replay, wal: seq<Tx>, tx: Tx)
    ensures ReplayWal(max, r, wal + [tx]) == ReplayTx(max, ReplayWal(max, r, wal), tx)
  {
    assert (wal + [tx])[..|wal|] == wal;
  }

  lemma {:induction false} ReplaySingle(max: nat, r: Replay, tx: Tx)
    ensures ReplayWal(max, r, [tx]) == ReplayTx(max, r, tx)
  {
    assert [] + [tx] == [tx];
    ReplaySnoc(max, r, [], tx);
  }

  /** A step that commits nothing changes nothing. */
  lemma {:induction false} QuietStep(k: Sealer, s: State, op: Op)
    requires Committed(k, s, op) == []
    ensures Step(k, s, op) == s
  {
  }

  lemma {:induction false} ReplayConcat(max: nat, r: Replay, wal: seq<Tx>, more: seq<Tx>)
    requires |more| <= 1
    ensures ReplayWal(max, r, wal + more) == ReplayWal(max, ReplayWal(max, r, wal), more)
  {
    if more == [] {
      assert wal + more == wal;
    } else {
      assert more == [more[0]] && [] + [more[0]] == more;
      ReplaySnoc(max, r, wal, more[0]);
      ReplaySnoc(max, ReplayWal(max, r, wal), [], more[0]);
    }
  }

  // ---- An index that holds the first `m` entries ----

  /** The first `n` entries of a journal, as the index would hold them. */
  ghost function IndexPrefix(rows: seq<JournalEntry>, n: nat): (r: Index)
    requires n <= |rows|
  {
    Index(rows[..n], CrossReferences(rows[..n]))
  }

  function Larger(m: nat, n: nat): (r: nat) {
    if m < n then n else m
  }

  /** Replay and live state agree on everything but the cache, except that the replay's index started
      with `m` rows of the final journal. */
  ghost predicate Follows(journal: seq<JournalEntry>, m: nat, log: seq<Tx>, s: State, r: Replay)
    requires m <= |journal|
  {
    var n := |s.index.rows|;
    && s.index.rows <= journal
    && r.current == (0 < m && n <= m)
    && r.state == s.(index := IndexPrefix(journal, Larger(m, n)), wal := log, cache := r.state.cache)
  }

  lemma {:induction false} IndexPrefixGrows(journal: seq<JournalEntry>, n: nat)
    requires Dense(journal) && UniqueKeys(journal) && n < |journal|
    ensures InsertEntry(IndexPrefix(journal, n), journal[n]) == IndexPrefix(journal, n + 1)
  {
    assert journal[..n + 1][..n] == journal[..n];
    AppendsToIndex(IndexPrefix(journal, n), journal[n]);
  }

  /** Replaying the entry that the live store appended next. */
  lemma {:induction false} ReplayAppended(
    journal: seq<JournalEntry>, m: nat, log: seq<Tx>, s: State, t: State, r: Replay)
    requires Dense(journal) && UniqueKeys(journal) && m <= |journal| && |s.index.rows| < |journal|
    requires Follows(journal, m, log, s, r) && s.nextSequence == |s.index.rows| + 1
    requires
      var e := journal[|s.index.rows|];
      && t.index.rows == s.index.rows + [e]
      && t == s.(nextSequence := s.nextSequence + 1, tip := e.chainHash, index := t.index, cache := t.cache)
    ensures
      var e := journal[|s.index.rows|];
      var q := ReplayEntry(m, r, e);
      && Follows(journal, m, log, t, q)
      && q.state.cache == if |s.index.rows| < m then r.state.cache else ApplyEntry(s.accounts, r.state.cache, e)
  {
    var n, q := |s.index.rows|, ReplayEntry(m, r, journal[|s.index.rows|]);
    if n < m {
      assert q.state == r.state.(nextSequence := t.nextSequence, tip := t.tip);
    } else {
      IndexPrefixGrows(journal, n);
      assert q.state.index == IndexPrefix(journal, n + 1);
    }
  }

  /** Replaying the transaction of a step that appends. */
  lemma {:induction false} ReplayAppendingTx(k: Sealer, m: nat, s: State, op: Op, r: Replay)
    requires Appended(k, s, op).Some?
    ensures
      var q := ReplayEntry(m, r, Appended(k, s, op).value);
      ReplayWal(m, r, Committed(k, s, op)) ==
        if op.OpReverse? then q.(state := q.state.(reversals := q.state.reversals[op.entryId := op.details.id])) else q
  {
    var e := Appended(k, s, op).value;
    if op.OpReverse? {
      var tx := [EntryRow(e), ReversalRow(op.entryId, op.details.id)];
      assert Committed(k, s, op) == [tx];
      ReplaySingle(m, r, tx);
      ReplayTwo(m, r, EntryRow(e), ReversalRow(op.entryId, op.details.id));
    } else {
      assert Committed(k, s, op) == [[EntryRow(e)]];
      ReplaySingle(m, r, [EntryRow(e)]);
      ReplayOne(m, r, EntryRow(e));
    }
  }

  /** An appending step changes nothing but what the entry and the reversal event change. */
  lemma {:induction false} AppendingStepFrame(k: Sealer, s: State, op: Op)
    requires Appended(k, s, op).Some?
    ensures
      var t := Step(k, s, op);
      t == s.(nextSequence := s.nextSequence + 1, tip := Appended(k, s, op).value.chainHash, index := t.index,
              cache := t.cache, wal := t.wal,
              reversals := if op.OpReverse? then s.reversals[op.entryId := op.details.id] else s.reversals)
  {
  }

  /** What replaying one more step does to the replayed cache. */
  function NextCache(k: Sealer, m: nat, s: State, op: Op, cache: Cache): (r: Cache) {
    var a := Appended(k, s, op);
    if a.Some? && m <= |s.index.rows| then ApplyEntry(s.accounts, cache, a.value) else cache
  }

  lemma {:induction false} FollowsAppendingStep(
    k: Sealer, journal: seq<JournalEntry>, m: nat, log: seq<Tx>, s: State, op: Op, r: Replay)
    requires Dense(journal) && UniqueKeys(journal) && m <= |journal|
    requires Inv(s) && Follows(journal, m, log, s, r)
    requires Step(k, s, op).index.rows <= journal && Appended(k, s, op).Some?
    ensures
      var q := ReplayWal(m, r, Committed(k, s, op));
      Follows(journal, m, log, Step(k, s, op), q) && q.state.cache == NextCache(k, m, s, op, r.state.cache)
  {
    var t, e := Step(k, s, op), Appended(k, s, op).value;
    StepAppends(k, s, op);
    JournalGrows(k, s, op);
    AppendingStepFrame(k, s, op);
    assert journal[|s.index.rows|] == t.index.rows[|s.index.rows|] == e;
    var t' := s.(nextSequence := t.nextSequence, tip := t.tip, index := t.index, cache := t.cache);
    ReplayAppended(journal, m, log, s, t', r);
    ReplayAppendingTx(k, m, s, op, r);
  }

  lemma {:induction false} FollowsAccountStep(
    k: Sealer, journal: seq<JournalEntry>, m: nat, log: seq<Tx>, s: State, op: Op, r: Replay)
    requires m <= |journal| && Inv(s) && Follows(journal, m, log, s, r) && WritesAccount(s, op)
    ensures
      var q := ReplayWal(m, r, Committed(k, s, op));
      Follows(journal, m, log, Step(k, s, op), q) && q.state.cache == r.state.cache
  {
    var c := Committed(k, s, op);
    ReplaySingle(m, r, c[0]);
    ReplayOne(m, r, c[0][0]);
    AccountStepsWrite(k, s, op);
  }

  lemma {:induction false} FollowsEventStep(
    k: Sealer, journal: seq<JournalEntry>, m: nat, log: seq<Tx>, s: State, op: Op, r: Replay)
    requires m <= |journal| && Follows(journal, m, log, s, r) && !WritesAccount(s, op)
    requires Appended(k, s, op).None? && Committed(k, s, op) != []
    ensures
      var q := ReplayWal(m, r, Committed(k, s, op));
      Follows(journal, m, log, Step(k, s, op), q) && q.state.cache == r.state.cache
  {
    var c := Committed(k, s, op);
    ReplaySingle(m, r, c[0]);
    ReplayOne(m, r, c[0][0]);
  }

  lemma {:induction false} FollowsStep(
    k: Sealer, journal: seq<JournalEntry>, m: nat, log: seq<Tx>, s: State, op: Op, r: Replay)
    requires Dense(journal) && UniqueKeys(journal) && m <= |journal|
    requires Inv(s) && Follows(journal, m, log, s, r) && Step(k, s, op).index.rows <= journal
    ensures
      var q := ReplayWal(m, r, Committed(k, s, op));
      Follows(journal, m, log, Step(k, s, op), q) && q.state.cache == NextCache(k, m, s, op, r.state.cache)
  {
    if Appended(k, s, op).Some? {
      FollowsAppendingStep(k, journal, m, log, s, op, r);
    } else if Committed(k, s, op) == [] {
      QuietStep(k, s, op);
    } else if WritesAccount(s, op) {
      FollowsAccountStep(k, journal, m, log, s, op, r);
    } else {
      FollowsEventStep(k, journal, m, log, s, op, r);
    }
  }

  lemma {:induction false} RowsPersist(k: Sealer, s: State, op: Op)
    requires Inv(s)
    ensures s.index.rows <= Step(k, s, op).index.rows
  {
    JournalGrows(k, s, op);
  }

  /** The replay of a state's log, next to an index with the first `m` rows of a journal. */
  ghost function ReplayOf(journal: seq<JournalEntry>, m: nat, log: seq<Tx>, wal: seq<Tx>): (r: Replay)
    requires m <= |journal|
  {
    ReplayWal(m, ReplayStart(log, IndexPrefix(journal, m)), wal)
  }

  // ---- States whose log replays to them ----

  /** Replaying the log restores the state up to its cache, whatever part of whatever continuation of the
      journal the index holds. */
  ghost predicate Traced(s: State) {
    && Inv(s)
    && forall journal, m: nat, log ::
         m <= |journal| && Dense(journal) && UniqueKeys(journal) && s.index.rows <= journal ==>
           Follows(journal, m, log, s, ReplayOf(journal, m, log, s.wal))
  }

  lemma {:induction false} EmptyIsTraced()
    ensures Traced(EMPTY)
  {
    EmptyHasInv();
    forall journal: seq<JournalEntry>, m: nat, log | m <= |journal| && Dense(journal) && UniqueKeys(journal)
      ensures Follows(journal, m, log, EMPTY, ReplayOf(journal, m, log, EMPTY.wal))
    {
      assert MaxSequence(journal[..m]) == m;
    }
  }

  lemma {:induction false} StepReplays(k: Sealer, journal: seq<JournalEntry>, m: nat, log: seq<Tx>, s: State, op: Op)
    requires Dense(journal) && UniqueKeys(journal) && m <= |journal|
    requires Traced(s) && Step(k, s, op).index.rows <= journal
    ensures
      var r, q := ReplayOf(journal, m, log, s.wal), ReplayOf(journal, m, log, Step(k, s, op).wal);
      Follows(journal, m, log, Step(k, s, op), q) && q.state.cache == NextCache(k, m, s, op, r.state.cache)
  {
    RowsPersist(k, s, op);
    StepCommits(k, s, op);
    ReplayConcat(m, ReplayStart(log, IndexPrefix(journal, m)), s.wal, Committed(k, s, op));
    FollowsStep(k, journal, m, log, s, op, ReplayOf(journal, m, log, s.wal));
  }

  /** Every operation leads from such a state to such a state, even when the cache was lost in between. */
  lemma {:induction false} StepKeepsTraced(k: Sealer, s: State, op: Op)
    requires Traced(s)
    ensures Traced(Step(k, s, op))
  {
    StepKeepsInv(k, s, op);
    var t := Step(k, s, op);
    forall journal, m: nat, log | m <= |journal| && Dense(journal) && UniqueKeys(journal) && t.index.rows <= journal
      ensures Follows(journal, m, log, t, ReplayOf(journal, m, log, t.wal))
    {
      StepReplays(k, journal, m, log, s, op);
    }
  }

  lemma {:induction false} CacheIsNotTraced(s: State, cache: Cache)
    requires Traced(s)
    ensures Traced(s.(cache := cache))
  {
    var t := s.(cache := cache);
    forall journal, m: nat, log | m <= |journal| && Dense(journal) && UniqueKeys(journal) && t.index.rows <= journal
      ensures Follows(journal, m, log, t, ReplayOf(journal, m, log, t.wal))
    {
      assert Follows(journal, m, log, s, ReplayOf(journal, m, log, s.wal));
    }
  }

  lemma {:induction false} RunIsTraced(k: Sealer, ops: seq<Op>)
    ensures Traced(Run(k, EMPTY, ops))
  {
    if ops == [] {
      EmptyIsTraced();
    } else {
      RunIsTraced(k, ops[..|ops| - 1]);
      StepKeepsTraced(k, Run(k, EMPTY, ops[..|ops| - 1]), ops[|ops| - 1]);
    }
  }

  lemma {:induction false} RebuildIsReplay(accounts: Accounts, cache: Cache, rows: seq<JournalEntry>)
    requires EntriesKnown(accounts, rows)
    ensures RebuildCache(accounts, cache, rows) == ApplyEntries(accounts, cache, rows)
  {
    if rows == [] {
    } else {
      var last := rows[|rows| - 1];
      RebuildIsReplay(accounts, cache, rows[..|rows| - 1]);
      assert LinesKnown(accounts, last.lines);
      assert last.lines[..KnownPrefix(accounts, last.lines)] == last.lines;
    }
  }

  /** Recovery restores accounts, holds, counters, tip, event indexes and the index itself, whatever part of
      the journal the index still held. Only the cache can differ: it is what the replay left, or, when the
      index held everything, the journal folded up under the final account records. */
  lemma {:induction false} RecoveryOfTraced(s: State, m: nat)
    requires Traced(s) && m <= |s.index.rows|
    ensures
      var r, t := ReplayOf(s.index.rows, m, s.wal, s.wal), Recover(s.wal, IndexPrefix(s.index.rows, m));
      && t == s.(cache := t.cache)
      && t.cache == if 0 < m == |s.index.rows| then ApplyEntries(s.accounts, r.state.cache, s.index.rows)
                    else r.state.cache
  {
    var rows := s.index.rows;
    var r := ReplayOf(rows, m, s.wal, s.wal);
    assert Follows(rows, m, s.wal, s, r);
    assert MaxSequence(rows[..m]) == m;
    assert rows[..|rows|] == rows;
    if 0 < m == |rows| {
      RebuildIsReplay(s.accounts, r.state.cache, rows);
    }
  }

  // ---- The recovered cache ----

  /** What the replay's cache holds: the entries beyond the first `m`, counted as at the time. */
  function CacheBeyond(epochs: seq<Accounts>, rows: seq<JournalEntry>, m: nat): (r: Cache)
    requires |epochs| == |rows|
  {
    if |rows| <= m then map[] else ApplyHistory(epochs[m..], map[], rows[m..])
  }

  lemma {:induction false} CacheBeyondGrows(
    epochs: seq<Accounts>, rows: seq<JournalEntry>, accounts: Accounts, e: JournalEntry, m: nat)
    requires |epochs| == |rows|
    ensures CacheBeyond(epochs + [accounts], rows + [e], m) ==
      (if |rows| < m then map[] else ApplyEntry(accounts, CacheBeyond(epochs, rows, m), e))
  {
    if |rows| >= m {
      assert (rows + [e])[m..] == rows[m..] + [e] && (epochs + [accounts])[m..] == epochs[m..] + [accounts];
      ApplyHistorySnoc(epochs[m..], map[], rows[m..], accounts, e);
      if |rows| == m {
        assert rows[m..] == [];
      }
    }
  }

  lemma {:induction false} NextCacheBeyond(k: Sealer, m: nat, s: State, op: Op, epochs: seq<Accounts>)
    requires Inv(s) && |epochs| == |s.index.rows|
    ensures
      var epochs' := epochs + (if Appended(k, s, op).Some? then [s.accounts] else []);
      && |epochs'| == |Step(k, s, op).index.rows|
      && NextCache(k, m, s, op, CacheBeyond(epochs, s.index.rows, m)) ==
         CacheBeyond(epochs', Step(k, s, op).index.rows, m)
  {
    JournalGrows(k, s, op);
    if Appended(k, s, op).Some? {
      CacheBeyondGrows(epochs, s.index.rows, s.accounts, Appended(k, s, op).value, m);
    } else {
      assert epochs + [] == epochs;
    }
  }

  lemma {:induction false} ReplayedCache(k: Sealer, ops: seq<Op>, journal: seq<JournalEntry>, m: nat, log: seq<Tx>)
    requires Dense(journal) && UniqueKeys(journal) && m <= |journal| && Run(k, EMPTY, ops).index.rows <= journal
    ensures |Epochs(k, EMPTY, ops)| == |Run(k, EMPTY, ops).index.rows|
    ensures ReplayOf(journal, m, log, Run(k, EMPTY, ops).wal).state.cache
         == CacheBeyond(Epochs(k, EMPTY, ops), Run(k, EMPTY, ops).index.rows, m)
  {
    if ops == [] {
    } else {
      var front, op := ops[..|ops| - 1], ops[|ops| - 1];
      var s := Run(k, EMPTY, front);
      RunIsTraced(k, front);
      RowsPersist(k, s, op);
      ReplayedCache(k, front, journal, m, log);
      StepReplays(k, journal, m, log, s, op);
      NextCacheBeyond(k, m, s, op, Epochs(k, EMPTY, front));
    }
  }

  /** The cache after recovery with the first `m` of `n` entries in the index: right from an empty index;
      the entries beyond `m` only from a part of the journal; and from a complete index, the journal folded
      up under the final account records. */
  function RecoveredCache(accounts: Accounts, epochs: seq<Accounts>, rows: seq<JournalEntry>, m: nat): (r: Cache)
    requires |epochs| == |rows|
  {
    if 0 < m == |rows| then ApplyEntries(accounts, map[], rows) else CacheBeyond(epochs, rows, m)
  }

  /** For every run and an index that holds the first `m` entries, recovery restores everything but the
      cache, and the cache is `RecoveredCache`. */
  lemma {:induction false} RecoveryWithIndex(k: Sealer, ops: seq<Op>, m: nat)
    requires m <= |Run(k, EMPTY, ops).index.rows|
    ensures |Epochs(k, EMPTY, ops)| == |Run(k, EMPTY, ops).index.rows|
    ensures
      var s := Run(k, EMPTY, ops);
      Recover(s.wal, IndexPrefix(s.index.rows, m)) ==
        s.(cache := RecoveredCache(s.accounts, Epochs(k, EMPTY, ops), s.index.rows, m))
  {
    var s := Run(k, EMPTY, ops);
    RunIsTraced(k, ops);
    RecoveryOfTraced(s, m);
    ReplayedCache(k, ops, s.index.rows, m, s.wal);
  }

  /** Recovery with a lost index: for every run, replaying the log restores the whole state. */
  lemma {:induction false} RecoveryFromLogAlone(k: Sealer, ops: seq<Op>)
    ensures Recover(Run(k, EMPTY, ops).wal, Index([], {})) == Run(k, EMPTY, ops)
  {
    var s, epochs := Run(k, EMPTY, ops), Epochs(k, EMPTY, ops);
    RunFollows(k, ops);
    RecoveryWithIndex(k, ops, 0);
    assert IndexPrefix(s.index.rows, 0) == Index([], {});
    assert s.index.rows[0..] == s.index.rows && epochs[0..] == epochs;
    assert RecoveredCache(s.accounts, epochs, s.index.rows, 0) == s.cache;
  }

  lemma {:induction false} TailBalance(epochs: seq<Accounts>, rows: seq<JournalEntry>, m: nat, a: Uuid)
    requires |epochs| == |rows| && m <= |rows|
    ensures Balance(CacheBeyond(epochs, rows, m), a) == Balance(ApplyHistory(epochs, map[], rows), a)
            <==> HistoryNet(epochs[..m], rows[..m], a) == 0
  {
    assert rows == rows[..m] + rows[m..] && epochs == epochs[..m] + epochs[m..];
    HistoryNetConcat(epochs[..m], rows[..m], epochs[m..], rows[m..], a);
    ApplyHistoryBalance(epochs, map[], rows, a);
    ApplyHistoryBalance(epochs[m..], map[], rows[m..], a);
  }

  /** For every run, a recovered balance is right exactly when: the index was empty; or it was complete and
      what was counted on the other side than the final record counts nets to zero; or what the entries it
      held had added to the balance is zero. */
  lemma {:induction false} RecoveredBalance(k: Sealer, ops: seq<Op>, m: nat, a: Uuid)
    requires m <= |Run(k, EMPTY, ops).index.rows| && a in Run(k, EMPTY, ops).accounts
    ensures |Epochs(k, EMPTY, ops)| == |Run(k, EMPTY, ops).index.rows|
    ensures
      var s, epochs := Run(k, EMPTY, ops), Epochs(k, EMPTY, ops);
      Balance(Recover(s.wal, IndexPrefix(s.index.rows, m)).cache, a) == Balance(s.cache, a) <==>
        if 0 < m == |s.index.rows| then MissignedInRun(k, ops, a) == 0
        else HistoryNet(epochs[..m], s.index.rows[..m], a) == 0
  {
    var s := Run(k, EMPTY, ops);
    RunFollows(k, ops);
    RecoveryWithIndex(k, ops, m);
    if 0 < m == |s.index.rows| {
      ApplyEntriesBalance(s.accounts, map[], s.index.rows, a);
      CachedBalance(k, ops, a);
    } else {
      TailBalance(Epochs(k, EMPTY, ops), s.index.rows, m, a);
    }
  }
}
