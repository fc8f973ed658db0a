/** Reads as of a sequence number. */
module Snapshots {
  import opened Bytes
  import opened Entries
  import opened Chain
  import opened Balances
  import opened Ledger
  import opened Invariants
  import opened History

  function CurrentSnapshot(s: State): (r: nat) {
    if s.nextSequence == 0 then 0 else s.nextSequence - 1
  }

  /** The join of the entries with the cross-reference rows of one account, in sequence order. */
  function EntriesForAccount(index: Index, a: Uuid): (r: seq<JournalEntry>)
    decreases |index.rows|
  {
    if index.rows == [] then []
    else
      var last := index.rows[|index.rows| - 1];
      var rest := EntriesForAccount(index.(rows := index.rows[..|index.rows| - 1]), a);
      if (a, last.sequence) in index.accountEntries then rest + [last] else rest
  }

  function UpTo(es: seq<JournalEntry>, snapshot: nat): (r: seq<JournalEntry>) {
    if es == [] then []
    else
      var rest := UpTo(es[..|es| - 1], snapshot);
      if es[|es| - 1].sequence <= snapshot then rest + [es[|es| - 1]] else rest
  }

  function SnapshotBalance(accounts: Accounts, index: Index, a: Uuid, snapshot: nat): (r: int) {
    if a !in accounts then 0
    else CacheSign(accounts[a].accountType) * Net(UpTo(EntriesForAccount(index, a), snapshot), a)
  }

  method AddLines(lines: seq<JournalLine>, a: Uuid, debitNormal: bool) returns (delta: int)
    ensures delta == (if debitNormal then 1 else -1) * NetDebit(lines, a)
  {
    delta := 0;
    for k := 0 to |lines|
      invariant delta == (if debitNormal then 1 else -1) * NetDebit(lines[..k], a)
    {
      var line := lines[k];
      assert lines[..k + 1][..k] == lines[..k];
      if line.accountId != a {
        continue;
      }
      var amount: int := line.amount;
      delta := delta + if debitNormal == line.drCr.Debit? then amount else -amount;
    }
    assert lines[..|lines|] == lines;
  }

  /** Scans the account's entries and skips those after the snapshot. */
  method BalanceAtSnapshot(accounts: Accounts, index: Index, a: Uuid, snapshot: nat) returns (balance: int)
    ensures balance == SnapshotBalance(accounts, index, a, snapshot)
  {
    if a !in accounts {
      return 0;
    }
    var debitNormal := DebitNormal(accounts[a].accountType);
    var es := EntriesForAccount(index, a);
    balance := 0;
    for k := 0 to |es|
      invariant balance == CacheSign(accounts[a].accountType) * Net(UpTo(es[..k], snapshot), a)
    {
      assert es[..k + 1][..k] == es[..k];
      if es[k].sequence > snapshot {
        continue;
      }
      NetSnoc(UpTo(es[..k], snapshot), es[k], a);
      if !AffectsBalance(es[k].status) {
        continue;
      }
      var delta := AddLines(es[k].lines, a, debitNormal);
      balance := balance + delta;
    }
    assert es[..|es|] == es;
  }

  // ---- What the scan amounts to ----

  lemma {:induction false} CrossReferenced(rows: seq<JournalEntry>, a: Uuid, i: nat)
    requires Dense(rows) && i < |rows|
    ensures (a, i + 1) in CrossReferences(rows) <==> Touches(rows[i], a)
  {
    var n := |rows| - 1;
    var refs := LineRefs(rows[n].lines, n + 1);
    if i == n {
      NoLaterReferences(rows[..n], a, n + 1);
      assert (a, n + 1) in refs <==> Touches(rows[n], a);
    } else {
      CrossReferenced(rows[..n], a, i);
    }
  }

  lemma {:induction false} NoLaterReferences(rows: seq<JournalEntry>, a: Uuid, sequence: nat)
    requires Dense(rows) && sequence > |rows|
    ensures (a, sequence) !in CrossReferences(rows)
  {
    if rows == [] {
    } else {
      NoLaterReferences(rows[..|rows| - 1], a, sequence);
    }
  }

  /** The rows a snapshot covers. */
  function Covered(rows: seq<JournalEntry>, snapshot: nat): (r: seq<JournalEntry>) {
    if snapshot <= |rows| then rows[..snapshot] else rows
  }

  lemma {:induction false} CoveredSnoc(front: seq<JournalEntry>, last: JournalEntry, a: Uuid, snapshot: nat)
    ensures Net(Covered(front + [last], snapshot), a)
         == Net(Covered(front, snapshot), a) + (if |front| < snapshot then Effect(last, a) else 0)
  {
    if |front| < snapshot {
      NetSnoc(front, last, a);
      assert Covered(front + [last], snapshot) == front + [last];
    } else {
      assert Covered(front + [last], snapshot) == Covered(front, snapshot);
    }
  }

  lemma {:induction false} UpToSnoc(es: seq<JournalEntry>, e: JournalEntry, a: Uuid, snapshot: nat)
    ensures Net(UpTo(es + [e], snapshot), a)
         == Net(UpTo(es, snapshot), a) + (if e.sequence <= snapshot then Effect(e, a) else 0)
  {
    assert (es + [e])[..|es|] == es;
    NetSnoc(UpTo(es, snapshot), e, a);
  }

  lemma {:induction false} NoEffectUntouched(e: JournalEntry, a: Uuid)
    requires !Touches(e, a)
    ensures Effect(e, a) == 0
  {
    UntouchedNet(e.lines, a);
  }

  lemma {:induction false} ScanSnoc(
    front: seq<JournalEntry>, last: JournalEntry, refs: set<(Uuid, nat)>, a: Uuid, snapshot: nat)
    ensures Net(UpTo(EntriesForAccount(Index(front + [last], refs), a), snapshot), a)
         == Net(UpTo(EntriesForAccount(Index(front, refs), a), snapshot), a) +
            (if (a, last.sequence) in refs && last.sequence <= snapshot then Effect(last, a) else 0)
  {
    assert (front + [last])[..|front|] == front;
    UpToSnoc(EntriesForAccount(Index(front, refs), a), last, a, snapshot);
  }

  /** Scanning the cross-referenced entries finds the whole effect on the account, and counts an entry
      with several lines on it once. */
  lemma {:induction false} ScanFindsNet(rows: seq<JournalEntry>, refs: set<(Uuid, nat)>, a: Uuid, snapshot: nat)
    requires Dense(rows)
    requires forall i :: 0 <= i < |rows| ==> ((a, i + 1) in refs <==> Touches(rows[i], a))
    ensures Net(UpTo(EntriesForAccount(Index(rows, refs), a), snapshot), a) == Net(Covered(rows, snapshot), a)
  {
    if rows == [] {
    } else {
      var n := |rows| - 1;
      var front, last := rows[..n], rows[n];
      ScanFindsNet(front, refs, a, snapshot);
      assert rows == front + [last] && last.sequence == n + 1;
      CoveredSnoc(front, last, a, snapshot);
      ScanSnoc(front, last, refs, a, snapshot);
      if !Touches(last, a) {
        NoEffectUntouched(last, a);
      }
    }
  }

  lemma {:induction false} SnapshotIsPrefixNet(s: State, a: Uuid, snapshot: nat)
    requires Inv(s) && a in s.accounts && snapshot <= |s.index.rows|
    ensures SnapshotBalance(s.accounts, s.index, a, snapshot)
         == CacheSign(s.accounts[a].accountType) * Net(s.index.rows[..snapshot], a)
  {
    var rows := s.index.rows;
    forall i | 0 <= i < |rows| ensures (a, i + 1) in s.index.accountEntries <==> Touches(rows[i], a) {
      CrossReferenced(rows, a, i);
    }
    assert s.index == Index(rows, s.index.accountEntries);
    ScanFindsNet(rows, s.index.accountEntries, a, snapshot);
  }

  /** At the current snapshot, the scan is the signed sum over the journal, for every account. */
  lemma {:induction false} CurrentSnapshotIsJournal(s: State, a: Uuid)
    requires Inv(s)
    ensures SnapshotBalance(s.accounts, s.index, a, CurrentSnapshot(s)) == JournalBalance(s.accounts, s.index.rows, a)
  {
    var rows := s.index.rows;
    if a in s.accounts {
      SnapshotIsPrefixNet(s, a, |rows|);
      assert rows[..|rows|] == rows;
    }
  }

  /** For every run, scan and running cache agree on an account exactly when what was counted on the other
      side than its final record counts nets to zero. */
  lemma {:induction false} CurrentSnapshotIsCache(k: Sealer, ops: seq<Op>, a: Uuid)
    requires a in Run(k, EMPTY, ops).accounts
    ensures |Epochs(k, EMPTY, ops)| == |Run(k, EMPTY, ops).index.rows|
    ensures
      var s := Run(k, EMPTY, ops);
      SnapshotBalance(s.accounts, s.index, a, CurrentSnapshot(s)) == Balance(s.cache, a) <==>
      MissignedInRun(k, ops, a) == 0
  {
    RunFollows(k, ops);
    CurrentSnapshotIsJournal(Run(k, EMPTY, ops), a);
    CachedBalance(k, ops, a);
  }

  // ---- Stability ----

  lemma {:induction false} RunExtends(k: Sealer, s: State, ops: seq<Op>)
    requires Inv(s)
    ensures Inv(Run(k, s, ops))
    ensures s.index.rows <= Run(k, s, ops).index.rows && s.accounts.Keys <= Run(k, s, ops).accounts.Keys
  {
    if ops == [] {
    } else {
      var front, op := ops[..|ops| - 1], ops[|ops| - 1];
      RunExtends(k, s, front);
      StepKeepsInv(k, Run(k, s, front), op);
      JournalGrows(k, Run(k, s, front), op);
      AccountsPersist(k, Run(k, s, front), op);
    }
  }

  lemma {:induction false} ScanStops(rows: seq<JournalEntry>, more: seq<JournalEntry>, lo: int, hi: int)
    requires Dense(rows + more) && hi <= |rows|
    ensures ScanBetween(rows + more, lo, hi) == ScanBetween(rows, lo, hi)
    decreases |more|
  {
    if more == [] {
      assert rows + more == rows;
    } else {
      var all := rows + more;
      assert all[..|all| - 1] == rows + more[..|more| - 1];
      assert all[|all| - 1].sequence == |all|;
      ScanStops(rows, more[..|more| - 1], lo, hi);
    }
  }

  lemma {:induction false} SameSignOrNothing(x: int, y: int, net: int)
    requires (x == 1 || x == -1) && (y == 1 || y == -1)
    ensures x * net == y * net <==> x == y || net == 0
  {
  }

  lemma {:induction false} OldAccountIsStable(s: State, t: State, a: Uuid, snapshot: nat)
    requires Inv(s) && Inv(t) && s.index.rows <= t.index.rows && snapshot <= |s.index.rows|
    requires a in s.accounts && a in t.accounts
    ensures SnapshotBalance(t.accounts, t.index, a, snapshot) == SnapshotBalance(s.accounts, s.index, a, snapshot) <==>
      || CacheSign(s.accounts[a].accountType) == CacheSign(t.accounts[a].accountType)
      || Net(s.index.rows[..snapshot], a) == 0
  {
    assert t.index.rows[..snapshot] == s.index.rows[..snapshot];
    SnapshotIsPrefixNet(t, a, snapshot);
    SnapshotIsPrefixNet(s, a, snapshot);
    SameSignOrNothing(CacheSign(t.accounts[a].accountType), CacheSign(s.accounts[a].accountType),
                      Net(s.index.rows[..snapshot], a));
  }

  lemma {:induction false} NewAccountIsStable(s: State, t: State, a: Uuid, snapshot: nat)
    requires Inv(s) && Inv(t) && s.index.rows <= t.index.rows
    requires snapshot <= |s.index.rows| && a !in s.accounts
    ensures SnapshotBalance(t.accounts, t.index, a, snapshot) == 0
  {
    if a in t.accounts {
      var rows := s.index.rows[..snapshot];
      assert t.index.rows[..snapshot] == rows;
      SnapshotIsPrefixNet(t, a, snapshot);
      assert EntriesKnown(s.accounts, rows);
      UnknownNet(s.accounts, rows, a);
    }
  }

  lemma {:induction false} EntriesAreStable(rows: seq<JournalEntry>, all: seq<JournalEntry>, snapshot: nat)
    requires rows <= all && Dense(all) && snapshot <= |rows|
    ensures ScanRange(all, 1, snapshot) == ScanRange(rows, 1, snapshot)
  {
    AsI64Small(snapshot);
    assert all == rows + all[|rows|..];
    ScanStops(rows, all[|rows|..], AsI64(1), AsI64(snapshot));
  }

  /** What a snapshot taken in any reachable state answers after any further run: the same list of entries
      always, and the same balance of an account exactly when it was opened later, or its balance still grows
      on the same side, or its entries up to the snapshot net to zero. */
  lemma {:induction false} SnapshotsAreStable(k: Sealer, s: State, ops: seq<Op>, a: Uuid, snapshot: nat)
    requires Inv(s) && snapshot <= CurrentSnapshot(s)
    ensures ScanRange(Run(k, s, ops).index.rows, 1, snapshot) == ScanRange(s.index.rows, 1, snapshot)
    ensures
      var t := Run(k, s, ops);
      SnapshotBalance(t.accounts, t.index, a, snapshot) == SnapshotBalance(s.accounts, s.index, a, snapshot) <==>
        || a !in s.accounts
        || (a in t.accounts && CacheSign(s.accounts[a].accountType) == CacheSign(t.accounts[a].accountType))
        || Net(s.index.rows[..snapshot], a) == 0
  {
    var t := Run(k, s, ops);
    RunExtends(k, s, ops);
    EntriesAreStable(s.index.rows, t.index.rows, snapshot);
    if a in s.accounts {
      OldAccountIsStable(s, t, a, snapshot);
    } else {
      NewAccountIsStable(s, t, a, snapshot);
    }
  }
}
