/** What every reachable ledger state satisfies. */
module Invariants {
  import opened Bytes
  import opened Hashing
  import opened Entries
  import opened Chain
  import opened Balances
  import opened Ledger

  ghost function CrossReferences(rows: seq<JournalEntry>): (r: set<(Uuid, nat)>) {
    if rows == [] then {}
    else CrossReferences(rows[..|rows| - 1]) + LineRefs(rows[|rows| - 1].lines, rows[|rows| - 1].sequence)
  }

  predicate UniqueKeys(rows: seq<JournalEntry>) {
    forall i, j :: 0 <= i < j < |rows| && rows[i].idempotencyKey.Some? ==>
      rows[i].idempotencyKey != rows[j].idempotencyKey
  }

  predicate AllWellFormed(rows: seq<JournalEntry>) {
    forall i :: 0 <= i < |rows| ==> WellFormed(rows[i])
  }

  /** The index holds the journal 1..n without gaps, cross-referenced, with unique keys. */
  ghost predicate IndexOk(index: Index, nextSequence: nat, tip: Hash) {
    && Dense(index.rows)
    && nextSequence == |index.rows| + 1
    && tip == Tip(index.rows)
    && UniqueKeys(index.rows)
    && index.accountEntries == CrossReferences(index.rows)
  }

  /** Accounts are filed under their ids, and the hold set is the set of flagged accounts. */
  ghost predicate HoldsOk(accounts: Accounts, holds: set<Uuid>) {
    && (forall a :: a in accounts ==> accounts[a].id == a)
    && holds == set a | a in accounts && accounts[a].legalHold
  }

  /** Journal lines are on known accounts, and entries balance. */
  predicate JournalOk(accounts: Accounts, rows: seq<JournalEntry>) {
    EntriesKnown(accounts, rows) && AllWellFormed(rows)
  }

  ghost predicate Inv(s: State) {
    && IndexOk(s.index, s.nextSequence, s.tip)
    && HoldsOk(s.accounts, s.holds)
    && JournalOk(s.accounts, s.index.rows)
  }

  /** The signed sum over the journal that a cached balance stands for. */
  function JournalBalance(accounts: Accounts, rows: seq<JournalEntry>, a: Uuid): (r: int) {
    if a in accounts then CacheSign(accounts[a].accountType) * Net(rows, a) else 0
  }

  ghost predicate CacheOk(s: State) {
    forall a :: Balance(s.cache, a) == JournalBalance(s.accounts, s.index.rows, a)
  }

  /** A new record for an account with a balance keeps the side on which the balance grows. */
  predicate KeepsSign(s: State, op: Op) {
    op.OpCreate? && op.account.id in s.accounts && Balance(s.cache, op.account.id) != 0 ==>
      CacheSign(s.accounts[op.account.id].accountType) == CacheSign(op.account.accountType)
  }

  predicate KeepsSignThroughout(k: Sealer, s: State, ops: seq<Op>) {
    ops == [] ||
    (&& KeepsSignThroughout(k, s, ops[..|ops| - 1])
     && KeepsSign(Run(k, s, ops[..|ops| - 1]), ops[|ops| - 1]))
  }

  // ---- Appending ----

  lemma {:induction false} AppendsToIndex(index: Index, e: JournalEntry)
    requires Dense(index.rows) && e.sequence == |index.rows| + 1
    requires e.idempotencyKey.Some? ==> !HasKey(index.rows, e.idempotencyKey.value)
    ensures InsertEntry(index, e).rows == index.rows + [e]
  {
  }

  lemma {:induction false} AppendKeepsIndex(index: Index, nextSequence: nat, tip: Hash, e: JournalEntry)
    requires IndexOk(index, nextSequence, tip) && e.sequence == nextSequence
    requires e.idempotencyKey.Some? ==> !HasKey(index.rows, e.idempotencyKey.value)
    ensures IndexOk(InsertEntry(index, e), nextSequence + 1, e.chainHash)
  {
    AppendsToIndex(index, e);
    var rows := index.rows + [e];
    assert rows[..|rows| - 1] == index.rows;
  }

  lemma {:induction false} FlippedTotals(lines: seq<JournalLine>, d: ReversalDetails)
    ensures SideTotal(ReversalLines(lines, d), Debit) == SideTotal(lines, Credit)
    ensures SideTotal(ReversalLines(lines, d), Credit) == SideTotal(lines, Debit)
  {
    if lines == [] {
    } else {
      var n := |lines| - 1;
      FlippedTotals(lines[..n], d);
      var flipped := ReversalLines(lines, d);
      assert flipped[..n] == ReversalLines(lines[..n], d);
      assert flipped[n].drCr == Flip(lines[n].drCr) && flipped[n].amount == lines[n].amount;
    }
  }

  /** The entry appended by an operation, if it appends one. */
  function Appended(k: Sealer, s: State, op: Op): (r: Option<JournalEntry>) {
    if op.OpPost? && Accepts(s, op.reg, op.entry) then Some(SealPost(k, s, op.entry, op.now))
    else if op.OpReverse? && ReversalError(s, op.entryId).None? then
      Some(SealReversal(k, s, FindById(s.index.rows, op.entryId).value, op.details))
    else None
  }

  /** Whatever an operation appends fits the journal. */
  lemma {:induction false} AppendedFits(k: Sealer, s: State, op: Op)
    requires JournalOk(s.accounts, s.index.rows)
    ensures
      var a := Appended(k, s, op);
      a.Some? ==>
        && a.value.sequence == s.nextSequence && a.value.prevHash == s.tip
        && (a.value.idempotencyKey.Some? ==> !HasKey(s.index.rows, a.value.idempotencyKey.value))
        && LinesKnown(s.accounts, a.value.lines) && WellFormed(a.value)
  {
    if op.OpPost? && Accepts(s, op.reg, op.entry) {
      forall i | 0 <= i < |op.entry.lines| ensures op.entry.lines[i].accountId in s.accounts {
        assert LineError(s.accounts, op.reg, op.entry, op.entry.lines[i]).None?;
      }
    } else if op.OpReverse? && ReversalError(s, op.entryId).None? {
      var original := FindById(s.index.rows, op.entryId).value;
      assert LinesKnown(s.accounts, original.lines) && WellFormed(original);
      FlippedTotals(original.lines, op.details);
    }
  }

  lemma {:induction false} StepDoesNotAppend(k: Sealer, s: State, op: Op)
    requires Appended(k, s, op).None?
    ensures
      var t := Step(k, s, op);
      t.index == s.index && t.cache == s.cache && t.nextSequence == s.nextSequence && t.tip == s.tip
  {
  }

  /** The journal is append-only: an operation adds at most one entry, at the end. */
  lemma {:induction false} JournalGrows(k: Sealer, s: State, op: Op)
    requires Inv(s)
    ensures
      var a := Appended(k, s, op);
      Step(k, s, op).index.rows == if a.Some? then s.index.rows + [a.value] else s.index.rows
  {
    if Appended(k, s, op).Some? {
      AppendedFits(k, s, op);
      StepAppends(k, s, op);
      AppendsToIndex(s.index, Appended(k, s, op).value);
    } else {
      StepDoesNotAppend(k, s, op);
    }
  }

  lemma {:induction false} WriteAccount(accounts: Accounts, holds: set<Uuid>, account: Account)
    requires HoldsOk(accounts, holds)
    ensures HoldsOk(accounts[account.id := account],
                    if account.legalHold then holds + {account.id} else holds - {account.id})
  {
  }

  predicate WritesAccount(s: State, op: Op) {
    op.OpCreate? || ((op.OpClose? || op.OpHold?) && op.id in s.accounts)
  }

  lemma {:induction false} OtherStepsKeepAccounts(k: Sealer, s: State, op: Op)
    requires !WritesAccount(s, op)
    ensures Step(k, s, op).accounts == s.accounts && Step(k, s, op).holds == s.holds
  {
  }

  /** The record an account operation files. */
  function Written(s: State, op: Op): (r: Account)
    requires WritesAccount(s, op)
  {
    if op.OpCreate? then op.account
    else if op.OpClose? then s.accounts[op.id].(status := Closed)
    else s.accounts[op.id].(legalHold := op.hold)
  }

  lemma {:induction false} AccountStepsWrite(k: Sealer, s: State, op: Op)
    requires HoldsOk(s.accounts, s.holds) && WritesAccount(s, op)
    ensures Step(k, s, op).(wal := s.wal) == PutAccount(s, Written(s, op))
  {
    if !op.OpCreate? {
      var w := Written(s, op);
      assert w.id == op.id;
      assert op.OpClose? ==> s.holds == if w.legalHold then s.holds + {w.id} else s.holds - {w.id};
    }
  }

  lemma {:induction false} StepKeepsHolds(k: Sealer, s: State, op: Op)
    requires HoldsOk(s.accounts, s.holds)
    ensures HoldsOk(Step(k, s, op).accounts, Step(k, s, op).holds)
  {
    if WritesAccount(s, op) {
      AccountStepsWrite(k, s, op);
      WriteAccount(s.accounts, s.holds, Written(s, op));
    } else {
      OtherStepsKeepAccounts(k, s, op);
    }
  }

  /** No account disappears. */
  lemma {:induction false} AccountsPersist(k: Sealer, s: State, op: Op)
    requires HoldsOk(s.accounts, s.holds)
    ensures s.accounts.Keys <= Step(k, s, op).accounts.Keys
  {
    if WritesAccount(s, op) {
      AccountStepsWrite(k, s, op);
    } else {
      OtherStepsKeepAccounts(k, s, op);
    }
  }

  lemma {:induction false} StepAppends(k: Sealer, s: State, op: Op)
    requires Appended(k, s, op).Some?
    ensures
      var t, e := Step(k, s, op), Appended(k, s, op).value;
      && t.accounts == s.accounts && t.holds == s.holds
      && t.index == InsertEntry(s.index, e) && t.nextSequence == s.nextSequence + 1
      && t.tip == e.chainHash && t.cache == ApplyEntry(s.accounts, s.cache, e)
  {
  }

  lemma {:induction false} JournalStaysOk(before: Accounts, after: Accounts, rows: seq<JournalEntry>)
    requires JournalOk(before, rows) && before.Keys <= after.Keys
    ensures JournalOk(after, rows)
  {
    forall i | 0 <= i < |rows| ensures LinesKnown(after, rows[i].lines) {
      assert LinesKnown(before, rows[i].lines);
    }
  }

  /** Every operation keeps the invariant. */
  lemma {:induction false} StepKeepsInv(k: Sealer, s: State, op: Op)
    requires Inv(s)
    ensures Inv(Step(k, s, op))
  {
    StepKeepsHolds(k, s, op);
    var t, a := Step(k, s, op), Appended(k, s, op);
    if a.Some? {
      StepAppends(k, s, op);
      AppendedFits(k, s, op);
      AppendsToIndex(s.index, a.value);
      AppendKeepsIndex(s.index, s.nextSequence, s.tip, a.value);
    } else {
      StepDoesNotAppend(k, s, op);
      AccountsPersist(k, s, op);
      JournalStaysOk(s.accounts, t.accounts, s.index.rows);
    }
  }

  lemma EmptyHasInv()
    ensures Inv(EMPTY) && CacheOk(EMPTY)
  {
  }

  /** So does every run. */
  lemma {:induction false} RunKeepsInv(k: Sealer, s: State, ops: seq<Op>)
    requires Inv(s)
    ensures Inv(Run(k, s, ops))
  {
    if ops == [] {
    } else {
      RunKeepsInv(k, s, ops[..|ops| - 1]);
      StepKeepsInv(k, Run(k, s, ops[..|ops| - 1]), ops[|ops| - 1]);
    }
  }

  // ---- The cache ----

  lemma {:induction false} UnknownNet(accounts: Accounts, rows: seq<JournalEntry>, a: Uuid)
    requires EntriesKnown(accounts, rows) && a !in accounts
    ensures Net(rows, a) == 0
  {
    if rows == [] {
    } else {
      UnknownNet(accounts, rows[..|rows| - 1], a);
      assert LinesKnown(accounts, rows[|rows| - 1].lines);
      UntouchedNet(rows[|rows| - 1].lines, a);
    }
  }

  lemma {:induction false} AppendKeepsCache(k: Sealer, s: State, op: Op)
    requires Inv(s) && CacheOk(s) && Appended(k, s, op).Some?
    ensures CacheOk(Step(k, s, op))
  {
    var t, e := Step(k, s, op), Appended(k, s, op).value;
    StepAppends(k, s, op);
    JournalGrows(k, s, op);
    forall a ensures Balance(t.cache, a) == JournalBalance(t.accounts, t.index.rows, a) {
      NetSnoc(s.index.rows, e, a);
      ApplyEntryBalance(s.accounts, s.cache, e, a);
    }
  }

  lemma {:induction false} AccountStepCache(k: Sealer, s: State, op: Op)
    requires Inv(s) && CacheOk(s) && WritesAccount(s, op)
    ensures CacheOk(Step(k, s, op)) <==> KeepsSign(s, op)
  {
    var t, id := Step(k, s, op), Written(s, op).id;
    AccountStepsWrite(k, s, op);
    assert t.index == s.index && t.cache == s.cache && t.accounts == s.accounts[id := Written(s, op)];
    if id !in s.accounts {
      UnknownNet(s.accounts, s.index.rows, id);
    }
    assert Balance(s.cache, id) == JournalBalance(s.accounts, s.index.rows, id);
    assert forall a :: a != id ==>
      JournalBalance(t.accounts, t.index.rows, a) == JournalBalance(s.accounts, s.index.rows, a);
    assert Balance(t.cache, id) == JournalBalance(t.accounts, t.index.rows, id) <==> KeepsSign(s, op);
  }

  /** The cache keeps being the signed sum over the journal exactly when no record is replaced by one that
      counts an existing balance on the other side. */
  lemma {:induction false} StepKeepsCache(k: Sealer, s: State, op: Op)
    requires Inv(s) && CacheOk(s)
    ensures CacheOk(Step(k, s, op)) <==> KeepsSign(s, op)
  {
    if Appended(k, s, op).Some? {
      AppendKeepsCache(k, s, op);
    } else if WritesAccount(s, op) {
      AccountStepCache(k, s, op);
    } else {
      StepDoesNotAppend(k, s, op);
      OtherStepsKeepAccounts(k, s, op);
    }
  }

  lemma {:induction false} RunKeepsCache(k: Sealer, s: State, ops: seq<Op>)
    requires Inv(s) && CacheOk(s) && KeepsSignThroughout(k, s, ops)
    ensures CacheOk(Run(k, s, ops))
  {
    if ops == [] {
    } else {
      RunKeepsInv(k, s, ops[..|ops| - 1]);
      RunKeepsCache(k, s, ops[..|ops| - 1]);
      StepKeepsCache(k, Run(k, s, ops[..|ops| - 1]), ops[|ops| - 1]);
    }
  }
}
