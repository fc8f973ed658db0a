/** Balances that may not go below zero, exposure limits, and the two operations that do not check them. */
module Guards {
  import opened Bytes
  import opened Entries
  import opened Balances
  import opened Ledger
  import opened Invariants
  import opened History
  import opened Standing
  import opened Transfers
  import opened Outcomes

  predicate Protected(accounts: Accounts, a: Uuid) {
    a in accounts && Guarded(accounts[a])
  }

  ghost predicate NonNegative(s: State) {
    forall a :: Protected(s.accounts, a) ==> Balance(s.cache, a) >= 0
  }

  /** A new record for an account does not start guarding an overdrawn balance. */
  predicate GuardsSensibly(s: State, op: Op) {
    op.OpCreate? && Guarded(op.account) ==> Balance(s.cache, op.account.id) >= 0
  }

  /** A reversal that goes through leaves every guarded account covered. */
  ghost predicate Covered(s: State, op: Op) {
    op.OpReverse? && ReversalError(s, op.entryId).None? ==>
      forall a :: Protected(s.accounts, a) ==>
        Balance(s.cache, a) >= NetDebit(FindById(s.index.rows, op.entryId).value.lines, a)
  }

  lemma {:induction false} EffectOnProtected(k: Sealer, s: State, op: Op, a: Uuid)
    requires Appended(k, s, op).Some? && Protected(s.accounts, a)
    ensures Balance(Step(k, s, op).cache, a) == Balance(s.cache, a) + Effect(Appended(k, s, op).value, a)
  {
    StepAppends(k, s, op);
    ApplyEntryBalance(s.accounts, s.cache, Appended(k, s, op).value, a);
  }

  // ---- What was checked of every entry ----

  /** On every account, the entry's debit lines add up to no more than the exposure limit. */
  predicate WithinLimits(accounts: Accounts, e: JournalEntry) {
    forall i :: 0 <= i < |e.lines| && e.lines[i].accountId in accounts ==>
      var a := e.lines[i].accountId;
      accounts[a].exposureLimit.Some? ==> SideTotal(LinesOn(e.lines, a), Debit) <= accounts[a].exposureLimit.value
  }

  /** The entry balances on accounts that were all known, took its lines and kept their exposure limits. */
  predicate Admits(accounts: Accounts, e: JournalEntry) {
    && |e.lines| >= 2 && SideTotal(e.lines, Debit) == SideTotal(e.lines, Credit)
    && (forall i :: 0 <= i < |e.lines| ==>
          e.lines[i].accountId in accounts && Takes(accounts[e.lines[i].accountId], e, e.lines[i]))
    && WithinLimits(accounts, e)
  }

  lemma {:induction false} AcceptedIsAdmitted(k: Sealer, s: State, op: Op)
    requires op.OpPost? && Appended(k, s, op).Some?
    ensures Admits(s.accounts, Appended(k, s, op).value)
  {
    var e := op.entry;
    AcceptedExactly(s, op.reg, e);
    forall i | 0 <= i < |e.lines| && e.lines[i].accountId in s.accounts
      ensures
        var a := e.lines[i].accountId;
        s.accounts[a].exposureLimit.Some? ==>
          SideTotal(LinesOn(e.lines, a), Debit) <= s.accounts[a].exposureLimit.value
    {
      assert Touches(e, e.lines[i].accountId);
    }
    assert Admits(s.accounts, e);
    assert Appended(k, s, op).value.lines == e.lines && Appended(k, s, op).value.approvedBy == e.approvedBy;
  }

  /** Every entry was admitted by the account records of the time, or was appended by a reversal. */
  ghost predicate AdmittedThen(epochs: seq<Accounts>, rows: seq<JournalEntry>, undone: map<nat, nat>) {
    && |epochs| == |rows|
    && forall i :: 0 <= i < |rows| ==> Admits(epochs[i], rows[i]) || Undoes(undone, i + 1)
  }

  lemma {:induction false} AdmissionsGrow(epochs: seq<Accounts>, rows: seq<JournalEntry>, undone: map<nat, nat>,
                                          accounts: Accounts, e: JournalEntry)
    requires AdmittedThen(epochs, rows, undone) && Admits(accounts, e)
    ensures AdmittedThen(epochs + [accounts], rows + [e], undone)
  {
    var epochs', rows' := epochs + [accounts], rows + [e];
    forall i | 0 <= i < |rows'| ensures Admits(epochs'[i], rows'[i]) || Undoes(undone, i + 1) {
      if i < |rows| {
        assert epochs'[i] == epochs[i] && rows'[i] == rows[i];
      }
    }
  }

  lemma {:induction false} AdmissionsGrowByReversal(epochs: seq<Accounts>, rows: seq<JournalEntry>,
                                                    undone: map<nat, nat>, q: nat, accounts: Accounts, e: JournalEntry)
    requires AdmittedThen(epochs, rows, undone) && q !in undone
    ensures AdmittedThen(epochs + [accounts], rows + [e], undone[q := |rows| + 1])
  {
    var epochs', rows' := epochs + [accounts], rows + [e];
    forall i | 0 <= i < |rows'| ensures Admits(epochs'[i], rows'[i]) || Undoes(undone[q := |rows| + 1], i + 1) {
      PairAdded(undone, q, |rows| + 1, i + 1);
      if i < |rows| {
        assert epochs'[i] == epochs[i] && rows'[i] == rows[i];
      }
    }
  }

  lemma {:induction false} StepAdmits(k: Sealer, s: State, op: Op, epochs: seq<Accounts>, undone: map<nat, nat>)
    requires Inv(s) && StandingOk(s.index.rows, s.reversals, undone)
    requires AdmittedThen(epochs, s.index.rows, undone) && Appended(k, s, op).Some?
    ensures AdmittedThen(epochs + [s.accounts], s.index.rows + [Appended(k, s, op).value],
                         NextUndone(k, s, op, undone))
  {
    if op.OpPost? {
      AcceptedIsAdmitted(k, s, op);
      AdmissionsGrow(epochs, s.index.rows, undone, s.accounts, Appended(k, s, op).value);
    } else {
      AppendedPairs(k, s, op, undone);
      AdmissionsGrowByReversal(epochs, s.index.rows, undone, FindById(s.index.rows, op.entryId).value.sequence,
                               s.accounts, Appended(k, s, op).value);
    }
  }

  /** For every run: each journal entry that `reverse_entry` did not append balanced, on accounts that were then
      known, Active, not held, of the line's currency, and approved where they require it. */
  lemma {:induction false} AdmissionThroughout(k: Sealer, ops: seq<Op>)
    ensures AdmittedThen(Epochs(k, EMPTY, ops), Run(k, EMPTY, ops).index.rows, Undone(k, EMPTY, ops))
  {
    if ops == [] {
    } else {
      var front, op := ops[..|ops| - 1], ops[|ops| - 1];
      var s := Run(k, EMPTY, front);
      AdmissionThroughout(k, front);
      RunKeepsStanding(k, front);
      JournalGrows(k, s, op);
      if Appended(k, s, op).Some? {
        StepAdmits(k, s, op, Epochs(k, EMPTY, front), Undone(k, EMPTY, front));
      }
    }
  }

  /** In particular its debit lines on each account added up to no more than the exposure limit of the time. */
  lemma {:induction false} ExposureThroughout(k: Sealer, ops: seq<Op>, i: nat)
    requires i < |Run(k, EMPTY, ops).index.rows|
    ensures |Epochs(k, EMPTY, ops)| == |Run(k, EMPTY, ops).index.rows|
    ensures
      WithinLimits(Epochs(k, EMPTY, ops)[i], Run(k, EMPTY, ops).index.rows[i]) || Undoes(Undone(k, EMPTY, ops), i + 1)
  {
    AdmissionThroughout(k, ops);
  }

  predicate NeverFiledAnew(ops: seq<Op>, a: Uuid) {
    forall i :: 0 <= i < |ops| ==> !(ops[i].OpCreate? && ops[i].account.id == a)
  }

  predicate IsClosed(accounts: Accounts, a: Uuid) {
    a in accounts && accounts[a].id == a && accounts[a].status == Closed
  }

  lemma {:induction false} StaysClosed(k: Sealer, s: State, op: Op, a: Uuid)
    requires HoldsOk(s.accounts, s.holds) && IsClosed(s.accounts, a) && !(op.OpCreate? && op.account.id == a)
    ensures IsClosed(Step(k, s, op).accounts, a)
  {
    if WritesAccount(s, op) {
      AccountStepsWrite(k, s, op);
      assert Step(k, s, op).accounts == s.accounts[Written(s, op).id := Written(s, op)];
    } else {
      OtherStepsKeepAccounts(k, s, op);
    }
  }

  lemma {:induction false} ClosedThroughout(k: Sealer, s: State, ops: seq<Op>, a: Uuid)
    requires HoldsOk(s.accounts, s.holds) && IsClosed(s.accounts, a) && NeverFiledAnew(ops, a)
    ensures IsClosed(Run(k, s, ops).accounts, a)
  {
    if ops == [] {
    } else {
      var front := ops[..|ops| - 1];
      ClosedThroughout(k, s, front, a);
      RunKeepsHolds(k, s, front);
      StaysClosed(k, Run(k, s, front), ops[|ops| - 1], a);
    }
  }

  /** Once an account is closed, no entry that touches it is accepted, in any run that does not file it anew. */
  lemma {:induction false} ClosedTakesNoPosts(
    k: Sealer, s: State, ops: seq<Op>, a: Uuid, reg: Registry, e: JournalEntry)
    requires HoldsOk(s.accounts, s.holds) && a in s.accounts && NeverFiledAnew(ops, a) && Touches(e, a)
    ensures !Accepts(Run(k, Step(k, s, OpClose(a)), ops), reg, e)
  {
    var closed := Step(k, s, OpClose(a));
    StepKeepsHolds(k, s, OpClose(a));
    ClosedThroughout(k, closed, ops, a);
    AcceptedExactly(Run(k, closed, ops), reg, e);
    var i :| 0 <= i < |e.lines| && e.lines[i].accountId == a;
    assert !Takes(Run(k, closed, ops).accounts[a], e, e.lines[i]);
  }

  // ---- Guarded balances ----

  /** An accepted post leaves every guarded balance non-negative, however many lines hit it. */
  lemma {:induction false} PostKeepsNonNegative(k: Sealer, s: State, op: Op, a: Uuid)
    requires op.OpPost? && Appended(k, s, op).Some? && Protected(s.accounts, a) && Balance(s.cache, a) >= 0
    ensures Balance(Step(k, s, op).cache, a) >= 0
  {
    EffectOnProtected(k, s, op, a);
    if Touches(op.entry, a) {
      assert AccountError(a, s.accounts[a], s.cache, op.entry).None?;
    } else {
      UntouchedNet(op.entry.lines, a);
    }
  }

  lemma {:induction false} ReversalEffect(k: Sealer, s: State, op: Op, a: Uuid)
    requires op.OpReverse? && Appended(k, s, op).Some? && Protected(s.accounts, a)
    ensures Balance(Step(k, s, op).cache, a)
         == Balance(s.cache, a) - NetDebit(FindById(s.index.rows, op.entryId).value.lines, a)
  {
    EffectOnProtected(k, s, op, a);
    AppendedReversal(k, s, op);
    FlippedNet(FindById(s.index.rows, op.entryId).value.lines, op.details, a);
  }

  lemma {:induction false} AccountStepNonNegative(k: Sealer, s: State, op: Op)
    requires HoldsOk(s.accounts, s.holds) && NonNegative(s) && WritesAccount(s, op)
    ensures NonNegative(Step(k, s, op)) <==> GuardsSensibly(s, op)
  {
    var t, w := Step(k, s, op), Written(s, op);
    AccountStepsWrite(k, s, op);
    assert t.cache == s.cache && t.accounts == s.accounts[w.id := w];
    if op.OpCreate? && Guarded(op.account) {
      assert Protected(t.accounts, op.account.id);
    } else if !op.OpCreate? {
      assert w.id in s.accounts && (Guarded(w) ==> Protected(s.accounts, w.id));
    }
  }

  lemma {:induction false} AppendNonNegative(k: Sealer, s: State, op: Op)
    requires NonNegative(s) && Appended(k, s, op).Some?
    ensures NonNegative(Step(k, s, op)) <==> Covered(s, op)
  {
    StepAppends(k, s, op);
    forall a | Protected(s.accounts, a)
      ensures op.OpPost? ==> Balance(Step(k, s, op).cache, a) >= 0
      ensures op.OpReverse? ==>
        Balance(Step(k, s, op).cache, a)
          == Balance(s.cache, a) - NetDebit(FindById(s.index.rows, op.entryId).value.lines, a)
    {
      if op.OpPost? {
        PostKeepsNonNegative(k, s, op, a);
      } else {
        ReversalEffect(k, s, op, a);
      }
    }
  }

  /** From a state without overdrawn guarded accounts, a step leads to another such state exactly when
      it is not a reversal of an entry whose effect has already been spent, and not an account record
      that starts guarding an overdrawn balance. */
  lemma {:induction false} StepNonNegative(k: Sealer, s: State, op: Op)
    requires HoldsOk(s.accounts, s.holds) && NonNegative(s)
    ensures NonNegative(Step(k, s, op)) <==> Covered(s, op) && GuardsSensibly(s, op)
  {
    if Appended(k, s, op).Some? {
      AppendNonNegative(k, s, op);
    } else if WritesAccount(s, op) {
      AccountStepNonNegative(k, s, op);
    } else {
      StepDoesNotAppend(k, s, op);
      OtherStepsKeepAccounts(k, s, op);
    }
  }

  /** Every state of a run, from the first to the last. */
  ghost predicate AlwaysNonNegative(k: Sealer, s: State, ops: seq<Op>) {
    NonNegative(Run(k, s, ops)) && (ops == [] || AlwaysNonNegative(k, s, ops[..|ops| - 1]))
  }

  /** Every reversal was covered, and no record started guarding an overdrawn balance. */
  ghost predicate PrudentThroughout(k: Sealer, s: State, ops: seq<Op>) {
    ops == [] ||
    (&& PrudentThroughout(k, s, ops[..|ops| - 1])
     && Covered(Run(k, s, ops[..|ops| - 1]), ops[|ops| - 1])
     && GuardsSensibly(Run(k, s, ops[..|ops| - 1]), ops[|ops| - 1]))
  }

  lemma {:induction false} RunKeepsHolds(k: Sealer, s: State, ops: seq<Op>)
    requires HoldsOk(s.accounts, s.holds)
    ensures HoldsOk(Run(k, s, ops).accounts, Run(k, s, ops).holds)
  {
    if ops == [] {
    } else {
      RunKeepsHolds(k, s, ops[..|ops| - 1]);
      StepKeepsHolds(k, Run(k, s, ops[..|ops| - 1]), ops[|ops| - 1]);
    }
  }

  /** Over a whole run no guarded balance is ever negative, exactly when every reversal was covered and no
      account record started guarding an overdrawn balance. */
  lemma {:induction false} NeverOverdrawn(k: Sealer, s: State, ops: seq<Op>)
    requires HoldsOk(s.accounts, s.holds) && NonNegative(s)
    ensures AlwaysNonNegative(k, s, ops) <==> PrudentThroughout(k, s, ops)
  {
    if ops == [] {
    } else {
      var front := ops[..|ops| - 1];
      NeverOverdrawn(k, s, front);
      if AlwaysNonNegative(k, s, front) {
        assert NonNegative(Run(k, s, front));
        RunKeepsHolds(k, s, front);
        StepNonNegative(k, Run(k, s, front), ops[|ops| - 1]);
      }
    }
  }
}
