/** A legal hold freezes an account. */
module Holds {
  import opened Bytes
  import opened Entries
  import opened Balances
  import opened Ledger
  import opened Invariants
  import opened Recovery
  import opened Standing

  predicate Held(s: State, a: Uuid) {
    a in s.accounts && s.accounts[a].legalHold
  }

  /** Neither lifts the hold nor files a new record for the account without the flag. */
  predicate Respects(op: Op, a: Uuid) {
    !(op.OpHold? && op.id == a && !op.hold) && !(op.OpCreate? && op.account.id == a && !op.account.legalHold)
  }

  predicate RespectsThroughout(ops: seq<Op>, a: Uuid) {
    forall i :: 0 <= i < |ops| ==> Respects(ops[i], a)
  }

  function Lookup<V>(m: map<Uuid, V>, id: Uuid): (r: Option<V>) {
    if id in m then Some(m[id]) else None
  }

  /** The account stays held, the journal grew only by entries elsewhere, and the balance is the same. */
  ghost predicate Untouched(s: State, t: State, a: Uuid) {
    && Held(t, a)
    && s.index.rows <= t.index.rows
    && (forall i :: |s.index.rows| <= i < |t.index.rows| ==> !Touches(t.index.rows[i], a))
    && Balance(t.cache, a) == Balance(s.cache, a)
  }

  /** What is recorded about every entry that touches the account is the same. */
  ghost predicate SameEvents(s: State, t: State, a: Uuid) {
    forall i :: 0 <= i < |s.index.rows| && Touches(s.index.rows[i], a) ==>
      && Lookup(t.settlements, s.index.rows[i].id) == Lookup(s.settlements, s.index.rows[i].id)
      && Lookup(t.reversals, s.index.rows[i].id) == Lookup(s.reversals, s.index.rows[i].id)
  }

  lemma {:induction false} ReversalTouches(lines: seq<JournalLine>, d: ReversalDetails, i: nat)
    requires i < |lines|
    ensures ReversalLines(lines, d)[i].accountId == lines[i].accountId
  {
  }

  lemma {:induction false} AppendedAvoidsHeld(k: Sealer, s: State, op: Op, a: Uuid)
    requires Inv(s) && Held(s, a) && Appended(k, s, op).Some?
    ensures !Touches(Appended(k, s, op).value, a)
  {
    var e := Appended(k, s, op).value;
    if op.OpPost? {
      forall i | 0 <= i < |e.lines| ensures e.lines[i].accountId != a {
        assert LineError(s.accounts, op.reg, op.entry, op.entry.lines[i]).None?;
      }
    } else {
      var lines := FindById(s.index.rows, op.entryId).value.lines;
      assert HeldAccount(s.holds, lines).None? && a in s.holds;
      forall i | 0 <= i < |e.lines| ensures e.lines[i].accountId != a {
        ReversalTouches(lines, op.details, i);
      }
    }
  }

  /** A held account is held after a step exactly when the step respects the hold. */
  lemma {:induction false} StaysHeld(k: Sealer, s: State, op: Op, a: Uuid)
    requires HoldsOk(s.accounts, s.holds) && Held(s, a)
    ensures Held(Step(k, s, op), a) <==> Respects(op, a)
  {
    if WritesAccount(s, op) {
      AccountStepsWrite(k, s, op);
      assert Step(k, s, op).accounts == s.accounts[Written(s, op).id := Written(s, op)];
    } else {
      OtherStepsKeepAccounts(k, s, op);
    }
  }

  /** Held in every state of a run, from the first to the last. */
  predicate AlwaysHeld(k: Sealer, s: State, ops: seq<Op>, a: Uuid) {
    Held(Run(k, s, ops), a) && (ops == [] || AlwaysHeld(k, s, ops[..|ops| - 1], a))
  }

  /** A hold lasts through a run exactly when nothing in the run lifts it or files a record without it. */
  lemma {:induction false} HoldLasts(k: Sealer, s: State, ops: seq<Op>, a: Uuid)
    requires HoldsOk(s.accounts, s.holds) && Held(s, a)
    ensures HoldsOk(Run(k, s, ops).accounts, Run(k, s, ops).holds)
    ensures AlwaysHeld(k, s, ops, a) <==> RespectsThroughout(ops, a)
  {
    if ops == [] {
    } else {
      var front, op := ops[..|ops| - 1], ops[|ops| - 1];
      HoldLasts(k, s, front, a);
      StepKeepsHolds(k, Run(k, s, front), op);
      if AlwaysHeld(k, s, front, a) {
        StaysHeld(k, Run(k, s, front), op, a);
      }
      assert RespectsThroughout(ops, a) <==> RespectsThroughout(front, a) && Respects(op, a);
    }
  }

  lemma {:induction false} FoundIsUnique(rows: seq<JournalEntry>, i: nat)
    requires UniqueIds(rows) && i < |rows|
    ensures FindById(rows, rows[i].id) == Some(rows[i])
  {
    var found := FindById(rows, rows[i].id);
    var j :| 0 <= j < |rows| && found.value == rows[j];
    assert i == j;
  }

  /** A reversal or settlement that goes through is about an entry that does not touch the account. */
  lemma {:induction false} EventsAvoidHeld(s: State, id: Uuid, a: Uuid, i: nat)
    requires Inv(s) && UniqueIds(s.index.rows) && Held(s, a)
    requires i < |s.index.rows| && Touches(s.index.rows[i], a) && s.index.rows[i].id == id
    ensures ReversalError(s, id).Some? && SettlementError(s, id).Some?
  {
    FoundIsUnique(s.index.rows, i);
    assert a in s.holds;
    var j :| 0 <= j < |s.index.rows[i].lines| && s.index.rows[i].lines[j].accountId == a;
    assert HeldAccount(s.holds, s.index.rows[i].lines).Some?;
  }

  lemma {:induction false} FrozenEvents(k: Sealer, s: State, op: Op, a: Uuid, i: nat)
    requires Inv(s) && UniqueIds(s.index.rows) && Held(s, a)
    requires i < |s.index.rows| && Touches(s.index.rows[i], a)
    ensures
      var t, id := Step(k, s, op), s.index.rows[i].id;
      Lookup(t.settlements, id) == Lookup(s.settlements, id) && Lookup(t.reversals, id) == Lookup(s.reversals, id)
  {
    StepReversals(k, s, op);
    StepSettlements(k, s, op);
    EventsAvoidHeld(s, s.index.rows[i].id, a, i);
  }

  lemma {:induction false} FrozenBalance(k: Sealer, s: State, op: Op, a: Uuid)
    requires Inv(s) && Held(s, a)
    ensures Balance(Step(k, s, op).cache, a) == Balance(s.cache, a)
  {
    if Appended(k, s, op).Some? {
      var e := Appended(k, s, op).value;
      AppendedAvoidsHeld(k, s, op, a);
      StepAppends(k, s, op);
      UntouchedNet(e.lines, a);
      ApplyEntryBalance(s.accounts, s.cache, e, a);
    } else {
      StepDoesNotAppend(k, s, op);
    }
  }

  lemma {:induction false} UntouchedStep(k: Sealer, s: State, op: Op, a: Uuid)
    requires Inv(s) && Held(s, a) && Respects(op, a)
    ensures Untouched(s, Step(k, s, op), a)
  {
    StaysHeld(k, s, op, a);
    JournalGrows(k, s, op);
    FrozenBalance(k, s, op, a);
    if Appended(k, s, op).Some? {
      AppendedAvoidsHeld(k, s, op, a);
    }
  }

  lemma {:induction false} SameEventsStep(k: Sealer, s: State, op: Op, a: Uuid)
    requires Inv(s) && UniqueIds(s.index.rows) && Held(s, a)
    ensures SameEvents(s, Step(k, s, op), a)
  {
    forall i | 0 <= i < |s.index.rows| && Touches(s.index.rows[i], a)
      ensures Lookup(Step(k, s, op).settlements, s.index.rows[i].id) == Lookup(s.settlements, s.index.rows[i].id)
      ensures Lookup(Step(k, s, op).reversals, s.index.rows[i].id) == Lookup(s.reversals, s.index.rows[i].id)
    {
      FrozenEvents(k, s, op, a, i);
    }
  }

  lemma {:induction false} UntouchedTransitive(s: State, t: State, u: State, a: Uuid)
    requires Untouched(s, t, a) && Untouched(t, u, a)
    ensures Untouched(s, u, a)
  {
    forall i | |s.index.rows| <= i < |u.index.rows| ensures !Touches(u.index.rows[i], a) {
      if i < |t.index.rows| {
        assert u.index.rows[i] == t.index.rows[i];
      }
    }
  }

  lemma {:induction false} SameEventsTransitive(s: State, t: State, u: State, a: Uuid)
    requires s.index.rows <= t.index.rows && SameEvents(s, t, a) && SameEvents(t, u, a)
    ensures SameEvents(s, u, a)
  {
    forall i | 0 <= i < |s.index.rows| && Touches(s.index.rows[i], a)
      ensures Lookup(u.settlements, s.index.rows[i].id) == Lookup(s.settlements, s.index.rows[i].id)
      ensures Lookup(u.reversals, s.index.rows[i].id) == Lookup(s.reversals, s.index.rows[i].id)
    {
      assert t.index.rows[i] == s.index.rows[i];
    }
  }

  /** While an account is held, no run whatever appends an entry on it or moves its balance. */
  lemma {:induction false} HoldFreezesBalance(k: Sealer, s: State, ops: seq<Op>, a: Uuid)
    requires Inv(s) && Held(s, a) && RespectsThroughout(ops, a)
    ensures Inv(Run(k, s, ops)) && Untouched(s, Run(k, s, ops), a)
  {
    if ops == [] {
    } else {
      var front, op := ops[..|ops| - 1], ops[|ops| - 1];
      HoldFreezesBalance(k, s, front, a);
      assert Respects(op, a);
      StepKeepsInv(k, Run(k, s, front), op);
      UntouchedStep(k, Run(k, s, front), op, a);
      UntouchedTransitive(s, Run(k, s, front), Run(k, s, ops), a);
    }
  }

  /** What is appended gets a new id. */
  predicate FreshId(k: Sealer, s: State, op: Op) {
    Appended(k, s, op).Some? ==> !HasId(s.index.rows, Appended(k, s, op).value.id)
  }

  predicate FreshIdsThroughout(k: Sealer, s: State, ops: seq<Op>) {
    ops == [] ||
    (FreshIdsThroughout(k, s, ops[..|ops| - 1]) && FreshId(k, Run(k, s, ops[..|ops| - 1]), ops[|ops| - 1]))
  }

  lemma {:induction false} IdsStayUnique(k: Sealer, s: State, ops: seq<Op>)
    requires Inv(s) && UniqueIds(s.index.rows) && FreshIdsThroughout(k, s, ops)
    ensures UniqueIds(Run(k, s, ops).index.rows)
  {
    if ops == [] {
    } else {
      var front, op := ops[..|ops| - 1], ops[|ops| - 1];
      IdsStayUnique(k, s, front);
      RunKeepsInv(k, s, front);
      JournalGrows(k, Run(k, s, front), op);
      if Appended(k, Run(k, s, front), op).Some? {
        UniqueIdsGrow(Run(k, s, front).index.rows, Appended(k, Run(k, s, front), op).value);
      }
    }
  }

  /** Where ids are unique, no run records a reversal or settlement of an entry that touches the account either. */
  lemma {:induction false} HoldFreezesAccount(k: Sealer, s: State, ops: seq<Op>, a: Uuid)
    requires Inv(s) && UniqueIds(s.index.rows) && Held(s, a)
    requires FreshIdsThroughout(k, s, ops) && RespectsThroughout(ops, a)
    ensures Untouched(s, Run(k, s, ops), a) && SameEvents(s, Run(k, s, ops), a)
  {
    HoldFreezesBalance(k, s, ops, a);
    if ops == [] {
    } else {
      var front, op := ops[..|ops| - 1], ops[|ops| - 1];
      HoldFreezesBalance(k, s, front, a);
      HoldFreezesAccount(k, s, front, a);
      IdsStayUnique(k, s, front);
      SameEventsStep(k, Run(k, s, front), op, a);
      SameEventsTransitive(s, Run(k, s, front), Run(k, s, ops), a);
    }
  }

  /** For every run, the hold set is the set of accounts whose flag is set. */
  lemma {:induction false} HoldSetIsFlags(k: Sealer, ops: seq<Op>)
    ensures
      var s := Run(k, EMPTY, ops);
      s.holds == set a | a in s.accounts && s.accounts[a].legalHold
  {
    EmptyHasInv();
    RunKeepsInv(k, EMPTY, ops);
  }
}
