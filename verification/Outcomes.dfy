/** What posting, reversing and settling accept, refuse and write, said of the accounts and entries at hand
    without naming the checks that decide it. */
module Outcomes {
  import opened Bytes
  import opened Hashing
  import opened Entries
  import opened Balances
  import opened Ledger
  import opened Invariants
  import opened Transfers

  // ---- Sums by account and side ----

  /** The lines on one account. */
  function LinesOn(lines: seq<JournalLine>, a: Uuid): (r: seq<JournalLine>) {
    if lines == [] then []
    else LinesOn(lines[..|lines| - 1], a) + (if lines[|lines| - 1].accountId == a then [lines[|lines| - 1]] else [])
  }

  /** Net debit and debit total of an account are sums over its own lines, by side. */
  lemma {:induction false} SumsBySide(lines: seq<JournalLine>, a: Uuid)
    ensures NetDebit(lines, a) == SideTotal(LinesOn(lines, a), Debit) - SideTotal(LinesOn(lines, a), Credit)
    ensures DebitTotal(lines, a) == SideTotal(LinesOn(lines, a), Debit)
  {
    if lines == [] {
    } else {
      var front, last := lines[..|lines| - 1], lines[|lines| - 1];
      SumsBySide(front, a);
      if last.accountId == a {
        SideTotalSnoc(LinesOn(front, a), last, Debit);
        SideTotalSnoc(LinesOn(front, a), last, Credit);
      } else {
        assert LinesOn(front, a) + [] == LinesOn(front, a);
      }
    }
  }

  // ---- Posting ----

  /** The account takes lines like this one: it is Active, not held, keeps this currency, and is under four-eyes
      control only if somebody approved the entry. */
  predicate Takes(account: Account, e: JournalEntry, l: JournalLine) {
    && account.status == Active && !account.legalHold && account.currencyCode == l.currencyCode
    && (account.requireFourEyes ==> e.approvedBy.Some?)
  }

  /** The amount is within the bound of its currency, if that is registered. */
  predicate AmountFits(reg: Registry, l: JournalLine) {
    l.currencyCode in reg ==> AbsI64(l.amount) <= MaxMinor(reg[l.currencyCode])
  }

  /** The account's limits admit what the entry does to it in total. */
  predicate Bears(account: Account, balance: int, debits: int, net: int) {
    && (account.exposureLimit.Some? ==> debits <= account.exposureLimit.value)
    && (account.requireNonNegativeBalance && account.accountType in {Asset, Expense} && net < 0 ==> balance + net >= 0)
  }

  /** A line is refused for the first of its checks that fails, in this order, with these particulars. */
  lemma {:induction false} LineRefusedFor(accounts: Accounts, reg: Registry, e: JournalEntry, l: JournalLine)
    ensures
      var error, known := LineError(accounts, reg, e, l), l.accountId in accounts;
      && (error == Some(AccountNotFound(l.accountId)) <==> !known)
      && (known ==>
            var a := accounts[l.accountId];
            var open := a.status == Active;
            var free := open && !a.legalHold;
            var same := free && a.currencyCode == l.currencyCode;
            && (error == Some(AccountClosed(l.accountId)) <==> !open)
            && (error == Some(AccountUnderLegalHold(l.accountId)) <==> open && a.legalHold)
            && (error == Some(CurrencyMismatch(a.currencyCode, l.currencyCode)) <==> free && !same)
            && (error == Some(FourEyesRequired) <==>
                  same && AmountFits(reg, l) && a.requireFourEyes && e.approvedBy.None?)
            && (error.None? <==> Takes(a, e, l) && AmountFits(reg, l))
            && (same && !AmountFits(reg, l) ==>
                  var precision := reg[l.currencyCode];
                  error == Some(PrecisionViolation(l.currencyCode, precision, l.amount, MaxMinor(precision)))))
  {
  }

  /** An account that takes the lines is refused for its exposure first, then for its balance. */
  lemma {:induction false} AccountRefusedFor(a: Uuid, account: Account, cache: Cache, e: JournalEntry)
    ensures
      var on := LinesOn(e.lines, a);
      var debits, net := SideTotal(on, Debit), SideTotal(on, Debit) - SideTotal(on, Credit);
      var error, limit := AccountError(a, account, cache, e), account.exposureLimit;
      && (error.None? <==> Bears(account, Balance(cache, a), debits, net))
      && (limit.Some? && debits > limit.value ==> error == Some(ExposureLimitExceeded(a, limit.value, debits)))
      && (error.Some? && (limit.Some? ==> debits <= limit.value) ==>
            error == Some(InsufficientFunds(a, Balance(cache, a), -net)))
  {
    SumsBySide(e.lines, a);
  }

  /** Every line is on a known account that takes it, for an amount that fits its currency. */
  predicate LinesTaken(accounts: Accounts, reg: Registry, e: JournalEntry) {
    forall i :: 0 <= i < |e.lines| ==>
      && e.lines[i].accountId in accounts && Takes(accounts[e.lines[i].accountId], e, e.lines[i])
      && AmountFits(reg, e.lines[i])
  }

  /** Every account bears the sum of its lines. */
  predicate SumsBorne(accounts: Accounts, cache: Cache, e: JournalEntry) {
    forall a :: a in accounts && Touches(e, a) ==>
      var on := LinesOn(e.lines, a);
      Bears(accounts[a], Balance(cache, a), SideTotal(on, Debit), SideTotal(on, Debit) - SideTotal(on, Credit))
  }

  /** No journal entry carries the key. */
  predicate KeyIsNew(rows: seq<JournalEntry>, e: JournalEntry) {
    e.idempotencyKey.Some? ==> forall i :: 0 <= i < |rows| ==> rows[i].idempotencyKey != e.idempotencyKey
  }

  lemma {:induction false} LinesPassExactly(accounts: Accounts, reg: Registry, e: JournalEntry)
    ensures LinesPass(accounts, reg, e) <==> LinesTaken(accounts, reg, e)
  {
    forall i | 0 <= i < |e.lines|
      ensures LineError(accounts, reg, e, e.lines[i]).None? <==>
        && e.lines[i].accountId in accounts && Takes(accounts[e.lines[i].accountId], e, e.lines[i])
        && AmountFits(reg, e.lines[i])
    {
      LineRefusedFor(accounts, reg, e, e.lines[i]);
    }
  }

  lemma {:induction false} AccountsPassExactly(accounts: Accounts, cache: Cache, e: JournalEntry)
    ensures AccountsPass(accounts, cache, e) <==> SumsBorne(accounts, cache, e)
  {
    forall a | a in accounts && Touches(e, a)
      ensures
        var on := LinesOn(e.lines, a);
        AccountError(a, accounts[a], cache, e).None? <==>
        Bears(accounts[a], Balance(cache, a), SideTotal(on, Debit), SideTotal(on, Debit) - SideTotal(on, Credit))
    {
      AccountRefusedFor(a, accounts[a], cache, e);
    }
  }

  lemma {:induction false} KeyIsNewExactly(rows: seq<JournalEntry>, e: JournalEntry)
    ensures KeyAlreadyPosted(rows, e) <==> !KeyIsNew(rows, e)
  {
  }

  /** An entry is appended exactly when it has two lines or more, its sides agree, its key is not in the journal,
      and every account it touches is known, takes its lines and bears their sum. */
  lemma {:induction false} AcceptedExactly(s: State, reg: Registry, e: JournalEntry)
    ensures Accepts(s, reg, e) <==>
      && |e.lines| >= 2 && SideTotal(e.lines, Debit) == SideTotal(e.lines, Credit) && KeyIsNew(s.index.rows, e)
      && LinesTaken(s.accounts, reg, e) && SumsBorne(s.accounts, s.cache, e)
  {
    LinesPassExactly(s.accounts, reg, e);
    AccountsPassExactly(s.accounts, s.cache, e);
    KeyIsNewExactly(s.index.rows, e);
  }

  /** The entry appended is the caller's in every field but its number, its posting time and its hashes. */
  lemma {:induction false} PostedRow(k: Sealer, s: State, reg: Registry, e: JournalEntry, now: Time)
    requires Inv(s) && Accepts(s, reg, e)
    ensures
      var t := PostEntry(k, s, reg, e, now);
      |t.index.rows| == |s.index.rows| + 1 &&
      var row := t.index.rows[|s.index.rows|];
      && row.sequence == |s.index.rows| + 1 && row.postedAt == now && row.prevHash == s.tip && t.tip == row.chainHash
      && (e.contentHash != ZERO_HASH ==> row.contentHash == e.contentHash)
      && row.id == e.id && row.status == e.status && row.description == e.description && row.lines == e.lines
      && row.effectiveAt == e.effectiveAt && row.externalRef == e.externalRef
      && row.idempotencyKey == e.idempotencyKey && row.domain == e.domain
      && row.reversesEntryId == e.reversesEntryId && row.reversedByEntryId == e.reversedByEntryId
      && row.approvedBy == e.approvedBy && row.metadata == e.metadata
  {
    JournalGrows(k, s, OpPost(reg, e, now));
  }

  predicate FirstWithKey(rows: seq<JournalEntry>, i: int, key: Str) {
    && 0 <= i < |rows| && rows[i].idempotencyKey == Some(key)
    && forall j :: 0 <= j < i ==> rows[j].idempotencyKey != Some(key)
  }

  /** A repeated key is answered with the number of a journal entry that carries it. */
  lemma {:induction false} RepeatedKeyAnswer(rows: seq<JournalEntry>, key: Str)
    requires HasKey(rows, key)
    ensures exists i :: FirstWithKey(rows, i, key) && rows[i].sequence == SequenceForKey(rows, key)
  {
    if rows[0].idempotencyKey == Some(key) {
      assert FirstWithKey(rows, 0, key);
    } else {
      var i :| 0 <= i < |rows| && rows[i].idempotencyKey == Some(key);
      assert rows[1..][i - 1] == rows[i];
      RepeatedKeyAnswer(rows[1..], key);
      var j :| FirstWithKey(rows[1..], j, key) && rows[1..][j].sequence == SequenceForKey(rows[1..], key);
      forall m | 0 < m < j + 1 ensures rows[m].idempotencyKey != Some(key) {
        assert rows[1..][m - 1] == rows[m];
      }
      assert FirstWithKey(rows, j + 1, key);
    }
  }

  /** Posting under any status but Posted and Reversal adds the entry and moves no balance. */
  lemma {:induction false} OtherStatusMovesNothing(k: Sealer, s: State, reg: Registry, e: JournalEntry, now: Time)
    requires e.status != Posted && e.status != Reversal
    ensures PostEntry(k, s, reg, e, now).cache == s.cache
  {
  }

  // ---- Reversing ----

  /** The id is that of a journal entry, and of none after it. */
  predicate IsLast(rows: seq<JournalEntry>, i: nat, id: Uuid) {
    i < |rows| && rows[i].id == id && forall j :: i < j < |rows| ==> rows[j].id != id
  }

  lemma {:induction false} FindsLast(rows: seq<JournalEntry>, i: nat, id: Uuid)
    requires IsLast(rows, i, id)
    ensures FindById(rows, id) == Some(rows[i])
  {
    if i == |rows| - 1 {
    } else {
      FindsLast(rows[..|rows| - 1], i, id);
    }
  }

  /** The first of the lines that is on a held account. */
  predicate FirstHeldAt(holds: set<Uuid>, lines: seq<JournalLine>, j: int) {
    && 0 <= j < |lines| && lines[j].accountId in holds
    && forall m :: 0 <= m < j ==> lines[m].accountId !in holds
  }

  predicate NoneHeld(holds: set<Uuid>, lines: seq<JournalLine>) {
    forall j :: 0 <= j < |lines| ==> lines[j].accountId !in holds
  }

  lemma {:induction false} FirstHeldIs(holds: set<Uuid>, lines: seq<JournalLine>)
    ensures HeldAccount(holds, lines).None? <==> NoneHeld(holds, lines)
    ensures forall j :: FirstHeldAt(holds, lines, j) ==> HeldAccount(holds, lines) == Some(lines[j].accountId)
  {
    forall j | FirstHeldAt(holds, lines, j) ensures HeldAccount(holds, lines) == Some(lines[j].accountId) {
      HeldAt(holds, lines, j);
    }
  }

  lemma {:induction false} HeldAt(holds: set<Uuid>, lines: seq<JournalLine>, j: int)
    requires FirstHeldAt(holds, lines, j)
    ensures HeldAccount(holds, lines) == Some(lines[j].accountId)
  {
    if j == 0 {
    } else {
      assert forall m :: 0 <= m < |lines| - 1 ==> lines[1..][m] == lines[m + 1];
      HeldAt(holds, lines[1..], j - 1);
    }
  }

  /** A reversal is refused for the first of its checks that fails, in this order. */
  lemma {:induction false} ReversalRefusedFor(s: State, i: nat, id: Uuid)
    requires IsLast(s.index.rows, i, id)
    ensures
      var error, e := ReversalError(s, id), s.index.rows[i];
      && (error.None? <==> e.status == Posted && NoneHeld(s.holds, e.lines) && id !in s.reversals)
      && (error == Some(CannotReverse(id, e.status)) <==> e.status != Posted)
      && (e.status == Posted ==> forall j :: FirstHeldAt(s.holds, e.lines, j) ==>
            error == Some(AccountUnderLegalHold(e.lines[j].accountId)))
      && (e.status == Posted && NoneHeld(s.holds, e.lines) && id in s.reversals ==>
            error == Some(AlreadyReversed(id, s.reversals[id])))
  {
    FindsLast(s.index.rows, i, id);
    FirstHeldIs(s.holds, s.index.rows[i].lines);
  }

  lemma {:induction false} UnknownIsNotFound(s: State, id: Uuid)
    requires forall i :: 0 <= i < |s.index.rows| ==> s.index.rows[i].id != id
    ensures ReversalError(s, id) == SettlementError(s, id) == Some(EntryNotFound(id))
  {
  }

  /** A settlement goes through exactly when the entry is found and none of its accounts is held, whatever the
      entry's status; it then changes that one settlement and the log. */
  lemma {:induction false} SettledExactly(s: State, i: nat, id: Uuid, status: EntryStatus)
    requires IsLast(s.index.rows, i, id)
    ensures
      var error, lines := SettlementError(s, id), s.index.rows[i].lines;
      && (error.None? <==> NoneHeld(s.holds, lines))
      && (forall j :: FirstHeldAt(s.holds, lines, j) ==> error == Some(AccountUnderLegalHold(lines[j].accountId)))
      && Settle(s, id, status) ==
         if NoneHeld(s.holds, lines)
         then s.(settlements := s.settlements[id := status], wal := s.wal + [[SettlementRow(id, status)]])
         else s
  {
    FindsLast(s.index.rows, i, id);
    FirstHeldIs(s.holds, s.index.rows[i].lines);
  }

  /** The new line is on the account of the old one, in its currency and amount and on the other side, and its memo
      names the old line. */
  predicate Opposes(l: JournalLine, m: JournalLine) {
    && m.accountId == l.accountId && m.currencyCode == l.currencyCode && m.amount == l.amount && m.drCr != l.drCr
    && m.memo == Some(Utf8("Reversal of line ") + UuidText(l.id))
  }

  /** What a reversal appends: the caller's id, texts and times, the original's lines opposed, and nothing else. */
  predicate Reverses(original: JournalEntry, d: ReversalDetails, row: JournalEntry) {
    && row.id == d.id && row.status == Reversal && row.description == d.description && row.domain == d.domain
    && row.effectiveAt == d.effectiveAt && row.postedAt == d.postedAt && row.reversesEntryId == Some(original.id)
    && row.externalRef == None && row.idempotencyKey == None && row.reversedByEntryId == None
    && row.approvedBy == None && row.metadata == None
    && |row.lines| == |original.lines|
    && forall i :: 0 <= i < |row.lines| ==>
         row.lines[i].id == d.lineId(i) && Opposes(original.lines[i], row.lines[i])
  }

  lemma {:induction false} SealedReversal(k: Sealer, s: State, original: JournalEntry, d: ReversalDetails)
    ensures Reverses(original, d, SealReversal(k, s, original, d))
    ensures SealReversal(k, s, original, d).sequence == s.nextSequence
    ensures SealReversal(k, s, original, d).prevHash == s.tip
  {
    var row := SealReversal(k, s, original, d);
    forall i | 0 <= i < |row.lines| ensures row.lines[i].id == d.lineId(i) && Opposes(original.lines[i], row.lines[i]) {
      assert row.lines[i] == ReversalLines(original.lines, d)[i];
      FlipIsOther(original.lines[i].drCr);
    }
  }

  lemma {:induction false} ReversalState(k: Sealer, s: State, original: JournalEntry, id: Uuid, d: ReversalDetails)
    requires FindById(s.index.rows, id) == Some(original) && ReversalError(s, id).None?
    ensures
      var t, row := ReverseEntry(k, s, id, d), SealReversal(k, s, original, d);
      && Appended(k, s, OpReverse(id, d)) == Some(row) && t == Step(k, s, OpReverse(id, d))
      && t.tip == row.chainHash && t.reversals == s.reversals[id := d.id]
      && t.wal == s.wal + [[EntryRow(row), Payload.ReversalRow(id, d.id)]]
  {
    var row := SealReversal(k, s, original, d);
    assert [EntryRow(row)] + [Payload.ReversalRow(id, d.id)] == [EntryRow(row), Payload.ReversalRow(id, d.id)];
  }

  /** A reversal that goes through appends one such entry, records it in the reversal index, and commits both in
      one transaction. */
  lemma {:induction false} ReversedRow(k: Sealer, s: State, i: nat, id: Uuid, d: ReversalDetails)
    returns (row: JournalEntry)
    requires Inv(s) && IsLast(s.index.rows, i, id) && ReversalError(s, id).None?
    ensures Reverses(s.index.rows[i], d, row) && row.sequence == |s.index.rows| + 1 && row.prevHash == s.tip
    ensures
      var t := ReverseEntry(k, s, id, d);
      && t.index.rows == s.index.rows + [row] && t.tip == row.chainHash && t.reversals == s.reversals[id := d.id]
      && t.wal == s.wal + [[EntryRow(row), Payload.ReversalRow(id, d.id)]]
  {
    FindsLast(s.index.rows, i, id);
    row := SealReversal(k, s, s.index.rows[i], d);
    SealedReversal(k, s, s.index.rows[i], d);
    ReversalState(k, s, s.index.rows[i], id, d);
    JournalGrows(k, s, OpReverse(id, d));
  }
}
