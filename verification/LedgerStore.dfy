/** The ledger store as an object: each operation updates the fields step by step, and its contract is
    the step of the ledger machine it performs, together with the result it returns. */
module LedgerStore {
  import opened Bytes
  import opened Hashing
  import opened Entries
  import opened Balances
  import opened Ledger
  import opened Recovery
  import opened Reports
  import opened Outcomes

  // ---- The index ----

  /** The primary key orders the rows. */
  predicate Sorted(rows: seq<JournalEntry>) {
    forall i, j :: 0 <= i < j < |rows| ==> rows[i].sequence < rows[j].sequence
  }

  lemma {:induction false} InsertKeepsSorted(rows: seq<JournalEntry>, e: JournalEntry)
    requires Sorted(rows) && forall i :: 0 <= i < |rows| ==> rows[i].sequence != e.sequence
    ensures Sorted(InsertSorted(rows, e))
    ensures forall x :: x in InsertSorted(rows, e) ==> x == e || x in rows
  {
    if rows == [] || rows[|rows| - 1].sequence < e.sequence {
    } else {
      var front, last := rows[..|rows| - 1], rows[|rows| - 1];
      InsertKeepsSorted(front, e);
      var s := InsertSorted(front, e);
      forall i | 0 <= i < |s| ensures s[i].sequence < last.sequence {
        assert s[i] in s;
      }
    }
  }

  /** The primary key and the idempotency key of the row are both free. */
  predicate IsFree(rows: seq<JournalEntry>, e: JournalEntry) {
    forall i :: 0 <= i < |rows| ==>
      rows[i].sequence != e.sequence && (e.idempotencyKey.Some? ==> rows[i].idempotencyKey != e.idempotencyKey)
  }

  /** The row is added, exactly once, when its keys are free, and changes nothing when they are not; every account
      of its lines is cross-referenced either way. */
  ghost predicate IsInsertion(before: Index, e: JournalEntry, after: Index) {
    && (if IsFree(before.rows, e) then multiset(after.rows) == multiset(before.rows) + multiset{e}
        else after.rows == before.rows)
    && forall a, n :: (a, n) in after.accountEntries <==>
         (a, n) in before.accountEntries || (n == e.sequence && Touches(e, a))
  }

  lemma {:induction false} InsertsOnce(rows: seq<JournalEntry>, e: JournalEntry)
    ensures multiset(InsertSorted(rows, e)) == multiset(rows) + multiset{e}
  {
    if rows == [] || rows[|rows| - 1].sequence < e.sequence {
    } else {
      var front, last := rows[..|rows| - 1], rows[|rows| - 1];
      InsertsOnce(front, e);
      assert rows == front + [last];
    }
  }

  lemma {:induction false} Insertion(index: Index, e: JournalEntry)
    ensures IsInsertion(index, e, InsertEntry(index, e))
  {
    assert Clashes(index.rows, e) <==> !IsFree(index.rows, e);
    InsertsOnce(index.rows, e);
    forall a, n ensures (a, n) in LineRefs(e.lines, e.sequence) <==> n == e.sequence && Touches(e, a) {
      if n == e.sequence && Touches(e, a) {
        var i :| 0 <= i < |e.lines| && e.lines[i].accountId == a;
        assert (e.lines[i].accountId, e.sequence) in LineRefs(e.lines, e.sequence);
      }
    }
  }

  /** The scan that `reverse_entry` makes: the sequence of the last row with the id. */
  method FindSequence(rows: seq<JournalEntry>, id: Uuid) returns (r: Option<nat>)
    ensures r == (if FindById(rows, id).Some? then Some(FindById(rows, id).value.sequence) else None)
  {
    r := None;
    for i := 0 to |rows|
      invariant r == (if FindById(rows[..i], id).Some? then Some(FindById(rows[..i], id).value.sequence) else None)
    {
      assert rows[..i + 1][..i] == rows[..i];
      if rows[i].id == id {
        r := Some(rows[i].sequence);
      }
    }
    assert rows[..|rows|] == rows;
  }

  method GetBySequence(rows: seq<JournalEntry>, sequence: nat) returns (r: Option<JournalEntry>)
    ensures r.Some? ==> r.value in rows && r.value.sequence == sequence
    ensures r.None? ==> forall i :: 0 <= i < |rows| ==> rows[i].sequence != sequence
  {
    for i := 0 to |rows|
      invariant forall j :: 0 <= j < i ==> rows[j].sequence != sequence
    {
      if rows[i].sequence == sequence {
        return Some(rows[i]);
      }
    }
    r := None;
  }

  lemma {:induction false} FindsSomeLast(rows: seq<JournalEntry>, id: Uuid)
    ensures FindById(rows, id).Some? ==> exists i: nat :: IsLast(rows, i, id) && rows[i] == FindById(rows, id).value
  {
    if rows == [] {
    } else if rows[|rows| - 1].id == id {
      assert IsLast(rows, |rows| - 1, id);
    } else {
      FindsSomeLast(rows[..|rows| - 1], id);
      if FindById(rows, id).Some? {
        var i: nat :| IsLast(rows[..|rows| - 1], i, id) && rows[i] == FindById(rows, id).value;
        assert forall j :: 0 <= j < |rows| - 1 ==> rows[..|rows| - 1][j] == rows[j];
        assert IsLast(rows, i, id);
      }
    }
  }

  /** Scan for the sequence, then point lookup. */
  method FindEntry(rows: seq<JournalEntry>, id: Uuid) returns (r: Option<JournalEntry>)
    requires Sorted(rows)
    ensures r == FindById(rows, id)
    ensures r.None? ==> forall i :: 0 <= i < |rows| ==> rows[i].id != id
    ensures r.Some? ==> exists i: nat :: IsLast(rows, i, id) && rows[i] == r.value
  {
    FindsSomeLast(rows, id);
    var sequence := FindSequence(rows, id);
    if sequence.None? {
      return None;
    }
    r := GetBySequence(rows, sequence.value);
    ghost var i :| 0 <= i < |rows| && rows[i] == FindById(rows, id).value;
    assert r.Some?;
    ghost var j :| 0 <= j < |rows| && rows[j] == r.value;
    assert i == j;
  }

  // ---- Aggregate checks ----

  /** Net debit of an entry on each account it touches. */
  method NetDebitDeltas(e: JournalEntry) returns (deltas: map<Uuid, int>)
    ensures forall a :: a in deltas <==> Touches(e, a)
    ensures forall a :: a in deltas ==> deltas[a] == NetDebit(e.lines, a)
  {
    deltas := map[];
    for i := 0 to |e.lines|
      invariant forall a :: a in deltas <==> exists j :: 0 <= j < i && e.lines[j].accountId == a
      invariant forall a :: Balance(deltas, a) == NetDebit(e.lines[..i], a)
    {
      var line := e.lines[i];
      assert e.lines[..i + 1][..i] == e.lines[..i];
      var delta := if line.drCr.Debit? then line.amount else -(line.amount as int);
      deltas := deltas[line.accountId := Balance(deltas, line.accountId) + delta];
    }
    assert e.lines[..|e.lines|] == e.lines;
  }

  method TotalDebits(e: JournalEntry) returns (totals: map<Uuid, int>)
    ensures forall a :: Balance(totals, a) == DebitTotal(e.lines, a)
  {
    totals := map[];
    for i := 0 to |e.lines|
      invariant forall a :: Balance(totals, a) == DebitTotal(e.lines[..i], a)
    {
      var line := e.lines[i];
      assert e.lines[..i + 1][..i] == e.lines[..i];
      if line.drCr.Debit? {
        totals := totals[line.accountId := Balance(totals, line.accountId) + line.amount];
      }
    }
    assert e.lines[..|e.lines|] == e.lines;
  }

  /** The account, if there is one, fails a check of the entry with this error. */
  predicate FailsWith(accounts: Accounts, cache: Cache, e: JournalEntry, a: Uuid, error: LedgerError) {
    && Touches(e, a)
    && if a in accounts then AccountError(a, accounts[a], cache, e) == Some(error) else error == AccountNotFound(a)
  }

  /** Visits the touched accounts in any order and reports the first that fails. */
  method CheckAccounts(accounts: Accounts, cache: Cache, e: JournalEntry) returns (r: Option<LedgerError>)
    ensures r.Some? ==> exists a :: FailsWith(accounts, cache, e, a, r.value)
    ensures r.None? ==> forall a :: Touches(e, a) ==> a in accounts && AccountError(a, accounts[a], cache, e).None?
  {
    var deltas := NetDebitDeltas(e);
    var totals := TotalDebits(e);
    var todo := deltas.Keys;
    while todo != {}
      invariant todo <= deltas.Keys
      invariant forall a :: a in deltas && a !in todo ==> a in accounts && AccountError(a, accounts[a], cache, e).None?
      decreases |todo|
    {
      var a :| a in todo;
      if a !in accounts {
        assert FailsWith(accounts, cache, e, a, AccountNotFound(a));
        return Some(AccountNotFound(a));
      }
      var error := CheckAccount(a, accounts[a], cache, e, deltas[a], Balance(totals, a));
      if error.Some? {
        assert FailsWith(accounts, cache, e, a, error.value);
        return error;
      }
      todo := todo - {a};
    }
    r := None;
  }

  method CheckAccount(a: Uuid, account: Account, cache: Cache, e: JournalEntry, delta: int, debits: int)
    returns (r: Option<LedgerError>)
    requires delta == NetDebit(e.lines, a) && debits == DebitTotal(e.lines, a)
    ensures r == AccountError(a, account, cache, e)
  {
    if account.exposureLimit.Some? && debits > account.exposureLimit.value {
      return Some(ExposureLimitExceeded(a, account.exposureLimit.value, debits));
    }
    if account.requireNonNegativeBalance && DebitNormal(account.accountType) && delta < 0 {
      var current := Balance(cache, a);
      if current + delta < 0 {
        return Some(InsufficientFunds(a, current, -delta));
      }
    }
    r := None;
  }

  /** What posting returns: the sequence, or the first check that failed; among accounts that fail the
      aggregate checks any one may be reported. */
  ghost predicate PostOutcome(s: State, reg: Registry, e: JournalEntry, r: Result<nat>) {
    if |e.lines| < 2 then r == Err(TooFewLines(|e.lines|))
    else if !WellFormed(e) then r == Err(UnbalancedEntry(SideTotal(e.lines, Debit), SideTotal(e.lines, Credit)))
    else if KeyAlreadyPosted(s.index.rows, e) then r == Ok(SequenceForKey(s.index.rows, e.idempotencyKey.value))
    else if !LinesPass(s.accounts, reg, e) then r.Err? && FirstLineError(s.accounts, reg, e, r.error)
    else if !AccountsPass(s.accounts, s.cache, e) then
      r.Err? && exists a :: FailsWith(s.accounts, s.cache, e, a, r.error)
    else r == Ok(s.nextSequence)
  }

  ghost predicate FirstLineError(accounts: Accounts, reg: Registry, e: JournalEntry, error: LedgerError) {
    exists i :: 0 <= i < |e.lines| && LineError(accounts, reg, e, e.lines[i]) == Some(error)
             && forall j :: 0 <= j < i ==> LineError(accounts, reg, e, e.lines[j]).None?
  }

  method CheckLine(accounts: Accounts, reg: Registry, e: JournalEntry, line: JournalLine)
    returns (r: Option<LedgerError>)
    ensures r == LineError(accounts, reg, e, line)
  {
    if line.accountId !in accounts {
      return Some(AccountNotFound(line.accountId));
    }
    var account := accounts[line.accountId];
    if !account.status.Active? {
      return Some(AccountClosed(line.accountId));
    }
    if account.legalHold {
      return Some(AccountUnderLegalHold(line.accountId));
    }
    if account.currencyCode != line.currencyCode {
      return Some(CurrencyMismatch(account.currencyCode, line.currencyCode));
    }
    if line.currencyCode in reg {
      var maxMinor := MaxMinor(reg[line.currencyCode]);
      if AbsI64(line.amount) > maxMinor {
        return Some(PrecisionViolation(line.currencyCode, reg[line.currencyCode], line.amount, maxMinor));
      }
    }
    if account.requireFourEyes && e.approvedBy.None? {
      return Some(FourEyesRequired);
    }
    r := None;
  }

  method CheckLines(accounts: Accounts, reg: Registry, e: JournalEntry) returns (r: Option<LedgerError>)
    ensures r.None? <==> LinesPass(accounts, reg, e)
    ensures r.Some? ==> FirstLineError(accounts, reg, e, r.value)
  {
    for i := 0 to |e.lines|
      invariant forall j :: 0 <= j < i ==> LineError(accounts, reg, e, e.lines[j]).None?
    {
      var error := CheckLine(accounts, reg, e, e.lines[i]);
      if error.Some? {
        return error;
      }
    }
    r := None;
  }

  /** The first held account of an entry. */
  method FirstHeld(holds: set<Uuid>, lines: seq<JournalLine>) returns (r: Option<Uuid>)
    ensures r == HeldAccount(holds, lines)
    ensures r.None? <==> NoneHeld(holds, lines)
    ensures forall j :: FirstHeldAt(holds, lines, j) ==> r == Some(lines[j].accountId)
  {
    FirstHeldIs(holds, lines);
    for i := 0 to |lines|
      invariant HeldAccount(holds, lines) == HeldAccount(holds, lines[i..])
    {
      assert lines[i..][1..] == lines[i + 1..];
      if lines[i].accountId in holds {
        return Some(lines[i].accountId);
      }
    }
    r := None;
  }

  method FlipLines(lines: seq<JournalLine>, d: ReversalDetails) returns (r: seq<JournalLine>)
    ensures r == ReversalLines(lines, d) && |r| == |lines|
    ensures forall i :: 0 <= i < |lines| ==> r[i].id == d.lineId(i) && Opposes(lines[i], r[i])
  {
    r := [];
    for i := 0 to |lines|
      invariant r == ReversalLines(lines, d)[..i]
    {
      var line := lines[i];
      r := r + [JournalLine(d.lineId(i), line.accountId, line.currencyCode, line.amount,
                            if line.drCr.Debit? then Credit else Debit,
                            Some(Utf8("Reversal of line ") + UuidText(line.id)))];
    }
  }

  class Store {
    const sealer: Sealer
    var accounts: Accounts
    var cache: Cache
    var nextSequence: nat
    var tip: Hash
    var reversals: map<Uuid, Uuid>
    var settlements: map<Uuid, EntryStatus>
    var holds: set<Uuid>
    var index: Index
    var wal: seq<Tx>

    function Contents(): (r: State)
      reads this
    {
      State(accounts, cache, nextSequence, tip, reversals, settlements, holds, index, wal)
    }

    predicate Valid()
      reads this
    {
      Sorted(index.rows)
    }

    // ---- Opening ----

    /** Opening replays the log beside the index that is found. */
    constructor Open(k: Sealer, log: seq<Tx>, found: Index)
      requires Sorted(found.rows)
      ensures sealer == k && Contents() == Recover(log, found) && Valid()
    {
      sealer := k;
      accounts, cache, nextSequence, tip := map[], map[], 1, ZERO_HASH;
      reversals, settlements, holds := map[], map[], {};
      index, wal := found, log;
      new;
      ReplayFromWal();
    }

    method ReplayFromWal()
      requires Valid() && Contents() == ReplayStart(wal, index).state
      modifies this
      ensures Contents() == Recover(old(wal), old(index)) && Valid()
    {
      var max := MaxSequence(index.rows);
      var current := max > 0;
      ghost var start := Replay(Contents(), current);
      var log := wal;
      for i := 0 to |log|
        invariant Valid() && Replay(Contents(), current) == ReplayWal(max, start, log[..i])
      {
        assert log[..i + 1][..i] == log[..i];
        current := ReplayTransaction(max, current, log[i]);
      }
      assert log[..|log|] == log;
      if current {
        nextSequence := MaxSequence(index.rows) + 1;
        if index.rows != [] {
          tip := index.rows[|index.rows| - 1].chainHash;
        }
        RebuildBalanceCache();
      }
    }

    method ReplayTransaction(max: nat, current: bool, tx: Tx) returns (stillCurrent: bool)
      requires Valid()
      modifies this
      ensures Valid() && Replay(Contents(), stillCurrent) == ReplayTx(max, Replay(old(Contents()), current), tx)
    {
      stillCurrent := current;
      for j := 0 to |tx|
        invariant Valid()
        invariant Replay(Contents(), stillCurrent) == ReplayTx(max, Replay(old(Contents()), current), tx[..j])
      {
        assert tx[..j + 1][..j] == tx[..j];
        stillCurrent := ReplayOnePayload(max, stillCurrent, tx[j]);
      }
      assert tx[..|tx|] == tx;
    }

    method ReplayOnePayload(max: nat, current: bool, p: Payload) returns (stillCurrent: bool)
      requires Valid()
      modifies this
      ensures Valid() && Replay(Contents(), stillCurrent) == ReplayPayload(max, Replay(old(Contents()), current), p)
    {
      stillCurrent := current;
      match p {
        case AccountRow(_, account) => ApplyAccount(account);
        case EntryRow(e) => stillCurrent := ReplayEntryRow(max, current, e);
        case ReversalRow(original, reversal) => reversals := reversals[original := reversal];
        case SettlementRow(id, status) => settlements := settlements[id := status];
        case ReconciliationRow =>
      }
    }

    method ReplayEntryRow(max: nat, current: bool, e: JournalEntry) returns (stillCurrent: bool)
      requires Valid()
      modifies this
      ensures Valid() && Replay(Contents(), stillCurrent) == ReplayEntry(max, Replay(old(Contents()), current), e)
    {
      stillCurrent := current && e.sequence <= max;
      if e.sequence >= nextSequence {
        nextSequence := e.sequence + 1;
      }
      tip := e.chainHash;
      if !stillCurrent {
        UpdateCache(e);
        if e.sequence > max {
          InsertIntoIndex(e);
        }
      }
    }

    method RebuildBalanceCache()
      modifies this`cache
      ensures cache == RebuildCache(accounts, old(cache), index.rows)
    {
      for i := 0 to |index.rows|
        invariant cache == RebuildCache(accounts, old(cache), index.rows[..i])
      {
        assert index.rows[..i + 1][..i] == index.rows[..i];
        RebuildFrom(index.rows[i]);
      }
      assert index.rows[..|index.rows|] == index.rows;
    }

    /** One entry of the rebuild, abandoned at its first line on an unknown account. */
    method RebuildFrom(e: JournalEntry)
      modifies this`cache
      ensures cache == RebuildEntry(accounts, old(cache), e)
    {
      if AffectsBalance(e.status) {
        var i := 0;
        ghost var n := KnownPrefix(accounts, e.lines);
        while i < |e.lines| && e.lines[i].accountId in accounts
          invariant i <= n
          invariant cache == ApplyLines(accounts, old(cache), e.lines[..i])
        {
          assert e.lines[..i + 1][..i] == e.lines[..i];
          UpdateBalanceCache(e.lines[i]);
          i := i + 1;
        }
        assert i == n by {
          assert forall j :: 0 <= j < n ==> e.lines[..n][j] == e.lines[j];
        }
      }
    }

    // ---- In-memory updates ----

    method ApplyAccount(account: Account)
      modifies this`accounts, this`holds
      ensures Contents() == PutAccount(old(Contents()), account)
    {
      if account.legalHold {
        holds := holds + {account.id};
      } else {
        holds := holds - {account.id};
      }
      accounts := accounts[account.id := account];
    }

    method UpdateBalanceCache(line: JournalLine)
      modifies this`cache
      ensures cache == ApplyLine(accounts, old(cache), line)
    {
      if line.accountId !in accounts {
        return;
      }
      var delta: int := line.amount;
      if DebitNormal(accounts[line.accountId].accountType) != line.drCr.Debit? {
        delta := -delta;
      }
      cache := cache[line.accountId := Balance(cache, line.accountId) + delta];
    }

    method UpdateCache(e: JournalEntry)
      modifies this`cache
      ensures cache == ApplyEntry(accounts, old(cache), e)
    {
      if AffectsBalance(e.status) {
        for i := 0 to |e.lines|
          invariant cache == ApplyLines(accounts, old(cache), e.lines[..i])
        {
          assert e.lines[..i + 1][..i] == e.lines[..i];
          UpdateBalanceCache(e.lines[i]);
        }
        assert e.lines[..|e.lines|] == e.lines;
      }
    }

    /** The row is ignored when it clashes; the cross references are written line by line. */
    method InsertIntoIndex(e: JournalEntry)
      requires Valid()
      modifies this`index
      ensures Valid() && index == InsertEntry(old(index), e)
      ensures IsInsertion(old(index), e, index)
    {
      Insertion(index, e);
      var rows := index.rows;
      if !Clashes(rows, e) {
        InsertKeepsSorted(rows, e);
        rows := InsertSorted(rows, e);
      }
      var refs: set<(Uuid, nat)> := {};
      for i := 0 to |e.lines|
        invariant index == old(index) && refs == LineRefs(e.lines[..i], e.sequence)
      {
        RefsGrow(e.lines, e.sequence, i);
        refs := refs + {(e.lines[i].accountId, e.sequence)};
      }
      assert e.lines[..|e.lines|] == e.lines;
      index := Index(rows, index.accountEntries + refs);
    }

    // ---- Operations ----

    method CreateAccount(account: Account) returns (id: Uuid)
      requires Valid()
      modifies this
      ensures id == account.id && Contents() == Ledger.CreateAccount(old(Contents()), account) && Valid()
      ensures
        Contents() == old(Contents()).(
          accounts := old(accounts)[account.id := account],
          holds := if account.legalHold then old(holds) + {account.id} else old(holds) - {account.id},
          wal := old(wal) + [[AccountRow(Insert, account)]])
    {
      id := account.id;
      wal := wal + [[AccountRow(Insert, account)]];
      ApplyAccount(account);
    }

    method CloseAccount(id: Uuid) returns (r: Result<()>)
      requires Valid()
      modifies this
      ensures Contents() == Ledger.CloseAccount(old(Contents()), id) && Valid()
      ensures id in old(accounts) ==>
        var closed := old(accounts)[id].(status := Closed);
        Contents() == old(Contents()).(
          accounts := old(accounts)[id := closed], wal := old(wal) + [[AccountRow(Delete, closed)]])
      ensures id !in old(accounts) ==> Contents() == old(Contents())
      ensures r == if id in old(accounts) then Ok(()) else Err(AccountNotFound(id))
    {
      if id !in accounts {
        return Err(AccountNotFound(id));
      }
      accounts := accounts[id := accounts[id].(status := Closed)];
      wal := wal + [[AccountRow(Delete, accounts[id])]];
      r := Ok(());
    }

    method SetLegalHold(id: Uuid, hold: bool) returns (r: Result<()>)
      requires Valid()
      modifies this
      ensures Contents() == Ledger.SetLegalHold(old(Contents()), id, hold) && Valid()
      ensures id in old(accounts) ==>
        var changed := old(accounts)[id].(legalHold := hold);
        Contents() == old(Contents()).(
          accounts := old(accounts)[id := changed],
          holds := if hold then old(holds) + {id} else old(holds) - {id},
          wal := old(wal) + [[AccountRow(Delete, changed)]])
      ensures id !in old(accounts) ==> Contents() == old(Contents())
      ensures r == if id in old(accounts) then Ok(()) else Err(AccountNotFound(id))
    {
      if id !in accounts {
        return Err(AccountNotFound(id));
      }
      accounts := accounts[id := accounts[id].(legalHold := hold)];
      wal := wal + [[AccountRow(Delete, accounts[id])]];
      if hold {
        holds := holds + {id};
      } else {
        holds := holds - {id};
      }
      r := Ok(());
    }

    /** Makes a sealed entry durable, then applies it. */
    method Commit(e: JournalEntry, more: Tx)
      requires Valid()
      modifies this
      ensures Contents() == Ledger.Append(old(Contents()), e, more) && Valid()
    {
      nextSequence := nextSequence + 1;
      wal := wal + [[EntryRow(e)] + more];
      tip := e.chainHash;
      UpdateCache(e);
      InsertIntoIndex(e);
    }

    method PostEntry(reg: Registry, e: JournalEntry, now: Time) returns (r: Result<nat>)
      requires Valid()
      modifies this
      ensures Contents() == Ledger.PostEntry(sealer, old(Contents()), reg, e, now) && Valid()
      ensures PostOutcome(old(Contents()), reg, e, r)
    {
      var valid := Validate(e);
      if valid.Err? {
        return Err(valid.error);
      }
      if e.idempotencyKey.Some? && HasKey(index.rows, e.idempotencyKey.value) {
        return Ok(SequenceForKey(index.rows, e.idempotencyKey.value));
      }
      var error := CheckLines(accounts, reg, e);
      if error.Some? {
        return Err(error.value);
      }
      error := CheckAccounts(accounts, cache, e);
      if error.Some? {
        LineAccountsKnown(accounts, reg, e);
        return Err(error.value);
      }
      var sequence := nextSequence;
      Commit(FinalizeChainHash(sealer, e.(sequence := sequence, postedAt := now), tip), []);
      r := Ok(sequence);
    }

    method ReverseEntry(entryId: Uuid, d: ReversalDetails) returns (r: Result<Uuid>)
      requires Valid()
      modifies this
      ensures Contents() == Ledger.ReverseEntry(sealer, old(Contents()), entryId, d) && Valid()
      ensures
        var error := ReversalError(old(Contents()), entryId);
        r == if error.Some? then Err(error.value) else Ok(d.id)
    {
      var found := FindEntry(index.rows, entryId);
      if found.None? {
        return Err(EntryNotFound(entryId));
      }
      var original := found.value;
      if !original.status.Posted? {
        return Err(CannotReverse(entryId, original.status));
      }
      var held := FirstHeld(holds, original.lines);
      if held.Some? {
        return Err(AccountUnderLegalHold(held.value));
      }
      if entryId in reversals {
        return Err(AlreadyReversed(entryId, reversals[entryId]));
      }
      var lines := FlipLines(original.lines, d);
      var reversal := FinalizeHashes(sealer,
        JournalEntry(d.id, nextSequence, Reversal, d.description, lines, d.effectiveAt, d.postedAt, None, None,
                     Some(entryId), None, d.domain, ZERO_HASH, ZERO_HASH, ZERO_HASH, None, None), tip);
      Commit(reversal, [ReversalRow(entryId, d.id)]);
      reversals := reversals[entryId := d.id];
      r := Ok(d.id);
    }

    method ApplySettlementEvent(entryId: Uuid, status: EntryStatus) returns (r: Result<()>)
      requires Valid()
      modifies this
      ensures Contents() == Settle(old(Contents()), entryId, status) && Valid()
      ensures
        var error := SettlementError(old(Contents()), entryId);
        r == if error.Some? then Err(error.value) else Ok(())
      ensures r.Ok? ==>
        Contents() == old(Contents()).(
          settlements := old(settlements)[entryId := status], wal := old(wal) + [[SettlementRow(entryId, status)]])
      ensures r.Err? ==> Contents() == old(Contents())
    {
      var found := FindEntry(index.rows, entryId);
      if found.None? {
        return Err(EntryNotFound(entryId));
      }
      var held := FirstHeld(holds, found.value.lines);
      if held.Some? {
        return Err(AccountUnderLegalHold(held.value));
      }
      wal := wal + [[SettlementRow(entryId, status)]];
      settlements := settlements[entryId := status];
      r := Ok(());
    }

    /** Reconciles, and logs that it did. */
    method ReconcileAndRecord() returns (ds: seq<Discrepancy>)
      requires Valid()
      modifies this
      ensures Contents() == Step(sealer, old(Contents()), OpRecordReconciliation) && Valid()
      ensures IsReport(accounts, cache, index.rows, accounts.Keys + cache.Keys, ds)
    {
      ds := Reconcile(accounts, cache, index.rows);
      wal := wal + [[ReconciliationRow]];
    }
  }

  lemma {:induction false} RefsGrow(lines: seq<JournalLine>, sequence: nat, i: nat)
    requires i < |lines|
    ensures LineRefs(lines[..i + 1], sequence) == LineRefs(lines[..i], sequence) + {(lines[i].accountId, sequence)}
  {
    var more, less := LineRefs(lines[..i + 1], sequence), LineRefs(lines[..i], sequence);
    forall p | p in less ensures p in more {
      var j :| 0 <= j < i && p == (lines[..i][j].accountId, sequence);
      assert lines[..i + 1][j] == lines[j];
    }
    assert lines[..i + 1][i] == lines[i];
    forall p | p in more ensures p in less || p == (lines[i].accountId, sequence) {
      var j :| 0 <= j <= i && p == (lines[..i + 1][j].accountId, sequence);
      if j < i {
        assert lines[..i][j] == lines[j];
      }
    }
  }

  lemma {:induction false} LineAccountsKnown(accounts: Accounts, reg: Registry, e: JournalEntry)
    requires LinesPass(accounts, reg, e)
    ensures forall a :: Touches(e, a) ==> a in accounts
  {
    forall a | Touches(e, a) ensures a in accounts {
      var i :| 0 <= i < |e.lines| && e.lines[i].accountId == a;
      assert LineError(accounts, reg, e, e.lines[i]).None?;
    }
  }
}
