/** The ledger as a state machine: what each operation of the store does to its in-memory state, its
    SQLite index and its write-ahead log. */
module Ledger {
  import opened Bytes
  import opened Hashing
  import opened Entries
  import opened Balances

  // ---- The SQLite index ----

  /** `rows` is the entries table in primary-key order, which is the order of every scan;
      `accountEntries` is the account cross-reference table. */
  datatype Index = Index(rows: seq<JournalEntry>, accountEntries: set<(Uuid, nat)>)

  predicate HasKey(rows: seq<JournalEntry>, key: Str) {
    exists i :: 0 <= i < |rows| && rows[i].idempotencyKey == Some(key)
  }

  /** Sequence of the row that carries a key, zero when there is none. */
  function SequenceForKey(rows: seq<JournalEntry>, key: Str): (r: nat) {
    if rows == [] then 0
    else if rows[0].idempotencyKey == Some(key) then rows[0].sequence
    else SequenceForKey(rows[1..], key)
  }

  /** A row with the same primary key or the same idempotency key. */
  predicate Clashes(rows: seq<JournalEntry>, e: JournalEntry) {
    exists i :: 0 <= i < |rows| &&
      (rows[i].sequence == e.sequence || (e.idempotencyKey.Some? && rows[i].idempotencyKey == e.idempotencyKey))
  }

  function InsertSorted(rows: seq<JournalEntry>, e: JournalEntry): (r: seq<JournalEntry>) {
    if rows == [] || rows[|rows| - 1].sequence < e.sequence then rows + [e]
    else InsertSorted(rows[..|rows| - 1], e) + [rows[|rows| - 1]]
  }

  function LineRefs(lines: seq<JournalLine>, sequence: nat): (r: set<(Uuid, nat)>) {
    set i | 0 <= i < |lines| :: (lines[i].accountId, sequence)
  }

  /** `INSERT OR IGNORE` of the row; the cross references are written even when the row was ignored. */
  function InsertEntry(index: Index, e: JournalEntry): (r: Index) {
    Index(if Clashes(index.rows, e) then index.rows else InsertSorted(index.rows, e),
          index.accountEntries + LineRefs(e.lines, e.sequence))
  }

  function MaxSequence(rows: seq<JournalEntry>): (r: nat) {
    if rows == [] then 0 else rows[|rows| - 1].sequence
  }

  /** The last row with an entry id, as a scan that keeps overwriting its result finds it. */
  function FindById(rows: seq<JournalEntry>, id: Uuid): (r: Option<JournalEntry>)
    ensures r.Some? ==> r.value in rows && r.value.id == id
    ensures r.None? ==> forall i :: 0 <= i < |rows| ==> rows[i].id != id
  {
    if rows == [] then None
    else if rows[|rows| - 1].id == id then Some(rows[|rows| - 1])
    else FindById(rows[..|rows| - 1], id)
  }

  // ---- State ----

  datatype Mutation = Insert | Delete

  datatype Payload =
    | AccountRow(mutation: Mutation, account: Account)
    | EntryRow(entry: JournalEntry)
    | ReversalRow(original: Uuid, reversal: Uuid)
    | SettlementRow(entryId: Uuid, status: EntryStatus)
    | ReconciliationRow

  // Payloads of one transaction are durable together or not at all.
  type Tx = seq<Payload>

  datatype State = State(
    accounts: Accounts,
    cache: Cache,
    nextSequence: nat,
    tip: Hash,
    reversals: map<Uuid, Uuid>,
    settlements: map<Uuid, EntryStatus>,
    holds: set<Uuid>,
    index: Index,
    wal: seq<Tx>)

  const EMPTY: State := State(map[], map[], 1, ZERO_HASH, map[], map[], {}, Index([], {}), [])

  // ---- Accounts ----

  function PutAccount(s: State, account: Account): (r: State) {
    s.(accounts := s.accounts[account.id := account],
       holds := if account.legalHold then s.holds + {account.id} else s.holds - {account.id})
  }

  function Log(s: State, tx: Tx): (r: State) {
    s.(wal := s.wal + [tx])
  }

  function CreateAccount(s: State, account: Account): (r: State) {
    Log(PutAccount(s, account), [AccountRow(Insert, account)])
  }

  function CloseAccount(s: State, id: Uuid): (r: State) {
    if id !in s.accounts then s
    else
      var closed := s.accounts[id].(status := Closed);
      Log(s.(accounts := s.accounts[id := closed]), [AccountRow(Delete, closed)])
  }

  function SetLegalHold(s: State, id: Uuid, hold: bool): (r: State) {
    if id !in s.accounts then s
    else
      var held := s.accounts[id].(legalHold := hold);
      Log(s.(accounts := s.accounts[id := held], holds := if hold then s.holds + {id} else s.holds - {id}),
          [AccountRow(Delete, held)])
  }

  // ---- Posting ----

  // Precision of each registered currency, as its upper-casing lookup answers.
  type Registry = map<Str, nat>

  const MAX_I64: int := TWO_63 - 1

  /** `10_i64.saturating_pow(e)`. */
  function SaturatingPow10(e: nat): (r: int)
    ensures 1 <= r <= MAX_I64
  {
    if e == 0 then 1
    else
      var p := SaturatingPow10(e - 1);
      if 10 * p > MAX_I64 then MAX_I64 else 10 * p
  }

  function MaxMinor(precision: nat): (r: int) {
    var e := if precision <= 18 then 18 - precision else 0;
    var p := SaturatingPow10(e) * SaturatingPow10(precision);
    if p > MAX_I64 then MAX_I64 else p
  }

  /** `i64::abs` in release mode: the least value is its own absolute value. */
  function AbsI64(x: Amount): (r: int) {
    if x == -(TWO_63 as int) then x else if x < 0 then -(x as int) else x
  }

  predicate ExceedsPrecision(reg: Registry, l: JournalLine) {
    l.currencyCode in reg && AbsI64(l.amount) > MaxMinor(reg[l.currencyCode])
  }

  /** The first check a line fails, in the order they are made. */
  function LineError(accounts: Accounts, reg: Registry, e: JournalEntry, l: JournalLine): (r: Option<LedgerError>) {
    if l.accountId !in accounts then Some(AccountNotFound(l.accountId))
    else
      var account := accounts[l.accountId];
      if !account.status.Active? then Some(AccountClosed(l.accountId))
      else if account.legalHold then Some(AccountUnderLegalHold(l.accountId))
      else if account.currencyCode != l.currencyCode then
        Some(CurrencyMismatch(account.currencyCode, l.currencyCode))
      else if ExceedsPrecision(reg, l) then
        Some(PrecisionViolation(l.currencyCode, reg[l.currencyCode], l.amount, MaxMinor(reg[l.currencyCode])))
      else if account.requireFourEyes && e.approvedBy.None? then Some(FourEyesRequired)
      else None
  }

  predicate LinesPass(accounts: Accounts, reg: Registry, e: JournalEntry) {
    forall i :: 0 <= i < |e.lines| ==> LineError(accounts, reg, e, e.lines[i]).None?
  }

  predicate OverExposed(a: Uuid, account: Account, e: JournalEntry) {
    account.exposureLimit.Some? && DebitTotal(e.lines, a) > account.exposureLimit.value
  }

  predicate Overdrawn(a: Uuid, account: Account, cache: Cache, e: JournalEntry) {
    && account.requireNonNegativeBalance && DebitNormal(account.accountType)
    && NetDebit(e.lines, a) < 0
    && Balance(cache, a) + NetDebit(e.lines, a) < 0
  }

  /** The aggregate check an account fails: exposure first, then balance. */
  function AccountError(a: Uuid, account: Account, cache: Cache, e: JournalEntry): (r: Option<LedgerError>) {
    if OverExposed(a, account, e) then
      Some(ExposureLimitExceeded(a, account.exposureLimit.value, DebitTotal(e.lines, a)))
    else if Overdrawn(a, account, cache, e) then
      Some(InsufficientFunds(a, Balance(cache, a), -NetDebit(e.lines, a)))
    else None
  }

  predicate AccountsPass(accounts: Accounts, cache: Cache, e: JournalEntry) {
    forall a :: a in accounts && Touches(e, a) ==> AccountError(a, accounts[a], cache, e).None?
  }

  predicate KeyAlreadyPosted(rows: seq<JournalEntry>, e: JournalEntry) {
    e.idempotencyKey.Some? && HasKey(rows, e.idempotencyKey.value)
  }

  predicate Accepts(s: State, reg: Registry, e: JournalEntry) {
    && WellFormed(e)
    && !KeyAlreadyPosted(s.index.rows, e)
    && LinesPass(s.accounts, reg, e)
    && AccountsPass(s.accounts, s.cache, e)
  }

  /** Commits a sealed entry, with further payloads in the same transaction. */
  function Append(s: State, e: JournalEntry, more: Tx): (r: State) {
    s.(nextSequence := s.nextSequence + 1,
       tip := e.chainHash,
       cache := ApplyEntry(s.accounts, s.cache, e),
       index := InsertEntry(s.index, e),
       wal := s.wal + [[EntryRow(e)] + more])
  }

  function SealPost(k: Sealer, s: State, e: JournalEntry, now: Time): (r: JournalEntry) {
    FinalizeChainHash(k, e.(sequence := s.nextSequence, postedAt := now), s.tip)
  }

  /** A rejected entry, or one whose key is already posted, changes nothing. */
  function PostEntry(k: Sealer, s: State, reg: Registry, e: JournalEntry, now: Time): (r: State) {
    if Accepts(s, reg, e) then Append(s, SealPost(k, s, e, now), []) else s
  }

  // ---- Reversal ----

  /** What `reverse_entry` takes from its caller, the clock and the UUID generator. */
  datatype ReversalDetails = ReversalDetails(
    id: Uuid, lineId: nat -> Uuid, description: Str, domain: Str, effectiveAt: Time, postedAt: Time)

  function ReversalLines(lines: seq<JournalLine>, d: ReversalDetails): (r: seq<JournalLine>)
    ensures |r| == |lines|
  {
    seq(|lines|, i requires 0 <= i < |lines| =>
      JournalLine(d.lineId(i), lines[i].accountId, lines[i].currencyCode, lines[i].amount,
                  Flip(lines[i].drCr), Some(Utf8("Reversal of line ") + UuidText(lines[i].id))))
  }

  function SealReversal(k: Sealer, s: State, original: JournalEntry, d: ReversalDetails): (r: JournalEntry) {
    FinalizeHashes(k,
      JournalEntry(d.id, s.nextSequence, Reversal, d.description, ReversalLines(original.lines, d),
                   d.effectiveAt, d.postedAt, None, None, Some(original.id), None, d.domain,
                   ZERO_HASH, ZERO_HASH, ZERO_HASH, None, None),
      s.tip)
  }

  /** First account of the lines that is under a hold. */
  function HeldAccount(holds: set<Uuid>, lines: seq<JournalLine>): (r: Option<Uuid>)
    ensures r.None? <==> forall i :: 0 <= i < |lines| ==> lines[i].accountId !in holds
  {
    if lines == [] then None
    else if lines[0].accountId in holds then Some(lines[0].accountId)
    else
      assert forall i :: 0 <= i < |lines| - 1 ==> lines[1..][i] == lines[i + 1];
      HeldAccount(holds, lines[1..])
  }

  /** The check a reversal fails, in the order they are made. */
  function ReversalError(s: State, entryId: Uuid): (r: Option<LedgerError>) {
    var found := FindById(s.index.rows, entryId);
    if found.None? then Some(EntryNotFound(entryId))
    else if !found.value.status.Posted? then Some(CannotReverse(entryId, found.value.status))
    else
      var held := HeldAccount(s.holds, found.value.lines);
      if held.Some? then Some(AccountUnderLegalHold(held.value))
      else if entryId in s.reversals then Some(AlreadyReversed(entryId, s.reversals[entryId]))
      else None
  }

  /** The mirror entry and the event that links it are committed together. */
  function ReverseEntry(k: Sealer, s: State, entryId: Uuid, d: ReversalDetails): (r: State) {
    if ReversalError(s, entryId).Some? then s
    else
      var reversal := SealReversal(k, s, FindById(s.index.rows, entryId).value, d);
      Append(s, reversal, [ReversalRow(entryId, d.id)]).(reversals := s.reversals[entryId := d.id])
  }

  // ---- Settlement ----

  function SettlementError(s: State, entryId: Uuid): (r: Option<LedgerError>) {
    var found := FindById(s.index.rows, entryId);
    if found.None? then Some(EntryNotFound(entryId))
    else
      var held := HeldAccount(s.holds, found.value.lines);
      if held.Some? then Some(AccountUnderLegalHold(held.value)) else None
  }

  function Settle(s: State, entryId: Uuid, status: EntryStatus): (r: State) {
    if SettlementError(s, entryId).Some? then s
    else Log(s.(settlements := s.settlements[entryId := status]), [SettlementRow(entryId, status)])
  }

  // ---- Runs ----

  datatype Op =
    | OpCreate(account: Account)
    | OpClose(id: Uuid)
    | OpHold(id: Uuid, hold: bool)
    | OpPost(reg: Registry, entry: JournalEntry, now: Time)
    | OpReverse(entryId: Uuid, details: ReversalDetails)
    | OpSettle(entryId: Uuid, status: EntryStatus)
    | OpRecordReconciliation

  function Step(k: Sealer, s: State, op: Op): (r: State) {
    match op
    case OpCreate(account) => CreateAccount(s, account)
    case OpClose(id) => CloseAccount(s, id)
    case OpHold(id, hold) => SetLegalHold(s, id, hold)
    case OpPost(reg, entry, now) => PostEntry(k, s, reg, entry, now)
    case OpReverse(entryId, details) => ReverseEntry(k, s, entryId, details)
    case OpSettle(entryId, status) => Settle(s, entryId, status)
    case OpRecordReconciliation => Log(s, [ReconciliationRow])
  }

  function Run(k: Sealer, s: State, ops: seq<Op>): (r: State) {
    if ops == [] then s else Step(k, Run(k, s, ops[..|ops| - 1]), ops[|ops| - 1])
  }
}
