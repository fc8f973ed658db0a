/** Journal entries, their validation, and the hashes that seal them. */
module Entries {
  import opened Bytes
  import opened Hashing

  datatype DrCr = Debit | Credit

  datatype EntryStatus =
    | Posted | Reversed | Reversal | PendingApproval | Rejected | Pending | Settled | Failed

  // Minor units in an i64; sums are taken in i128 and modelled as unbounded integers.
  type Amount = x: int | FitsI64(x) witness 0

  // Nanoseconds since the epoch.
  type Time = int

  datatype JournalLine = JournalLine(
    id: Uuid,
    accountId: Uuid,
    currencyCode: Str,
    amount: Amount,
    drCr: DrCr,
    memo: Option<Str>)

  datatype JournalEntry = JournalEntry(
    id: Uuid,
    sequence: nat,
    status: EntryStatus,
    description: Str,
    lines: seq<JournalLine>,
    effectiveAt: Time,
    postedAt: Time,
    externalRef: Option<Str>,
    idempotencyKey: Option<Str>,
    reversesEntryId: Option<Uuid>,
    reversedByEntryId: Option<Uuid>,
    domain: Str,
    contentHash: Hash,
    prevHash: Hash,
    chainHash: Hash,
    approvedBy: Option<Str>,
    metadata: Option<Str>)

  datatype LedgerError =
    | TooFewLines(count: nat)
    | UnbalancedEntry(debits: int, credits: int)
    | AccountNotFound(account: Uuid)
    | AccountClosed(account: Uuid)
    | AccountUnderLegalHold(account: Uuid)
    | CurrencyMismatch(accountCurrency: Str, entryCurrency: Str)
    | PrecisionViolation(currency: Str, precision: nat, amount: int, maxMinorUnits: int)
    | FourEyesRequired
    | ExposureLimitExceeded(account: Uuid, limit: int, attempted: int)
    | InsufficientFunds(account: Uuid, balance: int, debit: int)
    | EntryNotFound(entry: Uuid)
    | CannotReverse(entry: Uuid, status: EntryStatus)
    | AlreadyReversed(entry: Uuid, reversal: Uuid)
    | HashBrokenAt(sequence: nat)
    | LinkageBrokenAt(sequence: nat)

  datatype Result<+T> = Ok(value: T) | Err(error: LedgerError)

  function Flip(d: DrCr): (r: DrCr) {
    if d.Debit? then Credit else Debit
  }

  lemma {:induction false} FlipIsOther(d: DrCr)
    ensures Flip(d) != d && (Flip(d).Debit? <==> d.Credit?)
  {
    match d
    case Debit =>
    case Credit =>
  }

  /** Only these two statuses move balances. */
  predicate AffectsBalance(s: EntryStatus) {
    s.Posted? || s.Reversal?
  }

  predicate Touches(e: JournalEntry, account: Uuid) {
    exists i :: 0 <= i < |e.lines| && e.lines[i].accountId == account
  }

  // ---- Validation ----

  function SideTotal(lines: seq<JournalLine>, side: DrCr): (t: int) {
    if lines == [] then 0
    else SideTotal(lines[..|lines| - 1], side)
         + (if lines[|lines| - 1].drCr == side then lines[|lines| - 1].amount else 0)
  }

  /** At least two lines, and debits equal to credits. */
  predicate WellFormed(e: JournalEntry) {
    |e.lines| >= 2 && SideTotal(e.lines, Debit) == SideTotal(e.lines, Credit)
  }

  method Validate(e: JournalEntry) returns (r: Result<()>)
    ensures r.Ok? <==> WellFormed(e)
    ensures r.Ok? <==> |e.lines| >= 2 && SideTotal(e.lines, Debit) == SideTotal(e.lines, Credit)
    ensures r.Err? && |e.lines| < 2 ==> r.error == TooFewLines(|e.lines|)
    ensures r.Err? && |e.lines| >= 2 ==>
      r.error == UnbalancedEntry(SideTotal(e.lines, Debit), SideTotal(e.lines, Credit))
  {
    if |e.lines| < 2 {
      return Err(TooFewLines(|e.lines|));
    }
    var totalDebits, totalCredits := 0, 0;
    for k := 0 to |e.lines|
      invariant totalDebits == SideTotal(e.lines[..k], Debit)
      invariant totalCredits == SideTotal(e.lines[..k], Credit)
    {
      var line := e.lines[k];
      assert e.lines[..k + 1][..k] == e.lines[..k];
      match line.drCr {
        case Debit => totalDebits := totalDebits + line.amount;
        case Credit => totalCredits := totalCredits + line.amount;
      }
    }
    assert e.lines[..|e.lines|] == e.lines;
    if totalDebits != totalCredits {
      return Err(UnbalancedEntry(totalDebits, totalCredits));
    }
    r := Ok(());
  }

  // ---- Canonical bytes ----

  function StatusByte(s: EntryStatus): (b: Byte)
    ensures b < 8
  {
    match s
    case Posted => 0
    case Reversed => 1
    case Reversal => 2
    case PendingApproval => 3
    case Rejected => 4
    case Pending => 5
    case Settled => 6
    case Failed => 7
  }

  function DrCrByte(d: DrCr): (b: Byte) {
    if d.Debit? then 0 else 1
  }

  /** `timestamp_nanos_opt().unwrap_or(0)`: an instant outside the i64 range is written as zero. */
  function Nanos(t: Time): (n: int)
    ensures FitsI64(n)
  {
    if FitsI64(t) then t else 0
  }

  function WriteBytes(d: Bytes): (r: Bytes) {
    U32(|d|) + d
  }

  const ABSENT: nat := TWO_32 - 1

  function WriteOptional(d: Option<Bytes>): (r: Bytes) {
    if d.Some? then WriteBytes(d.value) else U32(ABSENT)
  }

  function WriteReference(id: Option<Uuid>): (b: Bytes)
    ensures |b| == 17
  {
    if id.Some? then id.value + [1] else Zeros(16) + [0]
  }

  function HeaderBytes(e: JournalEntry): (b: Bytes)
    ensures |b| == 42
  {
    [1] + e.id + U64(e.sequence) + [StatusByte(e.status)] + I64(Nanos(e.effectiveAt)) + I64(Nanos(e.postedAt))
  }

  function TextBytes(e: JournalEntry): (r: Bytes) {
    WriteBytes(e.description) +
    (WriteBytes(e.domain) + (WriteOptional(e.externalRef) + WriteOptional(e.idempotencyKey)))
  }

  function ReferenceBytes(e: JournalEntry): (b: Bytes)
    ensures |b| == 34
  {
    WriteReference(e.reversesEntryId) + WriteReference(e.reversedByEntryId)
  }

  function ExtraBytes(e: JournalEntry): (r: Bytes) {
    WriteOptional(e.approvedBy) + WriteOptional(e.metadata)
  }

  function LineHeaderBytes(l: JournalLine): (b: Bytes)
    ensures |b| == 41
  {
    l.id + l.accountId + I64(l.amount) + [DrCrByte(l.drCr)]
  }

  function LineBytes(l: JournalLine): (r: Bytes) {
    LineHeaderBytes(l) + (WriteBytes(l.currencyCode) + WriteOptional(l.memo))
  }

  function LinesBytes(lines: seq<JournalLine>): (r: Bytes) {
    if lines == [] then [] else LineBytes(lines[0]) + LinesBytes(lines[1..])
  }

  function TailBytes(e: JournalEntry): (r: Bytes) {
    U32(|e.lines|) + LinesBytes(e.lines)
  }

  /** The bytes a content hash is taken over. */
  function Canonical(e: JournalEntry): (r: Bytes) {
    HeaderBytes(e) + (TextBytes(e) + (ReferenceBytes(e) + (ExtraBytes(e) + TailBytes(e))))
  }

  method WriteLine(line: JournalLine, start: Bytes) returns (buf: Bytes)
    ensures buf == start + LineBytes(line)
  {
    buf := start + line.id;
    buf := buf + line.accountId;
    buf := buf + I64(line.amount);
    buf := buf + [DrCrByte(line.drCr)];
    assert buf == start + LineHeaderBytes(line);
    buf := buf + WriteBytes(line.currencyCode);
    buf := buf + WriteOptional(line.memo);
  }

  method WriteLines(lines: seq<JournalLine>, start: Bytes) returns (buf: Bytes)
    ensures buf == start + LinesBytes(lines)
  {
    buf := start;
    for k := 0 to |lines|
      invariant buf + LinesBytes(lines[k..]) == start + LinesBytes(lines)
    {
      assert lines[k..][1..] == lines[k + 1..];
      buf := WriteLine(lines[k], buf);
    }
    assert lines[|lines|..] == [];
  }

  method WriteHeader(e: JournalEntry) returns (buf: Bytes)
    ensures buf == HeaderBytes(e)
  {
    buf := [1];
    buf := buf + e.id;
    buf := buf + U64(e.sequence);
    buf := buf + [StatusByte(e.status)];
    buf := buf + I64(Nanos(e.effectiveAt));
    buf := buf + I64(Nanos(e.postedAt));
  }

  method WriteTexts(e: JournalEntry, start: Bytes) returns (buf: Bytes)
    ensures buf == start + TextBytes(e)
  {
    buf := start + WriteBytes(e.description);
    buf := buf + WriteBytes(e.domain);
    buf := buf + WriteOptional(e.externalRef);
    buf := buf + WriteOptional(e.idempotencyKey);
  }

  method WriteReferencesAndExtras(e: JournalEntry, start: Bytes) returns (buf: Bytes)
    ensures buf == start + ReferenceBytes(e) + ExtraBytes(e)
  {
    buf := start + WriteReference(e.reversesEntryId);
    buf := buf + WriteReference(e.reversedByEntryId);
    assert buf == start + ReferenceBytes(e);
    buf := buf + WriteOptional(e.approvedBy);
    buf := buf + WriteOptional(e.metadata);
  }

  lemma {:induction false} Regroup(a: Bytes, b: Bytes, c: Bytes, d: Bytes, e: Bytes)
    ensures a + b + c + d + e == a + (b + (c + (d + e)))
  {
  }

  /** The buffer filled field by field is the canonical encoding. */
  method CanonicalBytes(e: JournalEntry) returns (buf: Bytes)
    ensures buf == Canonical(e)
  {
    buf := WriteHeader(e);
    buf := WriteTexts(e, buf);
    buf := WriteReferencesAndExtras(e, buf);
    ghost var fields := buf;
    buf := buf + U32(|e.lines|);
    buf := WriteLines(e.lines, buf);
    assert buf == fields + TailBytes(e);
    Regroup(HeaderBytes(e), TextBytes(e), ReferenceBytes(e), ExtraBytes(e), TailBytes(e));
  }

  // ---- Sealing ----

  /** The hash function and the encoding that entries are sealed with. The ledger uses `Canonical`;
      results that hold for every encoding are stated for an arbitrary one. */
  datatype Sealer = Sealer(hash: HashFn, encode: JournalEntry -> Bytes)

  function CanonicalSealer(h: HashFn): (r: Sealer) {
    Sealer(h, Canonical)
  }

  function ContentHash(k: Sealer, e: JournalEntry): (r: Hash) {
    k.hash(k.encode(e))
  }

  /** Keeps a content hash that is already set, and computes one otherwise. */
  function FinalizeChainHash(k: Sealer, e: JournalEntry, prev: Hash): (r: JournalEntry) {
    var content := if e.contentHash == ZERO_HASH then ContentHash(k, e) else e.contentHash;
    e.(contentHash := content, prevHash := prev, chainHash := ChainHash(k.hash, e.sequence, prev, content))
  }

  /** Always computes the content hash. */
  function FinalizeHashes(k: Sealer, e: JournalEntry, prev: Hash): (r: JournalEntry) {
    FinalizeChainHash(k, e.(contentHash := ContentHash(k, e)), prev)
  }

  predicate VerifyHashes(k: Sealer, e: JournalEntry) {
    && ContentHash(k, e) == e.contentHash
    && ChainHash(k.hash, e.sequence, e.prevHash, e.contentHash) == e.chainHash
  }

  function WithHashes(e: JournalEntry, content: Hash, prev: Hash, chain: Hash): (r: JournalEntry) {
    e.(contentHash := content, prevHash := prev, chainHash := chain)
  }

  /** An encoding that leaves out the hash fields. */
  ghost predicate IgnoresHashes(k: Sealer) {
    forall e, c, p, q :: k.encode(WithHashes(e, c, p, q)) == k.encode(e)
  }

  lemma {:induction false} CanonicalIgnoresHashes(h: HashFn)
    ensures IgnoresHashes(CanonicalSealer(h))
  {
    forall e, c, p, q ensures Canonical(WithHashes(e, c, p, q)) == Canonical(e) {
    }
  }

  /** An entry sealed by `FinalizeChainHash` verifies exactly when its content hash was unset or
      already right for the sequence and posting time it now has. */
  lemma {:induction false} SealedEntryVerifies(k: Sealer, e: JournalEntry, prev: Hash)
    requires IgnoresHashes(k)
    ensures VerifyHashes(k, FinalizeChainHash(k, e, prev)) <==>
            e.contentHash == ZERO_HASH || e.contentHash == ContentHash(k, e)
  {
    var sealed := FinalizeChainHash(k, e, prev);
    assert sealed == WithHashes(e, sealed.contentHash, sealed.prevHash, sealed.chainHash);
  }

  lemma {:induction false} FullySealedEntryVerifies(k: Sealer, e: JournalEntry, prev: Hash)
    requires IgnoresHashes(k)
    ensures VerifyHashes(k, FinalizeHashes(k, e, prev))
  {
    var c := ContentHash(k, e);
    assert e.(contentHash := c) == WithHashes(e, c, e.prevHash, e.chainHash);
    SealedEntryVerifies(k, e.(contentHash := c), prev);
  }
}
