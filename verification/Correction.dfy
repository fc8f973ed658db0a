/** The correction workflow: any number of callers, each with two reads and two writes and no lock
    spanning them, interleaved in any way with each other and with traffic on other accounts. */
module Correction {
  import opened Bytes
  import opened Hashing
  import opened Entries
  import opened Chain
  import opened Balances
  import opened Ledger
  import opened Invariants
  import opened Transfers
  import opened Outcomes

  /** Entry `id` debited `cash` and credited `income` with `original`; it should have been `corrected`.
      The two keys are both idempotency keys and external references. */
  datatype Job = Job(id: Uuid, reversalKey: Str, correctionKey: Str, cash: Uuid, income: Uuid,
                     original: Amount, corrected: Amount, currency: Str,
                     reversalText: Str, correctionText: Str, domain: Str, reg: Registry)

  /** The keys the workflow derives from the entry's id. */
  predicate KeysFromId(job: Job) {
    && job.reversalKey == Utf8("reversal-of-") + UuidText(job.id)
    && job.correctionKey == Utf8("correction-of-") + UuidText(job.id)
  }

  lemma {:induction false} KeysDiffer(job: Job)
    requires KeysFromId(job)
    ensures job.reversalKey != job.correctionKey
  {
    assert Utf8("reversal-of-")[0] == 114 && Utf8("correction-of-")[0] == 99;
    assert job.reversalKey[0] == 114 && job.correctionKey[0] == 99;
  }

  predicate IsKey(job: Job, key: Option<Str>) {
    key == Some(job.reversalKey) || key == Some(job.correctionKey)
  }

  /** Ids and times a caller draws for an entry it writes. */
  datatype Fresh = Fresh(id: Uuid, debitLine: Uuid, creditLine: Uuid, builtAt: Time, now: Time)

  function TransferEntry(
    job: Job, f: Fresh, text: Str, to: Uuid, from: Uuid, amount: Amount, key: Str): (r: JournalEntry)
  {
    JournalEntry(f.id, 0, Posted, text,
      [JournalLine(f.debitLine, to, job.currency, amount, Debit, None),
       JournalLine(f.creditLine, from, job.currency, amount, Credit, None)],
      f.builtAt, f.builtAt, Some(key), Some(key), None, None, job.domain, ZERO_HASH, ZERO_HASH, ZERO_HASH, None, None)
  }

  function ReversalEntry(job: Job, f: Fresh): (r: JournalEntry) {
    TransferEntry(job, f, job.reversalText, job.income, job.cash, job.original, job.reversalKey)
  }

  function CorrectionEntry(job: Job, f: Fresh): (r: JournalEntry) {
    TransferEntry(job, f, job.correctionText, job.cash, job.income, job.corrected, job.correctionKey)
  }

  // ---- Callers ----

  datatype Caller =
    | Start
    | ReadReversal(rev: Option<nat>)
    | Ready(rev: Option<nat>, cor: Option<nat>)
    | WroteReversal(revSeq: nat, cor: Option<nat>)
    | Done(revSeq: nat, corSeq: nat)
    | Stopped
    | Panicked

  datatype World = World(ledger: State, callers: seq<Caller>)

  datatype Event =
    | Arrive
    | Advance(caller: nat, drawn: Fresh)
    | Stop(caller: nat)
    | Other(op: Op)

  /** Sequence of the first row with an external reference. */
  function FirstByRef(rows: seq<JournalEntry>, ref: Str): (r: Option<nat>) {
    if rows == [] then None
    else if rows[0].externalRef == Some(ref) then Some(rows[0].sequence)
    else FirstByRef(rows[1..], ref)
  }

  /** `post_entry` returns a sequence rather than an error. */
  predicate PostOk(s: State, reg: Registry, e: JournalEntry) {
    WellFormed(e) && (KeyAlreadyPosted(s.index.rows, e) || Accepts(s, reg, e))
  }

  function PostSequence(s: State, e: JournalEntry): (r: nat) {
    if KeyAlreadyPosted(s.index.rows, e) then SequenceForKey(s.index.rows, e.idempotencyKey.value) else s.nextSequence
  }

  /** `post_entry`: the new state, and the sequence unless it fails. */
  function TryPost(k: Sealer, s: State, reg: Registry, e: JournalEntry, now: Time): (r: (State, Option<nat>)) {
    if PostOk(s, reg, e) then (PostEntry(k, s, reg, e, now), Some(PostSequence(s, e))) else (s, None)
  }

  function AfterReads(rev: Option<nat>, cor: Option<nat>): (r: Caller) {
    if rev.Some? && cor.Some? then Done(rev.value, cor.value) else Ready(rev, cor)
  }

  function Conclude(rev: nat, cor: Option<nat>): (r: Caller) {
    if cor.Some? then Done(rev, cor.value) else WroteReversal(rev, None)
  }

  /** One step of one caller: at most one lock acquisition. */
  function AdvanceCaller(k: Sealer, job: Job, s: State, c: Caller, f: Fresh): (r: (State, Caller)) {
    match c
    case Start => (s, ReadReversal(FirstByRef(s.index.rows, job.reversalKey)))
    case ReadReversal(rev) => (s, AfterReads(rev, FirstByRef(s.index.rows, job.correctionKey)))
    case Ready(Some(rev), cor) => (s, Conclude(rev, cor))
    case Ready(None, cor) =>
      var r := TryPost(k, s, job.reg, ReversalEntry(job, f), f.now);
      (r.0, if r.1.Some? then Conclude(r.1.value, cor) else Panicked)
    case WroteReversal(rev, _) =>
      var r := TryPost(k, s, job.reg, CorrectionEntry(job, f), f.now);
      (r.0, if r.1.Some? then Done(rev, r.1.value) else Panicked)
    case _ => (s, c)
  }

  function WorldStep(k: Sealer, job: Job, w: World, ev: Event): (r: World) {
    match ev
    case Arrive => w.(callers := w.callers + [Start])
    case Advance(i, f) =>
      if i >= |w.callers| then w
      else
        var r := AdvanceCaller(k, job, w.ledger, w.callers[i], f);
        World(r.0, w.callers[i := r.1])
    case Stop(i) => if i >= |w.callers| then w else w.(callers := w.callers[i := Stopped])
    case Other(op) => w.(ledger := Step(k, w.ledger, op))
  }

  function WorldRun(k: Sealer, job: Job, w: World, evs: seq<Event>): (r: World) {
    if evs == [] then w else WorldStep(k, job, WorldRun(k, job, w, evs[..|evs| - 1]), evs[|evs| - 1])
  }

  // ---- Assumptions ----

  predicate JobOk(job: Job) {
    && job.reversalKey != job.correctionKey && job.cash != job.income
    && WithinPrecision(job.reg, job.original, job.currency) && WithinPrecision(job.reg, job.corrected, job.currency)
  }

  /** Other traffic leaves the two accounts, their entries and the two keys alone. */
  predicate Avoids(job: Job, s: State, op: Op) {
    match op
    case OpCreate(account) => account.id != job.cash && account.id != job.income
    case OpClose(id) => id != job.cash && id != job.income
    case OpHold(id, _) => id != job.cash && id != job.income
    case OpPost(_, e, _) =>
      && !Touches(e, job.cash) && !Touches(e, job.income)
      && !IsKey(job, e.idempotencyKey) && !IsKey(job, e.externalRef)
    case OpReverse(id, _) =>
      var found := FindById(s.index.rows, id);
      found.Some? ==> !Touches(found.value, job.cash) && !Touches(found.value, job.income)
    case _ => true
  }

  predicate AvoidsThroughout(k: Sealer, job: Job, w: World, evs: seq<Event>) {
    evs == [] ||
    (&& AvoidsThroughout(k, job, w, evs[..|evs| - 1])
     && (evs[|evs| - 1].Other? ==>
           Avoids(job, WorldRun(k, job, w, evs[..|evs| - 1]).ledger, evs[|evs| - 1].op)))
  }

  /** Both accounts are open, and a guarded cash account covers both entries from a balance of `cash`. */
  predicate AccountsReady(job: Job, cash: int, accounts: Accounts) {
    && Usable(accounts, job.cash, job.currency) && Usable(accounts, job.income, job.currency)
    && accounts[job.cash].accountType.Asset? && accounts[job.income].accountType.Income?
    && (Guarded(accounts[job.cash]) ==>
          && (job.original > 0 ==> cash >= job.original)
          && (job.corrected < 0 ==> cash - job.original + job.corrected >= 0))
  }

  // ---- Invariant ----

  /** Rows that carry one of the keys carry it as reference too, and are what a caller writes. */
  predicate RowsOk(job: Job, rows: seq<JournalEntry>) {
    && (forall i :: 0 <= i < |rows| && (IsKey(job, rows[i].idempotencyKey) || IsKey(job, rows[i].externalRef)) ==>
          rows[i].idempotencyKey == rows[i].externalRef && rows[i].status.Posted?)
    && (forall i :: 0 <= i < |rows| && rows[i].idempotencyKey == Some(job.reversalKey) ==>
          IsTransfer(rows[i], job.income, job.cash, job.original, job.currency)
          && rows[i].description == job.reversalText)
    && (forall i :: 0 <= i < |rows| && rows[i].idempotencyKey == Some(job.correctionKey) ==>
          IsTransfer(rows[i], job.cash, job.income, job.corrected, job.currency)
          && rows[i].description == job.correctionText)
    && (HasKey(rows, job.correctionKey) ==> HasKey(rows, job.reversalKey))
  }

  /** What the workflow has added to the balance of both accounts so far. */
  function Drift(job: Job, rows: seq<JournalEntry>): (r: int) {
    (if HasKey(rows, job.reversalKey) then -(job.original as int) else 0)
    + (if HasKey(rows, job.correctionKey) then job.corrected else 0)
  }

  /** `cash` and `income` are the balances the workflow started from. */
  ghost predicate LedgerOk(job: Job, cash: int, income: int, s: State) {
    && Inv(s) && AccountsReady(job, cash, s.accounts) && RowsOk(job, s.index.rows)
    && Balance(s.cache, job.cash) == cash + Drift(job, s.index.rows)
    && Balance(s.cache, job.income) == income + Drift(job, s.index.rows)
  }

  predicate Recorded(rows: seq<JournalEntry>, key: Str, sequence: nat) {
    HasKey(rows, key) && SequenceForKey(rows, key) == sequence
  }

  predicate MaybeRecorded(rows: seq<JournalEntry>, key: Str, sequence: Option<nat>) {
    sequence.Some? ==> Recorded(rows, key, sequence.value)
  }

  /** What a caller remembers is in the journal, and it never failed. */
  predicate CallerOk(job: Job, rows: seq<JournalEntry>, c: Caller) {
    match c
    case Start => true
    case ReadReversal(rev) => MaybeRecorded(rows, job.reversalKey, rev)
    case Ready(rev, cor) =>
      MaybeRecorded(rows, job.reversalKey, rev) && MaybeRecorded(rows, job.correctionKey, cor)
    case WroteReversal(rev, cor) => Recorded(rows, job.reversalKey, rev) && cor.None?
    case Done(rev, cor) => Recorded(rows, job.reversalKey, rev) && Recorded(rows, job.correctionKey, cor)
    case Stopped => true
    case Panicked => false
  }

  ghost predicate WorldOk(job: Job, cash: int, income: int, w: World) {
    && LedgerOk(job, cash, income, w.ledger)
    && forall i :: 0 <= i < |w.callers| ==> CallerOk(job, w.ledger.index.rows, w.callers[i])
  }

  // ---- Keys in a growing journal ----

  lemma {:induction false} KeyPersists(rows: seq<JournalEntry>, e: JournalEntry, key: Str)
    ensures HasKey(rows + [e], key) <==> HasKey(rows, key) || e.idempotencyKey == Some(key)
    ensures HasKey(rows, key) ==> SequenceForKey(rows + [e], key) == SequenceForKey(rows, key)
    ensures !HasKey(rows, key) && e.idempotencyKey == Some(key) ==> SequenceForKey(rows + [e], key) == e.sequence
    decreases |rows|
  {
    var all := rows + [e];
    assert all[|rows|] == e;
    assert HasKey(rows, key) ==> HasKey(all, key) by {
      if HasKey(rows, key) {
        var i :| 0 <= i < |rows| && rows[i].idempotencyKey == Some(key);
        assert all[i] == rows[i];
      }
    }
    if rows == [] {
    } else {
      assert all[1..] == rows[1..] + [e];
      KeyPersists(rows[1..], e, key);
      assert HasKey(rows, key) && rows[0].idempotencyKey != Some(key) ==> HasKey(rows[1..], key) by {
        if HasKey(rows, key) && rows[0].idempotencyKey != Some(key) {
          var i :| 0 <= i < |rows| && rows[i].idempotencyKey == Some(key);
          assert rows[1..][i - 1] == rows[i];
        }
      }
    }
  }

  /** Reading by reference finds what the key finds. */
  lemma {:induction false} RefFindsKey(rows: seq<JournalEntry>, key: Str)
    requires forall i :: 0 <= i < |rows| ==>
      (rows[i].externalRef == Some(key) <==> rows[i].idempotencyKey == Some(key))
    ensures FirstByRef(rows, key) == if HasKey(rows, key) then Some(SequenceForKey(rows, key)) else None
  {
    if rows == [] {
    } else {
      RefFindsKey(rows[1..], key);
      assert HasKey(rows, key) && rows[0].idempotencyKey != Some(key) ==> HasKey(rows[1..], key) by {
        if HasKey(rows, key) && rows[0].idempotencyKey != Some(key) {
          var i :| 0 <= i < |rows| && rows[i].idempotencyKey == Some(key);
          assert rows[1..][i - 1] == rows[i];
        }
      }
    }
  }

  lemma {:induction false} ReadIsRecorded(job: Job, rows: seq<JournalEntry>, key: Str)
    requires RowsOk(job, rows) && IsKey(job, Some(key))
    ensures MaybeRecorded(rows, key, FirstByRef(rows, key))
  {
    RefFindsKey(rows, key);
  }

  lemma {:induction false} CallerPersists(job: Job, rows: seq<JournalEntry>, e: JournalEntry, c: Caller)
    requires CallerOk(job, rows, c)
    ensures CallerOk(job, rows + [e], c)
  {
    KeyPersists(rows, e, job.reversalKey);
    KeyPersists(rows, e, job.correctionKey);
  }

  // ---- Writes ----

  /** A post whose key is new and which the ledger accepts. */
  lemma {:induction false} PostAppends(k: Sealer, s: State, reg: Registry, e: JournalEntry, now: Time)
    requires Inv(s) && Accepts(s, reg, e)
    ensures
      var t, sealed := PostEntry(k, s, reg, e, now), SealPost(k, s, e, now);
      && Inv(t) && t.accounts == s.accounts && t.index.rows == s.index.rows + [sealed]
      && sealed.sequence == s.nextSequence && sealed.lines == e.lines && sealed.status == e.status
      && sealed.idempotencyKey == e.idempotencyKey && sealed.externalRef == e.externalRef
      && sealed.description == e.description
      && forall a :: a in s.accounts ==>
           Balance(t.cache, a) == Balance(s.cache, a) + CacheSign(s.accounts[a].accountType) * Effect(sealed, a)
  {
    var op := OpPost(reg, e, now);
    StepKeepsInv(k, s, op);
    StepAppends(k, s, op);
    JournalGrows(k, s, op);
    forall a | a in s.accounts
      ensures Balance(PostEntry(k, s, reg, e, now).cache, a)
           == Balance(s.cache, a) + CacheSign(s.accounts[a].accountType) * Effect(SealPost(k, s, e, now), a)
    {
      ApplyEntryBalance(s.accounts, s.cache, SealPost(k, s, e, now), a);
    }
  }

  lemma {:induction false} RowsOkGrows(job: Job, rows: seq<JournalEntry>, e: JournalEntry)
    requires job.reversalKey != job.correctionKey
    requires RowsOk(job, rows) && e.idempotencyKey == e.externalRef && e.status.Posted?
    requires e.idempotencyKey == Some(job.reversalKey) ==>
      IsTransfer(e, job.income, job.cash, job.original, job.currency) && e.description == job.reversalText
    requires e.idempotencyKey == Some(job.correctionKey) ==>
      && IsTransfer(e, job.cash, job.income, job.corrected, job.currency) && e.description == job.correctionText
      && HasKey(rows, job.reversalKey)
    ensures RowsOk(job, rows + [e])
  {
    KeyPersists(rows, e, job.reversalKey);
    KeyPersists(rows, e, job.correctionKey);
  }

  lemma {:induction false} NegatedTimes(x: int, y: int)
    ensures x * -y == -(x * y)
  {
  }

  /** A transfer whose key is new and which both accounts cover. */
  lemma {:induction false} TransferPosts(k: Sealer, s: State, reg: Registry, e: JournalEntry, now: Time,
                                         to: Uuid, from: Uuid, amount: Amount, currency: Str)
    requires Inv(s) && IsTransfer(e, to, from, amount, currency) && e.status.Posted?
    requires Usable(s.accounts, to, currency) && Usable(s.accounts, from, currency)
    requires WithinPrecision(reg, amount, currency) && !KeyAlreadyPosted(s.index.rows, e)
    requires Covers(s.accounts[from], s.cache, from, -(amount as int)) && Covers(s.accounts[to], s.cache, to, amount)
    ensures Accepts(s, reg, e)
    ensures
      var t := PostEntry(k, s, reg, e, now);
      && Balance(t.cache, to) == Balance(s.cache, to) + CacheSign(s.accounts[to].accountType) * amount
      && Balance(t.cache, from) == Balance(s.cache, from) - CacheSign(s.accounts[from].accountType) * amount
  {
    TransferAccepted(s, reg, e, to, from, amount, currency);
    PostAppends(k, s, reg, e, now);
    TransferNets(e, to, from, amount, currency, to);
    TransferNets(e, to, from, amount, currency, from);
    var sealed := SealPost(k, s, e, now);
    assert Effect(sealed, to) == amount && Effect(sealed, from) == -(amount as int);
    NegatedTimes(CacheSign(s.accounts[from].accountType), amount);
  }

  lemma {:induction false} DriftGrows(job: Job, rows: seq<JournalEntry>, e: JournalEntry)
    requires job.reversalKey != job.correctionKey
    ensures e.idempotencyKey == Some(job.reversalKey) && !HasKey(rows, job.reversalKey) ==>
      Drift(job, rows + [e]) == Drift(job, rows) - job.original
    ensures e.idempotencyKey == Some(job.correctionKey) && !HasKey(rows, job.correctionKey) ==>
      Drift(job, rows + [e]) == Drift(job, rows) + job.corrected
    ensures !IsKey(job, e.idempotencyKey) ==> Drift(job, rows + [e]) == Drift(job, rows)
  {
    KeyPersists(rows, e, job.reversalKey);
    KeyPersists(rows, e, job.correctionKey);
  }

  /** The journal after a step is the journal before, or that and one entry. */
  predicate GrewByAtMostOne(before: seq<JournalEntry>, after: seq<JournalEntry>) {
    after == before || (|after| == |before| + 1 && after[..|before|] == before)
  }

  /** A write that went through: at most one entry was added, and the key is recorded with the sequence returned. */
  ghost predicate Wrote(job: Job, cash: int, income: int, key: Str, s: State, r: (State, Option<nat>)) {
    && r.1.Some? && LedgerOk(job, cash, income, r.0) && Recorded(r.0.index.rows, key, r.1.value)
    && GrewByAtMostOne(s.index.rows, r.0.index.rows)
  }

  /** A key already posted: nothing is written, and the recorded sequence comes back. */
  lemma {:induction false} WriteAgain(
    k: Sealer, job: Job, cash: int, income: int, s: State, e: JournalEntry, now: Time, key: Str)
    requires LedgerOk(job, cash, income, s) && WellFormed(e)
    requires e.idempotencyKey == Some(key) && HasKey(s.index.rows, key)
    ensures Wrote(job, cash, income, key, s, TryPost(k, s, job.reg, e, now))
  {
    assert TryPost(k, s, job.reg, e, now) == (s, Some(SequenceForKey(s.index.rows, key)));
  }

  /** A new entry under a new key, which moves both balances by `delta`. */
  lemma {:induction false} WroteNew(
    job: Job, cash: int, income: int, key: Str, s: State, t: State, e: JournalEntry, delta: int)
    requires LedgerOk(job, cash, income, s) && !HasKey(s.index.rows, key)
    requires Inv(t) && t.accounts == s.accounts && t.index.rows == s.index.rows + [e] && RowsOk(job, t.index.rows)
    requires e.idempotencyKey == Some(key) && Drift(job, t.index.rows) == Drift(job, s.index.rows) + delta
    requires Balance(t.cache, job.cash) == Balance(s.cache, job.cash) + delta
    requires Balance(t.cache, job.income) == Balance(s.cache, job.income) + delta
    ensures Wrote(job, cash, income, key, s, (t, Some(e.sequence)))
  {
    KeyPersists(s.index.rows, e, key);
  }

  /** A transfer under a new key goes through. */
  lemma {:induction false} TransferWrites(k: Sealer, s: State, reg: Registry, e: JournalEntry, now: Time,
                                          to: Uuid, from: Uuid, amount: Amount, currency: Str)
    requires Inv(s) && IsTransfer(e, to, from, amount, currency) && e.status.Posted?
    requires Usable(s.accounts, to, currency) && Usable(s.accounts, from, currency)
    requires WithinPrecision(reg, amount, currency) && !KeyAlreadyPosted(s.index.rows, e)
    requires Covers(s.accounts[from], s.cache, from, -(amount as int)) && Covers(s.accounts[to], s.cache, to, amount)
    ensures
      var t, sealed := PostEntry(k, s, reg, e, now), SealPost(k, s, e, now);
      && TryPost(k, s, reg, e, now) == (t, Some(sealed.sequence))
      && Inv(t) && t.accounts == s.accounts && t.index.rows == s.index.rows + [sealed]
      && Balance(t.cache, to) == Balance(s.cache, to) + CacheSign(s.accounts[to].accountType) * amount
      && Balance(t.cache, from) == Balance(s.cache, from) - CacheSign(s.accounts[from].accountType) * amount
  {
    TransferPosts(k, s, reg, e, now, to, from, amount, currency);
    PostAppends(k, s, reg, e, now);
  }

  lemma {:induction false} ReversalRows(job: Job, rows: seq<JournalEntry>, f: Fresh, e: JournalEntry)
    requires JobOk(job) && RowsOk(job, rows) && !HasKey(rows, job.reversalKey)
    requires
      var r := ReversalEntry(job, f);
      && e.lines == r.lines && e.status == r.status && e.description == r.description
      && e.idempotencyKey == r.idempotencyKey && e.externalRef == r.externalRef
    ensures RowsOk(job, rows + [e]) && Drift(job, rows + [e]) == Drift(job, rows) - job.original
  {
    RowsOkGrows(job, rows, e);
    DriftGrows(job, rows, e);
  }

  lemma {:induction false} CorrectionRows(job: Job, rows: seq<JournalEntry>, f: Fresh, e: JournalEntry)
    requires JobOk(job) && RowsOk(job, rows) && HasKey(rows, job.reversalKey) && !HasKey(rows, job.correctionKey)
    requires
      var r := CorrectionEntry(job, f);
      && e.lines == r.lines && e.status == r.status && e.description == r.description
      && e.idempotencyKey == r.idempotencyKey && e.externalRef == r.externalRef
    ensures RowsOk(job, rows + [e]) && Drift(job, rows + [e]) == Drift(job, rows) + job.corrected
  {
    RowsOkGrows(job, rows, e);
    DriftGrows(job, rows, e);
  }

  lemma {:induction false} WriteNewReversal(k: Sealer, job: Job, cash: int, income: int, s: State, f: Fresh)
    requires JobOk(job) && LedgerOk(job, cash, income, s) && !HasKey(s.index.rows, job.reversalKey)
    ensures Wrote(job, cash, income, job.reversalKey, s, TryPost(k, s, job.reg, ReversalEntry(job, f), f.now))
  {
    var e := ReversalEntry(job, f);
    var sealed := SealPost(k, s, e, f.now);
    TransferWrites(k, s, job.reg, e, f.now, job.income, job.cash, job.original, job.currency);
    ReversalRows(job, s.index.rows, f, sealed);
    WroteNew(job, cash, income, job.reversalKey, s, PostEntry(k, s, job.reg, e, f.now), sealed, -(job.original as int));
  }

  lemma {:induction false} WriteNewCorrection(k: Sealer, job: Job, cash: int, income: int, s: State, f: Fresh)
    requires JobOk(job) && LedgerOk(job, cash, income, s)
    requires HasKey(s.index.rows, job.reversalKey) && !HasKey(s.index.rows, job.correctionKey)
    ensures Wrote(job, cash, income, job.correctionKey, s, TryPost(k, s, job.reg, CorrectionEntry(job, f), f.now))
  {
    var e := CorrectionEntry(job, f);
    var sealed := SealPost(k, s, e, f.now);
    TransferWrites(k, s, job.reg, e, f.now, job.cash, job.income, job.corrected, job.currency);
    CorrectionRows(job, s.index.rows, f, sealed);
    WroteNew(job, cash, income, job.correctionKey, s, PostEntry(k, s, job.reg, e, f.now), sealed, job.corrected);
  }

  /** The reversal write appends at most one entry, and afterwards it is recorded. */
  lemma {:induction false} WriteReversal(k: Sealer, job: Job, cash: int, income: int, s: State, f: Fresh)
    requires JobOk(job) && LedgerOk(job, cash, income, s)
    ensures Wrote(job, cash, income, job.reversalKey, s, TryPost(k, s, job.reg, ReversalEntry(job, f), f.now))
  {
    if HasKey(s.index.rows, job.reversalKey) {
      TransferWellFormed(ReversalEntry(job, f), job.income, job.cash, job.original, job.currency);
      WriteAgain(k, job, cash, income, s, ReversalEntry(job, f), f.now, job.reversalKey);
    } else {
      WriteNewReversal(k, job, cash, income, s, f);
    }
  }

  /** The correction write, once the reversal is recorded. */
  lemma {:induction false} WriteCorrection(k: Sealer, job: Job, cash: int, income: int, s: State, f: Fresh)
    requires JobOk(job) && LedgerOk(job, cash, income, s) && HasKey(s.index.rows, job.reversalKey)
    ensures Wrote(job, cash, income, job.correctionKey, s, TryPost(k, s, job.reg, CorrectionEntry(job, f), f.now))
  {
    if HasKey(s.index.rows, job.correctionKey) {
      TransferWellFormed(CorrectionEntry(job, f), job.cash, job.income, job.corrected, job.currency);
      WriteAgain(k, job, cash, income, s, CorrectionEntry(job, f), f.now, job.correctionKey);
    } else {
      WriteNewCorrection(k, job, cash, income, s, f);
    }
  }

  // ---- Steps of the world ----

  lemma {:induction false} CallersPersist(
    job: Job, before: seq<JournalEntry>, after: seq<JournalEntry>, callers: seq<Caller>)
    requires GrewByAtMostOne(before, after)
    requires forall i :: 0 <= i < |callers| ==> CallerOk(job, before, callers[i])
    ensures forall i :: 0 <= i < |callers| ==> CallerOk(job, after, callers[i])
  {
    if after != before {
      assert after == before + [after[|before|]];
      forall i | 0 <= i < |callers| ensures CallerOk(job, after, callers[i]) {
        CallerPersists(job, before, after[|before|], callers[i]);
      }
    }
  }

  lemma {:induction false} MaybePersists(before: seq<JournalEntry>, after: seq<JournalEntry>, key: Str, q: Option<nat>)
    requires GrewByAtMostOne(before, after) && MaybeRecorded(before, key, q)
    ensures MaybeRecorded(after, key, q)
  {
    if after != before {
      assert after == before + [after[|before|]];
      KeyPersists(before, after[|before|], key);
    }
  }

  /** Before and after one step of a caller. */
  ghost predicate Advanced(job: Job, cash: int, income: int, s: State, r: (State, Caller)) {
    && LedgerOk(job, cash, income, r.0) && CallerOk(job, r.0.index.rows, r.1)
    && GrewByAtMostOne(s.index.rows, r.0.index.rows)
  }

  lemma {:induction false} ReversalAdvances(k: Sealer, job: Job, s: State, cor: Option<nat>, f: Fresh)
    ensures
      var r := TryPost(k, s, job.reg, ReversalEntry(job, f), f.now);
      r.1.Some? ==> AdvanceCaller(k, job, s, Ready(None, cor), f) == (r.0, Conclude(r.1.value, cor))
  {
  }

  lemma {:induction false} CorrectionAdvances(k: Sealer, job: Job, s: State, rev: nat, f: Fresh)
    ensures
      var r := TryPost(k, s, job.reg, CorrectionEntry(job, f), f.now);
      r.1.Some? ==> AdvanceCaller(k, job, s, WroteReversal(rev, None), f) == (r.0, Done(rev, r.1.value))
  {
  }

  lemma {:induction false} AdvancedIs(
    job: Job, cash: int, income: int, s: State, r: (State, Caller), q: (State, Caller))
    requires Advanced(job, cash, income, s, r) && r == q
    ensures Advanced(job, cash, income, s, q)
  {
  }

  lemma {:induction false} AfterReversal(
    job: Job, cash: int, income: int, s: State, r: (State, Option<nat>), cor: Option<nat>)
    requires Wrote(job, cash, income, job.reversalKey, s, r) && MaybeRecorded(s.index.rows, job.correctionKey, cor)
    ensures Advanced(job, cash, income, s, (r.0, Conclude(r.1.value, cor)))
  {
    MaybePersists(s.index.rows, r.0.index.rows, job.correctionKey, cor);
  }

  lemma {:induction false} AfterCorrection(
    job: Job, cash: int, income: int, s: State, r: (State, Option<nat>), rev: nat)
    requires Wrote(job, cash, income, job.correctionKey, s, r) && Recorded(s.index.rows, job.reversalKey, rev)
    ensures Advanced(job, cash, income, s, (r.0, Done(rev, r.1.value)))
  {
    MaybePersists(s.index.rows, r.0.index.rows, job.reversalKey, Some(rev));
  }

  lemma {:induction false} AdvanceReversal(
    k: Sealer, job: Job, cash: int, income: int, s: State, cor: Option<nat>, f: Fresh)
    requires JobOk(job) && LedgerOk(job, cash, income, s)
    requires MaybeRecorded(s.index.rows, job.correctionKey, cor)
    ensures Advanced(job, cash, income, s, AdvanceCaller(k, job, s, Ready(None, cor), f))
  {
    var r := TryPost(k, s, job.reg, ReversalEntry(job, f), f.now);
    WriteReversal(k, job, cash, income, s, f);
    AfterReversal(job, cash, income, s, r, cor);
    ReversalAdvances(k, job, s, cor, f);
    AdvancedIs(job, cash, income, s, (r.0, Conclude(r.1.value, cor)), AdvanceCaller(k, job, s, Ready(None, cor), f));
  }

  lemma {:induction false} AdvanceCorrection(k: Sealer, job: Job, cash: int, income: int, s: State, rev: nat, f: Fresh)
    requires JobOk(job) && LedgerOk(job, cash, income, s) && Recorded(s.index.rows, job.reversalKey, rev)
    ensures Advanced(job, cash, income, s, AdvanceCaller(k, job, s, WroteReversal(rev, None), f))
  {
    var r := TryPost(k, s, job.reg, CorrectionEntry(job, f), f.now);
    WriteCorrection(k, job, cash, income, s, f);
    AfterCorrection(job, cash, income, s, r, rev);
    CorrectionAdvances(k, job, s, rev, f);
    AdvancedIs(job, cash, income, s, (r.0, Done(rev, r.1.value)),
               AdvanceCaller(k, job, s, WroteReversal(rev, None), f));
  }

  /** A step of a caller that is not about to write. */
  lemma {:induction false} AdvanceReading(k: Sealer, job: Job, s: State, c: Caller, f: Fresh)
    requires RowsOk(job, s.index.rows) && CallerOk(job, s.index.rows, c)
    requires !(c.Ready? && c.rev.None?) && !c.WroteReversal?
    ensures AdvanceCaller(k, job, s, c, f).0 == s && CallerOk(job, s.index.rows, AdvanceCaller(k, job, s, c, f).1)
  {
    match c {
      case Start => ReadIsRecorded(job, s.index.rows, job.reversalKey);
      case ReadReversal(rev) => ReadIsRecorded(job, s.index.rows, job.correctionKey);
      case _ =>
    }
  }

  lemma {:induction false} AdvanceKeepsOk(k: Sealer, job: Job, cash: int, income: int, s: State, c: Caller, f: Fresh)
    requires JobOk(job) && LedgerOk(job, cash, income, s) && CallerOk(job, s.index.rows, c)
    ensures Advanced(job, cash, income, s, AdvanceCaller(k, job, s, c, f))
  {
    if c.Ready? && c.rev.None? {
      AdvanceReversal(k, job, cash, income, s, c.cor, f);
    } else if c.WroteReversal? {
      AdvanceCorrection(k, job, cash, income, s, c.revSeq, f);
    } else {
      AdvanceReading(k, job, s, c, f);
      var r := AdvanceCaller(k, job, s, c, f);
      OnlyReads(job, cash, income, s, r.1);
      AdvancedIs(job, cash, income, s, (s, r.1), r);
    }
  }

  /** A step that leaves the ledger alone. */
  lemma {:induction false} OnlyReads(job: Job, cash: int, income: int, s: State, c: Caller)
    requires LedgerOk(job, cash, income, s) && CallerOk(job, s.index.rows, c)
    ensures Advanced(job, cash, income, s, (s, c))
  {
  }

  lemma {:induction false} OtherAppendAvoids(k: Sealer, job: Job, s: State, op: Op)
    requires Avoids(job, s, op) && Appended(k, s, op).Some?
    ensures
      var e := Appended(k, s, op).value;
      && !Touches(e, job.cash) && !Touches(e, job.income)
      && !IsKey(job, e.idempotencyKey) && !IsKey(job, e.externalRef)
  {
    var e := Appended(k, s, op).value;
    if op.OpReverse? {
      var lines := FindById(s.index.rows, op.entryId).value.lines;
      forall i | 0 <= i < |e.lines| ensures e.lines[i].accountId != job.cash && e.lines[i].accountId != job.income {
        assert e.lines[i].accountId == lines[i].accountId;
      }
    }
  }

  lemma {:induction false} OtherRowsOk(job: Job, rows: seq<JournalEntry>, e: JournalEntry)
    requires RowsOk(job, rows) && !IsKey(job, e.idempotencyKey) && !IsKey(job, e.externalRef)
    ensures RowsOk(job, rows + [e])
  {
    KeyPersists(rows, e, job.reversalKey);
    KeyPersists(rows, e, job.correctionKey);
  }

  lemma {:induction false} OtherAccounts(k: Sealer, job: Job, cash: int, s: State, op: Op)
    requires Inv(s) && Avoids(job, s, op) && AccountsReady(job, cash, s.accounts)
    ensures AccountsReady(job, cash, Step(k, s, op).accounts)
  {
    if WritesAccount(s, op) {
      AccountStepsWrite(k, s, op);
    } else {
      OtherStepsKeepAccounts(k, s, op);
    }
  }

  lemma {:induction false} OtherKeepsOk(k: Sealer, job: Job, cash: int, income: int, s: State, op: Op)
    requires JobOk(job) && LedgerOk(job, cash, income, s) && Avoids(job, s, op)
    ensures LedgerOk(job, cash, income, Step(k, s, op))
    ensures GrewByAtMostOne(s.index.rows, Step(k, s, op).index.rows)
  {
    var t := Step(k, s, op);
    OtherAccounts(k, job, cash, s, op);
    StepKeepsInv(k, s, op);
    JournalGrows(k, s, op);
    if Appended(k, s, op).Some? {
      OtherAppendAvoids(k, job, s, op);
      StepAppends(k, s, op);
      OtherEntryKeepsOk(job, cash, income, s, t, Appended(k, s, op).value);
    } else {
      StepDoesNotAppend(k, s, op);
    }
  }

  lemma {:induction false} OtherEntryKeepsOk(job: Job, cash: int, income: int, s: State, t: State, e: JournalEntry)
    requires JobOk(job) && LedgerOk(job, cash, income, s) && Inv(t) && AccountsReady(job, cash, t.accounts)
    requires t.index.rows == s.index.rows + [e] && t.cache == ApplyEntry(s.accounts, s.cache, e)
    requires !Touches(e, job.cash) && !Touches(e, job.income)
    requires !IsKey(job, e.idempotencyKey) && !IsKey(job, e.externalRef)
    ensures LedgerOk(job, cash, income, t)
  {
    OtherRowsOk(job, s.index.rows, e);
    DriftGrows(job, s.index.rows, e);
    UntouchedBalance(s, e, job.cash);
    UntouchedBalance(s, e, job.income);
  }

  lemma {:induction false} UntouchedBalance(s: State, e: JournalEntry, a: Uuid)
    requires !Touches(e, a)
    ensures Balance(ApplyEntry(s.accounts, s.cache, e), a) == Balance(s.cache, a)
  {
    UntouchedNet(e.lines, a);
    ApplyEntryBalance(s.accounts, s.cache, e, a);
  }

  lemma {:induction false} AdvanceKeepsWorld(k: Sealer, job: Job, cash: int, income: int, w: World, i: nat, f: Fresh)
    requires JobOk(job) && WorldOk(job, cash, income, w) && i < |w.callers|
    ensures WorldOk(job, cash, income, WorldStep(k, job, w, Advance(i, f)))
    ensures GrewByAtMostOne(w.ledger.index.rows, WorldStep(k, job, w, Advance(i, f)).ledger.index.rows)
  {
    AdvanceKeepsOk(k, job, cash, income, w.ledger, w.callers[i], f);
    var r := AdvanceCaller(k, job, w.ledger, w.callers[i], f);
    CallersPersist(job, w.ledger.index.rows, r.0.index.rows, w.callers);
  }

  lemma {:induction false} WorldStepKeepsOk(k: Sealer, job: Job, cash: int, income: int, w: World, ev: Event)
    requires JobOk(job) && WorldOk(job, cash, income, w)
    requires ev.Other? ==> Avoids(job, w.ledger, ev.op)
    ensures WorldOk(job, cash, income, WorldStep(k, job, w, ev))
    ensures GrewByAtMostOne(w.ledger.index.rows, WorldStep(k, job, w, ev).ledger.index.rows)
  {
    match ev {
      case Arrive =>
      case Stop(i) =>
      case Other(op) =>
        OtherKeepsOk(k, job, cash, income, w.ledger, op);
        CallersPersist(job, w.ledger.index.rows, Step(k, w.ledger, op).index.rows, w.callers);
      case Advance(i, f) =>
        if i < |w.callers| {
          AdvanceKeepsWorld(k, job, cash, income, w, i, f);
        }
    }
  }

  lemma {:induction false} WorldRunKeepsOk(k: Sealer, job: Job, cash: int, income: int, w: World, evs: seq<Event>)
    requires JobOk(job) && WorldOk(job, cash, income, w)
    requires AvoidsThroughout(k, job, w, evs)
    ensures WorldOk(job, cash, income, WorldRun(k, job, w, evs))
  {
    if evs == [] {
    } else {
      WorldRunKeepsOk(k, job, cash, income, w, evs[..|evs| - 1]);
      WorldStepKeepsOk(k, job, cash, income, WorldRun(k, job, w, evs[..|evs| - 1]), evs[|evs| - 1]);
    }
  }

  // ---- Main results ----

  /** A world in which nobody has begun: the two accounts are open and cash covers the original. */
  ghost predicate Untouched(job: Job, w: World) {
    && Inv(w.ledger) && AccountsReady(job, Balance(w.ledger.cache, job.cash), w.ledger.accounts) && w.callers == []
    && forall i :: 0 <= i < |w.ledger.index.rows| ==>
         !IsKey(job, w.ledger.index.rows[i].idempotencyKey) && !IsKey(job, w.ledger.index.rows[i].externalRef)
  }

  lemma {:induction false} UntouchedIsOk(job: Job, w: World)
    requires Untouched(job, w)
    ensures WorldOk(job, Balance(w.ledger.cache, job.cash), Balance(w.ledger.cache, job.income), w)
  {
    assert !HasKey(w.ledger.index.rows, job.reversalKey) && !HasKey(w.ledger.index.rows, job.correctionKey);
  }

  function CountKey(rows: seq<JournalEntry>, key: Str): (r: nat) {
    if rows == [] then 0
    else CountKey(rows[..|rows| - 1], key) + (if rows[|rows| - 1].idempotencyKey == Some(key) then 1 else 0)
  }

  lemma {:induction false} UniqueKeyCount(rows: seq<JournalEntry>, key: Str)
    requires UniqueKeys(rows)
    ensures CountKey(rows, key) == if HasKey(rows, key) then 1 else 0
  {
    if rows == [] {
    } else {
      var front, last := rows[..|rows| - 1], rows[|rows| - 1];
      UniqueKeyCount(front, key);
      assert rows == front + [last];
      KeyPersists(front, last, key);
    }
  }

  /** Entry `n` of the journal undoes the original: it debits income and credits cash, under the reversal key. */
  predicate IsReversalAt(job: Job, rows: seq<JournalEntry>, n: nat) {
    && 1 <= n <= |rows| && rows[n - 1].sequence == n && rows[n - 1].idempotencyKey == Some(job.reversalKey)
    && IsTransfer(rows[n - 1], job.income, job.cash, job.original, job.currency)
    && rows[n - 1].description == job.reversalText && rows[n - 1].externalRef == Some(job.reversalKey)
  }

  /** Entry `n` of the journal corrects it: it debits cash and credits income, under the correction key. */
  predicate IsCorrectionAt(job: Job, rows: seq<JournalEntry>, n: nat) {
    && 1 <= n <= |rows| && rows[n - 1].sequence == n && rows[n - 1].idempotencyKey == Some(job.correctionKey)
    && IsTransfer(rows[n - 1], job.cash, job.income, job.corrected, job.currency)
    && rows[n - 1].description == job.correctionText && rows[n - 1].externalRef == Some(job.correctionKey)
  }

  lemma {:induction false} SequenceHasKey(rows: seq<JournalEntry>, key: Str, n: nat)
    requires Dense(rows) && Recorded(rows, key, n)
    ensures 1 <= n <= |rows| && rows[n - 1].sequence == n && rows[n - 1].idempotencyKey == Some(key)
  {
    RepeatedKeyAnswer(rows, key);
  }

  lemma {:induction false} RecordedAt(job: Job, rows: seq<JournalEntry>, c: Caller)
    requires Dense(rows) && RowsOk(job, rows) && c.Done? && CallerOk(job, rows, c)
    ensures IsReversalAt(job, rows, c.revSeq) && IsCorrectionAt(job, rows, c.corSeq)
  {
    SequenceHasKey(rows, job.reversalKey, c.revSeq);
    SequenceHasKey(rows, job.correctionKey, c.corSeq);
  }

  /** For any number of callers and any interleaving of their reads and writes with each other and
      with traffic elsewhere: no caller fails, at most one reversal and one correction are appended,
      once any caller has finished there is exactly one of each and the balance has moved by the
      difference, and every caller that finishes returns the sequences of that reversal and that correction. */
  lemma {:induction false} CorrectionIsExactlyOnce(k: Sealer, job: Job, w: World, evs: seq<Event>, i: nat, j: nat)
    requires JobOk(job) && Untouched(job, w) && AvoidsThroughout(k, job, w, evs)
    requires i < |WorldRun(k, job, w, evs).callers| && j < |WorldRun(k, job, w, evs).callers|
    ensures
      var v := WorldRun(k, job, w, evs);
      var rows := v.ledger.index.rows;
      && !v.callers[i].Panicked?
      && CountKey(rows, job.correctionKey) <= CountKey(rows, job.reversalKey) <= 1
      && (v.callers[i].Done? ==>
            && IsReversalAt(job, rows, v.callers[i].revSeq) && IsCorrectionAt(job, rows, v.callers[i].corSeq)
            && CountKey(rows, job.correctionKey) == CountKey(rows, job.reversalKey) == 1
            && Balance(v.ledger.cache, job.cash)
                 == Balance(w.ledger.cache, job.cash) - job.original + job.corrected
            && Balance(v.ledger.cache, job.income)
                 == Balance(w.ledger.cache, job.income) - job.original + job.corrected)
      && (v.callers[i].Done? && v.callers[j].Done? ==> v.callers[i] == v.callers[j])
  {
    UntouchedIsOk(job, w);
    WorldRunKeepsOk(k, job, Balance(w.ledger.cache, job.cash), Balance(w.ledger.cache, job.income), w, evs);
    var rows := WorldRun(k, job, w, evs).ledger.index.rows;
    UniqueKeyCount(rows, job.reversalKey);
    UniqueKeyCount(rows, job.correctionKey);
    assert CallerOk(job, rows, WorldRun(k, job, w, evs).callers[i]);
    if WorldRun(k, job, w, evs).callers[i].Done? {
      RecordedAt(job, rows, WorldRun(k, job, w, evs).callers[i]);
    }
    assert CallerOk(job, rows, WorldRun(k, job, w, evs).callers[j]);
  }

  /** One caller run alone, with new ids and times for each step. */
  function RunAlone(k: Sealer, job: Job, r: (State, Caller), draw: nat -> Fresh, n: nat): (out: (State, Caller)) {
    if n == 0 then r
    else
      var before := RunAlone(k, job, r, draw, n - 1);
      AdvanceCaller(k, job, before.0, before.1, draw(n - 1))
  }

  ghost predicate AloneOk(job: Job, cash: int, income: int, r: (State, Caller)) {
    LedgerOk(job, cash, income, r.0) && CallerOk(job, r.0.index.rows, r.1)
  }

  lemma {:induction false} AloneStep(k: Sealer, job: Job, cash: int, income: int, r: (State, Caller), f: Fresh)
    requires JobOk(job) && AloneOk(job, cash, income, r)
    ensures AloneOk(job, cash, income, AdvanceCaller(k, job, r.0, r.1, f))
  {
    AdvanceKeepsOk(k, job, cash, income, r.0, r.1, f);
  }

  lemma {:induction false} RunAloneKeepsOk(
    k: Sealer, job: Job, cash: int, income: int, r: (State, Caller), draw: nat -> Fresh, n: nat, out: (State, Caller))
    requires JobOk(job) && AloneOk(job, cash, income, r) && out == RunAlone(k, job, r, draw, n)
    ensures AloneOk(job, cash, income, out)
  {
    if n == 0 {
    } else {
      var before := RunAlone(k, job, r, draw, n - 1);
      RunAloneKeepsOk(k, job, cash, income, r, draw, n - 1, before);
      AloneStep(k, job, cash, income, before, draw(n - 1));
    }
  }

  /** How far a caller has come. */
  function Stage(c: Caller): (r: nat) {
    match c
    case Start => 0
    case ReadReversal(_) => 1
    case Ready(_, _) => 2
    case WroteReversal(_, _) => 3
    case _ => 4
  }

  lemma {:induction false} AdvanceProgresses(k: Sealer, job: Job, s: State, c: Caller, f: Fresh)
    ensures Stage(AdvanceCaller(k, job, s, c, f).1) > Stage(c) || Stage(c) == 4
    ensures c.Stopped? || !AdvanceCaller(k, job, s, c, f).1.Stopped?
  {
  }

  lemma {:induction false} RunAloneProgresses(k: Sealer, job: Job, s: State, draw: nat -> Fresh, n: nat)
    requires n <= 4
    ensures
      var d := RunAlone(k, job, (s, Start), draw, n).1;
      Stage(d) >= n && !d.Stopped?
  {
    if n == 0 {
    } else {
      RunAloneProgresses(k, job, s, draw, n - 1);
      var r := RunAlone(k, job, (s, Start), draw, n - 1);
      AdvanceProgresses(k, job, r.0, r.1, draw(n - 1));
    }
  }

  lemma {:induction false} DoneAlone(job: Job, cash: int, income: int, r: (State, Caller))
    requires AloneOk(job, cash, income, r) && Stage(r.1) >= 4 && !r.1.Stopped?
    ensures r.1.Done?
    ensures CountKey(r.0.index.rows, job.reversalKey) == CountKey(r.0.index.rows, job.correctionKey) == 1
    ensures Balance(r.0.cache, job.cash) == cash - job.original + job.corrected
  {
    UniqueKeyCount(r.0.index.rows, job.reversalKey);
    UniqueKeyCount(r.0.index.rows, job.correctionKey);
  }

  /** Wherever the other callers stopped, even between the two writes, one retry run alone finishes
      the correction in at most four steps. */
  lemma {:induction false} AnyRetryCompletes(k: Sealer, job: Job, w: World, evs: seq<Event>, draw: nat -> Fresh)
    requires JobOk(job) && Untouched(job, w) && AvoidsThroughout(k, job, w, evs)
    ensures
      var r := RunAlone(k, job, (WorldRun(k, job, w, evs).ledger, Start), draw, 4);
      && r.1.Done?
      && CountKey(r.0.index.rows, job.reversalKey) == CountKey(r.0.index.rows, job.correctionKey) == 1
      && Balance(r.0.cache, job.cash) == Balance(w.ledger.cache, job.cash) - job.original + job.corrected
  {
    var cash, income := Balance(w.ledger.cache, job.cash), Balance(w.ledger.cache, job.income);
    var s := WorldRun(k, job, w, evs).ledger;
    UntouchedIsOk(job, w);
    WorldRunKeepsOk(k, job, cash, income, w, evs);
    var out := RunAlone(k, job, (s, Start), draw, 4);
    RunAloneKeepsOk(k, job, cash, income, (s, Start), draw, 4, out);
    RunAloneProgresses(k, job, s, draw, 4);
    DoneAlone(job, cash, income, out);
  }
}
