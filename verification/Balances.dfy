/** Accounts, the signed effect of lines and entries on them, and the running balance cache. */
module Balances {
  import opened Bytes
  import opened Entries

  datatype AccountType = Asset | Liability | Equity | Income | Expense | Contra | Suspense

  datatype AccountStatus = Active | Closed | Frozen

  datatype Account = Account(
    id: Uuid,
    code: Str,
    accountType: AccountType,
    currencyCode: Str,
    status: AccountStatus,
    requireNonNegativeBalance: bool,
    exposureLimit: Option<Amount>,
    requireFourEyes: bool,
    legalHold: bool)

  type Accounts = map<Uuid, Account>
  type Cache = map<Uuid, int>

  /** The types whose balance the cache grows on a debit. */
  predicate DebitNormal(t: AccountType) {
    t.Asset? || t.Expense?
  }

  /** `normal_balance_sign`, which reconciliation uses: Suspense counts as debit-normal here. */
  function NormalBalanceSign(t: AccountType): (r: int) {
    if t.Asset? || t.Expense? || t.Suspense? then 1 else -1
  }

  /** The sign the cache uses. */
  function CacheSign(t: AccountType): (sign: int)
    ensures sign == 1 || sign == -1
  {
    if DebitNormal(t) then 1 else -1
  }

  // ---- Net debits ----

  function Signed(l: JournalLine): (r: int) {
    if l.drCr.Debit? then l.amount else -(l.amount as int)
  }

  /** Debits less credits of the lines on one account. */
  function NetDebit(lines: seq<JournalLine>, a: Uuid): (r: int) {
    if lines == [] then 0
    else
      var last := lines[|lines| - 1];
      NetDebit(lines[..|lines| - 1], a) + (if last.accountId == a then Signed(last) else 0)
  }

  /** Total of the debit lines on one account. */
  function DebitTotal(lines: seq<JournalLine>, a: Uuid): (r: int) {
    if lines == [] then 0
    else
      var last := lines[|lines| - 1];
      DebitTotal(lines[..|lines| - 1], a) + (if last.accountId == a && last.drCr.Debit? then last.amount else 0)
  }

  function Effect(e: JournalEntry, a: Uuid): (r: int) {
    if AffectsBalance(e.status) then NetDebit(e.lines, a) else 0
  }

  /** Debits less credits of all balance-affecting entries on one account. */
  function Net(es: seq<JournalEntry>, a: Uuid): (r: int) {
    if es == [] then 0 else Net(es[..|es| - 1], a) + Effect(es[|es| - 1], a)
  }

  lemma {:induction false} NetSnoc(es: seq<JournalEntry>, e: JournalEntry, a: Uuid)
    ensures Net(es + [e], a) == Net(es, a) + Effect(e, a)
  {
    assert (es + [e])[..|es|] == es;
  }

  lemma {:induction false} NetConcat(xs: seq<JournalEntry>, ys: seq<JournalEntry>, a: Uuid)
    ensures Net(xs + ys, a) == Net(xs, a) + Net(ys, a)
    decreases |ys|
  {
    if ys == [] {
      assert xs + ys == xs;
    } else {
      var front, last := ys[..|ys| - 1], ys[|ys| - 1];
      assert xs + ys == (xs + front) + [last] && ys == front + [last];
      NetConcat(xs, front, a);
      NetSnoc(xs + front, last, a);
    }
  }

  lemma {:induction false} UntouchedNet(lines: seq<JournalLine>, a: Uuid)
    requires forall i :: 0 <= i < |lines| ==> lines[i].accountId != a
    ensures NetDebit(lines, a) == 0 && DebitTotal(lines, a) == 0
  {
    if lines == [] {
    } else {
      UntouchedNet(lines[..|lines| - 1], a);
    }
  }

  // ---- The running cache ----

  function Balance(cache: Cache, a: Uuid): (r: int) {
    if a in cache then cache[a] else 0
  }

  /** One line; a line on an unknown account is skipped. */
  function ApplyLine(accounts: Accounts, cache: Cache, l: JournalLine): (r: Cache) {
    if l.accountId !in accounts then cache
    else
      var t := accounts[l.accountId].accountType;
      cache[l.accountId := Balance(cache, l.accountId) + (if DebitNormal(t) then Signed(l) else -Signed(l))]
  }

  function ApplyLines(accounts: Accounts, cache: Cache, lines: seq<JournalLine>): (r: Cache) {
    if lines == [] then cache
    else ApplyLine(accounts, ApplyLines(accounts, cache, lines[..|lines| - 1]), lines[|lines| - 1])
  }

  function ApplyEntry(accounts: Accounts, cache: Cache, e: JournalEntry): (r: Cache) {
    if AffectsBalance(e.status) then ApplyLines(accounts, cache, e.lines) else cache
  }

  function ApplyEntries(accounts: Accounts, cache: Cache, es: seq<JournalEntry>): (r: Cache) {
    if es == [] then cache
    else ApplyEntry(accounts, ApplyEntries(accounts, cache, es[..|es| - 1]), es[|es| - 1])
  }

  lemma {:induction false} ApplyLinesBalance(accounts: Accounts, cache: Cache, lines: seq<JournalLine>, a: Uuid)
    ensures Balance(ApplyLines(accounts, cache, lines), a) == Balance(cache, a) +
      (if a in accounts then CacheSign(accounts[a].accountType) * NetDebit(lines, a) else 0)
  {
    if lines == [] {
    } else {
      ApplyLinesBalance(accounts, cache, lines[..|lines| - 1], a);
    }
  }

  lemma {:induction false} ApplyEntryBalance(accounts: Accounts, cache: Cache, e: JournalEntry, a: Uuid)
    ensures Balance(ApplyEntry(accounts, cache, e), a) == Balance(cache, a) +
      (if a in accounts then CacheSign(accounts[a].accountType) * Effect(e, a) else 0)
  {
    ApplyLinesBalance(accounts, cache, e.lines, a);
  }

  /** The running cache is the signed net of the entries folded into it. */
  lemma {:induction false} ApplyEntriesBalance(accounts: Accounts, cache: Cache, es: seq<JournalEntry>, a: Uuid)
    ensures Balance(ApplyEntries(accounts, cache, es), a) == Balance(cache, a) +
      (if a in accounts then CacheSign(accounts[a].accountType) * Net(es, a) else 0)
  {
    if es == [] {
    } else {
      ApplyEntriesBalance(accounts, cache, es[..|es| - 1], a);
      ApplyEntryBalance(accounts, ApplyEntries(accounts, cache, es[..|es| - 1]), es[|es| - 1], a);
    }
  }

  predicate LinesKnown(accounts: Accounts, lines: seq<JournalLine>) {
    forall i :: 0 <= i < |lines| ==> lines[i].accountId in accounts
  }

  predicate EntriesKnown(accounts: Accounts, es: seq<JournalEntry>) {
    forall i :: 0 <= i < |es| ==> LinesKnown(accounts, es[i].lines)
  }
}
