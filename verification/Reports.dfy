/** The ledger equation, reconciliation and the amounts the currency check admits. */
module Reports {
  import opened Bytes
  import opened Entries
  import opened Balances
  import opened Ledger
  import opened Invariants
  import opened History
  import opened Totals
  import opened Transfers

  // ---- The ledger equation ----

  /** What one account adds to the total of the accounts of some types. */
  function Contribution(account: Account, cache: Cache, types: set<AccountType>): (r: int) {
    if account.accountType in types then Balance(cache, account.id) else 0
  }

  ghost function TypeBalances(accounts: Accounts, cache: Cache, types: set<AccountType>): (r: Uuid -> int) {
    (a: Uuid) => if a in accounts then Contribution(accounts[a], cache, types) else 0
  }

  lemma {:induction false} TakeOne(rest: set<Uuid>, accounts: Accounts, cache: Cache, types: set<AccountType>, a: Uuid)
    requires a in rest && a in accounts
    ensures Sum(rest, TypeBalances(accounts, cache, types))
         == Contribution(accounts[a], cache, types) + Sum(rest - {a}, TypeBalances(accounts, cache, types))
  {
    SumRemove(rest, TypeBalances(accounts, cache, types), a);
  }

  /** Total cached balance of the accounts of some types. */
  ghost function TypeTotal(accounts: Accounts, cache: Cache, types: set<AccountType>): (r: int) {
    Sum(accounts.Keys, TypeBalances(accounts, cache, types))
  }

  method AddAccount(account: Account, cache: Cache, debits: int, credits: int) returns (debits': int, credits': int)
    ensures debits' == debits + Contribution(account, cache, {Asset, Expense})
    ensures credits' == credits + Contribution(account, cache, {Liability, Equity, Income})
  {
    debits', credits' := debits, credits;
    var balance := Balance(cache, account.id);
    match account.accountType {
      case Asset => debits' := debits + balance;
      case Expense => debits' := debits + balance;
      case Liability => credits' := credits + balance;
      case Equity => credits' := credits + balance;
      case Income => credits' := credits + balance;
      case Contra =>
      case Suspense =>
    }
  }

  /** Adds up the two sides, in whatever order the account map yields its values. */
  method CheckFinancialInvariants(accounts: Accounts, cache: Cache) returns (imbalance: Option<(int, int)>)
    ensures
      var debits, credits :=
        TypeTotal(accounts, cache, {Asset, Expense}), TypeTotal(accounts, cache, {Liability, Equity, Income});
      imbalance == if debits == credits then None else Some((debits, credits))
  {
    var debitNormalSum, creditNormalSum := 0, 0;
    var rest := accounts.Keys;
    while rest != {}
      invariant rest <= accounts.Keys
      invariant debitNormalSum + Sum(rest, TypeBalances(accounts, cache, {Asset, Expense})) ==
        TypeTotal(accounts, cache, {Asset, Expense})
      invariant creditNormalSum + Sum(rest, TypeBalances(accounts, cache, {Liability, Equity, Income})) ==
        TypeTotal(accounts, cache, {Liability, Equity, Income})
      decreases |rest|
    {
      var a :| a in rest;
      TakeOne(rest, accounts, cache, {Asset, Expense}, a);
      TakeOne(rest, accounts, cache, {Liability, Equity, Income}, a);
      debitNormalSum, creditNormalSum := AddAccount(accounts[a], cache, debitNormalSum, creditNormalSum);
      rest := rest - {a};
    }
    imbalance := if debitNormalSum != creditNormalSum then Some((debitNormalSum, creditNormalSum)) else None;
  }

  /** Cached balances turned back into net debits. */
  ghost function CachedNets(accounts: Accounts, cache: Cache): (r: Uuid -> int) {
    (a: Uuid) => if a !in accounts then 0
                 else if DebitNormal(accounts[a].accountType) then Balance(cache, a) else -Balance(cache, a)
  }

  /** Whatever the cache holds, the two sides differ by the Contra and Suspense balances and by what the
      cached net debits fail to cancel. */
  lemma {:induction false} SidesDiffer(s: State)
    requires HoldsOk(s.accounts, s.holds)
    ensures
      TypeTotal(s.accounts, s.cache, {Asset, Expense}) - TypeTotal(s.accounts, s.cache, {Liability, Equity, Income}) ==
      TypeTotal(s.accounts, s.cache, {Contra, Suspense}) + Sum(s.accounts.Keys, CachedNets(s.accounts, s.cache))
  {
    var ids := s.accounts.Keys;
    var d := TypeBalances(s.accounts, s.cache, {Asset, Expense});
    var c := TypeBalances(s.accounts, s.cache, {Liability, Equity, Income});
    var x := TypeBalances(s.accounts, s.cache, {Contra, Suspense});
    var dc: Uuid -> int := (a: Uuid) => d(a) - c(a);
    var nets := CachedNets(s.accounts, s.cache);
    assert forall a :: a in ids ==> dc(a) == x(a) + 1 * nets(a);
    SumLinear(ids, x, nets, dc, 1);
    SumLinear(ids, d, c, dc, -1);
  }

  /** What each account counted on the other side than its final record counts. */
  ghost function MissignedNets(k: Sealer, ops: seq<Op>): (r: Uuid -> int) {
    (a: Uuid) =>
      if a in Run(k, EMPTY, ops).accounts && |Epochs(k, EMPTY, ops)| == |Run(k, EMPTY, ops).index.rows|
      then MissignedInRun(k, ops, a) else 0
  }

  lemma {:induction false} CachedNetsInRun(k: Sealer, ops: seq<Op>)
    ensures
      var s := Run(k, EMPTY, ops);
      Sum(s.accounts.Keys, CachedNets(s.accounts, s.cache)) == -2 * Sum(s.accounts.Keys, MissignedNets(k, ops))
  {
    var s := Run(k, EMPTY, ops);
    var ids, nets := s.accounts.Keys, CachedNets(s.accounts, s.cache);
    RunFollows(k, ops);
    JournalNetsToZero(s.accounts, s.index.rows);
    forall a | a in ids ensures nets(a) == Nets(s.index.rows)(a) + -2 * MissignedNets(k, ops)(a) {
      CachedBalanceIs(k, ops, a);
    }
    SumLinear(ids, Nets(s.index.rows), MissignedNets(k, ops), nets, -2);
  }

  /** For every run, the Asset and Expense balances exceed the Liability, Equity and Income balances by exactly
      the Contra and Suspense balances, less twice what was counted on the other side than the final records
      count; so the check succeeds exactly when those two agree. */
  lemma {:induction false} EquationInRun(k: Sealer, ops: seq<Op>)
    ensures
      var s := Run(k, EMPTY, ops);
      var debits := TypeTotal(s.accounts, s.cache, {Asset, Expense});
      var credits := TypeTotal(s.accounts, s.cache, {Liability, Equity, Income});
      var others, twice := TypeTotal(s.accounts, s.cache, {Contra, Suspense}),
                           2 * Sum(s.accounts.Keys, MissignedNets(k, ops));
      debits - credits == others - twice && (debits == credits <==> others == twice)
  {
    EmptyHasInv();
    RunKeepsInv(k, EMPTY, ops);
    SidesDiffer(Run(k, EMPTY, ops));
    CachedNetsInRun(k, ops);
  }

  /** Where the cache is the signed sum over the journal, they differ by exactly the Contra and Suspense balances,
      so the check succeeds exactly when those cancel out. */
  lemma {:induction false} EquationDiffersByExcluded(s: State)
    requires Inv(s) && CacheOk(s)
    ensures
      var debits := TypeTotal(s.accounts, s.cache, {Asset, Expense});
      var credits := TypeTotal(s.accounts, s.cache, {Liability, Equity, Income});
      var others := TypeTotal(s.accounts, s.cache, {Contra, Suspense});
      debits - credits == others && (debits == credits <==> others == 0)
  {
    var ids, nets := s.accounts.Keys, CachedNets(s.accounts, s.cache);
    SidesDiffer(s);
    JournalNetsToZero(s.accounts, s.index.rows);
    forall a | a in ids ensures nets(a) == Nets(s.index.rows)(a) + 0 * nets(a) {
      assert Balance(s.cache, a) == JournalBalance(s.accounts, s.index.rows, a);
    }
    SumLinear(ids, Nets(s.index.rows), nets, nets, 0);
  }

  // ---- Reconciliation ----

  /** Balance as reconciliation recomputes it: with the sign of `NormalBalanceSign`. */
  function Recomputed(accounts: Accounts, rows: seq<JournalEntry>, a: Uuid): (r: int) {
    if a in accounts then NormalBalanceSign(accounts[a].accountType) * Net(rows, a) else 0
  }

  function SignedNet(accounts: Accounts, lines: seq<JournalLine>, a: Uuid): (r: int) {
    if a in accounts then NormalBalanceSign(accounts[a].accountType) * NetDebit(lines, a) else 0
  }

  method RecomputeLines(accounts: Accounts, start: Cache, lines: seq<JournalLine>) returns (recomputed: Cache)
    ensures forall a ::
      Balance(recomputed, a) == Balance(start, a) + SignedNet(accounts, lines, a)
  {
    recomputed := start;
    for k := 0 to |lines|
      invariant forall a ::
        Balance(recomputed, a) == Balance(start, a) + SignedNet(accounts, lines[..k], a)
    {
      var line := lines[k];
      assert lines[..k + 1][..k] == lines[..k];
      if line.accountId in accounts {
        var sign := NormalBalanceSign(accounts[line.accountId].accountType);
        var delta := if line.drCr.Debit? then line.amount * sign else -(line.amount as int) * sign;
        recomputed := recomputed[line.accountId := Balance(recomputed, line.accountId) + delta];
      }
    }
    assert lines[..|lines|] == lines;
  }

  method Recompute(accounts: Accounts, rows: seq<JournalEntry>) returns (recomputed: Cache)
    ensures forall a :: Balance(recomputed, a) == Recomputed(accounts, rows, a)
  {
    recomputed := map[];
    for k := 0 to |rows|
      invariant forall a :: Balance(recomputed, a) == Recomputed(accounts, rows[..k], a)
    {
      assert rows[..k + 1][..k] == rows[..k];
      if AffectsBalance(rows[k].status) {
        recomputed := RecomputeLines(accounts, recomputed, rows[k].lines);
      }
    }
    assert rows[..|rows|] == rows;
  }

  datatype Discrepancy = Discrepancy(account: Uuid, code: Str, cached: int, recomputed: int, delta: int)

  predicate Discrepant(accounts: Accounts, cache: Cache, rows: seq<JournalEntry>, a: Uuid) {
    Balance(cache, a) != Recomputed(accounts, rows, a)
  }

  /** The account, under its code if it is known, with both balances and the recomputed one less the cached one. */
  predicate Describes(accounts: Accounts, cache: Cache, rows: seq<JournalEntry>, d: Discrepancy) {
    && d.cached == Balance(cache, d.account) && d.recomputed == Recomputed(accounts, rows, d.account)
    && d.delta == d.recomputed - d.cached != 0
    && d.code == if d.account in accounts then accounts[d.account].code else UuidText(d.account)
  }

  predicate Listed(ds: seq<Discrepancy>, a: Uuid) {
    exists i :: 0 <= i < |ds| && ds[i].account == a
  }

  /** `ds` reports, once each, exactly the discrepant accounts among `seen`. */
  predicate IsReport(accounts: Accounts, cache: Cache, rows: seq<JournalEntry>, seen: set<Uuid>, ds: seq<Discrepancy>) {
    && (forall i :: 0 <= i < |ds| ==> ds[i].account in seen && Describes(accounts, cache, rows, ds[i]))
    && (forall i, j :: 0 <= i < j < |ds| ==> ds[i].account != ds[j].account)
    && (forall a :: a in seen && Discrepant(accounts, cache, rows, a) ==> Listed(ds, a))
  }

  lemma {:induction false} ReportGrows(accounts: Accounts, cache: Cache, rows: seq<JournalEntry>, seen: set<Uuid>,
                                       ds: seq<Discrepancy>, d: Discrepancy)
    requires IsReport(accounts, cache, rows, seen, ds) && d.account !in seen && Describes(accounts, cache, rows, d)
    ensures IsReport(accounts, cache, rows, seen + {d.account}, ds + [d])
  {
    var more := ds + [d];
    assert more[|ds|] == d;
    forall a | a in seen + {d.account} && Discrepant(accounts, cache, rows, a) ensures Listed(more, a) {
      if a in seen {
        var i :| 0 <= i < |ds| && ds[i].account == a;
        assert more[i] == ds[i];
      }
    }
  }

  /** Reports every account whose cached balance differs from the recomputed one. */
  method Reconcile(accounts: Accounts, cache: Cache, rows: seq<JournalEntry>) returns (ds: seq<Discrepancy>)
    ensures IsReport(accounts, cache, rows, accounts.Keys + cache.Keys, ds)
  {
    var recomputed := Recompute(accounts, rows);
    ds := [];
    var all := accounts.Keys + cache.Keys;
    var seen: set<Uuid> := {};
    while seen != all
      invariant seen <= all
      invariant IsReport(accounts, cache, rows, seen, ds)
      decreases |all - seen|
    {
      var a :| a in all - seen;
      ds := ReportOne(accounts, cache, rows, seen, Balance(recomputed, a), ds, a);
      assert all - (seen + {a}) == all - seen - {a};
      seen := seen + {a};
    }
  }

  method ReportOne(accounts: Accounts, cache: Cache, ghost rows: seq<JournalEntry>, ghost seen: set<Uuid>,
                   computed: int, ds: seq<Discrepancy>, a: Uuid) returns (ds': seq<Discrepancy>)
    requires IsReport(accounts, cache, rows, seen, ds) && a !in seen && computed == Recomputed(accounts, rows, a)
    ensures IsReport(accounts, cache, rows, seen + {a}, ds')
  {
    ds' := ds;
    var cached := Balance(cache, a);
    if cached != computed {
      var code := if a in accounts then accounts[a].code else UuidText(a);
      var d := Discrepancy(a, code, cached, computed, computed - cached);
      ReportGrows(accounts, cache, rows, seen, ds, d);
      ds' := ds + [d];
    }
  }

  /** For every run, the delta reconciliation finds on an account: twice what was counted on the other side
      than its final record counts, signed; and on a Suspense account twice the rest of its net. An account
      is reported exactly when its delta is not zero. */
  lemma {:induction false} ReconcileInRun(k: Sealer, ops: seq<Op>, a: Uuid)
    requires a in Run(k, EMPTY, ops).accounts
    ensures |Epochs(k, EMPTY, ops)| == |Run(k, EMPTY, ops).index.rows|
    ensures
      var s, m := Run(k, EMPTY, ops), MissignedInRun(k, ops, a);
      var delta := Recomputed(s.accounts, s.index.rows, a) - Balance(s.cache, a);
      && (Discrepant(s.accounts, s.cache, s.index.rows, a) <==> delta != 0)
      && delta == if s.accounts[a].accountType.Suspense? then 2 * (Net(s.index.rows, a) - m)
                  else if DebitNormal(s.accounts[a].accountType) then 2 * m else -2 * m
  {
    CachedBalanceIs(k, ops, a);
  }

  /** Where the cache is the signed sum over the journal, reconciliation reports exactly the Suspense
      accounts with a cached balance, each with a delta of minus twice that balance. */
  lemma {:induction false} ReconcileReportsSuspense(s: State, a: Uuid)
    requires CacheOk(s)
    ensures Discrepant(s.accounts, s.cache, s.index.rows, a) <==>
            a in s.accounts && s.accounts[a].accountType.Suspense? && Balance(s.cache, a) != 0
    ensures Discrepant(s.accounts, s.cache, s.index.rows, a) ==>
            Recomputed(s.accounts, s.index.rows, a) - Balance(s.cache, a) == -2 * Balance(s.cache, a)
  {
    assert Balance(s.cache, a) == JournalBalance(s.accounts, s.index.rows, a);
  }

  // ---- Currency precision ----

  function Pow10(e: nat): (r: nat) {
    if e == 0 then 1 else 10 * Pow10(e - 1)
  }

  lemma {:induction false} Pow10Values()
    ensures Pow10(18) == 1_000_000_000_000_000_000 && Pow10(19) == 10_000_000_000_000_000_000
  {
    assert Pow10(2) == 100;
    assert Pow10(4) == 100 * Pow10(2) && Pow10(6) == 100 * Pow10(4) && Pow10(8) == 100 * Pow10(6);
    assert Pow10(10) == 100 * Pow10(8) && Pow10(12) == 100 * Pow10(10) && Pow10(14) == 100 * Pow10(12);
    assert Pow10(16) == 100 * Pow10(14) && Pow10(18) == 100 * Pow10(16) && Pow10(19) == 10 * Pow10(18);
  }

  lemma {:induction false} Pow10Adds(d: nat, e: nat)
    ensures Pow10(d) * Pow10(e) == Pow10(d + e)
    decreases d
  {
    if d == 0 {
    } else {
      Pow10Adds(d - 1, e);
      assert Pow10(d) * Pow10(e) == 10 * (Pow10(d - 1) * Pow10(e));
    }
  }

  lemma {:induction false} Pow10Grows(e: nat, f: nat)
    requires e <= f
    ensures 1 <= Pow10(e) <= Pow10(f)
    decreases f
  {
    if f == 0 {
    } else if e < f {
      Pow10Grows(e, f - 1);
    } else {
      Pow10Grows(e - 1, f - 1);
    }
  }

  /** Saturation sets in at 10^19. */
  lemma {:induction false} SaturatingPow10Is(e: nat)
    ensures SaturatingPow10(e) == if e <= 18 then Pow10(e) else MAX_I64
  {
    Pow10Values();
    if e == 0 {
    } else {
      SaturatingPow10Is(e - 1);
      if e <= 18 {
        Pow10Grows(e, 18);
      }
    }
  }

  /** The bound is 10^18 for every precision up to 18, and no bound at all beyond. */
  lemma {:induction false} MaxMinorIs(precision: nat)
    ensures MaxMinor(precision) == if precision <= 18 then 1_000_000_000_000_000_000 else MAX_I64
  {
    Pow10Values();
    SaturatingPow10Is(precision);
    if precision <= 18 {
      SaturatingPow10Is(18 - precision);
      Pow10Adds(18 - precision, precision);
    } else {
      SaturatingPow10Is(0);
    }
  }

  /** In a registered currency of precision up to 18, the check refuses exactly the amounts beyond 10^18 in
      magnitude other than the least i64, whose absolute value wraps. */
  lemma {:induction false} PrecisionRefuses(reg: Registry, l: JournalLine)
    requires l.currencyCode in reg && reg[l.currencyCode] <= 18
    ensures ExceedsPrecision(reg, l) <==>
      l.amount != -(TWO_63 as int) && !(-1_000_000_000_000_000_000 <= l.amount <= 1_000_000_000_000_000_000)
  {
    MaxMinorIs(reg[l.currencyCode]);
  }

  /** So the lines of an accepted entry are within 10^18, or are the least i64. */
  lemma {:induction false} AcceptedAmounts(s: State, reg: Registry, e: JournalEntry, i: nat)
    requires Accepts(s, reg, e) && i < |e.lines|
    requires e.lines[i].currencyCode in reg && reg[e.lines[i].currencyCode] <= 18
    ensures e.lines[i].amount == -(TWO_63 as int) ||
            -1_000_000_000_000_000_000 <= e.lines[i].amount <= 1_000_000_000_000_000_000
  {
    PrecisionRefuses(reg, e.lines[i]);
    assert LineError(s.accounts, reg, e, e.lines[i]).None?;
  }

  /** Both lines carry the least i64. */
  predicate LeastAmounts(e: JournalEntry, to: Uuid, from: Uuid, currency: Str) {
    IsTransfer(e, to, from, -(TWO_63 as int), currency)
  }

  /** An entry of the least amount between unguarded accounts is accepted, whatever the registry says. */
  lemma {:induction false} LeastAmountIsAccepted(
    s: State, reg: Registry, e: JournalEntry, to: Uuid, from: Uuid, currency: Str)
    requires LeastAmounts(e, to, from, currency) && !KeyAlreadyPosted(s.index.rows, e)
    requires Usable(s.accounts, to, currency) && Usable(s.accounts, from, currency)
    requires !Guarded(s.accounts[to]) && !Guarded(s.accounts[from])
    ensures Accepts(s, reg, e)
  {
    TransferWellFormed(e, to, from, -(TWO_63 as int), currency);
    forall i | 0 <= i < |e.lines| ensures LineError(s.accounts, reg, e, e.lines[i]).None? {
      assert i == 0 || i == 1;
      if currency in reg {
        MaxMinorIs(reg[currency]);
      }
    }
    forall a | a in s.accounts && Touches(e, a) ensures AccountError(a, s.accounts[a], s.cache, e).None? {
      assert a == to || a == from;
    }
  }
}
