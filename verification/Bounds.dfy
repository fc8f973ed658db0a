/** The size of every cached balance, and of every sum and difference taken of them. */
module Bounds {
  import opened Bytes
  import opened Entries
  import opened Balances
  import opened Ledger
  import opened History
  import opened Totals
  import opened Reports

  const TWO_126: nat := TWO_63 * TWO_63

  ghost function CachedEffects(accounts: Accounts, e: JournalEntry): (r: Uuid -> int) {
    (a: Uuid) => CachedEffect(accounts, e, a)
  }

  ghost function HistoryNets(epochs: seq<Accounts>, rows: seq<JournalEntry>): (r: Uuid -> int)
    requires |epochs| == |rows|
  {
    (a: Uuid) => HistoryNet(epochs, rows, a)
  }

  lemma {:induction false} CachedEffectsBound(ids: set<Uuid>, accounts: Accounts, e: JournalEntry)
    ensures Sum(ids, AbsOf(CachedEffects(accounts, e))) <= |e.lines| * TWO_63
  {
    forall a | a in ids ensures AbsOf(CachedEffects(accounts, e))(a) <= AbsOf(Effects(e))(a) {
      if a in accounts {
        SignTimes(CacheSign(accounts[a].accountType), Effect(e, a));
      }
    }
    SumAtMost(ids, AbsOf(CachedEffects(accounts, e)), AbsOf(Effects(e)));
    EffectsBound(ids, e);
  }

  /** Whatever signs the entries were counted with, each line adds at most 2^63 in all. */
  lemma {:induction false} HistoryBound(ids: set<Uuid>, epochs: seq<Accounts>, rows: seq<JournalEntry>)
    requires |epochs| == |rows|
    ensures Sum(ids, AbsOf(HistoryNets(epochs, rows))) <= LineCount(rows) * TWO_63
  {
    if rows == [] {
      SumConstant(ids, AbsOf(HistoryNets(epochs, rows)));
    } else {
      var n := |rows| - 1;
      HistoryBound(ids, epochs[..n], rows[..n]);
      CachedEffectsBound(ids, epochs[n], rows[n]);
      SumTriangle(ids, HistoryNets(epochs[..n], rows[..n]), CachedEffects(epochs[n], rows[n]),
                  HistoryNets(epochs, rows));
      Distribute(TWO_63, LineCount(rows[..n]), |rows[n].lines|);
    }
  }

  lemma {:induction false} CountIsSmall(n: nat)
    requires n < TWO_63
    ensures n * TWO_63 < TWO_126 && 2 * TWO_126 == TWO_127
  {
    assert n * TWO_63 <= (TWO_63 - 1) * TWO_63;
  }

  ghost function CachedBalances(cache: Cache): (r: Uuid -> int) {
    (a: Uuid) => Balance(cache, a)
  }

  lemma {:induction false} CacheBound(k: Sealer, ops: seq<Op>, ids: set<Uuid>)
    requires LineCount(Run(k, EMPTY, ops).index.rows) < TWO_63
    ensures Sum(ids, AbsOf(CachedBalances(Run(k, EMPTY, ops).cache))) < TWO_126
  {
    var s, epochs := Run(k, EMPTY, ops), Epochs(k, EMPTY, ops);
    RunFollows(k, ops);
    HistoryBound(ids, epochs, s.index.rows);
    CountIsSmall(LineCount(s.index.rows));
    forall a | a in ids ensures AbsOf(CachedBalances(s.cache))(a) <= AbsOf(HistoryNets(epochs, s.index.rows))(a) {
      ApplyHistoryBalance(epochs, map[], s.index.rows, a);
    }
    SumAtMost(ids, AbsOf(CachedBalances(s.cache)), AbsOf(HistoryNets(epochs, s.index.rows)));
  }

  lemma {:induction false} CachedBalanceBound(k: Sealer, ops: seq<Op>, a: Uuid)
    requires LineCount(Run(k, EMPTY, ops).index.rows) < TWO_63
    ensures Abs(Balance(Run(k, EMPTY, ops).cache, a)) < TWO_126
  {
    CacheBound(k, ops, {a});
    SumSingle({a}, AbsOf(CachedBalances(Run(k, EMPTY, ops).cache)), a);
  }

  lemma {:induction false} RecomputedBound(accounts: Accounts, rows: seq<JournalEntry>, a: Uuid)
    requires LineCount(rows) < TWO_63
    ensures Abs(Recomputed(accounts, rows, a)) < TWO_126
  {
    NetBound(rows, a);
    CountIsSmall(LineCount(rows));
    if a in accounts {
      SignTimes(NormalBalanceSign(accounts[a].accountType), Net(rows, a));
    }
  }

  /** For every run with fewer than 2^63 lines, whatever records accounts were filed under: no cached balance,
      no reconciliation delta and no sum of cached balances, signed in any way, over any set of accounts
      leaves i128. Since the run is arbitrary this covers every partial sum as well. */
  lemma {:induction false} NoCachedSumOverflows(k: Sealer, ops: seq<Op>, ids: set<Uuid>, a: Uuid, signed: Uuid -> int)
    requires LineCount(Run(k, EMPTY, ops).index.rows) < TWO_63
    requires forall x :: x in ids ==> Abs(signed(x)) == Abs(Balance(Run(k, EMPTY, ops).cache, x))
    ensures
      var s := Run(k, EMPTY, ops);
      && Abs(Balance(s.cache, a)) < TWO_126
      && Abs(Recomputed(s.accounts, s.index.rows, a) - Balance(s.cache, a)) < TWO_127
      && Abs(Sum(ids, signed)) < TWO_126
  {
    var s := Run(k, EMPTY, ops);
    CachedBalanceBound(k, ops, a);
    RecomputedBound(s.accounts, s.index.rows, a);
    CountIsSmall(0);
    CacheBound(k, ops, ids);
    SumTriangle(ids, signed, (x: Uuid) => 0, signed);
    SumConstant(ids, AbsOf((x: Uuid) => 0));
    SumAtMost(ids, AbsOf(signed), AbsOf(CachedBalances(s.cache)));
  }
}
