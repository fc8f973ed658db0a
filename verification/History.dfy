/** The cache of any run: each entry counts with the sign its accounts had when it was appended. */
module History {
  import opened Bytes
  import opened Entries
  import opened Balances
  import opened Ledger
  import opened Invariants

  /** The account records in force at each append of a run, in order. */
  function Epochs(k: Sealer, s: State, ops: seq<Op>): (r: seq<Accounts>) {
    if ops == [] then []
    else
      var front, op := ops[..|ops| - 1], ops[|ops| - 1];
      var before := Run(k, s, front);
      Epochs(k, s, front) + (if Appended(k, before, op).Some? then [before.accounts] else [])
  }

  /** Folds entries into a cache, each under its own account records. */
  function ApplyHistory(epochs: seq<Accounts>, cache: Cache, es: seq<JournalEntry>): (r: Cache)
    requires |epochs| == |es|
  {
    if es == [] then cache
    else
      var n := |es| - 1;
      ApplyEntry(epochs[n], ApplyHistory(epochs[..n], cache, es[..n]), es[n])
  }

  /** What one entry added to the cached balance of an account. */
  function CachedEffect(accounts: Accounts, e: JournalEntry, a: Uuid): (r: int) {
    if a in accounts then CacheSign(accounts[a].accountType) * Effect(e, a) else 0
  }

  function HistoryNet(epochs: seq<Accounts>, es: seq<JournalEntry>, a: Uuid): (r: int)
    requires |epochs| == |es|
  {
    if es == [] then 0
    else
      var n := |es| - 1;
      HistoryNet(epochs[..n], es[..n], a) + CachedEffect(epochs[n], es[n], a)
  }

  /** Net of the entries that were counted with another sign than `sign`. */
  function Missigned(epochs: seq<Accounts>, es: seq<JournalEntry>, sign: int, a: Uuid): (r: int)
    requires |epochs| == |es|
  {
    if es == [] then 0
    else
      var n := |es| - 1;
      Missigned(epochs[..n], es[..n], sign, a) +
      (if a in epochs[n] && CacheSign(epochs[n][a].accountType) != sign then Effect(es[n], a) else 0)
  }

  lemma {:induction false} ApplyHistorySnoc(epochs: seq<Accounts>, cache: Cache, es: seq<JournalEntry>,
                                            accounts: Accounts, e: JournalEntry)
    requires |epochs| == |es|
    ensures ApplyHistory(epochs + [accounts], cache, es + [e]) ==
      ApplyEntry(accounts, ApplyHistory(epochs, cache, es), e)
  {
    assert (epochs + [accounts])[..|es|] == epochs && (es + [e])[..|es|] == es;
  }

  lemma {:induction false} ApplyHistoryBalance(epochs: seq<Accounts>, cache: Cache, es: seq<JournalEntry>, a: Uuid)
    requires |epochs| == |es|
    ensures Balance(ApplyHistory(epochs, cache, es), a) == Balance(cache, a) + HistoryNet(epochs, es, a)
  {
    if es == [] {
    } else {
      var n := |es| - 1;
      ApplyHistoryBalance(epochs[..n], cache, es[..n], a);
      ApplyEntryBalance(epochs[n], ApplyHistory(epochs[..n], cache, es[..n]), es[n], a);
    }
  }

  lemma {:induction false} HistoryNetConcat(
    e1: seq<Accounts>, es1: seq<JournalEntry>, e2: seq<Accounts>, es2: seq<JournalEntry>, a: Uuid)
    requires |e1| == |es1| && |e2| == |es2|
    ensures HistoryNet(e1 + e2, es1 + es2, a) == HistoryNet(e1, es1, a) + HistoryNet(e2, es2, a)
    decreases |es2|
  {
    if es2 == [] {
      assert e1 + e2 == e1 && es1 + es2 == es1;
    } else {
      var n := |es2| - 1;
      var m := |es1| + n;
      assert (e1 + e2)[..m] == e1 + e2[..n] && (es1 + es2)[..m] == es1 + es2[..n];
      HistoryNetConcat(e1, es1, e2[..n], es2[..n], a);
    }
  }

  /** Entries touch only accounts that were known at the time. */
  predicate KnownThen(epochs: seq<Accounts>, es: seq<JournalEntry>) {
    |epochs| == |es| && forall i :: 0 <= i < |es| ==> LinesKnown(epochs[i], es[i].lines)
  }

  lemma {:induction false} UnknownEffect(accounts: Accounts, e: JournalEntry, a: Uuid)
    requires LinesKnown(accounts, e.lines) && a !in accounts
    ensures Effect(e, a) == 0
  {
    UntouchedNet(e.lines, a);
  }

  lemma {:induction false} SignTimes(sign: int, x: int)
    requires sign == 1 || sign == -1
    ensures sign * x == if sign == 1 then x else -x
  {
  }

  /** Counting with the signs of the time and counting with one sign differ by twice what was counted otherwise. */
  lemma {:induction false} MissignedIsTheDifference(epochs: seq<Accounts>, es: seq<JournalEntry>, sign: int, a: Uuid)
    requires KnownThen(epochs, es) && (sign == 1 || sign == -1)
    ensures HistoryNet(epochs, es, a) ==
      if sign == 1 then Net(es, a) - 2 * Missigned(epochs, es, sign, a)
      else 2 * Missigned(epochs, es, sign, a) - Net(es, a)
  {
    if es == [] {
    } else {
      var n := |es| - 1;
      assert LinesKnown(epochs[n], es[n].lines);
      MissignedIsTheDifference(epochs[..n], es[..n], sign, a);
      if a in epochs[n] {
        SignTimes(CacheSign(epochs[n][a].accountType), Effect(es[n], a));
      } else {
        UnknownEffect(epochs[n], es[n], a);
      }
    }
  }

  /** The cache of a state is its journal folded up under these records. */
  ghost predicate CacheFollows(epochs: seq<Accounts>, s: State) {
    && KnownThen(epochs, s.index.rows)
    && s.cache == ApplyHistory(epochs, map[], s.index.rows)
  }

  lemma {:induction false} StepFollows(k: Sealer, s: State, op: Op, epochs: seq<Accounts>)
    requires Inv(s) && CacheFollows(epochs, s)
    ensures CacheFollows(epochs + (if Appended(k, s, op).Some? then [s.accounts] else []), Step(k, s, op))
  {
    if Appended(k, s, op).Some? {
      JournalGrows(k, s, op);
      StepAppends(k, s, op);
      AppendedFits(k, s, op);
      ApplyHistorySnoc(epochs, map[], s.index.rows, s.accounts, Appended(k, s, op).value);
    } else {
      StepDoesNotAppend(k, s, op);
      assert epochs + [] == epochs;
    }
  }

  /** For every run, the cache is the journal folded up with the signs of the time. */
  lemma {:induction false} RunFollows(k: Sealer, ops: seq<Op>)
    ensures Inv(Run(k, EMPTY, ops)) && CacheFollows(Epochs(k, EMPTY, ops), Run(k, EMPTY, ops))
  {
    EmptyHasInv();
    RunKeepsInv(k, EMPTY, ops);
    if ops == [] {
    } else {
      RunFollows(k, ops[..|ops| - 1]);
      StepFollows(k, Run(k, EMPTY, ops[..|ops| - 1]), ops[|ops| - 1], Epochs(k, EMPTY, ops[..|ops| - 1]));
    }
  }

  /** What was counted on the other side than the account's final record counts. */
  function MissignedInRun(k: Sealer, ops: seq<Op>, a: Uuid): (r: int)
    requires a in Run(k, EMPTY, ops).accounts && |Epochs(k, EMPTY, ops)| == |Run(k, EMPTY, ops).index.rows|
  {
    var s := Run(k, EMPTY, ops);
    Missigned(Epochs(k, EMPTY, ops), s.index.rows, CacheSign(s.accounts[a].accountType), a)
  }

  lemma {:induction false} CachedBalanceIs(k: Sealer, ops: seq<Op>, a: Uuid)
    requires a in Run(k, EMPTY, ops).accounts
    ensures |Epochs(k, EMPTY, ops)| == |Run(k, EMPTY, ops).index.rows|
    ensures
      var s, m := Run(k, EMPTY, ops), MissignedInRun(k, ops, a);
      Balance(s.cache, a) ==
        if CacheSign(s.accounts[a].accountType) == 1 then Net(s.index.rows, a) - 2 * m else 2 * m - Net(s.index.rows, a)
  {
    var s, epochs := Run(k, EMPTY, ops), Epochs(k, EMPTY, ops);
    RunFollows(k, ops);
    ApplyHistoryBalance(epochs, map[], s.index.rows, a);
    MissignedIsTheDifference(epochs, s.index.rows, CacheSign(s.accounts[a].accountType), a);
  }

  /** For every run, a cached balance is the signed sum over the journal exactly when the entries counted
      on the other side net to zero on the account. */
  lemma {:induction false} CachedBalance(k: Sealer, ops: seq<Op>, a: Uuid)
    requires a in Run(k, EMPTY, ops).accounts
    ensures |Epochs(k, EMPTY, ops)| == |Run(k, EMPTY, ops).index.rows|
    ensures
      var s := Run(k, EMPTY, ops);
      Balance(s.cache, a) == JournalBalance(s.accounts, s.index.rows, a) <==> MissignedInRun(k, ops, a) == 0
  {
    var s := Run(k, EMPTY, ops);
    CachedBalanceIs(k, ops, a);
    SignTimes(CacheSign(s.accounts[a].accountType), Net(s.index.rows, a));
  }
}
