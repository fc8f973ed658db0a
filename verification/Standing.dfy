/** A balance is the sum of what stands: the entries that neither were reversed nor reverse another. */
module Standing {
  import opened Bytes
  import opened Entries
  import opened Balances
  import opened Ledger
  import opened Invariants
  import opened Chain
  import opened History
  import opened Recovery

  predicate UniqueIds(rows: seq<JournalEntry>) {
    forall i, j :: 0 <= i < j < |rows| ==> rows[i].id != rows[j].id
  }

  predicate HasId(rows: seq<JournalEntry>, id: Uuid) {
    exists i :: 0 <= i < |rows| && rows[i].id == id
  }

  /** The id of an entry that the index records as undoing another. */
  predicate IsReversalId(reversals: map<Uuid, Uuid>, id: Uuid) {
    exists o :: o in reversals && reversals[o] == id
  }

  /** The sequence of the entry undone by an operation, and of the entry it adds, beside those of earlier ones. */
  function NextUndone(k: Sealer, s: State, op: Op, undone: map<nat, nat>): (r: map<nat, nat>) {
    if op.OpReverse? && Appended(k, s, op).Some? then
      undone[FindById(s.index.rows, op.entryId).value.sequence := s.nextSequence]
    else undone
  }

  /** The entries undone by a run, each with the entry that undoes it. */
  function Undone(k: Sealer, s: State, ops: seq<Op>): (r: map<nat, nat>) {
    if ops == [] then map[]
    else NextUndone(k, Run(k, s, ops[..|ops| - 1]), ops[|ops| - 1], Undone(k, s, ops[..|ops| - 1]))
  }

  predicate Undoes(undone: map<nat, nat>, n: nat) {
    exists q :: q in undone && undone[q] == n
  }

  /** Neither undone nor the undoing of another entry. */
  predicate Stands(e: JournalEntry, undone: map<nat, nat>) {
    e.sequence !in undone && !Undoes(undone, e.sequence)
  }

  /** Debits less credits of the standing entries that affect balances, on one account. */
  function StandingNet(rows: seq<JournalEntry>, undone: map<nat, nat>, a: Uuid): (r: int) {
    if rows == [] then 0
    else
      var last := rows[|rows| - 1];
      StandingNet(rows[..|rows| - 1], undone, a) + (if Stands(last, undone) then Effect(last, a) else 0)
  }

  /** A Posted entry and a Reversal entry that names it, with the same lines on the other side. */
  predicate Mirrors(original: JournalEntry, reversal: JournalEntry) {
    && original.status.Posted? && reversal.status.Reversal? && reversal.reversesEntryId == Some(original.id)
    && |reversal.lines| == |original.lines|
    && forall i :: 0 <= i < |original.lines| ==>
         && reversal.lines[i].accountId == original.lines[i].accountId
         && reversal.lines[i].currencyCode == original.lines[i].currencyCode
         && reversal.lines[i].amount == original.lines[i].amount
         && reversal.lines[i].drCr != original.lines[i].drCr
  }

  predicate HasIdAt(rows: seq<JournalEntry>, n: nat, id: Uuid) {
    1 <= n <= |rows| && rows[n - 1].id == id
  }

  /** Entries `q` and `r` of the journal are an original and its reversal, and the index links their ids. */
  predicate IsPair(rows: seq<JournalEntry>, reversals: map<Uuid, Uuid>, q: nat, r: nat) {
    && 1 <= q <= |rows| && 1 <= r <= |rows| && Mirrors(rows[q - 1], rows[r - 1])
    && rows[q - 1].id in reversals && reversals[rows[q - 1].id] == rows[r - 1].id
  }

  predicate AllPairs(rows: seq<JournalEntry>, reversals: map<Uuid, Uuid>, undone: map<nat, nat>) {
    forall q :: q in undone ==> IsPair(rows, reversals, q, undone[q])
  }

  predicate OneToOne(undone: map<nat, nat>) {
    forall q, q' :: q in undone && q' in undone && undone[q] == undone[q'] ==> q == q'
  }

  /** Exactly one entry was undone under each id of the reversal index. */
  ghost predicate OnePerId(rows: seq<JournalEntry>, reversals: map<Uuid, Uuid>, undone: map<nat, nat>) {
    && (forall o :: o in reversals ==> exists q :: q in undone && HasIdAt(rows, q, o))
    && forall q, q', o :: q in undone && q' in undone && HasIdAt(rows, q, o) && HasIdAt(rows, q', o) ==> q == q'
  }

  /** Reversals pair entries of the journal one to one, and the index holds exactly those pairs. */
  ghost predicate Paired(rows: seq<JournalEntry>, reversals: map<Uuid, Uuid>, undone: map<nat, nat>) {
    AllPairs(rows, reversals, undone) && OneToOne(undone) && OnePerId(rows, reversals, undone)
  }

  ghost predicate NetsAgree(rows: seq<JournalEntry>, undone: map<nat, nat>) {
    forall a :: Net(rows, a) == StandingNet(rows, undone, a)
  }

  ghost predicate StandingOk(rows: seq<JournalEntry>, reversals: map<Uuid, Uuid>, undone: map<nat, nat>) {
    Paired(rows, reversals, undone) && NetsAgree(rows, undone)
  }

  // ---- Sums ----

  lemma {:induction false} FlippedNet(lines: seq<JournalLine>, d: ReversalDetails, a: Uuid)
    ensures NetDebit(ReversalLines(lines, d), a) == -NetDebit(lines, a)
  {
    if lines == [] {
    } else {
      var n := |lines| - 1;
      var flipped := ReversalLines(lines, d);
      FlippedNet(lines[..n], d, a);
      assert flipped[..n] == ReversalLines(lines[..n], d);
      assert flipped[n].drCr == Flip(lines[n].drCr) && flipped[n].amount == lines[n].amount;
      assert flipped[n].accountId == lines[n].accountId;
    }
  }

  lemma {:induction false} StandingSnoc(rows: seq<JournalEntry>, e: JournalEntry, undone: map<nat, nat>, a: Uuid)
    ensures StandingNet(rows + [e], undone, a) ==
      StandingNet(rows, undone, a) + (if Stands(e, undone) then Effect(e, a) else 0)
  {
    assert (rows + [e])[..|rows|] == rows;
  }

  lemma {:induction false} PairAdded(undone: map<nat, nat>, q: nat, r: nat, n: nat)
    requires q !in undone
    ensures Undoes(undone[q := r], n) <==> Undoes(undone, n) || n == r
  {
    var more := undone[q := r];
    if Undoes(undone, n) {
      var p :| p in undone && undone[p] == n;
      assert p in more && more[p] == n;
    }
    assert q in more && more[q] == r;
  }

  /** One more reversal takes out of the standing sum exactly the entry reversed. */
  lemma {:induction false} ReversalTakesOut(rows: seq<JournalEntry>, undone: map<nat, nat>, q: nat, r: nat, a: Uuid)
    requires Dense(rows) && q !in undone && !Undoes(undone, q) && 1 <= q && |rows| < r
    ensures StandingNet(rows, undone[q := r], a) ==
      StandingNet(rows, undone, a) - (if q <= |rows| then Effect(rows[q - 1], a) else 0)
  {
    if rows == [] {
    } else {
      var last := rows[|rows| - 1];
      ReversalTakesOut(rows[..|rows| - 1], undone, q, r, a);
      assert last.sequence == |rows|;
      PairAdded(undone, q, r, last.sequence);
    }
  }

  // ---- Steps ----

  lemma {:induction false} UniqueIdsGrow(rows: seq<JournalEntry>, e: JournalEntry)
    requires UniqueIds(rows) && !HasId(rows, e.id)
    ensures UniqueIds(rows + [e])
  {
  }

  lemma {:induction false} ReversalMirrors(k: Sealer, s: State, original: JournalEntry, d: ReversalDetails)
    requires original.status.Posted?
    ensures
      var e := SealReversal(k, s, original, d);
      Mirrors(original, e) && e.lines == ReversalLines(original.lines, d)
  {
    var e := SealReversal(k, s, original, d);
    assert e.lines == ReversalLines(original.lines, d);
    forall i | 0 <= i < |original.lines|
      ensures e.lines[i].accountId == original.lines[i].accountId && e.lines[i].amount == original.lines[i].amount
      ensures e.lines[i].currencyCode == original.lines[i].currencyCode && e.lines[i].drCr != original.lines[i].drCr
    {
      assert e.lines[i] == ReversalLines(original.lines, d)[i];
      FlipIsOther(original.lines[i].drCr);
    }
  }

  /** What a reversal that goes through appends. */
  lemma {:induction false} AppendedReversal(k: Sealer, s: State, op: Op)
    requires op.OpReverse? && Appended(k, s, op).Some?
    ensures
      var e, found := Appended(k, s, op).value, FindById(s.index.rows, op.entryId);
      && found.Some? && found.value.id == op.entryId && op.entryId !in s.reversals
      && e.id == op.details.id && e.sequence == s.nextSequence && Mirrors(found.value, e)
      && e.lines == ReversalLines(found.value.lines, op.details)
  {
    ReversalMirrors(k, s, FindById(s.index.rows, op.entryId).value, op.details);
  }

  lemma {:induction false} IdsPersist(rows: seq<JournalEntry>, reversals: map<Uuid, Uuid>, undone: map<nat, nat>,
                                      e: JournalEntry)
    requires OnePerId(rows, reversals, undone) && forall q :: q in undone ==> 1 <= q <= |rows|
    ensures OnePerId(rows + [e], reversals, undone)
  {
    forall q, o | q in undone ensures HasIdAt(rows + [e], q, o) <==> HasIdAt(rows, q, o) {
    }
    forall o | o in reversals ensures exists q :: q in undone && HasIdAt(rows + [e], q, o) {
      var q :| q in undone && HasIdAt(rows, q, o);
      assert HasIdAt(rows + [e], q, o);
    }
  }

  lemma {:induction false} PairsPersist(rows: seq<JournalEntry>, reversals: map<Uuid, Uuid>, undone: map<nat, nat>,
                                        e: JournalEntry)
    requires Paired(rows, reversals, undone)
    ensures Paired(rows + [e], reversals, undone)
  {
    forall q | q in undone ensures IsPair(rows + [e], reversals, q, undone[q]) && 1 <= q <= |rows| {
      assert IsPair(rows, reversals, q, undone[q]);
    }
    IdsPersist(rows, reversals, undone, e);
  }

  /** An entry whose id is not in the index was neither undone nor, being Posted, undoes another. */
  lemma {:induction false} NotYetPaired(rows: seq<JournalEntry>, reversals: map<Uuid, Uuid>, undone: map<nat, nat>,
                                        q: nat)
    requires AllPairs(rows, reversals, undone)
    requires 1 <= q <= |rows| && rows[q - 1].status.Posted? && rows[q - 1].id !in reversals
    ensures q !in undone && !Undoes(undone, q)
  {
    forall p | p in undone ensures p != q && undone[p] != q {
      assert IsPair(rows, reversals, p, undone[p]);
    }
  }

  lemma {:induction false} PairsGrow(rows: seq<JournalEntry>, reversals: map<Uuid, Uuid>, undone: map<nat, nat>,
                                     q: nat, o: Uuid, e: JournalEntry)
    requires AllPairs(rows, reversals, undone) && OneToOne(undone) && q !in undone
    requires HasIdAt(rows, q, o) && Mirrors(rows[q - 1], e) && o !in reversals
    ensures AllPairs(rows + [e], reversals[o := e.id], undone[q := |rows| + 1]) && OneToOne(undone[q := |rows| + 1])
  {
    var rows', reversals' := rows + [e], reversals[o := e.id];
    forall p | p in undone ensures IsPair(rows', reversals', p, undone[p]) && undone[p] <= |rows| {
      assert IsPair(rows, reversals, p, undone[p]);
      assert rows'[p - 1] == rows[p - 1] && rows'[undone[p] - 1] == rows[undone[p] - 1];
    }
    assert rows'[q - 1] == rows[q - 1] && rows'[|rows|] == e;
    assert IsPair(rows', reversals', q, |rows| + 1);
  }

  lemma {:induction false} IdsGrow(rows: seq<JournalEntry>, reversals: map<Uuid, Uuid>, undone: map<nat, nat>,
                                   q: nat, o: Uuid, id: Uuid, r: nat)
    requires OnePerId(rows, reversals, undone) && HasIdAt(rows, q, o)
    requires forall p :: p in undone ==> !HasIdAt(rows, p, o)
    ensures OnePerId(rows, reversals[o := id], undone[q := r])
  {
    var reversals', undone' := reversals[o := id], undone[q := r];
    forall x | x in reversals' ensures exists p :: p in undone' && HasIdAt(rows, p, x) {
      if x == o {
        assert q in undone' && HasIdAt(rows, q, o);
      } else {
        var p :| p in undone && HasIdAt(rows, p, x);
        assert p in undone' && HasIdAt(rows, p, x);
      }
    }
    forall p, p', x | p in undone' && p' in undone' && HasIdAt(rows, p, x) && HasIdAt(rows, p', x) ensures p == p' {
      assert x == o ==> p == q && p' == q;
    }
  }

  /** A reversal adds one pair. */
  lemma {:induction false} ReverseKeepsPaired(rows: seq<JournalEntry>, reversals: map<Uuid, Uuid>,
                                              undone: map<nat, nat>, q: nat, o: Uuid, e: JournalEntry)
    requires Paired(rows, reversals, undone)
    requires HasIdAt(rows, q, o) && Mirrors(rows[q - 1], e) && o !in reversals
    ensures q !in undone && !Undoes(undone, q)
    ensures Paired(rows + [e], reversals[o := e.id], undone[q := |rows| + 1])
  {
    NotYetPaired(rows, reversals, undone, q);
    PairsGrow(rows, reversals, undone, q, o, e);
    forall p | p in undone ensures 1 <= p <= |rows| && !HasIdAt(rows, p, o) {
      assert IsPair(rows, reversals, p, undone[p]);
    }
    IdsGrow(rows, reversals, undone, q, o, e.id, |rows| + 1);
    IdsPersist(rows, reversals[o := e.id], undone[q := |rows| + 1], e);
  }

  lemma {:induction false} PostKeepsNets(rows: seq<JournalEntry>, reversals: map<Uuid, Uuid>, undone: map<nat, nat>,
                                         e: JournalEntry)
    requires AllPairs(rows, reversals, undone) && NetsAgree(rows, undone) && e.sequence == |rows| + 1
    ensures NetsAgree(rows + [e], undone) && Stands(e, undone)
  {
    forall q | q in undone ensures q <= |rows| && undone[q] <= |rows| {
      assert IsPair(rows, reversals, q, undone[q]);
    }
    assert Stands(e, undone);
    forall a ensures Net(rows + [e], a) == StandingNet(rows + [e], undone, a) {
      NetSnoc(rows, e, a);
      StandingSnoc(rows, e, undone, a);
    }
  }

  lemma {:induction false} ReverseKeepsNets(rows: seq<JournalEntry>, undone: map<nat, nat>, q: nat, e: JournalEntry,
                                            d: ReversalDetails)
    requires Dense(rows) && NetsAgree(rows, undone) && 1 <= q <= |rows| && q !in undone && !Undoes(undone, q)
    requires Mirrors(rows[q - 1], e) && e.sequence == |rows| + 1 && e.lines == ReversalLines(rows[q - 1].lines, d)
    ensures NetsAgree(rows + [e], undone[q := |rows| + 1])
  {
    PairAdded(undone, q, |rows| + 1, e.sequence);
    assert !Stands(e, undone[q := |rows| + 1]);
    forall a ensures Net(rows + [e], a) == StandingNet(rows + [e], undone[q := |rows| + 1], a) {
      NetSnoc(rows, e, a);
      FlippedNet(rows[q - 1].lines, d, a);
      StandingSnoc(rows, e, undone[q := |rows| + 1], a);
      ReversalTakesOut(rows, undone, q, |rows| + 1, a);
    }
  }

  lemma {:induction false} FoundAt(rows: seq<JournalEntry>, id: Uuid)
    requires Dense(rows) && FindById(rows, id).Some?
    ensures
      var e := FindById(rows, id).value;
      1 <= e.sequence <= |rows| && rows[e.sequence - 1] == e
  {
    var i :| 0 <= i < |rows| && rows[i] == FindById(rows, id).value;
  }

  /** A reversal pairs the entry it finds with the one it appends. */
  lemma {:induction false} ReversePairs(rows: seq<JournalEntry>, reversals: map<Uuid, Uuid>, undone: map<nat, nat>,
                                        o: Uuid, e: JournalEntry, d: ReversalDetails)
    requires Dense(rows) && StandingOk(rows, reversals, undone) && FindById(rows, o).Some? && o !in reversals
    requires Mirrors(FindById(rows, o).value, e) && e.sequence == |rows| + 1
    requires e.lines == ReversalLines(FindById(rows, o).value.lines, d)
    ensures
      var q := FindById(rows, o).value.sequence;
      q !in undone && StandingOk(rows + [e], reversals[o := e.id], undone[q := |rows| + 1])
  {
    FoundAt(rows, o);
    var q := FindById(rows, o).value.sequence;
    ReverseKeepsPaired(rows, reversals, undone, q, o, e);
    ReverseKeepsNets(rows, undone, q, e, d);
  }

  lemma {:induction false} StandingIs(rows: seq<JournalEntry>, reversals: map<Uuid, Uuid>, undone: map<nat, nat>,
                                      t: State, next: map<nat, nat>)
    requires StandingOk(rows, reversals, undone)
    requires t.index.rows == rows && t.reversals == reversals && next == undone
    ensures StandingOk(t.index.rows, t.reversals, next)
  {
  }

  lemma {:induction false} AppendedPairs(k: Sealer, s: State, op: Op, undone: map<nat, nat>)
    requires Dense(s.index.rows) && s.nextSequence == |s.index.rows| + 1
    requires StandingOk(s.index.rows, s.reversals, undone) && op.OpReverse? && Appended(k, s, op).Some?
    ensures
      var rows, e := s.index.rows, Appended(k, s, op).value;
      var q := FindById(rows, op.entryId).value.sequence;
      && q !in undone && e.sequence == |rows| + 1
      && StandingOk(rows + [e], s.reversals[op.entryId := op.details.id], undone[q := |rows| + 1])
  {
    AppendedReversal(k, s, op);
    ReversePairs(s.index.rows, s.reversals, undone, op.entryId, Appended(k, s, op).value, op.details);
  }

  lemma {:induction false} ReverseKeepsStanding(k: Sealer, s: State, op: Op, undone: map<nat, nat>)
    requires Inv(s) && StandingOk(s.index.rows, s.reversals, undone) && op.OpReverse? && Appended(k, s, op).Some?
    ensures StandingOk(Step(k, s, op).index.rows, Step(k, s, op).reversals, NextUndone(k, s, op, undone))
  {
    var rows, o, e := s.index.rows, op.entryId, Appended(k, s, op).value;
    JournalGrows(k, s, op);
    StepReversals(k, s, op);
    AppendedPairs(k, s, op, undone);
    StandingIs(rows + [e], s.reversals[o := op.details.id],
               undone[FindById(rows, o).value.sequence := |rows| + 1], Step(k, s, op), NextUndone(k, s, op, undone));
  }

  lemma {:induction false} StepKeepsStanding(k: Sealer, s: State, op: Op, undone: map<nat, nat>)
    requires Inv(s) && StandingOk(s.index.rows, s.reversals, undone)
    ensures StandingOk(Step(k, s, op).index.rows, Step(k, s, op).reversals, NextUndone(k, s, op, undone))
  {
    if op.OpReverse? && Appended(k, s, op).Some? {
      ReverseKeepsStanding(k, s, op, undone);
    } else {
      JournalGrows(k, s, op);
      StepReversals(k, s, op);
      if Appended(k, s, op).Some? {
        PairsPersist(s.index.rows, s.reversals, undone, Appended(k, s, op).value);
        PostKeepsNets(s.index.rows, s.reversals, undone, Appended(k, s, op).value);
      }
    }
  }

  lemma {:induction false} RunKeepsStanding(k: Sealer, ops: seq<Op>)
    ensures
      var s, undone := Run(k, EMPTY, ops), Undone(k, EMPTY, ops);
      Inv(s) && StandingOk(s.index.rows, s.reversals, undone)
  {
    EmptyHasInv();
    RunKeepsInv(k, EMPTY, ops);
    if ops == [] {
    } else {
      var front, op := ops[..|ops| - 1], ops[|ops| - 1];
      RunKeepsStanding(k, front);
      StepKeepsStanding(k, Run(k, EMPTY, front), op, Undone(k, EMPTY, front));
    }
  }

  // ---- What stands ----

  /** For every run: the net of the journal is, on every account, the sum over what stands; and the cached
      balance is that sum, signed, exactly when what was counted on the other side than the account's final
      record counts nets to zero. */
  lemma {:induction false} BalanceIsSumOfWhatStands(k: Sealer, ops: seq<Op>, a: Uuid)
    requires a in Run(k, EMPTY, ops).accounts
    ensures |Epochs(k, EMPTY, ops)| == |Run(k, EMPTY, ops).index.rows|
    ensures
      var s, undone := Run(k, EMPTY, ops), Undone(k, EMPTY, ops);
      && Net(s.index.rows, a) == StandingNet(s.index.rows, undone, a)
      && (Balance(s.cache, a) == CacheSign(s.accounts[a].accountType) * StandingNet(s.index.rows, undone, a) <==>
            MissignedInRun(k, ops, a) == 0)
  {
    RunKeepsStanding(k, ops);
    CachedBalance(k, ops, a);
  }

  /** In particular it is that sum when no record with a balance was replaced by one of the other side. */
  lemma {:induction false} StandingBalance(k: Sealer, ops: seq<Op>, a: Uuid)
    requires KeepsSignThroughout(k, EMPTY, ops) && a in Run(k, EMPTY, ops).accounts
    ensures
      var s := Run(k, EMPTY, ops);
      Balance(s.cache, a) ==
      CacheSign(s.accounts[a].accountType) * StandingNet(s.index.rows, Undone(k, EMPTY, ops), a)
  {
    EmptyHasInv();
    RunKeepsStanding(k, ops);
    RunKeepsCache(k, EMPTY, ops);
  }

  lemma {:induction false} UniqueOriginal(
    rows: seq<JournalEntry>, reversals: map<Uuid, Uuid>, undone: map<nat, nat>, n: nat)
    requires UniqueIds(rows) && Paired(rows, reversals, undone) && 1 <= n <= |rows|
    ensures n in undone <==> rows[n - 1].id in reversals
  {
    if n in undone {
      assert IsPair(rows, reversals, n, undone[n]);
    }
    if rows[n - 1].id in reversals {
      var q :| q in undone && HasIdAt(rows, q, rows[n - 1].id);
      assert q == n;
    }
  }

  lemma {:induction false} UniqueReversal(
    rows: seq<JournalEntry>, reversals: map<Uuid, Uuid>, undone: map<nat, nat>, n: nat)
    requires UniqueIds(rows) && Paired(rows, reversals, undone) && 1 <= n <= |rows|
    ensures Undoes(undone, n) <==> IsReversalId(reversals, rows[n - 1].id)
  {
    if Undoes(undone, n) {
      var q :| q in undone && undone[q] == n;
      assert IsPair(rows, reversals, q, n);
    }
    if IsReversalId(reversals, rows[n - 1].id) {
      var o :| o in reversals && reversals[o] == rows[n - 1].id;
      var q :| q in undone && HasIdAt(rows, q, o);
      assert IsPair(rows, reversals, q, undone[q]);
      assert undone[q] == n;
    }
  }

  lemma {:induction false} UniqueInRun(k: Sealer, ops: seq<Op>, n: nat)
    requires 1 <= n <= |Run(k, EMPTY, ops).index.rows| && UniqueIds(Run(k, EMPTY, ops).index.rows)
    ensures
      var s, undone := Run(k, EMPTY, ops), Undone(k, EMPTY, ops);
      && (n in undone <==> s.index.rows[n - 1].id in s.reversals)
      && (Undoes(undone, n) <==> IsReversalId(s.reversals, s.index.rows[n - 1].id))
  {
    var s, undone := Run(k, EMPTY, ops), Undone(k, EMPTY, ops);
    RunKeepsStanding(k, ops);
    UniqueOriginal(s.index.rows, s.reversals, undone, n);
    UniqueReversal(s.index.rows, s.reversals, undone, n);
  }

  /** Where ids do not repeat, the reversal index alone tells what stands. */
  lemma {:induction false} IndexTellsWhatStands(k: Sealer, ops: seq<Op>, i: nat)
    requires i < |Run(k, EMPTY, ops).index.rows| && UniqueIds(Run(k, EMPTY, ops).index.rows)
    ensures
      var s := Run(k, EMPTY, ops);
      var e := s.index.rows[i];
      Stands(e, Undone(k, EMPTY, ops)) <==> e.id !in s.reversals && !IsReversalId(s.reversals, e.id)
  {
    EmptyHasInv();
    RunKeepsInv(k, EMPTY, ops);
    assert Run(k, EMPTY, ops).index.rows[i].sequence == i + 1;
    UniqueInRun(k, ops, i + 1);
  }

  // ---- Reversals are one to one ----

  /** Every Reversal entry of the journal undoes an entry. */
  predicate AllUndo(rows: seq<JournalEntry>, undone: map<nat, nat>) {
    forall i :: 0 <= i < |rows| && rows[i].status.Reversal? ==> Undoes(undone, rows[i].sequence)
  }

  /** A caller's entry under the status Reversal is accepted. */
  predicate PostsReversal(s: State, op: Op) {
    op.OpPost? && Accepts(s, op.reg, op.entry) && op.entry.status.Reversal?
  }

  predicate EverPostsReversal(k: Sealer, s: State, ops: seq<Op>) {
    ops != [] &&
    (EverPostsReversal(k, s, ops[..|ops| - 1]) || PostsReversal(Run(k, s, ops[..|ops| - 1]), ops[|ops| - 1]))
  }

  lemma {:induction false} AllUndoSnoc(rows: seq<JournalEntry>, undone: map<nat, nat>, e: JournalEntry)
    ensures AllUndo(rows + [e], undone) <==>
      AllUndo(rows, undone) && (e.status.Reversal? ==> Undoes(undone, e.sequence))
  {
    var rows' := rows + [e];
    assert rows'[|rows|] == e;
    if AllUndo(rows', undone) {
      forall i | 0 <= i < |rows| && rows[i].status.Reversal? ensures Undoes(undone, rows[i].sequence) {
        assert rows'[i] == rows[i];
      }
    }
  }

  lemma {:induction false} ReversalAllUndo(rows: seq<JournalEntry>, undone: map<nat, nat>, q: nat, e: JournalEntry)
    requires Dense(rows) && q !in undone && e.sequence == |rows| + 1
    ensures AllUndo(rows + [e], undone[q := |rows| + 1]) <==> AllUndo(rows, undone)
  {
    AllUndoSnoc(rows, undone[q := |rows| + 1], e);
    PairAdded(undone, q, |rows| + 1, e.sequence);
    forall i | 0 <= i < |rows|
      ensures Undoes(undone[q := |rows| + 1], rows[i].sequence) <==> Undoes(undone, rows[i].sequence)
    {
      PairAdded(undone, q, |rows| + 1, rows[i].sequence);
    }
  }

  lemma {:induction false} PostAllUndo(rows: seq<JournalEntry>, reversals: map<Uuid, Uuid>, undone: map<nat, nat>,
                                       e: JournalEntry)
    requires AllPairs(rows, reversals, undone) && e.sequence == |rows| + 1
    ensures AllUndo(rows + [e], undone) <==> AllUndo(rows, undone) && !e.status.Reversal?
  {
    forall q | q in undone ensures undone[q] != e.sequence {
      assert IsPair(rows, reversals, q, undone[q]);
    }
    AllUndoSnoc(rows, undone, e);
  }

  lemma {:induction false} ReverseAllUndo(k: Sealer, s: State, op: Op, undone: map<nat, nat>)
    requires Inv(s) && StandingOk(s.index.rows, s.reversals, undone) && op.OpReverse? && Appended(k, s, op).Some?
    ensures AllUndo(Step(k, s, op).index.rows, NextUndone(k, s, op, undone)) <==> AllUndo(s.index.rows, undone)
  {
    var rows, o, e := s.index.rows, op.entryId, Appended(k, s, op).value;
    JournalGrows(k, s, op);
    AppendedPairs(k, s, op, undone);
    ReversalAllUndo(rows, undone, FindById(rows, o).value.sequence, e);
  }

  lemma {:induction false} OtherAllUndo(k: Sealer, s: State, op: Op, undone: map<nat, nat>)
    requires Inv(s) && StandingOk(s.index.rows, s.reversals, undone) && !op.OpReverse?
    ensures AllUndo(Step(k, s, op).index.rows, undone) <==> AllUndo(s.index.rows, undone) && !PostsReversal(s, op)
  {
    JournalGrows(k, s, op);
    if Appended(k, s, op).Some? {
      PostAllUndo(s.index.rows, s.reversals, undone, Appended(k, s, op).value);
    }
  }

  lemma {:induction false} StepAllUndo(k: Sealer, s: State, op: Op, undone: map<nat, nat>)
    requires Inv(s) && StandingOk(s.index.rows, s.reversals, undone)
    ensures AllUndo(Step(k, s, op).index.rows, NextUndone(k, s, op, undone)) <==>
      AllUndo(s.index.rows, undone) && !PostsReversal(s, op)
  {
    if !op.OpReverse? {
      OtherAllUndo(k, s, op, undone);
    } else if Appended(k, s, op).Some? {
      ReverseAllUndo(k, s, op, undone);
    } else {
      StepDoesNotAppend(k, s, op);
    }
  }

  /** For every run: reversals pair Posted entries one to one with later mirror entries that name them, the
      reversal index holds exactly those pairs, and every Reversal entry is in one exactly when no caller posted
      an entry under that status. */
  lemma {:induction false} ReversalsAreOneToOne(k: Sealer, ops: seq<Op>)
    ensures
      var s, undone := Run(k, EMPTY, ops), Undone(k, EMPTY, ops);
      && Paired(s.index.rows, s.reversals, undone)
      && (AllUndo(s.index.rows, undone) <==> !EverPostsReversal(k, EMPTY, ops))
  {
    RunKeepsStanding(k, ops);
    if ops == [] {
    } else {
      var front, op := ops[..|ops| - 1], ops[|ops| - 1];
      ReversalsAreOneToOne(k, front);
      RunKeepsStanding(k, front);
      StepAllUndo(k, Run(k, EMPTY, front), op, Undone(k, EMPTY, front));
    }
  }
}
