/** Runs from the empty ledger at which the store does not do what its comments say. */
module Scenarios {
  import opened Bytes
  import opened Hashing
  import opened Entries
  import opened Balances
  import opened Ledger
  import opened Invariants
  import opened History
  import opened Recovery
  import opened Standing
  import opened Transfers
  import opened Guards

  function Id(n: Byte): (r: Uuid) {
    [n] + Zeros(15)
  }

  function OpenAccount(n: Byte, t: AccountType, guarded: bool): (r: Account) {
    Account(Id(n), [], t, [], Active, guarded, None, false, false)
  }

  function Pay(n: Byte, to: Byte, from: Byte): (e: JournalEntry) {
    JournalEntry(Id(n), 0, Posted, [],
      [JournalLine(NIL_UUID, Id(to), [], 100, Debit, None), JournalLine(NIL_UUID, Id(from), [], 100, Credit, None)],
      0, 0, None, None, None, None, [], ZERO_HASH, ZERO_HASH, ZERO_HASH, None, None)
  }

  const UNDO: ReversalDetails := ReversalDetails(Id(9), (i: nat) => NIL_UUID, [], [], 0, 0)

  lemma {:induction false} IdsDiffer(m: Byte, n: Byte)
    ensures Id(m) == Id(n) <==> m == n
  {
    assert Id(m)[0] == m && Id(n)[0] == n;
  }

  lemma {:induction false} PayIsTransfer(n: Byte, to: Byte, from: Byte)
    requires to != from
    ensures IsTransfer(Pay(n, to, from), Id(to), Id(from), 100, [])
  {
    IdsDiffer(to, from);
  }

  /** Accepted entries carry new ids, and so do reversals. */
  predicate Sound(s: State, op: Op) {
    && (op.OpPost? && Accepts(s, op.reg, op.entry) ==> !HasId(s.index.rows, op.entry.id))
    && (op.OpReverse? ==> !HasId(s.index.rows, op.details.id))
  }

  predicate SoundThroughout(k: Sealer, s: State, ops: seq<Op>) {
    ops == [] ||
    (SoundThroughout(k, s, ops[..|ops| - 1]) && Sound(Run(k, s, ops[..|ops| - 1]), ops[|ops| - 1]))
  }

  lemma {:induction false} RunSnoc(k: Sealer, s: State, ops: seq<Op>, op: Op)
    ensures Run(k, s, ops + [op]) == Step(k, Run(k, s, ops), op)
    ensures SoundThroughout(k, s, ops + [op]) <==> SoundThroughout(k, s, ops) && Sound(Run(k, s, ops), op)
  {
    assert (ops + [op])[..|ops|] == ops;
  }

  /** Cash, income and expense accounts are open, and nothing is posted. */
  predicate Opened(s: State, guarded: bool) {
    && s.accounts == map[Id(1) := OpenAccount(1, Asset, guarded), Id(2) := OpenAccount(2, Income, true),
                         Id(3) := OpenAccount(3, Expense, true)]
    && s.cache == map[] && s.index.rows == [] && s.holds == {} && s.reversals == map[]
  }

  /** A run that leads to `s`. */
  ghost predicate Reached(k: Sealer, s: State, ops: seq<Op>) {
    s == Run(k, EMPTY, ops) && SoundThroughout(k, EMPTY, ops) && Inv(s)
  }

  lemma {:induction false} Extend(k: Sealer, s: State, ops: seq<Op>, op: Op)
    requires Reached(k, s, ops) && Sound(s, op)
    ensures Reached(k, Step(k, s, op), ops + [op])
  {
    RunSnoc(k, EMPTY, ops, op);
    StepKeepsInv(k, s, op);
  }

  lemma {:induction false} Open(k: Sealer, guarded: bool) returns (s: State, ops: seq<Op>)
    ensures Reached(k, s, ops) && Opened(s, guarded) && CacheOk(s)
    ensures forall i :: 0 <= i < |ops| ==> ops[i].OpCreate?
  {
    IdsDiffer(1, 2);
    IdsDiffer(1, 3);
    IdsDiffer(2, 3);
    var o1, o2 := OpCreate(OpenAccount(1, Asset, guarded)), OpCreate(OpenAccount(2, Income, true));
    var o3 := OpCreate(OpenAccount(3, Expense, true));
    EmptyHasInv();
    var s1 := Step(k, EMPTY, o1);
    var s2 := Step(k, s1, o2);
    s := Step(k, s2, o3);
    ops := [] + [o1] + [o2] + [o3];
    Extend(k, EMPTY, [], o1);
    Extend(k, s1, [] + [o1], o2);
    Extend(k, s2, [] + [o1] + [o2], o3);
  }

  lemma {:induction false} EffectOnDebitNormal(k: Sealer, s: State, op: Op, a: Uuid)
    requires Appended(k, s, op).Some? && a in s.accounts && DebitNormal(s.accounts[a].accountType)
    ensures Balance(Step(k, s, op).cache, a) == Balance(s.cache, a) + Effect(Appended(k, s, op).value, a)
  {
    StepAppends(k, s, op);
    ApplyEntryBalance(s.accounts, s.cache, Appended(k, s, op).value, a);
  }

  /** What a payment that goes through does. */
  ghost predicate Paid(k: Sealer, s: State, n: Byte, to: Byte, from: Byte, t: State) {
    && t.accounts == s.accounts && t.holds == s.holds && t.reversals == s.reversals
    && |t.index.rows| == |s.index.rows| + 1 && t.index.rows[..|s.index.rows|] == s.index.rows
    && t.index.rows[|s.index.rows|].id == Id(n) && t.index.rows[|s.index.rows|].status.Posted?
    && t.index.rows[|s.index.rows|].lines == Pay(n, to, from).lines
    && forall a :: a in s.accounts && DebitNormal(s.accounts[a].accountType) ==>
         Balance(t.cache, a) == Balance(s.cache, a) + NetDebit(Pay(n, to, from).lines, a)
  }

  lemma {:induction false} PaymentGoesThrough(k: Sealer, s: State, n: Byte, to: Byte, from: Byte)
    requires Inv(s) && to != from && Usable(s.accounts, Id(to), []) && Usable(s.accounts, Id(from), [])
    requires Guarded(s.accounts[Id(from)]) ==> Balance(s.cache, Id(from)) >= 100
    ensures Paid(k, s, n, to, from, Step(k, s, OpPost(map[], Pay(n, to, from), 0)))
  {
    PayIsTransfer(n, to, from);
    TransferAccepted(s, map[], Pay(n, to, from), Id(to), Id(from), 100, []);
    var op := OpPost(map[], Pay(n, to, from), 0);
    StepAppends(k, s, op);
    AppendingStepFrame(k, s, op);
    JournalGrows(k, s, op);
    forall a | a in s.accounts && DebitNormal(s.accounts[a].accountType)
      ensures Balance(Step(k, s, op).cache, a) == Balance(s.cache, a) + NetDebit(Pay(n, to, from).lines, a)
    {
      EffectOnDebitNormal(k, s, op, a);
    }
  }

  /** Cash holds 100, received in one entry. */
  ghost predicate Received(s: State) {
    && s.accounts == map[Id(1) := OpenAccount(1, Asset, true), Id(2) := OpenAccount(2, Income, true),
                         Id(3) := OpenAccount(3, Expense, true)]
    && Balance(s.cache, Id(1)) == 100 && s.holds == {} && s.reversals == map[]
    && |s.index.rows| == 1 && s.index.rows[0].id == Id(5) && s.index.rows[0].status.Posted?
    && s.index.rows[0].lines == Pay(5, 1, 2).lines
  }

  lemma {:induction false} ReceivedNet(s: State)
    requires Received(s) && CacheOk(s)
    ensures Net(s.index.rows, Id(1)) == 100
  {
    IdsDiffer(1, 2);
    IdsDiffer(1, 3);
    assert Balance(s.cache, Id(1)) == JournalBalance(s.accounts, s.index.rows, Id(1));
  }

  lemma {:induction false} Receive(k: Sealer) returns (s: State, ops: seq<Op>)
    ensures Reached(k, s, ops) && Received(s) && CacheOk(s)
  {
    var s0, ops0 := Open(k, true);
    IdsDiffer(1, 2);
    IdsDiffer(1, 3);
    IdsDiffer(2, 3);
    var receive := OpPost(map[], Pay(5, 1, 2), 0);
    PaymentGoesThrough(k, s0, 5, 1, 2);
    PayIsTransfer(5, 1, 2);
    TransferNets(Pay(5, 1, 2), Id(1), Id(2), 100, [], Id(1));
    Extend(k, s0, ops0, receive);
    StepKeepsCache(k, s0, receive);
    s, ops := Step(k, s0, receive), ops0 + [receive];
  }

  /** Cash was received and spent again. */
  ghost predicate Spent(s: State) {
    && Protected(s.accounts, Id(1)) && Balance(s.cache, Id(1)) == 0 && s.holds == {} && s.reversals == map[]
    && |s.index.rows| == 2 && s.index.rows[0].id == Id(5) && s.index.rows[1].id == Id(6)
    && s.index.rows[0].status.Posted? && s.index.rows[0].lines == Pay(5, 1, 2).lines
  }

  lemma {:induction false} SpendingStep(k: Sealer, s: State)
    requires Inv(s) && Received(s)
    ensures Spent(Step(k, s, OpPost(map[], Pay(6, 3, 1), 0))) && Sound(s, OpPost(map[], Pay(6, 3, 1), 0))
    ensures Step(k, s, OpPost(map[], Pay(6, 3, 1), 0)).index.rows[..1] == s.index.rows
  {
    IdsDiffer(1, 2);
    IdsDiffer(1, 3);
    IdsDiffer(5, 6);
    PaymentGoesThrough(k, s, 6, 3, 1);
    PayIsTransfer(6, 3, 1);
    TransferNets(Pay(6, 3, 1), Id(3), Id(1), 100, [], Id(1));
  }

  // ---- Overdrawn although guarded ----

  lemma {:induction false} FindFirstOfTwo(rows: seq<JournalEntry>)
    requires |rows| == 2 && rows[0].id != rows[1].id
    ensures FindById(rows, rows[0].id) == Some(rows[0])
  {
    assert rows[..1] == [rows[0]];
  }

  lemma {:induction false} UndoGoesThrough(k: Sealer, s: State)
    requires Spent(s)
    ensures Appended(k, s, OpReverse(Id(5), UNDO)).Some? && Sound(s, OpReverse(Id(5), UNDO))
    ensures FindById(s.index.rows, Id(5)) == Some(s.index.rows[0])
  {
    IdsDiffer(5, 6);
    IdsDiffer(5, 9);
    IdsDiffer(6, 9);
    FindFirstOfTwo(s.index.rows);
    assert HeldAccount(s.holds, s.index.rows[0].lines).None?;
  }

  lemma {:induction false} UndoTakesBack(k: Sealer, s: State)
    requires Spent(s)
    ensures Balance(Step(k, s, OpReverse(Id(5), UNDO)).cache, Id(1)) == -100
    ensures Step(k, s, OpReverse(Id(5), UNDO)).accounts == s.accounts && Sound(s, OpReverse(Id(5), UNDO))
  {
    UndoGoesThrough(k, s);
    ReversalEffect(k, s, OpReverse(Id(5), UNDO), Id(1));
    PayIsTransfer(5, 1, 2);
    TransferNets(Pay(5, 1, 2), Id(1), Id(2), 100, [], Id(1));
    StepAppends(k, s, OpReverse(Id(5), UNDO));
  }

  /** Receive 100 in cash, spend it, and reverse the receipt: the guarded cash account ends at -100. */
  lemma {:induction false} ReversalOverdraws(k: Sealer) returns (ops: seq<Op>)
    ensures SoundThroughout(k, EMPTY, ops)
    ensures Protected(Run(k, EMPTY, ops).accounts, Id(1)) && Balance(Run(k, EMPTY, ops).cache, Id(1)) == -100
  {
    var s, front := Receive(k);
    var spend, undo := OpPost(map[], Pay(6, 3, 1), 0), OpReverse(Id(5), UNDO);
    SpendingStep(k, s);
    Extend(k, s, front, spend);
    UndoTakesBack(k, Step(k, s, spend));
    Extend(k, Step(k, s, spend), front + [spend], undo);
    ops := front + [spend] + [undo];
  }

  /** Overdraw an unguarded cash account by 100, then file a record for it that guards it. */
  lemma {:induction false} RecordGuardsDebt(k: Sealer) returns (ops: seq<Op>)
    ensures SoundThroughout(k, EMPTY, ops)
    ensures Protected(Run(k, EMPTY, ops).accounts, Id(1)) && Balance(Run(k, EMPTY, ops).cache, Id(1)) == -100
  {
    var s, front := Open(k, false);
    IdsDiffer(1, 2);
    IdsDiffer(1, 3);
    var spend, guard := OpPost(map[], Pay(6, 3, 1), 0), OpCreate(OpenAccount(1, Asset, true));
    PaymentGoesThrough(k, s, 6, 3, 1);
    PayIsTransfer(6, 3, 1);
    TransferNets(Pay(6, 3, 1), Id(3), Id(1), 100, [], Id(1));
    Extend(k, s, front, spend);
    Extend(k, Step(k, s, spend), front + [spend], guard);
    ops := front + [spend] + [guard];
  }

  // ---- Held, yet not ----

  predicate Lifts(op: Op, a: Uuid) {
    op.OpHold? && op.id == a && !op.hold
  }

  const HOLD: Op := OpHold(Id(1), true)
  const REFILE: Op := OpCreate(OpenAccount(1, Asset, true))
  const PAY: Op := OpPost(map[], Pay(5, 1, 2), 0)

  lemma {:induction false} HeldThenRefiled(k: Sealer, s: State)
    requires Inv(s) && Opened(s, true)
    ensures
      var held := Step(k, s, HOLD);
      var free := Step(k, held, REFILE);
      && Id(1) in held.accounts && held.accounts[Id(1)].legalHold && held.index == s.index && free.index == s.index
      && Usable(free.accounts, Id(1), []) && Usable(free.accounts, Id(2), []) && !Guarded(free.accounts[Id(2)])
      && Sound(s, HOLD) && Sound(held, REFILE)
  {
    IdsDiffer(1, 2);
    IdsDiffer(1, 3);
    IdsDiffer(2, 3);
  }

  lemma {:induction false} PaymentTouches(k: Sealer, s: State)
    requires Inv(s) && s.index.rows == [] && Usable(s.accounts, Id(1), []) && Usable(s.accounts, Id(2), [])
    requires !Guarded(s.accounts[Id(2)])
    ensures |Step(k, s, PAY).index.rows| == 1 && Touches(Step(k, s, PAY).index.rows[0], Id(1)) && Sound(s, PAY)
  {
    PaymentGoesThrough(k, s, 5, 1, 2);
    assert Step(k, s, PAY).index.rows[0].lines[0].accountId == Id(1);
  }

  lemma {:induction false} ThreeSteps(k: Sealer, s: State, ops: seq<Op>, x: Op, y: Op, z: Op)
    requires s == Run(k, EMPTY, ops)
    ensures Run(k, EMPTY, ops + [x]) == Step(k, s, x)
    ensures Run(k, EMPTY, ops + [x] + [y] + [z]) == Step(k, Step(k, Step(k, s, x), y), z)
  {
    RunSnoc(k, EMPTY, ops, x);
    RunSnoc(k, EMPTY, ops + [x], y);
    RunSnoc(k, EMPTY, ops + [x] + [y], z);
  }

  predicate NeverLifts(ops: seq<Op>, a: Uuid) {
    forall i :: 0 <= i < |ops| ==> !Lifts(ops[i], a)
  }

  lemma {:induction false} OpenNeverLifts(front: seq<Op>, x: Op, y: Op, z: Op, a: Uuid)
    requires (forall i :: 0 <= i < |front| ==> front[i].OpCreate?) && !Lifts(x, a) && !Lifts(y, a) && !Lifts(z, a)
    ensures NeverLifts(front + [x] + [y] + [z], a)
  {
  }

  /** The account was held with nothing posted, and now an entry on it is. */
  ghost predicate PaidDespiteHold(before: State, after: State, a: Uuid) {
    && a in before.accounts && before.accounts[a].legalHold && before.index.rows == []
    && |after.index.rows| == 1 && Touches(after.index.rows[0], a)
  }

  lemma {:induction false} PaysDespiteHold(k: Sealer, s: State)
    requires Inv(s) && Opened(s, true)
    ensures PaidDespiteHold(Step(k, s, HOLD), Step(k, Step(k, Step(k, s, HOLD), REFILE), PAY), Id(1))
  {
    HeldThenRefiled(k, s);
    StepKeepsInv(k, s, HOLD);
    StepKeepsInv(k, Step(k, s, HOLD), REFILE);
    PaymentTouches(k, Step(k, Step(k, s, HOLD), REFILE));
  }

  /** Hold a cash account, file a record for it without the flag, and pay: nobody lifted the hold, and the
      payment is appended. */
  lemma {:induction false} RecordLiftsHold(k: Sealer) returns (front: seq<Op>)
    ensures NeverLifts(front + [HOLD] + [REFILE] + [PAY], Id(1))
    ensures PaidDespiteHold(Run(k, EMPTY, front + [HOLD]), Run(k, EMPTY, front + [HOLD] + [REFILE] + [PAY]), Id(1))
  {
    var s;
    s, front := Open(k, true);
    PaysDespiteHold(k, s);
    OpenNeverLifts(front, HOLD, REFILE, PAY, Id(1));
    ThreeSteps(k, s, front, HOLD, REFILE, PAY);
  }

  // ---- Recovered wrongly ----

  /** The balance of the cash account after recovery with the first `m` entries in the index. */
  ghost function RecoveredCash(k: Sealer, ops: seq<Op>, m: nat): (r: int)
    requires m <= |Run(k, EMPTY, ops).index.rows|
  {
    Balance(Recover(Run(k, EMPTY, ops).wal, IndexPrefix(Run(k, EMPTY, ops).index.rows, m)).cache, Id(1))
  }

  /** Receive 100 in cash, then file the account anew as a liability: with a complete index, recovery turns
      the cached 100 into -100. */
  lemma {:induction false} TypeChangeBreaksRebuild(k: Sealer) returns (ops: seq<Op>)
    ensures |Run(k, EMPTY, ops).index.rows| == 1
    ensures Balance(Run(k, EMPTY, ops).cache, Id(1)) == 100 && RecoveredCash(k, ops, 1) == -100
  {
    var s, front := Receive(k);
    var retype := OpCreate(OpenAccount(1, Liability, true));
    var t := Step(k, s, retype);
    Extend(k, s, front, retype);
    ops := front + [retype];
    ReceivedNet(s);
    assert t.cache == s.cache && t.index == s.index && t.accounts[Id(1)] == OpenAccount(1, Liability, true);
    RecoveryWithIndex(k, ops, 1);
    ApplyEntriesBalance(t.accounts, map[], t.index.rows, Id(1));
  }

  lemma {:induction false} EpochsSnoc(k: Sealer, ops: seq<Op>, op: Op)
    ensures Epochs(k, EMPTY, ops) <= Epochs(k, EMPTY, ops + [op])
  {
    assert (ops + [op])[..|ops|] == ops;
  }

  /** Receive 100 in cash and spend it: an index that holds the first entry only leaves the cash account with
      a balance after recovery, although it is empty. */
  lemma {:induction false} PartialIndexLosesBalance(k: Sealer) returns (ops: seq<Op>)
    ensures |Run(k, EMPTY, ops).index.rows| == 2
    ensures Balance(Run(k, EMPTY, ops).cache, Id(1)) == 0 && RecoveredCash(k, ops, 1) != 0
  {
    var s, front := Receive(k);
    var spend := OpPost(map[], Pay(6, 3, 1), 0);
    SpendingStep(k, s);
    Extend(k, s, front, spend);
    ops := front + [spend];
    var t, epochs := Run(k, EMPTY, ops), Epochs(k, EMPTY, ops);
    RunFollows(k, front);
    RunFollows(k, ops);
    EpochsSnoc(k, front, spend);
    assert epochs[..1] == Epochs(k, EMPTY, front) && t.index.rows[..1] == s.index.rows;
    ApplyHistoryBalance(Epochs(k, EMPTY, front), map[], s.index.rows, Id(1));
    RecoveredBalance(k, ops, 1, Id(1));
  }
}
