/** When the chain of a run verifies. */
module Integrity {
  import opened Bytes
  import opened Hashing
  import opened Entries
  import opened Parsing
  import opened Chain
  import opened Ledger
  import opened Invariants

  /** An accepted post comes with no content hash, or with the one its final fields have. */
  predicate SealsRight(k: Sealer, s: State, op: Op) {
    op.OpPost? && Accepts(s, op.reg, op.entry) ==>
      || op.entry.contentHash == ZERO_HASH
      || op.entry.contentHash == ContentHash(k, op.entry.(sequence := s.nextSequence, postedAt := op.now))
  }

  predicate SealsRightThroughout(k: Sealer, s: State, ops: seq<Op>) {
    ops == [] ||
    (SealsRightThroughout(k, s, ops[..|ops| - 1]) && SealsRight(k, Run(k, s, ops[..|ops| - 1]), ops[|ops| - 1]))
  }

  lemma {:induction false} AppendedVerifies(k: Sealer, s: State, op: Op)
    requires IgnoresHashes(k) && Appended(k, s, op).Some?
    ensures VerifyHashes(k, Appended(k, s, op).value) <==> SealsRight(k, s, op)
  {
    if op.OpPost? {
      SealedEntryVerifies(k, op.entry.(sequence := s.nextSequence, postedAt := op.now), s.tip);
    } else {
      var e := Appended(k, s, op).value;
      var original := FindById(s.index.rows, op.entryId).value;
      FullySealedEntryVerifies(k,
        JournalEntry(op.details.id, s.nextSequence, Reversal, op.details.description,
                     ReversalLines(original.lines, op.details), op.details.effectiveAt, op.details.postedAt,
                     None, None, Some(original.id), None, op.details.domain,
                     ZERO_HASH, ZERO_HASH, ZERO_HASH, None, None), s.tip);
    }
  }

  lemma {:induction false} PrefixValid(k: Sealer, es: seq<JournalEntry>, e: JournalEntry)
    requires ChainValid(k, es + [e], ZERO_HASH)
    ensures ChainValid(k, es, ZERO_HASH)
  {
    forall i | 0 <= i < |es| ensures SoundAt(k, es, i, ZERO_HASH) {
      assert SoundAt(k, es + [e], i, ZERO_HASH);
    }
  }

  lemma {:induction false} StepIntegrity(k: Sealer, s: State, op: Op)
    requires IgnoresHashes(k) && Inv(s)
    ensures ChainValid(k, Step(k, s, op).index.rows, ZERO_HASH) <==>
            ChainValid(k, s.index.rows, ZERO_HASH) && SealsRight(k, s, op)
  {
    JournalGrows(k, s, op);
    var a := Appended(k, s, op);
    if a.Some? {
      AppendedFits(k, s, op);
      AppendedVerifies(k, s, op);
      if ChainValid(k, s.index.rows, ZERO_HASH) {
        ChainGrows(k, s.index.rows, a.value);
      } else if ChainValid(k, s.index.rows + [a.value], ZERO_HASH) {
        PrefixValid(k, s.index.rows, a.value);
      }
    }
  }

  lemma {:induction false} ChainVerdict(k: Sealer, s: State, ops: seq<Op>)
    requires IgnoresHashes(k) && Inv(s) && ChainValid(k, s.index.rows, ZERO_HASH)
    ensures ChainValid(k, Run(k, s, ops).index.rows, ZERO_HASH) <==> SealsRightThroughout(k, s, ops)
  {
    if ops == [] {
    } else {
      var front := ops[..|ops| - 1];
      ChainVerdict(k, s, front);
      RunKeepsInv(k, s, front);
      StepIntegrity(k, Run(k, s, front), ops[|ops| - 1]);
    }
  }

  /** For every run of the store, sequences are 1..n without a gap, and the chain verifies exactly
      when every accepted post came with an unset or a right content hash. */
  lemma {:induction false} ChainVerifiesExactlyWhenSealedRight(h: HashFn, ops: seq<Op>)
    ensures
      var k := CanonicalSealer(h);
      var s := Run(k, EMPTY, ops);
      && Dense(s.index.rows) && s.nextSequence == |s.index.rows| + 1 && s.tip == Tip(s.index.rows)
      && (ChainValid(k, s.index.rows, ZERO_HASH) <==> SealsRightThroughout(k, EMPTY, ops))
  {
    CanonicalIgnoresHashes(h);
    EmptyHasInv();
    RunKeepsInv(CanonicalSealer(h), EMPTY, ops);
    ChainVerdict(CanonicalSealer(h), EMPTY, ops);
  }

  /** A content hash computed before the store assigned the sequence number: the sealed entry verifies
      exactly when the two encodings, which differ, have the same hash. */
  lemma {:induction false} EarlyContentHashNeedsCollision(
    h: HashFn, e: JournalEntry, sequence: nat, now: Time, prev: Hash)
    requires e.contentHash == ContentHash(CanonicalSealer(h), e) != ZERO_HASH
    requires e.sequence == 0 && 0 < sequence < TWO_64
    ensures
      var final := e.(sequence := sequence, postedAt := now);
      && Canonical(final) != Canonical(e)
      && (VerifyHashes(CanonicalSealer(h), FinalizeChainHash(CanonicalSealer(h), final, prev)) <==>
            h(Canonical(final)) == h(Canonical(e)))
  {
    var final := e.(sequence := sequence, postedAt := now);
    CanonicalIgnoresHashes(h);
    SealedEntryVerifies(CanonicalSealer(h), final, prev);
    HeaderOfBack(final);
    HeaderOfBack(e);
    assert HeaderOf(HeaderBytes(final)).sequence != HeaderOf(HeaderBytes(e)).sequence;
    assert Canonical(final)[..42] == HeaderBytes(final) && Canonical(e)[..42] == HeaderBytes(e);
  }
}
