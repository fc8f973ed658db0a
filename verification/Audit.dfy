/** The append-only audit log: a sequence number is drawn first, then hashing, writing and advancing the
    tip happen under the lock, so events can reach the file in another order than their numbers. */
module Audit {
  import opened Bytes
  import opened Hashing
  import opened Entries
  import opened Chain

  // `json` is the serialised event kind; the three hashes are hexadecimal text.
  datatype AuditEvent = AuditEvent(sequence: nat, ts: Time, json: Str, contentHash: Str, chainHash: Str, prevHash: Str)

  // A line of the file; `None` is a line that does not parse.
  type Line = Option<AuditEvent>

  function ZeroText(): (s: Str)
    ensures |s| == 64
  {
    seq(64, _ => 48)
  }

  function EventBytes(e: AuditEvent): (r: Bytes) {
    U64(e.sequence) + I64(Nanos(e.ts)) + e.json
  }

  function LinkText(sequence: nat, prev: Str, content: Str): (r: Bytes) {
    U64(sequence) + prev + content
  }

  function ContentText(h: HashFn, e: AuditEvent): (s: Str)
    ensures |s| == 64
  {
    Hex(h(EventBytes(e)))
  }

  function ChainText(h: HashFn, sequence: nat, prev: Str, content: Str): (s: Str)
    ensures |s| == 64
  {
    Hex(h(LinkText(sequence, prev, content)))
  }

  function Finalise(h: HashFn, e: AuditEvent, prev: Str): (r: AuditEvent) {
    var content := ContentText(h, e);
    e.(contentHash := content, prevHash := prev, chainHash := ChainText(h, e.sequence, prev, content))
  }

  predicate Verifies(h: HashFn, e: AuditEvent) {
    && ContentText(h, e) == e.contentHash
    && ChainText(h, e.sequence, e.prevHash, ContentText(h, e)) == e.chainHash
  }

  datatype Problem =
    | Serialisation
    | HashMismatch(sequence: nat)
    | PrevMismatch(sequence: nat, expected: Str, got: Str)

  datatype Verification = Intact(count: nat) | ChainBroken(problem: Problem)

  function LineProblem(h: HashFn, line: Line, prev: Str): (r: Option<Problem>) {
    if line.None? then Some(Serialisation)
    else if !Verifies(h, line.value) then Some(HashMismatch(line.value.sequence))
    else if line.value.prevHash != prev then Some(PrevMismatch(line.value.sequence, prev, line.value.prevHash))
    else None
  }

  /** The chain hash of the last event that parses. */
  function TipText(lines: seq<Line>): (r: Str) {
    if lines == [] then ZeroText()
    else if lines[|lines| - 1].Some? then lines[|lines| - 1].value.chainHash
    else TipText(lines[..|lines| - 1])
  }

  function LastSequence(lines: seq<Line>): (r: nat) {
    if lines == [] then 0
    else if lines[|lines| - 1].Some? then lines[|lines| - 1].value.sequence
    else LastSequence(lines[..|lines| - 1])
  }

  /** Line `i` is the last one that parses. */
  predicate LastParsed(lines: seq<Line>, i: nat) {
    i < |lines| && lines[i].Some? && forall j :: i < j < |lines| ==> lines[j].None?
  }

  lemma {:induction false} ResumesAfterLast(lines: seq<Line>, i: nat)
    requires LastParsed(lines, i)
    ensures LastSequence(lines) == lines[i].value.sequence && TipText(lines) == lines[i].value.chainHash
  {
    if i == |lines| - 1 {
    } else {
      ResumesAfterLast(lines[..|lines| - 1], i);
    }
  }

  lemma {:induction false} NothingParsed(lines: seq<Line>)
    requires forall i :: 0 <= i < |lines| ==> lines[i].None?
    ensures LastSequence(lines) == 0 && TipText(lines) == ZeroText()
  {
    if lines == [] {
    } else {
      NothingParsed(lines[..|lines| - 1]);
    }
  }

  predicate Linked(h: HashFn, lines: seq<Line>) {
    forall i :: 0 <= i < |lines| ==> LineProblem(h, lines[i], TipText(lines[..i])).None?
  }

  /** How writing a line ends: with an error before it is in the file, with one after (the flush or the sync
      fails), or well. */
  datatype WriteOutcome = NotWritten | WrittenOnly | Synced

  /** The log object. */
  class AuditLog {
    const hash: HashFn
    var file: seq<Line>
    var nextSeq: nat
    var lastChain: Str

    function Contents(): (r: (seq<Line>, nat, Str))
      reads this
    {
      (file, nextSeq, lastChain)
    }

    /** Opens the log on an existing file, resuming after its last event. */
    constructor (h: HashFn, lines: seq<Line>)
      ensures hash == h && Contents() == (lines, LastSequence(lines) + 1, TipText(lines))
      ensures forall i: nat :: LastParsed(lines, i) ==>
        nextSeq == lines[i].value.sequence + 1 && lastChain == lines[i].value.chainHash
      ensures (forall i :: 0 <= i < |lines| ==> lines[i].None?) ==> nextSeq == 1 && lastChain == ZeroText()
    {
      hash, file := h, lines;
      var last, chain := 0, ZeroText();
      for i := 0 to |lines|
        invariant last == LastSequence(lines[..i]) && chain == TipText(lines[..i])
      {
        assert lines[..i + 1][..i] == lines[..i];
        if lines[i].Some? {
          last, chain := lines[i].value.sequence, lines[i].value.chainHash;
        }
      }
      assert lines[..|lines|] == lines;
      forall i: nat | LastParsed(lines, i)
        ensures last == lines[i].value.sequence && chain == lines[i].value.chainHash
      {
        ResumesAfterLast(lines, i);
      }
      if forall i :: 0 <= i < |lines| ==> lines[i].None? {
        NothingParsed(lines);
      }
      nextSeq, lastChain := last + 1, chain;
    }

    /** The event is the caller's, chained to the tip, with the hashes of its number, time and text. */
    predicate IsSealed(e: AuditEvent, sequence: nat, ts: Time, json: Str, prev: Str) {
      && e.sequence == sequence && e.ts == ts && e.json == json && e.prevHash == prev
      && e.contentHash == Hex(hash(U64(sequence) + I64(Nanos(ts)) + json))
      && e.chainHash == Hex(hash(U64(sequence) + prev + e.contentHash))
    }

    /** The atomic increment at the start of an append. */
    method TakeSequence() returns (sequence: nat)
      modifies this`nextSeq
      ensures sequence == old(nextSeq) && Contents() == (old(file), old(nextSeq) + 1, old(lastChain))
    {
      sequence := nextSeq;
      nextSeq := nextSeq + 1;
    }

    /** The part of an append done under the lock. An I/O error returns before the tip advances; the line
        may be in the file all the same. */
    method Commit(sequence: nat, ts: Time, json: Str, io: WriteOutcome) returns (r: Option<AuditEvent>)
      modifies this`file, this`lastChain
      ensures
        var event := Finalise(hash, AuditEvent(sequence, ts, json, [], [], []), old(lastChain));
        && r == (if io.Synced? then Some(event) else None)
        && Contents() == (if io.NotWritten? then old(file) else old(file) + [Some(event)], old(nextSeq),
                          if io.Synced? then event.chainHash else old(lastChain))
        && IsSealed(event, sequence, ts, json, old(lastChain))
    {
      var event := Finalise(hash, AuditEvent(sequence, ts, json, [], [], []), lastChain);
      if io.NotWritten? {
        return None;
      }
      file := file + [Some(event)];
      if io.WrittenOnly? {
        return None;
      }
      lastChain := event.chainHash;
      r := Some(event);
    }

    method Append(ts: Time, json: Str, io: WriteOutcome) returns (r: Option<AuditEvent>)
      modifies this
      ensures
        var event := Finalise(hash, AuditEvent(old(nextSeq), ts, json, [], [], []), old(lastChain));
        && r == (if io.Synced? then Some(event) else None)
        && Contents() == (if io.NotWritten? then old(file) else old(file) + [Some(event)], old(nextSeq) + 1,
                          if io.Synced? then event.chainHash else old(lastChain))
        && IsSealed(event, old(nextSeq), ts, json, old(lastChain))
    {
      var sequence := TakeSequence();
      r := Commit(sequence, ts, json, io);
    }

    /** What is wrong with line `i`, the lines before it being in order. */
    predicate IsProblem(i: nat, p: Problem)
      requires i < |file|
      reads this
    {
      if file[i].None? then p == Serialisation
      else
        var e, tip := file[i].value, TipText(file[..i]);
        if !Verifies(hash, e) then p == HashMismatch(e.sequence)
        else e.prevHash != tip && p == PrevMismatch(e.sequence, tip, e.prevHash)
    }

    /** Counts the events of an intact file; otherwise reports the first line that breaks the chain. */
    method VerifyChain() returns (r: Verification)
      ensures r.Intact? <==> Linked(hash, file)
      ensures r.Intact? ==> r.count == |file|
      ensures r.ChainBroken? ==>
        exists i :: 0 <= i < |file| && Linked(hash, file[..i]) && IsProblem(i, r.problem)
    {
      var prev, count := ZeroText(), 0;
      for i := 0 to |file|
        invariant count == i && prev == TipText(file[..i]) && Linked(hash, file[..i])
      {
        assert file[..i + 1][..i] == file[..i];
        LinkedSnoc(hash, file[..i], file[i]);
        assert file[..i] + [file[i]] == file[..i + 1];
        if file[i].None? {
          return ChainBroken(Serialisation);
        }
        if !Verifies(hash, file[i].value) {
          return ChainBroken(HashMismatch(file[i].value.sequence));
        }
        if file[i].value.prevHash != prev {
          return ChainBroken(PrevMismatch(file[i].value.sequence, prev, file[i].value.prevHash));
        }
        prev, count := file[i].value.chainHash, count + 1;
      }
      assert file[..|file|] == file;
      r := Intact(count);
    }
  }

  lemma {:induction false} LinkedSnoc(h: HashFn, lines: seq<Line>, line: Line)
    ensures Linked(h, lines + [line]) <==> Linked(h, lines) && LineProblem(h, line, TipText(lines)).None?
  {
    var all := lines + [line];
    assert all[..|lines|] == lines;
    assert forall i :: 0 <= i < |lines| ==> all[..i] == lines[..i] && all[i] == lines[i];
    assert Linked(h, all) ==> LineProblem(h, all[|lines|], TipText(all[..|lines|])).None?;
    assert Linked(h, all) ==> Linked(h, lines) by {
      if Linked(h, all) {
        forall i | 0 <= i < |lines| ensures LineProblem(h, lines[i], TipText(lines[..i])).None? {
          assert LineProblem(h, all[i], TipText(all[..i])).None?;
        }
      }
    }
  }

  // ---- Interleavings ----

  /** `taken` are the numbers of appends in flight, `lost` those that never reached the file. */
  datatype Log = Log(file: seq<Line>, nextSeq: nat, tip: Str, taken: seq<nat>, lost: seq<nat>)

  datatype LogStep =
    | Take
    | Commit(i: nat, ts: Time, json: Str)
    | FailAfterWrite(i: nat, ts: Time, json: Str)
    | Abandon(i: nat)
    | Reopen

  const EMPTY_LOG: Log := Log([], 1, ZeroText(), [], [])

  function CommitEvent(h: HashFn, g: Log, sequence: nat, ts: Time, json: Str): (r: AuditEvent) {
    Finalise(h, AuditEvent(sequence, ts, json, [], [], []), g.tip)
  }

  function Advance(h: HashFn, g: Log, x: LogStep): (r: Log) {
    match x
    case Take => g.(nextSeq := g.nextSeq + 1, taken := g.taken + [g.nextSeq])
    case Commit(i, ts, json) =>
      if i >= |g.taken| then g
      else
        var e := CommitEvent(h, g, g.taken[i], ts, json);
        g.(file := g.file + [Some(e)], tip := e.chainHash, taken := g.taken[..i] + g.taken[i + 1..])
    case FailAfterWrite(i, ts, json) =>
      if i >= |g.taken| then g
      else
        g.(file := g.file + [Some(CommitEvent(h, g, g.taken[i], ts, json))], taken := g.taken[..i] + g.taken[i + 1..])
    case Abandon(i) =>
      if i >= |g.taken| then g else g.(taken := g.taken[..i] + g.taken[i + 1..], lost := g.lost + [g.taken[i]])
    case Reopen => Log(g.file, LastSequence(g.file) + 1, TipText(g.file), [], g.lost + g.taken)
  }

  function AdvanceAll(h: HashFn, g: Log, xs: seq<LogStep>): (r: Log) {
    if xs == [] then g else Advance(h, AdvanceAll(h, g, xs[..|xs| - 1]), xs[|xs| - 1])
  }

  function Sequences(lines: seq<Line>): (r: seq<nat>) {
    if lines == [] then []
    else
      var rest, last := Sequences(lines[..|lines| - 1]), lines[|lines| - 1];
      if last.Some? then rest + [last.value.sequence] else rest
  }

  /** The step puts a line into the file. */
  predicate Writes(g: Log, x: LogStep) {
    (x.Commit? || x.FailAfterWrite?) && x.i < |g.taken|
  }

  function WrittenEvent(h: HashFn, g: Log, x: LogStep): (r: AuditEvent)
    requires Writes(g, x)
  {
    CommitEvent(h, g, g.taken[x.i], x.ts, x.json)
  }

  lemma {:induction false} SealedVerifies(h: HashFn, g: Log, x: LogStep)
    requires Writes(g, x)
    ensures Verifies(h, WrittenEvent(h, g, x)) && WrittenEvent(h, g, x).prevHash == g.tip
  {
    assert EventBytes(WrittenEvent(h, g, x)) == EventBytes(AuditEvent(g.taken[x.i], x.ts, x.json, [], [], []));
  }

  lemma {:induction false} StepFile(h: HashFn, g: Log, x: LogStep)
    ensures Advance(h, g, x).file == if Writes(g, x) then g.file + [Some(WrittenEvent(h, g, x))] else g.file
  {
  }

  /** A line that is written links to the file exactly when the tip is the hash of the file's last event. */
  lemma {:induction false} StepLinks(h: HashFn, g: Log, x: LogStep)
    ensures Linked(h, Advance(h, g, x).file) <==> Linked(h, g.file) && (Writes(g, x) ==> g.tip == TipText(g.file))
  {
    StepFile(h, g, x);
    if Writes(g, x) {
      SealedVerifies(h, g, x);
      LinkedSnoc(h, g.file, Some(WrittenEvent(h, g, x)));
    }
  }

  /** The run has failed after a write and has not reopened the log since. */
  predicate Behind(h: HashFn, g: Log, xs: seq<LogStep>) {
    if xs == [] then false
    else
      var front, x := xs[..|xs| - 1], xs[|xs| - 1];
      !x.Reopen? && ((x.FailAfterWrite? && Writes(AdvanceAll(h, g, front), x)) || Behind(h, g, front))
  }

  /** The run writes while it is behind. */
  predicate WritesBehind(h: HashFn, g: Log, xs: seq<LogStep>) {
    xs != [] &&
    var front, x := xs[..|xs| - 1], xs[|xs| - 1];
    WritesBehind(h, g, front) || (Behind(h, g, front) && Writes(AdvanceAll(h, g, front), x))
  }

  /** An event whose chain hash is the very hash it was chained to. */
  predicate SelfChained(lines: seq<Line>) {
    exists i :: 0 <= i < |lines| && lines[i].Some? && lines[i].value.chainHash == lines[i].value.prevHash
  }

  /** The last event was chained to the tip, which did not advance. */
  predicate LeftBehind(g: Log) {
    && g.file != [] && g.file[|g.file| - 1].Some?
    && g.file[|g.file| - 1].value.prevHash == g.tip
  }

  lemma {:induction false} SelfChainedStays(h: HashFn, g: Log, x: LogStep)
    requires SelfChained(g.file)
    ensures SelfChained(Advance(h, g, x).file)
  {
    StepFile(h, g, x);
    var i :| 0 <= i < |g.file| && g.file[i].Some? && g.file[i].value.chainHash == g.file[i].value.prevHash;
    assert Advance(h, g, x).file[i] == g.file[i];
  }

  /** Where a run stands. */
  ghost predicate Standing(h: HashFn, g: Log, behind: bool, broken: bool) {
    && (!behind ==> g.tip == TipText(g.file))
    && (behind && !broken ==> LeftBehind(g))
    && (!broken ==> Linked(h, g.file))
    && (broken ==> !Linked(h, g.file) || SelfChained(g.file))
  }

  lemma {:induction false} StepStanding(h: HashFn, g: Log, x: LogStep, behind: bool, broken: bool)
    requires Standing(h, g, behind, broken)
    ensures
      var t := Advance(h, g, x);
      Standing(h, t, !x.Reopen? && ((x.FailAfterWrite? && Writes(g, x)) || behind), broken || (behind && Writes(g, x)))
  {
    StepLinks(h, g, x);
    StepFile(h, g, x);
    if Writes(g, x) {
      SealedVerifies(h, g, x);
      if behind && !broken && g.tip == TipText(g.file) {
        assert SelfChained(g.file);
      }
    }
    if SelfChained(g.file) {
      SelfChainedStays(h, g, x);
    }
  }

  lemma {:induction false} RunStanding(h: HashFn, xs: seq<LogStep>)
    ensures Standing(h, AdvanceAll(h, EMPTY_LOG, xs), Behind(h, EMPTY_LOG, xs), WritesBehind(h, EMPTY_LOG, xs))
  {
    if xs == [] {
    } else {
      var front := xs[..|xs| - 1];
      RunStanding(h, front);
      StepStanding(h, AdvanceAll(h, EMPTY_LOG, front), xs[|xs| - 1], Behind(h, EMPTY_LOG, front),
                   WritesBehind(h, EMPTY_LOG, front));
    }
  }

  /** For every interleaving, failure and reopening: the file verifies as long as nothing is written between a
      failure after a write and the next reopening; and once that happens it does not verify, unless an event
      whose chain hash equals its own previous hash is in the file. */
  lemma {:induction false} LogVerifiesExactly(h: HashFn, xs: seq<LogStep>)
    ensures !WritesBehind(h, EMPTY_LOG, xs) ==> Linked(h, AdvanceAll(h, EMPTY_LOG, xs).file)
    ensures WritesBehind(h, EMPTY_LOG, xs) ==>
      !Linked(h, AdvanceAll(h, EMPTY_LOG, xs).file) || SelfChained(AdvanceAll(h, EMPTY_LOG, xs).file)
    ensures !Behind(h, EMPTY_LOG, xs) ==> AdvanceAll(h, EMPTY_LOG, xs).tip == TipText(AdvanceAll(h, EMPTY_LOG, xs).file)
  {
    RunStanding(h, xs);
  }

  /** A failure after a write, followed by another append: the file verifies exactly when the first event's
      chain hash is the tip it was chained to. */
  lemma {:induction false} FailedSyncBreaksChain(h: HashFn, g: Log, failed: LogStep, next: LogStep)
    requires Linked(h, g.file) && g.tip == TipText(g.file) && |g.taken| >= 2
    requires failed.FailAfterWrite? && failed.i == 0 && next.Commit? && next.i == 0
    ensures Linked(h, Advance(h, Advance(h, g, failed), next).file) <==> WrittenEvent(h, g, failed).chainHash == g.tip
  {
    var u := Advance(h, g, failed);
    StepLinks(h, g, failed);
    StepFile(h, g, failed);
    assert u.tip == g.tip && TipText(u.file) == WrittenEvent(h, g, failed).chainHash;
    StepLinks(h, u, next);
  }

  // ---- Sequence numbers ----

  function UpTo(n: nat): (r: seq<nat>) {
    seq(n, i => i + 1)
  }

  predicate NeverReopened(xs: seq<LogStep>) {
    forall i :: 0 <= i < |xs| ==> !xs[i].Reopen?
  }

  /** The numbers 1 to n, each written, in flight or lost. */
  ghost predicate Cover(written: multiset<nat>, taken: multiset<nat>, lost: multiset<nat>, n: nat) {
    written + taken + lost == multiset(UpTo(n))
  }

  ghost predicate Accounted(g: Log) {
    g.nextSeq > 0 && Cover(multiset(Sequences(g.file)), multiset(g.taken), multiset(g.lost), g.nextSeq - 1)
  }

  lemma {:induction false} RemoveAt(s: seq<nat>, i: nat)
    requires i < |s|
    ensures multiset(s) == multiset(s[..i] + s[i + 1..]) + multiset{s[i]}
  {
    assert s == s[..i] + [s[i]] + s[i + 1..];
  }

  lemma {:induction false} SequencesSnoc(lines: seq<Line>, e: AuditEvent)
    ensures Sequences(lines + [Some(e)]) == Sequences(lines) + [e.sequence]
  {
    assert (lines + [Some(e)])[..|lines|] == lines;
  }

  lemma {:induction false} TakeCovers(written: multiset<nat>, taken: multiset<nat>, lost: multiset<nat>, next: nat)
    requires next > 0 && Cover(written, taken, lost, next - 1)
    ensures Cover(written, taken + multiset{next}, lost, next)
  {
    assert UpTo(next) == UpTo(next - 1) + [next];
  }

  /** A number in flight is written or lost. */
  lemma {:induction false} MoveCovers(written: multiset<nat>, taken: multiset<nat>, lost: multiset<nat>, n: nat, x: nat)
    requires Cover(written, taken + multiset{x}, lost, n)
    ensures Cover(written + multiset{x}, taken, lost, n) && Cover(written, taken, lost + multiset{x}, n)
  {
    assert written + multiset{x} + taken + lost == written + (taken + multiset{x}) + lost;
    assert written + taken + (lost + multiset{x}) == written + (taken + multiset{x}) + lost;
  }

  /** A log that differs by one number, written instead of in flight. */
  lemma {:induction false} WrittenAccounts(g: Log, t: Log, i: nat)
    requires Accounted(g) && i < |g.taken| && t.lost == g.lost && t.nextSeq == g.nextSeq
    requires Sequences(t.file) == Sequences(g.file) + [g.taken[i]] && t.taken == g.taken[..i] + g.taken[i + 1..]
    ensures Accounted(t)
  {
    RemoveAt(g.taken, i);
    MoveCovers(multiset(Sequences(g.file)), multiset(t.taken), multiset(g.lost), g.nextSeq - 1, g.taken[i]);
    assert multiset(Sequences(t.file)) == multiset(Sequences(g.file)) + multiset{g.taken[i]};
  }

  lemma {:induction false} WriteAccounts(h: HashFn, g: Log, x: LogStep)
    requires Accounted(g) && Writes(g, x)
    ensures Accounted(Advance(h, g, x))
  {
    WriteMoves(h, g, x);
    WrittenAccounts(g, Advance(h, g, x), x.i);
  }

  /** A log that differs by one number, lost instead of in flight. */
  lemma {:induction false} LostAccounts(g: Log, t: Log, i: nat)
    requires Accounted(g) && i < |g.taken| && t.file == g.file && t.nextSeq == g.nextSeq
    requires t.lost == g.lost + [g.taken[i]] && t.taken == g.taken[..i] + g.taken[i + 1..]
    ensures Accounted(t)
  {
    RemoveAt(g.taken, i);
    MoveCovers(multiset(Sequences(g.file)), multiset(t.taken), multiset(g.lost), g.nextSeq - 1, g.taken[i]);
    assert multiset(t.lost) == multiset(g.lost) + multiset{g.taken[i]};
  }

  lemma {:induction false} StepAccounts(h: HashFn, g: Log, x: LogStep)
    requires Accounted(g) && !x.Reopen?
    ensures Accounted(Advance(h, g, x))
  {
    match x
    case Take => TakeCovers(multiset(Sequences(g.file)), multiset(g.taken), multiset(g.lost), g.nextSeq);
    case Commit(_, _, _) =>
      if Writes(g, x) {
        WriteAccounts(h, g, x);
      }
    case FailAfterWrite(_, _, _) =>
      if Writes(g, x) {
        WriteAccounts(h, g, x);
      }
    case Abandon(i) =>
      if i < |g.taken| {
        LostAccounts(g, Advance(h, g, x), i);
      }
    case Reopen =>
  }

  /** Every number drawn is written, in flight or lost, each exactly once. */
  lemma {:induction false} NumbersAreAccountedFor(h: HashFn, xs: seq<LogStep>)
    requires NeverReopened(xs)
    ensures Accounted(AdvanceAll(h, EMPTY_LOG, xs))
  {
    if xs != [] {
      NumbersAreAccountedFor(h, xs[..|xs| - 1]);
      StepAccounts(h, AdvanceAll(h, EMPTY_LOG, xs[..|xs| - 1]), xs[|xs| - 1]);
    } else {
      assert UpTo(0) == [];
    }
  }

  predicate AllParse(lines: seq<Line>) {
    forall i :: 0 <= i < |lines| ==> lines[i].Some?
  }

  lemma {:induction false} RunParses(h: HashFn, xs: seq<LogStep>)
    ensures AllParse(AdvanceAll(h, EMPTY_LOG, xs).file)
  {
    if xs == [] {
    } else {
      RunParses(h, xs[..|xs| - 1]);
      StepFile(h, AdvanceAll(h, EMPTY_LOG, xs[..|xs| - 1]), xs[|xs| - 1]);
    }
  }

  lemma {:induction false} SequencesLength(lines: seq<Line>)
    requires AllParse(lines)
    ensures |Sequences(lines)| == |lines|
  {
    if lines == [] {
    } else {
      SequencesLength(lines[..|lines| - 1]);
    }
  }

  /** With no append in flight and none failed, the file numbers its n events 1 to n in some order. */
  lemma {:induction false} NumbersArePermutation(h: HashFn, xs: seq<LogStep>)
    requires NeverReopened(xs)
    ensures
      var g := AdvanceAll(h, EMPTY_LOG, xs);
      g.taken == [] && g.lost == [] ==>
        && multiset(Sequences(g.file)) == multiset(UpTo(|g.file|)) && g.nextSeq == |g.file| + 1
  {
    var g := AdvanceAll(h, EMPTY_LOG, xs);
    NumbersAreAccountedFor(h, xs);
    RunParses(h, xs);
    SequencesLength(g.file);
    if g.taken == [] && g.lost == [] {
      assert multiset(Sequences(g.file)) == multiset(UpTo(g.nextSeq - 1));
      assert |multiset(Sequences(g.file))| == |Sequences(g.file)|;
      assert |multiset(UpTo(g.nextSeq - 1))| == |UpTo(g.nextSeq - 1)|;
    }
  }

  lemma {:induction false} WriteMoves(h: HashFn, g: Log, x: LogStep)
    requires Writes(g, x)
    ensures
      var t, i := Advance(h, g, x), x.i;
      && Sequences(t.file) == Sequences(g.file) + [g.taken[i]] && t.taken == g.taken[..i] + g.taken[i + 1..]
      && t.lost == g.lost && t.nextSeq == g.nextSeq
  {
    StepFile(h, g, x);
    SequencesSnoc(g.file, WrittenEvent(h, g, x));
  }

  /** Any two appends that overlap can reach the file in the other order. */
  lemma {:induction false} NumbersCanBeOutOfOrder(h: HashFn, g: Log, second: LogStep, first: LogStep)
    requires g.taken == [] && second.Commit? && second.i == 1 && first.Commit? && first.i == 0
    ensures
      var t := Advance(h, Advance(h, Advance(h, Advance(h, g, Take), Take), second), first);
      Sequences(t.file) == Sequences(g.file) + [g.nextSeq + 1, g.nextSeq] && t.taken == []
  {
    var u := Advance(h, Advance(h, g, Take), Take);
    assert u.taken == [g.nextSeq, g.nextSeq + 1] && u.file == g.file;
    WriteMoves(h, u, second);
    WriteMoves(h, Advance(h, u, second), first);
  }

  // ---- Reopening ----

  /** A reopened log continues the chain of its file, under the number after the last event's. */
  lemma {:induction false} AppendAfterReopen(h: HashFn, g: Log, next: LogStep)
    requires next.Commit? && next.i == 0
    ensures
      var r := Advance(h, g, Reopen);
      var t := Advance(h, Advance(h, r, Take), next);
      && r.tip == TipText(g.file) && r.nextSeq == LastSequence(g.file) + 1
      && (Linked(h, t.file) <==> Linked(h, g.file)) && Sequences(t.file) == Sequences(g.file) + [r.nextSeq]
  {
    var r := Advance(h, g, Reopen);
    var u := Advance(h, r, Take);
    assert r.taken == [] && r.file == g.file && r.tip == TipText(g.file);
    assert u.taken == [r.nextSeq] && u.file == g.file && u.tip == r.tip;
    StepLinks(h, u, next);
    OneAppend(h, r, next);
  }

  function MaxNumber(numbers: seq<nat>): (m: nat)
    ensures forall i :: 0 <= i < |numbers| ==> numbers[i] <= m
    ensures m in numbers || m == 0
  {
    if numbers == [] then 0
    else
      var m := MaxNumber(numbers[..|numbers| - 1]);
      if m < numbers[|numbers| - 1] then numbers[|numbers| - 1] else m
  }

  /** A run from `g` writes a number that the file of `g` already holds. */
  ghost predicate Repeats(h: HashFn, g: Log, xs: seq<LogStep>) {
    exists x: nat :: x in Sequences(g.file) &&
      multiset(Sequences(AdvanceAll(h, g, xs).file))[x] > multiset(Sequences(g.file))[x]
  }

  /** Everything drawn from `g` on is at least `n`. */
  ghost predicate DrawsFrom(start: seq<nat>, n: nat, g: Log) {
    && g.nextSeq >= n
    && (forall i :: 0 <= i < |g.taken| ==> g.taken[i] >= n)
    && start <= Sequences(g.file)
    && forall i :: |start| <= i < |Sequences(g.file)| ==> Sequences(g.file)[i] >= n
  }

  lemma {:induction false} StepDraws(h: HashFn, start: seq<nat>, n: nat, g: Log, x: LogStep)
    requires DrawsFrom(start, n, g) && !x.Reopen?
    ensures DrawsFrom(start, n, Advance(h, g, x))
  {
    StepFile(h, g, x);
    if Writes(g, x) {
      WriteMoves(h, g, x);
    }
  }

  lemma {:induction false} RunDraws(h: HashFn, g: Log, xs: seq<LogStep>)
    requires g.taken == [] && NeverReopened(xs)
    ensures DrawsFrom(Sequences(g.file), g.nextSeq, AdvanceAll(h, g, xs))
  {
    if xs == [] {
    } else {
      RunDraws(h, g, xs[..|xs| - 1]);
      StepDraws(h, Sequences(g.file), g.nextSeq, AdvanceAll(h, g, xs[..|xs| - 1]), xs[|xs| - 1]);
    }
  }

  lemma {:induction false} LaterNumbersDiffer(start: seq<nat>, all: seq<nat>, n: nat, x: nat)
    requires start <= all && (forall i :: |start| <= i < |all| ==> all[i] >= n) && x < n
    ensures multiset(all)[x] == multiset(start)[x]
  {
    var more := all[|start|..];
    assert all == start + more;
    assert x !in more;
    assert x !in multiset(more);
  }

  /** One append after another. */
  function Serially(commit: LogStep, n: nat): (r: seq<LogStep>) {
    if n == 0 then [] else Serially(commit, n - 1) + [Take] + [commit]
  }

  lemma {:induction false} SeriallyNeverReopens(commit: LogStep, n: nat)
    requires !commit.Reopen?
    ensures NeverReopened(Serially(commit, n))
  {
    if n == 0 {
    } else {
      SeriallyNeverReopens(commit, n - 1);
    }
  }

  lemma {:induction false} AdvanceSnoc(h: HashFn, g: Log, xs: seq<LogStep>, x: LogStep)
    ensures AdvanceAll(h, g, xs + [x]) == Advance(h, AdvanceAll(h, g, xs), x)
  {
    assert (xs + [x])[..|xs|] == xs;
  }

  function Numbers(from: nat, n: nat): (r: seq<nat>) {
    seq(n, i requires 0 <= i < n => from + i)
  }

  lemma {:induction false} OneAppend(h: HashFn, g: Log, commit: LogStep)
    requires g.taken == [] && commit.Commit? && commit.i == 0
    ensures
      var t := Advance(h, Advance(h, g, Take), commit);
      t.taken == [] && t.nextSeq == g.nextSeq + 1 && Sequences(t.file) == Sequences(g.file) + [g.nextSeq]
  {
    var u := Advance(h, g, Take);
    assert u.taken == [g.nextSeq] && u.file == g.file;
    WriteMoves(h, u, commit);
  }

  /** A log after `n` appends under consecutive numbers. */
  ghost predicate GrewBy(g: Log, n: nat, t: Log) {
    t.taken == [] && t.nextSeq == g.nextSeq + n && Sequences(t.file) == Sequences(g.file) + Numbers(g.nextSeq, n)
  }

  lemma {:induction false} OneMoreAppend(h: HashFn, g: Log, n: nat, t: Log, commit: LogStep)
    requires GrewBy(g, n, t) && commit.Commit? && commit.i == 0
    ensures GrewBy(g, n + 1, Advance(h, Advance(h, t, Take), commit))
  {
    OneAppend(h, t, commit);
    assert Numbers(g.nextSeq, n + 1) == Numbers(g.nextSeq, n) + [g.nextSeq + n];
  }

  lemma {:induction false} SerialAppends(h: HashFn, g: Log, commit: LogStep, n: nat)
    requires g.taken == [] && commit.Commit? && commit.i == 0
    ensures GrewBy(g, n, AdvanceAll(h, g, Serially(commit, n)))
  {
    if n == 0 {
    } else {
      var xs := Serially(commit, n - 1);
      SerialAppends(h, g, commit, n - 1);
      AdvanceSnoc(h, g, xs, Take);
      AdvanceSnoc(h, g, xs + [Take], commit);
      OneMoreAppend(h, g, n - 1, AdvanceAll(h, g, xs), commit);
    }
  }

  lemma {:induction false} SerialReachesMax(h: HashFn, r: Log)
    requires r.taken == [] && r.nextSeq <= MaxNumber(Sequences(r.file)) && 0 < r.nextSeq
    ensures exists xs :: NeverReopened(xs) && Repeats(h, r, xs)
  {
    var numbers := Sequences(r.file);
    var max := MaxNumber(numbers);
    var n := max - r.nextSeq + 1;
    var commit := Commit(0, 0, []);
    SerialAppends(h, r, commit, n);
    SeriallyNeverReopens(commit, n);
    var more := Numbers(r.nextSeq, n);
    assert more[n - 1] == max;
    assert max in multiset(more);
    assert multiset(numbers + more) == multiset(numbers) + multiset(more);
    assert Repeats(h, r, Serially(commit, n));
  }

  /** For every log whatever: after a reopening, some later run repeats a number that the file holds, exactly
      when the last event does not carry the highest number. */
  lemma {:induction false} ReopenRepeatsNumbers(h: HashFn, g: Log)
    ensures
      var r := Advance(h, g, Reopen);
      (exists xs :: NeverReopened(xs) && Repeats(h, r, xs)) <==> LastSequence(g.file) < MaxNumber(Sequences(g.file))
  {
    var r := Advance(h, g, Reopen);
    if LastSequence(g.file) < MaxNumber(Sequences(g.file)) {
      SerialReachesMax(h, r);
    } else {
      forall xs | NeverReopened(xs) ensures !Repeats(h, r, xs) {
        RunDraws(h, r, xs);
        forall x: nat | x in Sequences(r.file)
          ensures multiset(Sequences(AdvanceAll(h, r, xs).file))[x] == multiset(Sequences(r.file))[x]
        {
          assert x < r.nextSeq;
          LaterNumbersDiffer(Sequences(r.file), Sequences(AdvanceAll(h, r, xs).file), r.nextSeq, x);
        }
      }
    }
  }

  // ---- The tip binds the log ----

  /** The same number, as a u64, the same instant as it is hashed, the same text and the same hashes. */
  predicate SameEvent(x: AuditEvent, y: AuditEvent) {
    && x.sequence % TWO_64 == y.sequence % TWO_64 && Nanos(x.ts) == Nanos(y.ts) && x.json == y.json
    && x.contentHash == y.contentHash && x.prevHash == y.prevHash && x.chainHash == y.chainHash
  }

  predicate SameEvents(a: seq<Line>, b: seq<Line>) {
    |a| == |b| && forall i :: 0 <= i < |a| ==> a[i].Some? && b[i].Some? && SameEvent(a[i].value, b[i].value)
  }

  /** What is hashed fixes number, instant and text. */
  lemma {:induction false} EventBytesInjective(x: AuditEvent, y: AuditEvent)
    requires EventBytes(x) == EventBytes(y)
    ensures x.sequence % TWO_64 == y.sequence % TWO_64 && Nanos(x.ts) == Nanos(y.ts) && x.json == y.json
  {
    var a, b := EventBytes(x), EventBytes(y);
    assert U64(x.sequence) == a[..8] == b[..8] == U64(y.sequence);
    U64RoundTrip(x.sequence);
    U64RoundTrip(y.sequence);
    assert I64(Nanos(x.ts)) == a[8..16] == b[8..16] == I64(Nanos(y.ts));
    I64RoundTrip(Nanos(x.ts));
    I64RoundTrip(Nanos(y.ts));
    assert x.json == a[16..] == b[16..] == y.json;
  }

  /** An event altered in its number, instant or text, its content hash kept, verifies only on a collision. */
  lemma {:induction false} AlteredEventNeedsCollision(h: HashFn, x: AuditEvent, y: AuditEvent)
    requires Verifies(h, x) && x.contentHash == y.contentHash
    requires !(x.sequence % TWO_64 == y.sequence % TWO_64 && Nanos(x.ts) == Nanos(y.ts) && x.json == y.json)
    ensures Verifies(h, y) ==> Collision(h, {EventBytes(x)}, {EventBytes(y)})
  {
    if Verifies(h, y) {
      HexInjective(h(EventBytes(x)), h(EventBytes(y)));
      if EventBytes(x) == EventBytes(y) {
        EventBytesInjective(x, y);
      }
    }
  }

  function EventInputs(h: HashFn, e: AuditEvent): (r: set<Bytes>) {
    {EventBytes(e), LinkText(e.sequence, e.prevHash, ContentText(h, e))}
  }

  function LogInputs(h: HashFn, lines: seq<Line>): (r: set<Bytes>) {
    if lines == [] then {}
    else
      var rest, last := LogInputs(h, lines[..|lines| - 1]), lines[|lines| - 1];
      if last.Some? then rest + EventInputs(h, last.value) else rest
  }

  lemma {:induction false} ZeroTextIsHex(n: nat)
    ensures Hex(Zeros(n)) == seq(2 * n, _ => 48)
  {
    if n == 0 {
    } else {
      assert Zeros(n)[1..] == Zeros(n - 1);
      ZeroTextIsHex(n - 1);
    }
  }

  /** The text a first event is chained to is the hexadecimal zero hash. */
  lemma {:induction false} ZeroTextIsZeroHash()
    ensures ZeroText() == Hex(ZERO_HASH)
  {
    ZeroTextIsHex(32);
  }

  lemma {:induction false} LinkTextInjective(s: nat, p: Str, c: Str, s': nat, p': Str, c': Str)
    requires |c| == |c'| && LinkText(s, p, c) == LinkText(s', p', c')
    ensures s % TWO_64 == s' % TWO_64 && p == p' && c == c'
  {
    var a, b := LinkText(s, p, c), LinkText(s', p', c');
    assert U64(s) == a[..8] == b[..8] == U64(s');
    U64RoundTrip(s);
    U64RoundTrip(s');
    assert |p| == |p'|;
    assert p == a[8..8 + |p|] == b[8..8 + |p|] == p';
    assert c == a[8 + |p|..] == b[8 + |p|..] == c';
  }

  /** Events that verify and share a chain hash agree, or their inputs collide. */
  lemma {:induction false} EventsAgree(h: HashFn, x: AuditEvent, y: AuditEvent)
    requires Verifies(h, x) && Verifies(h, y) && x.chainHash == y.chainHash
    ensures
      || SameEvent(x, y)
      || Collision(h, EventInputs(h, x), EventInputs(h, y))
  {
    var a := LinkText(x.sequence, x.prevHash, x.contentHash);
    var b := LinkText(y.sequence, y.prevHash, y.contentHash);
    HexInjective(h(a), h(b));
    if a == b {
      LinkTextInjective(x.sequence, x.prevHash, x.contentHash, y.sequence, y.prevHash, y.contentHash);
      HexInjective(h(EventBytes(x)), h(EventBytes(y)));
      EqualHashes(h, EventBytes(x), EventBytes(y), EventInputs(h, x), EventInputs(h, y));
      if EventBytes(x) == EventBytes(y) {
        EventBytesInjective(x, y);
      }
    } else {
      EqualHashes(h, a, b, EventInputs(h, x), EventInputs(h, y));
    }
  }

  lemma {:induction false} ZeroTipNeedsPreimage(h: HashFn, lines: seq<Line>)
    requires Linked(h, lines) && lines != [] && TipText(lines) == ZeroText()
    ensures exists x :: x in LogInputs(h, lines) && h(x) == ZERO_HASH
  {
    assert LineProblem(h, lines[|lines| - 1], TipText(lines[..|lines| - 1])).None?;
    var e := lines[|lines| - 1].value;
    var a := LinkText(e.sequence, e.prevHash, ContentText(h, e));
    ZeroTextIsZeroHash();
    HexInjective(h(a), ZERO_HASH);
    assert a in LogInputs(h, lines);
  }

  lemma {:induction false} LastEvent(h: HashFn, lines: seq<Line>)
    requires Linked(h, lines) && lines != []
    ensures
      var front, last := lines[..|lines| - 1], lines[|lines| - 1];
      && last.Some? && Linked(h, front) && Verifies(h, last.value) && last.value.prevHash == TipText(front)
      && TipText(lines) == last.value.chainHash
      && LogInputs(h, lines) == LogInputs(h, front) + EventInputs(h, last.value)
  {
    var front, last := lines[..|lines| - 1], lines[|lines| - 1];
    assert front + [last] == lines;
    LinkedSnoc(h, front, last);
  }

  lemma {:induction false} SameEventsGrow(a: seq<Line>, b: seq<Line>)
    requires a != [] && b != [] && SameEvents(a[..|a| - 1], b[..|b| - 1])
    requires a[|a| - 1].Some? && b[|b| - 1].Some? && SameEvent(a[|a| - 1].value, b[|b| - 1].value)
    ensures SameEvents(a, b)
  {
    var a', b' := a[..|a| - 1], b[..|b| - 1];
    assert forall i :: 0 <= i < |a'| ==> a'[i] == a[i] && b'[i] == b[i];
  }

  /** Two files that verify and end in the same chain hash record the same events, or a collision or a
      preimage of the zero hash is at hand among the hashed inputs. */
  lemma {:induction false} TipBindsLog(h: HashFn, a: seq<Line>, b: seq<Line>)
    requires Linked(h, a) && Linked(h, b) && TipText(a) == TipText(b)
    ensures SameEvents(a, b) || HashBroken(h, LogInputs(h, a), LogInputs(h, b))
    decreases |a|, 1
  {
    if a == [] && b == [] {
    } else if a == [] {
      ZeroTipNeedsPreimage(h, b);
    } else if b == [] {
      ZeroTipNeedsPreimage(h, a);
    } else {
      LastEventsBind(h, a, b);
    }
  }

  lemma {:induction false} LastEventsBind(h: HashFn, a: seq<Line>, b: seq<Line>)
    requires a != [] && b != [] && Linked(h, a) && Linked(h, b) && TipText(a) == TipText(b)
    ensures SameEvents(a, b) || HashBroken(h, LogInputs(h, a), LogInputs(h, b))
    decreases |a|, 0
  {
    LastEvent(h, a);
    LastEvent(h, b);
    var a', b', x, y := a[..|a| - 1], b[..|b| - 1], a[|a| - 1].value, b[|b| - 1].value;
    EventsAgree(h, x, y);
    if SameEvent(x, y) {
      TipBindsLog(h, a', b');
      if HashBroken(h, LogInputs(h, a'), LogInputs(h, b')) {
        HashBrokenMonotone(h, LogInputs(h, a'), LogInputs(h, b'), LogInputs(h, a), LogInputs(h, b));
      } else {
        SameEventsGrow(a, b);
      }
    } else {
      HashBrokenMonotone(h, EventInputs(h, x), EventInputs(h, y), LogInputs(h, a), LogInputs(h, b));
    }
  }
}
