/** Whether the approved and the rejected file of the four-eyes queue agree, and when the files partition
    what was submitted. */
module FourEyesAgreement {
  import opened Bytes
  import opened Entries
  import opened Ledger
  import opened Correction
  import opened FourEyes
  import opened FourEyesRuns

  // ---- The approved and the rejected file ----

  ghost predicate Consistent(q: Queue) {
    forall id :: !(InFile(q.approved, id) && InFile(q.rejected, id))
  }

  /** The id of every record in memory is the one it is filed under. */
  predicate FiledById(memory: map<Uuid, Record>) {
    forall id :: id in memory ==> memory[id].id == id
  }

  /** An approval that runs to its end leaves the files in agreement exactly when they agreed and it did not
      go through for an id that was already rejected. */
  lemma {:induction false} ApprovalAgrees(q: Queue, id: Uuid, approver: Str, now: Time, post: JournalEntry -> bool)
    requires FiledById(q.memory)
    ensures
      var goesThrough :=
        FindRecord(q.approved, id).None? && DecisionError(q, id, approver).None? && post(q.memory[id].payload);
      Consistent(ApproveCall(q, id, approver, now, post).0) <==>
      Consistent(q) && !(goesThrough && InFile(q.rejected, id))
  {
    if DecisionError(q, id, approver).None? {
      LoadSnoc(q.approved, DecidedRecord(q.memory[id], ApprovalStatus.Approved, approver, None, now));
    }
  }

  /** And a rejection, exactly when it did not go through for an id that was already approved. */
  lemma {:induction false} RejectionAgrees(q: Queue, id: Uuid, approver: Str, reason: Str, now: Time)
    requires FiledById(q.memory)
    ensures Consistent(RejectCall(q, id, approver, reason, now).0) <==>
      Consistent(q) && !(DecisionError(q, id, approver).None? && InFile(q.approved, id))
  {
    if DecisionError(q, id, approver).None? {
      LoadSnoc(q.rejected, DecidedRecord(q.memory[id], ApprovalStatus.Rejected, approver, Some(reason), now));
    }
  }

  // ---- Which interruptions do harm ----

  /** A crash or a failure that does not fall between recording a decision and removing the pending line, nor
      a failure between that removal and forgetting the record. */
  predicate Harmless(d: Desk, x: Action) {
    && (x.Crash? ==> !d.running.ApprovedIt? && !d.running.RejectedIt?)
    && (x.Fail? ==> !d.running.ApprovedIt? && !d.running.RejectedIt? && !d.running.RemovedIt?)
  }

  ghost predicate HarmlessThroughout(k: Sealer, d: Desk, xs: seq<Action>) {
    xs == [] || (HarmlessThroughout(k, d, xs[..|xs| - 1]) && Harmless(Acts(k, d, xs[..|xs| - 1]), xs[|xs| - 1]))
  }

  ghost predicate Within(m: map<Uuid, Record>, n: map<Uuid, Record>) {
    forall id :: id in m ==> id in n && n[id] == m[id]
  }

  predicate Once(q: Queue, id: Uuid) {
    var p, a, r := InFile(q.pending, id), InFile(q.approved, id), InFile(q.rejected, id);
    (p && !a && !r) || (!p && a && !r) || (!p && !a && r)
  }

  predicate Nowhere(q: Queue, id: Uuid) {
    !InFile(q.pending, id) && !InFile(q.approved, id) && !InFile(q.rejected, id)
  }

  /** The three files partition the submitted ids, but for one whose decision is being recorded. */
  ghost predicate Partitioned(submitted: map<Uuid, JournalEntry>, q: Queue, moving: Option<Uuid>) {
    forall id :: if id in submitted then Some(id) == moving || Once(q, id) else Nowhere(q, id)
  }

  /** Memory holds nothing that the pending file does not hold, but for a record about to be forgotten. */
  ghost predicate Aligned(submitted: map<Uuid, JournalEntry>, q: Queue, running: Running) {
    match running
    case Quiet => Within(q.memory, Load(q.pending)) && Partitioned(submitted, q, None)
    case Submitting(r) =>
      && Within(q.memory, Load(q.pending)) && Partitioned(submitted, q, None)
      && r.id in Load(q.pending) && Load(q.pending)[r.id] == r
    case PostedIt(r) => Within(q.memory, Load(q.pending)) && Partitioned(submitted, q, None) && r.id in q.memory
    case ApprovedIt(id) =>
      && Within(q.memory, Load(q.pending)) && Partitioned(submitted, q, Some(id))
      && id in submitted && InFile(q.approved, id) && !InFile(q.rejected, id)
    case RejectedIt(id) =>
      && Within(q.memory, Load(q.pending)) && Partitioned(submitted, q, Some(id))
      && id in submitted && InFile(q.rejected, id) && !InFile(q.approved, id)
    case RemovedIt(id) => Within(q.memory - {id}, Load(q.pending)) && Partitioned(submitted, q, None)
  }

  lemma {:induction false} LoadedIds(lines: seq<Line>, id: Uuid)
    requires id in Load(lines)
    ensures Load(lines)[id].id == id && InFile(lines, id)
  {
    LoadKeys(lines, id);
    var front, last := lines[..|lines| - 1], lines[|lines| - 1];
    if id !in Load(front) {
    } else {
      LoadedIds(front, id);
    }
  }

  lemma {:induction false} RemovalKeepsAligned(submitted: map<Uuid, JournalEntry>, q: Queue, id: Uuid)
    requires Within(q.memory, Load(q.pending)) && Partitioned(submitted, q, Some(id)) && id in submitted
    requires InFile(q.approved, id) != InFile(q.rejected, id)
    ensures Aligned(submitted, RemovePending(q, id), RemovedIt(id))
  {
    LoadWithout(q.pending, id);
    forall x ensures var p := RemovePending(q, id); if x in submitted then Once(p, x) else Nowhere(p, x) {
      WithoutFiles(q.pending, id, x);
    }
  }

  lemma {:induction false} ContinueKeepsAligned(submitted: map<Uuid, JournalEntry>, q: Queue, running: Running)
    requires Aligned(submitted, q, running)
    ensures var (p, next) := NextStep(q, running); Aligned(submitted, p, next)
  {
    match running
    case PostedIt(r) => RecordingKeepsAligned(submitted, q, r);
    case ApprovedIt(id) => RemovalKeepsAligned(submitted, q, id);
    case RejectedIt(id) => RemovalKeepsAligned(submitted, q, id);
    case _ =>
  }

  lemma {:induction false} RecordingKeepsAligned(submitted: map<Uuid, JournalEntry>, q: Queue, r: Record)
    requires Aligned(submitted, q, PostedIt(r))
    ensures Aligned(submitted, PersistApproved(q, r), ApprovedIt(r.id))
  {
    LoadSnoc(q.approved, r);
    LoadKeys(q.pending, r.id);
    assert Once(q, r.id);
  }

  lemma {:induction false} SubmitKeepsAligned(submitted: map<Uuid, JournalEntry>, q: Queue, r: Record)
    requires Aligned(submitted, q, Quiet) && r.id !in submitted
    ensures Aligned(submitted[r.id := r.payload], PersistPending(q, r), Submitting(r))
  {
    LoadSnoc(q.pending, r);
    LoadKeys(q.pending, r.id);
  }

  lemma {:induction false} RejectKeepsAligned(d: Desk, id: Uuid, approver: Str, reason: Str, now: Time)
    requires Aligned(d.submitted, d.queue, Quiet) && d.running == Quiet
    ensures var t := StartRejection(d, id, approver, reason, now); Aligned(t.submitted, t.queue, t.running)
  {
    if DecisionError(d.queue, id, approver).None? {
      LoadedIds(d.queue.pending, id);
      LoadSnoc(d.queue.rejected,
               DecidedRecord(d.queue.memory[id], ApprovalStatus.Rejected, approver, Some(reason), now));
    }
  }

  lemma {:induction false} ActKeepsAligned(k: Sealer, d: Desk, x: Action)
    requires Aligned(d.submitted, d.queue, d.running) && Legal(d, x) && Harmless(d, x)
    ensures var t := Act(k, d, x); Aligned(t.submitted, t.queue, t.running)
  {
    match x
    case Submit(r) =>
      if d.running == Quiet {
        SubmitKeepsAligned(d.submitted, d.queue, r);
      }
    case Approve(id, approver, now, reg) =>
      if d.running == Quiet && Posts(d, id, approver, reg) {
        LoadedIds(d.queue.pending, id);
      }
    case Reject(id, approver, reason, now) =>
      if d.running == Quiet {
        RejectKeepsAligned(d, id, approver, reason, now);
      }
    case Continue => ContinueKeepsAligned(d.submitted, d.queue, d.running);
    case _ =>
  }

  lemma {:induction false} NewDeskIsAligned(d: Desk)
    requires NewDesk(d)
    ensures Aligned(d.submitted, d.queue, d.running)
    ensures Loaded(d.queue, d.running) && OnePostEach(d.queue, d.running, d.posts)
  {
    var q := d.queue;
    assert forall l :: l in q.pending || l in q.approved || l in q.rejected ==>
      l in q.pending + q.approved + q.rejected;
    NoRecords(q.pending);
    NoRecords(q.approved);
    NoRecords(q.rejected);
  }

  lemma {:induction false} HarmlessKeepsAligned(k: Sealer, d: Desk, xs: seq<Action>)
    requires NewDesk(d) && LegalThroughout(k, d, xs) && HarmlessThroughout(k, d, xs)
    ensures var t := Acts(k, d, xs); Aligned(t.submitted, t.queue, t.running)
  {
    if xs == [] {
      NewDeskIsAligned(d);
    } else {
      HarmlessKeepsAligned(k, d, xs[..|xs| - 1]);
      ActKeepsAligned(k, Acts(k, d, xs[..|xs| - 1]), xs[|xs| - 1]);
    }
  }

  /** A run whose interruptions are all harmless never has an id both approved and rejected, and between calls
      its three files partition the submitted ids. */
  lemma {:induction false} HarmlessRunsAgree(k: Sealer, d: Desk, xs: seq<Action>)
    requires NewDesk(d) && LegalThroughout(k, d, xs) && HarmlessThroughout(k, d, xs)
    ensures
      var t := Acts(k, d, xs);
      && Consistent(t.queue)
      && (t.running == Quiet ==> forall id :: if id in t.submitted then Once(t.queue, id) else Nowhere(t.queue, id))
  {
    var t := Acts(k, d, xs);
    HarmlessKeepsAligned(k, d, xs);
    forall id ensures !(InFile(t.queue.approved, id) && InFile(t.queue.rejected, id)) {
      assert id in t.submitted ==> Once(t.queue, id) || t.running == ApprovedIt(id) || t.running == RejectedIt(id);
      assert id !in t.submitted ==> Nowhere(t.queue, id);
    }
  }

  /** An interruption that is not harmless: a crash or a failure right after a decision was recorded, or a
      failure one step later. */
  predicate Harmful(cut: Action, late: bool) {
    (cut.Crash? && !late) || cut.Fail?
  }

  ghost function OneLater(k: Sealer, d: Desk, late: bool): (r: Desk) {
    if late then Act(k, d, Continue) else d
  }

  /** Open for a decision on `id`, with these records on file. */
  predicate OpenFor(d: Desk, id: Uuid, r: Record, approved: seq<Line>, rejected: seq<Line>) {
    && d.running == Quiet && id in d.queue.memory && d.queue.memory[id] == r
    && d.queue.approved == approved && d.queue.rejected == rejected
  }

  lemma {:induction false} ApprovalRecords(
    k: Sealer, d: Desk, id: Uuid, r: Record, reg: Registry, approver: Str, now: Time)
    requires d.running == Quiet && id in d.queue.memory && d.queue.memory[id] == r
    requires FindRecord(d.queue.approved, id).None?
    requires r.id == id && approver != r.submitter && PostOk(d.ledger, reg, r.payload)
    ensures
      var t := Act(k, Act(k, d, Approve(id, approver, now, reg)), Continue);
      && t.running == ApprovedIt(id) && t.posts == d.posts + [id]
      && t.queue == PersistApproved(d.queue, DecidedRecord(r, ApprovalStatus.Approved, approver, None, now))
  {
    assert Posts(d, id, approver, reg);
  }

  lemma {:induction false} RejectionRecords(
    k: Sealer, d: Desk, id: Uuid, r: Record, approver: Str, reason: Str, now: Time)
    requires d.running == Quiet && id in d.queue.memory && d.queue.memory[id] == r && approver != r.submitter
    ensures
      var t := Act(k, d, Reject(id, approver, reason, now));
      && t.running == RejectedIt(id) && t.posts == d.posts && t.ledger == d.ledger
      && t.queue == PersistRejected(d.queue, DecidedRecord(r, ApprovalStatus.Rejected, approver, Some(reason), now))
  {
  }

  /** A harmful interruption of a decision that was just recorded leaves the id open for another. */
  lemma {:induction false} HarmfulCut(k: Sealer, d: Desk, id: Uuid, r: Record, cut: Action, late: bool)
    requires (d.running == ApprovedIt(id) || d.running == RejectedIt(id)) && Harmful(cut, late)
    requires id in d.queue.memory && d.queue.memory[id] == r
    requires id in Load(d.queue.pending) && Load(d.queue.pending)[id] == r
    ensures
      var t := Act(k, OneLater(k, d, late), cut);
      && !Harmless(OneLater(k, d, late), cut) && t.posts == d.posts
      && OpenFor(t, id, r, d.queue.approved, d.queue.rejected)
  {
  }

  /** Every harmful interruption of an approval lets the posted and approved id be rejected too. */
  lemma {:induction false} HarmfulApproval(
    k: Sealer, d: Desk, id: Uuid, r: Record, reg: Registry, first: Str, second: Str, reason: Str, now: Time,
    cut: Action, late: bool)
    requires Waiting(d, id, r) && r.id == id && PostOk(d.ledger, reg, r.payload) && Harmful(cut, late)
    requires first != r.submitter && second != r.submitter
    ensures
      var u := OneLater(k, Act(k, Act(k, d, Approve(id, first, now, reg)), Continue), late);
      var t := Act(k, Act(k, u, cut), Reject(id, second, reason, now));
      && !Harmless(u, cut)
      && t.posts == d.posts + [id] && InFile(t.queue.approved, id) && InFile(t.queue.rejected, id)
  {
    ApprovalRecords(k, d, id, r, reg, first, now);
    var recorded := Act(k, Act(k, d, Approve(id, first, now, reg)), Continue);
    HarmfulCut(k, recorded, id, r, cut, late);
    RejectionRecords(k, Act(k, OneLater(k, recorded, late), cut), id, r, second, reason, now);
    LoadSnoc(d.queue.approved, DecidedRecord(r, ApprovalStatus.Approved, first, None, now));
    LoadSnoc(d.queue.rejected, DecidedRecord(r, ApprovalStatus.Rejected, second, Some(reason), now));
  }

  /** Every harmful interruption of a rejection lets the rejected id be posted and approved. */
  lemma {:induction false} HarmfulRejection(
    k: Sealer, d: Desk, id: Uuid, r: Record, reg: Registry, first: Str, second: Str, reason: Str, now: Time,
    cut: Action, late: bool)
    requires Waiting(d, id, r) && r.id == id && Harmful(cut, late)
    requires first != r.submitter && second != r.submitter
    requires PostOk(Act(k, OneLater(k, Act(k, d, Reject(id, first, reason, now)), late), cut).ledger, reg, r.payload)
    ensures
      var u := OneLater(k, Act(k, d, Reject(id, first, reason, now)), late);
      var t := Act(k, Act(k, Act(k, u, cut), Approve(id, second, now, reg)), Continue);
      && !Harmless(u, cut)
      && t.posts == d.posts + [id] && InFile(t.queue.approved, id) && InFile(t.queue.rejected, id)
  {
    RejectionRecords(k, d, id, r, first, reason, now);
    var recorded := Act(k, d, Reject(id, first, reason, now));
    HarmfulCut(k, recorded, id, r, cut, late);
    ApprovalRecords(k, Act(k, OneLater(k, recorded, late), cut), id, r, reg, second, now);
    LoadSnoc(d.queue.rejected, DecidedRecord(r, ApprovalStatus.Rejected, first, Some(reason), now));
    LoadSnoc(d.queue.approved, DecidedRecord(r, ApprovalStatus.Approved, second, None, now));
  }

  // ---- Uninterrupted runs ----

  predicate Uninterrupted(xs: seq<Action>) {
    forall i :: 0 <= i < |xs| ==> !xs[i].Crash? && !xs[i].Fail?
  }

  /** Memory is the pending file, but for the record of the call in progress. */
  ghost predicate Loaded(q: Queue, running: Running) {
    match running
    case Submitting(r) => Load(q.pending) == q.memory[r.id := r]
    case RemovedIt(id) => Load(q.pending) == q.memory - {id}
    case _ => Load(q.pending) == q.memory
  }

  /** Posts correspond one to one with the lines of the approved file. */
  ghost predicate OnePostEach(q: Queue, running: Running, posts: seq<Uuid>) {
    && posts == Ids(q.approved) + (if running.PostedIt? then [running.record.id] else [])
    && forall id :: multiset(posts)[id] <= 1
  }

  lemma {:induction false} IdsAreInFile(lines: seq<Line>, id: Uuid)
    ensures id in Ids(lines) <==> InFile(lines, id)
  {
    LoadKeys(lines, id);
    if lines == [] {
    } else {
      LoadKeys(lines[..|lines| - 1], id);
      IdsAreInFile(lines[..|lines| - 1], id);
    }
  }

  lemma {:induction false} ActKeepsLoaded(k: Sealer, d: Desk, x: Action)
    requires Loaded(d.queue, d.running) && !x.Crash? && !x.Fail?
    ensures Loaded(Act(k, d, x).queue, Act(k, d, x).running)
  {
    match x
    case Submit(r) => LoadSnoc(d.queue.pending, r);
    case Continue =>
      if d.running.ApprovedIt? || d.running.RejectedIt? {
        LoadWithout(d.queue.pending, d.running.id);
      }
    case _ =>
  }

  lemma {:induction false} IdsSnoc(lines: seq<Line>, r: Record)
    ensures Ids(lines + [Some(r)]) == Ids(lines) + [r.id]
  {
    assert (lines + [Some(r)])[..|lines|] == lines;
  }

  /** An id that is not in the file can be posted without repeating one. */
  lemma {:induction false} FreshPost(lines: seq<Line>, id: Uuid)
    requires FindRecord(lines, id).None? && forall x :: multiset(Ids(lines))[x] <= 1
    ensures forall x :: multiset(Ids(lines) + [id])[x] <= 1
  {
    FindIsInFile(lines, id);
    IdsAreInFile(lines, id);
    assert id !in multiset(Ids(lines));
  }

  lemma {:induction false} ApprovalKeepsOnePost(
    k: Sealer, d: Desk, id: Uuid, approver: Str, now: Time, reg: Registry)
    requires Loaded(d.queue, Quiet) && OnePostEach(d.queue, Quiet, d.posts) && d.running == Quiet
    ensures
      var t := StartApproval(k, d, id, approver, now, reg);
      OnePostEach(t.queue, t.running, t.posts)
  {
    if Posts(d, id, approver, reg) {
      LoadedIds(d.queue.pending, id);
      assert d.posts == Ids(d.queue.approved);
      FreshPost(d.queue.approved, id);
    }
  }

  lemma {:induction false} ContinueKeepsOnePost(q: Queue, running: Running, posts: seq<Uuid>)
    requires OnePostEach(q, running, posts)
    ensures OnePostEach(NextStep(q, running).0, NextStep(q, running).1, posts)
  {
    if running.PostedIt? {
      IdsSnoc(q.approved, running.record);
    }
  }

  lemma {:induction false} ActKeepsOnePost(k: Sealer, d: Desk, x: Action)
    requires Loaded(d.queue, d.running) && OnePostEach(d.queue, d.running, d.posts)
    requires !x.Crash? && !x.Fail?
    ensures var t := Act(k, d, x); OnePostEach(t.queue, t.running, t.posts)
  {
    match x
    case Continue => ContinueKeepsOnePost(d.queue, d.running, d.posts);
    case Approve(id, approver, now, reg) =>
      if d.running == Quiet {
        ApprovalKeepsOnePost(k, d, id, approver, now, reg);
      }
    case _ =>
  }

  lemma {:induction false} UninterruptedKeeps(k: Sealer, d: Desk, xs: seq<Action>)
    requires NewDesk(d) && Uninterrupted(xs)
    ensures HarmlessThroughout(k, d, xs)
    ensures
      var t := Acts(k, d, xs);
      Loaded(t.queue, t.running) && OnePostEach(t.queue, t.running, t.posts)
  {
    if xs == [] {
      NewDeskIsAligned(d);
    } else {
      UninterruptedKeeps(k, d, xs[..|xs| - 1]);
      ActKeepsLoaded(k, Acts(k, d, xs[..|xs| - 1]), xs[|xs| - 1]);
      ActKeepsOnePost(k, Acts(k, d, xs[..|xs| - 1]), xs[|xs| - 1]);
    }
  }

  /** Between calls of an uninterrupted run, memory is the pending file, the three files partition the
      submitted ids, and the approved file lists each successful posting once, in order. */
  lemma {:induction false} UninterruptedPartition(k: Sealer, d: Desk, xs: seq<Action>)
    requires NewDesk(d) && LegalThroughout(k, d, xs) && Uninterrupted(xs) && Acts(k, d, xs).running == Quiet
    ensures
      var t := Acts(k, d, xs);
      && t.queue.memory == Load(t.queue.pending)
      && (forall id :: id in t.submitted ==> Once(t.queue, id))
      && (forall id :: id !in t.submitted ==> Nowhere(t.queue, id))
      && t.posts == Ids(t.queue.approved)
      && forall id :: multiset(t.posts)[id] <= 1
  {
    UninterruptedKeeps(k, d, xs);
    HarmlessRunsAgree(k, d, xs);
  }
}
