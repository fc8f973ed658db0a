/** The four-eyes approval queue: an in-memory map over three files, whose operations are sequences of
    durable steps that a crash can cut short. */
module FourEyes {
  import opened Bytes
  import opened Entries

  datatype ApprovalStatus = Pending | Approved | Rejected

  datatype Record = Record(
    id: Uuid,
    status: ApprovalStatus,
    submitter: Str,
    approver: Option<Str>,
    rejectReason: Option<Str>,
    submittedAt: Time,
    decidedAt: Option<Time>,
    payload: JournalEntry,
    description: Str,
    domain: Str)

  // A line of a file; `None` is a line that does not parse, which every reader skips.
  type Line = Option<Record>

  datatype Queue = Queue(
    memory: map<Uuid, Record>,
    pending: seq<Line>,
    approved: seq<Line>,
    rejected: seq<Line>)

  datatype QueueError =
    | NotFound(id: Uuid)
    | SelfApproval(approver: Str)
    | PostFailed

  datatype Outcome = Decided(record: Record) | Refused(error: QueueError)

  // ---- Files ----

  /** The record loaded for each id: the last line wins. */
  function Load(lines: seq<Line>): (r: map<Uuid, Record>) {
    if lines == [] then map[]
    else
      var rest, last := Load(lines[..|lines| - 1]), lines[|lines| - 1];
      if last.Some? then rest[last.value.id := last.value] else rest
  }

  predicate Holds(line: Line, id: Uuid) {
    line.Some? && line.value.id == id
  }

  predicate InFile(lines: seq<Line>, id: Uuid) {
    exists i :: 0 <= i < |lines| && Holds(lines[i], id)
  }

  /** The file without the lines of one id; unparsable lines are kept. */
  function Without(lines: seq<Line>, id: Uuid): (r: seq<Line>) {
    if lines == [] then []
    else
      var rest, last := Without(lines[..|lines| - 1], id), lines[|lines| - 1];
      if Holds(last, id) then rest else rest + [last]
  }

  function FindRecord(lines: seq<Line>, id: Uuid): (r: Option<Record>) {
    if lines == [] then None
    else
      var rest := FindRecord(lines[..|lines| - 1], id);
      if rest.Some? then rest else if Holds(lines[|lines| - 1], id) then lines[|lines| - 1] else None
  }

  lemma {:induction false} LoadKeys(lines: seq<Line>, id: Uuid)
    ensures id in Load(lines) <==> InFile(lines, id)
  {
    if lines == [] {
    } else {
      var front, last := lines[..|lines| - 1], lines[|lines| - 1];
      LoadKeys(front, id);
      assert InFile(lines, id) <==> InFile(front, id) || Holds(last, id) by {
        if InFile(front, id) {
          var i :| 0 <= i < |front| && Holds(front[i], id);
          assert Holds(lines[i], id);
        }
      }
    }
  }

  lemma {:induction false} LoadSnoc(lines: seq<Line>, r: Record)
    ensures Load(lines + [Some(r)]) == Load(lines)[r.id := r]
    ensures forall id :: InFile(lines + [Some(r)], id) <==> InFile(lines, id) || id == r.id
  {
    var all := lines + [Some(r)];
    assert all[..|lines|] == lines;
    forall id ensures InFile(all, id) <==> InFile(lines, id) || id == r.id {
      LoadKeys(all, id);
      LoadKeys(lines, id);
    }
  }

  lemma {:induction false} LoadWithout(lines: seq<Line>, id: Uuid)
    ensures Load(Without(lines, id)) == Load(lines) - {id}
  {
    if lines == [] {
    } else {
      var front, last := lines[..|lines| - 1], lines[|lines| - 1];
      LoadWithout(front, id);
      if !Holds(last, id) {
        assert (Without(front, id) + [last])[..|Without(front, id)|] == Without(front, id);
      }
    }
  }

  lemma {:induction false} WithoutFiles(lines: seq<Line>, id: Uuid, x: Uuid)
    ensures InFile(Without(lines, id), x) <==> InFile(lines, x) && x != id
  {
    LoadWithout(lines, id);
    LoadKeys(Without(lines, id), x);
    LoadKeys(lines, x);
  }

  lemma {:induction false} FindIsInFile(lines: seq<Line>, id: Uuid)
    ensures FindRecord(lines, id).Some? <==> InFile(lines, id)
    ensures FindRecord(lines, id).Some? ==>
      FindRecord(lines, id).value.id == id && FindRecord(lines, id) in lines
  {
    if lines == [] {
    } else {
      var front, last := lines[..|lines| - 1], lines[|lines| - 1];
      FindIsInFile(front, id);
      if InFile(front, id) {
        var i :| 0 <= i < |front| && Holds(front[i], id);
        assert Holds(lines[i], id);
      } else if InFile(lines, id) {
        assert Holds(last, id);
      }
    }
  }

  /** The first line of the file that holds the id. */
  predicate IsFirst(lines: seq<Line>, id: Uuid, r: Record) {
    exists i :: 0 <= i < |lines| && lines[i] == Some(r) && r.id == id && forall j :: 0 <= j < i ==> !Holds(lines[j], id)
  }

  lemma {:induction false} FindsFirst(lines: seq<Line>, id: Uuid)
    ensures FindRecord(lines, id).None? ==> !InFile(lines, id)
    ensures FindRecord(lines, id).Some? ==> IsFirst(lines, id, FindRecord(lines, id).value)
  {
    if lines == [] {
    } else {
      var front, last := lines[..|lines| - 1], lines[|lines| - 1];
      FindsFirst(front, id);
      if FindRecord(front, id).Some? {
        var r := FindRecord(front, id).value;
        var i :| 0 <= i < |front| && front[i] == Some(r) && forall j :: 0 <= j < i ==> !Holds(front[j], id);
        assert lines[i] == Some(r) && forall j :: 0 <= j < i ==> lines[j] == front[j];
      } else {
        assert forall j :: 0 <= j < |front| ==> lines[j] == front[j] && !Holds(front[j], id);
      }
    }
  }

  /** Removing an id keeps every other line, parsable or not, in its place among the rest. */
  lemma {:induction false} WithoutConcat(a: seq<Line>, b: seq<Line>, id: Uuid)
    ensures Without(a + b, id) == Without(a, id) + Without(b, id)
    decreases |b|
  {
    if b == [] {
      assert a + b == a;
    } else {
      var front, last := b[..|b| - 1], b[|b| - 1];
      assert (a + b)[..|a + b| - 1] == a + front;
      WithoutConcat(a, front, id);
    }
  }

  lemma {:induction false} WithoutOne(l: Line, id: Uuid)
    ensures Without([l], id) == if l.Some? && l.value.id == id then [] else [l]
  {
    assert [l][..0] == [];
  }

  // ---- The durable steps ----

  function DecidedRecord(
    r: Record, status: ApprovalStatus, approver: Str, reason: Option<Str>, now: Time): (out: Record)
  {
    r.(status := status, approver := Some(approver), rejectReason := if reason.Some? then reason else r.rejectReason,
       decidedAt := Some(now))
  }

  /** The check that a decision on `id` by `approver` fails. */
  function DecisionError(q: Queue, id: Uuid, approver: Str): (r: Option<QueueError>) {
    if id !in q.memory then Some(NotFound(id))
    else if q.memory[id].submitter == approver then Some(SelfApproval(approver))
    else None
  }

  function Remember(q: Queue, r: Record): (out: Queue) {
    q.(memory := q.memory[r.id := r])
  }

  function PersistPending(q: Queue, r: Record): (out: Queue) {
    q.(pending := q.pending + [Some(r)])
  }

  function PersistApproved(q: Queue, r: Record): (out: Queue) {
    q.(approved := q.approved + [Some(r)])
  }

  function PersistRejected(q: Queue, r: Record): (out: Queue) {
    q.(rejected := q.rejected + [Some(r)])
  }

  function RemovePending(q: Queue, id: Uuid): (r: Queue) {
    q.(pending := Without(q.pending, id))
  }

  function Forget(q: Queue, id: Uuid): (r: Queue) {
    q.(memory := q.memory - {id})
  }

  /** A crash loses the memory; opening the queue loads it from the pending file. */
  function Reopen(q: Queue): (r: Queue) {
    q.(memory := Load(q.pending))
  }

  // ---- The operations, uninterrupted ----

  function SubmitCall(q: Queue, r: Record): (out: Queue) {
    Remember(PersistPending(q, r), r)
  }

  /** `post` says whether the posting function accepts a payload. */
  function ApproveCall(
    q: Queue, id: Uuid, approver: Str, now: Time, post: JournalEntry -> bool): (r: (Queue, Outcome))
  {
    var already := FindRecord(q.approved, id);
    if already.Some? then (q, Decided(already.value))
    else
      var error := DecisionError(q, id, approver);
      if error.Some? then (q, Refused(error.value))
      else if !post(q.memory[id].payload) then (q, Refused(PostFailed))
      else
        var r := DecidedRecord(q.memory[id], ApprovalStatus.Approved, approver, None, now);
        (Forget(RemovePending(PersistApproved(q, r), id), id), Decided(r))
  }

  function RejectCall(q: Queue, id: Uuid, approver: Str, reason: Str, now: Time): (r: (Queue, Outcome)) {
    var error := DecisionError(q, id, approver);
    if error.Some? then (q, Refused(error.value))
    else
      var r := DecidedRecord(q.memory[id], ApprovalStatus.Rejected, approver, Some(reason), now);
      (Forget(RemovePending(PersistRejected(q, r), id), id), Decided(r))
  }

  /** What an approval answers and leaves behind, in each case that can arise. */
  lemma {:induction false} ApproveOutcome(q: Queue, id: Uuid, approver: Str, now: Time, post: JournalEntry -> bool)
    ensures
      var r, known := ApproveCall(q, id, approver, now, post), id in q.memory;
      && (r.1.Decided? <==>
            InFile(q.approved, id) || (known && q.memory[id].submitter != approver && post(q.memory[id].payload)))
      && (if InFile(q.approved, id) then r.0 == q && IsFirst(q.approved, id, r.1.record)
          else if !known then r == (q, Refused(NotFound(id)))
          else if q.memory[id].submitter == approver then r == (q, Refused(SelfApproval(approver)))
          else if !post(q.memory[id].payload) then r == (q, Refused(PostFailed))
          else IsDecision(q, id, r.1, ApprovalStatus.Approved, approver, q.memory[id].rejectReason, now) &&
               r.0 == Queue(q.memory - {id}, Without(q.pending, id), q.approved + [Some(r.1.record)], q.rejected))
  {
    FindIsInFile(q.approved, id);
    FindsFirst(q.approved, id);
  }

  /** The pending record of the id, decided. */
  predicate IsDecision(q: Queue, id: Uuid, out: Outcome, status: ApprovalStatus, approver: Str, reason: Option<Str>,
                       now: Time) {
    && id in q.memory && out.Decided?
    && var r, d := q.memory[id], out.record;
    && d.status == status && d.approver == Some(approver) && d.decidedAt == Some(now) && d.rejectReason == reason
    && d.id == r.id && d.submitter == r.submitter && d.submittedAt == r.submittedAt
    && d.payload == r.payload && d.description == r.description && d.domain == r.domain
  }

  /** What a rejection answers and leaves behind. It does not ask whether the id was approved. */
  lemma {:induction false} RejectOutcome(q: Queue, id: Uuid, approver: Str, reason: Str, now: Time)
    ensures
      var r, known := RejectCall(q, id, approver, reason, now), id in q.memory;
      && (r.1.Decided? <==> known && q.memory[id].submitter != approver)
      && (if !known then r == (q, Refused(NotFound(id)))
          else if q.memory[id].submitter == approver then r == (q, Refused(SelfApproval(approver)))
          else IsDecision(q, id, r.1, ApprovalStatus.Rejected, approver, Some(reason), now) &&
               r.0 == Queue(q.memory - {id}, Without(q.pending, id), q.approved, q.rejected + [Some(r.1.record)]))
  {
  }

  /** The queue object: each method performs its durable steps in order. */
  class FourEyesQueue {
    var memory: map<Uuid, Record>
    var pendingFile: seq<Line>
    var approvedFile: seq<Line>
    var rejectedFile: seq<Line>

    function Contents(): (r: Queue)
      reads this
    {
      Queue(memory, pendingFile, approvedFile, rejectedFile)
    }

    /** Opens the queue on existing files. */
    constructor (pending: seq<Line>, approved: seq<Line>, rejected: seq<Line>)
      ensures Contents() == Queue(Load(pending), pending, approved, rejected)
    {
      pendingFile, approvedFile, rejectedFile := pending, approved, rejected;
      var loaded: map<Uuid, Record> := map[];
      for i := 0 to |pending|
        invariant loaded == Load(pending[..i])
      {
        assert pending[..i + 1][..i] == pending[..i];
        if pending[i].Some? {
          loaded := loaded[pending[i].value.id := pending[i].value];
        }
      }
      assert pending[..|pending|] == pending;
      memory := loaded;
    }

    method FindInDecided(lines: seq<Line>, id: Uuid) returns (r: Option<Record>)
      ensures r == FindRecord(lines, id)
      ensures if r.Some? then IsFirst(lines, id, r.value) else !InFile(lines, id)
    {
      FindsFirst(lines, id);
      for i := 0 to |lines|
        invariant FindRecord(lines[..i], id) == None
      {
        assert lines[..i + 1][..i] == lines[..i];
        if lines[i].Some? && lines[i].value.id == id {
          FoundStays(lines, id, i + 1);
          return lines[i];
        }
      }
      assert lines[..|lines|] == lines;
      r := None;
    }

    method RemovePendingLines(id: Uuid)
      modifies this`pendingFile
      ensures Contents() == RemovePending(old(Contents()), id)
    {
      var kept: seq<Line> := [];
      for i := 0 to |pendingFile|
        invariant kept == Without(pendingFile[..i], id)
        invariant pendingFile == old(pendingFile)
      {
        assert pendingFile[..i + 1][..i] == pendingFile[..i];
        if pendingFile[i].Some? && pendingFile[i].value.id == id {
        } else {
          kept := kept + [pendingFile[i]];
        }
      }
      assert pendingFile[..|pendingFile|] == pendingFile;
      pendingFile := kept;
    }

    method Submit(id: Uuid, payload: JournalEntry, description: Str, domain: Str, submitter: Str, now: Time)
      returns (r: Record)
      modifies this
      ensures r == Record(id, ApprovalStatus.Pending, submitter, None, None, now, None, payload, description, domain)
      ensures Contents() == SubmitCall(old(Contents()), r)
      ensures
        Contents() == old(Contents()).(memory := old(memory)[id := r], pending := old(pendingFile) + [Some(r)])
    {
      r := Record(id, ApprovalStatus.Pending, submitter, None, None, now, None, payload, description, domain);
      pendingFile := pendingFile + [Some(r)];
      memory := memory[r.id := r];
    }

    method Approve(id: Uuid, approver: Str, now: Time, post: JournalEntry -> bool) returns (out: Outcome)
      modifies this
      ensures (Contents(), out) == ApproveCall(old(Contents()), id, approver, now, post)
    {
      var already := FindInDecided(approvedFile, id);
      if already.Some? {
        return Decided(already.value);
      }
      if id !in memory {
        return Refused(NotFound(id));
      }
      var record := memory[id];
      if record.submitter == approver {
        return Refused(SelfApproval(approver));
      }
      if !post(record.payload) {
        return Refused(PostFailed);
      }
      record := record.(status := ApprovalStatus.Approved, approver := Some(approver), decidedAt := Some(now));
      approvedFile := approvedFile + [Some(record)];
      RemovePendingLines(id);
      memory := memory - {id};
      out := Decided(record);
    }

    method Reject(id: Uuid, approver: Str, reason: Str, now: Time) returns (out: Outcome)
      modifies this
      ensures (Contents(), out) == RejectCall(old(Contents()), id, approver, reason, now)
    {
      if id !in memory {
        return Refused(NotFound(id));
      }
      var record := memory[id];
      if record.submitter == approver {
        return Refused(SelfApproval(approver));
      }
      record := record.(status := ApprovalStatus.Rejected, approver := Some(approver), rejectReason := Some(reason),
                        decidedAt := Some(now));
      rejectedFile := rejectedFile + [Some(record)];
      RemovePendingLines(id);
      memory := memory - {id};
      out := Decided(record);
    }
  }

  lemma {:induction false} FoundStays(lines: seq<Line>, id: Uuid, n: nat)
    requires n <= |lines| && FindRecord(lines[..n], id).Some?
    ensures FindRecord(lines, id) == FindRecord(lines[..n], id)
    decreases |lines| - n
  {
    if n < |lines| {
      assert lines[..n + 1][..n] == lines[..n];
      FoundStays(lines, id, n + 1);
    } else {
      assert lines[..n] == lines;
    }
  }
}
