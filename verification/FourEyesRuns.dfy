/** Runs of the four-eyes queue over a ledger: a call can be cut between any two durable steps, by a
    crash (queue and ledger are reopened) or by an I/O error (memory stays), and other ledger traffic
    interleaves. */
module FourEyesRuns {
  import opened Bytes
  import opened Entries
  import opened Balances
  import opened Ledger
  import opened Invariants
  import opened Recovery
  import opened Correction
  import opened FourEyes

  /** The call in progress, by the durable step it has just made. */
  datatype Running =
    | Quiet
    | Submitting(record: Record)
    | PostedIt(record: Record)
    | ApprovedIt(id: Uuid)
    | RejectedIt(id: Uuid)
    | RemovedIt(id: Uuid)

  /** `submitted`, `posts` and `appended` record history: what was submitted under each id, the ids whose
      posting succeeded, and those whose posting added an entry to the ledger. */
  datatype Desk = Desk(
    queue: Queue,
    running: Running,
    ledger: State,
    submitted: map<Uuid, JournalEntry>,
    posts: seq<Uuid>,
    appended: seq<Uuid>)

  datatype Action =
    | Submit(record: Record)
    | Approve(id: Uuid, approver: Str, now: Time, reg: Registry)
    | Reject(id: Uuid, approver: Str, reason: Str, now: Time)
    | Continue
    | Fail
    | Crash(indexed: nat)
    | Traffic(op: Op)

  /** The checks of an approval pass and its entry posts. */
  predicate Posts(d: Desk, id: Uuid, approver: Str, reg: Registry) {
    && FindRecord(d.queue.approved, id).None? && DecisionError(d.queue, id, approver).None?
    && PostOk(d.ledger, reg, d.queue.memory[id].payload)
  }

  function StartApproval(k: Sealer, d: Desk, id: Uuid, approver: Str, now: Time, reg: Registry): (r: Desk) {
    if !Posts(d, id, approver, reg) then d
    else
      var r := d.queue.memory[id];
      d.(running := PostedIt(DecidedRecord(r, ApprovalStatus.Approved, approver, None, now)),
         ledger := PostEntry(k, d.ledger, reg, r.payload, now),
         posts := d.posts + [id],
         appended := if Accepts(d.ledger, reg, r.payload) then d.appended + [id] else d.appended)
  }

  function StartRejection(d: Desk, id: Uuid, approver: Str, reason: Str, now: Time): (r: Desk) {
    if DecisionError(d.queue, id, approver).Some? then d
    else
      var r := DecidedRecord(d.queue.memory[id], ApprovalStatus.Rejected, approver, Some(reason), now);
      d.(queue := PersistRejected(d.queue, r), running := RejectedIt(id))
  }

  function NextStep(q: Queue, running: Running): (r: (Queue, Running)) {
    match running
    case Quiet => (q, Quiet)
    case Submitting(r) => (Remember(q, r), Quiet)
    case PostedIt(r) => (PersistApproved(q, r), ApprovedIt(r.id))
    case ApprovedIt(id) => (RemovePending(q, id), RemovedIt(id))
    case RejectedIt(id) => (RemovePending(q, id), RemovedIt(id))
    case RemovedIt(id) => (Forget(q, id), Quiet)
  }

  /** Reopening the ledger: its index may still hold only the first `indexed` entries. */
  ghost function Restart(s: State, indexed: nat): (r: State) {
    Recover(s.wal, IndexPrefix(s.index.rows, if indexed <= |s.index.rows| then indexed else |s.index.rows|))
  }

  ghost function Act(k: Sealer, d: Desk, x: Action): (r: Desk) {
    match x
    case Submit(r) =>
      if d.running != Quiet then d
      else d.(queue := PersistPending(d.queue, r), running := Submitting(r),
              submitted := d.submitted[r.id := r.payload])
    case Approve(id, approver, now, reg) =>
      if d.running != Quiet then d else StartApproval(k, d, id, approver, now, reg)
    case Reject(id, approver, reason, now) =>
      if d.running != Quiet then d else StartRejection(d, id, approver, reason, now)
    case Continue =>
      var (q, running) := NextStep(d.queue, d.running);
      d.(queue := q, running := running)
    case Fail => d.(running := Quiet)
    case Crash(m) => d.(queue := Reopen(d.queue), running := Quiet, ledger := Restart(d.ledger, m))
    case Traffic(op) => d.(ledger := Step(k, d.ledger, op))
  }

  ghost function Acts(k: Sealer, d: Desk, xs: seq<Action>): (r: Desk) {
    if xs == [] then d else Act(k, Acts(k, d, xs[..|xs| - 1]), xs[|xs| - 1])
  }

  /** Approval ids are fresh. */
  predicate Legal(d: Desk, x: Action) {
    x.Submit? ==> x.record.id !in d.submitted
  }

  ghost predicate LegalThroughout(k: Sealer, d: Desk, xs: seq<Action>) {
    xs == [] || (LegalThroughout(k, d, xs[..|xs| - 1]) && Legal(Acts(k, d, xs[..|xs| - 1]), xs[|xs| - 1]))
  }

  /** A queue whose files hold no record yet, over any ledger the operations can reach. */
  ghost predicate NewDesk(d: Desk) {
    && d.running == Quiet && Traced(d.ledger) && d.submitted == map[] && d.posts == [] && d.appended == []
    && d.queue.memory == map[]
    && forall l :: l in d.queue.pending + d.queue.approved + d.queue.rejected ==> l == None
  }

  // ---- What holds whatever happens ----

  predicate Matches(submitted: map<Uuid, JournalEntry>, r: Record) {
    r.id in submitted && submitted[r.id] == r.payload
  }

  ghost predicate MemoryKnown(submitted: map<Uuid, JournalEntry>, memory: map<Uuid, Record>) {
    forall id :: id in memory ==> memory[id].id == id && Matches(submitted, memory[id])
  }

  ghost predicate FileKnown(submitted: map<Uuid, JournalEntry>, lines: seq<Line>) {
    forall l :: l in lines && l.Some? ==> Matches(submitted, l.value)
  }

  /** Someone other than the submitter decided. */
  predicate FourEyed(r: Record) {
    r.approver.Some? && r.approver.value != r.submitter
  }

  ghost predicate AllFourEyed(lines: seq<Line>) {
    forall l :: l in lines && l.Some? ==> FourEyed(l.value)
  }

  ghost predicate RunningOk(submitted: map<Uuid, JournalEntry>, q: Queue, running: Running) {
    match running
    case Submitting(r) => Matches(submitted, r) && InFile(q.pending, r.id)
    case PostedIt(r) => Matches(submitted, r) && FourEyed(r)
    case ApprovedIt(id) => InFile(q.approved, id)
    case RejectedIt(id) => InFile(q.rejected, id)
    case _ => true
  }

  /** No submission is lost: each is pending, approved or rejected. */
  ghost predicate NoneLost(submitted: map<Uuid, JournalEntry>, q: Queue) {
    forall id :: id in submitted ==> InFile(q.pending, id) || InFile(q.approved, id) || InFile(q.rejected, id)
  }

  ghost predicate QueueSafe(submitted: map<Uuid, JournalEntry>, q: Queue, running: Running) {
    && MemoryKnown(submitted, q.memory) && FileKnown(submitted, q.pending)
    && AllFourEyed(q.approved) && AllFourEyed(q.rejected)
    && RunningOk(submitted, q, running) && NoneLost(submitted, q)
  }

  /** Every approved id was posted. */
  ghost predicate ApprovedPosted(q: Queue, running: Running, posts: seq<Uuid>) {
    && (forall id :: InFile(q.approved, id) ==> id in posts)
    && (running.PostedIt? ==> running.record.id in posts)
  }

  /** A keyed approval that was posted has its key in the journal. */
  ghost predicate KeysPosted(rows: seq<JournalEntry>, submitted: map<Uuid, JournalEntry>, posts: seq<Uuid>) {
    forall id :: id in posts ==>
      id in submitted && (submitted[id].idempotencyKey.Some? ==> KeyAlreadyPosted(rows, submitted[id]))
  }

  /** A keyed approval added at most one entry to the ledger. */
  ghost predicate AppendedOnce(submitted: map<Uuid, JournalEntry>, posts: seq<Uuid>, appended: seq<Uuid>) {
    && (forall id :: id in appended ==> id in posts)
    && forall id :: id in submitted && submitted[id].idempotencyKey.Some? ==> multiset(appended)[id] <= 1
  }

  /** The ledger, and what is on record about it. */
  ghost predicate LedgerSafe(s: State, submitted: map<Uuid, JournalEntry>, posts: seq<Uuid>, appended: seq<Uuid>) {
    Traced(s) && KeysPosted(s.index.rows, submitted, posts) && AppendedOnce(submitted, posts, appended)
  }

  ghost predicate Safe(d: Desk) {
    && QueueSafe(d.submitted, d.queue, d.running)
    && ApprovedPosted(d.queue, d.running, d.posts)
    && LedgerSafe(d.ledger, d.submitted, d.posts, d.appended)
  }

  // ---- Files and memory ----

  lemma {:induction false} LoadKnown(submitted: map<Uuid, JournalEntry>, lines: seq<Line>)
    requires FileKnown(submitted, lines)
    ensures MemoryKnown(submitted, Load(lines))
  {
    if lines == [] {
    } else {
      var front, last := lines[..|lines| - 1], lines[|lines| - 1];
      assert forall l :: l in front ==> l in lines;
      LoadKnown(submitted, front);
      assert last in lines;
    }
  }

  lemma {:induction false} WithoutLines(lines: seq<Line>, id: Uuid)
    ensures forall l :: l in Without(lines, id) ==> l in lines
  {
    if lines == [] {
    } else {
      WithoutLines(lines[..|lines| - 1], id);
    }
  }

  /** The ids of a file, in order. */
  function Ids(lines: seq<Line>): (r: seq<Uuid>) {
    if lines == [] then []
    else
      var rest, last := Ids(lines[..|lines| - 1]), lines[|lines| - 1];
      if last.Some? then rest + [last.value.id] else rest
  }

  lemma {:induction false} NoRecords(lines: seq<Line>)
    requires forall l :: l in lines ==> l == None
    ensures Load(lines) == map[] && Ids(lines) == [] && forall id :: !InFile(lines, id)
  {
    if lines == [] {
    } else {
      var front, last := lines[..|lines| - 1], lines[|lines| - 1];
      assert forall l :: l in front ==> l in lines;
      NoRecords(front);
      assert last in lines;
    }
    forall id ensures !InFile(lines, id) {
      LoadKeys(lines, id);
    }
  }

  // ---- Steps keep the queue safe ----

  lemma {:induction false} RemovalKeepsSafe(submitted: map<Uuid, JournalEntry>, q: Queue, id: Uuid)
    requires FileKnown(submitted, q.pending) && NoneLost(submitted, q)
    requires InFile(q.approved, id) || InFile(q.rejected, id)
    ensures FileKnown(submitted, RemovePending(q, id).pending) && NoneLost(submitted, RemovePending(q, id))
  {
    WithoutLines(q.pending, id);
    forall x | x in submitted
      ensures var p := RemovePending(q, id); InFile(p.pending, x) || InFile(p.approved, x) || InFile(p.rejected, x)
    {
      WithoutFiles(q.pending, id, x);
    }
  }

  lemma {:induction false} ContinueKeepsSafe(submitted: map<Uuid, JournalEntry>, q: Queue, running: Running)
    requires QueueSafe(submitted, q, running)
    ensures var (p, next) := NextStep(q, running); QueueSafe(submitted, p, next)
  {
    match running
    case PostedIt(r) => LoadSnoc(q.approved, r);
    case ApprovedIt(id) => RemovalKeepsSafe(submitted, q, id);
    case RejectedIt(id) => RemovalKeepsSafe(submitted, q, id);
    case _ =>
  }

  lemma {:induction false} SubmitKeepsSafe(submitted: map<Uuid, JournalEntry>, q: Queue, r: Record)
    requires QueueSafe(submitted, q, Quiet) && r.id !in submitted
    ensures QueueSafe(submitted[r.id := r.payload], PersistPending(q, r), Submitting(r))
  {
    LoadSnoc(q.pending, r);
  }

  lemma {:induction false} RejectKeepsSafe(d: Desk, id: Uuid, approver: Str, reason: Str, now: Time)
    requires QueueSafe(d.submitted, d.queue, Quiet) && d.running == Quiet
    ensures var t := StartRejection(d, id, approver, reason, now); QueueSafe(t.submitted, t.queue, t.running)
  {
    if DecisionError(d.queue, id, approver).None? {
      LoadSnoc(d.queue.rejected,
               DecidedRecord(d.queue.memory[id], ApprovalStatus.Rejected, approver, Some(reason), now));
    }
  }

  /** Every action but a ledger operation keeps the queue safe. */
  lemma {:induction false} QueueStaysSafe(k: Sealer, d: Desk, x: Action)
    requires QueueSafe(d.submitted, d.queue, d.running) && Legal(d, x)
    ensures var t := Act(k, d, x); QueueSafe(t.submitted, t.queue, t.running)
  {
    match x
    case Submit(r) =>
      if d.running == Quiet {
        SubmitKeepsSafe(d.submitted, d.queue, r);
      }
    case Reject(id, approver, reason, now) =>
      if d.running == Quiet {
        RejectKeepsSafe(d, id, approver, reason, now);
      }
    case Continue => ContinueKeepsSafe(d.submitted, d.queue, d.running);
    case Crash(_) => LoadKnown(d.submitted, d.queue.pending);
    case _ =>
  }

  // ---- Steps keep the link with the ledger ----

  /** A restart changes nothing of the ledger but its cache. */
  lemma {:induction false} RestartKeepsTraced(s: State, m: nat)
    requires Traced(s)
    ensures Traced(Restart(s, m)) && Restart(s, m) == s.(cache := Restart(s, m).cache)
  {
    RecoveryOfTraced(s, if m <= |s.index.rows| then m else |s.index.rows|);
    CacheIsNotTraced(s, Restart(s, m).cache);
  }

  lemma {:induction false} LedgerKeys(k: Sealer, s: State, op: Op, e: JournalEntry)
    requires Inv(s) && KeyAlreadyPosted(s.index.rows, e)
    ensures KeyAlreadyPosted(Step(k, s, op).index.rows, e)
  {
    JournalGrows(k, s, op);
    var a := Appended(k, s, op);
    if a.Some? {
      KeyPersists(s.index.rows, a.value, e.idempotencyKey.value);
    }
  }

  lemma {:induction false} LedgerKeepsKeys(
    k: Sealer, s: State, op: Op, submitted: map<Uuid, JournalEntry>, posts: seq<Uuid>)
    requires Inv(s) && KeysPosted(s.index.rows, submitted, posts)
    ensures KeysPosted(Step(k, s, op).index.rows, submitted, posts)
  {
    forall id | id in posts && submitted[id].idempotencyKey.Some?
      ensures KeyAlreadyPosted(Step(k, s, op).index.rows, submitted[id])
    {
      LedgerKeys(k, s, op, submitted[id]);
    }
  }

  /** After a successful posting the key is in the journal, whether or not an entry was added. */
  lemma {:induction false} PostedKey(k: Sealer, s: State, reg: Registry, e: JournalEntry, now: Time)
    requires Inv(s) && PostOk(s, reg, e) && e.idempotencyKey.Some?
    ensures KeyAlreadyPosted(PostEntry(k, s, reg, e, now).index.rows, e)
  {
    if Accepts(s, reg, e) {
      PostAppends(k, s, reg, e, now);
      KeyPersists(s.index.rows, SealPost(k, s, e, now), e.idempotencyKey.value);
    }
  }

  lemma {:induction false} AppendKeepsOnce(
    submitted: map<Uuid, JournalEntry>, posts: seq<Uuid>, appended: seq<Uuid>, id: Uuid)
    requires AppendedOnce(submitted, posts, appended) && id in submitted
    requires submitted[id].idempotencyKey.Some? ==> id !in posts
    ensures AppendedOnce(submitted, posts + [id], appended + [id])
  {
    assert submitted[id].idempotencyKey.Some? ==> id !in multiset(appended);
  }

  lemma {:induction false} PostingKeepsKeys(
    k: Sealer, s: State, reg: Registry, now: Time,
    submitted: map<Uuid, JournalEntry>, posts: seq<Uuid>, id: Uuid)
    requires Inv(s) && KeysPosted(s.index.rows, submitted, posts)
    requires id in submitted && PostOk(s, reg, submitted[id])
    ensures KeysPosted(PostEntry(k, s, reg, submitted[id], now).index.rows, submitted, posts + [id])
  {
    LedgerKeepsKeys(k, s, OpPost(reg, submitted[id], now), submitted, posts);
    if submitted[id].idempotencyKey.Some? {
      PostedKey(k, s, reg, submitted[id], now);
    }
  }

  lemma {:induction false} PostingKeepsLedgerSafe(
    k: Sealer, s: State, reg: Registry, now: Time,
    submitted: map<Uuid, JournalEntry>, posts: seq<Uuid>, appended: seq<Uuid>, id: Uuid)
    requires LedgerSafe(s, submitted, posts, appended) && id in submitted && PostOk(s, reg, submitted[id])
    ensures
      LedgerSafe(PostEntry(k, s, reg, submitted[id], now), submitted, posts + [id],
                 if Accepts(s, reg, submitted[id]) then appended + [id] else appended)
  {
    PostingKeepsKeys(k, s, reg, now, submitted, posts, id);
    PostKeepsTraced(k, s, reg, submitted[id], now);
    if Accepts(s, reg, submitted[id]) {
      AppendKeepsOnce(submitted, posts, appended, id);
    }
  }

  lemma {:induction false} LedgerStaysSafe(k: Sealer, d: Desk, x: Action)
    requires LedgerSafe(d.ledger, d.submitted, d.posts, d.appended) && MemoryKnown(d.submitted, d.queue.memory)
    requires Legal(d, x)
    ensures var t := Act(k, d, x); LedgerSafe(t.ledger, t.submitted, t.posts, t.appended)
  {
    match x
    case Submit(r) => assert r.id !in d.posts && r.id !in multiset(d.appended);
    case Approve(id, approver, now, reg) =>
      if d.running == Quiet && Posts(d, id, approver, reg) {
        PostingKeepsLedgerSafe(k, d.ledger, reg, now, d.submitted, d.posts, d.appended, id);
      }
    case Traffic(op) =>
      LedgerKeepsKeys(k, d.ledger, op, d.submitted, d.posts);
      StepKeepsTraced(k, d.ledger, op);
    case Crash(m) => RestartKeepsTraced(d.ledger, m);
    case _ =>
  }

  lemma {:induction false} ApprovalsStayPosted(k: Sealer, d: Desk, x: Action)
    requires ApprovedPosted(d.queue, d.running, d.posts) && MemoryKnown(d.submitted, d.queue.memory)
    ensures var t := Act(k, d, x); ApprovedPosted(t.queue, t.running, t.posts)
  {
    if x.Continue? && d.running.PostedIt? {
      LoadSnoc(d.queue.approved, d.running.record);
    }
  }

  lemma {:induction false} ActKeepsSafe(k: Sealer, d: Desk, x: Action)
    requires Safe(d) && Legal(d, x)
    ensures Safe(Act(k, d, x))
  {
    QueueStaysSafe(k, d, x);
    ApprovalsStayPosted(k, d, x);
    LedgerStaysSafe(k, d, x);
  }

  lemma {:induction false} NewDeskIsSafe(d: Desk)
    requires NewDesk(d)
    ensures Safe(d)
  {
    var q := d.queue;
    assert forall l :: l in q.pending || l in q.approved || l in q.rejected ==>
      l in q.pending + q.approved + q.rejected;
    NoRecords(q.approved);
  }

  lemma {:induction false} RunKeepsSafe(k: Sealer, d: Desk, xs: seq<Action>)
    requires Safe(d) && LegalThroughout(k, d, xs)
    ensures Safe(Acts(k, d, xs))
  {
    if xs == [] {
    } else {
      RunKeepsSafe(k, d, xs[..|xs| - 1]);
      ActKeepsSafe(k, Acts(k, d, xs[..|xs| - 1]), xs[|xs| - 1]);
    }
  }

  /** Whatever is cut short and however often it is retried: a decision is never the submitter's own, no
      submission is lost, every approved id was posted, and a keyed approval adds at most one entry. */
  lemma {:induction false} SafeUnderCrashes(k: Sealer, d: Desk, xs: seq<Action>)
    requires NewDesk(d) && LegalThroughout(k, d, xs)
    ensures
      var t := Acts(k, d, xs);
      && AllFourEyed(t.queue.approved) && AllFourEyed(t.queue.rejected)
      && NoneLost(t.submitted, t.queue)
      && (forall id :: InFile(t.queue.approved, id) ==> id in t.posts)
      && UniqueKeys(t.ledger.index.rows)
      && forall id :: id in t.submitted && t.submitted[id].idempotencyKey.Some? ==>
           && multiset(t.appended)[id] <= 1
           && (id in t.posts ==> HasKey(t.ledger.index.rows, t.submitted[id].idempotencyKey.value))
  {
    NewDeskIsSafe(d);
    RunKeepsSafe(k, d, xs);
  }

  lemma {:induction false} ApprovedStepPostsNothing(k: Sealer, d: Desk, x: Action, id: Uuid)
    requires InFile(d.queue.approved, id)
    ensures
      var t := Act(k, d, x);
      && InFile(t.queue.approved, id)
      && multiset(t.posts)[id] == multiset(d.posts)[id] && multiset(t.appended)[id] == multiset(d.appended)[id]
  {
    match x
    case Approve(i, approver, now, reg) =>
      FindIsInFile(d.queue.approved, id);
      assert Posts(d, i, approver, reg) ==> i != id;
    case Continue =>
      if d.running.PostedIt? {
        LoadSnoc(d.queue.approved, d.running.record);
      }
    case _ =>
  }

  /** An id in the approved file is never posted again, by any continuation. */
  lemma {:induction false} ApprovedIsNeverPostedAgain(k: Sealer, d: Desk, xs: seq<Action>, id: Uuid)
    requires InFile(d.queue.approved, id)
    ensures
      var t := Acts(k, d, xs);
      && InFile(t.queue.approved, id)
      && multiset(t.posts)[id] == multiset(d.posts)[id] && multiset(t.appended)[id] == multiset(d.appended)[id]
  {
    if xs == [] {
    } else {
      ApprovedIsNeverPostedAgain(k, d, xs[..|xs| - 1], id);
      ApprovedStepPostsNothing(k, Acts(k, d, xs[..|xs| - 1]), xs[|xs| - 1], id);
    }
  }

  // ---- A crash between posting and recording the approval ----

  /** A pending record, in memory and on disk, that nobody has approved. */
  predicate Waiting(d: Desk, id: Uuid, r: Record) {
    && d.running == Quiet && FindRecord(d.queue.approved, id).None?
    && id in d.queue.memory && d.queue.memory[id] == r
    && id in Load(d.queue.pending) && Load(d.queue.pending)[id] == r
  }

  /** An entry just posted is accepted again after a restart. */
  ghost predicate AcceptedAgain(k: Sealer, s: State, reg: Registry, e: JournalEntry, now: Time, m: nat) {
    && e.idempotencyKey.None?
    && AccountsPass(s.accounts, Restart(PostEntry(k, s, reg, e, now), m).cache, e)
  }

  lemma {:induction false} PostedThenRestarted(k: Sealer, s: State, reg: Registry, e: JournalEntry, now: Time, m: nat)
    requires Traced(s) && Accepts(s, reg, e)
    ensures
      var t := Restart(PostEntry(k, s, reg, e, now), m);
      t.accounts == s.accounts && (e.idempotencyKey.Some? ==> KeyAlreadyPosted(t.index.rows, e))
  {
    var p := PostEntry(k, s, reg, e, now);
    PostKeepsTraced(k, s, reg, e, now);
    RestartKeepsTraced(p, m);
    assert Restart(p, m).accounts == p.accounts && Restart(p, m).index == p.index;
    if e.idempotencyKey.Some? {
      PostedKey(k, s, reg, e, now);
    }
  }

  lemma {:induction false} PostKeepsTraced(k: Sealer, s: State, reg: Registry, e: JournalEntry, now: Time)
    requires Traced(s)
    ensures Traced(PostEntry(k, s, reg, e, now)) && PostEntry(k, s, reg, e, now).accounts == s.accounts
  {
    StepKeepsTraced(k, s, OpPost(reg, e, now));
    PostIsStep(k, s, reg, e, now);
    TracedIs(Step(k, s, OpPost(reg, e, now)), PostEntry(k, s, reg, e, now));
  }

  lemma {:induction false} PostIsStep(k: Sealer, s: State, reg: Registry, e: JournalEntry, now: Time)
    ensures PostEntry(k, s, reg, e, now) == Step(k, s, OpPost(reg, e, now))
    ensures PostEntry(k, s, reg, e, now).accounts == s.accounts
  {
  }

  lemma {:induction false} TracedIs(s: State, t: State)
    requires Traced(s) && s == t
    ensures Traced(t)
  {
  }

  lemma {:induction false} SecondPosting(k: Sealer, s: State, reg: Registry, e: JournalEntry, now: Time, m: nat)
    requires Traced(s) && Accepts(s, reg, e)
    ensures Accepts(Restart(PostEntry(k, s, reg, e, now), m), reg, e) <==> AcceptedAgain(k, s, reg, e, now, m)
  {
    PostedThenRestarted(k, s, reg, e, now, m);
    AcceptsByParts(Restart(PostEntry(k, s, reg, e, now), m), s, reg, e);
  }

  /** An entry accepted before is accepted again, under the same account records, exactly when its key is
      still new and the account checks pass. */
  lemma {:induction false} AcceptsByParts(t: State, s: State, reg: Registry, e: JournalEntry)
    requires Accepts(s, reg, e) && t.accounts == s.accounts
    ensures Accepts(t, reg, e) <==> !KeyAlreadyPosted(t.index.rows, e) && AccountsPass(t.accounts, t.cache, e)
  {
  }

  /** A crash right after the posting: the record is pending again, as if nothing had been decided. */
  lemma {:induction false} CrashAfterPosting(
    k: Sealer, d: Desk, id: Uuid, r: Record, reg: Registry, approver: Str, now: Time, m: nat)
    requires Waiting(d, id, r) && Accepts(d.ledger, reg, r.payload) && approver != r.submitter
    ensures
      var t := Act(k, Act(k, d, Approve(id, approver, now, reg)), Crash(m));
      && Waiting(t, id, r) && t.appended == d.appended + [id]
      && t.ledger == Restart(PostEntry(k, d.ledger, reg, r.payload, now), m)
  {
  }

  lemma {:induction false} ApprovalAppends(
    k: Sealer, d: Desk, id: Uuid, r: Record, reg: Registry, approver: Str, now: Time)
    requires Waiting(d, id, r) && approver != r.submitter
    ensures
      var t := Act(k, d, Approve(id, approver, now, reg));
      t.appended == if Accepts(d.ledger, reg, r.payload) then d.appended + [id] else d.appended
  {
  }

  lemma {:induction false} Retry(
    k: Sealer, d: Desk, id: Uuid, r: Record, reg: Registry, approver: Str, now: Time, before: seq<Uuid>, again: bool)
    requires Waiting(d, id, r) && approver != r.submitter
    requires d.appended == before + [id] && (Accepts(d.ledger, reg, r.payload) <==> again)
    ensures Act(k, d, Approve(id, approver, now, reg)).appended == before + (if again then [id, id] else [id])
  {
    ApprovalAppends(k, d, id, r, reg, approver, now);
    assert before + [id] + [id] == before + [id, id];
  }

  /** The retry adds a second entry exactly when the entry has no idempotency key and still passes the
      account checks against the balances found after the restart. */
  lemma {:induction false} RetryAfterCrashPostsTwice(
    k: Sealer, d: Desk, id: Uuid, r: Record, reg: Registry, first: Str, second: Str, now: Time, later: Time, m: nat)
    requires Waiting(d, id, r) && Traced(d.ledger) && Accepts(d.ledger, reg, r.payload)
    requires first != r.submitter && second != r.submitter
    ensures
      var u := Act(k, Act(k, d, Approve(id, first, now, reg)), Crash(m));
      Act(k, u, Approve(id, second, later, reg)).appended ==
      d.appended + (if AcceptedAgain(k, d.ledger, reg, r.payload, now, m) then [id, id] else [id])
  {
    CrashAfterPosting(k, d, id, r, reg, first, now, m);
    SecondPosting(k, d.ledger, reg, r.payload, now, m);
    Retry(k, Act(k, Act(k, d, Approve(id, first, now, reg)), Crash(m)), id, r, reg, second, later, d.appended,
          AcceptedAgain(k, d.ledger, reg, r.payload, now, m));
  }

  // ---- A failure between posting and recording the approval ----

  /** An entry just posted is accepted again in the same process. */
  predicate AcceptedLive(k: Sealer, s: State, reg: Registry, e: JournalEntry, now: Time) {
    e.idempotencyKey.None? && AccountsPass(s.accounts, PostEntry(k, s, reg, e, now).cache, e)
  }

  lemma {:induction false} SecondLivePosting(k: Sealer, s: State, reg: Registry, e: JournalEntry, now: Time)
    requires Inv(s) && Accepts(s, reg, e)
    ensures Accepts(PostEntry(k, s, reg, e, now), reg, e) <==> AcceptedLive(k, s, reg, e, now)
  {
    PostIsStep(k, s, reg, e, now);
    AcceptsByParts(PostEntry(k, s, reg, e, now), s, reg, e);
    if e.idempotencyKey.Some? {
      PostedKey(k, s, reg, e, now);
    }
  }

  /** An error while the approval is recorded: the record is still pending, in memory and on disk. */
  lemma {:induction false} FailureAfterPosting(
    k: Sealer, d: Desk, id: Uuid, r: Record, reg: Registry, approver: Str, now: Time)
    requires Waiting(d, id, r) && Accepts(d.ledger, reg, r.payload) && approver != r.submitter
    ensures
      var t := Act(k, Act(k, d, Approve(id, approver, now, reg)), Fail);
      && Waiting(t, id, r) && t.appended == d.appended + [id]
      && t.ledger == PostEntry(k, d.ledger, reg, r.payload, now)
  {
  }

  /** The retry in the same process adds a second entry exactly when the entry has no idempotency key and still
      passes the account checks against the live balances. */
  lemma {:induction false} RetryAfterFailurePostsTwice(
    k: Sealer, d: Desk, id: Uuid, r: Record, reg: Registry, first: Str, second: Str, now: Time, later: Time)
    requires Waiting(d, id, r) && Inv(d.ledger) && Accepts(d.ledger, reg, r.payload)
    requires first != r.submitter && second != r.submitter
    ensures
      var u := Act(k, Act(k, d, Approve(id, first, now, reg)), Fail);
      Act(k, u, Approve(id, second, later, reg)).appended ==
      d.appended + (if AcceptedLive(k, d.ledger, reg, r.payload, now) then [id, id] else [id])
  {
    FailureAfterPosting(k, d, id, r, reg, first, now);
    SecondLivePosting(k, d.ledger, reg, r.payload, now);
    Retry(k, Act(k, Act(k, d, Approve(id, first, now, reg)), Fail), id, r, reg, second, later, d.appended,
          AcceptedLive(k, d.ledger, reg, r.payload, now));
  }

  /** When no touched account guards its balance, only the key stands between a retry and a second entry. */
  lemma {:induction false} UnguardedRetry(accounts: Accounts, before: Cache, after: Cache, e: JournalEntry)
    requires AccountsPass(accounts, before, e)
    requires forall a :: a in accounts && Touches(e, a) ==> !accounts[a].requireNonNegativeBalance
    ensures AccountsPass(accounts, after, e)
  {
    forall a | a in accounts && Touches(e, a)
      ensures AccountError(a, accounts[a], after, e).None?
    {
      assert AccountError(a, accounts[a], before, e).None?;
    }
  }

  // ---- Runs not interrupted at that point ----

  /** Not an interruption between posting and recording the approval. */
  predicate SparesPosting(d: Desk, x: Action) {
    x.Crash? || x.Fail? ==> !d.running.PostedIt?
  }

  ghost predicate SparesPostingThroughout(k: Sealer, d: Desk, xs: seq<Action>) {
    || xs == []
    || (SparesPostingThroughout(k, d, xs[..|xs| - 1]) && SparesPosting(Acts(k, d, xs[..|xs| - 1]), xs[|xs| - 1]))
  }

  /** Each id was posted at most once, and what was posted is approved or about to be. */
  ghost predicate PostedOnce(q: Queue, running: Running, posts: seq<Uuid>) {
    && (forall id :: multiset(posts)[id] <= 1)
    && forall id :: id in posts ==> InFile(q.approved, id) || (running.PostedIt? && running.record.id == id)
  }

  lemma {:induction false} ApprovalPostsOnce(
    k: Sealer, d: Desk, id: Uuid, approver: Str, now: Time, reg: Registry)
    requires MemoryKnown(d.submitted, d.queue.memory) && d.running == Quiet && PostedOnce(d.queue, Quiet, d.posts)
    ensures
      var t := StartApproval(k, d, id, approver, now, reg);
      PostedOnce(t.queue, t.running, t.posts)
  {
    if Posts(d, id, approver, reg) {
      FindIsInFile(d.queue.approved, id);
      assert id !in multiset(d.posts);
    }
  }

  lemma {:induction false} ContinuePostsOnce(q: Queue, running: Running, posts: seq<Uuid>)
    requires PostedOnce(q, running, posts)
    ensures PostedOnce(NextStep(q, running).0, NextStep(q, running).1, posts)
  {
    if running.PostedIt? {
      LoadSnoc(q.approved, running.record);
    }
  }

  lemma {:induction false} ActPostsOnce(k: Sealer, d: Desk, x: Action)
    requires MemoryKnown(d.submitted, d.queue.memory) && PostedOnce(d.queue, d.running, d.posts) && SparesPosting(d, x)
    ensures var t := Act(k, d, x); PostedOnce(t.queue, t.running, t.posts)
  {
    match x
    case Approve(id, approver, now, reg) =>
      if d.running == Quiet {
        ApprovalPostsOnce(k, d, id, approver, now, reg);
      }
    case Continue => ContinuePostsOnce(d.queue, d.running, d.posts);
    case _ =>
  }

  lemma {:induction false} RunPostsOnce(k: Sealer, d: Desk, xs: seq<Action>)
    requires NewDesk(d) && LegalThroughout(k, d, xs) && SparesPostingThroughout(k, d, xs)
    ensures var t := Acts(k, d, xs); PostedOnce(t.queue, t.running, t.posts)
  {
    if xs == [] {
    } else {
      RunPostsOnce(k, d, xs[..|xs| - 1]);
      NewDeskIsSafe(d);
      RunKeepsSafe(k, d, xs[..|xs| - 1]);
      ActPostsOnce(k, Acts(k, d, xs[..|xs| - 1]), xs[|xs| - 1]);
    }
  }

  lemma {:induction false} AppendStepIsPost(k: Sealer, d: Desk, x: Action, id: Uuid)
    requires multiset(d.appended)[id] <= multiset(d.posts)[id]
    ensures multiset(Act(k, d, x).appended)[id] <= multiset(Act(k, d, x).posts)[id]
  {
    match x
    case Approve(i, approver, now, reg) =>
    case _ =>
  }

  lemma {:induction false} AppendedArePosts(k: Sealer, d: Desk, xs: seq<Action>, id: Uuid)
    requires NewDesk(d)
    ensures multiset(Acts(k, d, xs).appended)[id] <= multiset(Acts(k, d, xs).posts)[id]
  {
    if xs == [] {
    } else {
      AppendedArePosts(k, d, xs[..|xs| - 1], id);
      AppendStepIsPost(k, Acts(k, d, xs[..|xs| - 1]), xs[|xs| - 1], id);
    }
  }

  /** Keyed or not, an approval is posted at most once, and adds at most one entry, over every run that is not
      interrupted between a posting and the record of its approval, whatever is interrupted elsewhere. */
  lemma {:induction false} PostedAtMostOnce(k: Sealer, d: Desk, xs: seq<Action>, id: Uuid)
    requires NewDesk(d) && LegalThroughout(k, d, xs) && SparesPostingThroughout(k, d, xs)
    ensures
      var t := Acts(k, d, xs);
      multiset(t.appended)[id] <= multiset(t.posts)[id] <= 1
  {
    RunPostsOnce(k, d, xs);
    AppendedArePosts(k, d, xs, id);
  }

  // ---- The methods are runs ----

  /** Posting to a ledger, as the queue is given it. */
  function PostsTo(s: State, reg: Registry): (r: JournalEntry -> bool) {
    e => PostOk(s, reg, e)
  }

  /** An approval that is not cut short does what the method does. */
  lemma {:induction false} ApprovalIsRun(k: Sealer, d: Desk, id: Uuid, approver: Str, now: Time, reg: Registry)
    requires d.running == Quiet && MemoryKnown(d.submitted, d.queue.memory)
    ensures
      var t := Act(k, Act(k, Act(k, Act(k, d, Approve(id, approver, now, reg)), Continue), Continue), Continue);
      t.running == Quiet && t.queue == ApproveCall(d.queue, id, approver, now, PostsTo(d.ledger, reg)).0
  {
    var t := Act(k, d, Approve(id, approver, now, reg));
    if !Posts(d, id, approver, reg) {
      assert t == d;
    } else {
      assert t.queue == d.queue && t.running.record.id == id;
    }
  }

  lemma {:induction false} SubmissionIsRun(k: Sealer, d: Desk, r: Record)
    requires d.running == Quiet
    ensures
      var t := Act(k, Act(k, d, Submit(r)), Continue);
      t.running == Quiet && t.queue == SubmitCall(d.queue, r)
  {
  }

  lemma {:induction false} RejectionIsRun(k: Sealer, d: Desk, id: Uuid, approver: Str, reason: Str, now: Time)
    requires d.running == Quiet
    ensures
      var t := Act(k, Act(k, Act(k, d, Reject(id, approver, reason, now)), Continue), Continue);
      t.running == Quiet && t.queue == RejectCall(d.queue, id, approver, reason, now).0
  {
  }
}
