/** The treasury sweep workers of apps/billing-chain-listener/src/main.rs as a protocol.

    Any number of submission and confirmation workers run against one store.  Every executor call, every
    chain probe and every store access is one step; between two steps of a worker every other worker may
    move, a write may be lost, applied, or applied and still reported as failed, and a worker may die.
    The store operations are the PostgreSQL ones: a transfer row is addressed by its `from_address`, and an
    update touches every row of the job with that address. */
module SweepProtocol {
  import opened Common

  type Id = nat
  type WorkerId = nat

  datatype JobStatus = Pending | Submitting | Submitted | Confirmed | Failed
  datatype TransferStatus = TPending | TSubmitted | TConfirmed | TFailed
  datatype Transfer = Transfer(from: string, status: TransferStatus, txHash: Option<string>)
  datatype Job = Job(status: JobStatus, transfers: seq<Transfer>)

  /** One call to the executor: the position of the transfer in its job, and the hash it returned, if any. */
  datatype Call = Call(index: nat, result: Option<string>)

  /** What happened to a write. */
  datatype Write = Done | NotDone | DoneButReportedFailed {
    predicate Applied() { !NotDone? }
    predicate ReportedOk() { Done? }
  }

  /** A job as a worker read it from the store. */
  datatype Snap = Snap(id: Id, transfers: seq<Transfer>)

  datatype Worker =
    | Idle
    // submission worker
    | SubListing(ids: seq<Id>)
    | SubQueue(todo: seq<Snap>)
    | SubLoop(job: Snap, pos: nat, submittedAny: bool, todo: seq<Snap>)
    | SubSent(job: Snap, pos: nat, hash: string, submittedAny: bool, todo: seq<Snap>)
    | SubRefused(job: Snap, pos: nat, todo: seq<Snap>)
    | SubBroken(job: Snap, todo: seq<Snap>)
    // confirmation worker
    | ConfListing(ids: seq<Id>)
    | ConfQueue(todo: seq<Snap>)
    | ConfLoop(job: Snap, pos: nat, allConfirmed: bool, todo: seq<Snap>)
    | ConfSeen(job: Snap, pos: nat, hash: string, allConfirmed: bool, todo: seq<Snap>)
    | ConfRefreshing(job: Snap, todo: seq<Snap>)
    | ConfReady(job: Snap, todo: seq<Snap>)
  {
    predicate Owns(id: Id) {
      (SubLoop? || SubSent? || SubRefused? || SubBroken?) && job.id == id
    }
  }

  /** The store, the workers, and two histories that no code reads: the executor calls made for each job and
      the hashes the chain has reported as confirmed. */
  datatype State = State(
    jobs: map<Id, Job>,
    workers: map<WorkerId, Worker>,
    calls: map<Id, seq<Call>>,
    chainConfirmed: set<string>)
  {
    function WorkerAt(w: WorkerId): Worker {
      if w in workers then workers[w] else Idle
    }

    function SetWorker(w: WorkerId, k: Worker): State {
      this.(workers := workers[w := k])
    }

    function SetJob(id: Id, job: Job): State {
      this.(jobs := jobs[id := job])
    }
  }

  datatype Step =
    | CreateJob(id: Id, froms: seq<string>)
    | Crash(w: WorkerId)
    | SubListJobs(w: WorkerId, ids: seq<Id>)
    | SubListTransfers(w: WorkerId)
    | SubClaim(w: WorkerId, write: Write)
    | SubNext(w: WorkerId, answer: Option<string>)
    | SubRecord(w: WorkerId, write: Write)
    | SubRecordRefusal(w: WorkerId, write: Write)
    | SubFinish(w: WorkerId, write: Write)
    | ConfListJobs(w: WorkerId, ids: seq<Id>)
    | ConfListTransfers(w: WorkerId)
    | ConfPick(w: WorkerId)
    | ConfNext(w: WorkerId, confirmed: bool)
    | ConfRecord(w: WorkerId, write: Write)
    | ConfRefreshJobs(w: WorkerId, listed: bool)
    | ConfRefreshTransfers(w: WorkerId)
    | ConfFinish(w: WorkerId, write: Write)

  // ---------------------------------------------------------------- store operations

  function MarkSubmitted(ts: seq<Transfer>, from: string, hash: string): seq<Transfer> {
    seq(|ts|, i requires 0 <= i < |ts| =>
      if ts[i].from == from && ts[i].status == TPending then ts[i].(status := TSubmitted, txHash := Some(hash))
          else ts[i])
  }

  function MarkFailed(ts: seq<Transfer>, from: string): seq<Transfer> {
    seq(|ts|, i requires 0 <= i < |ts| =>
      if ts[i].from == from && (ts[i].status == TPending || ts[i].status == TSubmitted)
      then ts[i].(status := TFailed) else ts[i])
  }

  function MarkConfirmed(ts: seq<Transfer>, from: string): seq<Transfer> {
    seq(|ts|, i requires 0 <= i < |ts| =>
      if ts[i].from == from && ts[i].status == TSubmitted then ts[i].(status := TConfirmed) else ts[i])
  }

  /** `UPDATE fund_sweep_jobs SET status = to WHERE status IN allowed`, if the write is applied. */
  function MoveJob(s: State, id: Id, allowed: set<JobStatus>, to: JobStatus, write: Write): State {
    if id in s.jobs && s.jobs[id].status in allowed && write.Applied()
    then s.SetJob(id, s.jobs[id].(status := to)) else s
  }

  function SetTransfers(s: State, id: Id, ts: seq<Transfer>, write: Write): State {
    if id in s.jobs && write.Applied() then s.SetJob(id, s.jobs[id].(transfers := ts)) else s
  }

  function PendingTransfers(froms: seq<string>): seq<Transfer> {
    seq(|froms|, i requires 0 <= i < |froms| => Transfer(froms[i], TPending, None))
  }

  function Snaps(s: State, ids: seq<Id>): seq<Snap> {
    if ids == [] then []
    else (if ids[0] in s.jobs then [Snap(ids[0], s.jobs[ids[0]].transfers)] else []) + Snaps(s, ids[1..])
  }

  predicate AllWithStatus(s: State, ids: seq<Id>, status: JobStatus) {
    forall i :: 0 <= i < |ids| ==> ids[i] in s.jobs && s.jobs[ids[i]].status == status
  }

  // ---------------------------------------------------------------- one step

  /** The state after a step; a step that is not possible in `s` leaves it unchanged. */
  function Next(s: State, step: Step): State {
    match step
    case CreateJob(id, froms) => NextCreate(s, id, froms)
    case Crash(w) => s.SetWorker(w, Idle)
    case SubListJobs(w, ids) => NextSubListJobs(s, w, ids)
    case SubListTransfers(w) => NextSubListTransfers(s, w)
    case SubClaim(w, write) => NextClaim(s, w, write)
    case SubNext(w, answer) => NextSubmission(s, w, answer)
    case SubRecord(w, write) => NextRecord(s, w, write)
    case SubRecordRefusal(w, write) => NextRefusal(s, w, write)
    case SubFinish(w, write) => NextFinish(s, w, write)
    case ConfListJobs(w, ids) => NextConfListJobs(s, w, ids)
    case ConfListTransfers(w) => NextConfListTransfers(s, w)
    case ConfPick(w) => NextConfPick(s, w)
    case ConfNext(w, confirmed) => NextConfirmation(s, w, confirmed)
    case ConfRecord(w, write) => NextConfRecord(s, w, write)
    case ConfRefreshJobs(w, listed) => NextRefreshJobs(s, w, listed)
    case ConfRefreshTransfers(w) => NextRefreshTransfers(s, w)
    case ConfFinish(w, write) => NextConfFinish(s, w, write)
  }

  function NextCreate(s: State, id: Id, froms: seq<string>): State {
    if id in s.jobs || froms == [] then s
    else s.(jobs := s.jobs[id := Job(Pending, PendingTransfers(froms))], calls := s.calls[id := []])
  }

  /** `list_sweep_jobs` is two queries: the job rows first, the transfer rows later. */
  function NextSubListJobs(s: State, w: WorkerId, ids: seq<Id>): State {
    if s.WorkerAt(w) != Idle || !AllWithStatus(s, ids, Pending) then s else s.SetWorker(w, SubListing(ids))
  }

  function NextSubListTransfers(s: State, w: WorkerId): State {
    if !s.WorkerAt(w).SubListing? then s else s.SetWorker(w, SubQueue(Snaps(s, s.WorkerAt(w).ids)))
  }

  /** `mark_sweep_job_submitting`, a compare-and-set; an error counts as "not claimed". */
  function NextClaim(s: State, w: WorkerId, write: Write): State {
    var k := s.WorkerAt(w);
    if !k.SubQueue? then s
    else if k.todo == [] then s.SetWorker(w, Idle)
    else
      var snap := k.todo[0];
      var claimed := snap.id in s.jobs && s.jobs[snap.id].status == Pending;
      MoveJob(s, snap.id, {Pending}, Submitting, write)
      .SetWorker(w, if claimed && write.ReportedOk() then SubLoop(snap, 0, false, k.todo[1..])
          else SubQueue(k.todo[1..]))
  }

  /** One turn of the transfer loop: skip rows that were not pending when read, otherwise call the executor. */
  function NextSubmission(s: State, w: WorkerId, answer: Option<string>): State {
    var k := s.WorkerAt(w);
    if !k.SubLoop? || k.pos >= |k.job.transfers| then s
    else if k.job.transfers[k.pos].status != TPending then
      s.SetWorker(w, SubLoop(k.job, k.pos + 1, k.submittedAny, k.todo))
    else
      var id := k.job.id;
      var history := if id in s.calls then s.calls[id] else [];
      s.(calls := s.calls[id := history + [Call(k.pos, answer)]])
      .SetWorker(w, if answer.Some? then SubSent(k.job, k.pos, answer.value, k.submittedAny, k.todo)
                    else SubRefused(k.job, k.pos, k.todo))
  }

  /** `mark_sweep_transfer_submitted_with_audit`: only an error stops the loop, "no row matched" does not. */
  function NextRecord(s: State, w: WorkerId, write: Write): State {
    var k := s.WorkerAt(w);
    if !k.SubSent? || k.job.id !in s.jobs || k.pos >= |k.job.transfers| then s
    else
      SetTransfers(s, k.job.id, MarkSubmitted(s.jobs[k.job.id].transfers, k.job.transfers[k.pos].from, k.hash), write)
      .SetWorker(w, if write.ReportedOk() then SubLoop(k.job, k.pos + 1, true, k.todo) else SubBroken(k.job, k.todo))
  }

  /** `mark_sweep_transfer_failed_with_audit`; whatever its result, the job is given up. */
  function NextRefusal(s: State, w: WorkerId, write: Write): State {
    var k := s.WorkerAt(w);
    if !k.SubRefused? || k.job.id !in s.jobs || k.pos >= |k.job.transfers| then s
    else
      SetTransfers(s, k.job.id, MarkFailed(s.jobs[k.job.id].transfers, k.job.transfers[k.pos].from), write)
      .SetWorker(w, SubBroken(k.job, k.todo))
  }

  /** The job-level write that ends the processing of one job; its result is ignored. */
  function NextFinish(s: State, w: WorkerId, write: Write): State {
    var k := s.WorkerAt(w);
    if k.SubBroken? then
      MoveJob(s, k.job.id, {Pending, Submitting, Submitted}, Failed, write).SetWorker(w, SubQueue(k.todo))
    else if k.SubLoop? && k.pos >= |k.job.transfers| then
      (if k.submittedAny then MoveJob(s, k.job.id, {Submitting}, Submitted, write)
       else MoveJob(s, k.job.id, {Pending, Submitting, Submitted}, Failed, write))
      .SetWorker(w, SubQueue(k.todo))
    else s
  }

  function NextConfListJobs(s: State, w: WorkerId, ids: seq<Id>): State {
    if s.WorkerAt(w) != Idle || !AllWithStatus(s, ids, Submitted) then s else s.SetWorker(w, ConfListing(ids))
  }

  function NextConfListTransfers(s: State, w: WorkerId): State {
    if !s.WorkerAt(w).ConfListing? then s else s.SetWorker(w, ConfQueue(Snaps(s, s.WorkerAt(w).ids)))
  }

  function NextConfPick(s: State, w: WorkerId): State {
    var k := s.WorkerAt(w);
    if !k.ConfQueue? then s
    else if k.todo == [] then s.SetWorker(w, Idle)
    else s.SetWorker(w, ConfLoop(k.todo[0], 0, true, k.todo[1..]))
  }

  /** One turn of the confirmation loop: skip rows not submitted when read; a row without a hash, a negative
      answer and a probe error all clear the flag. */
  function NextConfirmation(s: State, w: WorkerId, confirmed: bool): State {
    var k := s.WorkerAt(w);
    if !k.ConfLoop? || k.pos >= |k.job.transfers| then s
    else
      var row := k.job.transfers[k.pos];
      if row.status != TSubmitted then s.SetWorker(w, ConfLoop(k.job, k.pos + 1, k.allConfirmed, k.todo))
      else if row.txHash.None? || !confirmed then s.SetWorker(w, ConfLoop(k.job, k.pos + 1, false, k.todo))
      else s.(chainConfirmed := s.chainConfirmed + {row.txHash.value})
           .SetWorker(w, ConfSeen(k.job, k.pos, row.txHash.value, k.allConfirmed, k.todo))
  }

  /** `mark_sweep_transfer_confirmed_with_audit`; only a reported failure clears the flag. */
  function NextConfRecord(s: State, w: WorkerId, write: Write): State {
    var k := s.WorkerAt(w);
    if !k.ConfSeen? || k.job.id !in s.jobs || k.pos >= |k.job.transfers| then s
    else
      SetTransfers(s, k.job.id, MarkConfirmed(s.jobs[k.job.id].transfers, k.job.transfers[k.pos].from), write)
      .SetWorker(w, ConfLoop(k.job, k.pos + 1, k.allConfirmed && write.ReportedOk(), k.todo))
  }

  /** The second listing, made when the flag is still set: again job rows, then transfer rows. */
  function NextRefreshJobs(s: State, w: WorkerId, listed: bool): State {
    var k := s.WorkerAt(w);
    if !k.ConfLoop? || k.pos < |k.job.transfers| then s
    else if k.allConfirmed && listed && k.job.id in s.jobs then s.SetWorker(w, ConfRefreshing(k.job, k.todo))
    else s.SetWorker(w, ConfQueue(k.todo))
  }

  function NextRefreshTransfers(s: State, w: WorkerId): State {
    var k := s.WorkerAt(w);
    if !k.ConfRefreshing? || k.job.id !in s.jobs then s
    else if AllConfirmed(s.jobs[k.job.id].transfers) then s.SetWorker(w, ConfReady(k.job, k.todo))
    else s.SetWorker(w, ConfQueue(k.todo))
  }

  function NextConfFinish(s: State, w: WorkerId, write: Write): State {
    var k := s.WorkerAt(w);
    if !k.ConfReady? then s
    else MoveJob(s, k.job.id, {Submitted}, Confirmed, write).SetWorker(w, ConfQueue(k.todo))
  }

  const INITIAL: State := State(map[], map[], map[], {})

  /** The state after any interleaving, written as the list of its steps. */
  function Run(steps: seq<Step>): State {
    if steps == [] then INITIAL else Next(Run(steps[..|steps| - 1]), steps[|steps| - 1])
  }

  // ---------------------------------------------------------------- the invariant

  /** First transfer of the job with the same source address as transfer j. */
  function First(ts: seq<Transfer>, j: nat): (i: nat)
    requires j < |ts|
    ensures i <= j && ts[i].from == ts[j].from
    ensures forall h :: 0 <= h < i ==> ts[h].from != ts[j].from
  {
    FirstFrom(ts, j, 0)
  }

  function FirstFrom(ts: seq<Transfer>, j: nat, i: nat): (r: nat)
    requires i <= j < |ts|
    ensures i <= r <= j && ts[r].from == ts[j].from
    ensures forall h :: i <= h < r ==> ts[h].from != ts[j].from
    decreases j - i
  {
    if ts[i].from == ts[j].from then i else FirstFrom(ts, j, i + 1)
  }

  ghost predicate SameFroms(a: seq<Transfer>, b: seq<Transfer>) {
    |a| == |b| && forall i :: 0 <= i < |a| ==> a[i].from == b[i].from
  }

  ghost predicate Fresh(ts: seq<Transfer>) {
    forall i :: 0 <= i < |ts| ==> ts[i].status == TPending && ts[i].txHash == None
  }

  ghost predicate Recorded(t: Transfer) { t.status == TSubmitted || t.status == TConfirmed }

  /** The hash stored with a recorded row is the one the executor returned for the first row of its address. */
  ghost predicate HashFromFirst(ts: seq<Transfer>, calls: seq<Call>, j: nat)
    requires j < |ts|
  {
    var i := First(ts, j);
    i < |calls| && calls[i].result.Some? && ts[j].txHash == calls[i].result
  }

  /** The executor was called for the first transfers of the job, one after the other, and only the last call
      can have been refused; a submitted job has had all of them accepted. */
  ghost predicate CallsInv(status: JobStatus, count: nat, calls: seq<Call>) {
    && 0 < count && |calls| <= count
    && (forall k :: 0 <= k < |calls| ==> calls[k].index == k)
    && (forall k :: 0 <= k < |calls| - 1 ==> calls[k].result.Some?)
    && (status == Pending ==> calls == [])
    && (status in {Submitted, Confirmed} ==> |calls| == count && forall k :: 0 <= k < |calls| ==> calls[k].result.Some?)
  }

  ghost predicate RowInv(status: JobStatus, ts: seq<Transfer>, calls: seq<Call>, seen: set<string>, j: nat)
    requires j < |ts|
  {
    && (status == Pending ==> ts[j].status == TPending && ts[j].txHash == None)
    && (Recorded(ts[j]) ==> HashFromFirst(ts, calls, j))
    && (ts[j].status == TConfirmed ==>
          status in {Submitted, Confirmed} && ts[j].txHash.Some? && ts[j].txHash.value in seen)
    && (status in {Submitted, Confirmed} ==> Recorded(ts[j]))
    && (status == Confirmed ==> ts[j].status == TConfirmed)
  }

  ghost predicate JobInv(job: Job, calls: seq<Call>, seen: set<string>) {
    && CallsInv(job.status, |job.transfers|, calls)
    && forall j :: 0 <= j < |job.transfers| ==> RowInv(job.status, job.transfers, calls, seen, j)
  }

  /** A submission worker's copy of a job is still current as long as the job is still pending. */
  ghost predicate SubSnapInv(s: State, snap: Snap) {
    && snap.id in s.jobs && SameFroms(snap.transfers, s.jobs[snap.id].transfers)
    && (s.jobs[snap.id].status == Pending ==> snap.transfers == s.jobs[snap.id].transfers)
  }

  /** A confirmation worker's copy carries the hashes that are stored. */
  ghost predicate ConfSnapInv(s: State, snap: Snap) {
    && ConfIdInv(s, snap.id)
    && SameFroms(snap.transfers, s.jobs[snap.id].transfers)
    && forall j :: 0 <= j < |snap.transfers| && snap.transfers[j].status == TSubmitted ==>
         snap.transfers[j].txHash == s.jobs[snap.id].transfers[j].txHash
  }

  ghost predicate ConfIdInv(s: State, id: Id) {
    id in s.jobs && s.jobs[id].status in {Submitted, Confirmed}
  }

  /** The owner's view after `pos` transfers: rows whose address was sent are submitted, the others untouched. */
  ghost predicate Progress(s: State, job: Snap, pos: nat) {
    && job.id in s.jobs && job.id in s.calls
    && s.jobs[job.id].status == Submitting
    && SameFroms(job.transfers, s.jobs[job.id].transfers)
    && Fresh(job.transfers)
    && pos <= |job.transfers|
    && (forall k :: 0 <= k < |s.calls[job.id]| && k < pos ==> s.calls[job.id][k].result.Some?)
    && SentRows(s.jobs[job.id].transfers, pos)
  }

  ghost predicate SubTodo(s: State, todo: seq<Snap>) {
    forall i :: 0 <= i < |todo| ==> SubSnapInv(s, todo[i])
  }

  ghost predicate ConfTodo(s: State, todo: seq<Snap>) {
    forall i :: 0 <= i < |todo| ==> ConfSnapInv(s, todo[i])
  }

  predicate AllConfirmed(ts: seq<Transfer>) {
    forall j :: 0 <= j < |ts| ==> ts[j].status == TConfirmed
  }

  ghost predicate WorkerInv(s: State, k: Worker) {
    match k
    case Idle => true
    case SubListing(ids) => forall i :: 0 <= i < |ids| ==> ids[i] in s.jobs
    case SubQueue(todo) => SubTodo(s, todo)
    case SubLoop(job, pos, any, todo) =>
      SubTodo(s, todo) && Progress(s, job, pos) && |s.calls[job.id]| == pos && (any <==> pos > 0)
    case SubSent(job, pos, hash, any, todo) =>
      && SubTodo(s, todo) && Progress(s, job, pos) && pos < |job.transfers|
      && |s.calls[job.id]| == pos + 1 && s.calls[job.id][pos].result == Some(hash)
    case SubRefused(job, pos, todo) => SubTodo(s, todo) && Progress(s, job, pos) && pos < |job.transfers|
    case SubBroken(job, todo) => SubTodo(s, todo) && job.id in s.jobs && s.jobs[job.id].status == Submitting
    case ConfListing(ids) => forall i :: 0 <= i < |ids| ==> ConfIdInv(s, ids[i])
    case ConfQueue(todo) => ConfTodo(s, todo)
    case ConfLoop(job, pos, all, todo) => ConfTodo(s, todo) && ConfSnapInv(s, job)
    case ConfSeen(job, pos, hash, all, todo) =>
      && ConfTodo(s, todo) && ConfSnapInv(s, job)
      && pos < |job.transfers| && s.jobs[job.id].transfers[pos].txHash == Some(hash) && hash in s.chainConfirmed
    case ConfRefreshing(job, todo) => ConfTodo(s, todo) && ConfSnapInv(s, job)
    case ConfReady(job, todo) => ConfTodo(s, todo) && ConfSnapInv(s, job) && AllConfirmed(s.jobs[job.id].transfers)
  }

  ghost predicate Inv(s: State) {
    && s.calls.Keys == s.jobs.Keys
    && (forall id :: id in s.jobs ==> JobInv(s.jobs[id], s.calls[id], s.chainConfirmed))
    && (forall w :: w in s.workers ==> WorkerInv(s, s.workers[w]))
    && (forall v, w, id :: v in s.workers && w in s.workers && v != w && s.workers[v].Owns(id) ==>
        !s.workers[w].Owns(id))
  }

  // ---------------------------------------------------------------- what one step may do to a job

  /** A job never returns to pending, keeps its addresses, and once submitted keeps its hashes and its
      confirmed rows. */
  ghost predicate Advance(a: Job, b: Job) {
    && SameFroms(a.transfers, b.transfers)
    && (b.status == Pending ==> a == b)
    && (a.status in {Submitted, Confirmed} ==>
          && b.status in {Submitted, Confirmed}
          && forall j :: 0 <= j < |a.transfers| ==>
               b.transfers[j].txHash == a.transfers[j].txHash &&
               (a.transfers[j].status == TConfirmed ==> b.transfers[j].status == TConfirmed))
  }

  ghost predicate Advances(s: State, s': State) {
    && (forall id :: id in s.jobs ==> id in s'.jobs && Advance(s.jobs[id], s'.jobs[id]))
    && s.chainConfirmed <= s'.chainConfirmed
  }

  lemma SubTodoFrame(s: State, s': State, todo: seq<Snap>)
    requires SubTodo(s, todo) && Advances(s, s')
    ensures SubTodo(s', todo)
  {
    forall i | 0 <= i < |todo|
      ensures SubSnapInv(s', todo[i])
    {
      assert SubSnapInv(s, todo[i]);
      assert Advance(s.jobs[todo[i].id], s'.jobs[todo[i].id]);
    }
  }

  lemma ConfSnapFrame(s: State, s': State, snap: Snap)
    requires ConfSnapInv(s, snap) && Advances(s, s')
    ensures ConfSnapInv(s', snap)
  {
    assert Advance(s.jobs[snap.id], s'.jobs[snap.id]);
  }

  lemma ConfTodoFrame(s: State, s': State, todo: seq<Snap>)
    requires ConfTodo(s, todo) && Advances(s, s')
    ensures ConfTodo(s', todo)
  {
    forall i | 0 <= i < |todo|
      ensures ConfSnapInv(s', todo[i])
    {
      ConfSnapFrame(s, s', todo[i]);
    }
  }

  /** A worker that does not own a changed job is not disturbed by the change. */
  lemma WorkerFrame(s: State, s': State, k: Worker)
    requires WorkerInv(s, k) && Advances(s, s')
    requires forall id :: k.Owns(id) && id in s.jobs ==> s'.jobs[id] == s.jobs[id]
    requires forall id :: k.Owns(id) && id in s.calls ==> id in s'.calls && s'.calls[id] == s.calls[id]
    ensures WorkerInv(s', k)
  {
    if k.SubQueue? || k.SubLoop? || k.SubSent? || k.SubRefused? || k.SubBroken? {
      SubTodoFrame(s, s', k.todo);
    }
    if k.SubLoop? || k.SubSent? || k.SubRefused? || k.SubBroken? {
      assert k.Owns(k.job.id);
    }
    if k.ConfQueue? || k.ConfLoop? || k.ConfSeen? || k.ConfRefreshing? || k.ConfReady? {
      ConfTodoFrame(s, s', k.todo);
    }
    if k.ConfLoop? || k.ConfSeen? || k.ConfRefreshing? || k.ConfReady? {
      ConfSnapFrame(s, s', k.job);
      assert Advance(s.jobs[k.job.id], s'.jobs[k.job.id]);
    }
    if k.ConfListing? {
      forall i | 0 <= i < |k.ids|
        ensures ConfIdInv(s', k.ids[i])
      {
        assert Advance(s.jobs[k.ids[i]], s'.jobs[k.ids[i]]);
      }
    }
  }

  lemma JobInvMonotone(job: Job, calls: seq<Call>, seen: set<string>, seen': set<string>)
    requires JobInv(job, calls, seen) && seen <= seen'
    ensures JobInv(job, calls, seen')
  {
    forall j | 0 <= j < |job.transfers|
      ensures RowInv(job.status, job.transfers, calls, seen', j)
    {
      assert RowInv(job.status, job.transfers, calls, seen, j);
    }
  }

  lemma AdvanceReflexive(job: Job)
    ensures Advance(job, job)
  {
  }

  /** Worker w moves to k, and at most the job `id` changes. */
  ghost predicate LocalChange(s: State, s': State, w: WorkerId, k: Worker, id: Id) {
    && s'.workers == s.workers[w := k]
    && s'.jobs.Keys == s.jobs.Keys && s'.calls.Keys == s.calls.Keys == s.jobs.Keys
    && s.chainConfirmed <= s'.chainConfirmed
    && (forall i :: i in s.jobs && i != id ==> s'.jobs[i] == s.jobs[i] && s'.calls[i] == s.calls[i])
    && (id in s.jobs ==> Advance(s.jobs[id], s'.jobs[id]))
  }

  lemma LocalChangeAdvances(s: State, s': State, w: WorkerId, k: Worker, id: Id)
    requires LocalChange(s, s', w, k, id)
    ensures Advances(s, s')
  {
    forall i | i in s.jobs
      ensures i in s'.jobs && Advance(s.jobs[i], s'.jobs[i])
    {
      if i != id {
        AdvanceReflexive(s.jobs[i]);
      }
    }
  }

  lemma OthersKept(s: State, s': State, w: WorkerId, k: Worker, id: Id, v: WorkerId)
    requires Inv(s) && LocalChange(s, s', w, k, id)
    requires v in s.workers && v != w
    requires s.workers[v].Owns(id) && id in s.jobs ==> s'.jobs[id] == s.jobs[id] && s'.calls[id] == s.calls[id]
    ensures WorkerInv(s', s.workers[v])
  {
    LocalChangeAdvances(s, s', w, k, id);
    WorkerFrame(s, s', s.workers[v]);
  }

  lemma OwnersKept(s: State, s': State, w: WorkerId, k: Worker, id: Id)
    requires Inv(s) && s'.workers == s.workers[w := k]
    requires forall i :: k.Owns(i) ==> i == id
    requires k.Owns(id) ==> forall v :: v in s.workers && v != w ==> !s.workers[v].Owns(id)
    ensures forall v, u, i :: v in s'.workers && u in s'.workers && v != u && s'.workers[v].Owns(i) ==>
          !s'.workers[u].Owns(i)
  {
    forall v, u, i | v in s'.workers && u in s'.workers && v != u && s'.workers[v].Owns(i)
      ensures !s'.workers[u].Owns(i)
    {
      if v != w && u != w {
        assert v in s.workers && u in s.workers;
      }
    }
  }

  /** The shape of every step.  Whoever else owned the changed job must be w itself. */
  lemma StepKeepsInv(s: State, s': State, w: WorkerId, k: Worker, id: Id)
    requires Inv(s) && LocalChange(s, s', w, k, id)
    requires id in s.jobs ==> JobInv(s'.jobs[id], s'.calls[id], s'.chainConfirmed)
    requires WorkerInv(s', k)
    requires forall i :: k.Owns(i) ==> i == id
    requires k.Owns(id) || (id in s.jobs && (s'.jobs[id] != s.jobs[id] || s'.calls[id] != s.calls[id])) ==>
               forall v :: v in s.workers && v != w ==> !s.workers[v].Owns(id)
    ensures Inv(s')
  {
    forall i | i in s'.jobs
      ensures JobInv(s'.jobs[i], s'.calls[i], s'.chainConfirmed)
    {
      if i != id {
        JobInvMonotone(s.jobs[i], s.calls[i], s.chainConfirmed, s'.chainConfirmed);
      }
    }
    forall v | v in s'.workers
      ensures WorkerInv(s', s'.workers[v])
    {
      if v != w {
        OthersKept(s, s', w, k, id, v);
      }
    }
    OwnersKept(s, s', w, k, id);
  }

  /** Nobody else owns a job that is pending, and nobody owns a job that has left the submitting state. */
  lemma NotOwned(s: State, id: Id, v: WorkerId)
    requires Inv(s) && id in s.jobs && s.jobs[id].status != Submitting && v in s.workers
    ensures !s.workers[v].Owns(id)
  {
    assert WorkerInv(s, s.workers[v]);
  }

  lemma NobodyOwns(s: State, id: Id)
    requires Inv(s) && id in s.jobs && s.jobs[id].status != Submitting
    ensures forall v :: v in s.workers ==> !s.workers[v].Owns(id)
  {
    forall v | v in s.workers
      ensures !s.workers[v].Owns(id)
    {
      NotOwned(s, id, v);
    }
  }

  lemma OnlyOwner(s: State, id: Id, w: WorkerId)
    requires Inv(s) && s.WorkerAt(w).Owns(id)
    ensures forall v :: v in s.workers && v != w ==> !s.workers[v].Owns(id)
  {
  }

  // ---------------------------------------------------------------- the steps

  /** A step that only moves one worker, and does not make it the owner of anything new. */
  lemma MoveWorker(s: State, w: WorkerId, k: Worker, id: Id)
    requires Inv(s) && WorkerInv(s.SetWorker(w, k), k)
    requires forall i :: k.Owns(i) ==> i == id && s.WorkerAt(w).Owns(i)
    ensures Inv(s.SetWorker(w, k))
  {
    var s' := s.SetWorker(w, k);
    if k.Owns(id) {
      OnlyOwner(s, id, w);
    }
    if id in s.jobs {
      AdvanceReflexive(s.jobs[id]);
    }
    StepKeepsInv(s, s', w, k, id);
  }

  function WithJob(s: State, w: WorkerId, k: Worker, id: Id, job: Job): State {
    s.SetJob(id, job).SetWorker(w, k)
  }

  lemma WithJobAdvances(s: State, w: WorkerId, k: Worker, id: Id, job: Job)
    requires Inv(s) && id in s.jobs && Advance(s.jobs[id], job)
    ensures Advances(s, WithJob(s, w, k, id, job))
    ensures LocalChange(s, WithJob(s, w, k, id, job), w, k, id)
  {
    LocalChangeAdvances(s, WithJob(s, w, k, id, job), w, k, id);
  }

  /** A step that rewrites one job and moves the only worker that may own it. */
  lemma JobStep(s: State, w: WorkerId, k: Worker, id: Id, job: Job)
    requires Inv(s) && id in s.jobs && Advance(s.jobs[id], job)
    requires JobInv(job, s.calls[id], s.chainConfirmed)
    requires WorkerInv(WithJob(s, w, k, id, job), k)
    requires forall i :: k.Owns(i) ==> i == id
    requires forall v :: v in s.workers && v != w ==> !s.workers[v].Owns(id)
    ensures Inv(WithJob(s, w, k, id, job))
  {
    WithJobAdvances(s, w, k, id, job);
    StepKeepsInv(s, WithJob(s, w, k, id, job), w, k, id);
  }

  lemma {:induction false} SnapsAreCurrent(s: State, ids: seq<Id>)
    ensures forall i :: 0 <= i < |Snaps(s, ids)| ==>
              Snaps(s, ids)[i].id in s.jobs && Snaps(s, ids)[i].transfers == s.jobs[Snaps(s, ids)[i].id].transfers &&
              Snaps(s, ids)[i].id in ids
  {
    if ids != [] {
      SnapsAreCurrent(s, ids[1..]);
    }
  }

  lemma CreateKeepsInv(s: State, id: Id, froms: seq<string>)
    requires Inv(s) && id !in s.jobs && froms != []
    ensures Inv(NextCreate(s, id, froms))
  {
    var s' := NextCreate(s, id, froms);
    forall i | i in s'.jobs
      ensures JobInv(s'.jobs[i], s'.calls[i], s'.chainConfirmed)
    {
      if i != id {
        assert JobInv(s.jobs[i], s.calls[i], s.chainConfirmed);
      }
    }
    forall i | i in s.jobs
      ensures i in s'.jobs && Advance(s.jobs[i], s'.jobs[i])
    {
      AdvanceReflexive(s.jobs[i]);
    }
    forall v | v in s'.workers
      ensures WorkerInv(s', s'.workers[v])
    {
      assert WorkerInv(s, s.workers[v]);
      WorkerFrame(s, s', s.workers[v]);
    }
  }

  lemma ListJobsKeepsInv(s: State, w: WorkerId, ids: seq<Id>)
    requires Inv(s)
    ensures Inv(NextSubListJobs(s, w, ids)) && Inv(NextConfListJobs(s, w, ids))
  {
    if s.WorkerAt(w) == Idle && AllWithStatus(s, ids, Pending) {
      MoveWorker(s, w, SubListing(ids), 0);
    }
    if s.WorkerAt(w) == Idle && AllWithStatus(s, ids, Submitted) {
      MoveWorker(s, w, ConfListing(ids), 0);
    }
  }

  lemma SubListTransfersKeepsInv(s: State, w: WorkerId)
    requires Inv(s)
    ensures Inv(NextSubListTransfers(s, w))
  {
    if s.WorkerAt(w).SubListing? {
      SnapsAreCurrent(s, s.WorkerAt(w).ids);
      MoveWorker(s, w, SubQueue(Snaps(s, s.WorkerAt(w).ids)), 0);
    }
  }

  lemma ConfListTransfersKeepsInv(s: State, w: WorkerId)
    requires Inv(s)
    ensures Inv(NextConfListTransfers(s, w))
  {
    if s.WorkerAt(w).ConfListing? {
      SnapsAreCurrent(s, s.WorkerAt(w).ids);
      MoveWorker(s, w, ConfQueue(Snaps(s, s.WorkerAt(w).ids)), 0);
    }
  }

  lemma ConfPickKeepsInv(s: State, w: WorkerId)
    requires Inv(s)
    ensures Inv(NextConfPick(s, w))
  {
    var k := s.WorkerAt(w);
    if k.ConfQueue? {
      if k.todo == [] {
        MoveWorker(s, w, Idle, 0);
      } else {
        MoveWorker(s, w, ConfLoop(k.todo[0], 0, true, k.todo[1..]), 0);
      }
    }
  }

  lemma ClaimedJob(job: Job, calls: seq<Call>, seen: set<string>)
    requires JobInv(job, calls, seen) && job.status == Pending
    ensures JobInv(job.(status := Submitting), calls, seen) && Fresh(job.transfers) && calls == []
  {
    forall j | 0 <= j < |job.transfers|
      ensures RowInv(Submitting, job.transfers, calls, seen, j)
      ensures job.transfers[j].status == TPending && job.transfers[j].txHash == None
    {
      assert RowInv(job.status, job.transfers, calls, seen, j);
    }
  }

  lemma ClaimKeepsInv(s: State, w: WorkerId, write: Write)
    requires Inv(s)
    ensures Inv(NextClaim(s, w, write))
  {
    var k := s.WorkerAt(w);
    if k.SubQueue? {
      if k.todo == [] {
        MoveWorker(s, w, Idle, 0);
      } else {
        var id := k.todo[0].id;
        assert SubSnapInv(s, k.todo[0]);
        if s.jobs[id].status == Pending && write.Applied() {
          ClaimSucceeds(s, w, k.todo[0], k.todo[1..], write);
        } else {
          MoveWorker(s, w, SubQueue(k.todo[1..]), 0);
        }
      }
    }
  }

  lemma ClaimSucceeds(s: State, w: WorkerId, snap: Snap, todo: seq<Snap>, write: Write)
    requires Inv(s) && SubSnapInv(s, snap) && SubTodo(s, todo) && s.jobs[snap.id].status == Pending
    ensures var k := if write.ReportedOk() then SubLoop(snap, 0, false, todo) else SubQueue(todo);
            Inv(WithJob(s, w, k, snap.id, s.jobs[snap.id].(status := Submitting)))
  {
    var id := snap.id;
    var job := s.jobs[id].(status := Submitting);
    var k := if write.ReportedOk() then SubLoop(snap, 0, false, todo) else SubQueue(todo);
    ClaimedJob(s.jobs[id], s.calls[id], s.chainConfirmed);
    NobodyOwns(s, id);
    WithJobAdvances(s, w, k, id, job);
    SubTodoFrame(s, WithJob(s, w, k, id, job), todo);
    JobStep(s, w, k, id, job);
  }

  lemma CallAppended(job: Job, calls: seq<Call>, seen: set<string>, answer: Option<string>)
    requires JobInv(job, calls, seen) && job.status == Submitting && |calls| < |job.transfers|
    requires forall k :: 0 <= k < |calls| ==> calls[k].result.Some?
    ensures JobInv(job, calls + [Call(|calls|, answer)], seen)
  {
    var ts := job.transfers;
    var more := calls + [Call(|calls|, answer)];
    forall j | 0 <= j < |ts|
      ensures RowInv(job.status, ts, more, seen, j)
    {
      assert RowInv(job.status, ts, calls, seen, j);
    }
  }

  lemma SubmissionKeepsInv(s: State, w: WorkerId, answer: Option<string>)
    requires Inv(s)
    ensures Inv(NextSubmission(s, w, answer))
  {
    var s' := NextSubmission(s, w, answer);
    var k := s.WorkerAt(w);
    if k.SubLoop? && k.pos < |k.job.transfers| {
      var id := k.job.id;
      assert k.Owns(id);
      OnlyOwner(s, id, w);
      AdvanceReflexive(s.jobs[id]);
      CallAppended(s.jobs[id], s.calls[id], s.chainConfirmed, answer);
      assert s'.calls[id] == s.calls[id] + [Call(k.pos, answer)];
      assert LocalChange(s, s', w, s'.workers[w], id);
      LocalChangeAdvances(s, s', w, s'.workers[w], id);
      SubTodoFrame(s, s', k.todo);
      assert Progress(s', k.job, k.pos);
      StepKeepsInv(s, s', w, s'.workers[w], id);
    }
  }

  lemma FirstOfSameFroms(a: seq<Transfer>, b: seq<Transfer>, j: nat)
    requires SameFroms(a, b) && j < |a|
    ensures First(a, j) == First(b, j)
  {
    var x, y := First(a, j), First(b, j);
    assert x <= y <= x;
  }

  /** Status of row j once the first `pos` transfers are recorded. */
  ghost predicate SentUpTo(ts: seq<Transfer>, pos: nat, j: nat)
    requires j < |ts|
  {
    ts[j].status == if First(ts, j) < pos then TSubmitted else TPending
  }

  ghost predicate SentRows(ts: seq<Transfer>, pos: nat) {
    forall j :: 0 <= j < |ts| ==> SentUpTo(ts, pos, j)
  }

  /** Recording the hash of transfer `pos` fills in the rows of its address, and only if it is the first. */
  lemma RecordedRow(ts: seq<Transfer>, calls: seq<Call>, seen: set<string>, pos: nat, hash: string, j: nat)
    requires pos < |ts| && j < |ts| && |calls| == pos + 1 && calls[pos].result == Some(hash)
    requires RowInv(Submitting, ts, calls, seen, j) && SentUpTo(ts, pos, j)
    ensures RowInv(Submitting, MarkSubmitted(ts, ts[pos].from, hash), calls, seen, j)
    ensures SentUpTo(MarkSubmitted(ts, ts[pos].from, hash), pos + 1, j)
  {
    var ts' := MarkSubmitted(ts, ts[pos].from, hash);
    FirstOfSameFroms(ts, ts', j);
    if ts[j].from == ts[pos].from {
      assert First(ts, j) <= pos;
    } else {
      assert First(ts, j) != pos;
    }
  }

  lemma RecordedRows(job: Job, calls: seq<Call>, seen: set<string>, pos: nat, hash: string)
    requires JobInv(job, calls, seen) && job.status == Submitting
    requires pos < |job.transfers| && |calls| == pos + 1 && calls[pos].result == Some(hash)
    requires SentRows(job.transfers, pos)
    ensures JobInv(job.(transfers := MarkSubmitted(job.transfers, job.transfers[pos].from, hash)), calls, seen)
    ensures SentRows(MarkSubmitted(job.transfers, job.transfers[pos].from, hash), pos + 1)
  {
    var ts' := MarkSubmitted(job.transfers, job.transfers[pos].from, hash);
    var next := pos + 1;
    forall j | 0 <= j < |ts'|
      ensures RowInv(Submitting, ts', calls, seen, j)
      ensures SentUpTo(ts', next, j)
    {
      assert RowInv(job.status, job.transfers, calls, seen, j);
      RecordedRow(job.transfers, calls, seen, pos, hash, j);
    }
    assert SentRows(ts', next);
  }

  lemma RecordKeepsInv(s: State, w: WorkerId, write: Write)
    requires Inv(s)
    ensures Inv(NextRecord(s, w, write))
  {
    var k := s.WorkerAt(w);
    if k.SubSent? {
      SentIsKnown(s, w);
      RecordShape(s, w, write);
      if write.Applied() {
        RecordApplied(s, w, k, write);
      } else {
        RecordLost(s, w, k);
      }
    }
  }

  lemma SentIsKnown(s: State, w: WorkerId)
    requires Inv(s) && s.WorkerAt(w).SubSent?
    ensures var k := s.WorkerAt(w); k.job.id in s.jobs && k.pos < |k.job.transfers|
  {
    assert WorkerInv(s, s.workers[w]);
  }

  /** What recording a hash does to the state, by what became of the write. */
  lemma RecordShape(s: State, w: WorkerId, write: Write)
    requires s.WorkerAt(w).SubSent? && s.WorkerAt(w).job.id in s.jobs
    requires s.WorkerAt(w).pos < |s.WorkerAt(w).job.transfers|
    ensures var k := s.WorkerAt(w);
      NextRecord(s, w, write) ==
        if write.Applied()
        then WithJob(s, w, AfterRecord(k, write), k.job.id, s.jobs[k.job.id].(transfers :=
               MarkSubmitted(s.jobs[k.job.id].transfers, k.job.transfers[k.pos].from, k.hash)))
        else s.SetWorker(w, SubBroken(k.job, k.todo))
  {
  }

  lemma RecordLost(s: State, w: WorkerId, k: Worker)
    requires Inv(s) && s.WorkerAt(w) == k && k.SubSent?
    ensures Inv(s.SetWorker(w, SubBroken(k.job, k.todo)))
  {
    assert k.Owns(k.job.id);
    MoveWorker(s, w, SubBroken(k.job, k.todo), k.job.id);
  }

  /** Where the worker goes after recording a hash. */
  function AfterRecord(k: Worker, write: Write): Worker
    requires k.SubSent?
  {
    if write.ReportedOk() then SubLoop(k.job, k.pos + 1, true, k.todo) else SubBroken(k.job, k.todo)
  }

  lemma RecordApplied(s: State, w: WorkerId, k: Worker, write: Write)
    requires Inv(s) && s.WorkerAt(w) == k && k.SubSent?
    ensures Inv(WithJob(s, w, AfterRecord(k, write), k.job.id, s.jobs[k.job.id].(transfers :=
                  MarkSubmitted(s.jobs[k.job.id].transfers, k.job.transfers[k.pos].from, k.hash))))
  {
    var id := k.job.id;
    var k' := AfterRecord(k, write);
    var from := k.job.transfers[k.pos].from;
    assert s.jobs[id].transfers[k.pos].from == from;
    var job := s.jobs[id].(transfers := MarkSubmitted(s.jobs[id].transfers, from, k.hash));
    assert k.Owns(id);
    OnlyOwner(s, id, w);
    RecordedRows(s.jobs[id], s.calls[id], s.chainConfirmed, k.pos, k.hash);
    WithJobAdvances(s, w, k', id, job);
    SubTodoFrame(s, WithJob(s, w, k', id, job), k.todo);
    JobStep(s, w, k', id, job);
  }

  lemma RefusalKeepsInv(s: State, w: WorkerId, write: Write)
    requires Inv(s)
    ensures Inv(NextRefusal(s, w, write))
  {
    var k := s.WorkerAt(w);
    if k.SubRefused? {
      var id := k.job.id;
      var k' := SubBroken(k.job, k.todo);
      assert k.Owns(id);
      OnlyOwner(s, id, w);
      if write.Applied() {
        var from := k.job.transfers[k.pos].from;
        var job := s.jobs[id].(transfers := MarkFailed(s.jobs[id].transfers, from));
        FailedRows(s.jobs[id], s.calls[id], s.chainConfirmed, from);
        WithJobAdvances(s, w, k', id, job);
        SubTodoFrame(s, WithJob(s, w, k', id, job), k.todo);
        JobStep(s, w, k', id, job);
      } else {
        MoveWorker(s, w, k', id);
      }
    }
  }

  lemma FailedRows(job: Job, calls: seq<Call>, seen: set<string>, from: string)
    requires JobInv(job, calls, seen) && job.status == Submitting
    ensures JobInv(job.(transfers := MarkFailed(job.transfers, from)), calls, seen)
  {
    var ts, ts' := job.transfers, MarkFailed(job.transfers, from);
    assert SameFroms(ts, ts');
    forall j | 0 <= j < |ts'|
      ensures RowInv(job.status, ts', calls, seen, j)
    {
      assert RowInv(job.status, ts, calls, seen, j);
      FirstOfSameFroms(ts, ts', j);
    }
  }

  /** A job whose loop ran to its end, with every call accepted, may be marked submitted. */
  lemma FinishedJob(job: Job, calls: seq<Call>, seen: set<string>)
    requires JobInv(job, calls, seen) && job.status == Submitting && |calls| == |job.transfers|
    requires forall k :: 0 <= k < |calls| ==> calls[k].result.Some?
    requires SentRows(job.transfers, |calls|)
    ensures JobInv(job.(status := Submitted), calls, seen)
  {
    forall j | 0 <= j < |job.transfers|
      ensures RowInv(Submitted, job.transfers, calls, seen, j)
    {
      assert RowInv(job.status, job.transfers, calls, seen, j) && SentUpTo(job.transfers, |calls|, j);
      assert First(job.transfers, j) <= j;
    }
  }

  lemma FailedJob(job: Job, calls: seq<Call>, seen: set<string>)
    requires JobInv(job, calls, seen) && job.status == Submitting
    ensures JobInv(job.(status := Failed), calls, seen)
  {
    forall j | 0 <= j < |job.transfers|
      ensures RowInv(Failed, job.transfers, calls, seen, j)
    {
      assert RowInv(job.status, job.transfers, calls, seen, j);
    }
  }

  lemma FinishKeepsInv(s: State, w: WorkerId, write: Write)
    requires Inv(s)
    ensures Inv(NextFinish(s, w, write))
  {
    var k := s.WorkerAt(w);
    if k.SubBroken? || (k.SubLoop? && k.pos >= |k.job.transfers|) {
      if write.Applied() {
        FinishApplied(s, w, k, Failed);
        if k.SubLoop? {
          FinishApplied(s, w, k, Submitted);
        }
      } else {
        MoveWorker(s, w, SubQueue(k.todo), 0);
      }
    }
  }

  lemma FinishApplied(s: State, w: WorkerId, k: Worker, status: JobStatus)
    requires Inv(s) && s.WorkerAt(w) == k
    requires k.SubBroken? || (k.SubLoop? && k.pos >= |k.job.transfers|)
    requires status == Failed || (status == Submitted && k.SubLoop?)
    ensures s.jobs[k.job.id].status == Submitting
    ensures Inv(WithJob(s, w, SubQueue(k.todo), k.job.id, s.jobs[k.job.id].(status := status)))
  {
    var id := k.job.id;
    var k', job := SubQueue(k.todo), s.jobs[id].(status := status);
    assert k.Owns(id);
    OnlyOwner(s, id, w);
    if status == Failed {
      FailedJob(s.jobs[id], s.calls[id], s.chainConfirmed);
    } else {
      FinishedJob(s.jobs[id], s.calls[id], s.chainConfirmed);
    }
    WithJobAdvances(s, w, k', id, job);
    SubTodoFrame(s, WithJob(s, w, k', id, job), k.todo);
    JobStep(s, w, k', id, job);
  }

  lemma ConfirmationKeepsInv(s: State, w: WorkerId, confirmed: bool)
    requires Inv(s)
    ensures Inv(NextConfirmation(s, w, confirmed))
  {
    var k := s.WorkerAt(w);
    if k.ConfLoop? && k.pos < |k.job.transfers| {
      var row := k.job.transfers[k.pos];
      if row.status == TSubmitted && row.txHash.Some? && confirmed {
        ConfirmationSeen(s, w);
      } else {
        ConfirmationPassed(s, w, confirmed);
      }
    }
  }

  /** Nothing to confirm at this transfer: the worker goes on to the next. */
  lemma ConfirmationPassed(s: State, w: WorkerId, confirmed: bool)
    requires Inv(s) && s.WorkerAt(w).ConfLoop? && s.WorkerAt(w).pos < |s.WorkerAt(w).job.transfers|
    requires var row := s.WorkerAt(w).job.transfers[s.WorkerAt(w).pos];
      !(row.status == TSubmitted && row.txHash.Some? && confirmed)
    ensures Inv(NextConfirmation(s, w, confirmed))
  {
    var k := s.WorkerAt(w);
    var row := k.job.transfers[k.pos];
    var k' := ConfLoop(k.job, k.pos + 1, row.status != TSubmitted && k.allConfirmed, k.todo);
    assert NextConfirmation(s, w, confirmed) == s.SetWorker(w, k');
    ConfirmerPasses(s, w, k');
  }

  lemma ConfirmerPasses(s: State, w: WorkerId, k': Worker)
    requires Inv(s) && s.WorkerAt(w).ConfLoop?
    requires k'.ConfLoop? && k'.job == s.WorkerAt(w).job && k'.todo == s.WorkerAt(w).todo
    ensures Inv(s.SetWorker(w, k'))
  {
    assert WorkerInv(s, s.WorkerAt(w));
    SameJobsConf(s, s.SetWorker(w, k'), k'.job, k'.todo);
    MoveWorker(s, w, k', k'.job.id);
  }

  lemma SameJobsConf(s: State, s': State, job: Snap, todo: seq<Snap>)
    requires s'.jobs == s.jobs && ConfTodo(s, todo) && ConfSnapInv(s, job)
    ensures ConfTodo(s', todo) && ConfSnapInv(s', job)
  {
    forall i | 0 <= i < |todo| ensures ConfSnapInv(s', todo[i]) {
      assert ConfSnapInv(s, todo[i]);
    }
  }

  /** The chain confirms a hash: only what is known to be confirmed grows. */
  lemma ConfirmationSeen(s: State, w: WorkerId)
    requires Inv(s) && s.WorkerAt(w).ConfLoop? && s.WorkerAt(w).pos < |s.WorkerAt(w).job.transfers|
    requires var row := s.WorkerAt(w).job.transfers[s.WorkerAt(w).pos]; row.status == TSubmitted && row.txHash.Some?
    ensures Inv(NextConfirmation(s, w, true))
  {
    var s' := NextConfirmation(s, w, true);
    var k := s.WorkerAt(w);
    var id := k.job.id;
    AdvanceReflexive(s.jobs[id]);
    JobInvMonotone(s.jobs[id], s.calls[id], s.chainConfirmed, s'.chainConfirmed);
    assert LocalChange(s, s', w, s'.workers[w], id);
    LocalChangeAdvances(s, s', w, s'.workers[w], id);
    ConfTodoFrame(s, s', k.todo);
    ConfSnapFrame(s, s', k.job);
    StepKeepsInv(s, s', w, s'.workers[w], id);
  }

  /** Rows of one address share their hash, so confirming them together is justified by one probe. */
  lemma ConfirmedRow(status: JobStatus, ts: seq<Transfer>, calls: seq<Call>, seen: set<string>, pos: nat, j: nat)
    requires status in {Submitted, Confirmed} && pos < |ts| && j < |ts|
    requires RowInv(status, ts, calls, seen, j) && RowInv(status, ts, calls, seen, pos)
    requires ts[pos].txHash.Some? && ts[pos].txHash.value in seen
    ensures RowInv(status, MarkConfirmed(ts, ts[pos].from), calls, seen, j)
  {
    FirstOfSameFroms(ts, MarkConfirmed(ts, ts[pos].from), j);
    if ts[j].from == ts[pos].from {
      SameFirst(ts, j, pos);
    }
  }

  lemma ConfirmedRows(job: Job, calls: seq<Call>, seen: set<string>, pos: nat)
    requires JobInv(job, calls, seen) && job.status in {Submitted, Confirmed}
    requires pos < |job.transfers| && job.transfers[pos].txHash.Some? && job.transfers[pos].txHash.value in seen
    ensures JobInv(job.(transfers := MarkConfirmed(job.transfers, job.transfers[pos].from)), calls, seen)
  {
    var ts' := MarkConfirmed(job.transfers, job.transfers[pos].from);
    assert RowInv(job.status, job.transfers, calls, seen, pos);
    forall j | 0 <= j < |ts'|
      ensures RowInv(job.status, ts', calls, seen, j)
    {
      assert RowInv(job.status, job.transfers, calls, seen, j);
      ConfirmedRow(job.status, job.transfers, calls, seen, pos, j);
    }
  }

  lemma SameFirst(ts: seq<Transfer>, j: nat, k: nat)
    requires j < |ts| && k < |ts| && ts[j].from == ts[k].from
    ensures First(ts, j) == First(ts, k)
  {
    var x, y := First(ts, j), First(ts, k);
    assert x <= y <= x;
  }

  lemma ConfRecordKeepsInv(s: State, w: WorkerId, write: Write)
    requires Inv(s)
    ensures Inv(NextConfRecord(s, w, write))
  {
    var k := s.WorkerAt(w);
    if k.ConfSeen? {
      SeenIsKnown(s, w);
      ConfRecordShape(s, w, write);
      if write.Applied() {
        ConfRecordApplied(s, w, k.allConfirmed && write.ReportedOk());
      } else {
        ConfRecordLost(s, w, k);
      }
    }
  }

  lemma SeenIsKnown(s: State, w: WorkerId)
    requires Inv(s) && s.WorkerAt(w).ConfSeen?
    ensures var k := s.WorkerAt(w); k.job.id in s.jobs && k.pos < |k.job.transfers|
  {
    assert WorkerInv(s, s.workers[w]);
  }

  /** What recording a confirmation does to the state, by what became of the write. */
  lemma ConfRecordShape(s: State, w: WorkerId, write: Write)
    requires s.WorkerAt(w).ConfSeen? && s.WorkerAt(w).job.id in s.jobs
    requires s.WorkerAt(w).pos < |s.WorkerAt(w).job.transfers|
    ensures var k := s.WorkerAt(w);
      var k' := ConfLoop(k.job, k.pos + 1, k.allConfirmed && write.ReportedOk(), k.todo);
      NextConfRecord(s, w, write) ==
        if write.Applied()
        then WithJob(s, w, k', k.job.id, s.jobs[k.job.id].(transfers :=
               MarkConfirmed(s.jobs[k.job.id].transfers, k.job.transfers[k.pos].from)))
        else s.SetWorker(w, k')
  {
  }

  lemma ConfRecordLost(s: State, w: WorkerId, k: Worker)
    requires Inv(s) && s.WorkerAt(w) == k && k.ConfSeen?
    ensures Inv(s.SetWorker(w, ConfLoop(k.job, k.pos + 1, false, k.todo)))
  {
    MoveWorker(s, w, ConfLoop(k.job, k.pos + 1, false, k.todo), k.job.id);
  }

  lemma ConfRecordApplied(s: State, w: WorkerId, all: bool)
    requires Inv(s) && s.WorkerAt(w).ConfSeen? && (all ==> s.WorkerAt(w).allConfirmed)
    ensures var k := s.WorkerAt(w);
      && k.job.id in s.jobs && k.pos < |k.job.transfers|
      && Inv(WithJob(s, w, ConfLoop(k.job, k.pos + 1, all, k.todo), k.job.id,
                     s.jobs[k.job.id].(transfers := MarkConfirmed(s.jobs[k.job.id].transfers,
                         k.job.transfers[k.pos].from))))
  {
    var k := s.WorkerAt(w);
    var id := k.job.id;
    var k' := ConfLoop(k.job, k.pos + 1, all, k.todo);
    var from := k.job.transfers[k.pos].from;
    var job := s.jobs[id].(transfers := MarkConfirmed(s.jobs[id].transfers, from));
    ConfirmedRows(s.jobs[id], s.calls[id], s.chainConfirmed, k.pos);
    NobodyOwns(s, id);
    WithJobAdvances(s, w, k', id, job);
    ConfTodoFrame(s, WithJob(s, w, k', id, job), k.todo);
    ConfSnapFrame(s, WithJob(s, w, k', id, job), k.job);
    JobStep(s, w, k', id, job);
  }

  lemma ConfirmedJob(job: Job, calls: seq<Call>, seen: set<string>)
    requires JobInv(job, calls, seen) && job.status in {Submitted, Confirmed} && AllConfirmed(job.transfers)
    ensures JobInv(job.(status := Confirmed), calls, seen)
  {
    forall j | 0 <= j < |job.transfers|
      ensures RowInv(Confirmed, job.transfers, calls, seen, j)
    {
      assert RowInv(job.status, job.transfers, calls, seen, j);
    }
  }

  lemma ConfFinishKeepsInv(s: State, w: WorkerId, write: Write)
    requires Inv(s)
    ensures Inv(NextConfFinish(s, w, write))
  {
    var k := s.WorkerAt(w);
    if k.ConfReady? {
      var id := k.job.id;
      var k' := ConfQueue(k.todo);
      if s.jobs[id].status == Submitted && write.Applied() {
        var job := s.jobs[id].(status := Confirmed);
        ConfirmedJob(s.jobs[id], s.calls[id], s.chainConfirmed);
        NobodyOwns(s, id);
        WithJobAdvances(s, w, k', id, job);
        ConfTodoFrame(s, WithJob(s, w, k', id, job), k.todo);
        JobStep(s, w, k', id, job);
      } else {
        MoveWorker(s, w, k', id);
      }
    }
  }

  lemma RefreshJobsKeepsInv(s: State, w: WorkerId, listed: bool)
    requires Inv(s)
    ensures Inv(NextRefreshJobs(s, w, listed))
  {
    var k := s.WorkerAt(w);
    if k.ConfLoop? {
      MoveWorker(s, w, ConfRefreshing(k.job, k.todo), 0);
      MoveWorker(s, w, ConfQueue(k.todo), 0);
    }
  }

  lemma RefreshTransfersKeepsInv(s: State, w: WorkerId)
    requires Inv(s)
    ensures Inv(NextRefreshTransfers(s, w))
  {
    var k := s.WorkerAt(w);
    if k.ConfRefreshing? {
      if AllConfirmed(s.jobs[k.job.id].transfers) {
        MoveWorker(s, w, ConfReady(k.job, k.todo), 0);
      }
      MoveWorker(s, w, ConfQueue(k.todo), 0);
    }
  }

  // ---------------------------------------------------------------- every step, every run

  lemma NextKeepsInv(s: State, step: Step)
    requires Inv(s)
    ensures Inv(Next(s, step))
  {
    match step
    case CreateJob(id, froms) =>
      if id !in s.jobs && froms != [] {
        CreateKeepsInv(s, id, froms);
      }
    case Crash(w) => MoveWorker(s, w, Idle, 0);
    case SubListJobs(w, ids) => ListJobsKeepsInv(s, w, ids);
    case SubListTransfers(w) => SubListTransfersKeepsInv(s, w);
    case SubClaim(w, write) => ClaimKeepsInv(s, w, write);
    case SubNext(w, answer) => SubmissionKeepsInv(s, w, answer);
    case SubRecord(w, write) => RecordKeepsInv(s, w, write);
    case SubRecordRefusal(w, write) => RefusalKeepsInv(s, w, write);
    case SubFinish(w, write) => FinishKeepsInv(s, w, write);
    case _ => ConfirmerKeepsInv(s, step);
  }

  /** The steps of a confirmation worker. */
  lemma ConfirmerKeepsInv(s: State, step: Step)
    requires Inv(s)
    requires step.ConfListJobs? || step.ConfListTransfers? || step.ConfPick? || step.ConfNext? || step.ConfRecord?
          || step.ConfRefreshJobs? || step.ConfRefreshTransfers? || step.ConfFinish?
    ensures Inv(Next(s, step))
  {
    match step
    case ConfListJobs(w, ids) => ListJobsKeepsInv(s, w, ids);
    case ConfListTransfers(w) => ConfListTransfersKeepsInv(s, w);
    case ConfPick(w) => ConfPickKeepsInv(s, w);
    case ConfNext(w, confirmed) => ConfirmationKeepsInv(s, w, confirmed);
    case ConfRecord(w, write) => ConfRecordKeepsInv(s, w, write);
    case ConfRefreshJobs(w, listed) => RefreshJobsKeepsInv(s, w, listed);
    case ConfRefreshTransfers(w) => RefreshTransfersKeepsInv(s, w);
    case ConfFinish(w, write) => ConfFinishKeepsInv(s, w, write);
  }

  lemma {:induction false} RunKeepsInv(steps: seq<Step>)
    ensures Inv(Run(steps))
  {
    if steps != [] {
      RunKeepsInv(steps[..|steps| - 1]);
      NextKeepsInv(Run(steps[..|steps| - 1]), steps[|steps| - 1]);
    }
  }

  /** Over every interleaving, with every failure: the executor is called for the transfers of a job in order
      and for each at most once, and never again after a refusal. */
  lemma ExecutorCalledAtMostOnce(steps: seq<Step>, id: Id, a: nat, b: nat)
    requires id in Run(steps).jobs
    requires id in Run(steps).calls && a < b < |Run(steps).calls[id]|
    ensures Run(steps).calls[id][a].index < Run(steps).calls[id][b].index < |Run(steps).jobs[id].transfers|
    ensures Run(steps).calls[id][a].result.Some?
  {
    RunKeepsInv(steps);
  }

  /** Every transfer was accepted by the executor, and every row is recorded with the hash returned for the
      first row of its address. */
  ghost predicate AllSent(ts: seq<Transfer>, calls: seq<Call>) {
    |calls| == |ts| && forall j :: 0 <= j < |ts| ==>
      calls[j].index == j && calls[j].result.Some? && Recorded(ts[j]) && ts[j].txHash == calls[First(ts, j)].result
  }

  lemma SubmittedJob(job: Job, calls: seq<Call>, seen: set<string>)
    requires JobInv(job, calls, seen) && job.status in {Submitted, Confirmed}
    ensures AllSent(job.transfers, calls)
  {
    forall j | 0 <= j < |job.transfers|
      ensures Recorded(job.transfers[j]) && job.transfers[j].txHash == calls[First(job.transfers, j)].result
    {
      assert RowInv(job.status, job.transfers, calls, seen, j);
    }
  }

  /** A job becomes submitted, and stays so, only if all its transfers were sent and recorded. */
  lemma SubmittedMeansAllSent(steps: seq<Step>, id: Id)
    requires id in Run(steps).jobs && Run(steps).jobs[id].status in {Submitted, Confirmed}
    ensures id in Run(steps).calls && AllSent(Run(steps).jobs[id].transfers, Run(steps).calls[id])
  {
    RunKeepsInv(steps);
    SubmittedJob(Run(steps).jobs[id], Run(steps).calls[id], Run(steps).chainConfirmed);
  }

  /** A confirmed job has every row confirmed, each by a positive answer of the chain for the stored hash. */
  lemma ConfirmedMeansAllConfirmed(steps: seq<Step>, id: Id)
    requires id in Run(steps).jobs && Run(steps).jobs[id].status == Confirmed
    ensures forall j :: 0 <= j < |Run(steps).jobs[id].transfers| ==>
              Run(steps).jobs[id].transfers[j].status == TConfirmed &&
              Run(steps).jobs[id].transfers[j].txHash.Some? &&
              Run(steps).jobs[id].transfers[j].txHash.value in Run(steps).chainConfirmed
  {
    RunKeepsInv(steps);
    var s := Run(steps);
    forall j | 0 <= j < |s.jobs[id].transfers|
      ensures s.jobs[id].transfers[j].status == TConfirmed && s.jobs[id].transfers[j].txHash.Some? &&
              s.jobs[id].transfers[j].txHash.value in s.chainConfirmed
    {
      assert RowInv(s.jobs[id].status, s.jobs[id].transfers, s.calls[id], s.chainConfirmed, j);
    }
  }

  ghost predicate DistinctFroms(ts: seq<Transfer>) {
    forall i, j :: 0 <= i < j < |ts| ==> ts[i].from != ts[j].from
  }

  ghost predicate OwnHashes(ts: seq<Transfer>, calls: seq<Call>) {
    |calls| == |ts| && forall j :: 0 <= j < |ts| ==> ts[j].txHash == calls[j].result
  }

  lemma OwnHashesIffDistinct(ts: seq<Transfer>, calls: seq<Call>)
    requires AllSent(ts, calls)
    requires forall a, b :: 0 <= a < b < |calls| ==> calls[a].result != calls[b].result
    ensures OwnHashes(ts, calls) <==> DistinctFroms(ts)
  {
    forall j | 0 <= j < |ts|
      ensures ts[j].txHash == calls[j].result <==> First(ts, j) == j
    {
    }
    forall i, j | 0 <= i < j < |ts|
      ensures ts[i].from == ts[j].from ==> First(ts, j) <= i
    {
    }
  }

  /** Every transfer of a submitted job is stored with the hash of its own transaction exactly when no two
      transfers of the job share a source address (the executor never returning one hash twice). */
  lemma OwnHashRecordedIffDistinctAddresses(steps: seq<Step>, id: Id)
    requires id in Run(steps).jobs && Run(steps).jobs[id].status in {Submitted, Confirmed}
    requires id in Run(steps).calls
    requires forall a, b :: 0 <= a < b < |Run(steps).calls[id]| ==>
               Run(steps).calls[id][a].result != Run(steps).calls[id][b].result
    ensures OwnHashes(Run(steps).jobs[id].transfers, Run(steps).calls[id])
            <==> DistinctFroms(Run(steps).jobs[id].transfers)
  {
    SubmittedMeansAllSent(steps, id);
    OwnHashesIffDistinct(Run(steps).jobs[id].transfers, Run(steps).calls[id]);
  }

  // A run without any failure, over one job with two transfers from the same address.

  const UNTOUCHED := [Transfer("addr", TPending, None), Transfer("addr", TPending, None)]
  const SENT := [Transfer("addr", TSubmitted, Some("0xaa")), Transfer("addr", TSubmitted, Some("0xaa"))]
  const CREATED := State(map[7 := Job(Pending, UNTOUCHED)], map[], map[7 := []], {})
  const LISTED := State(map[7 := Job(Pending, UNTOUCHED)], map[1 := SubQueue([Snap(7, UNTOUCHED)])], map[7 := []], {})
  const CLAIMED := State(map[7 := Job(Submitting, UNTOUCHED)], map[1 := SubLoop(Snap(7, UNTOUCHED), 0, false, [])],
      map[7 := []], {})
  const HALFWAY := State(map[7 := Job(Submitting, SENT)], map[1 := SubLoop(Snap(7, UNTOUCHED), 1, true, [])],
                         map[7 := [Call(0, Some("0xaa"))]], {})
  const FIRST_SENT := State(map[7 := Job(Submitting, UNTOUCHED)],
                            map[1 := SubSent(Snap(7, UNTOUCHED), 0, "0xaa", false, [])],
                                map[7 := [Call(0, Some("0xaa"))]], {})
  const SECOND_SENT := State(map[7 := Job(Submitting, SENT)],
      map[1 := SubSent(Snap(7, UNTOUCHED), 1, "0xbb", true, [])],
                             map[7 := [Call(0, Some("0xaa")), Call(1, Some("0xbb"))]], {})
  const SHARED_STEPS :=
    [CreateJob(7, ["addr", "addr"]), SubListJobs(1, [7]), SubListTransfers(1), SubClaim(1, Done),
     SubNext(1, Some("0xaa")), SubRecord(1, Done), SubNext(1, Some("0xbb")), SubRecord(1, Done), SubFinish(1, Done)]

  lemma RunPrefix(steps: seq<Step>, n: nat)
    requires n <= |steps|
    ensures n == 0 ==> Run(steps[..n]) == INITIAL
    ensures n > 0 ==> Run(steps[..n]) == Next(Run(steps[..n - 1]), steps[n - 1])
  {
    if n > 0 {
      assert steps[..n][..n - 1] == steps[..n - 1];
    }
  }

  /** One step of a run whose effect is known. */
  lemma StepTo(steps: seq<Step>, n: nat, step: Step, before: State, after: State)
    requires n < |steps| && steps[n] == step && Run(steps[..n]) == before && Next(before, step) == after
    ensures Run(steps[..n + 1]) == after
  {
    RunPrefix(steps, n + 1);
  }

  lemma CreateTwo()
    ensures Next(INITIAL, CreateJob(7, ["addr", "addr"])) == CREATED
  {
    assert PendingTransfers(["addr", "addr"]) == UNTOUCHED;
  }

  lemma ListOne()
    ensures Next(CREATED, SubListJobs(1, [7])) == CREATED.SetWorker(1, SubListing([7]))
  {
  }

  lemma SnapOne()
    ensures Next(CREATED.SetWorker(1, SubListing([7])), SubListTransfers(1)) == LISTED
  {
    assert [7][1..] == [];
    assert Snaps(CREATED.SetWorker(1, SubListing([7])), [7]) == [Snap(7, UNTOUCHED)];
  }

  lemma ClaimOne()
    ensures Next(LISTED, SubClaim(1, Done)) == CLAIMED
  {
    assert [Snap(7, UNTOUCHED)][1..] == [];
    assert NextClaim(LISTED, 1, Done).jobs == CLAIMED.jobs;
  }

  lemma SendFirst()
    ensures Next(CLAIMED, SubNext(1, Some("0xaa"))) == FIRST_SENT
  {
    var call := Call(0, Some("0xaa"));
    assert [] + [call] == [call];
    assert NextSubmission(CLAIMED, 1, Some("0xaa")).calls == map[7 := [call]];
  }

  lemma RecordFirst()
    ensures Next(FIRST_SENT, SubRecord(1, Done)) == HALFWAY
  {
    assert MarkSubmitted(UNTOUCHED, "addr", "0xaa") == SENT;
    assert NextRecord(FIRST_SENT, 1, Done).jobs == map[7 := Job(Submitting, SENT)];
  }

  lemma SendSecond()
    ensures Next(HALFWAY, SubNext(1, Some("0xbb"))) == SECOND_SENT
  {
    var first, second := Call(0, Some("0xaa")), Call(1, Some("0xbb"));
    assert [first] + [second] == [first, second];
    assert NextSubmission(HALFWAY, 1, Some("0xbb")).calls == map[7 := [first, second]];
  }

  lemma RecordSecond()
    ensures Next(SECOND_SENT, SubRecord(1, Done)) == SECOND_SENT.SetWorker(1, SubLoop(Snap(7, UNTOUCHED), 2, true, []))
  {
    assert MarkSubmitted(SENT, "addr", "0xbb") == SENT;
    assert NextRecord(SECOND_SENT, 1, Done).jobs == map[7 := Job(Submitting, SENT)];
  }

  lemma SharedListed()
    ensures Run(SHARED_STEPS[..3]) == LISTED
  {
    RunPrefix(SHARED_STEPS, 0);
    CreateTwo();
    StepTo(SHARED_STEPS, 0, CreateJob(7, ["addr", "addr"]), INITIAL, CREATED);
    ListOne();
    StepTo(SHARED_STEPS, 1, SubListJobs(1, [7]), CREATED, CREATED.SetWorker(1, SubListing([7])));
    SnapOne();
    StepTo(SHARED_STEPS, 2, SubListTransfers(1), CREATED.SetWorker(1, SubListing([7])), LISTED);
  }

  lemma SharedClaimed()
    ensures Run(SHARED_STEPS[..4]) == CLAIMED
  {
    SharedListed();
    ClaimOne();
    StepTo(SHARED_STEPS, 3, SubClaim(1, Done), LISTED, CLAIMED);
  }

  lemma SharedHalfway()
    ensures Run(SHARED_STEPS[..6]) == HALFWAY
  {
    SharedClaimed();
    SendFirst();
    StepTo(SHARED_STEPS, 4, SubNext(1, Some("0xaa")), CLAIMED, FIRST_SENT);
    RecordFirst();
    StepTo(SHARED_STEPS, 5, SubRecord(1, Done), FIRST_SENT, HALFWAY);
  }

  lemma SharedRecorded()
    ensures Run(SHARED_STEPS[..8]) == SECOND_SENT.SetWorker(1, SubLoop(Snap(7, UNTOUCHED), 2, true, []))
  {
    SharedHalfway();
    SendSecond();
    StepTo(SHARED_STEPS, 6, SubNext(1, Some("0xbb")), HALFWAY, SECOND_SENT);
    RecordSecond();
    StepTo(SHARED_STEPS, 7, SubRecord(1, Done), SECOND_SENT,
        SECOND_SENT.SetWorker(1, SubLoop(Snap(7, UNTOUCHED), 2, true, [])));
  }

  lemma SharedFinished(last: State)
    requires last == SECOND_SENT.SetWorker(1, SubLoop(Snap(7, UNTOUCHED), 2, true, []))
    ensures NextFinish(last, 1, Done).jobs == map[7 := Job(Submitted, SENT)]
    ensures NextFinish(last, 1, Done).calls == SECOND_SENT.calls
  {
  }

  /** Two transfers from one address do get submitted, and the hash of the second transaction is lost: both rows
      end up holding the first one. */
  lemma SharedAddressLosesHash()
    ensures Run(SHARED_STEPS).jobs == map[7 := Job(Submitted, SENT)]
    ensures Run(SHARED_STEPS).calls == map[7 := [Call(0, Some("0xaa")), Call(1, Some("0xbb"))]]
  {
    SharedRecorded();
    SharedFinished(Run(SHARED_STEPS[..8]));
    RunPrefix(SHARED_STEPS, 9);
    assert SHARED_STEPS[..9] == SHARED_STEPS;
  }
}
