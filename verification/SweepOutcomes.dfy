/** What can still become of a sweep job (apps/billing-chain-listener/src/main.rs): which jobs can be confirmed, by
    which steps, and what a refusal by the executor leaves behind. */
module SweepOutcomes {
  import opened Common
  import opened SweepProtocol
  import opened SweepAbandoned

  // ---------------------------------------------------------------- continuations

  /** The state after more steps. */
  function RunFrom(s: State, more: seq<Step>): State {
    if more == [] then s else Next(RunFrom(s, Init(more)), Last(more))
  }

  lemma {:induction false} RunContinues(steps: seq<Step>, more: seq<Step>)
    ensures Run(steps + more) == RunFrom(Run(steps), more)
  {
    if more == [] {
      assert steps + more == steps;
    } else {
      RunContinues(steps, Init(more));
      assert Init(steps + more) == steps + Init(more) && Last(steps + more) == Last(more);
    }
  }

  lemma {:induction false} RunFromJoins(s: State, a: seq<Step>, b: seq<Step>)
    ensures RunFrom(s, a + b) == RunFrom(RunFrom(s, a), b)
  {
    if b == [] {
      assert a + b == a;
    } else {
      RunFromJoins(s, a, Init(b));
      assert Init(a + b) == a + Init(b) && Last(a + b) == Last(b);
    }
  }

  lemma OneStep(s: State, step: Step)
    ensures RunFrom(s, [step]) == Next(s, step)
  {
    assert Init([step]) == [] && RunFrom(s, []) == s;
  }

  lemma TwoSteps(s: State, a: Step, b: Step)
    ensures RunFrom(s, [a, b]) == Next(Next(s, a), b)
  {
    assert Init([a, b]) == [a];
    OneStep(s, a);
  }

  lemma ThreeSteps(s: State, a: Step, b: Step, c: Step)
    ensures RunFrom(s, [a, b, c]) == Next(Next(Next(s, a), b), c)
  {
    assert Init([a, b, c]) == [a, b];
    TwoSteps(s, a, b);
  }

  /** A worker that is not there yet is idle. */
  lemma IdleWorker(s: State) returns (w: WorkerId)
    ensures s.WorkerAt(w) == Idle
  {
    w := Unused(s.workers.Keys);
  }

  lemma {:induction false} Unused(ids: set<nat>) returns (w: nat)
    ensures forall i :: i in ids ==> i < w
  {
    if ids == {} {
      w := 0;
    } else {
      var x :| x in ids;
      var v := Unused(ids - {x});
      w := if v <= x then x + 1 else v;
      forall i | i in ids ensures i < w {
        assert i == x || i in ids - {x};
      }
    }
  }

  // ---------------------------------------------------------------- a pass of the confirmation worker

  /** Row j of a submitted job during a pass over the copy `read`: confirmed below `pos` and where it was. */
  ghost predicate RowInPass(read: Transfer, now: Transfer, done: bool) {
    && now.from == read.from && Recorded(now) && Recorded(read) && read.txHash.Some?
    && (done || read.status == TConfirmed ==> now.status == TConfirmed)
  }

  ghost predicate Passing(s: State, w: WorkerId, id: Id, read: seq<Transfer>, pos: nat) {
    && s.WorkerAt(w) == ConfLoop(Snap(id, read), pos, true, []) && pos <= |read|
    && id in s.jobs && s.jobs[id].status == Submitted && |s.jobs[id].transfers| == |read|
    && forall j :: 0 <= j < |read| ==> RowInPass(read[j], s.jobs[id].transfers[j], j < pos)
  }

  /** The store is the same and worker w is at k. */
  ghost predicate OnlyMoved(s: State, t: State, w: WorkerId, k: Worker) {
    t.WorkerAt(w) == k && t.jobs == s.jobs && t.calls == s.calls
  }

  lemma SnapOf(s: State, id: Id)
    requires id in s.jobs
    ensures Snaps(s, [id]) == [Snap(id, s.jobs[id].transfers)]
  {
    assert [id][1..] == [] && Snaps(s, []) == [];
  }

  lemma ConfirmationLists(s: State, w: WorkerId, id: Id)
    requires s.WorkerAt(w) == Idle && id in s.jobs && s.jobs[id].status == Submitted
    ensures OnlyMoved(s, Next(s, ConfListJobs(w, [id])), w, ConfListing([id]))
  {
  }

  lemma ConfirmationReads(s: State, w: WorkerId, id: Id)
    requires s.WorkerAt(w) == ConfListing([id]) && id in s.jobs
    ensures OnlyMoved(s, Next(s, ConfListTransfers(w)), w, ConfQueue([Snap(id, s.jobs[id].transfers)]))
  {
    SnapOf(s, id);
  }

  lemma ConfirmationPicks(s: State, w: WorkerId, snap: Snap)
    requires s.WorkerAt(w) == ConfQueue([snap])
    ensures OnlyMoved(s, Next(s, ConfPick(w)), w, ConfLoop(snap, 0, true, []))
  {
    assert [snap][1..] == [];
  }

  lemma PassStarts(s: State, w: WorkerId, id: Id)
    requires Inv(s) && s.WorkerAt(w) == Idle && id in s.jobs && s.jobs[id].status == Submitted
    ensures var start := [ConfListJobs(w, [id]), ConfListTransfers(w), ConfPick(w)];
      Passing(RunFrom(s, start), w, id, s.jobs[id].transfers, 0)
  {
    var snap := Snap(id, s.jobs[id].transfers);
    var a := Next(s, ConfListJobs(w, [id]));
    var b := Next(a, ConfListTransfers(w));
    ThreeSteps(s, ConfListJobs(w, [id]), ConfListTransfers(w), ConfPick(w));
    ConfirmationLists(s, w, id);
    ConfirmationReads(a, w, id);
    ConfirmationPicks(b, w, snap);
    SubmittedRows(s, id);
  }

  /** Every row of a submitted job is recorded with a hash. */
  lemma SubmittedRows(s: State, id: Id)
    requires Inv(s) && id in s.jobs && s.jobs[id].status == Submitted
    ensures forall j :: 0 <= j < |s.jobs[id].transfers| ==>
      RowInPass(s.jobs[id].transfers[j], s.jobs[id].transfers[j], false)
  {
    var job := s.jobs[id];
    forall j | 0 <= j < |job.transfers| ensures RowInPass(job.transfers[j], job.transfers[j], false) {
      assert RowInv(job.status, job.transfers, s.calls[id], s.chainConfirmed, j);
    }
  }

  /** One row: skipped when it was confirmed, else probed with a positive answer and marked. */
  function RowSteps(w: WorkerId, row: Transfer): seq<Step> {
    if row.status == TSubmitted then [ConfNext(w, true), ConfRecord(w, Done)] else [ConfNext(w, true)]
  }

  lemma PassRow(s: State, w: WorkerId, id: Id, read: seq<Transfer>, pos: nat)
    requires Passing(s, w, id, read, pos) && pos < |read|
    ensures Passing(RunFrom(s, RowSteps(w, read[pos])), w, id, read, pos + 1)
  {
    assert RowInPass(read[pos], s.jobs[id].transfers[pos], false);
    if read[pos].status == TSubmitted {
      TwoSteps(s, ConfNext(w, true), ConfRecord(w, Done));
      MarkedInPass(s, w, id, read, pos);
    } else {
      OneStep(s, ConfNext(w, true));
      forall j | 0 <= j < |read| ensures RowInPass(read[j], s.jobs[id].transfers[j], j < pos + 1) {
        assert RowInPass(read[j], s.jobs[id].transfers[j], j < pos);
      }
    }
  }

  lemma MarkedInPass(s: State, w: WorkerId, id: Id, read: seq<Transfer>, pos: nat)
    requires Passing(s, w, id, read, pos) && pos < |read| && read[pos].status == TSubmitted && read[pos].txHash.Some?
    ensures Passing(Next(Next(s, ConfNext(w, true)), ConfRecord(w, Done)), w, id, read, pos + 1)
  {
    var a := Next(s, ConfNext(w, true));
    var ts := s.jobs[id].transfers;
    var b := Next(a, ConfRecord(w, Done));
    assert a.WorkerAt(w) == ConfSeen(Snap(id, read), pos, read[pos].txHash.value, true, []);
    assert b.jobs[id] == s.jobs[id].(transfers := MarkConfirmed(ts, read[pos].from));
    forall j | 0 <= j < |read| ensures RowInPass(read[j], MarkConfirmed(ts, read[pos].from)[j], j < pos + 1) {
      assert RowInPass(read[j], ts[j], j < pos);
    }
  }

  lemma {:induction false} PassGoesOn(s: State, w: WorkerId, id: Id, read: seq<Transfer>, pos: nat)
      returns (more: seq<Step>)
    requires Passing(s, w, id, read, pos)
    ensures Passing(RunFrom(s, more), w, id, read, |read|)
    decreases |read| - pos
  {
    if pos == |read| {
      more := [];
    } else {
      var here := RowSteps(w, read[pos]);
      PassRow(s, w, id, read, pos);
      var rest := PassGoesOn(RunFrom(s, here), w, id, read, pos + 1);
      RunFromJoins(s, here, rest);
      more := here + rest;
    }
  }

  lemma PassEnds(s: State, w: WorkerId, id: Id, read: seq<Transfer>)
    requires Passing(s, w, id, read, |read|)
    ensures var t := RunFrom(s, [ConfRefreshJobs(w, true), ConfRefreshTransfers(w), ConfFinish(w, Done)]);
      id in t.jobs && t.jobs[id].status == Confirmed
  {
    ThreeSteps(s, ConfRefreshJobs(w, true), ConfRefreshTransfers(w), ConfFinish(w, Done));
    forall j | 0 <= j < |s.jobs[id].transfers| ensures s.jobs[id].transfers[j].status == TConfirmed {
      assert RowInPass(read[j], s.jobs[id].transfers[j], true);
    }
    var snap := Snap(id, read);
    var a := Next(s, ConfRefreshJobs(w, true));
    var b := Next(a, ConfRefreshTransfers(w));
    ConfirmationRefreshes(s, w, snap);
    ConfirmationChecks(a, w, snap);
    ConfirmationEnds(b, w, snap);
  }

  lemma ConfirmationRefreshes(s: State, w: WorkerId, snap: Snap)
    requires s.WorkerAt(w) == ConfLoop(snap, |snap.transfers|, true, []) && snap.id in s.jobs
    ensures OnlyMoved(s, Next(s, ConfRefreshJobs(w, true)), w, ConfRefreshing(snap, []))
  {
  }

  lemma ConfirmationChecks(s: State, w: WorkerId, snap: Snap)
    requires s.WorkerAt(w) == ConfRefreshing(snap, []) && snap.id in s.jobs && AllConfirmed(s.jobs[snap.id].transfers)
    ensures OnlyMoved(s, Next(s, ConfRefreshTransfers(w)), w, ConfReady(snap, []))
  {
  }

  lemma ConfirmationEnds(s: State, w: WorkerId, snap: Snap)
    requires s.WorkerAt(w) == ConfReady(snap, []) && snap.id in s.jobs && s.jobs[snap.id].status == Submitted
    ensures var t := Next(s, ConfFinish(w, Done)); snap.id in t.jobs && t.jobs[snap.id].status == Confirmed
  {
  }

  /** A failure-free pass of an idle worker with positive answers confirms a submitted job. */
  lemma SubmittedCanConfirm(s: State, id: Id) returns (more: seq<Step>)
    requires Inv(s) && id in s.jobs && s.jobs[id].status == Submitted
    ensures id in RunFrom(s, more).jobs && RunFrom(s, more).jobs[id].status == Confirmed
  {
    var w := IdleWorker(s);
    var start := [ConfListJobs(w, [id]), ConfListTransfers(w), ConfPick(w)];
    PassStarts(s, w, id);
    var a := RunFrom(s, start);
    var rows := PassGoesOn(a, w, id, s.jobs[id].transfers, 0);
    var end := [ConfRefreshJobs(w, true), ConfRefreshTransfers(w), ConfFinish(w, Done)];
    PassEnds(RunFrom(a, rows), w, id, s.jobs[id].transfers);
    RunFromJoins(s, start, rows);
    RunFromJoins(s, start + rows, end);
    more := start + rows + end;
  }

  // ---------------------------------------------------------------- a pass of the submission worker

  /** Worker w is about to submit the rest of job id. */
  ghost predicate AtWork(s: State, w: WorkerId, id: Id, pos: nat) {
    var k := s.WorkerAt(w);
    && k.SubLoop? && k.job.id == id && k.pos == pos <= |k.job.transfers| && k.job.transfers != []
    && (k.submittedAny <==> pos > 0) && Fresh(k.job.transfers)
    && id in s.jobs && s.jobs[id].status == Submitting
  }

  ghost predicate AboutToRecord(s: State, w: WorkerId, id: Id, pos: nat) {
    var k := s.WorkerAt(w);
    && k.SubSent? && k.job.id == id && k.pos == pos < |k.job.transfers| && Fresh(k.job.transfers)
    && id in s.jobs && s.jobs[id].status == Submitting
  }

  lemma SubmissionSends(s: State, w: WorkerId, id: Id, pos: nat)
    requires AtWork(s, w, id, pos) && pos < |s.WorkerAt(w).job.transfers|
    ensures AboutToRecord(Next(s, SubNext(w, Some("0x"))), w, id, pos)
    ensures Next(s, SubNext(w, Some("0x"))).WorkerAt(w).job == s.WorkerAt(w).job
  {
  }

  lemma SubmissionRecords(s: State, w: WorkerId, id: Id, pos: nat)
    requires AboutToRecord(s, w, id, pos)
    ensures AtWork(Next(s, SubRecord(w, Done)), w, id, pos + 1)
    ensures Next(s, SubRecord(w, Done)).WorkerAt(w).job == s.WorkerAt(w).job
  {
  }

  lemma SubmissionEnds(s: State, w: WorkerId, id: Id, pos: nat)
    requires AtWork(s, w, id, pos) && pos == |s.WorkerAt(w).job.transfers|
    ensures var t := Next(s, SubFinish(w, Done)); id in t.jobs && t.jobs[id].status == Submitted
  {
  }

  /** With answers for all that is left, and no failing write, the job is submitted. */
  lemma {:induction false} WorkEnds(s: State, w: WorkerId, id: Id, pos: nat) returns (more: seq<Step>)
    requires AtWork(s, w, id, pos)
    ensures id in RunFrom(s, more).jobs && RunFrom(s, more).jobs[id].status == Submitted
    decreases |s.WorkerAt(w).job.transfers| - pos
  {
    if pos == |s.WorkerAt(w).job.transfers| {
      SubmissionEnds(s, w, id, pos);
      OneStep(s, SubFinish(w, Done));
      more := [SubFinish(w, Done)];
    } else {
      var a := Next(s, SubNext(w, Some("0x")));
      SubmissionSends(s, w, id, pos);
      SubmissionRecords(a, w, id, pos);
      var here := [SubNext(w, Some("0x")), SubRecord(w, Done)];
      TwoSteps(s, here[0], here[1]);
      var rest := WorkEnds(Next(a, SubRecord(w, Done)), w, id, pos + 1);
      RunFromJoins(s, here, rest);
      more := here + rest;
    }
  }

  lemma SubmissionLists(s: State, w: WorkerId, id: Id)
    requires s.WorkerAt(w) == Idle && id in s.jobs && s.jobs[id].status == Pending
    ensures OnlyMoved(s, Next(s, SubListJobs(w, [id])), w, SubListing([id]))
  {
  }

  lemma SubmissionReads(s: State, w: WorkerId, id: Id)
    requires s.WorkerAt(w) == SubListing([id]) && id in s.jobs
    ensures OnlyMoved(s, Next(s, SubListTransfers(w)), w, SubQueue([Snap(id, s.jobs[id].transfers)]))
  {
    SnapOf(s, id);
  }

  lemma SubmissionClaims(s: State, w: WorkerId, snap: Snap)
    requires s.WorkerAt(w) == SubQueue([snap]) && snap.id in s.jobs && s.jobs[snap.id].status == Pending
    requires Fresh(snap.transfers) && snap.transfers != []
    ensures AtWork(Next(s, SubClaim(w, Done)), w, snap.id, 0)
  {
    assert [snap][1..] == [];
  }

  lemma PendingRows(s: State, id: Id)
    requires Inv(s) && id in s.jobs && s.jobs[id].status == Pending
    ensures Fresh(s.jobs[id].transfers) && s.jobs[id].transfers != []
  {
    var job := s.jobs[id];
    forall j | 0 <= j < |job.transfers| ensures job.transfers[j].status == TPending && job.transfers[j].txHash == None {
      assert RowInv(job.status, job.transfers, s.calls[id], s.chainConfirmed, j);
    }
  }

  /** A failure-free pass of an idle worker, every transfer answered, submits a pending job. */
  lemma PendingCanSubmit(s: State, id: Id) returns (more: seq<Step>)
    requires Inv(s) && id in s.jobs && s.jobs[id].status == Pending
    ensures id in RunFrom(s, more).jobs && RunFrom(s, more).jobs[id].status == Submitted
  {
    var w := IdleWorker(s);
    var snap := Snap(id, s.jobs[id].transfers);
    var start := [SubListJobs(w, [id]), SubListTransfers(w), SubClaim(w, Done)];
    var a := Next(s, start[0]);
    var b := Next(a, start[1]);
    PendingRows(s, id);
    SubmissionLists(s, w, id);
    SubmissionReads(a, w, id);
    SubmissionClaims(b, w, snap);
    ThreeSteps(s, start[0], start[1], start[2]);
    var rest := WorkEnds(Next(b, start[2]), w, id, 0);
    RunFromJoins(s, start, rest);
    more := start + rest;
  }

  /** So does the worker that holds the job, unless a transfer was refused or a write was reported as failed. */
  lemma HeldCanSubmit(s: State, w: WorkerId, id: Id) returns (more: seq<Step>)
    requires Inv(s) && s.WorkerAt(w).Owns(id) && (s.WorkerAt(w).SubLoop? || s.WorkerAt(w).SubSent?)
    ensures id in RunFrom(s, more).jobs && RunFrom(s, more).jobs[id].status == Submitted
  {
    var k := s.WorkerAt(w);
    assert WorkerInv(s, k);
    OwnedIsSubmitting(s, w, id);
    assert JobInv(s.jobs[id], s.calls[id], s.chainConfirmed);
    if k.SubLoop? {
      more := WorkEnds(s, w, id, k.pos);
    } else {
      SubmissionRecords(s, w, id, k.pos);
      OneStep(s, SubRecord(w, Done));
      var rest := WorkEnds(Next(s, SubRecord(w, Done)), w, id, k.pos + 1);
      RunFromJoins(s, [SubRecord(w, Done)], rest);
      more := [SubRecord(w, Done)] + rest;
    }
  }

  // ---------------------------------------------------------------- jobs that can no longer be confirmed

  /** The job has failed, or it is claimed and whoever holds it has given it up. */
  ghost predicate Doomed(s: State, id: Id) {
    && id in s.jobs && s.jobs[id].status in {Submitting, Failed}
    && forall w :: w in s.workers && s.workers[w].Owns(id) ==> s.workers[w].SubRefused? || s.workers[w].SubBroken?
  }

  /** What a step may do to a doomed job: nothing at all, or fail it; and only worker w changes. */
  ghost predicate KeepsDoom(s: State, t: State, w: WorkerId, id: Id) {
    && id in s.jobs && id in t.jobs
    && (t.jobs[id].status == s.jobs[id].status || t.jobs[id].status == Failed)
    && (forall v :: v in t.workers && v != w ==> v in s.workers && t.workers[v] == s.workers[v])
    && (t.WorkerAt(w).Owns(id) ==> t.WorkerAt(w).SubRefused? || t.WorkerAt(w).SubBroken?)
  }

  lemma StaysDoomed(s: State, t: State, w: WorkerId, id: Id)
    requires Doomed(s, id) && KeepsDoom(s, t, w, id)
    ensures Doomed(t, id)
  {
    forall v | v in t.workers && t.workers[v].Owns(id) ensures t.workers[v].SubRefused? || t.workers[v].SubBroken? {
      if v != w {
        assert v in s.workers;
      }
    }
  }

  lemma NoLoopOwner(s: State, w: WorkerId, id: Id)
    requires Doomed(s, id)
    ensures s.WorkerAt(w).Owns(id) ==> s.WorkerAt(w).SubRefused? || s.WorkerAt(w).SubBroken?
  {
  }

  lemma ListingDooms(s: State, step: Step, id: Id)
    requires Doomed(s, id)
    requires step.SubListJobs? || step.SubListTransfers? || step.ConfListJobs? || step.ConfListTransfers?
    ensures KeepsDoom(s, Next(s, step), step.w, id)
  {
    NoLoopOwner(s, step.w, id);
  }

  lemma PickDooms(s: State, step: Step, id: Id)
    requires Doomed(s, id) && (step.ConfPick? || step.ConfRefreshJobs? || step.ConfRefreshTransfers?)
    ensures KeepsDoom(s, Next(s, step), step.w, id)
  {
    NoLoopOwner(s, step.w, id);
  }

  lemma ClaimDooms(s: State, w: WorkerId, write: Write, id: Id)
    requires Doomed(s, id)
    ensures KeepsDoom(s, NextClaim(s, w, write), w, id)
  {
    NoLoopOwner(s, w, id);
  }

  lemma SubmissionDooms(s: State, w: WorkerId, answer: Option<string>, id: Id)
    requires Doomed(s, id)
    ensures KeepsDoom(s, NextSubmission(s, w, answer), w, id)
  {
    NoLoopOwner(s, w, id);
  }

  lemma RecordDooms(s: State, w: WorkerId, write: Write, id: Id)
    requires Doomed(s, id)
    ensures KeepsDoom(s, NextRecord(s, w, write), w, id)
  {
    NoLoopOwner(s, w, id);
  }

  lemma RefusalDooms(s: State, w: WorkerId, write: Write, id: Id)
    requires Doomed(s, id)
    ensures KeepsDoom(s, NextRefusal(s, w, write), w, id)
  {
    NoLoopOwner(s, w, id);
  }

  lemma FinishDooms(s: State, w: WorkerId, write: Write, id: Id)
    requires Doomed(s, id)
    ensures KeepsDoom(s, NextFinish(s, w, write), w, id)
  {
    NoLoopOwner(s, w, id);
  }

  lemma ConfirmationDooms(s: State, w: WorkerId, confirmed: bool, id: Id)
    requires Doomed(s, id)
    ensures KeepsDoom(s, NextConfirmation(s, w, confirmed), w, id)
  {
    NoLoopOwner(s, w, id);
  }

  lemma ConfRecordDooms(s: State, w: WorkerId, write: Write, id: Id)
    requires Doomed(s, id)
    ensures KeepsDoom(s, NextConfRecord(s, w, write), w, id)
  {
    NoLoopOwner(s, w, id);
  }

  lemma ConfFinishDooms(s: State, w: WorkerId, write: Write, id: Id)
    requires Doomed(s, id)
    ensures KeepsDoom(s, NextConfFinish(s, w, write), w, id)
  {
    NoLoopOwner(s, w, id);
  }

  lemma CreateDooms(s: State, job: Id, froms: seq<string>, id: Id)
    requires Doomed(s, id)
    ensures Doomed(NextCreate(s, job, froms), id)
  {
  }

  lemma StepDooms(s: State, step: Step, id: Id)
    requires Doomed(s, id)
    ensures Doomed(Next(s, step), id)
  {
    if step.CreateJob? {
      CreateDooms(s, step.id, step.froms, id);
    } else {
      WorkerStepDooms(s, step, id);
      StaysDoomed(s, Next(s, step), step.w, id);
    }
  }

  lemma WorkerStepDooms(s: State, step: Step, id: Id)
    requires Doomed(s, id) && !step.CreateJob?
    ensures KeepsDoom(s, Next(s, step), step.w, id)
  {
    match step
    case Crash(w) =>
    case SubClaim(w, write) => ClaimDooms(s, w, write, id);
    case SubNext(w, answer) => SubmissionDooms(s, w, answer, id);
    case SubRecord(w, write) => RecordDooms(s, w, write, id);
    case SubRecordRefusal(w, write) => RefusalDooms(s, w, write, id);
    case SubFinish(w, write) => FinishDooms(s, w, write, id);
    case ConfNext(w, confirmed) => ConfirmationDooms(s, w, confirmed, id);
    case ConfRecord(w, write) => ConfRecordDooms(s, w, write, id);
    case ConfFinish(w, write) => ConfFinishDooms(s, w, write, id);
    case ConfPick(_) => PickDooms(s, step, id);
    case ConfRefreshJobs(_, _) => PickDooms(s, step, id);
    case ConfRefreshTransfers(_) => PickDooms(s, step, id);
    case _ => ListingDooms(s, step, id);
  }

  lemma {:induction false} DoomLasts(s: State, more: seq<Step>, id: Id)
    requires Doomed(s, id)
    ensures Doomed(RunFrom(s, more), id)
  {
    if more != [] {
      DoomLasts(s, Init(more), id);
      StepDooms(RunFrom(s, Init(more)), Last(more), id);
    }
  }

  // ---------------------------------------------------------------- which jobs can be confirmed

  ghost predicate IsConfirmed(s: State, id: Id) {
    id in s.jobs && s.jobs[id].status == Confirmed
  }

  /** Some worker holds the job and has been neither refused nor told of a failed write. */
  ghost predicate InGoodHands(s: State, id: Id) {
    exists w :: w in s.workers && s.workers[w].Owns(id) && (s.workers[w].SubLoop? || s.workers[w].SubSent?)
  }

  lemma SubmittedAfter(steps: seq<Step>, more: seq<Step>, id: Id) returns (all: seq<Step>)
    requires id in RunFrom(Run(steps), more).jobs && RunFrom(Run(steps), more).jobs[id].status == Submitted
    ensures IsConfirmed(Run(steps + all), id)
  {
    RunContinues(steps, more);
    RunKeepsInv(steps + more);
    var rest := SubmittedCanConfirm(Run(steps + more), id);
    all := more + rest;
    ThreeParts(steps, more, rest);
  }

  lemma ThreeParts(steps: seq<Step>, more: seq<Step>, rest: seq<Step>)
    ensures Run(steps + (more + rest)) == RunFrom(Run(steps + more), rest)
  {
    RunContinues(steps + more, rest);
    assert steps + (more + rest) == (steps + more) + rest;
  }

  lemma CanConfirm(steps: seq<Step>, id: Id) returns (all: seq<Step>)
    requires id in Run(steps).jobs && !Doomed(Run(steps), id)
    ensures IsConfirmed(Run(steps + all), id)
  {
    var s := Run(steps);
    RunKeepsInv(steps);
    match s.jobs[id].status
    case Confirmed =>
      all := [];
      assert steps + all == steps;
    case Submitted =>
      assert RunFrom(s, []) == s;
      all := SubmittedAfter(steps, [], id);
    case Pending =>
      var more := PendingCanSubmit(s, id);
      all := SubmittedAfter(steps, more, id);
    case _ =>
      var w :| w in s.workers && s.workers[w].Owns(id) && !(s.workers[w].SubRefused? || s.workers[w].SubBroken?);
      var more := HeldCanSubmit(s, w, id);
      all := SubmittedAfter(steps, more, id);
  }

  lemma NotDoomedIff(s: State, id: Id)
    requires Inv(s) && id in s.jobs
    ensures !Doomed(s, id) <==> s.jobs[id].status in {Pending, Submitted, Confirmed} || InGoodHands(s, id)
  {
    if InGoodHands(s, id) {
      var w :| w in s.workers && s.workers[w].Owns(id) && (s.workers[w].SubLoop? || s.workers[w].SubSent?);
    }
  }

  /** From every reachable state: some continuation confirms a job exactly when it is pending, submitted or confirmed,
      or claimed by a worker that has met neither a refusal nor a failed write.  The continuation is one pass of an
      idle submission worker, if needed, and one of an idle confirmation worker. */
  lemma ConfirmableIff(steps: seq<Step>, id: Id)
    requires id in Run(steps).jobs
    ensures (exists more :: IsConfirmed(Run(steps + more), id)) <==>
      Run(steps).jobs[id].status in {Pending, Submitted, Confirmed} || InGoodHands(Run(steps), id)
  {
    RunKeepsInv(steps);
    NotDoomedIff(Run(steps), id);
    if Doomed(Run(steps), id) {
      forall more ensures !IsConfirmed(Run(steps + more), id) {
        RunContinues(steps, more);
        DoomLasts(Run(steps), more, id);
      }
    } else {
      var all := CanConfirm(steps, id);
    }
  }

  // ---------------------------------------------------------------- what a refusal leaves behind

  /** Where the executor refused a transfer and that is stored, every row of that address is failed, every other row is
      as it was, and an applied last write fails the job. */
  lemma RefusalFails(steps: seq<Step>, w: WorkerId, write: Write, last: Write)
    requires Run(steps).WorkerAt(w).SubRefused? && write.Applied() && last.Applied()
    ensures var s, k := Run(steps), Run(steps).WorkerAt(w);
      var t := Run(steps + [SubRecordRefusal(w, write), SubFinish(w, last)]);
      && k.job.id in s.jobs && k.job.id in t.jobs && t.jobs[k.job.id].status == Failed
      && |t.jobs[k.job.id].transfers| == |s.jobs[k.job.id].transfers| && k.pos < |k.job.transfers|
      && forall j :: 0 <= j < |s.jobs[k.job.id].transfers| ==>
           t.jobs[k.job.id].transfers[j] ==
           (if s.jobs[k.job.id].transfers[j].from == k.job.transfers[k.pos].from
            then s.jobs[k.job.id].transfers[j].(status := TFailed) else s.jobs[k.job.id].transfers[j])
  {
    RunKeepsInv(steps);
    var s := Run(steps);
    RunContinues(steps, [SubRecordRefusal(w, write), SubFinish(w, last)]);
    TwoSteps(s, SubRecordRefusal(w, write), SubFinish(w, last));
    RefusalMarks(s, w, write);
    RefusalEnds(Next(s, SubRecordRefusal(w, write)), w, s.WorkerAt(w).job.id, last);
  }

  lemma RefusalMarks(s: State, w: WorkerId, write: Write)
    requires Inv(s) && s.WorkerAt(w).SubRefused? && write.Applied()
    ensures var k := s.WorkerAt(w);
      && k.job.id in s.jobs && s.jobs[k.job.id].status == Submitting && k.pos < |k.job.transfers|
      && var t := Next(s, SubRecordRefusal(w, write));
        && t.WorkerAt(w) == SubBroken(k.job, k.todo)
        && t.jobs[k.job.id] == Job(Submitting, MarkFailed(s.jobs[k.job.id].transfers, k.job.transfers[k.pos].from))
    ensures var k := s.WorkerAt(w);
      forall j :: 0 <= j < |s.jobs[k.job.id].transfers| ==>
        s.jobs[k.job.id].transfers[j].status in {TPending, TSubmitted}
  {
    var k := s.WorkerAt(w);
    assert WorkerInv(s, k);
    var job := s.jobs[k.job.id];
    forall j | 0 <= j < |job.transfers| ensures job.transfers[j].status in {TPending, TSubmitted} {
      assert SentUpTo(job.transfers, k.pos, j);
      assert RowInv(Submitting, job.transfers, s.calls[k.job.id], s.chainConfirmed, j);
    }
  }

  lemma RefusalEnds(s: State, w: WorkerId, id: Id, last: Write)
    requires s.WorkerAt(w).SubBroken? && s.WorkerAt(w).job.id == id && last.Applied()
    requires id in s.jobs && s.jobs[id].status == Submitting
    ensures var t := Next(s, SubFinish(w, last)); id in t.jobs && t.jobs[id] == s.jobs[id].(status := Failed)
  {
  }
}
