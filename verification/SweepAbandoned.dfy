/** What becomes of a sweep job that its worker lost (apps/billing-chain-listener/src/main.rs): nothing ever picks it up
    again. */
module SweepAbandoned {
  import opened Common
  import opened SweepProtocol

  /** Claimed, and no worker is working on it. */
  ghost predicate Abandoned(s: State, id: Id) {
    && id in s.jobs && s.jobs[id].status == Submitting && id in s.calls
    && forall w :: w in s.workers ==> !s.workers[w].Owns(id)
  }

  /** Job, calls and ownership of `id` as before. */
  ghost predicate Untouched(s: State, after: State, id: Id) {
    && Abandoned(after, id) && id in s.jobs && after.jobs[id] == s.jobs[id]
    && id in s.calls && after.calls[id] == s.calls[id]
  }

  lemma NotOwner(s: State, id: Id, w: WorkerId)
    requires id in s.jobs && Abandoned(s, id)
    ensures !s.WorkerAt(w).Owns(id)
  {
  }

  /** A worker that moves on to something else. */
  lemma MoveLeaves(s: State, w: WorkerId, k: Worker, id: Id)
    requires Abandoned(s, id) && !k.Owns(id)
    ensures Untouched(s, s.SetWorker(w, k), id)
  {
  }

  /** A write to another job, or a write of nothing. */
  lemma WriteLeaves(s: State, t: State, w: WorkerId, k: Worker, id: Id)
    requires Abandoned(s, id) && !k.Owns(id) && t.workers == s.workers
    requires id in t.jobs && t.jobs[id] == s.jobs[id] && id in t.calls && t.calls[id] == s.calls[id]
    ensures Untouched(s, t.SetWorker(w, k), id)
  {
  }

  lemma ClaimLeaves(s: State, w: WorkerId, write: Write, id: Id)
    requires Abandoned(s, id)
    ensures Untouched(s, NextClaim(s, w, write), id)
  {
    var k := s.WorkerAt(w);
    if k.SubQueue? && k.todo != [] {
      var t := MoveJob(s, k.todo[0].id, {Pending}, Submitting, write);
      WriteLeaves(s, t, w, NextClaim(s, w, write).workers[w], id);
    }
  }

  lemma SubmissionLeaves(s: State, w: WorkerId, answer: Option<string>, id: Id)
    requires Abandoned(s, id)
    ensures Untouched(s, NextSubmission(s, w, answer), id)
  {
    NotOwner(s, id, w);
  }

  lemma RecordLeaves(s: State, w: WorkerId, write: Write, id: Id)
    requires Abandoned(s, id)
    ensures Untouched(s, NextRecord(s, w, write), id)
  {
    NotOwner(s, id, w);
  }

  lemma RefusalLeaves(s: State, w: WorkerId, write: Write, id: Id)
    requires Abandoned(s, id)
    ensures Untouched(s, NextRefusal(s, w, write), id)
  {
    NotOwner(s, id, w);
  }

  lemma FinishLeaves(s: State, w: WorkerId, write: Write, id: Id)
    requires Abandoned(s, id)
    ensures Untouched(s, NextFinish(s, w, write), id)
  {
    NotOwner(s, id, w);
  }

  /** A confirmation worker holds only jobs that were submitted. */
  lemma ConfirmerElsewhere(s: State, w: WorkerId, id: Id)
    requires Inv(s) && Abandoned(s, id) && (s.WorkerAt(w).ConfSeen? || s.WorkerAt(w).ConfReady?)
    ensures s.WorkerAt(w).job.id != id
  {
    assert WorkerInv(s, s.workers[w]);
  }

  lemma ConfRecordLeaves(s: State, w: WorkerId, write: Write, id: Id)
    requires Inv(s) && Abandoned(s, id)
    ensures Untouched(s, NextConfRecord(s, w, write), id)
  {
    if s.WorkerAt(w).ConfSeen? {
      ConfirmerElsewhere(s, w, id);
    }
  }

  lemma ConfFinishLeaves(s: State, w: WorkerId, write: Write, id: Id)
    requires Inv(s) && Abandoned(s, id)
    ensures Untouched(s, NextConfFinish(s, w, write), id)
  {
    if s.WorkerAt(w).ConfReady? {
      ConfirmerElsewhere(s, w, id);
    }
  }

  lemma ConfNextLeaves(s: State, w: WorkerId, confirmed: bool, id: Id)
    requires Abandoned(s, id)
    ensures Untouched(s, NextConfirmation(s, w, confirmed), id)
  {
  }

  /** Steps that only read the store. */
  lemma ReadingLeaves(s: State, step: Step, id: Id)
    requires Abandoned(s, id)
    requires step.SubListJobs? || step.SubListTransfers? || step.ConfListJobs? || step.ConfListTransfers?
          || step.ConfPick? || step.ConfRefreshJobs? || step.ConfRefreshTransfers?
    ensures Untouched(s, Next(s, step), id)
  {
    var k := Next(s, step).WorkerAt(step.w);
    if Next(s, step) != s {
      MoveLeaves(s, step.w, k, id);
    }
  }

  lemma SubmitterLeaves(s: State, step: Step, id: Id)
    requires Abandoned(s, id)
    requires step.SubClaim? || step.SubNext? || step.SubRecord? || step.SubRecordRefusal? || step.SubFinish?
    ensures Untouched(s, Next(s, step), id)
  {
    match step
    case SubClaim(w, write) => ClaimLeaves(s, w, write, id);
    case SubNext(w, answer) => SubmissionLeaves(s, w, answer, id);
    case SubRecord(w, write) => RecordLeaves(s, w, write, id);
    case SubRecordRefusal(w, write) => RefusalLeaves(s, w, write, id);
    case SubFinish(w, write) => FinishLeaves(s, w, write, id);
  }

  lemma ConfirmerLeaves(s: State, step: Step, id: Id)
    requires Inv(s) && Abandoned(s, id)
    requires step.ConfNext? || step.ConfRecord? || step.ConfFinish?
    ensures Untouched(s, Next(s, step), id)
  {
    match step
    case ConfNext(w, confirmed) => ConfNextLeaves(s, w, confirmed, id);
    case ConfRecord(w, write) => ConfRecordLeaves(s, w, write, id);
    case ConfFinish(w, write) => ConfFinishLeaves(s, w, write, id);
  }

  lemma CreateLeaves(s: State, job: Id, froms: seq<string>, id: Id)
    requires Abandoned(s, id)
    ensures Untouched(s, NextCreate(s, job, froms), id)
  {
  }

  lemma StepLeaves(s: State, step: Step, id: Id)
    requires Inv(s) && Abandoned(s, id)
    ensures Untouched(s, Next(s, step), id)
  {
    if step.SubClaim? || step.SubNext? || step.SubRecord? || step.SubRecordRefusal? || step.SubFinish? {
      SubmitterLeaves(s, step, id);
    } else if step.ConfNext? || step.ConfRecord? || step.ConfFinish? {
      ConfirmerLeaves(s, step, id);
    } else {
      match step
      case CreateJob(job, froms) => CreateLeaves(s, job, froms, id);
      case Crash(w) => MoveLeaves(s, w, Idle, id);
      case _ => ReadingLeaves(s, step, id);
    }
  }

  /** Once abandoned, always abandoned: over every continuation the job stays submitting, its transfers stay as they
      are and the executor is never called for it again. */
  lemma {:induction false} AbandonedForever(steps: seq<Step>, more: seq<Step>, id: Id)
    requires Abandoned(Run(steps), id)
    ensures Untouched(Run(steps), Run(steps + more), id)
  {
    if more == [] {
      assert steps + more == steps;
    } else {
      var front, step := Init(more), Last(more);
      AbandonedForever(steps, front, id);
      RunKeepsInv(steps + front);
      assert Init(steps + more) == steps + front && Last(steps + more) == step;
      StepLeaves(Run(steps + front), step, id);
    }
  }

  // ---------------------------------------------------------------- how it happens

  lemma OwnedIsSubmitting(s: State, w: WorkerId, id: Id)
    requires Inv(s) && s.WorkerAt(w).Owns(id)
    ensures id in s.jobs && s.jobs[id].status == Submitting && id in s.calls
  {
    assert WorkerInv(s, s.workers[w]);
  }

  /** A worker that dies between its claim and its last write abandons its job. */
  lemma CrashAbandons(steps: seq<Step>, w: WorkerId, id: Id)
    requires Run(steps).WorkerAt(w).Owns(id)
    ensures Abandoned(Run(steps + [Crash(w)]), id)
  {
    RunKeepsInv(steps);
    OwnedIsSubmitting(Run(steps), w, id);
    RunOneMore(steps, Crash(w));
  }

  /** A worker that dies right after its claim: the job stays submitting with nothing sent, whatever happens later. */
  lemma CrashAfterClaim(more: seq<Step>)
    ensures Abandoned(Run(SHARED_STEPS[..4] + [Crash(1)]), 7)
    ensures var s := Run(SHARED_STEPS[..4] + [Crash(1)] + more);
      7 in s.jobs && s.jobs[7] == Job(Submitting, UNTOUCHED) && 7 in s.calls && s.calls[7] == []
  {
    SharedClaimed();
    CrashAbandons(SHARED_STEPS[..4], 1, 7);
    RunOneMore(SHARED_STEPS[..4], Crash(1));
    AbandonedForever(SHARED_STEPS[..4] + [Crash(1)], more, 7);
  }

  /** One that dies between a transfer and its record: the transfer is out and its hash is never stored. */
  lemma CrashAfterSending(more: seq<Step>)
    ensures var s := Run(SHARED_STEPS[..5] + [Crash(1)] + more);
      && 7 in s.jobs && s.jobs[7] == Job(Submitting, UNTOUCHED)
      && 7 in s.calls && s.calls[7] == [Call(0, Some("0xaa"))]
  {
    SharedClaimed();
    SendFirst();
    StepTo(SHARED_STEPS, 4, SubNext(1, Some("0xaa")), CLAIMED, FIRST_SENT);
    CrashAbandons(SHARED_STEPS[..5], 1, 7);
    RunOneMore(SHARED_STEPS[..5], Crash(1));
    AbandonedForever(SHARED_STEPS[..5] + [Crash(1)], more, 7);
  }

  lemma RunOneMore(steps: seq<Step>, step: Step)
    ensures Run(steps + [step]) == Next(Run(steps), step)
  {
    assert Init(steps + [step]) == steps;
  }

  /** A claim that is stored but reported as failed abandons the job before the first transfer. */
  lemma LostClaimAbandons(steps: seq<Step>, w: WorkerId, write: Write)
    requires var k := Run(steps).WorkerAt(w);
      k.SubQueue? && k.todo != [] && k.todo[0].id in Run(steps).jobs && Run(steps).jobs[k.todo[0].id].status == Pending
    requires write.Applied() && !write.ReportedOk()
    ensures Abandoned(Run(steps + [SubClaim(w, write)]), Run(steps).WorkerAt(w).todo[0].id)
  {
    var s := Run(steps);
    var id := s.WorkerAt(w).todo[0].id;
    RunKeepsInv(steps);
    RunOneMore(steps, SubClaim(w, write));
    forall v | v in s.workers ensures !s.workers[v].Owns(id) {
      if s.workers[v].Owns(id) {
        assert s.WorkerAt(v).Owns(id);
        OwnedIsSubmitting(s, v, id);
      }
    }
  }

  /** A last write that is lost, its result being ignored, abandons the job although every transfer was handled. */
  lemma LostFinishAbandons(steps: seq<Step>, w: WorkerId, id: Id, write: Write)
    requires var k := Run(steps).WorkerAt(w);
      k.Owns(id) && (k.SubBroken? || (k.SubLoop? && k.pos >= |k.job.transfers|))
    requires !write.Applied()
    ensures Abandoned(Run(steps + [SubFinish(w, write)]), id)
  {
    RunKeepsInv(steps);
    OwnedIsSubmitting(Run(steps), w, id);
    RunOneMore(steps, SubFinish(w, write));
  }

  // ---------------------------------------------------------------- the only way to be stuck

  ghost predicate Ended(s: State, id: Id) {
    id in s.jobs && s.jobs[id].status != Submitting
  }

  lemma BrokenEnds(s: State, w: WorkerId, id: Id)
    requires Inv(s) && s.WorkerAt(w).SubBroken? && s.WorkerAt(w).Owns(id)
    ensures Ended(Next(s, SubFinish(w, Done)), id)
  {
    OwnedIsSubmitting(s, w, id);
  }

  lemma RefusedBreaks(s: State, w: WorkerId, id: Id)
    requires Inv(s) && s.WorkerAt(w).SubRefused? && s.WorkerAt(w).Owns(id)
    ensures var t := Next(s, SubRecordRefusal(w, NotDone)); t.WorkerAt(w).SubBroken? && t.WorkerAt(w).Owns(id)
  {
    assert WorkerInv(s, s.workers[w]);
  }

  lemma SentBreaks(s: State, w: WorkerId, id: Id)
    requires Inv(s) && s.WorkerAt(w).SubSent? && s.WorkerAt(w).Owns(id)
    ensures var t := Next(s, SubRecord(w, NotDone)); t.WorkerAt(w).SubBroken? && t.WorkerAt(w).Owns(id)
  {
    assert WorkerInv(s, s.workers[w]);
  }

  lemma LoopRefuses(s: State, w: WorkerId, id: Id)
    requires Inv(s) && s.WorkerAt(w).SubLoop? && s.WorkerAt(w).Owns(id)
    requires s.WorkerAt(w).pos < |s.WorkerAt(w).job.transfers|
    ensures var t := Next(s, SubNext(w, None)); t.WorkerAt(w).SubRefused? && t.WorkerAt(w).Owns(id)
  {
    assert WorkerInv(s, s.workers[w]);
  }

  lemma LoopEnds(s: State, w: WorkerId, id: Id)
    requires Inv(s) && s.WorkerAt(w).SubLoop? && s.WorkerAt(w).Owns(id)
    requires s.WorkerAt(w).pos >= |s.WorkerAt(w).job.transfers|
    ensures Ended(Next(s, SubFinish(w, Done)), id)
  {
    OwnedIsSubmitting(s, w, id);
  }

  lemma BrokenCanEnd(steps: seq<Step>, w: WorkerId, id: Id) returns (all: seq<Step>)
    requires Run(steps).WorkerAt(w).SubBroken? && Run(steps).WorkerAt(w).Owns(id)
    ensures steps <= all && Ended(Run(all), id)
  {
    RunKeepsInv(steps);
    BrokenEnds(Run(steps), w, id);
    RunOneMore(steps, SubFinish(w, Done));
    all := steps + [SubFinish(w, Done)];
  }

  lemma RefusedCanEnd(steps: seq<Step>, w: WorkerId, id: Id) returns (all: seq<Step>)
    requires Run(steps).WorkerAt(w).SubRefused? && Run(steps).WorkerAt(w).Owns(id)
    ensures steps <= all && Ended(Run(all), id)
  {
    RunKeepsInv(steps);
    RefusedBreaks(Run(steps), w, id);
    RunOneMore(steps, SubRecordRefusal(w, NotDone));
    all := BrokenCanEnd(steps + [SubRecordRefusal(w, NotDone)], w, id);
  }

  /** A job that still has its worker can leave the submitting state. */
  lemma OwnedCanEnd(steps: seq<Step>, w: WorkerId, id: Id) returns (all: seq<Step>)
    requires Run(steps).WorkerAt(w).Owns(id)
    ensures steps <= all && Ended(Run(all), id)
  {
    RunKeepsInv(steps);
    var s := Run(steps);
    match s.WorkerAt(w)
    case SubBroken(_, _) => all := BrokenCanEnd(steps, w, id);
    case SubRefused(_, _, _) => all := RefusedCanEnd(steps, w, id);
    case SubSent(_, _, _, _, _) =>
      SentBreaks(s, w, id);
      RunOneMore(steps, SubRecord(w, NotDone));
      all := BrokenCanEnd(steps + [SubRecord(w, NotDone)], w, id);
    case SubLoop(job, pos, _, _) =>
      if pos < |job.transfers| {
        LoopRefuses(s, w, id);
        RunOneMore(steps, SubNext(w, None));
        all := RefusedCanEnd(steps + [SubNext(w, None)], w, id);
      } else {
        LoopEnds(s, w, id);
        RunOneMore(steps, SubFinish(w, Done));
        all := steps + [SubFinish(w, Done)];
      }
  }

  /** A claimed job stays in the submitting state whatever happens next exactly when no worker holds it. */
  lemma StuckIffAbandoned(steps: seq<Step>, id: Id)
    requires id in Run(steps).jobs && Run(steps).jobs[id].status == Submitting
    ensures (forall more :: !Ended(Run(steps + more), id)) <==> Abandoned(Run(steps), id)
  {
    RunKeepsInv(steps);
    if Abandoned(Run(steps), id) {
      forall more ensures !Ended(Run(steps + more), id) {
        AbandonedForever(steps, more, id);
      }
    } else {
      var w :| w in Run(steps).workers && Run(steps).workers[w].Owns(id);
      var all := OwnedCanEnd(steps, w, id);
      assert all == steps + all[|steps|..];
    }
  }
}
