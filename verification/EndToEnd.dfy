/** From requests to verified jobs: the execution surface and the scheduler joined through the audit trail. */
module EndToEnd {
  import opened Prelude
  import opened ServiceRuntime
  import opened Scheduler
  import opened SchedulerRuns

  // ----- requests and their audit records -----

  /** The backend did not raise. */
  predicate IsServed(v: Visit) { ResultFor(v).Some? }

  predicate IsAllowed(v: Visit) { IsServed(v) && ResultFor(v).value.allowed }

  predicate IsRefused(v: Visit) { IsServed(v) && !ResultFor(v).value.allowed }

  /** The audit record of a visit; of one that was not served, nothing anyone reads. */
  function Recorded(v: Visit): AuditRecord {
    match EventFor(v)
    case Some(e) => RecordOf(e)
    case None => AuditRecord("", None, None, None, None)
  }

  /** The job planned for a visit. */
  function VisitJob(v: Visit): JobView { JobFor(Recorded(v)) }

  function VisitId(): Visit -> string { (v: Visit) => v.Id() }

  /** Every request is served under an id of its own. */
  ghost predicate ProperVisits(vs: seq<Visit>) {
    Distinct(vs, VisitId()) && forall i :: 0 <= i < |vs| ==> vs[i].Id() != ""
  }

  lemma ServedProper(vs: seq<Visit>)
    requires ProperVisits(vs)
    ensures ProperVisits(Filter(vs, IsServed))
  {
    FilterDistinct(vs, IsServed, VisitId());
    FilterMember(vs, IsServed);
    hide Filter;
    var served := Filter(vs, IsServed);
    forall i | 0 <= i < |served| ensures served[i].Id() != "" { assert served[i] in served; }
  }

  /** The status the job of a served request ends up with, if it is reached: passed when the caller was told the request
      was allowed, unless it named no tool; skipped otherwise. */
  function Verdict(v: Visit): Status
    requires IsServed(v)
  {
    if !IsAllowed(v) then Skipped else if v.rq.toolName != "" then Passed else Failed
  }

  /** The job of an audited request is pending when the caller was told the request was allowed, and skipped otherwise;
      settling it gives the verdict, and so does its result. */
  lemma RequestSettles(v: Visit)
    requires v.Id() != "" && IsServed(v)
    ensures var j := VisitJob(v);
      && j.requestId == Settle(j).requestId == ResultOf(j).requestId == v.Id()
      && j.status == (if IsAllowed(v) then Pending else Skipped)
      && Settle(j).status == ResultOf(j).status == Verdict(v)
  {
    EventAgrees(v);
    hide EventFor, ResultFor, RecordOf;
  }

  /** Planning on the audit records of served requests leaves one job per request, in order. */
  lemma PlannedJobs(served: seq<Visit>)
    requires ProperVisits(served) && forall v :: v in served ==> IsServed(v)
    ensures Planned(Board([], []), Map(served, Recorded)).jobs == Map(served, VisitJob)
  {
    hide EventFor, ResultFor, PlanOn, JobFor, Planned;
    var es := Map(served, Recorded);
    forall i | 0 <= i < |served| ensures es[i].requestId == served[i].Id() {
      assert served[i] in served;
      EventAgrees(served[i]);
    }
    forall i, j | 0 <= i < j < |es| ensures es[i].requestId != es[j].requestId {
      assert VisitId()(served[i]) != VisitId()(served[j]);
    }
    DistinctPlan(es);
    PlannedOnEmpty(es);
    hide Recorded;
    assert Map(es, JobOf()) == Map(served, VisitJob);
  }

  lemma PlannedOnEmpty(es: seq<AuditRecord>)
    ensures Planned(Board([], []), es).jobs == PlanOn(es)
  {
    assert RequestIds([]) == {};
  }

  /** The board after planning on the audit records of the served requests. */
  function PlannedBoard(vs: seq<Visit>): Board { Planned(Board([], []), Map(Filter(vs, IsServed), Recorded)) }

  // ----- the jobs against the answers -----

  /** One job per served request, in order: the first `n` have their verdict, the others are pending or skipped. */
  ghost predicate JobsTell(served: seq<Visit>, jobs: seq<JobView>, n: nat) {
    && |jobs| == |served|
    && forall i :: 0 <= i < |served| ==>
         && jobs[i].requestId == served[i].Id() && IsServed(served[i])
         && jobs[i].status == if i < n || !IsAllowed(served[i]) then Verdict(served[i]) else Pending
  }

  /** The jobs agree with what the callers were told, and the counts add up. */
  ghost predicate AuditAgrees(vs: seq<Visit>, jobs: seq<JobView>, n: nat) {
    && JobsTell(Filter(vs, IsServed), jobs, n)
    && CountOf(jobs, Skipped) == |Filter(vs, IsRefused)|
    && CountOf(jobs, Passed) + CountOf(jobs, Failed) + CountOf(jobs, Pending) == |Filter(vs, IsAllowed)|
    && CountOf(jobs, Running) == 0
    && (n == |jobs| ==> CountOf(jobs, Pending) == 0)
    && ((forall v :: v in vs ==> v.rq.toolName != "") ==> CountOf(jobs, Failed) == 0)
  }

  lemma SettledJobs(vs: seq<Visit>, oks: nat -> bool)
    requires ProperVisits(vs)
    ensures JobsTell(Filter(vs, IsServed), RunPendingOn(PlannedBoard(vs), oks).jobs, Reach(PlannedBoard(vs), oks))
  {
    hide Filter, ResultFor, VisitJob, Settle, Planned, Verdict, Recorded, IsAllowed, ResultOf;
    var served, b := Filter(vs, IsServed), PlannedBoard(vs);
    FilterMember(vs, IsServed);
    ServedProper(vs);
    PlannedJobs(served);
    RunFirstJobs(b, Reach(b, oks), oks);
    forall i | 0 <= i < |served|
      ensures IsServed(served[i]) && b.jobs[i].requestId == Settle(b.jobs[i]).requestId == served[i].Id()
      ensures Settle(b.jobs[i]).status == Verdict(served[i])
      ensures b.jobs[i].status == if IsAllowed(served[i]) then Pending else Verdict(served[i])
    {
      assert served[i] in served;
      RequestSettles(served[i]);
      SkippedVerdict(served[i]);
    }
  }

  lemma SkippedVerdict(v: Visit)
    requires IsServed(v)
    ensures !IsAllowed(v) ==> Verdict(v) == Skipped
  {}

  /** Every served request was allowed or refused. */
  lemma AllowedOrRefused(vs: seq<Visit>)
    ensures Filter(Filter(vs, IsServed), IsRefused) == Filter(vs, IsRefused)
    ensures |Filter(vs, IsAllowed)| + |Filter(vs, IsRefused)| == |Filter(vs, IsServed)|
  {
    hide Filter, ResultFor;
    var served := Filter(vs, IsServed);
    FilterMember(vs, IsServed);
    FilterTwice(vs, IsServed, IsAllowed, IsAllowed);
    FilterTwice(vs, IsServed, IsRefused, IsRefused);
    FilterSplit(served, IsAllowed, IsRefused);
  }

  lemma SkippedCount(served: seq<Visit>, jobs: seq<JobView>, n: nat)
    requires JobsTell(served, jobs, n)
    ensures CountOf(jobs, Skipped) == |Filter(served, IsRefused)| && CountOf(jobs, Running) == 0
    ensures n >= |jobs| ==> CountOf(jobs, Pending) == 0
    ensures (forall v :: v in served ==> v.rq.toolName != "") ==> CountOf(jobs, Failed) == 0
  {
    hide ResultFor, Filter, CountOf;
    SameCount(served, jobs, IsRefused, Skipped);
    NoneCounted(jobs, Running);
    if n >= |jobs| { NoneCounted(jobs, Pending); }
    if forall v :: v in served ==> v.rq.toolName != "" { NoneCounted(jobs, Failed); }
  }

  /** End to end: whatever the boundary and the backend answer to each request, as long as the ids are distinct, and
      wherever the result log stops the run, the jobs agree with what the callers were told. */
  lemma JobsAgree(vs: seq<Visit>, oks: nat -> bool)
    requires ProperVisits(vs)
    ensures AuditAgrees(vs, RunPendingOn(PlannedBoard(vs), oks).jobs, Reach(PlannedBoard(vs), oks))
  {
    hide RunPendingOn, PlannedBoard, IsServed, IsAllowed, IsRefused, Filter, CountOf, Reach, JobsTell, ProperVisits;
    var jobs, n := RunPendingOn(PlannedBoard(vs), oks).jobs, Reach(PlannedBoard(vs), oks);
    SettledJobs(vs, oks);
    FilterMember(vs, IsServed);
    AllowedOrRefused(vs);
    SkippedCount(Filter(vs, IsServed), jobs, n);
    assert |jobs| == |Filter(vs, IsServed)| by { TellLength(Filter(vs, IsServed), jobs, n); }
    CountsAddUp(jobs);
  }

  lemma TellLength(served: seq<Visit>, jobs: seq<JobView>, n: nat)
    requires JobsTell(served, jobs, n)
    ensures |jobs| == |served|
  {}

  /** The result log accepts the verdict on every allowed request. */
  ghost predicate LogAccepts(vs: seq<Visit>, oks: nat -> bool) {
    forall k: nat :: k < |Filter(vs, IsServed)| && IsAllowed(Filter(vs, IsServed)[k]) ==> oks(k)
  }

  /** The run is complete precisely when the log accepts the verdict on every allowed request. */
  lemma RunComplete(vs: seq<Visit>, oks: nat -> bool)
    requires ProperVisits(vs)
    ensures NoneRefused(PlannedBoard(vs), |PlannedBoard(vs).jobs|, oks) <==> LogAccepts(vs, oks)
    ensures LogAccepts(vs, oks) ==> Reach(PlannedBoard(vs), oks) == |Filter(vs, IsServed)|
  {
    hide Filter, Planned, Recorded, ResultFor, VisitJob, Verdict, Settle, ResultOf;
    var served, b := Filter(vs, IsServed), PlannedBoard(vs);
    ServedProper(vs);
    FilterMember(vs, IsServed);
    PlannedJobs(served);
    forall k | 0 <= k < |served| ensures Refused(b, k, oks) <==> IsAllowed(served[k]) && !oks(k) {
      assert served[k] in served;
      RequestSettles(served[k]);
    }
    hide IsAllowed, IsServed, Refused;
    if NoneRefused(b, |b.jobs|, oks) { ReachAll(b, oks); }
  }

  lemma NoneCounted(jobs: seq<JobView>, s: Status)
    requires forall i :: 0 <= i < |jobs| ==> jobs[i].status != s
    ensures CountOf(jobs, s) == 0
  {
    FilterNothing(jobs, HasStatus(s));
  }

  lemma {:induction false} SameCount(vs: seq<Visit>, jobs: seq<JobView>, p: Visit -> bool, s: Status)
    requires |vs| == |jobs| && forall i :: 0 <= i < |vs| ==> (p(vs[i]) <==> jobs[i].status == s)
    ensures CountOf(jobs, s) == |Filter(vs, p)|
  {
    if vs == [] {
    } else {
      var n := |vs| - 1;
      SameCount(vs[..n], jobs[..n], p, s);
    }
  }

  /** One result per request, with its verdict, in order. */
  ghost predicate VerdictsFor(vs: seq<Visit>, results: seq<JobResult>) {
    && |results| == |vs|
    && forall i :: 0 <= i < |vs| ==>
         IsServed(vs[i]) && results[i].requestId == vs[i].Id() && results[i].status == Verdict(vs[i])
  }

  /** The results of a complete run are the verdicts on the allowed requests, in order. */
  lemma VerdictsAgree(vs: seq<Visit>)
    requires ProperVisits(vs)
    ensures VerdictsFor(Filter(vs, IsAllowed), Map(Filter(PlannedBoard(vs).jobs, IsPendingJob), ResultsOf()))
  {
    hide Filter, Planned, Recorded, ResultFor, ResultOf, VisitJob, Verdict, Settle;
    var kept := Filter(vs, IsServed);
    ServedProper(vs);
    FilterMember(vs, IsServed);
    PlannedJobs(kept);
    forall v | v in kept ensures IsPendingJob(VisitJob(v)) == IsAllowed(v) {
      var i :| 0 <= i < |kept| && kept[i] == v;
      RequestSettles(v);
    }
    FilterMap(kept, VisitJob, IsPendingJob, IsAllowed);
    FilterTwice(vs, IsServed, IsAllowed, IsAllowed);
    var passed := Filter(kept, IsAllowed);
    FilterMember(kept, IsAllowed);
    forall i | 0 <= i < |passed|
      ensures IsServed(passed[i]) && ResultOf(VisitJob(passed[i])).requestId == passed[i].Id()
      ensures ResultOf(VisitJob(passed[i])).status == Verdict(passed[i])
    {
      assert passed[i] in passed && passed[i] in kept;
      var k :| 0 <= k < |kept| && kept[k] == passed[i];
      RequestSettles(passed[i]);
    }
  }

  // ----- the objects, end to end -----

  /** Serves the requests one by one; `None` stands for a backend that raised. */
  method ServeAll(runtime: ServiceRuntime, vs: seq<Visit>) returns (results: seq<Option<RuntimeResult>>)
    modifies runtime.sink
    ensures results == Map(vs, ResultFor)
    ensures runtime.Events() == old(runtime.Events()) + Map(Filter(vs, IsServed), Recorded)
  {
    hide EventFor, ResultFor, Filter, IsServed, Recorded;
    ghost var before := runtime.Events();
    results := [];
    NothingServed(vs);
    for i := 0 to |vs|
      invariant results == Map(vs[..i], ResultFor)
      invariant runtime.Events() == before + Map(Filter(vs[..i], IsServed), Recorded)
    {
      OneMoreServed(vs, i, before);
      var r := runtime.Execute(vs[i]);
      results := results + [r];
    }
    assert vs[..|vs|] == vs;
  }

  lemma NothingServed(vs: seq<Visit>)
    ensures Map(Filter(vs[..0], IsServed), Recorded) == []
  {}

  lemma OneMoreServed(vs: seq<Visit>, i: nat, before: seq<AuditRecord>)
    requires i < |vs|
    ensures Map(vs[..i + 1], ResultFor) == Map(vs[..i], ResultFor) + [ResultFor(vs[i])]
    ensures var e := EventFor(vs[i]);
      before + Map(Filter(vs[..i + 1], IsServed), Recorded)
      == before + Map(Filter(vs[..i], IsServed), Recorded) + (if e.Some? then [RecordOf(e.value)] else [])
  {
    EventAgrees(vs[i]);
    hide EventFor, ResultFor;
    assert vs[..i + 1] == vs[..i] + [vs[i]];
    FilterSnoc(vs[..i], vs[i], IsServed);
    MapSnoc(Filter(vs[..i], IsServed), vs[i], Recorded);
  }

  /** A scheduler for the events, with nothing planned and nothing logged. */
  method NewScheduler(events: seq<AuditRecord>) returns (scheduler: ReconciliationScheduler)
    ensures fresh(scheduler) && fresh(scheduler.store) && fresh(scheduler.resultLog)
    ensures scheduler.events == events && scheduler.store.Valid() && scheduler.store.jobs == []
    ensures scheduler.Now() == Board([], [])
  {
    hide Keyed;
    var store := new InMemoryReconciliationJobStore();
    var log := new ResultLog();
    scheduler := new ReconciliationScheduler(events, store, log);
  }

  /** A new scheduler plans, runs and summarises the verification of audit events; `None`: the result log raised. */
  method VerifyEvents(events: seq<AuditRecord>, oks: nat -> bool)
    returns (scheduler: ReconciliationScheduler, verdicts: Option<seq<JobResult>>, summary: Summary)
    ensures var planned := Planned(Board([], []), events);
      && fresh(scheduler) && scheduler.Now() == RunPendingOn(planned, oks)
      && (verdicts.Some? <==> NoneRefused(planned, |planned.jobs|, oks))
      && (verdicts.Some? ==> verdicts.value == Map(Filter(planned.jobs, IsPendingJob), ResultsOf()))
    ensures summary.planned == |scheduler.Now().jobs| && Counts(scheduler.Now().jobs, summary.counts)
  {
    hide Planned, RunPendingOn, Filter, Map, Counts, Keyed, Views, LegalTrail, NewJobs, RequestIds, NoneRefused;
    scheduler := NewScheduler(events);
    var _ := scheduler.Plan();
    verdicts := scheduler.RunPending(oks);
    summary := scheduler.Summarize();
  }

  /** A new runtime serves the requests, and what it audited is verified: one event per answered request; jobs that
      agree with the answers as far as the result log lets the run get; unless the log refuses a result, a verdict for
      every allowed request; and a summary that counts all jobs. */
  method AuditAndVerify(vs: seq<Visit>, oks: nat -> bool)
    returns (results: seq<Option<RuntimeResult>>, events: seq<AuditRecord>, scheduler: ReconciliationScheduler,
             verdicts: Option<seq<JobResult>>, summary: Summary)
    requires ProperVisits(vs)
    ensures results == Map(vs, ResultFor) && events == Map(Filter(vs, IsServed), Recorded)
    ensures AuditAgrees(vs, scheduler.Now().jobs, Reach(PlannedBoard(vs), oks))
    ensures verdicts.Some? <==> LogAccepts(vs, oks)
    ensures verdicts.Some? ==>
              && VerdictsFor(Filter(vs, IsAllowed), verdicts.value)
              && AuditAgrees(vs, scheduler.Now().jobs, |events|)
    ensures summary.planned == |events| && Counts(scheduler.Now().jobs, summary.counts)
  {
    hide Planned, RunPendingOn, Filter, Counts, VerdictsFor, ProperVisits, CountOf, Recorded, IsServed, IsAllowed;
    hide JobsTell, LogAccepts, NoneRefused, Reach, ResultFor, IsRefused;
    var sink := new InMemoryAuditEventSink();
    var runtime := new ServiceRuntime(sink);
    assert runtime.Events() == [];
    results := ServeAll(runtime, vs);
    events := runtime.Events();
    JobsAgree(vs, oks);
    VerdictsAgree(vs);
    RunComplete(vs, oks);
    TellLength(Filter(vs, IsServed), RunPendingOn(PlannedBoard(vs), oks).jobs, Reach(PlannedBoard(vs), oks));
    scheduler, verdicts, summary := VerifyEvents(events, oks);
  }
}
