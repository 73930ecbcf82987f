/** Deferred verification: jobs planned from audit events, run once, and their results logged. */
module Scheduler {
  import opened Prelude
  import opened ServiceRuntime

  datatype Status = Pending | Running | Passed | Failed | Skipped

  datatype JobView = JobView(
    jobId: string, requestId: string, toolName: string, source: AuditRecord, status: Status, reason: Option<string>)

  datatype JobResult = JobResult(
    jobId: string, requestId: string, status: Status, message: Option<string>, error: Option<string>)

  /** A logged result, with the backend of the event it verified. */
  datatype Logged = Logged(result: JobResult, backend: Option<string>)

  /** The value behind the scheduler's objects: the job dictionary in insertion order, and the result log. */
  datatype Board = Board(jobs: seq<JobView>, log: seq<Logged>)

  function ViewKey(): JobView -> string { (j: JobView) => j.jobId }

  // ----- planning -----

  function StatusFor(e: AuditRecord): Status {
    if e.allowed == Some(true) && e.error.None? then Pending else Skipped
  }

  function ReasonFor(e: AuditRecord): Option<string> {
    if e.allowed == Some(true) && e.error.None? then None
    else if e.error.Some? then Some("error event — not reconcilable")
    else Some("denied event — not reconcilable")
  }

  function JobIdOf(rid: string): string { "reconcile:" + rid }

  function JobFor(e: AuditRecord): JobView {
    JobView(JobIdOf(e.requestId), e.requestId, if e.toolName.Some? then e.toolName.value else "unknown", e,
            StatusFor(e), ReasonFor(e))
  }

  predicate Plannable(e: AuditRecord, existing: set<string>) { e.requestId != "" && e.requestId !in existing }

  function PlannableAfter(existing: set<string>): AuditRecord -> bool {
    (e: AuditRecord) => Plannable(e, existing)
  }

  function JobOf(): AuditRecord -> JobView { (e: AuditRecord) => JobFor(e) }

  /** The jobs one planning creates, in the order of the events. */
  function NewJobs(existing: set<string>, events: seq<AuditRecord>): seq<JobView> {
    Map(Filter(events, PlannableAfter(existing)), JobOf())
  }

  function RequestIds(jobs: seq<JobView>): set<string> { set j | j in jobs :: j.requestId }

  /** Stores jobs one after the other; a later job with the same id takes the place of an earlier one. */
  function AddAll(jobs: seq<JobView>, more: seq<JobView>): seq<JobView> {
    if more == [] then jobs else Upsert(AddAll(jobs, more[..|more| - 1]), more[|more| - 1], ViewKey())
  }

  function Planned(b: Board, events: seq<AuditRecord>): Board {
    b.(jobs := AddAll(b.jobs, NewJobs(RequestIds(b.jobs), events)))
  }

  /** What a job is made of. */
  lemma JobFields(e: AuditRecord)
    ensures var j := JobFor(e);
      && j.jobId == "reconcile:" + e.requestId && j.requestId == e.requestId && j.source == e
      && (e.toolName.Some? ==> Some(j.toolName) == e.toolName) && (e.toolName.None? ==> j.toolName == "unknown")
      && (j.status == Pending <==> e.allowed == Some(true) && e.error == None)
      && (j.status == Pending <==> j.reason == None)
      && (j.status != Pending ==>
            && j.status == Skipped
            && j.reason == Some(if e.error != None then "error event — not reconcilable"
                                else "denied event — not reconcilable"))
  {}

  // ----- running -----

  predicate Verified(j: JobView) {
    j.source.requestId != "" && Given(j.source.toolName) && j.source.allowed == Some(true)
  }

  function Settle(j: JobView): JobView {
    if j.status.Pending? then j.(status := if Verified(j) then Passed else Failed) else j
  }

  function ResultOf(j: JobView): JobResult {
    JobResult(j.jobId, j.requestId, Settle(j).status,
              Some(if Verified(j) then "Schema-level verification passed" else "Schema-level verification failed"),
              None)
  }

  /** Running the job at position `i`; `ok`: the result log accepts the entry, otherwise the call raises. */
  function RunAt(b: Board, i: nat, ok: bool): Board
    requires i < |b.jobs|
  {
    var j := b.jobs[i];
    if !j.status.Pending? then b
    else Board(b.jobs[i := Settle(j)], if ok then b.log + [Logged(ResultOf(j), j.source.executionBackend)] else b.log)
  }

  function RunNamed(b: Board, id: string, ok: bool): Board {
    var i := Position(b.jobs, id, ViewKey());
    if i < |b.jobs| then RunAt(b, i, ok) else b
  }

  /** What the caller of `run_job` gets; `None`: the result log raised. */
  function Answer(b: Board, id: string, ok: bool): Option<JobResult> {
    var i := Position(b.jobs, id, ViewKey());
    if i == |b.jobs| then Some(JobResult(id, "", Failed, None, Some("Job not found: " + id)))
    else if !b.jobs[i].status.Pending?
    then Some(JobResult(b.jobs[i].jobId, b.jobs[i].requestId, b.jobs[i].status, Some("Already completed"), None))
    else if ok then Some(ResultOf(b.jobs[i])) else None
  }

  /** Job `i` is the one whose result the log refuses. */
  predicate Refused(b: Board, i: nat, oks: nat -> bool)
    requires i < |b.jobs|
  {
    b.jobs[i].status.Pending? && !oks(i)
  }

  /** How many jobs a `run_pending` gets through: it stops after the first one whose result the log refuses. */
  function Reach(b: Board, oks: nat -> bool, i: nat := 0): (n: nat)
    requires i <= |b.jobs|
    ensures i <= n <= |b.jobs|
    ensures forall k :: i <= k < n - 1 ==> !Refused(b, k, oks)
    ensures n == |b.jobs| || (n > i && Refused(b, n - 1, oks))
    decreases |b.jobs| - i
  {
    if i == |b.jobs| then i
    else if Refused(b, i, oks) then i + 1
    else Reach(b, oks, i + 1)
  }

  function RunFirst(b: Board, n: nat, oks: nat -> bool): Board
    requires n <= |b.jobs|
    ensures |RunFirst(b, n, oks).jobs| == |b.jobs|
  {
    if n == 0 then b else RunAt(RunFirst(b, n - 1, oks), n - 1, oks(n - 1))
  }

  function RunPendingOn(b: Board, oks: nat -> bool): Board { RunFirst(b, Reach(b, oks), oks) }

  predicate IsPendingJob(j: JobView) { j.status.Pending? }

  function ResultsOf(): JobView -> JobResult { (j: JobView) => ResultOf(j) }

  function LoggedOf(): JobView -> Logged { (j: JobView) => Logged(ResultOf(j), j.source.executionBackend) }

  /** The first `n` jobs are settled, the others untouched. */
  lemma {:induction false} RunFirstJobs(b: Board, n: nat, oks: nat -> bool)
    requires n <= |b.jobs|
    ensures forall k :: 0 <= k < |b.jobs| ==>
              RunFirst(b, n, oks).jobs[k] == if k < n then Settle(b.jobs[k]) else b.jobs[k]
  {
    hide Settle;
    if n == 0 {
    } else {
      RunFirstJobs(b, n - 1, oks);
      assert !b.jobs[n - 1].status.Pending? ==> Settle(b.jobs[n - 1]) == b.jobs[n - 1] by { SettleIdle(b.jobs[n - 1]); }
    }
  }

  lemma SettleIdle(j: JobView)
    ensures !j.status.Pending? ==> Settle(j) == j
    ensures Settle(j).jobId == j.jobId && Settle(j).requestId == j.requestId && Settle(j).source == j.source
    ensures j.status.Pending? ==> Settle(j) == j.(status := if Verified(j) then Passed else Failed)
  {}

  /** As long as the log accepts every entry, it gets exactly the results of the pending jobs, in order. */
  lemma {:induction false} RunFirstLog(b: Board, n: nat, oks: nat -> bool)
    requires n <= |b.jobs| && forall k :: 0 <= k < n ==> !Refused(b, k, oks)
    ensures RunFirst(b, n, oks).log == b.log + Map(Filter(b.jobs[..n], IsPendingJob), LoggedOf())
  {
    hide ResultOf, Settle;
    if n > 0 {
      var m := n - 1;
      RunFirstLog(b, m, oks);
      RunFirstJobs(b, m, oks);
      assert b.jobs[..n] == b.jobs[..m] + [b.jobs[m]];
      FilterSnoc(b.jobs[..m], b.jobs[m], IsPendingJob);
      var before := Filter(b.jobs[..m], IsPendingJob);
      MapSnoc(before, b.jobs[m], LoggedOf());
      Assoc(b.log, Map(before, LoggedOf()), [LoggedOf()(b.jobs[m])]);
      assert !Refused(b, m, oks);
    } else {
      assert b.jobs[..0] == [];
    }
  }

  // ----- the objects -----

  /** The statuses a job may go through. */
  ghost predicate LegalTrail(trail: seq<Status>) {
    || trail <= [Pending, Running, Passed]
    || trail <= [Pending, Running, Failed]
    || trail == [Skipped]
  }

  class ReconciliationJob {
    const jobId: string
    const requestId: string
    const toolName: string
    const source: AuditRecord
    const reason: Option<string>
    var status: Status

    /** Every status the job has had. */
    ghost var trail: seq<Status>

    constructor (v: JobView)
      ensures View() == v && trail == [v.status] && jobId == v.jobId && requestId == v.requestId
    {
      jobId := v.jobId;
      requestId := v.requestId;
      toolName := v.toolName;
      source := v.source;
      reason := v.reason;
      status := v.status;
      trail := [v.status];
    }

    function View(): JobView
      reads this
    {
      JobView(jobId, requestId, toolName, source, status, reason)
    }

    /** The status is the last one of a legal trail, and the job is not running. */
    ghost predicate Settled()
      reads this
    {
      LegalTrail(trail) && trail != [] && trail[|trail| - 1] == status && !status.Running?
    }

    method SetStatus(s: Status)
      modifies this
      ensures status == s && trail == old(trail) + [s]
    {
      status := s;
      trail := trail + [s];
    }
  }

  function JobKey(): ReconciliationJob -> string { (j: ReconciliationJob) => j.jobId }

  ghost function Views(js: seq<ReconciliationJob>): (r: seq<JobView>)
    reads js
    ensures |r| == |js| && forall i :: 0 <= i < |js| ==> r[i] == js[i].View()
  {
    seq(|js|, i requires 0 <= i < |js| reads js => js[i].View())
  }

  class InMemoryReconciliationJobStore {
    var jobs: seq<ReconciliationJob>

    constructor ()
      ensures jobs == [] && Valid()
    {
      jobs := [];
    }

    ghost predicate Valid()
      reads this, jobs
    {
      Keyed(jobs, JobKey()) && forall j :: j in jobs ==> j.Settled()
    }

    /** The job goes under its id, in place of the one there. */
    method Add(job: ReconciliationJob)
      requires Valid() && job.Settled()
      modifies this
      ensures Valid() && jobs == Upsert(old(jobs), job, JobKey())
      ensures Views(jobs) == Upsert(old(Views(jobs)), job.View(), ViewKey())
      ensures forall j :: j in jobs ==> j in old(jobs) || j == job
    {
      hide LegalTrail;
      PutViews(jobs, job);
      UpsertKeyed(jobs, job, JobKey());
      PutMembers(jobs, job);
      hide Upsert, Keyed, Views;
      ghost var next := Upsert(jobs, job, JobKey());
      ghost var views := Views(next);
      jobs := Upsert(jobs, job, JobKey());
      assert jobs == next && Views(jobs) == views;
    }

    /** Stores a job again under its id. */
    method Update(job: ReconciliationJob)
      modifies this
      ensures jobs == Upsert(old(jobs), job, JobKey())
    {
      jobs := Upsert(jobs, job, JobKey());
    }
  }

  class ResultLog {
    var entries: seq<Logged>

    constructor ()
      ensures entries == []
    {
      entries := [];
    }
  }

  lemma PositionOfViews(js: seq<ReconciliationJob>, id: string)
    ensures Position(Views(js), id, ViewKey()) == Position(js, id, JobKey())
  {
    if js == [] {
    } else {
      PositionOfViews(js[..|js| - 1], id);
      assert Views(js)[..|js| - 1] == Views(js[..|js| - 1]);
    }
  }

  lemma PutSame(js: seq<ReconciliationJob>, i: nat)
    requires i < |js| && Keyed(js, JobKey())
    ensures Upsert(js, js[i], JobKey()) == js
  {
    var k := Position(js, js[i].jobId, JobKey());
    assert JobKey()(js[i]) == js[i].jobId;
    assert k == i;
  }

  class ReconciliationScheduler {
    const events: seq<AuditRecord>
    const store: InMemoryReconciliationJobStore
    const resultLog: ResultLog

    ghost function Now(): Board
      reads store, store.jobs, resultLog
    {
      Board(Views(store.jobs), resultLog.entries)
    }

    constructor (events: seq<AuditRecord>, store: InMemoryReconciliationJobStore, resultLog: ResultLog)
      ensures this.events == events && this.store == store && this.resultLog == resultLog
    {
      this.events := events;
      this.store := store;
      this.resultLog := resultLog;
    }

    /** Creates the job objects for the events, in their order. */
    method CreateJobs(existing: set<string>) returns (planned: seq<ReconciliationJob>)
      ensures fresh(planned) && Views(planned) == NewJobs(existing, events)
      ensures forall j :: j in planned ==> j.Settled()
    {
      hide JobFor, NewJobs, LegalTrail;
      planned := [];
      NoNewJobs(existing, events);
      for i := 0 to |events|
        invariant fresh(planned) && Views(planned) == NewJobs(existing, events[..i])
        invariant forall j :: j in planned ==> j.Settled()
      {
        var e := events[i];
        NextNewJob(existing, events, i);
        if e.requestId == "" || e.requestId in existing { continue; }
        ghost var before := Views(planned);
        var job := NewJob(e);
        assert Views(planned) == before;
        planned := planned + [job];
        assert Views(planned) == before + [JobFor(e)];
      }
      assert events[..|events|] == events;
    }

    method NewJob(e: AuditRecord) returns (job: ReconciliationJob)
      ensures fresh(job) && job.View() == JobFor(e) && job.Settled()
    {
      JobForSettled(e);
      job := new ReconciliationJob(JobFor(e));
    }

    /** Creates a job for each event whose request has none yet; returns every job created. */
    method Plan() returns (planned: seq<ReconciliationJob>)
      requires store.Valid()
      modifies store
      ensures store.Valid() && fresh(planned) && fresh(set j | j in store.jobs && j !in old(store.jobs))
      ensures Now() == Planned(old(Now()), events)
      ensures Views(planned) == NewJobs(RequestIds(old(Now()).jobs), events)
    {
      hide NewJobs, LegalTrail, Keyed, Upsert, AddAll, RequestIds, Views;
      var existing := set j | j in store.jobs :: j.requestId;
      ghost var b := Now();
      assert existing == RequestIds(b.jobs) by { IdsOfViews(store.jobs); }
      planned := CreateJobs(existing);
      ghost var more := Views(planned);
      assert Views(store.jobs) == b.jobs;
      AddNone(b.jobs, more);
      for i := 0 to |planned|
        invariant store.Valid() && fresh(planned) && Views(planned) == more
        invariant forall j :: j in planned ==> j.Settled()
        invariant Views(store.jobs) == AddAll(b.jobs, more[..i])
        invariant forall j :: j in store.jobs ==> j in old(store.jobs) || j in planned
      {
        AddOneMore(b.jobs, more, i);
        store.Add(planned[i]);
      }
      assert more[..|planned|] == more;
    }

    /** Sets the status of one job object in place and stores the job again. */
    method Move(i: nat, s: Status)
      requires i < |store.jobs| && Keyed(store.jobs, JobKey())
      modifies store, store.jobs
      ensures store.jobs == old(store.jobs)
      ensures store.jobs[i].status == s && store.jobs[i].trail == old(store.jobs[i].trail) + [s]
      ensures forall k :: 0 <= k < |store.jobs| && k != i ==> unchanged(store.jobs[k])
    {
      Alone(store.jobs, i);
      PutSame(store.jobs, i);
      hide Keyed, Upsert;
      var job := store.jobs[i];
      job.SetStatus(s);
      store.Update(job);
    }

    /** The schema-level verification of one pending job, its object updated in place through RUNNING. */
    method VerifyAt(i: nat) returns (passed: bool)
      requires store.Valid() && i < |store.jobs| && store.jobs[i].status.Pending?
      modifies store, store.jobs
      ensures store.Valid() && store.jobs == old(store.jobs)
      ensures passed == Verified(old(store.jobs[i].View()))
      ensures store.jobs[i].View() == Settle(old(store.jobs[i].View()))
      ensures forall k :: 0 <= k < |store.jobs| && k != i ==> store.jobs[k].View() == old(store.jobs[k].View())
    {
      hide Settle, Verified, Keyed;
      var job := store.jobs[i];
      ghost var before := job.View();
      SettleIdle(before);
      SameVerdict(before, Running);
      TrailOf(job);
      Move(i, Running);
      passed := Verified(job.View());
      Move(i, if passed then Passed else Failed);
      assert forall k :: 0 <= k < |store.jobs| && k != i ==> store.jobs[k].Settled();
    }

    /** Logs a result; the log may refuse it, which raises. */
    method AppendResult(result: JobResult, job: ReconciliationJob, ok: bool)
      modifies resultLog
      ensures resultLog.entries
           == if ok then old(resultLog.entries) + [Logged(result, job.source.executionBackend)]
              else old(resultLog.entries)
    {
      if ok { resultLog.entries := resultLog.entries + [Logged(result, job.source.executionBackend)]; }
    }

    /** Verifies one pending job and logs the result; `None` when the log raises. */
    method RunAndLog(i: nat, ok: bool) returns (r: Option<JobResult>)
      requires store.Valid() && i < |store.jobs| && store.jobs[i].status.Pending?
      modifies store, store.jobs, resultLog
      ensures store.Valid() && store.jobs == old(store.jobs)
      ensures Now() == RunAt(old(Now()), i, ok)
      ensures r == if ok then Some(ResultOf(old(Now()).jobs[i])) else None
    {
      hide ResultOf, Verified, Settle, Keyed, LegalTrail, Views;
      var job := store.jobs[i];
      ghost var before := job.View();
      ghost var views := Views(store.jobs);
      ResultMeaning(before);
      SettleIdle(before);
      var passed := VerifyAt(i);
      OneChanged(views, Views(store.jobs), i, Settle(before));
      var result := JobResult(job.jobId, job.requestId, job.status,
        Some(if passed then "Schema-level verification passed" else "Schema-level verification failed"), None);
      assert result == ResultOf(before);
      AppendResult(result, job, ok);
      r := if ok then Some(result) else None;
    }

    /** Runs one job; `ok` is the result log's verdict. */
    method RunJob(id: string, ok: bool) returns (r: Option<JobResult>)
      requires store.Valid()
      modifies store, store.jobs, resultLog
      ensures store.Valid() && store.jobs == old(store.jobs)
      ensures Now() == RunNamed(old(Now()), id, ok)
      ensures r == Answer(old(Now()), id, ok)
    {
      hide ResultOf, Keyed, Views, LegalTrail, RunNamed, RunAt, Answer;
      PositionOfViews(store.jobs, id);
      NamedCases(Now(), id, ok);
      var i := Position(store.jobs, id, JobKey());
      hide Position;
      if i == |store.jobs| {
        return Some(JobResult(id, "", Failed, None, Some("Job not found: " + id)));
      }
      var job := store.jobs[i];
      if !job.status.Pending? {
        IdleAt(Now(), i, ok);
        return Some(JobResult(job.jobId, job.requestId, job.status, Some("Already completed"), None));
      }
      r := RunAndLog(i, ok);
    }

    /** Counts the jobs by status; `planned` is the sum of the counts. */
    method Summarize() returns (s: Summary)
      ensures Counts(Now().jobs, s.counts)
      ensures s.planned == |Now().jobs|
    {
      var counts: map<Status, nat> := map[];
      ghost var views := Now().jobs;
      assert views[..0] == [];
      for i := 0 to |store.jobs|
        invariant Counts(views[..i], counts)
      {
        var job := store.jobs[i];
        assert views[..i + 1] == views[..i] + [views[i]];
        CountMore(views[..i], views[i], counts);
        counts := counts[job.status := At(counts, job.status) + 1];
      }
      assert views[..|views|] == views;
      CountsAddUp(views);
      hide CountOf;
      s := Summary(Sum(counts), counts);
    }

    /** Runs the listed job at position `i` if it is pending. */
    method RunIfPending(i: nat, ok: bool) returns (ran: bool, answer: Option<JobResult>)
      requires store.Valid() && i < |store.jobs|
      modifies store, store.jobs, resultLog
      ensures store.Valid() && store.jobs == old(store.jobs)
      ensures Now() == RunAt(old(Now()), i, ok)
      ensures ran == old(Now()).jobs[i].status.Pending?
      ensures ran ==> answer == if ok then Some(ResultOf(old(Now()).jobs[i])) else None
    {
      hide ResultOf, Settle, Verified, Answer;
      var job := store.jobs[i];
      ran, answer := job.status.Pending?, None;
      if ran {
        ViewsKeyed(store.jobs);
        KeyedAt(store.jobs, i);
        PositionOfViews(store.jobs, job.jobId);
        AnswerPending(Now(), i, ok);
        answer := RunJob(job.jobId, ok);
      }
    }

    /** Runs every pending job of the store; stops when the result log raises. */
    method RunPending(oks: nat -> bool) returns (r: Option<seq<JobResult>>)
      requires store.Valid()
      modifies store, store.jobs, resultLog
      ensures store.Valid() && store.jobs == old(store.jobs)
      ensures Now() == RunPendingOn(old(Now()), oks)
      ensures r.Some? <==> NoneRefused(old(Now()), |old(Now()).jobs|, oks)
      ensures r.Some? ==> r.value == Map(Filter(old(Now()).jobs, IsPendingJob), ResultsOf())
    {
      hide ResultOf, Settle, Verified, Answer, Filter, Map, RunAt, Keyed, Views, LegalTrail, NoneRefused;
      hide RunFirst, Reach;
      var results: seq<JobResult> := [];
      ghost var b := Now();
      NoResults(b);
      RunNone(b, oks);
      assert NoneRefused(b, 0, oks) by { NothingRefused(b, oks); }
      for i := 0 to |store.jobs|
        invariant store.Valid() && store.jobs == old(store.jobs)
        invariant Now() == RunFirst(b, i, oks)
        invariant NoneRefused(b, i, oks)
        invariant results == Map(Filter(b.jobs[..i], IsPendingJob), ResultsOf())
      {
        RunFirstJobs(b, i, oks);
        NextResult(b, i);
        RunNext(b, i, oks);
        ReachAt(b, oks, i);
        var ran, answer := RunIfPending(i, oks(i));
        if ran {
          if answer.None? { return None; }
          results := results + [answer.value];
        }
      }
      ReachAll(b, oks);
      assert b.jobs[..|b.jobs|] == b.jobs;
      r := Some(results);
    }
  }

  lemma NoNewJobs(existing: set<string>, events: seq<AuditRecord>)
    ensures NewJobs(existing, events[..0]) == []
  {}

  lemma NextNewJob(existing: set<string>, events: seq<AuditRecord>, i: nat)
    requires i < |events|
    ensures NewJobs(existing, events[..i + 1])
         == NewJobs(existing, events[..i]) + (if Plannable(events[i], existing) then [JobFor(events[i])] else [])
  {
    hide JobFor;
    assert events[..i + 1] == events[..i] + [events[i]];
    FilterSnoc(events[..i], events[i], PlannableAfter(existing));
    MapSnoc(Filter(events[..i], PlannableAfter(existing)), events[i], JobOf());
  }

  lemma AddNone(jobs: seq<JobView>, more: seq<JobView>)
    ensures AddAll(jobs, more[..0]) == jobs
  {
    assert more[..0] == [];
  }

  lemma AddOneMore(jobs: seq<JobView>, more: seq<JobView>, i: nat)
    requires i < |more|
    ensures AddAll(jobs, more[..i + 1]) == Upsert(AddAll(jobs, more[..i]), more[i], ViewKey())
  {
    assert more[..i + 1][..i] == more[..i];
  }

  lemma JobForSettled(e: AuditRecord)
    ensures JobFor(e).status == Pending || JobFor(e).status == Skipped
  {}

  lemma IdsOfViews(js: seq<ReconciliationJob>)
    ensures (set j | j in js :: j.requestId) == RequestIds(Views(js))
  {
    var vs := Views(js);
    forall j | j in js ensures j.requestId in RequestIds(vs) {
      var i :| 0 <= i < |js| && js[i] == j;
      assert vs[i] in vs;
    }
    forall v | v in vs ensures exists j :: j in js && j.requestId == v.requestId {
      var i :| 0 <= i < |vs| && vs[i] == v;
      assert js[i] in js;
    }
  }

  lemma PutMembers(js: seq<ReconciliationJob>, x: ReconciliationJob)
    ensures forall j :: j in Upsert(js, x, JobKey()) ==> j in js || j == x
  {}

  lemma IdleAt(b: Board, i: nat, ok: bool)
    requires i < |b.jobs| && !b.jobs[i].status.Pending?
    ensures RunAt(b, i, ok) == b
  {}

  /** The three ways a named run can go. */
  lemma NamedCases(b: Board, id: string, ok: bool)
    ensures var i := Position(b.jobs, id, ViewKey());
      if i == |b.jobs| then
        && RunNamed(b, id, ok) == b
        && Answer(b, id, ok) == Some(JobResult(id, "", Failed, None, Some("Job not found: " + id)))
      else
        && RunNamed(b, id, ok) == RunAt(b, i, ok)
        && Answer(b, id, ok) == if !b.jobs[i].status.Pending?
             then Some(JobResult(b.jobs[i].jobId, b.jobs[i].requestId, b.jobs[i].status, Some("Already completed"),
                                 None))
             else if ok then Some(ResultOf(b.jobs[i])) else None
  {}

  lemma RunNone(b: Board, oks: nat -> bool)
    ensures RunFirst(b, 0, oks) == b
  {}

  lemma RunNext(b: Board, i: nat, oks: nat -> bool)
    requires i < |b.jobs|
    ensures RunFirst(b, i + 1, oks) == RunAt(RunFirst(b, i, oks), i, oks(i))
  {}

  lemma NextResult(b: Board, i: nat)
    requires i < |b.jobs|
    ensures Map(Filter(b.jobs[..i + 1], IsPendingJob), ResultsOf())
         == Map(Filter(b.jobs[..i], IsPendingJob), ResultsOf())
            + (if b.jobs[i].status.Pending? then [ResultOf(b.jobs[i])] else [])
  {
    hide ResultOf;
    assert b.jobs[..i + 1] == b.jobs[..i] + [b.jobs[i]];
    FilterSnoc(b.jobs[..i], b.jobs[i], IsPendingJob);
    MapSnoc(Filter(b.jobs[..i], IsPendingJob), b.jobs[i], ResultsOf());
  }

  /** How many jobs are in each status. */
  datatype Summary = Summary(planned: nat, counts: map<Status, nat>)

  function HasStatus(s: Status): JobView -> bool { (j: JobView) => j.status == s }

  function CountOf(jobs: seq<JobView>, s: Status): nat { |Filter(jobs, HasStatus(s))| }

  /** The counts name exactly the statuses that occur, each with its number of jobs. */
  ghost predicate Counts(jobs: seq<JobView>, m: map<Status, nat>) {
    forall s :: (s in m <==> CountOf(jobs, s) > 0) && (s in m ==> m[s] == CountOf(jobs, s))
  }

  function At(m: map<Status, nat>, s: Status): nat { if s in m then m[s] else 0 }

  function Sum(m: map<Status, nat>): nat {
    At(m, Pending) + At(m, Running) + At(m, Passed) + At(m, Failed) + At(m, Skipped)
  }

  lemma CountMore(jobs: seq<JobView>, j: JobView, m: map<Status, nat>)
    requires Counts(jobs, m)
    ensures Counts(jobs + [j], m[j.status := At(m, j.status) + 1])
  {
    forall s ensures CountOf(jobs + [j], s) == CountOf(jobs, s) + (if j.status == s then 1 else 0) {
      FilterSnoc(jobs, j, HasStatus(s));
    }
    hide CountOf;
    assert CountOf(jobs, j.status) == At(m, j.status);
  }

  /** Every job is counted once. */
  lemma {:induction false} CountsAddUp(jobs: seq<JobView>)
    ensures CountOf(jobs, Pending) + CountOf(jobs, Running) + CountOf(jobs, Passed) + CountOf(jobs, Failed)
          + CountOf(jobs, Skipped) == |jobs|
  {
    if jobs == [] {
    } else {
      var n := |jobs| - 1;
      CountsAddUp(jobs[..n]);
      assert jobs == jobs[..n] + [jobs[n]];
      forall s ensures CountOf(jobs, s) == CountOf(jobs[..n], s) + (if jobs[n].status == s then 1 else 0) {
        FilterSnoc(jobs[..n], jobs[n], HasStatus(s));
      }
      hide CountOf;
    }
  }

  lemma NoResults(b: Board)
    ensures Filter(b.jobs[..0], IsPendingJob) == [] && Map([], ResultsOf()) == []
  {
    assert b.jobs[..0] == [];
  }

  lemma AnswerPending(b: Board, i: nat, ok: bool)
    requires i < |b.jobs| && b.jobs[i].status.Pending? && Position(b.jobs, b.jobs[i].jobId, ViewKey()) == i
    ensures Answer(b, b.jobs[i].jobId, ok) == if ok then Some(ResultOf(b.jobs[i])) else None
    ensures RunNamed(b, b.jobs[i].jobId, ok) == RunAt(b, i, ok)
  {}

  lemma KeyedAt(js: seq<ReconciliationJob>, i: nat)
    requires i < |js| && Keyed(js, JobKey())
    ensures Position(js, js[i].jobId, JobKey()) == i
  {
    assert JobKey()(js[i]) == js[i].jobId;
  }

  lemma ViewsKeyed(js: seq<ReconciliationJob>)
    requires Keyed(js, JobKey())
    ensures Keyed(Views(js), ViewKey())
  {
    forall i, j | 0 <= i < j < |js| ensures ViewKey()(Views(js)[i]) != ViewKey()(Views(js)[j]) {
      assert JobKey()(js[i]) != JobKey()(js[j]);
    }
  }

  /** No job before position `n` has its result refused. */
  ghost predicate NoneRefused(b: Board, n: nat, oks: nat -> bool)
    requires n <= |b.jobs|
  {
    forall k: nat :: k < n ==> !Refused(b, k, oks)
  }

  lemma ReachAt(b: Board, oks: nat -> bool, i: nat)
    requires i < |b.jobs| && NoneRefused(b, i, oks)
    ensures Refused(b, i, oks) ==> Reach(b, oks) == i + 1 && !NoneRefused(b, |b.jobs|, oks)
    ensures !Refused(b, i, oks) ==> NoneRefused(b, i + 1, oks)
  {}

  lemma NothingRefused(b: Board, oks: nat -> bool)
    ensures NoneRefused(b, 0, oks)
  {}

  lemma ReachAll(b: Board, oks: nat -> bool)
    requires NoneRefused(b, |b.jobs|, oks)
    ensures Reach(b, oks) == |b.jobs|
  {}

  lemma OneChanged(before: seq<JobView>, after: seq<JobView>, i: nat, v: JobView)
    requires |before| == |after| && i < |before| && after[i] == v
    requires forall k :: 0 <= k < |before| && k != i ==> after[k] == before[k]
    ensures after == before[i := v]
  {}

  /** Storing an object stores what it stands for. */
  lemma PutViews(js: seq<ReconciliationJob>, x: ReconciliationJob)
    ensures Views(Upsert(js, x, JobKey())) == Upsert(Views(js), x.View(), ViewKey())
  {
    PositionOfViews(js, x.jobId);
    assert JobKey()(x) == x.jobId == ViewKey()(x.View());
  }

  /** A settled job that is pending has only ever been pending. */
  lemma TrailOf(j: ReconciliationJob)
    requires j.Settled() && j.status.Pending?
    ensures j.trail == [Pending]
  {
    assert j.trail[|j.trail| - 1] == Pending;
  }

  lemma SameVerdict(j: JobView, s: Status)
    ensures Verified(j.(status := s)) == Verified(j)
  {}

  lemma ResultMeaning(j: JobView)
    ensures ResultOf(j) == JobResult(j.jobId, j.requestId, Settle(j).status,
      Some(if Verified(j) then "Schema-level verification passed" else "Schema-level verification failed"), None)
  {}

  /** A job stands at one position only. */
  lemma Alone(js: seq<ReconciliationJob>, i: nat)
    requires i < |js| && Keyed(js, JobKey())
    ensures forall k :: 0 <= k < |js| && k != i ==> js[k] != js[i]
  {}
}
