/** What holds over any sequence of scheduler calls, and what planning leaves in the store. */
module SchedulerRuns {
  import opened Prelude
  import opened ServiceRuntime
  import opened Scheduler

  datatype Call = DoPlan(events: seq<AuditRecord>) | DoRun(id: string, ok: bool) | DoRunPending(oks: nat -> bool)

  function Apply(b: Board, call: Call): Board {
    match call
    case DoPlan(events) => Planned(b, events)
    case DoRun(id, ok) => RunNamed(b, id, ok)
    case DoRunPending(oks) => RunPendingOn(b, oks)
  }

  function ApplyAll(b: Board, calls: seq<Call>): Board {
    if calls == [] then b else Apply(ApplyAll(b, calls[..|calls| - 1]), calls[|calls| - 1])
  }

  // ----- statuses only move forward -----

  predicate Forward(s: Status, t: Status) { s == t || (s == Pending && (t == Passed || t == Failed)) }

  /** `b` keeps every job of `a` in its place; only statuses moved, and only forward. */
  ghost predicate Evolves(a: Board, b: Board) {
    && |a.jobs| <= |b.jobs|
    && forall i :: 0 <= i < |a.jobs| ==>
         b.jobs[i] == a.jobs[i].(status := b.jobs[i].status) && Forward(a.jobs[i].status, b.jobs[i].status)
  }

  ghost predicate BoardOk(b: Board) {
    && Keyed(b.jobs, ViewKey())
    && forall j :: j in b.jobs ==> j.jobId == JobIdOf(j.requestId) && j.requestId != "" && !j.status.Running?
  }

  lemma SettleForward(j: JobView)
    ensures Settle(j) == j.(status := Settle(j).status) && Forward(j.status, Settle(j).status)
    ensures !j.status.Running? ==> !Settle(j).status.Running?
  {}

  lemma RunAtOk(b: Board, i: nat, ok: bool)
    requires BoardOk(b) && i < |b.jobs|
    ensures BoardOk(RunAt(b, i, ok)) && Evolves(b, RunAt(b, i, ok))
  {
    hide Verified, ResultOf, Settle;
    SettleForward(b.jobs[i]);
    var after := RunAt(b, i, ok);
    assert b.jobs[i] in b.jobs;
    forall j | j in after.jobs
      ensures j.jobId == JobIdOf(j.requestId) && j.requestId != "" && !j.status.Running?
    {
      var k :| 0 <= k < |after.jobs| && after.jobs[k] == j;
      if k != i { assert after.jobs[k] == b.jobs[k]; }
      assert b.jobs[k] in b.jobs;
    }
    forall x, y | 0 <= x < y < |after.jobs| ensures ViewKey()(after.jobs[x]) != ViewKey()(after.jobs[y]) {
      assert ViewKey()(after.jobs[x]) == ViewKey()(b.jobs[x]) && ViewKey()(after.jobs[y]) == ViewKey()(b.jobs[y]);
    }
  }

  lemma EvolvesTransitive(a: Board, b: Board, c: Board)
    requires Evolves(a, b) && Evolves(b, c)
    ensures Evolves(a, c)
  {}

  lemma {:induction false} RunFirstOk(b: Board, n: nat, oks: nat -> bool)
    requires BoardOk(b) && n <= |b.jobs|
    ensures BoardOk(RunFirst(b, n, oks)) && Evolves(b, RunFirst(b, n, oks))
  {
    hide BoardOk, Evolves, RunAt;
    if n == 0 {
      assert Evolves(b, b) by { EvolvesSelf(b); }
    } else {
      RunFirstOk(b, n - 1, oks);
      RunAtOk(RunFirst(b, n - 1, oks), n - 1, oks(n - 1));
      EvolvesTransitive(b, RunFirst(b, n - 1, oks), RunFirst(b, n, oks));
    }
  }

  lemma EvolvesSelf(b: Board)
    ensures Evolves(b, b)
  {}

  lemma JobIdInjective(r: string, s: string)
    requires JobIdOf(r) == JobIdOf(s)
    ensures r == s
  {
    assert r == JobIdOf(r)[|"reconcile:"|..] && s == JobIdOf(s)[|"reconcile:"|..];
  }

  /** Storing jobs with ids of their own leaves the jobs already there in place. */
  lemma {:induction false} AddAllOk(b: Board, more: seq<JobView>)
    requires BoardOk(b)
    requires forall m :: m in more ==>
               m.jobId == JobIdOf(m.requestId) && m.requestId != "" && !m.status.Running?
               && m.requestId !in RequestIds(b.jobs)
    ensures BoardOk(b.(jobs := AddAll(b.jobs, more))) && b.jobs <= AddAll(b.jobs, more)
  {
    if more == [] {
    } else {
      var n := |more| - 1;
      AddAllOk(b, more[..n]);
      var d, m := AddAll(b.jobs, more[..n]), more[n];
      var i := Position(d, ViewKey()(m), ViewKey());
      assert m in more;
      if i < |b.jobs| {
        assert d[i] == b.jobs[i];
        assert b.jobs[i] in b.jobs && b.jobs[i].requestId in RequestIds(b.jobs);
        assert ViewKey()(d[i]) == ViewKey()(m);
        JobIdInjective(b.jobs[i].requestId, m.requestId);
        assert false;
      }
      UpsertKeyed(d, m, ViewKey());
      forall j | j in Upsert(d, m, ViewKey())
        ensures j.jobId == JobIdOf(j.requestId) && j.requestId != "" && !j.status.Running?
      {
        assert j == m || j in d;
      }
    }
  }

  lemma NewJobsOk(existing: set<string>, events: seq<AuditRecord>)
    ensures forall m :: m in NewJobs(existing, events) ==>
              m.jobId == JobIdOf(m.requestId) && m.requestId != "" && !m.status.Running? && m.requestId !in existing
  {
    var kept := Filter(events, PlannableAfter(existing));
    FilterMember(events, PlannableAfter(existing));
    forall m | m in NewJobs(existing, events)
      ensures m.jobId == JobIdOf(m.requestId) && m.requestId != "" && !m.status.Running? && m.requestId !in existing
    {
      var i :| 0 <= i < |kept| && JobFor(kept[i]) == m;
      assert kept[i] in kept;
    }
  }

  lemma ApplyOk(b: Board, call: Call)
    requires BoardOk(b)
    ensures BoardOk(Apply(b, call)) && Evolves(b, Apply(b, call))
  {
    match call
    case DoPlan(events) =>
      NewJobsOk(RequestIds(b.jobs), events);
      hide NewJobs, BoardOk, AddAll;
      AddAllOk(b, NewJobs(RequestIds(b.jobs), events));
    case DoRun(id, ok) =>
      var i := Position(b.jobs, id, ViewKey());
      if i < |b.jobs| { RunAtOk(b, i, ok); }
    case DoRunPending(oks) => RunFirstOk(b, Reach(b, oks), oks);
  }

  /** Over any calls, starting from an empty store: no job is left running between calls, and from every call to the
      next one each job keeps its place and its source while its status only moves from pending to passed or failed. */
  lemma {:induction false} StatusesOnlyAdvance(calls: seq<Call>, n: nat)
    requires n <= |calls|
    ensures BoardOk(ApplyAll(Board([], []), calls))
    ensures Evolves(ApplyAll(Board([], []), calls[..n]), ApplyAll(Board([], []), calls))
    decreases |calls|
  {
    var b := Board([], []);
    hide Apply, Evolves;
    if n == |calls| {
      assert calls[..n] == calls;
      EvolvesSelf(ApplyAll(b, calls));
      if calls != [] {
        StatusesOnlyAdvance(calls[..n - 1], n - 1);
        ApplyOk(ApplyAll(b, calls[..n - 1]), calls[n - 1]);
      }
    } else {
      var m := |calls| - 1;
      StatusesOnlyAdvance(calls[..m], n);
      assert calls[..m][..n] == calls[..n];
      ApplyOk(ApplyAll(b, calls[..m]), calls[m]);
      EvolvesTransitive(ApplyAll(b, calls[..n]), ApplyAll(b, calls[..m]), ApplyAll(b, calls));
    }
  }

  // ----- exactly once -----

  function ForJob(id: string): Logged -> bool { (l: Logged) => l.result.jobId == id }

  /** How often the result log names a job. */
  function Entries(b: Board, id: string): nat { |Filter(b.log, ForJob(id))| }

  predicate HasRun(s: Status) { s.Passed? || s.Failed? }

  /** One for a job that passed or failed, zero otherwise. */
  function Runs(b: Board, id: string): nat {
    var i := Position(b.jobs, id, ViewKey());
    if i < |b.jobs| && HasRun(b.jobs[i].status) then 1 else 0
  }

  lemma {:induction false} PositionUpdate(d: seq<JobView>, i: nat, v: JobView, id: string)
    requires i < |d| && v.jobId == d[i].jobId
    ensures Position(d[i := v], id, ViewKey()) == Position(d, id, ViewKey())
  {
    var n := |d| - 1;
    if i < n {
      PositionUpdate(d[..n], i, v, id);
      assert d[i := v][..n] == d[..n][i := v];
    } else {
      assert d[i := v][..n] == d[..n];
    }
  }

  lemma KeyedPosition(d: seq<JobView>, i: nat)
    requires Keyed(d, ViewKey()) && i < |d|
    ensures Position(d, d[i].jobId, ViewKey()) == i
  {
    assert ViewKey()(d[i]) == d[i].jobId;
  }

  /** Running a job adds one to its runs, and one to its entries if the log accepts the result; nothing else moves. */
  lemma RunAtCounts(b: Board, i: nat, ok: bool, id: string)
    requires BoardOk(b) && i < |b.jobs|
    ensures var after := RunAt(b, i, ok);
      var ran := if b.jobs[i].status.Pending? && b.jobs[i].jobId == id then 1 else 0;
      && Runs(after, id) == Runs(b, id) + ran
      && Entries(after, id) == Entries(b, id) + (if ok then ran else 0)
  {
    hide Verified;
    SettleIdle(b.jobs[i]);
    if b.jobs[i].status.Pending? {
      PositionUpdate(b.jobs, i, Settle(b.jobs[i]), id);
      KeyedPosition(b.jobs, i);
      FilterSnoc(b.log, Logged(ResultOf(b.jobs[i]), b.jobs[i].source.executionBackend), ForJob(id));
    }
  }

  lemma {:induction false} RunFirstCounts(b: Board, n: nat, oks: nat -> bool, id: string)
    requires BoardOk(b) && n <= |b.jobs|
    requires Entries(b, id) <= Runs(b, id)
    ensures Entries(RunFirst(b, n, oks), id) <= Runs(RunFirst(b, n, oks), id)
    ensures Entries(b, id) == Runs(b, id) && (forall k :: 0 <= k < n ==> oks(k)) ==>
              Entries(RunFirst(b, n, oks), id) == Runs(RunFirst(b, n, oks), id)
  {
    hide BoardOk, RunAt, Entries, Runs;
    if n == 0 {
    } else {
      RunFirstOk(b, n - 1, oks);
      RunFirstCounts(b, n - 1, oks, id);
      RunAtCounts(RunFirst(b, n - 1, oks), n - 1, oks(n - 1), id);
    }
  }

  /** The result log accepts every entry of the call. */
  ghost predicate Accepted(call: Call) {
    match call
    case DoPlan(_) => true
    case DoRun(_, ok) => ok
    case DoRunPending(oks) => forall k: nat :: oks(k)
  }

  lemma {:induction false} PrefixPosition(d: seq<JobView>, e: seq<JobView>, id: string)
    requires d <= e
    ensures Position(d, id, ViewKey()) < |d| ==> Position(e, id, ViewKey()) == Position(d, id, ViewKey())
    ensures Position(d, id, ViewKey()) == |d| ==> Position(e, id, ViewKey()) >= |d|
    decreases |e|
  {
    if |d| < |e| {
      PrefixPosition(d, e[..|e| - 1], id);
    } else {
      assert d == e;
    }
  }

  lemma {:induction false} PlanCounts(b: Board, more: seq<JobView>, id: string)
    requires BoardOk(b) && b.jobs <= AddAll(b.jobs, more)
    requires forall m :: m in more ==> !HasRun(m.status)
    ensures Runs(b.(jobs := AddAll(b.jobs, more)), id) == Runs(b, id)
  {
    var e := AddAll(b.jobs, more);
    AddedFrom(b.jobs, more);
    PrefixPosition(b.jobs, e, id);
    var p, q := Position(b.jobs, id, ViewKey()), Position(e, id, ViewKey());
    if p < |b.jobs| {
      assert e[p] == b.jobs[p];
    } else if q < |e| {
      NotRunLater(b, e, q, more);
    }
  }

  lemma NotRunLater(b: Board, e: seq<JobView>, q: nat, more: seq<JobView>)
    requires b.jobs <= e && |b.jobs| <= q < |e|
    requires forall k :: |b.jobs| <= k < |e| ==> e[k] in more || e[k] in b.jobs
    requires forall m :: m in more ==> !HasRun(m.status)
    requires e[q] !in b.jobs
    ensures !HasRun(e[q].status)
  {}

  lemma {:induction false} AddedFrom(jobs: seq<JobView>, more: seq<JobView>)
    ensures forall j :: j in AddAll(jobs, more) ==> j in jobs || j in more
  {
    if more == [] {
    } else {
      AddedFrom(jobs, more[..|more| - 1]);
    }
  }

  lemma ApplyCounts(b: Board, call: Call, id: string)
    requires BoardOk(b) && Entries(b, id) <= Runs(b, id)
    ensures Entries(Apply(b, call), id) <= Runs(Apply(b, call), id)
    ensures Entries(b, id) == Runs(b, id) && Accepted(call) ==> Entries(Apply(b, call), id) == Runs(Apply(b, call), id)
  {
    match call
    case DoPlan(events) =>
      var more := NewJobs(RequestIds(b.jobs), events);
      NewJobsOk(RequestIds(b.jobs), events);
      NewJobsNotRun(RequestIds(b.jobs), events);
      hide NewJobs, BoardOk, AddAll, Runs;
      AddAllOk(b, more);
      PlanCounts(b, more, id);
    case DoRun(name, ok) =>
      var i := Position(b.jobs, name, ViewKey());
      hide BoardOk, RunAt, Entries, Runs;
      if i < |b.jobs| { RunAtCounts(b, i, ok, id); }
    case DoRunPending(oks) =>
      hide BoardOk, Entries, Runs;
      RunFirstCounts(b, Reach(b, oks), oks, id);
  }

  lemma NewJobsNotRun(existing: set<string>, events: seq<AuditRecord>)
    ensures forall m :: m in NewJobs(existing, events) ==> !HasRun(m.status)
  {
    var kept := Filter(events, PlannableAfter(existing));
    forall m | m in NewJobs(existing, events) ensures !HasRun(m.status) {
      var i :| 0 <= i < |kept| && JobFor(kept[i]) == m;
    }
  }

  /** Exactly once: over any calls, starting from an empty store and an empty log, the log names each job at most once
      and only if it passed or failed; when the log accepts every entry, it names exactly the jobs that did. */
  lemma {:induction false} ExactlyOnce(calls: seq<Call>, id: string)
    ensures Entries(ApplyAll(Board([], []), calls), id) <= Runs(ApplyAll(Board([], []), calls), id)
    ensures (forall call :: call in calls ==> Accepted(call)) ==>
              Entries(ApplyAll(Board([], []), calls), id) == Runs(ApplyAll(Board([], []), calls), id)
  {
    if calls == [] {
    } else {
      var n := |calls| - 1;
      var before := ApplyAll(Board([], []), calls[..n]);
      ExactlyOnce(calls[..n], id);
      StatusesOnlyAdvance(calls[..n], n);
      hide Apply, Entries, Runs, Accepted, BoardOk, Evolves;
      assert calls[n] in calls;
      ApplyCounts(before, calls[n], id);
    }
  }

  /** After a `run_pending` that was not cut short nothing is pending, so a second one returns nothing and changes
      nothing. */
  lemma SecondRunIdle(b: Board, oks: nat -> bool, again: nat -> bool)
    requires NoneRefused(b, |b.jobs|, oks)
    ensures var after := RunPendingOn(b, oks);
      Filter(after.jobs, IsPendingJob) == [] && RunPendingOn(after, again) == after
  {
    var after := RunPendingOn(b, oks);
    ReachAll(b, oks);
    RunFirstJobs(b, |b.jobs|, oks);
    forall j | j in after.jobs ensures !j.status.Pending? {
      var i :| 0 <= i < |after.jobs| && after.jobs[i] == j;
      SettleIdle(b.jobs[i]);
    }
    hide Settle, RunPendingOn;
    FilterNothing(after.jobs, IsPendingJob);
    IdleRun(after, Reach(after, again), again);
    assert RunPendingOn(after, again) == after by { PendingRun(after, again); }
  }

  lemma PendingRun(b: Board, oks: nat -> bool)
    ensures RunPendingOn(b, oks) == RunFirst(b, Reach(b, oks), oks)
  {}

  lemma {:induction false} IdleRun(b: Board, n: nat, oks: nat -> bool)
    requires n <= |b.jobs| && forall j :: j in b.jobs ==> !j.status.Pending?
    ensures RunFirst(b, n, oks) == b
  {
    if n == 0 {
    } else {
      IdleRun(b, n - 1, oks);
    }
  }

  // ----- what planning leaves in the store -----

  function RidKey(): AuditRecord -> string { (e: AuditRecord) => e.requestId }

  /** Where a request id occurs first; the length when it does not occur. */
  function FirstAt(es: seq<AuditRecord>, rid: string): nat { Position(es, rid, RidKey()) }

  /** Where a request id occurs last; the length when it does not occur. */
  function LastAt(es: seq<AuditRecord>, rid: string): nat {
    if es == [] then 0
    else if es[|es| - 1].requestId == rid then |es| - 1
    else if LastAt(es[..|es| - 1], rid) < |es| - 1 then LastAt(es[..|es| - 1], rid)
    else |es|
  }

  function PlanOn(es: seq<AuditRecord>): seq<JobView> { AddAll([], NewJobs({}, es)) }

  lemma PlanSnoc(es: seq<AuditRecord>, e: AuditRecord)
    ensures PlanOn(es + [e]) == if e.requestId == "" then PlanOn(es) else Upsert(PlanOn(es), JobFor(e), ViewKey())
  {
    hide JobFor, Upsert;
    FilterSnoc(es, e, PlannableAfter({}));
    var kept := Filter(es, PlannableAfter({}));
    if e.requestId != "" {
      MapSnoc(kept, e, JobOf());
      assert NewJobs({}, es + [e]) == NewJobs({}, es) + [JobFor(e)];
      assert (NewJobs({}, es) + [JobFor(e)])[..|NewJobs({}, es)|] == NewJobs({}, es);
    }
  }

  /** One job per distinct non-empty request id, in order of first occurrence, made from its last occurrence. */
  ghost predicate PlanShape(es: seq<AuditRecord>, jobs: seq<JobView>) {
    && (forall j :: 0 <= j < |jobs| ==> JobFromLast(es, jobs[j]))
    && (forall i, j :: 0 <= i < j < |jobs| ==> FirstAt(es, jobs[i].requestId) < FirstAt(es, jobs[j].requestId))
    && (forall k :: 0 <= k < |es| && es[k].requestId != "" ==> HasJob(jobs, es[k].requestId))
  }

  ghost predicate JobFromLast(es: seq<AuditRecord>, job: JobView) {
    && job.requestId != ""
    && FirstAt(es, job.requestId) < |es|
    && LastAt(es, job.requestId) < |es|
    && job == JobFor(es[LastAt(es, job.requestId)])
  }

  ghost predicate HasJob(jobs: seq<JobView>, rid: string) {
    exists j :: 0 <= j < |jobs| && jobs[j].requestId == rid
  }

  lemma OccurrenceSnoc(es: seq<AuditRecord>, e: AuditRecord, rid: string)
    ensures FirstAt(es, rid) < |es| ==> FirstAt(es + [e], rid) == FirstAt(es, rid)
    ensures FirstAt(es, rid) == |es| ==> FirstAt(es + [e], rid) == if e.requestId == rid then |es| else |es| + 1
    ensures LastAt(es + [e], rid)
         == if e.requestId == rid then |es| else if LastAt(es, rid) < |es| then LastAt(es, rid) else |es| + 1
  {
    assert (es + [e])[..|es|] == es;
  }

  lemma {:induction false} LastBound(es: seq<AuditRecord>, rid: string)
    ensures LastAt(es, rid) <= |es| && (LastAt(es, rid) < |es| <==> FirstAt(es, rid) < |es|)
    ensures LastAt(es, rid) < |es| ==> es[LastAt(es, rid)].requestId == rid
  {
    if es == [] {
    } else {
      LastBound(es[..|es| - 1], rid);
    }
  }

  /** Planning on an empty store: one job per distinct non-empty request id, ordered by first occurrence, carrying the
      source and the status of the last one. */
  lemma {:induction false} PlanOnEmpty(es: seq<AuditRecord>)
    ensures PlanShape(es, PlanOn(es))
  {
    hide PlanOn, PlanShape, Upsert, JobFor;
    if es == [] {
      PlanNothing();
      assert PlanShape([], []) by { ShapeNothing(); }
    } else {
      var n := |es| - 1;
      PlanOnEmpty(es[..n]);
      PlanSnoc(es[..n], es[n]);
      assert es == es[..n] + [es[n]];
      ShapeSnoc(es[..n], es[n], PlanOn(es[..n]));
    }
  }

  lemma ShapeNothing()
    ensures PlanShape([], [])
  {}

  lemma JobKept(es: seq<AuditRecord>, e: AuditRecord, job: JobView)
    requires JobFromLast(es, job) && e.requestId != job.requestId
    ensures JobFromLast(es + [e], job) && FirstAt(es + [e], job.requestId) == FirstAt(es, job.requestId)
  {
    hide FirstAt, LastAt, JobFor;
    OccurrenceSnoc(es, e, job.requestId);
  }

  lemma JobReplaced(es: seq<AuditRecord>, e: AuditRecord)
    requires e.requestId != ""
    ensures JobFromLast(es + [e], JobFor(e))
    ensures FirstAt(es + [e], e.requestId) == if FirstAt(es, e.requestId) < |es| then FirstAt(es, e.requestId) else |es|
  {
    hide FirstAt, LastAt;
    OccurrenceSnoc(es, e, e.requestId);
    LastBound(es, e.requestId);
    assert FirstAt(es, e.requestId) <= |es| by { FirstBound(es, e.requestId); }
  }

  lemma FirstBound(es: seq<AuditRecord>, rid: string)
    ensures FirstAt(es, rid) <= |es|
    ensures FirstAt(es, rid) < |es| ==> es[FirstAt(es, rid)].requestId == rid
    ensures (exists k :: 0 <= k < |es| && es[k].requestId == rid) ==> FirstAt(es, rid) < |es|
  {
    if k :| 0 <= k < |es| && es[k].requestId == rid { assert RidKey()(es[k]) == rid; }
  }

  lemma FromLastId(es: seq<AuditRecord>, job: JobView)
    requires JobFromLast(es, job)
    ensures job.jobId == JobIdOf(job.requestId)
  {
    hide FirstAt, LastAt;
  }

  /** Where the job of a request stands, if it has one. */
  lemma JobPosition(es: seq<AuditRecord>, jobs: seq<JobView>, rid: string)
    requires PlanShape(es, jobs)
    ensures var i := Position(jobs, JobIdOf(rid), ViewKey());
      && (i < |jobs| ==> jobs[i].requestId == rid)
      && (forall k :: 0 <= k < |jobs| && jobs[k].requestId == rid ==> k == i)
  {
    hide FirstAt, JobFromLast, JobIdOf;
    var i := Position(jobs, JobIdOf(rid), ViewKey());
    forall k | 0 <= k < |jobs| ensures jobs[k].jobId == JobIdOf(jobs[k].requestId) { FromLastId(es, jobs[k]); }
    if i < |jobs| {
      assert ViewKey()(jobs[i]) == jobs[i].jobId;
      JobIdInjective(jobs[i].requestId, rid);
    }
    forall k | 0 <= k < |jobs| && jobs[k].requestId == rid ensures k == i {
      assert ViewKey()(jobs[k]) == JobIdOf(rid);
      assert i <= k;
    }
  }

  lemma ShapeIdle(es: seq<AuditRecord>, e: AuditRecord, jobs: seq<JobView>)
    requires PlanShape(es, jobs) && e.requestId == ""
    ensures PlanShape(es + [e], jobs)
  {
    hide FirstAt, LastAt;
    forall j | 0 <= j < |jobs|
      ensures JobFromLast(es + [e], jobs[j]) && FirstAt(es + [e], jobs[j].requestId) == FirstAt(es, jobs[j].requestId)
    {
      assert JobFromLast(es, jobs[j]);
      JobKept(es, e, jobs[j]);
    }
    hide JobFromLast, HasJob;
  }

  lemma ShapeReplaced(es: seq<AuditRecord>, e: AuditRecord, jobs: seq<JobView>, i: nat)
    requires PlanShape(es, jobs) && e.requestId != "" && i < |jobs| && jobs[i].requestId == e.requestId
    requires forall k :: 0 <= k < |jobs| && jobs[k].requestId == e.requestId ==> k == i
    ensures PlanShape(es + [e], jobs[i := JobFor(e)])
  {
    var fs, after := es + [e], jobs[i := JobFor(e)];
    hide FirstAt, LastAt;
    JobReplaced(es, e);
    ShapeHas(es, e, jobs, after, i);
    assert JobFromLast(es, jobs[i]);
    forall k | 0 <= k < |after|
      ensures JobFromLast(fs, after[k]) && FirstAt(fs, after[k].requestId) == FirstAt(es, jobs[k].requestId)
    {
      if k != i {
        assert JobFromLast(es, jobs[k]);
        JobKept(es, e, jobs[k]);
      }
    }
    hide JobFromLast, HasJob, JobFor;
  }

  lemma ShapeAppended(es: seq<AuditRecord>, e: AuditRecord, jobs: seq<JobView>)
    requires PlanShape(es, jobs) && e.requestId != "" && FirstAt(es, e.requestId) == |es|
    requires forall k :: 0 <= k < |jobs| ==> jobs[k].requestId != e.requestId
    ensures PlanShape(es + [e], jobs + [JobFor(e)])
  {
    var fs, n, after := es + [e], |jobs|, jobs + [JobFor(e)];
    hide FirstAt, LastAt;
    JobReplaced(es, e);
    ShapeHas(es, e, jobs, after, n);
    forall k | 0 <= k < n
      ensures JobFromLast(fs, after[k]) && FirstAt(fs, after[k].requestId) == FirstAt(es, jobs[k].requestId) < |es|
    {
      assert JobFromLast(es, jobs[k]);
      JobKept(es, e, jobs[k]);
    }
    assert FirstAt(fs, after[n].requestId) == |es| && JobFromLast(fs, after[n]);
    hide JobFromLast, HasJob, JobFor;
  }

  lemma ShapeSnoc(es: seq<AuditRecord>, e: AuditRecord, jobs: seq<JobView>)
    requires PlanShape(es, jobs)
    ensures PlanShape(es + [e], if e.requestId == "" then jobs else Upsert(jobs, JobFor(e), ViewKey()))
  {
    if e.requestId == "" {
      ShapeIdle(es, e, jobs);
    } else {
      var i := Position(jobs, JobIdOf(e.requestId), ViewKey());
      assert ViewKey()(JobFor(e)) == JobIdOf(e.requestId);
      JobPosition(es, jobs, e.requestId);
      hide PlanShape, JobFor, JobIdOf;
      if i < |jobs| {
        ShapeReplaced(es, e, jobs, i);
      } else {
        NewRequest(es, jobs, e.requestId);
        ShapeAppended(es, e, jobs);
      }
    }
  }

  lemma NewRequest(es: seq<AuditRecord>, jobs: seq<JobView>, rid: string)
    requires PlanShape(es, jobs) && rid != "" && Position(jobs, JobIdOf(rid), ViewKey()) == |jobs|
    ensures FirstAt(es, rid) == |es|
  {
    hide FirstAt, JobFromLast, JobIdOf;
    JobPosition(es, jobs, rid);
    FirstBound(es, rid);
    assert FirstAt(es, rid) < |es| ==> HasJob(jobs, rid);
  }

  lemma ShapeHas(es: seq<AuditRecord>, e: AuditRecord, jobs: seq<JobView>, after: seq<JobView>, i: nat)
    requires PlanShape(es, jobs) && e.requestId != "" && i <= |jobs|
    requires i < |jobs| ==> jobs[i].requestId == e.requestId
    requires after == if i < |jobs| then jobs[i := JobFor(e)] else jobs + [JobFor(e)]
    ensures forall k :: 0 <= k < |es + [e]| && (es + [e])[k].requestId != "" ==> HasJob(after, (es + [e])[k].requestId)
  {
    hide JobFromLast, FirstAt;
    assert after[i].requestId == e.requestId;
    forall k | 0 <= k < |es + [e]| && (es + [e])[k].requestId != "" ensures HasJob(after, (es + [e])[k].requestId) {
      if k < |es| {
        assert HasJob(jobs, es[k].requestId);
        var j :| 0 <= j < |jobs| && jobs[j].requestId == es[k].requestId;
        assert after[j].requestId == es[k].requestId;
      }
    }
  }

  /** Planning the same events again, whatever was run in between, creates no job and changes nothing. */
  lemma ReplanIdle(b: Board, calls: seq<Call>, events: seq<AuditRecord>)
    requires BoardOk(b)
    ensures var later := ApplyAll(Planned(b, events), calls);
      NewJobs(RequestIds(later.jobs), events) == [] && Planned(later, events) == later
  {
    var planned := Planned(b, events);
    var later := ApplyAll(planned, calls);
    assert planned == Apply(b, DoPlan(events));
    ApplyOk(b, DoPlan(events));
    KeepsEvolving(planned, calls);
    hide ApplyAll, Apply, Planned, BoardOk, RequestIds;
    forall e | e in events && e.requestId != "" ensures e.requestId in RequestIds(later.jobs) {
      PlannedHas(b, events, e);
      EvolvedIds(planned, later, e.requestId);
    }
    NothingNew(RequestIds(later.jobs), events);
    assert Planned(later, events) == later by { PlannedNothing(later, events); }
  }

  lemma PlannedNothing(b: Board, events: seq<AuditRecord>)
    requires NewJobs(RequestIds(b.jobs), events) == []
    ensures Planned(b, events) == b
  {}

  lemma {:induction false} KeepsEvolving(b: Board, calls: seq<Call>)
    requires BoardOk(b)
    ensures BoardOk(ApplyAll(b, calls)) && Evolves(b, ApplyAll(b, calls))
  {
    hide BoardOk, Evolves, Apply;
    if calls == [] {
      EvolvesSelf(b);
    } else {
      var n := |calls| - 1;
      KeepsEvolving(b, calls[..n]);
      ApplyOk(ApplyAll(b, calls[..n]), calls[n]);
      EvolvesTransitive(b, ApplyAll(b, calls[..n]), ApplyAll(b, calls));
    }
  }

  lemma EvolvedIds(a: Board, b: Board, rid: string)
    requires Evolves(a, b) && rid in RequestIds(a.jobs)
    ensures rid in RequestIds(b.jobs)
  {
    var j :| j in a.jobs && j.requestId == rid;
    var i :| 0 <= i < |a.jobs| && a.jobs[i] == j;
    assert b.jobs[i] in b.jobs && b.jobs[i].requestId == rid;
  }

  lemma UpsertHas(d: seq<JobView>, m: JobView, rid: string)
    requires m.jobId == JobIdOf(m.requestId) && forall j :: j in d ==> j.jobId == JobIdOf(j.requestId)
    requires m.requestId == rid || rid in RequestIds(d)
    ensures rid in RequestIds(Upsert(d, m, ViewKey()))
  {
    var i, after := Position(d, ViewKey()(m), ViewKey()), Upsert(d, m, ViewKey());
    if m.requestId == rid {
      assert after[i] == m && m in after;
    } else {
      var x :| x in d && x.requestId == rid;
      var k :| 0 <= k < |d| && d[k] == x;
      if k == i { JobIdInjective(x.requestId, m.requestId); }
      assert after[k] == x && x in after;
    }
  }

  lemma {:induction false} AddedHas(jobs: seq<JobView>, more: seq<JobView>, rid: string)
    requires forall m :: m in more ==> m.jobId == JobIdOf(m.requestId)
    requires forall j :: j in jobs ==> j.jobId == JobIdOf(j.requestId)
    requires rid in RequestIds(jobs) || rid in RequestIds(more)
    ensures rid in RequestIds(AddAll(jobs, more))
  {
    hide JobIdOf, Upsert;
    if more == [] {
    } else {
      var n := |more| - 1;
      assert more == more[..n] + [more[n]];
      AddedFrom(jobs, more[..n]);
      if more[n].requestId != rid { AddedHas(jobs, more[..n], rid); }
      UpsertHas(AddAll(jobs, more[..n]), more[n], rid);
    }
  }

  lemma PlannedHas(b: Board, events: seq<AuditRecord>, e: AuditRecord)
    requires BoardOk(b) && e in events && e.requestId != ""
    ensures e.requestId in RequestIds(Planned(b, events).jobs)
  {
    var existing := RequestIds(b.jobs);
    var more := NewJobs(existing, events);
    NewJobsOk(existing, events);
    if e.requestId !in existing {
      var kept := Filter(events, PlannableAfter(existing));
      FilterMember(events, PlannableAfter(existing));
      assert PlannableAfter(existing)(e) && e in kept;
      var i :| 0 <= i < |kept| && kept[i] == e;
      assert more[i] in more && more[i].requestId == e.requestId;
    }
    hide NewJobs, AddAll;
    AddedHas(b.jobs, more, e.requestId);
  }

  lemma NothingNew(existing: set<string>, events: seq<AuditRecord>)
    requires forall e :: e in events && e.requestId != "" ==> e.requestId in existing
    ensures NewJobs(existing, events) == []
  {
    var kept := Filter(events, PlannableAfter(existing));
    FilterMember(events, PlannableAfter(existing));
    if kept != [] { assert !PlannableAfter(existing)(kept[0]) || kept[0] !in kept; }
  }

  /** Events with distinct non-empty request ids give one job each, in their order. */
  lemma {:induction false} DistinctPlan(es: seq<AuditRecord>)
    requires forall i :: 0 <= i < |es| ==> es[i].requestId != ""
    requires forall i, j :: 0 <= i < j < |es| ==> es[i].requestId != es[j].requestId
    ensures PlanOn(es) == Map(es, JobOf())
  {
    hide PlanOn, JobFor, Position, Map, Upsert, JobIdOf;
    if es == [] {
      PlanNothing();
    } else {
      var n := |es| - 1;
      var before, e := es[..n], es[n];
      DistinctPlan(before);
      PlanSnoc(before, e);
      MapSnoc(before, e, JobOf());
      NoSuchJob(before, e);
      UpsertNew(PlanOn(before), JobFor(e));
      assert es == before + [e];
    }
  }

  lemma PlanNothing()
    ensures PlanOn([]) == [] && Map([], JobOf()) == []
  {
    assert NewJobs({}, []) == [];
  }

  lemma UpsertNew(d: seq<JobView>, x: JobView)
    requires Position(d, x.jobId, ViewKey()) == |d|
    ensures Upsert(d, x, ViewKey()) == d + [x]
  {
    assert ViewKey()(x) == x.jobId;
  }

  lemma NoSuchJob(es: seq<AuditRecord>, e: AuditRecord)
    requires forall i :: 0 <= i < |es| ==> es[i].requestId != e.requestId
    ensures Position(Map(es, JobOf()), JobFor(e).jobId, ViewKey()) == |es|
  {
    var d := Map(es, JobOf());
    forall k | 0 <= k < |d| ensures ViewKey()(d[k]) != JobFor(e).jobId {
      if JobIdOf(es[k].requestId) == JobIdOf(e.requestId) { JobIdInjective(es[k].requestId, e.requestId); }
    }
  }
}
