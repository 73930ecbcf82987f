/** What a reconciliation pass reports and what it leaves on record, as tables over the log and the files. */
module PassReport {
  import opened Prelude
  import opened HashChain
  import opened Events
  import opened Store
  import opened World
  import opened Reconcile
  import opened Diagnosis
  import Utf8

  // ----- what is reported -----

  /** The digest of a file that can be read. */
  function SeenDigest(c: Config, v: View, p: Path): Option<string> {
    if p in v.files && v.files[p].File? && p !in v.unreadable then Some(c.sha(v.files[p].data)) else None
  }

  /** The finding about a pending event. */
  function PendingVerdict(c: Config, v: View, rid: string, n: Envelope): Finding {
    var target := c.resolve(n.target);
    var unconfirmed := "reconcile.target_exists_unconfirmed";
    if n.tool != "filesystem.write" && n.tool != "filesystem.mkdir" then
      Finding(PendingExecutedUnconfirmed, Some(rid), target, if n.tool == "shell.execute" then "0.7" else "0.5",
              c.message(unconfirmed, target, None))
    else if target !in v.files then
      Finding(PendingNotExecuted, Some(rid), target, "0.85", c.message("reconcile.target_not_found", target, None))
    else
      var seen := SeenDigest(c, v, target);
      Finding(PendingExecutedUnconfirmed, Some(rid), target,
              if seen.None? || n.expectedResultDigest in {None, Some("")} then "0.85"
              else if seen == n.expectedResultDigest then "0.95" else "0.7",
              c.message(unconfirmed, target, seen))
  }

  /** The finding about the last commit of a record. */
  function CommitVerdict(c: Config, v: View, rid: string, n: Envelope, digest: Option<string>): Finding {
    var target := c.resolve(n.target);
    match SeenDigest(c, v, target)
    case None =>
      Finding(CommittedDiverged, Some(rid), target, "0.8", c.message("reconcile.target_deleted", target, None))
    case Some(seen) =>
      if digest == Some(seen) then
        Finding(CommittedConsistent, Some(rid), target, "0.95",
                c.message("reconcile.target_consistent", target, None))
      else
        Finding(CommittedDiverged, Some(rid), target, "0.75", c.message("reconcile.target_diverged", target, None))
  }

  /** The event opens a record that no later or earlier event closes. */
  ghost predicate StaysOpen(log: seq<Event>, e: Event) {
    && e in log && e.kind == IntentPending
    && forall x :: x in log && x.recordId == e.recordId ==> x.kind != ExecutionCommitted && x.kind != ExecutionFailed
  }

  /** The event is a commit, and no later commit has its record id. */
  ghost predicate CommitsLast(log: seq<Event>, e: Event) {
    exists k :: 0 <= k < |log| && log[k] == e && LastCommit(log, k)
  }

  /** Some record that a pass looks at has the path as its target. */
  ghost predicate Tracked(c: Config, log: seq<Event>, p: Path) {
    exists e ::
      (StaysOpen(log, e) || CommitsLast(log, e)) && e.envelope.Some? && c.resolve(e.envelope.value.target) == p
  }

  lemma QueriesExact(log: seq<Event>, rid: string, e: Event)
    ensures e in PendingEvents(log) <==> StaysOpen(log, e)
    ensures e in Latest(CommittedEvents(log)) <==> CommitsLast(log, e)
    ensures e in EventsForRecord(log, rid) <==> e in log && e.recordId == rid
  {
    FilterMember(log, OpenIn(log));
    FilterMember(log, HasRecord(rid));
    LatestExact(log, e);
    hide Filter, Latest, LastCommit, CommittedEvents;
  }

  lemma DigestNotEmpty(c: Config, v: View, p: Path)
    ensures SeenDigest(c, v, p) == FileDigest(c, v, p) != Some("")
  {}

  lemma VerdictsExact(c: Config, v: View, e: Event)
    requires e.envelope.Some?
    ensures PendingFinding(c, v, e) == PendingVerdict(c, v, e.recordId, e.envelope.value)
    ensures CommittedFinding(c, v, e) == CommitVerdict(c, v, e.recordId, e.envelope.value, e.resultDigest)
  {
    DigestNotEmpty(c, v, EventTarget(c, e));
    hide SeenDigest, FileDigest;
  }

  lemma KnownTracked(c: Config, log: seq<Event>, p: Path)
    ensures p in Known(c, log) <==> Tracked(c, log, p)
  {
    hide PendingEvents, CommittedEvents, Latest, StaysOpen, CommitsLast;
    forall e ensures e in PendingEvents(log) <==> StaysOpen(log, e) { QueriesExact(log, "", e); }
    forall e ensures e in Latest(CommittedEvents(log)) <==> CommitsLast(log, e) { QueriesExact(log, "", e); }
    if p in Known(c, log) {
      var e :| (e in PendingEvents(log) || e in Latest(CommittedEvents(log)))
               && e.envelope.Some? && EventTarget(c, e) == p;
    }
    if Tracked(c, log, p) {
      var e :| (StaysOpen(log, e) || CommitsLast(log, e))
               && e.envelope.Some? && c.resolve(e.envelope.value.target) == p;
      assert EventTarget(c, e) == p;
    }
  }

  /** The name of the path has `.tmp.` in it. */
  ghost predicate NamedTemporary(p: Path) {
    p != [] && exists a: string, b: string :: p[|p| - 1] == Joined(a, b)
  }

  function Joined(a: string, b: string): string { a + ".tmp." + b }

  lemma TemporaryExact(p: Path)
    ensures IsTemporary(p) <==> NamedTemporary(p)
  {
    var s := Name(p);
    if IsTemporary(p) {
      var i: nat :| i <= |s| && OccursAt(s, ".tmp.", i);
      assert s == Joined(s[..i], s[i + 5..]);
    }
    if NamedTemporary(p) {
      var a: string, b: string :| s == Joined(a, b);
      assert OccursAt(s, ".tmp.", |a|);
    }
  }

  /** The path is a file of the listing that is no temporary one and that no record accounts for. */
  ghost predicate Unaccounted(c: Config, v: View, log: seq<Event>, listing: seq<Path>, p: Path) {
    p in listing && p in v.files && v.files[p].File? && !NamedTemporary(p) && !Tracked(c, log, p)
  }

  function ChangeVerdict(c: Config, p: Path): Finding {
    Finding(UnrecordedExternalChange, None, p, "0.9", c.message("reconcile.unrecorded_external_change", p, None))
  }

  /** A pass reports exactly this: a verdict on every pending record, one on the last commit of every record, and one on
      every file that no record accounts for. */
  lemma ReportExact(c: Config, v: View, log: seq<Event>, listing: seq<Path>, f: Finding)
    ensures f in Report(c, v, log, listing) <==>
              || (exists e :: StaysOpen(log, e) && e.envelope.Some?
                              && f == PendingVerdict(c, v, e.recordId, e.envelope.value))
              || (exists e :: CommitsLast(log, e) && e.envelope.Some?
                              && f == CommitVerdict(c, v, e.recordId, e.envelope.value, e.resultDigest))
              || (Unaccounted(c, v, log, listing, f.target) && f == ChangeVerdict(c, f.target))
  {
    hide PendingEvents, CommittedEvents, Latest, StaysOpen, CommitsLast, PendingFinding, CommittedFinding;
    hide PendingVerdict, CommitVerdict, Known, Tracked, IsTemporary, NamedTemporary;
    forall e ensures e in PendingEvents(log) <==> StaysOpen(log, e) { QueriesExact(log, "", e); }
    forall e ensures e in Latest(CommittedEvents(log)) <==> CommitsLast(log, e) { QueriesExact(log, "", e); }
    forall e: Event | e.envelope.Some?
      ensures PendingFinding(c, v, e) == PendingVerdict(c, v, e.recordId, e.envelope.value)
      ensures CommittedFinding(c, v, e) == CommitVerdict(c, v, e.recordId, e.envelope.value, e.resultDigest)
    {
      VerdictsExact(c, v, e);
    }
    RecordFindings(c, v, PendingEvents(log));
    RecordFindings(c, v, Latest(CommittedEvents(log)));
    ExternalFindingsExact(c, v.files, Known(c, log), listing);
    KnownTracked(c, log, f.target);
    TemporaryExact(f.target);
  }

  // ----- in which order, and how often -----

  function Enveloped(): Event -> bool { (e: Event) => e.envelope.Some? }

  function PendingVerdictOf(c: Config, v: View): Event -> Finding {
    (e: Event) => if e.envelope.Some? then PendingVerdict(c, v, e.recordId, e.envelope.value)
                  else ChangeVerdict(c, [])
  }

  function CommitVerdictOf(c: Config, v: View): Event -> Finding {
    (e: Event) => if e.envelope.Some? then CommitVerdict(c, v, e.recordId, e.envelope.value, e.resultDigest)
                  else ChangeVerdict(c, [])
  }

  function ChangeVerdictOf(c: Config): Path -> Finding { (p: Path) => ChangeVerdict(c, p) }

  function ExternalIn(files: Files, known: set<Path>): Path -> bool { (p: Path) => IsExternal(files, known, p) }

  lemma {:induction false} VerdictsInOrder(c: Config, v: View, es: seq<Event>)
    ensures PendingFindings(c, v, es) == Map(Filter(es, Enveloped()), PendingVerdictOf(c, v))
    ensures CommittedFindings(c, v, es) == Map(Filter(es, Enveloped()), CommitVerdictOf(c, v))
  {
    hide PendingFinding, CommittedFinding, PendingVerdict, CommitVerdict;
    if es == [] {
    } else {
      var n := |es| - 1;
      var u, e := es[..n], es[n];
      VerdictsInOrder(c, v, u);
      if e.envelope.Some? {
        VerdictsExact(c, v, e);
        MapSnoc(Filter(u, Enveloped()), e, PendingVerdictOf(c, v));
        MapSnoc(Filter(u, Enveloped()), e, CommitVerdictOf(c, v));
      }
    }
  }

  lemma {:induction false} ChangesInOrder(c: Config, files: Files, known: set<Path>, listing: seq<Path>)
    ensures ExternalFindings(c, files, known, listing)
         == Map(Filter(listing, ExternalIn(files, known)), ChangeVerdictOf(c))
  {
    hide IsExternal;
    if listing == [] {
    } else {
      var n := |listing| - 1;
      ChangesInOrder(c, files, known, listing[..n]);
      MapSnoc(Filter(listing[..n], ExternalIn(files, known)), listing[n], ChangeVerdictOf(c));
    }
  }

  /** Where a record id occurs first. */
  function FirstAt(es: seq<Event>, rid: string): nat { Position(es, rid, RecordKey()) }

  lemma FirstSnoc(es: seq<Event>, x: Event, rid: string)
    ensures FirstAt(es + [x], rid)
         == if FirstAt(es, rid) < |es| then FirstAt(es, rid) else if x.recordId == rid then |es| else |es| + 1
  {
    assert (es + [x])[..|es|] == es;
  }

  /** One entry per record id of `es`, by where the ids occur first. */
  ghost predicate InFirstOrder(es: seq<Event>, d: seq<Event>) {
    && (forall i :: 0 <= i < |d| ==> FirstAt(es, d[i].recordId) < |es|)
    && (forall i, j :: 0 <= i < j < |d| ==> FirstAt(es, d[i].recordId) < FirstAt(es, d[j].recordId))
    && (forall k :: 0 <= k < |es| ==> exists i :: 0 <= i < |d| && d[i].recordId == es[k].recordId)
  }

  lemma FirstOrderSnoc(es: seq<Event>, x: Event, d: seq<Event>)
    requires InFirstOrder(es, d)
    ensures InFirstOrder(es + [x], Upsert(d, x, RecordKey()))
  {
    hide FirstAt;
    var after, k := Upsert(d, x, RecordKey()), Position(d, x.recordId, RecordKey());
    var more := es + [x];
    assert RecordKey()(x) == x.recordId;
    forall i | 0 <= i < |d|
      ensures after[i].recordId == d[i].recordId && FirstAt(more, d[i].recordId) == FirstAt(es, d[i].recordId)
    {
      FirstSnoc(es, x, d[i].recordId);
      if i == k { assert RecordKey()(d[k]) == x.recordId; }
    }
    FirstSnoc(es, x, x.recordId);
    if k == |d| { NewRecord(es, d, x.recordId); }
    forall n | 0 <= n < |more| ensures exists i :: 0 <= i < |after| && after[i].recordId == more[n].recordId {
      if n < |es| {
        var i :| 0 <= i < |d| && d[i].recordId == es[n].recordId;
        assert after[i].recordId == more[n].recordId;
      } else {
        assert after[k].recordId == x.recordId;
      }
    }
  }

  lemma NewRecord(es: seq<Event>, d: seq<Event>, rid: string)
    requires InFirstOrder(es, d) && Position(d, rid, RecordKey()) == |d|
    ensures FirstAt(es, rid) >= |es|
  {}

  /** The last commits come in the order in which their records were committed first. */
  lemma {:induction false} LatestInOrder(es: seq<Event>)
    ensures InFirstOrder(es, Latest(es))
  {
    hide FirstAt;
    if es == [] {
    } else {
      var n := |es| - 1;
      LatestInOrder(es[..n]);
      FirstOrderSnoc(es[..n], es[n], Latest(es[..n]));
      assert es == es[..n] + [es[n]];
    }
  }

  /** The report has one verdict per open record, in the order of the log, then one per committed record, then one per
      unaccounted file, in the order of the walk. */
  lemma ReportInOrder(c: Config, v: View, log: seq<Event>, listing: seq<Path>)
    ensures Report(c, v, log, listing)
         == Map(Filter(PendingEvents(log), Enveloped()), PendingVerdictOf(c, v))
            + Map(Filter(Latest(CommittedEvents(log)), Enveloped()), CommitVerdictOf(c, v))
            + Map(Filter(listing, ExternalIn(v.files, Known(c, log))), ChangeVerdictOf(c))
  {
    VerdictsInOrder(c, v, PendingEvents(log));
    VerdictsInOrder(c, v, Latest(CommittedEvents(log)));
    ChangesInOrder(c, v.files, Known(c, log), listing);
    hide PendingEvents, CommittedEvents, Latest, Known;
  }

  // ----- what is recorded -----

  predicate Recordable(f: Finding) { f.diagnosis != CommittedConsistent && f.diagnosis != CommittedDiverged }

  /** The findings about commits are reported only; all others are recorded too, in their order. */
  lemma RecordedExact(c: Config, v: View, log: seq<Event>, listing: seq<Path>)
    ensures ToRecord(c, v, log, listing) == Filter(Report(c, v, log, listing), Recordable)
  {
    hide PendingEvents, CommittedEvents, Latest, Known, PendingFinding, CommittedFinding, IsExternal, Filter;
    var a, b := PendingFindings(c, v, PendingEvents(log)), CommittedFindings(c, v, Latest(CommittedEvents(log)));
    var d := ExternalFindings(c, v.files, Known(c, log), listing);
    RecordFindings(c, v, PendingEvents(log));
    RecordFindings(c, v, Latest(CommittedEvents(log)));
    ExternalFindingsExact(c, v.files, Known(c, log), listing);
    forall e: Event | e.envelope.Some?
      ensures Recordable(PendingFinding(c, v, e)) && !Recordable(CommittedFinding(c, v, e))
    {
      FindingKinds(c, v, e);
    }
    hide PendingFindings, CommittedFindings, ExternalFindings;
    FilterAppend(a + b, d, Recordable);
    FilterAppend(a, b, Recordable);
    FilterAll(a, Recordable);
    FilterAll(d, Recordable);
    FilterNothing(b, Recordable);
    assert a + [] == a;
  }

  /** The record an observation belongs to: that of the finding, or one of its own. */
  function Subject(f: Finding, uuid: string): string {
    match f.recordId
    case None => "reconcile-" + uuid
    case Some(id) => if id == "" then "reconcile-" + uuid else id
  }

  /** The event is the observation of the finding, behind `previous` in the chain. */
  predicate Observes(c: Config, f: Finding, t: Tick, previous: string, e: Event) {
    e.(hash := "")
    == Event(t.eventId, Subject(f, t.uuid), t.time, ReconciliationObserved, None, None,
             Some(c.sha(Utf8.Encode(f.detail))), None, Some(f.confidence), Some(previous), "", None, None, None, None)
  }

  /** The database accepts the observation, under an unused event id. */
  ghost predicate Takes(log: seq<Event>, t: Tick) { t.ok && forall e :: e in log ==> e.eventId != t.eventId }

  lemma ObserveExact(c: Config, log: seq<Event>, f: Finding, t: Tick)
    ensures var previous := if log == [] then GENESIS_HASH else log[|log| - 1].hash;
      if Takes(log, t) then exists e :: Observe(c, log, f, t) == log + [e] && Observes(c, f, t, previous, e)
      else Observe(c, log, f, t) == log
  {
    hide ComputeHash, PayloadOf;
    var e := Seal(c.sha, ObservationDraft(c, f, t), LastSealed(log));
    assert Observes(c, f, t, LastSealed(log), e);
    hide Seal;
    if Takes(log, t) { assert Observe(c, log, f, t) == log + [e]; }
  }

  lemma ObserveMore(c: Config, log: seq<Event>, fs: seq<Finding>, ticks: nat -> Tick, i: nat)
    requires i < |fs|
    ensures ObserveAll(c, log, fs[..i + 1], ticks) == Observe(c, ObserveAll(c, log, fs[..i], ticks), fs[i], ticks(i))
  {
    hide Observe;
    assert fs[..i + 1][..i] == fs[..i];
  }

  /** One observation at most is added, under an unused id. */
  lemma ObserveKeeps(c: Config, log: seq<Event>, f: Finding, t: Tick)
    ensures var after := Observe(c, log, f, t);
      && log <= after
      && forall x :: x in after && x !in log ==> forall y :: y in log ==> y.eventId != x.eventId
  {
    ObserveExact(c, log, f, t);
    hide Observe;
  }

  /** No event of `after` that `before` does not have shares its id with one that it has. */
  ghost predicate Apart(before: seq<Event>, after: seq<Event>) {
    before <= after && forall x, y :: x in before && y in after && x.eventId == y.eventId ==> y in before
  }

  lemma ApartStep(before: seq<Event>, mid: seq<Event>, after: seq<Event>)
    requires Apart(before, mid) && mid <= after
    requires forall x :: x in after && x !in mid ==> forall y :: y in mid ==> y.eventId != x.eventId
    ensures Apart(before, after)
  {
    forall x, y | x in before && y in after && x.eventId == y.eventId ensures y in before {
      assert x in mid;
    }
  }

  lemma IdsUnique(log: seq<Event>)
    ensures Apart(log, log)
  {}

  /** What is on record stays, under event ids of its own. */
  lemma {:induction false} ObservedStays(c: Config, log: seq<Event>, fs: seq<Finding>, ticks: nat -> Tick, i: nat,
                                         n: nat)
    requires i <= n <= |fs|
    ensures Apart(ObserveAll(c, log, fs[..i], ticks), ObserveAll(c, log, fs[..n], ticks))
    decreases n
  {
    hide ObserveAll, Observe, Apart;
    if i == n {
      IdsUnique(ObserveAll(c, log, fs[..i], ticks));
    } else {
      var mid := ObserveAll(c, log, fs[..n - 1], ticks);
      ObservedStays(c, log, fs, ticks, i, n - 1);
      ObserveMore(c, log, fs, ticks, n - 1);
      ObserveKeeps(c, mid, fs[n - 1], ticks(n - 1));
      ApartStep(ObserveAll(c, log, fs[..i], ticks), mid, ObserveAll(c, log, fs[..n], ticks));
    }
  }

  /** Every finding whose append is accepted leaves exactly one event with its event id in the log of the pass: an
      observation of that finding, found under the record the finding is about. */
  lemma Observed(c: Config, log: seq<Event>, fs: seq<Finding>, ticks: nat -> Tick, i: nat) returns (e: Event)
    requires i < |fs| && Takes(ObserveAll(c, log, fs[..i], ticks), ticks(i))
    ensures var before, after := ObserveAll(c, log, fs[..i], ticks), ObserveAll(c, log, fs, ticks);
      && Observes(c, fs[i], ticks(i), if before == [] then GENESIS_HASH else before[|before| - 1].hash, e)
      && e in EventsForRecord(after, Subject(fs[i], ticks(i).uuid))
      && forall x :: x in after && x.eventId == ticks(i).eventId ==> x == e
  {
    hide ObserveAll, Observe, EventsForRecord, Apart, Takes, Observes;
    var before, mid, after :=
      ObserveAll(c, log, fs[..i], ticks), ObserveAll(c, log, fs[..i + 1], ticks), ObserveAll(c, log, fs, ticks);
    ObserveMore(c, log, fs, ticks, i);
    ObserveExact(c, before, fs[i], ticks(i));
    var previous := if before == [] then GENESIS_HASH else before[|before| - 1].hash;
    e :| mid == before + [e] && Observes(c, fs[i], ticks(i), previous, e);
    ObservedStays(c, log, fs, ticks, i + 1, |fs|);
    assert fs[..|fs|] == fs;
    ObservationIds(c, fs[i], ticks(i), previous, e);
    OneWithId(before, e, after, ticks(i));
    QueriesExact(after, Subject(fs[i], ticks(i).uuid), e);
  }

  lemma ObservationIds(c: Config, f: Finding, t: Tick, previous: string, e: Event)
    requires Observes(c, f, t, previous, e)
    ensures e.eventId == t.eventId && e.recordId == Subject(f, t.uuid)
  {}

  lemma OneWithId(before: seq<Event>, e: Event, after: seq<Event>, t: Tick)
    requires Takes(before, t) && e.eventId == t.eventId && Apart(before + [e], after)
    ensures e in after && forall x :: x in after && x.eventId == t.eventId ==> x == e
  {
    assert e in before + [e];
  }
}
