/** The pass that compares the log with the workspace and records what it finds. */
module Reconcile {
  import opened Prelude
  import opened HashChain
  import opened Events
  import opened Store
  import opened World
  import opened Proxy
  import Utf8

  datatype Diagnosis =
    | PendingNotExecuted
    | PendingExecutedUnconfirmed
    | UnrecordedExternalChange
    | CommittedConsistent
    | CommittedDiverged

  datatype Finding = Finding(
    diagnosis: Diagnosis, recordId: Option<string>, target: Path, confidence: Token, detail: string)

  /** The workspace as one pass sees it: some files cannot be read. */
  datatype View = View(files: Files, unreadable: set<Path>)

  /** The ids, the time and the database's verdict for one observation event. */
  datatype Tick = Tick(eventId: string, time: string, uuid: string, ok: bool)

  function FileDigest(c: Config, v: View, p: Path): Option<Digest> {
    if IsFile(v.files, p) && p !in v.unreadable then Some(c.sha(v.files[p].data)) else None
  }

  /** `o and ...` in a condition: present and not empty. */
  predicate Truthy(o: Option<string>) { o.Some? && o.value != "" }

  predicate IsFilesystemTool(tool: string) { tool == "filesystem.write" || tool == "filesystem.mkdir" }

  function EventTarget(c: Config, e: Event): Path
    requires e.envelope.Some?
  {
    c.resolve(e.envelope.value.target)
  }

  // ----- the three loops as functions -----

  function PendingFinding(c: Config, v: View, e: Event): Finding
    requires e.envelope.Some?
  {
    var target := EventTarget(c, e);
    var expected := e.envelope.value.expectedResultDigest;
    var actual := FileDigest(c, v, target);
    if IsFilesystemTool(e.envelope.value.tool) then
      if target !in v.files then
        Finding(PendingNotExecuted, Some(e.recordId), target, "0.85",
                c.message("reconcile.target_not_found", target, None))
      else
        Finding(PendingExecutedUnconfirmed, Some(e.recordId), target,
                if Truthy(expected) && actual.Some? then (if Some(actual.value) == expected then "0.95" else "0.7")
                else "0.85",
                c.message("reconcile.target_exists_unconfirmed", target, actual))
    else
      Finding(PendingExecutedUnconfirmed, Some(e.recordId), target,
              if e.envelope.value.tool == "shell.execute" then "0.7" else "0.5",
              c.message("reconcile.target_exists_unconfirmed", target, None))
  }

  function PendingFindings(c: Config, v: View, es: seq<Event>): seq<Finding> {
    if es == [] then [] else
      var n := |es| - 1;
      PendingFindings(c, v, es[..n]) + (if es[n].envelope.None? then [] else [PendingFinding(c, v, es[n])])
  }

  function RecordKey(): Event -> string { (e: Event) => e.recordId }

  /** One event per record id, in order of first commit, carrying the last commit. */
  function Latest(es: seq<Event>): seq<Event> {
    if es == [] then [] else Upsert(Latest(es[..|es| - 1]), es[|es| - 1], RecordKey())
  }

  function CommittedFinding(c: Config, v: View, e: Event): Finding
    requires e.envelope.Some?
  {
    var target := EventTarget(c, e);
    var actual := FileDigest(c, v, target);
    if actual.None? then
      Finding(CommittedDiverged, Some(e.recordId), target, "0.8", c.message("reconcile.target_deleted", target, None))
    else if Truthy(e.resultDigest) && Some(actual.value) == e.resultDigest then
      Finding(CommittedConsistent, Some(e.recordId), target, "0.95",
              c.message("reconcile.target_consistent", target, None))
    else
      Finding(CommittedDiverged, Some(e.recordId), target, "0.75", c.message("reconcile.target_diverged", target, None))
  }

  function CommittedFindings(c: Config, v: View, es: seq<Event>): seq<Finding> {
    if es == [] then [] else
      var n := |es| - 1;
      CommittedFindings(c, v, es[..n]) + (if es[n].envelope.None? then [] else [CommittedFinding(c, v, es[n])])
  }

  function Targets(c: Config, es: seq<Event>): set<Path> {
    set e | e in es && e.envelope.Some? :: EventTarget(c, e)
  }

  /** The targets of all pending records and of the last commit of every committed record. */
  function Known(c: Config, log: seq<Event>): set<Path> {
    Targets(c, PendingEvents(log)) + Targets(c, Latest(CommittedEvents(log)))
  }

  predicate OccursAt(s: string, t: string, i: nat) { i + |t| <= |s| && s[i..i + |t|] == t }

  predicate Contains(s: string, t: string) {
    exists i: nat :: i <= |s| && OccursAt(s, t, i)
  }

  predicate IsTemporary(p: Path) { Contains(Name(p), ".tmp.") }

  function ExternalFinding(c: Config, p: Path): Finding {
    Finding(UnrecordedExternalChange, None, p, "0.9", c.message("reconcile.unrecorded_external_change", p, None))
  }

  predicate IsExternal(files: Files, known: set<Path>, p: Path) {
    IsFile(files, p) && !IsTemporary(p) && p !in known
  }

  function ExternalFindings(c: Config, files: Files, known: set<Path>, listing: seq<Path>): seq<Finding> {
    if listing == [] then [] else
      var n := |listing| - 1;
      ExternalFindings(c, files, known, listing[..n])
      + (if IsExternal(files, known, listing[n]) then [ExternalFinding(c, listing[n])] else [])
  }

  /** What one pass reports. */
  function Report(c: Config, v: View, log: seq<Event>, listing: seq<Path>): seq<Finding> {
    PendingFindings(c, v, PendingEvents(log))
    + CommittedFindings(c, v, Latest(CommittedEvents(log)))
    + ExternalFindings(c, v.files, Known(c, log), listing)
  }

  /** What one pass records in the store: committed records are reported only. */
  function ToRecord(c: Config, v: View, log: seq<Event>, listing: seq<Path>): seq<Finding> {
    PendingFindings(c, v, PendingEvents(log)) + ExternalFindings(c, v.files, Known(c, log), listing)
  }

  // ----- observation events -----

  function ObservationDraft(c: Config, f: Finding, t: Tick): Event {
    Event(t.eventId, if Truthy(f.recordId) then f.recordId.value else "reconcile-" + t.uuid, t.time,
          ReconciliationObserved, None, None, Some(c.sha(Utf8.Encode(f.detail))), None, Some(f.confidence), None, "",
          None, None, None, None)
  }

  function Observe(c: Config, log: seq<Event>, f: Finding, t: Tick): seq<Event> {
    Appended(log, Seal(c.sha, ObservationDraft(c, f, t), LastSealed(log)), t.ok)
  }

  /** The log after recording the findings one by one; a failed append does not stop the pass. */
  function ObserveAll(c: Config, log: seq<Event>, fs: seq<Finding>, ticks: nat -> Tick): seq<Event> {
    if fs == [] then log else
      var n := |fs| - 1;
      Observe(c, ObserveAll(c, log, fs[..n], ticks), fs[n], ticks(n))
  }

  /** `b` is `a` followed by observation events only. */
  ghost predicate Observing(a: seq<Event>, b: seq<Event>) {
    a <= b && forall i :: |a| <= i < |b| ==> b[i].kind.ReconciliationObserved?
  }

  lemma {:induction false} ObserveAllObserves(c: Config, log: seq<Event>, fs: seq<Finding>, ticks: nat -> Tick)
    ensures Observing(log, ObserveAll(c, log, fs, ticks))
  {
    hide Seal;
    if fs == [] {
    } else {
      ObserveAllObserves(c, log, fs[..|fs| - 1], ticks);
    }
  }

  /** Observations neither open, close nor commit anything. */
  lemma ObservingQueries(a: seq<Event>, b: seq<Event>)
    requires Observing(a, b)
    ensures PendingEvents(b) == PendingEvents(a) && CommittedEvents(b) == CommittedEvents(a)
  {
    var extra := b[|a|..];
    assert b == a + extra;
    FilterAppend(a, extra, OpenIn(b));
    FilterAppend(a, extra, IsCommitted);
    FilterNothing(extra, OpenIn(b));
    FilterNothing(extra, IsCommitted);
    FilterSame(a, OpenIn(a), OpenIn(b));
  }

  /** Reconciling is stable: it leaves the pending and the committed records as they are, so a second pass over
      unchanged files reports the same findings, however the appends of the first one went. */
  lemma Stable(c: Config, v: View, log: seq<Event>, listing: seq<Path>, ticks: nat -> Tick)
    ensures var after := ObserveAll(c, log, ToRecord(c, v, log, listing), ticks);
      && PendingEvents(after) == PendingEvents(log)
      && CommittedEvents(after) == CommittedEvents(log)
      && Report(c, v, after, listing) == Report(c, v, log, listing)
  {
    ObserveAllObserves(c, log, ToRecord(c, v, log, listing), ticks);
    ObservingQueries(log, ObserveAll(c, log, ToRecord(c, v, log, listing), ticks));
  }

  // ----- INV-1c -----

  /** A complete listing of what is below the workspace. */
  ghost predicate Lists(c: Config, files: Files, listing: seq<Path>) {
    forall p :: p in listing <==> p in files && c.workspace < p
  }

  lemma {:induction false} ExternalFindingsExact(c: Config, files: Files, known: set<Path>, listing: seq<Path>)
    ensures forall f :: f in ExternalFindings(c, files, known, listing) <==>
              f.target in listing && IsExternal(files, known, f.target) && f == ExternalFinding(c, f.target)
  {
    hide IsExternal;
    if listing == [] {
    } else {
      ExternalFindingsExact(c, files, known, listing[..|listing| - 1]);
    }
  }

  lemma {:induction false} RecordFindings(c: Config, v: View, es: seq<Event>)
    ensures forall f :: f in PendingFindings(c, v, es) <==>
              exists e :: e in es && e.envelope.Some? && f == PendingFinding(c, v, e)
    ensures forall f :: f in CommittedFindings(c, v, es) <==>
              exists e :: e in es && e.envelope.Some? && f == CommittedFinding(c, v, e)
  {
    hide PendingFinding, CommittedFinding;
    if es == [] {
    } else {
      RecordFindings(c, v, es[..|es| - 1]);
      assert es == es[..|es| - 1] + [es[|es| - 1]];
    }
  }

  lemma FindingKinds(c: Config, v: View, e: Event)
    requires e.envelope.Some?
    ensures PendingFinding(c, v, e).diagnosis in {PendingNotExecuted, PendingExecutedUnconfirmed}
    ensures CommittedFinding(c, v, e).diagnosis in {CommittedConsistent, CommittedDiverged}
  {}

  predicate Flags(fs: seq<Finding>, p: Path) {
    exists f :: f in fs && f.diagnosis == UnrecordedExternalChange && f.target == p
  }

  /** INV-1c is exact: a path is flagged as changed behind the proxy precisely when it is a file below the workspace,
      not a temporary one, and the target of no pending and no committed record. */
  lemma ExternalExact(c: Config, v: View, log: seq<Event>, listing: seq<Path>, p: Path)
    requires Lists(c, v.files, listing)
    ensures Flags(Report(c, v, log, listing), p) <==>
            c.workspace < p && IsFile(v.files, p) && !IsTemporary(p) && p !in Known(c, log)
  {
    hide PendingEvents, CommittedEvents, Latest, Known, IsTemporary, PendingFinding, CommittedFinding;
    RecordFindings(c, v, PendingEvents(log));
    RecordFindings(c, v, Latest(CommittedEvents(log)));
    ExternalFindingsExact(c, v.files, Known(c, log), listing);
    var ext := ExternalFindings(c, v.files, Known(c, log), listing);
    if Flags(Report(c, v, log, listing), p) {
      var f :| f in Report(c, v, log, listing) && f.diagnosis == UnrecordedExternalChange && f.target == p;
      if f in PendingFindings(c, v, PendingEvents(log)) {
        var e :| e in PendingEvents(log) && e.envelope.Some? && f == PendingFinding(c, v, e);
        FindingKinds(c, v, e);
      }
      if f in CommittedFindings(c, v, Latest(CommittedEvents(log))) {
        var e :| e in Latest(CommittedEvents(log)) && e.envelope.Some? && f == CommittedFinding(c, v, e);
        FindingKinds(c, v, e);
      }
      assert f in ext;
    }
    if c.workspace < p && IsExternal(v.files, Known(c, log), p) {
      assert ExternalFinding(c, p) in ext;
      assert ExternalFinding(c, p) in Report(c, v, log, listing);
    }
  }

  // ----- the pass itself -----

  method Reconcile(c: Config, store: SQLiteExecutionStore, disk: Disk, unreadable: set<Path>, listing: seq<Path>,
                   ticks: nat -> Tick) returns (findings: seq<Finding>)
    requires store.Valid() && store.sha == c.sha
    modifies store
    ensures store.Valid()
    ensures findings == Report(c, View(disk.files, unreadable), old(store.log), listing)
    ensures store.log
         == ObserveAll(c, old(store.log), ToRecord(c, View(disk.files, unreadable), old(store.log), listing), ticks)
  {
    hide PendingEvents, CommittedEvents, Latest, RowsOf, Targets, PendingFindings, CommittedFindings, Observing;
    hide ObserveAll, ExternalFindings;
    var v := View(disk.files, unreadable);
    ghost var log := store.log;
    var pending, pendingTargets := CheckPending(c, store, v, ticks);
    ObserveAllObserves(c, log, pending, ticks);
    ObservingQueries(log, store.log);
    var committed, committedTargets := CheckCommitted(c, store, v);
    var external := CheckExternal(c, store, v.files, pendingTargets + committedTargets, listing, ticks, log, pending);
    findings := pending + committed + external;
  }

  /** The loop over the pending events. */
  method CheckPending(c: Config, store: SQLiteExecutionStore, v: View, ticks: nat -> Tick)
    returns (findings: seq<Finding>, targets: set<Path>)
    requires store.Valid() && store.sha == c.sha
    modifies store
    ensures store.Valid()
    ensures findings == PendingFindings(c, v, PendingEvents(old(store.log)))
    ensures targets == Targets(c, PendingEvents(old(store.log)))
    ensures store.log == ObserveAll(c, old(store.log), findings, ticks)
  {
    hide PendingEvents, PendingFinding, RowsOf, Observe, Targets, PendingFindings, CommittedFindings, EventTarget;
    ghost var log := store.log;
    findings, targets := [], {};
    var answer := store.Pending();
    var pending := answer.value;
    TakeNone(c, v, pending);
    for i := 0 to |pending|
      invariant store.Valid()
      invariant findings == PendingFindings(c, v, pending[..i])
      invariant targets == Targets(c, pending[..i])
      invariant store.log == ObserveAll(c, log, findings, ticks)
    {
      var e := pending[i];
      TakeOne(c, v, pending, i);
      if e.envelope.None? { continue; }
      targets := targets + {EventTarget(c, e)};
      var f := PendingFinding(c, v, e);
      AppendObservation(c, store, f, ticks(|findings|));
      ObserveOneMore(c, log, findings, f, ticks);
      findings := findings + [f];
    }
    assert pending[..|pending|] == pending;
  }

  /** The loop over the last commit of each record. */
  method CheckCommitted(c: Config, store: SQLiteExecutionStore, v: View)
    returns (findings: seq<Finding>, targets: set<Path>)
    requires store.Valid()
    ensures findings == CommittedFindings(c, v, Latest(CommittedEvents(store.log)))
    ensures targets == Targets(c, Latest(CommittedEvents(store.log)))
  {
    hide CommittedEvents, CommittedFinding, RowsOf, Targets, PendingFindings, CommittedFindings, EventTarget, Latest;
    findings, targets := [], {};
    var answer := store.Committed();
    var committed := Latest(answer.value);
    TakeNone(c, v, committed);
    for i := 0 to |committed|
      invariant findings == CommittedFindings(c, v, committed[..i])
      invariant targets == Targets(c, committed[..i])
    {
      var e := committed[i];
      TakeOne(c, v, committed, i);
      if e.envelope.None? { continue; }
      targets := targets + {EventTarget(c, e)};
      findings := findings + [CommittedFinding(c, v, e)];
    }
    assert committed[..|committed|] == committed;
  }

  /** The walk over the workspace; `recorded` are the findings recorded before it. */
  method CheckExternal(c: Config, store: SQLiteExecutionStore, files: Files, known: set<Path>, listing: seq<Path>,
                       ticks: nat -> Tick, ghost log: seq<Event>, recorded: seq<Finding>)
    returns (findings: seq<Finding>)
    requires store.Valid() && store.sha == c.sha && store.log == ObserveAll(c, log, recorded, ticks)
    modifies store
    ensures store.Valid()
    ensures findings == ExternalFindings(c, files, known, listing)
    ensures store.log == ObserveAll(c, log, recorded + findings, ticks)
  {
    hide RowsOf, Observe, ObserveAll, IsTemporary, ExternalFinding, ExternalFindings;
    findings := [];
    assert recorded + findings == recorded;
    WalkNone(c, files, known, listing);
    for i := 0 to |listing|
      invariant store.Valid()
      invariant findings == ExternalFindings(c, files, known, listing[..i])
      invariant store.log == ObserveAll(c, log, recorded + findings, ticks)
    {
      var path := listing[i];
      WalkOne(c, files, known, listing, i);
      if !IsFile(files, path) { continue; }
      if IsTemporary(path) { continue; }
      if path !in known {
        var f := ExternalFinding(c, path);
        AppendObservation(c, store, f, ticks(|recorded + findings|));
        ObserveOneMore(c, log, recorded + findings, f, ticks);
        Assoc(recorded, findings, [f]);
        findings := findings + [f];
      }
    }
    assert listing[..|listing|] == listing;
  }

  lemma WalkNone(c: Config, files: Files, known: set<Path>, listing: seq<Path>)
    ensures ExternalFindings(c, files, known, listing[..0]) == []
  {}

  lemma WalkOne(c: Config, files: Files, known: set<Path>, listing: seq<Path>, i: nat)
    requires i < |listing|
    ensures ExternalFindings(c, files, known, listing[..i + 1])
         == ExternalFindings(c, files, known, listing[..i])
            + (if IsExternal(files, known, listing[i]) then [ExternalFinding(c, listing[i])] else [])
  {
    hide IsExternal, ExternalFinding;
    assert listing[..i + 1][..i] == listing[..i] && listing[..i + 1][i] == listing[i];
  }

  lemma TakeNone(c: Config, v: View, es: seq<Event>)
    ensures PendingFindings(c, v, es[..0]) == CommittedFindings(c, v, es[..0]) == [] && Targets(c, es[..0]) == {}
  {
    assert es[..0] == [];
  }

  lemma TakeOne(c: Config, v: View, es: seq<Event>, i: nat)
    requires i < |es|
    ensures PendingFindings(c, v, es[..i + 1])
         == PendingFindings(c, v, es[..i]) + (if es[i].envelope.None? then [] else [PendingFinding(c, v, es[i])])
    ensures CommittedFindings(c, v, es[..i + 1])
         == CommittedFindings(c, v, es[..i]) + (if es[i].envelope.None? then [] else [CommittedFinding(c, v, es[i])])
    ensures Targets(c, es[..i + 1])
         == Targets(c, es[..i]) + (if es[i].envelope.None? then {} else {EventTarget(c, es[i])})
  {
    hide PendingFinding, CommittedFinding;
    assert es[..i + 1][..i] == es[..i] && es[..i + 1] == es[..i] + [es[i]];
  }

  lemma ObserveOneMore(c: Config, log: seq<Event>, fs: seq<Finding>, f: Finding, ticks: nat -> Tick)
    ensures ObserveAll(c, log, fs + [f], ticks) == Observe(c, ObserveAll(c, log, fs, ticks), f, ticks(|fs|))
  {
    hide Observe;
    assert (fs + [f])[..|fs|] == fs;
  }

  method AppendObservation(c: Config, store: SQLiteExecutionStore, f: Finding, t: Tick)
    requires store.Valid() && store.sha == c.sha
    modifies store
    ensures store.Valid() && store.log == Observe(c, old(store.log), f, t)
  {
    hide Seal, RowsOf;
    var previous := store.LastHash();
    var _ := store.Append(Seal(c.sha, ObservationDraft(c, f, t), previous), t.ok);
  }
}
