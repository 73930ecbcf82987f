/** What every operation answers and records, as tables over the request, the stores and what the environment does. */
module Answers {
  import opened Prelude
  import opened HashChain
  import opened Events
  import opened Decisions
  import opened World
  import opened Operations
  import Utf8

  // ----- the first phase -----

  /** A decision store is there and the caller gave an intent. */
  predicate Decides(c: Config, rq: Request) { c.hasDecisions && rq.intent.Some? }

  /** The context given with the call or else the ambient one. */
  function ContextOf(rq: Request): Option<Dict> {
    match rq.context
    case Some(given) => Some(given)
    case None => rq.ambient
  }

  /** The side effect is attempted: neither gate denies the call, the decision it needs is recorded under an unused id,
      and so is its pending event. */
  predicate Attempted(c: Config, w: World, rq: Request) {
    && !rq.policyDenies && !rq.boundaryDenies
    && (Decides(c, rq) ==>
          rq.verdicts.decisionOk && forall d :: d in w.decisions ==> d.decisionId != rq.ids.decisionId)
    && rq.verdicts.pendingOk && forall e :: e in w.log ==> e.eventId != rq.ids.pendingId
  }

  /** The closing event is stored: the database accepts it and its id is unused. */
  predicate Confirms(w: World, rq: Request) {
    && rq.verdicts.closingOk && rq.ids.closingId != rq.ids.pendingId
    && forall e :: e in w.log ==> e.eventId != rq.ids.closingId
  }

  lemma AttemptedExact(c: Config, w: World, rq: Request)
    ensures Ran(c, w, rq) <==> Attempted(c, w, rq)
  {}

  lemma PendingId(c: Config, w: World, rq: Request)
    ensures PendingEvent(c, w, rq).eventId == rq.ids.pendingId
  {}

  lemma ConfirmsExact(c: Config, w: World, rq: Request)
    ensures ClosingStored(w.log + [PendingEvent(c, w, rq)], rq) <==> Confirms(w, rq)
  {
    PendingId(c, w, rq);
    hide PendingEvent;
    var log := w.log + [PendingEvent(c, w, rq)];
    assert forall e :: e in log <==> e in w.log || e == PendingEvent(c, w, rq);
  }

  lemma DeniedCall(c: Config, w: World, rq: Request, stages: seq<Files>, eff: Effect)
    requires rq.policyDenies || rq.boundaryDenies
    ensures States(c, w, rq, stages, eff) == [w] && Answer(c, w, rq, eff) == Returned(REJECTED)
  {
    hide EffectStates, Prepared, PrepareStates, Started, ClosingAnswer;
  }

  /** A denied call does nothing at all: whatever the operation, the state before it is its only durable state. */
  lemma DeniedDoesNothing(c: Config, w: World, rq: Request, write: WritePlan, shell: ShellOutcome, mkdir: MkdirPlan,
                          http: HttpOutcome)
    requires rq.policyDenies || rq.boundaryDenies
    ensures WriteFileStates(c, w, rq, write) == ShellStates(c, w, rq, shell) == [w]
    ensures MkdirStates(c, w, rq, mkdir) == HttpStates(c, w, rq, http) == [w]
    ensures WriteFileAnswer(c, w, rq, write) in {Returned(REJECTED), WorkspaceBoundary}
    ensures MkdirAnswer(c, w, rq, mkdir) in {Returned(REJECTED), WorkspaceBoundary}
    ensures Answer(c, w, rq, ShellEffect(c, shell)) == Answer(c, w, rq, HttpEffect(c, http)) == Returned(REJECTED)
  {
    hide States, Answer, WriteStages, WriteEffect, MkdirStages, MkdirEffect, ShellEffect, HttpEffect;
    var t, temp := Target(c, rq), Temp(c, rq);
    DeniedCall(c, w, rq, WriteStages(w.files, t, temp, write), WriteEffect(c, w.files, t, temp, write));
    DeniedCall(c, w, rq, ShellStages(shell), ShellEffect(c, shell));
    DeniedCall(c, w, rq, MkdirStages(w.files, t, mkdir), MkdirEffect(c, w.files, t, mkdir));
    DeniedCall(c, w, rq, [], HttpEffect(c, http));
  }

  // ----- decisions and references -----

  /** What is recorded about why the call was made. */
  predicate RecordsWhy(rq: Request, previous: string, d: Decision) {
    && d.decisionId == rq.ids.decisionId && d.actionId == rq.envelope.actionId && Some(d.intent) == rq.intent
    && d.contextSnapshot == ContextOf(rq) && d.timestamp == rq.ids.time && d.previousHash == previous
  }

  /** The decision the call adds, if it adds one, is about this call. */
  ghost predicate DecisionAdded(rq: Request, before: seq<Decision>, after: seq<Decision>) {
    && |after| == |before| + 1 && before <= after
    && RecordsWhy(rq, if before == [] then GENESIS_HASH else before[|before| - 1].hash, after[|before|])
  }

  lemma DecidedWhy(c: Config, w: World, rq: Request)
    ensures Decides(c, rq) && !DecisionRefused(c, w, rq) ==> DecisionAdded(rq, w.decisions, Decided(c, w, rq).decisions)
    ensures !Decides(c, rq) || DecisionRefused(c, w, rq) ==> Decided(c, w, rq).decisions == w.decisions
  {
    hide HashedDecision, ComputeHash;
  }

  /** Every call that is attempted and has an intent records exactly one decision, before its pending event, and any
      other attempted call records none. */
  lemma DecisionRecorded(c: Config, w: World, rq: Request, stages: seq<Files>, eff: Effect, k: nat)
    requires Attempted(c, w, rq) && 1 <= k < |States(c, w, rq, stages, eff)|
    ensures var s := States(c, w, rq, stages, eff)[k];
      if Decides(c, rq) then DecisionAdded(rq, w.decisions, s.decisions) else s.decisions == w.decisions
  {
    hide States, Started, Decided, Closed, DecisionAdded, Attempted, Decides, AfterEffect, Ran;
    AttemptedExact(c, w, rq);
    DecidedWhy(c, w, rq);
    assert !DecisionRefused(c, w, rq) by { RanPrepared(c, w, rq); }
    RanParts(c, w, rq, stages, eff);
    StartedDecisions(c, w, rq);
    var d, p := Decided(c, w, rq), Started(c, w, rq);
    var closing := ClosingStates(c, AfterEffect(p, stages), rq, eff);
    assert forall s :: s in closing ==> s.decisions == p.decisions by { ClosingDecisions(c, p, rq, stages, eff); }
    hide ClosingStates;
    PartDecisions([w, d, p], StageStates(p, stages), closing, p.decisions, k);
  }

  lemma RanPrepared(c: Config, w: World, rq: Request)
    requires Ran(c, w, rq)
    ensures !DecisionRefused(c, w, rq)
  {}

  lemma ClosingDecisions(c: Config, p: World, rq: Request, stages: seq<Files>, eff: Effect)
    ensures forall s :: s in ClosingStates(c, AfterEffect(p, stages), rq, eff) ==> s.decisions == p.decisions
  {
    hide Closed;
    if !eff.Uncaught? { ClosedDecisions(c, AfterEffect(p, stages), rq, eff); }
  }

  lemma PartDecisions(a: seq<World>, b: seq<World>, d: seq<World>, ds: seq<Decision>, k: nat)
    requires 1 <= k < |a + (b + d)| && |a| == 3 && a[1].decisions == a[2].decisions == ds
    requires (forall s :: s in b ==> s.decisions == ds) && (forall s :: s in d ==> s.decisions == ds)
    ensures (a + (b + d))[k].decisions == ds
  {
    var x := a + (b + d);
    if k >= 3 { assert x[k] in b + d; }
  }

  lemma StartedDecisions(c: Config, w: World, rq: Request)
    ensures Started(c, w, rq).decisions == Decided(c, w, rq).decisions
  {
    hide Decided, PendingEvent;
  }

  lemma ClosedDecisions(c: Config, w: World, rq: Request, eff: Effect)
    requires !eff.Uncaught?
    ensures Closed(c, w, rq, eff).decisions == w.decisions
  {
    hide ClosingEvent;
  }

  /** A call that is not attempted may still have recorded its decision, when only the pending event failed. */
  lemma DecisionAlone(c: Config, w: World, rq: Request, stages: seq<Files>, eff: Effect)
    requires !Attempted(c, w, rq)
    ensures var s := Last(States(c, w, rq, stages, eff));
      && s.log == w.log && s.files == w.files
      && if !rq.policyDenies && !rq.boundaryDenies && Decides(c, rq)
            && rq.verdicts.decisionOk && (forall d :: d in w.decisions ==> d.decisionId != rq.ids.decisionId)
         then DecisionAdded(rq, w.decisions, s.decisions)
         else s.decisions == w.decisions
  {
    AttemptedExact(c, w, rq);
    DecidedWhy(c, w, rq);
    DecidedLog(c, w, rq);
    StartedDecisions(c, w, rq);
    assert Last(States(c, w, rq, stages, eff)) == if Denied(rq) then w else Last(PrepareStates(c, w, rq)) by {
      hide Decided, WithPending, EffectStates, Prepared;
    }
    hide Decided, WithPending, States, DecisionAdded;
  }

  /** The digest of the context goes on record with the decision. */
  function ContextDigest(c: Config, rq: Request): Option<string> {
    match ContextOf(rq)
    case Some(d) => Some(c.sha(Utf8.Encode(CanonicalText(d))))
    case None => None
  }

  /** The pending event of a call, field by field. */
  lemma PendingFields(c: Config, w: World, rq: Request)
    ensures PendingEvent(c, w, rq).(hash := "")
         == Event(rq.ids.pendingId, rq.envelope.actionId, rq.ids.time, IntentPending, Some(rq.envelope), None, None,
                  Some(NoEffect), None, Some(if w.log == [] then GENESIS_HASH else w.log[|w.log| - 1].hash), "",
                  rq.intent, if Decides(c, rq) then Some(rq.ids.decisionId) else None,
                  if Decides(c, rq) then ContextDigest(c, rq) else None, None)
  {
    hide CanonicalText, ComputeHash, PayloadOf;
  }

  /** The closing event of a call differs from its pending event in its id, its place in the chain and in what it tells
      of the effect. */
  lemma ClosingFields(c: Config, w: World, rq: Request, eff: Effect)
    requires !eff.Uncaught?
    ensures var p, e := PendingEvent(c, w, rq), CloseEvent(c, w, rq, eff);
      && e.(hash := "")
         == p.(eventId := rq.ids.closingId, kind := e.kind, resultDigest := e.resultDigest,
               errorDigest := e.errorDigest, sideEffect := e.sideEffect, previousHash := Some(p.hash), hash := "")
      && (if eff.Done? then Tells(e, ExecutionCommitted, Confirmed, None, Some(eff.resultDigest))
          else Tells(e, ExecutionFailed, eff.observed, Some(eff.errorDigest), eff.failedDigest))
  {
    hide DecisionRef, ContextRef, ComputeHash, PayloadOf;
  }

  // ----- how a call ends -----

  /** The record was closed with an event that tells this. */
  ghost predicate ClosedBy(w: World, rq: Request, s: World, kind: EventType, observed: SideEffect,
                           error: Option<string>, digest: Option<string>) {
    && |s.log| == |w.log| + 2 && w.log <= s.log
    && s.log[|w.log|].eventId == rq.ids.pendingId && s.log[|w.log| + 1].eventId == rq.ids.closingId
    && Tells(s.log[|w.log| + 1], kind, observed, error, digest)
  }

  /** Only the pending event was recorded. */
  ghost predicate LeftOpen(w: World, rq: Request, s: World) {
    |s.log| == |w.log| + 1 && w.log <= s.log && s.log[|w.log|].eventId == rq.ids.pendingId
  }

  /** The call committed, or would have but for its closing event. */
  ghost predicate EndsDone(w: World, rq: Request, s: World, answer: Outcome, digest: string) {
    if Confirms(w, rq)
    then answer == Returned(SUCCESS) && ClosedBy(w, rq, s, ExecutionCommitted, Confirmed, None, Some(digest))
    else answer == Returned(UNCONFIRMED) && LeftOpen(w, rq, s)
  }

  /** The call failed; the failure is on record if its closing event could be stored. */
  ghost predicate EndsFailed(w: World, rq: Request, s: World, answer: Outcome, observed: SideEffect, error: string,
                             digest: Option<string>) {
    && answer == Returned(FAILURE)
    && if Confirms(w, rq) then ClosedBy(w, rq, s, ExecutionFailed, observed, Some(error), digest)
       else LeftOpen(w, rq, s)
  }

  lemma Ended(c: Config, w: World, rq: Request, stages: seq<Files>, eff: Effect)
    requires Attempted(c, w, rq)
    ensures var s, answer := Last(States(c, w, rq, stages, eff)), Answer(c, w, rq, eff);
      && s.files == (if stages == [] then w.files else Last(stages))
      && match eff
         case Done(digest) => EndsDone(w, rq, s, answer, digest)
         case Failed(observed, error, digest) => EndsFailed(w, rq, s, answer, observed, error, digest)
         case Uncaught => answer == Escaped && LeftOpen(w, rq, s)
  {
    hide States, PendingEvent, ClosingEvent, ClosingStored, Ran, Attempted, Confirms, Tells, Started;
    AttemptedExact(c, w, rq);
    EndShape(c, w, rq, stages, eff);
    var p := PendingEvent(c, w, rq);
    PendingId(c, w, rq);
    if !eff.Uncaught? {
      SealedId(c, w.log + [p], rq, eff);
      CloseTells(c, w, rq, eff);
      TwoMore(w.log, p, CloseEvent(c, w, rq, eff));
    }
    OneMore(w.log, p);
  }

  lemma OneMore(log: seq<Event>, p: Event)
    ensures var after := log + [p];
      |after| == |log| + 1 && log <= after && after[|log|] == p
  {}

  lemma TwoMore(log: seq<Event>, p: Event, e: Event)
    ensures var after := log + [p, e];
      |after| == |log| + 2 && log <= after && after[|log|] == p && after[|log| + 1] == e
  {}

  lemma EndShape(c: Config, w: World, rq: Request, stages: seq<Files>, eff: Effect)
    requires Ran(c, w, rq)
    ensures var s := Last(States(c, w, rq, stages, eff));
      && s.files == (if stages == [] then w.files else Last(stages))
      && s.log == (if !eff.Uncaught? && Confirms(w, rq)
                   then w.log + [PendingEvent(c, w, rq), CloseEvent(c, w, rq, eff)]
                   else w.log + [PendingEvent(c, w, rq)])
    ensures Answer(c, w, rq, eff)
         == match eff
            case Uncaught => Escaped
            case Failed(_, _, _) => Returned(FAILURE)
            case Done(_) => if Confirms(w, rq) then Returned(SUCCESS) else Returned(UNCONFIRMED)
  {
    hide States, PendingEvent, CloseEvent, ClosingStored, Ran, Confirms, Started;
    ConfirmsExact(c, w, rq);
    RanStates(c, w, rq, stages, eff);
    StartedLog(c, w, rq);
  }

  lemma StartedLog(c: Config, w: World, rq: Request)
    requires Ran(c, w, rq)
    ensures Started(c, w, rq).log == w.log + [PendingEvent(c, w, rq)]
  {
    hide Started, PendingEvent;
    assert Prepared(c, w, rq);
    DecidedLog(c, w, rq);
  }

  // ----- the four operations -----

  /** The path lies at or below the workspace. */
  ghost predicate Below(workspace: Path, p: Path) { exists rest: Path :: p == workspace + rest }

  lemma BelowExact(c: Config, p: Path)
    ensures InWorkspace(c, p) <==> Below(c.workspace, p)
  {
    if c.workspace <= p { assert p == c.workspace + p[|c.workspace|..]; }
  }

  /** The directory a path is in; the root is in itself. */
  function Above(p: Path): Path { if p == [] then [] else p[..|p| - 1] }

  /** The name of the temporary file next to the target. */
  function Sibling(target: Path, id: string): Path {
    if target == [] then [".tmp." + id] else target[..|target| - 1] + [target[|target| - 1] + ".tmp." + id]
  }

  lemma TempExact(c: Config, rq: Request)
    ensures Temp(c, rq) == Sibling(c.resolve(rq.envelope.target), rq.envelope.actionId)
    ensures Parent(Temp(c, rq)) == Above(c.resolve(rq.envelope.target))
  {
    assert "" + ".tmp." + rq.envelope.actionId == ".tmp." + rq.envelope.actionId;
  }

  /** The temporary file can be written and renamed: nothing fails, its directory is there, and neither it nor the
      target is a directory. */
  predicate Writable(files: Files, target: Path, id: string, plan: WritePlan) {
    && plan.fault == NoFault
    && Above(target) in files && files[Above(target)] == Dir
    && (Sibling(target, id) in files ==> files[Sibling(target, id)] != Dir)
    && (target in files ==> files[target] != Dir)
  }

  lemma RenamesExact(c: Config, w: World, rq: Request, plan: WritePlan)
    ensures Renames(w.files, Target(c, rq), Temp(c, rq), plan)
            <==> Writable(w.files, c.resolve(rq.envelope.target), rq.envelope.actionId, plan)
  {
    TempExact(c, rq);
    assert Temp(c, rq) != Target(c, rq);
    hide Temp, Sibling;
  }

  /** What `write_file` answers and records. */
  lemma WriteTable(c: Config, w: World, rq: Request, plan: WritePlan)
    ensures var target := c.resolve(rq.envelope.target);
      var s, answer := Last(WriteFileStates(c, w, rq, plan)), WriteFileAnswer(c, w, rq, plan);
      if !Below(c.workspace, target) then answer == WorkspaceBoundary && s == w
      else if Above(target) !in w.files then answer == Returned(REJECTED) && s == w
      else if !Attempted(c, w, rq) then answer == Returned(REJECTED) && s.log == w.log && s.files == w.files
      else if Writable(w.files, target, rq.envelope.actionId, plan)
      then EndsDone(w, rq, s, answer, c.sha(plan.content))
      else EndsFailed(w, rq, s, answer, NoEffect, c.sha(Utf8.Encode(plan.error)), None)
  {
    BelowExact(c, Target(c, rq));
    RenamesExact(c, w, rq, plan);
    hide States, Answer, WriteStages, Renames, Attempted, Writable, EndsDone, EndsFailed, Below, InWorkspace, Temp;
    if WriteAdmitted(c, w, rq) {
      var stages := WriteStages(w.files, Target(c, rq), Temp(c, rq), plan);
      var eff := WriteEffect(c, w.files, Target(c, rq), Temp(c, rq), plan);
      if Attempted(c, w, rq) { Ended(c, w, rq, stages, eff); } else { NotAttempted(c, w, rq, stages, eff); }
    }
  }

  lemma NotAttempted(c: Config, w: World, rq: Request, stages: seq<Files>, eff: Effect)
    requires !Attempted(c, w, rq)
    ensures Answer(c, w, rq, eff) == Returned(REJECTED)
    ensures var s := Last(States(c, w, rq, stages, eff));
      s.log == w.log && s.files == w.files
  {
    AttemptedExact(c, w, rq);
    IdleStates(c, w, rq, stages, eff);
    hide States, Ran, Attempted;
    assert Last(States(c, w, rq, stages, eff)) in States(c, w, rq, stages, eff);
  }

  /** What `make_directory` answers and records. */
  lemma MkdirTable(c: Config, w: World, rq: Request, plan: MkdirPlan)
    ensures var target := c.resolve(rq.envelope.target);
      var s, answer := Last(MkdirStates(c, w, rq, plan)), MkdirAnswer(c, w, rq, plan);
      if !Below(c.workspace, target) then answer == WorkspaceBoundary && s == w
      else if !Attempted(c, w, rq) then answer == Returned(REJECTED) && s.log == w.log && s.files == w.files
      else if plan.works && forall k :: 0 <= k <= |target| && target[..k] in w.files ==> w.files[target[..k]] == Dir
      then EndsDone(w, rq, s, answer, c.sha(Utf8.Encode(PathText(target))))
      else EndsFailed(w, rq, s, answer, NoEffect, c.sha(Utf8.Encode(plan.error)), None)
  {
    BelowExact(c, Target(c, rq));
    var target := c.resolve(rq.envelope.target);
    assert MkdirOk(w.files, target, plan) <==>
      plan.works && forall k :: 0 <= k <= |target| && target[..k] in w.files ==> w.files[target[..k]] == Dir;
    hide States, Answer, MkdirStages, MkdirOk, Attempted, EndsDone, EndsFailed, Below, InWorkspace;
    if InWorkspace(c, target) {
      var stages, eff := MkdirStages(w.files, target, plan), MkdirEffect(c, w.files, target, plan);
      if Attempted(c, w, rq) { Ended(c, w, rq, stages, eff); } else { NotAttempted(c, w, rq, stages, eff); }
    }
  }

  /** How a path is written: each component behind a slash, and the root as a slash alone. */
  lemma PathTextExact(p: Path, name: string)
    ensures PathText([]) == "/" && PathText([name]) == "/" + name
    ensures p != [] ==> PathText(p + [name]) == PathText(p) + "/" + name
  {
    assert Parent(p + [name]) == p;
  }

  /** What `execute_shell` answers and records: a process that ended counts as done whatever its exit code, one that
      timed out may still be running, and one that did not start did nothing. */
  lemma ShellTable(c: Config, w: World, rq: Request, o: ShellOutcome)
    ensures var s, answer := Last(ShellStates(c, w, rq, o)), Answer(c, w, rq, ShellEffect(c, o));
      if !Attempted(c, w, rq) then answer == Returned(REJECTED) && s.log == w.log && s.files == w.files
      else match o
        case Completed(output, after) => s.files == after && EndsDone(w, rq, s, answer, c.sha(output))
        case TimedOut(after) =>
          s.files == after && EndsFailed(w, rq, s, answer, Unknown, c.sha(Utf8.Encode("timeout")), None)
        case NotStarted(error) =>
          s.files == w.files && EndsFailed(w, rq, s, answer, NoEffect, c.sha(Utf8.Encode(error)), None)
  {
    hide States, Answer, Attempted, EndsDone, EndsFailed;
    var stages, eff := ShellStages(o), ShellEffect(c, o);
    if Attempted(c, w, rq) { Ended(c, w, rq, stages, eff); } else { NotAttempted(c, w, rq, stages, eff); }
  }

  /** What `http_get` answers and records: any full response counts as done, an error status included; a partial one
      keeps the digest of what was seen; an exception that is not caught leaves the record open. */
  lemma HttpTable(c: Config, w: World, rq: Request, o: HttpOutcome)
    ensures var s, answer := Last(HttpStates(c, w, rq, o)), Answer(c, w, rq, HttpEffect(c, o));
      && s.files == w.files
      && if !Attempted(c, w, rq) then answer == Returned(REJECTED) && s.log == w.log
         else match o
           case Received(seen) => EndsDone(w, rq, s, answer, c.sha(seen))
           case HttpError(seen) => EndsDone(w, rq, s, answer, c.sha(seen))
           case IncompleteRead(seen, error) =>
             EndsFailed(w, rq, s, answer, Partial, c.sha(Utf8.Encode(error)), Some(c.sha(seen)))
           case HttpTimeout(error) => EndsFailed(w, rq, s, answer, Unknown, c.sha(Utf8.Encode(error)), None)
           case UrlError(error) => EndsFailed(w, rq, s, answer, NoEffect, c.sha(Utf8.Encode(error)), None)
           case OtherException => answer == Escaped && LeftOpen(w, rq, s)
  {
    hide States, Answer, Attempted, EndsDone, EndsFailed, LeftOpen;
    var eff := HttpEffect(c, o);
    if Attempted(c, w, rq) { Ended(c, w, rq, [], eff); } else { NotAttempted(c, w, rq, [], eff); }
  }
}
