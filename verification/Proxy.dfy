/** The single chokepoint through which every managed side effect passes. */
module Proxy {
  import opened Prelude
  import opened HashChain
  import opened Events
  import opened Store
  import opened Decisions
  import opened World
  import Utf8

  /** The file system: a map that file operations update in place. */
  class Disk {
    var files: Files

    constructor (files: Files)
      ensures this.files == files
    {
      this.files := files;
    }

    /** Writes the temporary file and syncs it; raises when the plan or the tree refuses. */
    method WriteAndSync(temp: Path, plan: WritePlan) returns (ok: bool)
      modifies this
      ensures files == AfterWrite(old(files), temp, plan)
      ensures ok <==> WriteOk(old(files), temp, plan) && !plan.fault.SyncFails?
    {
      if !IsDir(files, Parent(temp)) || IsDir(files, temp) { return false; }
      match plan.fault
      case WriteFails(part) =>
        if part.Some? { files := files[temp := File(part.value)]; }
        ok := false;
      case _ =>
        files := files[temp := File(plan.content)];
        ok := !plan.fault.SyncFails?;
    }

    /** The atomic rename; raises onto a directory. */
    method Replace(temp: Path, target: Path, plan: WritePlan) returns (ok: bool)
      requires temp in files
      modifies this
      ensures ok <==> !plan.fault.RenameFails? && !IsDir(old(files), target)
      ensures files == if ok then AfterRename(old(files), temp, target) else old(files)
    {
      ok := !plan.fault.RenameFails? && !IsDir(files, target);
      if ok {
        var node := files[temp];
        files := files - {temp};
        files := files[target := node];
      }
    }

    method RemoveTemp(temp: Path, plan: WritePlan)
      modifies this
      ensures files == AfterCleanup(old(files), temp, plan)
    {
      if IsFile(files, temp) && plan.unlinkOk { files := files - {temp}; }
    }

    /** One directory of a mkdir with parents. */
    method MakeDirectory(p: Path)
      modifies this
      ensures files == MakeDir(old(files), p)
    {
      if p !in files { files := files[p := Dir]; }
    }

    /** A process outside the proxy leaves the files as it leaves them. */
    method LeftBy(after: Files)
      modifies this
      ensures files == after
    {
      files := after;
    }
  }

  class ToolProxy {
    const config: Config
    const store: SQLiteExecutionStore
    const decisionStore: SQLiteDecisionStore?
    const disk: Disk

    /** Every durable state so far, the current one last. */
    ghost var history: seq<World>

    ghost const Repr: set<object?>

    ghost function Now(): World
      reads this, store, disk, decisionStore
    {
      World(store.log, if decisionStore == null then [] else decisionStore.decisions, disk.files)
    }

    ghost predicate Valid()
      reads this, store, disk, decisionStore
    {
      && store.Valid() && store.sha == config.sha
      && config.hasDecisions == (decisionStore != null)
      && Repr == {this, store, disk} + (if decisionStore == null then {} else {decisionStore})
      && history != [] && Last(history) == Now()
    }

    constructor (config: Config, store: SQLiteExecutionStore, decisionStore: SQLiteDecisionStore?, disk: Disk)
      requires store.Valid() && store.sha == config.sha && config.hasDecisions == (decisionStore != null)
      ensures Valid() && history == [Now()]
      ensures this.config == config && this.store == store && this.disk == disk
      ensures this.decisionStore == decisionStore
    {
      this.config := config;
      this.store := store;
      this.decisionStore := decisionStore;
      this.disk := disk;
      this.Repr := {this, store, disk} + (if decisionStore == null then {} else {decisionStore});
      this.history := [World(store.log, if decisionStore == null then [] else decisionStore.decisions, disk.files)];
    }

    /** Records the decision, when there is a decision store and an intent. */
    method RecordDecision(rq: Request, context: Option<Dict>) returns (recorded: bool)
      requires Valid() && context == EffectiveContext(rq)
      modifies Repr
      ensures Valid() && Now() == Decided(config, old(Now()), rq) && history == old(history) + [Now()]
      ensures recorded <==> !DecisionRefused(config, old(Now()), rq)
    {
      hide MakeDecision, RowsOf;
      recorded := true;
      if decisionStore != null && rq.intent.Some? {
        var previous := decisionStore.LastHash();
        var decision := MakeDecision(config.sha, rq.ids.decisionId, rq.envelope.actionId, rq.intent.value, context,
                                     rq.ids.time, previous);
        recorded := decisionStore.Record(decision, rq.verdicts.decisionOk);
      }
      history := history + [Now()];
    }

    /** Seals an event behind the last one and appends it. */
    method AppendSealed(draft: Event, ok: bool) returns (stored: bool)
      requires Valid()
      modifies Repr
      ensures Valid() && history == old(history) + [Now()]
      ensures Now() == old(Now()).(log := Appended(old(Now()).log,
                                                   Seal(config.sha, draft, LastSealed(old(Now()).log)), ok))
      ensures stored <==> ok && FreshEvent(old(Now()).log, draft.eventId)
    {
      hide Seal, RowsOf;
      var previous := store.LastHash();
      var e := Seal(config.sha, draft, previous);
      stored := store.Append(e, ok);
      history := history + [Now()];
    }

    /** Records the decision and the pending event; `None` when either append fails. */
    method PrepareExecution(rq: Request) returns (prepared: Option<(Option<string>, Option<string>)>)
      requires Valid()
      modifies Repr
      ensures Valid()
      ensures history == old(history) + PrepareStates(config, old(Now()), rq)
      ensures Now() == Last(PrepareStates(config, old(Now()), rq))
      ensures prepared == if Prepared(config, old(Now()), rq)
                          then Some((DecisionRef(config, rq), ContextRef(config, rq))) else None
    {
      hide Seal, RowsOf, CanonicalSerialize, TheDecision, FreshEvent, FreshDecision;
      ghost var w := Now();
      var context := if rq.context.Some? then rq.context else rq.ambient;
      var recorded := RecordDecision(rq, context);
      if !recorded { return None; }
      var decisionId: Option<string> := None;
      var contextRef: Option<string> := None;
      if decisionStore != null && rq.intent.Some? {
        decisionId := Some(rq.ids.decisionId);
        if context.Some? { contextRef := Some(config.sha(CanonicalSerialize(context.value))); }
      }
      var pending := Event(rq.ids.pendingId, rq.envelope.actionId, rq.ids.time, IntentPending, Some(rq.envelope),
        None, None, Some(NoEffect), None, None, "", rq.intent, decisionId, contextRef, None);
      assert pending == PendingDraft(config, rq);
      var stored := AppendSealed(pending, rq.verdicts.pendingOk);
      if !stored { return None; }
      return Some((decisionId, contextRef));
    }

    /** The second phase: the committed or failed event, which may fail to be stored. */
    method RecordClosing(rq: Request, decisionId: Option<string>, contextRef: Option<string>, eff: Effect)
      returns (stored: bool)
      requires Valid() && !eff.Uncaught?
      requires decisionId == DecisionRef(config, rq) && contextRef == ContextRef(config, rq)
      modifies Repr
      ensures Valid()
      ensures history == old(history) + [Closed(config, old(Now()), rq, eff)]
      ensures stored <==> ClosingStored(old(Now()).log, rq)
    {
      hide Seal, RowsOf, FreshEvent, Appended, DecisionRef, ContextRef;
      var draft := Event(rq.ids.closingId, rq.envelope.actionId, rq.ids.time,
        if eff.Done? then ExecutionCommitted else ExecutionFailed,
        Some(rq.envelope),
        if eff.Done? then Some(eff.resultDigest) else eff.failedDigest,
        if eff.Done? then None else Some(eff.errorDigest),
        if eff.Done? then Some(Confirmed) else Some(eff.observed),
        None, None, "", rq.intent, decisionId, contextRef, None);
      assert draft == ClosingDraft(config, rq, eff);
      stored := AppendSealed(draft, rq.verdicts.closingOk);
    }

    /** The gates and the first phase; `None` when the call ends here, rejected. */
    method Begin(rq: Request) returns (prepared: Option<(Option<string>, Option<string>)>)
      requires Valid()
      modifies Repr
      ensures Valid()
      ensures history == old(history) + GateStates(config, old(Now()), rq)
      ensures prepared == if Ran(config, old(Now()), rq) then Some((DecisionRef(config, rq), ContextRef(config, rq)))
                          else None
      ensures prepared.Some? ==> Now() == Started(config, old(Now()), rq)
    {
      hide RowsOf, DecisionRef, ContextRef, Prepared, PrepareStates, Started;
      PreparedLast(config, Now(), rq);
      if rq.policyDenies { return None; }
      if rq.boundaryDenies { return None; }
      prepared := PrepareExecution(rq);
    }

    /** The caller's result once the effect is known. */
    method Finish(rq: Request, refs: (Option<string>, Option<string>), eff: Effect) returns (answer: Outcome)
      requires Valid() && refs == (DecisionRef(config, rq), ContextRef(config, rq))
      modifies Repr
      ensures Valid()
      ensures history == old(history) + ClosingStates(config, old(Now()), rq, eff)
      ensures answer == ClosingAnswer(config, old(Now()), rq, eff)
    {
      hide RowsOf, Closed, DecisionRef, ContextRef, ClosingStored;
      match eff
      case Uncaught => answer := Escaped;
      case Failed(_, _, _) =>
        var _ := RecordClosing(rq, refs.0, refs.1, eff);
        answer := Returned(FAILURE);
      case Done(_) =>
        var stored := RecordClosing(rq, refs.0, refs.1, eff);
        answer := if stored then Returned(SUCCESS) else Returned(UNCONFIRMED);
    }

    /** Temporary file, sync, rename; on a failure the temporary file is removed if it can be. */
    method WriteAtomically(target: Path, temp: Path, plan: WritePlan) returns (renamed: bool)
      requires Valid() && temp != target
      modifies Repr
      ensures Valid()
      ensures var stages := WriteStages(old(Now()).files, target, temp, plan);
        && Now() == AfterEffect(old(Now()), stages)
        && history == old(history) + StageStates(old(Now()), stages)
      ensures renamed <==> Renames(old(Now()).files, target, temp, plan)
    {
      hide RowsOf, StageStates, AfterEffect;
      TwoStages(Now(), WriteStages(disk.files, target, temp, plan));
      var written := disk.WriteAndSync(temp, plan);
      history := history + [Now()];
      renamed := false;
      if written { renamed := disk.Replace(temp, target, plan); }
      if !renamed { disk.RemoveTemp(temp, plan); }
      history := history + [Now()];
    }

    /** Atomic write: temporary file, sync, rename. `request` is `None` when the caller passed no envelope. */
    method WriteFile(request: Option<Request>, plan: WritePlan) returns (answer: Outcome)
      requires Valid()
      modifies Repr
      ensures Valid()
      ensures request.None? ==> answer == EnvelopeRequired && history == old(history) && Now() == old(Now())
      ensures request.Some? ==>
                && answer == WriteFileAnswer(config, old(Now()), request.value, plan)
                && history == old(history) + WriteFileStates(config, old(Now()), request.value, plan)[1..]
    {
      hide RowsOf, Started, DecisionRef, ContextRef, Ran, GateStates, ClosingStates, ClosingAnswer;
      hide States, Answer, WriteStages, Renames, StageStates, AfterEffect;
      if request.None? { return EnvelopeRequired; }
      var rq := request.value;
      var target := config.resolve(rq.envelope.target);
      if !(config.workspace <= target) { return WorkspaceBoundary; }
      if Parent(target) !in disk.files { return Returned(REJECTED); }
      var temp := TempPath(target, rq.envelope.actionId);
      StatesAppended(config, Now(), rq, WriteStages(disk.files, target, temp, plan),
                     WriteEffect(config, disk.files, target, temp, plan), history);
      StartedFiles(config, Now(), rq);
      var prepared := Begin(rq);
      if prepared.None? { return Returned(REJECTED); }
      var renamed := WriteAtomically(target, temp, plan);
      answer := Finish(rq, prepared.value,
        if renamed then Done(config.sha(plan.content))
        else Failed(NoEffect, config.sha(Utf8.Encode(plan.error)), None));
    }

    /** Runs a process; its outcome and the files it leaves are the environment's choice. */
    method ExecuteShell(request: Option<Request>, o: ShellOutcome) returns (answer: Outcome)
      requires Valid()
      modifies Repr
      ensures Valid()
      ensures request.None? ==> answer == EnvelopeRequired && history == old(history) && Now() == old(Now())
      ensures request.Some? ==>
                && answer == Answer(config, old(Now()), request.value, ShellEffect(config, o))
                && history == old(history) + ShellStates(config, old(Now()), request.value, o)[1..]
    {
      hide RowsOf, Started, DecisionRef, ContextRef, Ran, GateStates, ClosingStates, ClosingAnswer;
      hide States, Answer, ShellEffect;
      if request.None? { return EnvelopeRequired; }
      var rq := request.value;
      StatesAppended(config, Now(), rq, ShellStages(o), ShellEffect(config, o), history);
      var prepared := Begin(rq);
      if prepared.None? { return Returned(REJECTED); }
      NoStage(Now());
      if !o.NotStarted? {
        OneStage(Now(), o.after);
        disk.LeftBy(o.after);
        history := history + [Now()];
      }
      answer := Finish(rq, prepared.value, ShellEffect(config, o));
    }

    /** Creates the missing prefixes of the target, the shortest first, as far as it gets. */
    method MakeDirectories(target: Path, plan: MkdirPlan) returns (made: bool)
      requires Valid()
      modifies Repr
      ensures Valid()
      ensures var stages := MkdirStages(old(Now()).files, target, plan);
        && Now() == AfterEffect(old(Now()), stages)
        && history == old(history) + StageStates(old(Now()), stages)
      ensures made <==> MkdirOk(old(Now()).files, target, plan)
    {
      hide RowsOf, Blocked, MakeDir;
      ghost var p, h, stages := Now(), history, MkdirStages(disk.files, target, plan);
      made := MkdirOk(disk.files, target, plan);
      var n := MkdirDepth(disk.files, target, plan);
      for k := 0 to n
        invariant Valid()
        invariant Now() == AfterEffect(p, stages[..k]) && disk.files == MakeDirs(p.files, target, k)
        invariant history == h + StageStates(p, stages[..k])
      {
        OneMoreStage(p, stages, k, h);
        disk.MakeDirectory(target[..k]);
        history := history + [Now()];
      }
      assert stages[..n] == stages;
    }

    method MakeDirectory(request: Option<Request>, plan: MkdirPlan) returns (answer: Outcome)
      requires Valid()
      modifies Repr
      ensures Valid()
      ensures request.None? ==> answer == EnvelopeRequired && history == old(history) && Now() == old(Now())
      ensures request.Some? ==>
                && answer == MkdirAnswer(config, old(Now()), request.value, plan)
                && history == old(history) + MkdirStates(config, old(Now()), request.value, plan)[1..]
    {
      hide RowsOf, Started, DecisionRef, ContextRef, Ran, GateStates, ClosingStates, ClosingAnswer;
      hide States, Answer, MkdirStages, MkdirOk, StageStates, AfterEffect;
      if request.None? { return EnvelopeRequired; }
      var rq := request.value;
      var target := config.resolve(rq.envelope.target);
      if !(config.workspace <= target) { return WorkspaceBoundary; }
      StatesAppended(config, Now(), rq, MkdirStages(disk.files, target, plan),
                     MkdirEffect(config, disk.files, target, plan), history);
      StartedFiles(config, Now(), rq);
      var prepared := Begin(rq);
      if prepared.None? { return Returned(REJECTED); }
      var made := MakeDirectories(target, plan);
      answer := Finish(rq, prepared.value,
        if made then Done(config.sha(Utf8.Encode(PathText(target))))
        else Failed(NoEffect, config.sha(Utf8.Encode(plan.error)), None));
    }

    /** A GET request; an exception outside the four that are caught escapes, leaving the pending event behind. */
    method HttpGet(request: Option<Request>, o: HttpOutcome) returns (answer: Outcome)
      requires Valid()
      modifies Repr
      ensures Valid()
      ensures request.None? ==> answer == EnvelopeRequired && history == old(history) && Now() == old(Now())
      ensures request.Some? ==>
                && answer == Answer(config, old(Now()), request.value, HttpEffect(config, o))
                && history == old(history) + HttpStates(config, old(Now()), request.value, o)[1..]
    {
      hide RowsOf, Started, DecisionRef, ContextRef, Ran, GateStates, ClosingStates, ClosingAnswer;
      hide States, Answer, HttpEffect;
      if request.None? { return EnvelopeRequired; }
      var rq := request.value;
      StatesAppended(config, Now(), rq, [], HttpEffect(config, o), history);
      var prepared := Begin(rq);
      if prepared.None? { return Returned(REJECTED); }
      NoStage(Now());
      answer := Finish(rq, prepared.value, HttpEffect(config, o));
    }
  }

  lemma StartedFiles(c: Config, w: World, rq: Request)
    ensures Started(c, w, rq).files == w.files
  {
    PreparedLast(c, w, rq);
  }

  lemma NoStage(p: World)
    ensures StageStates(p, []) == [] && AfterEffect(p, []) == p
  {}

  lemma OneStage(p: World, f: Files)
    ensures StageStates(p, [f]) == [p.(files := f)] && AfterEffect(p, [f]) == p.(files := f)
  {}

  lemma TwoStages(p: World, stages: seq<Files>)
    requires |stages| == 2
    ensures StageStates(p, stages) == [p.(files := stages[0]), p.(files := stages[1])]
    ensures AfterEffect(p, stages) == p.(files := stages[1])
  {}

  /** The next stage, appended to earlier states. */
  lemma OneMoreStage(p: World, stages: seq<Files>, k: nat, h: seq<World>)
    requires k < |stages|
    ensures h + StageStates(p, stages[..k + 1]) == h + StageStates(p, stages[..k]) + [p.(files := stages[k])]
    ensures AfterEffect(p, stages[..k + 1]) == p.(files := stages[k])
    ensures StageStates(p, stages[..0]) == []
  {}
}
