/** What one operation does, whatever fails and wherever it crashes. */
module Operations {
  import opened Prelude
  import opened Events
  import opened World

  /** The two files agree at `p`. */
  predicate SameAt(f: Files, g: Files, p: Path) {
    (p in f <==> p in g) && (p in f ==> f[p] == g[p])
  }

  /** The committed or failed event of a call whose pending event was just stored. */
  function CloseEvent(c: Config, w: World, rq: Request, eff: Effect): Event
    requires !eff.Uncaught?
  {
    ClosingEvent(c, w.log + [PendingEvent(c, w, rq)], rq, eff)
  }

  /** How far the records of one call got: nothing, the pending event, or both events. */
  ghost predicate LogShape(c: Config, w: World, rq: Request, eff: Effect, log: seq<Event>) {
    || log == w.log
    || log == w.log + [PendingEvent(c, w, rq)]
    || (!eff.Uncaught? && log == w.log + [PendingEvent(c, w, rq), CloseEvent(c, w, rq, eff)])
  }

  lemma DecidedLog(c: Config, w: World, rq: Request)
    ensures Decided(c, w, rq).log == w.log && Decided(c, w, rq).files == w.files
    ensures Prepared(c, w, rq) ==> Started(c, w, rq) == Decided(c, w, rq).(log := w.log + [PendingEvent(c, w, rq)])
    ensures !Prepared(c, w, rq) && !DecisionRefused(c, w, rq) ==> Started(c, w, rq) == Decided(c, w, rq)
  {
    hide Seal, TheDecision, DecisionRef, ContextRef;
  }

  lemma SealedId(c: Config, log: seq<Event>, rq: Request, eff: Effect)
    requires !eff.Uncaught?
    ensures ClosingEvent(c, log, rq, eff).eventId == rq.ids.closingId
  {}

  lemma ClosedShape(c: Config, w: World, p: World, rq: Request, eff: Effect)
    requires !eff.Uncaught? && p.log == w.log + [PendingEvent(c, w, rq)]
    ensures Closed(c, p, rq, eff).files == p.files && Closed(c, p, rq, eff).decisions == p.decisions
    ensures ClosingStored(p.log, rq) ==>
              Closed(c, p, rq, eff).log == w.log + [PendingEvent(c, w, rq), CloseEvent(c, w, rq, eff)]
    ensures !ClosingStored(p.log, rq) ==> Closed(c, p, rq, eff).log == p.log
  {
    SealedId(c, p.log, rq, eff);
    hide Seal, PendingEvent, ClosingEvent;
    assert w.log + [PendingEvent(c, w, rq)] + [CloseEvent(c, w, rq, eff)]
        == w.log + [PendingEvent(c, w, rq), CloseEvent(c, w, rq, eff)];
  }

  /** The states of a call that never reached its side effect. */
  lemma IdleStates(c: Config, w: World, rq: Request, stages: seq<Files>, eff: Effect)
    requires !Ran(c, w, rq)
    ensures forall s :: s in States(c, w, rq, stages, eff) ==> s.log == w.log && s.files == w.files
  {
    DecidedLog(c, w, rq);
    hide Decided, WithPending, Prepared, DecisionRefused, EffectStates;
  }

  /** The first three states of a call that reached its side effect, and what follows them. */
  lemma RanParts(c: Config, w: World, rq: Request, stages: seq<Files>, eff: Effect)
    requires Ran(c, w, rq)
    ensures States(c, w, rq, stages, eff)
         == [w, Decided(c, w, rq), Started(c, w, rq)]
            + (StageStates(Started(c, w, rq), stages)
               + ClosingStates(c, AfterEffect(Started(c, w, rq), stages), rq, eff))
  {
    hide Decided, WithPending, ClosingStates, AfterEffect, DecisionRefused, PendingStored;
  }

  /** The second phase closes the record or leaves it open. */
  lemma ClosingShape(c: Config, w: World, p: World, rq: Request, stages: seq<Files>, eff: Effect)
    requires p.log == w.log + [PendingEvent(c, w, rq)]
    ensures var s := ClosingStates(c, AfterEffect(p, stages), rq, eff);
      && |s| == (if eff.Uncaught? then 0 else 1)
      && (!eff.Uncaught? ==>
            && s[0].files == (if stages == [] then p.files else Last(stages))
            && s[0].log == if ClosingStored(p.log, rq)
                           then w.log + [PendingEvent(c, w, rq), CloseEvent(c, w, rq, eff)] else p.log)
  {
    hide PendingEvent, CloseEvent, ClosingStored, Closed;
    if !eff.Uncaught? { ClosedShape(c, w, AfterEffect(p, stages), rq, eff); }
  }

  /** The states of a call that reached its side effect, by position: the log stays `pending` from the third state on,
      until it becomes `final`, if there is a second phase. */
  ghost predicate Layout(s: seq<World>, w: World, pending: seq<Event>, stages: seq<Files>, final: Option<seq<Event>>) {
    var n := |stages|;
    && |s| == 3 + n + (if final.None? then 0 else 1)
    && s[0] == w && s[1].log == w.log && s[1].files == w.files
    && s[2].log == pending && s[2].files == w.files
    && (forall k :: 3 <= k < 3 + n ==> s[k].log == pending && s[k].files == stages[k - 3])
    && (final.Some? ==> s[3 + n].log == final.value && s[3 + n].files == if n == 0 then w.files else stages[n - 1])
  }

  lemma LaidOut(w: World, d: World, p: World, stages: seq<Files>, closing: seq<World>, final: Option<seq<Event>>)
    requires d.log == w.log && d.files == p.files == w.files
    requires |closing| == (if final.None? then 0 else 1)
    requires final.Some? ==>
               closing[0].log == final.value && closing[0].files == if stages == [] then p.files else Last(stages)
    ensures Layout([w, d, p] + (StageStates(p, stages) + closing), w, p.log, stages, final)
  {}

  /** What the second phase makes of the log. */
  function FinalLog(c: Config, w: World, rq: Request, eff: Effect): Option<seq<Event>> {
    if eff.Uncaught? then None
    else if ClosingStored(w.log + [PendingEvent(c, w, rq)], rq)
    then Some(w.log + [PendingEvent(c, w, rq), CloseEvent(c, w, rq, eff)])
    else Some(w.log + [PendingEvent(c, w, rq)])
  }

  lemma RanStates(c: Config, w: World, rq: Request, stages: seq<Files>, eff: Effect)
    requires Ran(c, w, rq)
    ensures Layout(States(c, w, rq, stages, eff), w, w.log + [PendingEvent(c, w, rq)], stages, FinalLog(c, w, rq, eff))
  {
    var d, p := Decided(c, w, rq), Started(c, w, rq);
    DecidedLog(c, w, rq);
    RanParts(c, w, rq, stages, eff);
    ClosingShape(c, w, p, rq, stages, eff);
    hide Decided, Started, PendingEvent, CloseEvent, ClosingStored, States, ClosingStates, Prepared, Layout;
    LaidOut(w, d, p, stages, ClosingStates(c, AfterEffect(p, stages), rq, eff), FinalLog(c, w, rq, eff));
  }

  /** In every state of a call the log is the old one, followed by none, the first or both of its events. */
  lemma Shape(c: Config, w: World, rq: Request, stages: seq<Files>, eff: Effect, k: nat)
    requires k < |States(c, w, rq, stages, eff)|
    ensures LogShape(c, w, rq, eff, States(c, w, rq, stages, eff)[k].log)
  {
    hide States, PendingEvent, CloseEvent, Ran, ClosingStored;
    if Ran(c, w, rq) {
      RanStates(c, w, rq, stages, eff);
    } else {
      IdleStates(c, w, rq, stages, eff);
      assert States(c, w, rq, stages, eff)[k] in States(c, w, rq, stages, eff);
    }
  }

  // ----- the atomic write -----

  /** The rename of this call took place. */
  predicate WriteLands(c: Config, w: World, rq: Request, plan: WritePlan) {
    WriteAdmitted(c, w, rq) && Ran(c, w, rq) && Renames(w.files, Target(c, rq), Temp(c, rq), plan)
  }

  /** The positions of the states after the temporary file, after the rename, and after the second record. */
  const AFTER_TEMP := 3
  const AFTER_RENAME := 4
  const AFTER_CLOSING := 5

  lemma WriteStagesShape(files: Files, target: Path, temp: Path, plan: WritePlan)
    requires temp != target
    ensures forall p :: p != temp ==> SameAt(WriteStages(files, target, temp, plan)[0], files, p)
    ensures forall p :: p != temp && p != target ==> SameAt(WriteStages(files, target, temp, plan)[1], files, p)
    ensures Renames(files, target, temp, plan) ==>
              temp !in WriteStages(files, target, temp, plan)[1]
              && target in WriteStages(files, target, temp, plan)[1]
              && WriteStages(files, target, temp, plan)[1][target] == File(plan.content)
    ensures !Renames(files, target, temp, plan) ==> SameAt(WriteStages(files, target, temp, plan)[1], files, target)
  {}

  /** Crash safety: in every durable state of a write, the target is wholly old, or wholly new and then only after
      the rename; no path but the target and the temporary one differs; and nothing at all differs before the
      pending event is stored. */
  lemma CrashSafe(c: Config, w: World, rq: Request, plan: WritePlan, k: nat)
    requires k < |WriteFileStates(c, w, rq, plan)|
    ensures var s := WriteFileStates(c, w, rq, plan)[k];
      var target := Target(c, rq);
      && (forall p :: p != target && p != Temp(c, rq) ==> SameAt(s.files, w.files, p))
      && (if WriteLands(c, w, rq, plan) && k >= AFTER_RENAME
          then target in s.files && s.files[target] == File(plan.content) && Temp(c, rq) !in s.files
          else SameAt(s.files, w.files, target))
      && (s.files != w.files ==> PendingEvent(c, w, rq) in s.log)
  {
    hide Renames, States, WriteStages, Ran, PendingEvent, CloseEvent, ClosingStored, WriteEffect;
    WriteStagesShape(w.files, Target(c, rq), Temp(c, rq), plan);
    var stages := WriteStages(w.files, Target(c, rq), Temp(c, rq), plan);
    var eff := WriteEffect(c, w.files, Target(c, rq), Temp(c, rq), plan);
    if WriteAdmitted(c, w, rq) {
      if Ran(c, w, rq) {
        RanStates(c, w, rq, stages, eff);
      } else {
        IdleStates(c, w, rq, stages, eff);
        assert WriteFileStates(c, w, rq, plan)[k] in States(c, w, rq, stages, eff);
      }
    }
  }

  /** After a failed write no temporary file stays behind, if it can be removed. */
  lemma CleanedUp(files: Files, target: Path, temp: Path, plan: WritePlan)
    requires !Renames(files, target, temp, plan) && plan.unlinkOk
    ensures !IsFile(WriteStages(files, target, temp, plan)[1], temp)
  {}

  /** The result of an uninterrupted write fixes which events were appended and what became of the target. */
  lemma WriteResult(c: Config, w: World, rq: Request, plan: WritePlan)
    ensures var s := Last(WriteFileStates(c, w, rq, plan));
      var eff := WriteEffect(c, w.files, Target(c, rq), Temp(c, rq), plan);
      var pending := PendingEvent(c, w, rq);
      match WriteFileAnswer(c, w, rq, plan)
      case Returned(SUCCESS) =>
        && s.log == w.log + [pending, CloseEvent(c, w, rq, eff)]
        && CloseEvent(c, w, rq, eff).kind.ExecutionCommitted?
        && CloseEvent(c, w, rq, eff).resultDigest == Some(c.sha(plan.content))
        && Target(c, rq) in s.files && s.files[Target(c, rq)] == File(plan.content) && Temp(c, rq) !in s.files
      case Returned(UNCONFIRMED) =>
        && s.log == w.log + [pending]
        && Target(c, rq) in s.files && s.files[Target(c, rq)] == File(plan.content) && Temp(c, rq) !in s.files
      case Returned(FAILURE) =>
        && (s.log == w.log + [pending]
            || (s.log == w.log + [pending, CloseEvent(c, w, rq, eff)]
                && CloseEvent(c, w, rq, eff).kind.ExecutionFailed?))
        && SameAt(s.files, w.files, Target(c, rq))
        && (plan.unlinkOk ==> !IsFile(s.files, Temp(c, rq)))
      case Returned(REJECTED) => s.log == w.log && s.files == w.files
      case WorkspaceBoundary => s == w
      case _ => false
  {
    hide Renames, States, WriteStages, PendingEvent, CloseEvent, ClosingStored, Decided, WithPending, Prepared;
    var n := |WriteFileStates(c, w, rq, plan)|;
    var stages := WriteStages(w.files, Target(c, rq), Temp(c, rq), plan);
    var eff := WriteEffect(c, w.files, Target(c, rq), Temp(c, rq), plan);
    CrashSafe(c, w, rq, plan, n - 1);
    if !Renames(w.files, Target(c, rq), Temp(c, rq), plan) && plan.unlinkOk {
      CleanedUp(w.files, Target(c, rq), Temp(c, rq), plan);
    }
    CloseKind(c, w, rq, eff);
    DecidedLog(c, w, rq);
    if WriteAdmitted(c, w, rq) {
      if Ran(c, w, rq) {
        RanStates(c, w, rq, stages, eff);
      } else {
        IdleStates(c, w, rq, stages, eff);
        assert Last(States(c, w, rq, stages, eff)) in States(c, w, rq, stages, eff);
      }
    }
  }

  /** The result of any uninterrupted call fixes which events were appended and what the closing one tells. */
  lemma CallResult(c: Config, w: World, rq: Request, stages: seq<Files>, eff: Effect)
    ensures var s := Last(States(c, w, rq, stages, eff));
      var pending := PendingEvent(c, w, rq);
      match Answer(c, w, rq, eff)
      case Returned(SUCCESS) =>
        && eff.Done? && s.log == w.log + [pending, CloseEvent(c, w, rq, eff)]
        && Tells(CloseEvent(c, w, rq, eff), ExecutionCommitted, Confirmed, None, Some(eff.resultDigest))
      case Returned(UNCONFIRMED) => eff.Done? && s.log == w.log + [pending]
      case Returned(FAILURE) =>
        && eff.Failed?
        && (s.log == w.log + [pending]
            || (s.log == w.log + [pending, CloseEvent(c, w, rq, eff)]
                && Tells(CloseEvent(c, w, rq, eff), ExecutionFailed, eff.observed, Some(eff.errorDigest),
                         eff.failedDigest)))
      case Returned(REJECTED) => s.log == w.log && s.files == w.files
      case Escaped => eff.Uncaught? && s.log == w.log + [pending]
      case _ => false
  {
    hide States, PendingEvent, CloseEvent, ClosingStored, Decided, WithPending, Prepared, Tells;
    DecidedLog(c, w, rq);
    if !eff.Uncaught? { CloseTells(c, w, rq, eff); }
    if Ran(c, w, rq) {
      RanStates(c, w, rq, stages, eff);
    } else {
      IdleStates(c, w, rq, stages, eff);
      assert Last(States(c, w, rq, stages, eff)) in States(c, w, rq, stages, eff);
    }
  }

  /** What a closing event says about the effect. */
  predicate Tells(e: Event, kind: EventType, observed: SideEffect, error: Option<string>, digest: Option<string>) {
    e.kind == kind && e.sideEffect == Some(observed) && e.errorDigest == error && e.resultDigest == digest
  }

  lemma CloseTells(c: Config, w: World, rq: Request, eff: Effect)
    requires !eff.Uncaught?
    ensures eff.Done? ==>
              Tells(CloseEvent(c, w, rq, eff), ExecutionCommitted, Confirmed, None, Some(eff.resultDigest))
    ensures eff.Failed? ==>
              Tells(CloseEvent(c, w, rq, eff), ExecutionFailed, eff.observed, Some(eff.errorDigest), eff.failedDigest)
  {}

  lemma CloseKind(c: Config, w: World, rq: Request, eff: Effect)
    requires !eff.Uncaught?
    ensures var e := CloseEvent(c, w, rq, eff);
      && e.recordId == PendingEvent(c, w, rq).recordId == rq.envelope.actionId
      && e.envelope == PendingEvent(c, w, rq).envelope == Some(rq.envelope)
      && e.kind == (if eff.Done? then ExecutionCommitted else ExecutionFailed)
      && (eff.Done? ==> e.resultDigest == Some(eff.resultDigest))
      && PendingEvent(c, w, rq).kind == IntentPending
      && e.decisionRef == PendingEvent(c, w, rq).decisionRef && e.contextRef == PendingEvent(c, w, rq).contextRef
      && e.intent == PendingEvent(c, w, rq).intent
  {}

  // ----- the directory, which is not atomic -----

  lemma {:induction false} MakeDirsAlone(files: Files, target: Path, n: nat)
    requires n <= |target| + 1
    ensures MakeDirs(files, target, n) == files <==> forall k :: 0 <= k < n ==> target[..k] in files
  {
    if n == 0 {
    } else {
      MakeDirsAlone(files, target, n - 1);
      var before := MakeDirs(files, target, n - 1);
      assert target[..n - 1] in MakeDirs(files, target, n);
      if target[..n - 1] in files { assert MakeDirs(files, target, n) == before; }
    }
  }

  /** What is created are directories at prefixes of the target, the shortest `n` of them. */
  lemma {:induction false} MakeDirsShape(files: Files, target: Path, n: nat)
    requires n <= |target| + 1
    ensures var after := MakeDirs(files, target, n);
      && (forall p :: p in after && p !in files ==> p <= target && |p| < n)
      && (forall k :: 0 <= k < n ==> target[..k] in after)
  {
    if n == 0 {
    } else {
      MakeDirsShape(files, target, n - 1);
    }
  }

  /** In every durable state of a mkdir, what was there is still there, what is new are directories at or above the
      target, and nothing is new before the pending event is stored. */
  lemma MkdirSafe(c: Config, w: World, rq: Request, plan: MkdirPlan, k: nat)
    requires k < |MkdirStates(c, w, rq, plan)|
    ensures var s := MkdirStates(c, w, rq, plan)[k];
      && (forall p :: p in w.files ==> SameAt(s.files, w.files, p))
      && (forall p :: p in s.files && p !in w.files ==> s.files[p] == Dir && p <= Target(c, rq))
      && (s.files != w.files ==> PendingEvent(c, w, rq) in s.log)
  {
    hide States, Ran, PendingEvent, CloseEvent, ClosingStored, MkdirEffect, MakeDirs;
    var stages := MkdirStages(w.files, Target(c, rq), plan);
    var eff := MkdirEffect(c, w.files, Target(c, rq), plan);
    forall i | 0 <= i < |stages| ensures forall p :: p in stages[i] && p !in w.files ==> p <= Target(c, rq) {
      MakeDirsShape(w.files, Target(c, rq), i + 1);
    }
    if InWorkspace(c, Target(c, rq)) {
      if Ran(c, w, rq) {
        RanStates(c, w, rq, stages, eff);
      } else {
        IdleStates(c, w, rq, stages, eff);
        assert MkdirStates(c, w, rq, plan)[k] in States(c, w, rq, stages, eff);
      }
    }
  }

  /** A mkdir that is not refused leaves a directory at the target and at everything above it. */
  lemma MkdirDone(c: Config, w: World, rq: Request, plan: MkdirPlan)
    requires MkdirAnswer(c, w, rq, plan) in {Returned(SUCCESS), Returned(UNCONFIRMED)}
    ensures var s := Last(MkdirStates(c, w, rq, plan));
      forall k :: 0 <= k <= |Target(c, rq)| ==> IsDir(s.files, Target(c, rq)[..k])
  {
    hide States, PendingEvent, CloseEvent, ClosingStored, MakeDirs, Started;
    var target := Target(c, rq);
    var stages := MkdirStages(w.files, target, plan);
    RanStates(c, w, rq, stages, MkdirEffect(c, w.files, target, plan));
    hide Ran;
    assert MkdirOk(w.files, target, plan);
    MakeDirsShape(w.files, target, |target| + 1);
    forall k | 0 <= k <= |target| ensures IsDir(MakeDirs(w.files, target, |target| + 1), target[..k]) {
      assert !IsFile(w.files, target[..k]);
    }
  }

  /** No failure of mkdir changes the tree. */
  ghost predicate FailsCleanly(files: Files, target: Path) {
    forall plan :: !MkdirOk(files, target, plan) ==> AfterMkdir(files, target, plan) == files
  }

  /** A failing mkdir, unlike a failing write, may change the tree. It is certain not to precisely when a file is in the
      way, so that nothing can be created at all, or when everything above the target is there already. */
  lemma MkdirFailure(files: Files, target: Path)
    ensures FailsCleanly(files, target) <==>
              Blocked(files, target) || forall k :: 0 <= k < |target| ==> target[..k] in files
  {
    forall plan: MkdirPlan | !MkdirOk(files, target, plan)
      ensures AfterMkdir(files, target, plan) == files <==>
                forall k :: 0 <= k < MkdirDepth(files, target, plan) ==> target[..k] in files
    {
      MakeDirsAlone(files, target, MkdirDepth(files, target, plan));
    }
    hide Blocked, MakeDirs;
    if FailsCleanly(files, target) && !Blocked(files, target) {
      forall k | 0 <= k < |target| ensures target[..k] in files {
        var plan := MkdirPlan(false, k, "");
        assert AfterMkdir(files, target, plan) == files;
      }
    }
  }

  /** A mkdir that fails leaves behind what it got to create, and the event it records says that nothing happened. */
  lemma MkdirFailed(c: Config, w: World, rq: Request, plan: MkdirPlan)
    requires InWorkspace(c, Target(c, rq)) && Ran(c, w, rq) && !MkdirOk(w.files, Target(c, rq), plan)
    requires ClosingStored(w.log + [PendingEvent(c, w, rq)], rq)
    ensures var s := Last(MkdirStates(c, w, rq, plan));
      var e := CloseEvent(c, w, rq, MkdirEffect(c, w.files, Target(c, rq), plan));
      && MkdirAnswer(c, w, rq, plan) == Returned(FAILURE)
      && s.files == AfterMkdir(w.files, Target(c, rq), plan)
      && s.log == w.log + [PendingEvent(c, w, rq), e]
      && e.kind == ExecutionFailed && e.sideEffect == Some(NoEffect)
  {
    hide States, Ran, PendingEvent, CloseEvent, ClosingStored, MakeDirs, MkdirOk, MkdirDepth, Started;
    var stages, eff := MkdirStages(w.files, Target(c, rq), plan), MkdirEffect(c, w.files, Target(c, rq), plan);
    RanStates(c, w, rq, stages, eff);
    CloseTells(c, w, rq, eff);
    assert MakeDirs(w.files, Target(c, rq), 0) == w.files by { MakeNone(w.files, Target(c, rq)); }
  }

  lemma MakeNone(files: Files, target: Path)
    ensures MakeDirs(files, target, 0) == files
  {}

  /** A mkdir that creates `/a` and is then refused `/a/b`. */
  lemma HalfMade()
    ensures var files: Files := map[[] := Dir];
      var plan := MkdirPlan(false, 1, "permission denied");
      && !MkdirOk(files, ["a", "b"], plan)
      && AfterMkdir(files, ["a", "b"], plan) == map[[] := Dir, ["a"] := Dir]
  {
    var files: Files := map[[] := Dir];
    var p: Path := ["a", "b"];
    assert p[..0] == [] && p[..1] == ["a"];
    assert !Blocked(files, p);
    assert MakeDirs(files, p, 1) == files;
  }
}
