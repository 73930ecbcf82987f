/** What a reconciliation pass after a run says about each record and each file, against what really happened. */
module Diagnosis {
  import opened Prelude
  import opened HashChain
  import opened Events
  import opened Store
  import opened World
  import opened Reconcile
  import opened Operations
  import opened Runs
  import opened Records

  /** The step is a write whose rename took place before the crash, if there was one. */
  predicate Landed(c: Config, w: World, s: Step) {
    s.op.Write? && WriteLands(c, w, s.op.rq, s.op.write) && s.crash >= AFTER_RENAME
  }

  /** The step is a write that returned SUCCESS to its caller. */
  predicate Succeeded(c: Config, w: World, s: Step) {
    s.op.Write? && WriteFileAnswer(c, w, s.op.rq, s.op.write) == Returned(SUCCESS) && s.crash >= AFTER_CLOSING
  }

  /** The events of a write, by the state it stopped in. */
  lemma WriteAppends(c: Config, w: World, s: Step, es: seq<Event>)
    requires s.op.Write? && After(c, w, s).log == w.log + es
    ensures var rq, plan := s.op.rq, s.op.write;
      var eff := WriteEffect(c, w.files, Target(c, rq), Temp(c, rq), plan);
      es == if !WriteAdmitted(c, w, rq) || !Ran(c, w, rq) || s.crash < 2 then []
            else if s.crash >= AFTER_CLOSING && ClosingStored(w.log + [PendingEvent(c, w, rq)], rq)
            then [PendingEvent(c, w, rq), CloseEvent(c, w, rq, eff)]
            else [PendingEvent(c, w, rq)]
  {
    hide After, PendingEvent, CloseEvent, ClosingStored, WriteEffect, Ran, WriteAdmitted;
    WriteLog(c, w, s);
    assert es == After(c, w, s).log[|w.log|..];
  }

  /** The rename decides what a write can have put on record. */
  lemma LandedEvents(c: Config, w: World, s: Step, es: seq<Event>)
    requires s.op.Write? && After(c, w, s).log == w.log + es
    ensures Landed(c, w, s) ==> es != []
    ensures es != [] ==> es[0].envelope == Some(s.op.rq.envelope)
    ensures |es| == 2 ==>
              && es[1].envelope == Some(s.op.rq.envelope)
              && (if Landed(c, w, s)
                  then es[1].kind.ExecutionCommitted? && es[1].resultDigest == Some(c.sha(s.op.write.content))
                  else es[1].kind.ExecutionFailed?)
    ensures Succeeded(c, w, s) ==> Landed(c, w, s) && |es| == 2
  {
    hide After, PendingEvent, CloseEvent, ClosingStored, Renames, Ran, WriteAdmitted, WriteFileAnswer;
    var rq, plan := s.op.rq, s.op.write;
    var eff := WriteEffect(c, w.files, Target(c, rq), Temp(c, rq), plan);
    PendingKind(c, w, rq);
    CloseKind(c, w, rq, eff);
    WriteAppends(c, w, s, es);
    SuccessStored(c, w, rq, plan);
  }

  /** How far the log of a write got, by the state it stopped in. */
  lemma WriteLog(c: Config, w: World, s: Step)
    requires s.op.Write?
    ensures var rq, plan := s.op.rq, s.op.write;
      var pending := w.log + [PendingEvent(c, w, rq)];
      var eff := WriteEffect(c, w.files, Target(c, rq), Temp(c, rq), plan);
      After(c, w, s).log
      == if !WriteAdmitted(c, w, rq) || !Ran(c, w, rq) || s.crash < 2 then w.log
         else if s.crash >= AFTER_CLOSING && ClosingStored(pending, rq)
         then w.log + [PendingEvent(c, w, rq), CloseEvent(c, w, rq, eff)]
         else pending
  {
    hide PendingEvent, CloseEvent, WriteStages, WriteEffect, ClosingStored, Ran, States, WriteAdmitted;
    var rq, plan := s.op.rq, s.op.write;
    if WriteAdmitted(c, w, rq) {
      WriteEffectCaught(c, w.files, Target(c, rq), Temp(c, rq), plan);
      StatesLog(c, w, rq, WriteStages(w.files, Target(c, rq), Temp(c, rq), plan),
                WriteEffect(c, w.files, Target(c, rq), Temp(c, rq), plan), s.crash);
    }
  }

  lemma WriteEffectCaught(c: Config, files: Files, target: Path, temp: Path, plan: WritePlan)
    ensures !WriteEffect(c, files, target, temp, plan).Uncaught?
  {}

  lemma StatesLog(c: Config, w: World, rq: Request, stages: seq<Files>, eff: Effect, crash: nat)
    requires |stages| == 2 && !eff.Uncaught?
    ensures var states := States(c, w, rq, stages, eff);
      var pending := w.log + [PendingEvent(c, w, rq)];
      states[Stop(states, crash)].log
      == if !Ran(c, w, rq) || crash < 2 then w.log
         else if crash >= AFTER_CLOSING && ClosingStored(pending, rq)
         then w.log + [PendingEvent(c, w, rq), CloseEvent(c, w, rq, eff)]
         else pending
  {
    hide PendingEvent, CloseEvent, ClosingStored, Ran, States;
    var states := States(c, w, rq, stages, eff);
    if Ran(c, w, rq) {
      RanStates(c, w, rq, stages, eff);
    } else {
      IdleStates(c, w, rq, stages, eff);
      assert states[Stop(states, crash)] in states;
    }
  }

  lemma SuccessStored(c: Config, w: World, rq: Request, plan: WritePlan)
    ensures WriteFileAnswer(c, w, rq, plan) == Returned(SUCCESS) ==>
              WriteLands(c, w, rq, plan) && ClosingStored(w.log + [PendingEvent(c, w, rq)], rq)
  {
    DecidedLog(c, w, rq);
    hide PendingEvent, WithPending, Decided, ClosingStored, Prepared, Renames;
  }

  // ----- what stays at a path -----

  /** Step `j` of the run leaves what is at `p`. */
  ghost predicate Untouched(c: Config, w: World, steps: seq<Step>, j: nat, p: Path)
    requires j < |steps|
  {
    SameAt(Run(c, w, steps[..j + 1]).files, Run(c, w, steps[..j]).files, p)
  }

  lemma {:induction false} UntouchedRange(c: Config, w: World, steps: seq<Step>, a: nat, b: nat, p: Path)
    requires a <= b <= |steps| && forall j :: a <= j < b ==> Untouched(c, w, steps, j, p)
    ensures SameAt(Run(c, w, steps[..b]).files, Run(c, w, steps[..a]).files, p)
    decreases b
  {
    hide Run;
    if a == b {
    } else {
      UntouchedRange(c, w, steps, a, b - 1, p);
      assert Untouched(c, w, steps, b - 1, p);
    }
  }

  lemma TempIsTemporary(target: Path, rid: string)
    ensures IsTemporary(TempPath(target, rid))
  {
    var n, mark := Name(target), ".tmp.";
    var s := n + mark + rid;
    assert s[|n|..|n| + |mark|] == mark;
    assert OccursAt(s, mark, |n|);
  }

  /** Operations that touch files only through the proxy. */
  predicate Quiet(op: Op) { !op.Shell? && !op.Foreign? }

  lemma StateFiles(c: Config, w: World, rq: Request, stages: seq<Files>, eff: Effect, k: nat)
    requires k < |States(c, w, rq, stages, eff)|
    ensures States(c, w, rq, stages, eff)[k].files == w.files || States(c, w, rq, stages, eff)[k].files in stages
  {
    hide States, PendingEvent, CloseEvent, Ran, ClosingStored;
    if Ran(c, w, rq) {
      RanStates(c, w, rq, stages, eff);
    } else {
      IdleStates(c, w, rq, stages, eff);
      assert States(c, w, rq, stages, eff)[k] in States(c, w, rq, stages, eff);
    }
  }

  /** What a step does to the file at a path: nothing, removing it, or leaving other data there. */
  datatype Fate = Kept | Removed | Left(data: Bytes)

  function FileAt(files: Files, p: Path): Option<Bytes> { if IsFile(files, p) then Some(files[p].data) else None }

  function Applied(f: Fate, before: Option<Bytes>): Option<Bytes> {
    match f
    case Kept => before
    case Removed => None
    case Left(data) => Some(data)
  }

  /** The data a write manages to put into its temporary file, if any. */
  function TempData(files: Files, temp: Path, plan: WritePlan): Option<Bytes> {
    if !IsDir(files, Parent(temp)) || IsDir(files, temp) then None
    else if plan.fault.WriteFails? then plan.fault.part
    else Some(plan.content)
  }

  /** What a write does to the path it uses as its temporary name: once past its gates it overwrites the file there and,
      unless it crashes in between or cannot remove it, takes it away again. */
  function TempFate(c: Config, w: World, s: Step): Fate
    requires s.op.Write?
  {
    var rq, plan := s.op.rq, s.op.write;
    var data := TempData(w.files, Temp(c, rq), plan);
    if !WriteAdmitted(c, w, rq) || !Ran(c, w, rq) || s.crash < AFTER_TEMP then Kept
    else if s.crash >= AFTER_RENAME && (Renames(w.files, Target(c, rq), Temp(c, rq), plan) || plan.unlinkOk)
    then Removed
    else if data.Some? then Left(data.value)
    else Kept
  }

  function FateAt(c: Config, w: World, s: Step, p: Path): Fate {
    if s.op.Write? && Temp(c, s.op.rq) == p then TempFate(c, w, s) else Kept
  }

  /** What a write leaves, by the state it stopped in. */
  lemma WriteFiles(c: Config, w: World, s: Step)
    requires s.op.Write?
    ensures var rq := s.op.rq;
      var stages := WriteStages(w.files, Target(c, rq), Temp(c, rq), s.op.write);
      After(c, w, s).files
      == if !WriteAdmitted(c, w, rq) || !Ran(c, w, rq) || s.crash < AFTER_TEMP then w.files
         else if s.crash < AFTER_RENAME then stages[0]
         else stages[1]
  {
    hide PendingEvent, WriteStages, WriteEffect, FinalLog, Ran, States, WriteAdmitted;
    var rq, plan := s.op.rq, s.op.write;
    if WriteAdmitted(c, w, rq) {
      WriteEffectCaught(c, w.files, Target(c, rq), Temp(c, rq), plan);
      StatesFiles(c, w, rq, WriteStages(w.files, Target(c, rq), Temp(c, rq), plan),
                  WriteEffect(c, w.files, Target(c, rq), Temp(c, rq), plan), s.crash);
    }
  }

  lemma StatesFiles(c: Config, w: World, rq: Request, stages: seq<Files>, eff: Effect, crash: nat)
    requires |stages| == 2 && !eff.Uncaught?
    ensures var states := States(c, w, rq, stages, eff);
      states[Stop(states, crash)].files
      == if !Ran(c, w, rq) || crash < AFTER_TEMP then w.files
         else if crash < AFTER_RENAME then stages[0]
         else stages[1]
  {
    hide PendingEvent, CloseEvent, ClosingStored, Ran, States;
    var states := States(c, w, rq, stages, eff);
    if Ran(c, w, rq) {
      RanStates(c, w, rq, stages, eff);
    } else {
      IdleStates(c, w, rq, stages, eff);
      assert states[Stop(states, crash)] in states;
    }
  }

  lemma StagesFate(files: Files, target: Path, temp: Path, plan: WritePlan)
    requires temp != target
    ensures var stages := WriteStages(files, target, temp, plan);
      var data := TempData(files, temp, plan);
      && FileAt(stages[0], temp) == (if data.Some? then data else FileAt(files, temp))
      && FileAt(stages[1], temp)
         == if Renames(files, target, temp, plan) || plan.unlinkOk then None else FileAt(stages[0], temp)
  {}

  lemma OtherFate(files: Files, target: Path, temp: Path, plan: WritePlan, p: Path)
    requires p != temp && temp != target
    ensures var stages := WriteStages(files, target, temp, plan);
      && FileAt(stages[0], p) == FileAt(files, p)
      && (p != target || !Renames(files, target, temp, plan) ==> FileAt(stages[1], p) == FileAt(files, p))
  {
    WriteStagesShape(files, target, temp, plan);
    hide WriteStages, Renames;
    assert SameAt(WriteStages(files, target, temp, plan)[0], files, p);
  }

  lemma WriteFate(c: Config, w: World, s: Step, p: Path)
    requires s.op.Write? && !(Landed(c, w, s) && Target(c, s.op.rq) == p)
    ensures FileAt(After(c, w, s).files, p) == Applied(FateAt(c, w, s, p), FileAt(w.files, p))
  {
    hide After, Ran, WriteAdmitted, WriteStages, Renames, TempData, FileAt, Target, Temp;
    var rq, plan := s.op.rq, s.op.write;
    TempElsewhere(c, rq);
    WriteFiles(c, w, s);
    if p == Temp(c, rq) {
      StagesFate(w.files, Target(c, rq), Temp(c, rq), plan);
    } else {
      OtherFate(w.files, Target(c, rq), Temp(c, rq), plan, p);
    }
  }

  lemma TempElsewhere(c: Config, rq: Request)
    ensures Temp(c, rq) != Target(c, rq)
  {}

  /** Between two renames onto it, the file at a path only changes when a write uses that path as its temporary name. */
  lemma StepFate(c: Config, w: World, s: Step, p: Path)
    requires Quiet(s.op) && !(Landed(c, w, s) && Target(c, s.op.rq) == p)
    ensures FileAt(After(c, w, s).files, p) == Applied(FateAt(c, w, s, p), FileAt(w.files, p))
  {
    hide States, TempFate;
    match s.op
    case Write(_, _) => WriteFate(c, w, s, p);
    case Mkdir(rq, plan) =>
      var k := Stop(OpStates(c, w, s.op), s.crash);
      if InWorkspace(c, Target(c, rq)) {
        StateFiles(c, w, rq, MkdirStages(w.files, Target(c, rq), plan),
                   MkdirEffect(c, w.files, Target(c, rq), plan), k);
      }
    case Get(rq, o) => StateFiles(c, w, rq, [], HttpEffect(c, o), Stop(OpStates(c, w, s.op), s.crash));
    case Pass(_, _, _) => PassObserves(c, w, s);
    case _ =>
  }

  /** What the steps after step `i` did to the file at the path: the last of them that did anything decides. */
  function LaterFate(c: Config, w: World, steps: seq<Step>, i: nat, p: Path): Fate
    requires i < |steps|
    decreases |steps|
  {
    var n := |steps| - 1;
    if n == i then Kept
    else if FateAt(c, Run(c, w, steps[..n]), steps[n], p).Kept? then LaterFate(c, w, steps[..n], i, p)
    else FateAt(c, Run(c, w, steps[..n]), steps[n], p)
  }

  /** No step after step `i` is a write that uses the path as its temporary name. */
  ghost predicate NotATemp(c: Config, steps: seq<Step>, i: nat, p: Path) {
    forall k :: i < k < |steps| && steps[k].op.Write? ==> Temp(c, steps[k].op.rq) != p
  }

  lemma {:induction false} NotATempKept(c: Config, w: World, steps: seq<Step>, i: nat, p: Path)
    requires i < |steps| && (NotATemp(c, steps, i, p) || !IsTemporary(p))
    ensures LaterFate(c, w, steps, i, p).Kept?
    decreases |steps|
  {
    hide Run, TempFate, IsTemporary, Temp;
    var n := |steps| - 1;
    if n == i {
    } else {
      if NotATemp(c, steps, i, p) { assert NotATemp(c, steps[..n], i, p); }
      NotATempKept(c, w, steps[..n], i, p);
      if steps[n].op.Write? { TempOf(c, steps[n].op.rq); }
    }
  }

  lemma TempOf(c: Config, rq: Request)
    ensures IsTemporary(Temp(c, rq))
  {
    TempIsTemporary(Target(c, rq), rq.envelope.actionId);
  }

  /** Step `i` is the last rename onto its target, and what comes later touches files through the proxy only. */
  ghost predicate LastRename(c: Config, w: World, steps: seq<Step>, i: nat) {
    && i < |steps| && steps[i].op.Write? && Landed(c, Run(c, w, steps[..i]), steps[i])
    && forall k :: i < k < |steps| ==>
         Quiet(steps[k].op)
         && !(Landed(c, Run(c, w, steps[..k]), steps[k]) && Target(c, steps[k].op.rq) == Target(c, steps[i].op.rq))
  }

  /** The path holds what the last rename onto it put there, up to what later writes that use it as their temporary name
      did to it: the file stays precisely when none did anything, or the last that did left the same data. */
  lemma {:induction false} LastRenameStays(c: Config, w: World, steps: seq<Step>, i: nat)
    requires LastRename(c, w, steps, i)
    ensures var p := Target(c, steps[i].op.rq);
      FileAt(Run(c, w, steps).files, p) == Applied(LaterFate(c, w, steps, i, p), Some(steps[i].op.write.content))
    decreases |steps|
  {
    hide Run, After, Landed, FateAt, IsFile;
    var n := |steps| - 1;
    var before := Run(c, w, steps[..n]);
    OneStep(c, w, steps, n);
    assert steps[..n + 1] == steps;
    if i == n {
      LandedFile(c, before, steps[n]);
    } else {
      assert forall j :: 0 <= j < n ==> steps[..n][..j] == steps[..j];
      LastRenameStays(c, w, steps[..n], i);
      StepFate(c, before, steps[n], Target(c, steps[i].op.rq));
    }
  }

  lemma LandedFile(c: Config, w: World, s: Step)
    requires Landed(c, w, s)
    ensures s.op.Write?
    ensures FileAt(After(c, w, s).files, Target(c, s.op.rq)) == Some(s.op.write.content)
  {
    var rq, plan := s.op.rq, s.op.write;
    LandedLength(c, w, rq, plan);
    var k := Stop(WriteFileStates(c, w, rq, plan), s.crash);
    hide WriteFileStates, WriteLands, PendingEvent;
    CrashSafe(c, w, rq, plan, k);
  }

  lemma LandedLength(c: Config, w: World, rq: Request, plan: WritePlan)
    requires WriteLands(c, w, rq, plan)
    ensures |WriteFileStates(c, w, rq, plan)| == 6
  {
    hide States, PendingEvent, CloseEvent, ClosingStored, Prepared, WriteStages, Renames;
    RanStates(c, w, rq, WriteStages(w.files, Target(c, rq), Temp(c, rq), plan),
              WriteEffect(c, w.files, Target(c, rq), Temp(c, rq), plan));
  }

  // ----- pending records -----

  /** The confidence a pass gives to a write that was carried out. */
  function ExecutedConfidence(expected: Option<string>, actual: Option<Digest>): Token {
    if expected.None? || expected.value == "" || actual.None? then "0.85"
    else if expected.value == actual.value then "0.95"
    else "0.7"
  }

  lemma OwnPending(log: seq<Event>, e: Event)
    requires e in PendingEvents(log) && Lived(Own(log, e.recordId), e.recordId)
    ensures Own(log, e.recordId) == [e] && e.kind.IntentPending?
  {
    hide IsClosed;
    FilterMember(log, OpenIn(log));
    FilterMember(log, OwnedBy(e.recordId));
    var own := Own(log, e.recordId);
    assert e in own;
    if |own| == 2 { OwnCloses(log, own[1]); }
  }

  lemma OwnCloses(log: seq<Event>, e: Event)
    requires e in log && Closes(e.kind)
    ensures IsClosed(log, e.recordId)
  {}

  /** A record with one event has no other pending event, and no commit. */
  lemma OnlyEvent(log: seq<Event>, e: Event)
    requires e.kind.IntentPending? && Own(log, e.recordId) == [e]
    ensures forall x :: x in PendingEvents(log) && x.recordId == e.recordId ==> x == e
    ensures forall x :: x in CommittedEvents(log) ==> x.recordId != e.recordId
  {
    FilterMember(log, OwnedBy(e.recordId));
    FilterMember(log, OpenIn(log));
    FilterMember(log, IsCommitted);
    hide IsClosed, Filter;
    forall x | x in log && x.recordId == e.recordId && !x.kind.ReconciliationObserved? ensures x == e {
      assert OwnedBy(e.recordId)(x) && x in Own(log, e.recordId);
    }
  }

  lemma FindingSubject(c: Config, v: View, e: Event)
    requires e.envelope.Some?
    ensures PendingFinding(c, v, e).recordId == CommittedFinding(c, v, e).recordId == Some(e.recordId)
  {}

  /** The only finding of a pass about a record that got no further than its pending event. */
  lemma OnlyFinding(c: Config, v: View, log: seq<Event>, listing: seq<Path>, e: Event)
    requires e in PendingEvents(log) && e.kind.IntentPending? && Own(log, e.recordId) == [e] && e.envelope.Some?
    ensures forall g :: g in Report(c, v, log, listing) && g.recordId == Some(e.recordId) <==>
              g == PendingFinding(c, v, e)
  {
    OnlyEvent(log, e);
    LatestSubset(CommittedEvents(log));
    hide Own, PendingEvents, CommittedEvents, Latest, IsExternal, PendingFinding, CommittedFinding, Known;
    RecordFindings(c, v, PendingEvents(log));
    RecordFindings(c, v, Latest(CommittedEvents(log)));
    ExternalFindingsExact(c, v.files, Known(c, log), listing);
    FindingSubject(c, v, e);
    forall g | g in Report(c, v, log, listing) && g.recordId == Some(e.recordId) ensures g == PendingFinding(c, v, e) {
      if g in PendingFindings(c, v, PendingEvents(log)) {
        var x :| x in PendingEvents(log) && x.envelope.Some? && g == PendingFinding(c, v, x);
        FindingSubject(c, v, x);
      } else if g in CommittedFindings(c, v, Latest(CommittedEvents(log))) {
        var x :| x in Latest(CommittedEvents(log)) && x.envelope.Some? && g == CommittedFinding(c, v, x);
        FindingSubject(c, v, x);
      }
    }
  }

  /** The confidence a pass gives to a record it calls executed. */
  function ConfidenceFor(tool: string, expected: Option<string>, actual: Option<Digest>): Token {
    if tool == "shell.execute" then "0.7"
    else if !IsFilesystemTool(tool) then "0.5"
    else ExecutedConfidence(expected, actual)
  }

  /** Exact diagnosis: for a call of `write_file` with an id of its own, onto a target that no other step touches, a
      pass over the final files has one finding about the pending record. It says executed precisely when the rename
      took place, the target was already there, or the envelope names another tool than a filesystem one; so for
      filesystem tools the diagnosis is right for every target that starts absent. The confidence tells whether the
      expected digest matches what is there. */
  lemma ExactDiagnosis(c: Config, w: World, steps: seq<Step>, i: nat, v: View, listing: seq<Path>, e: Event)
    returns (f: Finding)
    requires w.log == [] && i < |steps| && steps[i].op.Write?
    requires UsedOnce(steps, steps[i].op.rq.envelope.actionId)
    requires var rq := steps[i].op.rq;
      && (forall j :: 0 <= j < |steps| && j != i ==> Untouched(c, w, steps, j, Target(c, rq)))
      && e in PendingEvents(Run(c, w, steps).log) && e.recordId == rq.envelope.actionId
    requires v.files == Run(c, w, steps).files
    ensures forall g :: g in Report(c, v, Run(c, w, steps).log, listing) && g.recordId == Some(e.recordId) <==> g == f
    ensures var rq, t := steps[i].op.rq, Target(c, steps[i].op.rq);
      var landed := Landed(c, Run(c, w, steps[..i]), steps[i]);
      var there := if landed then Some(steps[i].op.write.content) else FileAt(w.files, t);
      var seen := if t in v.unreadable || there.None? then None else Some(c.sha(there.value));
      && f.target == t
      && f.diagnosis in {PendingExecutedUnconfirmed, PendingNotExecuted}
      && (f.diagnosis.PendingExecutedUnconfirmed? <==>
            landed || t in w.files || !IsFilesystemTool(rq.envelope.tool))
      && f.confidence == if f.diagnosis.PendingNotExecuted? then "0.85"
                         else ConfidenceFor(rq.envelope.tool, rq.envelope.expectedResultDigest, seen)
  {
    hide Run, PendingEvents, Untouched, WriteLands, Report, Own;
    PendingIsFirst(c, w, steps, i, e);
    TargetFate(c, w, steps, i);
    f := PendingFinding(c, v, e);
    OnlyFinding(c, v, Run(c, w, steps).log, listing, e);
  }

  lemma TargetFate(c: Config, w: World, steps: seq<Step>, i: nat)
    requires i < |steps| && steps[i].op.Write?
    requires forall j :: 0 <= j < |steps| && j != i ==> Untouched(c, w, steps, j, Target(c, steps[i].op.rq))
    ensures var final := Run(c, w, steps).files;
      var t := Target(c, steps[i].op.rq);
      if Landed(c, Run(c, w, steps[..i]), steps[i])
      then t in final && final[t] == File(steps[i].op.write.content) else SameAt(final, w.files, t)
  {
    var before, n, t := Run(c, w, steps[..i]), |steps|, Target(c, steps[i].op.rq);
    assert steps[..n] == steps && steps[..0] == [] && Run(c, w, []) == w;
    hide After, Landed, Untouched, Run;
    UntouchedRange(c, w, steps, 0, i, t);
    UntouchedRange(c, w, steps, i + 1, n, t);
    OneStep(c, w, steps, i);
    if Landed(c, before, steps[i]) {
      LandedFile(c, before, steps[i]);
    } else {
      NotLandedFile(c, before, steps[i]);
    }
  }

  lemma NotLandedFile(c: Config, w: World, s: Step)
    requires s.op.Write? && !Landed(c, w, s)
    ensures SameAt(After(c, w, s).files, w.files, Target(c, s.op.rq))
  {
    var k := Stop(WriteFileStates(c, w, s.op.rq, s.op.write), s.crash);
    hide WriteFileStates, WriteLands, PendingEvent;
    CrashSafe(c, w, s.op.rq, s.op.write, k);
  }

  lemma PendingIsFirst(c: Config, w: World, steps: seq<Step>, i: nat, e: Event)
    requires w.log == [] && i < |steps| && steps[i].op.Write? && UsedOnce(steps, e.recordId)
    requires e in PendingEvents(Run(c, w, steps).log) && e.recordId == steps[i].op.rq.envelope.actionId
    ensures e.envelope == Some(steps[i].op.rq.envelope)
    ensures e.kind.IntentPending? && Own(Run(c, w, steps).log, e.recordId) == [e]
  {
    hide Run, After, PendingEvents, Own;
    RecordHistory(c, w, steps, i);
    RecordLived(c, w, steps, e.recordId);
    OwnPending(Run(c, w, steps).log, e);
    LandedEvents(c, Run(c, w, steps[..i]), steps[i], [e]);
  }

  // ----- committed records -----

  lemma {:induction false} LatestSubset(es: seq<Event>)
    ensures forall e :: e in Latest(es) ==> e in es
  {
    if es == [] {
    } else {
      LatestSubset(es[..|es| - 1]);
      assert es == es[..|es| - 1] + [es[|es| - 1]];
    }
  }

  lemma {:induction false} LatestMember(es: seq<Event>, e: Event)
    requires e in es && forall x :: x in es && x.recordId == e.recordId ==> x == e
    ensures e in Latest(es)
  {
    var n := |es| - 1;
    var u, x := es[..n], es[n];
    assert es == u + [x];
    var d := Latest(u);
    var k := Position(d, x.recordId, RecordKey());
    if x == e {
      assert Latest(es)[if k < |d| then k else |d|] == x;
    } else {
      LatestMember(u, e);
      var j :| 0 <= j < |d| && d[j] == e;
      assert j != k;
      assert Latest(es)[j] == e;
    }
  }

  /** The only commit of a record is the one a pass looks at. */
  lemma CommitKept(log: seq<Event>, e: Event)
    requires Lived(Own(log, e.recordId), e.recordId) && e in Own(log, e.recordId) && e.kind.ExecutionCommitted?
    ensures e in Latest(CommittedEvents(log))
  {
    var own := Own(log, e.recordId);
    FilterMember(log, IsCommitted);
    FilterMember(log, OwnedBy(e.recordId));
    forall x | x in CommittedEvents(log) && x.recordId == e.recordId ensures x == e {
      assert OwnedBy(e.recordId)(x);
      assert x in own;
    }
    hide Filter;
    LatestMember(CommittedEvents(log), e);
  }

  lemma OpenKept(log: seq<Event>, e: Event)
    requires Own(log, e.recordId) == [e] && e.kind.IntentPending?
    ensures e in PendingEvents(log)
  {
    NotYetClosed(log, e);
    FilterMember(log, OpenIn(log));
    FilterMember(log, OwnedBy(e.recordId));
    hide IsClosed, Filter;
    assert e in Own(log, e.recordId);
  }

  lemma OwnKnown(c: Config, log: seq<Event>, rid: string)
    requires var own := Own(log, rid);
      Lived(own, rid) && own != [] && own[0].envelope.Some? && (|own| == 2 ==> own[1].kind.ExecutionCommitted?)
    ensures var own := Own(log, rid);
      var e := own[|own| - 1];
      e.envelope.Some? && EventTarget(c, e) in Known(c, log)
  {
    hide Own, PendingEvents, CommittedEvents, Latest;
    var own := Own(log, rid);
    if |own| == 1 {
      assert own == [own[0]];
      OpenKept(log, own[0]);
    } else {
      CommitKept(log, own[1]);
    }
  }

  /** No file that `write_file` renamed into place is ever flagged as changed behind the proxy, as long as the action id
      of that call is its own. */
  lemma NeverFlagged(c: Config, w: World, steps: seq<Step>, i: nat, v: View, listing: seq<Path>)
    requires w.log == [] && i < |steps| && Landed(c, Run(c, w, steps[..i]), steps[i])
    requires UsedOnce(steps, steps[i].op.rq.envelope.actionId)
    requires Lists(c, v.files, listing)
    ensures !Flags(Report(c, v, Run(c, w, steps).log, listing), Target(c, steps[i].op.rq))
  {
    hide Run, After, Own, Landed, Report, CallEvents, Known, Flags, Lived;
    var log, before := Run(c, w, steps).log, Run(c, w, steps[..i]);
    LandedIsWrite(c, before, steps[i]);
    var rq := steps[i].op.rq;
    var rid := rq.envelope.actionId;
    RecordHistory(c, w, steps, i);
    RecordLived(c, w, steps, rid);
    LandedEvents(c, before, steps[i], Own(log, rid));
    assert |Own(log, rid)| <= 2 by { LivedShort(Own(log, rid), rid); }
    OwnKnown(c, log, rid);
    ExternalExact(c, v, log, listing, Target(c, rq));
  }

  lemma LivedShort(es: seq<Event>, rid: string)
    requires Lived(es, rid)
    ensures |es| <= 2
  {}

  lemma LandedIsWrite(c: Config, w: World, s: Step)
    requires Landed(c, w, s)
    ensures s.op.Write?
  {}

  // ----- which targets a log still knows -----

  /** The event is the last commit of its record. */
  ghost predicate LastCommit(log: seq<Event>, k: nat)
    requires k < |log|
  {
    && log[k].kind.ExecutionCommitted?
    && forall j :: k < j < |log| && log[j].kind.ExecutionCommitted? ==> log[j].recordId != log[k].recordId
  }

  lemma LastCommitSnoc(log: seq<Event>, x: Event)
    ensures var after := log + [x];
      && (LastCommit(after, |log|) <==> x.kind.ExecutionCommitted?)
      && forall k :: 0 <= k < |log| ==>
           (LastCommit(after, k) <==>
              LastCommit(log, k) && !(x.kind.ExecutionCommitted? && x.recordId == log[k].recordId))
  {
    var after := log + [x];
    assert forall j :: 0 <= j < |log| ==> after[j] == log[j];
    forall k | 0 <= k < |log| && LastCommit(after, k)
      ensures LastCommit(log, k) && !(x.kind.ExecutionCommitted? && x.recordId == log[k].recordId)
    {
      assert after[|log|] == x;
    }
  }

  /** A pass looks at the last commit of every record and at no other commit. */
  lemma {:induction false} LatestExact(log: seq<Event>, e: Event)
    ensures Keyed(Latest(CommittedEvents(log)), RecordKey())
    ensures e in Latest(CommittedEvents(log)) <==> exists k :: 0 <= k < |log| && log[k] == e && LastCommit(log, k)
  {
    if log == [] {
    } else {
      var n := |log| - 1;
      var u, x := log[..n], log[n];
      var d := Latest(CommittedEvents(u));
      assert log == u + [x];
      LatestExact(u, e);
      LastCommitSnoc(u, x);
      assert CommittedEvents(log) == CommittedEvents(u) + (if x.kind.ExecutionCommitted? then [x] else []);
      hide LastCommit, CommittedEvents, Keyed;
      if x.kind.ExecutionCommitted? {
        LatestSnoc(CommittedEvents(u), x);
        hide Latest;
        UpsertKeyed(d, x, RecordKey());
        UpsertMember(d, x, RecordKey());
        assert log[n] == x;
      }
      hide Latest;
      assert forall k :: 0 <= k < n ==> log[k] == u[k];
    }
  }

  lemma LatestSnoc(es: seq<Event>, x: Event)
    ensures Latest(es + [x]) == Upsert(Latest(es), x, RecordKey())
  {
    assert (es + [x])[..|es|] == es;
  }

  /** Nothing in the log that a pass looks at is about the path: every pending event for it is closed, and every commit
      for it is followed by another commit of the same record. */
  ghost predicate Forgotten(c: Config, log: seq<Event>, p: Path) {
    forall k :: 0 <= k < |log| && log[k].envelope.Some? && EventTarget(c, log[k]) == p ==>
      && (log[k].kind.IntentPending? ==> IsClosed(log, log[k].recordId))
      && !LastCommit(log, k)
  }

  lemma KnownExact(c: Config, log: seq<Event>, p: Path)
    ensures p in Known(c, log) <==> !Forgotten(c, log, p)
  {
    FilterMember(log, OpenIn(log));
    hide Latest, CommittedEvents, LastCommit, IsClosed, Filter, EventTarget;
    if p in Targets(c, PendingEvents(log)) {
      var e :| e in PendingEvents(log) && e.envelope.Some? && EventTarget(c, e) == p;
      var k :| 0 <= k < |log| && log[k] == e;
    }
    if p in Targets(c, Latest(CommittedEvents(log))) {
      var e :| e in Latest(CommittedEvents(log)) && e.envelope.Some? && EventTarget(c, e) == p;
      LatestExact(log, e);
    }
    if k :| 0 <= k < |log| && log[k].envelope.Some? && EventTarget(c, log[k]) == p
            && (LastCommit(log, k) || (log[k].kind.IntentPending? && !IsClosed(log, log[k].recordId))) {
      LatestExact(log, log[k]);
      assert log[k] in log;
    }
  }

  /** INV-1c over any run, whatever ids are reused: the target of a write that was renamed into place is flagged
      precisely when the file is still there, not temporary, and forgotten by the log; and that takes another call
      with the same action id. */
  lemma LandedFlagged(c: Config, w: World, steps: seq<Step>, i: nat, v: View, listing: seq<Path>)
    requires w.log == [] && i < |steps| && Landed(c, Run(c, w, steps[..i]), steps[i])
    requires Lists(c, v.files, listing)
    ensures var p := Target(c, steps[i].op.rq);
      var log := Run(c, w, steps).log;
      && (Flags(Report(c, v, log, listing), p) <==>
            c.workspace < p && IsFile(v.files, p) && !IsTemporary(p) && Forgotten(c, log, p))
      && (Flags(Report(c, v, log, listing), p) ==>
            exists j :: 0 <= j < |steps| && j != i && Acts(steps[j], steps[i].op.rq.envelope.actionId))
  {
    hide Run, Report, Known, Forgotten, IsTemporary, Flags, WriteLands;
    var p, log, rid := Target(c, steps[i].op.rq), Run(c, w, steps).log, steps[i].op.rq.envelope.actionId;
    ExternalExact(c, v, log, listing, p);
    KnownExact(c, log, p);
    if UsedOnce(steps, rid) { NeverFlagged(c, w, steps, i, v, listing); }
  }

  // ----- foreign files -----

  ghost predicate Sent(steps: seq<Step>, e: Event) {
    e.envelope.None? || exists s :: s in steps && s.op.IsCall() && Some(s.op.rq.envelope) == e.envelope
  }

  lemma CallSends(c: Config, w: World, op: Op, es: seq<Event>)
    requires op.IsCall() && CallEvents(c, w, op, es)
    ensures forall e :: e in es ==> e.envelope == Some(op.rq.envelope)
  {
    hide PendingEvent, CloseEvent, EffectOf;
    PendingKind(c, w, op.rq);
    if !EffectOf(c, w, op).Uncaught? { CloseKind(c, w, op.rq, EffectOf(c, w, op)); }
  }

  lemma StepSends(c: Config, w: World, s: Step, e: Event)
    requires e in After(c, w, s).log && e !in w.log
    ensures Sent([s], e) || e.kind.ReconciliationObserved?
  {
    hide After, CallEvents;
    if s.op.IsCall() {
      var es := CallAppends(c, w, s);
      CallSends(c, w, s.op, es);
      assert s in [s] && e in es;
    } else if s.op.Pass? {
      PassObserves(c, w, s);
    } else {
      ForeignStep(c, w, s);
    }
  }

  lemma {:induction false} RunSends(c: Config, w: World, steps: seq<Step>, e: Event)
    requires w.log == [] && e in Run(c, w, steps).log
    ensures Sent(steps, e) || e.kind.ReconciliationObserved?
  {
    hide After;
    if steps == [] {
    } else {
      var n := |steps| - 1;
      var before := Run(c, w, steps[..n]);
      if e in before.log {
        RunSends(c, w, steps[..n], e);
      } else {
        StepSends(c, before, steps[n], e);
      }
    }
  }

  /** Every file created behind the proxy is flagged: one that no call of the run had as its target. */
  lemma ForeignFlagged(c: Config, w: World, steps: seq<Step>, v: View, listing: seq<Path>, p: Path)
    requires w.log == [] && Lists(c, v.files, listing)
    requires forall s :: s in steps && s.op.IsCall() ==> Target(c, s.op.rq) != p
    requires c.workspace < p && IsFile(v.files, p) && !IsTemporary(p)
    ensures Flags(Report(c, v, Run(c, w, steps).log, listing), p)
  {
    hide Run, Report, Known, IsTemporary, Flags;
    var log := Run(c, w, steps).log;
    forall k | 0 <= k < |log| && log[k].envelope.Some? && EventTarget(c, log[k]) == p
      ensures log[k].kind.ReconciliationObserved?
    {
      RunSends(c, w, steps, log[k]);
    }
    KnownExact(c, log, p);
    ExternalExact(c, v, log, listing, p);
  }

  // ----- the last writer -----

  /** The commit of a write that returned SUCCESS is what a pass looks at. */
  lemma SuccessCommitted(c: Config, w: World, steps: seq<Step>, j: nat) returns (e: Event)
    requires w.log == [] && j < |steps| && Succeeded(c, Run(c, w, steps[..j]), steps[j])
    requires UsedOnce(steps, steps[j].op.rq.envelope.actionId)
    ensures e in Latest(CommittedEvents(Run(c, w, steps).log))
    ensures e.recordId == steps[j].op.rq.envelope.actionId && e.envelope == Some(steps[j].op.rq.envelope)
    ensures e.resultDigest == Some(c.sha(steps[j].op.write.content))
  {
    var rid := steps[j].op.rq.envelope.actionId;
    hide Run, After, Own, CallEvents, Latest, CommittedEvents, WriteFileAnswer, WriteLands;
    RecordHistory(c, w, steps, j);
    RecordLived(c, w, steps, rid);
    var own := Own(Run(c, w, steps).log, rid);
    LandedEvents(c, Run(c, w, steps[..j]), steps[j], own);
    e := own[1];
    CommitKept(Run(c, w, steps).log, e);
  }

  /** The last writer: after the last rename onto a path, with no foreign change later, every write to that path that
      returned SUCCESS is reported consistent precisely when the file that later temporary files left there can be read
      and has the digest of its content. */
  lemma LastWriter(c: Config, w: World, steps: seq<Step>, i: nat, j: nat, v: View, listing: seq<Path>)
    returns (f: Finding)
    requires w.log == [] && LastRename(c, w, steps, i)
    requires j < |steps| && Succeeded(c, Run(c, w, steps[..j]), steps[j])
    requires UsedOnce(steps, steps[j].op.rq.envelope.actionId)
    requires Target(c, steps[j].op.rq) == Target(c, steps[i].op.rq)
    requires v.files == Run(c, w, steps).files
    ensures f in Report(c, v, Run(c, w, steps).log, listing)
    ensures f.recordId == Some(steps[j].op.rq.envelope.actionId) && f.target == Target(c, steps[i].op.rq)
    ensures var p := Target(c, steps[i].op.rq);
      var left := Applied(LaterFate(c, w, steps, i, p), Some(steps[i].op.write.content));
      if p in v.unreadable || left.None? then f.diagnosis == CommittedDiverged && f.confidence == "0.8"
      else if c.sha(left.value) == c.sha(steps[j].op.write.content)
      then f.diagnosis == CommittedConsistent && f.confidence == "0.95"
      else f.diagnosis == CommittedDiverged && f.confidence == "0.75"
  {
    hide IsTemporary, Run, Landed, Succeeded, CommittedEvents, CommittedFindings, PendingFinding, Latest, LaterFate;
    hide PendingFindings, ExternalFindings, PendingEvents, Known, LastRename;
    LastRenameStays(c, w, steps, i);
    var e := SuccessCommitted(c, w, steps, j);
    var log := Run(c, w, steps).log;
    f := CommittedFinding(c, v, e);
    RecordFindings(c, v, Latest(CommittedEvents(log)));
    assert f in CommittedFindings(c, v, Latest(CommittedEvents(log)));
  }

  /** On a path that no later write uses as its temporary name, as every path without `.tmp.` in its name, consistent
      means the digest of the last write: the last writer itself is always reported consistent. */
  lemma LastWriterConsistent(c: Config, w: World, steps: seq<Step>, i: nat, j: nat, v: View, listing: seq<Path>)
    returns (f: Finding)
    requires w.log == [] && LastRename(c, w, steps, i)
    requires j < |steps| && Succeeded(c, Run(c, w, steps[..j]), steps[j])
    requires UsedOnce(steps, steps[j].op.rq.envelope.actionId)
    requires var p := Target(c, steps[i].op.rq);
      && Target(c, steps[j].op.rq) == p && p !in v.unreadable
      && (NotATemp(c, steps, i, p) || !IsTemporary(p))
    requires v.files == Run(c, w, steps).files
    ensures f in Report(c, v, Run(c, w, steps).log, listing)
    ensures f.recordId == Some(steps[j].op.rq.envelope.actionId)
    ensures f.diagnosis.CommittedConsistent? <==>
            c.sha(steps[j].op.write.content) == c.sha(steps[i].op.write.content)
  {
    hide Run, Landed, Succeeded, Report, LaterFate, NotATemp, IsTemporary;
    NotATempKept(c, w, steps, i, Target(c, steps[i].op.rq));
    f := LastWriter(c, w, steps, i, j, v, listing);
  }
}
