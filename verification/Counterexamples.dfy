/** Calls and runs that show why the conditions of the theorems about mkdir and about diagnoses are needed. */
module Counterexamples {
  import opened Prelude
  import opened Events
  import opened Store
  import opened World
  import opened Reconcile
  import opened Operations
  import opened Runs
  import opened Records
  import opened Diagnosis

  /** A write without intent or context that every gate and every database lets through. */
  function PlainRequest(actionId: string, target: string, pendingId: string, closingId: string): Request {
    Request(Envelope(actionId, "filesystem.write", target, "", None, "", [], None), None, None, None, false, false,
            Ids("", pendingId, closingId, ""), Verdicts(true, true, true))
  }

  /** A write of nothing that the file system lets through. */
  const PLAIN_PLAN := WritePlan([], NoFault, true, "")

  function PlainWrite(actionId: string, target: string, pendingId: string, closingId: string, crash: nat): Step {
    Step(Write(PlainRequest(actionId, target, pendingId, closingId), PLAIN_PLAN), crash)
  }

  /** The two files these runs write, below a workspace that is the whole tree. */
  predicate Setting(c: Config) { c.workspace == [] && c.resolve("/a") == ["a"] && c.resolve("/b") == ["b"] }

  const EMPTY_WORKSPACE := World([], [], map[[] := Dir])

  lemma PlainLands(c: Config, w: World, rq: Request)
    requires !Denied(rq) && rq.intent.None? && rq.verdicts.pendingOk && FreshEvent(w.log, rq.ids.pendingId)
    requires c.workspace == [] && |Target(c, rq)| == 1 && IsDir(w.files, [])
    requires !IsDir(w.files, Target(c, rq)) && !IsDir(w.files, Temp(c, rq))
    ensures WriteLands(c, w, rq, PLAIN_PLAN)
  {
    assert Parent(Target(c, rq)) == Parent(Temp(c, rq)) == [];
    assert Ran(c, w, rq) by { hide Renames; }
    hide Ran;
  }

  /** A pending event and a committed event of the request. */
  predicate PlainPair(rq: Request, p: Event, e: Event) {
    && p.eventId == rq.ids.pendingId && e.eventId == rq.ids.closingId
    && p.recordId == e.recordId == rq.envelope.actionId
    && p.envelope == e.envelope == Some(rq.envelope)
    && p.kind.IntentPending? && e.kind.ExecutionCommitted?
  }

  lemma PairOf(c: Config, w: World, rq: Request, eff: Effect)
    requires eff.Done?
    ensures PlainPair(rq, PendingEvent(c, w, rq), CloseEvent(c, w, rq, eff))
  {
    PendingKind(c, w, rq);
    CloseKind(c, w, rq, eff);
    SealedId(c, w.log + [PendingEvent(c, w, rq)], rq, eff);
  }

  /** The log after a write that the file system lets through. */
  lemma PlainLog(c: Config, w: World, s: Step) returns (p: Event, e: Event)
    requires s.op.Write? && WriteLands(c, w, s.op.rq, s.op.write) && s.crash >= 2
    ensures PlainPair(s.op.rq, p, e)
    ensures After(c, w, s).log == if s.crash >= AFTER_CLOSING && ClosingStored(w.log + [p], s.op.rq)
                                  then w.log + [p, e] else w.log + [p]
  {
    hide After, Renames, Ran, PendingEvent, CloseEvent, ClosingStored, PlainPair, WriteAdmitted;
    var rq := s.op.rq;
    var eff := WriteEffect(c, w.files, Target(c, rq), Temp(c, rq), s.op.write);
    WriteLog(c, w, s);
    PairOf(c, w, rq, eff);
    p, e := PendingEvent(c, w, rq), CloseEvent(c, w, rq, eff);
  }

  lemma RunOne(c: Config, w: World, s: Step)
    ensures Run(c, w, []) == w && Run(c, w, [s]) == After(c, w, s)
  {
    hide After;
    assert [s][..0] == [];
  }

  /** The temporary name is longer than the names of these runs. */
  lemma LongTemp(c: Config, rq: Request)
    requires |Target(c, rq)| == 1 && |Target(c, rq)[0]| == 1
    ensures |Temp(c, rq)| == 1 && |Temp(c, rq)[0]| > 1
  {
    assert Name(Temp(c, rq)) == Temp(c, rq)[0];
    assert Name(Target(c, rq)) == Target(c, rq)[0];
  }

  /** A tree in which `/a` exists already, and a write to it that crashes before its side effect. */
  const OLD_TARGET := World([], [], map[[] := Dir, ["a"] := File([])])

  function CrashedWrite(): Step { PlainWrite("r", "/a", "p", "q", 2) }

  lemma AlonePending(p: Event)
    requires p.kind.IntentPending?
    ensures PendingEvents([p]) == [p]
  {
    assert OpenIn([p])(p);
    assert [p] == [] + [p];
    FilterSnoc([], p, OpenIn([p]));
  }

  /** A pass may report a write as executed that was not: this one crashed before its side effect, onto a target that
      was there before. */
  lemma ExecutedWithoutRename(c: Config, listing: seq<Path>) returns (f: Finding)
    requires Setting(c)
    ensures var end := Run(c, OLD_TARGET, [CrashedWrite()]);
      && !Landed(c, OLD_TARGET, CrashedWrite())
      && f in Report(c, View(end.files, {}), end.log, listing)
      && f.recordId == Some("r") && f.diagnosis == PendingExecutedUnconfirmed
  {
    hide After, Run, PendingEvents, Report, WriteLands;
    var w, s := OLD_TARGET, CrashedWrite();
    RunOne(c, w, s);
    LongTemp(c, s.op.rq);
    PlainLands(c, w, s.op.rq);
    var p, _ := PlainLog(c, w, s);
    assert w.log + [p] == [p];
    AlonePending(p);
    f := ExactDiagnosis(c, w, [s], 0, View(Run(c, w, [s]).files, {}), listing, p);
  }

  /** A write whose envelope names another tool, and which crashes before its side effect. */
  function CrashedTodo(): Step {
    var rq := PlainRequest("r", "/a", "p", "q");
    Step(Write(rq.(envelope := rq.envelope.(tool := "todo.create")), PLAIN_PLAN), 2)
  }

  /** A pass reports every pending call of another tool as executed: this one was not, and its target is not there. */
  lemma OtherToolExecuted(c: Config, listing: seq<Path>) returns (f: Finding)
    requires Setting(c)
    ensures var end := Run(c, EMPTY_WORKSPACE, [CrashedTodo()]);
      && !Landed(c, EMPTY_WORKSPACE, CrashedTodo()) && ["a"] !in end.files
      && f in Report(c, View(end.files, {}), end.log, listing)
      && f.recordId == Some("r") && f.diagnosis == PendingExecutedUnconfirmed
  {
    hide After, Run, PendingEvents, Report, WriteLands;
    var w, s := EMPTY_WORKSPACE, CrashedTodo();
    RunOne(c, w, s);
    LongTemp(c, s.op.rq);
    PlainLands(c, w, s.op.rq);
    NotLandedFile(c, w, s);
    var p, _ := PlainLog(c, w, s);
    assert w.log + [p] == [p];
    AlonePending(p);
    f := ExactDiagnosis(c, w, [s], 0, View(Run(c, w, [s]).files, {}), listing, p);
  }

  // ----- two calls under one action id -----

  /** The first call writes `/a` and commits; the second one reuses its id and crashes right after its rename. */
  function ReusingRun(second: string): seq<Step> {
    [PlainWrite("r", "/a", "p", "q", AFTER_CLOSING), PlainWrite("r", second, "s", "t", AFTER_RENAME)]
  }

  lemma OnlyTarget(f: Files, g: Files, target: Path, temp: Path, node: Node)
    requires forall p :: p != target && p != temp ==> SameAt(f, g, p)
    requires target in f && f[target] == node && temp !in f && temp !in g
    ensures f == g[target := node]
  {
    forall p | p in f ensures p in g[target := node] && f[p] == g[target := node][p] {
      assert p != target && p != temp ==> SameAt(f, g, p);
    }
    forall p | p in g ensures p in f {
      assert p != target && p != temp ==> SameAt(f, g, p);
    }
  }

  /** A landed write adds its target and nothing else. */
  lemma PlainFiles(c: Config, w: World, s: Step)
    requires s.op.Write? && WriteLands(c, w, s.op.rq, s.op.write) && s.crash >= AFTER_RENAME
    requires Temp(c, s.op.rq) !in w.files
    ensures After(c, w, s).files == w.files[Target(c, s.op.rq) := File(s.op.write.content)]
  {
    LandedLength(c, w, s.op.rq, s.op.write);
    var k := Stop(WriteFileStates(c, w, s.op.rq, s.op.write), s.crash);
    hide WriteFileStates, WriteLands, PendingEvent;
    hide SameAt;
    CrashSafe(c, w, s.op.rq, s.op.write, k);
    OnlyTarget(After(c, w, s).files, w.files, Target(c, s.op.rq), Temp(c, s.op.rq), File(s.op.write.content));
  }

  /** What the first call leaves behind. */
  lemma AfterFirst(c: Config) returns (p: Event, e: Event)
    requires Setting(c)
    ensures var w := After(c, EMPTY_WORKSPACE, ReusingRun("/a")[0]);
      && w.log == [p, e] && PlainPair(ReusingRun("/a")[0].op.rq, p, e)
      && w.files == map[[] := Dir, ["a"] := File([])]
  {
    hide After, WriteLands;
    var w, s := EMPTY_WORKSPACE, ReusingRun("/a")[0];
    LongTemp(c, s.op.rq);
    PlainLands(c, w, s.op.rq);
    PlainFiles(c, w, s);
    p, e := PlainLog(c, w, s);
    assert w.log + [p] == [p] && w.log + [p, e] == [p, e];
  }

  /** What the second call leaves behind, and that its rename took place. */
  lemma AfterSecond(c: Config, w: World, p: Event, e: Event, second: string) returns (q: Event)
    requires Setting(c) && (second == "/a" || second == "/b")
    requires w.log == [p, e] && p.eventId == "p" && e.eventId == "q"
    requires w.files == map[[] := Dir, ["a"] := File([])]
    ensures var s := ReusingRun(second)[1];
      && Landed(c, w, s) && After(c, w, s).log == [p, e, q]
      && q.recordId == "r" && q.kind.IntentPending? && q.envelope == Some(s.op.rq.envelope)
      && After(c, w, s).files == w.files[Target(c, s.op.rq) := File([])]
  {
    hide After, WriteLands;
    var s := ReusingRun(second)[1];
    LongTemp(c, s.op.rq);
    assert FreshEvent(w.log, "s");
    PlainLands(c, w, s.op.rq);
    PlainFiles(c, w, s);
    var x, y := PlainLog(c, w, s);
    q := x;
    assert [p, e] + [q] == [p, e, q];
  }

  /** With `e` closing the record, nothing in the log is pending. */
  lemma NothingPending(p: Event, e: Event, q: Event)
    requires p.recordId == e.recordId == q.recordId && e.kind.ExecutionCommitted?
    ensures IsClosed([p, e, q], e.recordId) && PendingEvents([p, e, q]) == []
  {
    var log := [p, e, q];
    assert e in log;
    assert IsClosed(log, e.recordId);
    hide IsClosed;
    FilterNothing(log, OpenIn(log));
  }

  /** A reused action id hides a write: the second call was carried out and never confirmed, yet nothing is pending; and
      when it wrote a file of its own, that file is flagged as a change behind the proxy. */
  lemma ReusedIdHides(c: Config, second: string, listing: seq<Path>)
    requires Setting(c) && (second == "/a" || second == "/b")
    requires Lists(c, Run(c, EMPTY_WORKSPACE, ReusingRun(second)).files, listing)
    ensures var steps := ReusingRun(second);
      var end := Run(c, EMPTY_WORKSPACE, steps);
      && Landed(c, Run(c, EMPTY_WORKSPACE, steps[..1]), steps[1])
      && PendingEvents(end.log) == []
      && (Flags(Report(c, View(end.files, {}), end.log, listing), Target(c, steps[1].op.rq)) <==> second == "/b")
  {
    hide After, Landed, Report, PendingEvents, Flags;
    var w, steps := EMPTY_WORKSPACE, ReusingRun(second);
    assert steps[..2] == steps && steps[..1] == [steps[0]];
    RunOne(c, w, steps[0]);
    OneStep(c, w, steps, 1);
    hide Run;
    var p, e := AfterFirst(c);
    var q := AfterSecond(c, Run(c, w, steps[..1]), p, e, second);
    NothingPending(p, e, q);
    var end := Run(c, w, steps);
    LandedFlagged(c, w, steps, 1, View(end.files, {}), listing);
    assert !IsTemporary(Target(c, steps[1].op.rq));
    assert end.log[1] == e && end.log[2] == q;
    hide IsTemporary, IsClosed;
    assert LastCommit(end.log, 1);
  }

  // ----- a target that is another call's temporary name -----

  /** A write to `/a.tmp.r`, and then one to `/a` whose action id is `r`, both carried out to the end. */
  function TemporaryRun(): seq<Step> {
    [PlainWrite("q", "/a.tmp.r", "p", "e", AFTER_CLOSING), PlainWrite("r", "/a", "s", "t", AFTER_CLOSING)]
  }

  const TEMP_TARGET: Path := ["a.tmp.r"]

  /** A write that lands and whose closing event is stored returns SUCCESS. */
  lemma PlainSucceeds(c: Config, w: World, rq: Request)
    requires WriteLands(c, w, rq, PLAIN_PLAN) && rq.verdicts.closingOk
    requires rq.ids.closingId != rq.ids.pendingId && FreshEvent(w.log, rq.ids.closingId)
    ensures WriteFileAnswer(c, w, rq, PLAIN_PLAN) == Returned(SUCCESS)
    ensures ClosingStored(w.log + [PendingEvent(c, w, rq)], rq)
  {
    hide Renames, Seal;
    DecidedLog(c, w, rq);
    assert PendingEvent(c, w, rq).eventId == rq.ids.pendingId;
    hide Started, PendingEvent, Decided;
  }

  /** The first write of the run succeeds and leaves its file. */
  lemma TemporaryFirst(c: Config) returns (p: Event, e: Event)
    requires c.workspace == [] && c.resolve("/a.tmp.r") == TEMP_TARGET
    ensures var s := TemporaryRun()[0];
      var w := After(c, EMPTY_WORKSPACE, s);
      && Landed(c, EMPTY_WORKSPACE, s) && Succeeded(c, EMPTY_WORKSPACE, s)
      && w.log == [p, e] && p.eventId == "p" && e.eventId == "e"
      && w.files == map[[] := Dir, TEMP_TARGET := File([])]
  {
    hide After, WriteLands, WriteFileAnswer;
    var w, s := EMPTY_WORKSPACE, TemporaryRun()[0];
    assert Target(c, s.op.rq) == TEMP_TARGET;
    assert Temp(c, s.op.rq) !in w.files by { assert Temp(c, s.op.rq) != []; }
    PlainLands(c, w, s.op.rq);
    PlainSucceeds(c, w, s.op.rq);
    PlainFiles(c, w, s);
    p, e := PlainLog(c, w, s);
    assert w.log + [p] == [p] && w.log + [p, e] == [p, e];
    assert ClosingStored([p], s.op.rq);
  }

  /** The second write of the run uses the file of the first one as its temporary file, and so takes it away. */
  lemma TemporarySecond(c: Config, w: World, p: Event, e: Event)
    requires Setting(c) && w.log == [p, e] && p.eventId == "p" && e.eventId == "e"
    requires w.files == map[[] := Dir, TEMP_TARGET := File([])]
    ensures var s := TemporaryRun()[1];
      && Landed(c, w, s) && Target(c, s.op.rq) == ["a"] && FateAt(c, w, s, TEMP_TARGET) == Removed
  {
    var s := TemporaryRun()[1];
    var rq := s.op.rq;
    assert Temp(c, rq) == TEMP_TARGET by {
      assert Name(["a"]) + ".tmp." + "r" == "a.tmp.r";
      assert Parent(["a"]) == [];
    }
    assert FreshEvent(w.log, "s");
    hide WriteLands;
    PlainLands(c, w, rq);
    assert WriteAdmitted(c, w, rq) && Ran(c, w, rq) && Renames(w.files, Target(c, rq), Temp(c, rq), PLAIN_PLAN) by {
      LandsMeans(c, w, rq, PLAIN_PLAN);
    }
    hide WriteAdmitted, Ran, Renames, Temp;
  }

  lemma LandsMeans(c: Config, w: World, rq: Request, plan: WritePlan)
    requires WriteLands(c, w, rq, plan)
    ensures WriteAdmitted(c, w, rq) && Ran(c, w, rq) && Renames(w.files, Target(c, rq), Temp(c, rq), plan)
  {}

  /** A write that succeeded is reported as diverged, with an id of its own and no change behind the proxy: its target
      had the name that a later write used for its temporary file. */
  lemma TemporaryNameLost(c: Config, listing: seq<Path>) returns (f: Finding)
    requires Setting(c) && c.resolve("/a.tmp.r") == TEMP_TARGET
    ensures var w, steps := EMPTY_WORKSPACE, TemporaryRun();
      var end := Run(c, w, steps);
      && LastRename(c, w, steps, 0) && Succeeded(c, w, steps[0]) && FreshRecords(steps)
      && f in Report(c, View(end.files, {}), end.log, listing)
      && f.recordId == Some("q") && f.diagnosis == CommittedDiverged && f.confidence == "0.8"
  {
    hide After, Landed, Succeeded, Report, FateAt;
    var w, steps := EMPTY_WORKSPACE, TemporaryRun();
    assert steps[..0] == [] && steps[..1] == [steps[0]] && steps[..2] == steps;
    RunOne(c, w, steps[0]);
    var p, e := TemporaryFirst(c);
    TemporarySecond(c, After(c, w, steps[0]), p, e);
    hide Run;
    assert LastRename(c, w, steps, 0);
    f := LastWriter(c, w, steps, 0, 0, View(Run(c, w, steps).files, {}), listing);
  }

  // ----- a directory that is refused half way -----

  function HalfRequest(): Request { PlainRequest("r", "/a/b", "p", "q") }

  const HALF_PLAN := MkdirPlan(false, 1, "permission denied")

  /** A failing mkdir may change the tree and still record that nothing happened: it creates `/a` and is then refused
      `/a/b`. */
  lemma MkdirFailureChanges(c: Config) returns (p: Event, e: Event)
    requires c.workspace == [] && c.resolve("/a/b") == ["a", "b"]
    ensures var rq := HalfRequest();
      var s := Last(MkdirStates(c, EMPTY_WORKSPACE, rq, HALF_PLAN));
      && MkdirAnswer(c, EMPTY_WORKSPACE, rq, HALF_PLAN) == Returned(FAILURE)
      && s.files == map[[] := Dir, ["a"] := Dir]
      && s.log == [p, e] && e.kind == ExecutionFailed && e.sideEffect == Some(NoEffect)
  {
    hide Ran, PendingEvent, CloseEvent, ClosingStored, MkdirOk, MkdirStates, MkdirAnswer, AfterMkdir;
    var w, rq := EMPTY_WORKSPACE, HalfRequest();
    HalfMade();
    HalfRecorded(c);
    MkdirFailed(c, w, rq, HALF_PLAN);
    p, e := PendingEvent(c, w, rq), CloseEvent(c, w, rq, MkdirEffect(c, w.files, ["a", "b"], HALF_PLAN));
    assert w.log + [p, e] == [p, e];
  }

  /** Both records of the call are stored. */
  lemma HalfRecorded(c: Config)
    ensures var w, rq := EMPTY_WORKSPACE, HalfRequest();
      Ran(c, w, rq) && ClosingStored(w.log + [PendingEvent(c, w, rq)], rq)
  {
    hide Seal;
    var w, rq := EMPTY_WORKSPACE, HalfRequest();
    assert PendingEvent(c, w, rq).eventId == "p";
    hide PendingEvent;
  }
}
