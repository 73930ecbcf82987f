/** The durable state behind the proxy, and what each operation does to it one durable step at a time. */
module World {
  import opened Prelude
  import opened HashChain
  import opened Events
  import opened Store
  import opened Decisions
  import Utf8

  // ----- paths and files -----

  /** A canonical absolute path, by components. */
  type Path = seq<string>

  datatype Node = File(data: Bytes) | Dir
  type Files = map<Path, Node>

  function Parent(p: Path): Path { if p == [] then [] else p[..|p| - 1] }

  function Name(p: Path): string { if p == [] then "" else p[|p| - 1] }

  function TempPath(target: Path, recordId: string): (p: Path)
    ensures p != [] && Name(p) == Name(target) + ".tmp." + recordId && p != target
  {
    var p := Parent(target) + [Name(target) + ".tmp." + recordId];
    assert Name(p) == Name(target) + ".tmp." + recordId;
    p
  }

  function PathText(p: Path): string {
    if |p| <= 1 then "/" + Name(p) else PathText(Parent(p)) + "/" + Name(p)
  }

  predicate IsDir(files: Files, p: Path) { p in files && files[p].Dir? }

  predicate IsFile(files: Files, p: Path) { p in files && files[p].File? }

  // ----- configuration and requests -----

  /** What is fixed for a proxy: the hash, path resolution, the message catalogue, the workspace, and whether
      a decision store is present. */
  datatype Config = Config(
    sha: Sha256,
    resolve: string -> Path,
    message: (string, Path, Option<string>) -> string,
    workspace: Path,
    hasDecisions: bool)

  /** The ids and times one call draws. */
  datatype Ids = Ids(decisionId: string, pendingId: string, closingId: string, time: string)

  /** Which of the three appends of one call the databases accept. */
  datatype Verdicts = Verdicts(decisionOk: bool, pendingOk: bool, closingOk: bool)

  /** One call of the proxy; `ambient` is what the context resolver answers, if there is one. */
  datatype Request = Request(
    envelope: Envelope,
    intent: Option<string>,
    context: Option<Dict>,
    ambient: Option<Dict>,
    policyDenies: bool,
    boundaryDenies: bool,
    ids: Ids,
    verdicts: Verdicts)

  datatype World = World(log: seq<Event>, decisions: seq<Decision>, files: Files)

  datatype ProxyResult = SUCCESS | FAILURE | REJECTED | UNCONFIRMED

  /** How a call ends: with a result, or with an exception. */
  datatype Outcome = Returned(result: ProxyResult) | EnvelopeRequired | WorkspaceBoundary | Escaped

  /** What the proxy observed of a side effect. */
  datatype Effect =
    | Done(resultDigest: string)
    | Failed(observed: SideEffect, errorDigest: string, failedDigest: Option<string>)
    | Uncaught

  // ----- the first phase: decision and intent_pending -----

  predicate Denied(rq: Request) { rq.policyDenies || rq.boundaryDenies }

  function EffectiveContext(rq: Request): Option<Dict> {
    if rq.context.Some? then rq.context else rq.ambient
  }

  predicate UsesDecision(c: Config, rq: Request) { c.hasDecisions && rq.intent.Some? }

  function TheDecision(c: Config, w: World, rq: Request): Decision
    requires UsesDecision(c, rq)
  {
    MakeDecision(c.sha, rq.ids.decisionId, rq.envelope.actionId, rq.intent.value, EffectiveContext(rq), rq.ids.time,
                 LastDecisionHash(w.decisions))
  }

  predicate DecisionRefused(c: Config, w: World, rq: Request) {
    UsesDecision(c, rq) && !(rq.verdicts.decisionOk && FreshDecision(w.decisions, rq.ids.decisionId))
  }

  function Decided(c: Config, w: World, rq: Request): World {
    if UsesDecision(c, rq) && !DecisionRefused(c, w, rq)
    then w.(decisions := w.decisions + [TheDecision(c, w, rq)]) else w
  }

  function DecisionRef(c: Config, rq: Request): Option<string> {
    if UsesDecision(c, rq) then Some(rq.ids.decisionId) else None
  }

  function ContextRef(c: Config, rq: Request): Option<string> {
    if UsesDecision(c, rq) && EffectiveContext(rq).Some?
    then Some(c.sha(CanonicalSerialize(EffectiveContext(rq).value))) else None
  }

  function PendingDraft(c: Config, rq: Request): Event {
    Event(rq.ids.pendingId, rq.envelope.actionId, rq.ids.time, IntentPending, Some(rq.envelope), None, None,
          Some(NoEffect), None, None, "", rq.intent, DecisionRef(c, rq), ContextRef(c, rq), None)
  }

  function PendingEvent(c: Config, w: World, rq: Request): Event {
    Seal(c.sha, PendingDraft(c, rq), LastSealed(w.log))
  }

  predicate PendingStored(w: World, rq: Request) {
    rq.verdicts.pendingOk && FreshEvent(w.log, rq.ids.pendingId)
  }

  function WithPending(c: Config, w: World, rq: Request): World {
    w.(log := Appended(w.log, PendingEvent(c, w, rq), rq.verdicts.pendingOk))
  }

  /** Both records of the first phase are made, so the side effect may start. */
  predicate Prepared(c: Config, w: World, rq: Request) {
    !DecisionRefused(c, w, rq) && PendingStored(w, rq)
  }

  /** The durable states the first phase goes through. */
  function PrepareStates(c: Config, w: World, rq: Request): (r: seq<World>)
    ensures r != []
  {
    var d := Decided(c, w, rq);
    if DecisionRefused(c, w, rq) then [d] else [d, WithPending(c, d, rq)]
  }

  // ----- the second phase: commit or failure record -----

  function ClosingDraft(c: Config, rq: Request, eff: Effect): Event
    requires !eff.Uncaught?
  {
    var base := PendingDraft(c, rq).(eventId := rq.ids.closingId);
    match eff
    case Done(digest) =>
      base.(kind := ExecutionCommitted, resultDigest := Some(digest), sideEffect := Some(Confirmed))
    case Failed(observed, error, digest) =>
      base.(kind := ExecutionFailed, resultDigest := digest, errorDigest := Some(error), sideEffect := Some(observed))
  }

  function ClosingEvent(c: Config, log: seq<Event>, rq: Request, eff: Effect): Event
    requires !eff.Uncaught?
  {
    Seal(c.sha, ClosingDraft(c, rq, eff), LastSealed(log))
  }

  predicate ClosingStored(log: seq<Event>, rq: Request) {
    rq.verdicts.closingOk && FreshEvent(log, rq.ids.closingId)
  }

  function Closed(c: Config, w: World, rq: Request, eff: Effect): World
    requires !eff.Uncaught?
  {
    w.(log := Appended(w.log, ClosingEvent(c, w.log, rq, eff), rq.verdicts.closingOk))
  }

  // ----- one operation -----

  /** The call passed its gates and both records of the first phase were made: the side effect is attempted. */
  predicate Ran(c: Config, w: World, rq: Request) { !Denied(rq) && Prepared(c, w, rq) }

  /** The state in which the side effect starts. */
  function Started(c: Config, w: World, rq: Request): World { WithPending(c, Decided(c, w, rq), rq) }

  /** The durable states up to the side effect. */
  function GateStates(c: Config, w: World, rq: Request): seq<World> {
    if Denied(rq) then [] else PrepareStates(c, w, rq)
  }

  /** The states after each change of the files. */
  function StageStates(w: World, stages: seq<Files>): (r: seq<World>)
    ensures |r| == |stages|
    ensures forall i :: 0 <= i < |r| ==> r[i] == w.(files := stages[i])
  {
    seq(|stages|, i requires 0 <= i < |stages| => w.(files := stages[i]))
  }

  function Last<T>(s: seq<T>): T
    requires s != []
  {
    s[|s| - 1]
  }

  /** The state in which the side effect is over. */
  function AfterEffect(p: World, stages: seq<Files>): World {
    if stages == [] then p else p.(files := Last(stages))
  }

  /** The durable states of the second phase; an exception that is not caught skips it. */
  function ClosingStates(c: Config, w: World, rq: Request, eff: Effect): seq<World> {
    if eff.Uncaught? then [] else [Closed(c, w, rq, eff)]
  }

  /** The durable states of a call that reached the effect, which changed the files in `stages`. */
  function EffectStates(c: Config, p: World, rq: Request, stages: seq<Files>, eff: Effect): seq<World> {
    StageStates(p, stages) + ClosingStates(c, AfterEffect(p, stages), rq, eff)
  }

  /** Every durable state one call goes through; a crash can leave any of them behind. */
  function States(c: Config, w: World, rq: Request, stages: seq<Files>, eff: Effect): (r: seq<World>)
    ensures r != [] && r[0] == w
  {
    [w] + GateStates(c, w, rq)
    + (if Ran(c, w, rq) then EffectStates(c, Started(c, w, rq), rq, stages, eff) else [])
  }

  lemma SameAnswer(c: Config, p: World, rq: Request, stages: seq<Files>, eff: Effect)
    ensures ClosingAnswer(c, AfterEffect(p, stages), rq, eff) == ClosingAnswer(c, p, rq, eff)
  {
    hide ClosingStored;
  }

  /** The states of a call, appended to earlier ones part by part, and the answer they lead to. */
  lemma StatesAppended(c: Config, w: World, rq: Request, stages: seq<Files>, eff: Effect, h: seq<World>)
    ensures h + States(c, w, rq, stages, eff)[1..]
         == if Ran(c, w, rq)
            then h + GateStates(c, w, rq) + StageStates(Started(c, w, rq), stages)
                 + ClosingStates(c, AfterEffect(Started(c, w, rq), stages), rq, eff)
            else h + GateStates(c, w, rq)
    ensures Answer(c, w, rq, eff)
         == if Ran(c, w, rq) then ClosingAnswer(c, AfterEffect(Started(c, w, rq), stages), rq, eff)
            else Returned(REJECTED)
  {
    hide Started, GateStates, ClosingStates, AfterEffect, Ran, ClosingAnswer, StageStates;
    var p := Started(c, w, rq);
    SameAnswer(c, p, rq, stages, eff);
    var gate, stage, closing :=
      GateStates(c, w, rq), StageStates(p, stages), ClosingStates(c, AfterEffect(p, stages), rq, eff);
    Assoc(h, gate, stage + closing);
    Assoc(h + gate, stage, closing);
  }

  lemma PreparedLast(c: Config, w: World, rq: Request)
    ensures Prepared(c, w, rq) ==> Last(PrepareStates(c, w, rq)) == Started(c, w, rq)
    ensures Last(PrepareStates(c, w, rq)).files == Started(c, w, rq).files == w.files
  {
    hide Seal, TheDecision, PendingDraft, FreshEvent, FreshDecision;
  }

  /** What the caller is told once the effect is known. */
  function ClosingAnswer(c: Config, w: World, rq: Request, eff: Effect): Outcome {
    match eff
    case Uncaught => Escaped
    case Failed(_, _, _) => Returned(FAILURE)
    case Done(_) => if ClosingStored(w.log, rq) then Returned(SUCCESS) else Returned(UNCONFIRMED)
  }

  /** What the caller is told. */
  function Answer(c: Config, w: World, rq: Request, eff: Effect): Outcome {
    if !Ran(c, w, rq) then Returned(REJECTED) else ClosingAnswer(c, Started(c, w, rq), rq, eff)
  }

  // ----- filesystem.write -----

  /** Where the atomic write can fail; a failing write may leave part of the content in the temporary file. */
  datatype WriteFault = NoFault | WriteFails(part: Option<Bytes>) | SyncFails | RenameFails

  datatype WritePlan = WritePlan(content: Bytes, fault: WriteFault, unlinkOk: bool, error: string)

  predicate WriteOk(files: Files, temp: Path, plan: WritePlan) {
    IsDir(files, Parent(temp)) && !IsDir(files, temp) && !plan.fault.WriteFails?
  }

  function AfterWrite(files: Files, temp: Path, plan: WritePlan): Files {
    if !IsDir(files, Parent(temp)) || IsDir(files, temp) then files
    else match plan.fault
      case WriteFails(None) => files
      case WriteFails(Some(part)) => files[temp := File(part)]
      case _ => files[temp := File(plan.content)]
  }

  predicate RenameOk(files: Files, target: Path, plan: WritePlan) {
    plan.fault.NoFault? && !IsDir(files, target)
  }

  function AfterRename(files: Files, temp: Path, target: Path): Files
    requires temp in files
  {
    (files - {temp})[target := files[temp]]
  }

  function AfterCleanup(files: Files, temp: Path, plan: WritePlan): Files {
    if IsFile(files, temp) && plan.unlinkOk then files - {temp} else files
  }

  /** The write reaches its rename and the rename succeeds. */
  predicate Renames(files: Files, target: Path, temp: Path, plan: WritePlan) {
    WriteOk(files, temp, plan) && RenameOk(AfterWrite(files, temp, plan), target, plan)
  }

  function WriteStages(files: Files, target: Path, temp: Path, plan: WritePlan): (r: seq<Files>)
    ensures |r| == 2
  {
    var written := AfterWrite(files, temp, plan);
    [written,
     if Renames(files, target, temp, plan) then AfterRename(written, temp, target)
     else AfterCleanup(written, temp, plan)]
  }

  function WriteEffect(c: Config, files: Files, target: Path, temp: Path, plan: WritePlan): Effect {
    if Renames(files, target, temp, plan) then Done(c.sha(plan.content))
    else Failed(NoEffect, c.sha(Utf8.Encode(plan.error)), None)
  }

  function Target(c: Config, rq: Request): Path { c.resolve(rq.envelope.target) }

  function Temp(c: Config, rq: Request): Path { TempPath(Target(c, rq), rq.envelope.actionId) }

  predicate InWorkspace(c: Config, p: Path) { c.workspace <= p }

  /** The checks before the first record: the workspace boundary and an existing parent. */
  predicate WriteAdmitted(c: Config, w: World, rq: Request) {
    InWorkspace(c, Target(c, rq)) && Parent(Target(c, rq)) in w.files
  }

  function WriteFileStates(c: Config, w: World, rq: Request, plan: WritePlan): (r: seq<World>)
    ensures r != [] && r[0] == w
  {
    if !WriteAdmitted(c, w, rq) then [w] else
      States(c, w, rq, WriteStages(w.files, Target(c, rq), Temp(c, rq), plan),
             WriteEffect(c, w.files, Target(c, rq), Temp(c, rq), plan))
  }

  function WriteFileAnswer(c: Config, w: World, rq: Request, plan: WritePlan): Outcome {
    if !InWorkspace(c, Target(c, rq)) then WorkspaceBoundary
    else if Parent(Target(c, rq)) !in w.files then Returned(REJECTED)
    else Answer(c, w, rq, WriteEffect(c, w.files, Target(c, rq), Temp(c, rq), plan))
  }

  // ----- shell.execute -----

  /** A process may leave any files behind, unless it never started. */
  datatype ShellOutcome =
    | Completed(output: Bytes, after: Files)
    | TimedOut(after: Files)
    | NotStarted(error: string)

  function ShellStages(o: ShellOutcome): seq<Files> {
    if o.NotStarted? then [] else [o.after]
  }

  function ShellEffect(c: Config, o: ShellOutcome): Effect {
    match o
    case Completed(output, _) => Done(c.sha(output))
    case TimedOut(_) => Failed(Unknown, c.sha(Utf8.Encode("timeout")), None)
    case NotStarted(error) => Failed(NoEffect, c.sha(Utf8.Encode(error)), None)
  }

  function ShellStates(c: Config, w: World, rq: Request, o: ShellOutcome): (r: seq<World>)
    ensures r != [] && r[0] == w
  {
    States(c, w, rq, ShellStages(o), ShellEffect(c, o))
  }

  // ----- filesystem.mkdir -----

  /** Whether the system lets mkdir finish; if not, it is refused after the prefixes of length up to `created`. */
  datatype MkdirPlan = MkdirPlan(works: bool, created: nat, error: string)

  /** A file stands in the way, at the target or above it. */
  predicate Blocked(files: Files, target: Path) {
    exists k :: 0 <= k <= |target| && IsFile(files, target[..k])
  }

  predicate MkdirOk(files: Files, target: Path, o: MkdirPlan) { o.works && !Blocked(files, target) }

  /** How many prefixes of the target, the shortest first, mkdir gets through: none when a file is in the way, and
      only proper ones when the system refuses the target or an ancestor. */
  function MkdirDepth(files: Files, target: Path, o: MkdirPlan): (n: nat)
    ensures n <= |target| + 1
  {
    if Blocked(files, target) then 0
    else if o.works then |target| + 1
    else if o.created < |target| then o.created + 1
    else 0
  }

  /** The files with every missing prefix of `target` shorter than `n` created as a directory. */
  function MakeDirs(files: Files, target: Path, n: nat): (r: Files)
    requires n <= |target| + 1
    ensures forall p :: p in files ==> p in r && r[p] == files[p]
    ensures forall p :: p in r && p !in files ==> r[p] == Dir
  {
    if n == 0 then files else MakeDir(MakeDirs(files, target, n - 1), target[..n - 1])
  }

  /** One directory, created if nothing is there. */
  function MakeDir(files: Files, p: Path): Files { if p in files then files else files[p := Dir] }

  /** The files after each prefix that mkdir gets through. */
  function MkdirStages(files: Files, target: Path, o: MkdirPlan): (r: seq<Files>)
    ensures |r| == MkdirDepth(files, target, o)
    ensures forall k :: 0 <= k < |r| ==> r[k] == MakeDirs(files, target, k + 1)
  {
    seq(MkdirDepth(files, target, o),
        k requires 0 <= k < MkdirDepth(files, target, o) => MakeDirs(files, target, k + 1))
  }

  /** What mkdir leaves behind. */
  function AfterMkdir(files: Files, target: Path, o: MkdirPlan): Files {
    MakeDirs(files, target, MkdirDepth(files, target, o))
  }

  function MkdirEffect(c: Config, files: Files, target: Path, o: MkdirPlan): Effect {
    if MkdirOk(files, target, o) then Done(c.sha(Utf8.Encode(PathText(target))))
    else Failed(NoEffect, c.sha(Utf8.Encode(o.error)), None)
  }

  function MkdirStates(c: Config, w: World, rq: Request, o: MkdirPlan): (r: seq<World>)
    ensures r != [] && r[0] == w
  {
    if !InWorkspace(c, Target(c, rq)) then [w] else
      States(c, w, rq, MkdirStages(w.files, Target(c, rq), o), MkdirEffect(c, w.files, Target(c, rq), o))
  }

  function MkdirAnswer(c: Config, w: World, rq: Request, o: MkdirPlan): Outcome {
    if !InWorkspace(c, Target(c, rq)) then WorkspaceBoundary
    else Answer(c, w, rq, MkdirEffect(c, w.files, Target(c, rq), o))
  }

  // ----- network.http_get -----

  /** `seen` is what the digest covers: the status line followed by the bytes received. */
  datatype HttpOutcome =
    | Received(seen: Bytes)
    | HttpError(seen: Bytes)
    | IncompleteRead(seen: Bytes, error: string)
    | HttpTimeout(error: string)
    | UrlError(error: string)
    | OtherException

  function HttpEffect(c: Config, o: HttpOutcome): Effect {
    match o
    case Received(seen) => Done(c.sha(seen))
    case HttpError(seen) => Done(c.sha(seen))
    case IncompleteRead(seen, error) => Failed(Partial, c.sha(Utf8.Encode(error)), Some(c.sha(seen)))
    case HttpTimeout(error) => Failed(Unknown, c.sha(Utf8.Encode(error)), None)
    case UrlError(error) => Failed(NoEffect, c.sha(Utf8.Encode(error)), None)
    case OtherException => Uncaught
  }

  function HttpStates(c: Config, w: World, rq: Request, o: HttpOutcome): (r: seq<World>)
    ensures r != [] && r[0] == w
  {
    States(c, w, rq, [], HttpEffect(c, o))
  }
}
