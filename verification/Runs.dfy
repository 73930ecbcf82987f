/** Whole runs of the system: proxy calls, reconciliation passes and foreign changes, each possibly cut by a crash. */
module Runs {
  import opened Prelude
  import opened HashChain
  import opened Events
  import opened Store
  import opened Decisions
  import opened ChainedLog
  import opened World
  import opened Reconcile

  datatype Op =
    | Write(rq: Request, write: WritePlan)
    | Shell(rq: Request, shell: ShellOutcome)
    | Mkdir(rq: Request, mkdir: MkdirPlan)
    | Get(rq: Request, http: HttpOutcome)
    | Pass(unreadable: set<Path>, listing: seq<Path>, ticks: nat -> Tick)
    | Foreign(files: Files)
  {
    predicate IsCall() { Write? || Shell? || Mkdir? || Get? }
  }

  /** One step of a run: an operation, and how many durable states it gets through before a crash. */
  datatype Step = Step(op: Op, crash: nat)

  function PassStates(c: Config, w: World, fs: seq<Finding>, ticks: nat -> Tick): (r: seq<World>)
    ensures |r| == |fs| + 1
    ensures forall k :: 0 <= k <= |fs| ==> r[k] == w.(log := ObserveAll(c, w.log, fs[..k], ticks))
  {
    seq(|fs| + 1, k requires 0 <= k <= |fs| => w.(log := ObserveAll(c, w.log, fs[..k], ticks)))
  }

  function OpStates(c: Config, w: World, op: Op): (r: seq<World>)
    ensures r != []
  {
    match op
    case Write(rq, plan) => WriteFileStates(c, w, rq, plan)
    case Shell(rq, o) => ShellStates(c, w, rq, o)
    case Mkdir(rq, plan) => MkdirStates(c, w, rq, plan)
    case Get(rq, o) => HttpStates(c, w, rq, o)
    case Pass(unreadable, listing, ticks) =>
      PassStates(c, w, ToRecord(c, View(w.files, unreadable), w.log, listing), ticks)
    case Foreign(files) => [w, w.(files := files)]
  }

  /** Where a step stops: at its end, or at the state the crash leaves behind. */
  function Stop(states: seq<World>, crash: nat): nat
    requires states != []
  {
    if crash < |states| then crash else |states| - 1
  }

  function After(c: Config, w: World, s: Step): World {
    OpStates(c, w, s.op)[Stop(OpStates(c, w, s.op), s.crash)]
  }

  function Run(c: Config, w: World, steps: seq<Step>): World {
    if steps == [] then w else After(c, Run(c, w, steps[..|steps| - 1]), steps[|steps| - 1])
  }

  /** What the effect of a call was, whichever operation it belongs to. */
  function EffectOf(c: Config, w: World, op: Op): Effect
    requires op.IsCall()
  {
    match op
    case Write(rq, plan) => WriteEffect(c, w.files, Target(c, rq), Temp(c, rq), plan)
    case Shell(_, o) => ShellEffect(c, o)
    case Mkdir(rq, plan) => MkdirEffect(c, w.files, Target(c, rq), plan)
    case Get(_, o) => HttpEffect(c, o)
  }

  /** A state of a call either is the state before it, or one of the generic states of its request. */
  lemma CallState(c: Config, w: World, op: Op, k: nat) returns (stages: seq<Files>)
    requires op.IsCall() && k < |OpStates(c, w, op)|
    ensures OpStates(c, w, op)[k] == w
         || (k < |States(c, w, op.rq, stages, EffectOf(c, w, op))|
             && OpStates(c, w, op)[k] == States(c, w, op.rq, stages, EffectOf(c, w, op))[k])
  {
    hide States, WriteStages, MkdirStages, WriteEffect, ShellEffect, MkdirEffect, HttpEffect;
    match op
    case Write(rq, plan) => stages := WriteStages(w.files, Target(c, rq), Temp(c, rq), plan);
    case Shell(_, o) => stages := ShellStages(o);
    case Mkdir(rq, plan) => stages := MkdirStages(w.files, Target(c, rq), plan);
    case Get(_, o) => stages := [];
  }

  // ----- the chains hold in every run -----

  /** The reference to the context a decision was taken in: the digest of its snapshot. */
  function SnapshotRef(c: Config, d: Decision): Option<string> {
    if d.contextSnapshot.None? then None else Some(c.sha(CanonicalSerialize(d.contextSnapshot.value)))
  }

  predicate Backs(c: Config, d: Decision, e: Event) {
    && Some(d.decisionId) == e.decisionRef && d.actionId == e.recordId && Some(d.intent) == e.intent
    && e.contextRef == SnapshotRef(c, d)
  }

  /** The event names a recorded decision about the same action, with the same intent and the same context. */
  ghost predicate Names(c: Config, ds: seq<Decision>, e: Event) {
    exists d :: d in ds && Backs(c, d, e)
  }

  /** An event without a decision refers to no context; one with a decision names it. */
  ghost predicate Referring(c: Config, ds: seq<Decision>, e: Event) {
    if e.decisionRef.Some? then Names(c, ds, e) else e.contextRef.None?
  }

  ghost predicate Invariant(c: Config, w: World) {
    && Linked(c.sha, w.log)
    && DecisionsLinked(w.decisions)
    && forall e :: e in w.log ==> Referring(c, w.decisions, e)
  }

  lemma AppendKeeps(c: Config, w: World, draft: Event, ok: bool)
    requires Invariant(c, w) && Referring(c, w.decisions, draft)
    ensures Invariant(c, w.(log := Appended(w.log, Seal(c.sha, draft, LastSealed(w.log)), ok)))
  {
    LinkedAppend(c.sha, w.log, draft, ok);
    SealKeeps(c.sha, draft, LastSealed(w.log));
    hide Seal, Linked, Backs;
    var e := Seal(c.sha, draft, LastSealed(w.log));
    assert Referring(c, w.decisions, e) by { ReferringSame(c, w.decisions, draft, e); }
  }

  lemma SealKeeps(sha: Sha256, draft: Event, previous: string)
    ensures var e := Seal(sha, draft, previous);
      e.decisionRef == draft.decisionRef && e.recordId == draft.recordId && e.intent == draft.intent
      && e.contextRef == draft.contextRef
  {}

  lemma ReferringSame(c: Config, ds: seq<Decision>, e: Event, f: Event)
    requires Referring(c, ds, e) && e.recordId == f.recordId
    requires e.decisionRef == f.decisionRef && e.contextRef == f.contextRef && e.intent == f.intent
    ensures Referring(c, ds, f)
  {
    hide SnapshotRef;
    if e.decisionRef.Some? {
      var d :| d in ds && Backs(c, d, e);
      assert Backs(c, d, f);
    }
  }

  /** The decision of the call, if it needs one, is on record. */
  ghost predicate Backed(c: Config, w: World, rq: Request) {
    Referring(c, w.decisions, PendingDraft(c, rq))
  }

  lemma DecidedKeeps(c: Config, w: World, rq: Request)
    requires Invariant(c, w)
    ensures Invariant(c, Decided(c, w, rq))
    ensures !DecisionRefused(c, w, rq) ==> Backed(c, Decided(c, w, rq), rq)
  {
    hide MakeDecision, Linked, Backs, CanonicalSerialize;
    if UsesDecision(c, rq) && !DecisionRefused(c, w, rq) {
      var d := TheDecision(c, w, rq);
      LinkedDecision(w.decisions, d);
      var after := w.decisions + [d];
      assert d in after && Backs(c, d, PendingDraft(c, rq)) by { DecisionBacks(c, w, rq); }
      forall e | e in w.log ensures Referring(c, after, e) {
        if e.decisionRef.Some? {
          var x :| x in w.decisions && Backs(c, x, e);
          assert x in after;
        }
      }
    }
  }

  lemma DecisionBacks(c: Config, w: World, rq: Request)
    requires UsesDecision(c, rq)
    ensures Backs(c, TheDecision(c, w, rq), PendingDraft(c, rq))
  {
    hide CanonicalSerialize, MakeDecision;
  }

  lemma {:induction false} CallKeeps(c: Config, w: World, rq: Request, stages: seq<Files>, eff: Effect, k: nat)
    requires Invariant(c, w) && k < |States(c, w, rq, stages, eff)|
    ensures Invariant(c, States(c, w, rq, stages, eff)[k])
  {
    hide Invariant, Backed, PendingDraft, Seal, Decided, DecisionRefused, PendingStored;
    if !Denied(rq) {
      var d, p := Decided(c, w, rq), Started(c, w, rq);
      DecidedKeeps(c, w, rq);
      if !DecisionRefused(c, w, rq) {
        PendingKeeps(c, d, rq);
        if Prepared(c, w, rq) { EffectKeeps(c, p, rq, stages, eff); }
        hide WithPending, EffectStates;
        var s := States(c, w, rq, stages, eff)[k];
        assert s == w || s == d || s == p || (Prepared(c, w, rq) && s in EffectStates(c, p, rq, stages, eff));
      }
    }
  }

  lemma PendingKeeps(c: Config, w: World, rq: Request)
    requires Invariant(c, w) && Backed(c, w, rq)
    ensures Invariant(c, WithPending(c, w, rq)) && Backed(c, WithPending(c, w, rq), rq)
  {
    hide Invariant, Seal, PendingDraft, Referring;
    AppendKeeps(c, w, PendingDraft(c, rq), rq.verdicts.pendingOk);
  }

  lemma FilesKeep(c: Config, w: World, rq: Request, files: Files)
    requires Invariant(c, w) && Backed(c, w, rq)
    ensures Invariant(c, w.(files := files)) && Backed(c, w.(files := files), rq)
  {
    hide Linked, PendingDraft;
  }

  lemma ClosedKeeps(c: Config, w: World, rq: Request, eff: Effect)
    requires Invariant(c, w) && Backed(c, w, rq) && !eff.Uncaught?
    ensures Invariant(c, Closed(c, w, rq, eff))
  {
    hide Invariant, Seal, Referring, DecisionRef, ContextRef;
    ReferringSame(c, w.decisions, PendingDraft(c, rq), ClosingDraft(c, rq, eff));
    AppendKeeps(c, w, ClosingDraft(c, rq, eff), rq.verdicts.closingOk);
  }

  lemma EffectKeeps(c: Config, p: World, rq: Request, stages: seq<Files>, eff: Effect)
    requires Invariant(c, p) && Backed(c, p, rq)
    ensures forall s :: s in EffectStates(c, p, rq, stages, eff) ==> Invariant(c, s)
  {
    hide Invariant, Backed, Closed;
    forall i | 0 <= i < |stages|
      ensures Invariant(c, p.(files := stages[i])) && Backed(c, p.(files := stages[i]), rq)
    {
      FilesKeep(c, p, rq, stages[i]);
    }
    if !eff.Uncaught? { ClosedKeeps(c, AfterEffect(p, stages), rq, eff); }
  }

  lemma PassKeeps(c: Config, w: World, fs: seq<Finding>, ticks: nat -> Tick)
    requires Invariant(c, w)
    ensures Invariant(c, w.(log := ObserveAll(c, w.log, fs, ticks)))
    decreases |fs|
  {
    hide Invariant, Seal;
    if fs == [] {
    } else {
      var n := |fs| - 1;
      PassKeeps(c, w, fs[..n], ticks);
      var before := w.(log := ObserveAll(c, w.log, fs[..n], ticks));
      AppendKeeps(c, before, ObservationDraft(c, fs[n], ticks(n)), ticks(n).ok);
    }
  }

  lemma StepKeeps(c: Config, w: World, op: Op, k: nat)
    requires Invariant(c, w) && k < |OpStates(c, w, op)|
    ensures Invariant(c, OpStates(c, w, op)[k])
  {
    if op.IsCall() {
      var stages := CallState(c, w, op, k);
      hide Invariant, OpStates, States, EffectOf;
      if OpStates(c, w, op)[k] != w { CallKeeps(c, w, op.rq, stages, EffectOf(c, w, op), k); }
    } else if op.Pass? {
      var fs := ToRecord(c, View(w.files, op.unreadable), w.log, op.listing);
      hide ToRecord, Invariant, ObserveAll;
      PassKeeps(c, w, fs[..k], op.ticks);
    }
  }

  lemma {:induction false} RunKeeps(c: Config, w: World, steps: seq<Step>)
    requires Invariant(c, w)
    ensures Invariant(c, Run(c, w, steps))
  {
    hide Invariant, OpStates;
    if steps == [] {
    } else {
      var n := |steps| - 1;
      var before := Run(c, w, steps[..n]);
      RunKeeps(c, w, steps[..n]);
      StepKeeps(c, before, steps[n].op, Stop(OpStates(c, before, steps[n].op), steps[n].crash));
    }
  }

  /** Whatever fails and wherever it crashes, a run that starts from empty stores leaves an execution log that
      verifies, a decision log whose linkage check is silent, and no event that names a decision which is not on
      record for the same action, with the same intent and the same context. */
  lemma ChainsHold(c: Config, files: Files, steps: seq<Step>)
    ensures var w := Run(c, World([], [], files), steps);
      && Clean(c.sha, RowsOf(w.log))
      && LinkageFindings(w.decisions) == []
      && forall e :: e in w.log ==> Referring(c, w.decisions, e)
  {
    hide Run, RowsOf, Clean;
    var w := Run(c, World([], [], files), steps);
    RunKeeps(c, World([], [], files), steps);
    LinkedClean(c.sha, w.log);
    LinkageExact(w.decisions);
  }
}
