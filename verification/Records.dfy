/** The life of a record over a whole run in which one call at most uses its action id. */
module Records {
  import opened Prelude
  import opened Events
  import opened Store
  import opened World
  import opened Reconcile
  import opened Operations
  import opened Answers
  import opened Runs

  predicate Acts(s: Step, rid: string) { s.op.IsCall() && s.op.rq.envelope.actionId == rid }

  /** No two calls of the run share this action id. */
  ghost predicate UsedOnce(steps: seq<Step>, rid: string) {
    forall i, j :: 0 <= i < j < |steps| ==> !(Acts(steps[i], rid) && Acts(steps[j], rid))
  }

  /** Each call of the run has its own action id. */
  ghost predicate FreshRecords(steps: seq<Step>) {
    forall rid :: UsedOnce(steps, rid)
  }

  function OwnedBy(rid: string): Event -> bool {
    (e: Event) => e.recordId == rid && !e.kind.ReconciliationObserved?
  }

  /** The events of a record, observations aside. */
  function Own(log: seq<Event>, rid: string): seq<Event> { Filter(log, OwnedBy(rid)) }

  /** What one call may append, in order. */
  ghost predicate CallEvents(c: Config, w: World, op: Op, es: seq<Event>)
    requires op.IsCall()
  {
    || es == []
    || es == [PendingEvent(c, w, op.rq)]
    || (!EffectOf(c, w, op).Uncaught?
        && es == [PendingEvent(c, w, op.rq), CloseEvent(c, w, op.rq, EffectOf(c, w, op))])
  }

  lemma CallAppends(c: Config, w: World, s: Step) returns (es: seq<Event>)
    requires s.op.IsCall()
    ensures After(c, w, s).log == w.log + es && CallEvents(c, w, s.op, es)
  {
    hide OpStates, States, PendingEvent, CloseEvent, EffectOf;
    var k := Stop(OpStates(c, w, s.op), s.crash);
    var stages := CallState(c, w, s.op, k);
    if OpStates(c, w, s.op)[k] == w {
      es := [];
    } else {
      Shape(c, w, s.op.rq, stages, EffectOf(c, w, s.op), k);
      es := After(c, w, s).log[|w.log|..];
    }
  }

  lemma CallEventsOwned(c: Config, w: World, op: Op, es: seq<Event>, rid: string)
    requires op.IsCall() && CallEvents(c, w, op, es)
    ensures Own(es, rid) == if op.rq.envelope.actionId == rid then es else []
  {
    hide PendingEvent, CloseEvent, EffectOf, Filter;
    PendingKind(c, w, op.rq);
    if !EffectOf(c, w, op).Uncaught? { CloseKind(c, w, op.rq, EffectOf(c, w, op)); }
    forall e | e in es ensures OwnedBy(rid)(e) == (op.rq.envelope.actionId == rid) {}
    if op.rq.envelope.actionId == rid { FilterAll(es, OwnedBy(rid)); } else { FilterNothing(es, OwnedBy(rid)); }
  }

  lemma PendingKind(c: Config, w: World, rq: Request)
    ensures var e := PendingEvent(c, w, rq);
      && e.kind == IntentPending && e.recordId == rq.envelope.actionId && e.envelope == Some(rq.envelope)
  {}

  /** The events of one record as the life cycle allows them, all telling the same story. */
  ghost predicate Lived(es: seq<Event>, rid: string) {
    && |es| <= 2
    && (|es| >= 1 ==> es[0].kind == IntentPending && es[0].recordId == rid)
    && (|es| == 2 ==> Closes(es[1].kind) && es[1].recordId == rid && SameStory(es[0], es[1]))
  }

  predicate SameStory(e: Event, f: Event) {
    e.decisionRef == f.decisionRef && e.contextRef == f.contextRef && e.intent == f.intent && e.envelope == f.envelope
  }

  lemma CallLived(c: Config, w: World, op: Op, es: seq<Event>)
    requires op.IsCall() && CallEvents(c, w, op, es)
    ensures Lived(es, op.rq.envelope.actionId)
  {
    hide PendingEvent, CloseEvent, EffectOf;
    PendingKind(c, w, op.rq);
    if |es| == 2 { CloseKind(c, w, op.rq, EffectOf(c, w, op)); }
  }

  lemma OtherCall(c: Config, w: World, s: Step, rid: string)
    requires s.op.IsCall() && !Acts(s, rid)
    ensures Own(After(c, w, s).log, rid) == Own(w.log, rid)
  {
    hide After, Filter, CallEvents;
    var es := CallAppends(c, w, s);
    CallEventsOwned(c, w, s.op, es, rid);
    FilterAppend(w.log, es, OwnedBy(rid));
  }

  lemma ObservingOwn(a: seq<Event>, b: seq<Event>, rid: string)
    requires Observing(a, b)
    ensures Own(b, rid) == Own(a, rid)
  {
    hide Filter;
    var extra := b[|a|..];
    assert b == a + extra;
    FilterAppend(a, extra, OwnedBy(rid));
    FilterNothing(extra, OwnedBy(rid));
  }

  lemma ForeignStep(c: Config, w: World, s: Step)
    requires s.op.Foreign?
    ensures After(c, w, s).log == w.log
  {}

  /** A step that is not a call of the record adds nothing to it; a pass adds observations only. */
  lemma OtherStep(c: Config, w: World, s: Step, rid: string)
    requires !Acts(s, rid)
    ensures Own(After(c, w, s).log, rid) == Own(w.log, rid)
  {
    hide After, Own, Observing;
    if s.op.IsCall() {
      OtherCall(c, w, s, rid);
    } else if s.op.Pass? {
      PassObserves(c, w, s);
      ObservingOwn(w.log, After(c, w, s).log, rid);
    } else {
      ForeignStep(c, w, s);
    }
  }

  lemma PassObserves(c: Config, w: World, s: Step)
    requires s.op.Pass?
    ensures Observing(w.log, After(c, w, s).log) && After(c, w, s).files == w.files
  {
    var fs := ToRecord(c, View(w.files, s.op.unreadable), w.log, s.op.listing);
    hide ToRecord, ObserveAll;
    ObserveAllObserves(c, w.log, fs[..Stop(OpStates(c, w, s.op), s.crash)], s.op.ticks);
  }

  lemma {:induction false} NobodyActs(c: Config, w: World, steps: seq<Step>, rid: string)
    requires forall s :: s in steps ==> !Acts(s, rid)
    ensures Own(Run(c, w, steps).log, rid) == Own(w.log, rid)
  {
    hide After;
    if steps == [] {
    } else {
      var n := |steps| - 1;
      NobodyActs(c, w, steps[..n], rid);
      OtherStep(c, Run(c, w, steps[..n]), steps[n], rid);
    }
  }

  /** A run is its first part followed by the rest. */
  lemma {:induction false} RunSplit(c: Config, w: World, steps: seq<Step>, i: nat)
    requires i <= |steps|
    ensures Run(c, w, steps) == Run(c, Run(c, w, steps[..i]), steps[i..])
    decreases |steps|
  {
    hide After;
    if i < |steps| {
      var n := |steps| - 1;
      RunSplit(c, w, steps[..n], i);
      assert steps[..n][..i] == steps[..i] && steps[..n][i..] == steps[i..n];
      assert steps[i..][..n - i] == steps[i..n] && steps[i..][n - i] == steps[n];
    } else {
      assert steps[..i] == steps && steps[i..] == [];
    }
  }

  lemma OneStep(c: Config, w: World, steps: seq<Step>, i: nat)
    requires i < |steps|
    ensures Run(c, w, steps[..i + 1]) == After(c, Run(c, w, steps[..i]), steps[i])
  {
    hide After;
    assert steps[..i + 1][..i] == steps[..i];
  }

  /** After a run from an empty log, the events of a call's record are exactly those the call itself appended. */
  lemma RecordHistory(c: Config, w: World, steps: seq<Step>, i: nat)
    requires w.log == [] && i < |steps| && steps[i].op.IsCall()
    requires UsedOnce(steps, steps[i].op.rq.envelope.actionId)
    ensures var before := Run(c, w, steps[..i]);
      var own := Own(Run(c, w, steps).log, steps[i].op.rq.envelope.actionId);
      CallEvents(c, before, steps[i].op, own) && After(c, before, steps[i]).log == before.log + own
  {
    var rid := steps[i].op.rq.envelope.actionId;
    var before, at := Run(c, w, steps[..i]), Run(c, w, steps[..i + 1]);
    assert Acts(steps[i], rid);
    NobodyActs(c, w, steps[..i], rid);
    RunSplit(c, w, steps, i + 1);
    NobodyActs(c, at, steps[i + 1..], rid);
    OneStep(c, w, steps, i);
    var es := CallAppends(c, before, steps[i]);
    hide After, Run, CallEvents;
    CallEventsOwned(c, before, steps[i].op, es, rid);
    FilterAppend(before.log, es, OwnedBy(rid));
    assert Own(at.log, rid) == es;
  }

  /** After a run from an empty log, the events of the record have lived as the life cycle allows. */
  lemma RecordLived(c: Config, w: World, steps: seq<Step>, rid: string)
    requires w.log == [] && UsedOnce(steps, rid)
    ensures Lived(Own(Run(c, w, steps).log, rid), rid)
  {
    hide Run, After, CallEvents, Lived;
    if i :| 0 <= i < |steps| && Acts(steps[i], rid) {
      RecordHistory(c, w, steps, i);
      CallLived(c, Run(c, w, steps[..i]), steps[i].op, Own(Run(c, w, steps).log, rid));
    } else {
      NobodyActs(c, w, steps, rid);
      assert Lived([], rid) by { NothingLived(rid); }
    }
  }

  lemma NothingLived(rid: string)
    ensures Lived([], rid)
  {}

  function KindOf(): Event -> EventType { (e: Event) => e.kind }

  /** The life cycle: observations aside, the events of a record whose id no two calls share are a prefix of pending,
      committed or of pending, failed. */
  lemma LifeCycle(c: Config, files: Files, steps: seq<Step>, rid: string)
    requires UsedOnce(steps, rid)
    ensures var kinds := Map(Own(Run(c, World([], [], files), steps).log, rid), KindOf());
      kinds <= [IntentPending, ExecutionCommitted] || kinds <= [IntentPending, ExecutionFailed]
  {
    hide Run;
    RecordLived(c, World([], [], files), steps, rid);
  }

  /** All events of one record tell the same intent, target and references. */
  lemma SameReferences(c: Config, files: Files, steps: seq<Step>, e: Event, f: Event)
    requires UsedOnce(steps, e.recordId)
    requires var log := Run(c, World([], [], files), steps).log;
      e in log && f in log && e.recordId == f.recordId
      && !e.kind.ReconciliationObserved? && !f.kind.ReconciliationObserved?
    ensures SameStory(e, f)
  {
    hide Run;
    RecordLived(c, World([], [], files), steps, e.recordId);
    var own := Own(Run(c, World([], [], files), steps).log, e.recordId);
    assert OwnedBy(e.recordId)(e) && OwnedBy(e.recordId)(f);
    FilterMember(Run(c, World([], [], files), steps).log, OwnedBy(e.recordId));
    assert e in own && f in own;
  }

  // ----- every intent has its decision -----

  /** The event names a decision if there is a decision store and the call gave an intent, and not otherwise. */
  predicate Reasoned(c: Config, e: Event) {
    e.kind.ReconciliationObserved? || (e.decisionRef.Some? <==> c.hasDecisions && e.intent.Some?)
  }

  lemma CallReasoned(c: Config, w: World, op: Op, es: seq<Event>)
    requires op.IsCall() && CallEvents(c, w, op, es)
    ensures forall e :: e in es ==> Reasoned(c, e)
  {
    hide PendingEvent, CloseEvent, EffectOf;
    PendingFields(c, w, op.rq);
    if !EffectOf(c, w, op).Uncaught? { ClosingFields(c, w, op.rq, EffectOf(c, w, op)); }
    hide ContextDigest;
  }

  lemma StepReasoned(c: Config, w: World, s: Step)
    requires forall e :: e in w.log ==> Reasoned(c, e)
    ensures forall e :: e in After(c, w, s).log ==> Reasoned(c, e)
  {
    hide After, CallEvents;
    if s.op.IsCall() {
      var es := CallAppends(c, w, s);
      CallReasoned(c, w, s.op, es);
    } else if s.op.Pass? {
      PassObserves(c, w, s);
    } else {
      ForeignStep(c, w, s);
    }
  }

  lemma {:induction false} RunReasoned(c: Config, w: World, steps: seq<Step>)
    requires w.log == []
    ensures forall e :: e in Run(c, w, steps).log ==> Reasoned(c, e)
  {
    hide After, Reasoned;
    if steps == [] {
    } else {
      var n := |steps| - 1;
      RunReasoned(c, w, steps[..n]);
      StepReasoned(c, Run(c, w, steps[..n]), steps[n]);
    }
  }

  /** With a decision store, after any run, every pending, committed or failed event of a call with an intent names a
      decision that is on record for the same action, intent and context; without one, or without an intent, it names
      none. */
  lemma EveryIntentNamed(c: Config, files: Files, steps: seq<Step>, e: Event)
    requires e in Run(c, World([], [], files), steps).log && !e.kind.ReconciliationObserved?
    ensures var w := Run(c, World([], [], files), steps);
      if c.hasDecisions && e.intent.Some? then Names(c, w.decisions, e)
      else e.decisionRef.None? && e.contextRef.None?
  {
    hide Run, Names, Clean;
    ChainsHold(c, files, steps);
    RunReasoned(c, World([], [], files), steps);
    assert Reasoned(c, e);
  }

  // ----- conservation -----

  predicate IsPending(e: Event) { e.kind.IntentPending? }

  predicate IsFailed(e: Event) { e.kind.ExecutionFailed? }

  /** Every pending event is committed, failed or still pending. */
  ghost predicate Balanced(log: seq<Event>) {
    |Filter(log, IsPending)| == |CommittedEvents(log)| + |Filter(log, IsFailed)| + |PendingEvents(log)|
  }

  lemma ClosedIsOwned(log: seq<Event>, rid: string)
    requires Own(log, rid) == []
    ensures !IsClosed(log, rid)
  {
    FilterMember(log, OwnedBy(rid));
    forall e | e in log && e.recordId == rid ensures !Closes(e.kind) {
      assert Closes(e.kind) ==> e in Own(log, rid);
    }
  }

  /** Opening a record with a new id adds one to both sides. */
  lemma OpenBalanced(log: seq<Event>, p: Event)
    requires Balanced(log) && p.kind.IntentPending? && Own(log, p.recordId) == []
    ensures Balanced(log + [p]) && PendingEvents(log + [p]) == PendingEvents(log) + [p]
  {
    var after := log + [p];
    ClosedIsOwned(log, p.recordId);
    forall rid ensures IsClosed(after, rid) == IsClosed(log, rid) { ClosedAppend(log, p, rid); }
    hide IsClosed;
    assert after[..|log|] == log;
    FilterSame(log, OpenIn(log), OpenIn(after));
  }

  lemma ClosedAppend(log: seq<Event>, e: Event, rid: string)
    ensures IsClosed(log + [e], rid) <==> IsClosed(log, rid) || (e.recordId == rid && Closes(e.kind))
  {
    var after := log + [e];
    if IsClosed(log, rid) {
      var x :| x in log && x.recordId == rid && Closes(x.kind);
      assert x in after;
    }
    if e.recordId == rid && Closes(e.kind) { assert e in after; }
  }

  function OtherRecord(rid: string): Event -> bool { (e: Event) => e.recordId != rid }

  /** Closing the one open event of a record moves it from the pending side to the closed side. */
  lemma CloseBalanced(log: seq<Event>, p: Event, e: Event)
    requires Balanced(log) && p.kind.IntentPending? && Own(log, p.recordId) == [p]
    requires e.recordId == p.recordId && Closes(e.kind)
    ensures Balanced(log + [e]) && |PendingEvents(log + [e])| == |PendingEvents(log)| - 1
  {
    var after, rid := log + [e], p.recordId;
    NotYetClosed(log, p);
    forall r ensures IsClosed(after, r) == (IsClosed(log, r) || r == rid) { ClosedAppend(log, e, r); }
    hide IsClosed;
    assert after[..|log|] == log;
    FilterTwice(log, OpenIn(log), OtherRecord(rid), OpenIn(after));
    FilterSplit(PendingEvents(log), OtherRecord(rid), HasRecord(rid));
    OpenOfRecord(log, p);
  }

  lemma NotYetClosed(log: seq<Event>, p: Event)
    requires p.kind.IntentPending? && Own(log, p.recordId) == [p]
    ensures !IsClosed(log, p.recordId)
  {
    FilterMember(log, OwnedBy(p.recordId));
    forall e | e in log && e.recordId == p.recordId ensures !Closes(e.kind) {
      assert Closes(e.kind) ==> e in Own(log, p.recordId);
    }
  }

  lemma OpenOfRecord(log: seq<Event>, p: Event)
    requires p.kind.IntentPending? && Own(log, p.recordId) == [p]
    ensures Filter(PendingEvents(log), HasRecord(p.recordId)) == [p]
  {
    var rid := p.recordId;
    NotYetClosed(log, p);
    hide IsClosed;
    FilterTwice(log, OpenIn(log), HasRecord(rid), OpenOf(log, rid));
    FilterMember(log, OwnedBy(rid));
    forall x | x in log ensures OpenOf(log, rid)(x) == (OwnedBy(rid)(x) && IsPending(x)) {
      if OwnedBy(rid)(x) { assert x in Own(log, rid); }
    }
    FilterTwice(log, OwnedBy(rid), IsPending, OpenOf(log, rid));
    assert Filter([p], IsPending) == [p];
  }

  function OpenOf(log: seq<Event>, rid: string): Event -> bool {
    (e: Event) => OpenIn(log)(e) && e.recordId == rid
  }

  lemma ObservingBalanced(a: seq<Event>, b: seq<Event>)
    requires Balanced(a) && Observing(a, b)
    ensures Balanced(b)
  {
    ObservingQueries(a, b);
    var extra := b[|a|..];
    assert b == a + extra;
    FilterAppend(a, extra, IsPending);
    FilterAppend(a, extra, IsFailed);
    FilterNothing(extra, IsPending);
    FilterNothing(extra, IsFailed);
  }

  lemma OwnFirst(log: seq<Event>, p: Event, rid: string)
    requires Own(log, rid) == [] && p.kind.IntentPending? && p.recordId == rid
    ensures Own(log + [p], rid) == [p]
  {
    assert (log + [p])[..|log|] == log;
  }

  /** A record lived from nothing keeps the balance. */
  lemma LivedBalanced(log: seq<Event>, es: seq<Event>, rid: string)
    requires Balanced(log) && Own(log, rid) == [] && Lived(es, rid)
    ensures Balanced(log + es)
  {
    hide Balanced, Own, PendingEvents;
    if es == [] {
      assert log + es == log;
    } else {
      var p := es[0];
      OpenBalanced(log, p);
      if |es| == 1 {
        assert es == [p];
      } else {
        OwnFirst(log, p, rid);
        CloseBalanced(log + [p], p, es[1]);
        assert log + [p] + [es[1]] == log + es;
      }
    }
  }

  lemma StepBalanced(c: Config, w: World, s: Step)
    requires Balanced(w.log) && (s.op.IsCall() ==> Own(w.log, s.op.rq.envelope.actionId) == [])
    ensures Balanced(After(c, w, s).log)
  {
    hide Balanced, CallEvents, Lived, Observing, Own;
    if s.op.IsCall() {
      var es := CallAppends(c, w, s);
      hide After;
      CallLived(c, w, s.op, es);
      LivedBalanced(w.log, es, s.op.rq.envelope.actionId);
    } else if s.op.Pass? {
      PassObserves(c, w, s);
      hide After;
      ObservingBalanced(w.log, After(c, w, s).log);
    } else {
      ForeignStep(c, w, s);
    }
  }

  lemma EmptyBalanced()
    ensures Balanced([])
  {}

  lemma FreshPrefix(steps: seq<Step>, n: nat)
    requires FreshRecords(steps) && n <= |steps|
    ensures FreshRecords(steps[..n])
  {
    forall rid ensures UsedOnce(steps[..n], rid) { assert UsedOnce(steps, rid); }
  }

  /** The last call of the run is the only one with its action id. */
  lemma LastActsAlone(steps: seq<Step>)
    requires FreshRecords(steps) && steps != [] && steps[|steps| - 1].op.IsCall()
    ensures var rid := steps[|steps| - 1].op.rq.envelope.actionId;
      forall s :: s in steps[..|steps| - 1] ==> !Acts(s, rid)
  {
    var rid := steps[|steps| - 1].op.rq.envelope.actionId;
    assert UsedOnce(steps, rid) && Acts(steps[|steps| - 1], rid);
  }

  /** Conservation: in any run with fresh action ids, the pending events are the committed ones, the failed ones
      and those `pending()` still returns, counted together. */
  lemma {:induction false} Conservation(c: Config, w: World, steps: seq<Step>)
    requires w.log == [] && FreshRecords(steps)
    ensures Balanced(Run(c, w, steps).log)
  {
    EmptyBalanced();
    hide Balanced, After;
    if steps == [] {
    } else {
      var n := |steps| - 1;
      var before := Run(c, w, steps[..n]);
      FreshPrefix(steps, n);
      Conservation(c, w, steps[..n]);
      if steps[n].op.IsCall() {
        LastActsAlone(steps);
        NobodyActs(c, w, steps[..n], steps[n].op.rq.envelope.actionId);
      }
      StepBalanced(c, before, steps[n]);
    }
  }

  // ----- why ids must be fresh -----

  /** A new pending event is returned by `pending()` exactly when its record id was not closed before: a call that
      reuses the id of a closed record is never returned by it, whether or not it gets any further. */
  lemma ReuseHidesPending(log: seq<Event>, p: Event)
    requires p.kind.IntentPending?
    ensures PendingEvents(log + [p])
         == PendingEvents(log) + (if IsClosed(log, p.recordId) then [] else [p])
  {
    var after := log + [p];
    forall rid ensures IsClosed(after, rid) == IsClosed(log, rid) { ClosedAppend(log, p, rid); }
    hide IsClosed;
    assert after[..|log|] == log;
    FilterSame(log, OpenIn(log), OpenIn(after));
  }
}
