/** Envelopes, execution events, their JSON payload and the sealing of an event into the chain. */
module Events {
  import opened Prelude
  import opened HashChain

  datatype Envelope = Envelope(
    actionId: string,
    tool: string,
    target: string,
    parametersDigest: string,
    expectedResultDigest: Option<string>,
    permissionScope: string,
    riskClass: seq<string>,
    redactionPolicy: Option<string>)

  datatype EventType = IntentPending | ExecutionCommitted | ExecutionFailed | ReconciliationObserved

  datatype SideEffect = NoEffect | Partial | Unknown | Confirmed

  datatype Event = Event(
    eventId: string,
    recordId: string,
    timestamp: string,
    kind: EventType,
    envelope: Option<Envelope>,
    resultDigest: Option<string>,
    errorDigest: Option<string>,
    sideEffect: Option<SideEffect>,
    confidence: Option<Token>,
    previousHash: Option<string>,
    hash: string,
    intent: Option<string>,
    decisionRef: Option<string>,
    contextRef: Option<string>,
    rdeRef: Option<string>)

  function TypeName(k: EventType): string {
    match k
    case IntentPending => "intent_pending"
    case ExecutionCommitted => "execution_committed"
    case ExecutionFailed => "execution_failed"
    case ReconciliationObserved => "reconciliation_observed"
  }

  function SideEffectName(s: SideEffect): string {
    match s
    case NoEffect => "none"
    case Partial => "partial"
    case Unknown => "unknown"
    case Confirmed => "confirmed"
  }

  // ----- event to payload -----

  function OptStr(o: Option<string>): Json {
    match o
    case None => Null
    case Some(s) => Str(s)
  }

  function EnvelopeDict(e: Envelope): Dict {
    [Field("action_id", Str(e.actionId)),
     Field("tool", Str(e.tool)),
     Field("target", Str(e.target)),
     Field("parameters_digest", Str(e.parametersDigest)),
     Field("expected_result_digest", OptStr(e.expectedResultDigest)),
     Field("permission_scope", Str(e.permissionScope)),
     Field("risk_class", Arr(Map(e.riskClass, (s: string) => Str(s)))),
     Field("redaction_policy", OptStr(e.redactionPolicy))]
  }

  /** The fields declared before `hash`. */
  function FieldsBeforeHash(e: Event): Dict {
    [Field("event_id", Str(e.eventId)),
     Field("record_id", Str(e.recordId)),
     Field("timestamp", Str(e.timestamp)),
     Field("event_type", Str(TypeName(e.kind))),
     Field("envelope", if e.envelope.None? then Null else Obj(EnvelopeDict(e.envelope.value))),
     Field("result_digest", OptStr(e.resultDigest)),
     Field("error_digest", OptStr(e.errorDigest)),
     Field("side_effect_observed", if e.sideEffect.None? then Null else Str(SideEffectName(e.sideEffect.value))),
     Field("confidence", if e.confidence.None? then Null else Num(e.confidence.value)),
     Field("previous_hash", OptStr(e.previousHash))]
  }

  /** The fields declared after `hash`. */
  function FieldsAfterHash(e: Event): Dict {
    [Field("intent", OptStr(e.intent)),
     Field("decision_ref", OptStr(e.decisionRef)),
     Field("context_ref", OptStr(e.contextRef)),
     Field("rde_ref", OptStr(e.rdeRef))]
  }

  function PayloadOf(e: Event): Dict {
    FieldsBeforeHash(e) + [Field("hash", Str(e.hash))] + FieldsAfterHash(e)
  }

  lemma KeysDistinct(e: Event)
    ensures DistinctKeys(PayloadOf(e))
  {
  }

  lemma EnvelopeKeysDistinct(e: Envelope)
    ensures DistinctKeys(EnvelopeDict(e))
  {
  }

  lemma EnvelopeWellFormed(e: Envelope)
    ensures WellFormed(Obj(EnvelopeDict(e)))
  {
    EnvelopeKeysDistinct(e);
    forall f | f in EnvelopeDict(e) ensures WellFormed(f.value) {}
  }

  predicate Scalar(v: Json) { v.Null? || v.Str? || v.Num? }

  lemma ScalarWellFormed(v: Json)
    ensures Scalar(v) ==> WellFormed(v)
  {}

  /** Apart from the envelope, every field of an event is a scalar. */
  lemma FieldKinds(e: Event)
    ensures forall f :: f in FieldsBeforeHash(e) ==>
              Scalar(f.value) || (e.envelope.Some? && f.value == Obj(EnvelopeDict(e.envelope.value)))
    ensures forall f :: f in FieldsAfterHash(e) ==> Scalar(f.value)
  {
    hide EnvelopeDict, TypeName, SideEffectName;
    var d, a := FieldsBeforeHash(e), FieldsAfterHash(e);
    assert |d| == 10 && |a| == 4;
    assert Scalar(d[0].value) && Scalar(d[1].value) && Scalar(d[2].value) && Scalar(d[3].value);
    assert Scalar(d[5].value) && Scalar(d[6].value) && Scalar(d[7].value) && Scalar(d[8].value) && Scalar(d[9].value);
    assert Scalar(a[0].value) && Scalar(a[1].value) && Scalar(a[2].value) && Scalar(a[3].value);
  }

  lemma FieldsWellFormed(e: Event)
    ensures forall f :: f in FieldsBeforeHash(e) ==> WellFormed(f.value)
    ensures forall f :: f in FieldsAfterHash(e) ==> WellFormed(f.value)
  {
    hide EnvelopeDict, FieldsBeforeHash, FieldsAfterHash, WellFormed, Scalar;
    FieldKinds(e);
    if e.envelope.Some? { EnvelopeWellFormed(e.envelope.value); }
    forall v ensures Scalar(v) ==> WellFormed(v) { ScalarWellFormed(v); }
  }

  /** Every payload is a well-formed JSON object. */
  lemma PayloadWellFormed(e: Event)
    ensures WellFormed(Obj(PayloadOf(e)))
  {
    hide FieldsBeforeHash, FieldsAfterHash, DistinctKeys;
    KeysDistinct(e);
    FieldsWellFormed(e);
  }

  // ----- payload to event -----

  function Lookup(d: Dict, k: string): Option<Json> {
    if d == [] then None else if d[0].key == k then Some(d[0].value) else Lookup(d[1..], k)
  }

  lemma {:induction false} LookupAt(d: Dict, i: nat)
    requires DistinctKeys(d) && i < |d|
    ensures Lookup(d, d[i].key) == Some(d[i].value)
  {
    if i == 0 {
    } else {
      LookupAt(d[1..], i - 1);
    }
  }

  /** How the fields of a dictionary are read. */
  type Reader = string -> Option<Json>

  function ReaderOf(d: Dict): Reader { k => Lookup(d, k) }

  /** A required string field. */
  function GetStr(get: Reader, k: string): Option<string> {
    var v :- get(k);
    if v.Str? then Some(v.s) else None
  }

  /** An optional string field: a missing or null field reads as absent, any other value is refused. */
  function GetOptStr(get: Reader, k: string): Option<Option<string>> {
    match get(k)
    case None => Some(None)
    case Some(Null) => Some(None)
    case Some(Str(s)) => Some(Some(s))
    case _ => None
  }

  function StrItems(items: seq<Json>): Option<seq<string>> {
    if items == [] then Some([])
    else if !items[0].Str? then None
    else
      var rest :- StrItems(items[1..]);
      Some([items[0].s] + rest)
  }

  function EventTypeOf(name: string): Option<EventType> {
    if name == TypeName(IntentPending) then Some(IntentPending)
    else if name == TypeName(ExecutionCommitted) then Some(ExecutionCommitted)
    else if name == TypeName(ExecutionFailed) then Some(ExecutionFailed)
    else if name == TypeName(ReconciliationObserved) then Some(ReconciliationObserved)
    else None
  }

  function SideEffectOf(v: Option<Json>): Option<Option<SideEffect>> {
    match v
    case None => Some(None)
    case Some(Null) => Some(None)
    case Some(Str(name)) =>
      if name == SideEffectName(NoEffect) then Some(Some(NoEffect))
      else if name == SideEffectName(Partial) then Some(Some(Partial))
      else if name == SideEffectName(Unknown) then Some(Some(Unknown))
      else if name == SideEffectName(Confirmed) then Some(Some(Confirmed))
      else None
    case _ => None
  }

  function ConfidenceOf(v: Option<Json>): Option<Option<Token>> {
    match v
    case None => Some(None)
    case Some(Null) => Some(None)
    case Some(Num(t)) => Some(Some(t))
    case _ => None
  }

  function EnvelopeOf(get: Reader): Option<Envelope> {
    var actionId :- GetStr(get, "action_id");
    var tool :- GetStr(get, "tool");
    var target :- GetStr(get, "target");
    var parametersDigest :- GetStr(get, "parameters_digest");
    var expected :- GetOptStr(get, "expected_result_digest");
    var scope :- GetStr(get, "permission_scope");
    var risk :- get("risk_class");
    var riskClass :- if risk.Arr? then StrItems(risk.items) else None;
    var redaction :- GetOptStr(get, "redaction_policy");
    Some(Envelope(actionId, tool, target, parametersDigest, expected, scope, riskClass, redaction))
  }

  function OptEnvelopeOf(v: Option<Json>): Option<Option<Envelope>> {
    match v
    case None => Some(None)
    case Some(Null) => Some(None)
    case Some(Obj(d)) =>
      var e :- EnvelopeOf(ReaderOf(d));
      Some(Some(e))
    case _ => None
  }

  /** The first five fields; `None` when validation refuses one of them. */
  function SubjectFrom(get: Reader): Option<(string, string, string, EventType, Option<Envelope>)> {
    var eventId :- GetStr(get, "event_id");
    var recordId :- GetStr(get, "record_id");
    var timestamp :- GetStr(get, "timestamp");
    var typeName :- GetStr(get, "event_type");
    var kind :- EventTypeOf(typeName);
    var envelope :- OptEnvelopeOf(get("envelope"));
    Some((eventId, recordId, timestamp, kind, envelope))
  }

  function ObservationFrom(get: Reader)
    : Option<(Option<string>, Option<string>, Option<SideEffect>, Option<Token>)>
  {
    var resultDigest :- GetOptStr(get, "result_digest");
    var errorDigest :- GetOptStr(get, "error_digest");
    var sideEffect :- SideEffectOf(get("side_effect_observed"));
    var confidence :- ConfidenceOf(get("confidence"));
    Some((resultDigest, errorDigest, sideEffect, confidence))
  }

  function ReferencesFrom(get: Reader): Option<(Option<string>, Option<string>, Option<string>, Option<string>)> {
    var intent :- GetOptStr(get, "intent");
    var decisionRef :- GetOptStr(get, "decision_ref");
    var contextRef :- GetOptStr(get, "context_ref");
    var rdeRef :- GetOptStr(get, "rde_ref");
    Some((intent, decisionRef, contextRef, rdeRef))
  }

  /** The event read field by field; `None` when validation refuses a field. */
  function EventFrom(get: Reader): Option<Event> {
    var s :- SubjectFrom(get);
    var o :- ObservationFrom(get);
    var previousHash :- GetOptStr(get, "previous_hash");
    var hash :- GetStr(get, "hash");
    var r :- ReferencesFrom(get);
    Some(Event(s.0, s.1, s.2, s.3, s.4, o.0, o.1, o.2, o.3, previousHash, hash, r.0, r.1, r.2, r.3))
  }

  /** The event a stored payload stands for. */
  function EventOf(d: Dict): Option<Event> { EventFrom(ReaderOf(d)) }

  lemma {:induction false} StrItemsInverse(ss: seq<string>)
    ensures StrItems(Map(ss, (s: string) => Str(s))) == Some(ss)
  {
    var f := (s: string) => Str(s);
    if ss == [] {
    } else {
      StrItemsInverse(ss[1..]);
      assert Map(ss, f)[1..] == Map(ss[1..], f);
      assert ss == [ss[0]] + ss[1..];
    }
  }

  lemma ReadStr(get: Reader, k: string, s: string)
    requires get(k) == Some(Str(s))
    ensures GetStr(get, k) == Some(s)
  {}

  lemma ReadOptStr(get: Reader, k: string, o: Option<string>)
    requires get(k) == Some(OptStr(o))
    ensures GetOptStr(get, k) == Some(o)
  {}

  /** What a reader finds in a stored envelope. */
  lemma EnvelopeFields(e: Envelope)
    ensures var get := ReaderOf(EnvelopeDict(e));
      && get("action_id") == Some(Str(e.actionId)) && get("tool") == Some(Str(e.tool))
      && get("target") == Some(Str(e.target)) && get("parameters_digest") == Some(Str(e.parametersDigest))
      && get("expected_result_digest") == Some(OptStr(e.expectedResultDigest))
      && get("permission_scope") == Some(Str(e.permissionScope))
      && get("risk_class") == Some(Arr(Map(e.riskClass, (s: string) => Str(s))))
      && get("redaction_policy") == Some(OptStr(e.redactionPolicy))
  {
    hide Lookup, Map, OptStr;
    var d := EnvelopeDict(e);
    EnvelopeKeysDistinct(e);
    LookupAt(d, 0); LookupAt(d, 1); LookupAt(d, 2); LookupAt(d, 3);
    LookupAt(d, 4); LookupAt(d, 5); LookupAt(d, 6); LookupAt(d, 7);
  }

  lemma EnvelopeInverse(e: Envelope)
    ensures EnvelopeOf(ReaderOf(EnvelopeDict(e))) == Some(e)
  {
    hide Lookup, StrItems, EnvelopeDict, OptStr, GetStr, GetOptStr, ReaderOf;
    var get := ReaderOf(EnvelopeDict(e));
    EnvelopeFields(e);
    StrItemsInverse(e.riskClass);
    ReadStr(get, "action_id", e.actionId);
    ReadStr(get, "tool", e.tool);
    ReadStr(get, "target", e.target);
    ReadStr(get, "parameters_digest", e.parametersDigest);
    ReadOptStr(get, "expected_result_digest", e.expectedResultDigest);
    ReadStr(get, "permission_scope", e.permissionScope);
    ReadOptStr(get, "redaction_policy", e.redactionPolicy);
  }

  lemma NamesInverse(e: Event)
    ensures EventTypeOf(TypeName(e.kind)) == Some(e.kind)
    ensures e.sideEffect.Some? ==> SideEffectOf(Some(Str(SideEffectName(e.sideEffect.value)))) == Some(e.sideEffect)
  {
    assert SideEffectName(Partial)[0] != SideEffectName(Unknown)[0];
  }

  lemma ReadSubject(e: Event)
    ensures SubjectFrom(ReaderOf(PayloadOf(e))) == Some((e.eventId, e.recordId, e.timestamp, e.kind, e.envelope))
  {
    var d := PayloadOf(e);
    var get := ReaderOf(d);
    hide Lookup, EnvelopeDict;
    KeysDistinct(e);
    NamesInverse(e);
    if e.envelope.Some? { EnvelopeInverse(e.envelope.value); }
    assert d[0] == FieldsBeforeHash(e)[0] && d[1] == FieldsBeforeHash(e)[1] && d[2] == FieldsBeforeHash(e)[2];
    assert d[3] == FieldsBeforeHash(e)[3] && d[4] == FieldsBeforeHash(e)[4];
    LookupAt(d, 0); LookupAt(d, 1); LookupAt(d, 2); LookupAt(d, 3); LookupAt(d, 4);
    ReadStr(get, "event_id", e.eventId);
    ReadStr(get, "record_id", e.recordId);
    ReadStr(get, "timestamp", e.timestamp);
    ReadStr(get, "event_type", TypeName(e.kind));
  }

  lemma ReadObservation(e: Event)
    ensures ObservationFrom(ReaderOf(PayloadOf(e)))
         == Some((e.resultDigest, e.errorDigest, e.sideEffect, e.confidence))
  {
    var d := PayloadOf(e);
    var get := ReaderOf(d);
    hide Lookup, EnvelopeDict;
    KeysDistinct(e);
    NamesInverse(e);
    assert d[5] == FieldsBeforeHash(e)[5] && d[6] == FieldsBeforeHash(e)[6];
    assert d[7] == FieldsBeforeHash(e)[7] && d[8] == FieldsBeforeHash(e)[8];
    LookupAt(d, 5); LookupAt(d, 6); LookupAt(d, 7); LookupAt(d, 8);
    ReadOptStr(get, "result_digest", e.resultDigest);
    ReadOptStr(get, "error_digest", e.errorDigest);
  }

  lemma ReadLink(e: Event)
    ensures GetOptStr(ReaderOf(PayloadOf(e)), "previous_hash") == Some(e.previousHash)
    ensures GetStr(ReaderOf(PayloadOf(e)), "hash") == Some(e.hash)
    ensures Lookup(PayloadOf(e), "previous_hash") == Some(OptStr(e.previousHash))
    ensures Lookup(PayloadOf(e), "event_id") == Some(Str(e.eventId))
  {
    hide Lookup;
    var d := PayloadOf(e);
    KeysDistinct(e);
    assert d[0] == FieldsBeforeHash(e)[0] && d[9] == FieldsBeforeHash(e)[9] && d[10] == Field("hash", Str(e.hash));
    LookupAt(d, 0); LookupAt(d, 9); LookupAt(d, 10);
    ReadOptStr(ReaderOf(d), "previous_hash", e.previousHash);
    ReadStr(ReaderOf(d), "hash", e.hash);
  }

  lemma ReadReferences(e: Event)
    ensures ReferencesFrom(ReaderOf(PayloadOf(e))) == Some((e.intent, e.decisionRef, e.contextRef, e.rdeRef))
  {
    var d := PayloadOf(e);
    var get := ReaderOf(d);
    hide Lookup, EnvelopeDict;
    KeysDistinct(e);
    assert d[11] == FieldsAfterHash(e)[0] && d[12] == FieldsAfterHash(e)[1];
    assert d[13] == FieldsAfterHash(e)[2] && d[14] == FieldsAfterHash(e)[3];
    LookupAt(d, 11); LookupAt(d, 12); LookupAt(d, 13); LookupAt(d, 14);
    ReadOptStr(get, "intent", e.intent);
    ReadOptStr(get, "decision_ref", e.decisionRef);
    ReadOptStr(get, "context_ref", e.contextRef);
    ReadOptStr(get, "rde_ref", e.rdeRef);
  }

  /** Reading back a stored payload gives the event that was stored. */
  lemma PayloadRoundTrip(e: Event)
    ensures EventOf(PayloadOf(e)) == Some(e)
  {
    ReadSubject(e);
    ReadObservation(e);
    ReadLink(e);
    ReadReferences(e);
  }

  /** The fields of a stored payload and what they hold, up to the link. */
  lemma PayloadSubject(e: Event)
    ensures var get := ReaderOf(PayloadOf(e));
      && get("event_id") == Some(Str(e.eventId)) && get("record_id") == Some(Str(e.recordId))
      && get("timestamp") == Some(Str(e.timestamp))
      && get("event_type") == Some(Str(match e.kind
                                       case IntentPending => "intent_pending"
                                       case ExecutionCommitted => "execution_committed"
                                       case ExecutionFailed => "execution_failed"
                                       case ReconciliationObserved => "reconciliation_observed"))
      && get("envelope") == Some(match e.envelope case None => Null case Some(n) => Obj(EnvelopeDict(n)))
      && get("result_digest") == Some(match e.resultDigest case None => Null case Some(s) => Str(s))
      && get("error_digest") == Some(match e.errorDigest case None => Null case Some(s) => Str(s))
  {
    hide Lookup, EnvelopeDict;
    var d, b := PayloadOf(e), FieldsBeforeHash(e);
    KeysDistinct(e);
    assert d[0] == b[0] && d[1] == b[1] && d[2] == b[2] && d[3] == b[3] && d[4] == b[4] && d[5] == b[5] && d[6] == b[6];
    LookupAt(d, 0); LookupAt(d, 1); LookupAt(d, 2); LookupAt(d, 3); LookupAt(d, 4); LookupAt(d, 5); LookupAt(d, 6);
  }

  /** The rest of the fields; there are no others. */
  lemma PayloadRest(e: Event)
    ensures var get := ReaderOf(PayloadOf(e));
      && get("side_effect_observed") == Some(match e.sideEffect
                                             case None => Null
                                             case Some(NoEffect) => Str("none")
                                             case Some(Partial) => Str("partial")
                                             case Some(Unknown) => Str("unknown")
                                             case Some(Confirmed) => Str("confirmed"))
      && get("confidence") == Some(match e.confidence case None => Null case Some(t) => Num(t))
      && get("previous_hash") == Some(match e.previousHash case None => Null case Some(s) => Str(s))
      && get("hash") == Some(Str(e.hash))
      && get("intent") == Some(match e.intent case None => Null case Some(s) => Str(s))
      && get("decision_ref") == Some(match e.decisionRef case None => Null case Some(s) => Str(s))
      && get("context_ref") == Some(match e.contextRef case None => Null case Some(s) => Str(s))
      && get("rde_ref") == Some(match e.rdeRef case None => Null case Some(s) => Str(s))
    ensures |PayloadOf(e)| == 15 && DistinctKeys(PayloadOf(e))
  {
    hide Lookup, EnvelopeDict;
    var d, b, a := PayloadOf(e), FieldsBeforeHash(e), FieldsAfterHash(e);
    KeysDistinct(e);
    assert d[7] == b[7] && d[8] == b[8] && d[9] == b[9] && d[10] == Field("hash", Str(e.hash));
    assert d[11] == a[0] && d[12] == a[1] && d[13] == a[2] && d[14] == a[3];
    LookupAt(d, 7); LookupAt(d, 8); LookupAt(d, 9); LookupAt(d, 10);
    LookupAt(d, 11); LookupAt(d, 12); LookupAt(d, 13); LookupAt(d, 14);
  }

  // ----- sealing -----

  /** A payload without one of its keys. */
  function Without(d: Dict, k: string): Dict {
    if d == [] then [] else (if d[0].key == k then [] else [d[0]]) + Without(d[1..], k)
  }

  lemma WithoutCons(f: Field, d: Dict, k: string)
    ensures Without([], k) == []
    ensures Without([f] + d, k) == (if f.key == k then [] else [f]) + Without(d, k)
  {
    assert ([f] + d)[1..] == d;
  }

  lemma {:induction false} WithoutAppend(a: Dict, b: Dict, k: string)
    ensures Without(a + b, k) == Without(a, k) + Without(b, k)
  {
    hide Without;
    if a == [] {
      WithoutCons(Field(k, Null), [], k);
      assert a + b == b;
    } else {
      var f, rest := a[0], a[1..];
      WithoutAppend(rest, b, k);
      WithoutCons(f, rest, k);
      WithoutCons(f, rest + b, k);
      Assoc([f], rest, b);
      Assoc(if f.key == k then [] else [f], Without(rest, k), Without(b, k));
      assert a == [f] + rest;
    }
  }

  lemma {:induction false} WithoutAbsent(d: Dict, k: string)
    requires forall f :: f in d ==> f.key != k
    ensures Without(d, k) == d
  {
    if d == [] {
    } else {
      WithoutAbsent(d[1..], k);
    }
  }

  /** What the hash of an event covers: its payload without the hash. */
  function Hashed(e: Event): Dict { FieldsBeforeHash(e) + FieldsAfterHash(e) }

  lemma NoHashKey(e: Event)
    ensures forall f :: f in FieldsBeforeHash(e) ==> f.key != "hash"
    ensures forall f :: f in FieldsAfterHash(e) ==> f.key != "hash"
  {
    forall f | f in FieldsBeforeHash(e) ensures f.key != "hash" { assert |f.key| != 4; }
    forall f | f in FieldsAfterHash(e) ensures f.key != "hash" { assert |f.key| != 4; }
  }

  lemma WithoutField(f: Field)
    ensures Without([f], f.key) == []
  {}

  lemma WithoutHash(e: Event)
    ensures Without(PayloadOf(e), "hash") == Hashed(e)
  {
    hide Without, FieldsBeforeHash, FieldsAfterHash;
    var a, h, b := FieldsBeforeHash(e), [Field("hash", Str(e.hash))], FieldsAfterHash(e);
    NoHashKey(e);
    WithoutAppend(a + h, b, "hash");
    WithoutAppend(a, h, "hash");
    WithoutAbsent(a, "hash");
    WithoutField(h[0]);
    WithoutAbsent(b, "hash");
  }

  /** The event linked behind `previous`, with its hash computed from its own stored payload. */
  function Seal(sha: Sha256, draft: Event, previous: string): (e: Event)
    ensures e.eventId == draft.eventId && e.recordId == draft.recordId && e.kind == draft.kind
    ensures e.previousHash == Some(previous)
  {
    var e := draft.(previousHash := Some(previous), hash := "");
    e.(hash := ComputeHash(sha, previous, Without(PayloadOf(e), "hash")))
  }

  /** The hash of a sealed event can be recomputed from the payload that is stored. */
  lemma SealedHash(sha: Sha256, draft: Event, previous: string)
    ensures var e := Seal(sha, draft, previous);
      e.hash == ComputeHash(sha, previous, Without(PayloadOf(e), "hash"))
  {
    var e := Seal(sha, draft, previous);
    WithoutHash(e);
    WithoutHash(e.(hash := ""));
    assert Hashed(e) == Hashed(e.(hash := ""));
  }
}
