/** The execution surface that decides, executes and emits one audit event per request. */
module ServiceRuntime {
  import opened Prelude

  datatype RuntimeRequest = RuntimeRequest(toolName: string, workspace: string, requestId: Option<string>)

  datatype BoundaryDecision = BoundaryDecision(allowed: bool, reason: string)

  datatype BackendResult = BackendResult(
    allowed: bool, error: Option<string>, output: Option<string>, backendName: string)

  /** What the boundary decides about a tool, at one moment. */
  type Boundary = string -> BoundaryDecision

  /** What the backend answers for a request under the id it was given, at one moment; `None` when it raises. */
  type Backend = (string, RuntimeRequest) -> Option<BackendResult>

  datatype RuntimeResult = RuntimeResult(
    allowed: bool, reason: string, output: Option<string>, error: Option<string>, requestId: string)

  datatype AuditEvent = AuditEvent(
    eventType: string, requestId: string, toolName: string, allowed: bool, reason: string, workspace: string,
    timestamp: string, error: Option<string>, executionBackend: Option<string>)

  /** An audit event as a dictionary; a key that is missing reads as empty or `None`. */
  datatype AuditRecord = AuditRecord(
    requestId: string, toolName: Option<string>, allowed: Option<bool>, error: Option<string>,
    executionBackend: Option<string>)

  predicate Given(o: Option<string>) { o.Some? && o.value != "" }

  /** One request as it is served: the id that is drawn should it bring none, the time of its event, and how the
      boundary and the backend answer at that moment. */
  datatype Visit = Visit(rq: RuntimeRequest, uuid: string, time: string, boundary: Boundary, backend: Backend) {
    function Id(): string { if Given(rq.requestId) then rq.requestId.value else uuid }
  }

  /** What the caller of one request gets; `None` when the backend raises. */
  function ResultFor(v: Visit): Option<RuntimeResult> {
    var d := v.boundary(v.rq.toolName);
    if !d.allowed then Some(RuntimeResult(false, d.reason, None, None, v.Id())) else
      var b :- v.backend(v.Id(), v.rq);
      if Given(b.error) && !b.allowed then Some(RuntimeResult(b.allowed, d.reason, None, b.error, v.Id()))
      else Some(RuntimeResult(b.allowed, d.reason, b.output, None, v.Id()))
  }

  /** What the audit trail gets; nothing when the backend raises. */
  function EventFor(v: Visit): Option<AuditEvent> {
    var d := v.boundary(v.rq.toolName);
    if !d.allowed then
      Some(AuditEvent("deny", v.Id(), v.rq.toolName, false, d.reason, v.rq.workspace, v.time, None,
                      Some("not_invoked")))
    else
      var b :- v.backend(v.Id(), v.rq);
      if Given(b.error) && !b.allowed then
        Some(AuditEvent("error", v.Id(), v.rq.toolName, b.allowed, d.reason, v.rq.workspace, v.time, b.error,
                        Some(b.backendName)))
      else
        Some(AuditEvent(if b.allowed then "allow" else "deny", v.Id(), v.rq.toolName, b.allowed, d.reason,
                        v.rq.workspace, v.time, None, Some(b.backendName)))
  }

  function RecordOf(e: AuditEvent): AuditRecord {
    AuditRecord(e.requestId, Some(e.toolName), Some(e.allowed), e.error, e.executionBackend)
  }

  class InMemoryAuditEventSink {
    var events: seq<AuditEvent>

    constructor ()
      ensures events == []
    {
      events := [];
    }

    method Emit(e: AuditEvent)
      modifies this
      ensures events == old(events) + [e]
    {
      events := events + [e];
    }
  }

  class ServiceRuntime {
    const sink: InMemoryAuditEventSink

    constructor (sink: InMemoryAuditEventSink)
      ensures this.sink == sink
    {
      this.sink := sink;
    }

    /** Decides, executes and emits one audit event; `None`, and no event, when the backend raises. */
    method Execute(v: Visit) returns (r: Option<RuntimeResult>)
      modifies sink
      ensures r == ResultFor(v)
      ensures sink.events == old(sink.events) + (if EventFor(v).Some? then [EventFor(v).value] else [])
    {
      var rq, time := v.rq, v.time;
      var id := if Given(rq.requestId) then rq.requestId.value else v.uuid;
      var tool := rq.toolName;
      var decision := v.boundary(tool);
      if !decision.allowed {
        sink.Emit(AuditEvent("deny", id, tool, false, decision.reason, rq.workspace, time, None, Some("not_invoked")));
        return Some(RuntimeResult(false, decision.reason, None, None, id));
      }
      var answer := v.backend(id, rq);
      if answer.None? { return None; }
      var b := answer.value;
      if Given(b.error) && !b.allowed {
        sink.Emit(AuditEvent("error", id, tool, b.allowed, decision.reason, rq.workspace, time, b.error,
                             Some(b.backendName)));
        return Some(RuntimeResult(b.allowed, decision.reason, None, b.error, id));
      }
      sink.Emit(AuditEvent(if b.allowed then "allow" else "deny", id, tool, b.allowed, decision.reason, rq.workspace,
                           time, None, Some(b.backendName)));
      r := Some(RuntimeResult(b.allowed, decision.reason, b.output, None, id));
    }

    /** The audit events as dictionaries. */
    function Events(): seq<AuditRecord>
      reads sink
    {
      Map(sink.events, RecordOf)
    }
  }

  /** Answer and audit event field by field, without their branches: nothing is allowed that the boundary or the backend
      refuses, an error is told only with a refusal by the backend, and an output only without an error. */
  lemma ServedFields(v: Visit)
    requires EventFor(v).Some? && ResultFor(v).Some?
    ensures var e, r := EventFor(v).value, ResultFor(v).value;
      var d, b := v.boundary(v.rq.toolName), v.backend(v.Id(), v.rq);
      && v.Id() == (if v.rq.requestId.Some? && v.rq.requestId.value != "" then v.rq.requestId.value else v.uuid)
      && e.requestId == r.requestId == v.Id() && e.toolName == v.rq.toolName && e.workspace == v.rq.workspace
      && e.timestamp == v.time && e.reason == r.reason == d.reason
      && (d.allowed ==> b.Some?)
      && e.allowed == r.allowed == (d.allowed && b.value.allowed)
      && e.error == r.error
      && (e.error.Some? <==> d.allowed && !b.value.allowed && b.value.error.Some? && b.value.error.value != "")
      && (e.error.Some? ==> e.error == b.value.error)
      && e.executionBackend == Some(if d.allowed then b.value.backendName else "not_invoked")
      && e.eventType == (if e.allowed then "allow" else if e.error.Some? then "error" else "deny")
      && r.output == (if d.allowed && e.error.None? then b.value.output else None)
  {}

  /** The caller gets an answer exactly when the audit trail gets an event; the audit record tells the caller's verdict,
      and an error only together with a refusal. */
  lemma EventAgrees(v: Visit)
    ensures EventFor(v).Some? <==> ResultFor(v).Some?
    ensures EventFor(v).Some? ==>
              var e, r := RecordOf(EventFor(v).value), ResultFor(v).value;
              && e.requestId == r.requestId == v.Id() && e.toolName == Some(v.rq.toolName)
              && e.allowed == Some(r.allowed) && e.error == r.error && (r.error.Some? ==> !r.allowed)
  {}
}
