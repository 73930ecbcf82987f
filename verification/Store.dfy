/** The append-only execution store: rows, queries and the chain verifier. */
module Store {
  import opened Prelude
  import opened HashChain
  import opened Events

  /** A stored row: the selectable columns, the payload as parsed from its JSON text, and the stored hash. */
  datatype Row = Row(eventId: string, recordId: string, eventType: string, payload: Dict, hash: string)

  function RowOf(e: Event): Row {
    Row(e.eventId, e.recordId, TypeName(e.kind), PayloadOf(e), e.hash)
  }

  function RowsOf(log: seq<Event>): seq<Row> { Map(log, RowOf) }

  // ----- the chain verifier -----

  datatype ChainDiagnosis = PreviousHashMismatch | HashMismatch
  datatype ChainFinding = ChainFinding(row: nat, eventId: Option<Json>, diagnosis: ChainDiagnosis)

  function LastRowHash(rows: seq<Row>): string {
    if rows == [] then GENESIS_HASH else rows[|rows| - 1].hash
  }

  /** The payload part that a hash covers. */
  function Content(row: Row): Dict { Without(row.payload, "hash") }

  function RecordedPrevious(row: Row): Json {
    var v := Lookup(row.payload, "previous_hash");
    if v.None? then Str("") else v.value
  }

  /** The findings of one row behind `previous`; a recorded previous hash that is not a string raises. */
  function RowFindings(sha: Sha256, previous: string, i: nat, row: Row): Option<seq<ChainFinding>> {
    var id := Lookup(row.payload, "event_id");
    var recorded := RecordedPrevious(row);
    if !recorded.Str? then None else
      Some((if recorded.s != previous then [ChainFinding(i, id, PreviousHashMismatch)] else [])
           + (if ComputeHash(sha, recorded.s, Content(row)) != row.hash
              then [ChainFinding(i, id, HashMismatch)] else []))
  }

  function Findings(sha: Sha256, rows: seq<Row>): Option<seq<ChainFinding>> {
    if rows == [] then Some([]) else
      var n := |rows| - 1;
      var before :- Findings(sha, rows[..n]);
      var here :- RowFindings(sha, LastRowHash(rows[..n]), n, rows[n]);
      Some(before + here)
  }

  /** The row's recorded previous hash is not the hash stored just before it. */
  predicate LinkBroken(rows: seq<Row>, i: nat)
    requires i < |rows|
  {
    RecordedPrevious(rows[i]) != Str(LastRowHash(rows[..i]))
  }

  /** The row's stored hash is not the hash of its own content. */
  predicate HashBroken(sha: Sha256, rows: seq<Row>, i: nat)
    requires i < |rows|
  {
    RecordedPrevious(rows[i]).Str? ==>
      ComputeHash(sha, RecordedPrevious(rows[i]).s, Content(rows[i])) != rows[i].hash
  }

  /** Verification raises exactly when some recorded previous hash is not a string. */
  lemma {:induction false} FindingsRaise(sha: Sha256, rows: seq<Row>)
    ensures Findings(sha, rows).Some? <==> forall r :: r in rows ==> RecordedPrevious(r).Str?
  {
    hide Lookup, ComputeHash, Content, RecordedPrevious;
    if rows == [] {
    } else {
      FindingsRaise(sha, rows[..|rows| - 1]);
      assert rows == rows[..|rows| - 1] + [rows[|rows| - 1]];
    }
  }

  /** A finding is reported exactly where a link or a hash is broken. */
  ghost predicate Deserved(sha: Sha256, rows: seq<Row>, f: ChainFinding) {
    && f.row < |rows|
    && f.eventId == Lookup(rows[f.row].payload, "event_id")
    && (if f.diagnosis.PreviousHashMismatch? then LinkBroken(rows, f.row) else HashBroken(sha, rows, f.row))
  }

  lemma RowFindingsExact(sha: Sha256, previous: string, i: nat, row: Row, f: ChainFinding)
    requires RecordedPrevious(row).Str?
    ensures RowFindings(sha, previous, i, row).Some?
    ensures f in RowFindings(sha, previous, i, row).value <==>
            f.row == i && f.eventId == Lookup(row.payload, "event_id")
            && (if f.diagnosis.PreviousHashMismatch? then RecordedPrevious(row).s != previous
                else ComputeHash(sha, RecordedPrevious(row).s, Content(row)) != row.hash)
  {
    hide ComputeHash, Content, RecordedPrevious, Lookup;
  }

  lemma {:induction false} FindingsExact(sha: Sha256, rows: seq<Row>, f: ChainFinding)
    requires Findings(sha, rows).Some?
    ensures f in Findings(sha, rows).value <==> Deserved(sha, rows, f)
  {
    if rows == [] {
    } else {
      var n := |rows| - 1;
      var before := rows[..n];
      FindingsExact(sha, before, f);
      RowFindingsExact(sha, LastRowHash(before), n, rows[n], f);
      hide RowFindings, ComputeHash, Content, RecordedPrevious, Lookup;
      if f.row < n { assert before[..f.row] == rows[..f.row]; }
    }
  }

  /** One finding comes before another: its row does, or it is the broken link of the same row. */
  predicate Before(f: ChainFinding, g: ChainFinding) {
    f.row < g.row || (f.row == g.row && f.diagnosis.PreviousHashMismatch? && g.diagnosis.HashMismatch?)
  }

  lemma RowAscends(sha: Sha256, previous: string, i: nat, row: Row)
    requires RowFindings(sha, previous, i, row).Some?
    ensures var fs := RowFindings(sha, previous, i, row).value;
      (forall f :: f in fs ==> f.row == i) && forall x, y :: 0 <= x < y < |fs| ==> Before(fs[x], fs[y])
  {
    hide ComputeHash, Content, RecordedPrevious, Lookup;
  }

  /** The findings come row by row, each once: a broken link before a broken hash. */
  lemma {:induction false} FindingsAscend(sha: Sha256, rows: seq<Row>)
    requires Findings(sha, rows).Some?
    ensures var fs := Findings(sha, rows).value;
      (forall f :: f in fs ==> f.row < |rows|) && forall x, y :: 0 <= x < y < |fs| ==> Before(fs[x], fs[y])
  {
    hide RowFindings;
    if rows == [] {
    } else {
      var n := |rows| - 1;
      FindingsAscend(sha, rows[..n]);
      RowAscends(sha, LastRowHash(rows[..n]), n, rows[n]);
    }
  }

  predicate Clean(sha: Sha256, rows: seq<Row>) { Findings(sha, rows) == Some([]) }

  ghost predicate Intact(sha: Sha256, rows: seq<Row>) {
    forall i :: 0 <= i < |rows| ==>
      RecordedPrevious(rows[i]).Str? && !LinkBroken(rows, i) && !HashBroken(sha, rows, i)
  }

  /** The verifier is silent exactly when every link and every hash holds. */
  lemma CleanExact(sha: Sha256, rows: seq<Row>)
    ensures Clean(sha, rows) <==> Intact(sha, rows)
  {
    FindingsRaise(sha, rows);
    if Clean(sha, rows) {
      forall i | 0 <= i < |rows|
        ensures RecordedPrevious(rows[i]).Str? && !LinkBroken(rows, i) && !HashBroken(sha, rows, i)
      {
        assert rows[i] in rows;
        var id := Lookup(rows[i].payload, "event_id");
        FindingsExact(sha, rows, ChainFinding(i, id, PreviousHashMismatch));
        FindingsExact(sha, rows, ChainFinding(i, id, HashMismatch));
      }
    }
    if Intact(sha, rows) {
      var fs := Findings(sha, rows).value;
      if fs != [] {
        FindingsExact(sha, rows, fs[0]);
      }
    }
  }

  /** The hash that row `i` has to name: the genesis hash first, then the one stored with the row before. */
  function StoredBefore(rows: seq<Row>, i: nat): string
    requires i <= |rows|
  {
    if i == 0 then GENESIS_HASH else rows[i - 1].hash
  }

  /** The row records the hash stored before it, and stores the hash of that and of its own content. */
  predicate RowHolds(sha: Sha256, rows: seq<Row>, i: nat)
    requires i < |rows|
  {
    && Lookup(rows[i].payload, "previous_hash") == Some(Str(StoredBefore(rows, i)))
    && rows[i].hash == ComputeHash(sha, StoredBefore(rows, i), Without(rows[i].payload, "hash"))
  }

  lemma StoredBeforeExact(rows: seq<Row>, i: nat)
    requires i <= |rows|
    ensures LastRowHash(rows[..i]) == StoredBefore(rows, i)
  {}

  lemma RowHoldsExact(sha: Sha256, rows: seq<Row>, i: nat)
    requires i < |rows|
    ensures var intact := RecordedPrevious(rows[i]).Str? && !LinkBroken(rows, i) && !HashBroken(sha, rows, i);
      && (RowHolds(sha, rows, i) ==> intact)
      && (intact && StoredBefore(rows, i) != "" ==> RowHolds(sha, rows, i))
  {
    StoredBeforeExact(rows, i);
    hide StoredBefore, LastRowHash, ComputeHash, Lookup, Without;
  }

  /** Clean, said row by row. */
  lemma CleanMeaning(sha: Sha256, rows: seq<Row>)
    ensures Clean(sha, rows) <==> forall i :: 0 <= i < |rows| ==> RowHolds(sha, rows, i)
  {
    hide Clean, RowHolds, LinkBroken, HashBroken, RecordedPrevious, StoredBefore;
    CleanExact(sha, rows);
    forall i | 0 <= i < |rows|
      ensures RowHolds(sha, rows, i) ==>
                RecordedPrevious(rows[i]).Str? && !LinkBroken(rows, i) && !HashBroken(sha, rows, i)
    {
      RowHoldsExact(sha, rows, i);
    }
    if Intact(sha, rows) {
      forall i | 0 <= i < |rows| ensures RowHolds(sha, rows, i) {
        PreviousNotEmpty(sha, rows, i);
        StoredBeforeExact(rows, i);
        RowHoldsExact(sha, rows, i);
      }
    }
  }

  /** In a clean log no stored previous hash is empty, so none is missing. */
  lemma PreviousNotEmpty(sha: Sha256, rows: seq<Row>, i: nat)
    requires Intact(sha, rows) && i < |rows|
    ensures LastRowHash(rows[..i]) != ""
  {
    if i > 0 { assert rows[..i][i - 1] == rows[i - 1] && !HashBroken(sha, rows, i - 1); }
  }

  /** A row without a recorded previous hash is reported: it reads as an empty one. */
  lemma MissingPrevious(sha: Sha256, previous: string, i: nat, row: Row)
    requires Lookup(row.payload, "previous_hash") == None && previous != ""
    ensures var found := RowFindings(sha, previous, i, row);
      && found.Some? && found.value != []
      && found.value[0] == ChainFinding(i, Lookup(row.payload, "event_id"), PreviousHashMismatch)
  {
    hide ComputeHash, Content, Lookup;
  }

  // ----- queries -----

  predicate Closes(k: EventType) { k.ExecutionCommitted? || k.ExecutionFailed? }

  predicate IsClosed(log: seq<Event>, rid: string) {
    exists e :: e in log && e.recordId == rid && Closes(e.kind)
  }

  predicate IsCommitted(e: Event) { e.kind.ExecutionCommitted? }

  function OpenIn(log: seq<Event>): Event -> bool {
    (e: Event) => e.kind.IntentPending? && !IsClosed(log, e.recordId)
  }

  function HasRecord(rid: string): Event -> bool { (e: Event) => e.recordId == rid }

  /** The pending events that no committed or failed event of the same record closes. */
  function PendingEvents(log: seq<Event>): seq<Event> { Filter(log, OpenIn(log)) }

  function CommittedEvents(log: seq<Event>): seq<Event> { Filter(log, IsCommitted) }

  function EventsForRecord(log: seq<Event>, rid: string): seq<Event> { Filter(log, HasRecord(rid)) }

  predicate ClosesRow(r: Row) { r.eventType == "execution_committed" || r.eventType == "execution_failed" }

  predicate CommittedRow(r: Row) { r.eventType == "execution_committed" }

  predicate RowClosed(rows: seq<Row>, rid: string) {
    exists r :: r in rows && r.recordId == rid && ClosesRow(r)
  }

  function OpenRow(rows: seq<Row>): Row -> bool {
    (r: Row) => r.eventType == "intent_pending" && !RowClosed(rows, r.recordId)
  }

  function RowHasRecord(rid: string): Row -> bool { (r: Row) => r.recordId == rid }

  function RowEvent(row: Row): Option<Event> { EventOf(row.payload) }

  /** The events behind the payloads of some rows; a payload that fails validation raises. */
  function Decode(rows: seq<Row>): Option<seq<Event>> { TryMap(rows, RowEvent) }

  /** Selecting rows by their columns selects the events those rows were written for. */
  lemma SelectEvents(log: seq<Event>, p: Row -> bool, q: Event -> bool)
    requires forall e :: e in log ==> p(RowOf(e)) == q(e)
    ensures Decode(Filter(RowsOf(log), p)) == Some(Filter(log, q))
  {
    hide RowOf, RowEvent;
    var s := Filter(log, q);
    FilterMap(log, RowOf, p, q);
    forall e ensures RowEvent(RowOf(e)) == Some(e) { RowDecodes(e); }
    TryMapInverse(s, RowOf, RowEvent);
  }

  lemma RowDecodes(e: Event)
    ensures RowEvent(RowOf(e)) == Some(e)
  {
    hide PayloadOf, EventOf;
    PayloadRoundTrip(e);
  }

  lemma KindColumn(e: Event)
    ensures RowOf(e).eventType == "intent_pending" <==> e.kind.IntentPending?
    ensures RowOf(e).eventType == "execution_committed" <==> e.kind.ExecutionCommitted?
    ensures ClosesRow(RowOf(e)) <==> Closes(e.kind)
    ensures RowOf(e).recordId == e.recordId
  {
    var t := RowOf(e).eventType;
    assert |t| == if e.kind.IntentPending? then 14 else if e.kind.ExecutionCommitted? then 19
                  else if e.kind.ExecutionFailed? then 16 else 23;
  }

  lemma ClosedColumn(log: seq<Event>, rid: string)
    ensures RowClosed(RowsOf(log), rid) <==> IsClosed(log, rid)
  {
    hide RowOf;
    var rows := RowsOf(log);
    if IsClosed(log, rid) {
      var c :| c in log && c.recordId == rid && Closes(c.kind);
      var i :| 0 <= i < |log| && log[i] == c;
      KindColumn(c);
      assert rows[i] in rows;
    }
    if RowClosed(rows, rid) {
      var q :| q in rows && q.recordId == rid && ClosesRow(q);
      var i :| 0 <= i < |rows| && rows[i] == q;
      KindColumn(log[i]);
      assert log[i] in log;
    }
  }

  /** What the three SQL queries return on rows written by `append`. */
  lemma QueriesRefine(log: seq<Event>, rid: string)
    ensures Decode(Filter(RowsOf(log), OpenRow(RowsOf(log)))) == Some(PendingEvents(log))
    ensures Decode(Filter(RowsOf(log), CommittedRow)) == Some(CommittedEvents(log))
    ensures Decode(Filter(RowsOf(log), RowHasRecord(rid))) == Some(EventsForRecord(log, rid))
  {
    hide RowOf, Decode;
    var rows := RowsOf(log);
    forall e | e in log
      ensures OpenRow(rows)(RowOf(e)) == OpenIn(log)(e)
      ensures CommittedRow(RowOf(e)) == IsCommitted(e)
      ensures RowHasRecord(rid)(RowOf(e)) == HasRecord(rid)(e)
    {
      KindColumn(e);
      ClosedColumn(log, e.recordId);
    }
    SelectEvents(log, OpenRow(rows), OpenIn(log));
    SelectEvents(log, CommittedRow, IsCommitted);
    SelectEvents(log, RowHasRecord(rid), HasRecord(rid));
  }

  // ----- the store -----

  predicate FreshEvent(log: seq<Event>, id: string) { forall e :: e in log ==> e.eventId != id }

  /** Appending adds one row, or raises and changes nothing; a repeated event id always raises. */
  function Appended(log: seq<Event>, e: Event, ok: bool): seq<Event> {
    if ok && FreshEvent(log, e.eventId) then log + [e] else log
  }

  function LastSealed(log: seq<Event>): string { if log == [] then GENESIS_HASH else log[|log| - 1].hash }

  /** The unique id column holds the ids of the appended events. */
  lemma FreshRow(log: seq<Event>, id: string)
    ensures (forall r :: r in RowsOf(log) ==> r.eventId != id) <==> FreshEvent(log, id)
  {
    var rows := RowsOf(log);
    if forall r :: r in rows ==> r.eventId != id {
      forall e | e in log ensures e.eventId != id {
        var i :| 0 <= i < |log| && log[i] == e;
        assert rows[i] in rows;
      }
    }
  }

  class SQLiteExecutionStore {
    const sha: Sha256
    var rows: seq<Row>
    ghost var log: seq<Event>

    /** Every row was written by `Append`; `log` is what was appended. */
    ghost predicate Valid() reads this { rows == RowsOf(log) }

    constructor (sha: Sha256)
      ensures Valid() && log == [] && this.sha == sha
    {
      this.sha := sha;
      rows := [];
      log := [];
    }

    /** `ok` is the database's verdict on the insert. */
    method Append(e: Event, ok: bool) returns (stored: bool)
      requires Valid()
      modifies this
      ensures Valid() && log == Appended(old(log), e, ok)
      ensures stored <==> ok && FreshEvent(old(log), e.eventId)
    {
      hide RowOf;
      FreshRow(log, e.eventId);
      stored := ok && forall r :: r in rows ==> r.eventId != e.eventId;
      MapSnoc(log, e, RowOf);
      if stored {
        rows := rows + [RowOf(e)];
        log := log + [e];
      }
    }

    method LastHash() returns (h: string)
      requires Valid()
      ensures h == LastSealed(log)
    {
      h := if rows == [] then GENESIS_HASH else rows[|rows| - 1].hash;
    }

    method EventsFor(rid: string) returns (r: Option<seq<Event>>)
      requires Valid()
      ensures r == Some(EventsForRecord(log, rid))
    {
      QueriesRefine(log, rid);
      r := Decode(Filter(rows, RowHasRecord(rid)));
    }

    method Pending() returns (r: Option<seq<Event>>)
      requires Valid()
      ensures r == Some(PendingEvents(log))
    {
      QueriesRefine(log, "");
      r := Decode(Filter(rows, OpenRow(rows)));
    }

    method Committed() returns (r: Option<seq<Event>>)
      requires Valid()
      ensures r == Some(CommittedEvents(log))
    {
      QueriesRefine(log, "");
      r := Decode(Filter(rows, CommittedRow));
    }

    /** Works on any rows, tampered or not. */
    method VerifyChain() returns (r: Option<seq<ChainFinding>>)
      ensures r == Findings(sha, rows)
    {
      hide Lookup, ComputeHash, Content, RecordedPrevious, Findings;
      var findings: seq<ChainFinding> := [];
      var previous: string := GENESIS_HASH;
      NoFindings(sha, rows);
      var i := 0;
      while i < |rows|
        invariant 0 <= i <= |rows|
        invariant previous == LastRowHash(rows[..i])
        invariant Findings(sha, rows[..i]) == Some(findings)
      {
        var row := rows[i];
        FindingsNext(sha, rows, i);
        var id := Lookup(row.payload, "event_id");
        var recorded := RecordedPrevious(row);
        if !recorded.Str? {
          RaisedStays(sha, rows, i + 1);
          return None;
        }
        ghost var before := findings;
        if recorded.s != previous {
          findings := findings + [ChainFinding(i, id, PreviousHashMismatch)];
        }
        if ComputeHash(sha, recorded.s, Content(row)) != row.hash {
          findings := findings + [ChainFinding(i, id, HashMismatch)];
        }
        assert findings == before + RowFindings(sha, previous, i, row).value;
        previous := row.hash;
        i := i + 1;
      }
      assert rows[..|rows|] == rows;
      r := Some(findings);
    }
  }

  lemma NoFindings(sha: Sha256, rows: seq<Row>)
    ensures Findings(sha, rows[..0]) == Some([])
  {}

  lemma FindingsNext(sha: Sha256, rows: seq<Row>, i: nat)
    requires i < |rows| && Findings(sha, rows[..i]).Some?
    ensures var here := RowFindings(sha, LastRowHash(rows[..i]), i, rows[i]);
      Findings(sha, rows[..i + 1])
      == if here.None? then None else Some(Findings(sha, rows[..i]).value + here.value)
  {
    hide RowFindings;
    assert rows[..i + 1][..i] == rows[..i] && rows[..i + 1][i] == rows[i];
  }

  /** A verification that raised on a prefix raises on the whole. */
  lemma {:induction false} RaisedStays(sha: Sha256, rows: seq<Row>, i: nat)
    requires i <= |rows| && Findings(sha, rows[..i]).None?
    ensures Findings(sha, rows).None?
  {
    if i == |rows| {
      assert rows[..i] == rows;
    } else {
      assert rows[..|rows| - 1][..i] == rows[..i];
      RaisedStays(sha, rows[..|rows| - 1], i);
    }
  }
}
