/** Logs written through the store: the chain they form, with one writer and with several. */
module ChainedLog {
  import opened Prelude
  import opened HashChain
  import opened Events
  import opened Store
  import opened Tamper

  ghost predicate DistinctIds(log: seq<Event>) {
    forall i, j :: 0 <= i < j < |log| ==> log[i].eventId != log[j].eventId
  }

  /** The event was sealed with `previous` as the hash before it. */
  ghost predicate SealedBehind(sha: Sha256, e: Event, previous: string) {
    e.previousHash == Some(previous) && e.hash == ComputeHash(sha, previous, Hashed(e))
  }

  /** Each event is sealed behind the event before it. */
  ghost predicate Linked(sha: Sha256, log: seq<Event>) {
    forall i :: 0 <= i < |log| ==> SealedBehind(sha, log[i], LastSealed(log[..i]))
  }

  lemma SealIsSealed(sha: Sha256, draft: Event, previous: string)
    ensures SealedBehind(sha, Seal(sha, draft, previous), previous)
  {
    hide FieldsBeforeHash, FieldsAfterHash;
    SealedHash(sha, draft, previous);
    WithoutHash(Seal(sha, draft, previous));
  }

  /** Appending a freshly sealed event, or failing to, keeps the chain. */
  lemma LinkedAppend(sha: Sha256, log: seq<Event>, draft: Event, ok: bool)
    requires Linked(sha, log)
    ensures Linked(sha, Appended(log, Seal(sha, draft, LastSealed(log)), ok))
  {
    hide SealedBehind, Seal;
    var e := Seal(sha, draft, LastSealed(log));
    SealIsSealed(sha, draft, LastSealed(log));
    var after := log + [e];
    forall i | 0 <= i < |after| ensures SealedBehind(sha, after[i], LastSealed(after[..i])) {
      assert after[..i] == log[..i];
      if i == |log| { assert log[..i] == log; }
    }
  }

  /** What the verifier reads from the row of a sealed event. */
  lemma SealedRow(sha: Sha256, e: Event, previous: string)
    requires SealedBehind(sha, e, previous)
    ensures RecordedPrevious(RowOf(e)) == Str(previous)
    ensures Content(RowOf(e)) == Hashed(e)
    ensures RowInput(RowOf(e)) == HashInput(previous, Hashed(e))
    ensures RowOf(e).hash == e.hash == sha(RowInput(RowOf(e)))
  {
    WithoutHash(e);
    ReadLink(e);
    hide PayloadOf, Hashed, Lookup;
  }

  /** The content of a row names its event. */
  lemma RowNamesEvent(e: Event)
    ensures WellFormed(Obj(RowOf(e).payload))
    ensures "event_id" in Meaning(RowOf(e)) && Meaning(RowOf(e))["event_id"] == VStr(e.eventId)
  {
    hide PayloadOf, Lookup, Without, Denote, DenoteDict, TypeName;
    ReadLink(e);
    PayloadWellFormed(e);
    ContentWellFormed(RowOf(e));
    EventIdIsNotHash();
    LookupWithout(PayloadOf(e), "event_id", "hash");
    LookupMeaning(Content(RowOf(e)), "event_id");
    DenoteIdentity(e.eventId);
  }

  lemma EventIdIsNotHash()
    ensures "event_id" != "hash"
  {
    assert |"event_id"| != |"hash"|;
  }

  lemma DenoteIdentity(s: string)
    ensures Denote(Str(s)) == VStr(s)
  {}

  lemma LastRows(log: seq<Event>, n: nat)
    requires n <= |log|
    ensures LastRowHash(RowsOf(log)[..n]) == LastSealed(log[..n])
  {
    hide PayloadOf;
  }

  // ----- several writers on one store -----

  /** A writer's reading of the last hash, and how long the log was when it read. */
  datatype Reading = Reading(hash: string, at: nat)

  /** The log, for each row where its writer read the hash it links to, and the readings in hand. */
  datatype Writers = Writers(log: seq<Event>, marks: seq<nat>, seen: map<nat, Reading>)

  /** Writers interleave freely; each seals its event with the hash it read last. */
  datatype WriterStep = ReadHash(writer: nat) | AppendEvent(writer: nat, draft: Event, ok: bool)

  function WriterMove(sha: Sha256, s: Writers, step: WriterStep): Writers {
    match step
    case ReadHash(w) => s.(seen := s.seen[w := Reading(LastSealed(s.log), |s.log|)])
    case AppendEvent(w, draft, ok) =>
      if w !in s.seen then s else
        var e := Seal(sha, draft, s.seen[w].hash);
        if ok && FreshEvent(s.log, e.eventId)
        then s.(log := s.log + [e], marks := s.marks + [s.seen[w].at])
        else s
  }

  function RunWriters(sha: Sha256, steps: seq<WriterStep>): Writers {
    if steps == [] then Writers([], [], map[])
    else WriterMove(sha, RunWriters(sha, steps[..|steps| - 1]), steps[|steps| - 1])
  }

  /** Every row is sealed behind the row its writer had read. */
  ghost predicate SealedAt(sha: Sha256, log: seq<Event>, marks: seq<nat>) {
    |marks| == |log| && DistinctIds(log)
    && forall i :: 0 <= i < |log| ==> marks[i] <= i && SealedBehind(sha, log[i], LastSealed(log[..marks[i]]))
  }

  ghost predicate WritersOk(sha: Sha256, s: Writers) {
    && SealedAt(sha, s.log, s.marks)
    && forall w :: w in s.seen ==> s.seen[w].at <= |s.log| && s.seen[w].hash == LastSealed(s.log[..s.seen[w].at])
  }

  lemma {:induction false} RunWritersOk(sha: Sha256, steps: seq<WriterStep>)
    ensures WritersOk(sha, RunWriters(sha, steps))
  {
    if steps == [] {
    } else {
      var s := RunWriters(sha, steps[..|steps| - 1]);
      RunWritersOk(sha, steps[..|steps| - 1]);
      WriterMoveOk(sha, s, steps[|steps| - 1]);
    }
  }

  lemma SealedAtAppend(sha: Sha256, log: seq<Event>, marks: seq<nat>, draft: Event, at: nat)
    requires SealedAt(sha, log, marks) && at <= |log| && FreshEvent(log, draft.eventId)
    ensures SealedAt(sha, log + [Seal(sha, draft, LastSealed(log[..at]))], marks + [at])
  {
    hide SealedBehind, Seal;
    var e := Seal(sha, draft, LastSealed(log[..at]));
    var after, marks' := log + [e], marks + [at];
    SealIsSealed(sha, draft, LastSealed(log[..at]));
    forall i | 0 <= i < |after|
      ensures marks'[i] <= i && SealedBehind(sha, after[i], LastSealed(after[..marks'[i]]))
    {
      assert after[..marks'[i]] == log[..marks'[i]];
    }
    forall i, j | 0 <= i < j < |after| ensures after[i].eventId != after[j].eventId { assert log[i] in log; }
  }

  lemma WriterMoveOk(sha: Sha256, s: Writers, step: WriterStep)
    requires WritersOk(sha, s)
    ensures WritersOk(sha, WriterMove(sha, s, step))
  {
    hide SealedAt, Seal;
    var t := WriterMove(sha, s, step);
    if step.ReadHash? {
      assert s.log[..|s.log|] == s.log;
    } else if t != s {
      SealedAtAppend(sha, s.log, s.marks, step.draft, s.seen[step.writer].at);
      forall v | v in t.seen ensures t.seen[v].hash == LastSealed(t.log[..t.seen[v].at]) {
        assert t.log[..t.seen[v].at] == s.log[..t.seen[v].at];
      }
    }
  }

  lemma SealedLength(sha: Sha256, log: seq<Event>, marks: seq<nat>, n: nat)
    requires SealedAt(sha, log, marks) && n <= |log|
    ensures |LastSealed(log[..n])| == 64
  {
    if n > 0 { assert log[..n][n - 1] == log[n - 1]; }
  }

  /** Rows with different event ids hash different bytes. */
  lemma DifferentInputs(sha: Sha256, e: Event, f: Event, p: string, q: string)
    requires SealedBehind(sha, e, p) && SealedBehind(sha, f, q) && |p| == |q|
    requires e.eventId != f.eventId
    ensures RowInput(RowOf(e)) != RowInput(RowOf(f))
  {
    SealedRow(sha, e, p);
    SealedRow(sha, f, q);
    RowNamesEvent(e);
    RowNamesEvent(f);
    hide Meaning, RowInput, RowOf, RecordedPrevious;
    if RowInput(RowOf(e)) == RowInput(RowOf(f)) { SameInputs(RowOf(e), RowOf(f), p, q); }
  }

  lemma SameInputs(r: Row, q: Row, p: string, o: string)
    requires RecordedPrevious(r) == Str(p) && RecordedPrevious(q) == Str(o) && |p| == |o|
    requires WellFormed(Obj(r.payload)) && WellFormed(Obj(q.payload)) && RowInput(r) == RowInput(q)
    ensures Meaning(r) == Meaning(q)
  {
    SameInput(r, q);
  }

  /** The input whose hash is the last one of a non-empty prefix. */
  function LastInput(log: seq<Event>, n: nat): Bytes
    requires 0 < n <= |log|
  {
    RowInput(RowOf(log[n - 1]))
  }

  lemma LastIsHash(sha: Sha256, log: seq<Event>, marks: seq<nat>, n: nat)
    requires SealedAt(sha, log, marks) && 0 < n <= |log|
    ensures LastSealed(log[..n]) == sha(LastInput(log, n))
    ensures LastInput(log, n) in Inputs(RowsOf(log))
  {
    hide RowInput, RowOf, Hashed, SealedAt, SealedBehind, Inputs, RowsOf, RecordedPrevious, Content, LastSealed;
    var p := SealedEvent(sha, log, marks, n - 1);
    LastOf(log, n);
    SealedRow(sha, log[n - 1], p);
    InputOfRow(log, n - 1);
  }

  lemma SealedEvent(sha: Sha256, log: seq<Event>, marks: seq<nat>, i: nat) returns (p: string)
    requires SealedAt(sha, log, marks) && i < |log|
    ensures SealedBehind(sha, log[i], p)
  {
    hide SealedBehind;
    p := LastSealed(log[..marks[i]]);
  }

  lemma LastOf(log: seq<Event>, n: nat)
    requires 0 < n <= |log|
    ensures LastSealed(log[..n]) == log[n - 1].hash
  {}

  lemma InputOfRow(log: seq<Event>, i: nat)
    requires i < |log|
    ensures RowInput(RowOf(log[i])) in Inputs(RowsOf(log))
  {
    hide RowInput, RowOf;
    assert RowsOf(log)[i] in RowsOf(log);
  }

  lemma LastInputsDiffer(sha: Sha256, log: seq<Event>, marks: seq<nat>, m: nat, n: nat)
    requires SealedAt(sha, log, marks) && 0 < m < n <= |log|
    ensures LastInput(log, m) != LastInput(log, n)
  {
    SealedLength(sha, log, marks, marks[m - 1]);
    SealedLength(sha, log, marks, marks[n - 1]);
    var p, q := LastSealed(log[..marks[m - 1]]), LastSealed(log[..marks[n - 1]]);
    var e, f := log[m - 1], log[n - 1];
    assert SealedBehind(sha, e, p) && SealedBehind(sha, f, q) && e.eventId != f.eventId;
    hide RowInput, RowOf, SealedAt, SealedBehind;
    DifferentInputs(sha, e, f, p, q);
  }

  /** Cutting the log at different lengths leaves different last hashes, unless the hash function broke. */
  lemma LastHashesDiffer(sha: Sha256, log: seq<Event>, marks: seq<nat>, m: nat, n: nat)
    requires SealedAt(sha, log, marks) && m < n <= |log|
    ensures LastSealed(log[..m]) != LastSealed(log[..n]) || Broken(sha, Inputs(RowsOf(log)))
  {
    hide SealedAt, Broken, LastInput, Inputs, RowsOf;
    LastIsHash(sha, log, marks, n);
    if LastSealed(log[..m]) == LastSealed(log[..n]) {
      if m > 0 {
        LastIsHash(sha, log, marks, m);
        LastInputsDiffer(sha, log, marks, m, n);
        Collision(sha, Inputs(RowsOf(log)), LastInput(log, m), LastInput(log, n));
      } else {
        Preimage(sha, Inputs(RowsOf(log)), LastInput(log, n));
      }
    }
  }

  /** Interleaved writers: verification never raises, no hash is wrong, and a previous-hash mismatch is reported at
      exactly those rows where another append landed between their writer's reading and its own append. */
  lemma Interleaved(sha: Sha256, steps: seq<WriterStep>)
    ensures var s := RunWriters(sha, steps);
      |s.marks| == |s.log| && (StaleExactly(sha, s.log, s.marks) || Broken(sha, Inputs(RowsOf(s.log))))
    ensures Findings(sha, RowsOf(RunWriters(sha, steps).log)).Some?
    ensures forall f :: f in Findings(sha, RowsOf(RunWriters(sha, steps).log)).value ==>
              f.diagnosis == PreviousHashMismatch
  {
    RunWritersOk(sha, steps);
    var s := RunWriters(sha, steps);
    hide RunWriters, RowsOf, Broken, StaleExactly, Findings;
    SealedFindings(sha, s.log, s.marks);
    SealedStale(sha, s.log, s.marks);
  }

  lemma SealedStale(sha: Sha256, log: seq<Event>, marks: seq<nat>)
    requires SealedAt(sha, log, marks)
    ensures StaleExactly(sha, log, marks) || Broken(sha, Inputs(RowsOf(log)))
  {
    hide MismatchAt, Broken, RowsOf;
    if !Broken(sha, Inputs(RowsOf(log))) {
      forall i: nat | i < |log| ensures marks[i] != i <==> MismatchAt(sha, log, i) { FindingAt(sha, log, marks, i); }
    }
  }

  ghost predicate MismatchAt(sha: Sha256, log: seq<Event>, i: nat)
    requires i < |log|
  {
    var r := Findings(sha, RowsOf(log));
    r.Some? && ChainFinding(i, Some(Str(log[i].eventId)), PreviousHashMismatch) in r.value
  }

  /** A mismatch is reported exactly where the writer's reading was stale when it appended. */
  ghost predicate StaleExactly(sha: Sha256, log: seq<Event>, marks: seq<nat>)
    requires |marks| == |log|
  {
    forall i: nat :: i < |log| ==> (marks[i] != i <==> MismatchAt(sha, log, i))
  }

  lemma SealedFindings(sha: Sha256, log: seq<Event>, marks: seq<nat>)
    requires SealedAt(sha, log, marks)
    ensures Findings(sha, RowsOf(log)).Some?
    ensures forall f :: f in Findings(sha, RowsOf(log)).value ==> f.diagnosis == PreviousHashMismatch
  {
    hide RowOf, RecordedPrevious, Hashed, Content, SealedBehind, RowInput;
    var rows := RowsOf(log);
    FindingsRaise(sha, rows);
    forall r | r in rows ensures RecordedPrevious(r).Str? {
      var i :| 0 <= i < |rows| && rows[i] == r;
      SealedRow(sha, log[i], LastSealed(log[..marks[i]]));
    }
    forall f | f in Findings(sha, rows).value ensures f.diagnosis == PreviousHashMismatch {
      FindingsExact(sha, rows, f);
      SealedRow(sha, log[f.row], LastSealed(log[..marks[f.row]]));
      HashHolds(sha, rows[f.row], LastSealed(log[..marks[f.row]]));
    }
  }

  lemma HashHolds(sha: Sha256, row: Row, previous: string)
    requires RecordedPrevious(row) == Str(previous) && row.hash == sha(RowInput(row))
    ensures ComputeHash(sha, previous, Content(row)) == row.hash
  {}

  lemma FindingAt(sha: Sha256, log: seq<Event>, marks: seq<nat>, i: nat)
    requires SealedAt(sha, log, marks) && i < |log| && !Broken(sha, Inputs(RowsOf(log)))
    ensures marks[i] != i <==> MismatchAt(sha, log, i)
  {
    var rows := RowsOf(log);
    var f := ChainFinding(i, Some(Str(log[i].eventId)), PreviousHashMismatch);
    SealedFindings(sha, log, marks);
    SealedRow(sha, log[i], LastSealed(log[..marks[i]]));
    ReadLink(log[i]);
    assert Lookup(rows[i].payload, "event_id") == Some(Str(log[i].eventId));
    hide RowOf, PayloadOf, RecordedPrevious, Hashed, Content, SealedBehind, RowInput, Lookup;
    FindingsExact(sha, rows, f);
    LastRows(log, i);
    if marks[i] != i { LastHashesDiffer(sha, log, marks, marks[i], i); }
  }

  /** A log every event of which is sealed behind the one before it verifies without findings. */
  lemma LinkedClean(sha: Sha256, log: seq<Event>)
    requires Linked(sha, log)
    ensures Clean(sha, RowsOf(log))
  {
    hide RowOf, RecordedPrevious, Hashed, Content, SealedBehind, RowInput, Clean;
    var rows := RowsOf(log);
    forall i | 0 <= i < |rows|
      ensures RecordedPrevious(rows[i]).Str? && !LinkBroken(rows, i) && !HashBroken(sha, rows, i)
    {
      SealedRow(sha, log[i], LastSealed(log[..i]));
      LastRows(log, i);
      HashHolds(sha, rows[i], LastSealed(log[..i]));
    }
    CleanExact(sha, rows);
  }
}
