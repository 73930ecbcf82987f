/** What a silent verifier proves about a log, for any hash function that does not break on the rows at hand. */
module Tamper {
  import opened Prelude
  import opened HashChain
  import opened Events
  import opened Store

  /** Payloads are dictionaries, so their keys are distinct. */
  ghost predicate Parsed(rows: seq<Row>) {
    forall r :: r in rows ==> WellFormed(Obj(r.payload))
  }

  function PreviousText(row: Row): string {
    if RecordedPrevious(row).Str? then RecordedPrevious(row).s else ""
  }

  /** The bytes whose hash the verifier recomputes for a row. */
  function RowInput(row: Row): Bytes { HashInput(PreviousText(row), Content(row)) }

  function Inputs(rows: seq<Row>): set<Bytes> { set r | r in rows :: RowInput(r) }

  /** An explicit collision, or an explicit preimage of the genesis hash, among some hashed byte strings. */
  ghost predicate Broken(sha: Sha256, inputs: set<Bytes>) {
    || (exists x, y :: x in inputs && y in inputs && x != y && sha(x) == sha(y))
    || (exists x :: x in inputs && sha(x) == GENESIS_HASH)
  }

  lemma BrokenGrows(sha: Sha256, s: set<Bytes>, t: set<Bytes>)
    requires s <= t && Broken(sha, s)
    ensures Broken(sha, t)
  {}

  lemma Collision(sha: Sha256, inputs: set<Bytes>, x: Bytes, y: Bytes)
    requires x in inputs && y in inputs && x != y && sha(x) == sha(y)
    ensures Broken(sha, inputs)
  {}

  lemma Preimage(sha: Sha256, inputs: set<Bytes>, x: Bytes)
    requires x in inputs && sha(x) == GENESIS_HASH
    ensures Broken(sha, inputs)
  {}

  /** Everything a payload says apart from its own `hash` key. */
  function Meaning(row: Row): map<string, Value> { DenoteDict(Content(row)) }

  ghost predicate SameContent(a: seq<Row>, b: seq<Row>) {
    |a| == |b| && forall i :: 0 <= i < |a| ==> Meaning(a[i]) == Meaning(b[i])
  }

  lemma {:induction false} WithoutKeys(d: Dict, k: string)
    ensures forall f :: f in Without(d, k) ==> f in d && f.key != k
  {
    if d == [] {
    } else {
      WithoutKeys(d[1..], k);
    }
  }

  lemma {:induction false} WithoutDistinct(d: Dict, k: string)
    requires DistinctKeys(d)
    ensures DistinctKeys(Without(d, k))
  {
    if d == [] {
    } else {
      var rest := Without(d[1..], k);
      WithoutDistinct(d[1..], k);
      WithoutKeys(d[1..], k);
      forall j | 0 <= j < |rest| ensures rest[j].key != d[0].key { assert rest[j] in d[1..]; }
    }
  }

  lemma ContentWellFormed(row: Row)
    requires WellFormed(Obj(row.payload))
    ensures WellFormed(Obj(Content(row)))
  {
    WithoutDistinct(row.payload, "hash");
    WithoutKeys(row.payload, "hash");
  }

  lemma CleanPrefix(sha: Sha256, rows: seq<Row>, n: nat)
    requires Clean(sha, rows) && n <= |rows|
    ensures Clean(sha, rows[..n])
  {
    hide Content, Lookup, ComputeHash, RecordedPrevious;
    CleanExact(sha, rows);
    CleanExact(sha, rows[..n]);
    forall i | 0 <= i < n
      ensures RecordedPrevious(rows[..n][i]).Str? && !LinkBroken(rows[..n], i) && !HashBroken(sha, rows[..n], i)
    {
      assert rows[..n][..i] == rows[..i];
    }
  }

  /** In a clean log each stored hash is the hash of the row's input, which starts with the hash before it. */
  lemma CleanRow(sha: Sha256, rows: seq<Row>, i: nat)
    requires Clean(sha, rows) && i < |rows|
    ensures rows[i].hash == sha(RowInput(rows[i]))
    ensures RecordedPrevious(rows[i]) == Str(LastRowHash(rows[..i]))
    ensures PreviousText(rows[i]) == LastRowHash(rows[..i])
    ensures |LastRowHash(rows[..i])| == 64
    ensures RowInput(rows[i]) in Inputs(rows)
    decreases i
  {
    CleanExact(sha, rows);
    if i == 0 {
    } else {
      CleanRow(sha, rows, i - 1);
      assert rows[..i][|rows[..i]| - 1] == rows[i - 1];
    }
  }

  lemma InputsOfPrefix(rows: seq<Row>, n: nat)
    requires n <= |rows|
    ensures Inputs(rows[..n]) <= Inputs(rows)
  {
    hide RowInput;
    assert forall r :: r in rows[..n] ==> r in rows;
  }

  lemma SameContentSnoc(a: seq<Row>, b: seq<Row>)
    requires |a| == |b| > 0 && SameContent(a[..|a| - 1], b[..|b| - 1])
    requires Meaning(a[|a| - 1]) == Meaning(b[|b| - 1])
    ensures SameContent(a, b)
  {
    hide Meaning;
    forall i | 0 <= i < |a| ensures Meaning(a[i]) == Meaning(b[i]) {
      if i < |a| - 1 { assert a[..|a| - 1][i] == a[i] && b[..|b| - 1][i] == b[i]; }
    }
  }

  /** A clean log that ends in the genesis hash exhibits a preimage of it. */
  lemma GenesisEnd(sha: Sha256, rows: seq<Row>, s: set<Bytes>)
    requires Clean(sha, rows) && rows != [] && LastRowHash(rows) == GENESIS_HASH && Inputs(rows) <= s
    ensures Broken(sha, s)
  {
    hide Clean, RowInput, Broken, Inputs;
    CleanRow(sha, rows, |rows| - 1);
    Preimage(sha, s, RowInput(rows[|rows| - 1]));
  }

  /** The last rows of two clean logs with the same last hash have the same content and the same hash before them. */
  lemma SameLast(sha: Sha256, a: seq<Row>, b: seq<Row>, s: set<Bytes>)
    requires Clean(sha, a) && Clean(sha, b) && Parsed(a) && Parsed(b) && a != [] && b != []
    requires LastRowHash(a) == LastRowHash(b) && Inputs(a) + Inputs(b) <= s
    ensures var m, n := |a| - 1, |b| - 1;
      || Broken(sha, s)
      || (Meaning(a[m]) == Meaning(b[n]) && LastRowHash(a[..m]) == LastRowHash(b[..n]))
  {
    hide Clean, Meaning, Content, RowInput, Broken, Inputs;
    var m, n := |a| - 1, |b| - 1;
    CleanRow(sha, a, m);
    CleanRow(sha, b, n);
    if RowInput(a[m]) != RowInput(b[n]) {
      Collision(sha, s, RowInput(a[m]), RowInput(b[n]));
    } else {
      SameInput(a[m], b[n]);
    }
  }

  /** Tamper evidence: two clean logs that end in the same stored hash carry the same payloads, row by row. */
  lemma {:induction false} TamperEvidence(sha: Sha256, a: seq<Row>, b: seq<Row>)
    requires Clean(sha, a) && Clean(sha, b) && Parsed(a) && Parsed(b)
    requires LastRowHash(a) == LastRowHash(b)
    ensures SameContent(a, b) || Broken(sha, Inputs(a) + Inputs(b))
    decreases |a| + |b|
  {
    hide Clean, Meaning, RowInput, Broken, Inputs;
    var s := Inputs(a) + Inputs(b);
    if a == [] && b == [] {
    } else if a == [] {
      GenesisEnd(sha, b, s);
    } else if b == [] {
      GenesisEnd(sha, a, s);
    } else {
      SameLast(sha, a, b, s);
      if !Broken(sha, s) {
        var m, n := |a| - 1, |b| - 1;
        CleanPrefix(sha, a, m);
        CleanPrefix(sha, b, n);
        TamperEvidence(sha, a[..m], b[..n]);
        InputsOfPrefix(a, m);
        InputsOfPrefix(b, n);
        if Broken(sha, Inputs(a[..m]) + Inputs(b[..n])) {
          BrokenGrows(sha, Inputs(a[..m]) + Inputs(b[..n]), s);
        }
        SameContentSnoc(a, b);
      }
    }
  }

  lemma SameInput(r: Row, q: Row)
    requires RowInput(r) == RowInput(q) && |PreviousText(r)| == |PreviousText(q)|
    requires WellFormed(Obj(r.payload)) && WellFormed(Obj(q.payload))
    ensures PreviousText(r) == PreviousText(q) && Meaning(r) == Meaning(q)
  {
    ContentWellFormed(r);
    ContentWellFormed(q);
    HashInputInjective(PreviousText(r), Content(r), PreviousText(q), Content(q));
  }

  /** Cutting a clean log after `i` and after `j` rows leaves different last hashes. */
  lemma HashesDistinct(sha: Sha256, rows: seq<Row>, i: nat, j: nat)
    requires Clean(sha, rows) && Parsed(rows) && i <= |rows| && j <= |rows|
    requires LastRowHash(rows[..i]) == LastRowHash(rows[..j])
    ensures i == j || Broken(sha, Inputs(rows))
  {
    hide Clean;
    CleanPrefix(sha, rows, i);
    CleanPrefix(sha, rows, j);
    InputsOfPrefix(rows, i);
    InputsOfPrefix(rows, j);
    TamperEvidence(sha, rows[..i], rows[..j]);
    var s := Inputs(rows[..i]) + Inputs(rows[..j]);
    if Broken(sha, s) { BrokenGrows(sha, s, Inputs(rows)); }
  }

  /** Rearrangement: of all logs built from the rows of a clean log, in any order and with any repetition,
      exactly its prefixes are clean. Truncation is the only rearrangement the verifier does not see. */
  lemma {:induction false} Rearrangement(sha: Sha256, rows: seq<Row>, picked: seq<Row>)
    requires Clean(sha, rows) && Parsed(rows)
    requires forall r :: r in picked ==> r in rows
    ensures (Clean(sha, picked) <==> picked <= rows) || Broken(sha, Inputs(rows))
  {
    hide Content, RowInput;
    if picked <= rows {
      CleanPrefix(sha, rows, |picked|);
      assert picked == rows[..|picked|];
    }
    if Clean(sha, picked) { CleanPicked(sha, rows, picked); }
  }

  lemma {:induction false} CleanPicked(sha: Sha256, rows: seq<Row>, picked: seq<Row>)
    requires Clean(sha, rows) && Parsed(rows) && Clean(sha, picked)
    requires forall r :: r in picked ==> r in rows
    ensures picked <= rows || Broken(sha, Inputs(rows))
  {
    hide Clean, Content, RowInput, Broken, Inputs, RecordedPrevious;
    if picked == [] {
    } else {
      var m := |picked| - 1;
      CleanPrefix(sha, picked, m);
      CleanPicked(sha, rows, picked[..m]);
      if picked[..m] <= rows {
        assert picked[m] in picked;
        var k :| 0 <= k < |rows| && rows[k] == picked[m];
        CleanRow(sha, picked, m);
        CleanRow(sha, rows, k);
        assert picked[..m] == rows[..m];
        HashesDistinct(sha, rows, m, k);
        assert picked == picked[..m] + [picked[m]];
      }
    }
  }

  /** The log with the payload of one row replaced; its columns and its stored hash are kept. */
  function Overwrite(rows: seq<Row>, i: nat, payload: Dict): seq<Row>
    requires i < |rows|
  {
    rows[i := rows[i].(payload := payload)]
  }

  /** Overwriting one payload of a clean log either makes verification raise (its previous hash is no longer a
      string), or yields findings at that row and at no other, and yields none only if nothing but the `hash` key
      changed. */
  lemma OverwriteDetected(sha: Sha256, rows: seq<Row>, i: nat, payload: Dict)
    requires Clean(sha, rows) && Parsed(rows) && i < |rows| && WellFormed(Obj(payload))
    ensures var after := Overwrite(rows, i, payload);
      && (Findings(sha, after).Some? <==> RecordedPrevious(after[i]).Str?)
      && (Findings(sha, after).Some? ==>
            && (forall f :: f in Findings(sha, after).value ==> f.row == i)
            && (Meaning(after[i]) == Meaning(rows[i]) ==> Findings(sha, after).value == [])
            && (Findings(sha, after).value == [] ==>
                  || Meaning(after[i]) == Meaning(rows[i])
                  || Broken(sha, {RowInput(rows[i]), RowInput(after[i])})))
  {
    hide Content, RowInput, Meaning, Lookup, RecordedPrevious, ComputeHash;
    var after := Overwrite(rows, i, payload);
    FindingsRaise(sha, after);
    OverwriteElsewhere(sha, rows, i, payload);
    if RecordedPrevious(after[i]).Str? {
      OverwriteRaises(sha, rows, i, payload);
      forall f | f in Findings(sha, after).value ensures f.row == i { FindingsExact(sha, after, f); }
      if Findings(sha, after).value == [] { OverwriteSilent(sha, rows, i, payload); }
      if Meaning(after[i]) == Meaning(rows[i]) { OverwriteHarmless(sha, rows, i, payload); }
    } else {
      assert after[i] in after;
    }
  }

  lemma OverwriteRaises(sha: Sha256, rows: seq<Row>, i: nat, payload: Dict)
    requires Clean(sha, rows) && i < |rows|
    requires RecordedPrevious(Overwrite(rows, i, payload)[i]).Str?
    ensures Findings(sha, Overwrite(rows, i, payload)).Some?
  {
    hide Content, RowInput, Lookup, RecordedPrevious;
    var after := Overwrite(rows, i, payload);
    FindingsRaise(sha, after);
    FindingsRaise(sha, rows);
    forall r | r in after ensures RecordedPrevious(r).Str? {
      var j :| 0 <= j < |after| && after[j] == r;
      if j != i { assert rows[j] in rows; }
    }
  }

  lemma OverwriteElsewhere(sha: Sha256, rows: seq<Row>, i: nat, payload: Dict)
    requires Clean(sha, rows) && i < |rows|
    ensures forall j :: 0 <= j < |rows| ==>
              LastRowHash(Overwrite(rows, i, payload)[..j]) == LastRowHash(rows[..j])
    ensures forall j :: 0 <= j < |rows| && j != i ==>
              !LinkBroken(Overwrite(rows, i, payload), j) && !HashBroken(sha, Overwrite(rows, i, payload), j)
  {
    hide Content, Lookup, RecordedPrevious, ComputeHash;
    var after := Overwrite(rows, i, payload);
    CleanExact(sha, rows);
    forall j | 0 <= j < |rows| ensures LastRowHash(after[..j]) == LastRowHash(rows[..j]) {
      if j > 0 { assert after[..j][j - 1] == after[j - 1] && rows[..j][j - 1] == rows[j - 1]; }
    }
  }

  lemma OverwriteSilent(sha: Sha256, rows: seq<Row>, i: nat, payload: Dict)
    requires Clean(sha, rows) && Parsed(rows) && i < |rows| && WellFormed(Obj(payload))
    requires Clean(sha, Overwrite(rows, i, payload))
    ensures var after := Overwrite(rows, i, payload);
      Meaning(after[i]) == Meaning(rows[i]) || Broken(sha, {RowInput(rows[i]), RowInput(after[i])})
  {
    hide Content, RowInput, Clean, Meaning;
    var after := Overwrite(rows, i, payload);
    CleanRow(sha, rows, i);
    CleanRow(sha, after, i);
    OverwriteElsewhere(sha, rows, i, payload);
    if RowInput(rows[i]) == RowInput(after[i]) { SameInput(rows[i], after[i]); }
  }

  /** The text of `previous_hash` is part of what the content means. */
  lemma {:induction false} LookupMeaning(d: Dict, k: string)
    ensures DistinctKeys(d) ==> (Lookup(d, k).Some? <==> k in DenoteDict(d))
    ensures DistinctKeys(d) && Lookup(d, k).Some? ==> DenoteDict(d)[k] == Denote(Lookup(d, k).value)
  {
    if d == [] {
    } else {
      LookupMeaning(d[1..], k);
    }
  }

  lemma {:induction false} LookupWithout(d: Dict, k: string, l: string)
    requires k != l
    ensures Lookup(Without(d, l), k) == Lookup(d, k)
  {
    if d == [] {
    } else {
      LookupWithout(d[1..], k, l);
      if d[0].key == l {
        assert Without(d, l) == Without(d[1..], l);
      } else {
        assert Without(d, l)[1..] == Without(d[1..], l);
      }
    }
  }

  lemma SamePrevious(r: Row, q: Row)
    requires WellFormed(Obj(r.payload)) && WellFormed(Obj(q.payload)) && Meaning(r) == Meaning(q)
    requires RecordedPrevious(r).Str? && RecordedPrevious(q).Str?
    ensures RecordedPrevious(r) == RecordedPrevious(q)
  {
    ContentWellFormed(r);
    ContentWellFormed(q);
    hide Lookup, Without, Denote, DenoteDict;
    var k := "previous_hash";
    assert |k| != |"hash"|;
    LookupWithout(r.payload, k, "hash");
    LookupWithout(q.payload, k, "hash");
    LookupMeaning(Content(r), k);
    LookupMeaning(Content(q), k);
    if Lookup(r.payload, k).Some? { DenoteStr(Lookup(r.payload, k).value, Lookup(q.payload, k).value); }
  }

  lemma DenoteStr(v: Json, w: Json)
    requires Denote(v) == Denote(w) && v.Str?
    ensures w == v
  {}

  lemma SameMeaningInput(r: Row, q: Row, previous: string)
    requires WellFormed(Obj(r.payload)) && WellFormed(Obj(q.payload)) && Meaning(r) == Meaning(q)
    ensures HashInput(previous, Content(r)) == HashInput(previous, Content(q))
  {
    ContentWellFormed(r);
    ContentWellFormed(q);
    CanonicalForm(Content(r), Content(q));
  }

  lemma OverwriteHarmless(sha: Sha256, rows: seq<Row>, i: nat, payload: Dict)
    requires Clean(sha, rows) && Parsed(rows) && i < |rows| && WellFormed(Obj(payload))
    requires RecordedPrevious(Overwrite(rows, i, payload)[i]).Str?
    requires Meaning(Overwrite(rows, i, payload)[i]) == Meaning(rows[i])
    ensures Clean(sha, Overwrite(rows, i, payload))
  {
    hide Lookup, RecordedPrevious, Content, HashInput, Meaning, Findings;
    var after := Overwrite(rows, i, payload);
    OverwriteElsewhere(sha, rows, i, payload);
    CleanExact(sha, rows);
    assert rows[i] in rows;
    SamePrevious(rows[i], after[i]);
    SameMeaningInput(rows[i], after[i], LastRowHash(rows[..i]));
    forall j | 0 <= j < |after|
      ensures RecordedPrevious(after[j]).Str? && !LinkBroken(after, j) && !HashBroken(sha, after, j)
    {
      if j != i { assert after[j] == rows[j]; }
    }
    CleanExact(sha, after);
  }

  /** What the chain does not cover: the verifier never looks at the selectable columns or at the payload's own
      `hash` key, so changing them goes unseen. */
  lemma {:induction false} Uncovered(sha: Sha256, a: seq<Row>, b: seq<Row>)
    requires |a| == |b|
    requires forall i :: 0 <= i < |a| ==>
               Content(a[i]) == Content(b[i]) && a[i].hash == b[i].hash
    ensures Findings(sha, a) == Findings(sha, b)
  {
    hide Lookup, Without, ComputeHash;
    if a == [] {
    } else {
      var n := |a| - 1;
      Uncovered(sha, a[..n], b[..n]);
      assert a[n].hash == b[n].hash && Content(a[n]) == Content(b[n]);
      assert |"event_id"| != |"hash"| && |"previous_hash"| != |"hash"|;
      LookupWithout(a[n].payload, "event_id", "hash");
      LookupWithout(b[n].payload, "event_id", "hash");
      LookupWithout(a[n].payload, "previous_hash", "hash");
      LookupWithout(b[n].payload, "previous_hash", "hash");
      if n > 0 { assert a[..n][n - 1].hash == b[..n][n - 1].hash; }
    }
  }

  function Relabel(kind: string): Row -> Row { (r: Row) => r.(eventType := kind) }

  /** So a log whose type column is relabelled verifies exactly as before, while `pending()` finds nothing in it. */
  lemma RelabelledHidesPending(sha: Sha256, rows: seq<Row>, kind: string)
    requires kind != "intent_pending"
    ensures var after := Map(rows, Relabel(kind));
      Findings(sha, after) == Findings(sha, rows) && Filter(after, OpenRow(after)) == []
  {
    hide Lookup, ComputeHash;
    var after := Map(rows, Relabel(kind));
    Uncovered(sha, after, rows);
    NoneOpen(after, OpenRow(after));
  }

  lemma {:induction false} NoneOpen(rows: seq<Row>, p: Row -> bool)
    requires forall r :: r in rows ==> !p(r)
    ensures Filter(rows, p) == []
  {
    if rows == [] {
    } else {
      NoneOpen(rows[..|rows| - 1], p);
    }
  }
}
