/** The decision log: why an action was taken, in a hash chain of its own. */
module Decisions {
  import opened Prelude
  import opened HashChain

  datatype Decision = Decision(
    decisionId: string,
    actionId: string,
    intent: string,
    contextSnapshot: Option<Dict>,
    timestamp: string,
    previousHash: string,
    hash: string)

  /** What the hash of a decision covers: its fields without the hash. */
  function HashedDecision(d: Decision): Dict {
    [Field("decision_id", Str(d.decisionId)),
     Field("action_id", Str(d.actionId)),
     Field("intent", Str(d.intent)),
     Field("context_snapshot", if d.contextSnapshot.None? then Null else Obj(d.contextSnapshot.value)),
     Field("timestamp", Str(d.timestamp)),
     Field("previous_hash", Str(d.previousHash))]
  }

  function MakeDecision(sha: Sha256, id: string, actionId: string, intent: string, context: Option<Dict>,
                        timestamp: string, previous: string): (d: Decision)
    ensures d.decisionId == id && d.actionId == actionId && d.intent == intent && d.previousHash == previous
    ensures d.contextSnapshot == context && d.hash == ComputeHash(sha, previous, HashedDecision(d))
  {
    var d := Decision(id, actionId, intent, context, timestamp, previous, "");
    d.(hash := ComputeHash(sha, previous, HashedDecision(d)))
  }

  /** What the hash of a decision covers: all its fields but the hash, and nothing else. */
  lemma CoveredFields(d: Decision)
    ensures var c := HashedDecision(d);
      && |c| == 6 && DistinctKeys(c)
      && Field("decision_id", Str(d.decisionId)) in c && Field("action_id", Str(d.actionId)) in c
      && Field("intent", Str(d.intent)) in c && Field("timestamp", Str(d.timestamp)) in c
      && Field("previous_hash", Str(d.previousHash)) in c
      && Field("context_snapshot", match d.contextSnapshot case None => Null case Some(s) => Obj(s)) in c
  {}

  predicate FreshDecision(ds: seq<Decision>, id: string) { forall d :: d in ds ==> d.decisionId != id }

  function LastDecisionHash(ds: seq<Decision>): string {
    if ds == [] then GENESIS_HASH else ds[|ds| - 1].hash
  }

  datatype DecisionFinding = DecisionFinding(row: nat, decisionId: string)

  /** The rows whose recorded previous hash is not the hash stored just before them. */
  function LinkageFindings(ds: seq<Decision>): seq<DecisionFinding> {
    if ds == [] then [] else
      var n := |ds| - 1;
      LinkageFindings(ds[..n])
      + (if ds[n].previousHash != LastDecisionHash(ds[..n]) then [DecisionFinding(n, ds[n].decisionId)] else [])
  }

  ghost predicate DecisionsLinked(ds: seq<Decision>) {
    forall i :: 0 <= i < |ds| ==> ds[i].previousHash == LastDecisionHash(ds[..i])
  }

  /** The hash that row `i` has to name: the genesis hash first, then the hash of the row before. */
  function HashBefore(ds: seq<Decision>, i: nat): string
    requires i <= |ds|
  {
    if i == 0 then GENESIS_HASH else ds[i - 1].hash
  }

  lemma HashBeforeExact(ds: seq<Decision>, i: nat)
    requires i <= |ds|
    ensures LastDecisionHash(ds[..i]) == HashBefore(ds, i)
  {}

  /** Linked, said row by row. */
  lemma LinkedMeaning(ds: seq<Decision>)
    ensures DecisionsLinked(ds) <==> forall i :: 0 <= i < |ds| ==> ds[i].previousHash == HashBefore(ds, i)
  {
    hide HashBefore, LastDecisionHash;
    forall i | 0 <= i < |ds| ensures LastDecisionHash(ds[..i]) == HashBefore(ds, i) { HashBeforeExact(ds, i); }
  }

  /** The check reports exactly the rows whose recorded previous hash is another one, with their decision ids. */
  lemma {:induction false} LinkageFindingsExact(ds: seq<Decision>, f: DecisionFinding)
    ensures f in LinkageFindings(ds) <==>
            && f.row < |ds| && f.decisionId == ds[f.row].decisionId
            && ds[f.row].previousHash != HashBefore(ds, f.row)
  {
    if ds == [] {
    } else {
      var n := |ds| - 1;
      LinkageFindingsExact(ds[..n], f);
      HashBeforeExact(ds, n);
      hide LastDecisionHash;
    }
  }

  /** Each row is reported once, in order. */
  lemma {:induction false} LinkageFindingsAscend(ds: seq<Decision>)
    ensures var fs := LinkageFindings(ds);
      && (forall f :: f in fs ==> f.row < |ds|)
      && forall i, j :: 0 <= i < j < |fs| ==> fs[i].row < fs[j].row
  {
    hide LastDecisionHash;
    if ds == [] {
    } else {
      LinkageFindingsAscend(ds[..|ds| - 1]);
    }
  }

  lemma LinkedSnoc(ds: seq<Decision>)
    requires ds != []
    ensures var n := |ds| - 1;
      DecisionsLinked(ds) <==> DecisionsLinked(ds[..n]) && ds[n].previousHash == LastDecisionHash(ds[..n])
  {
    var n := |ds| - 1;
    hide LastDecisionHash;
    assert forall i :: 0 <= i < n ==> ds[..n][i] == ds[i] && ds[..n][..i] == ds[..i];
  }

  /** The linkage check is silent exactly when every decision links to the one before it. */
  lemma {:induction false} LinkageExact(ds: seq<Decision>)
    ensures LinkageFindings(ds) == [] <==> DecisionsLinked(ds)
  {
    if ds == [] {
    } else {
      LinkageExact(ds[..|ds| - 1]);
      LinkedSnoc(ds);
      hide DecisionsLinked, LastDecisionHash;
    }
  }

  lemma NoLinkage(ds: seq<Decision>)
    ensures LinkageFindings(ds[..0]) == []
  {}

  lemma LinkageNext(ds: seq<Decision>, i: nat)
    requires i < |ds|
    ensures LinkageFindings(ds[..i + 1])
         == LinkageFindings(ds[..i])
            + (if ds[i].previousHash != LastDecisionHash(ds[..i]) then [DecisionFinding(i, ds[i].decisionId)] else [])
  {
    hide LastDecisionHash;
    assert ds[..i + 1][..i] == ds[..i] && ds[..i + 1][i] == ds[i];
  }

  lemma LinkedDecision(ds: seq<Decision>, d: Decision)
    requires DecisionsLinked(ds) && d.previousHash == LastDecisionHash(ds)
    ensures DecisionsLinked(ds + [d])
  {
    forall i | 0 <= i < |ds + [d]| ensures (ds + [d])[i].previousHash == LastDecisionHash((ds + [d])[..i]) {
      assert (ds + [d])[..i] == ds[..i];
      if i == |ds| { assert ds[..i] == ds; }
    }
  }

  class SQLiteDecisionStore {
    var decisions: seq<Decision>

    constructor ()
      ensures decisions == []
    {
      decisions := [];
    }

    /** Inserts one row, or raises and changes nothing; `ok` is the database's verdict, and a used id raises. */
    method Record(d: Decision, ok: bool) returns (stored: bool)
      modifies this
      ensures stored <==> ok && FreshDecision(old(decisions), d.decisionId)
      ensures decisions == if stored then old(decisions) + [d] else old(decisions)
    {
      stored := ok && FreshDecision(decisions, d.decisionId);
      if stored { decisions := decisions + [d]; }
    }

    method LastHash() returns (h: string)
      ensures h == LastDecisionHash(decisions)
    {
      h := if decisions == [] then GENESIS_HASH else decisions[|decisions| - 1].hash;
    }

    method VerifyChain() returns (findings: seq<DecisionFinding>)
      ensures findings == LinkageFindings(decisions)
      ensures findings == [] <==> DecisionsLinked(decisions)
    {
      hide LinkageFindings, DecisionsLinked;
      findings := [];
      var previous: string := GENESIS_HASH;
      NoLinkage(decisions);
      var i := 0;
      while i < |decisions|
        invariant 0 <= i <= |decisions|
        invariant previous == LastDecisionHash(decisions[..i])
        invariant findings == LinkageFindings(decisions[..i])
      {
        var d := decisions[i];
        LinkageNext(decisions, i);
        if d.previousHash != previous { findings := findings + [DecisionFinding(i, d.decisionId)]; }
        previous := d.hash;
        i := i + 1;
      }
      assert decisions[..|decisions|] == decisions;
      LinkageExact(decisions);
    }
  }
}
