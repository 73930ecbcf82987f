/** Read-only comparison of a directory tree with the artifacts expected in it. */
module FilesystemDiff {
  import opened Prelude

  /** What stands at a relative path below the observed root. */
  datatype Entry = Regular(data: Bytes, readable: bool) | Directory

  /** The observed tree, by relative path. */
  type Tree = map<string, Entry>

  /** Which entry of the tree the text of an expected path leads to on disk; the text itself when it is normalised. */
  type Locator = string -> string

  datatype DiffKind = Added | Removed | Modified | Unchanged | Ignored | Unknown

  datatype Status = Matched | MismatchObserved | Inconclusive

  datatype Artifact = Artifact(path: string, sha256: Option<string>)

  datatype Difference = Difference(
    path: string, kind: DiffKind, expectedSha256: Option<string>, observedSha256: Option<string>)

  datatype Input = Input(
    backendId: string, executionId: string, expected: seq<Artifact>, ignored: seq<string>)

  datatype Output = Output(
    status: Status, differences: seq<Difference>, missing: seq<string>, review: seq<string>)

  // ----- ignore patterns -----

  predicate StartsWith(s: string, t: string) { t <= s }

  predicate EndsWith(s: string, t: string) { |t| <= |s| && s[|s| - |t|..] == t }

  /** A leading star matches by suffix, anything else by prefix. */
  predicate Matches(path: string, pattern: string) {
    if StartsWith(pattern, "*") then EndsWith(path, pattern[1..]) else pattern == path || StartsWith(path, pattern)
  }

  predicate IsIgnored(path: string, patterns: seq<string>) {
    exists p :: p in patterns && Matches(path, p)
  }

  lemma EndsExact(s: string, t: string)
    ensures EndsWith(s, t) <==> exists before: string :: s == before + t
  {
    if EndsWith(s, t) { assert s == s[..|s| - |t|] + t; }
  }

  lemma StartsExact(s: string, t: string)
    ensures StartsWith(s, t) <==> exists after: string :: s == t + after
  {
    if StartsWith(s, t) { assert s == t + s[|t|..]; }
  }

  /** A pattern matches a path that it begins, or, behind a star, one that it ends. */
  lemma MatchExact(path: string, pattern: string)
    ensures Matches(path, pattern) <==>
              if pattern != "" && pattern[0] == '*' then exists before: string :: path == before + pattern[1..]
              else exists after: string :: path == pattern + after
  {
    assert StartsWith(pattern, "*") <==> pattern != "" && pattern[0] == '*' by { OneStar(pattern); }
    assert StartsWith(path, path);
    hide StartsWith, EndsWith;
    if StartsWith(pattern, "*") { EndsExact(path, pattern[1..]); } else { StartsExact(path, pattern); }
  }

  lemma OneStar(s: string)
    ensures StartsWith(s, "*") <==> s != "" && s[0] == '*'
  {
    if s != "" && s[0] == '*' { assert s[..1] == "*"; }
  }

  method MatchesIgnore(path: string, patterns: seq<string>) returns (found: bool)
    ensures found <==> IsIgnored(path, patterns)
  {
    for i := 0 to |patterns|
      invariant forall j :: 0 <= j < i ==> !Matches(path, patterns[j])
    {
      var pattern := patterns[i];
      if StartsWith(pattern, "*") {
        if EndsWith(path, pattern[1..]) {
          assert pattern in patterns && Matches(path, pattern);
          return true;
        }
      } else if pattern == path || StartsWith(path, pattern) {
        assert pattern in patterns && Matches(path, pattern);
        return true;
      }
    }
    return false;
  }

  // ----- one artifact, one observed file -----

  predicate IsRegular(tree: Tree, path: string) { path in tree && tree[path].Regular? }

  /** The digest of what stands at the path; a directory or an unreadable file has none. */
  function Hash(sha: Sha256, tree: Tree, path: string): Option<Digest> {
    if IsRegular(tree, path) && tree[path].readable then Some(sha(tree[path].data)) else None
  }

  function Compare(sha: Sha256, tree: Tree, at: Locator, ignored: seq<string>, a: Artifact): Difference {
    var seen := Hash(sha, tree, at(a.path));
    if IsIgnored(a.path, ignored) then Difference(a.path, Ignored, a.sha256, None)
    else if at(a.path) !in tree then Difference(a.path, Removed, a.sha256, None)
    else if seen.None? then Difference(a.path, Unknown, a.sha256, None)
    else if a.sha256.Some? && a.sha256.value != "" && a.sha256.value != seen.value
    then Difference(a.path, Modified, a.sha256, seen)
    else Difference(a.path, Unchanged, a.sha256, seen)
  }

  /** The review hint for a difference; `None` for what needs no review. */
  function Review(d: Difference): Option<string> {
    match d.kind
    case Removed => Some("Review missing " + d.path + " before regenerating artifacts.")
    case Unknown => Some("Could not read " + d.path + " for hash comparison. Check file permissions.")
    case Modified => Some("Review modified " + d.path + " before treating this run as complete.")
    case Added => Some("Review added " + d.path + " before adopting it as expected output.")
    case Unchanged => None
    case Ignored => None
  }

  predicate IsMismatch(d: Difference) { Review(d).Some? }

  predicate IsUnknown(d: Difference) { d.kind.Unknown? }

  predicate IsRemoved(d: Difference) { d.kind.Removed? }

  function PathOf(): Difference -> string { (d: Difference) => d.path }

  function ReviewText(): Difference -> string {
    (d: Difference) => if Review(d).Some? then Review(d).value else ""
  }

  function Comparer(sha: Sha256, tree: Tree, at: Locator, ignored: seq<string>): Artifact -> Difference {
    (a: Artifact) => Compare(sha, tree, at, ignored, a)
  }

  function PathsOf(expected: seq<Artifact>): set<string> { set a | a in expected :: a.path }

  predicate IsExtra(tree: Tree, expected: set<string>, ignored: seq<string>, path: string) {
    IsRegular(tree, path) && path !in expected && !IsIgnored(path, ignored)
  }

  function ExtraIn(tree: Tree, expected: set<string>, ignored: seq<string>): string -> bool {
    (path: string) => IsExtra(tree, expected, ignored, path)
  }

  function AddedAt(): string -> Difference { (path: string) => Difference(path, Added, None, None) }

  /** All differences: one for each expected artifact, then one for each extra file of the listing. */
  function Differences(sha: Sha256, tree: Tree, at: Locator, listing: seq<string>, input: Input): seq<Difference> {
    Map(input.expected, Comparer(sha, tree, at, input.ignored))
    + Map(Filter(listing, ExtraIn(tree, PathsOf(input.expected), input.ignored)), AddedAt())
  }

  function StatusOf(differences: seq<Difference>): Status {
    if Filter(differences, IsUnknown) != [] then Inconclusive
    else if Filter(differences, IsMismatch) != [] then MismatchObserved
    else Matched
  }

  /** The report on an existing root: the review hints are those of the differences that need one, in order. */
  function ReportOf(sha: Sha256, tree: Tree, at: Locator, listing: seq<string>, input: Input): Output {
    var ds := Differences(sha, tree, at, listing, input);
    Output(StatusOf(ds), ds, Map(Filter(ds, IsRemoved), PathOf()), Map(Filter(ds, IsMismatch), ReviewText()))
  }

  /** `missing` and `review` are what the differences so far call for. */
  ghost predicate Consistent(ds: seq<Difference>, missing: seq<string>, review: seq<string>) {
    && missing == Map(Filter(ds, IsRemoved), PathOf())
    && review == Map(Filter(ds, IsMismatch), ReviewText())
  }

  /** The loop over the expected artifacts. */
  method CheckExpected(sha: Sha256, tree: Tree, at: Locator, input: Input)
    returns (differences: seq<Difference>, missing: seq<string>, review: seq<string>)
    ensures differences == Map(input.expected, Comparer(sha, tree, at, input.ignored))
    ensures Consistent(differences, missing, review)
  {
    differences, missing, review := [], [], [];
    ghost var f := Comparer(sha, tree, at, input.ignored);
    Nothing(f);
    hide Consistent, Compare, IsIgnored, Map, Filter;
    for i := 0 to |input.expected|
      invariant differences == Map(input.expected[..i], f)
      invariant Consistent(differences, missing, review)
    {
      var a := input.expected[i];
      assert input.expected[..i + 1] == input.expected[..i] + [a];
      MapSnoc(input.expected[..i], a, f);
      var d, hint := CompareOne(sha, tree, at, input.ignored, a);
      Extend(differences, missing, review, d, hint);
      assert missing + [] == missing;
      if d.kind.Removed? { missing := missing + [a.path]; }
      differences := differences + [d];
      review := review + hint;
    }
    assert input.expected[..|input.expected|] == input.expected;
  }

  /** The walk over the observed tree, for files nobody expected. */
  method CheckExtra(tree: Tree, listing: seq<string>, input: Input, checked: seq<Difference>, missing: seq<string>,
                    hints: seq<string>) returns (differences: seq<Difference>, review: seq<string>)
    requires Consistent(checked, missing, hints)
    ensures differences
         == checked + Map(Filter(listing, ExtraIn(tree, PathsOf(input.expected), input.ignored)), AddedAt())
    ensures Consistent(differences, missing, review)
  {
    var expectedPaths := PathsOf(input.expected);
    ghost var extra := ExtraIn(tree, expectedPaths, input.ignored);
    differences, review := checked, hints;
    NothingExtra(listing, extra);
    hide Consistent, IsIgnored, Map, Filter;
    for i := 0 to |listing|
      invariant differences == checked + Map(Filter(listing[..i], extra), AddedAt())
      invariant Consistent(differences, missing, review)
    {
      var path := listing[i];
      assert listing[..i + 1] == listing[..i] + [path];
      FilterSnoc(listing[..i], path, extra);
      if IsRegular(tree, path) {
        var ignored := MatchesIgnore(path, input.ignored);
        if path !in expectedPaths && !ignored {
          var d := Difference(path, Added, None, None);
          var hint := "Review added " + path + " before adopting it as expected output.";
          Extend(differences, missing, review, d, [hint]);
          assert missing + [] == missing;
          ghost var kept := Filter(listing[..i], extra);
          MapSnoc(kept, path, AddedAt());
          Assoc(checked, Map(kept, AddedAt()), [d]);
          differences := differences + [d];
          review := review + [hint];
        }
      }
    }
    assert listing[..|listing|] == listing;
  }

  /** `root` is the observed tree, if the root exists; `listing` is what the directory walk yields before it ends or
      raises. `None`: the ids are missing and the call raises. */
  method ReconcileFilesystemDiff(sha: Sha256, root: Option<Tree>, at: Locator, listing: seq<string>, input: Input)
    returns (r: Option<Output>)
    ensures r.None? <==> input.backendId == "" || input.executionId == ""
    ensures r.Some? ==> r.value == if root.None? then Output(Inconclusive, [], [], [])
                                   else ReportOf(sha, root.value, at, listing, input)
  {
    if input.backendId == "" || input.executionId == "" { return None; }
    if root.None? { return Some(Output(Inconclusive, [], [], [])); }
    var tree := root.value;
    var checked, missing, hints := CheckExpected(sha, tree, at, input);
    var differences, review := CheckExtra(tree, listing, input, checked, missing, hints);
    var hasDifferences := exists d :: d in differences && d.kind in {Added, Removed, Modified, Unknown};
    var hasInconclusive := exists d :: d in differences && d.kind.Unknown?;
    var status := if hasDifferences && !hasInconclusive then MismatchObserved
                  else if hasInconclusive then Inconclusive
                  else Matched;
    StatusMeaning(differences);
    r := Some(Output(status, differences, missing, review));
  }

  /** One expected artifact against the tree, with the hint for it, if there is one. */
  method CompareOne(sha: Sha256, tree: Tree, at: Locator, ignored: seq<string>, a: Artifact)
    returns (d: Difference, hint: seq<string>)
    ensures d == Compare(sha, tree, at, ignored, a) && d.path == a.path
    ensures hint == if Review(d).Some? then [Review(d).value] else []
  {
    hint := [];
    var skip := MatchesIgnore(a.path, ignored);
    if skip { return Difference(a.path, Ignored, a.sha256, None), []; }
    if at(a.path) !in tree {
      return Difference(a.path, Removed, a.sha256, None),
             ["Review missing " + a.path + " before regenerating artifacts."];
    }
    var seen := Hash(sha, tree, at(a.path));
    if seen.None? {
      return Difference(a.path, Unknown, a.sha256, None),
             ["Could not read " + a.path + " for hash comparison. Check file permissions."];
    }
    if a.sha256.Some? && a.sha256.value != "" && a.sha256.value != seen.value {
      return Difference(a.path, Modified, a.sha256, seen),
             ["Review modified " + a.path + " before treating this run as complete."];
    }
    d := Difference(a.path, Unchanged, a.sha256, seen);
  }

  lemma Nothing(f: Artifact -> Difference)
    ensures Map([], f) == [] && Consistent([], [], [])
  {}

  lemma NothingExtra(listing: seq<string>, extra: string -> bool)
    ensures Filter(listing[..0], extra) == [] && Map([], AddedAt()) == []
  {}

  /** One more difference adds its own hint and its own missing path, and nothing else. */
  lemma Extend(ds: seq<Difference>, missing: seq<string>, review: seq<string>, d: Difference, hint: seq<string>)
    requires Consistent(ds, missing, review)
    requires hint == if Review(d).Some? then [Review(d).value] else []
    ensures Consistent(ds + [d], missing + (if d.kind.Removed? then [d.path] else []), review + hint)
  {
    FilterSnoc(ds, d, IsRemoved);
    FilterSnoc(ds, d, IsMismatch);
    MapSnoc(Filter(ds, IsRemoved), d, PathOf());
    MapSnoc(Filter(ds, IsMismatch), d, ReviewText());
    hide Review, Filter, Map;
  }

  lemma StatusMeaning(ds: seq<Difference>)
    ensures StatusOf(ds).Inconclusive? <==> exists d :: d in ds && d.kind.Unknown?
    ensures StatusOf(ds).Matched? <==> !exists d :: d in ds && d.kind in {Added, Removed, Modified, Unknown}
  {
    FilterMember(ds, IsUnknown);
    FilterMember(ds, IsMismatch);
    var u, m := Filter(ds, IsUnknown), Filter(ds, IsMismatch);
    if u != [] { assert u[0] in u; }
    if m != [] { assert m[0] in m; }
    forall d | d in ds ensures IsMismatch(d) <==> d.kind in {Added, Removed, Modified, Unknown} {}
  }

  // ----- single artifacts, on any tree -----

  /** An artifact that is there but cannot be read, or is a directory, is reported as unknown, and makes the comparison
      inconclusive. */
  lemma UnreadableUnknown(sha: Sha256, tree: Tree, at: Locator, listing: seq<string>, input: Input, a: Artifact)
    requires a in input.expected && !IsIgnored(a.path, input.ignored)
    requires at(a.path) in tree && (tree[at(a.path)].Directory? || !tree[at(a.path)].readable)
    ensures var r := ReportOf(sha, tree, at, listing, input);
      Difference(a.path, Unknown, a.sha256, None) in r.differences && r.status == Inconclusive
  {
    hide IsIgnored, StatusOf;
    var i :| 0 <= i < |input.expected| && input.expected[i] == a;
    var ds := Differences(sha, tree, at, listing, input);
    assert ds[i] == Compare(sha, tree, at, input.ignored, a);
    StatusMeaning(ds);
  }

  /** An artifact without a recorded digest counts as unchanged as soon as it can be read. */
  lemma NoDigestUnchanged(sha: Sha256, tree: Tree, at: Locator, listing: seq<string>, input: Input, a: Artifact)
    requires a in input.expected && !IsIgnored(a.path, input.ignored) && a.sha256 in {None, Some("")}
    requires at(a.path) in tree && tree[at(a.path)].Regular? && tree[at(a.path)].readable
    ensures Difference(a.path, Unchanged, a.sha256, Some(sha(tree[at(a.path)].data)))
            in Differences(sha, tree, at, listing, input)
  {
    hide IsIgnored, Filter;
    var i :| 0 <= i < |input.expected| && input.expected[i] == a;
    assert Differences(sha, tree, at, listing, input)[i] == Compare(sha, tree, at, input.ignored, a);
  }

  /** The hint for a difference is in the report, and says what to look at. */
  lemma HintGiven(sha: Sha256, tree: Tree, at: Locator, listing: seq<string>, input: Input, d: Difference)
    requires d in Differences(sha, tree, at, listing, input)
    ensures var r := ReportOf(sha, tree, at, listing, input);
      && (d.kind == Removed ==>
            d.path in r.missing && "Review missing " + d.path + " before regenerating artifacts." in r.review)
      && (d.kind == Unknown ==>
            "Could not read " + d.path + " for hash comparison. Check file permissions." in r.review)
      && (d.kind == Modified ==>
            "Review modified " + d.path + " before treating this run as complete." in r.review)
      && (d.kind == Added ==> "Review added " + d.path + " before adopting it as expected output." in r.review)
  {
    hide Differences, StatusOf, Filter, Map;
    var ds := Differences(sha, tree, at, listing, input);
    FilterMember(ds, IsRemoved);
    FilterMember(ds, IsMismatch);
    hide Review, IsMismatch;
    if d.kind == Removed { MapMember(Filter(ds, IsRemoved), PathOf(), d); }
    HintText(d);
    if IsMismatch(d) { MapMember(Filter(ds, IsMismatch), ReviewText(), d); }
  }

  lemma MapMember<T>(s: seq<T>, f: T -> string, x: T)
    requires x in s
    ensures f(x) in Map(s, f)
  {
    var i :| 0 <= i < |s| && s[i] == x;
    assert Map(s, f)[i] == f(x);
  }

  lemma HintText(d: Difference)
    ensures IsMismatch(d) <==> d.kind in {Removed, Unknown, Modified, Added}
    ensures d.kind == Removed ==> ReviewText()(d) == "Review missing " + d.path + " before regenerating artifacts."
    ensures d.kind == Unknown ==>
              ReviewText()(d) == "Could not read " + d.path + " for hash comparison. Check file permissions."
    ensures d.kind == Modified ==>
              ReviewText()(d) == "Review modified " + d.path + " before treating this run as complete."
    ensures d.kind == Added ==>
              ReviewText()(d) == "Review added " + d.path + " before adopting it as expected output."
  {}

  // ----- exactness against a snapshot -----

  /** A full-hash snapshot of a tree: each of its regular files once, under its normalised path, with its digest. */
  ghost predicate IsSnapshot(sha: Sha256, a: Tree, at: Locator, expected: seq<Artifact>) {
    && (forall x, y :: 0 <= x < y < |expected| ==> expected[x].path != expected[y].path)
    && (forall p :: p in PathsOf(expected) <==> IsRegular(a, p))
    && (forall e :: e in expected ==> IsRegular(a, e.path) && e.sha256 == Some(sha(a[e.path].data)))
    && (forall e :: e in expected ==> at(e.path) == e.path)
  }

  ghost predicate ReadableTree(t: Tree) { forall p :: IsRegular(t, p) ==> t[p].readable }

  ghost predicate CompleteListing(t: Tree, listing: seq<string>) { forall p :: p in listing <==> p in t }

  /** Which kind of difference a path deserves when tree `b` is compared with tree `a`. */
  ghost predicate Deserves(sha: Sha256, a: Tree, b: Tree, ignored: seq<string>, p: string, kind: DiffKind) {
    match kind
    case Ignored => IsRegular(a, p) && IsIgnored(p, ignored)
    case Removed => IsRegular(a, p) && !IsIgnored(p, ignored) && p !in b
    case Unknown => IsRegular(a, p) && !IsIgnored(p, ignored) && p in b && b[p].Directory?
    case Modified =>
      IsRegular(a, p) && !IsIgnored(p, ignored) && IsRegular(b, p) && sha(a[p].data) != sha(b[p].data)
    case Unchanged =>
      IsRegular(a, p) && !IsIgnored(p, ignored) && IsRegular(b, p) && sha(a[p].data) == sha(b[p].data)
    case Added => IsRegular(b, p) && !IsIgnored(p, ignored) && !IsRegular(a, p)
  }

  /** The digest in `a`, except for an added path, and the digest in `b`, where both trees have one to compare. */
  function DifferenceAt(sha: Sha256, a: Tree, b: Tree, p: string, kind: DiffKind): Difference {
    Difference(p, kind,
               if IsRegular(a, p) && kind != Added then Some(sha(a[p].data)) else None,
               if IsRegular(b, p) && kind in {Modified, Unchanged} then Some(sha(b[p].data)) else None)
  }

  /** A difference between the trees as it should be reported: the right kind for its path, with the right digests. */
  ghost predicate Deserved(sha: Sha256, a: Tree, b: Tree, ignored: seq<string>, d: Difference) {
    Deserves(sha, a, b, ignored, d.path, d.kind) && d == DifferenceAt(sha, a, b, d.path, d.kind)
  }

  lemma CompareDeserves(sha: Sha256, a: Tree, b: Tree, at: Locator, ignored: seq<string>, e: Artifact, d: Difference)
    requires IsRegular(a, e.path) && e.sha256 == Some(sha(a[e.path].data)) && at(e.path) == e.path && ReadableTree(b)
    ensures Compare(sha, b, at, ignored, e) == d <==>
            d.path == e.path && d.kind != Added && Deserved(sha, a, b, ignored, d)
  {
    hide IsIgnored;
  }

  lemma ExpectedExact(sha: Sha256, a: Tree, b: Tree, at: Locator, input: Input, d: Difference)
    requires IsSnapshot(sha, a, at, input.expected) && ReadableTree(b)
    ensures d in Map(input.expected, Comparer(sha, b, at, input.ignored))
            <==> d.kind != Added && Deserved(sha, a, b, input.ignored, d)
  {
    var es := input.expected;
    var known := Map(es, Comparer(sha, b, at, input.ignored));
    assert Deserved(sha, a, b, input.ignored, d) && d.kind != Added ==> d.path in PathsOf(es);
    forall e | e in es
      ensures Compare(sha, b, at, input.ignored, e) == d <==>
              d.path == e.path && d.kind != Added && Deserved(sha, a, b, input.ignored, d)
    {
      CompareDeserves(sha, a, b, at, input.ignored, e, d);
    }
    hide IsIgnored, Compare, Deserved, ReadableTree, Hash, IsSnapshot;
    if d in known {
      var i :| 0 <= i < |known| && known[i] == d;
      assert es[i] in es;
    }
    if d.kind != Added && Deserved(sha, a, b, input.ignored, d) {
      var i :| 0 <= i < |es| && es[i].path == d.path;
      assert es[i] in es && known[i] in known;
    }
  }

  lemma AddedExact(tree: Tree, listing: seq<string>, expected: set<string>, ignored: seq<string>, d: Difference)
    requires CompleteListing(tree, listing)
    ensures d in Map(Filter(listing, ExtraIn(tree, expected, ignored)), AddedAt())
            <==> IsExtra(tree, expected, ignored, d.path) && d == AddedAt()(d.path)
  {
    hide IsIgnored, Filter;
    var extra := ExtraIn(tree, expected, ignored);
    var paths := Filter(listing, extra);
    var added := Map(paths, AddedAt());
    FilterMember(listing, extra);
    if d in added {
      var i :| 0 <= i < |added| && added[i] == d;
      assert paths[i] in paths && extra(paths[i]);
    }
    if IsExtra(tree, expected, ignored, d.path) {
      assert extra(d.path) && d.path in paths;
      var i :| 0 <= i < |paths| && paths[i] == d.path;
      assert added[i] in added;
    }
  }

  /** The comparison is exact: against a full-hash snapshot of tree `a`, the differences reported for tree `b` are
      precisely those the trees have, each with its kind and its digests. */
  lemma DiffExact(sha: Sha256, a: Tree, b: Tree, at: Locator, listing: seq<string>, input: Input, d: Difference)
    requires IsSnapshot(sha, a, at, input.expected) && ReadableTree(b) && CompleteListing(b, listing)
    ensures d in Differences(sha, b, at, listing, input) <==> Deserved(sha, a, b, input.ignored, d)
  {
    ExpectedExact(sha, a, b, at, input, d);
    AddedExact(b, listing, PathsOf(input.expected), input.ignored, d);
    assert d.path in PathsOf(input.expected) <==> IsRegular(a, d.path);
    hide IsIgnored, Map, Filter, PathsOf, IsSnapshot;
  }

  function OwnPath(): string -> string { (p: string) => p }

  /** No path is reported twice. */
  lemma DiffDistinct(sha: Sha256, a: Tree, b: Tree, at: Locator, listing: seq<string>, input: Input)
    requires IsSnapshot(sha, a, at, input.expected) && Distinct(listing, OwnPath())
    ensures Distinct(Differences(sha, b, at, listing, input), PathOf())
  {
    hide IsIgnored, Filter;
    var es, extra := input.expected, ExtraIn(b, PathsOf(input.expected), input.ignored);
    var paths, ds := Filter(listing, extra), Differences(sha, b, at, listing, input);
    FilterDistinct(listing, extra, OwnPath());
    FilterMember(listing, extra);
    forall i | 0 <= i < |ds| ensures ds[i].path == if i < |es| then es[i].path else paths[i - |es|] {}
    forall i, j | 0 <= i < j < |ds| ensures PathOf()(ds[i]) != PathOf()(ds[j]) {
      if i >= |es| {
        assert OwnPath()(paths[i - |es|]) != OwnPath()(paths[j - |es|]);
      } else if j >= |es| {
        assert paths[j - |es|] in paths && extra(paths[j - |es|]);
        assert es[i] in es && es[i].path in PathsOf(es);
      }
    }
  }

  /** The trees agree outside the ignored paths. */
  ghost predicate Agree(sha: Sha256, a: Tree, b: Tree, ignored: seq<string>) {
    forall p :: !IsIgnored(p, ignored) ==>
      (if IsRegular(a, p) then IsRegular(b, p) && sha(a[p].data) == sha(b[p].data) else !IsRegular(b, p))
  }

  /** MATCHED means agreement, and nothing less. */
  lemma MatchedExact(sha: Sha256, a: Tree, b: Tree, at: Locator, listing: seq<string>, input: Input)
    requires IsSnapshot(sha, a, at, input.expected) && ReadableTree(b) && CompleteListing(b, listing)
    ensures ReportOf(sha, b, at, listing, input).status == Matched <==> Agree(sha, a, b, input.ignored)
  {
    hide IsIgnored, Differences, IsSnapshot, CompleteListing, DifferenceAt;
    var ds := Differences(sha, b, at, listing, input);
    StatusMeaning(ds);
    forall d ensures d in ds <==> Deserved(sha, a, b, input.ignored, d) {
      DiffExact(sha, a, b, at, listing, input, d);
    }
    hide StatusOf;
    if StatusOf(ds).Matched? {
      forall p | !IsIgnored(p, input.ignored)
        ensures if IsRegular(a, p) then IsRegular(b, p) && sha(a[p].data) == sha(b[p].data) else !IsRegular(b, p)
      {
        forall kind | kind in {Added, Removed, Modified, Unknown}
          ensures !Deserves(sha, a, b, input.ignored, p, kind)
        {
          NamedDifference(sha, a, b, p, kind);
          assert DifferenceAt(sha, a, b, p, kind) !in ds;
        }
        assert !Deserves(sha, a, b, input.ignored, p, Added) && !Deserves(sha, a, b, input.ignored, p, Removed);
        assert !Deserves(sha, a, b, input.ignored, p, Modified) && !Deserves(sha, a, b, input.ignored, p, Unknown);
      }
    }
    if Agree(sha, a, b, input.ignored) {
      forall d | d in ds ensures d.kind !in {Added, Removed, Modified, Unknown} {
        assert Deserved(sha, a, b, input.ignored, d);
      }
    }
  }

  lemma NamedDifference(sha: Sha256, a: Tree, b: Tree, p: string, kind: DiffKind)
    ensures DifferenceAt(sha, a, b, p, kind).path == p && DifferenceAt(sha, a, b, p, kind).kind == kind
  {}

  predicate Bad(d: Difference) { d.kind in {Added, Removed, Modified, Unknown} }

  lemma WiderIgnored(path: string, ignored: seq<string>, more: seq<string>)
    requires IsIgnored(path, ignored)
    ensures IsIgnored(path, ignored + more)
  {
    var q :| q in ignored && Matches(path, q);
    assert q in ignored + more;
  }

  /** What is reported although more is ignored was reported before. */
  lemma BadBefore(sha: Sha256, tree: Tree, at: Locator, listing: seq<string>, input: Input, more: seq<string>,
                  d: Difference)
    requires d in Differences(sha, tree, at, listing, input.(ignored := input.ignored + more)) && Bad(d)
    ensures d in Differences(sha, tree, at, listing, input)
  {
    hide Filter;
    var wider := input.ignored + more;
    forall p | IsIgnored(p, input.ignored) ensures IsIgnored(p, wider) { WiderIgnored(p, input.ignored, more); }
    hide IsIgnored;
    var known, known' := Map(input.expected, Comparer(sha, tree, at, input.ignored)),
                         Map(input.expected, Comparer(sha, tree, at, wider));
    var paths := PathsOf(input.expected);
    var extra, extra' := ExtraIn(tree, paths, input.ignored), ExtraIn(tree, paths, wider);
    FilterMember(listing, extra);
    FilterMember(listing, extra');
    if d in known' {
      var i :| 0 <= i < |known'| && known'[i] == d;
      assert known[i] == d;
    } else {
      var i :| 0 <= i < |Filter(listing, extra')| && AddedAt()(Filter(listing, extra')[i]) == d;
      var x := Filter(listing, extra')[i];
      assert x in Filter(listing, extra') && extra'(x) && extra(x);
      var j :| 0 <= j < |Filter(listing, extra)| && Filter(listing, extra)[j] == x;
      assert Map(Filter(listing, extra), AddedAt())[j] == d;
    }
  }

  /** Ignoring more never turns a match into anything else, whatever the expectations and the tree. */
  lemma IgnoringMoreKeepsMatch(sha: Sha256, tree: Tree, at: Locator, listing: seq<string>, input: Input,
                               more: seq<string>)
    requires ReportOf(sha, tree, at, listing, input).status == Matched
    ensures ReportOf(sha, tree, at, listing, input.(ignored := input.ignored + more)).status == Matched
  {
    var wider := input.(ignored := input.ignored + more);
    var ds, es := Differences(sha, tree, at, listing, input), Differences(sha, tree, at, listing, wider);
    StatusMeaning(ds);
    StatusMeaning(es);
    hide Differences, StatusOf;
    forall d | d in es ensures Bad(d) ==> d in ds {
      if Bad(d) { BadBefore(sha, tree, at, listing, input, more, d); }
    }
  }
}
