/** Datatypes and sequence functions shared by every module. */
module Prelude {

  /** An optional value; as a failure-compatible type, `None` plays the part of a raised exception. */
  datatype Option<+T> = None | Some(value: T) {
    predicate IsFailure() { None? }
    function PropagateFailure<U>(): Option<U> requires None? { None }
    function Extract(): T requires Some? { value }
  }

  newtype Byte = b: int | 0 <= b < 256
  type Bytes = seq<Byte>

  /** A SHA-256 value in hexadecimal: 64 characters. */
  type Digest = d: string | |d| == 64 witness seq(64, _ => '0')

  /** SHA-256 (section 6.2 of FIPS 180-4) is a parameter: nothing but its output length is known. */
  type Sha256 = Bytes -> Digest

  /** The elements of `s` that satisfy `p`, in order. */
  function Filter<T>(s: seq<T>, p: T -> bool): seq<T> {
    if s == [] then [] else
      var r := Filter(s[..|s| - 1], p);
      if p(s[|s| - 1]) then r + [s[|s| - 1]] else r
  }

  lemma {:induction false} FilterMember<T(!new)>(s: seq<T>, p: T -> bool)
    ensures forall x :: x in Filter(s, p) <==> x in s && p(x)
  {
    if s == [] {
    } else {
      FilterMember(s[..|s| - 1], p);
      assert s == s[..|s| - 1] + [s[|s| - 1]];
    }
  }

  lemma {:induction false} FilterAll<T(!new)>(s: seq<T>, p: T -> bool)
    requires forall x :: x in s ==> p(x)
    ensures Filter(s, p) == s
  {
    if s == [] {
    } else {
      FilterAll(s[..|s| - 1], p);
      assert s == s[..|s| - 1] + [s[|s| - 1]];
    }
  }

  lemma {:induction false} FilterNothing<T(!new)>(s: seq<T>, p: T -> bool)
    requires forall x :: x in s ==> !p(x)
    ensures Filter(s, p) == []
  {
    if s == [] {
    } else {
      FilterNothing(s[..|s| - 1], p);
    }
  }

  lemma FilterSnoc<T>(s: seq<T>, x: T, p: T -> bool)
    ensures Filter(s + [x], p) == Filter(s, p) + (if p(x) then [x] else [])
  {
    assert (s + [x])[..|s|] == s;
  }

  lemma Assoc<T>(a: seq<T>, b: seq<T>, c: seq<T>)
    ensures a + b + c == a + (b + c)
  {}

  lemma FilterNone<T>(p: T -> bool)
    ensures Filter([], p) == []
  {}

  lemma FilterAppendSnoc<T>(s: seq<T>, u: seq<T>, x: T, p: T -> bool)
    requires Filter(s + u, p) == Filter(s, p) + Filter(u, p)
    ensures Filter(s + (u + [x]), p) == Filter(s, p) + Filter(u + [x], p)
  {
    hide Filter;
    FilterSnoc(s + u, x, p);
    FilterSnoc(u, x, p);
    Assoc(s, u, [x]);
    Assoc(Filter(s, p), Filter(u, p), if p(x) then [x] else []);
  }

  lemma {:induction false} FilterAppend<T>(s: seq<T>, t: seq<T>, p: T -> bool)
    ensures Filter(s + t, p) == Filter(s, p) + Filter(t, p)
  {
    hide Filter;
    if t == [] {
      FilterNone(p);
      assert s + t == s;
    } else {
      var u, x := t[..|t| - 1], t[|t| - 1];
      FilterAppend(s, u, p);
      FilterAppendSnoc(s, u, x, p);
      assert t == u + [x];
    }
  }

  lemma {:induction false} FilterSame<T(!new)>(s: seq<T>, p: T -> bool, q: T -> bool)
    requires forall x :: x in s ==> p(x) == q(x)
    ensures Filter(s, p) == Filter(s, q)
  {
    if s == [] {
    } else {
      FilterSame(s[..|s| - 1], p, q);
    }
  }

  /** Elements that differ pairwise under `f` still do after filtering. */
  ghost predicate Distinct<T, U>(s: seq<T>, f: T -> U) {
    forall i, j :: 0 <= i < j < |s| ==> f(s[i]) != f(s[j])
  }

  lemma {:induction false} FilterDistinct<T(!new), U>(s: seq<T>, p: T -> bool, f: T -> U)
    requires Distinct(s, f)
    ensures Distinct(Filter(s, p), f)
  {
    if s == [] {
    } else {
      var u, x := s[..|s| - 1], s[|s| - 1];
      FilterDistinct(u, p, f);
      FilterMember(u, p);
      var kept := Filter(u, p);
      forall i | 0 <= i < |kept| ensures f(kept[i]) != f(x) {
        assert kept[i] in kept;
        var j :| 0 <= j < |u| && u[j] == kept[i];
      }
    }
  }

  /** Filtering by `p` and by its complement splits the length. */
  lemma {:induction false} FilterSplit<T(!new)>(s: seq<T>, p: T -> bool, q: T -> bool)
    requires forall x :: x in s ==> p(x) != q(x)
    ensures |Filter(s, p)| + |Filter(s, q)| == |s|
  {
    if s == [] {
    } else {
      FilterSplit(s[..|s| - 1], p, q);
    }
  }

  lemma {:induction false} FilterTwice<T(!new)>(s: seq<T>, p: T -> bool, q: T -> bool, both: T -> bool)
    requires forall x :: x in s ==> both(x) == (p(x) && q(x))
    ensures Filter(Filter(s, p), q) == Filter(s, both)
  {
    if s == [] {
    } else {
      FilterTwice(s[..|s| - 1], p, q, both);
      if p(s[|s| - 1]) { FilterAppend(Filter(s[..|s| - 1], p), [s[|s| - 1]], q); }
    }
  }

  /** The images of the elements of `s`, in order. */
  function Map<T, U>(s: seq<T>, f: T -> U): (r: seq<U>)
    ensures |r| == |s| && forall i :: 0 <= i < |s| ==> r[i] == f(s[i])
  {
    seq(|s|, i requires 0 <= i < |s| => f(s[i]))
  }

  lemma MapSnoc<T, U>(s: seq<T>, x: T, f: T -> U)
    ensures Map(s + [x], f) == Map(s, f) + [f(x)]
  {}

  /** Filtering images is filtering what they are images of. */
  lemma {:induction false} FilterMap<T(!new), U(!new)>(s: seq<T>, f: T -> U, p: U -> bool, q: T -> bool)
    requires forall x :: x in s ==> p(f(x)) == q(x)
    ensures Filter(Map(s, f), p) == Map(Filter(s, q), f)
  {
    if s == [] {
    } else {
      var n := |s| - 1;
      FilterMap(s[..n], f, p, q);
      assert Map(s, f)[..n] == Map(s[..n], f);
      assert s[n] in s;
    }
  }

  /** The images of all elements, or `None` if one element has none. */
  function TryMap<T, U>(s: seq<T>, f: T -> Option<U>): Option<seq<U>> {
    if s == [] then Some([]) else
      var before :- TryMap(s[..|s| - 1], f);
      var last :- f(s[|s| - 1]);
      Some(before + [last])
  }

  lemma {:induction false} TryMapInverse<T, U>(s: seq<T>, f: T -> U, g: U -> Option<T>)
    requires forall i :: 0 <= i < |s| ==> g(f(s[i])) == Some(s[i])
    ensures TryMap(Map(s, f), g) == Some(s)
  {
    if s == [] {
    } else {
      var n := |s| - 1;
      TryMapInverse(s[..n], f, g);
      assert Map(s, f)[..n] == Map(s[..n], f);
      assert s == s[..n] + [s[n]];
    }
  }

  /** Where the entry with key `k` stands in an insertion-ordered dictionary; its length when there is none. */
  function Position<T>(d: seq<T>, k: string, key: T -> string): (i: nat)
    ensures i <= |d| && (i < |d| ==> key(d[i]) == k)
    ensures forall j :: 0 <= j < i ==> key(d[j]) != k
  {
    if d == [] then 0
    else if Position(d[..|d| - 1], k, key) < |d| - 1 then Position(d[..|d| - 1], k, key)
    else if key(d[|d| - 1]) == k then |d| - 1
    else |d|
  }

  /** Stores `x` in an insertion-ordered dictionary: it replaces the entry with its key, or goes to the end. */
  function Upsert<T>(d: seq<T>, x: T, key: T -> string): seq<T> {
    var i := Position(d, key(x), key);
    if i < |d| then d[i := x] else d + [x]
  }

  /** The keys of a dictionary are distinct. */
  ghost predicate Keyed<T>(d: seq<T>, key: T -> string) {
    forall i, j :: 0 <= i < j < |d| ==> key(d[i]) != key(d[j])
  }

  lemma UpsertKeyed<T>(d: seq<T>, x: T, key: T -> string)
    requires Keyed(d, key)
    ensures Keyed(Upsert(d, x, key), key)
  {
    var i := Position(d, key(x), key);
    if i == |d| { assert forall k :: 0 <= k < |d| ==> key(d[k]) != key(x); }
  }

  lemma UpsertMember<T(!new)>(d: seq<T>, x: T, key: T -> string)
    requires Keyed(d, key)
    ensures forall y :: y in Upsert(d, x, key) <==> y == x || (y in d && key(y) != key(x))
  {
    var i, after := Position(d, key(x), key), Upsert(d, x, key);
    assert after[i] == x;
    forall y | y in d && key(y) != key(x) ensures y in after {
      var k :| 0 <= k < |d| && d[k] == y;
      assert after[k] == y;
    }
  }
}
