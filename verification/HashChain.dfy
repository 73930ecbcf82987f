/** Nested JSON values, their canonical text (section 7 of RFC 8259) and the chained hash over it. */
module HashChain {
  import opened Prelude
  import Utf8

  function Zeros(n: nat): (s: string)
    ensures |s| == n && forall i :: 0 <= i < n ==> s[i] == '0'
  {
    if n == 0 then "" else Zeros(n - 1) + "0"
  }

  const GENESIS_HASH: Digest := Zeros(64)

  lemma GenesisExact()
    ensures |GENESIS_HASH| == 64 && forall c :: c in GENESIS_HASH ==> c == '0'
  {}

  predicate IsNumberChar(c: char) { '0' <= c <= '9' || c in "+-.eE" }

  /** A number is an opaque token. */
  type Token = t: string | t != "" && forall i :: 0 <= i < |t| ==> IsNumberChar(t[i]) witness "0"

  /** A JSON value as the program holds it: an object keeps its fields in insertion order. */
  datatype Json =
    | Null
    | Bool(b: bool)
    | Num(token: Token)
    | Str(s: string)
    | Arr(items: seq<Json>)
    | Obj(fields: Dict)
  datatype Field = Field(key: string, value: Json)
  type Dict = seq<Field>

  ghost predicate DistinctKeys(d: Dict) {
    forall i, j :: 0 <= i < j < |d| ==> d[i].key != d[j].key
  }

  /** Keys are distinct in every object, which a dictionary cannot violate. */
  ghost predicate WellFormed(v: Json) {
    match v
    case Arr(items) => forall x :: x in items ==> WellFormed(x)
    case Obj(fields) => DistinctKeys(fields) && forall f :: f in fields ==> WellFormed(f.value)
    case _ => true
  }

  // ----- what a value means: objects are maps, so insertion order is gone -----

  datatype Value =
    | VNull
    | VBool(b: bool)
    | VNum(token: Token)
    | VStr(s: string)
    | VArr(items: seq<Value>)
    | VObj(fields: map<string, Value>)

  function Denote(v: Json): Value {
    match v
    case Null => VNull
    case Bool(b) => VBool(b)
    case Num(t) => VNum(t)
    case Str(s) => VStr(s)
    case Arr(items) => VArr(DenoteItems(items))
    case Obj(fields) => VObj(DenoteDict(fields))
  }

  function DenoteItems(items: seq<Json>): (r: seq<Value>)
    ensures |r| == |items|
  {
    if items == [] then [] else [Denote(items[0])] + DenoteItems(items[1..])
  }

  function DenoteDict(d: Dict): map<string, Value> {
    if d == [] then map[] else DenoteDict(d[1..])[d[0].key := Denote(d[0].value)]
  }

  // ----- key order and sorting -----

  /** Keys are compared character by character. */
  predicate Less(s: string, t: string) {
    t != "" && (s == "" || s[0] < t[0] || (s[0] == t[0] && Less(s[1..], t[1..])))
  }

  lemma {:induction false} LessTransitive(s: string, t: string, u: string)
    requires Less(s, t) && Less(t, u)
    ensures Less(s, u)
  {
    if s == "" {
    } else if s[0] == t[0] == u[0] {
      LessTransitive(s[1..], t[1..], u[1..]);
    }
  }

  lemma {:induction false} LessTotal(s: string, t: string)
    ensures s == t || Less(s, t) || Less(t, s)
    ensures !(Less(s, t) && Less(t, s)) && !Less(s, s)
  {
    if s == "" {
    } else {
      LessTotal(s[1..], s[1..]);
      if t != "" {
        LessTotal(s[1..], t[1..]);
        assert s == [s[0]] + s[1..] && t == [t[0]] + t[1..];
      }
    }
  }

  /** The order of keys, said without recursion: one is a proper prefix of the other, or at the first character where
      they differ it has the smaller one. */
  ghost predicate Precedes(s: string, t: string) {
    exists i: nat :: DiffersAt(s, t, i) && (i == |s| || s[i] < t[i])
  }

  /** The texts agree up to `i`, where the second one goes on and the first one has ended or has another character. */
  ghost predicate DiffersAt(s: string, t: string, i: nat) {
    i <= |s| && i < |t| && s[..i] == t[..i] && (i < |s| ==> s[i] != t[i])
  }

  lemma {:induction false} LessExact(s: string, t: string)
    ensures Less(s, t) <==> Precedes(s, t)
  {
    if s == "" || t == "" || s[0] != t[0] {
      if Less(s, t) { assert DiffersAt(s, t, 0); }
      if Precedes(s, t) {
        var i: nat :| DiffersAt(s, t, i) && (i == |s| || s[i] < t[i]);
        if i > 0 { assert s[..i][0] == t[..i][0]; }
      }
    } else {
      LessExact(s[1..], t[1..]);
      if Less(s, t) {
        var i: nat :| DiffersAt(s[1..], t[1..], i) && (i == |s[1..]| || s[1..][i] < t[1..][i]);
        assert s[..i + 1] == [s[0]] + s[1..][..i] && t[..i + 1] == [t[0]] + t[1..][..i];
        assert DiffersAt(s, t, i + 1);
      }
      if Precedes(s, t) {
        var i: nat :| DiffersAt(s, t, i) && (i == |s| || s[i] < t[i]);
        assert i > 0;
        assert s[1..][..i - 1] == s[..i][1..] && t[1..][..i - 1] == t[..i][1..];
        assert DiffersAt(s[1..], t[1..], i - 1);
      }
    }
  }

  ghost predicate Sorted(d: Dict) {
    forall i, j :: 0 <= i < j < |d| ==> Less(d[i].key, d[j].key)
  }

  function Insert(f: Field, d: Dict): (r: Dict)
    ensures forall x :: x in r <==> x == f || x in d
  {
    if d == [] then [f]
    else if Less(f.key, d[0].key) then [f] + d
    else [d[0]] + Insert(f, d[1..])
  }

  /** The value with the keys of every object sorted, at every level. */
  function Canonical(v: Json): Json {
    match v
    case Arr(items) => Arr(CanonicalItems(items))
    case Obj(fields) => Obj(CanonicalDict(fields))
    case _ => v
  }

  function CanonicalItems(items: seq<Json>): (r: seq<Json>)
    ensures |r| == |items|
  {
    if items == [] then [] else [Canonical(items[0])] + CanonicalItems(items[1..])
  }

  function CanonicalDict(d: Dict): Dict {
    if d == [] then [] else Insert(Field(d[0].key, Canonical(d[0].value)), CanonicalDict(d[1..]))
  }

  /** Every object of the value is strictly sorted by key. */
  ghost predicate Ordered(v: Json) {
    match v
    case Arr(items) => forall x :: x in items ==> Ordered(x)
    case Obj(fields) => OrderedDict(fields)
    case _ => true
  }

  ghost predicate OrderedDict(d: Dict) {
    Sorted(d) && forall f :: f in d ==> Ordered(f.value)
  }

  /** The keys of every object ascend. */
  ghost predicate Ascending(v: Json) {
    match v
    case Arr(items) => forall x :: x in items ==> Ascending(x)
    case Obj(fields) =>
      && (forall i, j :: 0 <= i < j < |fields| ==> Precedes(fields[i].key, fields[j].key))
      && (forall f :: f in fields ==> Ascending(f.value))
    case _ => true
  }

  lemma {:induction false} OrderedAscending(v: Json)
    ensures Ordered(v) <==> Ascending(v)
  {
    hide Precedes, Less;
    match v
    case Arr(items) =>
      forall x | x in items ensures Ordered(x) <==> Ascending(x) { OrderedAscending(x); }
    case Obj(fields) =>
      forall f | f in fields ensures Ordered(f.value) <==> Ascending(f.value) { OrderedAscending(f.value); }
      forall i, j | 0 <= i < j < |fields|
        ensures Less(fields[i].key, fields[j].key) <==> Precedes(fields[i].key, fields[j].key)
      {
        LessExact(fields[i].key, fields[j].key);
      }
    case _ =>
  }

  lemma ConsMeaning(f: Field, d: Dict)
    ensures DenoteDict([f] + d) == DenoteDict(d)[f.key := Denote(f.value)]
  {
    assert ([f] + d)[0] == f && ([f] + d)[1..] == d;
  }

  lemma MapSwap(m: map<string, Value>, k: string, v: Value, l: string, w: Value)
    requires k != l
    ensures m[k := v][l := w] == m[l := w][k := v]
  {}

  lemma {:induction false} InsertMeaning(f: Field, d: Dict)
    requires forall x :: x in d ==> x.key != f.key
    ensures DenoteDict(Insert(f, d)) == DenoteDict(d)[f.key := Denote(f.value)]
  {
    if d == [] {
    } else if Less(f.key, d[0].key) {
      ConsMeaning(f, d);
    } else {
      InsertMeaning(f, d[1..]);
      ConsMeaning(d[0], Insert(f, d[1..]));
      MapSwap(DenoteDict(d[1..]), f.key, Denote(f.value), d[0].key, Denote(d[0].value));
    }
  }

  lemma {:induction false} InsertSorted(f: Field, d: Dict)
    requires Sorted(d) && forall x :: x in d ==> x.key != f.key
    ensures Sorted(Insert(f, d))
  {
    if d == [] {
    } else if Less(f.key, d[0].key) {
      forall j | 1 <= j < |d| ensures Less(f.key, d[j].key) { LessTransitive(f.key, d[0].key, d[j].key); }
    } else {
      InsertSorted(f, d[1..]);
      LessTotal(f.key, d[0].key);
      var r := Insert(f, d[1..]);
      forall j | 0 <= j < |r| ensures Less(d[0].key, r[j].key) {
        assert r[j] in r;
        assert r[j] == f || r[j] in d[1..];
      }
    }
  }

  /** Sorting the keys changes nothing a map can see, and leaves every object sorted. */
  lemma {:induction false} CanonicalMeaning(v: Json)
    requires WellFormed(v)
    ensures Ordered(Canonical(v)) && Ascending(Canonical(v)) && Denote(Canonical(v)) == Denote(v)
  {
    OrderedAscending(Canonical(v));
    match v
    case Arr(items) => ItemsMeaning(items);
    case Obj(fields) => DictMeaning(fields);
    case _ =>
  }

  lemma {:induction false} ItemsMeaning(items: seq<Json>)
    requires forall x :: x in items ==> WellFormed(x)
    ensures forall x :: x in CanonicalItems(items) ==> Ordered(x)
    ensures DenoteItems(CanonicalItems(items)) == DenoteItems(items)
  {
    if items == [] {
    } else {
      CanonicalMeaning(items[0]);
      ItemsMeaning(items[1..]);
      assert ([Canonical(items[0])] + CanonicalItems(items[1..]))[1..] == CanonicalItems(items[1..]);
    }
  }

  lemma {:induction false} DictMeaning(d: Dict)
    requires DistinctKeys(d) && forall f :: f in d ==> WellFormed(f.value)
    ensures OrderedDict(CanonicalDict(d)) && DenoteDict(CanonicalDict(d)) == DenoteDict(d)
    ensures forall f :: f in CanonicalDict(d) ==> exists g :: g in d && g.key == f.key
  {
    if d == [] {
    } else {
      CanonicalMeaning(d[0].value);
      DictMeaning(d[1..]);
      InsertMeaning(Field(d[0].key, Canonical(d[0].value)), CanonicalDict(d[1..]));
      InsertSorted(Field(d[0].key, Canonical(d[0].value)), CanonicalDict(d[1..]));
    }
  }

  lemma {:induction false} DenoteAt(d: Dict, i: nat)
    requires DistinctKeys(d) && i < |d|
    ensures d[i].key in DenoteDict(d) && DenoteDict(d)[d[i].key] == Denote(d[i].value)
  {
    if i == 0 {
    } else {
      DenoteAt(d[1..], i - 1);
    }
  }

  lemma SortedDistinct(d: Dict)
    requires Sorted(d)
    ensures DistinctKeys(d)
  {
    forall i, j | 0 <= i < j < |d| ensures d[i].key != d[j].key { LessTotal(d[i].key, d[j].key); }
  }

  /** A strictly sorted value is fixed by what it means. */
  lemma {:induction false} OrderedUnique(a: Json, b: Json)
    requires Ordered(a) && Ordered(b) && Denote(a) == Denote(b)
    ensures a == b
    decreases a
  {
    match a
    case Arr(xs) => ItemsUnique(xs, b.items);
    case Obj(fs) => DictUnique(fs, b.fields);
    case _ =>
  }

  lemma {:induction false} ItemsUnique(xs: seq<Json>, ys: seq<Json>)
    requires (forall x :: x in xs ==> Ordered(x)) && (forall y :: y in ys ==> Ordered(y))
    requires DenoteItems(xs) == DenoteItems(ys)
    ensures xs == ys
    decreases xs
  {
    assert |xs| == |ys|;
    if xs == [] {
    } else {
      assert DenoteItems(xs)[0] == DenoteItems(ys)[0];
      assert DenoteItems(xs)[1..] == DenoteItems(xs[1..]) && DenoteItems(ys)[1..] == DenoteItems(ys[1..]);
      OrderedUnique(xs[0], ys[0]);
      ItemsUnique(xs[1..], ys[1..]);
      assert xs == [xs[0]] + xs[1..] && ys == [ys[0]] + ys[1..];
    }
  }

  lemma {:induction false} DictUnique(d: Dict, e: Dict)
    requires OrderedDict(d) && OrderedDict(e) && DenoteDict(d) == DenoteDict(e)
    ensures d == e
    decreases d
  {
    NoKeys(d);
    NoKeys(e);
    if d == [] {
    } else {
      FirstKey(d, e);
      FirstKey(e, d);
      LessTotal(d[0].key, e[0].key);
      SortedDistinct(d);
      SortedDistinct(e);
      DenoteAt(d, 0);
      DenoteAt(e, 0);
      OrderedUnique(d[0].value, e[0].value);
      DropFirst(d);
      DropFirst(e);
      DictUnique(d[1..], e[1..]);
      assert d == [d[0]] + d[1..] && e == [e[0]] + e[1..];
    }
  }

  lemma NoKeys(d: Dict)
    ensures d == [] <==> DenoteDict(d).Keys == {}
  {
    if d != [] { assert d[0].key in DenoteDict(d).Keys; }
  }

  lemma {:induction false} DenoteKeys(d: Dict, k: string)
    ensures k in DenoteDict(d) <==> exists i :: 0 <= i < |d| && d[i].key == k
  {
    if d == [] {
    } else {
      DenoteKeys(d[1..], k);
      if k in DenoteDict(d) && k != d[0].key {
        var i :| 0 <= i < |d[1..]| && d[1..][i].key == k;
        assert d[i + 1].key == k;
      }
    }
  }

  /** The first key of `d` is at most any key of a dictionary with the same keys. */
  lemma FirstKey(d: Dict, e: Dict)
    requires Sorted(d) && d != [] && e != [] && DenoteDict(d).Keys == DenoteDict(e).Keys
    ensures d[0].key == e[0].key || Less(d[0].key, e[0].key)
  {
    assert e[0].key in DenoteDict(e).Keys;
    DenoteKeys(d, e[0].key);
    var i :| 0 <= i < |d| && d[i].key == e[0].key;
  }

  lemma DropFirst(d: Dict)
    requires DistinctKeys(d) && d != []
    ensures DenoteDict(d[1..]) == DenoteDict(d) - {d[0].key}
  {
    DenoteKeys(d[1..], d[0].key);
  }

  // ----- the text -----

  function Hex(n: nat): char
    requires n < 16
  {
    "0123456789abcdef"[n]
  }

  /** The letter of a two-character escape; a blank when the character has none. */
  function ShortEscape(c: char): (r: char)
    ensures r != 'u'
  {
    if c == '"' then '"'
    else if c == '\\' then '\\'
    else if c == '\n' then 'n'
    else if c == '\r' then 'r'
    else if c == '\t' then 't'
    else if c as int == 8 then 'b'
    else if c as int == 12 then 'f'
    else ' '
  }

  /** One character inside a string literal: quotes, backslashes and control characters are escaped. */
  function EscapeChar(c: char): (r: string)
    ensures r != "" && r[0] != '"'
  {
    if ShortEscape(c) != ' ' then ['\\', ShortEscape(c)]
    else if c as int < 0x20 then ['\\', 'u', '0', '0', Hex(c as int / 16), Hex(c as int % 16)]
    else [c]
  }

  /** The rest of a string literal, its closing quote included, in front of `rest`. */
  function StringText(s: string, rest: string): string {
    if s == "" then "\"" + rest else EscapeChar(s[0]) + StringText(s[1..], rest)
  }

  /** The text of `v` in front of `rest`. */
  function Text(v: Json, rest: string): string {
    match v
    case Null => "null" + rest
    case Bool(b) => (if b then "true" else "false") + rest
    case Num(t) => t + rest
    case Str(s) => "\"" + StringText(s, rest)
    case Arr(items) => "[" + (if items == [] then "]" + rest else Text(items[0], ItemsText(items[1..], rest)))
    case Obj(fields) =>
      "{" + (if fields == [] then "}" + rest else FieldText(fields[0], DictText(fields[1..], rest)))
  }

  /** The items after the first one of a list, in front of `rest`. */
  function ItemsText(items: seq<Json>, rest: string): string {
    if items == [] then "]" + rest else ", " + Text(items[0], ItemsText(items[1..], rest))
  }

  /** The fields after the first one of an object, in front of `rest`. */
  function DictText(d: Dict, rest: string): string {
    if d == [] then "}" + rest else ", " + FieldText(d[0], DictText(d[1..], rest))
  }

  function FieldText(f: Field, rest: string): string {
    "\"" + StringText(f.key, ": " + Text(f.value, rest))
  }

  // ----- reading the text back, strictly -----

  function HexValue(c: char): Option<nat> {
    if '0' <= c <= '9' then Some(c as int - '0' as int)
    else if 'a' <= c <= 'f' then Some(c as int - 'a' as int + 10)
    else None
  }

  /** The control character written `\u00` and two hexadecimal digits; one that has a short escape must use it. */
  function ReadCode(h: char, l: char): Option<char> {
    var high :- HexValue(h);
    var low :- HexValue(l);
    if high < 2 && 16 * high + low !in {8, 9, 10, 12, 13} then Some((16 * high + low) as char) else None
  }

  /** One character of a string literal: a two-character escape, a control character by its code, or any character that
      needs no escape. */
  function ReadChar(s: string): (r: Option<(char, string)>)
    ensures r.Some? ==> |r.value.1| < |s|
  {
    if s == "" || s[0] == '"' || s[0] as int < 0x20 then None
    else if s[0] != '\\' then Some((s[0], s[1..]))
    else if |s| < 2 then None
    else match s[1]
      case '"' => Some(('"', s[2..]))
      case '\\' => Some(('\\', s[2..]))
      case 'b' => Some((8 as char, s[2..]))
      case 'f' => Some((12 as char, s[2..]))
      case 'n' => Some(('\n', s[2..]))
      case 'r' => Some(('\r', s[2..]))
      case 't' => Some(('\t', s[2..]))
      case 'u' =>
        if |s| < 6 || s[2] != '0' || s[3] != '0' then None else
          var c :- ReadCode(s[4], s[5]);
          Some((c, s[6..]))
      case _ => None
  }

  /** The rest of a string literal, its closing quote included. */
  function ReadString(s: string): (r: Option<(string, string)>)
    ensures r.Some? ==> |r.value.1| < |s|
    decreases |s|
  {
    if s != "" && s[0] == '"' then Some(("", s[1..])) else
      var first :- ReadChar(s);
      var rest :- ReadString(first.1);
      Some(([first.0] + rest.0, rest.1))
  }

  /** The length of the number at the start of the text. */
  function Digits(s: string): (n: nat)
    ensures n <= |s| && forall i :: 0 <= i < n ==> IsNumberChar(s[i])
    ensures n < |s| ==> !IsNumberChar(s[n])
  {
    if s == "" || !IsNumberChar(s[0]) then 0 else 1 + Digits(s[1..])
  }

  /** The value at the start of the text and what follows it. Items are separated by a comma and a space, keys and
      values by a colon and a space, and there is no other space. */
  function ReadValue(s: string): (r: Option<(Json, string)>)
    ensures r.Some? ==> |r.value.1| < |s|
    decreases |s|, 1
  {
    if s == "" then None
    else match s[0]
      case 'n' => if "null" <= s then Some((Null, s[4..])) else None
      case 't' => if "true" <= s then Some((Bool(true), s[4..])) else None
      case 'f' => if "false" <= s then Some((Bool(false), s[5..])) else None
      case '"' =>
        var text :- ReadString(s[1..]);
        Some((Str(text.0), text.1))
      case '[' =>
        if |s| > 1 && s[1] == ']' then Some((Arr([]), s[2..])) else
          var first :- ReadValue(s[1..]);
          var rest :- ReadItems(first.1);
          Some((Arr([first.0] + rest.0), rest.1))
      case '{' =>
        if |s| > 1 && s[1] == '}' then Some((Obj([]), s[2..])) else
          var first :- ReadField(s[1..]);
          var rest :- ReadFields(first.1);
          Some((Obj([first.0] + rest.0), rest.1))
      case _ => if Digits(s) > 0 then Some((Num(s[..Digits(s)]), s[Digits(s)..])) else None
  }

  function ReadItems(s: string): (r: Option<(seq<Json>, string)>)
    ensures r.Some? ==> |r.value.1| < |s|
    decreases |s|, 0
  {
    if s != "" && s[0] == ']' then Some(([], s[1..]))
    else if ", " <= s then
      var first :- ReadValue(s[2..]);
      var rest :- ReadItems(first.1);
      Some(([first.0] + rest.0, rest.1))
    else None
  }

  function ReadField(s: string): (r: Option<(Field, string)>)
    ensures r.Some? ==> |r.value.1| < |s|
    decreases |s|, 2
  {
    if s == "" || s[0] != '"' then None else
      var key :- ReadString(s[1..]);
      if !(": " <= key.1) then None else
        var value :- ReadValue(key.1[2..]);
        Some((Field(key.0, value.0), value.1))
  }

  function ReadFields(s: string): (r: Option<(Dict, string)>)
    ensures r.Some? ==> |r.value.1| < |s|
    decreases |s|, 0
  {
    if s != "" && s[0] == '}' then Some(([], s[1..]))
    else if ", " <= s then
      var first :- ReadField(s[2..]);
      var rest :- ReadFields(first.1);
      Some(([first.0] + rest.0, rest.1))
    else None
  }

  lemma DropPrefix(p: string, r: string)
    ensures p <= p + r && (p + r)[|p|..] == r
  {}

  lemma HexRead(n: nat)
    requires n < 16
    ensures HexValue(Hex(n)) == Some(n)
  {}

  lemma ReadEscape(c: char, rest: string)
    ensures ReadChar(EscapeChar(c) + rest) == Some((c, rest))
  {
    var x := EscapeChar(c);
    var s := x + rest;
    DropPrefix(x, rest);
    assert forall i :: 0 <= i < |x| ==> s[i] == x[i];
    if ShortEscape(c) == ' ' && c as int < 0x20 {
      HexRead(c as int / 16);
      HexRead(c as int % 16);
    }
  }

  lemma {:induction false} ReadStringText(s: string, rest: string)
    ensures ReadString(StringText(s, rest)) == Some((s, rest))
  {
    if s == "" {
      DropPrefix("\"", rest);
    } else {
      hide EscapeChar, ReadChar;
      ReadEscape(s[0], StringText(s[1..], rest));
      ReadStringText(s[1..], rest);
      assert s == [s[0]] + s[1..];
    }
  }

  /** What may follow a value: nothing that would prolong a number. */
  predicate Stops(rest: string) { rest == "" || !IsNumberChar(rest[0]) }

  lemma {:induction false} DigitsOf(t: string, rest: string)
    requires (forall i :: 0 <= i < |t| ==> IsNumberChar(t[i])) && Stops(rest)
    ensures Digits(t + rest) == |t|
  {
    if t == "" {
      assert t + rest == rest;
    } else {
      DigitsOf(t[1..], rest);
      assert (t + rest)[0] == t[0] && (t + rest)[1..] == t[1..] + rest;
    }
  }

  /** The first character tells the kinds of value apart. */
  lemma FirstChar(v: Json, r: string)
    ensures Text(v, r) != ""
    ensures var c := Text(v, r)[0];
      match v
      case Null => c == 'n'
      case Bool(b) => c == (if b then 't' else 'f')
      case Num(t) => IsNumberChar(c)
      case Str(s) => c == '"'
      case Arr(items) => c == '['
      case Obj(fields) => c == '{'
  {
    match v
    case Num(t) => assert (t + r)[0] == t[0];
    case _ =>
  }

  /** Reading the text of a value gives the value and what was written behind it. */
  lemma {:induction false} ReadText(v: Json, rest: string)
    requires Stops(rest)
    ensures ReadValue(Text(v, rest)) == Some((v, rest))
    decreases v
  {
    hide StringText, ReadString, ReadItems, ReadFields, ReadField, ItemsText, DictText, FieldText;
    match v
    case Null => DropPrefix("null", rest);
    case Bool(b) => DropPrefix(if b then "true" else "false", rest);
    case Num(t) =>
      FirstChar(v, rest);
      DigitsOf(t, rest);
      DropPrefix(t, rest);
    case Str(s) =>
      DropPrefix("\"", StringText(s, rest));
      ReadStringText(s, rest);
    case Arr(items) => ReadArray(items, rest);
    case Obj(fields) => ReadObject(fields, rest);
  }

  lemma {:induction false} ReadArray(items: seq<Json>, rest: string)
    requires Stops(rest)
    ensures ReadValue(Text(Arr(items), rest)) == Some((Arr(items), rest))
    decreases items, 1
  {
    if items == [] {
      DropPrefix("[]", rest);
      assert Text(Arr(items), rest) == "[]" + rest;
    } else {
      var more := ItemsText(items[1..], rest);
      ItemsStop(items[1..], rest);
      ReadText(items[0], more);
      ReadItemsText(items[1..], rest);
      FirstChar(items[0], more);
      hide ItemsText, ReadItems;
      DropPrefix("[", Text(items[0], more));
      assert Text(Arr(items), rest) == "[" + Text(items[0], more);
      assert items == [items[0]] + items[1..];
    }
  }

  lemma ItemsStop(items: seq<Json>, rest: string)
    ensures Stops(ItemsText(items, rest))
  {}

  lemma DictStop(d: Dict, rest: string)
    ensures Stops(DictText(d, rest))
  {}

  lemma {:induction false} ReadItemsText(items: seq<Json>, rest: string)
    requires Stops(rest)
    ensures ReadItems(ItemsText(items, rest)) == Some((items, rest))
    decreases items, 0
  {
    if items == [] {
      DropPrefix("]", rest);
    } else {
      var more := ItemsText(items[1..], rest);
      ItemsStop(items[1..], rest);
      ReadText(items[0], more);
      ReadItemsText(items[1..], rest);
      DropPrefix(", ", Text(items[0], more));
      assert items == [items[0]] + items[1..];
    }
  }

  lemma {:induction false} ReadFieldText(f: Field, rest: string)
    requires Stops(rest)
    ensures ReadField(FieldText(f, rest)) == Some((f, rest))
    decreases f
  {
    var value := Text(f.value, rest);
    ReadText(f.value, rest);
    ReadStringText(f.key, ": " + value);
    DropPrefix("\"", StringText(f.key, ": " + value));
    DropPrefix(": ", value);
  }

  lemma {:induction false} ReadObject(d: Dict, rest: string)
    requires Stops(rest)
    ensures ReadValue(Text(Obj(d), rest)) == Some((Obj(d), rest))
    decreases d, 1
  {
    if d == [] {
      DropPrefix("{}", rest);
      assert Text(Obj(d), rest) == "{}" + rest;
    } else {
      var more := DictText(d[1..], rest);
      DictStop(d[1..], rest);
      ReadFieldText(d[0], more);
      ReadFieldsText(d[1..], rest);
      assert FieldText(d[0], more)[0] == '"';
      hide DictText, ReadFields, FieldText, ReadField;
      DropPrefix("{", FieldText(d[0], more));
      assert Text(Obj(d), rest) == "{" + FieldText(d[0], more);
      assert d == [d[0]] + d[1..];
    }
  }

  lemma {:induction false} ReadFieldsText(d: Dict, rest: string)
    requires Stops(rest)
    ensures ReadFields(DictText(d, rest)) == Some((d, rest))
    decreases d, 0
  {
    if d == [] {
      DropPrefix("}", rest);
    } else {
      var more := DictText(d[1..], rest);
      DictStop(d[1..], rest);
      ReadFieldText(d[0], more);
      ReadFieldsText(d[1..], rest);
      DropPrefix(", ", FieldText(d[0], more));
      assert d == [d[0]] + d[1..];
    }
  }

  /** The text of a value determines it, and where it ends. */
  lemma TextInjective(a: Json, b: Json, r: string, q: string)
    requires Text(a, r) == Text(b, q) && Stops(r) && Stops(q)
    ensures a == b && r == q
  {
    ReadText(a, r);
    ReadText(b, q);
  }

  // ----- canonical bytes and the hash -----

  function CanonicalText(payload: Dict): string { Text(Canonical(Obj(payload)), "") }

  function CanonicalSerialize(payload: Dict): Bytes { Utf8.Encode(CanonicalText(payload)) }

  /** What the canonical bytes are: read as UTF-8 and then as JSON, they give the one value with ascending keys that
      means the same as the payload, and nothing is left over. */
  lemma CanonicalReads(payload: Dict, v: Json)
    requires WellFormed(Obj(payload))
    ensures Ascending(v) && Denote(v) == Denote(Obj(payload)) <==>
            Utf8.Decode(CanonicalSerialize(payload)).Some?
            && ReadValue(Utf8.Decode(CanonicalSerialize(payload)).value) == Some((v, ""))
  {
    var canonical := Canonical(Obj(payload));
    CanonicalMeaning(Obj(payload));
    Utf8.RoundTrip(CanonicalText(payload));
    ReadText(canonical, "");
    OrderedAscending(v);
    hide Canonical, Text, ReadValue, Denote;
    if Ascending(v) && Denote(v) == Denote(Obj(payload)) { OrderedUnique(v, canonical); }
  }

  /** Two payloads have the same bytes exactly when they are equal as (nested) maps. */
  lemma CanonicalForm(a: Dict, b: Dict)
    requires WellFormed(Obj(a)) && WellFormed(Obj(b))
    ensures CanonicalSerialize(a) == CanonicalSerialize(b) <==> DenoteDict(a) == DenoteDict(b)
  {
    CanonicalMeaning(Obj(a));
    CanonicalMeaning(Obj(b));
    if CanonicalSerialize(a) == CanonicalSerialize(b) {
      Utf8.Injective(CanonicalText(a), CanonicalText(b));
      TextInjective(Canonical(Obj(a)), Canonical(Obj(b)), "", "");
      assert Denote(Obj(a)) == Denote(Obj(b));
    }
    if DenoteDict(a) == DenoteDict(b) {
      OrderedUnique(Canonical(Obj(a)), Canonical(Obj(b)));
    }
  }

  /** What is hashed: the previous hash, then the canonical payload. */
  function HashInput(previous: string, payload: Dict): Bytes {
    Utf8.Encode(previous) + CanonicalSerialize(payload)
  }

  function ComputeHash(sha: Sha256, previous: string, payload: Dict): Digest {
    sha(HashInput(previous, payload))
  }

  /** What is hashed: the bytes of the previous hash followed by the canonical text, read as one text. */
  lemma HashedText(sha: Sha256, previous: string, payload: Dict)
    ensures Utf8.Decode(HashInput(previous, payload)) == Some(previous + CanonicalText(payload))
    ensures ComputeHash(sha, previous, payload) == sha(Utf8.Encode(previous + CanonicalText(payload)))
  {
    Utf8.EncodeAppend(previous, CanonicalText(payload));
    Utf8.RoundTrip(previous + CanonicalText(payload));
  }

  lemma Cancel(p: string, r: string, q: string)
    requires p + r == p + q
    ensures r == q
  {
    assert r == (p + r)[|p|..] && q == (p + q)[|p|..];
  }

  /** Between 64-character previous hashes the concatenation splits in one way only. */
  lemma HashInputInjective(p: string, a: Dict, q: string, b: Dict)
    requires |p| == |q| && WellFormed(Obj(a)) && WellFormed(Obj(b))
    requires HashInput(p, a) == HashInput(q, b)
    ensures p == q && DenoteDict(a) == DenoteDict(b)
  {
    var x, y := CanonicalText(a), CanonicalText(b);
    Utf8.EncodeAppend(p, x);
    Utf8.EncodeAppend(q, y);
    Utf8.Injective(p + x, q + y);
    assert p == (p + x)[..|p|] == (q + y)[..|q|] == q;
    Cancel(p, x, y);
    CanonicalForm(a, b);
  }
}
