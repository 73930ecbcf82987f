/** UTF-8 (section 3 of RFC 3629), the encoding under every hash of the system. */
module Utf8 {
  import opened Prelude

  /** A continuation byte: the low six bits of `n`. */
  function Low(n: nat): Byte { (0x80 + n % 64) as Byte }

  function EncodeChar(c: char): (r: Bytes)
    ensures 1 <= |r| <= 4
  {
    var n := c as int;
    if n < 0x80 then [n as Byte]
    else if n < 0x800 then [(0xC0 + n / 64) as Byte, Low(n)]
    else if n < 0x10000 then [(0xE0 + n / 64 / 64) as Byte, Low(n / 64), Low(n)]
    else [(0xF0 + n / 64 / 64 / 64) as Byte, Low(n / 64 / 64), Low(n / 64), Low(n)]
  }

  function Encode(s: string): Bytes {
    if s == "" then [] else EncodeChar(s[0]) + Encode(s[1..])
  }

  // ----- reading the bytes back, by the table of the standard -----

  predicate IsTail(b: Byte) { 0x80 <= b < 0xC0 }

  /** How many bytes the sequence that starts with `b` has; 0 when no sequence starts with it. */
  function SequenceLength(b: Byte): nat {
    if b < 0x80 then 1
    else if 0xC0 <= b < 0xE0 then 2
    else if 0xE0 <= b < 0xF0 then 3
    else if 0xF0 <= b < 0xF8 then 4
    else 0
  }

  /** The bits of a sequence, put together. */
  function CodePoint(b: Bytes): int
    requires 1 <= |b| <= 4
  {
    match |b|
    case 1 => b[0] as int
    case 2 => (b[0] as int - 0xC0) * 64 + (b[1] as int - 0x80)
    case 3 => ((b[0] as int - 0xE0) * 64 + (b[1] as int - 0x80)) * 64 + (b[2] as int - 0x80)
    case 4 =>
      (((b[0] as int - 0xF0) * 64 + (b[1] as int - 0x80)) * 64 + (b[2] as int - 0x80)) * 64 + (b[3] as int - 0x80)
  }

  /** Which code points a sequence of `n` bytes stands for: no longer form is legal, and no surrogate. */
  predicate InRange(n: nat, code: int) {
    match n
    case 1 => 0 <= code < 0x80
    case 2 => 0x80 <= code < 0x800
    case 3 => 0x800 <= code < 0xD800 || 0xE000 <= code < 0x10000
    case 4 => 0x10000 <= code < 0x110000
    case _ => false
  }

  /** The first character of the bytes, and what follows it. */
  function DecodeChar(b: Bytes): (r: Option<(char, Bytes)>)
    ensures r.Some? ==> |r.value.1| < |b|
  {
    if b == [] then None else
      var n := SequenceLength(b[0]);
      if n == 0 || n > |b| || exists i :: 1 <= i < n && !IsTail(b[i]) then None
      else if !InRange(n, CodePoint(b[..n])) then None
      else Some((CodePoint(b[..n]) as char, b[n..]))
  }

  function Decode(b: Bytes): Option<string>
    decreases |b|
  {
    if b == [] then Some("") else
      var first :- DecodeChar(b);
      var rest :- Decode(first.1);
      Some([first.0] + rest)
  }

  lemma Halves(n: nat)
    ensures n == 64 * (n / 64) + n % 64
  {}

  lemma EncodedCode(c: char)
    ensures var x := EncodeChar(c);
      && SequenceLength(x[0]) == |x| && CodePoint(x) == c as int && InRange(|x|, c as int)
      && forall i :: 1 <= i < |x| ==> IsTail(x[i])
  {
    var n := c as int;
    Halves(n);
    Halves(n / 64);
    Halves(n / 64 / 64);
    assert n < 0xD800 || 0xE000 <= n < 0x110000;
  }

  lemma DecodeFirst(c: char, r: Bytes)
    ensures DecodeChar(EncodeChar(c) + r) == Some((c, r))
  {
    EncodedCode(c);
    hide EncodeChar, CodePoint;
    var x := EncodeChar(c);
    var b := x + r;
    assert b[..|x|] == x && b[|x|..] == r;
    assert forall i :: 0 <= i < |x| ==> b[i] == x[i];
  }

  /** Reading back the bytes of a text gives the text. */
  lemma {:induction false} RoundTrip(s: string)
    ensures Decode(Encode(s)) == Some(s)
  {
    if s == "" {
    } else {
      hide EncodeChar, DecodeChar;
      DecodeFirst(s[0], Encode(s[1..]));
      RoundTrip(s[1..]);
      assert s == [s[0]] + s[1..];
    }
  }

  lemma Injective(s: string, t: string)
    requires Encode(s) == Encode(t)
    ensures s == t
  {
    RoundTrip(s);
    RoundTrip(t);
  }

  lemma {:induction false} EncodeAppend(s: string, t: string)
    ensures Encode(s + t) == Encode(s) + Encode(t)
  {
    if s == "" {
      assert s + t == t;
    } else {
      hide EncodeChar;
      EncodeAppend(s[1..], t);
      assert (s + t)[0] == s[0] && (s + t)[1..] == s[1..] + t;
      Assoc(EncodeChar(s[0]), Encode(s[1..]), Encode(t));
    }
  }
}
