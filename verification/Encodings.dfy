/**
 * The text encodings the PHC string uses: unpadded base64 (section 4 of RFC 4648), decimal numbers, dollar-separated
 * fields.
 */
module Encodings {
  import opened Common

  // ---- base64

  type sextet = x: int | 0 <= x < 64

  function Digit(d: sextet): char {
    if d < 26 then 'A' + d as char
    else if d < 52 then 'a' + (d - 26) as char
    else if d < 62 then '0' + (d - 52) as char
    else if d == 62 then '+' else '/'
  }

  function DigitValue(c: char): (v: Option<int>)
    ensures v.Some? ==> 0 <= v.value < 64
  {
    if 'A' <= c <= 'Z' then Some(c as int - 'A' as int)
    else if 'a' <= c <= 'z' then Some(c as int - 'a' as int + 26)
    else if '0' <= c <= '9' then Some(c as int - '0' as int + 52)
    else if c == '+' then Some(62) else if c == '/' then Some(63) else None
  }

  lemma DigitRoundTrip(d: sextet)
    ensures DigitValue(Digit(d)) == Some(d)
  {
  }

  /** The digits in order: A to Z, a to z, 0 to 9, plus, slash; nothing else is a digit. */
  lemma DigitsInOrder(d: sextet, c: char)
    ensures Digit(0) == 'A' && Digit(25) == 'Z' && Digit(26) == 'a' && Digit(51) == 'z'
    ensures Digit(52) == '0' && Digit(61) == '9' && Digit(62) == '+' && Digit(63) == '/'
    ensures d !in {25, 51, 61, 62, 63} ==> Digit(d + 1) as int == Digit(d) as int + 1
    ensures DigitValue(c) == Some(d) <==> c == Digit(d)
  {
  }

  /** `RawStdEncoding.EncodeToString`. */
  function Encode(b: seq<byte>): string {
    if b == [] then ""
    else if |b| == 1 then [Digit(b[0] / 4), Digit(b[0] % 4 * 16)]
    else if |b| == 2 then [Digit(b[0] / 4), Digit(b[0] % 4 * 16 + b[1] / 16), Digit(b[1] % 16 * 4)]
    else
      [Digit(b[0] / 4), Digit(b[0] % 4 * 16 + b[1] / 16), Digit(b[1] % 16 * 4 + b[2] / 64), Digit(b[2] % 64)]
        + Encode(b[3..])
  }

  /** Line breaks are skipped by the decoder. */
  function Unwrapped(s: string): string {
    if s == "" then "" else if s[0] == '\r' || s[0] == '\n' then Unwrapped(s[1..]) else [s[0]] + Unwrapped(s[1..])
  }

  /** Four digits are three bytes; two or three at the end are one or two, and their spare bits are ignored. */
  function DecodeDigits(s: string): Option<seq<byte>> {
    if s == "" then Some([])
    else if |s| == 1 then None
    else if |s| == 2 then
      match (DigitValue(s[0]), DigitValue(s[1]))
      case (Some(p), Some(q)) => Some([p * 4 + q / 16])
      case _ => None
    else if |s| == 3 then
      match (DigitValue(s[0]), DigitValue(s[1]), DigitValue(s[2]))
      case (Some(p), Some(q), Some(r)) => Some([p * 4 + q / 16, q % 16 * 16 + r / 4])
      case _ => None
    else
      match (DigitValue(s[0]), DigitValue(s[1]), DigitValue(s[2]), DigitValue(s[3]), DecodeDigits(s[4..]))
      case (Some(p), Some(q), Some(r), Some(t), Some(rest)) =>
        Some([p * 4 + q / 16, q % 16 * 16 + r / 4, r % 4 * 64 + t] + rest)
      case _ => None
  }

  /** `RawStdEncoding.DecodeString`; None is its error. */
  function Decode(s: string): Option<seq<byte>> { DecodeDigits(Unwrapped(s)) }

  predicate Base64Char(c: char) { DigitValue(c).Some? }

  lemma {:induction false} EncodedChars(b: seq<byte>)
    ensures forall c :: c in Encode(b) ==> Base64Char(c)
  {
    if |b| >= 3 {
      EncodedChars(b[3..]);
    }
  }

  lemma {:induction false} NothingToUnwrap(s: string)
    requires forall c :: c in s ==> Base64Char(c)
    ensures Unwrapped(s) == s
  {
    if s != "" {
      assert s[0] in s;
      forall c | c in s[1..] ensures Base64Char(c) { assert c in s; }
      NothingToUnwrap(s[1..]);
      assert s == [s[0]] + s[1..];
    }
  }

  /** Regrouping three bytes into sextets and back. */
  lemma Regroup(x: byte, y: byte, z: byte) returns (p: sextet, q: sextet, r: sextet, t: sextet)
    ensures p == x / 4 && q == x % 4 * 16 + y / 16 && r == y % 16 * 4 + z / 64 && t == z % 64
    ensures p * 4 + q / 16 == x && q % 16 * 16 + r / 4 == y && r % 4 * 64 + t == z
  {
    p, q, r, t := x / 4, x % 4 * 16 + y / 16, y % 16 * 4 + z / 64, z % 64;
  }

  lemma EncodeGroup(x: byte, y: byte, z: byte, rest: seq<byte>, p: sextet, q: sextet, r: sextet, t: sextet)
    requires p == x / 4 && q == x % 4 * 16 + y / 16 && r == y % 16 * 4 + z / 64 && t == z % 64
    ensures y == 0 ==> Encode([x]) == [Digit(p), Digit(q)]
    ensures z == 0 ==> Encode([x, y]) == [Digit(p), Digit(q), Digit(r)]
    ensures Encode([x, y, z] + rest) == [Digit(p), Digit(q), Digit(r), Digit(t)] + Encode(rest)
  {
    assert ([x, y, z] + rest)[3..] == rest;
  }

  /** Decoding printed sextets: two, three, or four and a rest. */
  lemma DecodePrinted(p: sextet, q: sextet, r: sextet, t: sextet, s: string)
    ensures DecodeDigits([Digit(p), Digit(q)]) == Some([p * 4 + q / 16])
    ensures DecodeDigits([Digit(p), Digit(q), Digit(r)]) == Some([p * 4 + q / 16, q % 16 * 16 + r / 4])
    ensures DecodeDigits(s).Some? ==>
      DecodeDigits([Digit(p), Digit(q), Digit(r), Digit(t)] + s)
        == Some([p * 4 + q / 16, q % 16 * 16 + r / 4, r % 4 * 64 + t] + DecodeDigits(s).value)
  {
    DigitRoundTrip(p);
    DigitRoundTrip(q);
    DigitRoundTrip(r);
    DigitRoundTrip(t);
    assert ([Digit(p), Digit(q), Digit(r), Digit(t)] + s)[4..] == s;
  }

  /** One group of bytes, and what follows it. */
  lemma DecodeGroup(x: byte, y: byte, z: byte, rest: seq<byte>)
    requires DecodeDigits(Encode(rest)) == Some(rest)
    ensures y == 0 ==> DecodeDigits(Encode([x])) == Some([x])
    ensures z == 0 ==> DecodeDigits(Encode([x, y])) == Some([x, y])
    ensures DecodeDigits(Encode([x, y, z] + rest)) == Some([x, y, z] + rest)
  {
    var p, q, r, t := Regroup(x, y, z);
    EncodeGroup(x, y, z, rest, p, q, r, t);
    DecodePrinted(p, q, r, t, Encode(rest));
  }

  lemma DecodeShort(b: seq<byte>)
    requires |b| <= 2
    ensures DecodeDigits(Encode(b)) == Some(b)
  {
    if |b| == 1 {
      assert b == [b[0]];
      assert DecodeDigits(Encode([b[0]])) == Some([b[0]]) by { DecodeGroup(b[0], 0, 0, []); }
    } else if |b| == 2 {
      assert b == [b[0], b[1]];
      assert DecodeDigits(Encode([b[0], b[1]])) == Some([b[0], b[1]]) by { DecodeGroup(b[0], b[1], 0, []); }
    }
  }

  lemma {:induction false} DecodeDigitsRoundTrip(b: seq<byte>)
    ensures DecodeDigits(Encode(b)) == Some(b)
  {
    if |b| <= 2 {
      DecodeShort(b);
    } else {
      var rest := b[3..];
      DecodeDigitsRoundTrip(rest);
      assert b == [b[0], b[1], b[2]] + rest;
      DecodeGroup(b[0], b[1], b[2], rest);
    }
  }

  /** Decoding what was encoded gives every byte back. */
  lemma DecodeRoundTrip(b: seq<byte>)
    ensures Decode(Encode(b)) == Some(b)
  {
    EncodedChars(b);
    NothingToUnwrap(Encode(b));
    DecodeDigitsRoundTrip(b);
  }

  // ---- what the text means

  /** A byte, or zero past the end. */
  function ByteAt(b: seq<byte>, i: nat): byte { if i < |b| then b[i] else 0 }

  /** The value of a digit, or zero past the end. */
  function SextetAt(s: string, i: nat): int {
    if i >= |s| then 0 else match DigitValue(s[i]) case Some(v) => v case None => 0
  }

  /** Group `k` of three bytes and of four digits are the same number of 24 bits. */
  predicate SameGroup(b: seq<byte>, s: string, k: nat) {
    65536 * ByteAt(b, 3 * k) + 256 * ByteAt(b, 3 * k + 1) + ByteAt(b, 3 * k + 2)
      == 262144 * SextetAt(s, 4 * k) + 4096 * SextetAt(s, 4 * k + 1) + 64 * SextetAt(s, 4 * k + 2)
        + SextetAt(s, 4 * k + 3)
  }

  lemma SextetIs(s: string, i: nat, d: sextet)
    requires if i < |s| then s[i] == Digit(d) else d == 0
    ensures SextetAt(s, i) == d
  {
    DigitRoundTrip(d);
  }

  lemma FirstDigits(b: seq<byte>, p: sextet, q: sextet, r: sextet, t: sextet)
    requires p == ByteAt(b, 0) / 4 && q == ByteAt(b, 0) % 4 * 16 + ByteAt(b, 1) / 16
    requires r == ByteAt(b, 1) % 16 * 4 + ByteAt(b, 2) / 64 && t == ByteAt(b, 2) % 64
    ensures var s := Encode(b);
      SextetAt(s, 0) == p && SextetAt(s, 1) == q && SextetAt(s, 2) == r && SextetAt(s, 3) == t
  {
    var s := Encode(b);
    SextetIs(s, 0, p);
    SextetIs(s, 1, q);
    SextetIs(s, 2, r);
    SextetIs(s, 3, t);
  }

  lemma FirstGroup(b: seq<byte>)
    ensures SameGroup(b, Encode(b), 0)
  {
    var p, q, r, t := Regroup(ByteAt(b, 0), ByteAt(b, 1), ByteAt(b, 2));
    FirstDigits(b, p, q, r, t);
  }

  lemma NextGroup(b: seq<byte>, s: string, k: nat)
    requires |b| >= 3 && |s| >= 4 && k > 0 && SameGroup(b[3..], s[4..], k - 1)
    ensures SameGroup(b, s, k)
  {
    var i, j := 3 * (k - 1), 4 * (k - 1);
    assert ByteAt(b, i + 3) == ByteAt(b[3..], i) && ByteAt(b, i + 4) == ByteAt(b[3..], i + 1)
      && ByteAt(b, i + 5) == ByteAt(b[3..], i + 2);
    assert SextetAt(s, j + 4) == SextetAt(s[4..], j) && SextetAt(s, j + 5) == SextetAt(s[4..], j + 1)
      && SextetAt(s, j + 6) == SextetAt(s[4..], j + 2) && SextetAt(s, j + 7) == SextetAt(s[4..], j + 3);
  }

  /**
   * Section 4 of RFC 4648: the text has six bits for each digit and no padding, and its groups are the groups of bytes,
   * the last one filled up with zeros.
   */
  lemma {:induction false} EncodedGroups(b: seq<byte>, k: nat)
    ensures |Encode(b)| == (4 * |b| + 2) / 3
    ensures SameGroup(b, Encode(b), k)
  {
    if k == 0 { FirstGroup(b); }
    if |b| >= 3 {
      EncodedGroups(b[3..], if k > 0 then k - 1 else 0);
      assert Encode(b)[4..] == Encode(b[3..]);
      if k > 0 { NextGroup(b, Encode(b), k); }
    }
  }

  predicate AllDigits(s: string) { forall i :: 0 <= i < |s| ==> Base64Char(s[i]) }

  lemma AllDigitsFrom(s: string)
    requires |s| >= 4
    ensures AllDigits(s) <==> AllDigits(s[..4]) && AllDigits(s[4..])
  {
    assert forall i :: 0 <= i < 4 ==> s[i] == s[..4][i];
    assert forall i :: 4 <= i < |s| ==> s[i] == s[4..][i - 4];
  }

  lemma DecodeFourIff(s: string)
    requires |s| >= 4
    ensures DecodeDigits(s).Some? <==> AllDigits(s[..4]) && DecodeDigits(s[4..]).Some?
  {
    assert AllDigits(s[..4]) <==> Base64Char(s[0]) && Base64Char(s[1]) && Base64Char(s[2]) && Base64Char(s[3]) by {
      assert s[..4] == [s[0], s[1], s[2], s[3]];
    }
  }

  lemma {:induction false} DecodeDigitsIff(s: string)
    ensures DecodeDigits(s).Some? <==> |s| % 4 != 1 && AllDigits(s)
    decreases |s|
  {
    if |s| >= 4 {
      DecodeDigitsIff(s[4..]);
      AllDigitsFrom(s);
      DecodeFourIff(s);
    } else {
      DecodeShortIff(s);
    }
  }

  lemma DecodeShortIff(s: string)
    requires |s| < 4
    ensures DecodeDigits(s).Some? <==> |s| != 1 && AllDigits(s)
  {
  }

  /** What the decoder accepts, apart from line breaks: digits only, and not a single one after the last four. */
  lemma DecodesIff(s: string)
    ensures Decode(s).Some? <==> |Unwrapped(s)| % 4 != 1 && AllDigits(Unwrapped(s))
  {
    DecodeDigitsIff(Unwrapped(s));
  }

  // ---- decimal numbers

  predicate IsDigit(c: char) { '0' <= c <= '9' }

  /** `%d` of a number that is not negative. */
  function Decimal(n: nat): (s: string)
    ensures s != "" && forall c :: c in s ==> IsDigit(c)
  {
    if n < 10 then ['0' + n as char] else Decimal(n / 10) + ['0' + (n % 10) as char]
  }

  function DigitOf(c: char): nat
    requires IsDigit(c)
  {
    c as int - '0' as int
  }

  function Value(s: string): nat
    requires forall c :: c in s ==> IsDigit(c)
  {
    if s == "" then 0
    else
      assert s[|s| - 1] in s;
      10 * Value(s[..|s| - 1]) + DigitOf(s[|s| - 1])
  }

  lemma {:induction false} DecimalRoundTrip(n: nat)
    ensures Value(Decimal(n)) == n
  {
    if n >= 10 {
      DecimalRoundTrip(n / 10);
      var s := Decimal(n);
      assert s[..|s| - 1] == Decimal(n / 10);
    } else {
      assert Decimal(n)[..0] == "";
    }
  }

  /** The digits in their places: ones last, and no zero in front of another digit. */
  lemma DecimalPlaces(n: nat, d: nat)
    requires d < 10
    ensures Decimal(d) == [['0', '1', '2', '3', '4', '5', '6', '7', '8', '9'][d]]
    ensures n > 0 ==> Decimal(10 * n + d) == Decimal(n) + Decimal(d)
  {
  }

  /** How many digits `s` starts with. */
  function Span(s: string): (k: nat)
    ensures k <= |s| && (forall i :: 0 <= i < k ==> IsDigit(s[i])) && (k < |s| ==> !IsDigit(s[k]))
  {
    if s == "" || !IsDigit(s[0]) then 0 else 1 + Span(s[1..])
  }

  /** Reads as many digits as there are; None if there is none, or the number does not fit below `limit`. */
  function ScanNumber(s: string, limit: nat): Option<(nat, string)> {
    var k := Span(s);
    if k == 0 || Value(s[..k]) >= limit then None else Some((Value(s[..k]), s[k..]))
  }

  /** A printed number is read back, and what follows it left, exactly if it is below the limit. */
  lemma ScanPrinted(n: nat, rest: string, limit: nat)
    requires rest == "" || !IsDigit(rest[0])
    ensures ScanNumber(Decimal(n) + rest, limit) == if n < limit then Some((n, rest)) else None
  {
    var d := Decimal(n);
    var s := d + rest;
    var k := Span(s);
    assert forall i :: 0 <= i < |d| ==> IsDigit(s[i]) by {
      forall i | 0 <= i < |d| ensures IsDigit(s[i]) { assert d[i] in d; }
    }
    assert rest != "" ==> s[|d|] == rest[0];
    assert k == |d|;
    assert s[..k] == d && s[k..] == rest;
    DecimalRoundTrip(n);
  }

  /** Reads a fixed text and a number after it. */
  function ScanField(s: string, text: string, limit: nat): Option<(nat, string)> {
    if text <= s then ScanNumber(s[|text|..], limit) else None
  }

  lemma ScanFieldPrinted(text: string, n: nat, rest: string, limit: nat)
    requires rest == "" || !IsDigit(rest[0])
    ensures ScanField(text + Decimal(n) + rest, text, limit) == if n < limit then Some((n, rest)) else None
  {
    assert text + Decimal(n) + rest == text + (Decimal(n) + rest);
    ScanPrinted(n, rest, limit);
  }

  // ---- fields

  /** `strings.Split` at a one-character separator. */
  function Split(s: string, sep: char): (parts: seq<string>)
    ensures |parts| >= 1
  {
    if s == "" then [""]
    else
      var rest := Split(s[1..], sep);
      if s[0] == sep then [""] + rest else [[s[0]] + rest[0]] + rest[1..]
  }

  function Join(parts: seq<string>, sep: char): string {
    if parts == [] then "" else if |parts| == 1 then parts[0] else parts[0] + [sep] + Join(parts[1..], sep)
  }

  lemma {:induction false} JoinSplit(s: string, sep: char)
    ensures Join(Split(s, sep), sep) == s
    ensures forall part :: part in Split(s, sep) ==> sep !in part
  {
    if s != "" {
      JoinSplit(s[1..], sep);
      var rest := Split(s[1..], sep);
      assert rest == [rest[0]] + rest[1..];
      assert s == [s[0]] + s[1..];
      if s[0] == sep {
        assert Split(s, sep)[1..] == rest;
      } else {
        var parts := Split(s, sep);
        assert parts[1..] == rest[1..];
        assert |rest| > 1 ==> Join(parts, sep) == [s[0]] + (rest[0] + [sep] + Join(rest[1..], sep));
      }
    }
  }

  lemma {:induction false} SplitFirst(part: string, rest: string, sep: char)
    requires sep !in part
    ensures Split(part, sep) == [part]
    ensures Split(part + [sep] + rest, sep) == [part] + Split(rest, sep)
  {
    if part == "" {
      assert "" + [sep] + rest == [sep] + rest;
    } else {
      assert part[0] in part;
      SplitFirst(part[1..], rest, sep);
      assert (part + [sep] + rest)[1..] == part[1..] + [sep] + rest;
      assert part == [part[0]] + part[1..];
    }
  }

  /** Joining fields that do not contain the separator, and splitting again, gives the fields. */
  lemma {:induction false} SplitJoin(parts: seq<string>, sep: char)
    requires parts != [] && forall part :: part in parts ==> sep !in part
    ensures Split(Join(parts, sep), sep) == parts
  {
    assert parts[0] in parts;
    if |parts| == 1 {
      SplitFirst(parts[0], "", sep);
    } else {
      forall part | part in parts[1..] ensures sep !in part { assert part in parts; }
      SplitJoin(parts[1..], sep);
      SplitFirst(parts[0], Join(parts[1..], sep), sep);
      assert parts == [parts[0]] + parts[1..];
    }
  }
}
