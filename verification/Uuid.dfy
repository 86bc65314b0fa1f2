/** UUIDs and their text form (section 4 of RFC 9562), as `github.com/google/uuid` prints and parses them. */
module Uuids {
  import opened Common

  type Uuid = s: seq<byte> | |s| == 16 witness seq(16, _ => 0)

  /** Lexicographic order on sequences, the order of Go strings and of PostgreSQL's uuid type. */
  predicate Less(a: seq<int>, b: seq<int>) {
    b != [] && (a == [] || a[0] < b[0] || (a[0] == b[0] && Less(a[1..], b[1..])))
  }

  function Codes(s: string): seq<int> { seq(|s|, i requires 0 <= i < |s| => s[i] as int) }

  predicate TextLess(a: string, b: string) { Less(Codes(a), Codes(b)) }

  function HexDigit(d: int): char
    requires 0 <= d < 16
  {
    if d < 10 then '0' + d as char else 'a' + (d - 10) as char
  }

  function HexValue(c: char): Option<int> {
    if '0' <= c <= '9' then Some(c as int - '0' as int)
    else if 'a' <= c <= 'f' then Some(c as int - 'a' as int + 10)
    else if 'A' <= c <= 'F' then Some(c as int - 'A' as int + 10)
    else None
  }

  function Hex(bytes: seq<byte>): (s: string)
    ensures |s| == 2 * |bytes|
  {
    if bytes == [] then "" else [HexDigit(bytes[0] / 16), HexDigit(bytes[0] % 16)] + Hex(bytes[1..])
  }

  function ParseHex(s: string): (r: Option<seq<byte>>)
    ensures r.Some? ==> 2 * |r.value| == |s|
  {
    if s == "" then Some([])
    else if |s| == 1 then None
    else
      match (HexValue(s[0]), HexValue(s[1]), ParseHex(s[2..]))
      case (Some(h), Some(l), Some(rest)) => Some([16 * h + l] + rest)
      case _ => None
  }

  function Sum(widths: seq<nat>): nat { if widths == [] then 0 else widths[0] + Sum(widths[1..]) }

  /** Groups of bytes in hexadecimal, joined by dashes. */
  function Groups(bytes: seq<byte>, widths: seq<nat>): (s: string)
    requires widths != [] && Sum(widths) == |bytes|
    ensures |s| == 2 * |bytes| + |widths| - 1
    decreases |widths|
  {
    var w := widths[0];
    if |widths| == 1 then Hex(bytes) else Hex(bytes[..w]) + "-" + Groups(bytes[w..], widths[1..])
  }

  function ParseGroups(s: string, widths: seq<nat>): (r: Option<seq<byte>>)
    requires widths != [] && |s| == 2 * Sum(widths) + |widths| - 1
    ensures r.Some? ==> |r.value| == Sum(widths)
    decreases |widths|
  {
    var w := 2 * widths[0];
    if |widths| == 1 then ParseHex(s)
    else if s[w] != '-' then None
    else
      match (ParseHex(s[..w]), ParseGroups(s[w + 1..], widths[1..]))
      case (Some(group), Some(rest)) => Some(group + rest)
      case _ => None
  }

  /** Bytes in each group of the 8-4-4-4-12 form. */
  const WIDTHS: seq<nat> := [4, 2, 2, 2, 6]

  lemma WidthsSum()
    ensures Sum(WIDTHS) == 16
  {
    assert WIDTHS[1..] == [2, 2, 2, 6] && WIDTHS[2..] == [2, 2, 6] && WIDTHS[3..] == [2, 6] && WIDTHS[4..] == [6];
    assert Sum([6]) == 6 && Sum([2, 6]) == 8 && Sum([2, 2, 6]) == 10 && Sum([2, 2, 2, 6]) == 12 by {
      assert [2, 6][1..] == [6] && [2, 2, 6][1..] == [2, 6] && [2, 2, 2, 6][1..] == [2, 2, 6];
    }
  }

  function Text(u: Uuid): (s: string)
    ensures |s| == 36
  {
    WidthsSum();
    Groups(u, WIDTHS)
  }

  /** `uuid.Parse` on the 36-character form. */
  function Parse(s: string): (r: Option<Uuid>) {
    WidthsSum();
    if |s| != 36 then None
    else
      match ParseGroups(s, WIDTHS)
      case Some(bytes) => Some(bytes)
      case None => None
  }

  lemma {:induction false} ParseHexRoundTrip(bytes: seq<byte>)
    ensures ParseHex(Hex(bytes)) == Some(bytes)
  {
    if bytes != [] {
      ParseHexRoundTrip(bytes[1..]);
      var s := Hex(bytes);
      assert s[2..] == Hex(bytes[1..]);
      assert [bytes[0]] + bytes[1..] == bytes;
    }
  }

  function LowerDigit(c: char): char { if 'A' <= c <= 'F' then c - 'A' + 'a' else c }

  /** The text with its hexadecimal digits in lower case. */
  function Lowered(s: string): (r: string)
    ensures |r| == |s|
  {
    seq(|s|, i requires 0 <= i < |s| => LowerDigit(s[i]))
  }

  lemma HexValueIff(c: char, h: int)
    requires 0 <= h < 16
    ensures HexValue(c) == Some(h) <==> LowerDigit(c) == HexDigit(h)
  {
  }

  lemma EqualIff(a: string, b: string, k: nat)
    requires |a| == |b| && k < |a|
    ensures a == b <==> a[..k] == b[..k] && a[k] == b[k] && a[k + 1..] == b[k + 1..]
  {
    assert a == a[..k] + [a[k]] + a[k + 1..] && b == b[..k] + [b[k]] + b[k + 1..];
  }

  lemma {:induction false} ParseHexIff(s: string, bytes: seq<byte>)
    ensures ParseHex(s) == Some(bytes) <==> Lowered(s) == Hex(bytes)
  {
    if |s| >= 2 && |s| == 2 * |bytes| {
      ParseHexIff(s[2..], bytes[1..]);
      HexValueIff(s[0], bytes[0] / 16);
      HexValueIff(s[1], bytes[0] % 16);
      var l, h := Lowered(s), Hex(bytes);
      assert l[2..] == Lowered(s[2..]) && h[2..] == Hex(bytes[1..]) && l[..1] == [l[0]] && h[..1] == [h[0]];
      EqualIff(l, h, 1);
      ParsePairIff(s, bytes);
    }
  }

  /** Two digits and the rest. */
  lemma ParsePairIff(s: string, bytes: seq<byte>)
    requires |s| >= 2 && bytes != []
    ensures var h, l := bytes[0] / 16, bytes[0] % 16;
      ParseHex(s) == Some(bytes)
      <==> (HexValue(s[0]) == Some(h) && HexValue(s[1]) == Some(l) && ParseHex(s[2..]) == Some(bytes[1..]))
  {
    assert bytes == [bytes[0]] + bytes[1..];
    var h, l := HexValue(s[0]), HexValue(s[1]);
    if h.Some? && l.Some? {
      assert 16 * h.value + l.value == bytes[0] <==> h.value == bytes[0] / 16 && l.value == bytes[0] % 16;
    }
  }

  lemma {:induction false} ParseGroupsIff(s: string, bytes: seq<byte>, widths: seq<nat>)
    requires widths != [] && Sum(widths) == |bytes| && |s| == 2 * |bytes| + |widths| - 1
    ensures ParseGroups(s, widths) == Some(bytes) <==> Lowered(s) == Groups(bytes, widths)
    decreases |widths|
  {
    var w := widths[0];
    if |widths| == 1 {
      ParseHexIff(s, bytes);
    } else {
      var first, rest, group, dash, tail := s[..2 * w], s[2 * w + 1..], bytes[..w], s[2 * w] == '-', bytes[w..];
      ParseHexIff(first, group);
      ParseGroupsIff(rest, tail, widths[1..]);
      var parsed := ParseHex(first) == Some(group) && dash && ParseGroups(rest, widths[1..]) == Some(tail);
      assert ParseGroups(s, widths) == Some(bytes) <==> parsed by { ParseGroupIff(s, bytes, widths); }
      var lowered := Lowered(first) == Hex(group) && dash && Lowered(rest) == Groups(tail, widths[1..]);
      assert Lowered(s) == Groups(bytes, widths) <==> lowered by {
        LoweredGroupIff(s, Hex(group), Groups(tail, widths[1..]));
      }
    }
  }

  lemma LoweredGroupIff(s: string, first: string, rest: string)
    requires |s| == |first| + 1 + |rest|
    ensures var k := |first|;
      Lowered(s) == first + "-" + rest
      <==> (Lowered(s[..k]) == first && s[k] == '-' && Lowered(s[k + 1..]) == rest)
  {
    var k, l, g := |first|, Lowered(s), first + "-" + rest;
    assert l[..k] == Lowered(s[..k]) && l[k + 1..] == Lowered(s[k + 1..]);
    assert g[..k] == first && g[k + 1..] == rest;
    EqualIff(l, g, k);
  }

  /** A group, a dash and the rest. */
  lemma ParseGroupIff(s: string, bytes: seq<byte>, widths: seq<nat>)
    requires |widths| > 1 && Sum(widths) == |bytes| && |s| == 2 * |bytes| + |widths| - 1
    ensures var w := widths[0];
      var first, rest := ParseHex(s[..2 * w]), ParseGroups(s[2 * w + 1..], widths[1..]);
      ParseGroups(s, widths) == Some(bytes)
      <==> (first == Some(bytes[..w]) && s[2 * w] == '-' && rest == Some(bytes[w..]))
  {
    var w := widths[0];
    assert bytes == bytes[..w] + bytes[w..];
    var group, rest := ParseHex(s[..2 * w]), ParseGroups(s[2 * w + 1..], widths[1..]);
    if group.Some? && rest.Some? {
      assert (group.value + rest.value)[..w] == group.value && (group.value + rest.value)[w..] == rest.value;
    }
  }

  /** What parses, and to what: exactly the printed text of the identifier, with its letters in either case. */
  lemma ParseIff(s: string, u: Uuid)
    ensures Parse(s) == Some(u) <==> Lowered(s) == Text(u)
  {
    WidthsSum();
    if |s| == 36 { ParseGroupsIff(s, u, WIDTHS); }
  }

  predicate UuidChar(c: char) { '0' <= c <= '9' || 'a' <= c <= 'f' || c == '-' }

  lemma {:induction false} HexChars(bytes: seq<byte>)
    ensures forall c :: c in Hex(bytes) ==> UuidChar(c)
  {
    if bytes != [] {
      HexChars(bytes[1..]);
    }
  }

  lemma {:induction false} GroupsChars(bytes: seq<byte>, widths: seq<nat>)
    requires widths != [] && Sum(widths) == |bytes|
    ensures forall c :: c in Groups(bytes, widths) ==> UuidChar(c)
    decreases |widths|
  {
    if |widths| == 1 {
      HexChars(bytes);
    } else {
      HexChars(bytes[..widths[0]]);
      GroupsChars(bytes[widths[0]..], widths[1..]);
    }
  }

  /** The two digits of each byte, the high one first, in lower case. */
  lemma {:induction false} HexAt(b: seq<byte>, i: nat)
    requires i < |b|
    ensures Hex(b)[2 * i] == "0123456789abcdef"[b[i] / 16] && Hex(b)[2 * i + 1] == "0123456789abcdef"[b[i] % 16]
  {
    DigitSpelling(b[i] / 16);
    DigitSpelling(b[i] % 16);
    if i > 0 {
      HexAt(b[1..], i - 1);
      assert Hex(b)[2..] == Hex(b[1..]);
    }
  }

  lemma DigitSpelling(d: int)
    requires 0 <= d < 16
    ensures HexDigit(d) == "0123456789abcdef"[d]
  {
  }

  lemma LastTwoGroups(b: seq<byte>)
    requires |b| == 8
    ensures Sum([2, 6]) == 8 && Groups(b, [2, 6]) == Hex(b[..2]) + "-" + Hex(b[2..])
  {
    assert [2, 6][1..] == [6] && Sum([6]) == 6 && Groups(b[2..], [6]) == Hex(b[2..]);
  }

  lemma LastThreeGroups(b: seq<byte>)
    requires |b| == 10
    ensures Sum([2, 2, 6]) == 10 && Groups(b, [2, 2, 6]) == Hex(b[..2]) + "-" + Groups(b[2..], [2, 6])
  {
    LastTwoGroups(b[2..]);
    assert [2, 2, 6][1..] == [2, 6];
  }

  lemma LastFourGroups(b: seq<byte>)
    requires |b| == 12
    ensures Sum([2, 2, 2, 6]) == 12 && Groups(b, [2, 2, 2, 6]) == Hex(b[..2]) + "-" + Groups(b[2..], [2, 2, 6])
  {
    LastThreeGroups(b[2..]);
    assert [2, 2, 2, 6][1..] == [2, 2, 6];
  }

  lemma Dashes(a: string, b: string, c: string, d: string, e: string)
    ensures a + "-" + (b + "-" + (c + "-" + (d + "-" + e))) == a + "-" + b + "-" + c + "-" + d + "-" + e
  {
    var s := c + "-" + (d + "-" + e);
    assert s == c + "-" + d + "-" + e;
    assert b + "-" + s == b + "-" + c + "-" + d + "-" + e;
  }

  /** The text form: groups of four, two, two, two and six bytes, joined by dashes. */
  lemma TextLayout(u: Uuid)
    ensures Text(u) == Hex(u[..4]) + "-" + Hex(u[4..6]) + "-" + Hex(u[6..8]) + "-" + Hex(u[8..10]) + "-" + Hex(u[10..])
  {
    WidthsSum();
    var u1, u2, u3 := u[4..], u[6..], u[8..];
    assert u1[..2] == u[4..6] && u1[2..] == u2 && u2[..2] == u[6..8] && u2[2..] == u3;
    assert u3[..2] == u[8..10] && u3[2..] == u[10..] && WIDTHS[1..] == [2, 2, 2, 6];
    LastFourGroups(u1);
    LastThreeGroups(u2);
    LastTwoGroups(u3);
    assert Text(u) == Hex(u[..4]) + "-" + Groups(u1, [2, 2, 2, 6]);
    Dashes(Hex(u[..4]), Hex(u[4..6]), Hex(u[6..8]), Hex(u[8..10]), Hex(u[10..]));
  }

  /** The text of an identifier holds only lower-case hexadecimal digits and dashes: no colon, no glob metacharacter. */
  lemma TextChars(u: Uuid)
    ensures forall c :: c in Text(u) ==> UuidChar(c)
  {
    WidthsSum();
    GroupsChars(u, WIDTHS);
  }

  /** What is printed parses back to the same identifier; so distinct identifiers have distinct texts. */
  lemma ParseRoundTrip(u: Uuid)
    ensures Parse(Text(u)) == Some(u)
  {
    TextChars(u);
    var s := Text(u);
    forall i | 0 <= i < |s| ensures Lowered(s)[i] == s[i] {
      assert s[i] in s;
    }
    assert Lowered(s) == s;
    ParseIff(s, u);
  }

  // Order of the text form and order of the bytes.

  lemma {:induction false} LessAppend(a: seq<int>, b: seq<int>, a': seq<int>, b': seq<int>)
    requires |a| == |a'|
    ensures Less(a + b, a' + b') <==> Less(a, a') || (a == a' && Less(b, b'))
  {
    if a == [] {
      assert a + b == b && a' + b' == b';
    } else {
      LessAppend(a[1..], b, a'[1..], b');
      assert (a + b)[1..] == a[1..] + b && (a' + b')[1..] == a'[1..] + b';
      assert a == [a[0]] + a[1..] && a' == [a'[0]] + a'[1..];
    }
  }

  lemma CodesAppend(s: string, t: string)
    ensures Codes(s + t) == Codes(s) + Codes(t)
  {
  }

  function HexPair(x: byte): string { [HexDigit(x / 16), HexDigit(x % 16)] }

  lemma HexPairOrder(x: byte, y: byte)
    ensures TextLess(HexPair(x), HexPair(y)) <==> x < y
    ensures Codes(HexPair(x)) == Codes(HexPair(y)) <==> x == y
  {
    var p, q := HexPair(x), HexPair(y);
    assert Codes(p) == [p[0] as int, p[1] as int] && Codes(q) == [q[0] as int, q[1] as int];
    assert Codes(p)[1..] == [p[1] as int] && Codes(q)[1..] == [q[1] as int];
    assert Less(Codes(p)[1..], Codes(q)[1..]) <==> p[1] < q[1];
  }

  lemma {:induction false} HexOrder(a: seq<byte>, b: seq<byte>)
    requires |a| == |b|
    ensures TextLess(Hex(a), Hex(b)) <==> Less(a, b)
  {
    if a != [] {
      HexOrder(a[1..], b[1..]);
      HexPairOrder(a[0], b[0]);
      CodesAppend(HexPair(a[0]), Hex(a[1..]));
      CodesAppend(HexPair(b[0]), Hex(b[1..]));
      LessAppend(Codes(HexPair(a[0])), Codes(Hex(a[1..])), Codes(HexPair(b[0])), Codes(Hex(b[1..])));
    }
  }

  lemma HexInjective(a: seq<byte>, b: seq<byte>)
    ensures Hex(a) == Hex(b) <==> a == b
  {
    ParseHexRoundTrip(a);
    ParseHexRoundTrip(b);
  }

  /** One printed group, followed by the rest of the text. */
  lemma GroupOrder(a: seq<byte>, b: seq<byte>, a': seq<byte>, b': seq<byte>, s: string, s': string)
    requires |a| == |a'|
    requires TextLess(s, s') <==> Less(b, b')
    ensures TextLess(Hex(a) + "-" + s, Hex(a') + "-" + s') <==> Less(a + b, a' + b')
  {
    HexOrder(a, a');
    HexInjective(a, a');
    LessAppend(a, b, a', b');
    CodesAppend("-", s);
    CodesAppend("-", s');
    LessAppend(Codes("-"), Codes(s), Codes("-"), Codes(s'));
    assert !Less(Codes("-"), Codes("-"));
    CodesAppend(Hex(a), "-" + s);
    CodesAppend(Hex(a'), "-" + s');
    LessAppend(Codes(Hex(a)), Codes("-" + s), Codes(Hex(a')), Codes("-" + s'));
    assert Codes(Hex(a)) == Codes(Hex(a')) <==> Hex(a) == Hex(a') by {
      if Codes(Hex(a)) == Codes(Hex(a')) {
        forall i | 0 <= i < |Hex(a)| ensures Hex(a)[i] == Hex(a')[i] {
          assert Codes(Hex(a))[i] == Codes(Hex(a'))[i];
        }
      }
    }
    assert Hex(a) + "-" + s == Hex(a) + ("-" + s) && Hex(a') + "-" + s' == Hex(a') + ("-" + s');
  }

  lemma {:induction false} GroupsOrder(u: seq<byte>, v: seq<byte>, widths: seq<nat>)
    requires widths != [] && Sum(widths) == |u| == |v|
    ensures TextLess(Groups(u, widths), Groups(v, widths)) <==> Less(u, v)
    decreases |widths|
  {
    var w := widths[0];
    if |widths| == 1 {
      HexOrder(u, v);
    } else {
      GroupsOrder(u[w..], v[w..], widths[1..]);
      GroupOrder(u[..w], u[w..], v[..w], v[w..], Groups(u[w..], widths[1..]), Groups(v[w..], widths[1..]));
      assert u[..w] + u[w..] == u && v[..w] + v[w..] == v;
    }
  }

  /** Sorting by the text form is sorting by the sixteen bytes. */
  lemma TextOrderIsByteOrder(u: Uuid, v: Uuid)
    ensures TextLess(Text(u), Text(v)) <==> Less(u, v)
  {
    WidthsSum();
    GroupsOrder(u, v, WIDTHS);
  }

  /** For sequences of one length, `Less` is decided at the first place where they differ. */
  lemma {:induction false} LessAtFirstDifference(a: seq<int>, b: seq<int>)
    requires |a| == |b|
    ensures Less(a, b) <==> exists k :: 0 <= k < |a| && a[..k] == b[..k] && a[k] < b[k]
  {
    if a != [] {
      LessAtFirstDifference(a[1..], b[1..]);
      if a[0] < b[0] {
        assert a[..0] == b[..0];
      }
      if a[0] == b[0] && Less(a[1..], b[1..]) {
        var k :| 0 <= k < |a| - 1 && a[1..][..k] == b[1..][..k] && a[1..][k] < b[1..][k];
        assert a[..k + 1] == [a[0]] + a[1..][..k] && b[..k + 1] == [b[0]] + b[1..][..k];
      }
      forall k | 0 <= k < |a| && a[..k] == b[..k] && a[k] < b[k] ensures Less(a, b) {
        if k > 0 {
          assert a[0] == a[..k][0] == b[..k][0] == b[0];
          assert a[1..][..k - 1] == a[..k][1..] == b[..k][1..] == b[1..][..k - 1];
          assert a[1..][k - 1] < b[1..][k - 1];
        }
      }
    }
  }

  lemma {:induction false} LessIsStrictTotal(a: seq<int>, b: seq<int>)
    ensures !Less(a, a)
    ensures Less(a, b) ==> !Less(b, a)
    ensures a != b ==> Less(a, b) || Less(b, a)
  {
    if a != [] {
      LessIsStrictTotal(a[1..], if b == [] then [] else b[1..]);
      if b != [] {
        assert a == [a[0]] + a[1..] && b == [b[0]] + b[1..];
      }
    }
  }

  lemma {:induction false} LessTransitive(a: seq<int>, b: seq<int>, c: seq<int>)
    requires Less(a, b) && Less(b, c)
    ensures Less(a, c)
  {
    if a != [] && a[0] == b[0] == c[0] {
      LessTransitive(a[1..], b[1..], c[1..]);
    }
  }
}
