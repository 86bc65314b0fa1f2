/**
 * Normal forms of e-mail addresses and display names: internal/domain/valueobject/email.go and `validateName` of
 * internal/domain/entity/user.go. Strings are sequences of characters; what Unicode says of them is a parameter.
 */
module NormalForms {
  import opened Common

  /** Lower-casing and white space of single characters, and their length in UTF-8. */
  datatype Charset = Charset(lower: char -> char, space: char -> bool, size: char -> nat)

  /** The facts about Unicode the code relies on. */
  ghost predicate Sane(cs: Charset) {
    && (forall c :: cs.lower(cs.lower(c)) == cs.lower(c))
    && (forall c :: cs.space(cs.lower(c)) == cs.space(c))
    && (forall c :: cs.size(c) >= 1)
  }

  function ToLower(cs: Charset, s: string): string { seq(|s|, i requires 0 <= i < |s| => cs.lower(s[i])) }

  /** `strings.TrimSpace`. */
  function TrimSpace(cs: Charset, s: string): (r: string)
    ensures |r| <= |s|
    ensures r == "" || (!cs.space(r[0]) && !cs.space(r[|r| - 1]))
    ensures s != "" && !cs.space(s[0]) && !cs.space(s[|s| - 1]) ==> r == s
  {
    if s == "" then ""
    else if cs.space(s[0]) then TrimSpace(cs, s[1..])
    else if cs.space(s[|s| - 1]) then TrimSpace(cs, s[..|s| - 1])
    else s
  }

  predicate AllSpace(cs: Charset, s: string) { forall i :: 0 <= i < |s| ==> cs.space(s[i]) }

  /**
   * Trimming takes white space off both ends and nothing else; what is left is the one middle part that does not begin
   * or end with white space.
   */
  lemma {:induction false} TrimIsMiddle(cs: Charset, s: string) returns (pre: string, post: string)
    ensures s == pre + TrimSpace(cs, s) + post && AllSpace(cs, pre) && AllSpace(cs, post)
  {
    if s != "" && cs.space(s[0]) {
      pre, post := TrimIsMiddle(cs, s[1..]);
      assert s == [s[0]] + (pre + TrimSpace(cs, s) + post) == [s[0]] + pre + TrimSpace(cs, s) + post;
      pre := [s[0]] + pre;
    } else if s != "" && cs.space(s[|s| - 1]) {
      pre, post := TrimIsMiddle(cs, s[..|s| - 1]);
      assert s == (pre + TrimSpace(cs, s) + post) + [s[|s| - 1]] == pre + TrimSpace(cs, s) + (post + [s[|s| - 1]]);
      post := post + [s[|s| - 1]];
    } else {
      pre, post := "", "";
    }
  }

  lemma {:induction false} TrimOf(cs: Charset, pre: string, m: string, post: string)
    requires AllSpace(cs, pre) && AllSpace(cs, post)
    requires m == "" || (!cs.space(m[0]) && !cs.space(m[|m| - 1]))
    ensures TrimSpace(cs, pre + m + post) == m
    decreases |pre| + |post|
  {
    var s := pre + m + post;
    if pre != "" {
      assert s[0] == pre[0] && s[1..] == pre[1..] + m + post;
      TrimOf(cs, pre[1..], m, post);
    } else if post == "" {
      assert s == m;
    } else if m == "" {
      assert s == post && s[0] == post[0] && s[1..] == post[1..] + m + "";
      TrimOf(cs, post[1..], m, "");
    } else {
      assert s[0] == m[0] && s[|s| - 1] == post[|post| - 1] && s[..|s| - 1] == pre + m + post[..|post| - 1];
      TrimOf(cs, pre, m, post[..|post| - 1]);
    }
  }

  /** Length in bytes. */
  function Len(cs: Charset, s: string): nat { if s == "" then 0 else cs.size(s[0]) + Len(cs, s[1..]) }

  /** The length is the sum of the characters' lengths. */
  lemma {:induction false} LenAdds(cs: Charset, s: string, t: string)
    ensures Len(cs, s + t) == Len(cs, s) + Len(cs, t)
    ensures forall c :: Len(cs, [c]) == cs.size(c)
  {
    forall c ensures Len(cs, [c]) == cs.size(c) { assert [c][1..] == ""; }
    if s == "" {
      assert s + t == t;
    } else {
      assert (s + t)[1..] == s[1..] + t;
      LenAdds(cs, s[1..], t);
    }
  }

  /** Position of the last occurrence, or -1. */
  function LastIndex(s: string, c: char): (i: int)
    ensures -1 <= i < |s|
    ensures i >= 0 ==> s[i] == c
    ensures forall j :: i < j < |s| ==> s[j] != c
  {
    if s == "" then -1 else if s[|s| - 1] == c then |s| - 1 else LastIndex(s[..|s| - 1], c)
  }

  predicate IsValidEmail(cs: Charset, v: string) {
    var at := LastIndex(v, '@');
    && 1 <= Len(cs, v) <= 254
    && at >= 1
    && var domain := v[at + 1..];
       domain != "" && var dot := LastIndex(domain, '.'); 0 < dot < |domain| - 1
  }

  /** The shape the byte positions amount to: a local part, an at sign, and a domain whose last dot is inside it. */
  ghost predicate HasShape(v: string) {
    exists local, host, tld :: Splits(v, local, host, tld)
  }

  ghost predicate Splits(v: string, local: string, host: string, tld: string) {
    v == local + "@" + host + "." + tld && local != "" && host != "" && tld != ""
    && '@' !in host && '@' !in tld && '.' !in tld
  }

  lemma LastIndexIs(s: string, c: char, i: nat)
    requires i < |s| && s[i] == c && c !in s[i + 1..]
    ensures LastIndex(s, c) == i
  {
    forall k | i < k < |s| ensures s[k] != c {
      assert s[i + 1..][k - i - 1] == s[k];
    }
  }

  lemma ValidHasShape(cs: Charset, v: string)
    requires IsValidEmail(cs, v)
    ensures HasShape(v)
  {
    var at := LastIndex(v, '@');
    var domain := v[at + 1..];
    var dot := LastIndex(domain, '.');
    forall k | 0 <= k < |domain| ensures domain[k] != '@' {
      assert v[at + 1 + k] == domain[k];
    }
    var host, tld := domain[..dot], domain[dot + 1..];
    assert domain == host + "." + tld;
    assert v == v[..at] + "@" + host + "." + tld;
    assert Splits(v, v[..at], host, tld);
  }

  lemma ShapeIsValid(cs: Charset, v: string, local: string, host: string, tld: string)
    requires 1 <= Len(cs, v) <= 254 && Splits(v, local, host, tld)
    ensures IsValidEmail(cs, v)
  {
    var domain := host + "." + tld;
    assert v == local + "@" + domain && v[|local| + 1..] == domain;
    LastIndexIs(v, '@', |local|);
    assert domain[|host| + 1..] == tld;
    LastIndexIs(domain, '.', |host|);
  }

  lemma ValidEmailShape(cs: Charset, v: string)
    ensures IsValidEmail(cs, v) <==> 1 <= Len(cs, v) <= 254 && HasShape(v)
  {
    if IsValidEmail(cs, v) {
      ValidHasShape(cs, v);
    }
    if 1 <= Len(cs, v) <= 254 && HasShape(v) {
      var local, host, tld :| Splits(v, local, host, tld);
      ShapeIsValid(cs, v, local, host, tld);
    }
  }

  function NewEmail(cs: Charset, v: string): (r: Option<string>) {
    var trimmed := ToLower(cs, TrimSpace(cs, v));
    if IsValidEmail(cs, trimmed) then Some(trimmed) else None
  }

  /**
   * What is accepted as an address, and as what: the input without the white space around it, each character lower-
   * cased, provided that has the length and shape of an address.
   */
  lemma NewEmailIs(cs: Charset, pre: string, m: string, post: string)
    requires AllSpace(cs, pre) && AllSpace(cs, post)
    requires m == "" || (!cs.space(m[0]) && !cs.space(m[|m| - 1]))
    ensures var r := NewEmail(cs, pre + m + post);
      && (r.Some? ==> |r.value| == |m| && forall i :: 0 <= i < |m| ==> r.value[i] == cs.lower(m[i]))
      && (r.Some? <==> 1 <= Len(cs, ToLower(cs, m)) <= 254 && HasShape(ToLower(cs, m)))
  {
    TrimOf(cs, pre, m, post);
    ValidEmailShape(cs, ToLower(cs, m));
  }

  /** An address in normal form is its own normal form. */
  lemma NewEmailIdempotent(cs: Charset, v: string)
    requires Sane(cs) && NewEmail(cs, v).Some?
    ensures NewEmail(cs, NewEmail(cs, v).value) == NewEmail(cs, v)
  {
    var t := TrimSpace(cs, v);
    var e := ToLower(cs, t);
    assert TrimSpace(cs, e) == e;
    assert ToLower(cs, e) == e;
  }

  predicate NormalEmail(cs: Charset, e: string) { NewEmail(cs, e) == Some(e) }

  /**
   * A normal-form address has no white space at its ends, no character that lower-casing changes, and the shape above.
   */
  lemma NormalEmailIff(cs: Charset, e: string)
    ensures NormalEmail(cs, e)
      <==> TrimSpace(cs, e) == e && ToLower(cs, e) == e && 1 <= Len(cs, e) <= 254 && HasShape(e)
  {
    ValidEmailShape(cs, e);
    var t := TrimSpace(cs, e);
    if ToLower(cs, t) == e {
      assert |t| == |e|;
      TrimShortens(cs, e);
    }
  }

  lemma {:induction false} TrimShortens(cs: Charset, s: string)
    ensures |TrimSpace(cs, s)| == |s| ==> TrimSpace(cs, s) == s
  {
  }

  /** `validateName` followed by the trimming every writer of a name does. */
  function NewName(cs: Charset, name: string): (r: Option<string>) {
    var trimmed := TrimSpace(cs, name);
    if Len(cs, trimmed) == 0 || Len(cs, trimmed) > 100 then None else Some(trimmed)
  }

  /** A name is accepted exactly if 1 to 100 bytes are left without the white space around it, and as what is left. */
  lemma NewNameIs(cs: Charset, pre: string, m: string, post: string)
    requires AllSpace(cs, pre) && AllSpace(cs, post)
    requires m == "" || (!cs.space(m[0]) && !cs.space(m[|m| - 1]))
    ensures NewName(cs, pre + m + post) == if 1 <= Len(cs, m) <= 100 then Some(m) else None
  {
    TrimOf(cs, pre, m, post);
  }

  predicate NormalName(cs: Charset, name: string) { NewName(cs, name) == Some(name) }

  lemma NewNameIdempotent(cs: Charset, name: string)
    requires NewName(cs, name).Some?
    ensures NormalName(cs, NewName(cs, name).value)
    ensures 1 <= Len(cs, NewName(cs, name).value) <= 100
  {
    var t := TrimSpace(cs, name);
    assert TrimSpace(cs, t) == t;
  }

  // ---- a charset, and texts in normal form in it

  /** The ASCII part of Unicode. */
  function Ascii(): Charset {
    Charset(c => if 'A' <= c <= 'Z' then c + 'a' - 'A' else c, c => c == ' ' || '\t' <= c <= '\r', _ => 1)
  }

  lemma AsciiIsSane()
    ensures Sane(Ascii())
  {
  }

  lemma {:induction false} AsciiLen(s: string)
    ensures Len(Ascii(), s) == |s|
  {
    if s != "" { AsciiLen(s[1..]); }
  }

  /** The hypotheses of the example runs can be met: addresses and names from one letter. */
  lemma AsciiNormal(c: char)
    requires 'a' <= c <= 'z'
    ensures NormalEmail(Ascii(), [c] + "@b.c") && NormalName(Ascii(), [c])
  {
    var v := [c] + "@b.c";
    AsciiLen(v);
    AsciiLen([c]);
    assert TrimSpace(Ascii(), v) == v && ToLower(Ascii(), v) == v;
    ShapeIsValid(Ascii(), v, [c], "b", "c");
  }
}
