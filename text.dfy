/** The JavaScript string operations the handlers rely on: `trim`,
    `toLowerCase`, `startsWith`, `split`, decimal rendering of numbers and
    `parseInt`. */
module Text {
  import opened Common

  /** JavaScript's WhiteSpace and LineTerminator characters, which
      `String.prototype.trim` and `parseInt` skip. */
  predicate IsSpace(c: char) {
    || c == ' ' || c == '\t' || c == '\n' || c == '\r'
    || c == '\U{000B}' || c == '\U{000C}' || c == '\U{00A0}' || c == '\U{FEFF}'
    || c == '\U{1680}' || ('\U{2000}' <= c <= '\U{200A}')
    || c == '\U{2028}' || c == '\U{2029}' || c == '\U{202F}' || c == '\U{205F}'
    || c == '\U{3000}'
  }

  /** Drops leading white space: the result is the suffix of `s` that starts
      at its first non-space character. */
  function TrimStart(s: string): (r: string)
    ensures |r| <= |s| && r == s[|s| - |r|..]
    ensures r == [] || !IsSpace(r[0])
    ensures forall i :: 0 <= i < |s| - |r| ==> IsSpace(s[i])
  {
    if s != [] && IsSpace(s[0]) then TrimStart(s[1..]) else s
  }

  /** Drops trailing white space: the result is the prefix of `s` that ends
      at its last non-space character. */
  function TrimEnd(s: string): (r: string)
    ensures |r| <= |s| && r == s[..|r|]
    ensures r == [] || !IsSpace(r[|r| - 1])
    ensures forall i :: |r| <= i < |s| ==> IsSpace(s[i])
  {
    if s != [] && IsSpace(s[|s| - 1]) then TrimEnd(s[..|s| - 1]) else s
  }

  /** `String.prototype.trim`. */
  function Trim(s: string): (r: string)
    ensures |r| <= |s|
    ensures r == [] || (!IsSpace(r[0]) && !IsSpace(r[|r| - 1]))
  {
    TrimEnd(TrimStart(s))
  }

  /** A string that neither starts nor ends with white space is its own trim. */
  lemma TrimFixed(s: string)
    requires s == [] || (!IsSpace(s[0]) && !IsSpace(s[|s| - 1]))
    ensures Trim(s) == s
  {
  }

  /** Trimming is idempotent. */
  lemma TrimIdempotent(s: string)
    ensures Trim(Trim(s)) == Trim(s)
  {
    TrimFixed(Trim(s));
  }

  /** Trimming a string whose only surrounding white space is one trailing
      blank removes exactly that blank. */
  lemma TrimTrailingBlank(s: string)
    requires s != [] && !IsSpace(s[0]) && !IsSpace(s[|s| - 1])
    ensures Trim(s + " ") == s
  {
    var t := s + " ";
    assert TrimStart(t) == t;
    assert t[..|t| - 1] == s;
    assert TrimEnd(t) == TrimEnd(s);
  }

  /** ASCII case folding of one character, as `toLowerCase` does for ASCII. */
  function LowerChar(c: char): char {
    if 'A' <= c <= 'Z' then (c as int + 32) as char else c
  }

  predicate IsUpper(c: char) {
    'A' <= c <= 'Z'
  }

  /** `String.prototype.toLowerCase`, on ASCII letters. */
  function ToLower(s: string): (r: string)
    ensures |r| == |s|
    ensures forall i :: 0 <= i < |s| ==> !IsUpper(r[i])
    ensures forall i :: 0 <= i < |s| && !IsUpper(s[i]) ==> r[i] == s[i]
  {
    seq(|s|, i requires 0 <= i < |s| => LowerChar(s[i]))
  }

  /** Lower-casing leaves a string without capitals unchanged. */
  lemma ToLowerFixed(s: string)
    requires forall i :: 0 <= i < |s| ==> !IsUpper(s[i])
    ensures ToLower(s) == s
  {
    assert forall i :: 0 <= i < |s| ==> ToLower(s)[i] == s[i];
  }

  /** Lower-casing is idempotent. */
  lemma ToLowerIdempotent(s: string)
    ensures ToLower(ToLower(s)) == ToLower(s)
  {
  }

  predicate StartsWith(s: string, prefix: string) {
    |prefix| <= |s| && s[..|prefix|] == prefix
  }

  /** Index of the first occurrence of `c` in `s`, if any. */
  function IndexOf(s: string, c: char): (r: Option<nat>)
    ensures r.None? ==> c !in s
    ensures r.Some? ==> r.value < |s| && s[r.value] == c && c !in s[..r.value]
  {
    if s == [] then None
    else if s[0] == c then Some(0)
    else match IndexOf(s[1..], c)
      case None => None
      case Some(i) =>
        assert s[..i + 1] == [s[0]] + s[1..][..i];
        Some(i + 1)
  }

  /** `String.prototype.split` with a one-character separator. */
  function SplitOn(s: string, sep: char): (parts: seq<string>)
    ensures |parts| >= 1
    ensures forall k :: 0 <= k < |parts| ==> sep !in parts[k]
    decreases |s|
  {
    match IndexOf(s, sep)
    case None => [s]
    case Some(i) => [s[..i]] + SplitOn(s[i + 1..], sep)
  }

  /** A string without the separator splits into itself alone. */
  lemma SplitAlone(s: string, sep: char)
    requires sep !in s
    ensures SplitOn(s, sep) == [s]
  {
    assert IndexOf(s, sep).None?;
  }

  /** `Array.prototype.join` with a one-character separator. */
  function Join(parts: seq<string>, sep: char): string {
    if parts == [] then ""
    else if |parts| == 1 then parts[0]
    else parts[0] + [sep] + Join(parts[1..], sep)
  }

  /** Splitting then joining gives back the original string. */
  lemma {:induction false} JoinSplit(s: string, sep: char)
    ensures Join(SplitOn(s, sep), sep) == s
    decreases |s|
  {
    match IndexOf(s, sep)
    case None =>
    case Some(i) =>
      JoinSplit(s[i + 1..], sep);
      JoinSplitAt(s, sep, i);
  }

  /** The inductive step of `JoinSplit`: the first separator at `i`. */
  lemma JoinSplitAt(s: string, sep: char, i: nat)
    requires IndexOf(s, sep) == Some(i)
    requires Join(SplitOn(s[i + 1..], sep), sep) == s[i + 1..]
    ensures Join(SplitOn(s, sep), sep) == s
  {
    var rest := s[i + 1..];
    var tail := SplitOn(rest, sep);
    calc {
      Join(SplitOn(s, sep), sep);
      Join([s[..i]] + tail, sep);
      { JoinCons(s[..i], tail, sep); }
      s[..i] + [sep] + Join(tail, sep);
      s[..i] + [s[i]] + rest;
      { Around(s, i); }
      s;
    }
  }

  /** A string is its prefix, one character, and its suffix. */
  lemma Around(s: string, i: nat)
    requires i < |s|
    ensures s[..i] + [s[i]] + s[i + 1..] == s
  {
  }

  /** Joining a word in front of a non-empty list. */
  lemma JoinCons(w: string, tail: seq<string>, sep: char)
    requires |tail| >= 1
    ensures Join([w] + tail, sep) == w + [sep] + Join(tail, sep)
  {
    assert ([w] + tail)[1..] == tail;
  }

  /** Joining words that do not contain the separator, then splitting,
      gives back the words. */
  lemma {:induction false} SplitJoin(parts: seq<string>, sep: char)
    requires |parts| >= 1
    requires forall k :: 0 <= k < |parts| ==> sep !in parts[k]
    ensures SplitOn(Join(parts, sep), sep) == parts
  {
    if |parts| == 1 {
      assert IndexOf(parts[0], sep).None?;
    } else {
      var head, rest := parts[0], Join(parts[1..], sep);
      var s := head + [sep] + rest;
      assert Join(parts, sep) == s;
      assert s[|head|] == sep;
      assert s[..|head|] == head;
      IndexOfAfter(head, sep, rest);
      assert s[|head| + 1..] == rest;
      SplitJoin(parts[1..], sep);
      assert [head] + parts[1..] == parts;
    }
  }

  lemma IndexOfAfter(head: string, sep: char, rest: string)
    requires sep !in head
    ensures IndexOf(head + [sep] + rest, sep) == Some(|head|)
  {
    var s := head + [sep] + rest;
    assert s[..|head|] == head;
    assert s[|head|] == sep;
  }

  predicate IsDigit(c: char) {
    '0' <= c <= '9'
  }

  function DigitChar(d: nat): (c: char)
    requires d < 10
    ensures IsDigit(c)
  {
    ('0' as int + d) as char
  }

  function DigitValue(c: char): (d: nat)
    requires IsDigit(c)
    ensures d < 10
  {
    c as int - '0' as int
  }

  /** Decimal rendering of a natural number, as a template literal prints it. */
  function NatToString(n: nat): (s: string)
    ensures |s| >= 1
    ensures forall i :: 0 <= i < |s| ==> IsDigit(s[i])
  {
    if n < 10 then [DigitChar(n)] else NatToString(n / 10) + [DigitChar(n % 10)]
  }

  predicate AllDigits(s: string) {
    forall i :: 0 <= i < |s| ==> IsDigit(s[i])
  }

  /** The value of a non-empty string of decimal digits. */
  function DigitsValue(s: string): nat
    requires |s| >= 1 && AllDigits(s)
  {
    if |s| == 1 then DigitValue(s[0])
    else DigitsValue(s[..|s| - 1]) * 10 + DigitValue(s[|s| - 1])
  }

  /** Reading back a rendered number gives the number. */
  lemma {:induction false} NatToStringRoundTrip(n: nat)
    ensures DigitsValue(NatToString(n)) == n
  {
    if n >= 10 {
      var s := NatToString(n);
      NatToStringRoundTrip(n / 10);
      assert s[..|s| - 1] == NatToString(n / 10);
    }
  }

  /** The number of `s`'s leading characters that are digits of `base`
      (10, or 16 with letters of either case). */
  function LeadingDigits(s: string, base: nat): (k: nat)
    requires base == 10 || base == 16
    ensures k <= |s|
    ensures forall i :: 0 <= i < k ==> IsBaseDigit(s[i], base)
    ensures k == |s| || !IsBaseDigit(s[k], base)
  {
    if s != [] && IsBaseDigit(s[0], base) then 1 + LeadingDigits(s[1..], base) else 0
  }

  predicate IsBaseDigit(c: char, base: nat)
    ensures IsBaseDigit(c, base) ==> IsHexDigit(c)
  {
    if base == 16 then IsHexDigit(c) else IsDigit(c)
  }

  function BaseDigitValue(c: char): (d: nat)
    requires IsHexDigit(c)
    ensures d < 16
  {
    if '0' <= c <= '9' then c as int - '0' as int
    else if 'a' <= c <= 'f' then c as int - 'a' as int + 10
    else c as int - 'A' as int + 10
  }

  function BaseValue(s: string, base: nat): nat
    requires base == 10 || base == 16
    requires forall i :: 0 <= i < |s| ==> IsBaseDigit(s[i], base)
  {
    if s == [] then 0
    else
      var last := s[|s| - 1];
      assert IsBaseDigit(last, base);
      BaseValue(s[..|s| - 1], base) * base + BaseDigitValue(last)
  }

  /** `parseInt(s)` without a radix: skip leading white space, read an
      optional sign, switch to base 16 after a `0x`/`0X` prefix, and read the
      longest run of digits; no digit at all is `NaN`, here `None`. */
  function ParseInt(s: string): Option<int> {
    var t := TrimStart(s);
    var negative := t != [] && t[0] == '-';
    var u := if t != [] && (t[0] == '-' || t[0] == '+') then t[1..] else t;
    var hex := |u| >= 2 && u[0] == '0' && (u[1] == 'x' || u[1] == 'X');
    var base := if hex then 16 else 10;
    var body := if hex then u[2..] else u;
    var k := LeadingDigits(body, base);
    if k == 0 then None
    else
      var v := BaseValue(body[..k], base);
      Some(if negative then -(v as int) else v)
  }

  /** A plain decimal numeral parses to its value. */
  lemma ParseIntOfNumeral(n: nat)
    requires n >= 1
    ensures ParseInt(NatToString(n)) == Some(n)
  {
    var s := NatToString(n);
    assert !IsSpace(s[0]);
    assert TrimStart(s) == s;
    assert s[0] != '-' && s[0] != '+';
    if |s| >= 2 {
      NatToStringNoLeadingZero(n);
    }
    LeadingDigitsAll(s);
    assert s[..|s|] == s;
    DecimalValueAgrees(s);
    NatToStringRoundTrip(n);
  }

  lemma {:induction false} NatToStringNoLeadingZero(n: nat)
    requires n >= 1
    ensures NatToString(n)[0] != '0'
  {
    if n >= 10 {
      NatToStringNoLeadingZero(n / 10);
    }
  }

  lemma {:induction false} LeadingDigitsAll(s: string)
    requires AllDigits(s)
    ensures LeadingDigits(s, 10) == |s|
  {
    if s != [] {
      LeadingDigitsAll(s[1..]);
    }
  }

  lemma {:induction false} DecimalValueAgrees(s: string)
    requires |s| >= 1 && AllDigits(s)
    ensures BaseValue(s, 10) == DigitsValue(s)
  {
    if |s| > 1 {
      DecimalValueAgrees(s[..|s| - 1]);
    } else {
      assert s[..0] == [];
    }
  }
}
