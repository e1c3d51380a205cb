/** The string primitives the modelled code relies on, with Python's meaning. */
module Text {

  datatype Option<+T> = None | Some(value: T)

  // ---------------------------------------------------------------- searching

  ghost predicate At(s: string, pat: string, i: int) {
    0 <= i && i + |pat| <= |s| && s[i..i + |pat|] == pat
  }

  ghost predicate Contains(s: string, pat: string) {
    exists i :: At(s, pat, i)
  }

  /** `s.find(pat, from)`: the first occurrence at or after `from`, or -1. */
  function FindFrom(s: string, pat: string, from: nat): (r: int)
    ensures r == -1 ==> forall i :: from <= i ==> !At(s, pat, i)
    ensures r != -1 ==> from <= r && At(s, pat, r) && forall i :: from <= i < r ==> !At(s, pat, i)
    decreases |s| - from
  {
    if from + |pat| > |s| then -1
    else if s[from..from + |pat|] == pat then from
    else if from == |s| then -1
    else FindFrom(s, pat, from + 1)
  }

  /** `s.rfind(pat)`: the last occurrence, or -1. */
  function RFind(s: string, pat: string): (r: int)
    ensures r == -1 ==> !Contains(s, pat)
    ensures r != -1 ==> At(s, pat, r) && forall i :: r < i ==> !At(s, pat, i)
  {
    if |pat| > |s| then -1 else RFindBelow(s, pat, |s| - |pat|)
  }

  function RFindBelow(s: string, pat: string, high: nat): (r: int)
    requires high + |pat| <= |s|
    ensures r == -1 ==> forall i :: i <= high ==> !At(s, pat, i)
    ensures r != -1 ==> 0 <= r <= high && At(s, pat, r) && forall i :: r < i <= high ==> !At(s, pat, i)
  {
    if s[high..high + |pat|] == pat then high
    else if high == 0 then -1
    else RFindBelow(s, pat, high - 1)
  }

  lemma AtIndex(s: string, pat: string, i: int, j: int)
    requires 0 <= j < |pat|
    ensures At(s, pat, i) ==> s[i + j] == pat[j]
  {
  }

  /** Occurrences inside a prefix are occurrences in the whole, and the other way around. */
  lemma AtPrefix(s: string, k: nat, pat: string, i: int)
    requires k <= |s|
    ensures At(s[..k], pat, i) <==> At(s, pat, i) && i + |pat| <= k
  {
  }

  lemma AtShift(pre: string, s: string, pat: string, i: int)
    requires 0 <= i
    ensures At(pre + s, pat, |pre| + i) <==> At(s, pat, i)
  {
  }

  // ---------------------------------------------------------------- stripping

  /** `str.isspace` on one character. */
  predicate IsSpace(c: char) {
    '\U{0009}' <= c <= '\U{000d}' || '\U{001c}' <= c <= '\U{0020}' || c == '\U{0085}' || c == '\U{00a0}'
    || c == '\U{1680}'
    || '\U{2000}' <= c <= '\U{200a}' || c == '\U{2028}' || c == '\U{2029}' || c == '\U{202f}' || c == '\U{205f}'
    || c == '\U{3000}'
  }

  /** The blank characters one by one: tab to carriage return, the four separators and the space, next line, no-break
      space and the other Unicode spaces and separators. */
  lemma SpacesAre(c: char)
    ensures IsSpace(c) <==>
            c in {'\t', '\n', '\U{000b}', '\U{000c}', '\r', '\U{001c}', '\U{001d}', '\U{001e}', '\U{001f}', ' ',
                  '\U{0085}', '\U{00a0}', '\U{1680}', '\U{2000}', '\U{2001}', '\U{2002}', '\U{2003}', '\U{2004}',
                  '\U{2005}', '\U{2006}', '\U{2007}', '\U{2008}', '\U{2009}', '\U{200a}', '\U{2028}', '\U{2029}',
                  '\U{202f}', '\U{205f}', '\U{3000}'}
  {
  }

  function Strip(s: string): string {
    if s == "" then ""
    else if IsSpace(s[0]) then Strip(s[1..])
    else if IsSpace(s[|s| - 1]) then Strip(s[..|s| - 1])
    else s
  }

  lemma {:induction false} StripIsBlankIff(s: string)
    ensures Strip(s) == "" <==> forall c :: c in s ==> IsSpace(c)
    decreases |s|
  {
    if s == "" {
    } else {
      if IsSpace(s[0]) {
        StripIsBlankIff(s[1..]);
        assert s == [s[0]] + s[1..];
      } else if IsSpace(s[|s| - 1]) {
        StripIsBlankIff(s[..|s| - 1]);
        assert s[0] in s[..|s| - 1];
      } else {
        assert s[0] in s;
      }
    }
  }

  /** Blank characters in front of `from` and from `to` on, and none at the ends of what is between. */
  ghost predicate BlankOutside(s: string, from: nat, to: nat) {
    && from <= to <= |s|
    && (forall i :: 0 <= i < from || to <= i < |s| ==> IsSpace(s[i]))
    && (from < to ==> !IsSpace(s[from]) && !IsSpace(s[to - 1]))
  }

  lemma BlankInFront(s: string, from: nat, to: nat)
    requires s != "" && IsSpace(s[0]) && BlankOutside(s[1..], from, to)
    ensures BlankOutside(s, from + 1, to + 1) && s[from + 1..to + 1] == s[1..][from..to]
  {
    forall k | 1 <= k < |s| && (k < from + 1 || to + 1 <= k) ensures IsSpace(s[k]) {
      assert s[k] == s[1..][k - 1];
    }
    assert s == [s[0]] + s[1..];
    assert ([s[0]] + s[1..])[from + 1..to + 1] == s[1..][from..to];
  }

  lemma BlankBehind(s: string, from: nat, to: nat)
    requires s != "" && IsSpace(s[|s| - 1]) && BlankOutside(s[..|s| - 1], from, to)
    ensures BlankOutside(s, from, to) && s[from..to] == s[..|s| - 1][from..to]
  {
  }

  /** What is left of a text: the blank characters go from both ends, and nothing else. */
  lemma {:induction false} StripMeaning(s: string) returns (from: nat, to: nat)
    ensures BlankOutside(s, from, to) && Strip(s) == s[from..to]
    decreases |s|
  {
    if s == "" {
      from, to := 0, 0;
    } else if IsSpace(s[0]) {
      var i, j := StripMeaning(s[1..]);
      BlankInFront(s, i, j);
      from, to := i + 1, j + 1;
    } else if IsSpace(s[|s| - 1]) {
      from, to := StripMeaning(s[..|s| - 1]);
      BlankBehind(s, from, to);
    } else {
      from, to := 0, |s|;
    }
  }

  // ---------------------------------------------------------------- joining

  /** `sep.join(parts)`. */
  function Join(sep: string, parts: seq<string>): string {
    if parts == [] then ""
    else if |parts| == 1 then parts[0]
    else Join(sep, parts[..|parts| - 1]) + sep + parts[|parts| - 1]
  }

  lemma {:induction false} JoinCons(sep: string, parts: seq<string>)
    requires |parts| > 1
    ensures Join(sep, parts) == parts[0] + sep + Join(sep, parts[1..])
  {
    var n := |parts| - 1;
    if n > 1 {
      JoinCons(sep, parts[..n]);
      assert parts[..n][1..] == parts[1..][..n - 1] && parts[1..][n - 1] == parts[n];
    }
  }

  // ---------------------------------------------------------------- decimal numbers

  predicate IsDigit(c: char) {
    '0' <= c <= '9'
  }

  function Decimal(n: nat): string {
    if n < 10 then [('0' as int + n) as char] else Decimal(n / 10) + [('0' as int + n % 10) as char]
  }

  /** The digits part of `int(text)`: decimal digits, single underscores allowed between them. */
  function ParseDigits(t: string): Option<nat> {
    if t == "" || !IsDigit(t[|t| - 1]) then None
    else
      var d := t[|t| - 1] as int - '0' as int;
      if |t| == 1 then Some(d)
      else
        var higher := if t[|t| - 2] == '_' then ParseDigits(t[..|t| - 2]) else ParseDigits(t[..|t| - 1]);
        if higher.None? then None else Some(10 * higher.value + d)
  }

  /** Python's `int(text)` on ASCII text; None stands for its ValueError. */
  function ParseInt(text: string): Option<int> {
    var t := Strip(text);
    if t == "" then None
    else if t[0] == '-' then
      var digits: Option<int> := ParseDigits(t[1..]);
      if digits.Some? then Some(-digits.value) else None
    else ParseDigits(if t[0] == '+' then t[1..] else t)
  }

  lemma {:induction false} DecimalDigits(n: nat)
    ensures Decimal(n) != "" && forall c :: c in Decimal(n) ==> IsDigit(c)
    ensures ParseDigits(Decimal(n)) == Some(n)
  {
    if n >= 10 {
      DecimalDigits(n / 10);
      var d := Decimal(n);
      assert d[..|d| - 1] == Decimal(n / 10);
      assert d[|d| - 2] in Decimal(n / 10);
      assert '0' as int + n % 10 <= '9' as int;
    }
  }

  /** Only digits and underscores make digits. */
  lemma {:induction false} ParsedDigits(t: string)
    requires ParseDigits(t).Some?
    ensures forall c :: c in t ==> IsDigit(c) || c == '_'
  {
    if |t| > 1 {
      var k := if t[|t| - 2] == '_' then 2 else 1;
      ParsedDigits(t[..|t| - k]);
      assert t == t[..|t| - k] + t[|t| - k..];
    }
  }

  /** What is read as a number holds only digits, underscores and signs, blanks around it aside. */
  lemma ParsedCharacters(text: string)
    requires ParseInt(text).Some?
    ensures forall c :: c in Strip(text) ==> IsDigit(c) || c in {'_', '+', '-'}
  {
    var t := Strip(text);
    if t[0] == '-' || t[0] == '+' {
      ParsedDigits(t[1..]);
      assert t == [t[0]] + t[1..];
    } else {
      ParsedDigits(t);
    }
  }

  /** A number is printed as its higher digits and its last one. */
  lemma DecimalAppends(n: nat, digit: nat)
    requires n > 0 && digit < 10
    ensures Decimal(10 * n + digit) == Decimal(n) + [('0' as int + digit) as char]
  {
    assert (10 * n + digit) / 10 == n && (10 * n + digit) % 10 == digit;
  }

  /** Printing and parsing a number is the identity. */
  lemma DecimalRoundTrip(n: nat)
    ensures ParseInt(Decimal(n)) == Some(n)
  {
    DecimalDigits(n);
    var d := Decimal(n);
    assert d[0] in d && d[|d| - 1] in d;
    assert Strip(d) == d;
  }

  lemma SignedRoundTrip(n: nat)
    ensures ParseInt("-" + Decimal(n)).Some? && ParseInt("-" + Decimal(n)).value + n == 0
    ensures ParseInt("+" + Decimal(n)) == Some(n)
  {
    DecimalDigits(n);
    var d := Decimal(n);
    assert d[|d| - 1] in d;
    assert Strip("-" + d) == "-" + d && ("-" + d)[1..] == d;
    assert Strip("+" + d) == "+" + d && ("+" + d)[1..] == d;
  }
}
