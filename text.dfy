/** The handful of Python `str` operations the core relies on, over `seq<char>`. */
module Text {
  import opened Wrappers

  /** Python's `str.isspace`: the characters `str.strip()` and `str.split()` treat as whitespace. */
  predicate IsSpace(c: char) {
    c == ' ' || c == '\t' || c == '\n' || c == '\r' || c == '\U{0B}' || c == '\U{0C}'
    || ('\U{1C}' <= c <= '\U{1F}') || c == '\U{85}' || c == '\U{A0}' || c == '\U{1680}'
    || ('\U{2000}' <= c <= '\U{200A}') || c == '\U{2028}' || c == '\U{2029}' || c == '\U{202F}'
    || c == '\U{205F}' || c == '\U{3000}'
  }

  /** Every character is whitespace (the empty string included). */
  predicate IsBlank(s: string) {
    forall i :: 0 <= i < |s| ==> IsSpace(s[i])
  }

  /** How many whitespace characters `s` starts with. */
  function LeadingSpaces(s: string): (n: nat)
    ensures n <= |s|
    ensures forall i :: 0 <= i < n ==> IsSpace(s[i])
    ensures n == |s| || !IsSpace(s[n])
  {
    if |s| > 0 && IsSpace(s[0]) then 1 + LeadingSpaces(s[1..]) else 0
  }

  /** How many whitespace characters `s` ends with. */
  function TrailingSpaces(s: string): (n: nat)
    ensures n <= |s|
    ensures forall i :: |s| - n <= i < |s| ==> IsSpace(s[i])
    ensures n == |s| || !IsSpace(s[|s| - n - 1])
  {
    if |s| > 0 && IsSpace(s[|s| - 1]) then 1 + TrailingSpaces(s[..|s| - 1]) else 0
  }

  /** `str.lstrip()`: drops the leading whitespace. */
  function LStrip(s: string): (r: string)
    ensures |r| <= |s| && r == s[|s| - |r|..]
    ensures IsBlank(s[..|s| - |r|])
    ensures r == [] || !IsSpace(r[0])
  {
    s[LeadingSpaces(s)..]
  }

  /** `str.rstrip()`: drops the trailing whitespace. */
  function RStrip(s: string): (r: string)
    ensures |r| <= |s| && r == s[..|r|]
    ensures IsBlank(s[|r|..])
    ensures r == [] || !IsSpace(r[|r| - 1])
  {
    s[..|s| - TrailingSpaces(s)]
  }

  /** `str.strip()`. */
  function Strip(s: string): string {
    RStrip(LStrip(s))
  }

  /** `s.strip()` is empty exactly when `s` holds nothing but whitespace. */
  lemma {:induction false} StripEmptyIffBlank(s: string)
    ensures Strip(s) == [] <==> IsBlank(s)
  {
    var l := LStrip(s);
    if Strip(s) == [] {
      assert l[0..] == l;
      assert l == [];
      assert s[..|s|] == s;
    } else {
      assert l != [];
      assert s[|s| - |l|] == l[0];
    }
  }

  /** ASCII lower-casing; every other character is left as it is. */
  function LowerChar(c: char): char {
    if 'A' <= c <= 'Z' then (c as int - 'A' as int + 'a' as int) as char else c
  }

  /** `str.lower()`, restricted to ASCII letters. */
  function Lower(s: string): (r: string)
    ensures |r| == |s|
  {
    seq(|s|, i requires 0 <= i < |s| => LowerChar(s[i]))
  }

  predicate StartsWith(s: string, p: string) {
    |p| <= |s| && s[..|p|] == p
  }

  predicate EndsWith(s: string, p: string) {
    |p| <= |s| && s[|s| - |p|..] == p
  }

  /** Python's `p in s` for strings. */
  predicate Contains(s: string, p: string)
    decreases |s|
  {
    StartsWith(s, p) || (|s| > 0 && Contains(s[1..], p))
  }

  /** `Contains` holds exactly when `p` occurs at some offset of `s`. */
  lemma {:induction false} ContainsAt(s: string, p: string, k: nat)
    requires k + |p| <= |s| && s[k..k + |p|] == p
    ensures Contains(s, p)
    decreases k
  {
    if k == 0 {
      assert s[..|p|] == s[k..k + |p|];
    } else {
      assert s[1..][k - 1..k - 1 + |p|] == s[k..k + |p|];
      ContainsAt(s[1..], p, k - 1);
    }
  }

  /** `Contains` finds an offset at which the pattern occurs. */
  lemma {:induction false} ContainsOffset(s: string, p: string) returns (k: nat)
    requires Contains(s, p)
    ensures k + |p| <= |s| && s[k..k + |p|] == p
    decreases |s|
  {
    if StartsWith(s, p) {
      k := 0;
    } else {
      var j := ContainsOffset(s[1..], p);
      assert s[1..][j..j + |p|] == s[j + 1..j + 1 + |p|];
      k := j + 1;
    }
  }

  /** An occurrence of an occurrence is an occurrence. */
  lemma ContainsTransitive(s: string, p: string, q: string)
    requires Contains(s, p) && Contains(p, q)
    ensures Contains(s, q)
  {
    var i := ContainsOffset(s, p);
    var j := ContainsOffset(p, q);
    forall t | 0 <= t < |q| ensures s[i + j + t] == q[t] {
      assert s[i + j + t] == s[i..i + |p|][j + t] == p[j..j + |q|][t];
    }
    ContainsAt(s, q, i + j);
  }

  /** The part between a fixed head and a fixed tail is determined by the whole. */
  lemma MiddleDetermined(head: string, m1: string, m2: string, tail: string)
    requires head + m1 + tail == head + m2 + tail
    ensures m1 == m2
  {
    var s := head + m1 + tail;
    assert m1 == s[|head|..|s| - |tail|];
    assert m2 == s[|head|..|s| - |tail|];
  }

  /** `s.find(c)`: the first index of `c`, or -1. */
  function Find(s: string, c: char): (r: int)
    ensures -1 <= r < |s|
    ensures r == -1 <==> c !in s
    ensures r >= 0 ==> s[r] == c && c !in s[..r]
  {
    if |s| == 0 then -1
    else if s[0] == c then 0
    else
      var k := Find(s[1..], c);
      assert s[1..][..if k < 0 then 0 else k] == s[1..if k < 0 then 1 else k + 1];
      if k == -1 then -1 else k + 1
  }

  /** `s.rfind(c)`: the last index of `c`, or -1. */
  function RFind(s: string, c: char): (r: int)
    ensures -1 <= r < |s|
    ensures r == -1 <==> c !in s
    ensures r >= 0 ==> s[r] == c && c !in s[r + 1..]
  {
    if |s| == 0 then -1
    else if s[|s| - 1] == c then |s| - 1
    else
      var k := RFind(s[..|s| - 1], c);
      assert s[..|s| - 1][k + 1..] + [s[|s| - 1]] == s[k + 1..];
      k
  }

  /** `s[i:j]` for indexes within the string: empty when `j <= i`. */
  function Slice(s: string, i: nat, j: nat): (r: string)
    requires i <= |s| && j <= |s|
  {
    if i < j then s[i..j] else ""
  }

  /** `sep.join(parts)`. */
  function Join(parts: seq<string>, sep: string): string {
    if |parts| == 0 then ""
    else if |parts| == 1 then parts[0]
    else parts[0] + sep + Join(parts[1..], sep)
  }

  /** `s.split(sep)` for a one-character separator: never an empty list. */
  function Split(s: string, sep: char): (r: seq<string>)
    ensures |r| >= 1
    ensures forall k :: 0 <= k < |r| ==> sep !in r[k]
    decreases |s|
  {
    var i := Find(s, sep);
    if i == -1 then [s] else [s[..i]] + Split(s[i + 1..], sep)
  }

  /** Splitting `head + sep + rest` yields `head` first when `head` holds no separator. */
  lemma SplitFirst(head: string, sep: char, rest: string)
    requires sep !in head
    ensures Split(head + [sep] + rest, sep) == [head] + Split(rest, sep)
  {
    var s := head + [sep] + rest;
    var i := |head|;
    assert s[..i] == head;
    assert s[i + 1..] == rest;
    assert s[i] == sep;
    assert forall j :: 0 <= j < i ==> s[j] == head[j];
    var k := Find(s, sep);
    assert forall j :: 0 <= j < k ==> s[..k][j] == s[j];
  }

  /** Splitting a joined list on the separator gives the list back, when no part holds the separator. */
  lemma {:induction false} SplitJoin(parts: seq<string>, sep: char)
    requires |parts| >= 1
    requires forall k :: 0 <= k < |parts| ==> sep !in parts[k]
    ensures Split(Join(parts, [sep]), sep) == parts
  {
    if |parts| == 1 {
      assert Join(parts, [sep]) == parts[0];
    } else {
      var rest := Join(parts[1..], [sep]);
      assert Join(parts, [sep]) == parts[0] + [sep] + rest;
      SplitFirst(parts[0], sep, rest);
      SplitJoin(parts[1..], sep);
      assert [parts[0]] + parts[1..] == parts;
    }
  }

  /** The longest prefix of `s` that holds no whitespace. */
  function Word(s: string): (w: string)
    ensures StartsWith(s, w)
    ensures forall i :: 0 <= i < |w| ==> !IsSpace(w[i])
    ensures |w| == |s| || IsSpace(s[|w|])
  {
    if |s| == 0 || IsSpace(s[0]) then "" else [s[0]] + Word(s[1..])
  }

  /** `s.split()[0]`: the first whitespace-separated token, or `None` (an `IndexError`) when there is none. */
  function FirstToken(s: string): (r: Option<string>)
    ensures r.None? <==> IsBlank(s)
    ensures r.Some? ==> r.value != [] && StartsWith(LStrip(s), r.value)
    ensures r.Some? ==> forall i :: 0 <= i < |r.value| ==> !IsSpace(r.value[i])
    ensures r.Some? ==> |r.value| == |LStrip(s)| || IsSpace(LStrip(s)[|r.value|])
  {
    var t := LStrip(s);
    if t == [] then
      assert s[..|s| - |t|] == s;
      None
    else
      assert !IsBlank(s) by { assert s[|s| - |t|] == t[0]; }
      Some(Word(t))
  }

  function DigitChar(d: nat): char
    requires d < 10
  {
    ('0' as int + d) as char
  }

  /** Decimal rendering of a natural number. */
  function NatToString(n: nat): (r: string)
    ensures |r| >= 1
    ensures forall i :: 0 <= i < |r| ==> '0' <= r[i] <= '9'
    ensures n == 0 || r[0] != '0'
  {
    if n < 10 then [DigitChar(n)] else NatToString(n / 10) + [DigitChar(n % 10)]
  }

  /** The number a string of decimal digits denotes. */
  function DigitsValue(s: string): nat
    requires forall i :: 0 <= i < |s| ==> '0' <= s[i] <= '9'
  {
    if s == [] then 0 else DigitsValue(s[..|s| - 1]) * 10 + (s[|s| - 1] as int - '0' as int)
  }

  /** Reading the decimal rendering back gives the number. */
  lemma {:induction false} NatToStringValue(n: nat)
    ensures DigitsValue(NatToString(n)) == n
  {
    if n >= 10 {
      var r := NatToString(n);
      assert r[..|r| - 1] == NatToString(n / 10);
      NatToStringValue(n / 10);
    }
  }

  /** `str(i)` for a Python integer. */
  function IntToString(i: int): string {
    if i < 0 then "-" + NatToString(-i) else NatToString(i)
  }

  /** `str(i)` is the digits of `i`, after a minus sign when `i` is negative. */
  lemma IntToStringValue(i: int)
    ensures var r := IntToString(i);
      if i >= 0 then
        (forall k :: 0 <= k < |r| ==> '0' <= r[k] <= '9') && DigitsValue(r) == i && (i == 0 || r[0] != '0')
      else
        |r| >= 2 && r[0] == '-' && (forall k :: 1 <= k < |r| ==> '0' <= r[k] <= '9') && DigitsValue(r[1..]) == -i
        && r[1] != '0'
  {
    if i >= 0 {
      NatToStringValue(i);
    } else {
      NatToStringValue(-i);
      assert IntToString(i)[1..] == NatToString(-i);
    }
  }
}
