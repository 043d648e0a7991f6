/** String helpers the app and the backend rely on: Kotlin's `isBlank`, `trim`,
    `lowercase`, `uppercase`, `contains(ignoreCase = true)`, `substringBefore`,
    `take`, JavaScript's `startsWith`, and decimal rendering of counters.
    Case mapping and whitespace cover ASCII only. */
module Text {
  import opened Wrappers

  predicate IsWhitespace(c: char) {
    c == ' ' || c == '\t' || c == '\n' || c == '\r' || c == '\U{000B}' || c == '\U{000C}'
  }

  /** Kotlin `isBlank`: empty or whitespace only. */
  predicate IsBlank(s: string) {
    forall i :: 0 <= i < |s| ==> IsWhitespace(s[i])
  }

  function TrimStart(s: string): (r: string)
    ensures |r| <= |s| && r == s[|s| - |r|..]
    ensures r != [] ==> !IsWhitespace(r[0])
    ensures forall i :: 0 <= i < |s| - |r| ==> IsWhitespace(s[i])
  {
    if s != [] && IsWhitespace(s[0]) then TrimStart(s[1..]) else s
  }

  function TrimEnd(s: string): (r: string)
    ensures |r| <= |s| && r == s[..|r|]
    ensures r != [] ==> !IsWhitespace(r[|r| - 1])
    ensures forall i :: |r| <= i < |s| ==> IsWhitespace(s[i])
  {
    if s != [] && IsWhitespace(s[|s| - 1]) then TrimEnd(s[..|s| - 1]) else s
  }

  /** Kotlin `trim()`. */
  function Trim(s: string): string {
    TrimEnd(TrimStart(s))
  }

  /** A trimmed string neither starts nor ends with whitespace, is a slice of the
      input, and is empty exactly when the input is blank. */
  lemma TrimProperties(s: string)
    ensures Trim(s) != [] ==> !IsWhitespace(Trim(s)[0]) && !IsWhitespace(Trim(s)[|Trim(s)| - 1])
    ensures exists i, j :: 0 <= i <= j <= |s| && Trim(s) == s[i..j]
    ensures Trim(s) == [] <==> IsBlank(s)
  {
    var a := TrimStart(s);
    var b := TrimEnd(a);
    assert b == s[|s| - |a|..][..|b|];
    assert s[|s| - |a|..][..|b|] == s[|s| - |a|..|s| - |a| + |b|];
  }

  function LowerChar(c: char): char {
    if 'A' <= c <= 'Z' then (c as int + 32) as char else c
  }

  function UpperChar(c: char): char {
    if 'a' <= c <= 'z' then (c as int - 32) as char else c
  }

  /** Kotlin `lowercase()` (ASCII letters only). */
  function Lower(s: string): (r: string)
    ensures |r| == |s| && forall i :: 0 <= i < |s| ==> r[i] == LowerChar(s[i])
  {
    if s == [] then [] else [LowerChar(s[0])] + Lower(s[1..])
  }

  /** Kotlin `uppercase()` (ASCII letters only). */
  function Upper(s: string): (r: string)
    ensures |r| == |s| && forall i :: 0 <= i < |s| ==> r[i] == UpperChar(s[i])
  {
    if s == [] then [] else [UpperChar(s[0])] + Upper(s[1..])
  }

  predicate StartsWith(s: string, prefix: string) {
    |prefix| <= |s| && s[..|prefix|] == prefix
  }

  /** `s` contains `part` starting at index `i`. */
  predicate OccursAt(s: string, part: string, i: int) {
    0 <= i && i + |part| <= |s| && s[i..i + |part|] == part
  }

  predicate Contains(s: string, part: string) {
    exists i :: 0 <= i <= |s| && OccursAt(s, part, i)
  }

  /** Kotlin `contains(part, ignoreCase = true)`. */
  predicate ContainsIgnoreCase(s: string, part: string) {
    Contains(Lower(s), Lower(part))
  }

  /** Index of the first occurrence of `part` in `s`, if any. */
  function IndexOf(s: string, part: string): (r: Option<nat>)
    requires part != []
    ensures r.Some? ==> OccursAt(s, part, r.value) && forall k :: 0 <= k < r.value ==> !OccursAt(s, part, k)
    ensures r.None? ==> !Contains(s, part)
    decreases |s|
  {
    if |s| < |part| then None
    else if s[..|part|] == part then Some(0)
    else match IndexOf(s[1..], part)
      case None =>
        assert forall k :: 1 <= k ==> (OccursAt(s, part, k) <==> OccursAt(s[1..], part, k - 1));
        None
      case Some(k) =>
        assert forall j :: 1 <= j ==> (OccursAt(s, part, j) <==> OccursAt(s[1..], part, j - 1));
        Some(k + 1)
  }

  /** Kotlin `substringBefore(c)`: the text before the first `c`, or all of `s`. */
  function SubstringBefore(s: string, c: char): (r: string)
    ensures |r| <= |s| && r == s[..|r|]
    ensures c !in r
    ensures |r| < |s| ==> s[|r|] == c
  {
    if s == [] then []
    else if s[0] == c then []
    else [s[0]] + SubstringBefore(s[1..], c)
  }

  /** Kotlin `take(n)`. */
  function Take(s: string, n: nat): (r: string)
    ensures r == if n <= |s| then s[..n] else s
  {
    if n <= |s| then s[..n] else s
  }

  function DigitChar(d: nat): char
    requires d < 10
  {
    "0123456789"[d]
  }

  /** Kotlin's `String.length`: the number of UTF-16 code units, two for a
      character outside the Basic Multilingual Plane (a surrogate pair). */
  function Utf16Length(s: string): (n: nat)
    ensures |s| <= n <= 2 * |s|
  {
    if s == [] then 0 else (if s[0] as int >= 0x1_0000 then 2 else 1) + Utf16Length(s[1..])
  }

  /** Text made only of Basic Multilingual Plane characters has one code
      unit per character. */
  lemma {:induction false} Utf16LengthOfBmp(s: string)
    requires forall i :: 0 <= i < |s| ==> (s[i] as int) < 0x1_0000
    ensures Utf16Length(s) == |s|
  {
    if s != [] {
      Utf16LengthOfBmp(s[1..]);
    }
  }

  /** Decimal rendering of a non-negative counter, as `"$n"` prints it. */
  function NatToString(n: nat): (r: string)
    ensures r != []
    ensures forall i :: 0 <= i < |r| ==> '0' <= r[i] <= '9'
  {
    if n < 10 then [DigitChar(n)] else NatToString(n / 10) + [DigitChar(n % 10)]
  }

  /** `part` occurs in any text that has it as a middle piece. */
  lemma ContainsMiddle(a: string, part: string, b: string)
    ensures Contains(a + part + b, part)
  {
    assert OccursAt(a + part + b, part, |a|);
  }

  /** Text found in `s` is found in any text that has `s` as a middle piece. */
  lemma ContainsWithin(a: string, s: string, b: string, part: string)
    requires Contains(s, part)
    ensures Contains(a + s + b, part)
  {
    var i :| 0 <= i <= |s| && OccursAt(s, part, i);
    assert (a + s + b)[|a| + i..|a| + i + |part|] == s[i..i + |part|];
    assert OccursAt(a + s + b, part, |a| + i);
  }

  /** Kotlin `joinToString(sep)`. */
  function Join(parts: seq<string>, sep: string): string {
    if parts == [] then []
    else if |parts| == 1 then parts[0]
    else parts[0] + sep + Join(parts[1..], sep)
  }

  /** Every piece appears in the joined text. */
  lemma {:induction false} JoinContainsParts(parts: seq<string>, sep: string, i: int)
    requires 0 <= i < |parts|
    ensures Contains(Join(parts, sep), parts[i])
  {
    if |parts| == 1 {
      ContainsMiddle([], parts[0], []);
      assert [] + parts[0] + [] == parts[0];
    } else if i == 0 {
      ContainsMiddle([], parts[0], sep + Join(parts[1..], sep));
      assert [] + parts[0] + (sep + Join(parts[1..], sep)) == Join(parts, sep);
    } else {
      JoinContainsParts(parts[1..], sep, i - 1);
      var j :| 0 <= j <= |Join(parts[1..], sep)| && OccursAt(Join(parts[1..], sep), parts[i], j);
      var pre := parts[0] + sep;
      assert Join(parts, sep) == pre + Join(parts[1..], sep);
      assert OccursAt(Join(parts, sep), parts[i], |pre| + j);
    }
  }
}
