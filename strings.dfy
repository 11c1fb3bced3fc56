/** The JavaScript string primitives the core is written with: `includes`/`indexOf`,
    `replace` with a string pattern, `split`, `trim`, `startsWith`, `join`, and the
    decimal rendering of a non-negative integer in a template literal. */
module Strings {
  import opened Types

  /** `pat` occurs in `s` starting at index `k`. */
  predicate OccursAt(s: string, pat: string, k: nat) {
    k + |pat| <= |s| && s[k..k + |pat|] == pat
  }

  /** `s.indexOf(pat, from)`, with None for -1. */
  function IndexOfFrom(s: string, pat: string, from: nat): (r: Option<nat>)
    requires from <= |s|
    ensures r.Some? ==> from <= r.value && OccursAt(s, pat, r.value)
    ensures r.Some? ==> forall k :: from <= k < r.value ==> !OccursAt(s, pat, k)
    ensures r.None? ==> forall k :: from <= k ==> !OccursAt(s, pat, k)
    decreases |s| - from
  {
    if OccursAt(s, pat, from) then Some(from)
    else if from == |s| then None
    else IndexOfFrom(s, pat, from + 1)
  }

  /** `s.indexOf(pat)`: the first occurrence. */
  function IndexOf(s: string, pat: string): (r: Option<nat>)
    ensures r.Some? ==> OccursAt(s, pat, r.value)
    ensures r.Some? ==> forall k: nat :: k < r.value ==> !OccursAt(s, pat, k)
    ensures r.None? ==> forall k: nat :: !OccursAt(s, pat, k)
  {
    IndexOfFrom(s, pat, 0)
  }

  /** The first occurrence is the unique occurrence with none before it. */
  lemma IndexOfIs(s: string, pat: string, i: nat)
    requires OccursAt(s, pat, i)
    requires forall k: nat :: k < i ==> !OccursAt(s, pat, k)
    ensures IndexOf(s, pat) == Some(i)
  {
  }

  /** `s.includes(pat)`. */
  predicate Contains(s: string, pat: string) {
    IndexOf(s, pat).Some?
  }

  /** A string built around `pat` includes it. */
  lemma ContainsInMiddle(a: string, pat: string, b: string)
    ensures Contains(a + pat + b, pat)
  {
    assert (a + pat + b)[|a|..|a| + |pat|] == pat;
    assert OccursAt(a + pat + b, pat, |a|);
  }

  /** `s.replace(pat, rep)` with a string pattern: only the first occurrence is replaced
      (the replacement strings used by the core contain no `$` patterns). */
  function ReplaceFirst(s: string, pat: string, rep: string): (r: string)
    ensures !Contains(s, pat) ==> r == s
    ensures Contains(s, pat) ==>
      var i := IndexOf(s, pat).value;
      |r| == |s| - |pat| + |rep| && r[..i] == s[..i] && r[i..i + |rep|] == rep && r[i + |rep|..] == s[i + |pat|..]
  {
    match IndexOf(s, pat)
    case None => s
    case Some(i) => s[..i] + rep + s[i + |pat|..]
  }

  /** An occurrence in a prefix is an occurrence in the whole string. */
  lemma OccursInPrefix(s: string, pat: string, j: nat, k: nat)
    requires j <= |s| && OccursAt(s[..j], pat, k)
    ensures OccursAt(s, pat, k)
  {
    assert s[..j][k..k + |pat|] == s[k..k + |pat|];
  }

  /** `s.split(sep)[1]`, for a non-empty separator: the text between the first and the second
      occurrence of `sep` (or to the end), or None when `sep` does not occur (fewer than two parts). */
  function SecondPart(s: string, sep: string): (r: Option<string>)
    requires sep != ""
    ensures r.None? <==> !Contains(s, sep)
    ensures r.Some? ==> !Contains(r.value, sep)
    ensures r.Some? ==> var rest := s[IndexOf(s, sep).value + |sep|..];
      r.value <= rest && (r.value == rest || OccursAt(rest, sep, |r.value|))
  {
    match IndexOf(s, sep)
    case None => None
    case Some(i) =>
      var rest := s[i + |sep|..];
      match IndexOf(rest, sep)
      case None => Some(rest)
      case Some(j) =>
        assert !Contains(rest[..j], sep) by {
          forall k: nat ensures !OccursAt(rest[..j], sep, k) {
            if OccursAt(rest[..j], sep, k) {
              OccursInPrefix(rest, sep, j, k);
            }
          }
        }
        Some(rest[..j])
  }

  /** The characters `String.prototype.trim` removes: ECMAScript WhiteSpace (tab, vertical tab,
      form feed, space, no-break space, zero width no-break space and the Unicode Zs category)
      and LineTerminator. */
  predicate IsJsSpace(c: char) {
    c == '\t' || c == '\U{000B}' || c == '\U{000C}' || c == ' ' || c == '\U{00A0}' || c == '\U{FEFF}'
    || c == '\U{1680}' || ('\U{2000}' <= c <= '\U{200A}') || c == '\U{202F}' || c == '\U{205F}' || c == '\U{3000}'
    || IsLineTerminator(c)
  }

  /** ECMAScript LineTerminator: what a regular-expression `.` does not match. */
  predicate IsLineTerminator(c: char) {
    c == '\n' || c == '\r' || c == '\U{2028}' || c == '\U{2029}'
  }

  predicate AllSpace(s: string) {
    forall i :: 0 <= i < |s| ==> IsJsSpace(s[i])
  }

  function TrimStart(s: string): (r: string)
    ensures |r| <= |s| && r == s[|s| - |r|..]
    ensures AllSpace(s[..|s| - |r|])
    ensures r != [] ==> !IsJsSpace(r[0])
  {
    if s != [] && IsJsSpace(s[0]) then
      var r := TrimStart(s[1..]);
      assert s[..|s| - |r|] == [s[0]] + s[1..][..|s| - 1 - |r|];
      r
    else s
  }

  function TrimEnd(s: string): (r: string)
    ensures |r| <= |s| && r == s[..|r|]
    ensures AllSpace(s[|r|..])
    ensures r != [] ==> !IsJsSpace(r[|r| - 1])
  {
    if s != [] && IsJsSpace(s[|s| - 1]) then
      var r := TrimEnd(s[..|s| - 1]);
      assert s[|r|..] == s[..|s| - 1][|r|..] + [s[|s| - 1]];
      r
    else s
  }

  /** `s.trim()`. */
  function Trim(s: string): string {
    TrimEnd(TrimStart(s))
  }

  /** A trimmed string is part of the original, is empty exactly when the original is all
      white space, and neither starts nor ends with white space. */
  lemma TrimProperties(s: string)
    ensures |Trim(s)| <= |s|
    ensures Trim(s) == [] <==> AllSpace(s)
    ensures Trim(s) != [] ==> !IsJsSpace(Trim(s)[0]) && !IsJsSpace(Trim(s)[|Trim(s)| - 1])
  {
    var t := TrimStart(s);
    TrimStartEmpty(s);
    TrimEndEmpty(t);
    assert t != [] ==> !IsJsSpace(t[0]);
    var r := TrimEnd(t);
    if r != [] {
      assert r[0] == t[0];
    }
  }

  /** TrimStart empties exactly the all-space strings. */
  lemma TrimStartEmpty(s: string)
    ensures TrimStart(s) == [] <==> AllSpace(s)
  {
    var t := TrimStart(s);
    if t == [] {
      assert s[..|s| - |t|] == s;
    } else {
      assert t[0] == s[|s| - |t|];
    }
  }

  /** TrimEnd empties exactly the all-space strings. */
  lemma TrimEndEmpty(s: string)
    ensures TrimEnd(s) == [] <==> AllSpace(s)
  {
    var r := TrimEnd(s);
    if r == [] {
      assert s[|r|..] == s;
    } else {
      assert r[|r| - 1] == s[|r| - 1];
    }
  }

  /** `!s.trim()`: the string is all white space, which by TrimProperties is exactly when it
      trims to "". */
  predicate IsBlank(s: string) {
    AllSpace(s)
  }

  /** `a.join(sep)`. */
  function Join(parts: seq<string>, sep: string): (r: string)
    ensures parts == [] ==> r == []
    ensures |parts| == 1 ==> r == parts[0]
    ensures |parts| > 1 ==> r == parts[0] + sep + Join(parts[1..], sep)
  {
    if parts == [] then []
    else if |parts| == 1 then parts[0]
    else parts[0] + sep + Join(parts[1..], sep)
  }

  /** Five parts joined: the parts in order, separated by sep. */
  lemma JoinFive(p: seq<string>)
    requires |p| == 5
    ensures Join(p, ",") == p[0] + "," + p[1] + "," + p[2] + "," + p[3] + "," + p[4]
  {
    assert p[1..][1..][1..][1..] == [p[4]];
    assert Join(p[3..], ",") == p[3] + "," + p[4] by { assert p[3..][1..] == [p[4]]; }
    assert p[2..][1..] == p[3..];
    assert p[1..][1..] == p[2..];
  }

  /** Every character of the joined string comes from a part or from the separator. */
  lemma {:induction false} JoinChars(parts: seq<string>, sep: string, ok: char -> bool)
    requires forall i, k :: 0 <= i < |parts| && 0 <= k < |parts[i]| ==> ok(parts[i][k])
    requires forall k :: 0 <= k < |sep| ==> ok(sep[k])
    ensures forall k :: 0 <= k < |Join(parts, sep)| ==> ok(Join(parts, sep)[k])
  {
    if |parts| > 1 {
      JoinChars(parts[1..], sep, ok);
      var tail := Join(parts[1..], sep);
      var r := parts[0] + sep + tail;
      forall k | 0 <= k < |r| ensures ok(r[k]) {
        if k < |parts[0]| {
          assert r[k] == parts[0][k];
        } else if k < |parts[0]| + |sep| {
          assert r[k] == sep[k - |parts[0]|];
        } else {
          assert r[k] == tail[k - |parts[0]| - |sep|];
        }
      }
    } else if |parts| == 1 {
      assert forall k :: 0 <= k < |parts[0]| ==> ok(parts[0][k]);
    }
  }

  predicate IsDigit(c: char) {
    '0' <= c <= '9'
  }

  function DigitChar(d: nat): (c: char)
    requires d < 10
    ensures IsDigit(c)
  {
    "0123456789"[d]
  }

  /** The decimal text of a non-negative integer, as a template literal writes it. */
  function NatToString(n: nat): (r: string)
    ensures |r| >= 1
    ensures forall i :: 0 <= i < |r| ==> IsDigit(r[i])
    ensures r[0] == '0' ==> n == 0
  {
    if n < 10 then [DigitChar(n)] else NatToString(n / 10) + [DigitChar(n % 10)]
  }
}
