/**
 * String operations the passes use, on `seq<char>`.  Case mapping covers the
 * ASCII letters only; JavaScript's `trim` whitespace is taken as the ASCII
 * white-space characters.
 */
module Strings {

  predicate IsUpper(c: char) {
    'A' <= c <= 'Z'
  }

  predicate IsLower(c: char) {
    'a' <= c <= 'z'
  }

  function ToLowerChar(c: char): (r: char)
    ensures !IsUpper(r)
    ensures !IsUpper(c) ==> r == c
  {
    if IsUpper(c) then (c as int + 32) as char else c
  }

  function ToUpperChar(c: char): (r: char)
    ensures !IsLower(r)
    ensures !IsLower(c) ==> r == c
  {
    if IsLower(c) then (c as int - 32) as char else c
  }

  /** `s.toLowerCase()` */
  function ToLower(s: string): (r: string)
    ensures |r| == |s|
    ensures forall i :: 0 <= i < |s| ==> r[i] == ToLowerChar(s[i])
  {
    seq(|s|, i requires 0 <= i < |s| => ToLowerChar(s[i]))
  }

  predicate StartsWith(s: string, prefix: string) {
    |prefix| <= |s| && s[..|prefix|] == prefix
  }

  predicate EndsWith(s: string, suffix: string) {
    |suffix| <= |s| && s[|s| - |suffix|..] == suffix
  }

  predicate OccursAt(s: string, sub: string, i: nat) {
    i + |sub| <= |s| && s[i..i + |sub|] == sub
  }

  /** `s.indexOf(sub)`: the first position where `sub` occurs, or -1. */
  function IndexOf(s: string, sub: string): (r: int)
    ensures -1 <= r <= |s|
    ensures r >= 0 ==> OccursAt(s, sub, r) && forall j: nat :: j < r ==> !OccursAt(s, sub, j)
    ensures r == -1 <==> forall j: nat :: !OccursAt(s, sub, j)
  {
    IndexFrom(s, sub, 0)
  }

  function IndexFrom(s: string, sub: string, from: nat): (r: int)
    requires from <= |s| + 1
    ensures -1 <= r <= |s|
    ensures r >= 0 ==> from <= r && OccursAt(s, sub, r) && forall j: nat :: from <= j < r ==> !OccursAt(s, sub, j)
    ensures r == -1 <==> forall j: nat :: from <= j ==> !OccursAt(s, sub, j)
    decreases |s| + 1 - from
  {
    if from + |sub| > |s| then
      assert forall j: nat :: from <= j ==> !OccursAt(s, sub, j);
      -1
    else if s[from..from + |sub|] == sub then
      assert OccursAt(s, sub, from);
      from
    else
      assert !OccursAt(s, sub, from);
      IndexFrom(s, sub, from + 1)
  }

  /** Looking for one character: its first occurrence, with none before it, or -1 when it is absent. */
  lemma IndexOfChar(s: string, c: char)
    ensures var i := IndexOf(s, [c]);
      (i >= 0 <==> c in s) &&
      (i >= 0 ==> i < |s| && s[i] == c && c !in s[..i] && s == s[..i] + [c] + s[i + 1..])
  {
    var i := IndexOf(s, [c]);
    if i >= 0 {
      assert s[i] == s[i..i + 1][0];
      forall j | 0 <= j < i
        ensures s[j] != c
      {
        assert !OccursAt(s, [c], j);
        assert s[j..j + 1] == [s[j]];
      }
      assert s == s[..i] + [c] + s[i + 1..];
    } else {
      forall j | 0 <= j < |s|
        ensures s[j] != c
      {
        assert !OccursAt(s, [c], j);
        assert s[j..j + 1] == [s[j]];
      }
    }
  }

  predicate Contains(s: string, sub: string) {
    IndexOf(s, sub) >= 0
  }

  /** `s.replace(sub, rep)` with a string pattern: only the first occurrence is replaced. */
  function ReplaceFirst(s: string, sub: string, rep: string): (r: string)
    ensures IndexOf(s, sub) == -1 ==> r == s
    ensures IndexOf(s, sub) >= 0 ==> r == s[..IndexOf(s, sub)] + rep + s[IndexOf(s, sub) + |sub|..]
  {
    var i := IndexOf(s, sub);
    if i < 0 then s else s[..i] + rep + s[i + |sub|..]
  }

  predicate IsSpace(c: char) {
    c == ' ' || c == '\t' || c == '\n' || c == '\r' || c == '\U{000B}' || c == '\U{000C}'
  }

  function TrimStart(s: string): (r: string)
    ensures |r| <= |s|
    ensures r == [] || !IsSpace(r[0])
    ensures forall i :: 0 <= i < |s| - |r| ==> IsSpace(s[i])
  {
    if s != [] && IsSpace(s[0]) then TrimStart(s[1..]) else s
  }

  function TrimEnd(s: string): (r: string)
    ensures |r| <= |s|
    ensures r == [] || !IsSpace(r[|r| - 1])
    ensures forall i :: |r| <= i < |s| ==> IsSpace(s[i])
  {
    if s != [] && IsSpace(s[|s| - 1]) then TrimEnd(s[..|s| - 1]) else s
  }

  /** What `TrimStart` leaves is a suffix of its input. */
  lemma {:induction false} TrimStartSuffix(s: string)
    ensures TrimStart(s) == s[|s| - |TrimStart(s)|..]
  {
    if s != [] && IsSpace(s[0]) {
      TrimStartSuffix(s[1..]);
    }
  }

  /** What `TrimEnd` leaves is a prefix of its input. */
  lemma {:induction false} TrimEndPrefix(s: string)
    ensures TrimEnd(s) == s[..|TrimEnd(s)|]
  {
    if s != [] && IsSpace(s[|s| - 1]) {
      TrimEndPrefix(s[..|s| - 1]);
    }
  }

  /** `s.trim()` */
  function Trim(s: string): (r: string)
    ensures r == [] || (!IsSpace(r[0]) && !IsSpace(r[|r| - 1]))
    ensures |r| <= |s|
  {
    TrimEndPrefix(TrimStart(s));
    TrimEnd(TrimStart(s))
  }

  /** `path.split('/').pop()`: what follows the last `/` (the whole path when there is none). */
  function LastSegment(path: string): string {
    if path == [] || path[|path| - 1] == '/' then []
    else LastSegment(path[..|path| - 1]) + [path[|path| - 1]]
  }

  /** The segment holds no `/`, ends the path, and is preceded by `/` unless it is the whole path. */
  lemma {:induction false} LastSegmentSpec(path: string)
    ensures var r := LastSegment(path);
      '/' !in r && |r| <= |path| && path[|path| - |r|..] == r &&
      (|r| < |path| ==> path[|path| - |r| - 1] == '/')
  {
    if path != [] && path[|path| - 1] != '/' {
      var init, c := path[..|path| - 1], path[|path| - 1];
      LastSegmentSpec(init);
      var r := LastSegment(init);
      assert LastSegment(path) == r + [c];
      assert path == init + [c];
      var n := |init| - |r|;
      assert path[n..] == init[n..] + [c];
    }
  }

  /** `parts.join(sep)` */
  function Join(parts: seq<string>, sep: string): string {
    if parts == [] then ""
    else if |parts| == 1 then parts[0]
    else parts[0] + sep + Join(parts[1..], sep)
  }

  /** The concatenation of the parts, `parts.join('')`. */
  function Concat(parts: seq<string>): string {
    if parts == [] then "" else parts[0] + Concat(parts[1..])
  }

  function DigitChar(d: nat): char
    requires d < 10
  {
    "0123456789"[d]
  }

  /** The decimal notation of `n`, as JavaScript prints an integer. */
  function NatToString(n: nat): (r: string)
    ensures 1 <= |r|
    ensures n >= 10 ==> |r| >= 2
    decreases n
  {
    if n < 10 then [DigitChar(n)] else NatToString(n / 10) + [DigitChar(n % 10)]
  }

  lemma DigitCharInjective(a: nat, b: nat)
    requires a < 10 && b < 10 && DigitChar(a) == DigitChar(b)
    ensures a == b
  {
  }

  /** Different numbers give different texts. */
  lemma {:induction false} NatToStringInjective(a: nat, b: nat)
    requires NatToString(a) == NatToString(b)
    ensures a == b
    decreases a
  {
    var sa, sb := NatToString(a), NatToString(b);
    if a < 10 && b < 10 {
      DigitCharInjective(a, b);
    } else if a >= 10 && b >= 10 {
      assert sa[|sa| - 1] == DigitChar(a % 10) && sb[|sb| - 1] == DigitChar(b % 10);
      DigitCharInjective(a % 10, b % 10);
      assert sa[..|sa| - 1] == NatToString(a / 10);
      assert sb[..|sb| - 1] == NatToString(b / 10);
      NatToStringInjective(a / 10, b / 10);
    }
  }
}
