/** String helpers shared by the frontend (JavaScript `String` methods) and the
    backend (Python `str` methods).  Strings are sequences of characters. */
module Text {

  /** Whitespace removed by JavaScript `trim()` and Python `strip()`, restricted
      to the ASCII whitespace characters. */
  predicate IsSpace(c: char) {
    c == ' ' || c == '\t' || c == '\n' || c == '\r' || c == '\U{0B}' || c == '\U{0C}'
  }

  predicate AllSpace(s: string) {
    forall i :: 0 <= i < |s| ==> IsSpace(s[i])
  }

  function TrimStart(s: string): (r: string)
    ensures |r| <= |s| && r == s[|s| - |r|..]
    ensures AllSpace(s[..|s| - |r|])
    ensures r == [] || !IsSpace(r[0])
  {
    if s == [] || !IsSpace(s[0]) then s else TrimStart(s[1..])
  }

  function TrimEnd(s: string): (r: string)
    ensures |r| <= |s| && r == s[..|r|]
    ensures AllSpace(s[|r|..])
    ensures r == [] || !IsSpace(r[|r| - 1])
  {
    if s == [] || !IsSpace(s[|s| - 1]) then s else TrimEnd(s[..|s| - 1])
  }

  /** JavaScript `s.trim()`, Python `s.strip()`. */
  function Trim(s: string): string {
    TrimEnd(TrimStart(s))
  }

  lemma TrimEmptyIffAllSpace(s: string)
    ensures Trim(s) == [] <==> AllSpace(s)
  {
    var t := TrimStart(s);
    if Trim(s) == [] {
      assert s == s[..|s| - |t|] + t;
      assert AllSpace(t[|TrimEnd(t)|..]);
    } else {
      var r := Trim(s);
      assert r[0] == s[|s| - |t|];
      assert !IsSpace(s[|s| - |t|]);
    }
  }

  /** A trimmed string neither begins nor ends with whitespace. */
  lemma TrimEnds(s: string)
    ensures Trim(s) == [] || (!IsSpace(Trim(s)[0]) && !IsSpace(Trim(s)[|Trim(s)| - 1]))
  {
    var t := Trim(s);
    if t != [] {
      var u := TrimStart(s);
      assert t == TrimEnd(u) && t == u[..|t|];
      assert t[0] == u[0];
    }
  }

  /** Trimming twice is trimming once. */
  lemma TrimTrimmed(s: string)
    ensures Trim(Trim(s)) == Trim(s)
  {
    var t := Trim(s);
    if t != [] {
      assert !IsSpace(t[0]) by {
        var u := TrimStart(s);
        assert t == TrimEnd(u) && t == u[..|t|];
      }
    }
  }

  /** Python `s.lstrip(c)`: drop every leading occurrence of `c`. */
  function LStrip(s: string, c: char): (r: string)
    ensures |r| <= |s| && r == s[|s| - |r|..]
    ensures forall i :: 0 <= i < |s| - |r| ==> s[i] == c
    ensures r == [] || r[0] != c
  {
    if s == [] || s[0] != c then s else LStrip(s[1..], c)
  }

  predicate StartsWith(s: string, prefix: string) {
    |prefix| <= |s| && s[..|prefix|] == prefix
  }

  predicate EndsWith(s: string, suffix: string) {
    |suffix| <= |s| && s[|s| - |suffix|..] == suffix
  }

  /** A suffix of a suffix is a suffix. */
  lemma EndsWithTrans(s: string, t: string, u: string)
    requires EndsWith(s, t) && EndsWith(t, u)
    ensures EndsWith(s, u)
  {
    forall k | 0 <= k < |u| ensures s[|s| - |u| + k] == u[k] {
      assert s[|s| - |t|..][|t| - |u| + k] == t[|t| - |u| + k];
      assert t[|t| - |u|..][k] == u[k];
    }
    assert s[|s| - |u|..] == u;
  }

  predicate OccursAt(s: string, pat: string, i: int) {
    0 <= i && i + |pat| <= |s| && s[i..i + |pat|] == pat
  }

  /** JavaScript `s.includes(pat)`, Python `pat in s`. */
  predicate Contains(s: string, pat: string) {
    exists i | 0 <= i <= |s| - |pat| :: OccursAt(s, pat, i)
  }

  /** A pattern absent from a string is absent from each of its suffixes. */
  lemma AbsentFromSuffix(s: string, k: nat, pat: string)
    requires k <= |s|
    requires !Contains(s, pat)
    ensures !Contains(s[k..], pat)
  {
    forall i | 0 <= i <= |s[k..]| - |pat|
      ensures !OccursAt(s[k..], pat, i)
    {
      assert !OccursAt(s, pat, i + k);
      assert s[k..][i..i + |pat|] == s[i + k..i + k + |pat|];
    }
  }

  /** Lower-casing of one character; the ASCII letters only. */
  function LowerChar(c: char): char {
    if 'A' <= c <= 'Z' then (c as int + 32) as char else c
  }

  /** JavaScript `s.toLowerCase()`. */
  function Lower(s: string): (r: string)
    ensures |r| == |s|
  {
    if s == [] then [] else [LowerChar(s[0])] + Lower(s[1..])
  }

  /** Each character is lower-cased in place. */
  lemma {:induction false} LowerAt(s: string, i: nat)
    requires i < |s|
    ensures Lower(s)[i] == LowerChar(s[i])
    decreases i
  {
    if i > 0 {
      LowerAt(s[1..], i - 1);
    }
  }

  /** Python `s.split(d)` for a one-character separator. */
  function Split(s: string, d: char): (parts: seq<string>)
    ensures |parts| >= 1
    decreases |s|
  {
    var i := IndexOf(s, d);
    if i == |s| then [s] else [s[..i]] + Split(s[i + 1..], d)
  }

  function IndexOf(s: string, d: char): (i: nat)
    ensures i <= |s|
    ensures i < |s| ==> s[i] == d
    ensures forall k :: 0 <= k < i ==> s[k] != d
  {
    if s == [] then 0 else if s[0] == d then 0 else 1 + IndexOf(s[1..], d)
  }

  /** Python `sep.join(parts)`, JavaScript `parts.join(sep)`. */
  function Join(parts: seq<string>, sep: string): string {
    if |parts| == 0 then ""
    else if |parts| == 1 then parts[0]
    else parts[0] + sep + Join(parts[1..], sep)
  }

  lemma {:induction false} SplitKeepsAllSpace(s: string, d: char)
    requires AllSpace(s)
    ensures forall j :: 0 <= j < |Split(s, d)| ==> AllSpace(Split(s, d)[j])
    decreases |s|
  {
    var i := IndexOf(s, d);
    if i < |s| {
      var rest := s[i + 1..];
      assert AllSpace(rest) by {
        forall k | 0 <= k < |rest| ensures IsSpace(rest[k]) {
          assert rest[k] == s[i + 1 + k];
        }
      }
      SplitKeepsAllSpace(rest, d);
      var parts := Split(s, d);
      assert parts == [s[..i]] + Split(rest, d);
      forall j | 0 <= j < |parts| ensures AllSpace(parts[j]) {
        if j == 0 {
          forall k | 0 <= k < i ensures IsSpace(s[..i][k]) {
            assert s[..i][k] == s[k];
          }
        } else {
          assert parts[j] == Split(rest, d)[j - 1];
        }
      }
    }
  }

  lemma {:induction false} JoinKeepsAllSpace(parts: seq<string>, sep: string)
    requires AllSpace(sep)
    requires forall j :: 0 <= j < |parts| ==> AllSpace(parts[j])
    ensures AllSpace(Join(parts, sep))
  {
    if |parts| > 1 {
      JoinKeepsAllSpace(parts[1..], sep);
      var rest := Join(parts[1..], sep);
      assert Join(parts, sep) == parts[0] + sep + rest;
      forall i | 0 <= i < |parts[0] + sep + rest|
        ensures IsSpace((parts[0] + sep + rest)[i])
      {
        if i < |parts[0]| {
        } else if i < |parts[0]| + |sep| {
          assert (parts[0] + sep + rest)[i] == sep[i - |parts[0]|];
        } else {
          assert (parts[0] + sep + rest)[i] == rest[i - |parts[0]| - |sep|];
        }
      }
    }
  }

  /** Python `s.replace(pat, rep)`: every non-overlapping occurrence, left to right. */
  function ReplaceAll(s: string, pat: string, rep: string): string
    requires |pat| > 0
    decreases |s|
  {
    if |s| < |pat| then s
    else if s[..|pat|] == pat then rep + ReplaceAll(s[|pat|..], pat, rep)
    else [s[0]] + ReplaceAll(s[1..], pat, rep)
  }

  /** The number of occurrences `ReplaceAll` substitutes. */
  function CountOccurrences(s: string, pat: string): nat
    requires |pat| > 0
    decreases |s|
  {
    if |s| < |pat| then 0
    else if s[..|pat|] == pat then 1 + CountOccurrences(s[|pat|..], pat)
    else CountOccurrences(s[1..], pat)
  }

  /** JavaScript `s.replace(pat, rep)` with a string pattern and a replacement
      free of `$` patterns: the first occurrence only. */
  function ReplaceFirst(s: string, pat: string, rep: string): string
    requires |pat| > 0
    decreases |s|
  {
    if |s| < |pat| then s
    else if s[..|pat|] == pat then rep + s[|pat|..]
    else [s[0]] + ReplaceFirst(s[1..], pat, rep)
  }

  /** Decimal digits of a natural number, as JavaScript template literals print it. */
  function NatToString(n: nat): (r: string)
    ensures |r| >= 1
  {
    if n < 10 then [DigitChar(n)] else NatToString(n / 10) + [DigitChar(n % 10)]
  }

  function DigitChar(d: nat): char
    requires d < 10
  {
    ('0' as int + d) as char
  }
}
