/** String operations of Python's str that the extractors and the path logic rely on. */
module Text {

  /** Python's str.isspace for one character (also what `\s` matches in a str regex). */
  predicate IsSpace(c: char) {
    var n := c as int;
    || 0x09 <= n <= 0x0D
    || 0x1C <= n <= 0x20
    || n == 0x85 || n == 0xA0 || n == 0x1680
    || 0x2000 <= n <= 0x200A
    || n == 0x2028 || n == 0x2029 || n == 0x202F || n == 0x205F || n == 0x3000
  }

  /** str.lstrip(): drops the leading whitespace and nothing else. */
  function StripLeft(s: string): (r: string)
    ensures |r| <= |s| && r == s[|s| - |r|..]
    ensures r == [] || !IsSpace(r[0])
    ensures forall k :: 0 <= k < |s| - |r| ==> IsSpace(s[k])
  {
    if |s| > 0 && IsSpace(s[0]) then StripLeft(s[1..]) else s
  }

  /** str.rstrip(): drops the trailing whitespace and nothing else. */
  function StripRight(s: string): (r: string)
    ensures |r| <= |s| && r == s[..|r|]
    ensures r == [] || !IsSpace(r[|r| - 1])
    ensures forall k :: |r| <= k < |s| ==> IsSpace(s[k])
  {
    if |s| > 0 && IsSpace(s[|s| - 1]) then StripRight(s[..|s| - 1]) else s
  }

  /** The number of leading whitespace characters of `s`. */
  function LeadingSpace(s: string): nat {
    |s| - |StripLeft(s)|
  }

  /** str.strip(): the result is a slice of `s` that neither starts nor ends with whitespace,
      and everything cut off on either side is whitespace. */
  function Strip(s: string): (r: string)
    ensures r == [] || (!IsSpace(r[0]) && !IsSpace(r[|r| - 1]))
    ensures LeadingSpace(s) + |r| <= |s| && r == s[LeadingSpace(s)..LeadingSpace(s) + |r|]
    ensures forall k :: 0 <= k < LeadingSpace(s) ==> IsSpace(s[k])
    ensures forall k :: LeadingSpace(s) + |r| <= k < |s| ==> IsSpace(s[k])
  {
    StripRight(StripLeft(s))
  }

  /** Stripping keeps only characters that were already in the string. */
  lemma StripChars(s: string, c: char)
    ensures c in Strip(s) ==> c in s
  {
    var r := Strip(s);
    if c in r {
      var i :| 0 <= i < |r| && r[i] == c;
      assert s[LeadingSpace(s) + i] == c;
    }
  }

  /** str.replace(from, to) for one-character `from` and `to`. */
  function ReplaceChar(s: string, from: char, to: char): (r: string)
    ensures |r| == |s|
    ensures from != to ==> from !in r
    ensures forall k :: 0 <= k < |s| && s[k] != from ==> r[k] == s[k]
    ensures forall k :: 0 <= k < |s| && s[k] == from ==> r[k] == to
  {
    seq(|s|, k requires 0 <= k < |s| => if s[k] == from then to else s[k])
  }

  /** sep.join(parts). */
  function Join(sep: string, parts: seq<string>): (r: string)
    ensures parts == [] ==> r == []
    ensures |parts| == 1 ==> r == parts[0]
  {
    if |parts| == 0 then []
    else if |parts| == 1 then parts[0]
    else Join(sep, parts[..|parts| - 1]) + sep + parts[|parts| - 1]
  }

  /** The length of sep.join(parts): every part and one separator between each neighbouring pair. */
  function TotalLength(parts: seq<string>): nat {
    if parts == [] then 0 else TotalLength(parts[..|parts| - 1]) + |parts[|parts| - 1]|
  }

  lemma {:induction false} JoinLength(sep: string, parts: seq<string>)
    requires parts != []
    ensures |Join(sep, parts)| == TotalLength(parts) + (|parts| - 1) * |sep|
  {
    if |parts| > 1 {
      var front := parts[..|parts| - 1];
      JoinLength(sep, front);
      assert |Join(sep, parts)| == |Join(sep, front)| + |sep| + |parts[|parts| - 1]|;
      assert TotalLength(parts) == TotalLength(front) + |parts[|parts| - 1]|;
      assert (|parts| - 1) * |sep| == (|front| - 1) * |sep| + |sep|;
    }
  }

  /** A character absent from the separator and from every part is absent from the join. */
  lemma {:induction false} JoinAvoids(sep: string, parts: seq<string>, c: char)
    requires c !in sep
    requires forall i :: 0 <= i < |parts| ==> c !in parts[i]
    ensures c !in Join(sep, parts)
  {
    if |parts| > 1 {
      JoinAvoids(sep, parts[..|parts| - 1], c);
    }
  }

  /** The index of the first occurrence of `c` in `s`, or |s| if there is none. */
  function IndexOf(s: string, c: char): (k: nat)
    ensures k <= |s|
    ensures k < |s| ==> s[k] == c
    ensures forall j :: 0 <= j < k ==> s[j] != c
  {
    if s == [] then 0 else if s[0] == c then 0 else 1 + IndexOf(s[1..], c)
  }

  /** IndexOf finds `c` exactly when `c` occurs. */
  lemma IndexOfFinds(s: string, c: char)
    ensures IndexOf(s, c) < |s| <==> c in s
  {
    if c in s {
      var j :| 0 <= j < |s| && s[j] == c;
      assert IndexOf(s, c) <= j;
    }
  }

  /** The text before the first newline (all of `s` if there is none). */
  function FirstLine(s: string): (r: string)
    ensures '\n' !in r
    ensures r <= s
    ensures |r| < |s| ==> s[|r|] == '\n'
  {
    s[..IndexOf(s, '\n')]
  }

  /** The text after the first newline; empty when there is none. */
  function AfterFirstLine(s: string): (r: string)
    ensures IndexOf(s, '\n') < |s| ==> s == FirstLine(s) + "\n" + r
  {
    var k := IndexOf(s, '\n');
    if k < |s| then s[k + 1..] else []
  }

  /** Splitting at the first newline undoes putting a newline-free line in front of a text. */
  lemma {:induction false} FirstLineOf(line: string, rest: string)
    requires '\n' !in line
    ensures FirstLine(line + "\n" + rest) == line
    ensures AfterFirstLine(line + "\n" + rest) == rest
  {
    var s := line + "\n" + rest;
    if line == [] {
      assert s[0] == '\n';
    } else {
      FirstLineOf(line[1..], rest);
      assert s[1..] == line[1..] + "\n" + rest;
    }
  }

  /** Python's str.replace(pat, rep): every non-overlapping occurrence, scanning left to right. */
  function ReplaceAll(s: string, pat: string, rep: string): string
    requires pat != []
    decreases |s|
  {
    if |s| < |pat| then s
    else if s[..|pat|] == pat then rep + ReplaceAll(s[|pat|..], pat, rep)
    else [s[0]] + ReplaceAll(s[1..], pat, rep)
  }

  /** `pat` occurs in `s` starting at index k. */
  predicate OccursAt(s: string, pat: string, k: int) {
    0 <= k && k + |pat| <= |s| && s[k..k + |pat|] == pat
  }

  /** A string in which `pat` does not occur is left unchanged by ReplaceAll. */
  lemma {:induction false} ReplaceAllAbsent(s: string, pat: string, rep: string)
    requires pat != []
    requires forall k :: !OccursAt(s, pat, k)
    ensures ReplaceAll(s, pat, rep) == s
    decreases |s|
  {
    if |s| >= |pat| {
      assert !OccursAt(s, pat, 0);
      forall k ensures !OccursAt(s[1..], pat, k) {
        assert !OccursAt(s, pat, k + 1);
        if 0 <= k && k + |pat| <= |s| - 1 {
          assert s[1..][k..k + |pat|] == s[k + 1..k + 1 + |pat|];
        }
      }
      ReplaceAllAbsent(s[1..], pat, rep);
    }
  }

  /** The path suffix after the last '/', as os.path.split(p)[-1]. */
  function Basename(p: string): (r: string)
    ensures '/' !in r
    ensures |r| <= |p| && r == p[|p| - |r|..]
    ensures |r| < |p| ==> p[|p| - |r| - 1] == '/'
  {
    if p == [] then []
    else if p[|p| - 1] == '/' then []
    else Basename(p[..|p| - 1]) + [p[|p| - 1]]
  }

  /** posixpath.join(a, b). */
  function JoinPath(a: string, b: string): string {
    if |b| > 0 && b[0] == '/' then b
    else if a == [] || a[|a| - 1] == '/' then a + b
    else a + "/" + b
  }

  predicate EndsWith(s: string, suffix: string) {
    |suffix| <= |s| && s[|s| - |suffix|..] == suffix
  }
}
