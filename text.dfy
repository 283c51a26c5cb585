/** String primitives of the JavaScript runtime that the previewer relies on:
    String.prototype.trim, startsWith/endsWith, split on a set of separator
    characters, Array.prototype.join and Number.prototype.toString for
    naturals. Strings are sequences of characters. */
module Text {

  datatype Option<+T> = None | Some(value: T)

  /** ECMAScript WhiteSpace and LineTerminator code points: the characters
      that trim() removes and that the regular-expression class \s matches. */
  predicate IsWhitespace(c: char) {
    c == ' ' || c == '\t' || c == '\n' || c == '\r' || c == '\U{000B}' || c == '\U{000C}'
    || c == '\U{00A0}' || c == '\U{1680}' || ('\U{2000}' <= c <= '\U{200A}')
    || c == '\U{2028}' || c == '\U{2029}' || c == '\U{202F}' || c == '\U{205F}'
    || c == '\U{3000}' || c == '\U{FEFF}'
  }

  /** The characters the regular-expression atom `.` does not match. */
  predicate IsLineTerminator(c: char) {
    c == '\n' || c == '\r' || c == '\U{2028}' || c == '\U{2029}'
  }

  /** A string made of white space only; the empty string is blank. */
  predicate IsBlank(s: string) {
    forall i :: 0 <= i < |s| ==> IsWhitespace(s[i])
  }

  /** Number of white-space characters at the start of s. */
  function LeadingWhitespace(s: string): (n: nat)
    ensures n <= |s|
    ensures IsBlank(s[..n])
    ensures n < |s| ==> !IsWhitespace(s[n])
  {
    if |s| > 0 && IsWhitespace(s[0]) then
      var n := 1 + LeadingWhitespace(s[1..]);
      assert s[..n] == [s[0]] + s[1..][..n - 1];
      n
    else 0
  }

  /** Index where the trailing white space of s begins. */
  function TrailingWhitespaceStart(s: string): (j: nat)
    ensures j <= |s|
    ensures IsBlank(s[j..])
    ensures j > 0 ==> !IsWhitespace(s[j - 1])
  {
    if |s| > 0 && IsWhitespace(s[|s| - 1]) then
      var init := s[..|s| - 1];
      var j := TrailingWhitespaceStart(init);
      assert forall i :: j <= i < |s| - 1 ==> s[i] == init[j..][i - j];
      j
    else |s|
  }

  /** String.prototype.trim: white space removed at both ends. */
  function Trim(s: string): (r: string)
    ensures |r| <= |s|
    ensures (r == "") == IsBlank(s)
    ensures r != "" ==> !IsWhitespace(r[0]) && !IsWhitespace(r[|r| - 1])
  {
    var a := LeadingWhitespace(s);
    var t := s[a..];
    var r := t[..TrailingWhitespaceStart(t)];
    assert a < |s| ==> t[0] == s[a];
    assert r == "" ==> IsBlank(s) by {
      if r == "" {
        assert IsBlank(t);
        assert s == s[..a];
      }
    }
    r
  }

  lemma TrimOfNonBlankStart(s: string)
    requires |s| > 0 && !IsWhitespace(s[0])
    ensures Trim(s) != ""
  {
  }

  predicate StartsWith(s: string, prefix: string) {
    |prefix| <= |s| && s[..|prefix|] == prefix
  }

  predicate EndsWith(s: string, suffix: string) {
    |suffix| <= |s| && s[|s| - |suffix|..] == suffix
  }

  predicate Contains(s: string, c: char) {
    c in s
  }

  /** The first n characters of s, as s.slice(0, n) gives them. */
  function Prefix(s: string, n: nat): (r: string)
    ensures |r| == if |s| < n then |s| else n
    ensures r == s[..|r|]
  {
    if |s| < n then s else s[..n]
  }

  /** s.split(sep) where sep is a character or a one-character class:
      the pieces between separator characters, at least one piece. */
  function SplitOn(s: string, seps: set<char>): (parts: seq<string>)
    ensures |parts| >= 1
    ensures forall i :: 0 <= i < |parts| ==> forall c :: c in parts[i] ==> c !in seps
    decreases |s|
  {
    if |s| == 0 then [""]
    else
      var rest := SplitOn(s[1..], seps);
      if s[0] in seps then [""] + rest
      else [[s[0]] + rest[0]] + rest[1..]
  }

  /** content.split('\n') */
  function Lines(s: string): (parts: seq<string>)
    ensures |parts| >= 1
    ensures forall i :: 0 <= i < |parts| ==> '\n' !in parts[i]
  {
    SplitOn(s, {'\n'})
  }

  /** Array.prototype.join(sep); the empty array joins to "". */
  function Join(parts: seq<string>, sep: string): string
    decreases |parts|
  {
    if |parts| == 0 then ""
    else if |parts| == 1 then parts[0]
    else parts[0] + sep + Join(parts[1..], sep)
  }

  predicate NoneContain(parts: seq<string>, seps: set<char>) {
    forall i :: 0 <= i < |parts| ==> forall c :: c in parts[i] ==> c !in seps
  }

  /** s with every separator character replaced by c. */
  function ReplaceAll(s: string, seps: set<char>, c: char): (r: string)
    ensures |r| == |s|
    ensures forall i :: 0 <= i < |s| ==> r[i] == if s[i] in seps then c else s[i]
  {
    if |s| == 0 then "" else [if s[0] in seps then c else s[0]] + ReplaceAll(s[1..], seps, c)
  }

  lemma {:induction false} SplitWithoutSeparator(s: string, seps: set<char>)
    requires forall c :: c in s ==> c !in seps
    ensures SplitOn(s, seps) == [s]
    decreases |s|
  {
    if |s| > 0 {
      SplitWithoutSeparator(s[1..], seps);
      assert [s[0]] + s[1..] == s;
    }
  }

  /** A separator character cuts the split into the split of each side. */
  lemma {:induction false} SplitAtSeparator(x: string, c: char, y: string, seps: set<char>)
    requires c in seps
    ensures SplitOn(x + [c] + y, seps) == SplitOn(x, seps) + SplitOn(y, seps)
    decreases |x|
  {
    var s := x + [c] + y;
    if |x| == 0 {
      assert s[1..] == y;
    } else {
      assert s[1..] == x[1..] + [c] + y;
      SplitAtSeparator(x[1..], c, y, seps);
    }
  }

  /** Joining the split pieces with one character puts that character
      where each separator was. */
  lemma {:induction false} JoinSplit(s: string, seps: set<char>, c: char)
    ensures Join(SplitOn(s, seps), [c]) == ReplaceAll(s, seps, c)
    decreases |s|
  {
    if |s| > 0 {
      JoinSplit(s[1..], seps, c);
      var rest := SplitOn(s[1..], seps);
      if s[0] in seps {
        if |rest| == 1 {
        } else {
          assert ([""] + rest)[1..] == rest;
        }
      } else {
        var parts := [[s[0]] + rest[0]] + rest[1..];
        if |rest| > 1 {
          assert parts[1..] == rest[1..];
          assert Join(rest, [c]) == rest[0] + [c] + Join(rest[1..], [c]);
        }
      }
    }
  }

  lemma ReplaceAllIdentity(s: string, c: char)
    ensures ReplaceAll(s, {c}, c) == s
  {
    var r := ReplaceAll(s, {c}, c);
    assert forall i :: 0 <= i < |s| ==> r[i] == s[i];
  }

  /** Joining with '\n' undoes split('\n'). */
  lemma JoinLines(s: string)
    ensures Join(Lines(s), "\n") == s
  {
    JoinSplit(s, {'\n'}, '\n');
    ReplaceAllIdentity(s, '\n');
  }

  /** Splitting a join of separator-free pieces gives the pieces back. */
  lemma {:induction false} SplitJoin(parts: seq<string>, c: char)
    requires |parts| >= 1
    requires NoneContain(parts, {c})
    ensures SplitOn(Join(parts, [c]), {c}) == parts
    decreases |parts|
  {
    if |parts| == 1 {
      SplitWithoutSeparator(parts[0], {c});
    } else {
      SplitJoin(parts[1..], c);
      SplitAtSeparator(parts[0], c, Join(parts[1..], [c]), {c});
      SplitWithoutSeparator(parts[0], {c});
      assert [parts[0]] + parts[1..] == parts;
    }
  }

  /** A join with a white-space separator is blank iff every piece is. */
  lemma {:induction false} JoinBlank(parts: seq<string>, sep: string)
    requires IsBlank(sep)
    ensures IsBlank(Join(parts, sep)) <==> forall i :: 0 <= i < |parts| ==> IsBlank(parts[i])
    decreases |parts|
  {
    if |parts| > 1 {
      JoinBlank(parts[1..], sep);
      var j := Join(parts[1..], sep);
      var whole := parts[0] + sep + j;
      if IsBlank(whole) {
        assert forall i :: 0 <= i < |parts[0]| ==> whole[i] == parts[0][i];
        assert forall i :: 0 <= i < |j| ==> whole[|parts[0]| + |sep| + i] == j[i];
        assert forall i :: 1 <= i < |parts| ==> parts[i] == parts[1..][i - 1];
      }
      if forall i :: 0 <= i < |parts| ==> IsBlank(parts[i]) {
        assert IsBlank(parts[0]);
        assert forall i :: 0 <= i < |parts| - 1 ==> parts[1..][i] == parts[i + 1];
        assert IsBlank(j);
        forall i | 0 <= i < |whole| ensures IsWhitespace(whole[i]) {
          if i < |parts[0]| { assert whole[i] == parts[0][i]; }
          else if i < |parts[0]| + |sep| { assert whole[i] == sep[i - |parts[0]|]; }
          else { assert whole[i] == j[i - |parts[0]| - |sep|]; }
        }
      }
    }
  }

  /** The character for a decimal digit. */
  function Digit(d: nat): char
    requires d < 10
  {
    (48 + d) as char
  }

  /** Number.prototype.toString() of a natural number: its decimal digits. */
  function NatToString(n: nat): (r: string)
    ensures |r| >= 1
    ensures (|r| == 1) == (n < 10)
    ensures forall i :: 0 <= i < |r| ==> '0' <= r[i] <= '9'
  {
    if n < 10 then [Digit(n)] else NatToString(n / 10) + [Digit(n % 10)]
  }

  /** Distinct numbers print differently. */
  lemma {:induction false} NatToStringInjective(a: nat, b: nat)
    ensures NatToString(a) == NatToString(b) <==> a == b
  {
    if NatToString(a) == NatToString(b) && a >= 10 && b >= 10 {
      var sa, sb := NatToString(a), NatToString(b);
      assert sa[|sa| - 1] == sb[|sb| - 1];
      assert sa[..|sa| - 1] == NatToString(a / 10);
      assert sb[..|sb| - 1] == NatToString(b / 10);
      NatToStringInjective(a / 10, b / 10);
    }
  }

  /** A common prefix can be cancelled from both sides of an equation. */
  lemma PrefixCancel(p: string, x: string, y: string)
    ensures p + x == p + y <==> x == y
  {
    if p + x == p + y {
      assert x == (p + x)[|p|..];
      assert y == (p + y)[|p|..];
    }
  }
}
