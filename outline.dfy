/** The document outline: headings found line by line with the pattern
    /^(#{1,6})\s+(.+)$/, numbered heading-0, heading-1, ..., and indented
    relative to the shallowest heading. */
module Outline {
  import opened Text
  import opened MarkdownBlocks

  datatype OutlineItem = OutlineItem(level: nat, text: string, id: string)

  function HeadingId(n: nat): (id: string)
    ensures |id| > 8 && id[..8] == "heading-"
  {
    "heading-" + NatToString(n)
  }

  lemma HeadingIdInjective(a: nat, b: nat)
    ensures HeadingId(a) == HeadingId(b) <==> a == b
  {
    NatToStringInjective(a, b);
    if HeadingId(a) == HeadingId(b) {
      PrefixCancel("heading-", NatToString(a), NatToString(b));
    }
  }

  predicate NoLineTerminator(s: string) {
    forall i :: 0 <= i < |s| ==> !IsLineTerminator(s[i])
  }

  /** What `\s*(.+)$` accepts: optional white space, then at least one
      character, none of them a line terminator, up to the end. */
  predicate TailMatches(s: string)
    decreases |s|
  {
    |s| > 0 && (NoLineTerminator(s) || (IsWhitespace(s[0]) && TailMatches(s[1..])))
  }

  /** The same acceptance stated as a split point. */
  lemma {:induction false} TailMatchesMeaning(s: string)
    ensures TailMatches(s) <==>
      exists k :: 0 <= k < |s| && IsBlank(s[..k]) && NoLineTerminator(s[k..])
    decreases |s|
  {
    if TailMatches(s) {
      if NoLineTerminator(s) {
        assert s[..0] == [] && s[0..] == s;
      } else {
        TailMatchesMeaning(s[1..]);
        var k :| 0 <= k < |s[1..]| && IsBlank(s[1..][..k]) && NoLineTerminator(s[1..][k..]);
        assert s[..k + 1] == [s[0]] + s[1..][..k];
        assert s[k + 1..] == s[1..][k..];
      }
    } else if exists k :: 0 <= k < |s| && IsBlank(s[..k]) && NoLineTerminator(s[k..]) {
      var k :| 0 <= k < |s| && IsBlank(s[..k]) && NoLineTerminator(s[k..]);
      if k > 0 {
        assert IsWhitespace(s[..k][0]);
        assert s[1..][..k - 1] == s[1..k];
        assert s[1..][k - 1..] == s[k..];
        TailMatchesMeaning(s[1..]);
      }
    }
  }

  /** One line against the pattern: its level and trimmed text on a match. */
  function MatchHeading(line: string): (r: Option<(nat, string)>)
    ensures r.Some? ==> 1 <= r.value.0 <= 6 && r.value.0 == CountLeading(line, '#')
    ensures r.Some? ==> r.value.0 < |line| && IsWhitespace(line[r.value.0])
    ensures r.Some? ==> r.value.1 == Trim(line[r.value.0 + 1..])
    ensures CountLeading(line, '#') == 0 || CountLeading(line, '#') > 6 ==> r.None?
  {
    match HeadingLevel(line)
    case None => None
    case Some(h) => if TailMatches(line[h + 1..]) then Some((h, Trim(line[h + 1..]))) else None
  }

  /** A white-space-only remainder still matches, with empty text. */
  lemma BlankRemainderGivesEmptyText(h: nat, rest: string)
    requires 1 <= h <= 6 && |rest| >= 2 && IsBlank(rest) && !IsLineTerminator(rest[|rest| - 1])
    ensures var line := Repeat('#', h) + rest;
      MatchHeading(line) == Some((h, ""))
  {
    var line := Repeat('#', h) + rest;
    RepeatLevel(h, rest);
    assert line[h + 1..] == rest[1..];
    BlankTailMatches(rest[1..]);
    TrimBlank(rest[1..]);
  }

  /** `h` hashes and a white-space character make a heading of level h. */
  lemma RepeatLevel(h: nat, rest: string)
    requires 1 <= h <= 6 && |rest| > 0 && IsWhitespace(rest[0])
    ensures HeadingLevel(Repeat('#', h) + rest) == Some(h)
  {
    CountLeadingRepeat(h, rest);
    assert (Repeat('#', h) + rest)[h] == rest[0];
  }

  /** White space whose last character is not a line terminator matches. */
  lemma {:induction false} BlankTailMatches(s: string)
    requires |s| > 0 && IsBlank(s) && !IsLineTerminator(s[|s| - 1])
    ensures TailMatches(s)
    decreases |s|
  {
    if |s| > 1 {
      assert s[1..][|s| - 2] == s[|s| - 1];
      BlankTailMatches(s[1..]);
    }
  }

  /** `.` does not match a carriage return, so a line still ending in one
      (a document with CRLF line ends) never yields an item. */
  lemma CarriageReturnLineHasNoItem(line: string)
    requires |line| > 0 && line[|line| - 1] == '\r'
    ensures MatchHeading(line).None?
  {
    var level := HeadingLevel(line);
    if level.Some? {
      CarriageReturnRemainder(line, level.value);
    }
  }

  lemma CarriageReturnRemainder(line: string, h: nat)
    requires h < |line| && line[|line| - 1] == '\r'
    ensures !TailMatches(line[h + 1..])
  {
    var s := line[h + 1..];
    assert |s| > 0 ==> s[|s| - 1] == '\r';
    NoTailBeforeCarriageReturn(s);
  }

  lemma {:induction false} NoTailBeforeCarriageReturn(s: string)
    requires |s| > 0 ==> s[|s| - 1] == '\r'
    ensures !TailMatches(s)
    decreases |s|
  {
    if |s| > 0 {
      assert !NoLineTerminator(s) by { assert IsLineTerminator(s[|s| - 1]); }
      NoTailBeforeCarriageReturn(s[1..]);
    }
  }

  function Repeat(c: char, n: nat): (r: string)
    ensures |r| == n && forall i :: 0 <= i < n ==> r[i] == c
  {
    if n == 0 then "" else [c] + Repeat(c, n - 1)
  }

  lemma {:induction false} CountLeadingRepeat(h: nat, rest: string)
    requires |rest| > 0 && rest[0] != '#'
    ensures CountLeading(Repeat('#', h) + rest, '#') == h
    decreases h
  {
    if h > 0 {
      assert (Repeat('#', h) + rest)[1..] == Repeat('#', h - 1) + rest;
      CountLeadingRepeat(h - 1, rest);
    }
  }

  lemma TrimBlank(s: string)
    requires IsBlank(s)
    ensures Trim(s) == ""
  {
  }

  /** What the pattern gives on each line, in line order. */
  function Matches(lines: seq<string>): (ms: seq<Option<(nat, string)>>)
    ensures |ms| == |lines| && forall i :: 0 <= i < |lines| ==> ms[i] == MatchHeading(lines[i])
  {
    seq(|lines|, i requires 0 <= i < |lines| => MatchHeading(lines[i]))
  }

  /** The items of a sequence of per-line matches, numbered from `counter`. */
  function Items(ms: seq<Option<(nat, string)>>, counter: nat): (items: seq<OutlineItem>)
    ensures |items| <= |ms|
    decreases |ms|
  {
    if ms == [] then []
    else match ms[0]
      case Some(m) => [OutlineItem(m.0, m.1, HeadingId(counter))] + Items(ms[1..], counter + 1)
      case None => Items(ms[1..], counter)
  }

  /** Matches contribute their items in order: the items of a
      concatenation are those of the first part followed by those of the
      second, numbered on. */
  lemma {:induction false} ItemsAppend(a: seq<Option<(nat, string)>>, b: seq<Option<(nat, string)>>, counter: nat)
    ensures Items(a + b, counter) == Items(a, counter) + Items(b, counter + |Items(a, counter)|)
    decreases |a|
  {
    if a == [] {
      assert a + b == b;
    } else {
      ItemsAppend(a[1..], b, if a[0].Some? then counter + 1 else counter);
      assert a == [a[0]] + a[1..];
      ItemsAppendStep(a, a[0], a[1..], b, counter, if a[0].Some? then counter + 1 else counter);
    }
  }

  /** One step of ItemsAppend: the first line in front of both sides. */
  lemma ItemsAppendStep(ms: seq<Option<(nat, string)>>, x: Option<(nat, string)>, a: seq<Option<(nat, string)>>,
                        b: seq<Option<(nat, string)>>, counter: nat, next: nat)
    requires ms == [x] + a
    requires next == if x.Some? then counter + 1 else counter
    requires Items(a + b, next) == Items(a, next) + Items(b, next + |Items(a, next)|)
    ensures Items(ms + b, counter) == Items(ms, counter) + Items(b, counter + |Items(ms, counter)|)
  {
    var head, restA := Items([x], counter), Items(a, next);
    assert Items(ms + b, counter) == head + Items(a + b, next) by {
      assert ms + b == [x] + (a + b);
      ItemsCons(ms + b, x, a + b, counter);
    }
    assert Items(ms, counter) == head + restA by {
      ItemsCons(ms, x, a, counter);
    }
    assert counter + |head| == next by {
      ItemsOfOne(x, counter);
    }
    var k := counter + |Items(ms, counter)|;
    assert k == next + |restA|;
    Regroup(Items(ms + b, counter), head, Items(a + b, next), restA, Items(b, k), Items(ms, counter));
  }

  /** The first line's item, if any, then the rest numbered on. */
  lemma ItemsCons(ms: seq<Option<(nat, string)>>, x: Option<(nat, string)>, rest: seq<Option<(nat, string)>>, counter: nat)
    requires ms == [x] + rest
    ensures Items(ms, counter) == Items([x], counter) + Items(rest, if x.Some? then counter + 1 else counter)
  {
    assert ms[0] == x && ms[1..] == rest;
    ItemsOfOne(x, counter);
  }

  lemma Regroup(whole: seq<OutlineItem>, head: seq<OutlineItem>, rest: seq<OutlineItem>,
                left: seq<OutlineItem>, right: seq<OutlineItem>, first: seq<OutlineItem>)
    requires whole == head + rest && rest == left + right && first == head + left
    ensures whole == first + right
  {
  }

  /** One line gives exactly one item when it matches the pattern, else none. */
  lemma ItemsOfOne(m: Option<(nat, string)>, counter: nat)
    ensures Items([m], counter) == if m.Some? then [OutlineItem(m.value.0, m.value.1, HeadingId(counter))] else []
  {
    assert [m][1..] == [];
  }

  predicate ItemsOk(items: seq<OutlineItem>, counter: nat) {
    forall k :: 0 <= k < |items| ==> 1 <= items[k].level <= 6 && items[k].id == HeadingId(counter + k)
  }

  predicate LevelsOk(ms: seq<Option<(nat, string)>>) {
    forall i :: 0 <= i < |ms| && ms[i].Some? ==> 1 <= ms[i].value.0 <= 6
  }

  /** Levels lie in 1..6 and ids count up from the counter. */
  lemma {:induction false} ItemsWellFormed(ms: seq<Option<(nat, string)>>, counter: nat)
    requires LevelsOk(ms)
    ensures ItemsOk(Items(ms, counter), counter)
    decreases |ms|
  {
    if ms != [] {
      assert LevelsOk(ms[1..]) by {
        forall i | 0 <= i < |ms[1..]| && ms[1..][i].Some? ensures 1 <= ms[1..][i].value.0 <= 6 {
          assert ms[1..][i] == ms[i + 1];
        }
      }
      var items := Items(ms, counter);
      match ms[0]
      case Some(m) =>
        ItemsWellFormed(ms[1..], counter + 1);
        var rest := Items(ms[1..], counter + 1);
        forall k | 0 <= k < |items|
          ensures 1 <= items[k].level <= 6 && items[k].id == HeadingId(counter + k)
        {
          if k > 0 {
            assert items[k] == rest[k - 1];
          }
        }
      case None =>
        ItemsWellFormed(ms[1..], counter);
    }
  }

  /** The outline of a document, as the loop computes it. */
  function ExtractHeadingsSpec(content: string): seq<OutlineItem> {
    Items(Matches(Lines(content)), 0)
  }

  /** heading-0, heading-1, ... in order, hence distinct; levels in 1..6. */
  lemma OutlineWellFormed(content: string)
    ensures var items := ExtractHeadingsSpec(content);
      (forall k :: 0 <= k < |items| ==> 1 <= items[k].level <= 6 && items[k].id == HeadingId(k))
      && (forall i, j :: 0 <= i < |items| && 0 <= j < |items| && i != j ==> items[i].id != items[j].id)
  {
    var items := ExtractHeadingsSpec(content);
    ItemsWellFormed(Matches(Lines(content)), 0);
    forall i, j | 0 <= i < |items| && 0 <= j < |items| && i != j
      ensures items[i].id != items[j].id
    {
      HeadingIdInjective(i, j);
    }
  }

  method ExtractHeadings(content: string) returns (headings: seq<OutlineItem>)
    ensures headings == ExtractHeadingsSpec(content)
  {
    headings := [];
    var lines := Lines(content);
    var idCounter: nat := 0;
    ghost var ms := Matches(lines);
    for i := 0 to |lines|
      invariant headings == Items(ms[..i], 0)
      invariant idCounter == |headings|
    {
      headings, idCounter := VisitLine(headings, idCounter, lines[i]);
      ItemsNext(ms, i);
    }
    TakeAll(ms);
  }

  lemma ItemsNext(ms: seq<Option<(nat, string)>>, i: nat)
    requires i < |ms|
    ensures Items(ms[..i + 1], 0) == Items(ms[..i], 0) + Items([ms[i]], |Items(ms[..i], 0)|)
  {
    ItemsAppend(ms[..i], [ms[i]], 0);
    assert ms[..i + 1] == ms[..i] + [ms[i]];
  }

  lemma TakeAll<T>(s: seq<T>)
    ensures s[..|s|] == s
  {
  }

  /** One turn of the loop: a matching line pushes its item and advances
      the counter. */
  method VisitLine(headings: seq<OutlineItem>, idCounter: nat, line: string)
    returns (next: seq<OutlineItem>, nextCounter: nat)
    ensures next == headings + Items([MatchHeading(line)], idCounter)
    ensures nextCounter == idCounter + |Items([MatchHeading(line)], idCounter)|
  {
    var hit := MatchHeading(line);
    ItemsOfOne(hit, idCounter);
    next, nextCounter := headings, idCounter;
    if hit.Some? {
      var level := hit.value.0;
      var text := hit.value.1;
      var id := HeadingId(nextCounter);
      nextCounter := nextCounter + 1;
      next := next + [OutlineItem(level, text, id)];
    }
  }

  // ---------------------------------------------------------------------
  // Indentation

  /** The shallowest level among the items. */
  function MinLevel(items: seq<OutlineItem>): (m: nat)
    requires |items| > 0
    ensures forall k :: 0 <= k < |items| ==> m <= items[k].level
    ensures exists k :: 0 <= k < |items| && m == items[k].level
  {
    if |items| == 1 then items[0].level
    else
      var rest := MinLevel(items[1..]);
      assert forall k :: 1 <= k < |items| ==> items[k] == items[1..][k - 1];
      if items[0].level <= rest then items[0].level else rest
  }

  /** The left padding of an item, in pixels. */
  function Indent(level: nat, minLevel: nat): int {
    (level - minLevel) * 16 + 12
  }

  /** No item is indented by less than 12 pixels, the shallowest items by
      exactly 12, and each level deeper adds 16. */
  lemma IndentBounds(items: seq<OutlineItem>, k: nat)
    requires 0 < |items| && k < |items|
    ensures Indent(items[k].level, MinLevel(items)) >= 12
    ensures Indent(items[k].level, MinLevel(items)) == 12 <==> items[k].level == MinLevel(items)
    ensures Indent(items[k].level, MinLevel(items)) == 12 + 16 * (items[k].level - MinLevel(items))
  {
  }

  /** In a document's outline every indent lies between 12 and 92 pixels. */
  lemma OutlineIndentRange(content: string, k: nat)
    requires k < |ExtractHeadingsSpec(content)|
    ensures var items := ExtractHeadingsSpec(content);
      12 <= Indent(items[k].level, MinLevel(items)) <= 92
  {
    OutlineWellFormed(content);
    var items := ExtractHeadingsSpec(content);
    var j :| 0 <= j < |items| && MinLevel(items) == items[j].level;
  }
}
