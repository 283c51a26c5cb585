/** The pure parts of HTML export: escaping text for HTML and the extra
    style sheet of each theme. */
module ExportHtml {
  import opened Text
  import Themes

  // ---------------------------------------------------------------------
  // Escaping

  predicate Special(c: char) {
    c == '&' || c == '<' || c == '>' || c == '"' || c == '\''
  }

  /** The replacement of one character. The contract is the
      replacement table itself; `EscapedHasNoMarkup` and `UnescapeEscape` are its
      properties. */
  function EscapeChar(c: char): (r: string)
    ensures c == '&' ==> r == "&amp;"
    ensures c == '<' ==> r == "&lt;"
    ensures c == '>' ==> r == "&gt;"
    ensures c == '"' ==> r == "&quot;"
    ensures c == '\'' ==> r == "&#039;"
    ensures !Special(c) ==> r == [c]
  {
    match c
    case '&' => "&amp;"
    case '<' => "&lt;"
    case '>' => "&gt;"
    case '"' => "&quot;"
    case '\'' => "&#039;"
    case _ => [c]
  }

  /** Every character replaced by its escape, left to right. */
  function EscapeHtml(text: string): (r: string)
    ensures |r| >= |text|
    decreases |text|
  {
    if text == [] then "" else EscapeChar(text[0]) + EscapeHtml(text[1..])
  }

  /** Escaping works character by character: it distributes over
      concatenation, so unescaped characters keep their order. */
  lemma {:induction false} EscapeAppend(a: string, b: string)
    ensures EscapeHtml(a + b) == EscapeHtml(a) + EscapeHtml(b)
    decreases |a|
  {
    if a == [] {
      assert a + b == b;
    } else {
      assert (a + b)[0] == a[0];
      assert (a + b)[1..] == a[1..] + b;
      EscapeAppend(a[1..], b);
    }
  }

  /** A text without special characters is left as it is. */
  lemma {:induction false} EscapePlain(text: string)
    requires forall i :: 0 <= i < |text| ==> !Special(text[i])
    ensures EscapeHtml(text) == text
    decreases |text|
  {
    if text != [] {
      EscapePlain(text[1..]);
    }
  }

  predicate NoMarkup(s: string) {
    forall i :: 0 <= i < |s| ==> s[i] != '<' && s[i] != '>' && s[i] != '"' && s[i] != '\''
  }

  /** The escaped text has no '<', '>', '"' or '\''. */
  lemma {:induction false} EscapedHasNoMarkup(text: string)
    ensures NoMarkup(EscapeHtml(text))
    decreases |text|
  {
    if text != [] {
      EscapedHasNoMarkup(text[1..]);
      var head, tail := EscapeChar(text[0]), EscapeHtml(text[1..]);
      assert NoMarkup(head);
      forall i | 0 <= i < |head + tail|
        ensures (head + tail)[i] != '<' && (head + tail)[i] != '>' && (head + tail)[i] != '"' && (head + tail)[i] != '\''
      {
        if i < |head| {
          assert (head + tail)[i] == head[i];
        } else {
          assert (head + tail)[i] == tail[i - |head|];
        }
      }
    }
  }

  /** Decoding the five entities, left to right; anything else is copied. */
  function Unescape(s: string): (r: string)
    decreases |s|
  {
    if s == [] then ""
    else if StartsWith(s, "&amp;") then "&" + Unescape(s[5..])
    else if StartsWith(s, "&lt;") then "<" + Unescape(s[4..])
    else if StartsWith(s, "&gt;") then ">" + Unescape(s[4..])
    else if StartsWith(s, "&quot;") then "\"" + Unescape(s[6..])
    else if StartsWith(s, "&#039;") then "'" + Unescape(s[6..])
    else [s[0]] + Unescape(s[1..])
  }

  /** An entity at the front decodes to its character; the rest is decoded
      on its own. */
  lemma EntityFirst(e: string, c: char, rest: string)
    requires e == EscapeChar(c) && Special(c)
    ensures Unescape(e + rest) == [c] + Unescape(rest)
  {
    var s := e + rest;
    assert s[..|e|] == e && s[|e|..] == rest;
    if c == '&' {
      assert StartsWith(s, "&amp;");
    } else if c == '<' {
      assert s[1] == 'l' && StartsWith(s, "&lt;");
    } else if c == '>' {
      assert s[1] == 'g' && StartsWith(s, "&gt;");
    } else if c == '"' {
      assert s[1] == 'q' && StartsWith(s, "&quot;");
    } else {
      assert s[1] == '#' && StartsWith(s, "&#039;");
    }
  }

  /** A character that is not '&' starts no entity and is copied. */
  lemma PlainFirst(c: char, rest: string)
    requires c != '&'
    ensures Unescape([c] + rest) == [c] + Unescape(rest)
  {
    var s := [c] + rest;
    assert s[0] == c && s[1..] == rest;
    FirstCharDiffers(s, "&amp;");
    FirstCharDiffers(s, "&lt;");
    FirstCharDiffers(s, "&gt;");
    FirstCharDiffers(s, "&quot;");
    FirstCharDiffers(s, "&#039;");
  }

  lemma FirstCharDiffers(s: string, prefix: string)
    requires |s| > 0 && |prefix| > 0 && s[0] != prefix[0]
    ensures !StartsWith(s, prefix)
  {
    if |prefix| <= |s| {
      assert s[..|prefix|][0] == s[0];
    }
  }

  /** One escaped character decodes back to itself. */
  lemma UnescapeChar(c: char, rest: string)
    ensures Unescape(EscapeChar(c) + rest) == [c] + Unescape(rest)
  {
    if Special(c) {
      EntityFirst(EscapeChar(c), c, rest);
    } else {
      PlainFirst(c, rest);
    }
  }

  /** Decoding the entities of an escaped text gives the text back. */
  lemma {:induction false} UnescapeEscape(text: string)
    ensures Unescape(EscapeHtml(text)) == text
    decreases |text|
  {
    if text != [] {
      UnescapeChar(text[0], EscapeHtml(text[1..]));
      UnescapeEscape(text[1..]);
      assert [text[0]] + text[1..] == text;
    }
  }

  // ---------------------------------------------------------------------
  // Theme style sheets

  /** The style sheet shared by the three accented themes. */
  function AccentStyles(color: string): (css: string)
    ensures css != ""
  {
    "\n      .markdown-body { color: #3f3f3f; }\n"
    + "      .markdown-body h1, .markdown-body h2, .markdown-body h3 { color: " + color + "; }\n"
    + "      .markdown-body a { color: " + color + "; }\n"
    + "      .markdown-body blockquote { border-left-color: " + color + "; }\n    "
  }

  /** The extra styles of a theme; "" for github and for any other id. */
  function GetThemeStyles(theme: string): (css: string)
    ensures css != "" <==> theme == "wechat-elegant" || theme == "wechat-green" || theme == "wechat-blue"
    ensures theme == "wechat-elegant" ==> css == AccentStyles("#ff6827")
    ensures theme == "wechat-green" ==> css == AccentStyles("#07c160")
    ensures theme == "wechat-blue" ==> css == AccentStyles("#409eff")
  {
    if theme == "github" then ""
    else if theme == "wechat-elegant" then AccentStyles("#ff6827")
    else if theme == "wechat-green" then AccentStyles("#07c160")
    else if theme == "wechat-blue" then AccentStyles("#409eff")
    else ""
  }

  /** Of the preview's themes, only github adds no styles; an id outside
      the table adds none either. */
  lemma StylesFollowThemeTable(theme: string)
    ensures GetThemeStyles(theme) == "" <==> theme == "github" || Themes.GetTheme(theme).None?
  {
    assert Themes.THEMES[0].id == "github";
    assert Themes.THEMES[1].id == "wechat-elegant";
    assert Themes.THEMES[2].id == "wechat-green";
    assert Themes.THEMES[3].id == "wechat-blue";
    if Themes.GetTheme(theme).Some? {
      var t := Themes.GetTheme(theme).value;
      assert t in Themes.THEMES;
    }
  }
}
