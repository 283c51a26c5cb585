/** The preview's theme table, font presets, the CSS font-family string
    built from a preset, and lookup by id. */
module Themes {
  import opened Text

  datatype Theme = Theme(id: string, name: string, className: string)

  datatype FontConfig = FontConfig(id: string, name: string, family: string, fallback: seq<string>)

  const THEMES: seq<Theme> := [
    Theme("github", "GitHub", "theme-github"),
    Theme("wechat-elegant", "微信-优雅橙", "theme-wechat-elegant"),
    Theme("wechat-green", "微信-清新绿", "theme-wechat-green"),
    Theme("wechat-blue", "微信-科技蓝", "theme-wechat-blue")
  ]

  const FONT_PRESETS: seq<FontConfig> := [
    FontConfig("system", "系统默认", "system-ui", ["-apple-system", "Segoe UI", "Roboto", "sans-serif"]),
    FontConfig("pingfang", "苹方", "PingFang SC", ["Microsoft YaHei", "sans-serif"]),
    FontConfig("yahei", "微软雅黑", "Microsoft YaHei", ["PingFang SC", "sans-serif"]),
    FontConfig("source-han-serif", "思源宋体", "Source Han Serif SC", ["Noto Serif SC", "serif"]),
    FontConfig("optima", "Optima", "Optima", ["PingFang SC", "sans-serif"])
  ]

  const CODE_FONT_PRESETS: seq<FontConfig> := [
    FontConfig("jetbrains", "JetBrains Mono", "JetBrains Mono", ["Fira Code", "Consolas", "monospace"]),
    FontConfig("fira", "Fira Code", "Fira Code", ["Consolas", "monospace"]),
    FontConfig("consolas", "Consolas", "Consolas", ["Monaco", "monospace"]),
    FontConfig("monaco", "Monaco", "Monaco", ["Consolas", "monospace"])
  ]

  // ---------------------------------------------------------------------
  // Font-family strings

  /** A font name as CSS wants it: quoted when it contains a space. The
      contract is the two cases themselves; `QuotedCommaFree` and
      `SplitFontFamily` show the joined list splits back into the names. */
  function QuoteName(f: string): (r: string)
    ensures ' ' in f ==> r == "\"" + f + "\""
    ensures ' ' !in f ==> r == f
  {
    if ' ' in f then "\"" + f + "\"" else f
  }

  /** The family first, then the fallbacks in order. */
  function Fonts(config: FontConfig): (fonts: seq<string>)
    ensures |fonts| == 1 + |config.fallback|
    ensures fonts[0] == config.family && fonts[1..] == config.fallback
  {
    [config.family] + config.fallback
  }

  function QuoteAll(fonts: seq<string>): (r: seq<string>)
    ensures |r| == |fonts| && forall i :: 0 <= i < |fonts| ==> r[i] == QuoteName(fonts[i])
  {
    seq(|fonts|, i requires 0 <= i < |fonts| => QuoteName(fonts[i]))
  }

  function BuildFontFamily(config: FontConfig): string {
    Join(QuoteAll(Fonts(config)), ", ")
  }

  /** The pieces a split on ',' sees: the first name as is, every later
      one after the space of its ", ". */
  function Spaced(parts: seq<string>): (r: seq<string>)
    requires |parts| >= 1
    ensures |r| == |parts| && r[0] == parts[0]
    ensures forall i :: 1 <= i < |parts| ==> r[i] == " " + parts[i]
  {
    [parts[0]] + seq(|parts| - 1, i requires 0 <= i < |parts| - 1 => " " + parts[i + 1])
  }

  lemma {:induction false} JoinCommaSpace(parts: seq<string>)
    requires |parts| >= 1
    ensures Join(parts, ", ") == Join(Spaced(parts), ",")
    decreases |parts|
  {
    if |parts| > 1 {
      var tail := parts[1..];
      JoinCommaSpace(tail);
      var s, t := Spaced(parts), Spaced(tail);
      assert s[1..] == [" " + tail[0]] + t[1..];
      if |tail| == 1 {
        assert Join(s[1..], ",") == " " + tail[0];
      } else {
        assert s[1..][1..] == t[1..];
        assert Join(s[1..], ",") == " " + tail[0] + "," + Join(t[1..], ",");
        assert Join(tail, ", ") == Join(t, ",") == tail[0] + "," + Join(t[1..], ",");
      }
    }
  }

  predicate CommaFree(names: seq<string>) {
    forall i :: 0 <= i < |names| ==> ',' !in names[i]
  }

  /** Quoting adds only '"', so comma-free names stay comma-free. */
  lemma QuotedCommaFree(fonts: seq<string>)
    requires CommaFree(fonts)
    ensures CommaFree(QuoteAll(fonts))
  {
    var quoted := QuoteAll(fonts);
    forall i | 0 <= i < |quoted| ensures ',' !in quoted[i] {
      assert ',' !in fonts[i];
      if ' ' in fonts[i] {
        assert quoted[i] == "\"" + fonts[i] + "\"";
      }
    }
  }

  /** The space of ", " brings no comma either. */
  lemma SpacedCommaFree(parts: seq<string>)
    requires |parts| >= 1 && CommaFree(parts)
    ensures NoneContain(Spaced(parts), {','})
  {
    var spaced := Spaced(parts);
    forall i, c | 0 <= i < |spaced| && c in spaced[i] ensures c !in {','} {
      assert ',' !in parts[i];
      if i > 0 {
        assert spaced[i] == " " + parts[i];
      }
    }
  }

  /** Splitting the family string on ',' gives the spaced, quoted names. */
  lemma SplitFontFamily(config: FontConfig)
    requires CommaFree(Fonts(config))
    ensures SplitOn(BuildFontFamily(config), {','}) == Spaced(QuoteAll(Fonts(config)))
  {
    var quoted := QuoteAll(Fonts(config));
    JoinCommaSpace(quoted);
    QuotedCommaFree(Fonts(config));
    SpacedCommaFree(quoted);
    SplitJoin(Spaced(quoted), ',');
  }

  /** When no font name contains a comma, splitting the family string on
      ',' gives one entry per font, in order: the family, then each
      fallback, each quoted when it has a space. */
  lemma FontFamilyEntries(config: FontConfig)
    requires CommaFree(Fonts(config))
    ensures var entries := SplitOn(BuildFontFamily(config), {','});
      |entries| == 1 + |config.fallback|
      && entries[0] == QuoteName(config.family)
      && forall i :: 1 <= i < |entries| ==> entries[i] == " " + QuoteName(config.fallback[i - 1])
  {
    SplitFontFamily(config);
    var fonts := Fonts(config);
    assert forall i :: 1 <= i < |fonts| ==> fonts[i] == config.fallback[i - 1];
  }

  // ---------------------------------------------------------------------
  // Lookup by id

  /** The first position holding `id`, as Array.prototype.find scans. */
  function FirstIndex(ids: seq<string>, id: string): (r: Option<nat>)
    ensures r.Some? ==> r.value < |ids| && ids[r.value] == id
    ensures r.Some? ==> forall j :: 0 <= j < r.value ==> ids[j] != id
    ensures r.None? <==> id !in ids
    decreases |ids|
  {
    if ids == [] then None
    else if ids[0] == id then Some(0)
    else match FirstIndex(ids[1..], id)
      case Some(k) => Some(k + 1)
      case None => None
  }

  function ThemeIds(): (ids: seq<string>)
    ensures |ids| == |THEMES| && forall i :: 0 <= i < |THEMES| ==> ids[i] == THEMES[i].id
  {
    seq(|THEMES|, i requires 0 <= i < |THEMES| => THEMES[i].id)
  }

  function FontIds(): (ids: seq<string>)
    ensures |ids| == |FONT_PRESETS| && forall i :: 0 <= i < |FONT_PRESETS| ==> ids[i] == FONT_PRESETS[i].id
  {
    seq(|FONT_PRESETS|, i requires 0 <= i < |FONT_PRESETS| => FONT_PRESETS[i].id)
  }

  function GetTheme(id: string): (r: Option<Theme>)
    ensures r.Some? ==> r.value.id == id && r.value in THEMES
    ensures r.None? <==> forall i :: 0 <= i < |THEMES| ==> THEMES[i].id != id
  {
    match FirstIndex(ThemeIds(), id)
    case Some(i) => Some(THEMES[i])
    case None => None
  }

  function GetFont(id: string): (r: Option<FontConfig>)
    ensures r.Some? ==> r.value.id == id && r.value in FONT_PRESETS
    ensures r.None? <==> forall i :: 0 <= i < |FONT_PRESETS| ==> FONT_PRESETS[i].id != id
  {
    match FirstIndex(FontIds(), id)
    case Some(i) => Some(FONT_PRESETS[i])
    case None => None
  }

  predicate Distinct(ids: seq<string>) {
    forall i, j :: 0 <= i < j < |ids| ==> ids[i] != ids[j]
  }

  /** With distinct ids, the first match is the only one. */
  lemma FirstIndexOfDistinct(ids: seq<string>, k: nat)
    requires Distinct(ids) && k < |ids|
    ensures FirstIndex(ids, ids[k]) == Some(k)
  {
  }

  /** The theme and font tables have distinct ids, so every entry is found
      by its own id. */
  lemma TablesFindEveryEntry(k: nat)
    ensures Distinct(ThemeIds()) && Distinct(FontIds())
    ensures k < |THEMES| ==> GetTheme(THEMES[k].id) == Some(THEMES[k])
    ensures k < |FONT_PRESETS| ==> GetFont(FONT_PRESETS[k].id) == Some(FONT_PRESETS[k])
  {
    var t, f := ThemeIds(), FontIds();
    assert t == ["github", "wechat-elegant", "wechat-green", "wechat-blue"];
    assert f == ["system", "pingfang", "yahei", "source-han-serif", "optima"];
    if k < |THEMES| { FirstIndexOfDistinct(t, k); }
    if k < |FONT_PRESETS| { FirstIndexOfDistinct(f, k); }
  }
}
