/** The responsive style resolver: `toPropValue` turns a CSS property name and a
    bare or breakpoint-keyed value into CSS text, substituting design tokens from
    the theme's scales on the way (`toThemeValueIfNeeded`).
 */
module Styles {
  import opened JsValues

  /** Minimum viewport width of each breakpoint other than `base`. */
  const BREAKPOINTS: map<string, string> :=
    map["sm" := "640px", "md" := "768px", "lg" := "1024px", "xl" := "1280px"]

  /** The keys of a `ResponsiveProp`. */
  const RESPONSIVE_KEYS: set<string> := {"base", "sm", "md", "lg", "xl"}

  const SPACE_KEYS: set<string> := {
    "margin", "margin-top", "margin-left", "margin-bottom", "margin-right",
    "padding", "padding-top", "padding-left", "padding-bottom", "padding-right"
  }
  const COLOR_KEYS: set<string> := {"color", "background-color"}
  const FONT_SIZE_KEYS: set<string> := {"font-size"}
  const LETTER_SPACING_KEYS: set<string> := {"letter-spacing"}
  const LINE_HEIGHT_KEYS: set<string> := {"line-height"}

  /** The theme's named scales; an absent scale is `undefined`. */
  datatype Theme = Theme(
    space: Option<Props>,
    colors: Option<Props>,
    fontSizes: Option<Props>,
    letterSpacings: Option<Props>,
    lineHeights: Option<Props>)

  /** Which key set, if any, a property name belongs to. */
  datatype Category = Space | Color | FontSize | LetterSpacing | LineHeight | Unscaled

  function CategoryOf(propKey: string): (c: Category)
    ensures c == Space <==> propKey in SPACE_KEYS
    ensures c == Color <==> propKey in COLOR_KEYS
    ensures c == FontSize <==> propKey in FONT_SIZE_KEYS
    ensures c == LetterSpacing <==> propKey in LETTER_SPACING_KEYS
    ensures c == LineHeight <==> propKey in LINE_HEIGHT_KEYS
  {
    if propKey in SPACE_KEYS then Space
    else if propKey in COLOR_KEYS then Color
    else if propKey in FONT_SIZE_KEYS then FontSize
    else if propKey in LETTER_SPACING_KEYS then LetterSpacing
    else if propKey in LINE_HEIGHT_KEYS then LineHeight
    else Unscaled
  }

  /** The scale a category reads from. */
  function ScaleOf(theme: Theme, c: Category): Option<Props> {
    match c
    case Space => theme.space
    case Color => theme.colors
    case FontSize => theme.fontSizes
    case LetterSpacing => theme.letterSpacings
    case LineHeight => theme.lineHeights
    case Unscaled => None
  }

  /** No property name is in two of the key sets. */
  lemma KeySetsDisjoint()
    ensures SPACE_KEYS !! COLOR_KEYS && SPACE_KEYS !! FONT_SIZE_KEYS
    ensures SPACE_KEYS !! LETTER_SPACING_KEYS && SPACE_KEYS !! LINE_HEIGHT_KEYS
    ensures COLOR_KEYS !! FONT_SIZE_KEYS && COLOR_KEYS !! LETTER_SPACING_KEYS
    ensures COLOR_KEYS !! LINE_HEIGHT_KEYS && FONT_SIZE_KEYS !! LETTER_SPACING_KEYS
    ensures FONT_SIZE_KEYS !! LINE_HEIGHT_KEYS && LETTER_SPACING_KEYS !! LINE_HEIGHT_KEYS
  {
  }

  // ---- theme keys ----

  /** `keys.filter((key) => key == v)` */
  function MatchingKeys(keys: seq<string>, v: Value): (r: seq<string>)
    ensures forall k :: k in r ==> k in keys && LooseEquals(k, v)
    ensures forall k :: k in keys && LooseEquals(k, v) ==> k in r
    ensures |r| <= |keys|
    ensures v == Undefined || v == Null ==> r == []
  {
    if keys == [] then []
    else (if LooseEquals(keys[0], v) then [keys[0]] else []) + MatchingKeys(keys[1..], v)
  }

  /** `Object.keys(scale).filter((key) => key == v).length > 0`: the body that
      isSpaceThemeKeys, isColorThemeKeys, isFontSizeThemeKeys,
      isLetterSpacingKeys and isLineHeightKeys share, each on its own scale. */
  predicate IsScaleKey(v: Value, scale: Props): (b: bool)
    ensures b ==> |scale| > 0 && v != Undefined && v != Null
  {
    |MatchingKeys(Keys(scale), v)| > 0
  }

  /** `v` is a theme key of `scale` exactly when some key of the scale is
      loosely equal to it. */
  lemma IsScaleKeyIff(v: Value, scale: Props)
    ensures IsScaleKey(v, scale) <==> exists i :: 0 <= i < |scale| && LooseEquals(scale[i].0, v)
  {
    var keys := Keys(scale);
    var m := MatchingKeys(keys, v);
    if |m| > 0 {
      assert m[0] in m;
      var i :| 0 <= i < |keys| && keys[i] == m[0];
      assert LooseEquals(scale[i].0, v);
    }
    if i :| 0 <= i < |scale| && LooseEquals(scale[i].0, v) {
      assert keys[i] in keys;
    }
  }

  /** `toThemeValueIfNeeded(propKey, v, theme)`, as written: the last `else if`
      has no braces, so `return value` is its body, and a value that no branch
      matches falls off the end of the function and yields `undefined`. */
  function ThemeValue(propKey: string, v: Value, theme: Option<Theme>): (r: Value)
    ensures r != Undefined ==> theme.Some? && ScaleOf(theme.value, CategoryOf(propKey)).Some?
    ensures CategoryOf(propKey) == LineHeight ==> r == Undefined || r == v
  {
    if theme.Some? && theme.value.space.Some? && propKey in SPACE_KEYS
       && IsScaleKey(v, theme.value.space.value) then
      Property(theme.value.space.value, ToJsString(v))
    else if theme.Some? && theme.value.colors.Some? && propKey in COLOR_KEYS
       && IsScaleKey(v, theme.value.colors.value) then
      Property(theme.value.colors.value, ToJsString(v))
    else if theme.Some? && theme.value.fontSizes.Some? && propKey in FONT_SIZE_KEYS
       && IsScaleKey(v, theme.value.fontSizes.value) then
      Property(theme.value.fontSizes.value, ToJsString(v))
    else if theme.Some? && theme.value.letterSpacings.Some? && propKey in LETTER_SPACING_KEYS
       && IsScaleKey(v, theme.value.letterSpacings.value) then
      Property(theme.value.letterSpacings.value, ToJsString(v))
    else if theme.Some? && theme.value.lineHeights.Some? && propKey in LINE_HEIGHT_KEYS
       && IsScaleKey(v, theme.value.lineHeights.value) then
      v
    else
      Undefined
  }

  /** The theme is present, the property has a scale, and one of that scale's
      keys is loosely equal to `v`. */
  predicate MatchesScale(propKey: string, v: Value, theme: Option<Theme>) {
    theme.Some? && ScaleOf(theme.value, CategoryOf(propKey)).Some? &&
    var scale := ScaleOf(theme.value, CategoryOf(propKey)).value;
    exists i :: 0 <= i < |scale| && LooseEquals(scale[i].0, v)
  }

  /** What `toThemeValueIfNeeded` gives, by the one category of the property:
      the scale's entry for a matched space, colour, font-size or
      letter-spacing value; the raw value for a matched line-height value; and
      `undefined` in every other case. */
  lemma ThemeValueByCategory(propKey: string, v: Value, theme: Option<Theme>)
    ensures !MatchesScale(propKey, v, theme) ==> ThemeValue(propKey, v, theme) == Undefined
    ensures MatchesScale(propKey, v, theme) && CategoryOf(propKey) == LineHeight ==>
              ThemeValue(propKey, v, theme) == v
    ensures MatchesScale(propKey, v, theme) && CategoryOf(propKey) != LineHeight ==>
              ThemeValue(propKey, v, theme) ==
                Property(ScaleOf(theme.value, CategoryOf(propKey)).value, ToJsString(v))
  {
    if theme.Some? {
      var c := CategoryOf(propKey);
      if ScaleOf(theme.value, c).Some? {
        IsScaleKeyIff(v, ScaleOf(theme.value, c).value);
      }
    }
  }

  /** A string, number or object value whose string form is a key of the
      property's space, colour, font-size or letter-spacing scale is replaced by
      that key's entry. */
  lemma SubstitutesScaleEntry(propKey: string, v: Value, theme: Theme, i: nat)
    requires CategoryOf(propKey) != LineHeight && CategoryOf(propKey) != Unscaled
    requires ScaleOf(theme, CategoryOf(propKey)).Some?
    requires DistinctKeys(ScaleOf(theme, CategoryOf(propKey)).value)
    requires i < |ScaleOf(theme, CategoryOf(propKey)).value|
    requires ScaleOf(theme, CategoryOf(propKey)).value[i].0 == ToJsString(v)
    requires v.Str? || v.Num? || v.Obj?
    ensures ThemeValue(propKey, v, Some(theme)) == ScaleOf(theme, CategoryOf(propKey)).value[i].1
  {
    var scale := ScaleOf(theme, CategoryOf(propKey)).value;
    LooseEqualsOwnString(v);
    assert MatchesScale(propKey, v, Some(theme));
    ThemeValueByCategory(propKey, v, Some(theme));
    PropertyOfDistinct(scale, i);
  }

  // ---- responsive values ----

  /** `v.base`, `v.sm`, `v.md`, `v.lg`, `v.xl`: no string, number or boolean
      has a property with one of these names, so only objects can give
      anything but `undefined`. */
  function BreakpointValue(v: Value, key: string): (r: Value)
    requires key in RESPONSIVE_KEYS
    ensures !v.Obj? ==> r == Undefined
    ensures v.Obj? && (forall i :: 0 <= i < |v.props| ==> v.props[i].0 != key) ==> r == Undefined
    ensures v.Obj? && DistinctKeys(v.props) ==>
              forall i :: 0 <= i < |v.props| && v.props[i].0 == key ==> r == v.props[i].1
  {
    if v.Obj? then PropertyOfDistinctName(v.props, key); Property(v.props, key) else Undefined
  }

  /** `isReponsivePropType(prop)`: `prop` is truthy and one of its breakpoint
      properties is not `undefined`. */
  predicate IsResponsivePropType(v: Value): (b: bool)
    ensures b ==> v.Obj?
  {
    Truthy(v) &&
    (BreakpointValue(v, "base") != Undefined || BreakpointValue(v, "sm") != Undefined ||
     BreakpointValue(v, "md") != Undefined || BreakpointValue(v, "lg") != Undefined ||
     BreakpointValue(v, "xl") != Undefined)
  }

  /** A well-formed value is responsive exactly when it is an object with a
      breakpoint key whose value is not `undefined`; falsy values, strings,
      numbers and booleans never are. */
  lemma ResponsiveIff(v: Value)
    requires WellFormed(v)
    ensures IsResponsivePropType(v) <==>
              v.Obj? && exists i :: 0 <= i < |v.props| && v.props[i].0 in RESPONSIVE_KEYS
                                    && v.props[i].1 != Undefined
  {
    if v.Obj? {
      var ps := v.props;
      if IsResponsivePropType(v) {
        var name :| name in RESPONSIVE_KEYS && Property(ps, name) != Undefined;
        var i :| 0 <= i < |ps| && ps[i] == (name, Property(ps, name));
        assert ps[i].0 in RESPONSIVE_KEYS && ps[i].1 != Undefined;
      }
      if i :| 0 <= i < |ps| && ps[i].0 in RESPONSIVE_KEYS && ps[i].1 != Undefined {
        PropertyOfDistinct(ps, i);
      }
    }
  }

  /** `${propKey}: ${value};` */
  function Declaration(propKey: string, value: Value): (r: string)
    ensures |propKey| < |r| && r[..|propKey|] == propKey && r[|r| - 1] == ';'
    ensures '\n' !in propKey && '\n' !in ToJsString(value) ==> '\n' !in r
  {
    propKey + ": " + ToJsString(value) + ";"
  }

  /** The line the resolver writes for breakpoint `key` around the declaration
      `style`. */
  function BreakpointLine(key: string, style: string): (r: string)
    requires key in RESPONSIVE_KEYS
    ensures key == "base" ==> r == style
    ensures key != "base" ==> |style| < |r| && r[|r| - |style| - 1..|r| - 1] == style && r[|r| - 1] == '}'
    ensures '\n' !in style ==> '\n' !in r
  {
    if key == "base" then style
    else
      var head := "@media screen and (min-width: " + BREAKPOINTS[key] + ") {";
      assert '\n' !in BREAKPOINTS[key];
      var r := head + style + "}";
      assert r[|head|..|head| + |style|] == style;
      r
  }

  /** The `base` line is the bare declaration; each other breakpoint's line is
      the declaration inside a media query on that breakpoint's minimum width. */
  lemma BreakpointLineShape(style: string)
    ensures BreakpointLine("base", style) == style
    ensures BreakpointLine("sm", style) == "@media screen and (min-width: " + "640px" + ") {" + style + "}"
    ensures BreakpointLine("md", style) == "@media screen and (min-width: " + "768px" + ") {" + style + "}"
    ensures BreakpointLine("lg", style) == "@media screen and (min-width: " + "1024px" + ") {" + style + "}"
    ensures BreakpointLine("xl", style) == "@media screen and (min-width: " + "1280px" + ") {" + style + "}"
  {
  }

  /** The line for the property `key: v` of a responsive value. */
  function EntryLine(propKey: string, key: string, v: Value, theme: Option<Theme>): string
    requires key in RESPONSIVE_KEYS
  {
    BreakpointLine(key, Declaration(propKey, ThemeValue(propKey, v, theme)))
  }

  /** The lines `toPropValue` pushes for the properties `ps`, in `for...in`
      order: one per breakpoint key, nothing for any other key. */
  function ResponsiveLines(propKey: string, ps: Props, theme: Option<Theme>): seq<string> {
    if ps == [] then []
    else
      var last := ps[|ps| - 1];
      ResponsiveLines(propKey, ps[..|ps| - 1], theme) +
      (if last.0 in RESPONSIVE_KEYS then [EntryLine(propKey, last.0, last.1, theme)] else [])
  }

  /** How many of the properties `ps` have a breakpoint key. */
  function CountRecognised(ps: Props): nat {
    if ps == [] then 0
    else CountRecognised(ps[..|ps| - 1]) + (if ps[|ps| - 1].0 in RESPONSIVE_KEYS then 1 else 0)
  }

  lemma {:induction false} CountRecognisedPrefix(ps: Props, i: nat)
    requires i < |ps| && ps[i].0 in RESPONSIVE_KEYS
    ensures CountRecognised(ps[..i]) < CountRecognised(ps)
    decreases |ps|
  {
    var n := |ps| - 1;
    if i < n {
      assert ps[..n][..i] == ps[..i];
      CountRecognisedPrefix(ps[..n], i);
    } else {
      assert ps[..n] == ps[..i];
    }
  }

  /** There is one line per breakpoint key, and the line for the property at
      index `i` comes after the lines of every earlier breakpoint key. */
  lemma {:induction false} ResponsiveLinesInKeyOrder(propKey: string, ps: Props, theme: Option<Theme>)
    ensures |ResponsiveLines(propKey, ps, theme)| == CountRecognised(ps)
    ensures forall i :: 0 <= i < |ps| && ps[i].0 in RESPONSIVE_KEYS ==>
              CountRecognised(ps[..i]) < CountRecognised(ps) &&
              ResponsiveLines(propKey, ps, theme)[CountRecognised(ps[..i])] ==
                EntryLine(propKey, ps[i].0, ps[i].1, theme)
    decreases |ps|
  {
    if ps != [] {
      var n := |ps| - 1;
      var init := ps[..n];
      ResponsiveLinesInKeyOrder(propKey, init, theme);
      forall i | 0 <= i < |ps| && ps[i].0 in RESPONSIVE_KEYS
        ensures CountRecognised(ps[..i]) < CountRecognised(ps) &&
                ResponsiveLines(propKey, ps, theme)[CountRecognised(ps[..i])] ==
                  EntryLine(propKey, ps[i].0, ps[i].1, theme)
      {
        CountRecognisedPrefix(ps, i);
        if i < n {
          assert init[..i] == ps[..i];
          assert init[i] == ps[i];
        } else {
          assert init == ps[..i];
        }
      }
    }
  }

  /** A responsive value has at least one line. */
  lemma ResponsiveHasALine(propKey: string, v: Value, theme: Option<Theme>)
    requires WellFormed(v) && IsResponsivePropType(v)
    ensures v.Obj? && |ResponsiveLines(propKey, v.props, theme)| >= 1
  {
    ResponsiveIff(v);
    var i :| 0 <= i < |v.props| && v.props[i].0 in RESPONSIVE_KEYS && v.props[i].1 != Undefined;
    ResponsiveLinesInKeyOrder(propKey, v.props, theme);
  }

  // ---- joining lines ----

  /** `lines.join(sep)`: no lines give the empty string, and the text ends
      with the last line, with no separator after it. */
  function Join(lines: seq<string>, sep: string): (r: string)
    ensures lines == [] ==> r == ""
    ensures lines != [] ==>
              |lines[|lines| - 1]| <= |r| && r[|r| - |lines[|lines| - 1]|..] == lines[|lines| - 1]
  {
    if lines == [] then ""
    else if |lines| == 1 then lines[0]
    else lines[0] + sep + Join(lines[1..], sep)
  }

  /** `s.split(c)`: the pieces of `s` between occurrences of `c`. */
  function Split(s: string, c: char): (r: seq<string>)
    ensures |r| >= 1
  {
    if s == [] then [""]
    else
      var rest := Split(s[1..], c);
      if s[0] == c then [""] + rest else [[s[0]] + rest[0]] + rest[1..]
  }

  lemma {:induction false} SplitWithoutSeparator(s: string, c: char)
    requires c !in s
    ensures Split(s, c) == [s]
  {
    if s != [] {
      SplitWithoutSeparator(s[1..], c);
      assert [s[0]] + s[1..] == s;
    }
  }

  lemma {:induction false} SplitAfterFirst(x: string, c: char, t: string)
    requires c !in x
    ensures Split(x + [c] + t, c) == [x] + Split(t, c)
  {
    if x == [] {
      assert x + [c] + t == [c] + t;
      assert ([c] + t)[1..] == t;
    } else {
      SplitAfterFirst(x[1..], c, t);
      assert (x + [c] + t)[1..] == x[1..] + [c] + t;
      assert [x[0]] + x[1..] == x;
    }
  }

  /** Joining lines that hold no separator with it, and splitting the text on
      it again, gives back the lines: every line is separated from the next by
      exactly one separator and there is none after the last. */
  lemma {:induction false} SplitJoin(lines: seq<string>, c: char)
    requires |lines| >= 1
    requires forall k :: 0 <= k < |lines| ==> c !in lines[k]
    ensures Split(Join(lines, [c]), c) == lines
  {
    if |lines| == 1 {
      SplitWithoutSeparator(lines[0], c);
    } else {
      SplitJoin(lines[1..], c);
      SplitAfterFirst(lines[0], c, Join(lines[1..], [c]));
      assert [lines[0]] + lines[1..] == lines;
    }
  }

  // ---- toPropValue ----

  /** One more property adds its breakpoint line, if it has one. */
  lemma ResponsiveLinesStep(propKey: string, ps: Props, i: nat, theme: Option<Theme>)
    requires i < |ps|
    ensures ResponsiveLines(propKey, ps[..i + 1], theme) ==
              ResponsiveLines(propKey, ps[..i], theme) +
              (if ps[i].0 in RESPONSIVE_KEYS then [EntryLine(propKey, ps[i].0, ps[i].1, theme)] else [])
  {
    assert ps[..i + 1][..i] == ps[..i];
  }

  /** The line for a breakpoint other than `base` is its declaration inside a
      media query on that breakpoint's minimum width. */
  lemma MediaEntryLine(propKey: string, key: string, v: Value, theme: Option<Theme>)
    requires key in BREAKPOINTS
    ensures key in RESPONSIVE_KEYS
    ensures EntryLine(propKey, key, v, theme) ==
              "@media screen and (min-width: " + BREAKPOINTS[key] + ") {" +
              Declaration(propKey, ThemeValue(propKey, v, theme)) + "}"
  {
  }

  /** What `toPropValue(propKey, prop, theme)` returns; `None` is `undefined`.
      An omitted `prop` and an explicit `undefined` are the same value,
      `Undefined`. */
  function PropValue(propKey: string, prop: Value, theme: Option<Theme>): (r: Option<string>)
    ensures r.None? <==> prop == Undefined
  {
    if prop == Undefined then None
    else if IsResponsivePropType(prop) then Some(Join(ResponsiveLines(propKey, prop.props, theme), "\n"))
    else Some(Declaration(propKey, ThemeValue(propKey, prop, theme)))
  }

  /** The `for...in` loop of `toPropValue`: pushes one line per breakpoint key
      onto `result`, in the properties' own order. */
  method CollectLines(propKey: string, ps: Props, theme: Option<Theme>) returns (result: seq<string>)
    ensures result == ResponsiveLines(propKey, ps, theme)
  {
    result := [];
    var i := 0;
    while i < |ps|
      invariant 0 <= i <= |ps|
      invariant result == ResponsiveLines(propKey, ps[..i], theme)
    {
      var (responsiveKey, value) := ps[i];
      ResponsiveLinesStep(propKey, ps, i, theme);
      if responsiveKey == "base" {
        result := result + [Declaration(propKey, ThemeValue(propKey, value, theme))];
      } else if responsiveKey == "sm" || responsiveKey == "md" || responsiveKey == "lg" || responsiveKey == "xl" {
        var breakpoint := BREAKPOINTS[responsiveKey];
        var style := Declaration(propKey, ThemeValue(propKey, value, theme));
        MediaEntryLine(propKey, responsiveKey, value, theme);
        result := result + ["@media screen and (min-width: " + breakpoint + ") {" + style + "}"];
      }
      i := i + 1;
    }
    assert ps[..i] == ps;
  }

  /** `toPropValue`: `undefined` for an absent value; for a responsive value
      the breakpoint lines, in the value's own key order, joined with
      newlines; for any other value one declaration. */
  method ToPropValue(propKey: string, prop: Value, theme: Option<Theme>) returns (r: Option<string>)
    ensures r == PropValue(propKey, prop, theme)
  {
    if prop == Undefined {
      return None;
    }
    if IsResponsivePropType(prop) {
      var result := CollectLines(propKey, prop.props, theme);
      return Some(Join(result, "\n"));
    }
    return Some(Declaration(propKey, ThemeValue(propKey, prop, theme)));
  }

  /** An absent or `undefined` value gives `undefined`. */
  lemma AbsentIsUndefined(propKey: string, theme: Option<Theme>)
    ensures PropValue(propKey, Undefined, theme) == None
  {
  }

  /** A defined value with no breakpoint key whose value is defined — a
      string, a number, a boolean, `null`, an object without breakpoints —
      gives exactly one declaration of its theme value. */
  lemma BareValueIsOneDeclaration(propKey: string, v: Value, theme: Option<Theme>)
    requires v != Undefined
    requires WellFormed(v)
    requires v.Obj? ==> forall i :: 0 <= i < |v.props| && v.props[i].0 in RESPONSIVE_KEYS ==>
                                      v.props[i].1 == Undefined
    ensures PropValue(propKey, v, theme) ==
              Some(propKey + ": " + ToJsString(ThemeValue(propKey, v, theme)) + ";")
  {
    ResponsiveIff(v);
  }

  /** Lines without a newline: a property name and theme values without one
      give lines without one. */
  lemma {:induction false} LinesWithoutNewline(propKey: string, ps: Props, theme: Option<Theme>)
    requires '\n' !in propKey
    requires forall i :: 0 <= i < |ps| ==> '\n' !in ToJsString(ThemeValue(propKey, ps[i].1, theme))
    ensures forall k :: 0 <= k < |ResponsiveLines(propKey, ps, theme)| ==>
              '\n' !in ResponsiveLines(propKey, ps, theme)[k]
    decreases |ps|
  {
    if ps != [] {
      var n := |ps| - 1;
      assert forall i :: 0 <= i < n ==> ps[..n][i] == ps[i];
      LinesWithoutNewline(propKey, ps[..n], theme);
    }
  }

  /** The text for a responsive value is its breakpoint lines, one per
      breakpoint key in key order, separated by single newlines with none at
      the end: splitting it on newlines gives the lines back. */
  lemma ResponsiveTextIsItsLines(propKey: string, v: Value, theme: Option<Theme>)
    requires WellFormed(v) && IsResponsivePropType(v)
    requires '\n' !in propKey
    requires forall i :: 0 <= i < |v.props| ==> '\n' !in ToJsString(ThemeValue(propKey, v.props[i].1, theme))
    ensures PropValue(propKey, v, theme).Some?
    ensures Split(PropValue(propKey, v, theme).value, '\n') == ResponsiveLines(propKey, v.props, theme)
  {
    ResponsiveHasALine(propKey, v, theme);
    LinesWithoutNewline(propKey, v.props, theme);
    SplitJoin(ResponsiveLines(propKey, v.props, theme), '\n');
  }

  /** Without a theme, or for a property outside every key set, a bare value
      is written as `undefined`: `display: flex` comes out as
      `display: undefined;`. */
  lemma UnscaledBareValueIsUndefined(theme: Option<Theme>)
    ensures PropValue("display", Str("flex"), theme) == Some("display: undefined;")
    ensures PropValue("margin", Str("8px"), None) == Some("margin: undefined;")
  {
    assert CategoryOf("display") == Unscaled;
    assert ThemeValue("display", Str("flex"), theme) == Undefined;
    assert "display" + ": " + "undefined" + ";" == "display: undefined;";
    assert "margin" + ": " + "undefined" + ";" == "margin: undefined;";
  }

  /** A theme whose space scale maps `0`, `1` and `2` to `0px`, `8px` and `16px`. */
  predicate ExampleTheme(theme: Theme) {
    theme.space == Some([("0", Str("0px")), ("1", Str("8px")), ("2", Str("16px"))])
  }

  /** A numeric value matches the scale key that spells it and is replaced by
      the key's entry; so does a string value. */
  lemma ExampleSpaceEntries(theme: Theme)
    requires ExampleTheme(theme)
    ensures ThemeValue("padding", Str("2"), Some(theme)) == Str("16px")
    ensures ThemeValue("margin", Num(1), Some(theme)) == Str("8px")
  {
    SubstitutesScaleEntry("padding", Str("2"), theme, 2);
    assert ToJsString(Num(1)) == "1";
    SubstitutesScaleEntry("margin", Num(1), theme, 1);
  }

  /** A `line-height` value that matches a key of the `lineHeights` scale is
      written as it is, without a lookup. */
  lemma LineHeightKeepsRawValue(v: Value, theme: Theme, i: nat)
    requires theme.lineHeights.Some? && i < |theme.lineHeights.value|
    requires LooseEquals(theme.lineHeights.value[i].0, v)
    ensures ThemeValue("line-height", v, Some(theme)) == v
  {
    assert MatchesScale("line-height", v, Some(theme));
    ThemeValueByCategory("line-height", v, Some(theme));
  }

  /** `key == value` can match where `scale[value]` then misses: `1` is loosely
      equal to the key `"01"`, but `scale[1]` reads the key `"1"`. */
  lemma LooseMatchMissesLookup(theme: Theme)
    requires theme.space == Some([("01", Str("4px"))])
    ensures ThemeValue("margin", Num(1), Some(theme)) == Undefined
  {
    var scale := theme.space.value;
    assert DigitsValue("01"[..1]) == 0;
    assert LooseEquals(scale[0].0, Num(1));
    assert MatchesScale("margin", Num(1), Some(theme));
    ThemeValueByCategory("margin", Num(1), Some(theme));
    assert ToJsString(Num(1)) == "1";
  }
}
