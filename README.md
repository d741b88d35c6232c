# Responsive style resolver, modelled in Dafny

This project models the style utility of a small Next.js front-end
(`src/utils/styles.ts`). `toPropValue(propKey, prop, theme)` turns a CSS
property name and a *responsive* value into CSS text:

- an absent value gives `undefined`. An omitted argument and an explicit
  `undefined` are the same JavaScript value, `Undefined` in the model;
- a bare value gives one declaration `propKey: value;`;
- a breakpoint map (`ResponsiveProp`: `base`, `sm`, `md`, `lg`, `xl`) gives one
  line per breakpoint key, in the map's own key order, joined by newlines. The
  `base` line is a bare declaration. Each other line is wrapped in
  `@media screen and (min-width: W) {...}`, with W = 640px, 768px, 1024px or
  1280px.

Every value passes through `toThemeValueIfNeeded` first. That function replaces a
design-token key with the entry of the matching theme scale (space, colors,
fontSizes, letterSpacings). The property name's key set picks the scale.

The model follows the code as written. The last `else if` of
`toThemeValueIfNeeded` has no braces, so `return value` is its body. The raw
value comes back only when a `line-height` value matches a `lineHeights` key. Every other
unmatched value makes the function fall off its end and return `undefined`, so
`toPropValue("display", "flex")` gives `display: undefined;`
(`Styles.UnscaledBareValueIsUndefined`). The function's name suggests that
unmatched values pass through unchanged. The code does not do that, and the
model follows the code.

Files:

- `js_values.dfy`, module `JsValues`: the JavaScript semantics the resolver
  relies on. This covers values (`undefined`, `null`, booleans, integers, strings,
  plain objects as ordered property lists), truthiness, `String(v)` (used by
  template literals and property keys), property lookup and the loose `key == value`.
- `styles.dfy`, module `Styles`: the `BREAKPOINTS` table, the five `*_KEYS`
  sets, the theme, `toThemeValueIfNeeded` (`ThemeValue`), the five
  `is*ThemeKeys` predicates and `isReponsivePropType`. It also holds
  `toPropValue` as an imperative method (`ToPropValue`) that pushes lines in a
  loop and joins them. That method is proved equal to the specification
  function `PropValue`, and the lemmas are stated about `PropValue`.

The five predicates `isSpaceThemeKeys` … `isLineHeightKeys` have the same body
over different scales. They are modelled once, as `IsScaleKey(v, scale)`.
`ScaleOf` picks the scale.

The theme module itself is not part of this model. The theme is a parameter: a record of
optional scales, each an object (a property list).

## Model

| member | source | states |
|---|---|---|
| `JsValues.Property` | src/utils/styles.ts:133-154 | `scale[key]` is `undefined` when no property has that name, and otherwise the value of a property with that name |
| `JsValues.PropertyOfDistinct` | src/utils/styles.ts:49-54 | in an object with unique keys, looking up a property's own key gives that property's value, so reading `prop[responsiveKey]` inside `for...in` gives the entry's value |
| `JsValues.NumberRoundTrip` | src/utils/styles.ts:170 | `Number(String(n)) == n` for every integer, so a number is loosely equal to the key that spells it |
| `JsValues.LooseEqualsOwnString` | src/utils/styles.ts:170 | `String(v) == v` holds exactly for strings, numbers and objects, and fails for booleans, `null` and `undefined` |
| `JsValues.IntToString` | src/utils/styles.ts:133 | the string form of an integer (as a template literal or property key writes it) has a minus sign exactly when the number is negative, followed by decimal digits with no leading zero (only `0` itself starts with `0`) |
| `JsValues.ToJsString` | src/utils/styles.ts:52-77 | the text `${v}` writes; a number's text reads back as that number, and the text of a boolean, `null` or `undefined` reads as no number |
| `JsValues.LooseEquals` | src/utils/styles.ts:170 | `key == prop`, where a number is compared with `Number(key)` (`JsValues.StringToNumber`): it never holds for `null` or `undefined`; a number matches a key exactly when the key reads as the same number as the number's own text |
| `Styles.IsScaleKey` | src/utils/styles.ts:165-190 | the shared body of the five `is*ThemeKeys` predicates; it never holds on an empty scale or for `null`/`undefined` (the iff is `Styles.IsScaleKeyIff`) |
| `Styles.ThemeValue` | src/utils/styles.ts:126-163 | `toThemeValueIfNeeded` as written: a defined result needs a theme with the scale of the property's own category, and a `line-height` value comes back either unchanged or `undefined` (the full case split is `Styles.ThemeValueByCategory`) |
| `Styles.BreakpointValue` | src/utils/styles.ts:88-92 | `prop.base` … `prop.xl`: `undefined` for a non-object and for an object without that key; in an object with unique keys, the value of the entry with that key |
| `Styles.IsResponsivePropType` | src/utils/styles.ts:85-94 | `prop && (...)`, with `prop &&` as JavaScript truthiness (`JsValues.Truthy`): only an object can be responsive (the iff is `Styles.ResponsiveIff`) |
| `Styles.Declaration` | src/utils/styles.ts:51-57 | `${propKey}: ${t};` starts with the property name and ends with `;`, and has no newline when its parts have none |
| `Styles.BreakpointLine` | src/utils/styles.ts:64-71 | the `base` line is the declaration itself; every other line ends with the declaration followed by `}`; no newline is added |
| `Styles.Join` | src/utils/styles.ts:74 | `join` of no lines is empty, and the text ends with the last line, with no separator after it |
| `Styles.CategoryOf` | src/utils/styles.ts:101-117 | each property name is in at most one of the five key sets; the category is the set it belongs to |
| `Styles.KeySetsDisjoint` | src/utils/styles.ts:101-117 | the five key sets are pairwise disjoint |
| `Styles.MatchingKeys` | src/utils/styles.ts:170 | the filter keeps every key loosely equal to the value and only such keys |
| `Styles.IsScaleKeyIff` | src/utils/styles.ts:165-190 | `Object.keys(scale).filter(k => k == v).length > 0` holds iff some key of the scale is loosely equal to `v` |
| `Styles.ThemeValueByCategory` | src/utils/styles.ts:126-163 | the result depends only on the property's one category. A match in the space/colour/font-size/letter-spacing scale gives `scale[String(v)]`. A line-height match gives the raw value. No theme, no scale, no key set or no matching key gives `undefined` |
| `Styles.SubstitutesScaleEntry` | src/utils/styles.ts:127-154 | a string, number or object whose string form is a key of the property's scale is replaced by that key's entry |
| `Styles.LineHeightKeepsRawValue` | src/utils/styles.ts:155-162 | a `line-height` value loosely equal to a `lineHeights` key comes back unchanged, without a lookup |
| `Styles.LooseMatchMissesLookup` | src/utils/styles.ts:127-133 | `1` matches the key `"01"` through `==`, but the lookup reads key `"1"` and gives `undefined` |
| `Styles.ExampleSpaceEntries` | src/utils/styles.ts:127-133 | with space scale `{0: 0px, 1: 8px, 2: 16px}`, `"2"` for `padding` becomes `16px` and the number `1` for `margin` becomes `8px` |
| `Styles.UnscaledBareValueIsUndefined` | src/utils/styles.ts:155-163 | a value with no theme match is written as `undefined`: `display: flex` gives `display: undefined;` |
| `Styles.ResponsiveIff` | src/utils/styles.ts:85-93 | a value is responsive iff it is an object with a breakpoint key whose value is not `undefined`; falsy values and scalars never are |
| `Styles.BreakpointLineShape` | src/utils/styles.ts:31-71 | the `base` line is the bare declaration; `sm`/`md`/`lg`/`xl` lines wrap it in a media query at 640px/768px/1024px/1280px |
| `Styles.ResponsiveLinesInKeyOrder` | src/utils/styles.ts:47-73 | there is one line per breakpoint key. The line for the property at index `i` sits at the position after the lines of the earlier breakpoint keys. Other keys add nothing |
| `Styles.ResponsiveHasALine` | src/utils/styles.ts:46-73 | a responsive value always produces at least one line |
| `Styles.SplitJoin` | src/utils/styles.ts:74 | splitting `lines.join('\n')` on newlines gives back the lines: exactly one newline between lines and none at the end |
| `Styles.PropValue` | src/utils/styles.ts:38-78 | the result is `undefined` exactly when `prop` is `undefined`, whether omitted or passed explicitly |
| `Styles.CollectLines` | src/utils/styles.ts:47-73 | the `for...in` loop that pushes one line per breakpoint key, in key order, builds exactly `ResponsiveLines`: the bare declaration for `base`, a media-query line for `sm`/`md`/`lg`/`xl`, nothing for other keys |
| `Styles.ToPropValue` | src/utils/styles.ts:38-78 | `undefined` for `undefined`; the collected lines followed by `join('\n')` for a responsive value; one declaration otherwise: exactly `PropValue` |
| `Styles.AbsentIsUndefined` | src/utils/styles.ts:43 | `prop === undefined` gives `undefined` |
| `Styles.BareValueIsOneDeclaration` | src/utils/styles.ts:77 | a value with no defined breakpoint key gives exactly `propKey: t;`, where `t` is its theme value. This covers every value except `undefined`: strings, numbers, booleans, `null` and objects without breakpoints |
| `Styles.ResponsiveTextIsItsLines` | src/utils/styles.ts:47-74 | the text for a responsive value, split on newlines, is exactly its breakpoint lines in key order |

## Left out

- src/services/signin.ts, src/pages/_app.tsx and next.config.js are not part of this model. They are an HTTP call, a React shell and build configuration, with no logic of the resolver's kind.
- The CSS string-literal union types of src/types/style.ts are type-level only. `ResponsiveProp`/`Responsive` become plain values: an object with breakpoint properties or any other value.
- TypeScript type guards (`prop is ...`) are modelled as boolean predicates. Static typing is not modelled: `T` ranges over every modelled value.
- Numbers are integers: fractions, `NaN`, `Infinity` and `-0` are not modelled.
- `JsValues.IntToString`: writes every integer as plain decimal digits. JavaScript writes numbers of magnitude 10^21 or more in exponent form (`1e+21`), and integers above 2^53 are not exact in JavaScript. Both would change the output text and the scale lookup key, and neither is modelled.
- Property lists that repeat a key are not JavaScript objects. `Styles.PropValue` and `Styles.ToPropValue` accept them and write one line per occurrence. The lemmas that depend on unique keys require `WellFormed`.
- `JsValues.StringToNumber` reads only the empty string and optionally signed decimal digits. A key with surrounding whitespace, a fraction, an exponent, a `0x`/`0o`/`0b` prefix or `Infinity` counts as NaN here, so it loosely equals no number, although JavaScript would convert it.
- Values are `undefined`, `null`, booleans, integers, strings and plain objects. Arrays, functions, symbols, getters and objects with a custom `toString` are not modelled. An object's string form is `[object Object]`.
- Property lists are taken to be in `for...in` order already. Inherited enumerable properties are not modelled. JavaScript enumerates integer-like keys first, but such keys are never breakpoint keys, so this does not change the output.
- `Styles.ResponsiveTextIsItsLines`: stated only when the property name and the rendered theme values contain no newline, because a newline inside a line cannot be told apart from a separator.
- `Styles.SubstitutesScaleEntry`: stated only for values whose string form is itself a key. Values that match a key only loosely are covered by `Styles.ThemeValueByCategory`.
