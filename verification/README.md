# ViewSCAD colour themes, in Dafny

A model of the colour-theme module of ViewSCAD (`viewscad/themes.py`), the
Jupyter viewer for OpenSCAD models. A theme is a name plus nine `#RRGGBB`
colour strings: object, selected face/edge/vertex, background, the three axes
and text. The module has three parts, and so does the model:

- `col_from_hex` decodes the digit pairs at positions 1-2, 3-4 and 5-6 of a
  colour string as bytes and divides each by 256, not 255. The result is exact,
  so channels are `real`s. Module `Hex` (`hex.dfy`).
- `Theme(name, **kwargs)` fills each of the nine fields from its keyword, or
  from a fixed default when the keyword is absent. `Themes` (`themes.dfy`)
  also holds the four derived triples (`OBJ_RGB`, `SELECTED_FACE_RGB`,
  `SELECTED_EDGE_COLOR_INT`, `SELECTED_VERTEX_RGB`), `axis_cols` and the
  `theme_light` / `theme_dark` presets.
- `Theme.__repr__` prints a header, thirty dashes, then one `K : V` line per
  attribute whose name ends in `_COLOR`, in `dir()` order, joined by newlines.
  It is modelled in `ThemeRepr` (`repr.dfy`). The reflection becomes the
  static list `Order`. Lemmas show that `Order` is the one sorted listing of
  the `_COLOR` names that `dir()` reports.

`Text` (`text.dfy`) holds the Python string behaviour these rely on: `join`,
`endswith`, string ordering and list-comprehension filtering. `themes.py`
never splits a string. `Split` exists only so that `SplitJoin` can state
that the representation has no trailing newline.
`Options` (`options.dfy`) holds `Option`, used for the error paths of
decoding and construction.

Two behaviours of the code are easy to misread:

- Unrecognised keyword arguments are not stored on the theme. `__init__`
  only calls `kwargs.get` on the nine names (`viewscad/themes.py:64-72`).
  `UnrecognisedIgnored` and `RestrictOverrides` state this. The two
  exceptions are `self` and `name`. The signature is
  `def __init__(self,name,**kwargs)` (`viewscad/themes.py:60`). In the call
  `Theme(name, **kwargs)`, a keyword `self` or `name` repeats a parameter
  that is already bound, so the call raises `TypeError` before the body
  runs. `Construct` models this call form and returns `None` for that case.
- The class docstring's example output (`viewscad/themes.py:47-56`) has no
  `TEXT_COLOR` line. The code prints one, last of the nine.
  `DarkReprLines` shows the full eleven lines.

## Model

| member | source | states |
|---|---|---|
| Hex.ColFromHex | viewscad/themes.py:22-23 | decoding succeeds exactly when the string has at least seven characters with hex digits (either case) at positions 1-6; every decoded channel lies in [0, 255/256]. Its helpers are `PairValue`, which is `int(c[i:i+2], 16)`, and `Channel`, which is the division by 256 |
| Hex.CanonicalRoundTrip | viewscad/themes.py:23 | for a `#rrggbb` string written all in lower case or all in upper case, each channel is the integer value of its digit pair over 256, and re-encoding those bytes in the same case gives back the original string |
| Hex.RoundTrip | viewscad/themes.py:23 | formatting bytes r, g, b < 256 as `#` plus two hex digits each, in either case, then decoding gives (r/256, g/256, b/256) |
| Hex.IgnoresOutside | viewscad/themes.py:23 | character 0 and everything after position 6 never affect the result |
| Hex.DecodeInjective | viewscad/themes.py:23 | two `#rrggbb` strings written in the same case that decode to the same triple are the same string |
| Hex.DecodeIgnoresCase | viewscad/themes.py:23 | folding `A-F` to `a-f` anywhere in the string never changes the result, so mixed-case strings decode like their lower-case spelling |
| Hex.UpperCaseColour | viewscad/themes.py:121 | the dark background `#3D3D3D` is the upper-case encoding of byte 61 in each channel and decodes like `#3d3d3d`, to 61/256 each |
| Hex.WhiteBelowOne | viewscad/themes.py:23 | `#ffffff` decodes to 255/256 in every channel, which is below 1 because the divisor is 256 |
| Themes.Lookup | viewscad/themes.py:64-72 | `kwargs.get(key, default)`: the keyword's value when the key is present, otherwise the default |
| Themes.NewTheme | viewscad/themes.py:62-72 | once the arguments are bound (neither `self` nor `name` is among the keywords), the name is stored and each of the nine fields is the keyword's value when the keyword is given, else that field's default |
| Themes.Construct | viewscad/themes.py:60-72 | the call `Theme(name, **kwargs)`, with `name` passed positionally, fails (`TypeError`) exactly when a keyword is `self` or `name`; otherwise the theme carries the name and each field is its keyword's value or its default |
| Themes.KeyNameNotParameter | viewscad/themes.py:60-72 | none of the nine recognised keywords is `self` or `name`, so overriding only colours never fails |
| Themes.UnrecognisedIgnored | viewscad/themes.py:60-72 | two override maps that agree on the nine recognised keywords and on the presence of `self` and `name` give the same outcome, whatever other keys they hold |
| Themes.RestrictOverrides | viewscad/themes.py:60-72 | dropping every key that is neither a recognised keyword nor `self`/`name` changes nothing |
| Themes.SingleOverride | viewscad/themes.py:60-72 | overriding one field succeeds, sets that field and leaves the other eight at their defaults |
| Themes.RebuildFromFields | viewscad/themes.py:60-72 | constructing from a theme's own nine fields succeeds and rebuilds that theme, so every combination of colours is reachable |
| Themes.ConstructionWellFormed | viewscad/themes.py:60-72 | when construction succeeds from well-formed override values, every field of the result decodes, because all nine defaults are well-formed |
| Themes.ObjRgb | viewscad/themes.py:91-93 | `OBJ_RGB` is defined exactly when `OBJ_COLOR` is well-formed, and always on a well-formed theme |
| Themes.SelectedFaceRgb | viewscad/themes.py:95-97 | `SELECTED_FACE_RGB` is defined exactly when `SELECTED_FACE_COLOR` is well-formed, and always on a well-formed theme |
| Themes.SelectedEdgeColorInt | viewscad/themes.py:99-101 | `SELECTED_EDGE_COLOR_INT` is defined exactly when `SELECTED_EDGE_COLOR` is well-formed; its values are fractions like the others |
| Themes.SelectedVertexRgb | viewscad/themes.py:103-105 | `SELECTED_VERTEX_RGB` is defined exactly when `SELECTED_VERTEX_COLOR` is well-formed, and always on a well-formed theme |
| Themes.DerivedDependOnlyOnField | viewscad/themes.py:91-105 | each derived triple depends only on its own hex field; the name and the other fields do not affect it |
| Themes.DerivedFollowUpdate | viewscad/themes.py:91-105 | nothing is cached: after a hex field is reassigned, its accessor decodes the new string |
| Themes.AxisCols | viewscad/themes.py:107-109 | `axis_cols` is the three raw axis strings in x, y, z order, not decoded |
| Themes.ThemeLight | viewscad/themes.py:117 | `theme_light` is `Theme('light')` with no keywords, and its nine fields are the defaults `#f7d62c`, `#ff0000`, `#6666ff`, `#00ff00`, `#ffffff`, `#ff0000`, `#00ff00`, `#0000ff`, `#0f0f0f` |
| Themes.ThemeDark | viewscad/themes.py:120-126 | `theme_dark` is `Theme('dark', ...)` with its five keywords, and its fields are the object and selection defaults plus background `#3D3D3D`, axes `#ff00ff`, `#ffff00`, `#00ffff` and text `#ffffff` |
| Themes.LightIsDefaults | viewscad/themes.py:117 | `theme_light` is named `light` and every field holds its default |
| Themes.DarkVersusLight | viewscad/themes.py:117-126 | `theme_dark` differs from `theme_light` in its name and in exactly the background, the three axis colours and the text colour; every other field is at its default |
| Themes.PresetsWellFormed | viewscad/themes.py:117-126 | every accessor of both presets decodes without error |
| Themes.LightValues | viewscad/themes.py:91-117 | the light preset's object, face and edge triples are the exact fractions of `#f7d62c`, `#ff0000` and `#6666ff`; its axes are the raw default strings |
| Themes.DarkValues | viewscad/themes.py:103-126 | the dark preset's vertex triple is (0, 255/256, 0); its axes are the raw strings `#ff00ff`, `#ffff00`, `#00ffff` |
| Themes.BlackObjectOverride | viewscad/themes.py:60-93 | overriding only `OBJ_COLOR` with `#000000` succeeds, makes `OBJ_RGB` all zeros and leaves every other field at its default |
| ThemeRepr.ReprLines | viewscad/themes.py:83-87 | there are eleven lines: the header with the name (`Header`), thirty dashes (`Rule`), then `K : V` for each of the nine fields in `dir()` order (`FieldLine`, with `Get` standing for `getattr`) |
| ThemeRepr.Repr | viewscad/themes.py:83-89 | the printed text begins with the header line |
| ThemeRepr.ReprSplitsIntoLines | viewscad/themes.py:83-89 | when no field or name contains a newline, splitting the text at newlines gives back exactly the eleven lines, so there is no trailing newline |
| ThemeRepr.ReprInjective | viewscad/themes.py:74-89 | two such themes that print the same text are the same theme |
| ThemeRepr.DirSorted | viewscad/themes.py:87 | the attribute names `dir()` reports are in Python's string order |
| ThemeRepr.DirFilterIsOrder | viewscad/themes.py:87 | keeping the `dir()` names that end in `_COLOR` gives exactly the nine field names of `Order`; `SELECTED_EDGE_COLOR_INT`, the `_RGB` properties, `axis_cols` and `name` are dropped |
| ThemeRepr.OrderIsDirOrder | viewscad/themes.py:87 | any strictly sorted listing of the `_COLOR` attribute names equals `Order`'s names |
| ThemeRepr.OrderIsPermutation | viewscad/themes.py:87 | `Order` lists each of the nine fields exactly once |
| ThemeRepr.DarkReprLines | viewscad/themes.py:47-56 | the dark preset prints the docstring's lines plus a final `TEXT_COLOR : #ffffff` line |
| ThemeRepr.DarkRepr | viewscad/themes.py:120-126 | the dark preset's printed text splits at newlines into exactly its eleven lines |
| Text.Join | viewscad/themes.py:89 | `sep.join(lines)` starts with the first line, has the separator right after it when there is a second line, and ends with the last line |
| Text.SplitJoin | viewscad/themes.py:89 | splitting the `'\n'.join` of one or more newline-free lines gives the lines back |
| Text.EndsWithDecompose | viewscad/themes.py:87 | `s.endswith(suffix)` holds exactly when `s` is some string followed by `suffix` |
| Text.FilterSuffix | viewscad/themes.py:87 | the comprehension keeps at most as many names as it is given |
| Text.FilterMembers | viewscad/themes.py:87 | the comprehension keeps exactly the names that end with the suffix |
| Text.FilterSorted | viewscad/themes.py:87 | the comprehension keeps the sorted order of `dir()` |
| Text.LessAt | viewscad/themes.py:87 | `a < b` when they agree up to a position where `a` has the smaller character or ends and `b` does not |
| Text.LessFirstDifference | viewscad/themes.py:87 | conversely, whenever `a < b` such a position exists, so the order is exactly lexicographic by code point |
| Text.LessIrreflexive | viewscad/themes.py:87 | no string is below itself |
| Text.LessTransitive | viewscad/themes.py:87 | the string order is transitive |
| Text.SortedUnique | viewscad/themes.py:87 | a set of strings has at most one strictly sorted listing |

## Left out

- Hex.ColFromHex: returns `None` for some inputs that Python's `int(s, 16)` accepts. These are a sign or surrounding whitespace in a digit pair (`"#-f0000"` gives -15/256), a six-character string (the last slice holds one digit), and non-ASCII Unicode digits. Reproducing the interpreter's number parsing is out of scope. Every other input matches: `None` is where the source raises `ValueError`.
- Floating point: every channel is an exact dyadic rational, so channels are `real`s. IEEE rounding is not modelled.
- Keyword values and the name are modelled as strings. Python stores any object and `__repr__` prints it with `str()`.
- Attribute mutation is modelled as record update (`DerivedFollowUpdate`). Object identity is not modelled.
- `dir()` also lists every `__dunder__` name, inherited or defined by `Theme`. The model's `DirNames` omits them, because none ends in `_COLOR`.
- Arguments other than keywords are not modelled: a missing `name` or an extra positional argument is a `TypeError` that only a caller outside this module could trigger. `Construct` models the one `TypeError` the keyword map itself can cause.
- `Theme(name=n, **rest)`, with `name` passed as a keyword, is not modelled separately. It behaves as `Construct(n, rest)`, because `rest` cannot hold a second `name` key.
- The rendering code that consumes themes is not part of this model.
