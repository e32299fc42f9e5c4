/** The `Theme` class: a name and nine hex colour fields, built from keyword
    overrides with fixed defaults, plus derived accessors and two presets. */
module Themes {
  import opened Options
  import Hex

  /** The nine recognised colour fields, in the order `dir()` lists them. */
  datatype ColorField =
    | AxisX | AxisY | AxisZ | Background | Obj
    | SelectedEdge | SelectedFace | SelectedVertex | TextField

  /** An immutable theme record. */
  datatype Theme = Theme(
    name: string,
    objColor: string,
    selectedFaceColor: string,
    selectedEdgeColor: string,
    selectedVertexColor: string,
    backgroundColor: string,
    axisXColor: string,
    axisYColor: string,
    axisZColor: string,
    textColor: string)

  /** The attribute (and keyword) name of a field. */
  function KeyName(f: ColorField): string {
    match f
    case AxisX => "AXIS_X_COLOR"
    case AxisY => "AXIS_Y_COLOR"
    case AxisZ => "AXIS_Z_COLOR"
    case Background => "BACKGROUND_COLOR"
    case Obj => "OBJ_COLOR"
    case SelectedEdge => "SELECTED_EDGE_COLOR"
    case SelectedFace => "SELECTED_FACE_COLOR"
    case SelectedVertex => "SELECTED_VERTEX_COLOR"
    case TextField => "TEXT_COLOR"
  }

  /** Distinct fields have distinct keyword names. */
  lemma KeyNameInjective(f: ColorField, g: ColorField)
    requires KeyName(f) == KeyName(g)
    ensures f == g
  {
  }

  /** The default used when no override is given. */
  function Default(f: ColorField): string {
    match f
    case Obj => "#f7d62c"
    case SelectedFace => "#ff0000"
    case SelectedEdge => "#6666ff"
    case SelectedVertex => "#00ff00"
    case Background => "#ffffff"
    case AxisX => "#ff0000"
    case AxisY => "#00ff00"
    case AxisZ => "#0000ff"
    case TextField => "#0f0f0f"
  }

  /** `getattr(theme, KeyName(f))`. */
  function Get(t: Theme, f: ColorField): string {
    match f
    case Obj => t.objColor
    case SelectedFace => t.selectedFaceColor
    case SelectedEdge => t.selectedEdgeColor
    case SelectedVertex => t.selectedVertexColor
    case Background => t.backgroundColor
    case AxisX => t.axisXColor
    case AxisY => t.axisYColor
    case AxisZ => t.axisZColor
    case TextField => t.textColor
  }

  /** Two themes are equal exactly when their names and all nine fields are. */
  lemma ThemeExtensional(t: Theme, u: Theme)
    ensures t == u <==> t.name == u.name && forall f :: Get(t, f) == Get(u, f)
  {
    if t.name == u.name && forall f :: Get(t, f) == Get(u, f) {
      assert Get(t, Obj) == Get(u, Obj) && Get(t, SelectedFace) == Get(u, SelectedFace);
      assert Get(t, SelectedEdge) == Get(u, SelectedEdge) && Get(t, SelectedVertex) == Get(u, SelectedVertex);
      assert Get(t, Background) == Get(u, Background) && Get(t, TextField) == Get(u, TextField);
      assert Get(t, AxisX) == Get(u, AxisX) && Get(t, AxisY) == Get(u, AxisY) && Get(t, AxisZ) == Get(u, AxisZ);
    }
  }

  /** `kwargs.get(key, default)`. */
  function Lookup(overrides: map<string, string>, key: string, default: string): (v: string)
    ensures key in overrides ==> v == overrides[key]
    ensures key !in overrides ==> v == default
  {
    if key in overrides then overrides[key] else default
  }

  /** The named parameters of `__init__`. In the call `Theme(name, **kwargs)`
      both are already bound, so a keyword with one of these names repeats
      a parameter. */
  const ParameterNames: set<string> := {"self", "name"}

  /** The call binds its arguments: no keyword repeats a named parameter. */
  predicate Binds(overrides: map<string, string>) {
    "self" !in overrides && "name" !in overrides
  }

  /** The body of `__init__` once the arguments are bound: each field from its
      keyword when given, otherwise its default; other keywords are not
      stored anywhere. */
  function NewTheme(name: string, overrides: map<string, string>): (t: Theme)
    requires Binds(overrides)
    ensures t.name == name
    ensures forall f :: Get(t, f) == (if KeyName(f) in overrides then overrides[KeyName(f)] else Default(f))
  {
    Theme(
      name,
      Lookup(overrides, "OBJ_COLOR", "#f7d62c"),
      Lookup(overrides, "SELECTED_FACE_COLOR", "#ff0000"),
      Lookup(overrides, "SELECTED_EDGE_COLOR", "#6666ff"),
      Lookup(overrides, "SELECTED_VERTEX_COLOR", "#00ff00"),
      Lookup(overrides, "BACKGROUND_COLOR", "#ffffff"),
      Lookup(overrides, "AXIS_X_COLOR", "#ff0000"),
      Lookup(overrides, "AXIS_Y_COLOR", "#00ff00"),
      Lookup(overrides, "AXIS_Z_COLOR", "#0000ff"),
      Lookup(overrides, "TEXT_COLOR", "#0f0f0f"))
  }

  /** The nine keyword names construction reads. */
  function RecognisedKeys(): (keys: set<string>)
    ensures forall k :: k in keys <==> exists f :: KeyName(f) == k
  {
    var keys := {"AXIS_X_COLOR", "AXIS_Y_COLOR", "AXIS_Z_COLOR", "BACKGROUND_COLOR", "OBJ_COLOR",
                 "SELECTED_EDGE_COLOR", "SELECTED_FACE_COLOR", "SELECTED_VERTEX_COLOR", "TEXT_COLOR"};
    assert KeyName(AxisX) in keys && KeyName(AxisY) in keys && KeyName(AxisZ) in keys;
    assert KeyName(Background) in keys && KeyName(Obj) in keys && KeyName(TextField) in keys;
    assert KeyName(SelectedEdge) in keys && KeyName(SelectedFace) in keys && KeyName(SelectedVertex) in keys;
    keys
  }

  /** No recognised keyword is also a parameter name. */
  lemma KeyNameNotParameter(f: ColorField)
    ensures KeyName(f) !in ParameterNames
  {
    assert KeyName(f)[0] != 's' && KeyName(f)[0] != 'n';
  }

  /** `Theme(name, **overrides)` with `name` passed positionally: a
      `TypeError` (`None`) when a keyword repeats `self` or `name`; otherwise
      a theme named `name` whose every field is its keyword's value when
      given, else its default. */
  function Construct(name: string, overrides: map<string, string>): (r: Option<Theme>)
    ensures r.None? <==> exists k :: k in ParameterNames && k in overrides
    ensures r.Some? ==> r.value.name == name
    ensures r.Some? ==> forall f :: Get(r.value, f) == Lookup(overrides, KeyName(f), Default(f))
  {
    if Binds(overrides) then Some(NewTheme(name, overrides)) else None
  }

  /** Only the nine recognised keywords and the two parameter names matter:
      override maps that agree on those give the same outcome, whatever
      else they hold. */
  lemma UnrecognisedIgnored(name: string, o1: map<string, string>, o2: map<string, string>)
    requires forall f :: (KeyName(f) in o1 <==> KeyName(f) in o2)
    requires forall f :: KeyName(f) in o1 ==> o1[KeyName(f)] == o2[KeyName(f)]
    requires forall k :: k in ParameterNames ==> (k in o1 <==> k in o2)
    ensures Construct(name, o1) == Construct(name, o2)
  {
    assert "self" in ParameterNames && "name" in ParameterNames;
    if Binds(o1) {
      ThemeExtensional(NewTheme(name, o1), NewTheme(name, o2));
    }
  }

  /** In particular, dropping every keyword that is neither a recognised
      field nor a parameter name changes nothing. */
  lemma RestrictOverrides(name: string, o: map<string, string>)
    ensures Construct(name, o)
         == Construct(name, map k | k in o && (k in RecognisedKeys() || k in ParameterNames) :: o[k])
  {
    var r := map k | k in o && (k in RecognisedKeys() || k in ParameterNames) :: o[k];
    forall f ensures (KeyName(f) in o <==> KeyName(f) in r) {
      assert KeyName(f) in RecognisedKeys();
    }
    UnrecognisedIgnored(name, o, r);
  }

  /** Overriding a single field succeeds, sets that field and leaves the other
      eight at their defaults. */
  lemma SingleOverride(name: string, g: ColorField, value: string)
    ensures Construct(name, map[KeyName(g) := value]).Some?
    ensures Get(Construct(name, map[KeyName(g) := value]).value, g) == value
    ensures forall f :: f != g ==> Get(Construct(name, map[KeyName(g) := value]).value, f) == Default(f)
  {
    KeyNameNotParameter(g);
    assert Binds(map[KeyName(g) := value]);
    forall f | f != g ensures KeyName(f) != KeyName(g) {
      if KeyName(f) == KeyName(g) {
        KeyNameInjective(f, g);
      }
    }
  }

  /** The nine fields of a theme as the keyword map that rebuilds it. */
  function Fields(t: Theme): (m: map<string, string>)
    ensures m.Keys == RecognisedKeys()
    ensures forall f :: m[KeyName(f)] == Get(t, f)
  {
    map[
      "OBJ_COLOR" := t.objColor,
      "SELECTED_FACE_COLOR" := t.selectedFaceColor,
      "SELECTED_EDGE_COLOR" := t.selectedEdgeColor,
      "SELECTED_VERTEX_COLOR" := t.selectedVertexColor,
      "BACKGROUND_COLOR" := t.backgroundColor,
      "AXIS_X_COLOR" := t.axisXColor,
      "AXIS_Y_COLOR" := t.axisYColor,
      "AXIS_Z_COLOR" := t.axisZColor,
      "TEXT_COLOR" := t.textColor]
  }

  /** Every theme is the construction from its own fields, so construction
      reaches every combination of nine colours. */
  lemma RebuildFromFields(t: Theme)
    ensures Construct(t.name, Fields(t)) == Some(t)
  {
    assert "self" !in RecognisedKeys() && "name" !in RecognisedKeys();
    ThemeExtensional(NewTheme(t.name, Fields(t)), t);
  }

  /** All nine fields decode without error. */
  predicate WellFormedTheme(t: Theme) {
    forall f :: Hex.WellFormed(Get(t, f))
  }

  /** Construction from well-formed overrides (defaults are well-formed)
      gives a theme whose every accessor decodes. */
  lemma ConstructionWellFormed(name: string, o: map<string, string>)
    requires forall f :: KeyName(f) in o ==> Hex.WellFormed(o[KeyName(f)])
    ensures Construct(name, o).Some? ==> WellFormedTheme(Construct(name, o).value)
  {
    forall f ensures Hex.WellFormed(Default(f)) {
      var d := Default(f);
      assert forall i :: 1 <= i <= 6 ==> Hex.IsHexDigit(d[i]);
    }
  }

  /** `OBJ_RGB`. */
  function ObjRgb(t: Theme): (r: Option<Hex.Rgb>)
    ensures r.Some? <==> Hex.WellFormed(t.objColor)
    ensures WellFormedTheme(t) ==> r.Some?
  {
    Hex.ColFromHex(Get(t, Obj))
  }

  /** `SELECTED_FACE_RGB`. */
  function SelectedFaceRgb(t: Theme): (r: Option<Hex.Rgb>)
    ensures r.Some? <==> Hex.WellFormed(t.selectedFaceColor)
    ensures WellFormedTheme(t) ==> r.Some?
  {
    Hex.ColFromHex(Get(t, SelectedFace))
  }

  /** `SELECTED_EDGE_COLOR_INT`: despite the name, fractions like the others. */
  function SelectedEdgeColorInt(t: Theme): (r: Option<Hex.Rgb>)
    ensures r.Some? <==> Hex.WellFormed(t.selectedEdgeColor)
    ensures WellFormedTheme(t) ==> r.Some?
  {
    Hex.ColFromHex(Get(t, SelectedEdge))
  }

  /** `SELECTED_VERTEX_RGB`. */
  function SelectedVertexRgb(t: Theme): (r: Option<Hex.Rgb>)
    ensures r.Some? <==> Hex.WellFormed(t.selectedVertexColor)
    ensures WellFormedTheme(t) ==> r.Some?
  {
    Hex.ColFromHex(Get(t, SelectedVertex))
  }

  /** The four derived triples follow their hex fields: changing any other
      field (or the name) leaves each of them as it was. */
  lemma DerivedDependOnlyOnField(t: Theme, u: Theme)
    ensures t.objColor == u.objColor ==> ObjRgb(t) == ObjRgb(u)
    ensures t.selectedFaceColor == u.selectedFaceColor ==> SelectedFaceRgb(t) == SelectedFaceRgb(u)
    ensures t.selectedEdgeColor == u.selectedEdgeColor ==> SelectedEdgeColorInt(t) == SelectedEdgeColorInt(u)
    ensures t.selectedVertexColor == u.selectedVertexColor ==> SelectedVertexRgb(t) == SelectedVertexRgb(u)
  {
  }

  /** Nothing is cached: after assigning a new string to a hex field, the
      accessor decodes the new string. */
  lemma DerivedFollowUpdate(t: Theme, c: string)
    ensures ObjRgb(t.(objColor := c)) == Hex.ColFromHex(c)
    ensures SelectedFaceRgb(t.(selectedFaceColor := c)) == Hex.ColFromHex(c)
    ensures SelectedEdgeColorInt(t.(selectedEdgeColor := c)) == Hex.ColFromHex(c)
    ensures SelectedVertexRgb(t.(selectedVertexColor := c)) == Hex.ColFromHex(c)
  {
  }

  /** `axis_cols`: the three raw axis strings in x, y, z order, unconverted. */
  function AxisCols(t: Theme): (cols: seq<string>)
    ensures |cols| == 3
    ensures cols[0] == Get(t, AxisX) && cols[1] == Get(t, AxisY) && cols[2] == Get(t, AxisZ)
  {
    [t.axisXColor, t.axisYColor, t.axisZColor]
  }

  /** `theme_light`: all defaults. */
  function ThemeLight(): (t: Theme)
    ensures Construct("light", map[]) == Some(t)
    ensures t == Theme("light", "#f7d62c", "#ff0000", "#6666ff", "#00ff00",
                       "#ffffff", "#ff0000", "#00ff00", "#0000ff", "#0f0f0f")
  {
    NewTheme("light", map[])
  }

  /** The keywords `theme_dark` passes. */
  function DarkOverrides(): map<string, string> {
    map[
      "BACKGROUND_COLOR" := "#3D3D3D",
      "AXIS_X_COLOR" := "#ff00ff",
      "AXIS_Y_COLOR" := "#ffff00",
      "AXIS_Z_COLOR" := "#00ffff",
      "TEXT_COLOR" := "#ffffff"]
  }

  /** `theme_dark`. */
  function ThemeDark(): (t: Theme)
    ensures Construct("dark", DarkOverrides()) == Some(t)
    ensures t == Theme("dark", "#f7d62c", "#ff0000", "#6666ff", "#00ff00",
                       "#3D3D3D", "#ff00ff", "#ffff00", "#00ffff", "#ffffff")
  {
    NewTheme("dark", DarkOverrides())
  }

  /** The fields `theme_dark` overrides. */
  predicate DarkOverridden(f: ColorField) {
    f == Background || f == AxisX || f == AxisY || f == AxisZ || f == TextField
  }

  /** `theme_light` holds every default. */
  lemma LightIsDefaults()
    ensures ThemeLight().name == "light"
    ensures forall f :: Get(ThemeLight(), f) == Default(f)
  {
  }

  /** `theme_dark` differs from `theme_light` in its name and in exactly the
      background, the three axis colours and the text colour. */
  lemma DarkVersusLight()
    ensures ThemeDark().name == "dark"
    ensures forall f :: Get(ThemeDark(), f) != Get(ThemeLight(), f) <==> DarkOverridden(f)
    ensures forall f :: !DarkOverridden(f) ==> Get(ThemeDark(), f) == Default(f)
    ensures ThemeDark() == ThemeLight().(name := "dark", backgroundColor := "#3D3D3D",
                                         axisXColor := "#ff00ff", axisYColor := "#ffff00",
                                         axisZColor := "#00ffff", textColor := "#ffffff")
  {
    var d, l := ThemeDark(), ThemeLight();
    assert Get(d, Background) != Get(l, Background) by { assert d.backgroundColor[1] != l.backgroundColor[1]; }
    assert Get(d, AxisX) != Get(l, AxisX) by { assert d.axisXColor[5] != l.axisXColor[5]; }
    assert Get(d, AxisY) != Get(l, AxisY) by { assert d.axisYColor[1] != l.axisYColor[1]; }
    assert Get(d, AxisZ) != Get(l, AxisZ) by { assert d.axisZColor[3] != l.axisZColor[3]; }
    assert Get(d, TextField) != Get(l, TextField) by { assert d.textColor[1] != l.textColor[1]; }
  }

  /** Both presets decode in every accessor. */
  lemma PresetsWellFormed()
    ensures WellFormedTheme(ThemeLight())
    ensures WellFormedTheme(ThemeDark())
  {
    ConstructionWellFormed("light", map[]);
    forall f | KeyName(f) in DarkOverrides()
      ensures Hex.WellFormed(DarkOverrides()[KeyName(f)])
    {
      var v := DarkOverrides()[KeyName(f)];
      assert forall i :: 1 <= i <= 6 ==> Hex.IsHexDigit(v[i]);
    }
    ConstructionWellFormed("dark", DarkOverrides());
  }

  /** The light preset's derived values, as exact fractions: the edge colour
      accessor yields fractions, not integers; the axes stay raw text. */
  lemma LightValues()
    ensures ObjRgb(ThemeLight()) == Some(Hex.Rgb(247.0 / 256.0, 214.0 / 256.0, 44.0 / 256.0))
    ensures SelectedFaceRgb(ThemeLight()) == Some(Hex.Rgb(255.0 / 256.0, 0.0, 0.0))
    ensures SelectedEdgeColorInt(ThemeLight()) == Some(Hex.Rgb(102.0 / 256.0, 102.0 / 256.0, 255.0 / 256.0))
    ensures AxisCols(ThemeLight()) == ["#ff0000", "#00ff00", "#0000ff"]
  {
  }

  /** The dark preset's derived values: the axes are the raw override strings. */
  lemma DarkValues()
    ensures SelectedVertexRgb(ThemeDark()) == Some(Hex.Rgb(0.0, 255.0 / 256.0, 0.0))
    ensures AxisCols(ThemeDark()) == ["#ff00ff", "#ffff00", "#00ffff"]
  {
  }

  /** A black object override: the object triple is all zeros and nothing
      else moves from its default. */
  lemma BlackObjectOverride(name: string)
    ensures Construct(name, map["OBJ_COLOR" := "#000000"]).Some?
    ensures ObjRgb(Construct(name, map["OBJ_COLOR" := "#000000"]).value) == Some(Hex.Rgb(0.0, 0.0, 0.0))
    ensures forall f :: f != Obj ==> Get(Construct(name, map["OBJ_COLOR" := "#000000"]).value, f) == Default(f)
  {
    SingleOverride(name, Obj, "#000000");
  }

}
