/** `Theme.__repr__`: a header, a rule of dashes, then `K : V` for every
    attribute whose name ends in `_COLOR`, in `dir()` order, joined by
    newlines. The reflection is replaced by the static list `Order`, and the
    lemmas here show that list is what `dir()` filtering yields. */
module ThemeRepr {
  import opened Themes
  import Text

  /** Every attribute name `dir()` reports for a theme other than the
      `__dunder__` names, inherited or defined by `Theme` (none of which ends
      in `_COLOR`): the instance fields and the class's properties, sorted as
      `dir()` sorts. */
  const DirNames: seq<string> := [
    "AXIS_X_COLOR", "AXIS_Y_COLOR", "AXIS_Z_COLOR", "BACKGROUND_COLOR",
    "OBJ_COLOR", "OBJ_RGB", "SELECTED_EDGE_COLOR", "SELECTED_EDGE_COLOR_INT",
    "SELECTED_FACE_COLOR", "SELECTED_FACE_RGB", "SELECTED_VERTEX_COLOR",
    "SELECTED_VERTEX_RGB", "TEXT_COLOR", "axis_cols", "name"]

  /** The colour fields in the order the representation lists them. */
  const Order: seq<ColorField> := [
    AxisX, AxisY, AxisZ, Background, Obj, SelectedEdge, SelectedFace, SelectedVertex, TextField]

  /** The keyword names of `Order`. */
  function OrderNames(): (names: seq<string>)
    ensures |names| == |Order|
    ensures forall i :: 0 <= i < |Order| ==> names[i] == KeyName(Order[i])
  {
    var names := [
      "AXIS_X_COLOR", "AXIS_Y_COLOR", "AXIS_Z_COLOR", "BACKGROUND_COLOR", "OBJ_COLOR",
      "SELECTED_EDGE_COLOR", "SELECTED_FACE_COLOR", "SELECTED_VERTEX_COLOR", "TEXT_COLOR"];
    assert forall i :: 0 <= i < |Order| ==> names[i] == KeyName(Order[i]);
    names
  }

  /** `Order` lists every field exactly once. */
  lemma OrderIsPermutation()
    ensures |Order| == 9
    ensures forall f :: f in Order
    ensures forall i, j :: 0 <= i < j < |Order| ==> Order[i] != Order[j]
  {
    forall f ensures f in Order {
      match f
      case AxisX => assert Order[0] == f;
      case AxisY => assert Order[1] == f;
      case AxisZ => assert Order[2] == f;
      case Background => assert Order[3] == f;
      case Obj => assert Order[4] == f;
      case SelectedEdge => assert Order[5] == f;
      case SelectedFace => assert Order[6] == f;
      case SelectedVertex => assert Order[7] == f;
      case TextField => assert Order[8] == f;
    }
  }

  /** For each adjacent pair of `DirNames`, the first position where they
      differ (or where the shorter one ends). */
  const FirstDifference: seq<nat> := [5, 5, 0, 0, 4, 0, 19, 9, 14, 9, 16, 0, 0, 0]

  lemma DirAdjacent(i: nat)
    requires i < |DirNames| - 1
    ensures Text.Less(DirNames[i], DirNames[i + 1])
  {
    var a, b, k := DirNames[i], DirNames[i + 1], FirstDifference[i];
    assert k <= |a| && k < |b|;
    assert a[..k] == b[..k];
    assert k == |a| || a[k] < b[k];
    Text.LessAt(a, b, k);
  }

  /** `dir()` is sorted. */
  lemma DirSorted()
    ensures Text.StrictlySorted(DirNames)
  {
    forall i | 0 <= i < |DirNames| - 1 ensures Text.Less(DirNames[i], DirNames[i + 1]) {
      DirAdjacent(i);
    }
    Text.ChainedSorted(DirNames);
  }

  /** Which of `DirNames` end in `_COLOR`. */
  const IsColorName: seq<bool> :=
    [true, true, true, true, true, false, true, false, true, false, true, false, true, false, false]

  lemma DirSuffix(i: nat)
    requires i < |DirNames|
    ensures Text.EndsWith(DirNames[i], "_COLOR") <==> IsColorName[i]
  {
    var n := DirNames[i];
    if !IsColorName[i] && |n| >= 6 {
      var tail := n[|n| - 6..];
      assert tail[5] != 'R';
    }
  }

  /** How many of `DirNames[..i]` end in `_COLOR`. */
  const ColorsBefore: seq<nat> := [0, 1, 2, 3, 4, 5, 5, 6, 6, 7, 7, 8, 8, 9, 9, 9]

  /** What `DirNames[i]` contributes to the filter. */
  lemma DirEntry(i: nat)
    requires i < |DirNames|
    ensures Text.EndsWith(DirNames[i], "_COLOR") <==> IsColorName[i]
    ensures IsColorName[i] ==> ColorsBefore[i] < |OrderNames()| && ColorsBefore[i + 1] == ColorsBefore[i] + 1
                               && OrderNames()[ColorsBefore[i]] == DirNames[i]
    ensures !IsColorName[i] ==> ColorsBefore[i + 1] == ColorsBefore[i]
  {
    DirSuffix(i);
  }

  lemma {:induction false} FilterFrom(i: nat)
    requires i <= |DirNames|
    ensures ColorsBefore[i] <= |OrderNames()|
    ensures Text.FilterSuffix(DirNames[i..], "_COLOR") == OrderNames()[ColorsBefore[i]..]
    decreases |DirNames| - i
  {
    if i < |DirNames| {
      FilterFrom(i + 1);
      DirEntry(i);
      var d, names, k := DirNames[i..], OrderNames(), ColorsBefore[i];
      assert d[1..] == DirNames[i + 1..];
      if IsColorName[i] {
        assert names[k..] == [names[k]] + names[k + 1..];
      }
    }
  }

  /** Filtering `dir()` for names ending in `_COLOR` yields the nine field
      names in `Order`: the derived properties (`..._RGB`,
      `SELECTED_EDGE_COLOR_INT`, `axis_cols`) and `name` are dropped. */
  lemma DirFilterIsOrder()
    ensures Text.FilterSuffix(DirNames, "_COLOR") == OrderNames()
  {
    FilterFrom(0);
    assert DirNames[0..] == DirNames && OrderNames()[0..] == OrderNames();
  }

  /** `OrderNames()` is the one sorted listing of the `_COLOR` attributes, so
      it is exactly what the source's `dir()` comprehension enumerates. */
  lemma OrderIsDirOrder(keys: seq<string>)
    requires Text.StrictlySorted(keys)
    requires forall k :: k in keys <==> k in DirNames && Text.EndsWith(k, "_COLOR")
    ensures keys == OrderNames()
  {
    DirSorted();
    Text.FilterSorted(DirNames, "_COLOR");
    Text.FilterMembers(DirNames, "_COLOR");
    DirFilterIsOrder();
    Text.SortedUnique(keys, OrderNames());
  }

  /** The header line. */
  function Header(name: string): string {
    "ViewScad theme [" + name + "]"
  }

  /** The thirty-dash rule under the header. */
  function Rule(): (line: string)
    ensures |line| == 30 && forall i :: 0 <= i < 30 ==> line[i] == '-'
  {
    Text.Repeat('-', 30)
  }

  /** One `K : V` line. */
  function FieldLine(t: Theme, f: ColorField): string {
    KeyName(f) + " : " + Get(t, f)
  }

  /** The lines of the representation before joining. */
  function ReprLines(t: Theme): (lines: seq<string>)
    ensures |lines| == 2 + |Order| == 11
    ensures lines[0] == Header(t.name) && lines[1] == Rule()
    ensures forall i :: 0 <= i < |Order| ==> lines[i + 2] == OrderNames()[i] + " : " + Get(t, Order[i])
  {
    [Header(t.name), Rule()] + seq(|Order|, i requires 0 <= i < |Order| => FieldLine(t, Order[i]))
  }

  /** `repr(theme)`. */
  function Repr(t: Theme): (s: string)
    ensures |Header(t.name)| <= |s| && s[..|Header(t.name)|] == Header(t.name)
  {
    var lines := ReprLines(t);
    assert Text.Join(lines, '\n') == lines[0] + ['\n'] + Text.Join(lines[1..], '\n');
    Text.Join(lines, '\n')
  }

  /** No field or name spans a line. */
  predicate SingleLine(t: Theme) {
    '\n' !in t.name && forall f :: '\n' !in Get(t, f)
  }

  lemma KeyNameSingleLine(f: ColorField)
    ensures '\n' !in KeyName(f)
  {
    match f
    case AxisX =>
    case AxisY =>
    case AxisZ =>
    case Background =>
    case Obj =>
    case SelectedEdge =>
    case SelectedFace =>
    case SelectedVertex =>
    case TextField =>
  }

  /** The representation has exactly the eleven lines, no trailing newline:
      splitting it on newlines gives back header, rule and nine field lines. */
  lemma ReprSplitsIntoLines(t: Theme)
    requires SingleLine(t)
    ensures Text.Split(Repr(t), '\n') == ReprLines(t)
    ensures |Text.Split(Repr(t), '\n')| == 11
  {
    var lines := ReprLines(t);
    forall i | 0 <= i < |lines| ensures '\n' !in lines[i] {
      if i == 0 {
        assert lines[0] == "ViewScad theme [" + t.name + "]";
      } else if i == 1 {
        assert forall k :: 0 <= k < 30 ==> lines[1][k] == '-';
      } else {
        KeyNameSingleLine(Order[i - 2]);
        assert lines[i] == KeyName(Order[i - 2]) + " : " + Get(t, Order[i - 2]);
      }
    }
    Text.SplitJoin(lines, '\n');
  }

  lemma PrefixCancel(p: string, x: string, y: string)
    requires p + x == p + y
    ensures x == y
  {
    assert x == (p + x)[|p|..];
  }

  lemma SuffixCancel(x: string, y: string, q: string)
    requires x + q == y + q
    ensures x == y
  {
    assert x == (x + q)[..|x|];
  }

  /** The representation determines the theme: two single-line themes that
      print the same are the same theme. */
  lemma ReprInjective(t: Theme, u: Theme)
    requires SingleLine(t) && SingleLine(u)
    requires Repr(t) == Repr(u)
    ensures t == u
  {
    ReprSplitsIntoLines(t);
    ReprSplitsIntoLines(u);
    var lt, lu := ReprLines(t), ReprLines(u);
    assert lt == lu;
    assert "ViewScad theme [" + t.name + "]" == "ViewScad theme [" + u.name + "]";
    assert "ViewScad theme [" + t.name + "]" == "ViewScad theme [" + (t.name + "]");
    assert "ViewScad theme [" + u.name + "]" == "ViewScad theme [" + (u.name + "]");
    PrefixCancel("ViewScad theme [", t.name + "]", u.name + "]");
    SuffixCancel(t.name, u.name, "]");
    OrderIsPermutation();
    forall f ensures Get(t, f) == Get(u, f) {
      assert f in Order;
      var i :| 0 <= i < |Order| && Order[i] == f;
      assert lt[i + 2] == lu[i + 2];
      assert KeyName(f) + " : " + Get(t, f) == (KeyName(f) + " : ") + Get(t, f);
      assert KeyName(f) + " : " + Get(u, f) == (KeyName(f) + " : ") + Get(u, f);
      PrefixCancel(KeyName(f) + " : ", Get(t, f), Get(u, f));
    }
    ThemeExtensional(t, u);
  }

  /** The dark preset's `K : V` line for field `k` of `Order`. */
  lemma DarkLine(k: nat)
    requires k < |Order|
    ensures ReprLines(ThemeDark())[k + 2] == KeyName(Order[k]) + " : " + Get(ThemeDark(), Order[k])
  {
  }

  /** The header and rule of the dark preset. */
  lemma DarkHeaderLines()
    ensures ReprLines(ThemeDark())[0] == "ViewScad theme [" + "dark" + "]"
    ensures ReprLines(ThemeDark())[1] == "------------------------------"
  {
    var dashes := "------------------------------";
    assert forall i :: 0 <= i < 30 ==> Rule()[i] == dashes[i];
  }

  /** The axis lines of the dark preset. */
  lemma DarkAxisLines()
    ensures ReprLines(ThemeDark())[2] == "AXIS_X_COLOR" + " : " + "#ff00ff"
    ensures ReprLines(ThemeDark())[3] == "AXIS_Y_COLOR" + " : " + "#ffff00"
    ensures ReprLines(ThemeDark())[4] == "AXIS_Z_COLOR" + " : " + "#00ffff"
  {
    DarkLine(0);
    DarkLine(1);
    DarkLine(2);
  }

  /** The background, object and edge lines of the dark preset. */
  lemma DarkSurfaceLines()
    ensures ReprLines(ThemeDark())[5] == "BACKGROUND_COLOR" + " : " + "#3D3D3D"
    ensures ReprLines(ThemeDark())[6] == "OBJ_COLOR" + " : " + "#f7d62c"
    ensures ReprLines(ThemeDark())[7] == "SELECTED_EDGE_COLOR" + " : " + "#6666ff"
  {
    DarkLine(3);
    DarkLine(4);
    DarkLine(5);
  }

  /** The face, vertex and text lines of the dark preset. */
  lemma DarkSelectionLines()
    ensures ReprLines(ThemeDark())[8] == "SELECTED_FACE_COLOR" + " : " + "#ff0000"
    ensures ReprLines(ThemeDark())[9] == "SELECTED_VERTEX_COLOR" + " : " + "#00ff00"
    ensures ReprLines(ThemeDark())[10] == "TEXT_COLOR" + " : " + "#ffffff"
  {
    DarkLine(6);
    DarkLine(7);
    DarkLine(8);
  }

  /** The dark preset's representation is these eleven lines: the nine colour
      fields in `dir()` order, `TEXT_COLOR` last, no `SELECTED_EDGE_COLOR_INT`. */
  lemma DarkReprLines()
    ensures ReprLines(ThemeDark()) == [
      "ViewScad theme [" + "dark" + "]",
      "------------------------------",
      "AXIS_X_COLOR" + " : " + "#ff00ff",
      "AXIS_Y_COLOR" + " : " + "#ffff00",
      "AXIS_Z_COLOR" + " : " + "#00ffff",
      "BACKGROUND_COLOR" + " : " + "#3D3D3D",
      "OBJ_COLOR" + " : " + "#f7d62c",
      "SELECTED_EDGE_COLOR" + " : " + "#6666ff",
      "SELECTED_FACE_COLOR" + " : " + "#ff0000",
      "SELECTED_VERTEX_COLOR" + " : " + "#00ff00",
      "TEXT_COLOR" + " : " + "#ffffff"]
  {
    DarkHeaderLines();
    DarkAxisLines();
    DarkSurfaceLines();
    DarkSelectionLines();
    ElevenLines(ReprLines(ThemeDark()));
  }

  /** An eleven-element sequence is the display of its elements. */
  lemma ElevenLines(lines: seq<string>)
    requires |lines| == 11
    ensures lines == [lines[0], lines[1], lines[2], lines[3], lines[4], lines[5],
                      lines[6], lines[7], lines[8], lines[9], lines[10]]
  {
  }

  /** Printing the dark preset and splitting at newlines gives exactly those
      eleven lines: nothing spans a line and there is no trailing newline. */
  lemma DarkRepr()
    ensures Text.Split(Repr(ThemeDark()), '\n') == ReprLines(ThemeDark())
  {
    DarkSingleLine();
    ReprSplitsIntoLines(ThemeDark());
  }

  lemma DarkSingleLine()
    ensures SingleLine(ThemeDark())
  {
    var t := ThemeDark();
    forall f ensures '\n' !in Get(t, f) {
      var v := Get(t, f);
      assert |v| == 7 && forall i :: 0 <= i < 7 ==> v[i] != '\n';
    }
  }

}
