/** The Input form control of src/Input.js, up to the markup it renders:
    from its props it computes whether the field is invalid, the class
    names of its wrapper, the styles of its four parts (wrapper, label,
    input, message text) and the attributes that switch off the browser's
    typing aids. Later spreads win: every key the caller passes in `style`
    or in `subComponentStyles` overrides the default of the same key.

    The props the component destructures by name are fields of
    `InputProps`; the remaining props (`...props`), where `invalid`,
    `aria-invalid`, `disabled` and `readOnly` are read, are the map `rest`. */
module InputStyles {
  import opened JsValue

  /** The theme fields the component reads. `scale` is an array. */
  datatype Theme = Theme(scale: seq<Value>, colors: Props, borderColor: Value, borderRadius: Value)

  /** `subComponentStyles`: one caller style per part. A part the caller
      leaves out spreads nothing and is the empty map here. */
  datatype SubStyles = SubStyles(labelStyle: Style, inputStyle: Style, textStyle: Style)

  datatype InputProps = InputProps(
    className: Value,
    style: Style,        // an absent `style` spreads nothing: the empty map
    theme: Theme,
    sub: SubStyles,
    autoOff: Value,
    rest: Props)

  /** The styles of the four parts. */
  datatype InputSx = InputSx(rootStyle: Style, labelStyle: Style, inputStyle: Style, textStyle: Style)

  /** `props.invalid || props['aria-invalid']` */
  function Invalid(rest: Props): (r: Value)
    ensures Truthy(r) <==> Truthy(Get(rest, "invalid")) || Truthy(Get(rest, "aria-invalid"))
    ensures Truthy(Get(rest, "invalid")) ==> r == Get(rest, "invalid")
  {
    Or(Get(rest, "invalid"), Get(rest, "aria-invalid"))
  }

  // -------------------------------------------------------- class names

  /** The classes one string or number argument of classnames contributes:
      itself when truthy, nothing when falsy. */
  function ArgClasses(v: Value): (r: seq<string>)
    ensures |r| <= 1
    ensures v.Str? && v.s != "" ==> r == [v.s]
    ensures v.Num? && v.n != 0 ==> r == [IntToString(v.n)]
    ensures v.Bool? || v.Func? ==> r == []
    ensures !Truthy(v) ==> r == []
  {
    match v
    case Str(s) => if s != "" then [s] else []
    case Num(n) => if n != 0 then [IntToString(n)] else []
    case _ => []
  }

  /** The classes an object argument of classnames contributes: its keys
      whose values are truthy, in the order the object literal lists them. */
  function FlagClasses(invalid: Value, disabled: Value, readOnly: Value): (r: seq<string>)
    ensures "isInvalid" in r <==> Truthy(invalid)
    ensures "isDisabled" in r <==> Truthy(disabled)
    ensures "isReadonly" in r <==> Truthy(readOnly)
    ensures forall c | c in r :: c in {"isInvalid", "isDisabled", "isReadonly"}
  {
    (if Truthy(invalid) then ["isInvalid"] else [])
    + (if Truthy(disabled) then ["isDisabled"] else [])
    + (if Truthy(readOnly) then ["isReadonly"] else [])
  }

  /** The classes of the wrapper: 'Input', then the caller's className,
      then one class per state flag that holds. */
  function ClassList(p: InputProps): (r: seq<string>)
    ensures |r| >= 1 && r[0] == "Input"
    ensures "isInvalid" in r <==> Truthy(Invalid(p.rest)) || "isInvalid" in ArgClasses(p.className)
    ensures "isDisabled" in r <==> Truthy(Get(p.rest, "disabled")) || "isDisabled" in ArgClasses(p.className)
    ensures "isReadonly" in r <==> Truthy(Get(p.rest, "readOnly")) || "isReadonly" in ArgClasses(p.className)
    ensures forall k | 1 <= k < |r| ::
      r[k] in ArgClasses(p.className) || r[k] in {"isInvalid", "isDisabled", "isReadonly"}
  {
    ["Input"] + ArgClasses(p.className)
      + FlagClasses(Invalid(p.rest), Get(p.rest, "disabled"), Get(p.rest, "readOnly"))
  }

  /** The text of the class attribute: the classes joined by spaces. */
  function ClassName(p: InputProps): (r: string)
    ensures |r| >= 5 && r[..5] == "Input"
  {
    var cs := ClassList(p);
    JoinSpaced(cs)
  }

  function JoinSpaced(cs: seq<string>): (r: string)
    ensures cs != [] ==> |r| >= |cs[0]| && r[..|cs[0]|] == cs[0]
  {
    if cs == [] then ""
    else if |cs| == 1 then cs[0]
    else cs[0] + " " + JoinSpaced(cs[1..])
  }

  /** The characters that separate the classes of a class attribute:
      space, tab, line feed, form feed and carriage return. */
  predicate Space(ch: char) {
    ch == ' ' || ch == '\t' || ch == '\n' || ch == '\U{000C}' || ch == '\r'
  }

  /** A possible class: non-empty text without separators. */
  predicate Word(c: string) {
    c != "" && forall k | 0 <= k < |c| :: !Space(c[k])
  }

  /** The class c stands between positions i and j of attribute text s,
      with a separator or an end of the text on either side. */
  predicate ClassAt(s: string, c: string, i: int, j: int)
    requires 0 <= i <= j <= |s|
  {
    s[i..j] == c && (i == 0 || Space(s[i - 1])) && (j == |s| || Space(s[j]))
  }

  /** c is one of the classes that attribute text s gives an element. */
  ghost predicate HasClass(s: string, c: string) {
    Word(c) && exists i, j | 0 <= i <= j <= |s| :: ClassAt(s, c, i, j)
  }

  /** Some text of cs gives the class c. */
  ghost predicate InAny(cs: seq<string>, c: string) {
    exists k | 0 <= k < |cs| :: HasClass(cs[k], c)
  }

  /** A word used as attribute text gives exactly itself as a class. */
  lemma WordClass(w: string, c: string)
    requires Word(w)
    ensures HasClass(w, c) <==> c == w
  {
    if c == w {
      assert ClassAt(w, c, 0, |w|);
    }
  }

  /** Texts that are single words give exactly themselves as classes. */
  lemma {:induction false} WordsClasses(ws: seq<string>, c: string)
    requires forall k | 0 <= k < |ws| :: Word(ws[k])
    ensures InAny(ws, c) <==> c in ws
  {
    if InAny(ws, c) {
      var k :| 0 <= k < |ws| && HasClass(ws[k], c);
      WordClass(ws[k], c);
    }
    if c in ws {
      var k :| 0 <= k < |ws| && ws[k] == c;
      WordClass(ws[k], c);
    }
  }

  lemma InAnyConcat(xs: seq<string>, ys: seq<string>, c: string)
    ensures InAny(xs + ys, c) <==> InAny(xs, c) || InAny(ys, c)
  {
    if InAny(xs + ys, c) {
      var k :| 0 <= k < |xs + ys| && HasClass((xs + ys)[k], c);
      if k >= |xs| {
        assert (xs + ys)[k] == ys[k - |xs|];
      }
    }
    if InAny(xs, c) {
      var k :| 0 <= k < |xs| && HasClass(xs[k], c);
      assert (xs + ys)[k] == xs[k];
    }
    if InAny(ys, c) {
      var k :| 0 <= k < |ys| && HasClass(ys[k], c);
      assert (xs + ys)[|xs| + k] == ys[k];
    }
  }

  /** A class standing in a text covers no separator. */
  lemma NoSpaceIn(s: string, c: string, i: int, j: int)
    requires 0 <= i <= j <= |s| && s[i..j] == c && Word(c)
    ensures forall k | i <= k < j :: !Space(s[k])
  {
    forall k | i <= k < j ensures !Space(s[k]) {
      assert s[k] == c[k - i];
    }
  }

  /** A class of `a + " " + b` is a class of a or of b. */
  lemma JoinClassParts(a: string, b: string, c: string)
    requires HasClass(a + " " + b, c)
    ensures HasClass(a, c) || HasClass(b, c)
  {
    var s, n := a + " " + b, |a| + 1;
    var i, j :| 0 <= i <= j <= |s| && ClassAt(s, c, i, j);
    NoSpaceIn(s, c, i, j);
    assert s[|a|] == ' ';
    if j <= |a| {
      assert a[i..j] == s[i..j];
      assert ClassAt(a, c, i, j);
    } else {
      assert i >= n;
      assert s[n..] == b;
      assert b[i - n..j - n] == s[i..j];
      assert ClassAt(b, c, i - n, j - n);
    }
  }

  /** A class of a stays a class of `a + " " + b`. */
  lemma JoinClassLeft(a: string, b: string, c: string)
    requires HasClass(a, c)
    ensures HasClass(a + " " + b, c)
  {
    var s := a + " " + b;
    var i, j :| 0 <= i <= j <= |a| && ClassAt(a, c, i, j);
    assert s[i..j] == a[i..j];
    assert ClassAt(s, c, i, j);
  }

  /** A class of b stays a class of `a + " " + b`. */
  lemma JoinClassRight(a: string, b: string, c: string)
    requires HasClass(b, c)
    ensures HasClass(a + " " + b, c)
  {
    var s, n := a + " " + b, |a| + 1;
    var i, j :| 0 <= i <= j <= |b| && ClassAt(b, c, i, j);
    assert s[n..] == b;
    assert s[i + n..j + n] == b[i..j];
    assert ClassAt(s, c, i + n, j + n);
  }

  /** Joining two texts with a space gives the classes of either. */
  lemma JoinClass(a: string, b: string, c: string)
    ensures HasClass(a + " " + b, c) <==> HasClass(a, c) || HasClass(b, c)
  {
    if HasClass(a + " " + b, c) {
      JoinClassParts(a, b, c);
    }
    if HasClass(a, c) {
      JoinClassLeft(a, b, c);
    }
    if HasClass(b, c) {
      JoinClassRight(a, b, c);
    }
  }

  /** The attribute text gives exactly the classes of its parts. */
  lemma {:induction false} JoinSpacedClasses(cs: seq<string>, c: string)
    ensures HasClass(JoinSpaced(cs), c) <==> InAny(cs, c)
    decreases |cs|
  {
    if |cs| == 1 {
      assert InAny(cs, c) <==> HasClass(cs[0], c);
    } else if |cs| > 1 {
      JoinClass(cs[0], JoinSpaced(cs[1..]), c);
      JoinSpacedClasses(cs[1..], c);
      InAnyConcat([cs[0]], cs[1..], c);
      assert cs == [cs[0]] + cs[1..];
      assert InAny([cs[0]], c) <==> HasClass(cs[0], c);
    }
  }

  /** The classes of 'Input', then the caller's texts, then single-word
      flag classes, joined by spaces. */
  lemma {:induction false} ListClasses(own: seq<string>, flags: seq<string>, c: string)
    requires forall k | 0 <= k < |flags| :: Word(flags[k])
    ensures HasClass(JoinSpaced(["Input"] + own + flags), c) <==> c == "Input" || c in flags || InAny(own, c)
  {
    JoinSpacedClasses(["Input"] + own + flags, c);
    InAnyConcat(["Input"] + own, flags, c);
    InAnyConcat(["Input"], own, c);
    WordsClasses(["Input"], c);
    WordsClasses(flags, c);
  }

  /** The classes the wrapper element has: 'Input', those in the caller's
      className, and one class per state flag that holds; nothing else. */
  lemma {:induction false} ClassNameClasses(p: InputProps, c: string)
    ensures var own, flags := ArgClasses(p.className),
                              FlagClasses(Invalid(p.rest), Get(p.rest, "disabled"), Get(p.rest, "readOnly"));
      HasClass(ClassName(p), c) <==> c == "Input" || c in flags || InAny(own, c)
  {
    var own := ArgClasses(p.className);
    var flags := FlagClasses(Invalid(p.rest), Get(p.rest, "disabled"), Get(p.rest, "readOnly"));
    assert Word("isInvalid") && Word("isDisabled") && Word("isReadonly");
    ListClasses(own, flags, c);
  }

  /** The wrapper element always has the class 'Input', and has each state
      class exactly when that state holds or the caller's className holds
      that class among its space-separated classes. */
  lemma {:induction false} ClassStates(p: InputProps)
    ensures var s, own := ClassName(p), ArgClasses(p.className);
      && HasClass(s, "Input")
      && (HasClass(s, "isInvalid") <==> Truthy(Invalid(p.rest)) || InAny(own, "isInvalid"))
      && (HasClass(s, "isDisabled") <==> Truthy(Get(p.rest, "disabled")) || InAny(own, "isDisabled"))
      && (HasClass(s, "isReadonly") <==> Truthy(Get(p.rest, "readOnly")) || InAny(own, "isReadonly"))
  {
    ClassNameClasses(p, "Input");
    ClassNameClasses(p, "isInvalid");
    ClassNameClasses(p, "isDisabled");
    ClassNameClasses(p, "isReadonly");
  }

  // -------------------------------------------------------------- styles

  /** The colour that marks an invalid field: the theme's error colour. */
  function StateColor(theme: Theme, invalid: bool, otherwise: Value): Value {
    if invalid then Get(theme.colors, "error") else otherwise
  }

  /** The wrapper's style: a bottom margin of scale step 2 and, when
      invalid, the error colour; then the caller's `style`. */
  function RootStyle(p: InputProps): (s: Style)
    ensures s.Keys == {"marginBottom", "color"} + p.style.Keys
    ensures forall k | k in p.style :: s[k] == p.style[k]
    ensures "marginBottom" !in p.style ==> s["marginBottom"] == At(p.theme.scale, 2)
    ensures "color" !in p.style ==>
      (Truthy(Invalid(p.rest)) ==> s["color"] == Get(p.theme.colors, "error"))
      && (!Truthy(Invalid(p.rest)) ==> s["color"] == Null)
  {
    map["marginBottom" := At(p.theme.scale, 2), "color" := StateColor(p.theme, Truthy(Invalid(p.rest)), Null)] + p.style
  }

  const InputKeys: set<string> := {
    "fontFamily", "fontSize", "boxSizing", "display", "width", "height", "margin",
    "paddingLeft", "paddingRight", "color", "backgroundColor", "borderWidth",
    "borderStyle", "borderColor", "borderRadius"}

  /** The input's own value for each of its style keys. */
  function InputDefault(theme: Theme, invalid: bool, key: string): Value
    requires key in InputKeys
  {
    match key
    case "fontFamily" => Str("inherit")
    case "fontSize" => Str("inherit")
    case "boxSizing" => Str("border-box")
    case "display" => Str("block")
    case "width" => Str("100%")
    case "height" => At(theme.scale, 3)
    case "margin" => Num(0)
    case "paddingLeft" => At(theme.scale, 1)
    case "paddingRight" => At(theme.scale, 1)
    case "color" => Str("inherit")
    case "backgroundColor" => Str("rgba(255, 255, 255, .25)")
    case "borderWidth" => Num(1)
    case "borderStyle" => Str("solid")
    case "borderColor" => StateColor(theme, invalid, theme.borderColor)
    case "borderRadius" => theme.borderRadius
  }

  /** The input's own style before the caller's overrides. */
  function InputDefaults(theme: Theme, invalid: bool): (s: Style)
    ensures s.Keys == InputKeys
    ensures s["height"] == At(theme.scale, 3)
    ensures s["paddingLeft"] == s["paddingRight"] == At(theme.scale, 1)
    ensures invalid ==> s["borderColor"] == Get(theme.colors, "error")
    ensures !invalid ==> s["borderColor"] == theme.borderColor
    ensures s["borderRadius"] == theme.borderRadius
    ensures s["width"] == Str("100%") && s["margin"] == Num(0) && s["borderWidth"] == Num(1)
  {
    map key | key in InputKeys :: InputDefault(theme, invalid, key)
  }

  /** The styles of the four parts: the wrapper's, the label's and the
      message text's as above and as given; the input's defaults overridden
      key by key by the caller's input style. */
  function Sx(p: InputProps): (sx: InputSx)
    ensures sx.rootStyle == RootStyle(p)
    ensures sx.labelStyle == p.sub.labelStyle && sx.textStyle == p.sub.textStyle
    ensures sx.inputStyle.Keys == InputDefaults(p.theme, Truthy(Invalid(p.rest))).Keys + p.sub.inputStyle.Keys
    ensures forall k | k in p.sub.inputStyle :: sx.inputStyle[k] == p.sub.inputStyle[k]
    ensures forall k | k in InputDefaults(p.theme, Truthy(Invalid(p.rest))) && k !in p.sub.inputStyle :: sx.inputStyle[k] == InputDefaults(p.theme, Truthy(Invalid(p.rest)))[k]
  {
    InputSx(
      rootStyle := RootStyle(p),
      labelStyle := p.sub.labelStyle,   // `{...x}` copies every entry of x
      inputStyle := InputDefaults(p.theme, Truthy(Invalid(p.rest))) + p.sub.inputStyle,
      textStyle := p.sub.textStyle)
  }

  /** An invalid field shows the error colour on the wrapper text and on
      the input border, wherever the caller does not override them; a valid
      one leaves the wrapper colour null and uses the theme's border colour. */
  lemma {:induction false} InvalidColors(p: InputProps)
    requires "color" !in p.style && "borderColor" !in p.sub.inputStyle
    ensures var sx, error := Sx(p), Get(p.theme.colors, "error");
      && (Truthy(Invalid(p.rest)) ==> sx.rootStyle["color"] == error && sx.inputStyle["borderColor"] == error)
      && (!Truthy(Invalid(p.rest)) ==> sx.rootStyle["color"] == Null && sx.inputStyle["borderColor"] == p.theme.borderColor)
  {
    var sx := Sx(p);
    assert "borderColor" in InputDefaults(p.theme, Truthy(Invalid(p.rest)));
  }

  /** Spacing comes from the theme's scale: the wrapper's bottom margin is
      step 2, the input's height step 3 and its side paddings step 1. */
  lemma {:induction false} ScaleSpacing(p: InputProps)
    requires "marginBottom" !in p.style
    requires forall k | k in {"height", "paddingLeft", "paddingRight"} :: k !in p.sub.inputStyle
    ensures var sx := Sx(p);
      && sx.rootStyle["marginBottom"] == At(p.theme.scale, 2)
      && sx.inputStyle["height"] == At(p.theme.scale, 3)
      && sx.inputStyle["paddingLeft"] == sx.inputStyle["paddingRight"] == At(p.theme.scale, 1)
  {
    var d := InputDefaults(p.theme, Truthy(Invalid(p.rest)));
    assert "height" in d && "paddingLeft" in d && "paddingRight" in d;
  }

  /** Without caller overrides the input style is exactly its defaults, and
      overriding a key changes that key only. */
  lemma {:induction false} InputOverride(p: InputProps, k: string, v: Value)
    ensures p.sub.inputStyle == map[] ==> Sx(p).inputStyle == InputDefaults(p.theme, Truthy(Invalid(p.rest)))
    ensures var q := p.(sub := p.sub.(inputStyle := p.sub.inputStyle[k := v]));
      Sx(q).inputStyle == Sx(p).inputStyle[k := v]
  {
    SpreadOverride(InputDefaults(p.theme, Truthy(Invalid(p.rest))), p.sub.inputStyle, k, v);
  }

  /** `{...a, ...b}`, where b later sets key k, is `{...a, ...b}` with k
      then set. */
  lemma SpreadOverride(a: Style, b: Style, k: string, v: Value)
    ensures a + b[k := v] == (a + b)[k := v]
    ensures a + map[] == a
  {
  }

  // ----------------------------------------------------------- attributes

  const AutoKeys: set<string> := {"autoComplete", "autoCorrect", "autoCapitalize", "spellCheck"}

  /** With `autoOff`, the four typing aids are switched off; otherwise no
      attribute is added. */
  function AutoProps(autoOff: Value): (r: Props)
    ensures r.Keys == (if Truthy(autoOff) then AutoKeys else {})
    ensures forall k | k in r :: r[k] == Str("off")
  {
    if Truthy(autoOff) then
      map["autoComplete" := Str("off"), "autoCorrect" := Str("off"),
          "autoCapitalize" := Str("off"), "spellCheck" := Str("off")]
    else map[]
  }

  // ------------------------------------------------------- default props

  /** Input's default props. */
  const DefaultProps: Props := map["type" := Str("text")]

  /** How React fills in default props: each default whose prop is
      `undefined` (absent or explicitly undefined) is used instead. */
  function WithDefaults(defaults: Props, props: Props): (r: Props)
    ensures r.Keys == props.Keys + defaults.Keys
    ensures forall k | k in props && props[k] != Undefined :: r[k] == props[k]
    ensures forall k | k in defaults && Get(props, k) == Undefined :: r[k] == defaults[k]
    ensures forall k | k in props && k !in defaults :: r[k] == props[k]
  {
    map k | k in props.Keys + defaults.Keys ::
      if k in defaults && Get(props, k) == Undefined then defaults[k] else props[k]
  }

  /** Filling in defaults twice is filling them in once. */
  lemma WithDefaultsIdempotent(defaults: Props, props: Props)
    ensures WithDefaults(defaults, WithDefaults(defaults, props)) == WithDefaults(defaults, props)
  {
    var once := WithDefaults(defaults, props);
    var twice := WithDefaults(defaults, once);
    forall k | k in twice ensures twice[k] == once[k] {
      if k in defaults && Get(props, k) == Undefined {
        assert once[k] == defaults[k];
      }
    }
  }

  /** An Input's `type` is the one given, or 'text' when none is given. */
  lemma {:induction false} TypeDefault(props: Props)
    ensures var t := WithDefaults(DefaultProps, props)["type"];
      && (Get(props, "type") == Undefined ==> t == Str("text"))
      && (Get(props, "type") != Undefined ==> t == props["type"])
      && t != Undefined
  {
    assert "type" in DefaultProps;
  }
}
