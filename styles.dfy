/** The style rules of src/components.js that branch on props: Text's
    weight, Avatar's and Circle's size, Border's sides, Absolute's and
    Fixed's pinned edges, and Drawer's placement. A rule maps the props a
    component receives to a style object.

    A style object whose keys do not depend on the props is a record here,
    one field per key, named as the key; Text's style, whose keys come partly
    from caps(props), stays a map.

    The rules call helpers of the library's util module (px, idx, color,
    align, caps) whose bodies are not part of this model; they are passed in
    as the fields of an `Env`, so every property proved here holds whatever
    those helpers compute. */
module Styles {
  import opened JsValue

  datatype Env = Env(
    px: Value -> Value,                   // px(n)
    idx: (string, Value) -> Value,        // idx(path, theme)
    color: (Props, Value, int) -> Value,  // color(props)(name, shade)
    align: Props -> Value,                // align(props)
    caps: Props -> Style)                 // caps(props)

  /** `props.key ? ... : ...` */
  predicate Flag(props: Props, key: string) {
    Truthy(Get(props, key))
  }

  /** The four edges of a box, which are also the four drawer placements. */
  const Sides: set<string> := {"top", "right", "bottom", "left"}

  /** One value per edge: the `top`, `right`, `bottom` and `left` keys of a
      style object, or its `borderTopWidth` ... `borderLeftWidth` keys. */
  datatype Edges = Edges(top: Value, right: Value, bottom: Value, left: Value)

  function Edge(edges: Edges, side: string): Value
    requires side in Sides
  {
    match side
    case "top" => edges.top
    case "right" => edges.right
    case "bottom" => edges.bottom
    case "left" => edges.left
  }

  /** `b ? 0 : null` */
  function ZeroOr(b: bool): (r: Value)
    ensures !Truthy(r)
    ensures r.Num? <==> b
  {
    if b then Num(0) else Null
  }

  // ---------------------------------------------------------------- Text

  /** Text's style: the alignment and the weight, overridden by whatever
      caps(props) returns. A `bold` prop selects the theme's second weight. */
  function TextStyle(env: Env, props: Props): (s: Style)
    ensures s.Keys == {"textAlign", "fontWeight"} + env.caps(props).Keys
    ensures forall k | k in env.caps(props) :: s[k] == env.caps(props)[k]
    ensures "textAlign" !in env.caps(props) ==> s["textAlign"] == env.align(props)
    ensures "fontWeight" !in env.caps(props) ==>
      s["fontWeight"] == env.idx(if Flag(props, "bold") then "weights.1" else "weights.0", Get(props, "theme"))
  {
    var base := map[
      "textAlign" := env.align(props),
      "fontWeight" := if Flag(props, "bold") then env.idx("weights.1", Get(props, "theme"))
                      else env.idx("weights.0", Get(props, "theme"))];
    base + env.caps(props)
  }

  /** Bold and regular text differ at most in their weight. */
  lemma {:induction false} TextBoldOnlyWeight(env: Env, props: Props, bold: Value)
    requires "fontWeight" !in env.caps(props) && env.caps(props["bold" := bold]) == env.caps(props)
    requires env.align(props["bold" := bold]) == env.align(props)
    ensures TextStyle(env, props["bold" := bold])
         == TextStyle(env, props)["fontWeight" := env.idx(if Truthy(bold) then "weights.1" else "weights.0",
                                                          Get(props, "theme"))]
  {
    var s, t := TextStyle(env, props["bold" := bold]), TextStyle(env, props);
    assert Get(props["bold" := bold], "theme") == Get(props, "theme");
    assert s.Keys == t.Keys;
  }

  // ------------------------------------------------------ Avatar, Circle

  datatype AvatarCss = AvatarCss(display: Value, width: Value, height: Value, borderRadius: Value)
  datatype CircleCss = CircleCss(textAlign: Value, width: Value, height: Value, borderRadius: Value)

  /** An inline image, square, of side `px(props.size || 48)`, fully rounded. */
  function AvatarStyle(env: Env, props: Props): (s: AvatarCss)
    ensures s.display == Str("inline-block")
    ensures s.width == s.height
    ensures Flag(props, "size") ==> s.width == env.px(Get(props, "size"))
    ensures !Flag(props, "size") ==> s.width == env.px(Num(48))
    ensures s.borderRadius == env.px(Num(99999))
  {
    AvatarCss(
      display := Str("inline-block"),
      width := env.px(Or(Get(props, "size"), Num(48))),
      height := env.px(Or(Get(props, "size"), Num(48))),
      borderRadius := env.px(Num(99999)))
  }

  /** Centred, square, of side `px(props.size || 24)`, fully rounded. */
  function CircleStyle(env: Env, props: Props): (s: CircleCss)
    ensures s.textAlign == Str("center")
    ensures s.width == s.height
    ensures Flag(props, "size") ==> s.width == env.px(Get(props, "size"))
    ensures !Flag(props, "size") ==> s.width == env.px(Num(24))
    ensures s.borderRadius == env.px(Num(99999))
  {
    CircleCss(
      textAlign := Str("center"),
      width := env.px(Or(Get(props, "size"), Num(24))),
      height := env.px(Or(Get(props, "size"), Num(24))),
      borderRadius := env.px(Num(99999)))
  }

  /** An avatar and a circle are equally rounded, and given the same
      truthy size they have the same sides. */
  lemma AvatarCircleShape(env: Env, props: Props)
    ensures var a, c := AvatarStyle(env, props), CircleStyle(env, props);
      && a.borderRadius == c.borderRadius
      && (Flag(props, "size") ==> a.width == c.width && a.height == c.height)
  {
  }

  // -------------------------------------------------------------- Border

  datatype BorderCss = BorderCss(
    borderWidth: Value,
    borderStyle: Value,
    borderColor: Value,
    color: Value,
    sides: Option<Edges>)   // the four per-side width keys, when present

  /** The width a border draws with: `px(props.borderWidth || 1)`. */
  function BorderWidth(env: Env, props: Props): Value {
    env.px(Or(Get(props, "borderWidth"), Num(1)))
  }

  /** Some side of the box is selected. */
  predicate AnySide(props: Props) {
    Flag(props, "top") || Flag(props, "right") || Flag(props, "bottom") || Flag(props, "left")
  }

  /** A solid border in the given colour (gray by default, shade 2). With no
      side selected it has one `borderWidth`; otherwise `borderWidth` is null
      and each selected side has the width, each other side 0. The per-side
      keys appear exactly when `borderWidth` comes out falsy. */
  function BorderStyle(env: Env, props: Props): (s: BorderCss)
    ensures s.borderStyle == Str("solid") && s.color == Str("inherit")
    ensures s.borderColor == env.color(props, Or(Get(props, "color"), Str("gray")), 2)
    ensures AnySide(props) ==> s.borderWidth == Null
    ensures !AnySide(props) ==> s.borderWidth == BorderWidth(env, props)
    ensures s.sides.Some? <==> !Truthy(s.borderWidth)
    ensures s.sides.Some? ==> forall e | e in Sides ::
      Edge(s.sides.value, e) == (if Flag(props, e) then BorderWidth(env, props) else Num(0))
  {
    var w := BorderWidth(env, props);
    var borderWidth := if !AnySide(props) then w else Null;
    var directions := if Truthy(borderWidth) then None else Some(Edges(
      top := if Flag(props, "top") then w else Num(0),
      right := if Flag(props, "right") then w else Num(0),
      bottom := if Flag(props, "bottom") then w else Num(0),
      left := if Flag(props, "left") then w else Num(0)));
    BorderCss(
      borderWidth := borderWidth,
      borderStyle := Str("solid"),
      borderColor := env.color(props, Or(Get(props, "color"), Str("gray")), 2),
      color := Str("inherit"),
      sides := directions)
  }

  /** With a width that is truthy and not 0, a border is drawn either all
      round through `borderWidth`, when no side is selected, or side by
      side, and then exactly the selected sides carry the width. */
  lemma {:induction false} BorderSidesSelected(env: Env, props: Props)
    requires Truthy(BorderWidth(env, props))
    ensures var s := BorderStyle(env, props);
      && (!AnySide(props) <==> s.borderWidth == BorderWidth(env, props))
      && (!AnySide(props) <==> s.sides.None?)
      && (AnySide(props) ==> forall e | e in Sides ::
            Edge(s.sides.value, e) == BorderWidth(env, props) <==> Flag(props, e))
  {
    var s := BorderStyle(env, props);
    if AnySide(props) {
      assert s.borderWidth == Null;
      assert s.sides.Some?;
    } else {
      assert Truthy(s.borderWidth);
    }
  }

  // --------------------------------------------------- Absolute, Fixed

  datatype OffsetCss = OffsetCss(position: Value, edges: Edges, zIndex: Value)

  /** The style of Absolute (`mode` "absolute") and Fixed (`mode` "fixed"):
      each edge whose flag is set is pinned at 0, the others are null, and
      the z-index is the `z` prop. */
  function OffsetStyle(mode: string, props: Props): (s: OffsetCss)
    ensures s.position == Str(mode)
    ensures forall e | e in Sides :: Edge(s.edges, e) == (if Flag(props, e) then Num(0) else Null)
    ensures s.zIndex == Get(props, "z")
  {
    OffsetCss(
      position := Str(mode),
      edges := Edges(
        top := ZeroOr(Flag(props, "top")),
        right := ZeroOr(Flag(props, "right")),
        bottom := ZeroOr(Flag(props, "bottom")),
        left := ZeroOr(Flag(props, "left"))),
      zIndex := Get(props, "z"))
  }

  /** Absolute and Fixed pin the same edges and the same z-index; they
      differ in their `position` only. */
  lemma AbsoluteLikeFixed(props: Props)
    ensures OffsetStyle("absolute", props) == OffsetStyle("fixed", props).(position := Str("absolute"))
  {
  }

  // -------------------------------------------------------------- Drawer

  datatype DrawerCss = DrawerCss(
    edges: Edges,
    width: Value,
    height: Value,
    transform: Value,
    overflowX: Value,
    overflowY: Value,
    transitionProperty: Value,
    transitionDuration: Value,
    transitionTimingFunction: Value)

  /** `props.position || 'left'`, as the text the rule tests and looks up. */
  function Placement(props: Props): string {
    ToStr(Or(Get(props, "position"), Str("left")))
  }

  /** `props.size || 320` */
  function DrawerSize(props: Props): Value {
    Or(Get(props, "size"), Num(320))
  }

  /** The edge across the screen from a placement. */
  function Opposite(side: string): (r: string)
    requires side in Sides
    ensures r in Sides && r != side
  {
    match side
    case "top" => "bottom"
    case "bottom" => "top"
    case "left" => "right"
    case "right" => "left"
  }

  /** `transforms[position]`: the transform that moves a closed drawer off
      the screen across the edge it is placed at; `undefined` for any other
      placement. */
  function Translate(position: string): (r: Value)
    ensures r != Undefined <==> position in Sides
    ensures position in {"left", "right"} ==> r.Str? && |r.s| > 11 && r.s[..11] == "translateX("
    ensures position in {"top", "bottom"} ==> r.Str? && |r.s| > 11 && r.s[..11] == "translateY("
    ensures position in Sides ==> (r.s[11] == '-' <==> position in {"left", "top"})
  {
    match position
    case "left" => Str("translateX(-100%)")
    case "right" => Str("translateX(100%)")
    case "top" => Str("translateY(-100%)")
    case "bottom" => Str("translateY(100%)")
    case _ => Undefined
  }

  /** A panel along one edge of the screen: as wide as `size` when placed
      left or right, as tall as `size` when placed top or bottom; pinned at
      the three edges other than the opposite one (at no edge for an unknown
      placement); moved off screen unless `open`; scrolling vertically and
      sliding in 0.2s. */
  function DrawerStyle(env: Env, props: Props): (s: DrawerCss)
    ensures var p := Placement(props);
      && (p in {"left", "right"} ==> s.width == env.px(DrawerSize(props)) && s.height == Null)
      && (p !in {"left", "right"} ==> s.width == Null && s.height == env.px(DrawerSize(props)))
    ensures var p := Placement(props);
      && (p in Sides ==> forall e | e in Sides :: Edge(s.edges, e) == (if e == Opposite(p) then Null else Num(0)))
      && (p !in Sides ==> forall e | e in Sides :: Edge(s.edges, e) == Null)
    ensures Flag(props, "open") ==> s.transform == Undefined
    ensures !Flag(props, "open") ==> s.transform == Translate(Placement(props))
    ensures s.overflowX == Str("hidden") && s.overflowY == Str("auto")
    ensures s.transitionProperty == Str("transform") && s.transitionDuration == Str(".2s")
    ensures s.transitionTimingFunction == Str("ease-out")
  {
    var position := Placement(props);
    var size := DrawerSize(props);
    var h := position in {"left", "right"};
    DrawerCss(
      edges := Edges(
        top := ZeroOr(position in {"top", "left", "right"}),
        right := ZeroOr(position in {"right", "top", "bottom"}),
        bottom := ZeroOr(position in {"bottom", "left", "right"}),
        left := ZeroOr(position in {"left", "top", "bottom"})),
      width := if h then env.px(size) else Null,
      height := if h then Null else env.px(size),
      transform := if !Flag(props, "open") then Translate(position) else Undefined,
      overflowX := Str("hidden"),
      overflowY := Str("auto"),
      transitionProperty := Str("transform"),
      transitionDuration := Str(".2s"),
      transitionTimingFunction := Str("ease-out"))
  }

  /** The edges a drawer pins are those a Fixed box pins when every side
      flag is set but the one opposite the placement. */
  lemma DrawerPinsLikeFixed(env: Env, props: Props)
    requires Placement(props) in Sides
    ensures var pins := map e | e in Sides :: Bool(e != Opposite(Placement(props)));
      DrawerStyle(env, props).edges == OffsetStyle("fixed", pins).edges
  {
    var p := Placement(props);
    var pins := map e | e in Sides :: Bool(e != Opposite(p));
    var d, f := DrawerStyle(env, props).edges, OffsetStyle("fixed", pins).edges;
    assert Edge(d, "top") == Edge(f, "top");
    assert Edge(d, "right") == Edge(f, "right");
    assert Edge(d, "bottom") == Edge(f, "bottom");
    assert Edge(d, "left") == Edge(f, "left");
  }

  /** A falsy position places the drawer at the left, and a falsy size
      gives it 320. */
  lemma DrawerDefaults(env: Env, props: Props)
    ensures !Flag(props, "position") ==>
      DrawerStyle(env, props) == DrawerStyle(env, props["position" := Str("left")])
    ensures !Flag(props, "size") ==>
      DrawerStyle(env, props) == DrawerStyle(env, props["size" := Num(320)])
  {
  }

  /** Opening a drawer drops its transform and changes nothing else. */
  lemma DrawerOpening(env: Env, props: Props, open: Value)
    requires Truthy(open)
    ensures DrawerStyle(env, props["open" := open]) == DrawerStyle(env, props).(transform := Undefined)
  {
    assert Placement(props["open" := open]) == Placement(props);
    assert DrawerSize(props["open" := open]) == DrawerSize(props);
  }
}
