/** The descriptor table exported by src/components.js, in declaration
    order. Props hold the default short-hand attributes each descriptor
    passes (`f`, `m`, `px`, `color`, `bg`, ...); `rule` names the style rule
    of module Styles that computes the descriptor's style, where one is
    modelled. */
module ComponentTable {
  import opened JsValue
  import opened Registry

  function D(name: string, tag: Tag, props: Props): Descriptor {
    Descriptor(name, tag, props, map[], None)
  }

  function Styled(name: string, tag: Tag, props: Props, rule: StyleRule): Descriptor {
    Descriptor(name, tag, props, map[], Some(rule))
  }

  /** The whole table: the source's sections, in order (its "UI" section is
      split here into three runs of entries). */
  const Table: seq<Descriptor> :=
    Buttons + Typography + Forms + Layout + Interface + Positioning + Widgets

  const Buttons: seq<Descriptor> := [
    D("Button", Primitive("button"),
      map["f" := Num(1), "m" := Num(0), "px" := Num(3), "py" := Num(2), "color" := Str("white")]),
    D("ButtonOutline", Ref("Button"), map["color" := Str("blue"), "bg" := Str("transparent")]),
    D("ButtonCircle", Ref("Button"), map["px" := Num(3)]),
    D("ButtonTransparent", Ref("Button"), map["color" := Str("inherit"), "bg" := Str("transparent")]),
    D("Link", Primitive("a"), map["color" := Str("blue")]),
    D("NavLink", Primitive("a"), map["f" := Num(1), "p" := Num(2)]),
    D("BlockLink", Primitive("a"), map[])
  ]

  const Typography: seq<Descriptor> := [
    Styled("Text", Primitive("p"), map["m" := Num(0)], TextWeight),
    D("Heading", Ref("Text"), map["is" := Str("h2"), "f" := Num(5), "m" := Num(0), "bold" := Bool(true)]),
    D("Subhead", Ref("Heading"), map["is" := Str("h3"), "f" := Num(4), "m" := Num(0)]),
    D("Small", Ref("Text"), map["is" := Str("small"), "f" := Num(0)]),
    D("Lead", Ref("Text"), map["is" := Str("p"), "f" := Num(3), "m" := Num(0)]),
    D("Pre", Primitive("pre"), map["f" := Num(1), "m" := Num(0)]),
    D("Code", Primitive("code"), map["f" := Num(1)]),
    D("Samp", Ref("Code"), map["is" := Str("samp")]),
    D("Blockquote", Ref("Text"), map["is" := Str("blockquote"), "m" := Num(0), "f" := Num(3)])
  ]

  const Forms: seq<Descriptor> := [
    D("Label", Primitive("label"), map["f" := Num(1), "mb" := Num(1)]),
    D("Input", Primitive("input"),
      map["type" := Str("text"), "p" := Num(1), "m" := Num(0), "w" := Num(1),
          "color" := Str("inherit"), "bg" := Str("transparent")]),
    D("Select", Primitive("select"),
      map["p" := Num(1), "m" := Num(0), "w" := Num(1), "color" := Str("inherit"), "bg" := Str("transparent")]),
    D("Textarea", Primitive("textarea"),
      map["p" := Num(1), "m" := Num(0), "w" := Num(1), "color" := Str("inherit"), "bg" := Str("transparent")]),
    D("Checkbox", Primitive("input"), map["type" := Str("checkbox"), "mr" := Num(1)]),
    D("Radio", Primitive("input"), map["type" := Str("radio"), "mr" := Num(1)]),
    D("Slider", Primitive("input"), map["w" := Num(1), "my" := Num(2), "mx" := Num(0), "type" := Str("range")]),
    D("Image", Primitive("img"), map[]),
    Styled("Avatar", Primitive("img"), map[], AvatarSize),
    D("BackgroundImage", Primitive("div"), map["w" := Num(1)])
  ]

  const Layout: seq<Descriptor> := [
    D("Container", Primitive("div"), map["px" := Num(3), "mx" := Str("auto")]),
    D("Divider", Primitive("hr"), map["my" := Num(2)]),
    Styled("Border", Primitive("div"), map[], BorderSides),
    D("Media", Primitive("div"), map[]),
    D("Card", Primitive("div"), map["bg" := Str("white")]),
    D("Banner", Primitive("div"), map["p" := List([Num(3), Num(4)])]),
    D("Panel", Primitive("div"), map[]),
    D("PanelHeader", Primitive("header"), map["f" := Num(2), "p" := Num(2)]),
    D("PanelFooter", Primitive("footer"), map["f" := Num(1), "p" := Num(2)])
  ]

  const Interface: seq<Descriptor> := [
    D("Progress", Primitive("progress"), map["w" := Num(1), "m" := Num(0)]),
    D("Message", Primitive("div"), map["px" := Num(3), "py" := Num(2), "color" := Str("white"), "bg" := Str("blue")]),
    D("Group", Primitive("div"), map[]),
    D("Toolbar", Primitive("div"), map["px" := Num(2), "color" := Str("white"), "bg" := Str("gray9")]),
    D("Badge", Primitive("div"),
      map["f" := Num(0), "p" := Num(1), "mx" := Num(1), "color" := Str("white"), "bg" := Str("blue")]),
    Styled("Circle", Ref("Badge"), map["color" := Str("white"), "bg" := Str("blue")], CircleSize),
    D("Overlay", Primitive("div"), map["p" := Num(3), "bg" := Str("white")]),
    D("Tabs", Primitive("div"), map[]),
    D("TabItem", Primitive("a"), map["f" := Num(1), "mr" := Num(3), "py" := Num(2)]),
    D("DotButton", Primitive("button"), map["m" := Num(0)])
  ]

  const Positioning: seq<Descriptor> := [
    D("Relative", Primitive("div"), map[]),
    Styled("Absolute", Primitive("div"), map[], AbsoluteOffsets),
    Styled("Fixed", Primitive("div"), map[], FixedOffsets),
    D("Sticky", Primitive("div"), map[]),
    Styled("Drawer", Ref("Fixed"), map["bg" := Str("white"), "size" := Num(320)], DrawerPlacement)
  ]

  const Widgets: seq<Descriptor> := [
    D("Carousel", Primitive("div"), map[]),
    D("ScrollCarousel", Primitive("div"), map[]),
    D("CarouselSlide", Primitive("div"), map["w" := Num(1), "p" := Num(3)]),
    D("Tooltip", Primitive("div"), map["color" := Str("white"), "bg" := Str("black")]),
    D("Switch", Primitive("div"), map["role" := Str("checkbox"), "color" := Str("blue")]),
    D("Close", Ref("ButtonTransparent"), map["p" := Num(0), "f" := Num(3), "children" := Str("\U{00D7}")]),
    D("Star", Primitive("div"),
      map["f" := Num(3), "color" := Str("yellow"),
          "children" := Func("props => props.checked ? '\U{2605}' : '\U{2606}'")]),
    Descriptor("Arrow", Primitive("div"), map[], map["direction" := Str("down")], None),
    D("Embed", Primitive("div"), map[]),
    D("Donut", Foreign("DonutBase"), map["color" := Str("blue"), "strokeWidth" := Num(2), "value" := Num(1)])
  ]

  /** The index at which the table declares a name, or -1. */
  function Position(name: string): int {
    match name
    case "Button" => 0
    case "ButtonOutline" => 1
    case "ButtonCircle" => 2
    case "ButtonTransparent" => 3
    case "Link" => 4
    case "NavLink" => 5
    case "BlockLink" => 6
    case "Text" => 7
    case "Heading" => 8
    case "Subhead" => 9
    case "Small" => 10
    case "Lead" => 11
    case "Pre" => 12
    case "Code" => 13
    case "Samp" => 14
    case "Blockquote" => 15
    case "Label" => 16
    case "Input" => 17
    case "Select" => 18
    case "Textarea" => 19
    case "Checkbox" => 20
    case "Radio" => 21
    case "Slider" => 22
    case "Image" => 23
    case "Avatar" => 24
    case "BackgroundImage" => 25
    case "Container" => 26
    case "Divider" => 27
    case "Border" => 28
    case "Media" => 29
    case "Card" => 30
    case "Banner" => 31
    case "Panel" => 32
    case "PanelHeader" => 33
    case "PanelFooter" => 34
    case "Progress" => 35
    case "Message" => 36
    case "Group" => 37
    case "Toolbar" => 38
    case "Badge" => 39
    case "Circle" => 40
    case "Overlay" => 41
    case "Tabs" => 42
    case "TabItem" => 43
    case "DotButton" => 44
    case "Relative" => 45
    case "Absolute" => 46
    case "Fixed" => 47
    case "Sticky" => 48
    case "Drawer" => 49
    case "Carousel" => 50
    case "ScrollCarousel" => 51
    case "CarouselSlide" => 52
    case "Tooltip" => 53
    case "Switch" => 54
    case "Close" => 55
    case "Star" => 56
    case "Arrow" => 57
    case "Embed" => 58
    case "Donut" => 59
    case _ => -1
  }

  /** A level per name that every reference of the table lowers: the
      witness that the table's chains are acyclic. */
  function Level(name: string): nat {
    if name in {"Close", "Subhead"} then 2
    else if name in {"ButtonOutline", "ButtonCircle", "ButtonTransparent", "Heading", "Small", "Lead",
                     "Samp", "Blockquote", "Circle", "Drawer"} then 1
    else 0
  }

  /** The names that some entry's tag refers to. */
  const Referenced: set<string> :=
    {"Button", "ButtonTransparent", "Text", "Heading", "Code", "Badge", "Fixed"}

  /** The style rule of module Styles that computes a descriptor's style:
      TextWeight is `TextStyle`, AvatarSize `AvatarStyle`, BorderSides
      `BorderStyle`, CircleSize `CircleStyle`, AbsoluteOffsets and
      FixedOffsets `OffsetStyle` with the mode "absolute" and "fixed", and
      DrawerPlacement `DrawerStyle`. Every other descriptor's style is
      constant or not modelled. */
  function RuleOf(name: string): Option<StyleRule> {
    match name
    case "Text" => Some(TextWeight)
    case "Avatar" => Some(AvatarSize)
    case "Border" => Some(BorderSides)
    case "Circle" => Some(CircleSize)
    case "Absolute" => Some(AbsoluteOffsets)
    case "Fixed" => Some(FixedOffsets)
    case "Drawer" => Some(DrawerPlacement)
    case _ => None
  }

  /** The React defaultProps a descriptor declares: only Arrow has any. */
  function DefaultsOf(name: string): Props {
    if name == "Arrow" then map["direction" := Str("down")] else map[]
  }

  /** The entry at index `i` of the table: declared there; if it refers to
      another descriptor, the reference lowers the level; only Donut
      renders a component from outside the table; an element tag is one of
      `Elements`; its style rule and its defaultProps are those
      above. */
  predicate Placed(d: Descriptor, i: int) {
    && Position(d.name) == i
    && (d.tag.Ref? ==> Level(d.tag.name) < Level(d.name) && d.tag.name in Referenced)
    && (d.tag.Foreign? ==> d.name == "Donut")
    && (d.tag.Primitive? ==> d.tag.element in Elements)
    && d.rule == RuleOf(d.name)
    && d.defaultProps == DefaultsOf(d.name)
  }

  // The facts about each section are proved in halves (and the halves
  // joined per section, then for the whole table) only to keep each proof
  // small for the verifier on the literal table; the split means nothing
  // about the table itself.

  lemma ButtonsPlaced1()
    ensures |Buttons| == 7
    ensures forall i | 0 <= i < 4 :: Placed(Buttons[i], 0 + i)
  {
    forall i | 0 <= i < 4 ensures Placed(Buttons[i], 0 + i) {
      assert i in {0, 1, 2, 3};
    }
  }

  lemma ButtonsPlaced2()
    ensures |Buttons| == 7
    ensures forall i | 4 <= i < 7 :: Placed(Buttons[i], 0 + i)
  {
    forall i | 4 <= i < 7 ensures Placed(Buttons[i], 0 + i) {
      assert i in {4, 5, 6};
    }
  }

  lemma ButtonsPlaced()
    ensures |Buttons| == 7
    ensures forall i | 0 <= i < |Buttons| :: Placed(Buttons[i], 0 + i)
  {
    ButtonsPlaced1();
    ButtonsPlaced2();
  }

  lemma TypographyPlaced1()
    ensures |Typography| == 9
    ensures forall i | 0 <= i < 5 :: Placed(Typography[i], 7 + i)
  {
    forall i | 0 <= i < 5 ensures Placed(Typography[i], 7 + i) {
      assert i in {0, 1, 2, 3, 4};
    }
  }

  lemma TypographyPlaced2()
    ensures |Typography| == 9
    ensures forall i | 5 <= i < 9 :: Placed(Typography[i], 7 + i)
  {
    forall i | 5 <= i < 9 ensures Placed(Typography[i], 7 + i) {
      assert i in {5, 6, 7, 8};
    }
  }

  lemma TypographyPlaced()
    ensures |Typography| == 9
    ensures forall i | 0 <= i < |Typography| :: Placed(Typography[i], 7 + i)
  {
    TypographyPlaced1();
    TypographyPlaced2();
  }

  lemma FormsPlaced1()
    ensures |Forms| == 10
    ensures forall i | 0 <= i < 5 :: Placed(Forms[i], 16 + i)
  {
    forall i | 0 <= i < 5 ensures Placed(Forms[i], 16 + i) {
      assert i in {0, 1, 2, 3, 4};
    }
  }

  lemma FormsPlaced2()
    ensures |Forms| == 10
    ensures forall i | 5 <= i < 10 :: Placed(Forms[i], 16 + i)
  {
    forall i | 5 <= i < 10 ensures Placed(Forms[i], 16 + i) {
      assert i in {5, 6, 7, 8, 9};
    }
  }

  lemma FormsPlaced()
    ensures |Forms| == 10
    ensures forall i | 0 <= i < |Forms| :: Placed(Forms[i], 16 + i)
  {
    FormsPlaced1();
    FormsPlaced2();
  }

  lemma LayoutPlaced1()
    ensures |Layout| == 9
    ensures forall i | 0 <= i < 5 :: Placed(Layout[i], 26 + i)
  {
    forall i | 0 <= i < 5 ensures Placed(Layout[i], 26 + i) {
      assert i in {0, 1, 2, 3, 4};
    }
  }

  lemma LayoutPlaced2()
    ensures |Layout| == 9
    ensures forall i | 5 <= i < 9 :: Placed(Layout[i], 26 + i)
  {
    forall i | 5 <= i < 9 ensures Placed(Layout[i], 26 + i) {
      assert i in {5, 6, 7, 8};
    }
  }

  lemma LayoutPlaced()
    ensures |Layout| == 9
    ensures forall i | 0 <= i < |Layout| :: Placed(Layout[i], 26 + i)
  {
    LayoutPlaced1();
    LayoutPlaced2();
  }

  lemma InterfacePlaced1()
    ensures |Interface| == 10
    ensures forall i | 0 <= i < 5 :: Placed(Interface[i], 35 + i)
  {
    forall i | 0 <= i < 5 ensures Placed(Interface[i], 35 + i) {
      assert i in {0, 1, 2, 3, 4};
    }
  }

  lemma InterfacePlaced2()
    ensures |Interface| == 10
    ensures forall i | 5 <= i < 10 :: Placed(Interface[i], 35 + i)
  {
    forall i | 5 <= i < 10 ensures Placed(Interface[i], 35 + i) {
      assert i in {5, 6, 7, 8, 9};
    }
  }

  lemma InterfacePlaced()
    ensures |Interface| == 10
    ensures forall i | 0 <= i < |Interface| :: Placed(Interface[i], 35 + i)
  {
    InterfacePlaced1();
    InterfacePlaced2();
  }

  lemma PositioningPlaced()
    ensures |Positioning| == 5
    ensures forall i | 0 <= i < 5 :: Placed(Positioning[i], 45 + i)
  {
    forall i | 0 <= i < 5 ensures Placed(Positioning[i], 45 + i) {
      assert i in {0, 1, 2, 3, 4};
    }
  }

  lemma WidgetsPlaced1()
    ensures |Widgets| == 10
    ensures forall i | 0 <= i < 5 :: Placed(Widgets[i], 50 + i)
  {
    forall i | 0 <= i < 5 ensures Placed(Widgets[i], 50 + i) {
      assert i in {0, 1, 2, 3, 4};
    }
  }

  lemma WidgetsPlaced2()
    ensures |Widgets| == 10
    ensures forall i | 5 <= i < 10 :: Placed(Widgets[i], 50 + i)
  {
    forall i | 5 <= i < 10 ensures Placed(Widgets[i], 50 + i) {
      assert i in {5, 6, 7, 8, 9};
    }
  }

  lemma WidgetsPlaced()
    ensures |Widgets| == 10
    ensures forall i | 0 <= i < |Widgets| :: Placed(Widgets[i], 50 + i)
  {
    WidgetsPlaced1();
    WidgetsPlaced2();
  }

  lemma TablePlaced()
    ensures |Table| == 60
    ensures forall i | 0 <= i < |Table| :: Placed(Table[i], i)
  {
    ButtonsPlaced();
    TypographyPlaced();
    FormsPlaced();
    LayoutPlaced();
    InterfacePlaced();
    PositioningPlaced();
    WidgetsPlaced();
    forall i | 0 <= i < |Table| ensures Placed(Table[i], i) {
      if i < 7 { assert Table[i] == Buttons[i]; }
      else if i < 16 { assert Table[i] == Typography[i - 7]; }
      else if i < 26 { assert Table[i] == Forms[i - 16]; }
      else if i < 35 { assert Table[i] == Layout[i - 26]; }
      else if i < 45 { assert Table[i] == Interface[i - 35]; }
      else if i < 50 { assert Table[i] == Positioning[i - 45]; }
      else { assert Table[i] == Widgets[i - 50]; }
    }
  }

  /** No two descriptors of the table share a name. */
  lemma TableUniqueNames()
    ensures UniqueNames(Table)
  {
    TablePlaced();
  }

  lemma ButtonDefined()
    ensures Defined(Table, "Button")
  {
    assert Table[0] == Buttons[0];
  }

  lemma ButtonTransparentDefined()
    ensures Defined(Table, "ButtonTransparent")
  {
    assert Table[3] == Buttons[3];
  }

  lemma TextDefined()
    ensures Defined(Table, "Text")
  {
    assert Table[7] == Typography[0];
  }

  lemma HeadingDefined()
    ensures Defined(Table, "Heading")
  {
    assert Table[8] == Typography[1];
  }

  lemma CodeDefined()
    ensures Defined(Table, "Code")
  {
    assert Table[13] == Typography[6];
  }

  lemma BadgeDefined()
    ensures Defined(Table, "Badge")
  {
    assert Table[39] == Interface[4];
  }

  lemma FixedDefined()
    ensures Defined(Table, "Fixed")
  {
    assert Table[47] == Positioning[2];
  }

  /** The names that tags of the table refer to are all in the table. */
  lemma ReferencedDefined()
    ensures forall n | n in Referenced :: Defined(Table, n)
  {
    forall n | n in Referenced ensures Defined(Table, n) {
      if n == "Button" {
        ButtonDefined();
      } else if n == "ButtonTransparent" {
        ButtonTransparentDefined();
      } else if n == "Text" {
        TextDefined();
      } else if n == "Heading" {
        HeadingDefined();
      } else if n == "Code" {
        CodeDefined();
      } else if n == "Badge" {
        BadgeDefined();
      } else {
        FixedDefined();
      }
    }
  }

  /** Exactly seven descriptors have a style rule of module Styles, each
      its own, and only Arrow declares defaultProps. */
  lemma TableRules()
    ensures forall i | 0 <= i < |Table| :: Table[i].rule == RuleOf(Table[i].name)
    ensures forall i | 0 <= i < |Table| :: Table[i].defaultProps == DefaultsOf(Table[i].name)
    ensures forall i | 0 <= i < |Table| :: Table[i].rule.Some? <==>
      Table[i].name in {"Text", "Avatar", "Border", "Circle", "Absolute", "Fixed", "Drawer"}
  {
    TablePlaced();
  }

  /** The markup elements the table's tags name. */
  const Elements: set<string> :=
    {"a", "button", "code", "div", "footer", "header", "hr", "img", "input", "label",
     "p", "pre", "progress", "select", "textarea"}

  /** No element name is the name of a descriptor. */
  lemma ElementsAreNotNames()
    ensures forall e | e in Elements :: Position(e) == -1
  {
  }

  /** No element tag of the table is also the name of a descriptor: the
      split of the source's tag strings into elements and references
      agrees with the table's names (for instance 'input' is an element,
      while 'Input' is not a name of this table either). */
  lemma PrimitivesAreNotNames()
    ensures forall i, j | 0 <= i < |Table| && 0 <= j < |Table| && Table[i].tag.Primitive? ::
      Table[i].tag.element != Table[j].name
  {
    TablePlaced();
    ElementsAreNotNames();
  }

  /** Every `Ref` tag of the table names a descriptor of the table. */
  lemma TableRefsDefined()
    ensures RefsDefined(Table)
  {
    TablePlaced();
    ReferencedDefined();
  }

  /** Every descriptor's chain ends, without a cycle, at a markup element
      or (for Donut) at a component defined outside the table. */
  lemma TableResolves()
    ensures forall i | 0 <= i < |Table| :: Resolve(Table, Table[i].name).Resolved?
  {
    TablePlaced();
    TableRefsDefined();
    LevelledTableResolves(Table, Level);
  }

  /** Only Donut has a foreign tag, and no tag refers to Donut. */
  lemma DonutApart()
    ensures forall j | 0 <= j < |Table| && Table[j].tag.Foreign? :: Table[j].name == "Donut"
    ensures forall j | 0 <= j < |Table| && Table[j].tag.Ref? :: Table[j].tag.name != "Donut"
  {
    TablePlaced();
  }

  /** Every chain but Donut's ends at a markup element. */
  lemma TableTargets(i: nat)
    requires i < |Table|
    ensures var r := Resolve(Table, Table[i].name);
      r.Resolved? && (r.target.Element? <==> Table[i].name != "Donut")
  {
    TableResolves();
    DonutApart();
    ExternalOnlyAt(Table, Table[i].name, "Donut");
    if Table[i].name == "Donut" {
      DonutChain();
    }
  }

  /** Looking up the name of an entry of the table finds that entry. */
  lemma TableFind(i: nat)
    requires i < |Table|
    ensures Find(Table, Table[i].name) == Some(Table[i])
  {
    TableUniqueNames();
    FindUnique(Table, i);
  }

  // The chains of the examples below, one table entry and one step of the
  // walk per lemma: the entry's tag, then the rest of the walk from there.

  lemma CloseEntry()
    ensures Find(Table, "Close").Some? && Find(Table, "Close").value.tag == Ref("ButtonTransparent")
  {
    assert Table[55] == Widgets[5];
    TableFind(55);
  }

  lemma ButtonTransparentEntry()
    ensures Find(Table, "ButtonTransparent").Some? && Find(Table, "ButtonTransparent").value.tag == Ref("Button")
  {
    assert Table[3] == Buttons[3];
    TableFind(3);
  }

  lemma ButtonEntry()
    ensures Find(Table, "Button").Some? && Find(Table, "Button").value.tag == Primitive("button")
  {
    assert Table[0] == Buttons[0];
    TableFind(0);
  }

  lemma SubheadEntry()
    ensures Find(Table, "Subhead").Some? && Find(Table, "Subhead").value.tag == Ref("Heading")
  {
    assert Table[9] == Typography[2];
    TableFind(9);
  }

  lemma HeadingEntry()
    ensures Find(Table, "Heading").Some? && Find(Table, "Heading").value.tag == Ref("Text")
  {
    assert Table[8] == Typography[1];
    TableFind(8);
  }

  lemma TextEntry()
    ensures Find(Table, "Text").Some? && Find(Table, "Text").value.tag == Primitive("p")
  {
    assert Table[7] == Typography[0];
    TableFind(7);
  }

  lemma DrawerEntry()
    ensures Find(Table, "Drawer").Some? && Find(Table, "Drawer").value.tag == Ref("Fixed")
  {
    assert Table[49] == Positioning[4];
    TableFind(49);
  }

  lemma FixedEntry()
    ensures Find(Table, "Fixed").Some? && Find(Table, "Fixed").value.tag == Primitive("div")
  {
    assert Table[47] == Positioning[2];
    TableFind(47);
  }

  lemma CircleEntry()
    ensures Find(Table, "Circle").Some? && Find(Table, "Circle").value.tag == Ref("Badge")
  {
    assert Table[40] == Interface[5];
    TableFind(40);
  }

  lemma BadgeEntry()
    ensures Find(Table, "Badge").Some? && Find(Table, "Badge").value.tag == Primitive("div")
  {
    assert Table[39] == Interface[4];
    TableFind(39);
  }

  lemma CloseStep2()
    ensures ResolveFrom(Table, "Button", ["Close", "ButtonTransparent"]) == Resolved(["Button"], Element("button"))
  {
    assert ["Close", "ButtonTransparent"] + ["Button"] == ["Close", "ButtonTransparent", "Button"];
    ButtonEntry();
  }

  lemma CloseStep1()
    ensures ResolveFrom(Table, "ButtonTransparent", ["Close"]) == Resolved(["ButtonTransparent", "Button"], Element("button"))
  {
    assert ["Close"] + ["ButtonTransparent"] == ["Close", "ButtonTransparent"];
    ButtonTransparentEntry();
    CloseStep2();
  }

  /** Close renders through ButtonTransparent and Button to a `button`. */
  lemma CloseChain()
    ensures Resolve(Table, "Close") == Resolved(["Close", "ButtonTransparent", "Button"], Element("button"))
  {
    assert [] + ["Close"] == ["Close"];
    CloseEntry();
    CloseStep1();
  }

  lemma SubheadStep2()
    ensures ResolveFrom(Table, "Text", ["Subhead", "Heading"]) == Resolved(["Text"], Element("p"))
  {
    assert ["Subhead", "Heading"] + ["Text"] == ["Subhead", "Heading", "Text"];
    TextEntry();
  }

  lemma SubheadStep1()
    ensures ResolveFrom(Table, "Heading", ["Subhead"]) == Resolved(["Heading", "Text"], Element("p"))
  {
    assert ["Subhead"] + ["Heading"] == ["Subhead", "Heading"];
    HeadingEntry();
    SubheadStep2();
  }

  /** Subhead renders through Heading and Text to a `p`. */
  lemma SubheadChain()
    ensures Resolve(Table, "Subhead") == Resolved(["Subhead", "Heading", "Text"], Element("p"))
  {
    assert [] + ["Subhead"] == ["Subhead"];
    SubheadEntry();
    SubheadStep1();
  }

  lemma DrawerStep1()
    ensures ResolveFrom(Table, "Fixed", ["Drawer"]) == Resolved(["Fixed"], Element("div"))
  {
    assert ["Drawer"] + ["Fixed"] == ["Drawer", "Fixed"];
    FixedEntry();
  }

  /** Drawer renders through Fixed to a `div`. */
  lemma DrawerChain()
    ensures Resolve(Table, "Drawer") == Resolved(["Drawer", "Fixed"], Element("div"))
  {
    assert [] + ["Drawer"] == ["Drawer"];
    DrawerEntry();
    DrawerStep1();
  }

  lemma CircleStep1()
    ensures ResolveFrom(Table, "Badge", ["Circle"]) == Resolved(["Badge"], Element("div"))
  {
    assert ["Circle"] + ["Badge"] == ["Circle", "Badge"];
    BadgeEntry();
  }

  /** Circle renders through Badge to a `div`. */
  lemma CircleChain()
    ensures Resolve(Table, "Circle") == Resolved(["Circle", "Badge"], Element("div"))
  {
    assert [] + ["Circle"] == ["Circle"];
    CircleEntry();
    CircleStep1();
  }

  lemma DonutEntry()
    ensures Find(Table, "Donut").Some? && Find(Table, "Donut").value.tag == Foreign("DonutBase")
  {
    assert Table[59] == Widgets[9];
    TableFind(59);
  }

  /** Donut renders the component DonutBase, from outside the table. */
  lemma DonutChain()
    ensures Resolve(Table, "Donut") == Resolved(["Donut"], External("DonutBase"))
  {
    DonutEntry();
  }
}
