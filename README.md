# rebass components and Input, in Dafny

rebass is a React UI kit. Its `src/components.js` is a table of component
descriptors: each has a `name`, a `tag` and default `props`, and many have a
`style` rule from props to a CSS object. A `tag` is one of three things:
- the name of a markup element (`'button'`, `'p'`, `'div'`);
- the name of another descriptor of the table (Close is a ButtonTransparent,
  which is a Button);
- a component imported from elsewhere (Donut's `DonutBase`).

`src/Input.js` is a form field. From its props it computes four things:
- an `invalid` flag;
- the class list of its wrapper;
- the styles of its wrapper, label, input and message text, where the
  caller's style maps are spread after the defaults;
- the `autoOff` attribute map and the default `type`.

This project models that logic as pure Dafny and proves what it promises.
- `JsValue` (js_value.dfy) covers the JavaScript value semantics the code
  relies on: truthiness, `a || b`, property access that yields `undefined`,
  array indexing past the end, and `String(v)`.
- `Registry` (registry.dfy) models descriptors and tags. It also gives a
  specification of where a descriptor's tag chain ends: at an element, at a
  foreign component, at a missing name, or at a cycle. It proves that each
  outcome means what it says, and that a table whose references always go
  to a lower level resolves every name. It does not model how the engine
  merges the props along a chain, because that engine is not part of these
  files.
- `ComponentTable` (component_table.dfy) holds the 60 descriptors in
  declaration order and proves four things about them:
  - names are unique;
  - every reference names a defined descriptor;
  - every chain ends without a cycle;
  - every chain but Donut's ends at an element.
- `Styles` (styles.dfy) holds the branching style rules of Text, Avatar,
  Circle, Border, Absolute, Fixed and Drawer. The `./util` helpers `px`,
  `idx`, `color`, `align` and `caps` are not part of this model. They
  appear as uninterpreted functions in an `Env` record, so nothing is
  assumed about scales or shades. A style object with a fixed set of keys
  is a record whose fields are those keys.
- `InputStyles` (input.dfy) models Input's `invalid` flag, class list,
  `sx` styles, `autoProps` and the `type` default.

## Model

| member | source | states |
|---|---|---|
| JsValue.Or | src/components.js:876-877 | `a \|\| b` is truthy iff either operand is; it yields `b` exactly when `a` is falsy, and otherwise `a` |
| Registry.Find | src/components.js:25-1142 | lookup by name returns a descriptor of the table with that name, and returns nothing iff no descriptor has that name |
| Registry.ResolveFrom | src/components.js:25-1142 | a walk's path starts at the name it was asked for |
| Registry.WalkLinked | src/components.js:25-1142 | consecutive names of a resolved path are linked: each is in the table and its tag refers to the next |
| Registry.WalkEnd | src/components.js:25-1142 | every outcome means what it says: Resolved ends at a found, non-reference tag giving its element or component; Unknown ends at a name not in the table; Cycle ends at a name met earlier in the walk |
| Registry.WalkDistinct | src/components.js:25-1142 | a walk never visits a name twice, apart from the final repeated name of a Cycle |
| Registry.ResolveSound | src/components.js:25-1142 | combines the three facts above for a walk that starts fresh |
| Registry.WalkFollows | src/components.js:25-1142 | a linked path of distinct names ending at a non-reference tag is exactly the walk taken from its first name |
| Registry.ResolveComplete | src/components.js:25-1142 | a chain resolves to the path that links it and to the terminal of its last tag (the converse of soundness for resolved chains) |
| Registry.ExternalOnlyAt | src/components.js:1133-1134 | if only one descriptor has a foreign tag and no tag refers to it, then only that name resolves to a foreign component |
| Registry.FindUnique | src/components.js:25-1142 | in a table with unique names, looking up an entry's name finds that entry |
| Registry.LevelledWalkResolves | src/components.js:25-1142 | if every reference is defined and goes to a lower level, a walk from a defined name resolves |
| Registry.LevelledTableResolves | src/components.js:25-1142 | under the same conditions, every name of the table resolves |
| ComponentTable.TableUniqueNames | src/components.js:25-1142 | no two descriptors share a name |
| ComponentTable.TableRefsDefined | src/components.js:25-1142 | every tag that names a descriptor names one that is defined in the table |
| ComponentTable.TableResolves | src/components.js:25-1142 | every descriptor's chain ends without a cycle and without a missing name |
| ComponentTable.DonutApart | src/components.js:1133-1134 | Donut is the only descriptor with a foreign tag, and no tag refers to Donut |
| ComponentTable.TableTargets | src/components.js:25-1142 | every chain ends at a markup element except Donut's |
| ComponentTable.TableRules | src/components.js:25-1142 | exactly Text, Avatar, Border, Circle, Absolute, Fixed and Drawer carry a style rule of the model, each its own, and only Arrow declares defaultProps (`direction: 'down'`, lines 1105-1107) |
| ComponentTable.PrimitivesAreNotNames | src/components.js:25-1142 | no element tag of the table is the name of a descriptor, so element tags and references are told apart correctly |
| ComponentTable.TableFind | src/components.js:25-1142 | looking up any entry's name finds that very entry |
| ComponentTable.CloseChain | src/components.js:1049-1050 | Close resolves through ButtonTransparent and Button to `button` |
| ComponentTable.SubheadChain | src/components.js:208-209 | Subhead resolves through Heading and Text to `p` |
| ComponentTable.DrawerChain | src/components.js:869-870 | Drawer resolves through Fixed to `div` |
| ComponentTable.CircleChain | src/components.js:699-700 | Circle resolves through Badge to `div` |
| ComponentTable.DonutChain | src/components.js:1133-1134 | Donut resolves at once to the foreign component DonutBase |
| Styles.TextStyle | src/components.js:173-176 | the keys are textAlign, fontWeight and those of `caps(props)`, and caps wins on a clash; otherwise textAlign is `align(props)`, and fontWeight is `weights.1` when `bold` is truthy and `weights.0` when it is not |
| Styles.TextBoldOnlyWeight | src/components.js:175 | when `caps` sets no weight and `caps`/`align` ignore `bold`, setting `bold` changes fontWeight only, to `weights.1` or `weights.0` by its truthiness |
| Styles.AvatarStyle | src/components.js:438-443 | inline-block; width equals height, both `px(size)` for a truthy size and `px(48)` otherwise; the radius is `px(99999)` |
| Styles.CircleStyle | src/components.js:705-710 | centred text; width equals height, both `px(size)` for a truthy size and `px(24)` otherwise; the radius is `px(99999)` |
| Styles.AvatarCircleShape | src/components.js:440-441 | Avatar and Circle share their radius, and for the same truthy size they share width and height |
| Styles.BorderStyle | src/components.js:501-517 | solid and `inherit` colour; borderColor is `color(props)(color \|\| 'gray', 2)`; with no side flag, borderWidth is `px(borderWidth \|\| 1)`; with any side flag, borderWidth is null; the per-side widths appear iff borderWidth is falsy, each side being the width when its flag is set and 0 otherwise |
| Styles.BorderSidesSelected | src/components.js:502-509 | for a truthy width, the box is bordered all round iff no side is selected; otherwise exactly the selected sides carry the width |
| Styles.OffsetStyle | src/components.js:811-838 | the position is the given mode; each edge is 0 iff its flag is truthy and null otherwise; zIndex is `props.z` |
| Styles.AbsoluteLikeFixed | src/components.js:811-838 | Absolute and Fixed differ in `position` only |
| Styles.Opposite | src/components.js:890-893 | the edge across from a side is another side |
| Styles.Translate | src/components.js:882-888 | a transform exists iff the position is one of the four sides; it is horizontal for left and right, vertical for top and bottom, and negative for left and top |
| Styles.DrawerStyle | src/components.js:875-909 | for left or right, width is `px(size)` and height is null, and the reverse for top and bottom; at a side, the opposite edge is null and the other three are 0, and at an unknown position all four are null; transform is undefined when open, else the translate for the position; the overflow and transition constants |
| Styles.DrawerPinsLikeFixed | src/components.js:890-893 | a drawer pins the same edges as a Fixed box with every side flag set but the opposite one |
| Styles.DrawerDefaults | src/components.js:876-877 | a falsy position acts as 'left' and a falsy size as 320 |
| Styles.DrawerOpening | src/components.js:881-888 | opening a drawer clears its transform and changes nothing else |
| InputStyles.Invalid | src/Input.js:30 | truthy iff `invalid` or `aria-invalid` is truthy; a truthy `invalid` is passed on itself |
| InputStyles.ArgClasses | src/Input.js:32 | a non-empty string className adds itself and a non-zero number its decimal text; `true`, a function or a falsy value adds nothing |
| InputStyles.FlagClasses | src/Input.js:33-35 | isInvalid, isDisabled and isReadonly are present iff invalid, disabled and readOnly are truthy, and nothing else is present |
| InputStyles.ClassList | src/Input.js:32-36 | the list classnames collects starts with 'Input'; isInvalid, isDisabled and isReadonly are in it iff their state holds or the className argument is that text; every other entry comes from the className argument |
| InputStyles.JoinSpacedClasses | src/Input.js:32-36 | the space-joined attribute text gives an element exactly the whitespace-separated classes of its parts |
| InputStyles.ClassNameClasses | src/Input.js:32-36 | the wrapper element's classes are exactly 'Input', the classes inside the caller's className, and the state classes whose flag holds |
| InputStyles.ClassStates | src/Input.js:32-36 | the element always has class 'Input', and has isInvalid, isDisabled and isReadonly iff invalid, disabled and readOnly hold or the caller's className contains that class among its whitespace-separated classes |
| InputStyles.ClassName | src/Input.js:32-36 | the class attribute starts with `Input` |
| InputStyles.RootStyle | src/Input.js:38-43 | the keys are marginBottom, color and the caller's style keys; the caller's style wins; otherwise marginBottom is `scale[2]`, and color is `colors.error` when invalid and null when not |
| InputStyles.InputDefaults | src/Input.js:47-62 | the fifteen default keys; height `scale[3]`; paddings `scale[1]`; borderColor `colors.error` when invalid, else the theme borderColor; the theme borderRadius; width 100%, margin 0, borderWidth 1 |
| InputStyles.Sx | src/Input.js:38-68 | label and text styles are the caller's; the input keys are the defaults' plus the caller's; each caller key wins, and every other default is kept |
| InputStyles.InvalidColors | src/Input.js:41 | without caller overrides, both the wrapper colour and the input border are `colors.error` when invalid; when not, the wrapper colour is null and the border is the theme borderColor |
| InputStyles.ScaleSpacing | src/Input.js:40-56 | without overrides, marginBottom is `scale[2]`, height is `scale[3]` and both paddings are `scale[1]` |
| InputStyles.InputOverride | src/Input.js:47-63 | with no caller input style, the input style is exactly the defaults; setting one caller key changes that key only |
| InputStyles.AutoProps | src/Input.js:70-75 | when autoOff is truthy, exactly autoComplete, autoCorrect, autoCapitalize and spellCheck are present, each 'off'; otherwise nothing is |
| InputStyles.WithDefaults | src/Input.js:118-120 | a prop given as anything but `undefined` is kept; a default fills each key whose prop is `undefined`; a prop without a default is kept even when `undefined` |
| InputStyles.WithDefaultsIdempotent | src/Input.js:118-120 | applying the defaults twice is the same as applying them once |
| InputStyles.TypeDefault | src/Input.js:118-120 | `type` is 'text' when not given, is the given value otherwise, and is never undefined |

## Left out

- Rendering: the JSX tree of Input (src/Input.js:77-100), the `withRebass` wrapper, and the Label and Text children are UI plumbing and are not modelled.
- The bodies of the `./util` helpers `px`, `idx`, `color`, `align` and `caps` are not part of this model. They are parameters and are left uninterpreted.
- `darken` and the theme import are not modelled, and neither is any style built from them.
- Floating-point values are not modelled: the ratios of BackgroundImage and Embed, and the `1/4` opacity literals. Numbers here are integers.
- The style rules that do not branch on props (constant objects, pseudo-selector blocks) are not modelled. These descriptors record `rule` as none.
- The style rules of Sticky (a CSS template string that interpolates its edge flags and `z` as Absolute and Fixed do, src/components.js:851-859), NavLink, TabItem, DotButton, Switch, Arrow, Star, Banner, Container, Carousel, Tooltip and the other descriptors outside the seven above are not modelled. The table still records their names, tags and props.
- `propTypes` declarations are not modelled: they only warn at run time.
- DonutBase is not modelled. It is a foreign component, and its source is not part of this model.
- The engine that follows tag chains and merges props and styles is not modelled. It is not in these files, so `Registry.Resolve` specifies only where a chain ends, not any merge order.
- Styles.DrawerStyle and Styles.Translate: `transforms[position]` on a name inherited from `Object.prototype` (such as 'constructor') yields a function in the source. The model treats every position other than the four sides as giving `undefined`, so Translate's "defined iff one of the four sides" holds in the model only.
- Styles.BorderStyle: the model does not assume that `px` returns a truthy value. The per-side keys are tied to a falsy `borderWidth`, exactly as the source is; `BorderSidesSelected` covers the case of a truthy width.
- InputStyles.ArgClasses: only string and number `className` values are modelled. The `classnames` library's object and array arguments are not.
- InputStyles.ClassName: its own contract states only the leading `Input` of the joined text. The classes the text gives are stated by `ClassNameClasses`; the exact spacing and order of the text are not stated.
- InputStyles.Sx: `theme` and `subComponentStyles` are assumed present, with `label`, `input` and `text` style maps, `theme.scale` an array and `theme.colors` an object. In the source a missing `theme` or `subComponentStyles` throws a TypeError, `scale[2]` throws when the theme has no `scale` (src/Input.js:40), and `colors.error` throws when the theme has no `colors` and the field is invalid (src/Input.js:41 and 61). These paths are not modelled.
