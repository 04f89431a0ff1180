/** The descriptor table of src/components.js, as data: one record per
    component with its name, its `tag`, the default props it passes, and
    which of the modelled style rules computes its style. A `tag` either
    names a markup element, names another descriptor of the table (a chain
    that is followed at lookup time), or is a component imported from
    elsewhere (Donut's DonutBase).

    `Resolve` specifies where a descriptor's tag chain ends: the names
    walked and the terminal render target, or why it does not end (a name
    missing from the table, or a name met twice). The lemmas prove that each
    outcome means what it says, that a table whose references always go to
    a lower level resolves every name, and that lookup in a table with
    unique names finds the one descriptor of that name. */
module Registry {
  import opened JsValue

  datatype Tag =
    | Primitive(element: string)   // 'button', 'p', 'div', ...
    | Ref(name: string)            // another descriptor of the table
    | Foreign(component: string)   // a component defined outside the table

  /** The style rules of the table that branch on props, see module Styles. */
  datatype StyleRule = TextWeight | AvatarSize | BorderSides | AbsoluteOffsets
                     | FixedOffsets | DrawerPlacement | CircleSize

  datatype Descriptor = Descriptor(
    name: string,
    tag: Tag,
    props: Props,
    defaultProps: Props,
    rule: Option<StyleRule>)   // None: a constant style, or one not modelled

  datatype Target = Element(element: string) | External(component: string)

  datatype Resolution =
    | Resolved(path: seq<string>, target: Target)
    | Unknown(path: seq<string>)   // the last name is not in the table
    | Cycle(path: seq<string>)     // the last name was walked before

  /** The first descriptor of the table with the given name. */
  function Find(table: seq<Descriptor>, name: string): (r: Option<Descriptor>)
    ensures r.Some? ==> r.value in table && r.value.name == name
    ensures r.None? <==> forall i | 0 <= i < |table| :: table[i].name != name
  {
    if table == [] then None
    else if table[0].name == name then Some(table[0])
    else
      assert forall i | 1 <= i < |table| :: table[i] == table[1..][i - 1];
      Find(table[1..], name)
  }

  function NameSet(table: seq<Descriptor>): (r: set<string>)
    ensures forall i | 0 <= i < |table| :: table[i].name in r
  {
    if table == [] then {} else {table[0].name} + NameSet(table[1..])
  }

  function Terminal(tag: Tag): (t: Target)
    requires !tag.Ref?
    ensures t.Element? <==> tag.Primitive?
  {
    match tag
    case Primitive(e) => Element(e)
    case Foreign(c) => External(c)
  }

  /** Walks the chain from `name`, `walked` being the names already walked. */
  function ResolveFrom(table: seq<Descriptor>, name: string, walked: seq<string>): (r: Resolution)
    ensures r.path != [] && r.path[0] == name
    decreases NameSet(table) - set n | n in walked
  {
    match Find(table, name)
    case None => Unknown([name])
    case Some(d) =>
      if name in walked then Cycle([name])
      else
        match d.tag
        case Ref(next) =>
          assert (set n | n in walked + [name]) == (set n | n in walked) + {name};
          var rest := ResolveFrom(table, next, walked + [name]);
          rest.(path := [name] + rest.path)
        case _ => Resolved([name], Terminal(d.tag))
  }

  /** Where the chain from `name` ends. */
  function Resolve(table: seq<Descriptor>, name: string): Resolution {
    ResolveFrom(table, name, [])
  }

  /** Each name of `path` but the last is in the table, and its tag refers
      to the next name. */
  ghost predicate Linked(table: seq<Descriptor>, path: seq<string>) {
    forall k | 0 <= k < |path| - 1 ::
      Find(table, path[k]).Some? && Find(table, path[k]).value.tag == Ref(path[k + 1])
  }

  ghost predicate Distinct(path: seq<string>) {
    forall i, j | 0 <= i < j < |path| :: path[i] != path[j]
  }

  function Last(path: seq<string>): string
    requires path != []
  {
    path[|path| - 1]
  }

  /** The names of a walk are linked by references. */
  lemma {:induction false} WalkLinked(table: seq<Descriptor>, name: string, walked: seq<string>)
    ensures Linked(table, ResolveFrom(table, name, walked).path)
    decreases NameSet(table) - set n | n in walked
  {
    var r := ResolveFrom(table, name, walked);
    match Find(table, name)
    case None =>
    case Some(d) =>
      if name !in walked && d.tag.Ref? {
        assert (set n | n in walked + [name]) == (set n | n in walked) + {name};
        var rest := ResolveFrom(table, d.tag.name, walked + [name]);
        WalkLinked(table, d.tag.name, walked + [name]);
        assert r.path == [name] + rest.path;
        forall k | 0 <= k < |r.path| - 1
          ensures Find(table, r.path[k]).Some? && Find(table, r.path[k]).value.tag == Ref(r.path[k + 1])
        {
          if k > 0 {
            assert r.path[k] == rest.path[k - 1] && r.path[k + 1] == rest.path[k];
          }
        }
      }
  }

  /** How a walk from `walked` ends: at a descriptor whose tag is not a
      reference, with that tag as target; at a name the table lacks; or at
      a name already walked. */
  ghost predicate EndsWell(table: seq<Descriptor>, walked: seq<string>, r: Resolution)
    requires r.path != []
  {
    && (r.Resolved? ==>
          && Find(table, Last(r.path)).Some?
          && !Find(table, Last(r.path)).value.tag.Ref?
          && r.target == Terminal(Find(table, Last(r.path)).value.tag))
    && (r.Unknown? ==> Find(table, Last(r.path)).None?)
    && (r.Cycle? ==> Last(r.path) in walked + r.path[..|r.path| - 1])
  }

  lemma {:induction false} WalkEnd(table: seq<Descriptor>, name: string, walked: seq<string>)
    ensures EndsWell(table, walked, ResolveFrom(table, name, walked))
    decreases NameSet(table) - set n | n in walked
  {
    match Find(table, name)
    case None =>
    case Some(d) =>
      if name !in walked && d.tag.Ref? {
        assert (set n | n in walked + [name]) == (set n | n in walked) + {name};
        WalkEnd(table, d.tag.name, walked + [name]);
        WalkEndRef(table, name, walked, d);
      }
  }

  lemma WalkEndRef(table: seq<Descriptor>, name: string, walked: seq<string>, d: Descriptor)
    requires Find(table, name) == Some(d) && name !in walked && d.tag.Ref?
    requires EndsWell(table, walked + [name], ResolveFrom(table, d.tag.name, walked + [name]))
    ensures EndsWell(table, walked, ResolveFrom(table, name, walked))
  {
    var r := ResolveFrom(table, name, walked);
    var rest := ResolveFrom(table, d.tag.name, walked + [name]);
    assert r == rest.(path := [name] + rest.path);
    assert Last(r.path) == Last(rest.path);
    if rest.Cycle? {
      assert walked + r.path[..|r.path| - 1] == (walked + [name]) + rest.path[..|rest.path| - 1];
    }
  }

  /** The names of a walk without the repeated last name of a cycle. */
  function Walked(r: Resolution): seq<string> {
    if r.Cycle? && r.path != [] then r.path[..|r.path| - 1] else r.path
  }

  /** A walk that starts from distinct names, all of them in the table,
      meets only new names, except for the repeated last name of a cycle. */
  lemma {:induction false} WalkDistinct(table: seq<Descriptor>, name: string, walked: seq<string>)
    requires Distinct(walked)
    requires forall k | 0 <= k < |walked| :: Find(table, walked[k]).Some?
    ensures Distinct(walked + Walked(ResolveFrom(table, name, walked)))
    decreases NameSet(table) - set n | n in walked
  {
    match Find(table, name)
    case None =>
      DistinctSnoc(walked, name);
    case Some(d) =>
      if name in walked {
      } else if d.tag.Ref? {
        assert (set n | n in walked + [name]) == (set n | n in walked) + {name};
        DistinctSnoc(walked, name);
        WalkDistinct(table, d.tag.name, walked + [name]);
        WalkDistinctRef(table, name, walked, d);
      } else {
        DistinctSnoc(walked, name);
      }
  }

  lemma WalkDistinctRef(table: seq<Descriptor>, name: string, walked: seq<string>, d: Descriptor)
    requires Find(table, name) == Some(d) && name !in walked && d.tag.Ref?
    requires Distinct((walked + [name]) + Walked(ResolveFrom(table, d.tag.name, walked + [name])))
    ensures Distinct(walked + Walked(ResolveFrom(table, name, walked)))
  {
    var rest := ResolveFrom(table, d.tag.name, walked + [name]);
    assert ResolveFrom(table, name, walked) == rest.(path := [name] + rest.path);
    WalkedCons(rest, name);
    assert walked + ([name] + Walked(rest)) == (walked + [name]) + Walked(rest);
  }

  lemma WalkedCons(rest: Resolution, name: string)
    requires rest.path != []
    ensures Walked(rest.(path := [name] + rest.path)) == [name] + Walked(rest)
  {
    if rest.Cycle? {
      assert ([name] + rest.path)[..|rest.path|] == [name] + rest.path[..|rest.path| - 1];
    }
  }

  lemma DistinctSnoc(path: seq<string>, name: string)
    requires Distinct(path) && name !in path
    ensures Distinct(path + [name])
  {
  }

  /** The outcome of resolving a name from scratch: a resolved path is a
      chain of distinct names from `name` to a descriptor whose tag is not a
      reference, and the target is that tag; an unknown path is a chain to a
      name the table lacks; a cycle path is a chain of distinct names
      followed by one of them again. */
  lemma ResolveSound(table: seq<Descriptor>, name: string)
    ensures var r := Resolve(table, name);
      && r.path[0] == name
      && Linked(table, r.path)
      && (r.Resolved? ==>
            && Distinct(r.path)
            && Find(table, Last(r.path)).Some?
            && !Find(table, Last(r.path)).value.tag.Ref?
            && r.target == Terminal(Find(table, Last(r.path)).value.tag))
      && (r.Unknown? ==> Distinct(r.path) && Find(table, Last(r.path)).None?)
      && (r.Cycle? ==>
            && |r.path| >= 2
            && Distinct(r.path[..|r.path| - 1])
            && Last(r.path) in r.path[..|r.path| - 1])
  {
    WalkLinked(table, name, []);
    WalkEnd(table, name, []);
    WalkDistinct(table, name, []);
    var r := Resolve(table, name);
    assert [] + Walked(r) == Walked(r);
  }

  /** A chain of distinct names, none walked before, each referring to the
      next and the last naming a descriptor whose tag is not a reference, is
      exactly the walk from its first name. */
  lemma {:induction false} WalkFollows(table: seq<Descriptor>, path: seq<string>, walked: seq<string>)
    requires path != [] && Linked(table, path) && Distinct(path)
    requires forall k | 0 <= k < |path| :: path[k] !in walked
    requires Find(table, Last(path)).Some? && !Find(table, Last(path)).value.tag.Ref?
    ensures ResolveFrom(table, path[0], walked) == Resolved(path, Terminal(Find(table, Last(path)).value.tag))
    decreases |path|
  {
    if |path| > 1 {
      var rest := path[1..];
      LinkedTail(table, path);
      assert Last(rest) == Last(path);
      assert forall k | 0 <= k < |rest| :: rest[k] !in walked + [path[0]] by {
        forall k | 0 <= k < |rest| ensures rest[k] !in walked + [path[0]] {
          assert rest[k] == path[k + 1];
        }
      }
      WalkFollows(table, rest, walked + [path[0]]);
      assert [path[0]] + rest == path;
    }
  }

  lemma LinkedTail(table: seq<Descriptor>, path: seq<string>)
    requires |path| > 1 && Linked(table, path) && Distinct(path)
    ensures Linked(table, path[1..]) && Distinct(path[1..])
  {
    var rest := path[1..];
    forall k | 0 <= k < |rest| - 1
      ensures Find(table, rest[k]).Some? && Find(table, rest[k]).value.tag == Ref(rest[k + 1])
    {
      assert rest[k] == path[k + 1] && rest[k + 1] == path[k + 2];
    }
  }

  /** The converse of ResolveSound for resolved names: such a chain from
      `path[0]` is what resolving `path[0]` yields. */
  lemma ResolveComplete(table: seq<Descriptor>, path: seq<string>)
    requires path != [] && Linked(table, path) && Distinct(path)
    requires Find(table, Last(path)).Some? && !Find(table, Last(path)).value.tag.Ref?
    ensures Resolve(table, path[0]) == Resolved(path, Terminal(Find(table, Last(path)).value.tag))
  {
    WalkFollows(table, path, []);
  }

  /** When one name alone has a foreign tag and no tag refers to it, only
      that name resolves to an external component. */
  lemma {:induction false} ExternalOnlyAt(table: seq<Descriptor>, name: string, special: string)
    requires forall j | 0 <= j < |table| && table[j].tag.Foreign? :: table[j].name == special
    requires forall j | 0 <= j < |table| && table[j].tag.Ref? :: table[j].tag.name != special
    ensures var r := Resolve(table, name); r.Resolved? && r.target.External? ==> name == special
  {
    ResolveSound(table, name);
    var r := Resolve(table, name);
    if r.Resolved? && r.target.External? {
      var d := Find(table, Last(r.path)).value;
      assert d.tag.Foreign? && d.name == Last(r.path);
      if |r.path| > 1 {
        FoundAt(table, r.path[|r.path| - 2]);
        assert false;
      }
    }
  }

  /** What Find returns is an entry of the table, at some index. */
  lemma FoundAt(table: seq<Descriptor>, name: string)
    ensures Find(table, name).Some? ==>
      exists j | 0 <= j < |table| :: table[j] == Find(table, name).value
  {
  }

  ghost predicate UniqueNames(table: seq<Descriptor>) {
    forall i, j | 0 <= i < j < |table| :: table[i].name != table[j].name
  }

  /** In a table without duplicate names, looking up the name of an entry
      finds that entry. */
  lemma {:induction false} FindUnique(table: seq<Descriptor>, i: nat)
    requires UniqueNames(table) && i < |table|
    ensures Find(table, table[i].name) == Some(table[i])
  {
    if i > 0 {
      assert table[0].name != table[i].name;
      assert UniqueNames(table[1..]) by {
        forall a, b | 0 <= a < b < |table| - 1 ensures table[1..][a].name != table[1..][b].name {
          assert table[1..][a] == table[a + 1] && table[1..][b] == table[b + 1];
        }
      }
      FindUnique(table[1..], i - 1);
      assert table[1..][i - 1] == table[i];
    }
  }

  ghost predicate Defined(table: seq<Descriptor>, name: string) {
    exists j | 0 <= j < |table| :: table[j].name == name
  }

  /** Every reference names a descriptor of the table. */
  ghost predicate RefsDefined(table: seq<Descriptor>) {
    forall i | 0 <= i < |table| && table[i].tag.Ref? :: Defined(table, table[i].tag.name)
  }

  /** Every reference goes from a name to a name of lower level. */
  ghost predicate LevelsDecrease(table: seq<Descriptor>, level: string -> nat) {
    forall i | 0 <= i < |table| && table[i].tag.Ref? :: level(table[i].tag.name) < level(table[i].name)
  }

  lemma {:induction false} LevelledWalkResolves(table: seq<Descriptor>, level: string -> nat,
                                                name: string, walked: seq<string>)
    requires RefsDefined(table) && LevelsDecrease(table, level)
    requires Defined(table, name)
    requires forall k | 0 <= k < |walked| :: level(walked[k]) > level(name)
    ensures ResolveFrom(table, name, walked).Resolved?
    decreases level(name)
  {
    var d := Find(table, name).value;
    var i :| 0 <= i < |table| && table[i] == d;
    assert name !in walked;
    if d.tag.Ref? {
      assert level(d.tag.name) < level(name);
      LevelledWalkResolves(table, level, d.tag.name, walked + [name]);
    }
  }

  /** A table whose references are all defined and all go to a lower level
      has no cycle: every name of the table resolves to a primitive element
      or to a foreign component. */
  lemma LevelledTableResolves(table: seq<Descriptor>, level: string -> nat)
    requires RefsDefined(table) && LevelsDecrease(table, level)
    ensures forall i | 0 <= i < |table| :: Resolve(table, table[i].name).Resolved?
  {
    forall i | 0 <= i < |table| ensures Resolve(table, table[i].name).Resolved? {
      LevelledWalkResolves(table, level, table[i].name, []);
    }
  }
}
