/** One cell of the block grid and the transitions between its three states: empty,
    offered as a choice in a selection box, and holding a placed component. Reading a
    component's SVG figure from disk and rendering an htmx attribute template are
    effects outside the model; they arrive as the functions of an `Assets` value. */
module Blocks {
  import opened PyOps

  /** A grid cell. `kind` is the cell's type ("empty", "select" or "component"),
      `model` the markup drawn inside it, `hx` its rendered htmx attributes. */
  datatype Block = Block(id: int, kind: string, model: string, cssClass: string, hx: string)

  /** The values a block has before any transition runs. */
  const DefaultKind: string := "empty"
  const DefaultModel: string := "block_model"
  const DefaultCssClass: string := "block-default empty"
  const DefaultHx: string := ""

  /** The CSS class every non-selecting block carries. */
  const BaseClass: string := "block-default"
  const SelectClass: string := "block-select"

  /** The keys of the htmx attribute template table. */
  datatype HxKind = HxDefault | HxEmpty | HxSelect | HxComponent

  /** The parameters handed to a template: always an id, sometimes a component name. */
  datatype HxParams = HxParams(id: int, component: Option<string>)

  /** The effects a block depends on: the SVG figure stored under a component name,
      and the htmx attributes obtained by rendering the template of a kind with some
      parameters. */
  datatype Assets = Assets(figure: string -> string, hx: (HxKind, HxParams) -> string)

  /** The CSS class of a block showing `newClass`: the base class, followed by
      `newClass` unless `newClass` already is the base class. */
  function CssClass(newClass: string): (r: string)
    ensures BaseClass <= r
    ensures r == BaseClass <==> newClass == BaseClass
    ensures newClass != BaseClass ==> r[|BaseClass|] == ' ' && r[|BaseClass| + 1..] == newClass
  {
    if newClass != BaseClass then BaseClass + " " + newClass else newClass
  }

  /** Different classes never collapse onto the same CSS class. */
  lemma CssClassInjective(a: string, b: string)
    requires CssClass(a) == CssClass(b)
    ensures a == b
  {
  }

  /** A block as constructed from an id alone, before its constructor empties it. Its
      declared default class is the one the CSS-class rule gives its default type. */
  function Fresh(id: int): (b: Block)
    ensures b.id == id && b.kind == DefaultKind && b.model == DefaultModel
    ensures b.cssClass == DefaultCssClass && b.hx == DefaultHx
    ensures b.cssClass == CssClass(b.kind)
  {
    Block(id, DefaultKind, DefaultModel, DefaultCssClass, DefaultHx)
  }

  /** Turns a block back into an empty cell: every field but the id returns to its
      default, except the htmx attributes, which now request a selection box at it. */
  function ToEmpty(b: Block, assets: Assets): (r: Block)
    ensures r.(hx := DefaultHx) == Fresh(b.id)
    ensures r.hx == assets.hx(HxEmpty, HxParams(b.id, None))
  {
    b.(kind := "empty", model := "block_model", cssClass := "block-default empty",
       hx := assets.hx(HxEmpty, HxParams(b.id, None)))
  }

  /** A new block: built from defaults, then emptied. It differs from the defaults
      only in its rendered htmx attributes. */
  function NewBlock(id: int, assets: Assets): (b: Block)
    ensures b.(hx := DefaultHx) == Fresh(id)
    ensures b.hx == assets.hx(HxEmpty, HxParams(id, None))
  {
    ToEmpty(Fresh(id), assets)
  }

  /** Places component `name` in a block. */
  function ToComponent(b: Block, name: string, assets: Assets): (r: Block)
    ensures r.id == b.id
    ensures r.kind == "component" && r.model == assets.figure(name)
    ensures r.cssClass == CssClass(name)
    ensures r.hx == assets.hx(HxComponent, HxParams(b.id, Some(name)))
  {
    b.(model := assets.figure(name), kind := "component", cssClass := CssClass(name),
       hx := assets.hx(HxComponent, HxParams(b.id, Some(name))))
  }

  /** Offers component `name` in a block of the selection box opened by a click on
      block `clicked`; the htmx request it renders names the clicked block, not this
      one. */
  function ToSelect(b: Block, clicked: int, name: string, assets: Assets): (r: Block)
    ensures r.id == b.id
    ensures r.kind == "select" && r.cssClass == SelectClass && r.model == assets.figure(name)
    ensures r.hx == assets.hx(HxSelect, HxParams(clicked, Some(name)))
  {
    b.(kind := "select", cssClass := SelectClass, model := assets.figure(name),
       hx := assets.hx(HxSelect, HxParams(clicked, Some(name))))
  }

  /** Copies everything but the id from `source` into `b`. */
  function UpdateFrom(b: Block, source: Block): (r: Block)
    ensures r.id == b.id
    ensures r.(id := source.id) == source
  {
    b.(kind := source.kind, model := source.model, cssClass := source.cssClass, hx := source.hx)
  }

  /** Each transition forgets everything about the block but its id: applying it to
      two blocks with the same id gives the same block. */
  lemma TransitionsDependOnlyOnId(b: Block, c: Block, clicked: int, name: string, assets: Assets)
    requires b.id == c.id
    ensures ToEmpty(b, assets) == ToEmpty(c, assets)
    ensures ToComponent(b, name, assets) == ToComponent(c, name, assets)
    ensures ToSelect(b, clicked, name, assets) == ToSelect(c, clicked, name, assets)
  {
  }

  /** Copying overwrites: the later source wins, and a block copied from itself, or
      from a block with its own id, becomes that block. */
  lemma UpdateFromLaws(b: Block, s1: Block, s2: Block)
    ensures UpdateFrom(UpdateFrom(b, s1), s2) == UpdateFrom(b, s2)
    ensures UpdateFrom(b, b) == b
    ensures UpdateFrom(b, s1) == s1 <==> b.id == s1.id
  {
  }

  /** An empty block's class is the one `CssClass` gives for "empty", so a component
      named "empty" is the only one styled like an empty cell; no component is ever
      styled like a selection box cell. */
  lemma CssClassesOfStates(b: Block, c: Block, clicked: int, name: string, assets: Assets)
    ensures ToEmpty(b, assets).cssClass == CssClass("empty")
    ensures ToComponent(c, name, assets).cssClass == ToEmpty(b, assets).cssClass <==> name == "empty"
    ensures ToComponent(c, name, assets).cssClass != ToSelect(b, clicked, name, assets).cssClass
  {
  }
}
