/**
 * `renderComponent` and `renderComponents` (assets/js/components.js:581-604):
 * registry lookup by the component's `type`, the unknown-type notice, the
 * optional id wrapper, and in-order concatenation of a batch.
 */
module Dispatch {
  import opened Wrappers
  import opened Markup
  import opened Renderers

  /** One entry of a page's component list; an absent `type` is the key "undefined". */
  datatype Component = Component(kind: string, data: Option<Data>, id: Option<string>)

  /** The registry's own keys and the renderer each names. */
  const Registry: map<string, (Data, Fresh) -> Outcome> := map[
    "moduleHeader" := ModuleHeader,
    "info" := Info,
    "material" := Material,
    "code" := Code,
    "command" := CommandSection,
    "cardSection" := CardSection,
    "accordionSection" := AccordionSection,
    "video" := Video,
    "table" := Table
  ]

  function UnknownTypeNotice(kind: string): Fragment {
    El("div", [], El("p", [], [Lit("Unknown component type: ")] + El("strong", [], [Val(kind)])))
  }

  function Wrap(id: string, kind: string, inner: Fragment): Fragment {
    El("div", [Attr("id", id), Attr("class", "component-container"), Attr("data-component-type", kind)], inner)
  }

  /** `renderComponent`, with the registry consulted on its own keys only. */
  function RenderComponent(c: Component, f: Fresh): Outcome {
    if c.kind !in Registry then Ok(Rendered(UnknownTypeNotice(c.kind), []))
    else if c.data.None? then Err(TypeError("data"))
    else Wrapped(c, Registry[c.kind](c.data.value, f))
  }

  /** The `if (id)` wrapper around a renderer's outcome. */
  function Wrapped(c: Component, o: Outcome): Outcome {
    match o
    case Err(e) => Err(e)
    case Ok(r) =>
      if Truthy(c.id) then Ok(Rendered(Wrap(c.id.value, c.kind, r.markup), r.loads)) else Ok(r)
  }

  /** Concatenation of two outcomes; the first error wins, as the first throw does. */
  function Combine(a: Outcome, b: Outcome): Outcome {
    match a
    case Err(e) => Err(e)
    case Ok(x) =>
      match b
      case Err(e) => Err(e)
      case Ok(y) => Ok(Rendered(x.markup + y.markup, x.loads + y.loads))
  }

  /**
   * `cs.map(render).join('')`, where the entry at position `k` of the batch
   * draws the fresh ids `supply(k)`.
   */
  function RenderFrom(cs: seq<Component>, k: nat, supply: nat -> Fresh, render: (Component, Fresh) -> Outcome): Outcome
    decreases |cs|
  {
    if cs == [] then Ok(Rendered([], []))
    else Combine(render(cs[0], supply(k)), RenderFrom(cs[1..], k + 1, supply, render))
  }

  /** `renderComponents` */
  function RenderComponents(cs: seq<Component>, supply: nat -> Fresh): Outcome {
    RenderFrom(cs, 0, supply, RenderComponent)
  }

  /**
   * An unknown type yields the notice naming it, schedules no load, and
   * depends on nothing but the type: no renderer runs, the data is not
   * looked at (not even when it is absent) and no id wrapper is applied.
   */
  lemma UnknownTypeIsNotice(c: Component, f: Fresh, other: Component, g: Fresh)
    requires c.kind !in Registry && other.kind == c.kind
    ensures RenderComponent(c, f).Ok?
    ensures Val(c.kind) in RenderComponent(c, f).value.markup
    ensures RenderComponent(c, f).value.loads == []
    ensures RenderComponent(c, f) == RenderComponent(other, g)
  {
    var inner := [Lit("Unknown component type: ")] + El("strong", [], [Val(c.kind)]);
    assert Val(c.kind) in inner;
    assert Val(c.kind) in El("p", [], inner);
  }

  /** A component with a truthy id is its renderer's output inside a container naming the id and the type. */
  lemma IdWraps(c: Component, f: Fresh)
    requires c.kind in Registry && c.data.Some? && Truthy(c.id)
    requires Registry[c.kind](c.data.value, f).Ok?
    ensures var r := Registry[c.kind](c.data.value, f).value;
      var w := RenderComponent(c, f);
      && w.Ok? && w.value.loads == r.loads
      && |w.value.markup| == |r.markup| + 2
      && w.value.markup[0] == Open("div", [Attr("id", c.id.value), Attr("class", "component-container"),
                                           Attr("data-component-type", c.kind)])
      && w.value.markup[1..|w.value.markup| - 1] == r.markup
      && w.value.markup[|w.value.markup| - 1] == Close("div")
  {
  }

  /** Without a truthy id the output is the renderer's output exactly, errors included. */
  lemma NoIdIsRendererOutput(c: Component, f: Fresh)
    requires c.kind in Registry && c.data.Some? && !Truthy(c.id)
    ensures RenderComponent(c, f) == Registry[c.kind](c.data.value, f)
  {
  }

  /** Destructuring an absent `data` throws for every registered type. */
  lemma AbsentDataThrows(c: Component, f: Fresh)
    requires c.kind in Registry && c.data.None?
    ensures RenderComponent(c, f).Err?
  {
  }

  /** An empty batch renders to the empty string and schedules nothing. */
  lemma EmptyBatch(supply: nat -> Fresh)
    ensures RenderComponents([], supply) == Ok(Rendered([], []))
  {
  }

  /** A one-element batch is that component's output. */
  lemma SingletonBatch(c: Component, k: nat, supply: nat -> Fresh, render: (Component, Fresh) -> Outcome)
    ensures RenderFrom([c], k, supply, render) == render(c, supply(k))
  {
    assert [c][1..] == [];
    match render(c, supply(k))
    case Err(_) =>
    case Ok(r) =>
      assert r.markup + [] == r.markup;
      assert r.loads + [] == r.loads;
  }

  lemma CombineAssociative(a: Outcome, b: Outcome, c: Outcome)
    ensures Combine(Combine(a, b), c) == Combine(a, Combine(b, c))
  {
    if a.Ok? && b.Ok? && c.Ok? {
      assert (a.value.markup + b.value.markup) + c.value.markup == a.value.markup + (b.value.markup + c.value.markup);
      assert (a.value.loads + b.value.loads) + c.value.loads == a.value.loads + (b.value.loads + c.value.loads);
    }
  }

  /**
   * Rendering `a + b` is rendering `a`, then `b` from the next position, and
   * concatenating: output order is input order, with no separator.
   */
  lemma {:induction false} RenderAppend(a: seq<Component>, b: seq<Component>, k: nat, supply: nat -> Fresh,
                                        render: (Component, Fresh) -> Outcome)
    ensures RenderFrom(a + b, k, supply, render)
         == Combine(RenderFrom(a, k, supply, render), RenderFrom(b, k + |a|, supply, render))
    decreases |a|
  {
    if a == [] {
      assert a + b == b;
      match RenderFrom(b, k, supply, render)
      case Err(_) =>
      case Ok(r) =>
        assert [] + r.markup == r.markup;
        assert [] + r.loads == r.loads;
    } else {
      assert (a + b)[0] == a[0];
      assert (a + b)[1..] == a[1..] + b;
      RenderAppend(a[1..], b, k + 1, supply, render);
      CombineAssociative(render(a[0], supply(k)), RenderFrom(a[1..], k + 1, supply, render),
                         RenderFrom(b, k + 1 + |a[1..]|, supply, render));
    }
  }

  /** A batch renders iff every component in it renders; one throw fails the whole batch. */
  lemma {:induction false} BatchOkIffAllOk(cs: seq<Component>, k: nat, supply: nat -> Fresh,
                                           render: (Component, Fresh) -> Outcome)
    ensures RenderFrom(cs, k, supply, render).Ok? <==>
            forall i :: 0 <= i < |cs| ==> render(cs[i], supply(k + i)).Ok?
    decreases |cs|
  {
    if cs != [] {
      BatchOkIffAllOk(cs[1..], k + 1, supply, render);
      if RenderFrom(cs, k, supply, render).Ok? {
        forall i | 0 <= i < |cs|
          ensures render(cs[i], supply(k + i)).Ok?
        {
          if i > 0 {
            assert cs[i] == cs[1..][i - 1];
          }
        }
      } else if render(cs[0], supply(k)).Ok? {
        var j :| 0 <= j < |cs[1..]| && !render(cs[1..][j], supply(k + 1 + j)).Ok?;
        assert cs[1..][j] == cs[j + 1];
      }
    }
  }

  // The registry lookup as written: `ComponentRenderers[type]` reads an object
  // literal, so it also finds the members every object inherits.

  /**
   * `renderComponent` with the lookup as written, for three inherited names:
   * `toString` and `toLocaleString` are functions that return "[object Object]",
   * and `__proto__` is an object, so calling it throws. Every other name
   * behaves as in `RenderComponent`.
   */
  function RenderComponentAsWritten(c: Component, f: Fresh): Outcome {
    if c.kind == "toString" || c.kind == "toLocaleString" then
      Wrapped(c, Ok(Rendered([Lit("[object Object]")], [])))
    else if c.kind == "__proto__" then Err(TypeError("ComponentRenderers[type]"))
    else RenderComponent(c, f)
  }

  /** The inherited names are not registry keys, yet the lookup as written does not show the unknown-type notice for them. */
  lemma InheritedNamesSkipNotice(f: Fresh)
    ensures var c := Component("toString", Some(NoData), None);
      && RenderComponent(c, f) == Ok(Rendered(UnknownTypeNotice("toString"), []))
      && RenderComponentAsWritten(c, f) == Ok(Rendered([Lit("[object Object]")], []))
    ensures var c := Component("__proto__", Some(NoData), None);
      && RenderComponent(c, f).Ok?
      && RenderComponentAsWritten(c, f).Err?
  {
  }

  /** Apart from the inherited names, the lookup as written and the own-key lookup agree. */
  lemma AsWrittenAgreesOnOtherNames(c: Component, f: Fresh)
    requires c.kind != "toString" && c.kind != "toLocaleString" && c.kind != "__proto__"
    ensures RenderComponentAsWritten(c, f) == RenderComponent(c, f)
  {
  }
}
