/**
 * Element construction and the small factories of src/react.js.
 */
module React {
  import opened JsValues
  import opened Utils

  /** What createElement produces: the element, and the caller's config object after the call. */
  datatype Created = Created(element: Value, config: Value)

  /** The bookkeeping keys createElement deletes from the caller's config. */
  const Internal: set<string> := {"__source", "__self"}

  /**
   * `props.children`: an array of every child wrapped (identities from `alloc`) when
   * there is more than one, otherwise the single child wrapped -- undefined when none.
   */
  function WrapChildren(children: seq<Value>, alloc: nat): Value
  {
    if |children| > 1 then
      Arr(alloc, seq(|children|, i requires 0 <= i < |children| => WrapToVdom(children[i], alloc + 1 + 2 * i)))
    else
      WrapToVdom(if children == [] then Undefined else children[0], alloc)
  }

  /** `delete config.__source; delete config.__self` when config is truthy. */
  function DeleteInternal(config: Value): (r: Value)
    ensures r.Obj? == config.Obj?
  {
    if config.Obj? then Obj(config.ref, Without(config.props, Internal)) else config
  }

  /**
   * `createElement(type, config, ...children)`. Destructuring `{key, ref, ...props}`
   * out of a null or undefined config throws. The element, its props object and the
   * children get fresh identities `alloc`, `alloc + 1` and from `alloc + 2` on.
   */
  function CreateElement(kind: Kind, config: Value, children: seq<Value>, alloc: nat): (r: Outcome<Created>)
    ensures r.Thrown? <==> config == Undefined || config == Null
    ensures r.Done? ==> r.value.element.El? && r.value.element.ref == alloc
                        && r.value.element.elem.kind == kind
                        && r.value.element.elem.props.Obj? && r.value.element.elem.props.ref == alloc + 1
  {
    if config == Undefined || config == Null then Thrown
    else
      var cfg := DeleteInternal(config);
      var rest := Without(Spread(cfg), {"key", "ref"});
      var props := SetProp(rest, "children", WrapChildren(children, alloc + 2));
      Done(Created(El(alloc, Element(kind, Obj(alloc + 1, props), Get(cfg, "key"), Get(cfg, "ref"))), cfg))
  }

  /**
   * createElement moves `key` and `ref` out of the props to the element, puts the
   * wrapped children under `children` and copies every other key of an object config.
   */
  lemma CreateElementFields(kind: Kind, config: Value, children: seq<Value>, alloc: nat, name: string)
    requires config.Obj?
    ensures var r := CreateElement(kind, config, children, alloc);
            r.Done? &&
            var e := r.value.element.elem;
            && e.key == Get(config, "key")
            && e.ref == Get(config, "ref")
            && !HasOwn(e.props, "key") && !HasOwn(e.props, "ref")
            && !HasOwn(e.props, "__source") && !HasOwn(e.props, "__self")
            && Get(e.props, "children") == WrapChildren(children, alloc + 2)
            && (name !in {"key", "ref", "children", "__source", "__self"} ==> Get(e.props, name) == Get(config, name))
  {
    var cfg := DeleteInternal(config);
    var kids := WrapChildren(children, alloc + 2);
    assert Spread(cfg) == cfg.props == Without(config.props, Internal);
    var rest := Without(cfg.props, {"key", "ref"});
    var props := SetProp(rest, "children", kids);
    assert CreateElement(kind, config, children, alloc)
        == Done(Created(El(alloc, Element(kind, Obj(alloc + 1, props), Lookup(cfg.props, "key"), Lookup(cfg.props, "ref"))), cfg));
    LookupWithout(config.props, Internal, "key");
    LookupWithout(config.props, Internal, "ref");
    LookupSetProp(rest, "children", kids, "children");
    SetPropNames(rest, "children", kids);
    assert OwnKeys(Obj(alloc + 1, props)) == Names(props);
    if name !in {"key", "ref", "children", "__source", "__self"} {
      LookupSetProp(rest, "children", kids, name);
      LookupWithout(cfg.props, {"key", "ref"}, name);
      LookupWithout(config.props, Internal, name);
    }
  }

  /** The caller's config loses `__source` and `__self` in place and keeps everything else. */
  lemma CreateElementMutatesConfig(kind: Kind, config: Value, children: seq<Value>, alloc: nat, name: string)
    requires config.Obj?
    ensures var r := CreateElement(kind, config, children, alloc);
            r.Done? && r.value.config.Obj? && r.value.config.ref == config.ref
            && !HasOwn(r.value.config, "__source") && !HasOwn(r.value.config, "__self")
            && (name !in Internal ==> Get(r.value.config, name) == Get(config, name))
            && (name !in Internal ==> (HasOwn(r.value.config, name) <==> HasOwn(config, name)))
  {
    if name !in Internal {
      LookupWithout(config.props, Internal, name);
    }
  }

  /** With several children, `props.children` is an array of each child wrapped, in argument order. */
  lemma ManyChildren(children: seq<Value>, alloc: nat, i: nat)
    requires |children| > 1 && i < |children|
    ensures var c := WrapChildren(children, alloc);
            c.Arr? && |c.elems| == |children| && c.elems[i] == WrapToVdom(children[i], alloc + 1 + 2 * i)
  {
  }

  /** With at most one child, `props.children` is the child wrapped: a single value, undefined for none. */
  lemma AtMostOneChild(children: seq<Value>, alloc: nat)
    requires |children| <= 1
    ensures children == [] ==> WrapChildren(children, alloc) == Undefined
    ensures |children| == 1 && children[0].El? ==> WrapChildren(children, alloc) == children[0]
    ensures |children| == 1 && children[0].Str? ==> WrapChildren(children, alloc).El?
                                                    && WrapChildren(children, alloc).elem.kind == TextKind
  {
  }

  /** `createRef()`: a fresh `{current: null}`. */
  function CreateRef(alloc: nat): (r: Value)
    ensures r.Obj? && r.ref == alloc && OwnKeys(r) == ["current"] && Get(r, "current") == Null
  {
    Obj(alloc, [Prop("current", Null)])
  }

  /** `forwardRef(fn)`: a fresh forward-ref type whose `render` is `fn`. */
  function ForwardRef(fn: nat, alloc: nat): (k: Kind)
    ensures k.ForwardRefType? && k.render == fn && k.ref == alloc
  {
    ForwardRefType(alloc, fn)
  }

  /** `memo(fn, compare = shallowEqual)`: a missing comparator means shallowEqual. */
  function Memo(fn: nat, compare: Option<nat>, alloc: nat): (k: Kind)
    ensures k.MemoType? && k.fn == fn && k.ref == alloc
    ensures compare.None? ==> k.compare == ShallowEqualFn
    ensures compare.Some? ==> k.compare == UserCompare(compare.value)
  {
    MemoType(alloc, fn, if compare.None? then ShallowEqualFn else UserCompare(compare.value))
  }

  /** A context object: `Provider` and `Cunsumer` both refer back to the context `id`. */
  datatype ContextObject = ContextObject(id: nat, provider: Kind, consumer: Kind)

  /** The `_currentValue` cells of all contexts created so far. */
  class ContextCells {
    var current: map<nat, Value>

    constructor ()
      ensures current == map[]
    {
      current := map[];
    }

    /** `createContext(defaultValue)`; the new context's identity is `alloc`. */
    method CreateContext(defaultValue: Value, alloc: nat) returns (c: ContextObject)
      modifies this
      ensures c.id == alloc
      ensures c.provider == ProviderType(c.id) && c.consumer == ConsumerType(c.id)
      ensures current == old(current)[c.id := defaultValue]
    {
      c := ContextObject(alloc, ProviderType(alloc), ConsumerType(alloc));
      current := current[c.id := defaultValue];
    }

    /** `context._currentValue = value`, as a Provider does when it renders. */
    method Provide(ctx: nat, value: Value)
      modifies this
      ensures current == old(current)[ctx := value]
    {
      current := current[ctx := value];
    }

    /** `context._currentValue`; a context never created reads as undefined. */
    function CurrentValue(ctx: nat): (v: Value)
      reads this
      ensures ctx in current ==> v == current[ctx]
      ensures ctx !in current ==> v == Undefined
    {
      if ctx in current then current[ctx] else Undefined
    }
  }
}
