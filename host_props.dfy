/**
 * `updateProps(dom, oldProps, newProps)` of src/react-dom.js: the loop over the
 * keys of the new props that writes a host node's properties, its style and its
 * event handlers.
 */
module HostProps {
  import opened JsValues
  import opened Dom
  import opened Event

  /** Where updateProps sends one key of the new props. */
  datatype Route = Skip | Styles | Listener(eventType: string) | Attribute

  /**
   * `children` is skipped, `style` is copied attribute by attribute, a key
   * starting with "on" becomes a handler under its lower-cased name, any other
   * non-empty key is written to the node; the empty key is dropped.
   */
  function RouteOf(key: string): (r: Route)
    ensures r.Listener? <==> key != "children" && key != "style" && StartsWith(key, "on")
    ensures r.Attribute? <==> key != "children" && key != "style" && !StartsWith(key, "on") && key != ""
  {
    if key == "children" then Skip
    else if key == "style" then Styles
    else if StartsWith(key, "on") then Listener(ToLower(key))
    else if key != "" then Attribute
    else Skip
  }

  /** The style after `dom.style[attr] = styles[attr]` for the attributes of `styles`, in order. */
  function StyleAfter(style: seq<Prop>, styles: seq<Prop>): seq<Prop>
    decreases |styles|
  {
    if styles == [] then style
    else
      var last := styles[|styles| - 1];
      SetProp(StyleAfter(style, styles[..|styles| - 1]), last.name, last.value)
  }

  /** One key of the new props applied to the node. */
  function NodeStep(node: Node, p: Prop): Node
  {
    match RouteOf(p.name)
    case Skip => node
    case Styles => node.(style := StyleAfter(node.style, Spread(p.value)))
    case Listener(t) => node.(store := Some(AddedStore(node, t, p.value)))
    case Attribute => node.(attrs := SetProp(node.attrs, p.name, p.value))
  }

  /** The document listeners after one key. */
  function ListenerStep(listeners: set<string>, p: Prop): set<string>
  {
    match RouteOf(p.name)
    case Listener(t) => listeners + {t}
    case _ => listeners
  }

  /** The node after updateProps has handled the keys `props`, in order. */
  function NodeAfter(node: Node, props: seq<Prop>): Node
    decreases |props|
  {
    if props == [] then node
    else NodeStep(NodeAfter(node, props[..|props| - 1]), props[|props| - 1])
  }

  /** The event types whose document listener updateProps has made sure of. */
  function ListenersAfter(listeners: set<string>, props: seq<Prop>): set<string>
    decreases |props|
  {
    if props == [] then listeners
    else ListenerStep(ListenersAfter(listeners, props[..|props| - 1]), props[|props| - 1])
  }

  /** The inner `for (let attr in styles)` loop. */
  method UpdateStyles(doc: Document, n: nat, styles: seq<Prop>)
    requires doc.Valid() && n in doc.nodes
    modifies doc
    ensures doc.Valid()
    ensures doc.nodes == old(doc.nodes)[n := old(doc.nodes)[n].(style := StyleAfter(old(doc.nodes)[n].style, styles))]
    ensures doc.parent == old(doc.parent) && doc.children == old(doc.children)
    ensures doc.next == old(doc.next) && doc.listeners == old(doc.listeners)
  {
    var i := 0;
    while i < |styles|
      invariant 0 <= i <= |styles|
      invariant doc.Valid() && n in doc.nodes
      invariant doc.nodes == old(doc.nodes)[n := old(doc.nodes)[n].(style := StyleAfter(old(doc.nodes)[n].style, styles[..i]))]
      invariant doc.parent == old(doc.parent) && doc.children == old(doc.children)
      invariant doc.next == old(doc.next) && doc.listeners == old(doc.listeners)
    {
      ghost var before := StyleAfter(old(doc.nodes)[n].style, styles[..i]);
      assert styles[..i + 1][..i] == styles[..i];
      assert StyleAfter(old(doc.nodes)[n].style, styles[..i + 1]) == SetProp(before, styles[i].name, styles[i].value);
      doc.SetStyle(n, styles[i].name, styles[i].value);
      i := i + 1;
    }
    assert styles[..i] == styles;
  }

  /**
   * `updateProps(dom, oldProps, newProps)`: every key of `newProps` is routed
   * as RouteOf says; `oldProps` is never read, so a property only the old
   * props had stays on the node.
   */
  method UpdateProps(doc: Document, n: nat, oldProps: Value, newProps: Value)
    requires doc.Valid() && n in doc.nodes
    modifies doc
    ensures doc.Valid()
    ensures doc.nodes == old(doc.nodes)[n := NodeAfter(old(doc.nodes)[n], Spread(newProps))]
    ensures doc.listeners == ListenersAfter(old(doc.listeners), Spread(newProps))
    ensures doc.parent == old(doc.parent) && doc.children == old(doc.children) && doc.next == old(doc.next)
  {
    var props := Spread(newProps);
    ghost var nodes0, listeners0 := doc.nodes, doc.listeners;
    var i := 0;
    while i < |props|
      invariant 0 <= i <= |props|
      invariant doc.Valid() && n in doc.nodes
      invariant doc.nodes == nodes0[n := NodeAfter(nodes0[n], props[..i])]
      invariant doc.listeners == ListenersAfter(listeners0, props[..i])
      invariant doc.parent == old(doc.parent) && doc.children == old(doc.children) && doc.next == old(doc.next)
    {
      AfterStep(nodes0[n], listeners0, props, i);
      ghost var before := doc.nodes;
      UpdateProp(doc, n, props[i]);
      SetTwice(nodes0, n, before[n], doc.nodes[n]);
      i := i + 1;
    }
    assert props[..i] == props;
  }

  lemma SetTwice<K, V>(m: map<K, V>, k: K, a: V, b: V)
    ensures m[k := a][k := b] == m[k := b]
  {
  }

  /** Handling one more key is one more step on the node and on the listeners. */
  lemma AfterStep(node: Node, listeners: set<string>, props: seq<Prop>, i: nat)
    requires i < |props|
    ensures NodeAfter(node, props[..i + 1]) == NodeStep(NodeAfter(node, props[..i]), props[i])
    ensures ListenersAfter(listeners, props[..i + 1]) == ListenerStep(ListenersAfter(listeners, props[..i]), props[i])
  {
    assert props[..i + 1][..i] == props[..i];
  }

  /** The body of updateProps' loop, for one key and its value. */
  method UpdateProp(doc: Document, n: nat, p: Prop)
    requires doc.Valid() && n in doc.nodes
    modifies doc
    ensures doc.Valid()
    ensures doc.nodes == old(doc.nodes)[n := NodeStep(old(doc.nodes)[n], p)]
    ensures doc.listeners == ListenerStep(old(doc.listeners), p)
    ensures doc.parent == old(doc.parent) && doc.children == old(doc.children) && doc.next == old(doc.next)
  {
    match RouteOf(p.name) {
      case Skip =>
      case Styles =>
        UpdateStyles(doc, n, Spread(p.value));
      case Listener(t) =>
        AddEvent(doc, n, t, p.value);
      case Attribute =>
        doc.SetAttr(n, p.name, p.value);
    }
  }

  /** Looking a name up after one more property: the earlier one wins. */
  lemma {:induction false} LookupSnoc(ps: seq<Prop>, p: Prop, name: string)
    ensures Lookup(ps + [p], name) == if name in Names(ps) then Lookup(ps, name) else if p.name == name then p.value else Undefined
  {
    if ps != [] {
      assert (ps + [p])[1..] == ps[1..] + [p];
      LookupSnoc(ps[1..], p, name);
      assert name in Names(ps) <==> ps[0].name == name || name in Names(ps[1..]);
    }
  }

  /**
   * The node properties updateProps leaves: a plain key of the new props
   * carries its new value, and every other key -- `children`, `style`, the
   * handler keys, and whatever only the old props had -- keeps the node's value.
   */
  lemma {:induction false} NodeAfterAttrs(node: Node, props: seq<Prop>, key: string)
    requires DistinctNames(props)
    ensures Lookup(NodeAfter(node, props).attrs, key)
         == if RouteOf(key).Attribute? && key in Names(props) then Lookup(props, key) else Lookup(node.attrs, key)
    decreases |props|
  {
    if props != [] {
      var init := props[..|props| - 1];
      var p := props[|props| - 1];
      assert props == init + [p];
      assert DistinctNames(init);
      NodeAfterAttrs(node, init, key);
      NodeStepAttrs(NodeAfter(node, init), p, key);
      LookupSnoc(init, p, key);
      NamesSnoc(init, p, key);
    }
  }

  /**
   * The style after the copy loop: an attribute of `styles` carries its value
   * there, and every other attribute keeps the one the style had.
   */
  lemma {:induction false} StyleAfterLookup(style: seq<Prop>, styles: seq<Prop>, attr: string)
    requires DistinctNames(styles)
    ensures Lookup(StyleAfter(style, styles), attr)
         == if attr in Names(styles) then Lookup(styles, attr) else Lookup(style, attr)
    decreases |styles|
  {
    if styles != [] {
      var init := styles[..|styles| - 1];
      var p := styles[|styles| - 1];
      assert styles == init + [p];
      assert DistinctNames(init);
      StyleAfterLookup(style, init, attr);
      LookupSetProp(StyleAfter(style, init), p.name, p.value, attr);
      LookupSnoc(init, p, attr);
      NamesSnoc(init, p, attr);
    }
  }

  /** One key of the new props changes the node property of that name only when it is a plain key. */
  lemma NodeStepAttrs(node: Node, p: Prop, key: string)
    ensures Lookup(NodeStep(node, p).attrs, key)
         == if RouteOf(p.name).Attribute? && p.name == key then p.value else Lookup(node.attrs, key)
  {
    if RouteOf(p.name).Attribute? {
      LookupSetProp(node.attrs, p.name, p.value, key);
    }
  }

  /** The names after one more property, when that property's name is new. */
  lemma NamesSnoc(init: seq<Prop>, p: Prop, key: string)
    requires DistinctNames(init + [p])
    ensures key in Names(init + [p]) <==> key in Names(init) || p.name == key
    ensures p.name == key ==> key !in Names(init)
  {
    var ps := init + [p];
    assert Names(ps)[|init|] == p.name;
    if key in Names(init) {
      var j :| 0 <= j < |init| && Names(init)[j] == key;
      assert Names(ps)[j] == key;
    }
    if key in Names(ps) {
      var j :| 0 <= j < |ps| && Names(ps)[j] == key;
      if j < |init| {
        assert Names(init)[j] == key;
      }
    }
  }

  /** One key of the new props changes the handler for `t` only when it is a handler key lowering to `t`. */
  lemma NodeStepHandler(node: Node, listeners: set<string>, p: Prop, t: string)
    ensures HandlerOf(NodeStep(node, p), t) == if RouteOf(p.name) == Listener(t) then p.value else HandlerOf(node, t)
    ensures t in ListenerStep(listeners, p) <==> t in listeners || RouteOf(p.name) == Listener(t)
  {
    if RouteOf(p.name).Listener? {
      AddedStoreHandlers(node, RouteOf(p.name).eventType, p.value, t);
    }
  }

  /**
   * The handler keys decide the handler store: props with no `on` key that
   * lowers to `t` leave the handler for `t` as it was, and its document
   * listener present exactly when it was.
   */
  lemma {:induction false} NodeAfterHandlers(node: Node, listeners: set<string>, props: seq<Prop>, t: string)
    requires forall i :: 0 <= i < |props| ==> RouteOf(props[i].name) != Listener(t)
    ensures HandlerOf(NodeAfter(node, props), t) == HandlerOf(node, t)
    ensures t in ListenersAfter(listeners, props) <==> t in listeners
    decreases |props|
  {
    if props != [] {
      var init := props[..|props| - 1];
      NodeAfterHandlers(node, listeners, init, t);
      NodeStepHandler(NodeAfter(node, init), ListenersAfter(listeners, init), props[|props| - 1], t);
    }
  }

  /**
   * A handler key installs its handler under its lower-cased name, and that
   * type's document listener: after updateProps the handler for the name is
   * the value of the last `on` key that lowers to it, and the listener is there.
   */
  lemma {:induction false} HandlerInstalled(node: Node, listeners: set<string>, props: seq<Prop>, j: nat)
    requires j < |props| && StartsWith(props[j].name, "on") && props[j].name != "children" && props[j].name != "style"
    requires forall k :: j < k < |props| ==> RouteOf(props[k].name) != Listener(ToLower(props[j].name))
    ensures HandlerOf(NodeAfter(node, props), ToLower(props[j].name)) == props[j].value
    ensures ToLower(props[j].name) in ListenersAfter(listeners, props)
    decreases |props|
  {
    var t := ToLower(props[j].name);
    var init, last := props[..|props| - 1], props[|props| - 1];
    if j == |props| - 1 {
      NodeStepHandler(NodeAfter(node, init), ListenersAfter(listeners, init), last, t);
    } else {
      HandlerInstalled(node, listeners, init, j);
      NodeStepHandler(NodeAfter(node, init), ListenersAfter(listeners, init), last, t);
    }
  }
}
