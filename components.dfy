/**
 * The binding components of FlexyComponent: each effect (and its cleanup)
 * as a method on the container's document.
 */
module Flexy {
  import opened Wrappers
  import opened Strings
  import opened Binding
  import opened Dom

  /** A string option is truthy when given and non-empty. */
  predicate Truthy(s: Option<string>) {
    s.Some? && s.value != ""
  }

  // ---------------------------------------------------------------------
  // Component, and the cleanup shared by Component, List, Item and Property

  function Visibility(visible: bool): string {
    if visible then "visible" else "hidden"
  }

  /**
   * `Component`'s effect. The source resolves the element at render and
   * the effect uses that result; here the lookup runs when the effect does.
   * When the element exists, its `style.visibility` follows `visibile` and the handlers bag
   * is bound. The element is returned: it is what the cleanup captures.
   */
  method ComponentEffect(dom: Document, name: string, visibile: bool, handlers: seq<Prop>)
    returns (element: Option<NodeId>)
    requires dom.Valid()
    modifies dom
    ensures dom.Valid()
    ensures element == old(dom.Select(name))
    ensures element.None? ==> dom.nodes == old(dom.nodes)
    ensures element.Some? ==>
      var n := old(dom.nodes)[element.value];
      dom.nodes == old(dom.nodes)[element.value := Bound(n.(style := n.style["visibility" := Visibility(visibile)]), handlers)]
    ensures dom.mounted == old(dom.mounted) && dom.root == old(dom.root) && dom.names == old(dom.names)
    ensures dom.nextId == old(dom.nextId)
  {
    element := dom.Select(name);
    if element.Some? {
      dom.SetStyle(element.value, "visibility", Visibility(visibile));
      dom.Bind(element.value, handlers);
    }
  }

  /**
   * The cleanup of `Component`, `List`, `Item` and `Property`: the listeners
   * the bag derives are removed from the captured element; property writes
   * and the visibility style stay. Without an element nothing changes.
   */
  method BindingCleanup(dom: Document, element: Option<NodeId>, bag: seq<Prop>)
    requires dom.Valid()
    requires element.Some? ==> element.value in dom.nodes
    modifies dom
    ensures dom.Valid()
    ensures element.None? ==> dom.nodes == old(dom.nodes)
    ensures element.Some? ==>
      dom.nodes == old(dom.nodes)[element.value := Unbound(old(dom.nodes)[element.value], bag)]
    ensures dom.mounted == old(dom.mounted) && dom.root == old(dom.root) && dom.names == old(dom.names)
    ensures dom.nextId == old(dom.nextId)
  {
    if element.Some? {
      dom.Unbind(element.value, bag);
    }
  }

  /**
   * Attach followed by cleanup with the same bag: the element's listeners
   * end as before attach, less any listener the bag itself derives; the
   * properties written by attach stay written.
   */
  lemma BindThenCleanup(n: Node, bag: seq<Prop>)
    ensures Unbound(Bound(n, bag), bag).listeners == Keep(n.listeners, BagListeners(bag))
    ensures Unbound(Bound(n, bag), bag).props == WriteProps(n.props, bag)
    ensures (forall l :: l in n.listeners ==> l !in BagListeners(bag)) ==>
              Unbound(Bound(n, bag), bag).listeners == n.listeners
  {
    AttachThenDetach(n.listeners, bag);
    if forall l :: l in n.listeners ==> l !in BagListeners(bag) {
      AttachThenDetachRestores(n.listeners, bag);
    }
  }

  // ---------------------------------------------------------------------
  // List

  datatype Scroll = Vertical | Horizontal
  datatype Direction = Row | Column
  /** `gap?: number | string`. */
  datatype Gap = GapNumber(n: int) | GapText(s: string)

  function DirectionName(d: Direction): string {
    match d
    case Row => "row"
    case Column => "column"
  }

  /** `String(gap)`. */
  function GapString(g: Gap): string {
    match g
    case GapNumber(n) => IntToString(n)
    case GapText(s) => s
  }

  /** The style keys `List`'s style effect may write. */
  const ListStyleKeys: set<string> := {"overflowX", "overflowY", "flexDirection", "gap"}

  /** The `scroll` block: `horizontal` sets `overflowY`, `vertical` sets `overflowX`. */
  function ScrollStyle(style: map<string, string>, scroll: Option<Scroll>): map<string, string> {
    if scroll == Some(Horizontal) then style["overflowY" := "scroll"]
    else if scroll == Some(Vertical) then style["overflowX" := "scroll"]
    else style
  }

  /** The `direction` block. */
  function DirectionStyle(style: map<string, string>, direction: Option<Direction>): map<string, string> {
    if direction.Some? then style["flexDirection" := DirectionName(direction.value)] else style
  }

  /** The `gap` statement. */
  function GapStyle(style: map<string, string>, gap: Option<Gap>): map<string, string> {
    if gap.Some? then style["gap" := GapString(gap.value)] else style
  }

  /** The list element's style after the style effect: it only adds or overwrites entries among `ListStyleKeys`. */
  function ListStyle(style: map<string, string>, scroll: Option<Scroll>, direction: Option<Direction>, gap: Option<Gap>)
    : (r: map<string, string>)
    ensures style.Keys <= r.Keys <= style.Keys + ListStyleKeys
  {
    GapStyle(DirectionStyle(ScrollStyle(style, scroll), direction), gap)
  }

  /**
   * What the style effect writes: `horizontal` sets `overflowY` and
   * `vertical` sets `overflowX` (as the source has it), a direction sets
   * `flexDirection`, a gap that is neither `undefined` nor `null` sets `gap`,
   * and every other style entry is left as it was.
   */
  lemma ListStyleWrites(style: map<string, string>, scroll: Option<Scroll>, direction: Option<Direction>, gap: Option<Gap>)
    ensures var r := ListStyle(style, scroll, direction, gap);
      && (scroll == Some(Horizontal) ==> "overflowY" in r && r["overflowY"] == "scroll")
      && (scroll == Some(Vertical) ==> "overflowX" in r && r["overflowX"] == "scroll")
      && (scroll != Some(Horizontal) ==>
            ("overflowY" in r <==> "overflowY" in style) && ("overflowY" in style ==> r["overflowY"] == style["overflowY"]))
      && (scroll != Some(Vertical) ==>
            ("overflowX" in r <==> "overflowX" in style) && ("overflowX" in style ==> r["overflowX"] == style["overflowX"]))
      && (direction.Some? ==> "flexDirection" in r && r["flexDirection"] == DirectionName(direction.value))
      && (direction.None? ==>
            ("flexDirection" in r <==> "flexDirection" in style) &&
            ("flexDirection" in style ==> r["flexDirection"] == style["flexDirection"]))
      && (gap.Some? ==> "gap" in r && r["gap"] == GapString(gap.value))
      && (gap.None? ==> ("gap" in r <==> "gap" in style) && ("gap" in style ==> r["gap"] == style["gap"]))
      && (forall k :: k !in ListStyleKeys ==> (k in r <==> k in style) && (k in style ==> r[k] == style[k]))
  {
  }

  /** A gap of `0` is written (as `"0"`): the test is against `undefined` and `null`, not truthiness. */
  lemma ZeroGapIsWritten(style: map<string, string>)
    ensures ListStyle(style, None, None, Some(GapNumber(0)))["gap"] == "0"
  {
  }

  /** `List`'s style effect: it runs only when both the list and the item nodes resolve. */
  method ListStyleEffect(dom: Document, list: string, item: string,
                         scroll: Option<Scroll>, direction: Option<Direction>, gap: Option<Gap>)
    requires dom.Valid()
    modifies dom
    ensures dom.Valid()
    ensures old(dom.Select(list)).None? || old(dom.Select(item)).None? ==> dom.nodes == old(dom.nodes)
    ensures old(dom.Select(list)).Some? && old(dom.Select(item)).Some? ==>
      var l := old(dom.Select(list)).value;
      dom.nodes == Restyled(old(dom.nodes), l, ListStyle(old(dom.nodes)[l].style, scroll, direction, gap))
    ensures dom.mounted == old(dom.mounted) && dom.root == old(dom.root) && dom.names == old(dom.names)
    ensures dom.nextId == old(dom.nextId)
  {
    var listElement := dom.Select(list);
    var itemElement := dom.Select(item);
    if listElement.None? { return; }
    if itemElement.None? { return; }
    ApplyListStyle(dom, listElement.value, scroll, direction, gap);
  }

  /** The three blocks of the style effect, in the source's order, on the resolved list element. */
  method ApplyListStyle(dom: Document, l: NodeId, scroll: Option<Scroll>, direction: Option<Direction>, gap: Option<Gap>)
    requires dom.Valid() && l in dom.nodes
    modifies dom
    ensures dom.Valid()
    ensures dom.nodes == Restyled(old(dom.nodes), l, ListStyle(old(dom.nodes)[l].style, scroll, direction, gap))
    ensures dom.mounted == old(dom.mounted) && dom.root == old(dom.root) && dom.names == old(dom.names)
    ensures dom.nextId == old(dom.nextId)
  {
    ghost var before := dom.nodes;
    ghost var style := before[l].style;
    ApplyScroll(dom, l, scroll);
    ApplyDirection(dom, l, direction);
    RestyledTwice(before, l, ScrollStyle(style, scroll), DirectionStyle(ScrollStyle(style, scroll), direction));
    ApplyGap(dom, l, gap);
    RestyledTwice(before, l, DirectionStyle(ScrollStyle(style, scroll), direction), ListStyle(style, scroll, direction, gap));
  }

  method ApplyScroll(dom: Document, l: NodeId, scroll: Option<Scroll>)
    requires dom.Valid() && l in dom.nodes
    modifies dom
    ensures dom.Valid()
    ensures dom.nodes == Restyled(old(dom.nodes), l, ScrollStyle(old(dom.nodes)[l].style, scroll))
    ensures dom.mounted == old(dom.mounted) && dom.root == old(dom.root) && dom.names == old(dom.names)
    ensures dom.nextId == old(dom.nextId)
  {
    if scroll.Some? {
      if scroll.value == Horizontal { dom.SetStyle(l, "overflowY", "scroll"); }
      if scroll.value == Vertical { dom.SetStyle(l, "overflowX", "scroll"); }
    }
  }

  method ApplyDirection(dom: Document, l: NodeId, direction: Option<Direction>)
    requires dom.Valid() && l in dom.nodes
    modifies dom
    ensures dom.Valid()
    ensures dom.nodes == Restyled(old(dom.nodes), l, DirectionStyle(old(dom.nodes)[l].style, direction))
    ensures dom.mounted == old(dom.mounted) && dom.root == old(dom.root) && dom.names == old(dom.names)
    ensures dom.nextId == old(dom.nextId)
  {
    if direction.Some? {
      if direction.value == Column { dom.SetStyle(l, "flexDirection", "column"); }
      if direction.value == Row { dom.SetStyle(l, "flexDirection", "row"); }
    }
  }

  method ApplyGap(dom: Document, l: NodeId, gap: Option<Gap>)
    requires dom.Valid() && l in dom.nodes
    modifies dom
    ensures dom.Valid()
    ensures dom.nodes == Restyled(old(dom.nodes), l, GapStyle(old(dom.nodes)[l].style, gap))
    ensures dom.mounted == old(dom.mounted) && dom.root == old(dom.root) && dom.names == old(dom.names)
    ensures dom.nextId == old(dom.nextId)
  {
    if gap.Some? { dom.SetStyle(l, "gap", GapString(gap.value)); }
  }

  /** `List`'s binding effect: the handlers bag is bound to the list element, when it resolves. */
  method ListBindEffect(dom: Document, list: string, handlers: seq<Prop>) returns (element: Option<NodeId>)
    requires dom.Valid()
    modifies dom
    ensures dom.Valid()
    ensures element == old(dom.Select(list))
    ensures element.None? ==> dom.nodes == old(dom.nodes)
    ensures element.Some? ==> dom.nodes == old(dom.nodes)[element.value := Bound(old(dom.nodes)[element.value], handlers)]
    ensures dom.mounted == old(dom.mounted) && dom.root == old(dom.root) && dom.names == old(dom.names)
    ensures dom.nextId == old(dom.nextId)
  {
    element := dom.Select(list);
    if element.Some? {
      dom.Bind(element.value, handlers);
    }
  }

  // ---------------------------------------------------------------------
  // Item and Property

  /** `Item`'s binding effect on its own `<div>` (`ref.current`), once React has set it. */
  method ItemBindEffect(dom: Document, current: Option<NodeId>, handlers: seq<Prop>)
    requires dom.Valid()
    requires current.Some? ==> current.value in dom.nodes
    modifies dom
    ensures dom.Valid()
    ensures current.None? ==> dom.nodes == old(dom.nodes)
    ensures current.Some? ==> dom.nodes == old(dom.nodes)[current.value := Bound(old(dom.nodes)[current.value], handlers)]
    ensures dom.mounted == old(dom.mounted) && dom.root == old(dom.root) && dom.names == old(dom.names)
    ensures dom.nextId == old(dom.nextId)
  {
    if current.Some? {
      dom.Bind(current.value, handlers);
    }
  }

  /**
   * `Property`'s effect: the named node is looked up only when the nearest
   * common-context ref (an `Item`'s `<div>`, or the container itself) is
   * set; the whole props object (its `name` key included) is bound to it.
   * Returns the element the cleanup captures.
   */
  method PropertyEffect(dom: Document, contextRefSet: bool, name: string, props: seq<Prop>)
    returns (element: Option<NodeId>)
    requires dom.Valid()
    modifies dom
    ensures dom.Valid()
    ensures element == (if contextRefSet then old(dom.Select(name)) else None)
    ensures element.None? ==> dom.nodes == old(dom.nodes)
    ensures element.Some? ==> dom.nodes == old(dom.nodes)[element.value := Bound(old(dom.nodes)[element.value], props)]
    ensures dom.mounted == old(dom.mounted) && dom.root == old(dom.root) && dom.names == old(dom.names)
    ensures dom.nextId == old(dom.nextId)
  {
    element := if contextRefSet then dom.Select(name) else None;
    if element.Some? {
      dom.Bind(element.value, props);
    }
  }

  // ---------------------------------------------------------------------
  // Deletion

  /** `Deletion`'s effect: the named node is detached; afterwards the name no longer resolves. */
  method DeletionEffect(dom: Document, name: string)
    requires dom.Valid()
    modifies dom
    ensures dom.Valid()
    ensures old(dom.Select(name)).None? ==> dom.nodes == old(dom.nodes)
    ensures old(dom.Select(name)).Some? ==>
      var x := old(dom.Select(name)).value;
      dom.nodes == Detached(old(dom.nodes), old(dom.nodes)[x].parent.value, x)
    ensures dom.Select(name).None?
    ensures dom.mounted == old(dom.mounted) && dom.root == old(dom.root) && dom.names == old(dom.names)
    ensures dom.nextId == old(dom.nextId)
  {
    if !dom.mounted { return; }
    var element := dom.Select(name);
    if element.Some? {
      dom.Remove(element.value);
      DetachedIsNotAttached(dom.nodes, dom.root, element.value);
    }
  }

  // ---------------------------------------------------------------------
  // Input

  /** The computed-style properties copied from the text design node, in source order. */
  const TextStyleKeys: seq<string> := [
    "fontSize", "fontFamily", "fontWeight", "fontStyle", "letterSpacing", "whiteSpace",
    "lineHeight", "display", "flexWrap", "textAlign", "textTransform", "textDecoration",
    "textShadow", "justifyContent", "alignItems", "alignContent", "color"]

  /** The computed-style properties copied from the background design node, in source order. */
  const BackgroundStyleKeys: seq<string> := [
    "backgroundColor", "borderColor", "borderWidth", "borderStyle", "borderRadius", "boxShadow",
    "backgroundImage", "backgroundSize", "backgroundPosition", "backgroundRepeat",
    "backgroundClip", "backgroundOrigin", "backgroundAttachment"]

  /** A computed style's value for a property; an unset property reads as the empty string. */
  function ComputedValue(computed: map<string, string>, key: string): string {
    if key in computed then computed[key] else ""
  }

  /**
   * The guarded copies `if (src.k) input.style.k = src.k` for each key, in
   * order: an allowlisted key with a non-empty source value is copied, every
   * other style entry stays as it was.
   */
  function CopyNonEmpty(style: map<string, string>, computed: map<string, string>, keys: seq<string>)
    : (r: map<string, string>)
    ensures forall k :: k in keys && ComputedValue(computed, k) != "" ==> k in r && r[k] == computed[k]
    ensures forall k :: k !in keys || ComputedValue(computed, k) == "" ==>
              (k in r <==> k in style) && (k in style ==> r[k] == style[k])
    ensures forall k :: k in r ==> k in style || k in keys
    ensures forall k :: k in style ==> k in r
    decreases |keys|
  {
    if |keys| == 0 then style
    else
      var k := keys[|keys| - 1];
      var before := CopyNonEmpty(style, computed, keys[..|keys| - 1]);
      assert forall j :: j in keys <==> j in keys[..|keys| - 1] || j == k;
      if ComputedValue(computed, k) != "" then before[k := computed[k]] else before
  }

  /** The class name read from an element's `className` property (a string, or empty). */
  function ClassNameOf(n: Node): string {
    if "className" in n.props && n.props["className"].Str? then n.props["className"].s else ""
  }

  /**
   * The input's style: `boxSizing: border-box`, then the text node's
   * allowlisted values, then the background node's.
   */
  function InputStyle(text: Option<map<string, string>>, background: Option<map<string, string>>): (r: map<string, string>)
    ensures "boxSizing" in r
    ensures forall k :: k in r ==> k == "boxSizing" || k in TextStyleKeys || k in BackgroundStyleKeys
  {
    var base := map["boxSizing" := "border-box"];
    var withText := if text.Some? then CopyNonEmpty(base, text.value, TextStyleKeys) else base;
    assert forall k :: k in withText ==> k in base || k in TextStyleKeys;
    if background.Some? then CopyNonEmpty(withText, background.value, BackgroundStyleKeys) else withText
  }

  /** The `<input>` before its own props are bound: the box's class name and the transplanted style. */
  function InputElement(boxClassName: string, style: map<string, string>): Node {
    NewElement("input").(props := map["className" := Str(boxClassName)], style := style)
  }

  /**
   * Only allowlisted keys with a non-empty source value reach the input's
   * style; `boxSizing` is `border-box` unless a background allowlist entry
   * overrode it (none does).
   */
  lemma InputStyleCopiesAllowlist(text: Option<map<string, string>>, background: Option<map<string, string>>, k: string)
    ensures k in InputStyle(text, background) ==>
      k == "boxSizing" ||
      (text.Some? && k in TextStyleKeys && ComputedValue(text.value, k) != "") ||
      (background.Some? && k in BackgroundStyleKeys && ComputedValue(background.value, k) != "")
    ensures InputStyle(text, background)["boxSizing"] == "border-box"
    ensures text.Some? && k in TextStyleKeys && ComputedValue(text.value, k) != "" &&
            (background.None? || k !in BackgroundStyleKeys || ComputedValue(background.value, k) == "") ==>
              InputStyle(text, background)[k] == text.value[k]
    ensures background.Some? && k in BackgroundStyleKeys && ComputedValue(background.value, k) != "" ==>
              InputStyle(text, background)[k] == background.value[k]
  {
    assert "boxSizing" !in TextStyleKeys;
    assert "boxSizing" !in BackgroundStyleKeys;
  }

  /**
   * `Input`'s effect. When the container is mounted and the box resolves, a
   * fresh `<input>` gets the box's class name, the transplanted style and
   * the remaining props, and replaces the box in its parent; the box's name
   * then no longer resolves. Otherwise nothing changes. `computedStyle`
   * stands for `window.getComputedStyle`.
   */
  method InputEffect(dom: Document, boxName: string, textName: string, backgroundName: Option<string>,
                     inputProps: seq<Prop>, computedStyle: NodeId -> map<string, string>)
    returns (input: Option<NodeId>)
    requires dom.Valid()
    modifies dom
    ensures dom.Valid()
    ensures !old(dom.mounted) || old(dom.Select(boxName)).None? ==> input.None? && dom.nodes == old(dom.nodes)
    ensures old(dom.mounted) && old(dom.Select(boxName)).Some? ==>
      var box := old(dom.Select(boxName)).value;
      var text := old(dom.Select(textName));
      var background := if Truthy(backgroundName) then old(dom.Select(backgroundName.value)) else None;
      var style := InputStyle(if text.Some? then Some(computedStyle(text.value)) else None,
                              if background.Some? then Some(computedStyle(background.value)) else None);
      var id := old(dom.nextId);
      && input == Some(id)
      && dom.nodes == Replaced(old(dom.nodes)[id := Bound(InputElement(ClassNameOf(old(dom.nodes)[box]), style), inputProps)],
                               old(dom.nodes)[box].parent.value, box, id)
      && dom.Select(boxName).None?
    ensures dom.mounted == old(dom.mounted) && dom.root == old(dom.root) && dom.names == old(dom.names)
    ensures dom.nextId == if input.Some? then old(dom.nextId) + 1 else old(dom.nextId)
  {
    input := None;
    if !dom.mounted { return; }
    var boxDesign := dom.Select(boxName);
    var textDesign := dom.Select(textName);
    var backgroundDesign := if Truthy(backgroundName) then dom.Select(backgroundName.value) else None;

    if boxDesign.Some? {
      var box := boxDesign.value;
      var boxClassName := ClassNameOf(dom.nodes[box]);
      var style := InputStyle(if textDesign.Some? then Some(computedStyle(textDesign.value)) else None,
                              if backgroundDesign.Some? then Some(computedStyle(backgroundDesign.value)) else None);
      var id := SwapInInput(dom, box, boxClassName, style, inputProps);
      assert dom.Select(boxName).None?;
      input := Some(id);
    }
  }

  /** The new input, bound to its props, takes the place of the box node, which leaves the container. */
  method SwapInInput(dom: Document, box: NodeId, className: string, style: map<string, string>, inputProps: seq<Prop>)
    returns (id: NodeId)
    requires dom.Valid() && box in dom.nodes && box != dom.root && dom.nodes[box].parent.Some?
    modifies dom
    ensures dom.Valid()
    ensures id == old(dom.nextId)
    ensures dom.nodes == Replaced(old(dom.nodes)[id := Bound(InputElement(className, style), inputProps)],
                                  old(dom.nodes)[box].parent.value, box, id)
    ensures !Attached(dom.nodes, dom.root, box)
    ensures dom.mounted == old(dom.mounted) && dom.root == old(dom.root) && dom.names == old(dom.names)
    ensures dom.nextId == old(dom.nextId) + 1
  {
    id := CreateInput(dom, className, style, inputProps);
    dom.ReplaceWith(box, id);
    DetachedIsNotAttached(dom.nodes, dom.root, box);
  }

  /** `document.createElement("input")`, its class name and style, and the binding of its props. */
  method CreateInput(dom: Document, className: string, style: map<string, string>, inputProps: seq<Prop>)
    returns (id: NodeId)
    requires dom.Valid()
    modifies dom
    ensures dom.Valid()
    ensures id == old(dom.nextId) && id !in old(dom.nodes) && id != dom.root
    ensures dom.nodes == old(dom.nodes)[id := Bound(InputElement(className, style), inputProps)]
    ensures dom.nodes[id].parent.None? && dom.nodes[id].children == []
    ensures dom.mounted == old(dom.mounted) && dom.root == old(dom.root) && dom.names == old(dom.names)
    ensures dom.nextId == old(dom.nextId) + 1
  {
    id := dom.CreateElement("input");
    dom.SetContent(id, InputElement(className, style));
    dom.Bind(id, inputProps);
  }

  // ---------------------------------------------------------------------
  // Portal

  /** `propKey.replace("className", "class")`. */
  function VanillaKey(key: string): string {
    ReplaceFirst(key, "className", "class")
  }

  lemma ClassNameBecomesClass()
    ensures VanillaKey("className") == "class"
  {
    ReplaceFirstOfPrefix("className", "className", "class");
  }

  /**
   * The attribute name `setAttribute(vanilaPropKey, …)` stores on the
   * `<div>`: an HTML element in an HTML document lower-cases the name first.
   */
  function AttributeName(key: string): (r: string)
    ensures |r| == |VanillaKey(key)|
    ensures forall i :: 0 <= i < |r| ==> !('A' <= r[i] <= 'Z')
  {
    ToLower(VanillaKey(key))
  }

  /** Two props whose keys differ only in case set one attribute: `tabIndex` and `tabindex` both set `tabindex`. */
  lemma CaseVariantsShareAttribute()
    ensures AttributeName("tabIndex") == AttributeName("tabindex") == "tabindex"
  {
    assert forall i :: 0 <= i ==> !OccursAt("tabIndex", "className", i);
    assert forall i :: 0 <= i ==> !OccursAt("tabindex", "className", i);
    ReplaceFirstAbsent("tabIndex", "className", "class");
    ReplaceFirstAbsent("tabindex", "className", "class");
  }

  /** `Object.assign(el.style, value)`: a style object's entries are merged key by key; other values add nothing. */
  function MergeStyle(style: map<string, string>, value: Value): map<string, string> {
    if value.StyleObject? then style + value.decl else style
  }

  /** One iteration of the portal's prop loop on the synthesised element. */
  function PortalStep(n: Node, p: Prop): (r: Node)
    ensures r.tag == n.tag && r.props == n.props && r.parent == n.parent && r.children == n.children
    ensures IsEventKey(p.key) ==> r.style == n.style && r.attrs == n.attrs
    ensures !IsEventKey(p.key) ==> r.listeners == n.listeners
    ensures !IsEventKey(p.key) && VanillaKey(p.key) == "style" ==> r.attrs == n.attrs
    ensures IsAttributeProp(p) ==> r.style == n.style && r.attrs.Keys == n.attrs.Keys + {AttributeName(p.key)}
  {
    if IsEventKey(p.key) then n.(listeners := AddListener(n.listeners, PortalListenerOf(p)))
    else if VanillaKey(p.key) == "style" then n.(style := MergeStyle(n.style, p.value))
    else n.(attrs := n.attrs[AttributeName(p.key) := p.value])
  }

  /** The synthesised portal element after the loop over all its props. */
  function PortalElement(n: Node, bag: seq<Prop>): (r: Node)
    ensures r.tag == n.tag && r.props == n.props && r.parent == n.parent && r.children == n.children
    ensures forall l :: l in n.listeners ==> l in r.listeners
    ensures forall k :: k in n.attrs ==> k in r.attrs
    decreases |bag|
  {
    if |bag| == 0 then n else PortalStep(PortalElement(n, bag[..|bag| - 1]), bag[|bag| - 1])
  }

  /** The listener an event key of the portal props passes to `addEventListener`: its name is taken from the vanilla key. */
  function PortalListenerOf(p: Prop): Listener {
    Listener(EventName(VanillaKey(p.key)), p.value)
  }

  /** Every listener the portal props register. */
  function PortalBagListeners(bag: seq<Prop>): set<Listener> {
    set i | 0 <= i < |bag| && Registers(bag[i]) :: PortalListenerOf(bag[i])
  }

  lemma PortalBagListenersSnoc(bag: seq<Prop>)
    requires |bag| > 0
    ensures PortalBagListeners(bag) ==
      PortalBagListeners(bag[..|bag| - 1]) + (if Registers(bag[|bag| - 1]) then {PortalListenerOf(bag[|bag| - 1])} else {})
  {
    var init := bag[..|bag| - 1];
    forall l | l in PortalBagListeners(bag)
      ensures l in PortalBagListeners(init) + (if Registers(bag[|bag| - 1]) then {PortalListenerOf(bag[|bag| - 1])} else {})
    {
      var i :| 0 <= i < |bag| && Registers(bag[i]) && l == PortalListenerOf(bag[i]);
      if i < |bag| - 1 {
        assert init[i] == bag[i];
      }
    }
    forall l | l in PortalBagListeners(init)
      ensures l in PortalBagListeners(bag)
    {
      var i :| 0 <= i < |init| && Registers(init[i]) && l == PortalListenerOf(init[i]);
      assert bag[i] == init[i];
    }
  }

  /**
   * The element's listeners after the prop loop are exactly its old ones
   * followed by those the portal props register, with no listener twice; on
   * the fresh `<div>` they are exactly the props' own.
   */
  lemma {:induction false} PortalListeners(n: Node, bag: seq<Prop>)
    ensures var r := PortalElement(n, bag).listeners;
      && |n.listeners| <= |r| && r[..|n.listeners|] == n.listeners
      && (forall l :: l in r <==> l in n.listeners || l in PortalBagListeners(bag))
      && (NoDuplicates(n.listeners) ==> NoDuplicates(r))
    decreases |bag|
  {
    if |bag| == 0 {
      assert PortalBagListeners(bag) == {};
    } else {
      PortalListeners(n, bag[..|bag| - 1]);
      PortalBagListenersSnoc(bag);
    }
  }

  lemma PortalEventName(key: string)
    requires forall i :: 0 <= i ==> !OccursAt(key, "className", i)
    ensures EventName(VanillaKey(key)) == EventName(key)
  {
    ReplaceFirstAbsent(key, "className", "class");
  }

  /** A prop the loop hands to `setAttribute`: neither an event key nor `style` once renamed. */
  predicate IsAttributeProp(p: Prop) {
    !IsEventKey(p.key) && VanillaKey(p.key) != "style"
  }

  /** No later attribute prop of the bag sets the same attribute as prop `i`, in any letter case. */
  predicate LastAttribute(bag: seq<Prop>, i: int)
    requires 0 <= i < |bag|
  {
    forall j :: i < j < |bag| && IsAttributeProp(bag[j]) ==> AttributeName(bag[j].key) != AttributeName(bag[i].key)
  }

  /** The attribute names the portal props set. */
  function PortalAttributeKeys(bag: seq<Prop>): set<string> {
    set i | 0 <= i < |bag| && IsAttributeProp(bag[i]) :: AttributeName(bag[i].key)
  }

  lemma PortalAttributeKeysSnoc(bag: seq<Prop>)
    requires |bag| > 0
    ensures PortalAttributeKeys(bag) ==
      PortalAttributeKeys(bag[..|bag| - 1]) + (if IsAttributeProp(bag[|bag| - 1]) then {AttributeName(bag[|bag| - 1].key)} else {})
  {
    var init := bag[..|bag| - 1];
    forall k | k in PortalAttributeKeys(bag)
      ensures k in PortalAttributeKeys(init) + (if IsAttributeProp(bag[|bag| - 1]) then {AttributeName(bag[|bag| - 1].key)} else {})
    {
      var i :| 0 <= i < |bag| && IsAttributeProp(bag[i]) && k == AttributeName(bag[i].key);
      if i < |bag| - 1 {
        assert init[i] == bag[i];
      }
    }
    forall k | k in PortalAttributeKeys(init)
      ensures k in PortalAttributeKeys(bag)
    {
      var i :| 0 <= i < |init| && IsAttributeProp(init[i]) && k == AttributeName(init[i].key);
      assert bag[i] == init[i];
    }
  }

  lemma {:induction false} PortalAttributeKeysOf(n: Node, bag: seq<Prop>)
    ensures PortalElement(n, bag).attrs.Keys == n.attrs.Keys + PortalAttributeKeys(bag)
    decreases |bag|
  {
    if |bag| > 0 {
      var init := bag[..|bag| - 1];
      var last := bag[|bag| - 1];
      PortalAttributeKeysOf(n, init);
      PortalAttributeKeysSnoc(bag);
    }
  }

  lemma {:induction false} PortalAttributeAt(n: Node, bag: seq<Prop>, i: int)
    requires 0 <= i < |bag| && IsAttributeProp(bag[i]) && LastAttribute(bag, i)
    ensures AttributeName(bag[i].key) in PortalElement(n, bag).attrs
    ensures PortalElement(n, bag).attrs[AttributeName(bag[i].key)] == bag[i].value
    decreases |bag|
  {
    if i < |bag| - 1 {
      var init := bag[..|bag| - 1];
      assert init[i] == bag[i];
      PortalAttributeAt(n, init, i);
    }
  }

  /**
   * The element's attributes after the prop loop: its old ones plus one for
   * every attribute prop, named by the lower-cased vanilla key (`className`
   * as `class`, `tabIndex` as `tabindex`); each holds the value of the last
   * prop that sets it, so keys differing only in case share one attribute.
   * On the fresh `<div>` the attribute names are exactly the props' own.
   */
  lemma PortalAttribute(n: Node, bag: seq<Prop>)
    ensures PortalElement(n, bag).attrs.Keys == n.attrs.Keys + PortalAttributeKeys(bag)
    ensures forall i :: 0 <= i < |bag| && IsAttributeProp(bag[i]) && LastAttribute(bag, i) ==>
      PortalElement(n, bag).attrs[AttributeName(bag[i].key)] == bag[i].value
  {
    PortalAttributeKeysOf(n, bag);
    forall i | 0 <= i < |bag| && IsAttributeProp(bag[i]) && LastAttribute(bag, i)
      ensures PortalElement(n, bag).attrs[AttributeName(bag[i].key)] == bag[i].value
    {
      PortalAttributeAt(n, bag, i);
    }
  }

  /**
   * Mount then cleanup with the same target: removing the synthesised
   * element from the node it was appended to leaves the store as it was
   * with the element added, detached.
   */
  lemma PortalRoundTrip(nodes: map<NodeId, Node>, target: NodeId, id: NodeId, bag: seq<Prop>)
    requires ChildrenLinked(nodes) && target in nodes && id !in nodes
    ensures var store := nodes[id := PortalElement(NewElement("div"), bag)];
      Detached(Appended(store, target, id), target, id) == store
  {
    var store := nodes[id := PortalElement(NewElement("div"), bag)];
    assert id !in nodes[target].children;
    AppendedThenDetached(store, target, id);
  }

  /** Props with no `style` key leave the element's style alone. */
  lemma {:induction false} PortalStyleUntouched(n: Node, bag: seq<Prop>)
    requires forall j :: 0 <= j < |bag| ==> IsEventKey(bag[j].key) || VanillaKey(bag[j].key) != "style"
    ensures PortalElement(n, bag).style == n.style
    decreases |bag|
  {
    if |bag| > 0 {
      PortalStyleUntouched(n, bag[..|bag| - 1]);
    }
  }

  /** A single `style` object prop is merged into the element's style key by key. */
  lemma {:induction false} PortalStyleMerged(n: Node, bag: seq<Prop>, i: int)
    requires 0 <= i < |bag| && bag[i].key == "style" && bag[i].value.StyleObject?
    requires forall j :: 0 <= j < |bag| && j != i ==> IsEventKey(bag[j].key) || VanillaKey(bag[j].key) != "style"
    ensures PortalElement(n, bag).style == n.style + bag[i].value.decl
    decreases |bag|
  {
    var init := bag[..|bag| - 1];
    if i == |bag| - 1 {
      PortalStyleUntouched(n, init);
      StyleStep(PortalElement(n, init), bag[i]);
    } else {
      assert init[i] == bag[i];
      PortalStyleMerged(n, init, i);
    }
  }

  /** The `style` prop is merged into the style and is not an event key. */
  lemma StyleStep(n: Node, p: Prop)
    requires p.key == "style"
    ensures PortalStep(n, p).style == MergeStyle(n.style, p.value)
  {
    assert VanillaKey("style") == "style" by {
      ReplaceFirstAbsent("style", "className", "class");
    }
    assert "style"[..2] == "st";
  }

  /**
   * `Portal`: its state holds the synthesised element once mounted (`portal`),
   * and `null` after cleanup.
   */
  class Portal {
    const name: Option<string>
    const props: seq<Prop>
    var portal: Option<NodeId>

    constructor (name: Option<string>, props: seq<Prop>)
      ensures this.name == name && this.props == props && portal.None?
    {
      this.name := name;
      this.props := props;
      portal := None;
    }

    /**
     * The mount effect. When the container is mounted, a fresh `<div>` gets
     * the props and is appended under the named node if a name is given and
     * resolves, nowhere if it is given and does not resolve, and under the
     * root when no name is given; `portal` is set in every case. The id
     * returned is the element the registered cleanup captures.
     */
    method Mount(dom: Document) returns (created: Option<NodeId>)
      requires dom.Valid()
      modifies this, dom
      ensures dom.Valid()
      ensures !old(dom.mounted) ==> created.None? && dom.nodes == old(dom.nodes) && portal == old(portal)
      ensures old(dom.mounted) ==>
        var id := old(dom.nextId);
        var store := old(dom.nodes)[id := PortalElement(NewElement("div"), props)];
        && created == Some(id) && portal == created
        && (!Truthy(name) ==> dom.nodes == Appended(store, old(dom.root), id))
        && (Truthy(name) && old(dom.Select(name.value)).Some? ==>
              dom.nodes == Appended(store, old(dom.Select(name.value)).value, id))
        && (Truthy(name) && old(dom.Select(name.value)).None? ==> dom.nodes == store)
      ensures dom.mounted == old(dom.mounted) && dom.root == old(dom.root) && dom.names == old(dom.names)
      ensures dom.nextId == if created.Some? then old(dom.nextId) + 1 else old(dom.nextId)
    {
      created := None;
      if !dom.mounted { return; }
      // Creating a detached element does not change what a name resolves
      // to, so the target is looked up before the element is created.
      var target := if Truthy(name) then dom.Select(name.value) else None;
      var id := Synthesize(dom);
      if Truthy(name) {
        if target.Some? {
          dom.AppendChild(target.value, id);
        }
      } else {
        dom.AppendChild(dom.root, id);
      }
      portal := Some(id);
      created := Some(id);
    }

    /**
     * `document.createElement("div")` and the loop over the portal props. The
     * loop works on the new element's record; nothing else can see the
     * detached element meanwhile, so the record is stored once at the end.
     */
    method Synthesize(dom: Document) returns (id: NodeId)
      requires dom.Valid()
      modifies dom
      ensures dom.Valid()
      ensures id == old(dom.nextId) && id !in old(dom.nodes) && id != dom.root
      ensures dom.nodes == old(dom.nodes)[id := PortalElement(NewElement("div"), props)]
      ensures dom.nodes[id].parent.None? && dom.nodes[id].children == []
      ensures dom.mounted == old(dom.mounted) && dom.root == old(dom.root) && dom.names == old(dom.names)
      ensures dom.nextId == old(dom.nextId) + 1
    {
      id := dom.CreateElement("div");
      var element := dom.nodes[id];

      var i := 0;
      while i < |props|
        invariant 0 <= i <= |props|
        invariant element == PortalElement(NewElement("div"), props[..i])
      {
        element := PortalStep(element, props[i]);
        assert props[..i + 1][..i] == props[..i];
        i := i + 1;
      }
      assert props[..i] == props;
      dom.SetContent(id, element);
    }

    /**
     * The cleanup of a mount that created `created`. With a name, the node is
     * removed from the named target if that still resolves, and nothing
     * happens otherwise; without one, it is removed from the root. `ok` is
     * false where `removeChild` would throw because the node is not a child
     * of that target; the throw also skips `setPortal(null)`, so `portal`
     * is reset exactly when `ok` holds.
     */
    method Cleanup(dom: Document, created: NodeId) returns (ok: bool)
      requires dom.Valid() && created in dom.nodes
      modifies this, dom
      ensures dom.Valid()
      ensures ok ==> portal.None?
      ensures !ok ==> portal == old(portal)
      ensures Truthy(name) && old(dom.Select(name.value)).None? ==> ok && dom.nodes == old(dom.nodes)
      ensures Truthy(name) && old(dom.Select(name.value)).Some? ==>
        var target := old(dom.Select(name.value)).value;
        && (ok <==> old(dom.nodes)[created].parent == Some(target))
        && (ok ==> dom.nodes == Detached(old(dom.nodes), target, created))
        && (!ok ==> dom.nodes == old(dom.nodes))
      ensures !Truthy(name) && !old(dom.mounted) ==> ok && dom.nodes == old(dom.nodes)
      ensures !Truthy(name) && old(dom.mounted) ==>
        && (ok <==> old(dom.nodes)[created].parent == Some(dom.root))
        && (ok ==> dom.nodes == Detached(old(dom.nodes), dom.root, created))
        && (!ok ==> dom.nodes == old(dom.nodes))
      ensures dom.mounted == old(dom.mounted) && dom.root == old(dom.root) && dom.names == old(dom.names)
      ensures dom.nextId == old(dom.nextId)
    {
      ok := true;
      if Truthy(name) {
        var element := dom.Select(name.value);
        if element.Some? {
          ok := dom.RemoveChild(element.value, created);
        }
      } else if dom.mounted {
        ok := dom.RemoveChild(dom.root, created);
      }
      if ok {
        portal := None;
      }
    }
  }
}
