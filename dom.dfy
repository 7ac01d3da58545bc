/**
 * The abstract DOM the bindings work on: a store of element records keyed
 * by node id, the container root, and the `data-name` index that the
 * selector `[data-name="X"]` consults. A name resolves only while the
 * container is mounted and its node is a proper descendant of the root;
 * a removed or replaced node (and everything under it) stops resolving.
 */
module Dom {
  import opened Wrappers
  import opened Binding

  type NodeId = nat

  /** One element: its JS properties (`className` among them), inline style, attributes, listeners and tree links. */
  datatype Node = Node(
    tag: string,
    props: map<string, Value>,
    style: map<string, string>,
    attrs: map<string, Value>,
    listeners: seq<Listener>,
    parent: Option<NodeId>,
    children: seq<NodeId>)

  /** `document.createElement(tag)`: no properties, style, attributes, listeners or links. */
  function NewElement(tag: string): Node {
    Node(tag, map[], map[], map[], [], None, [])
  }

  /** An element after the attach loop over `bag`. */
  function Bound(n: Node, bag: seq<Prop>): Node {
    n.(listeners := AttachListeners(n.listeners, bag), props := WriteProps(n.props, bag))
  }

  /** An element after the cleanup loop over `bag`: only its listeners change. */
  function Unbound(n: Node, bag: seq<Prop>): Node {
    n.(listeners := DetachListeners(n.listeners, bag))
  }

  /** Every parent link points at another stored node that lists the node among its children. */
  ghost predicate ParentsLinked(nodes: map<NodeId, Node>) {
    forall id :: id in nodes && nodes[id].parent.Some? ==>
      nodes[id].parent.value in nodes && nodes[id].parent.value != id &&
      id in nodes[nodes[id].parent.value].children
  }

  /** Every child link points at a stored node whose parent is the listing node. */
  ghost predicate ChildrenLinked(nodes: map<NodeId, Node>) {
    forall p, c :: p in nodes && c in nodes[p].children ==> c in nodes && nodes[c].parent == Some(p)
  }

  /** The parent and child links agree with each other, and no node is its own parent. */
  ghost predicate WellFormed(nodes: map<NodeId, Node>, root: NodeId) {
    root in nodes && ParentsLinked(nodes) && ChildrenLinked(nodes)
  }

  /** Two stores with the same nodes and the same tree links; only node contents may differ. */
  ghost predicate SameShape(a: map<NodeId, Node>, b: map<NodeId, Node>) {
    a.Keys == b.Keys &&
    forall id :: id in a ==> a[id].parent == b[id].parent && a[id].children == b[id].children
  }

  /** The parent chain of `id` reaches `root` within `fuel` steps. */
  function AttachedWithin(nodes: map<NodeId, Node>, root: NodeId, id: NodeId, fuel: nat): bool
    decreases fuel
  {
    if id == root then true
    else if fuel == 0 || id !in nodes then false
    else
      match nodes[id].parent
      case None => false
      case Some(p) => AttachedWithin(nodes, root, p, fuel - 1)
  }

  /** `id` is in the root's subtree (a chain to the root needs at most one step per node). */
  function Attached(nodes: map<NodeId, Node>, root: NodeId, id: NodeId): bool {
    AttachedWithin(nodes, root, id, |nodes|)
  }

  /**
   * `selector('[data-name="name"]')` on the container: the named node, when
   * the container is mounted and the node is a proper descendant of its root.
   */
  function SelectIn(mounted: bool, nodes: map<NodeId, Node>, names: map<string, NodeId>, root: NodeId, name: string)
    : (r: Option<NodeId>)
    ensures r.Some? ==> mounted && name in names && r.value == names[name] && r.value in nodes && r.value != root
    ensures r.Some? ==> nodes[r.value].parent.Some?
  {
    if mounted && name in names && names[name] != root && names[name] in nodes &&
       Attached(nodes, root, names[name]) && nodes[names[name]].parent.Some?
    then Some(names[name])
    else None
  }

  /** A detached node other than the root is never in the root's subtree. */
  lemma DetachedIsNotAttached(nodes: map<NodeId, Node>, root: NodeId, id: NodeId)
    requires id != root && id in nodes && nodes[id].parent.None?
    ensures !Attached(nodes, root, id)
  {
  }

  lemma {:induction false} SameShapeAttachedWithin(a: map<NodeId, Node>, b: map<NodeId, Node>, root: NodeId, id: NodeId, fuel: nat)
    requires SameShape(a, b)
    ensures AttachedWithin(a, root, id, fuel) == AttachedWithin(b, root, id, fuel)
    decreases fuel
  {
    if id != root && fuel > 0 && id in a && a[id].parent.Some? {
      SameShapeAttachedWithin(a, b, root, a[id].parent.value, fuel - 1);
    }
  }

  /** Changing node contents without touching tree links never changes what a name resolves to. */
  lemma SameShapeSelect(mounted: bool, a: map<NodeId, Node>, b: map<NodeId, Node>, names: map<string, NodeId>,
                        root: NodeId, name: string)
    requires SameShape(a, b)
    ensures SelectIn(mounted, a, names, root, name) == SelectIn(mounted, b, names, root, name)
  {
    assert |a| == |a.Keys| == |b.Keys| == |b|;
    if mounted && name in names && names[name] in a {
      SameShapeAttachedWithin(a, b, root, names[name], |a|);
    }
  }

  lemma SameShapeWellFormed(a: map<NodeId, Node>, b: map<NodeId, Node>, root: NodeId)
    requires WellFormed(a, root) && SameShape(a, b)
    ensures WellFormed(b, root)
  {
  }

  /** Replacing a node's contents while keeping its tree links keeps the store well formed. */
  lemma ContentUpdateWellFormed(nodes: map<NodeId, Node>, root: NodeId, id: NodeId, n: Node)
    requires WellFormed(nodes, root) && id in nodes
    requires n.parent == nodes[id].parent && n.children == nodes[id].children
    ensures WellFormed(nodes[id := n], root)
  {
    assert SameShape(nodes, nodes[id := n]);
    SameShapeWellFormed(nodes, nodes[id := n], root);
  }

  /** Adding a fresh, detached, childless node keeps the store well formed. */
  lemma FreshWellFormed(nodes: map<NodeId, Node>, root: NodeId, id: NodeId, n: Node)
    requires WellFormed(nodes, root) && id !in nodes && n.parent.None? && n.children == []
    ensures WellFormed(nodes[id := n], root)
  {
    var r := nodes[id := n];
    forall p, c | p in r && c in r[p].children
      ensures c in r && r[c].parent == Some(p)
    {
      assert p != id && c in nodes[p].children;
    }
  }

  /** Replacing a node's contents while keeping its tree links never changes what a name resolves to. */
  lemma ContentUpdateSelect(mounted: bool, nodes: map<NodeId, Node>, names: map<string, NodeId>, root: NodeId,
                            el: NodeId, n: Node)
    requires el in nodes && n.parent == nodes[el].parent && n.children == nodes[el].children
    ensures forall name :: SelectIn(mounted, nodes[el := n], names, root, name) == SelectIn(mounted, nodes, names, root, name)
  {
    assert SameShape(nodes, nodes[el := n]);
    forall name
      ensures SelectIn(mounted, nodes[el := n], names, root, name) == SelectIn(mounted, nodes, names, root, name)
    {
      SameShapeSelect(mounted, nodes, nodes[el := n], names, root, name);
    }
  }

  /** The store with the inline style of `el` replaced by `style`. */
  function Restyled(nodes: map<NodeId, Node>, el: NodeId, style: map<string, string>): (r: map<NodeId, Node>)
    requires el in nodes
    ensures r.Keys == nodes.Keys && el in r && r[el].style == style
  {
    nodes[el := nodes[el].(style := style)]
  }

  /** Two style writes on one element leave the store as the second alone would. */
  lemma RestyledTwice(nodes: map<NodeId, Node>, el: NodeId, s1: map<string, string>, s2: map<string, string>)
    requires el in nodes
    ensures Restyled(Restyled(nodes, el, s1), el, s2) == Restyled(nodes, el, s2)
  {
  }

  /** `s` with every occurrence of `x` replaced by `y`. */
  function ReplaceAll(s: seq<NodeId>, x: NodeId, y: NodeId): (r: seq<NodeId>)
    ensures |r| == |s|
    ensures forall i :: 0 <= i < |s| ==> r[i] == if s[i] == x then y else s[i]
  {
    seq(|s|, i requires 0 <= i < |s| => if s[i] == x then y else s[i])
  }

  /** The store after `p.appendChild(c)` for a detached `c`. */
  function Appended(nodes: map<NodeId, Node>, p: NodeId, c: NodeId): map<NodeId, Node>
    requires p in nodes && c in nodes
  {
    nodes[p := nodes[p].(children := nodes[p].children + [c])][c := nodes[c].(parent := Some(p))]
  }

  /** The store after `p.removeChild(c)` for a child `c` of `p`. */
  function Detached(nodes: map<NodeId, Node>, p: NodeId, c: NodeId): map<NodeId, Node>
    requires p in nodes && c in nodes
  {
    nodes[p := nodes[p].(children := Keep(nodes[p].children, {c}))][c := nodes[c].(parent := None)]
  }

  /** The store after `x.replaceWith(y)`, where `p` is `x`'s parent. */
  function Replaced(nodes: map<NodeId, Node>, p: NodeId, x: NodeId, y: NodeId): map<NodeId, Node>
    requires p in nodes && x in nodes && y in nodes
  {
    nodes[p := nodes[p].(children := ReplaceAll(nodes[p].children, x, y))]
         [x := nodes[x].(parent := None)]
         [y := nodes[y].(parent := Some(p))]
  }

  lemma AppendedParentsLinked(nodes: map<NodeId, Node>, root: NodeId, p: NodeId, c: NodeId)
    requires WellFormed(nodes, root) && p in nodes && c in nodes && c != p && nodes[c].parent.None?
    ensures ParentsLinked(Appended(nodes, p, c))
  {
    var r := Appended(nodes, p, c);
    forall id | id in r && r[id].parent.Some?
      ensures r[id].parent.value in r && r[id].parent.value != id && id in r[r[id].parent.value].children
    {
      if id != c {
        var q := nodes[id].parent.value;
        assert id in nodes[q].children;
      }
    }
  }

  lemma AppendedChildrenLinked(nodes: map<NodeId, Node>, root: NodeId, p: NodeId, c: NodeId)
    requires WellFormed(nodes, root) && p in nodes && c in nodes && c != p && nodes[c].parent.None?
    ensures ChildrenLinked(Appended(nodes, p, c))
  {
    var r := Appended(nodes, p, c);
    assert c !in nodes[p].children;
    forall q, k | q in r && k in r[q].children
      ensures k in r && r[k].parent == Some(q)
    {
      if q == p {
        if k != c {
          assert k in nodes[p].children;
        }
      } else {
        assert k in nodes[q].children;
      }
    }
  }

  lemma AppendedWellFormed(nodes: map<NodeId, Node>, root: NodeId, p: NodeId, c: NodeId)
    requires WellFormed(nodes, root) && p in nodes && c in nodes && c != p && nodes[c].parent.None?
    ensures WellFormed(Appended(nodes, p, c), root)
    ensures Appended(nodes, p, c).Keys == nodes.Keys
  {
    AppendedParentsLinked(nodes, root, p, c);
    AppendedChildrenLinked(nodes, root, p, c);
  }

  lemma DetachedParentsLinked(nodes: map<NodeId, Node>, root: NodeId, p: NodeId, c: NodeId)
    requires WellFormed(nodes, root) && p in nodes && c in nodes && nodes[c].parent == Some(p)
    ensures ParentsLinked(Detached(nodes, p, c))
  {
    var r := Detached(nodes, p, c);
    forall id | id in r && r[id].parent.Some?
      ensures r[id].parent.value in r && r[id].parent.value != id && id in r[r[id].parent.value].children
    {
      var q := nodes[id].parent.value;
      assert id != c && id in nodes[q].children;
      if q == p {
        assert id in Keep(nodes[p].children, {c});
      }
    }
  }

  lemma DetachedChildrenLinked(nodes: map<NodeId, Node>, root: NodeId, p: NodeId, c: NodeId)
    requires WellFormed(nodes, root) && p in nodes && c in nodes && nodes[c].parent == Some(p)
    ensures ChildrenLinked(Detached(nodes, p, c))
  {
    var r := Detached(nodes, p, c);
    forall q, k | q in r && k in r[q].children
      ensures k in r && r[k].parent == Some(q)
    {
      if q == p {
        assert k in nodes[p].children && k != c;
      } else {
        assert k in nodes[q].children;
      }
    }
  }

  /**
   * Appending a fresh node and then removing it from the same parent gives
   * back the store with only the fresh node added, detached.
   */
  lemma {:induction false} AppendedThenDetached(nodes: map<NodeId, Node>, p: NodeId, c: NodeId)
    requires p in nodes && c in nodes && c != p && nodes[c].parent.None? && c !in nodes[p].children
    ensures Detached(Appended(nodes, p, c), p, c) == nodes
  {
    var kids := nodes[p].children;
    KeepAppend(kids, [c], {c});
    KeepDisjoint(kids, {c});
    assert Keep([c], {c}) == [];
    assert Keep(kids + [c], {c}) == kids;
  }

  lemma DetachedWellFormed(nodes: map<NodeId, Node>, root: NodeId, p: NodeId, c: NodeId)
    requires WellFormed(nodes, root) && p in nodes && c in nodes && nodes[c].parent == Some(p)
    ensures WellFormed(Detached(nodes, p, c), root)
    ensures Detached(nodes, p, c).Keys == nodes.Keys
  {
    DetachedParentsLinked(nodes, root, p, c);
    DetachedChildrenLinked(nodes, root, p, c);
  }

  lemma ReplacedParentsLinked(nodes: map<NodeId, Node>, root: NodeId, x: NodeId, y: NodeId)
    requires WellFormed(nodes, root) && x in nodes && y in nodes && x != y
    requires nodes[x].parent.Some? && nodes[y].parent.None? && nodes[y].children == []
    ensures ParentsLinked(Replaced(nodes, nodes[x].parent.value, x, y))
  {
    var p := nodes[x].parent.value;
    var r := Replaced(nodes, p, x, y);
    forall id | id in r && r[id].parent.Some?
      ensures r[id].parent.value in r && r[id].parent.value != id && id in r[r[id].parent.value].children
    {
      if id == y {
        var i :| 0 <= i < |nodes[p].children| && nodes[p].children[i] == x;
        assert r[p].children[i] == y;
      } else {
        var q := nodes[id].parent.value;
        assert id in nodes[q].children;
        if q == p {
          var i :| 0 <= i < |nodes[p].children| && nodes[p].children[i] == id;
          assert r[p].children[i] == id;
        }
      }
    }
  }

  lemma ReplacedChildrenLinked(nodes: map<NodeId, Node>, root: NodeId, x: NodeId, y: NodeId)
    requires WellFormed(nodes, root) && x in nodes && y in nodes && x != y
    requires nodes[x].parent.Some? && nodes[y].parent.None? && nodes[y].children == []
    ensures ChildrenLinked(Replaced(nodes, nodes[x].parent.value, x, y))
  {
    var p := nodes[x].parent.value;
    var r := Replaced(nodes, p, x, y);
    forall q, k | q in r && k in r[q].children
      ensures k in r && r[k].parent == Some(q)
    {
      if q == p {
        var i :| 0 <= i < |r[p].children| && r[p].children[i] == k;
        if nodes[p].children[i] != x {
          assert k in nodes[p].children;
        }
      } else {
        assert q != y;
        assert k in nodes[q].children;
      }
    }
  }

  lemma ReplacedWellFormed(nodes: map<NodeId, Node>, root: NodeId, x: NodeId, y: NodeId)
    requires WellFormed(nodes, root) && x in nodes && y in nodes && x != y
    requires nodes[x].parent.Some? && nodes[y].parent.None? && nodes[y].children == []
    ensures WellFormed(Replaced(nodes, nodes[x].parent.value, x, y), root)
    ensures Replaced(nodes, nodes[x].parent.value, x, y).Keys == nodes.Keys
  {
    ReplacedParentsLinked(nodes, root, x, y);
    ReplacedChildrenLinked(nodes, root, x, y);
  }

  /**
   * The container: the root element (`ref.current`, present once mounted),
   * the element store, the `data-name` index and the next fresh node id.
   */
  class Document {
    var mounted: bool
    var root: NodeId
    var nodes: map<NodeId, Node>
    var names: map<string, NodeId>
    var nextId: NodeId

    ghost predicate Valid()
      reads this
    {
      && WellFormed(nodes, root)
      && (forall id :: id in nodes ==> id < nextId)
      && (forall n :: n in names ==> names[n] in nodes)
    }

    /** The exported design: a store, its root and its named layers. */
    constructor (isMounted: bool, store: map<NodeId, Node>, rootId: NodeId, index: map<string, NodeId>, firstFree: NodeId)
      requires WellFormed(store, rootId)
      requires forall id :: id in store ==> id < firstFree
      requires forall n :: n in index ==> index[n] in store
      ensures Valid()
      ensures mounted == isMounted && nodes == store && root == rootId && names == index && nextId == firstFree
    {
      mounted, nodes, root, names, nextId := isMounted, store, rootId, index, firstFree;
    }

    function Select(name: string): (r: Option<NodeId>)
      reads this
      ensures r.Some? ==> mounted && name in names && r.value == names[name] && r.value in nodes && r.value != root
    {
      SelectIn(mounted, nodes, names, root, name)
    }

    /** `document.createElement(tag)`: a fresh, detached element. */
    method CreateElement(tag: string) returns (id: NodeId)
      requires Valid()
      modifies this
      ensures Valid()
      ensures id == old(nextId) && id !in old(nodes) && id != root
      ensures nodes == old(nodes)[id := NewElement(tag)] && nextId == old(nextId) + 1
      ensures mounted == old(mounted) && root == old(root) && names == old(names)
    {
      id := nextId;
      FreshWellFormed(nodes, root, id, NewElement(tag));
      nodes := nodes[id := NewElement(tag)];
      nextId := nextId + 1;
    }

    /** Property and style writes on `el` that leave its tree links alone, taken together: its record becomes `n`. */
    method SetContent(el: NodeId, n: Node)
      requires Valid() && el in nodes
      requires n.parent == nodes[el].parent && n.children == nodes[el].children
      modifies this
      ensures Valid()
      ensures nodes == old(nodes)[el := n]
      ensures mounted == old(mounted) && root == old(root) && names == old(names) && nextId == old(nextId)
    {
      ContentUpdateWellFormed(nodes, root, el, n);
      nodes := nodes[el := n];
    }

    /** Writes one inline style declaration: `el.style[key] = value`. */
    method SetStyle(el: NodeId, key: string, value: string)
      requires Valid() && el in nodes
      modifies this
      ensures Valid()
      ensures nodes == old(nodes)[el := old(nodes)[el].(style := old(nodes)[el].style[key := value])]
      ensures mounted == old(mounted) && root == old(root) && names == old(names) && nextId == old(nextId)
    {
      var n := nodes[el];
      ContentUpdateWellFormed(nodes, root, el, n.(style := n.style[key := value]));
      nodes := nodes[el := n.(style := n.style[key := value])];
    }

    /**
     * The attach loop over `Object.keys(props)`: each event key adds its
     * listener, each other key is assigned as a property. The loop works on
     * the element's record, which is stored once at the end; nothing reads
     * the document meanwhile.
     */
    method Bind(el: NodeId, bag: seq<Prop>)
      requires Valid() && el in nodes
      modifies this
      ensures Valid()
      ensures nodes == old(nodes)[el := Bound(old(nodes)[el], bag)]
      ensures mounted == old(mounted) && root == old(root) && names == old(names) && nextId == old(nextId)
      ensures forall name :: Select(name) == old(Select(name))
    {
      var n := nodes[el];
      var i := 0;
      while i < |bag|
        invariant 0 <= i <= |bag|
        invariant n == Bound(old(nodes)[el], bag[..i])
      {
        var p := bag[i];
        if IsEventKey(p.key) {
          n := n.(listeners := AddListener(n.listeners, Listener(EventName(p.key), p.value)));
        } else {
          n := n.(props := n.props[p.key := p.value]);
        }
        assert bag[..i + 1][..i] == bag[..i];
        i := i + 1;
      }
      assert bag[..i] == bag;
      ContentUpdateWellFormed(nodes, root, el, n);
      ContentUpdateSelect(mounted, nodes, names, root, el, n);
      nodes := nodes[el := n];
    }

    /** The cleanup loop: each event key removes the listener its name and handler derive; properties stay. */
    method Unbind(el: NodeId, bag: seq<Prop>)
      requires Valid() && el in nodes
      modifies this
      ensures Valid()
      ensures nodes == old(nodes)[el := Unbound(old(nodes)[el], bag)]
      ensures mounted == old(mounted) && root == old(root) && names == old(names) && nextId == old(nextId)
      ensures forall name :: Select(name) == old(Select(name))
    {
      var n := nodes[el];
      var i := 0;
      while i < |bag|
        invariant 0 <= i <= |bag|
        invariant n == Unbound(old(nodes)[el], bag[..i])
      {
        var p := bag[i];
        if IsEventKey(p.key) {
          n := n.(listeners := RemoveListener(n.listeners, Listener(EventName(p.key), p.value)));
        }
        assert bag[..i + 1][..i] == bag[..i];
        i := i + 1;
      }
      assert bag[..i] == bag;
      ContentUpdateWellFormed(nodes, root, el, n);
      ContentUpdateSelect(mounted, nodes, names, root, el, n);
      nodes := nodes[el := n];
    }

    /**
     * `p.appendChild(c)` for a detached, childless node `c`: it becomes
     * `p`'s last child. A childless node cannot be an ancestor of `p`, so
     * the append never makes a cycle.
     */
    method AppendChild(p: NodeId, c: NodeId)
      requires Valid() && p in nodes && c in nodes && c != p && nodes[c].parent.None? && nodes[c].children == []
      modifies this
      ensures Valid()
      ensures nodes == Appended(old(nodes), p, c)
      ensures mounted == old(mounted) && root == old(root) && names == old(names) && nextId == old(nextId)
    {
      AppendedWellFormed(nodes, root, p, c);
      nodes := Appended(nodes, p, c);
    }

    /**
     * `p.removeChild(c)`. When `c` is not a child of `p` the DOM throws
     * `NotFoundError`; then `ok` is false and nothing changes.
     */
    method RemoveChild(p: NodeId, c: NodeId) returns (ok: bool)
      requires Valid() && p in nodes && c in nodes
      modifies this
      ensures Valid()
      ensures ok <==> old(nodes)[c].parent == Some(p)
      ensures ok ==> nodes == Detached(old(nodes), p, c)
      ensures !ok ==> nodes == old(nodes)
      ensures mounted == old(mounted) && root == old(root) && names == old(names) && nextId == old(nextId)
    {
      ok := nodes[c].parent == Some(p);
      if ok {
        DetachedWellFormed(nodes, root, p, c);
        nodes := Detached(nodes, p, c);
      }
    }

    /** `x.remove()`: detaches `x` from its parent, if it has one. */
    method Remove(x: NodeId)
      requires Valid() && x in nodes
      modifies this
      ensures Valid()
      ensures old(nodes)[x].parent.None? ==> nodes == old(nodes)
      ensures old(nodes)[x].parent.Some? ==> nodes == Detached(old(nodes), old(nodes)[x].parent.value, x)
      ensures mounted == old(mounted) && root == old(root) && names == old(names) && nextId == old(nextId)
    {
      if nodes[x].parent.Some? {
        var _ := RemoveChild(nodes[x].parent.value, x);
      }
    }

    /** `x.replaceWith(y)` for a detached, childless `y`: `y` takes `x`'s place among its parent's children. */
    method ReplaceWith(x: NodeId, y: NodeId)
      requires Valid() && x in nodes && y in nodes && x != y
      requires nodes[y].parent.None? && nodes[y].children == []
      modifies this
      ensures Valid()
      ensures old(nodes)[x].parent.None? ==> nodes == old(nodes)
      ensures old(nodes)[x].parent.Some? ==> nodes == Replaced(old(nodes), old(nodes)[x].parent.value, x, y)
      ensures mounted == old(mounted) && root == old(root) && names == old(names) && nextId == old(nextId)
    {
      if nodes[x].parent.Some? {
        ReplacedWellFormed(nodes, root, x, y);
        nodes := Replaced(nodes, nodes[x].parent.value, x, y);
      }
    }
  }
}
