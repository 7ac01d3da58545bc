/**
 * The prop-bag routing rule shared by `Component`, `List`, `Item`,
 * `Property`, `Input` and `Portal`: a key starting with `on` names an event
 * listener (the first `on` removed, the rest lower-cased); every other key is
 * a property assignment. Cleanup removes the listeners derived by the same
 * rule and leaves property writes in place.
 *
 * A bag is the sequence of the props object's own keys in `Object.keys`
 * order, with their values.
 */
module Binding {
  import opened Strings

  /** A prop value. Functions are represented by an identity. */
  datatype Value =
    | Str(s: string)
    | Num(n: int)
    | Bool(b: bool)
    | Handler(id: nat)
    | StyleObject(decl: map<string, string>)
    | Undefined

  datatype Prop = Prop(key: string, value: Value)

  /** A registered listener: the event type and the handler value, as `addEventListener` receives them. */
  datatype Listener = Listener(event: string, handler: Value)

  predicate IsEventKey(key: string) {
    StartsWith(key, "on")
  }

  /**
   * `propKey.replace("on", "").toLowerCase()`. For an event key the first
   * `on` is its prefix, so the event name is the lower-cased rest.
   */
  function EventName(key: string): (r: string)
    ensures IsEventKey(key) ==> r == ToLower(key[2..])
  {
    ToLower(ReplaceFirst(key, "on", ""))
  }

  lemma OnClickIsClick()
    ensures EventName("onClick") == "click"
  {
    assert "onClick"[2..] == "Click";
  }

  /** The listener an event key passes to `addEventListener` and `removeEventListener`. */
  function ListenerOf(p: Prop): Listener {
    Listener(EventName(p.key), p.value)
  }

  /**
   * An event key whose handler is not `undefined`: the DOM takes an
   * `undefined` callback as null, and then adds and removes nothing.
   */
  predicate Registers(p: Prop) {
    IsEventKey(p.key) && p.value != Undefined
  }

  /** Every listener the bag's event keys register. */
  function BagListeners(bag: seq<Prop>): set<Listener> {
    set i | 0 <= i < |bag| && Registers(bag[i]) :: ListenerOf(bag[i])
  }

  predicate NoDuplicates<T(==)>(s: seq<T>) {
    forall i, j :: 0 <= i < j < |s| ==> s[i] != s[j]
  }

  /**
   * `addEventListener`: an `undefined` handler registers nothing, and a
   * listener already registered with the same type and handler is not added
   * twice. The existing listeners keep their place.
   */
  function AddListener(ls: seq<Listener>, l: Listener): (r: seq<Listener>)
    ensures forall x :: x in r <==> x in ls || (x == l && l.handler != Undefined)
    ensures |ls| <= |r| <= |ls| + 1 && r[..|ls|] == ls
    ensures NoDuplicates(ls) ==> NoDuplicates(r)
  {
    if l.handler == Undefined || l in ls then ls else ls + [l]
  }

  /** The elements of `xs` that are not in `drop`, in order. */
  function Keep<T(!new)>(xs: seq<T>, drop: set<T>): (r: seq<T>)
    ensures forall x :: x in r <==> x in xs && x !in drop
  {
    if |xs| == 0 then []
    else (if xs[0] in drop then [] else [xs[0]]) + Keep(xs[1..], drop)
  }

  /** `removeEventListener`: the entry with the same type and handler, if any, is removed; an `undefined` handler removes nothing. */
  function RemoveListener(ls: seq<Listener>, l: Listener): (r: seq<Listener>)
    ensures forall x :: x in r <==> x in ls && (x != l || l.handler == Undefined)
  {
    if l.handler == Undefined then ls else Keep(ls, {l})
  }

  /** The listeners of an element after the attach loop has run over `bag`: existing ones are never moved or removed. */
  function AttachListeners(ls: seq<Listener>, bag: seq<Prop>): (r: seq<Listener>)
    ensures |ls| <= |r| && r[..|ls|] == ls
    decreases |bag|
  {
    if |bag| == 0 then ls
    else
      var last := bag[|bag| - 1];
      var before := AttachListeners(ls, bag[..|bag| - 1]);
      if IsEventKey(last.key) then AddListener(before, ListenerOf(last)) else before
  }

  /**
   * Attach keeps the existing listeners in place and in order, appends only
   * listeners the bag derives, ends with every listener the bag derives, and
   * never registers the same listener twice.
   */
  lemma {:induction false} AttachListenersShape(ls: seq<Listener>, bag: seq<Prop>)
    ensures var r := AttachListeners(ls, bag);
      && |ls| <= |r| && r[..|ls|] == ls
      && (forall i :: |ls| <= i < |r| ==> r[i] in BagListeners(bag))
      && (forall l :: l in r <==> l in ls || l in BagListeners(bag))
      && (NoDuplicates(ls) ==> NoDuplicates(r))
    decreases |bag|
  {
    if |bag| == 0 {
      assert BagListeners(bag) == {};
    } else {
      AttachListenersShape(ls, bag[..|bag| - 1]);
      BagListenersSnoc(bag);
    }
  }

  /** The listeners of an element after the cleanup loop has run over `bag`: it never adds one. */
  function DetachListeners(ls: seq<Listener>, bag: seq<Prop>): (r: seq<Listener>)
    ensures forall l :: l in r ==> l in ls
    decreases |bag|
  {
    if |bag| == 0 then ls
    else
      var last := bag[|bag| - 1];
      var before := DetachListeners(ls, bag[..|bag| - 1]);
      if IsEventKey(last.key) then RemoveListener(before, ListenerOf(last)) else before
  }

  /** No later prop of the bag has the same key as prop `i`: its write is the one that stays. */
  predicate LastWithKey(bag: seq<Prop>, i: int)
    requires 0 <= i < |bag|
  {
    forall j :: i < j < |bag| ==> bag[j].key != bag[i].key
  }

  /** The element's properties after the attach loop: every non-event key is assigned, in order; none is deleted. */
  function WriteProps(props: map<string, Value>, bag: seq<Prop>): (r: map<string, Value>)
    ensures forall k :: k in props ==> k in r
    decreases |bag|
  {
    if |bag| == 0 then props
    else
      var last := bag[|bag| - 1];
      var before := WriteProps(props, bag[..|bag| - 1]);
      if IsEventKey(last.key) then before else before[last.key := last.value]
  }

  /** The property names the bag assigns: its keys that are not event keys. */
  function WrittenKeys(bag: seq<Prop>): set<string> {
    set i | 0 <= i < |bag| && !IsEventKey(bag[i].key) :: bag[i].key
  }

  /** After attach the element has its old properties plus one for every non-event key. */
  lemma {:induction false} WritePropsKeys(props: map<string, Value>, bag: seq<Prop>)
    ensures WriteProps(props, bag).Keys == props.Keys + WrittenKeys(bag)
    decreases |bag|
  {
    if |bag| > 0 {
      var init := bag[..|bag| - 1];
      WritePropsKeys(props, init);
      var last := bag[|bag| - 1];
      assert forall i :: 0 <= i < |init| ==> init[i] == bag[i];
      if IsEventKey(last.key) {
        assert WrittenKeys(bag) == WrittenKeys(init);
      } else {
        assert WrittenKeys(bag) == WrittenKeys(init) + {last.key};
      }
    }
  }

  /** A non-event key ends with the value of its last occurrence in the bag. */
  lemma {:induction false} WritePropsLastWins(props: map<string, Value>, bag: seq<Prop>, i: int)
    requires 0 <= i < |bag| && !IsEventKey(bag[i].key) && LastWithKey(bag, i)
    ensures bag[i].key in WriteProps(props, bag)
    ensures WriteProps(props, bag)[bag[i].key] == bag[i].value
    decreases |bag|
  {
    if i < |bag| - 1 {
      var init := bag[..|bag| - 1];
      assert init[i] == bag[i];
      WritePropsLastWins(props, init, i);
    }
  }

  /** A property the bag does not assign keeps its value, event keys included. */
  lemma {:induction false} WritePropsUntouched(props: map<string, Value>, bag: seq<Prop>, k: string)
    requires k in props && k !in WrittenKeys(bag)
    ensures k in WriteProps(props, bag) && WriteProps(props, bag)[k] == props[k]
    decreases |bag|
  {
    if |bag| > 0 {
      var init := bag[..|bag| - 1];
      assert forall j :: 0 <= j < |init| ==> init[j] == bag[j];
      assert WrittenKeys(init) <= WrittenKeys(bag);
      WritePropsUntouched(props, init, k);
    }
  }

  lemma BagListenersSnoc(bag: seq<Prop>)
    requires |bag| > 0
    ensures BagListeners(bag) ==
      BagListeners(bag[..|bag| - 1]) + (if Registers(bag[|bag| - 1]) then {ListenerOf(bag[|bag| - 1])} else {})
  {
    var init := bag[..|bag| - 1];
    forall l | l in BagListeners(bag)
      ensures l in BagListeners(init) + (if Registers(bag[|bag| - 1]) then {ListenerOf(bag[|bag| - 1])} else {})
    {
      var i :| 0 <= i < |bag| && Registers(bag[i]) && l == ListenerOf(bag[i]);
      if i < |bag| - 1 {
        assert init[i] == bag[i];
      }
    }
    forall l | l in BagListeners(init)
      ensures l in BagListeners(bag)
    {
      var i :| 0 <= i < |init| && Registers(init[i]) && l == ListenerOf(init[i]);
      assert bag[i] == init[i];
    }
  }

  lemma {:induction false} KeepAppend<T(!new)>(a: seq<T>, b: seq<T>, drop: set<T>)
    ensures Keep(a + b, drop) == Keep(a, drop) + Keep(b, drop)
    decreases |a|
  {
    if |a| == 0 {
      assert a + b == b;
    } else {
      assert (a + b)[1..] == a[1..] + b;
      KeepAppend(a[1..], b, drop);
    }
  }

  lemma {:induction false} KeepTwice<T(!new)>(xs: seq<T>, s: set<T>, t: set<T>)
    ensures Keep(Keep(xs, s), t) == Keep(xs, s + t)
    decreases |xs|
  {
    if |xs| > 0 {
      KeepTwice(xs[1..], s, t);
      var head := if xs[0] in s then [] else [xs[0]];
      KeepAppend(head, Keep(xs[1..], s), t);
    }
  }

  lemma {:induction false} KeepDisjoint<T(!new)>(xs: seq<T>, drop: set<T>)
    requires forall x :: x in xs ==> x !in drop
    ensures Keep(xs, drop) == xs
    decreases |xs|
  {
    if |xs| > 0 {
      KeepDisjoint(xs[1..], drop);
    }
  }

  lemma {:induction false} KeepCovered<T(!new)>(xs: seq<T>, drop: set<T>)
    requires forall i :: 0 <= i < |xs| ==> xs[i] in drop
    ensures Keep(xs, drop) == []
    decreases |xs|
  {
    if |xs| > 0 {
      KeepCovered(xs[1..], drop);
    }
  }

  /**
   * Cleanup removes exactly the listeners the bag derives: the listeners
   * left are those of `ls` that no event key of the bag names, in order.
   */
  lemma {:induction false} DetachIsKeep(ls: seq<Listener>, bag: seq<Prop>)
    ensures DetachListeners(ls, bag) == Keep(ls, BagListeners(bag))
    decreases |bag|
  {
    if |bag| == 0 {
      assert BagListeners(bag) == {};
      KeepDisjoint(ls, {});
    } else {
      var init := bag[..|bag| - 1];
      var last := bag[|bag| - 1];
      DetachIsKeep(ls, init);
      BagListenersSnoc(bag);
      if Registers(last) {
        KeepTwice(ls, BagListeners(init), {ListenerOf(last)});
      } else {
        assert BagListeners(bag) == BagListeners(init);
      }
    }
  }

  /**
   * Attach followed by cleanup with the same bag: the listener list ends as
   * the original one without the bag's own listeners. A listener that was
   * registered before attach with the same type and handler is therefore
   * removed as well, since `addEventListener` did not add it a second time.
   */
  lemma AttachThenDetach(ls: seq<Listener>, bag: seq<Prop>)
    ensures DetachListeners(AttachListeners(ls, bag), bag) == Keep(ls, BagListeners(bag))
  {
    var r := AttachListeners(ls, bag);
    AttachListenersShape(ls, bag);
    DetachIsKeep(r, bag);
    assert r == r[..|ls|] + r[|ls|..];
    KeepAppend(ls, r[|ls|..], BagListeners(bag));
    KeepCovered(r[|ls|..], BagListeners(bag));
  }

  /** When none of the bag's listeners was registered beforehand, cleanup restores the listener list exactly. */
  lemma AttachThenDetachRestores(ls: seq<Listener>, bag: seq<Prop>)
    requires forall l :: l in ls ==> l !in BagListeners(bag)
    ensures DetachListeners(AttachListeners(ls, bag), bag) == ls
  {
    AttachThenDetach(ls, bag);
    KeepDisjoint(ls, BagListeners(bag));
  }

  /** The listeners of the bag's props, in bag order. */
  function ListenersOf(bag: seq<Prop>): seq<Listener>
    decreases |bag|
  {
    if |bag| == 0 then [] else ListenersOf(bag[..|bag| - 1]) + [ListenerOf(bag[|bag| - 1])]
  }

  /** A listener distinct from those of a bag's earlier props, and not registered before, is not there after attach. */
  lemma LastIsFresh(ls: seq<Listener>, bag: seq<Prop>)
    requires |bag| > 0 && ListenerOf(bag[|bag| - 1]) !in ls
    requires forall i :: 0 <= i < |bag| - 1 ==> ListenerOf(bag[i]) != ListenerOf(bag[|bag| - 1])
    ensures ListenerOf(bag[|bag| - 1]) !in AttachListeners(ls, bag[..|bag| - 1])
  {
    var init := bag[..|bag| - 1];
    AttachListenersShape(ls, init);
    assert forall i :: 0 <= i < |init| ==> init[i] == bag[i];
  }

  /**
   * Each event key with a handler adds exactly one listener: a bag of fresh,
   * distinct such props grows the list by its listeners, in order.
   */
  lemma {:induction false} AttachAddsOnePerEventKey(ls: seq<Listener>, bag: seq<Prop>)
    requires forall i :: 0 <= i < |bag| ==> Registers(bag[i]) && ListenerOf(bag[i]) !in ls
    requires forall i, j :: 0 <= i < j < |bag| ==> ListenerOf(bag[i]) != ListenerOf(bag[j])
    ensures AttachListeners(ls, bag) == ls + ListenersOf(bag)
    decreases |bag|
  {
    if |bag| > 0 {
      var init := bag[..|bag| - 1];
      assert forall i :: 0 <= i < |init| ==> init[i] == bag[i];
      AttachAddsOnePerEventKey(ls, init);
      LastIsFresh(ls, bag);
      assert ls + ListenersOf(init) + [ListenerOf(bag[|bag| - 1])] == ls + ListenersOf(bag);
    }
  }
}
