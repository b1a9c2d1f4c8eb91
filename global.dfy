/** Generic tree and record helpers used by the table and select
    components: `filterWithinDescendant`, `copyKeys`, `isArray`, `hasType`. */
module TreeUtils {
  import opened Js

  // ---------------------------------------------------------------------
  // filterWithinDescendant

  /** `Object.assign({}, o)[key]`, computed by cases on `o` so that the
      recursion below visibly descends into `o`. */
  function CopyChild(o: Value, key: string): (c: Value)
    ensures c == Prop(Copy(o), key)
  {
    match o
    case Obj(m) => if key in m then m[key] else Undefined
    case Arr(xs) =>
      (match IndexKey(key)
       case Some(i) => if i < |xs| then xs[i] else Undefined
       case None => Undefined)
    case Str(s) =>
      (match IndexKey(key)
       case Some(i) => if i < |s| then Str([s[i]]) else Undefined
       case None => Undefined)
    case _ => Undefined
  }

  /** The filter callback `f` on one element: `Some` of the kept copy, `None`
      when it is dropped. A copy that passes `filterFn` is kept as it is;
      otherwise its children (when truthy) are copied and filtered in turn,
      and the copy is kept with them exactly when some survive. */
  function KeepNode(o: Value, filterFn: Value -> bool, key: string): (r: Thrown<Option<Value>>)
    ensures r.Returned? && r.value.Some? ==> r.value.value.Obj?
    ensures filterFn(Copy(o)) ==> r == Returned(Some(Copy(o)))
    ensures !filterFn(Copy(o)) && !Truthy(CopyChild(o, key)) ==> r == Returned(None)
    decreases o, 1, 0
  {
    var c := Copy(o);
    if filterFn(c) then Returned(Some(c))
    else
      var children := CopyChild(o, key);
      if !Truthy(children) then Returned(None)
      else if !children.Arr? then TypeError   // `.map` is not a function
      else
        match FilterFrom(children.items, 0, filterFn, key)
        case Returned(kept) =>
          Returned(if kept == [] then None else Some(Obj(c.props[key := Arr(kept)])))
        case TypeError => TypeError
        case RangeError => RangeError
  }

  /** The copies of `items[i..]` that the callback keeps, in order. */
  function FilterFrom(items: seq<Value>, i: nat, filterFn: Value -> bool, key: string): (r: Thrown<seq<Value>>)
    ensures r.Returned? && i <= |items| ==> |r.value| <= |items| - i
    decreases Arr(items), 0, |items| - i
  {
    if i >= |items| then Returned([])
    else
      match KeepNode(items[i], filterFn, key)
      case Returned(head) =>
        (match FilterFrom(items, i + 1, filterFn, key)
         case Returned(rest) => Returned((if head.Some? then [head.value] else []) + rest)
         case TypeError => TypeError
         case RangeError => RangeError)
      case TypeError => TypeError
      case RangeError => RangeError
  }

  function FilterWithinDescendant(arr: Value, filterFn: Value -> bool, childrenKey: string): (r: Thrown<Value>)
    ensures !arr.Arr? ==> r == Returned(arr)
    ensures arr.Arr? && r.Returned? ==> r.value.Arr? && |r.value.items| <= |arr.items|
  {
    if !arr.Arr? then Returned(arr)
    else
      var r := FilterFrom(arr.items, 0, filterFn, childrenKey);
      FilterFromSpec(arr.items, 0, filterFn, childrenKey);
      SubseqLength(r, arr.items, 0, filterFn, childrenKey);
      match r
      case Returned(xs) => Returned(Arr(xs))
      case TypeError => TypeError
      case RangeError => RangeError
  }

  /** Reference definition: `o` has a descendant-or-self whose copy passes
      `filterFn`, reached through children arrays. */
  predicate HasMatch(o: Value, filterFn: Value -> bool, key: string)
    decreases o
  {
    filterFn(Copy(o)) ||
    (var children := CopyChild(o, key);
     children.Arr? &&
     exists j :: 0 <= j < |children.items| && HasMatch(children.items[j], filterFn, key))
  }

  /** `x` is the copy of `o`, up to the children entry. */
  ghost predicate Derived(x: Value, o: Value, key: string) {
    x.Obj? && x.props - {key} == OwnProperties(o) - {key}
  }

  /** `r` lists, in order, one copy for each of `items[i..]` that has a
      match, and nothing for the others. */
  ghost predicate SubseqOf(r: seq<Value>, items: seq<Value>, i: nat, filterFn: Value -> bool, key: string)
    decreases |items| - i
  {
    if i >= |items| then r == []
    else if HasMatch(items[i], filterFn, key) then
      r != [] && Derived(r[0], items[i], key) && SubseqOf(r[1..], items, i + 1, filterFn, key)
    else SubseqOf(r, items, i + 1, filterFn, key)
  }

  lemma {:induction false} SubseqLength(t: Thrown<seq<Value>>, items: seq<Value>, i: nat, filterFn: Value -> bool, key: string)
    requires i <= |items|
    requires t.Returned? ==> SubseqOf(t.value, items, i, filterFn, key)
    ensures t.Returned? ==> |t.value| <= |items| - i
    ensures t.Returned? ==>
              (t.value == [] <==> forall j :: i <= j < |items| ==> !HasMatch(items[j], filterFn, key))
    decreases |items| - i
  {
    if t.Returned? && i < |items| {
      var r := t.value;
      if HasMatch(items[i], filterFn, key) {
        SubseqLength(Returned(r[1..]), items, i + 1, filterFn, key);
      } else {
        SubseqLength(t, items, i + 1, filterFn, key);
      }
    }
  }

  /** One element is kept exactly when it has a match. */
  lemma {:induction false} KeepNodeSpec(o: Value, filterFn: Value -> bool, key: string)
    ensures KeepNode(o, filterFn, key).Returned? ==>
              (KeepNode(o, filterFn, key).value.Some? <==> HasMatch(o, filterFn, key))
    decreases o, 1, 1
  {
    var children := CopyChild(o, key);
    if !filterFn(Copy(o)) && children.Arr? {
      KeepNodeChildren(o, filterFn, key);
    }
  }

  /** What a kept element is: its copy, unchanged when the copy passes the
      filter; otherwise the copy with its children replaced by their
      non-empty filtered list. Every other property is the original's. */
  lemma KeepNodeShape(o: Value, filterFn: Value -> bool, key: string)
    ensures KeepNode(o, filterFn, key).Returned? ==>
              var opt := KeepNode(o, filterFn, key).value;
              && (opt.Some? ==> Derived(opt.value, o, key))
              && (filterFn(Copy(o)) ==> opt == Some(Copy(o)))
              && (opt.Some? && !filterFn(Copy(o)) ==>
                    && key in opt.value.props && opt.value.props[key].Arr?
                    && opt.value.props[key].items != []
                    && FilterFrom(CopyChild(o, key).items, 0, filterFn, key) == Returned(opt.value.props[key].items))
  {
    KeepNodeDerived(o, filterFn, key);
    KeepNodeFailedShape(o, filterFn, key);
  }

  /** The first half of `KeepNodeShape`: a kept element is derived from `o`. */
  lemma KeepNodeDerived(o: Value, filterFn: Value -> bool, key: string)
    ensures KeepNode(o, filterFn, key).Returned? && KeepNode(o, filterFn, key).value.Some? ==>
              Derived(KeepNode(o, filterFn, key).value.value, o, key)
  {
    var c := Copy(o);
    var r := KeepNode(o, filterFn, key);
    var children := CopyChild(o, key);
    if r.Returned? && r.value.Some? && !filterFn(c) {
      var kept := FilterFrom(children.items, 0, filterFn, key).value;
      assert r.value.value == Obj(c.props[key := Arr(kept)]);
      assert c.props[key := Arr(kept)] - {key} == c.props - {key};
    }
  }

  /** The second half of `KeepNodeShape`: an element kept although it fails
      the filter holds its non-empty filtered children. */
  lemma KeepNodeFailedShape(o: Value, filterFn: Value -> bool, key: string)
    ensures KeepNode(o, filterFn, key).Returned? && KeepNode(o, filterFn, key).value.Some? && !filterFn(Copy(o)) ==>
              var x := KeepNode(o, filterFn, key).value.value;
              && key in x.props && x.props[key].Arr? && x.props[key].items != []
              && FilterFrom(CopyChild(o, key).items, 0, filterFn, key) == Returned(x.props[key].items)
  {
  }

  /** An element that fails the filter and has an array of children: the
      filtered children are empty exactly when no descendant matches. */
  lemma {:induction false} KeepNodeChildren(o: Value, filterFn: Value -> bool, key: string)
    requires !filterFn(Copy(o)) && CopyChild(o, key).Arr?
    ensures var t := FilterFrom(CopyChild(o, key).items, 0, filterFn, key);
            t.Returned? ==>
              && SubseqOf(t.value, CopyChild(o, key).items, 0, filterFn, key)
              && (t.value == [] <==> !HasMatch(o, filterFn, key))
    decreases o, 1, 0
  {
    var items := CopyChild(o, key).items;
    var t := FilterFrom(items, 0, filterFn, key);
    FilterFromSpec(items, 0, filterFn, key);
    SubseqLength(t, items, 0, filterFn, key);
  }

  lemma {:induction false} FilterFromSpec(items: seq<Value>, i: nat, filterFn: Value -> bool, key: string)
    ensures FilterFrom(items, i, filterFn, key).Returned? ==>
              SubseqOf(FilterFrom(items, i, filterFn, key).value, items, i, filterFn, key)
    decreases Arr(items), 0, |items| - i
  {
    if i < |items| {
      KeepNodeSpec(items[i], filterFn, key);
      KeepNodeShape(items[i], filterFn, key);
      FilterFromSpec(items, i + 1, filterFn, key);
      var t := FilterFrom(items, i, filterFn, key);
      if t.Returned? {
        var head := KeepNode(items[i], filterFn, key).value;
        var rest := FilterFrom(items, i + 1, filterFn, key).value;
        if head.Some? {
          assert t.value == [head.value] + rest;
          assert t.value[1..] == rest;
        } else {
          assert t.value == rest;
        }
      }
    }
  }

  /** The result lists, in input order, a copy of exactly those input
      elements that have a match; an element without children that fails
      the filter is among the dropped. */
  lemma FilterWithinDescendantSpec(arr: seq<Value>, filterFn: Value -> bool, key: string)
    ensures var r := FilterWithinDescendant(Arr(arr), filterFn, key);
            r.Returned? ==> r.value.Arr? && SubseqOf(r.value.items, arr, 0, filterFn, key)
    ensures forall o :: !filterFn(Copy(o)) && !Truthy(CopyChild(o, key)) ==> !HasMatch(o, filterFn, key)
  {
    FilterFromSpec(arr, 0, filterFn, key);
  }

  /** Children that are absent, falsy or arrays all the way down. */
  predicate WellFormed(o: Value, key: string)
    decreases o
  {
    var children := CopyChild(o, key);
    (!Truthy(children) || children.Arr?) &&
    (children.Arr? ==> forall j :: 0 <= j < |children.items| ==> WellFormed(children.items[j], key))
  }

  /** On such trees the filter never throws. */
  lemma {:induction false} FilterFromReturns(items: seq<Value>, i: nat, filterFn: Value -> bool, key: string)
    requires forall j :: 0 <= j < |items| ==> WellFormed(items[j], key)
    ensures FilterFrom(items, i, filterFn, key).Returned?
    decreases Arr(items), 0, |items| - i
  {
    if i < |items| {
      KeepNodeReturns(items[i], filterFn, key);
      FilterFromReturns(items, i + 1, filterFn, key);
    }
  }

  lemma {:induction false} KeepNodeReturns(o: Value, filterFn: Value -> bool, key: string)
    requires WellFormed(o, key)
    ensures KeepNode(o, filterFn, key).Returned?
    decreases o, 1, 1
  {
    var children := CopyChild(o, key);
    if !filterFn(Copy(o)) && Truthy(children) {
      FilterFromReturns(children.items, 0, filterFn, key);
    }
  }

  /** The filter of the example below: `el => el.id === 3`. */
  predicate IdIsThree(v: Value) {
    v.Obj? && "id" in v.props && v.props["id"] == Num(3)
  }

  /** `[{id:1, children:[{id:2},{id:3}]}]` filtered by `id === 3` gives `[{id:1, children:[{id:3}]}]`. */
  lemma FilterExample()
    ensures var n2 := Obj(map["id" := Num(2)]);
            var n3 := Obj(map["id" := Num(3)]);
            var root := Obj(map["id" := Num(1), "children" := Arr([n2, n3])]);
            FilterWithinDescendant(Arr([root]), IdIsThree, "children")
              == Returned(Arr([Obj(map["id" := Num(1), "children" := Arr([n3])])]))
  {
    var fn: Value -> bool := IdIsThree;
    var n2 := Obj(map["id" := Num(2)]);
    var n3 := Obj(map["id" := Num(3)]);
    var root := Obj(map["id" := Num(1), "children" := Arr([n2, n3])]);
    assert KeepNode(n2, fn, "children") == Returned(None);
    assert KeepNode(n3, fn, "children") == Returned(Some(n3));
    var kids := [n2, n3];
    assert kids[0] == n2 && kids[1] == n3;
    assert FilterFrom(kids, 2, fn, "children") == Returned([]);
    assert [n3] + [] == [n3];
    assert FilterFrom(kids, 1, fn, "children") == Returned([n3]);
    assert [] + [n3] == [n3];
    assert FilterFrom(kids, 0, fn, "children") == Returned([n3]);
    assert CopyChild(root, "children") == Arr(kids);
    assert root.props["children" := Arr([n3])] == map["id" := Num(1), "children" := Arr([n3])];
    assert KeepNode(root, fn, "children") == Returned(Some(Obj(map["id" := Num(1), "children" := Arr([n3])])));
    var out := Obj(map["id" := Num(1), "children" := Arr([n3])]);
    assert FilterFrom([root], 1, fn, "children") == Returned([]);
    assert [root][0] == root;
    assert [out] + [] == [out];
    assert FilterFrom([root], 0, fn, "children") == Returned([out]);
  }

  // ---------------------------------------------------------------------
  // copyKeys

  /** One entry of `keyMappings`: `[newKey, key]` or `[newKey, fn]`. */
  datatype KeyMapping =
    | CopyFrom(newKey: string, key: string)
    | Derive(newKey: string, derive: Value -> Value)

  /** One step of the `forEach`: a string mapping copies `key` to `newKey`
      when `key` is an own property; a function mapping always sets
      `newKey` to the function of the item built so far. */
  function ApplyMapping(item: map<string, Value>, m: KeyMapping): (r: map<string, Value>)
    ensures item.Keys <= r.Keys <= item.Keys + {m.newKey}
    ensures forall k :: k != m.newKey ==> Prop(Obj(r), k) == Prop(Obj(item), k)
    ensures m.CopyFrom? ==> Prop(Obj(r), m.newKey) == (if m.key in item then item[m.key] else Prop(Obj(item), m.newKey))
    ensures m.Derive? ==> Prop(Obj(r), m.newKey) == m.derive(Obj(item))
  {
    match m
    case CopyFrom(newKey, key) => if key in item then item[newKey := item[key]] else item
    case Derive(newKey, derive) => item[newKey := derive(Obj(item))]
  }

  /** The whole `forEach`, in list order. */
  function ApplyMappings(item: map<string, Value>, ms: seq<KeyMapping>): map<string, Value>
    decreases |ms|
  {
    if ms == [] then item else ApplyMapping(ApplyMappings(item, ms[..|ms| - 1]), ms[|ms| - 1])
  }

  /** The first mapping acts first, and the later ones see what it wrote. */
  lemma {:induction false} ApplyMappingsFirst(item: map<string, Value>, m: KeyMapping, ms: seq<KeyMapping>)
    ensures ApplyMappings(item, [m] + ms) == ApplyMappings(ApplyMapping(item, m), ms)
    decreases |ms|
  {
    if ms != [] {
      var all := [m] + ms;
      assert all[..|all| - 1] == [m] + ms[..|ms| - 1];
      ApplyMappingsFirst(item, m, ms[..|ms| - 1]);
    }
  }

  /** Nothing is deleted; only mapping targets are added or changed. */
  lemma {:induction false} ApplyMappingsFrame(item: map<string, Value>, ms: seq<KeyMapping>)
    ensures item.Keys <= ApplyMappings(item, ms).Keys
    ensures forall k :: k in ApplyMappings(item, ms) && (forall j :: 0 <= j < |ms| ==> ms[j].newKey != k) ==>
              k in item && ApplyMappings(item, ms)[k] == item[k]
    decreases |ms|
  {
    if ms != [] {
      ApplyMappingsFrame(item, ms[..|ms| - 1]);
    }
  }

  /** The value has a positive `length`. */
  predicate LengthPositive(x: Value) {
    match ToNumber(Prop(x, "length"))
    case Some(n) => n > 0
    case None => false
  }

  /** `item.children`, once the mappings are applied. */
  function ChildrenOf(item: map<string, Value>): Value {
    if "children" in item then item["children"] else Undefined
  }

  /** One item of the `map`: a spread copy with the mappings applied, whose
      non-empty `children` list is mapped the same way one call deeper.
      `depth` is the call stack left: a function mapping can rebuild
      `children` on every level, so the recursion need not end, and
      running out of stack throws `RangeError`. */
  function CopyItem(item: Value, ms: seq<KeyMapping>, depth: nat): (r: Thrown<Value>)
    ensures r.Returned? ==> r.value.Obj?
    decreases depth, 1, 0
  {
    WithChildren(ApplyMappings(OwnProperties(item), ms), ms, depth)
  }

  /** The item after its mappings, with a non-empty `children` list
      replaced by its own copy; the recursion of `copyKeys`. */
  function WithChildren(newItem: map<string, Value>, ms: seq<KeyMapping>, depth: nat): (r: Thrown<Value>)
    ensures r.Returned? ==> r.value.Obj? && newItem.Keys <= r.value.props.Keys
    ensures !(Truthy(ChildrenOf(newItem)) && LengthPositive(ChildrenOf(newItem))) ==> r == Returned(Obj(newItem))
    decreases depth, 0, 0
  {
    var children := ChildrenOf(newItem);
    if Truthy(children) && LengthPositive(children) then
      if !children.Arr? then TypeError
      else if depth == 0 then RangeError
      else
        match CopyKeysList(children.items, ms, depth - 1)
        case Returned(xs) => Returned(Obj(newItem["children" := Arr(xs)]))
        case TypeError => TypeError
        case RangeError => RangeError
    else Returned(Obj(newItem))
  }

  /** `arrayToCopy.map(...)`: the first exception ends it. */
  function CopyKeysList(items: seq<Value>, ms: seq<KeyMapping>, depth: nat): (r: Thrown<seq<Value>>)
    ensures r.Returned? ==> |r.value| == |items|
    decreases depth, 2, |items|
  {
    if items == [] then Returned([])
    else
      match CopyItem(items[0], ms, depth)
      case Returned(x) =>
        (match CopyKeysList(items[1..], ms, depth)
         case Returned(xs) => Returned([x] + xs)
         case TypeError => TypeError
         case RangeError => RangeError)
      case TypeError => TypeError
      case RangeError => RangeError
  }

  lemma {:induction false} CopyKeysListReturned(items: seq<Value>, ms: seq<KeyMapping>, depth: nat, out: seq<Value>)
    requires |out| == |items|
    requires forall j :: 0 <= j < |items| ==> CopyItem(items[j], ms, depth) == Returned(out[j])
    ensures CopyKeysList(items, ms, depth) == Returned(out)
    decreases |items|
  {
    if items != [] {
      forall j | 0 <= j < |items| - 1 ensures CopyItem(items[1..][j], ms, depth) == Returned(out[1..][j]) {
        assert items[1..][j] == items[j + 1];
      }
      CopyKeysListReturned(items[1..], ms, depth, out[1..]);
      assert out == [out[0]] + out[1..];
    }
  }

  lemma {:induction false} CopyKeysListThrows(items: seq<Value>, ms: seq<KeyMapping>, depth: nat, i: nat)
    requires i < |items|
    requires forall j :: 0 <= j < i ==> CopyItem(items[j], ms, depth).Returned?
    requires !CopyItem(items[i], ms, depth).Returned?
    ensures CopyKeysList(items, ms, depth) == Rethrow(CopyItem(items[i], ms, depth))
    decreases i
  {
    if i > 0 {
      CopyKeysListThrows(items[1..], ms, depth, i - 1);
    }
  }

  /** The items come out in input order, as many as went in, and each one
      still holds every key of its input item. */
  lemma {:induction false} CopyKeysShape(items: seq<Value>, ms: seq<KeyMapping>, depth: nat)
    ensures CopyKeysList(items, ms, depth).Returned? ==>
              var out := CopyKeysList(items, ms, depth).value;
              && |out| == |items|
              && forall j :: 0 <= j < |items| ==>
                   && CopyItem(items[j], ms, depth) == Returned(out[j])
                   && out[j].Obj? && OwnProperties(items[j]).Keys <= out[j].props.Keys
    decreases |items|
  {
    if items != [] {
      CopyKeysShape(items[1..], ms, depth);
      var newItem := ApplyMappings(OwnProperties(items[0]), ms);
      ApplyMappingsFrame(OwnProperties(items[0]), ms);
      assert CopyItem(items[0], ms, depth) == WithChildren(newItem, ms, depth);
    }
  }

  /** Non-empty `children` are arrays all the way down, nested at most
      `d` levels below the value. */
  predicate Shallow(v: Value, d: nat)
    decreases v
  {
    var c := CopyChild(v, "children");
    Truthy(c) && LengthPositive(c) ==>
      c.Arr? && d > 0 && forall j :: 0 <= j < |c.items| ==> Shallow(c.items[j], d - 1)
  }

  /** With mappings that leave `children` alone, the copy returns on every
      list of trees that fit in the stack: no `TypeError`, no `RangeError`. */
  lemma {:induction false} CopyKeysReturns(items: seq<Value>, ms: seq<KeyMapping>, depth: nat)
    requires forall j :: 0 <= j < |ms| ==> ms[j].newKey != "children"
    requires forall j :: 0 <= j < |items| ==> Shallow(items[j], depth)
    ensures CopyKeysList(items, ms, depth).Returned?
    decreases depth, 2, |items|
  {
    if items != [] {
      CopyItemReturns(items[0], ms, depth);
      forall j | 0 <= j < |items| - 1 ensures Shallow(items[1..][j], depth) {
        assert items[1..][j] == items[j + 1];
      }
      CopyKeysReturns(items[1..], ms, depth);
    }
  }

  lemma {:induction false} CopyItemReturns(item: Value, ms: seq<KeyMapping>, depth: nat)
    requires forall j :: 0 <= j < |ms| ==> ms[j].newKey != "children"
    requires Shallow(item, depth)
    ensures CopyItem(item, ms, depth).Returned?
    decreases depth, 1, 0
  {
    var newItem := ApplyMappings(OwnProperties(item), ms);
    ChildrenSurvive(item, ms);
    var c := ChildrenOf(newItem);
    if Truthy(c) && LengthPositive(c) {
      CopyKeysReturns(c.items, ms, depth - 1);
    }
  }

  /** Mappings that do not target `children` leave it as the item had it. */
  lemma ChildrenSurvive(item: Value, ms: seq<KeyMapping>)
    requires forall j :: 0 <= j < |ms| ==> ms[j].newKey != "children"
    ensures ChildrenOf(ApplyMappings(OwnProperties(item), ms)) == CopyChild(item, "children")
  {
    var own := OwnProperties(item);
    ApplyMappingsFrame(own, ms);
    assert Copy(item) == Obj(own);
  }

  /** A parent with one leaf child copies at a depth of one frame, and
      its copy keeps `id` and gains `value`. */
  lemma CopyKeysReturnsExample()
    ensures var leaf := Obj(map["id" := Num(2)]);
            var root := Obj(map["id" := Num(1), "children" := Arr([leaf])]);
            var r := CopyKeysList([root], [CopyFrom("value", "id")], 1);
            && r.Returned? && |r.value| == 1
            && r.value[0].Obj? && "id" in r.value[0].props
  {
    var leaf := Obj(map["id" := Num(2)]);
    var root := Obj(map["id" := Num(1), "children" := Arr([leaf])]);
    var ms := [CopyFrom("value", "id")];
    assert CopyChild(leaf, "children") == Undefined;
    assert Shallow(leaf, 0);
    assert CopyChild(root, "children") == Arr([leaf]);
    assert [leaf][0] == leaf;
    assert Shallow(root, 1);
    CopyKeysReturns([root], ms, 1);
    CopyKeysShape([root], ms, 1);
    assert "id" in OwnProperties([root][0]);
  }

  /** `copyKeys(arrayToCopy, keyMappings)`, run with `depth` frames of stack. */
  method CopyKeys(items: seq<Value>, ms: seq<KeyMapping>, depth: nat) returns (r: Thrown<seq<Value>>)
    ensures r == CopyKeysList(items, ms, depth)
    decreases depth, 2, |items|
  {
    var out: seq<Value> := [];
    var i := 0;
    while i < |items|
      invariant 0 <= i <= |items|
      invariant |out| == i
      invariant forall j :: 0 <= j < i ==> CopyItem(items[j], ms, depth) == Returned(out[j])
    {
      var x := CopyOne(items[i], ms, depth);
      if !x.Returned? {
        CopyKeysListThrows(items, ms, depth, i);
        return Rethrow(x);
      }
      out := out + [x.value];
      i := i + 1;
    }
    CopyKeysListReturned(items, ms, depth, out);
    return Returned(out);
  }

  /** The `forEach` over the mappings, updating the spread copy in place. */
  method ApplyAll(item: map<string, Value>, ms: seq<KeyMapping>) returns (newItem: map<string, Value>)
    ensures newItem == ApplyMappings(item, ms)
  {
    newItem := item;
    var k := 0;
    while k < |ms|
      invariant 0 <= k <= |ms|
      invariant newItem == ApplyMappings(item, ms[..k])
    {
      assert ms[..k + 1][..k] == ms[..k];
      match ms[k] {
        case CopyFrom(newKey, key) =>
          if key in newItem {
            newItem := newItem[newKey := newItem[key]];
          }
        case Derive(newKey, derive) =>
          newItem := newItem[newKey := derive(Obj(newItem))];
      }
      k := k + 1;
    }
    assert ms[..|ms|] == ms;
  }

  /** The callback of `copyKeys`'s `map`, for one item. */
  method CopyOne(item: Value, ms: seq<KeyMapping>, depth: nat) returns (r: Thrown<Value>)
    ensures r == CopyItem(item, ms, depth)
    decreases depth, 1, 0
  {
    var newItem := ApplyAll(OwnProperties(item), ms);
    r := CopyChildren(newItem, ms, depth);
  }

  /** The `if` on `newItem.children`: a non-empty list is copied one call
      deeper and written back; the first exception ends the copy. */
  method CopyChildren(newItem: map<string, Value>, ms: seq<KeyMapping>, depth: nat) returns (r: Thrown<Value>)
    ensures r == WithChildren(newItem, ms, depth)
    decreases depth, 0, 0
  {
    var item := newItem;
    var children := ChildrenOf(item);
    if Truthy(children) && LengthPositive(children) {
      if !children.Arr? {
        return TypeError;
      }
      if depth == 0 {
        return RangeError;
      }
      var sub := CopyKeys(children.items, ms, depth - 1);
      if !sub.Returned? {
        return Rethrow(sub);
      }
      item := item["children" := Arr(sub.value)];
    }
    return Returned(Obj(item));
  }

  // ---------------------------------------------------------------------
  // isArray, hasType

  /** `isArray`: an object-typed value that is an array; the first test
      adds nothing, since every array is object-typed. */
  predicate IsArray(el: Value)
    ensures IsArray(el) <==> el.Arr?
  {
    IsObjectType(el) && el.Arr?
  }

  /** `hasType`, read as a boolean: a non-null object carrying every
      listed property (an array's indices and `length` included). */
  predicate HasType(obj: Value, properties: seq<string>)
    ensures HasType(obj, properties) ==> obj.Obj? || obj.Arr?
    ensures obj.Obj? || obj.Arr? ==>
              (HasType(obj, properties) <==> forall i :: 0 <= i < |properties| ==> HasProperty(obj, properties[i]))
  {
    Truthy(obj) && IsObjectType(obj) &&
    forall i :: 0 <= i < |properties| ==> HasProperty(obj, properties[i])
  }

  /** An empty property list accepts exactly the non-null objects; lists
      combine by conjunction; every array has a `length`. */
  lemma HasTypeFacts(v: Value, ps: seq<string>, qs: seq<string>)
    ensures IsArray(v) <==> v.Arr?
    ensures HasType(v, []) <==> v.Obj? || v.Arr?
    ensures HasType(v, ps + qs) <==> HasType(v, ps) && HasType(v, qs)
    ensures IsArray(v) ==> HasType(v, ["length"])
  {
    if HasType(v, ps) && HasType(v, qs) {
      forall i | 0 <= i < |ps + qs| ensures HasProperty(v, (ps + qs)[i]) {
        if i >= |ps| {
          assert (ps + qs)[i] == qs[i - |ps|];
        }
      }
    }
    if HasType(v, ps + qs) {
      forall i | 0 <= i < |ps| ensures HasProperty(v, ps[i]) {
        assert (ps + qs)[i] == ps[i];
      }
      forall i | 0 <= i < |qs| ensures HasProperty(v, qs[i]) {
        assert (ps + qs)[|ps| + i] == qs[i];
      }
    }
  }
}
