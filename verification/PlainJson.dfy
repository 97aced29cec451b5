/**
 The cycle check on protocol error details: an iterative depth-first search over an
 arbitrary graph of language values.

 The graph may be cyclic and may share children. `Check` is the recursive form of the
 search; `PlainGraph` says in terms of paths what is accepted.
 */
module PlainJson {
  import opened Wrappers

  /** The identity of an array or object. */
  type Ref = nat

  /** `Other` stands for undefined, functions, symbols and big integers. */
  datatype Value = Null | Text | Flag | Number(finite: bool) | Container(ref: Ref) | Other

  datatype Key = Index(index: nat) | Length | Name(name: string) | Symbol(id: nat)

  datatype Property = Data(value: Value, enumerable: bool) | Accessor(enumerable: bool)

  datatype Prototype = ArrayPrototype | ObjectPrototype | NoPrototype | OtherPrototype

  /** `Hostile` objects throw when inspected, as a revoked proxy does. */
  datatype Object =
    | Array(prototype: Prototype, length: nat, keys: seq<Key>, properties: map<Key, Property>)
    | Record(prototype: Prototype, keys: seq<Key>, properties: map<Key, Property>)
    | Hostile
  {
    /** What the language guarantees of own keys. */
    ghost predicate WellFormed() {
      !Hostile? ==>
        && (forall i, j | 0 <= i < j < |keys| :: keys[i] != keys[j])
        && (forall key :: key in keys <==> key in properties)
        && (Array? ==> Length in keys)
    }
  }

  type Heap = map<Ref, Object>

  // ----- plain containers

  predicate PlainProperty(properties: map<Key, Property>, key: Key) {
    key in properties && properties[key].Data? && properties[key].enumerable
  }

  function PropertyValue(properties: map<Key, Property>, key: Key): Value
    requires PlainProperty(properties, key)
  {
    properties[key].value
  }

  /** An ordinary array has no holes, no accessors and no own key besides its indices and length. */
  predicate PlainArray(o: Object)
    requires o.Array?
  {
    && o.prototype == ArrayPrototype
    && (forall i | 0 <= i < o.length :: PlainProperty(o.properties, Index(i)))
    && (forall key <- o.keys :: key == Length || (key.Index? && key.index < o.length))
  }

  predicate PlainRecord(o: Object)
    requires o.Record?
  {
    && (o.prototype == ObjectPrototype || o.prototype == NoPrototype)
    && forall key <- o.keys :: !key.Symbol? && PlainProperty(o.properties, key)
  }

  /** The children of a plain container, in order; nothing for any other object. */
  function ChildrenOf(o: Object): Option<seq<Value>> {
    match o
    case Array(_, length, _, properties) =>
      if !PlainArray(o) then None
      else Some(seq(length, (i: nat) requires i < length && PlainProperty(properties, Index(i)) =>
                              PropertyValue(properties, Index(i))))
    case Record(_, keys, properties) =>
      if !PlainRecord(o) then None
      else Some(seq(|keys|, (i: nat) requires i < |keys| && PlainProperty(properties, keys[i]) =>
                              PropertyValue(properties, keys[i])))
    case Hostile => None
  }

  function ChildrenAt(heap: Heap, ref: Ref): Option<seq<Value>> {
    if ref in heap then ChildrenOf(heap[ref]) else None
  }

  function IndexKeys(n: nat): seq<Key> { seq(n, (i: nat) => Index(i)) }

  function KeySet(keys: seq<Key>): set<Key> { set key <- keys }

  lemma {:induction false} DistinctKeysCount(keys: seq<Key>)
    requires forall i, j | 0 <= i < j < |keys| :: keys[i] != keys[j]
    ensures |KeySet(keys)| == |keys|
  {
    if keys != [] {
      var last, rest := keys[|keys| - 1], keys[..|keys| - 1];
      DistinctKeysCount(rest);
      assert KeySet(keys) == KeySet(rest) + {last};
    }
  }

  /** Counting keys is enough: an array with length + 1 own keys that include its length and
      all its indices has no other key. */
  lemma ArrayKeysByCount(o: Object)
    requires o.Array? && o.WellFormed()
    requires forall i | 0 <= i < o.length :: Index(i) in o.properties
    ensures |o.keys| == o.length + 1 <==>
            forall key <- o.keys :: key == Length || (key.Index? && key.index < o.length)
  {
    var expected := IndexKeys(o.length) + [Length];
    DistinctKeysCount(o.keys);
    DistinctKeysCount(expected);
    forall key | key in KeySet(expected) ensures key in KeySet(o.keys) {
      if key != Length { assert 0 <= key.index < o.length; }
    }
    if |o.keys| == o.length + 1 {
      SameSize(KeySet(expected), KeySet(o.keys));
      forall key | key in o.keys ensures key == Length || (key.Index? && key.index < o.length) {
        assert key in KeySet(expected);
      }
    } else if forall key <- o.keys :: key == Length || (key.Index? && key.index < o.length) {
      forall key | key in KeySet(o.keys) ensures key in KeySet(expected) {
        if key != Length { assert expected[key.index] == key; } else { assert expected[o.length] == key; }
      }
      assert KeySet(o.keys) == KeySet(expected);
    }
  }

  lemma SameSize(small: set<Key>, large: set<Key>)
    requires small <= large && |small| == |large|
    ensures small == large
  {
    assert |large - small| == |large| - |small|;
  }

  method PlainArrayValues(o: Object) returns (r: Option<seq<Value>>)
    requires o.Array? && o.WellFormed()
    ensures r == ChildrenOf(o)
  {
    if o.prototype != ArrayPrototype { return None; }
    if |o.keys| != o.length + 1 || Length !in o.keys {
      if forall i | 0 <= i < o.length :: PlainProperty(o.properties, Index(i)) { ArrayKeysByCount(o); }
      return None;
    }
    var values := [];
    for index := 0 to o.length
      invariant |values| == index
      invariant forall i | 0 <= i < index :: PlainProperty(o.properties, Index(i)) && values[i] == PropertyValue(o.properties, Index(i))
    {
      if !PlainProperty(o.properties, Index(index)) { return None; }
      values := values + [PropertyValue(o.properties, Index(index))];
    }
    ArrayKeysByCount(o);
    assert values == ChildrenOf(o).value;
    return Some(values);
  }

  method PlainObjectValues(o: Object) returns (r: Option<seq<Value>>)
    requires o.Record? && o.WellFormed()
    ensures r == ChildrenOf(o)
  {
    if o.prototype != ObjectPrototype && o.prototype != NoPrototype { return None; }
    var values := [];
    for index := 0 to |o.keys|
      invariant |values| == index
      invariant forall i | 0 <= i < index ::
                  !o.keys[i].Symbol? && PlainProperty(o.properties, o.keys[i]) && values[i] == PropertyValue(o.properties, o.keys[i])
    {
      var key := o.keys[index];
      if key.Symbol? || !PlainProperty(o.properties, key) { return None; }
      values := values + [PropertyValue(o.properties, key)];
    }
    assert values == ChildrenOf(o).value;
    return Some(values);
  }

  // ----- what is accepted

  /** The value itself may occur: a JSON scalar or a plain container. */
  predicate LocallyPlain(heap: Heap, v: Value) {
    match v
    case Null | Text | Flag => true
    case Number(finite) => finite
    case Container(ref) => ChildrenAt(heap, ref).Some?
    case Other => false
  }

  predicate Edge(heap: Heap, from: Value, to: Value) {
    from.Container? && ChildrenAt(heap, from.ref).Some? && to in ChildrenAt(heap, from.ref).value
  }

  ghost predicate Path(heap: Heap, p: seq<Value>) {
    p != [] && forall i | 0 <= i < |p| - 1 :: Edge(heap, p[i], p[i + 1])
  }

  ghost predicate NoContainerTwice(p: seq<Value>) {
    forall i, j | 0 <= i < j < |p| && p[i].Container? :: p[i] != p[j]
  }

  /** Every value reachable from v may occur, and no directed cycle is reachable. */
  ghost predicate PlainGraph(heap: Heap, v: Value) {
    forall p | Path(heap, p) && p[0] == v :: LocallyPlain(heap, p[|p| - 1]) && NoContainerTwice(p)
  }

  // ----- the recursive search

  /** The search below the containers in `active`; meeting one of them again is a cycle. */
  predicate Check(heap: Heap, v: Value, active: set<Ref>)
    decreases heap.Keys - active
  {
    LocallyPlain(heap, v)
    && (v.Container? ==>
          v.ref !in active && forall child <- ChildrenAt(heap, v.ref).value :: Check(heap, child, active + {v.ref}))
  }

  predicate CheckAll(heap: Heap, vs: seq<Value>, active: set<Ref>) {
    forall v <- vs :: Check(heap, v, active)
  }

  ghost predicate GoodPath(heap: Heap, p: seq<Value>, active: set<Ref>)
    requires p != []
  {
    LocallyPlain(heap, p[|p| - 1]) && NoContainerTwice(p) && forall u: Value <- p :: u.Container? ==> u.ref !in active
  }

  lemma {:induction false} CheckedPathsAreGood(heap: Heap, v: Value, active: set<Ref>, p: seq<Value>)
    requires Check(heap, v, active) && Path(heap, p) && p[0] == v
    ensures GoodPath(heap, p, active)
    decreases |p|
  {
    if |p| > 1 {
      assert Edge(heap, p[0], p[1]);
      var tail := p[1..];
      forall i | 0 <= i < |tail| - 1 ensures Edge(heap, tail[i], tail[i + 1]) {
        var k := i + 1;
        assert Edge(heap, p[k], p[k + 1]);
      }
      CheckedPathsAreGood(heap, p[1], active + {v.ref}, tail);
      forall i, j | 0 <= i < j < |p| && p[i].Container? ensures p[i] != p[j] {
        assert p[j] == tail[j - 1];
        if i > 0 { assert p[i] == tail[i - 1]; }
      }
      assert forall u: Value <- p :: u == v || u in tail;
    }
  }

  lemma {:induction false} GoodPathsAreChecked(heap: Heap, v: Value, active: set<Ref>)
    requires forall p | Path(heap, p) && p[0] == v :: GoodPath(heap, p, active)
    ensures Check(heap, v, active)
    decreases heap.Keys - active
  {
    assert Path(heap, [v]) && [v][0] == v && v in [v];
    assert GoodPath(heap, [v], active);
    if v.Container? {
      forall child | child in ChildrenAt(heap, v.ref).value ensures Check(heap, child, active + {v.ref}) {
        forall q: seq<Value> | Path(heap, q) && q[0] == child ensures GoodPath(heap, q, active + {v.ref}) {
          var p := [v] + q;
          forall i | 0 <= i < |p| - 1 ensures Edge(heap, p[i], p[i + 1]) {
            var k := i - 1;
            if i > 0 { assert Edge(heap, q[k], q[k + 1]); }
          }
          assert GoodPath(heap, p, active);
          forall i, j | 0 <= i < j < |q| && q[i].Container? ensures q[i] != q[j] {
            assert p[i + 1] == q[i] && p[j + 1] == q[j];
          }
          forall u | u in q && u.Container? ensures u.ref !in active + {v.ref} {
            var k :| 0 <= k < |q| && q[k] == u;
            assert p[0] == v && p[k + 1] == u;
          }
        }
        GoodPathsAreChecked(heap, child, active + {v.ref});
      }
    }
  }

  /** The recursive search accepts exactly the plain graphs. */
  lemma CheckDecidesPlainGraph(heap: Heap, v: Value)
    ensures Check(heap, v, {}) <==> PlainGraph(heap, v)
  {
    if Check(heap, v, {}) {
      forall p | Path(heap, p) && p[0] == v ensures LocallyPlain(heap, p[|p| - 1]) && NoContainerTwice(p) {
        CheckedPathsAreGood(heap, v, {}, p);
      }
    }
    if PlainGraph(heap, v) {
      forall p | Path(heap, p) && p[0] == v ensures GoodPath(heap, p, {}) {}
      GoodPathsAreChecked(heap, v, {});
    }
  }

  // ----- the explicit stack

  /** `Exit(ref)` lies below the frames of the children of `ref`. */
  datatype Frame = Enter(value: Value) | Exit(ref: Ref)

  function FrameValue(frame: Frame): Value {
    match frame case Enter(v) => v case Exit(ref) => Container(ref)
  }

  /** The containers being visited, outermost first: the exit frames from the bottom up. */
  function ActivePath(stack: seq<Frame>): seq<Value> {
    if stack == [] then []
    else
      var top := stack[|stack| - 1];
      ActivePath(stack[..|stack| - 1]) + if top.Exit? then [Container(top.ref)] else []
  }

  function Exits(stack: seq<Frame>): set<Ref> {
    if stack == [] then {}
    else
      var top := stack[|stack| - 1];
      Exits(stack[..|stack| - 1]) + if top.Exit? then {top.ref} else {}
  }

  /** What remains to be found out: each waiting value passes below the exits underneath it. */
  predicate Pending(heap: Heap, stack: seq<Frame>) {
    stack != [] ==>
      var top, below := stack[|stack| - 1], stack[..|stack| - 1];
      Pending(heap, below) && (top.Enter? ==> Check(heap, top.value, Exits(below)))
  }

  /** Every frame stands under the innermost active container beneath it. */
  ghost predicate UnderActivePath(heap: Heap, stack: seq<Frame>, root: Value) {
    stack != [] ==>
      var top, below := stack[|stack| - 1], stack[..|stack| - 1];
      var path := ActivePath(below);
      && UnderActivePath(heap, below, root)
      && (if path == [] then FrameValue(top) == root else Edge(heap, path[|path| - 1], FrameValue(top)))
      && (top.Exit? ==> top.ref !in Exits(below))
  }

  /** The exit frames are a path of the graph that starts at the root and visits no container twice. */
  lemma {:induction false} ExitsAreActivePath(heap: Heap, stack: seq<Frame>, root: Value)
    requires UnderActivePath(heap, stack, root)
    ensures var path := ActivePath(stack);
            && (path != [] ==> Path(heap, path) && path[0] == root)
            && NoContainerTwice(path)
            && (forall u: Value <- path :: u.Container? && u.ref in Exits(stack))
            && (forall ref <- Exits(stack) :: Container(ref) in path)
    decreases |stack|
  {
    if stack != [] {
      var top, below := stack[|stack| - 1], stack[..|stack| - 1];
      ExitsAreActivePath(heap, below, root);
      if top.Exit? {
        var path := ActivePath(below);
        assert forall i | 0 <= i < |path| :: path[i] != Container(top.ref);
      }
    }
  }

  /** The frames a search from v still has to process, counting v's own. */
  function Work(heap: Heap, v: Value, active: set<Ref>): nat
    decreases heap.Keys - active, 1
  {
    if v.Container? && v.ref !in active && v.ref in heap && ChildrenAt(heap, v.ref).Some?
    then 2 + WorkOfAll(heap, ChildrenAt(heap, v.ref).value, active + {v.ref})
    else 1
  }

  function WorkOfAll(heap: Heap, vs: seq<Value>, active: set<Ref>): nat
    decreases heap.Keys - active, 2, |vs|
  {
    if vs == [] then 0 else Work(heap, vs[0], active) + WorkOfAll(heap, vs[1..], active)
  }

  lemma OneMore(heap: Heap, vs: seq<Value>, index: nat, active: set<Ref>)
    requires index < |vs|
    ensures CheckAll(heap, vs[index..], active) <==> Check(heap, vs[index], active) && CheckAll(heap, vs[index + 1..], active)
    ensures WorkOfAll(heap, vs[index..], active) == Work(heap, vs[index], active) + WorkOfAll(heap, vs[index + 1..], active)
  {
    assert vs[index..] == [vs[index]] + vs[index + 1..];
    assert vs[index..][1..] == vs[index + 1..];
  }

  function StackWork(heap: Heap, stack: seq<Frame>): nat {
    if stack == [] then 0
    else
      var top, below := stack[|stack| - 1], stack[..|stack| - 1];
      StackWork(heap, below) + if top.Enter? then Work(heap, top.value, Exits(below)) else 1
  }

  function Innermost(path: seq<Value>): Value
    requires path != []
  {
    path[|path| - 1]
  }

  /** `stack` is `base` with the waiting values vs on top. */
  ghost predicate Grown(heap: Heap, base: seq<Frame>, stack: seq<Frame>, vs: seq<Value>, root: Value) {
    && UnderActivePath(heap, stack, root)
    && ActivePath(stack) == ActivePath(base) && Exits(stack) == Exits(base)
    && (Pending(heap, stack) <==> Pending(heap, base) && CheckAll(heap, vs, Exits(base)))
    && StackWork(heap, stack) == StackWork(heap, base) + WorkOfAll(heap, vs, Exits(base))
  }

  lemma GrowByChild(heap: Heap, base: seq<Frame>, stack: seq<Frame>, children: seq<Value>, index: nat, root: Value)
    requires index < |children| && Grown(heap, base, stack, children[index + 1..], root)
    requires ActivePath(base) != [] && Edge(heap, Innermost(ActivePath(base)), children[index])
    ensures Grown(heap, base, stack + [Enter(children[index])], children[index..], root)
  {
    hide Edge, CheckAll;
    OneMore(heap, children, index, Exits(base));
    var pushed := stack + [Enter(children[index])];
    assert pushed[..|pushed| - 1] == stack;
  }

  /** Puts the children on the stack, the first one on top. */
  method PushChildren(heap: Heap, base: seq<Frame>, children: seq<Value>, ghost root: Value) returns (stack: seq<Frame>)
    requires UnderActivePath(heap, base, root) && ActivePath(base) != []
    requires forall child <- children :: Edge(heap, Innermost(ActivePath(base)), child)
    ensures Grown(heap, base, stack, children, root)
  {
    stack := base;
    var index: nat := |children|;
    assert children[index..] == [];
    while index > 0
      invariant index <= |children| && Grown(heap, base, stack, children[index..], root)
    {
      index := index - 1;
      GrowByChild(heap, base, stack, children, index, root);
      stack := stack + [Enter(children[index])];
    }
    assert children[0..] == children;
  }

  /** What holds whenever a frame is about to be popped. */
  ghost predicate Searching(heap: Heap, stack: seq<Frame>, active: set<Ref>, root: Value) {
    && (Pending(heap, stack) <==> Check(heap, root, {}))
    && UnderActivePath(heap, stack, root)
    && active == Exits(stack)
  }

  lemma PopExit(heap: Heap, below: seq<Frame>, ref: Ref, active: set<Ref>, root: Value)
    requires Searching(heap, below + [Exit(ref)], active, root)
    ensures Searching(heap, below, active - {ref}, root)
    ensures StackWork(heap, below) < StackWork(heap, below + [Exit(ref)])
  {
    var stack := below + [Exit(ref)];
    assert stack[..|stack| - 1] == below;
  }

  lemma PopScalar(heap: Heap, below: seq<Frame>, v: Value, active: set<Ref>, root: Value)
    requires Searching(heap, below + [Enter(v)], active, root) && !v.Container?
    ensures if LocallyPlain(heap, v) then Searching(heap, below, active, root) else !Check(heap, root, {})
    ensures StackWork(heap, below) < StackWork(heap, below + [Enter(v)])
  {
    var stack := below + [Enter(v)];
    assert stack[..|stack| - 1] == below;
  }

  lemma PopRejected(heap: Heap, below: seq<Frame>, ref: Ref, active: set<Ref>, root: Value)
    requires Searching(heap, below + [Enter(Container(ref))], active, root)
    requires ref in active || ChildrenAt(heap, ref).None?
    ensures !Check(heap, root, {})
  {
    var stack := below + [Enter(Container(ref))];
    assert stack[..|stack| - 1] == below;
  }

  /** Replacing a container by its exit frame, which is then ready to receive its children. */
  lemma EnterContainer(heap: Heap, below: seq<Frame>, ref: Ref, active: set<Ref>, root: Value)
    requires Searching(heap, below + [Enter(Container(ref))], active, root)
    requires ref !in active && ChildrenAt(heap, ref).Some?
    ensures var children, base := ChildrenAt(heap, ref).value, below + [Exit(ref)];
            && UnderActivePath(heap, base, root) && ActivePath(base) == ActivePath(below) + [Container(ref)]
            && Exits(base) == active + {ref}
            && (Check(heap, root, {}) <==> Pending(heap, base) && CheckAll(heap, children, Exits(base)))
            && StackWork(heap, below + [Enter(Container(ref))]) == StackWork(heap, base) + WorkOfAll(heap, children, Exits(base)) + 1
            && forall child <- children :: Edge(heap, Innermost(ActivePath(base)), child)
  {
    var base, waiting := below + [Exit(ref)], below + [Enter(Container(ref))];
    assert base[..|base| - 1] == below && waiting[..|waiting| - 1] == below;
  }

  /** Terminates on every finite graph, cyclic ones included, and accepts exactly the plain graphs. */
  method IsPlainJsonValue(heap: Heap, value: Value) returns (r: bool)
    requires forall ref <- heap :: heap[ref].WellFormed()
    ensures r <==> PlainGraph(heap, value)
  {
    CheckDecidesPlainGraph(heap, value);
    var activeContainers: set<Ref> := {};
    var stack := [Enter(value)];
    assert stack[..0] == [];
    while stack != []
      invariant Searching(heap, stack, activeContainers, value)
      decreases StackWork(heap, stack)
    {
      var frame := stack[|stack| - 1];
      assert stack == stack[..|stack| - 1] + [frame];
      stack := stack[..|stack| - 1];
      match frame
      case Exit(ref) =>
        PopExit(heap, stack, ref, activeContainers, value);
        activeContainers := activeContainers - {ref};
      case Enter(current) =>
        if !current.Container? {
          PopScalar(heap, stack, current, activeContainers, value);
          if !LocallyPlain(heap, current) { return false; }
        } else {
          var ref := current.ref;
          var children := None;
          if ref !in activeContainers && ref in heap {
            children := Inspect(heap[ref]);
          }
          if children.None? {
            PopRejected(heap, stack, ref, activeContainers, value);
            return false;
          }
          EnterContainer(heap, stack, ref, activeContainers, value);
          activeContainers := activeContainers + {ref};
          stack := PushChildren(heap, stack + [Exit(ref)], children.value, value);
        }
    }
    return true;
  }

  /** A thrown exception is caught and rejects the value, like an object that is not plain. */
  method Inspect(o: Object) returns (r: Option<seq<Value>>)
    requires o.WellFormed()
    ensures r == ChildrenOf(o)
  {
    match o
    case Array(_, _, _, _) => r := PlainArrayValues(o);
    case Record(_, _, _) => r := PlainObjectValues(o);
    case Hostile => r := None;
  }
}
