/**
 * The part of the Duktape engine that the binding layer relies on: a value
 * stack addressed by absolute or negative (top-relative) indices, a heap of
 * objects with named, hidden ("\xff"-prefixed) and index keys, a global
 * object, a global stash, enumerators over array indices and finalizers.
 * Parsing, evaluation and garbage collection are outside the model.
 */
module Engine {
  import opened Errors

  /** Property keys: plain strings, hidden "\xff"-prefixed strings, array indices. */
  datatype Key = Named(name: string) | Hidden(name: string) | Indexed(index: nat)

  /** The native C functions the binding layer pushes with duk_push_c_function. */
  datatype NativeFn =
    | MethodTrampoline | StaticTrampoline
    | ConstructorTrampoline | UniqueConstructorTrampoline
    | MethodFinalizer | StaticFinalizer
    | SharedFinalizer | UniqueFinalizer

  datatype Value =
    | Undefined
    | Null
    | Boolean(b: bool)
    | Number(n: int)
    | Text(s: string)
    | Pointer(addr: nat)               // duk_push_pointer; address 0 is NULL
    | Ref(id: nat)                              // an object of the engine heap
    | Enumerator(target: nat, indices: seq<nat>)  // duk_enum: the object and the indices still to be visited

  datatype Prop = Data(value: Value) | Accessor(getter: Value, setter: Option<Value>)

  datatype Kind = PlainObject | ArrayObject | Function(native: NativeFn, nargs: nat)

  /** `length` is one past the largest index key ever written (array semantics). */
  datatype Object = Object(kind: Kind, props: map<Key, Prop>, length: nat, finalizer: Option<Value>)

  function NewObject(kind: Kind): Object {
    Object(kind, map[], 0, None)
  }

  /** Reading a data property; a missing key or an accessor reads as undefined. */
  function Get(o: Object, k: Key): (v: Value)
    ensures k !in o.props ==> v == Undefined
  {
    if k in o.props && o.props[k].Data? then o.props[k].value else Undefined
  }

  function Put(o: Object, k: Key, v: Value): (r: Object)
    ensures Get(r, k) == v && r.kind == o.kind && r.finalizer == o.finalizer
    ensures forall k' :: k' != k ==> Get(r, k') == Get(o, k')
  {
    o.(props := o.props[k := Data(v)],
       length := if k.Indexed? && k.index >= o.length then k.index + 1 else o.length)
  }

  /** Heap `h` after writing `x` under `k` on the object `v` designates; writes to non-objects are dropped. */
  function PutIn(h: map<nat, Object>, v: Value, k: Key, x: Value): map<nat, Object> {
    if v.Ref? && v.id in h then h[v.id := Put(h[v.id], k, x)] else h
  }

  /** The index keys an array-indices-only enumeration visits, in ascending order. */
  function IndexKeys(o: Object, from: nat): (ks: seq<nat>)
    ensures forall i :: 0 <= i < |ks| ==> from <= ks[i] < o.length && Indexed(ks[i]) in o.props
    ensures forall i, j :: 0 <= i < j < |ks| ==> ks[i] < ks[j]
    decreases o.length - from
  {
    if from >= o.length then []
    else if Indexed(from) in o.props then [from] + IndexKeys(o, from + 1)
    else IndexKeys(o, from + 1)
  }

  /** No object reference beyond the next id to be allocated. */
  predicate Bounded(v: Value, n: nat) {
    (v.Ref? ==> v.id < n) && (v.Enumerator? ==> v.target < n)
  }

  predicate PropBounded(p: Prop, n: nat) {
    match p
    case Data(v) => Bounded(v, n)
    case Accessor(g, s) => Bounded(g, n) && (s.Some? ==> Bounded(s.value, n))
  }

  function DigitChar(d: nat): char
    requires d < 10
  {
    "0123456789"[d]
  }

  /** The decimal form of a natural number, most significant digit first. */
  function Decimal(n: nat): (s: string)
    ensures |s| >= 1
    decreases n
  {
    if n < 10 then [DigitChar(n)] else Decimal(n / 10) + [DigitChar(n % 10)]
  }

  /**
   * duk_safe_to_string: the string coercion of a value. A pointer and an
   * object are represented by a fixed form.
   */
  function SafeToString(v: Value): string {
    match v
    case Undefined => "undefined"
    case Null => "null"
    case Boolean(b) => if b then "true" else "false"
    case Number(n) => if n < 0 then "-" + Decimal(-n) else Decimal(n)
    case Text(s) => s
    case Pointer(_) => "[pointer]"
    case Ref(_) => "[object Object]"
    case Enumerator(_, _) => "[object Object]"
  }

  /**
   * A value whose properties can be read: anything but undefined and null.
   * Reading a property of undefined or null is a TypeError in the engine.
   */
  predicate Coercible(v: Value) {
    !v.Undefined? && !v.Null?
  }

  /** The messages of the engine's own TypeErrors. */
  const InvalidBase: string := "invalid base value"          // a property read of undefined or null, an existence check on a non-object
  const ObjectRequired: string := "object required"          // duk_enum on a non-object

  /** duk_get_pointer: NULL (0) unless the value is a pointer. */
  function PointerOf(v: Value): nat {
    if v.Pointer? then v.addr else 0
  }

  const IntMin: int := -0x8000_0000
  const IntMax: int := 0x7fff_ffff
  const UIntMax: int := 0xffff_ffff

  predicate IsInt32(n: int) { IntMin <= n <= IntMax }
  predicate IsUInt32(n: int) { 0 <= n <= UIntMax }

  function ClampInt(n: int): (r: int)
    ensures IsInt32(r) && (IsInt32(n) ==> r == n)
  {
    if n < IntMin then IntMin else if n > IntMax then IntMax else n
  }

  function ClampUInt(n: int): (r: int)
    ensures IsUInt32(r) && (IsUInt32(n) ==> r == n)
  {
    if n < 0 then 0 else if n > UIntMax then UIntMax else n
  }

  /** duk_get_int: a number clamped to the int range, 0 for anything else. */
  function IntOf(v: Value): (r: int)
    ensures IsInt32(r)
  {
    if v.Number? then ClampInt(v.n) else 0
  }

  class Duk {
    var stack: seq<Value>
    var heap: map<nat, Object>
    var nextId: nat
    const global: nat
    const stash: nat

    /**
     * The global object and the stash exist; the heap holds exactly the ids
     * allocated so far (nothing is collected); every reference on the stack
     * or in a property designates an allocated object.
     */
    ghost predicate Valid()
      reads this
    {
      global in heap && stash in heap && global != stash &&
      (forall id: nat :: id in heap <==> id < nextId) &&
      (forall i :: 0 <= i < |stack| ==> Bounded(stack[i], nextId)) &&
      (forall id, k :: id in heap && k in heap[id].props ==> PropBounded(heap[id].props[k], nextId))
    }

    /** duk_create_heap: an empty stack, a global object and a global stash. */
    constructor ()
      ensures Valid() && stack == []
      ensures heap == map[global := NewObject(PlainObject), stash := NewObject(PlainObject)]
    {
      global, stash := 0, 1;
      heap := map[0 := NewObject(PlainObject), 1 := NewObject(PlainObject)];
      nextId := 2;
      stack := [];
    }

    /** The absolute position of a stack index; negative indices count from the top. */
    function Abs(idx: int): int
      reads this
    {
      if idx < 0 then |stack| + idx else idx
    }

    predicate ValidIndex(idx: int)
      reads this
    {
      0 <= Abs(idx) < |stack|
    }

    function At(idx: int): Value
      reads this
      requires ValidIndex(idx)
    {
      stack[Abs(idx)]
    }

    /** The object a value designates; anything else reads as an empty object. */
    function Deref(v: Value): Object
      reads this
    {
      if v.Ref? && v.id in heap then heap[v.id] else NewObject(PlainObject)
    }

    function PropOf(v: Value, k: Key): Value
      reads this
    {
      Get(Deref(v), k)
    }

    /** The heap after writing `x` under `k` on the object `v` designates. */
    function Stored(v: Value, k: Key, x: Value): map<nat, Object>
      reads this
    {
      PutIn(heap, v, k, x)
    }

    /** duk_has_prop_string, which is a TypeError on anything but an object. */
    predicate HasProp(idx: int, k: Key)
      reads this
      requires ValidIndex(idx) && At(idx).Ref?
    {
      k in Deref(At(idx)).props
    }

    /** A value read from a property refers only to allocated objects. */
    lemma PropOfBounded(v: Value, k: Key)
      requires Valid()
      ensures Bounded(PropOf(v, k), nextId)
    {
      var o := Deref(v);
      if k in o.props && o.props[k].Data? {
        assert v.Ref? && v.id in heap && k in heap[v.id].props;
        assert PropBounded(heap[v.id].props[k], nextId);
      }
    }

    /** duk_push_* of a primitive value, or of an object already reachable. */
    method Push(v: Value)
      requires Valid() && Bounded(v, nextId)
      modifies this
      ensures Valid() && stack == old(stack) + [v]
      ensures heap == old(heap) && nextId == old(nextId)
    {
      stack := stack + [v];
    }

    /** duk_push_object / duk_push_array / duk_push_c_function: a fresh object on top. */
    method PushNew(kind: Kind) returns (idx: int)
      requires Valid()
      modifies this
      ensures Valid() && idx == |old(stack)| && old(nextId) !in old(heap)
      ensures stack == old(stack) + [Ref(old(nextId))]
      ensures heap == old(heap)[old(nextId) := NewObject(kind)] && nextId == old(nextId) + 1
    {
      idx := |stack|;
      heap := heap[nextId := NewObject(kind)];
      stack := stack + [Ref(nextId)];
      nextId := nextId + 1;
    }

    /** duk_pop_n (duk_pop is n = 1, duk_pop_2 is n = 2). */
    method PopN(n: nat)
      requires Valid() && n <= |stack|
      modifies this
      ensures Valid() && stack == old(stack)[..|old(stack)| - n]
      ensures heap == old(heap) && nextId == old(nextId)
    {
      stack := stack[..|stack| - n];
    }

    /**
     * duk_get_prop_string / duk_get_prop_index: pushes the property value.
     * The value at idx must not be undefined or null (the engine throws a
     * TypeError for those, so callers check Coercible first).
     */
    method GetProp(idx: int, k: Key)
      requires Valid() && ValidIndex(idx) && Coercible(At(idx))
      modifies this
      ensures Valid() && stack == old(stack) + [old(PropOf(At(idx), k))]
      ensures heap == old(heap) && nextId == old(nextId)
    {
      PropOfBounded(At(idx), k);
      stack := stack + [PropOf(At(idx), k)];
    }

    /** duk_put_prop_string / duk_put_prop_index: pops the top value into a property of the object at idx. */
    method PutProp(idx: int, k: Key)
      requires Valid() && ValidIndex(idx) && |stack| >= 1
      modifies this
      ensures Valid() && stack == old(stack)[..|old(stack)| - 1]
      ensures heap == old(Stored(At(idx), k, stack[|stack| - 1])) && nextId == old(nextId)
    {
      heap := Stored(At(idx), k, stack[|stack| - 1]);
      stack := stack[..|stack| - 1];
    }

    /** duk_del_prop_index. */
    method DelProp(idx: int, k: Key)
      requires Valid() && ValidIndex(idx)
      modifies this
      ensures Valid() && stack == old(stack) && nextId == old(nextId)
      ensures var v := old(At(idx));
        heap == if v.Ref? && v.id in old(heap)
                then old(heap)[v.id := old(heap)[v.id].(props := old(heap)[v.id].props - {k})]
                else old(heap)
    {
      var v := At(idx);
      if v.Ref? && v.id in heap {
        heap := heap[v.id := heap[v.id].(props := heap[v.id].props - {k})];
      }
    }

    /** duk_dup. */
    method Dup(idx: int)
      requires Valid() && ValidIndex(idx)
      modifies this
      ensures Valid() && stack == old(stack) + [old(At(idx))]
      ensures heap == old(heap) && nextId == old(nextId)
    {
      stack := stack + [At(idx)];
    }

    /** duk_swap_top. */
    method SwapTop(idx: int)
      requires Valid() && ValidIndex(idx)
      modifies this
      ensures Valid() && heap == old(heap) && nextId == old(nextId)
      ensures |stack| == |old(stack)|
      ensures stack == old(stack)[old(Abs(idx)) := old(stack)[|stack| - 1]][|stack| - 1 := old(At(idx))]
    {
      var i, top := Abs(idx), |stack| - 1;
      var x := stack[i];
      stack := stack[i := stack[top]][top := x];
    }

    /** duk_safe_to_string: replaces the value at idx by its string form and returns that string. */
    method SafeToStringAt(idx: int) returns (s: string)
      requires Valid() && ValidIndex(idx)
      modifies this
      ensures Valid() && heap == old(heap) && nextId == old(nextId)
      ensures s == SafeToString(old(At(idx))) && stack == old(stack)[old(Abs(idx)) := Text(s)]
    {
      s := SafeToString(At(idx));
      stack := stack[Abs(idx) := Text(s)];
    }

    /**
     * duk_def_prop with a getter (and a setter when `withSetter`): the key
     * string sits below the pushed functions; key and functions are popped.
     */
    method DefAccessor(idx: int, withSetter: bool)
      requires Valid() && ValidIndex(idx)
      requires |stack| >= (if withSetter then 3 else 2)
      requires stack[|stack| - (if withSetter then 3 else 2)].Text?
      modifies this
      ensures Valid() && nextId == old(nextId)
      ensures var n := if withSetter then 3 else 2;
        var base := |old(stack)| - n;
        var v := old(At(idx));
        var acc := Accessor(old(stack)[base + 1], if withSetter then Some(old(stack)[base + 2]) else None);
        stack == old(stack)[..base] &&
        heap == if v.Ref? && v.id in old(heap)
                then old(heap)[v.id := old(heap)[v.id].(props := old(heap)[v.id].props[Named(old(stack)[base].s) := acc])]
                else old(heap)
    {
      var n := if withSetter then 3 else 2;
      var base := |stack| - n;
      var v := At(idx);
      var acc := Accessor(stack[base + 1], if withSetter then Some(stack[base + 2]) else None);
      if v.Ref? && v.id in heap {
        heap := heap[v.id := heap[v.id].(props := heap[v.id].props[Named(stack[base].s) := acc])];
      }
      stack := stack[..base];
    }

    /** duk_set_finalizer: pops the function on top and makes it the finalizer of the object at idx. */
    method SetFinalizer(idx: int)
      requires Valid() && ValidIndex(idx) && |stack| >= 1
      modifies this
      ensures Valid() && nextId == old(nextId) && stack == old(stack)[..|old(stack)| - 1]
      ensures var v := old(At(idx));
        heap == if v.Ref? && v.id in old(heap)
                then old(heap)[v.id := old(heap)[v.id].(finalizer := Some(old(stack)[|old(stack)| - 1]))]
                else old(heap)
    {
      var v := At(idx);
      if v.Ref? && v.id in heap {
        heap := heap[v.id := heap[v.id].(finalizer := Some(stack[|stack| - 1]))];
      }
      stack := stack[..|stack| - 1];
    }

    /**
     * duk_enum with DUK_ENUM_ARRAY_INDICES_ONLY: an enumerator over the index
     * keys present now. The value at idx must be an object (the engine throws
     * a TypeError for anything else, so callers check first).
     */
    method EnumIndices(idx: int)
      requires Valid() && ValidIndex(idx) && At(idx).Ref?
      modifies this
      ensures Valid() && heap == old(heap) && nextId == old(nextId)
      ensures var v := old(At(idx));
        v.id in heap && stack == old(stack) + [Enumerator(v.id, IndexKeys(heap[v.id], 0))]
    {
      var v := At(idx);
      assert Bounded(stack[Abs(idx)], nextId);
      stack := stack + [Enumerator(v.id, IndexKeys(heap[v.id], 0))];
    }

    /**
     * duk_next with get_value: when indices remain, advances the enumerator
     * and pushes the key and the current value; otherwise pushes nothing.
     */
    method Next(idx: int) returns (more: bool)
      requires Valid() && ValidIndex(idx) && At(idx).Enumerator?
      modifies this
      ensures Valid() && heap == old(heap) && nextId == old(nextId)
      ensures var e := old(At(idx));
        more == (e.indices != []) &&
        stack == if more
                 then old(stack)[old(Abs(idx)) := Enumerator(e.target, e.indices[1..])] +
                      [Number(e.indices[0]), old(PropOf(Ref(e.target), Indexed(e.indices[0])))]
                 else old(stack)
    {
      var i := Abs(idx);
      var e := stack[i];
      more := e.indices != [];
      if more {
        PropOfBounded(Ref(e.target), Indexed(e.indices[0]));
        stack := stack[i := Enumerator(e.target, e.indices[1..])] +
                 [Number(e.indices[0]), PropOf(Ref(e.target), Indexed(e.indices[0]))];
      }
    }

    /**
     * The engine entering a native function: the callee's frame holds
     * exactly its arguments (index 0 is the first); the caller's frame is
     * set aside.
     */
    method Enter(args: seq<Value>) returns (caller: seq<Value>)
      requires Valid() && forall i :: 0 <= i < |args| ==> Bounded(args[i], nextId)
      modifies this
      ensures Valid() && caller == old(stack) && stack == args
      ensures heap == old(heap) && nextId == old(nextId)
    {
      caller := stack;
      stack := args;
    }

    /** The native function returning `nret` values: they are moved from the top of its frame to the caller's. */
    method Leave(caller: seq<Value>, nret: nat)
      requires Valid() && nret <= |stack| && forall i :: 0 <= i < |caller| ==> Bounded(caller[i], nextId)
      modifies this
      ensures Valid() && stack == caller + old(stack)[|old(stack)| - nret..]
      ensures heap == old(heap) && nextId == old(nextId)
    {
      stack := caller + stack[|stack| - nret..];
    }

    /**
     * duk_pcall as far as the stack is concerned: the function and its
     * `nargs` arguments are replaced by one value, what the call returned
     * or the error it threw. What the called script does is not modelled.
     */
    method CallResult(nargs: nat, result: Value)
      requires Valid() && nargs < |stack| && Bounded(result, nextId)
      modifies this
      ensures Valid() && stack == old(stack)[..|old(stack)| - nargs - 1] + [result]
      ensures heap == old(heap) && nextId == old(nextId)
    {
      stack := stack[..|stack| - nargs - 1] + [result];
    }
  }
}
