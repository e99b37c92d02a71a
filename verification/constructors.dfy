/**
 * Script-visible constructors. `construct` on a PushConstructorInspector
 * pushes a native function whose hidden `func_ptr` is the C++ factory; a
 * `new` call of it reads the arguments from the frame, calls the factory and
 * pushes the resulting shared or unique pointer with that codec. The static
 * members a constructor inspector defines on the function on top of the
 * stack are here as well.
 */
module Constructors {
  import opened Errors
  import opened Engine
  import opened ClassInfo
  import opened Scalars
  import opened Inspection
  import opened Boxes
  import opened Bridge
  import opened Codecs
  import opened Methods
  import opened ObjectInspector
  import opened Pointers

  const FuncPtr: Key := Hidden("func_ptr")

  const NewMessage: string := "Constructor must be called with 'new'."

  /** The trampoline for each factory kind: Constructor<C, A...>::func or ConstructorUnique<C, A...>::func. */
  function ConstructorTrampolineOf(kind: FactoryKind): NativeFn {
    if kind == SharedFactory then ConstructorTrampoline else UniqueConstructorTrampoline
  }

  function OwnershipOf(kind: FactoryKind): Ownership {
    if kind == SharedFactory then SharedOwner else UniqueOwner
  }

  function BoxKeyOf(kind: FactoryKind): Key {
    if kind == SharedFactory then SptrKey else UptrKey
  }

  function FinalizerFor(kind: FactoryKind): NativeFn {
    if kind == SharedFactory then SharedFinalizer else UniqueFinalizer
  }

  /** The factory address stored on a constructor function. */
  function FactoryOf(h: map<nat, Object>, callee: Value): nat {
    PointerOf(Get(ObjectIn(h, callee), FuncPtr))
  }

  /** The constructor's parameters, all read by value with their codecs. */
  function ScalarParams(ts: seq<ScalarType>): (ps: seq<Param>)
    ensures |ps| == |ts| && forall i :: 0 <= i < |ts| ==> ps[i] == ScalarParam(ts[i])
  {
    if ts == [] then [] else [ScalarParam(ts[0])] + ScalarParams(ts[1..])
  }

  /** A constructor function as pushed: the kind's trampoline of arity |A|, `func_ptr` the factory, no finalizer. */
  function ConstructorObject(kind: FactoryKind, nargs: nat, factory: nat): Object {
    Object(Function(ConstructorTrampolineOf(kind), nargs), map[FuncPtr := Data(Pointer(factory))], 0, None)
  }

  /**
   * Constructor<C, A...>::push and ConstructorUnique<C, A...>::push: a
   * native function of arity |A| whose `func_ptr` is the (non-null) factory,
   * with no finalizer: the factory is a plain function and owns nothing.
   */
  method PushConstructor(d: Duk, kind: FactoryKind, factory: nat, nargs: nat) returns (fidx: nat)
    requires d.Valid() && factory != 0
    modifies d
    ensures d.Valid() && fidx == |old(d.stack)| && d.stack == old(d.stack) + [Ref(old(d.nextId))]
    ensures old(d.nextId) !in old(d.heap) && d.nextId == old(d.nextId) + 1
    ensures d.heap == old(d.heap)[old(d.nextId) := ConstructorObject(kind, nargs, factory)]
    ensures FactoryOf(d.heap, Ref(old(d.nextId))) == factory
  {
    ghost var id := d.nextId;
    fidx := d.PushNew(Function(ConstructorTrampolineOf(kind), nargs));
    d.Push(Pointer(factory));
    d.PutProp(-2, FuncPtr);
    assert d.heap[id].props == map[FuncPtr := Data(Pointer(factory))];
  }

  /**
   * ConstructorDispatcher::dispatch after the call: the factory's pointer is
   * pushed with its codec. An empty shared pointer is pushed as null; an
   * empty unique pointer fails the codec's assertion. The box is typed by
   * `typing`, as the codec's push types it.
   */
  method PushConstructed(ctx: Context, natives: ClosureHeap, typing: BoxTyping, r: Registry, ds: Declarations,
                         kind: FactoryKind, cls: TypeId, p: Option<Instance>) returns (res: Result<int>)
    requires ctx.Valid() && ctx.duk != null && natives.Valid() && WellFormed(r) && Inspectable(r, ds, cls)
    modifies ctx, ctx.duk, natives
    ensures ctx.Valid() && ctx.duk == old(ctx.duk) && natives.Valid()
    ensures ctx.objectRefCounter == old(ctx.objectRefCounter) && ctx.scriptId == old(ctx.scriptId)
    ensures forall j :: j in old(ctx.duk.heap) ==> j in ctx.duk.heap && ctx.duk.heap[j] == old(ctx.duk.heap[j])
    ensures kind == UniqueFactory && p.None? ==>
      res == Err(Abort("value")) && ctx.duk.stack == old(ctx.duk.stack) && ctx.boxes == old(ctx.boxes)
    ensures kind == SharedFactory && p.None? ==>
      res == Ok(1) && ctx.duk.stack == old(ctx.duk.stack) + [Null] && ctx.boxes == old(ctx.boxes)
    ensures p.Some? ==>
      var key := old(ctx.boxCounter) + 1;
      res == Ok(1) && ctx.duk.stack == old(ctx.duk.stack) + [Ref(old(ctx.duk.nextId))] &&
      ctx.boxes == old(ctx.boxes)[key := Box(OwnershipOf(kind), ElemOf(typing, r, cls), p)] &&
      Wrapper(ctx.duk.heap, natives.holders, old(ctx.duk.nextId), BoxKeyOf(kind), key, p.value.addr,
              FinalizerFor(kind), Inspect(r, ds, cls))
  {
    if kind == SharedFactory {
      PushShared(ctx, natives, typing, r, ds, cls, p);
      res := Ok(1);
    } else {
      var pushed := PushUnique(ctx, natives, typing, r, ds, cls, p);
      res := if pushed.Ok? then Ok(1) else Err(pushed.error);
    }
  }

  /**
   * ConstructorDispatcher<0, C, A...>::dispatch in a frame holding exactly
   * the arguments: argument k from slot k, read in the unspecified `order`
   * the compiler picks for the factory call's arguments, the factory at
   * address f called on them, its pointer pushed. A failed argument leaves
   * everything alone.
   */
  method DispatchConstructor(ctx: Context, natives: ClosureHeap, typing: BoxTyping, r: Registry, ds: Declarations,
                             kind: FactoryKind, cls: TypeId, params: seq<ScalarType>, order: seq<nat>, f: nat,
                             make: (nat, seq<Arg>) -> Option<Instance>) returns (res: Result<int>)
    requires ctx.Valid() && ctx.duk != null && natives.Valid() && WellFormed(r) && Inspectable(r, ds, cls)
    requires |ctx.duk.stack| == |params| && EvalOrder(order, |params|)
    modifies ctx, ctx.duk, natives
    ensures ctx.Valid() && ctx.duk == old(ctx.duk) && natives.Valid()
    ensures var args := ReadArgs(ScalarParams(params), old(ctx.duk.stack), old(ctx.duk.heap), order);
      (args.Err? ==> res == Err(args.error) && ctx.duk.stack == old(ctx.duk.stack) && ctx.boxes == old(ctx.boxes)) &&
      (args.Ok? ==>
        var p := make(f, args.value);
        (kind == UniqueFactory && p.None? ==>
          res == Err(Abort("value")) && ctx.duk.stack == old(ctx.duk.stack) && ctx.boxes == old(ctx.boxes)) &&
        (kind == SharedFactory && p.None? ==>
          res == Ok(1) && ctx.duk.stack == old(ctx.duk.stack) + [Null] && ctx.boxes == old(ctx.boxes)) &&
        (p.Some? ==>
          res == Ok(1) && ctx.duk.stack == old(ctx.duk.stack) + [Ref(old(ctx.duk.nextId))] &&
          ctx.boxes == old(ctx.boxes)[old(ctx.boxCounter) + 1 := Box(OwnershipOf(kind), ElemOf(typing, r, cls), p)]))
  {
    var d := ctx.duk;
    var ps := ScalarParams(params);
    var args := GetArgs(d, ps, order);
    if args.Err? {
      return Err(args.error);
    }
    res := PushConstructed(ctx, natives, typing, r, ds, kind, cls, make(f, args.value));
  }

  /**
   * Constructor<C, A...>::func and ConstructorUnique<C, A...>::func, with
   * `callee` the function being called. In order: a plain call raises
   * duk_error with DUK_RET_TYPE_ERROR, a code that names no error class, so
   * the script sees a plain Error; a NULL `self_ptr` or a NULL `func_ptr`
   * fails an assertion; then the dispatcher runs with the factory the
   * function holds. None of the checks changes anything.
   */
  method ConstructorFunc(ctx: Context, natives: ClosureHeap, typing: BoxTyping, r: Registry, ds: Declarations,
                         callee: Value, isConstructCall: bool, kind: FactoryKind, cls: TypeId, params: seq<ScalarType>,
                         order: seq<nat>, make: (nat, seq<Arg>) -> Option<Instance>) returns (res: Result<int>)
    requires ctx.Valid() && ctx.duk != null && natives.Valid() && WellFormed(r) && Inspectable(r, ds, cls)
    requires callee.Ref? && Bounded(callee, ctx.duk.nextId) && |ctx.duk.stack| == |params| && EvalOrder(order, |params|)
    requires PointerOf(ctx.duk.PropOf(Ref(ctx.duk.stash), SelfPtr)) == 0 || ctx.SelfAssigned()
    modifies ctx, ctx.duk, natives
    ensures ctx.Valid() && ctx.duk == old(ctx.duk) && natives.Valid()
    ensures var self := PointerOf(old(ctx.duk.PropOf(Ref(ctx.duk.stash), SelfPtr)));
      var f := FactoryOf(old(ctx.duk.heap), callee);
      var intact := ctx.duk.stack == old(ctx.duk.stack) && ctx.boxes == old(ctx.boxes);
      (!isConstructCall ==> res == Err(PlainError(NewMessage)) && intact) &&
      (isConstructCall && self == 0 ==> res == Err(Abort("ctx")) && intact) &&
      (isConstructCall && self != 0 && f == 0 ==> res == Err(Abort("f")) && intact) &&
      (isConstructCall && self != 0 && f != 0 ==>
        var args := ReadArgs(ScalarParams(params), old(ctx.duk.stack), old(ctx.duk.heap), order);
        (args.Err? ==> res == Err(args.error) && intact) &&
        (args.Ok? && make(f, args.value).Some? ==>
          res == Ok(1) && ctx.duk.stack == old(ctx.duk.stack) + [Ref(old(ctx.duk.nextId))] &&
          ctx.boxes == old(ctx.boxes)[old(ctx.boxCounter) + 1 := Box(OwnershipOf(kind), ElemOf(typing, r, cls), make(f, args.value))]) &&
        (args.Ok? && make(f, args.value).None? ==>
          (kind == UniqueFactory ==> res == Err(Abort("value")) && intact) &&
          (kind == SharedFactory ==> res == Ok(1) && ctx.duk.stack == old(ctx.duk.stack) + [Null] && ctx.boxes == old(ctx.boxes))))
  {
    if !isConstructCall {
      return Err(PlainError(NewMessage));
    }
    var d := ctx.duk;
    var self := GetSelfFromContext(d);
    if self == 0 {
      return Err(Abort("ctx"));
    }
    var f := ReadPointer(d, callee, FuncPtr);
    if f == 0 {
      return Err(Abort("f"));
    }
    res := DispatchConstructor(ctx, natives, typing, r, ds, kind, cls, params, order, f, make);
  }

  /**
   * PushConstructorInspector::static_property on the function on top of the
   * stack: the name, the static getter, the static setter if any, then
   * duk_def_prop on the function (index -4, or -3 without a setter).
   */
  method DefineStaticProperty(d: Duk, natives: ClosureHeap, name: string, getter: Sig, setter: Option<Sig>)
    requires d.Valid() && natives.Valid() && |d.stack| >= 1 && d.stack[|d.stack| - 1].Ref?
    modifies d, natives
    ensures d.Valid() && natives.Valid() && d.stack == old(d.stack)
    ensures HoldersGrow(old(natives.holders), natives.holders)
    ensures var id := d.stack[|d.stack| - 1].id;
      var k := NameKey(name);
      id in d.heap && d.heap[id] == old(d.heap[id]).(props := d.heap[id].props) &&
      k in d.heap[id].props && d.heap[id].props == old(d.heap[id].props)[k := d.heap[id].props[k]] &&
      d.heap[id].props[k].Accessor? &&
      BoundTo(d.heap, natives.holders, d.heap[id].props[k].getter, Closure(true, getter)) &&
      (setter.None? ==> d.heap[id].props[k].setter.None?) &&
      (setter.Some? ==>
        d.heap[id].props[k].setter.Some? &&
        BoundTo(d.heap, natives.holders, d.heap[id].props[k].setter.value, Closure(true, setter.value)))
  {
    ghost var id := d.stack[|d.stack| - 1].id;
    var target := |d.stack| - 1;
    var g, s := PushAccessorParts(d, natives, name, getter, setter, true, id);
    ghost var h1 := d.heap;
    d.DefAccessor(target, setter.Some?);
    assert ObjectIn(d.heap, g) == ObjectIn(h1, g);
    assert setter.Some? ==> ObjectIn(d.heap, s) == ObjectIn(h1, s);
  }

  /** PushConstructorInspector::static_method: the bound static function put on the function on top of the stack. */
  method PutStaticMethod(d: Duk, natives: ClosureHeap, name: string, sig: Sig)
    requires d.Valid() && natives.Valid() && |d.stack| >= 1 && d.stack[|d.stack| - 1].Ref?
    modifies d, natives
    ensures d.Valid() && natives.Valid() && d.stack == old(d.stack)
    ensures HoldersGrow(old(natives.holders), natives.holders)
    ensures var id := d.stack[|d.stack| - 1].id;
      var k := NameKey(name);
      id in d.heap && d.heap[id] == old(d.heap[id]).(props := d.heap[id].props) &&
      k in d.heap[id].props && d.heap[id].props == old(d.heap[id].props)[k := d.heap[id].props[k]] &&
      d.heap[id].props[k].Data? && BoundTo(d.heap, natives.holders, d.heap[id].props[k].value, Closure(true, sig))
  {
    ghost var id := d.stack[|d.stack| - 1].id;
    var f := PushClosure(d, natives, Closure(true, sig), id);
    ghost var h1 := d.heap;
    d.PutProp(-2, NameKey(name));
    assert ObjectIn(d.heap, f) == ObjectIn(h1, f);
  }
}
