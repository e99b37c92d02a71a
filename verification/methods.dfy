/**
 * Binding native member functions and static functions. `pushMethod`
 * allocates a closure holder (a heap copy of the `std::function`), pushes a
 * native function whose hidden `method_ptr` points at the holder and gives
 * it a finalizer that deletes the holder. When script calls the function,
 * the trampoline `func` recovers the context, the receiver's `obj_ptr` and
 * the holder, and a dispatcher reads argument k from stack slot k, calls
 * the native and pushes its result, if any.
 */
module Methods {
  import opened Errors
  import opened Engine
  import opened Scalars
  import opened Inspection
  import opened Codecs
  import opened Bridge

  const MethodPtr: Key := Hidden("method_ptr")

  const RefMessage: string := "Expected reference to object, but `obj_ptr` not defined"

  /** An argument as the native receives it: a copied scalar, a copied object, or the object itself. */
  datatype Arg = ScalarArg(x: Scalar) | CopiedObject(addr: nat) | ObjectRef(addr: nat)

  /** One call of a native: the receiver's address (None for a static function) and the arguments. */
  datatype Invocation = Invocation(receiver: Option<nat>, args: seq<Arg>)

  /** What a closure holder keeps: a member function (needs a receiver) or a static one, and its signature. */
  datatype Closure = Closure(isStatic: bool, sig: Sig)

  /** The closure holders allocated with `new` and not yet deleted, by address. */
  class ClosureHeap {
    var holders: map<nat, Closure>
    var next: nat

    ghost predicate Valid()
      reads this
    {
      next >= 1 && forall a :: a in holders ==> 1 <= a < next
    }

    constructor ()
      ensures Valid() && holders == map[]
    {
      holders := map[];
      next := 1;
    }

    /** `new MethodPointer(method)`: a non-null address that no live holder has. */
    method Allocate(c: Closure) returns (a: nat)
      requires Valid()
      modifies this
      ensures Valid() && a == old(next) && a != 0 && a !in old(holders)
      ensures holders == old(holders)[a := c] && next == old(next) + 1
    {
      a := next;
      holders := holders[a := c];
      next := next + 1;
    }

    /** `delete mh`: deleting NULL does nothing; any other address must be a live holder. */
    method Delete(a: nat)
      requires Valid() && (a == 0 || a in holders)
      modifies this
      ensures Valid() && holders == old(holders) - {a} && next == old(next)
    {
      holders := holders - {a};
    }
  }

  /** The object a value designates in heap h; a non-object has no properties. */
  function ObjectIn(h: map<nat, Object>, v: Value): Object {
    if v.Ref? && v.id in h then h[v.id] else NewObject(PlainObject)
  }

  /**
   * ArgGetter: a scalar is read with its codec. An object by value is copied
   * from `obj_ptr`: reading it from undefined or null is a TypeError, and the
   * default object codec asserts it is not NULL. A reference to an object
   * needs an object (duk_has_prop_string is a TypeError on anything else)
   * holding `obj_ptr`, and is the object itself, with no NULL check.
   */
  function ReadArg(p: Param, v: Value, o: Object): Result<Arg> {
    match p
    case ScalarParam(t) =>
      var x := Decode(t, v);
      if x.Ok? then Ok(ScalarArg(x.value)) else Err(x.error)
    case ObjectByValue(_) =>
      if !Coercible(v) then Err(TypeError(InvalidBase))
      else
        var a := PointerOf(Get(o, ObjPtr));
        if a == 0 then Err(Abort("obj")) else Ok(CopiedObject(a))
    case ObjectByRef(_) =>
      if !v.Ref? then Err(TypeError(InvalidBase))
      else if ObjPtr !in o.props then Err(TypeError(RefMessage))
      else Ok(ObjectRef(PointerOf(Get(o, ObjPtr))))
  }

  /** Parameter k's reading of stack slot k. */
  function ArgAt(ps: seq<Param>, vs: seq<Value>, h: map<nat, Object>, k: nat): Result<Arg>
    requires k < |ps| <= |vs|
  {
    ReadArg(ps[k], vs[k], ObjectIn(h, vs[k]))
  }

  /**
   * An order in which the compiler may evaluate the n reads of the argument
   * list `func(obj, ArgGetter<A, I>::get(d)...)`: C++ leaves the order of a
   * call's argument evaluations unspecified, so it is a parameter of the
   * model. It lists every position 0..n-1.
   */
  predicate EvalOrder(order: seq<nat>, n: nat) {
    |order| == n && (forall i :: 0 <= i < n ==> order[i] < n) && forall k :: 0 <= k < n ==> k in order
  }

  /** Left to right: 0, 1, ..., n - 1. */
  function LeftToRight(n: nat): (order: seq<nat>)
    ensures |order| == n && forall i :: 0 <= i < n ==> order[i] == i
  {
    seq(n, i requires 0 <= i < n => i)
  }

  /** Right to left: n - 1, ..., 1, 0. */
  function RightToLeft(n: nat): (order: seq<nat>)
    ensures |order| == n && forall i :: 0 <= i < n ==> order[i] == n - 1 - i
  {
    seq(n, i requires 0 <= i < n => n - 1 - i)
  }

  lemma LeftToRightOrder(n: nat)
    ensures EvalOrder(LeftToRight(n), n)
  {
    var order := LeftToRight(n);
    forall k | 0 <= k < n ensures k in order {
      assert order[k] == k;
    }
  }

  lemma RightToLeftOrder(n: nat)
    ensures EvalOrder(RightToLeft(n), n)
  {
    var order := RightToLeft(n);
    forall k | 0 <= k < n ensures k in order {
      assert order[n - 1 - k] == k;
    }
  }

  /** The error of the first read, in the order `order`, that fails; None when every read succeeds. */
  function FirstFailure(ps: seq<Param>, vs: seq<Value>, h: map<nat, Object>, order: seq<nat>): Option<Error>
    requires |ps| <= |vs| && forall i :: 0 <= i < |order| ==> order[i] < |ps|
    decreases |order|
  {
    if order == [] then None
    else
      var a := ArgAt(ps, vs, h, order[0]);
      if a.Err? then Some(a.error) else FirstFailure(ps, vs, h, order[1..])
  }

  /**
   * No read fails exactly when every read in the order succeeds; otherwise
   * the reported error is that of a read whose predecessors in the order
   * all succeeded.
   */
  lemma {:induction false} FirstFailureMeaning(ps: seq<Param>, vs: seq<Value>, h: map<nat, Object>, order: seq<nat>)
    requires |ps| <= |vs| && forall i :: 0 <= i < |order| ==> order[i] < |ps|
    ensures var f := FirstFailure(ps, vs, h, order);
      (f.None? <==> forall i :: 0 <= i < |order| ==> ArgAt(ps, vs, h, order[i]).Ok?) &&
      (f.Some? ==>
         exists j :: 0 <= j < |order| &&
           (forall i :: 0 <= i < j ==> ArgAt(ps, vs, h, order[i]).Ok?) && ArgAt(ps, vs, h, order[j]) == Err(f.value))
    decreases |order|
  {
    if order != [] {
      var rest := order[1..];
      FirstFailureMeaning(ps, vs, h, rest);
      forall i | 1 <= i < |order| ensures order[i] == rest[i - 1] { }
      var f := FirstFailure(ps, vs, h, order);
      if ArgAt(ps, vs, h, order[0]).Ok? && f.Some? {
        var j :| 0 <= j < |rest| &&
          (forall i :: 0 <= i < j ==> ArgAt(ps, vs, h, rest[i]).Ok?) && ArgAt(ps, vs, h, rest[j]) == Err(f.value);
        assert ArgAt(ps, vs, h, order[j + 1]) == Err(f.value);
      }
    }
  }

  /**
   * The arguments of a call whose reads run in the order `order`: the first
   * read that fails ends the call with its error; otherwise argument k is
   * parameter k's reading of slot k.
   */
  function ReadArgs(ps: seq<Param>, vs: seq<Value>, h: map<nat, Object>, order: seq<nat>): Result<seq<Arg>>
    requires |ps| <= |vs| && EvalOrder(order, |ps|)
  {
    var f := FirstFailure(ps, vs, h, order);
    if f.Some? then Err(f.value)
    else
      AllReadsSucceed(ps, vs, h, order);
      Ok(seq(|ps|, k requires 0 <= k < |ps| => ArgAt(ps, vs, h, k).value))
  }

  lemma AllReadsSucceed(ps: seq<Param>, vs: seq<Value>, h: map<nat, Object>, order: seq<nat>)
    requires |ps| <= |vs| && EvalOrder(order, |ps|) && FirstFailure(ps, vs, h, order).None?
    ensures forall k :: 0 <= k < |ps| ==> ArgAt(ps, vs, h, k).Ok?
  {
    FirstFailureMeaning(ps, vs, h, order);
    forall k | 0 <= k < |ps| ensures ArgAt(ps, vs, h, k).Ok? {
      assert k in order;
      var i :| 0 <= i < |order| && order[i] == k;
    }
  }

  /**
   * Argument k is parameter k's reading of stack slot k: the reading
   * succeeds exactly when every parameter's does, and otherwise reports the
   * error of a parameter whose reads before it, in the evaluation order,
   * all succeeded.
   */
  lemma ReadArgsPositional(ps: seq<Param>, vs: seq<Value>, h: map<nat, Object>, order: seq<nat>)
    requires |ps| <= |vs| && EvalOrder(order, |ps|)
    ensures var r := ReadArgs(ps, vs, h, order);
      (r.Ok? <==> forall k :: 0 <= k < |ps| ==> ArgAt(ps, vs, h, k).Ok?) &&
      (r.Ok? ==> |r.value| == |ps| && forall k :: 0 <= k < |ps| ==> ArgAt(ps, vs, h, k) == Ok(r.value[k])) &&
      (r.Err? ==>
         exists j :: 0 <= j < |ps| &&
           (forall i :: 0 <= i < j ==> ArgAt(ps, vs, h, order[i]).Ok?) && ArgAt(ps, vs, h, order[j]) == Err(r.error))
  {
    FirstFailureMeaning(ps, vs, h, order);
    if FirstFailure(ps, vs, h, order).Some? {
      var j :| 0 <= j < |order| && ArgAt(ps, vs, h, order[j]).Err?;
      assert !ArgAt(ps, vs, h, order[j]).Ok?;
    } else {
      AllReadsSucceed(ps, vs, h, order);
    }
  }

  /**
   * The evaluation order decides only which error is reported: whether the
   * call goes ahead, and with which arguments, is the same in every order.
   */
  lemma ReadArgsOrderFree(ps: seq<Param>, vs: seq<Value>, h: map<nat, Object>, o1: seq<nat>, o2: seq<nat>)
    requires |ps| <= |vs| && EvalOrder(o1, |ps|) && EvalOrder(o2, |ps|)
    ensures ReadArgs(ps, vs, h, o1).Ok? <==> ReadArgs(ps, vs, h, o2).Ok?
    ensures ReadArgs(ps, vs, h, o1).Ok? ==> ReadArgs(ps, vs, h, o1) == ReadArgs(ps, vs, h, o2)
  {
    ReadArgsPositional(ps, vs, h, o1);
    ReadArgsPositional(ps, vs, h, o2);
  }

  /**
   * Two bad arguments for (int, bool): evaluated left to right the call
   * reports the int's TypeError, right to left (as GCC usually evaluates)
   * the bool's.
   */
  lemma OrderDecidesError()
    ensures var ps := [ScalarParam(IntType), ScalarParam(BoolType)];
      var vs := [Text("a"), Text("b")];
      EvalOrder(LeftToRight(2), 2) && EvalOrder(RightToLeft(2), 2) &&
      ReadArgs(ps, vs, map[], LeftToRight(2)) == Err(TypeError("number required")) &&
      ReadArgs(ps, vs, map[], RightToLeft(2)) == Err(TypeError("boolean required"))
  {
    LeftToRightOrder(2);
    RightToLeftOrder(2);
    var ps := [ScalarParam(IntType), ScalarParam(BoolType)];
    var vs := [Text("a"), Text("b")];
    assert LeftToRight(2) == [0, 1] && RightToLeft(2) == [1, 0];
    assert ArgAt(ps, vs, map[], 0) == Err(TypeError("number required"));
    assert ArgAt(ps, vs, map[], 1) == Err(TypeError("boolean required"));
  }

  /** A scalar pushed with its codec is read back as that scalar by a parameter of its type. */
  lemma ScalarArgRoundTrip(x: Scalar, t: ScalarType, o: Object)
    requires HasType(x, t) && (x.StringVal? ==> '\0' !in x.s)
    ensures ReadArg(ScalarParam(t), Encode(x), o) == Ok(ScalarArg(x))
  {
    RoundTrip(x, t);
  }

  /**
   * A value without `obj_ptr` passed for an object parameter. Undefined or
   * null (a missing argument) is the engine's TypeError for either kind of
   * parameter. Any other value is refused for a reference parameter, by the
   * engine's existence check when it is not an object and by the binding's
   * own TypeError when it is; for a by-value parameter the assertion fails.
   */
  lemma ObjectArgWithoutPointer(cls: nat, v: Value, o: Object)
    requires ObjPtr !in o.props
    ensures ReadArg(ObjectByRef(cls), v, o) == Err(TypeError(if v.Ref? then RefMessage else InvalidBase))
    ensures ReadArg(ObjectByValue(cls), v, o) == Err(if Coercible(v) then Abort("obj") else TypeError(InvalidBase))
  {
    assert Get(o, ObjPtr) == Undefined;
  }

  /** ArgGetter<A, Index, ...>::get: the argument for parameter p from stack index `index`; the stack is unchanged. */
  method GetArg(d: Duk, p: Param, index: nat) returns (r: Result<Arg>)
    requires d.Valid() && index < |d.stack|
    modifies d
    ensures d.Valid() && d.stack == old(d.stack) && d.heap == old(d.heap) && d.nextId == old(d.nextId)
    ensures r == ReadArg(p, d.stack[index], ObjectIn(d.heap, d.stack[index]))
  {
    match p
    case ScalarParam(t) =>
      var x := GetScalar(d, t, index);
      r := if x.Ok? then Ok(ScalarArg(x.value)) else Err(x.error);
    case ObjectByValue(_) =>
      var a := GetObject(d, index);
      r := if a.Ok? then Ok(CopiedObject(a.value)) else Err(a.error);
    case ObjectByRef(_) =>
      if !d.At(index).Ref? {
        return Err(TypeError(InvalidBase));
      }
      if !d.HasProp(index, ObjPtr) {
        return Err(TypeError(RefMessage));
      }
      d.GetProp(index, ObjPtr);
      var a := PointerOf(d.At(-1));
      d.PopN(1);
      r := Ok(ObjectRef(a));
  }

  /**
   * The expansion `ArgGetter<A, I, ...>::get(d)...`, its reads run in the
   * order `order`: the first read that fails ends it.
   */
  method GetArgs(d: Duk, ps: seq<Param>, order: seq<nat>) returns (r: Result<seq<Arg>>)
    requires d.Valid() && |ps| <= |d.stack| && EvalOrder(order, |ps|)
    modifies d
    ensures d.Valid() && d.stack == old(d.stack) && d.heap == old(d.heap) && d.nextId == old(d.nextId)
    ensures r == ReadArgs(ps, d.stack, d.heap, order)
  {
    var got: map<nat, Arg> := map[];
    var i := 0;
    while i < |order|
      invariant 0 <= i <= |order| && d.Valid()
      invariant d.stack == old(d.stack) && d.heap == old(d.heap) && d.nextId == old(d.nextId)
      invariant FirstFailure(ps, d.stack, d.heap, order) == FirstFailure(ps, d.stack, d.heap, order[i..])
      invariant forall j :: 0 <= j < i ==> order[j] in got && ArgAt(ps, d.stack, d.heap, order[j]) == Ok(got[order[j]])
    {
      var k := order[i];
      var a := GetArg(d, ps[k], k);
      assert order[i..][0] == k && order[i..][1..] == order[i + 1..];
      if a.Err? {
        return Err(a.error);
      }
      got := got[k := a.value];
      i := i + 1;
    }
    assert order[i..] == [];
    AllReadsSucceed(ps, d.stack, d.heap, order);
    forall k | 0 <= k < |ps| ensures k in got && ArgAt(ps, d.stack, d.heap, k) == Ok(got[k]) {
      assert k in order;
      var j :| 0 <= j < |order| && order[j] == k;
    }
    var args := seq(|ps|, k requires 0 <= k < |ps| && k in got => got[k]);
    assert args == ReadArgs(ps, d.stack, d.heap, order).value;
    r := Ok(args);
  }

  /** Every native of signature sig returns a value of its declared type. */
  ghost predicate Typed(sig: Sig, body: Invocation -> Scalar) {
    sig.result.Some? ==> forall c :: HasType(body(c), sig.result.value)
  }

  /**
   * MethodDispatcher / StaticMethodDispatcher::dispatch, in a frame that
   * holds exactly the arguments: the native is called with the arguments
   * read from slots 0..n-1 in the evaluation order `order`; a void native
   * leaves nothing and returns 0, any other pushes its result and returns 1.
   * A failed argument pushes nothing and calls nothing.
   */
  method Dispatch(d: Duk, sig: Sig, receiver: Option<nat>, body: Invocation -> Scalar, order: seq<nat>) returns (r: Result<int>)
    requires d.Valid() && |d.stack| == |sig.params| && Typed(sig, body) && EvalOrder(order, |sig.params|)
    modifies d
    ensures d.Valid() && d.heap == old(d.heap) && d.nextId == old(d.nextId)
    ensures var args := ReadArgs(sig.params, old(d.stack), old(d.heap), order);
      (args.Err? ==> r == Err(args.error) && d.stack == old(d.stack)) &&
      (args.Ok? && sig.result.None? ==> r == Ok(0) && d.stack == old(d.stack)) &&
      (args.Ok? && sig.result.Some? ==>
        r == Ok(1) && d.stack == old(d.stack) + [Encode(body(Invocation(receiver, args.value)))])
  {
    var args := GetArgs(d, sig.params, order);
    if args.Err? {
      return Err(args.error);
    }
    if sig.result.None? {
      return Ok(0);
    }
    var res := body(Invocation(receiver, args.value));
    PushScalar(d, res);
    r := Ok(1);
  }

  /** The holder address stored on a function object. */
  function HolderOf(h: map<nat, Object>, callee: Value): nat {
    PointerOf(Get(ObjectIn(h, callee), MethodPtr))
  }

  /** The receiver's `obj_ptr`, as the member trampoline reads it from `this`. */
  function ReceiverOf(h: map<nat, Object>, thisVal: Value): nat {
    PointerOf(Get(ObjectIn(h, thisVal), ObjPtr))
  }

  /**
   * duk_push_this / duk_push_current_function followed by a read of a hidden
   * pointer and duk_pop_2; the value must be one whose properties can be
   * read (the current function always is).
   */
  method ReadPointer(d: Duk, v: Value, k: Key) returns (a: nat)
    requires d.Valid() && Bounded(v, d.nextId) && Coercible(v)
    modifies d
    ensures d.Valid() && d.stack == old(d.stack) && d.heap == old(d.heap) && d.nextId == old(d.nextId)
    ensures a == PointerOf(Get(ObjectIn(d.heap, v), k))
  {
    d.Push(v);
    d.GetProp(-1, k);
    a := PointerOf(d.At(-1));
    d.PopN(2);
  }

  /**
   * Method<C, R, A...>::func: recovers the context from the stash, the
   * receiver from `this.obj_ptr` and the holder from the current function's
   * `method_ptr`, each with its temporaries popped, then dispatches with
   * the argument reads in the order `order`. A method called without a
   * receiver (`this` undefined or null) is a TypeError at the read of
   * `obj_ptr`, with `this` still pushed.
   */
  method MethodFunc(ctx: Context, natives: ClosureHeap, thisVal: Value, callee: Value, body: Invocation -> Scalar,
                    order: seq<nat>)
    returns (r: Result<int>)
    requires ctx.Valid() && ctx.duk != null && ctx.SelfAssigned() && natives.Valid()
    requires Bounded(thisVal, ctx.duk.nextId) && Bounded(callee, ctx.duk.nextId)
    requires HolderOf(ctx.duk.heap, callee) in natives.holders
    requires var c := natives.holders[HolderOf(ctx.duk.heap, callee)];
      !c.isStatic && |ctx.duk.stack| == |c.sig.params| && Typed(c.sig, body) && EvalOrder(order, |c.sig.params|)
    modifies ctx.duk
    ensures ctx.Valid() && ctx.duk == old(ctx.duk) && ctx.duk.heap == old(ctx.duk.heap)
    ensures !Coercible(thisVal) ==> r == Err(TypeError(InvalidBase)) && ctx.duk.stack == old(ctx.duk.stack) + [thisVal]
    ensures var c := natives.holders[HolderOf(old(ctx.duk.heap), callee)];
      var args := ReadArgs(c.sig.params, old(ctx.duk.stack), old(ctx.duk.heap), order);
      var call := Invocation(Some(ReceiverOf(old(ctx.duk.heap), thisVal)), if args.Ok? then args.value else []);
      Coercible(thisVal) ==>
        (args.Err? ==> r == Err(args.error) && ctx.duk.stack == old(ctx.duk.stack)) &&
        (args.Ok? && c.sig.result.None? ==> r == Ok(0) && ctx.duk.stack == old(ctx.duk.stack)) &&
        (args.Ok? && c.sig.result.Some? ==> r == Ok(1) && ctx.duk.stack == old(ctx.duk.stack) + [Encode(body(call))])
  {
    var d := ctx.duk;
    var self := GetSelfFromContext(d);
    assert self == ctx.addr;
    if !Coercible(thisVal) {
      d.Push(thisVal);
      return Err(TypeError(InvalidBase));
    }
    var objPtr := ReadPointer(d, thisVal, ObjPtr);
    assert HolderOf(d.heap, callee) != 0;
    var mh := ReadPointer(d, callee, MethodPtr);
    r := Dispatch(d, natives.holders[mh].sig, Some(objPtr), body, order);
  }

  /** StaticMethod<R, A...>::func: as the member trampoline, without a receiver. */
  method StaticFunc(ctx: Context, natives: ClosureHeap, callee: Value, body: Invocation -> Scalar, order: seq<nat>)
    returns (r: Result<int>)
    requires ctx.Valid() && ctx.duk != null && ctx.SelfAssigned() && natives.Valid()
    requires Bounded(callee, ctx.duk.nextId)
    requires HolderOf(ctx.duk.heap, callee) in natives.holders
    requires var c := natives.holders[HolderOf(ctx.duk.heap, callee)];
      c.isStatic && |ctx.duk.stack| == |c.sig.params| && Typed(c.sig, body) && EvalOrder(order, |c.sig.params|)
    modifies ctx.duk
    ensures ctx.Valid() && ctx.duk == old(ctx.duk) && ctx.duk.heap == old(ctx.duk.heap)
    ensures var c := natives.holders[HolderOf(old(ctx.duk.heap), callee)];
      var args := ReadArgs(c.sig.params, old(ctx.duk.stack), old(ctx.duk.heap), order);
      var call := Invocation(None, if args.Ok? then args.value else []);
      (args.Err? ==> r == Err(args.error) && ctx.duk.stack == old(ctx.duk.stack)) &&
      (args.Ok? && c.sig.result.None? ==> r == Ok(0) && ctx.duk.stack == old(ctx.duk.stack)) &&
      (args.Ok? && c.sig.result.Some? ==> r == Ok(1) && ctx.duk.stack == old(ctx.duk.stack) + [Encode(body(call))])
  {
    var d := ctx.duk;
    var self := GetSelfFromContext(d);
    assert self == ctx.addr;
    assert HolderOf(d.heap, callee) != 0;
    var mh := ReadPointer(d, callee, MethodPtr);
    r := Dispatch(d, natives.holders[mh].sig, None, body, order);
  }

  /** The trampoline a closure is called through. */
  function Trampoline(c: Closure): NativeFn {
    if c.isStatic then StaticTrampoline else MethodTrampoline
  }

  function FinalizerOf(c: Closure): NativeFn {
    if c.isStatic then StaticFinalizer else MethodFinalizer
  }

  /** The function object pushMethod builds: its trampoline with nargs = arity, `method_ptr`, and a finalizer. */
  function BoundFunction(c: Closure, holder: nat, fin: nat): Object {
    Object(Function(Trampoline(c), |c.sig.params|), map[MethodPtr := Data(Pointer(holder))], 0, Some(Ref(fin)))
  }

  /** `v` is a function bound to a live holder keeping closure c. */
  ghost predicate BoundTo(h: map<nat, Object>, holders: map<nat, Closure>, v: Value, c: Closure) {
    v.Ref? && v.id in h && h[v.id].kind == Function(Trampoline(c), |c.sig.params|) &&
    HolderOf(h, v) in holders && holders[HolderOf(h, v)] == c
  }

  /** The function object with its `method_ptr`, before the finalizer is attached. */
  method PushBound(d: Duk, c: Closure, mh: nat) returns (fidx: int)
    requires d.Valid()
    modifies d
    ensures d.Valid() && fidx == |old(d.stack)| && d.stack == old(d.stack) + [Ref(old(d.nextId))]
    ensures d.nextId == old(d.nextId) + 1
    ensures d.heap == old(d.heap)[old(d.nextId) := BoundFunction(c, mh, 0).(finalizer := None)]
  {
    fidx := d.PushNew(Function(Trampoline(c), |c.sig.params|));
    d.Push(Pointer(mh));
    d.PutProp(fidx, MethodPtr);
  }

  /** duk_push_c_function(finalizer, 1) followed by duk_set_finalizer on the object at fidx. */
  method AttachFinalizer(d: Duk, fidx: int, fin: NativeFn)
    requires d.Valid() && 0 <= fidx < |d.stack| && d.stack[fidx].Ref?
    modifies d
    ensures d.Valid() && d.stack == old(d.stack) && d.nextId == old(d.nextId) + 1
    ensures var id := old(d.stack[fidx]).id;
      d.heap == old(d.heap)[id := old(d.heap)[id].(finalizer := Some(Ref(old(d.nextId))))]
                           [old(d.nextId) := NewObject(Function(fin, 1))]
  {
    var _ := d.PushNew(Function(fin, 1));
    d.SetFinalizer(fidx);
  }

  /**
   * Method / StaticMethod::pushMethod: allocates exactly one holder, pushes
   * one function (its index is returned) whose `method_ptr` is that holder
   * and whose finalizer is the matching finalizer function.
   */
  method PushMethod(d: Duk, natives: ClosureHeap, c: Closure) returns (fidx: int)
    requires d.Valid() && natives.Valid()
    modifies d, natives
    ensures d.Valid() && natives.Valid()
    ensures natives.holders == old(natives.holders)[old(natives.next) := c] && natives.next == old(natives.next) + 1
    ensures old(natives.next) !in old(natives.holders)
    ensures fidx == |old(d.stack)| && d.stack == old(d.stack) + [Ref(old(d.nextId))] && d.nextId == old(d.nextId) + 2
    ensures d.heap == old(d.heap)[old(d.nextId) := BoundFunction(c, old(natives.next), old(d.nextId) + 1)]
                                 [old(d.nextId) + 1 := NewObject(Function(FinalizerOf(c), 1))]
    ensures BoundTo(d.heap, natives.holders, Ref(old(d.nextId)), c)
  {
    var mh := natives.Allocate(c);
    fidx := PushBound(d, c, mh);
    AttachFinalizer(d, fidx, FinalizerOf(c));
    assert HolderOf(d.heap, d.stack[fidx]) == mh;
  }

  /**
   * funcFinalizer, in the finalizer's frame (the object being finalized at
   * index 0): deletes the holder its `method_ptr` names and nothing else.
   */
  method FuncFinalizer(d: Duk, natives: ClosureHeap) returns (nret: int)
    requires d.Valid() && natives.Valid() && |d.stack| >= 1 && d.stack[0].Ref?
    requires var a := HolderOf(d.heap, d.stack[0]); a == 0 || a in natives.holders
    modifies d, natives
    ensures d.Valid() && d.stack == old(d.stack) && d.heap == old(d.heap) && d.nextId == old(d.nextId)
    ensures natives.Valid() && natives.holders == old(natives.holders) - {HolderOf(d.heap, d.stack[0])}
    ensures natives.next == old(natives.next) && nret == 0
  {
    d.GetProp(0, MethodPtr);
    var methodPtr := PointerOf(d.At(-1));
    d.PopN(1);
    natives.Delete(methodPtr);
    nret := 0;
  }

  /**
   * Each holder allocation is matched by one free: pushing a method and then
   * finalizing the function it pushed leaves the live holders as they were.
   */
  method PushThenFinalize(d: Duk, natives: ClosureHeap, c: Closure) returns (fidx: int)
    requires d.Valid() && natives.Valid()
    modifies d, natives
    ensures d.Valid() && natives.Valid()
    ensures natives.holders == old(natives.holders)
    ensures d.stack == old(d.stack) + [Ref(old(d.nextId))]
  {
    fidx := PushMethod(d, natives, c);
    var f := d.At(fidx);
    var caller := d.Enter([f]);
    var _ := FuncFinalizer(d, natives);
    d.Leave(caller, 0);
  }

  // ----- the older binding layer -----

  /** The older GetArg reads every parameter by value: a reference to an object is a copy. */
  function ByValue(p: Param): Param {
    if p.ObjectByRef? then ObjectByValue(p.cls) else p
  }

  function ByValueAll(ps: seq<Param>): (qs: seq<Param>)
    ensures |qs| == |ps| && forall i :: 0 <= i < |ps| ==> qs[i] == ByValue(ps[i])
  {
    if ps == [] then [] else [ByValue(ps[0])] + ByValueAll(ps[1..])
  }

  /**
   * The older MethodDispatcher: as the newer one, with every parameter read
   * by value through GetArg. The older layer's object codec is not part of
   * this model; it is assumed to read `obj_ptr` as the newer one does and to
   * fail the same way on an object without it.
   */
  method OlderDispatch(d: Duk, sig: Sig, receiver: Option<nat>, body: Invocation -> Scalar, order: seq<nat>)
    returns (r: Result<int>)
    requires d.Valid() && |d.stack| == |sig.params| && Typed(sig, body) && EvalOrder(order, |sig.params|)
    modifies d
    ensures d.Valid() && d.heap == old(d.heap) && d.nextId == old(d.nextId)
    ensures var args := ReadArgs(ByValueAll(sig.params), old(d.stack), old(d.heap), order);
      (args.Err? ==> r == Err(args.error) && d.stack == old(d.stack)) &&
      (args.Ok? && sig.result.None? ==> r == Ok(0) && d.stack == old(d.stack)) &&
      (args.Ok? && sig.result.Some? ==>
        r == Ok(1) && d.stack == old(d.stack) + [Encode(body(Invocation(receiver, args.value)))])
  {
    r := Dispatch(d, sig.(params := ByValueAll(sig.params)), receiver, body, order);
  }

  /**
   * The two layers read the same arguments when no parameter is a reference
   * to an object; for such a parameter the newer one passes the object
   * itself and the older one a copy, and an object without `obj_ptr` is a
   * TypeError in the newer and a failed assertion in the older (under the
   * assumption about the older object codec stated at OlderDispatch).
   */
  lemma {:induction false} LayersAgreeWithoutReferences(ps: seq<Param>, vs: seq<Value>, h: map<nat, Object>, order: seq<nat>)
    requires |ps| <= |vs| && EvalOrder(order, |ps|) && forall i :: 0 <= i < |ps| ==> !ps[i].ObjectByRef?
    ensures ReadArgs(ByValueAll(ps), vs, h, order) == ReadArgs(ps, vs, h, order)
  {
    var qs := ByValueAll(ps);
    assert qs == ps by {
      forall i | 0 <= i < |ps| ensures qs[i] == ps[i] { }
    }
  }

  lemma ReferenceBecomesCopy(cls: nat, v: Value, o: Object)
    requires v.Ref? && Get(o, ObjPtr).Pointer? && Get(o, ObjPtr).addr != 0
    ensures ReadArg(ObjectByRef(cls), v, o) == Ok(ObjectRef(Get(o, ObjPtr).addr))
    ensures ReadArg(ByValue(ObjectByRef(cls)), v, o) == Ok(CopiedObject(Get(o, ObjPtr).addr))
  {
    assert ObjPtr in o.props;
  }

  /**
   * The older Method<C, R, A...>::func: the same recovery of context,
   * receiver and holder, then the older dispatcher. As in the newer layer,
   * `this` undefined or null is a TypeError at the read of `obj_ptr`.
   */
  method OlderMethodFunc(ctx: Context, natives: ClosureHeap, thisVal: Value, callee: Value, body: Invocation -> Scalar,
                         order: seq<nat>)
    returns (r: Result<int>)
    requires ctx.Valid() && ctx.duk != null && ctx.SelfAssigned() && natives.Valid()
    requires Bounded(thisVal, ctx.duk.nextId) && Bounded(callee, ctx.duk.nextId)
    requires HolderOf(ctx.duk.heap, callee) in natives.holders
    requires var c := natives.holders[HolderOf(ctx.duk.heap, callee)];
      !c.isStatic && |ctx.duk.stack| == |c.sig.params| && Typed(c.sig, body) && EvalOrder(order, |c.sig.params|)
    modifies ctx.duk
    ensures ctx.Valid() && ctx.duk == old(ctx.duk) && ctx.duk.heap == old(ctx.duk.heap)
    ensures !Coercible(thisVal) ==> r == Err(TypeError(InvalidBase)) && ctx.duk.stack == old(ctx.duk.stack) + [thisVal]
    ensures var c := natives.holders[HolderOf(old(ctx.duk.heap), callee)];
      var args := ReadArgs(ByValueAll(c.sig.params), old(ctx.duk.stack), old(ctx.duk.heap), order);
      var call := Invocation(Some(ReceiverOf(old(ctx.duk.heap), thisVal)), if args.Ok? then args.value else []);
      Coercible(thisVal) ==>
        (args.Err? ==> r == Err(args.error) && ctx.duk.stack == old(ctx.duk.stack)) &&
        (args.Ok? && c.sig.result.None? ==> r == Ok(0) && ctx.duk.stack == old(ctx.duk.stack)) &&
        (args.Ok? && c.sig.result.Some? ==> r == Ok(1) && ctx.duk.stack == old(ctx.duk.stack) + [Encode(body(call))])
  {
    var d := ctx.duk;
    var self := GetSelfFromContext(d);
    assert self == ctx.addr;
    if !Coercible(thisVal) {
      d.Push(thisVal);
      return Err(TypeError(InvalidBase));
    }
    var objPtr := ReadPointer(d, thisVal, ObjPtr);
    assert HolderOf(d.heap, callee) != 0;
    var mh := ReadPointer(d, callee, MethodPtr);
    r := OlderDispatch(d, natives.holders[mh].sig, Some(objPtr), body, order);
  }
}
