/**
 * JSFunction<R, A...>: a C++ handle on a script function kept alive in
 * `stash.refs` under one key. The handle is the engine pointer and the
 * key; copying or moving it hands the key over and leaves the source
 * empty (null, -1), and destroying a handle whose engine pointer is set
 * deletes its key from `stash.refs`. Calling it fetches the stashed
 * function, pushes the arguments and runs a protected call.
 */
module JSFunctions {
  import opened Errors
  import opened Engine
  import opened Scalars
  import opened Bridge
  import opened Codecs

  /** The property of an error object that holds the script's stack trace. */
  const StackKey: Key := Named("stack")

  /**
   * What duk_pcall produced: the value the function returned, or the value
   * it threw. The engine's running of the script is given, not modelled.
   */
  datatype CallOutcome = Returned(result: Value) | Raised(error: Value)
  {
    function Value(): Value {
      if Returned? then result else error
    }
  }

  /**
   * The message of the ScriptEvaluationExcepton a failed call throws: the
   * error's string form, a newline, then its `stack` property, each as a C
   * string; None when `stack` is not a string (duk_get_string gives NULL).
   */
  function FailureMessage(error: Value, trace: Value): (m: Option<string>)
    ensures m.Some? <==> trace.Text?
    ensures m.Some? ==> '\n' in m.value && '\0' !in m.value
  {
    if trace.Text? then
      var head := CString(SafeToString(error));
      assert (head + "\n" + CString(trace.s))[|head|] == '\n';
      Some(head + "\n" + CString(trace.s))
    else None
  }

  /**
   * details::JSFunctionReturnVal<R>::get; `ret` is None for R = void. The
   * result on top is decoded (not for void), then it and `numPops` values
   * below it are popped. A value that does not decode is an error thrown
   * by the engine before anything is popped.
   */
  method ReturnValue(d: Duk, ret: Option<ScalarType>, numPops: nat) returns (r: Result<Option<Scalar>>)
    requires d.Valid() && |d.stack| >= numPops + 1
    modifies d
    ensures d.Valid() && d.heap == old(d.heap) && d.nextId == old(d.nextId)
    ensures ret.None? ==> r == Ok(None) && d.stack == old(d.stack)[..|old(d.stack)| - 1 - numPops]
    ensures ret.Some? ==>
      var x := Decode(ret.value, old(d.At(-1)));
      (x.Ok? ==> r == Ok(Some(x.value)) && d.stack == old(d.stack)[..|old(d.stack)| - 1 - numPops]) &&
      (x.Err? ==> r == Err(x.error) && d.stack == old(d.stack))
  {
    if ret.Some? {
      var x := GetScalar(d, ret.value, -1);
      if x.Err? {
        return Err(x.error);
      }
      r := Ok(Some(x.value));
    } else {
      r := Ok(None);
    }
    d.PopN(1);
    d.PopN(numPops);
  }

  /** pushArgs: each argument pushed with its own Type<A>::push, first to last. */
  method PushArgs(d: Duk, args: seq<Scalar>)
    requires d.Valid() && forall i :: 0 <= i < |args| ==> HasType(args[i], TypeOfScalar(args[i]))
    modifies d
    ensures d.Valid() && d.stack == old(d.stack) + EncodeAll(args)
    ensures d.heap == old(d.heap) && d.nextId == old(d.nextId)
  {
    for i := 0 to |args|
      invariant d.Valid() && d.stack == old(d.stack) + EncodeAll(args[..i])
      invariant d.heap == old(d.heap) && d.nextId == old(d.nextId)
    {
      PushScalar(d, args[i]);
      assert args[..i + 1] == args[..i] + [args[i]];
      EncodeAllSnoc(args[..i], args[i]);
    }
    assert args[..|args|] == args;
  }

  lemma EncodeAllSnoc(xs: seq<Scalar>, x: Scalar)
    ensures EncodeAll(xs + [x]) == EncodeAll(xs) + [Encode(x)]
  {
    assert forall i :: 0 <= i < |xs| ==> (xs + [x])[i] == xs[i];
  }

  class JSFunction {
    var d: Duk?
    var refKey: int

    /** The state a handle is left in once its key has been handed over. */
    predicate Empty()
      reads this
    {
      d == null && refKey == -1
    }

    /** JSFunction(duk_context *, int): a handle on the function stashed under `stashIndex`. */
    constructor (d: Duk?, stashIndex: int)
      ensures this.d == d && refKey == stashIndex
    {
      this.d := d;
      refKey := stashIndex;
    }

    /**
     * The copy constructor and the move constructor alike: the new handle
     * takes the engine pointer and the key, and the source is left empty,
     * so exactly one of the two can release the key.
     */
    constructor Take(that: JSFunction)
      modifies that
      ensures d == old(that.d) && refKey == old(that.refKey) && that.Empty()
    {
      d := that.d;
      refKey := that.refKey;
      new;
      that.d := null;
      that.refKey := -1;
    }

    /**
     * The copy assignment operator (and the move assignment operator as
     * evidently intended): nothing on self-assignment; otherwise this handle
     * takes the source's engine pointer and key and the source is left
     * empty. The key this handle held before is not released.
     */
    method Assign(that: JSFunction)
      modifies this, that
      ensures this == that ==> d == old(d) && refKey == old(refKey)
      ensures this != that ==> d == old(that.d) && refKey == old(that.refKey) && that.Empty()
    {
      if this == that {
        return;
      }
      d := that.d;
      refKey := that.refKey;
      that.d := null;
      that.refKey := -1;
    }

    /**
     * The move assignment operator as written: it compares the source's key
     * with -1 where it means to assign it, so the source keeps its key next
     * to a null engine pointer.
     */
    method MoveAssignAsWritten(that: JSFunction)
      modifies this, that
      ensures this == that ==> d == old(d) && refKey == old(refKey)
      ensures this != that ==> d == old(that.d) && refKey == old(that.refKey) &&
                               that.d == null && that.refKey == old(that.refKey)
    {
      if this == that {
        return;
      }
      d := that.d;
      refKey := that.refKey;
      that.d := null;
    }

    /**
     * ~JSFunction: with an engine pointer, the context found through the
     * stash's `self_ptr` (ctx) deletes the key from `stash.refs`; a handle
     * without one releases nothing.
     */
    method Destroy(ctx: Context)
      requires d != null ==> ctx.Valid() && ctx.duk == d && ctx.SelfAssigned() && ctx.HasRefs()
      modifies d
      ensures d != null ==>
        ctx.Valid() && d.stack == old(d.stack) && ctx.HasRefs() && ctx.RefsValue() == old(ctx.RefsValue()) &&
        (ctx.RefsTable() ==> ctx.Stashed(ArrayIndex(refKey)) == Undefined) &&
        forall k: nat :: k != ArrayIndex(refKey) ==> ctx.Stashed(k) == old(ctx.Stashed(k))
    {
      if d != null {
        var self := GetSelfFromContext(d);
        assert self == ctx.addr;
        ctx.UnstashRef(refKey);
      }
    }

    /**
     * JSFunction::call: the handle must be live. The stashed function is
     * pushed with the encoded arguments and called; `engine` gives what the
     * call of that function on those values produces. A result is decoded
     * as R and popped, leaving the stack as it was. A thrown error is
     * reported with its `stack` property, the error's string form being
     * left on the stack; a thrown undefined or null has no properties, and
     * reading `stack` off it throws the engine's TypeError.
     */
    method Call(ctx: Context, args: seq<Scalar>, ret: Option<ScalarType>, engine: (Value, seq<Value>) -> CallOutcome)
        returns (r: Result<Option<Scalar>>)
      requires d != null && refKey >= 0
      requires ctx.Valid() && ctx.duk == d && ctx.SelfAssigned() && ctx.RefsTable()
      requires Indexed(ArrayIndex(refKey)) in d.Deref(ctx.RefsValue()).props
      requires forall i :: 0 <= i < |args| ==> HasType(args[i], TypeOfScalar(args[i]))
      requires Bounded(engine(ctx.Stashed(ArrayIndex(refKey)), EncodeAll(args)).Value(), d.nextId)
      modifies d
      ensures ctx.Valid() && d.heap == old(d.heap) && d.nextId == old(d.nextId)
      ensures var outcome := engine(old(ctx.Stashed(ArrayIndex(refKey))), EncodeAll(args));
        outcome.Returned? ==>
          if ret.None? then r == Ok(None) && d.stack == old(d.stack)
          else
            var x := Decode(ret.value, outcome.result);
            (x.Ok? ==> r == Ok(Some(x.value)) && d.stack == old(d.stack)) &&
            (x.Err? ==> r == Err(x.error) && d.stack == old(d.stack) + [outcome.result])
      ensures var outcome := engine(old(ctx.Stashed(ArrayIndex(refKey))), EncodeAll(args));
        outcome.Raised? && !Coercible(outcome.error) ==>
          r == Err(TypeError(InvalidBase)) && d.stack == old(d.stack) + [outcome.error]
      ensures var outcome := engine(old(ctx.Stashed(ArrayIndex(refKey))), EncodeAll(args));
        outcome.Raised? && Coercible(outcome.error) ==>
          var trace := Look(old(d.heap), outcome.error, StackKey);
          var m := FailureMessage(outcome.error, trace);
          (m.Some? ==> r == Err(ScriptEvaluation(m.value)) &&
                       d.stack == old(d.stack) + [Text(SafeToString(outcome.error))]) &&
          (m.None? ==> r == Err(NullString) && d.stack == old(d.stack) + [outcome.error, trace])
    {
      ghost var s0 := d.stack;
      var callee := PushCallee(ctx, refKey, args);
      var outcome := engine(callee, EncodeAll(args));
      d.CallResult(|args|, outcome.Value());
      assert d.stack == s0 + [outcome.Value()];
      if outcome.Raised? {
        r := ReportFailure(d);
      } else {
        r := ReturnValue(d, ret, 0);
      }
    }
  }

  /**
   * The first half of JSFunction::call: the context is found through the
   * stash, then the stashed function and the arguments are pushed.
   */
  method PushCallee(ctx: Context, key: int, args: seq<Scalar>) returns (callee: Value)
    requires ctx.Valid() && ctx.duk != null && ctx.SelfAssigned() && ctx.RefsTable()
    requires Indexed(ArrayIndex(key)) in ctx.duk.Deref(ctx.RefsValue()).props
    requires forall i :: 0 <= i < |args| ==> HasType(args[i], TypeOfScalar(args[i]))
    modifies ctx.duk
    ensures ctx.Valid() && ctx.duk.heap == old(ctx.duk.heap) && ctx.duk.nextId == old(ctx.duk.nextId)
    ensures callee == old(ctx.Stashed(ArrayIndex(key)))
    ensures ctx.duk.stack == old(ctx.duk.stack) + [callee] + EncodeAll(args)
  {
    var d := ctx.duk;
    var self := GetSelfFromContext(d);
    assert self == ctx.addr;
    ctx.GetRef(key);
    callee := d.At(-1);
    PushArgs(d, args);
  }

  /**
   * The failure branch of JSFunction::call, the thrown value on top: its
   * `stack` property is read as a string (NULL when it is not one, from
   * which no std::string can be built), popped, and the error is replaced
   * by its string form for the exception's message. Reading the property
   * off undefined or null throws the engine's TypeError instead.
   */
  method ReportFailure(d: Duk) returns (r: Result<Option<Scalar>>)
    requires d.Valid() && |d.stack| >= 1
    modifies d
    ensures d.Valid() && d.heap == old(d.heap) && d.nextId == old(d.nextId)
    ensures !Coercible(old(d.At(-1))) ==> r == Err(TypeError(InvalidBase)) && d.stack == old(d.stack)
    ensures Coercible(old(d.At(-1))) ==>
      var error := old(d.At(-1));
      var trace := Look(old(d.heap), error, StackKey);
      var m := FailureMessage(error, trace);
      (m.Some? ==> r == Err(ScriptEvaluation(m.value)) &&
                   d.stack == old(d.stack)[..|old(d.stack)| - 1] + [Text(SafeToString(error))]) &&
      (m.None? ==> r == Err(NullString) && d.stack == old(d.stack) + [trace])
  {
    ghost var s0 := d.stack;
    if !Coercible(d.At(-1)) {
      return Err(TypeError(InvalidBase));
    }
    d.GetProp(-1, StackKey);
    var trace := d.At(-1);
    if !trace.Text? {
      return Err(NullString);
    }
    d.PopN(1);
    assert d.stack == s0;
    var message := d.SafeToStringAt(-1);
    assert d.stack == s0[..|s0| - 1] + [Text(message)];
    return Err(ScriptEvaluation(CString(message) + "\n" + CString(trace.s)));
  }

  /**
   * Type<std::function<R(A...)>>::get: the value at `funcIndex` is stashed
   * under a new key and a handle on it is moved into the closure the
   * std::function holds. The local handle is left empty and its
   * destruction releases nothing, so the returned handle is the key's only
   * owner. Nothing checks that the value is a function.
   */
  method GetFunction(ctx: Context, funcIndex: int) returns (f: JSFunction)
    requires ctx.Valid() && ctx.duk != null && ctx.duk.ValidIndex(funcIndex)
    modifies ctx, ctx.duk
    ensures fresh(f) && f.d == ctx.duk && f.refKey == old(ctx.objectRefCounter)
    ensures ctx.Valid() && ctx.duk == old(ctx.duk) && ctx.duk.stack == old(ctx.duk.stack)
    ensures ctx.objectRefCounter == old(ctx.objectRefCounter) + 1 && ctx.HasRefs()
    ensures old(!ctx.HasRefs() || ctx.RefsTable()) ==>
      ctx.RefsTable() && ctx.Stashed(ArrayIndex(f.refKey)) == old(ctx.duk.At(funcIndex)) &&
      forall k: nat :: k != ArrayIndex(f.refKey) ==> ctx.Stashed(k) == old(ctx.Stashed(k))
  {
    var key := ctx.StashRef(funcIndex);
    var local := new JSFunction(ctx.duk, key);
    f := new JSFunction.Take(local);
    local.Destroy(ctx);
  }

  /**
   * A handle copied into another and both destroyed: the source, left
   * empty, releases nothing; the copy releases the key. The key is released
   * once.
   */
  method CopyThenDestroyBoth(ctx: Context, f: JSFunction) returns (ghost afterSource: map<nat, Object>)
    requires f.d != null && ctx.Valid() && ctx.duk == f.d && ctx.SelfAssigned() && ctx.HasRefs()
    modifies f, ctx.duk
    ensures afterSource == old(ctx.duk.heap) && f.Empty()
    ensures ctx.Valid() && ctx.duk.stack == old(ctx.duk.stack) &&
            (ctx.RefsTable() ==> ctx.Stashed(ArrayIndex(old(f.refKey))) == Undefined)
  {
    var g := new JSFunction.Take(f);
    f.Destroy(ctx);
    afterSource := ctx.duk.heap;
    g.Destroy(ctx);
  }

  /** Move assignment as written leaves the source with a null engine pointer next to its old key. */
  method MovedFromKeepsKey(a: JSFunction, b: JSFunction)
    requires a != b && b.refKey >= 0
    modifies a, b
    ensures b.d == null && b.refKey >= 0 && !b.Empty()
  {
    a.MoveAssignAsWritten(b);
  }

  /** Assignment as intended leaves the source empty. */
  method MovedFromIsEmpty(a: JSFunction, b: JSFunction)
    requires a != b
    modifies a, b
    ensures b.Empty()
  {
    a.Assign(b);
  }
}
