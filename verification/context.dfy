/**
 * `duk::Context`: the owner of one engine heap, the table of ownership boxes
 * the heap's wrapper objects refer to, and the counter of references stashed
 * in `stash.refs`. The fields are those of the class; the engine handle
 * `duk` is null after the context has been moved from.
 */
module Bridge {
  import opened Errors
  import opened Engine
  import opened Boxes
  import Scalars

  const SelfPtr: Key := Named("self_ptr")
  const RefsKey: Key := Named("refs")

  /** A property name as the engine receives it: the C string of a std::string. */
  function NameKey(s: string): Key {
    Named(Scalars.CString(s))
  }

  /** `(duk_uarridx_t) key`: an int converted to a 32-bit unsigned array index. */
  function ArrayIndex(key: int): (i: nat)
    ensures 0 <= key <= IntMax ==> i == key
  {
    key % 0x1_0000_0000
  }

  /**
   * What the engine did with a source text: evaluated it to a value, or
   * threw an error whose string form is `message`. Parsing and running
   * scripts is the engine's and is given, not modelled.
   */
  datatype EvalOutcome = Evaluated(result: Value) | Threw(message: string)

  /** Context::GetSelfFromContext: the pointer stored under `self_ptr` in the stash. */
  method GetSelfFromContext(d: Duk) returns (self: nat)
    requires d.Valid()
    modifies d
    ensures d.Valid() && d.stack == old(d.stack) && d.heap == old(d.heap) && d.nextId == old(d.nextId)
    ensures self == PointerOf(d.PropOf(Ref(d.stash), SelfPtr))
  {
    d.Push(Ref(d.stash));
    d.GetProp(-1, SelfPtr);
    self := PointerOf(d.At(-1));
    d.PopN(2);
  }

  class Context {
    var duk: Duk?
    var scriptId: string
    var boxes: map<int, Box>
    var boxCounter: int
    var objectRefCounter: int
    /** The address of this Context object, as stored under `self_ptr`. */
    const addr: nat

    /** Every box key was handed out by the counter; counters never go below their start. */
    ghost predicate Valid()
      reads this, duk
    {
      addr != 0 && boxCounter >= 0 && objectRefCounter >= 0 &&
      (forall k :: k in boxes ==> 0 < k <= boxCounter) &&
      (duk != null ==> duk.Valid())
    }

    /** The stash names this object as the context of its engine. */
    ghost predicate SelfAssigned()
      reads this, duk
      requires duk != null
    {
      duk.PropOf(Ref(duk.stash), SelfPtr) == Pointer(addr)
    }

    predicate HasRefs()
      reads this, duk
      requires duk != null
    {
      RefsKey in duk.Deref(Ref(duk.stash)).props
    }

    function RefsValue(): Value
      reads this, duk
      requires duk != null
    {
      duk.PropOf(Ref(duk.stash), RefsKey)
    }

    /** `stash.refs` is an object (array-index writes to it take effect). */
    predicate RefsTable()
      reads this, duk
      requires duk != null
    {
      RefsValue().Ref? && RefsValue().id in duk.heap
    }

    /** The value stashed under an index of `stash.refs`. */
    function Stashed(k: nat): Value
      reads this, duk
      requires duk != null
    {
      duk.PropOf(RefsValue(), Indexed(k))
    }

    /** Context(scriptId): a new heap whose stash points back at this context. */
    constructor (scriptId: string, addr: nat)
      requires addr != 0
      ensures Valid() && duk != null && fresh(duk) && SelfAssigned()
      ensures this.scriptId == scriptId && this.addr == addr
      ensures boxes == map[] && boxCounter == 0 && objectRefCounter == 0
      ensures duk.stack == [] && !HasRefs()
    {
      this.addr := addr;
      this.scriptId := scriptId;
      boxes := map[];
      boxCounter := 0;
      objectRefCounter := 0;
      duk := new Duk();
      new;
      AssignSelf();
    }

    /**
     * Context(Context &&): takes the engine and a copy of the script id and
     * nulls the source handle. The box table and the counters are not
     * transferred: the new context starts with an empty table and both
     * counters at 0, while the source keeps its boxes.
     */
    constructor Move(that: Context, addr: nat)
      requires that.Valid() && that.duk != null && addr != 0
      modifies that, that.duk
      ensures Valid() && duk == old(that.duk) && SelfAssigned()
      ensures that.duk == null && that.Valid()
      ensures scriptId == old(that.scriptId) && this.addr == addr
      ensures boxes == map[] && boxCounter == 0 && objectRefCounter == 0
      ensures that.boxes == old(that.boxes) && that.boxCounter == old(that.boxCounter)
      ensures that.scriptId == old(that.scriptId) && that.objectRefCounter == old(that.objectRefCounter)
      ensures duk.stack == old(that.duk.stack)
      ensures duk.heap == old(that.duk.Stored(Ref(that.duk.stash), SelfPtr, Pointer(addr)))
    {
      this.addr := addr;
      duk := that.duk;
      scriptId := that.scriptId;
      boxes := map[];
      boxCounter := 0;
      objectRefCounter := 0;
      new;
      that.duk := null;
      AssignSelf();
    }

    /**
     * operator=(Context &&): nothing on self-assignment; otherwise takes the
     * engine, moves the script id out (leaving the source's empty), nulls the
     * source handle and re-points the stash. This context keeps its own box
     * table and counters, and its previous engine is not destroyed.
     */
    method MoveAssign(that: Context)
      requires Valid() && that.Valid() && that.duk != null
      modifies this, that, that.duk
      ensures Valid() && that.Valid()
      ensures this == that ==> duk == old(duk) && scriptId == old(scriptId) && duk.heap == old(duk.heap)
      ensures this != that ==>
        duk == old(that.duk) && that.duk == null &&
        scriptId == old(that.scriptId) && that.scriptId == "" && SelfAssigned() &&
        duk.heap == old(that.duk.Stored(Ref(that.duk.stash), SelfPtr, Pointer(addr))) &&
        duk.stack == old(that.duk.stack)
      ensures boxes == old(boxes) && boxCounter == old(boxCounter) && objectRefCounter == old(objectRefCounter)
    {
      if this == that {
        return;
      }
      duk := that.duk;
      scriptId := that.scriptId;
      that.scriptId := "";
      that.duk := null;
      AssignSelf();
    }

    /** ~Context: the heap is destroyed only when the handle is non-null. */
    method Destroy() returns (destroyed: Duk?)
      modifies this
      ensures destroyed == old(duk) && duk == null
    {
      destroyed := duk;
      duk := null;
    }

    /** assignSelf: stores this context's address under `self_ptr` in the stash. */
    method AssignSelf()
      requires duk != null && duk.Valid()
      modifies duk
      ensures duk.Valid() && duk.stack == old(duk.stack) && duk.nextId == old(duk.nextId)
      ensures duk.heap == old(duk.Stored(Ref(duk.stash), SelfPtr, Pointer(addr)))
      ensures SelfAssigned()
      ensures HasRefs() == old(HasRefs()) && RefsValue() == old(RefsValue())
    {
      duk.Push(Ref(duk.stash));
      duk.Push(Pointer(addr));
      duk.PutProp(-2, SelfPtr);
      duk.PopN(1);
    }

    /**
     * storeBox: the counter is incremented first, so keys are 1, 2, 3, ...;
     * each key is larger than every key issued before and is never reused,
     * removed or not.
     */
    method StoreBox(box: Box) returns (key: int)
      requires Valid()
      modifies this
      ensures Valid()
      ensures key == old(boxCounter) + 1 && boxCounter == key
      ensures key !in old(boxes) && boxes == old(boxes)[key := box]
      ensures GetBox(key) == Ok(box) && forall k :: k in old(boxes) ==> k < key
      ensures duk == old(duk) && objectRefCounter == old(objectRefCounter) && scriptId == old(scriptId)
    {
      boxCounter := boxCounter + 1;
      boxes := boxes[boxCounter := box];
      key := boxCounter;
    }

    /** getBox: `map::at`, which throws out_of_range for a key not in the table. */
    function GetBox(key: int): (r: Result<Box>)
      reads this
      ensures r.Ok? <==> key in boxes
      ensures r.Ok? ==> r.value == boxes[key]
      ensures r.Err? ==> r.error == OutOfRange
    {
      if key in boxes then Ok(boxes[key]) else Err(OutOfRange)
    }

    /** removeBox: erases that key only; an absent key changes nothing. */
    method RemoveBox(key: int)
      requires Valid()
      modifies this
      ensures Valid()
      ensures boxes == old(boxes) - {key} && GetBox(key).Err?
      ensures forall k :: k != key ==> GetBox(k) == old(GetBox(k))
      ensures key !in old(boxes) ==> boxes == old(boxes)
      ensures boxCounter == old(boxCounter) && objectRefCounter == old(objectRefCounter) && duk == old(duk)
    {
      boxes := boxes - {key};
    }

    /**
     * defNamespaces: starting from the object on top, walks the first n - 1
     * names, creating an empty object for a name that is undefined and
     * reusing the value otherwise, and leaves each level pushed; a property
     * that already had a value keeps it. Returns the number of levels
     * pushed, max(n - 1, 0). Reading a name off a level that is undefined
     * or null is the engine's TypeError: the walk stops there, with the
     * levels pushed so far left on the stack.
     */
    method DefNamespaces(ns: seq<string>) returns (r: Result<int>)
      requires Valid() && duk != null && |duk.stack| >= 1
      modifies duk
      ensures Valid() && duk.Valid()
      ensures var n0 := |old(duk.stack)|;
        var m := if |ns| > 1 then |ns| - 1 else 0;
        n0 <= |duk.stack| <= n0 + m && duk.stack[..n0] == old(duk.stack) &&
        Levels(duk.heap, duk.stack, n0, |duk.stack| - n0, ns) &&
        (forall j :: n0 - 1 <= j < |duk.stack| - 1 ==> Coercible(duk.stack[j])) &&
        (r.Ok? ==> r.value == m && |duk.stack| == n0 + m) &&
        (r.Err? ==> r == Err(TypeError(InvalidBase)) && |duk.stack| < n0 + m && !Coercible(duk.stack[|duk.stack| - 1]))
      ensures DefinedKept(old(duk.heap), duk.heap)
      ensures NamespaceWrites(old(duk.heap), duk.heap, old(duk.nextId), duk.nextId, ns)
    {
      var n0 := |duk.stack|;
      var m := if |ns| > 1 then |ns| - 1 else 0;
      var depth := 0;
      while depth < m
        invariant 0 <= depth <= m && duk.Valid()
        invariant |duk.stack| == n0 + depth && duk.stack[..n0] == old(duk.stack)
        invariant Levels(duk.heap, duk.stack, n0, depth, ns)
        invariant forall j :: n0 - 1 <= j < |duk.stack| - 1 ==> Coercible(duk.stack[j])
        invariant DefinedKept(old(duk.heap), duk.heap)
        invariant NamespaceWrites(old(duk.heap), duk.heap, old(duk.nextId), duk.nextId, ns)
      {
        if !Coercible(duk.At(-1)) {
          return Err(TypeError(InvalidBase));
        }
        ghost var h, id := duk.heap, duk.nextId;
        DefineLevel(n0, depth, ns);
        DefinedKeptTransitive(old(duk.heap), h, duk.heap);
        NamespaceWritesTransitive(old(duk.heap), h, duk.heap, old(duk.nextId), id, duk.nextId, ns);
        depth := depth + 1;
      }
      r := Ok(m);
    }

    /** One step of defNamespaces: the level for ns[i] on top of the i levels already pushed. */
    method DefineLevel(n0: int, i: int, ns: seq<string>)
      requires duk != null && duk.Valid() && 1 <= n0 && 0 <= i < |ns|
      requires |duk.stack| == n0 + i && Levels(duk.heap, duk.stack, n0, i, ns) && Coercible(duk.stack[n0 + i - 1])
      modifies duk
      ensures duk.Valid() && |duk.stack| == n0 + i + 1 && duk.stack[..n0 + i] == old(duk.stack)
      ensures Levels(duk.heap, duk.stack, n0, i + 1, ns)
      ensures DefinedKept(old(duk.heap), duk.heap)
      ensures NamespaceWrites(old(duk.heap), duk.heap, old(duk.nextId), duk.nextId, ns)
    {
      var key := NameKey(ns[i]);
      ghost var h0, id0 := duk.heap, duk.nextId;
      duk.GetProp(-1, key);
      var isDefined := duk.At(-1) != Undefined;
      duk.PopN(1);
      if !isDefined {
        CreateLevel(n0, i, ns);
        CreatedLevelWrites(h0, duk.heap, id0, duk.stack[n0 + i - 1], ns, i);
      } else {
        NoWrites(h0, id0, ns);
      }
      ghost var h := duk.heap;
      duk.GetProp(-1, key);
      LevelsExtend(h, duk.stack, n0, i, ns);
    }

    /**
     * The missing level ns[i] is created as a fresh, empty plain object and
     * stored on the level below it; nothing else changes.
     */
    method CreateLevel(n0: int, i: int, ns: seq<string>)
      requires duk != null && duk.Valid() && 1 <= n0 && 0 <= i < |ns|
      requires |duk.stack| == n0 + i && Levels(duk.heap, duk.stack, n0, i, ns)
      requires Look(duk.heap, duk.stack[n0 + i - 1], NameKey(ns[i])) == Undefined
      modifies duk
      ensures duk.Valid() && duk.stack == old(duk.stack)
      ensures old(duk.nextId) !in old(duk.heap) && duk.nextId == old(duk.nextId) + 1
      ensures duk.heap == PutIn(old(duk.heap)[old(duk.nextId) := NewObject(PlainObject)],
                                duk.stack[n0 + i - 1], NameKey(ns[i]), Ref(old(duk.nextId)))
      ensures Levels(duk.heap, duk.stack, n0, i, ns) && DefinedKept(old(duk.heap), duk.heap)
      ensures var parent := duk.stack[n0 + i - 1];
        parent.Ref? && parent.id in duk.heap ==> Look(duk.heap, parent, NameKey(ns[i])) != Undefined
    {
      ghost var s0 := duk.stack;
      ghost var h0 := duk.heap;
      ghost var newId := duk.nextId;
      var _ := duk.PushNew(PlainObject);
      duk.PutProp(-2, NameKey(ns[i]));
      assert forall j :: 0 <= j < |s0| ==> Bounded(s0[j], newId);
      CreateKeepsLevels(h0, duk.heap, s0, n0, i, ns, s0[n0 + i - 1], NameKey(ns[i]), newId);
    }

    /**
     * The first half of stashRef: pushes the stash, creates `stash.refs` as
     * an empty object when the stash has no such property, and pushes it.
     * Nothing already stashed changes.
     */
    method PushRefs()
      requires duk != null && duk.Valid()
      modifies duk
      ensures duk.Valid() && |duk.stack| == |old(duk.stack)| + 2 && duk.stack[..|old(duk.stack)|] == old(duk.stack)
      ensures duk.stack[|duk.stack| - 2] == Ref(duk.stash) && duk.stack[|duk.stack| - 1] == RefsValue()
      ensures HasRefs() && (old(HasRefs()) ==> RefsValue() == old(RefsValue()))
      ensures old(!HasRefs() || RefsTable()) ==> RefsTable()
      ensures forall k: nat :: Stashed(k) == old(Stashed(k))
      ensures duk.PropOf(Ref(duk.stash), SelfPtr) == old(duk.PropOf(Ref(duk.stash), SelfPtr))
    {
      duk.Push(Ref(duk.stash));
      if !duk.HasProp(-1, RefsKey) {
        var _ := duk.PushNew(PlainObject);
        duk.PutProp(-2, RefsKey);
      }
      duk.GetProp(-1, RefsKey);
    }

    /**
     * stashRef: the key is the counter's value before the increment (0, 1,
     * 2, ...). The value at the caller's index is stored under that key, as
     * an unsigned array index, in `stash.refs`, which is created on first
     * use; a negative index is shifted by the two temporaries pushed
     * meanwhile. The stack is as before.
     */
    method StashRef(stackIndex: int) returns (key: int)
      requires Valid() && duk != null && duk.ValidIndex(stackIndex)
      modifies this, duk
      ensures Valid() && duk == old(duk) && duk.stack == old(duk.stack)
      ensures key == old(objectRefCounter) && objectRefCounter == key + 1
      ensures boxes == old(boxes) && boxCounter == old(boxCounter)
      ensures HasRefs() && (old(HasRefs()) ==> RefsValue() == old(RefsValue()))
      ensures old(!HasRefs() || RefsTable()) ==>
        RefsTable() && Stashed(ArrayIndex(key)) == old(duk.At(stackIndex)) &&
        forall k: nat :: k != ArrayIndex(key) ==> Stashed(k) == old(Stashed(k))
      ensures duk.PropOf(Ref(duk.stash), SelfPtr) == old(duk.PropOf(Ref(duk.stash), SelfPtr))
    {
      key := objectRefCounter;
      objectRefCounter := objectRefCounter + 1;
      StoreRef(key, stackIndex);
    }

    /** The engine half of stashRef: `stash.refs[key] = value at stackIndex`, with the stack as before. */
    method StoreRef(key: int, stackIndex: int)
      requires duk != null && duk.Valid() && duk.ValidIndex(stackIndex)
      modifies duk
      ensures duk.Valid() && duk.stack == old(duk.stack)
      ensures HasRefs() && (old(HasRefs()) ==> RefsValue() == old(RefsValue()))
      ensures old(!HasRefs() || RefsTable()) ==>
        RefsTable() && Stashed(ArrayIndex(key)) == old(duk.At(stackIndex)) &&
        forall k: nat :: k != ArrayIndex(key) ==> Stashed(k) == old(Stashed(k))
      ensures duk.PropOf(Ref(duk.stash), SelfPtr) == old(duk.PropOf(Ref(duk.stash), SelfPtr))
    {
      ghost var v := duk.At(stackIndex);
      ghost var s0 := duk.stack;
      PushRefs();
      var from := if stackIndex < 0 then stackIndex - 2 else stackIndex;
      assert duk.Abs(from) == old(duk.Abs(stackIndex)) < |s0|;
      assert duk.stack[duk.Abs(from)] == s0[duk.Abs(from)];
      PutIndexed(ArrayIndex(key), from, v);
      assert duk.stack == s0;
    }

    /**
     * The second half of stashRef, with the stash and `stash.refs` pushed:
     * `refs[i]` becomes the value at `from`, and both temporaries are popped.
     */
    method PutIndexed(i: nat, from: int, ghost v: Value)
      requires duk != null && duk.Valid() && |duk.stack| >= 2 && HasRefs()
      requires duk.stack[|duk.stack| - 2] == Ref(duk.stash) && duk.stack[|duk.stack| - 1] == RefsValue()
      requires duk.ValidIndex(from) && duk.Abs(from) < |duk.stack| - 2 && duk.stack[duk.Abs(from)] == v
      modifies duk
      ensures duk.Valid() && duk.stack == old(duk.stack)[..|old(duk.stack)| - 2]
      ensures HasRefs() && RefsValue() == old(RefsValue())
      ensures old(RefsTable()) ==>
        RefsTable() && Stashed(i) == v && forall k: nat :: k != i ==> Stashed(k) == old(Stashed(k))
      ensures duk.PropOf(Ref(duk.stash), SelfPtr) == old(duk.PropOf(Ref(duk.stash), SelfPtr))
    {
      ghost var h1 := duk.heap;
      ghost var r := RefsValue();
      assert forall k: nat :: Look(h1, r, Indexed(k)) == Stashed(k);
      duk.Dup(from);
      duk.PutProp(-2, Indexed(i));
      StoreIndexed(h1, duk.heap, duk.stash, i, v);
      duk.PopN(2);
      assert RefsValue() == r;
      assert forall k: nat :: Stashed(k) == Look(duk.heap, r, Indexed(k));
    }

    /** unstashRef: deletes that index of `stash.refs`, so the key is absent afterwards, and nothing else. */
    method UnstashRef(refKey: int)
      requires Valid() && duk != null && HasRefs()
      modifies duk
      ensures Valid() && duk.stack == old(duk.stack)
      ensures RefsValue() == old(RefsValue()) && HasRefs()
      ensures RefsTable() ==> Indexed(ArrayIndex(refKey)) !in duk.Deref(RefsValue()).props
      ensures RefsTable() ==> Stashed(ArrayIndex(refKey)) == Undefined
      ensures forall k: nat :: k != ArrayIndex(refKey) ==> Stashed(k) == old(Stashed(k))
      ensures duk.PropOf(Ref(duk.stash), SelfPtr) == old(duk.PropOf(Ref(duk.stash), SelfPtr))
    {
      duk.Push(Ref(duk.stash));
      duk.GetProp(-1, RefsKey);
      duk.DelProp(-1, Indexed(ArrayIndex(refKey)));
      duk.PopN(2);
    }

    /** getRef: pushes the stashed value; the two temporaries are swapped below it and popped. */
    method GetRef(key: int)
      requires Valid() && duk != null && HasRefs()
      requires RefsTable() && Indexed(ArrayIndex(key)) in duk.Deref(RefsValue()).props
      modifies duk
      ensures Valid() && duk.heap == old(duk.heap) && duk.nextId == old(duk.nextId)
      ensures duk.stack == old(duk.stack) + [old(Stashed(ArrayIndex(key)))]
    {
      duk.Push(Ref(duk.stash));
      duk.GetProp(-1, RefsKey);
      duk.GetProp(-1, Indexed(ArrayIndex(key)));
      duk.SwapTop(-3);
      duk.PopN(2);
    }

    /**
     * rethrowDukError: the value on top is replaced by its string form, and
     * a ScriptEvaluationExcepton carries that string (up to a NUL). With an
     * empty stack the engine itself fails on the missing index.
     */
    method RethrowDukError() returns (e: Error)
      requires Valid() && duk != null
      modifies duk
      ensures Valid() && duk.heap == old(duk.heap) && duk.nextId == old(duk.nextId) && |duk.stack| == |old(duk.stack)|
      ensures old(duk.stack) == [] ==> e == InvalidIndex && duk.stack == []
      ensures old(duk.stack) != [] ==>
        var s := SafeToString(old(duk.At(-1)));
        e == ScriptEvaluation(Scalars.CString(s)) && duk.stack == old(duk.stack)[|duk.stack| - 1 := Text(s)]
    {
      if duk.stack == [] {
        return InvalidIndex;
      }
      var s := duk.SafeToStringAt(-1);
      e := ScriptEvaluation(Scalars.CString(s));
    }

    /**
     * evalStringNoRes as written: duk_peval_string_noresult leaves no value
     * on the stack, the error included, so on failure the message is read
     * from whatever was below (or the index is missing).
     */
    method EvalStringNoRes(code: string, outcome: EvalOutcome) returns (r: Result<()>)
      requires Valid() && duk != null
      modifies duk
      ensures Valid() && duk.heap == old(duk.heap) && |duk.stack| == |old(duk.stack)|
      ensures outcome.Evaluated? ==> r == Ok(()) && duk.stack == old(duk.stack)
      ensures outcome.Threw? && old(duk.stack) == [] ==> r == Err(InvalidIndex)
      ensures outcome.Threw? && old(duk.stack) != [] ==>
        r == Err(ScriptEvaluation(Scalars.CString(SafeToString(old(duk.At(-1))))))
    {
      if outcome.Threw? {
        var e := RethrowDukError();
        return Err(e);
      }
      r := Ok(());
    }

    /**
     * evalStringNoRes with the error kept: evaluate with the result left on
     * top, pop it on success, and on failure report the script's own error.
     */
    method EvalStringNoResReporting(code: string, outcome: EvalOutcome) returns (r: Result<()>)
      requires Valid() && duk != null
      modifies duk
      ensures Valid() && duk.heap == old(duk.heap)
      ensures outcome.Evaluated? ==> r == Ok(()) && duk.stack == old(duk.stack)
      ensures outcome.Threw? ==>
        r == Err(ScriptEvaluation(Scalars.CString(outcome.message))) &&
        duk.stack == old(duk.stack) + [Text(outcome.message)]
    {
      match outcome
      case Evaluated(v) =>
        duk.Push(Undefined);
        duk.PopN(1);
        r := Ok(());
      case Threw(m) =>
        duk.Push(Text(m));
        var e := RethrowDukError();
        r := Err(e);
    }
  }

  /**
   * With nothing on the stack a failed no-result evaluation reports a
   * missing index instead of the script's error; the reporting variant
   * gives the script's message.
   */
  method EvalErrorLost(ctx: Context, message: string) returns (asWritten: Result<()>, reporting: Result<()>)
    requires ctx.Valid() && ctx.duk != null && ctx.duk.stack == []
    modifies ctx.duk
    ensures asWritten == Err(InvalidIndex)
    ensures reporting == Err(ScriptEvaluation(Scalars.CString(message)))
  {
    asWritten := ctx.EvalStringNoRes("", Threw(message));
    reporting := ctx.EvalStringNoResReporting("", Threw(message));
  }

  /** The property `k` of the object `v` designates in heap `h`; non-objects read as undefined. */
  function Look(h: map<nat, Object>, v: Value, k: Key): Value {
    if v.Ref? && v.id in h then Get(h[v.id], k) else Undefined
  }

  /**
   * The i levels above position n0 - 1 of stack s are the namespace chain of
   * ns: each is the property ns[j] of the level below, and it is defined
   * whenever the level below is an object.
   */
  ghost predicate Levels(h: map<nat, Object>, s: seq<Value>, n0: int, i: int, ns: seq<string>) {
    1 <= n0 && 0 <= i <= |ns| && n0 + i <= |s| &&
    forall j :: 0 <= j < i ==>
      s[n0 + j] == Look(h, s[n0 + j - 1], NameKey(ns[j])) &&
      (s[n0 + j - 1].Ref? && s[n0 + j - 1].id in h ==> s[n0 + j] != Undefined)
  }

  /** No property that had a value has lost or changed it. */
  ghost predicate DefinedKept(h0: map<nat, Object>, h: map<nat, Object>) {
    forall id, k :: id in h0 && Get(h0[id], k) != Undefined ==> id in h && Get(h[id], k) == Get(h0[id], k)
  }

  lemma DefinedKeptTransitive(h0: map<nat, Object>, h1: map<nat, Object>, h2: map<nat, Object>)
    requires DefinedKept(h0, h1) && DefinedKept(h1, h2)
    ensures DefinedKept(h0, h2)
  {
  }

  /**
   * Creating the missing level (a newId object `newId`, stored under `key` on
   * the parent where it was undefined) keeps every lower level and every
   * defined property.
   */
  lemma CreateKeepsLevels(h0: map<nat, Object>, h: map<nat, Object>, s: seq<Value>, n0: int, i: int,
                          ns: seq<string>, parent: Value, key: Key, newId: nat)
    requires Levels(h0, s, n0, i, ns) && |s| == n0 + i && i < |ns|
    requires parent == s[n0 + i - 1] && key == NameKey(ns[i]) && Look(h0, parent, key) == Undefined
    requires newId !in h0 && forall j :: 0 <= j < |s| ==> Bounded(s[j], newId)
    requires var h1 := h0[newId := NewObject(PlainObject)];
      h == if parent.Ref? && parent.id in h1 then h1[parent.id := Put(h1[parent.id], key, Ref(newId))] else h1
    ensures Levels(h, s, n0, i, ns) && DefinedKept(h0, h)
    ensures Look(h, parent, key) == (if parent.Ref? && parent.id in h0 then Ref(newId) else Undefined)
  {
    forall j | 0 <= j < i
      ensures s[n0 + j] == Look(h, s[n0 + j - 1], NameKey(ns[j]))
      ensures s[n0 + j - 1].Ref? && s[n0 + j - 1].id in h ==> s[n0 + j] != Undefined
    {
      var p := s[n0 + j - 1];
      assert Bounded(p, newId) && Bounded(s[n0 + j], newId);
      if p.Ref? && parent.Ref? && p.id == parent.id && NameKey(ns[j]) == key {
        assert p == parent;
      }
    }
  }

  /** The value pushed for level i is the property ns[i] of level i - 1: the chain grows by one. */
  lemma LevelsExtend(h: map<nat, Object>, s: seq<Value>, n0: int, i: int, ns: seq<string>)
    requires 1 <= n0 && 0 <= i < |ns| && |s| == n0 + i + 1
    requires Levels(h, s[..n0 + i], n0, i, ns)
    requires s[n0 + i] == Look(h, s[n0 + i - 1], NameKey(ns[i]))
    requires s[n0 + i - 1].Ref? && s[n0 + i - 1].id in h ==> s[n0 + i] != Undefined
    ensures Levels(h, s, n0, i + 1, ns)
  {
    forall j | 0 <= j < i
      ensures s[n0 + j] == Look(h, s[n0 + j - 1], NameKey(ns[j]))
    {
      assert s[n0 + j] == s[..n0 + i][n0 + j] && s[n0 + j - 1] == s[..n0 + i][n0 + j - 1];
    }
  }

  /** The value key `k` of object `j` had in `h0`; undefined for an object `h0` lacks. */
  function Before(h0: map<nat, Object>, j: nat, k: Key): Value {
    if j in h0 then Get(h0[j], k) else Undefined
  }

  /** `k` is the key of one of the names of `ns`. */
  predicate NamesLevel(ns: seq<string>, k: Key) {
    exists l :: 0 <= l < |ns| && k == NameKey(ns[l])
  }

  /**
   * What defNamespaces may do to a heap whose ids are below id0: allocate
   * the ids id0 .. id1 - 1, each an empty plain object with no finalizer,
   * and write, under a name of `ns` that was undefined there, a reference
   * to one of them. Every older object keeps its kind, length and
   * finalizer, and every other property keeps its value.
   */
  ghost predicate NamespaceWrites(h0: map<nat, Object>, h: map<nat, Object>, id0: nat, id1: nat, ns: seq<string>) {
    id0 <= id1 && (forall j :: j in h0 ==> j < id0) &&
    (forall j :: j in h <==> j in h0 || id0 <= j < id1) &&
    (forall j :: j in h0 ==> h[j].kind == h0[j].kind && h[j].length == h0[j].length && h[j].finalizer == h0[j].finalizer) &&
    (forall j :: id0 <= j < id1 ==> h[j].kind == PlainObject && h[j].length == 0 && h[j].finalizer.None?) &&
    forall j, k :: j in h && Get(h[j], k) != Before(h0, j, k) ==>
      Before(h0, j, k) == Undefined && NamesLevel(ns, k) && Get(h[j], k).Ref? && id0 <= Get(h[j], k).id < id1
  }

  lemma NoWrites(h0: map<nat, Object>, id0: nat, ns: seq<string>)
    requires forall j :: j in h0 ==> j < id0
    ensures NamespaceWrites(h0, h0, id0, id0, ns)
  {
  }

  /** Creating one level is such a write. */
  lemma CreatedLevelWrites(h0: map<nat, Object>, h: map<nat, Object>, id: nat, parent: Value, ns: seq<string>, i: nat)
    requires i < |ns| && (forall j :: j in h0 ==> j < id) && Look(h0, parent, NameKey(ns[i])) == Undefined
    requires h == PutIn(h0[id := NewObject(PlainObject)], parent, NameKey(ns[i]), Ref(id))
    ensures NamespaceWrites(h0, h, id, id + 1, ns)
  {
    forall j, k | j in h && Get(h[j], k) != Before(h0, j, k)
      ensures Before(h0, j, k) == Undefined && NamesLevel(ns, k) && Get(h[j], k).Ref? && id <= Get(h[j], k).id < id + 1
    {
      if j == id {
        assert !(parent.Ref? && parent.id == id && id in h0);
      }
      assert k == NameKey(ns[i]);
    }
  }

  /** Two rounds of namespace writes are one. */
  lemma NamespaceWritesTransitive(h0: map<nat, Object>, h1: map<nat, Object>, h2: map<nat, Object>,
                                  id0: nat, id1: nat, id2: nat, ns: seq<string>)
    requires NamespaceWrites(h0, h1, id0, id1, ns) && NamespaceWrites(h1, h2, id1, id2, ns)
    ensures NamespaceWrites(h0, h2, id0, id2, ns)
  {
    forall j, k | j in h2 && Get(h2[j], k) != Before(h0, j, k)
      ensures Before(h0, j, k) == Undefined && NamesLevel(ns, k) && Get(h2[j], k).Ref? && id0 <= Get(h2[j], k).id < id2
    {
      if j in h1 {
        if Get(h1[j], k) != Before(h0, j, k) {
          assert Before(h1, j, k) == Get(h1[j], k) != Undefined;
          assert Get(h2[j], k) == Get(h1[j], k);
        } else {
          assert Get(h2[j], k) != Before(h1, j, k) == Before(h0, j, k);
        }
      } else {
        assert j !in h0 && Before(h1, j, k) == Undefined == Before(h0, j, k);
      }
    }
  }

  /**
   * Writing index i of the object `stash.refs` designates changes that index
   * alone: the stash keeps its `refs` and `self_ptr`, and every other index
   * keeps its value. When `refs` is not an object the write is dropped.
   */
  lemma StoreIndexed(h: map<nat, Object>, h': map<nat, Object>, stash: nat, i: nat, v: Value)
    requires stash in h
    requires var r := Get(h[stash], RefsKey);
      h' == if r.Ref? && r.id in h then h[r.id := Put(h[r.id], Indexed(i), v)] else h
    ensures stash in h' && Get(h'[stash], RefsKey) == Get(h[stash], RefsKey)
    ensures Get(h'[stash], SelfPtr) == Get(h[stash], SelfPtr)
    ensures var r := Get(h[stash], RefsKey);
      (r.Ref? && r.id in h ==> r.id in h' && Look(h', r, Indexed(i)) == v) &&
      forall k: nat :: k != i ==> Look(h', r, Indexed(k)) == Look(h, r, Indexed(k))
  {
  }
}
