/**
 * The smart-pointer codecs, Type<std::shared_ptr<T>> and
 * Type<std::unique_ptr<T>>. Pushing a pointer stores a box owning it in the
 * context's box table and pushes a wrapper object holding the box key (under
 * `sptr_key` or `uptr_key`), the raw address (under `obj_ptr`) and a
 * finalizer that removes the box; the class's members are then bound on the
 * wrapper. Getting a pointer reads the key back and casts the box's content.
 */
module Pointers {
  import opened Errors
  import opened Engine
  import opened ClassInfo
  import opened Inspection
  import opened Boxes
  import opened Bridge
  import opened Codecs
  import opened Methods
  import opened ObjectInspector

  const SptrKey: Key := Hidden("sptr_key")
  const UptrKey: Key := Hidden("uptr_key")

  /**
   * Object `id` is the wrapper of box `key` for the object at `addr`: a plain
   * object with its box key and address, finalized by function `fin`, and
   * with the members of `visited` bound over those two properties.
   */
  ghost predicate Wrapper(h: map<nat, Object>, holders: map<nat, Closure>, id: nat, boxKey: Key, key: int, addr: nat,
                          fin: NativeFn, visited: seq<Decl>)
  {
    id in h && id + 1 in h && h[id].kind == PlainObject &&
    h[id].finalizer == Some(Ref(id + 1)) && h[id + 1].kind == Function(fin, 1) &&
    Get(h[id], boxKey) == Number(key) && Get(h[id], ObjPtr) == Pointer(addr) &&
    BindingsHold(h, holders, id, map[boxKey := Data(Number(key)), ObjPtr := Data(Pointer(addr))], visited)
  }

  /** duk_push_object, the box key, the address, then duk_set_finalizer with the given finalizer function. */
  method PushWrapper(d: Duk, boxKey: Key, key: int, addr: nat, fin: NativeFn) returns (objIdx: nat)
    requires d.Valid() && boxKey.Hidden? && boxKey != ObjPtr
    modifies d
    ensures d.Valid() && objIdx == |old(d.stack)| && d.stack == old(d.stack) + [Ref(old(d.nextId))]
    ensures old(d.nextId) !in old(d.heap) && d.nextId == old(d.nextId) + 2
    ensures var id := old(d.nextId);
      d.heap == old(d.heap)[id := Object(PlainObject, map[boxKey := Data(Number(key)), ObjPtr := Data(Pointer(addr))], 0, Some(Ref(id + 1)))]
                           [id + 1 := NewObject(Function(fin, 1))]
  {
    objIdx := PushKeyed(d, boxKey, key, addr);
    AttachFinalizer(d, objIdx, fin);
  }

  /** The wrapper before its finalizer: a plain object with the box key and the address. */
  method PushKeyed(d: Duk, boxKey: Key, key: int, addr: nat) returns (objIdx: nat)
    requires d.Valid() && boxKey.Hidden? && boxKey != ObjPtr
    modifies d
    ensures d.Valid() && objIdx == |old(d.stack)| && d.stack == old(d.stack) + [Ref(old(d.nextId))]
    ensures old(d.nextId) !in old(d.heap) && d.nextId == old(d.nextId) + 1
    ensures d.heap == old(d.heap)[old(d.nextId) := Object(PlainObject, map[boxKey := Data(Number(key)), ObjPtr := Data(Pointer(addr))], 0, None)]
  {
    ghost var id := d.nextId;
    objIdx := d.PushNew(PlainObject);
    d.Push(Number(key));
    d.PutProp(-2, boxKey);
    d.Push(Pointer(addr));
    d.PutProp(-2, ObjPtr);
    assert d.heap[id].props == map[boxKey := Data(Number(key)), ObjPtr := Data(Pointer(addr))];
  }

  /**
   * The common part of both `push`es once the box is made: store the box,
   * push its wrapper, bind T's members (and its ancestors') on it.
   */
  method PushBoxed(ctx: Context, natives: ClosureHeap, r: Registry, ds: Declarations, t: TypeId,
                   box: Box, addr: nat, boxKey: Key, fin: NativeFn) returns (key: int)
    requires ctx.Valid() && ctx.duk != null && natives.Valid() && WellFormed(r) && Inspectable(r, ds, t)
    requires boxKey == SptrKey || boxKey == UptrKey
    modifies ctx, ctx.duk, natives
    ensures ctx.Valid() && ctx.duk == old(ctx.duk) && natives.Valid() && HoldersGrow(old(natives.holders), natives.holders)
    ensures key == old(ctx.boxCounter) + 1 && ctx.boxCounter == key
    ensures key !in old(ctx.boxes) && ctx.boxes == old(ctx.boxes)[key := box]
    ensures ctx.objectRefCounter == old(ctx.objectRefCounter) && ctx.scriptId == old(ctx.scriptId)
    ensures ctx.duk.stack == old(ctx.duk.stack) + [Ref(old(ctx.duk.nextId))] && old(ctx.duk.nextId) !in old(ctx.duk.heap)
    ensures forall j :: j in old(ctx.duk.heap) ==> j in ctx.duk.heap && ctx.duk.heap[j] == old(ctx.duk.heap[j])
    ensures Wrapper(ctx.duk.heap, natives.holders, old(ctx.duk.nextId), boxKey, key, addr, fin, Inspect(r, ds, t))
  {
    key := ctx.StoreBox(box);
    var d := ctx.duk;
    ghost var h0 := d.heap;
    ghost var id := d.nextId;
    var objIdx := PushWrapper(d, boxKey, key, addr, fin);
    ghost var h1 := d.heap;
    InspectObject(d, natives, objIdx, Inspect(r, ds, t));
    WrapperBound(h0, h1, d.heap, natives.holders, id, boxKey, key, addr, fin, Inspect(r, ds, t));
  }

  /** Binding the members on a freshly pushed wrapper keeps it a wrapper, and keeps the older objects. */
  lemma WrapperBound(h0: map<nat, Object>, h1: map<nat, Object>, h2: map<nat, Object>, holders: map<nat, Closure>,
                     id: nat, boxKey: Key, key: int, addr: nat, fin: NativeFn, visited: seq<Decl>)
    requires boxKey.Hidden? && boxKey != ObjPtr && forall j :: j in h0 ==> j < id
    requires h1 == h0[id := Object(PlainObject, map[boxKey := Data(Number(key)), ObjPtr := Data(Pointer(addr))], 0, Some(Ref(id + 1)))]
                     [id + 1 := NewObject(Function(fin, 1))]
    requires Extends(h1, h2, id)
    requires BindingsHold(h2, holders, id, map[boxKey := Data(Number(key)), ObjPtr := Data(Pointer(addr))], visited)
    ensures Wrapper(h2, holders, id, boxKey, key, addr, fin, visited)
    ensures forall j :: j in h0 ==> j in h2 && h2[j] == h0[j]
  {
    assert LastBinding(visited, boxKey).None? && LastBinding(visited, ObjPtr).None?;
    assert id + 1 != id;
  }

  /**
   * Type<shared_ptr<T>>::push: an empty pointer is pushed as null and
   * stores nothing; otherwise a box owning the pointer, its element typed by
   * `typing` (`BaseClass<T>::type` as written), is stored and its wrapper
   * pushed.
   */
  method PushShared(ctx: Context, natives: ClosureHeap, typing: BoxTyping, r: Registry, ds: Declarations, t: TypeId,
                    p: Option<Instance>)
    requires ctx.Valid() && ctx.duk != null && natives.Valid() && WellFormed(r) && Inspectable(r, ds, t)
    modifies ctx, ctx.duk, natives
    ensures ctx.Valid() && ctx.duk == old(ctx.duk) && natives.Valid() && HoldersGrow(old(natives.holders), natives.holders)
    ensures ctx.objectRefCounter == old(ctx.objectRefCounter) && ctx.scriptId == old(ctx.scriptId)
    ensures forall j :: j in old(ctx.duk.heap) ==> j in ctx.duk.heap && ctx.duk.heap[j] == old(ctx.duk.heap[j])
    ensures p.None? ==>
      ctx.duk.stack == old(ctx.duk.stack) + [Null] && ctx.duk.heap == old(ctx.duk.heap) &&
      ctx.boxes == old(ctx.boxes) && ctx.boxCounter == old(ctx.boxCounter)
    ensures p.Some? ==>
      var key := old(ctx.boxCounter) + 1;
      ctx.boxCounter == key && key !in old(ctx.boxes) &&
      ctx.boxes == old(ctx.boxes)[key := Box(SharedOwner, ElemOf(typing, r, t), p)] &&
      ctx.duk.stack == old(ctx.duk.stack) + [Ref(old(ctx.duk.nextId))] &&
      Wrapper(ctx.duk.heap, natives.holders, old(ctx.duk.nextId), SptrKey, key, p.value.addr, SharedFinalizer, Inspect(r, ds, t))
  {
    if p.None? {
      ctx.duk.Push(Null);
      return;
    }
    var _ := PushBoxed(ctx, natives, r, ds, t, Box(SharedOwner, ElemOf(typing, r, t), p), p.value.addr, SptrKey, SharedFinalizer);
  }

  /**
   * Type<shared_ptr<T>>::get: null or undefined read as an empty pointer;
   * anything else is looked up by its `sptr_key` (read with duk_get_int) in
   * the box table and cast to T, expecting the box element `typing` names.
   * Neither the engine nor the table changes.
   */
  method GetSharedPtr(ctx: Context, typing: BoxTyping, r: Registry, t: TypeId, index: int) returns (res: Result<Option<Instance>>)
    requires ctx.Valid() && ctx.duk != null && ctx.duk.ValidIndex(index) && WellFormed(r)
    modifies ctx.duk
    ensures ctx.Valid() && ctx.duk.stack == old(ctx.duk.stack) && ctx.duk.heap == old(ctx.duk.heap)
    ensures ctx.duk.nextId == old(ctx.duk.nextId)
    ensures var v := ctx.duk.At(index);
      (v.Null? || v.Undefined? ==> res == Ok(None)) &&
      (!(v.Null? || v.Undefined?) ==>
        var key := IntOf(ctx.duk.PropOf(v, SptrKey));
        (key !in ctx.boxes ==> res == Err(OutOfRange)) &&
        (key in ctx.boxes ==> res == SharedAssign(r, ctx.boxes[key], ElemOf(typing, r, t), t)))
  {
    var d := ctx.duk;
    var v := d.At(index);
    if v.Null? || v.Undefined? {
      return Ok(None);
    }
    d.GetProp(index, SptrKey);
    var key := IntOf(d.At(-1));
    d.PopN(1);
    var b := ctx.GetBox(key);
    if b.Err? {
      return Err(b.error);
    }
    res := SharedAssign(r, b.value, ElemOf(typing, r, t), t);
  }

  /**
   * Type<shared_ptr<T>>::finalizer and Type<unique_ptr<T>>::finalizer, with
   * the object being finalized at index 0: the context found through
   * `self_ptr` removes the box whose key the object holds under `boxKey`.
   */
  method BoxFinalizer(ctx: Context, boxKey: Key) returns (nret: int)
    requires ctx.Valid() && ctx.duk != null && ctx.SelfAssigned() && |ctx.duk.stack| >= 1 && ctx.duk.stack[0].Ref?
    modifies ctx, ctx.duk
    ensures ctx.Valid() && ctx.duk == old(ctx.duk) && nret == 0
    ensures ctx.duk.stack == old(ctx.duk.stack) && ctx.duk.heap == old(ctx.duk.heap) && ctx.duk.nextId == old(ctx.duk.nextId)
    ensures ctx.boxes == old(ctx.boxes) - {IntOf(ctx.duk.PropOf(ctx.duk.stack[0], boxKey))}
    ensures ctx.boxCounter == old(ctx.boxCounter) && ctx.objectRefCounter == old(ctx.objectRefCounter)
  {
    var d := ctx.duk;
    var self := GetSelfFromContext(d);
    assert self == ctx.addr;
    d.GetProp(0, boxKey);
    var key := IntOf(d.At(-1));
    d.PopN(1);
    ctx.RemoveBox(key);
    nret := 0;
  }

  /**
   * Type<unique_ptr<T>>::push: an empty pointer fails the assertion;
   * otherwise, as for shared pointers, a box typed by `typing` takes
   * ownership.
   */
  method PushUnique(ctx: Context, natives: ClosureHeap, typing: BoxTyping, r: Registry, ds: Declarations, t: TypeId,
                    p: Option<Instance>)
    returns (res: Result<int>)
    requires ctx.Valid() && ctx.duk != null && natives.Valid() && WellFormed(r) && Inspectable(r, ds, t)
    modifies ctx, ctx.duk, natives
    ensures ctx.Valid() && ctx.duk == old(ctx.duk) && natives.Valid() && HoldersGrow(old(natives.holders), natives.holders)
    ensures ctx.objectRefCounter == old(ctx.objectRefCounter) && ctx.scriptId == old(ctx.scriptId)
    ensures forall j :: j in old(ctx.duk.heap) ==> j in ctx.duk.heap && ctx.duk.heap[j] == old(ctx.duk.heap[j])
    ensures p.None? ==>
      res == Err(Abort("value")) && ctx.duk.stack == old(ctx.duk.stack) && ctx.duk.heap == old(ctx.duk.heap) &&
      ctx.boxes == old(ctx.boxes) && ctx.boxCounter == old(ctx.boxCounter)
    ensures p.Some? ==>
      var key := old(ctx.boxCounter) + 1;
      res == Ok(key) && ctx.boxCounter == key && key !in old(ctx.boxes) &&
      ctx.boxes == old(ctx.boxes)[key := Box(UniqueOwner, ElemOf(typing, r, t), p)] &&
      ctx.duk.stack == old(ctx.duk.stack) + [Ref(old(ctx.duk.nextId))] &&
      Wrapper(ctx.duk.heap, natives.holders, old(ctx.duk.nextId), UptrKey, key, p.value.addr, UniqueFinalizer, Inspect(r, ds, t))
  {
    if p.None? {
      return Err(Abort("value"));
    }
    var key := PushBoxed(ctx, natives, r, ds, t, Box(UniqueOwner, ElemOf(typing, r, t), p), p.value.addr, UptrKey, UniqueFinalizer);
    res := Ok(key);
  }

  /**
   * Type<unique_ptr<T>>::get into an out-parameter holding `value`: there
   * is no null check, so reading `uptr_key` off null or undefined throws
   * the engine's TypeError; otherwise the box named by the key is moved
   * from (expecting the element `typing` names), and the table afterwards
   * holds the emptied box.
   */
  method GetUniquePtr(ctx: Context, typing: BoxTyping, r: Registry, t: TypeId, index: int, value: Option<Instance>)
    returns (res: Result<Moved>)
    requires ctx.Valid() && ctx.duk != null && ctx.duk.ValidIndex(index) && WellFormed(r)
    modifies ctx, ctx.duk
    ensures ctx.Valid() && ctx.duk == old(ctx.duk)
    ensures ctx.duk.stack == old(ctx.duk.stack) && ctx.duk.heap == old(ctx.duk.heap) && ctx.duk.nextId == old(ctx.duk.nextId)
    ensures ctx.boxCounter == old(ctx.boxCounter) && ctx.objectRefCounter == old(ctx.objectRefCounter)
    ensures !Coercible(ctx.duk.At(index)) ==> res == Err(TypeError(InvalidBase)) && ctx.boxes == old(ctx.boxes)
    ensures Coercible(ctx.duk.At(index)) ==>
      var key := IntOf(ctx.duk.PropOf(ctx.duk.At(index), UptrKey));
      (key !in old(ctx.boxes) ==> res == Err(OutOfRange) && ctx.boxes == old(ctx.boxes)) &&
      (key in old(ctx.boxes) ==>
        res == UniqueAssign(r, old(ctx.boxes[key]), ElemOf(typing, r, t), t, value) &&
        ctx.boxes == if res.Ok? then old(ctx.boxes)[key := res.value.box] else old(ctx.boxes))
  {
    var d := ctx.duk;
    if !Coercible(d.At(index)) {
      return Err(TypeError(InvalidBase));
    }
    d.GetProp(index, UptrKey);
    var key := IntOf(d.At(-1));
    d.PopN(1);
    var b := ctx.GetBox(key);
    if b.Err? {
      return Err(b.error);
    }
    res := UniqueAssign(r, b.value, ElemOf(typing, r, t), t, value);
    if res.Ok? {
      ctx.boxes := ctx.boxes[key := res.value.box];
    }
  }

  /**
   * A shared pointer to an object of class `inst.dynType`, pushed as a
   * pointer to S and read back from the top of the stack as a pointer to T:
   * the get casts the box the push stored. When both S and T are boxed by
   * their root (always under `ByRoot`, and as written when neither sits two
   * levels below a base) it is the same object when it is a T, empty when it
   * is not, bad_cast for a class of another hierarchy.
   */
  method SharedRoundTripOnStack(ctx: Context, natives: ClosureHeap, typing: BoxTyping, r: Registry, ds: Declarations,
                                s: TypeId, inst: Instance, t: TypeId) returns (res: Result<Option<Instance>>)
    requires ctx.Valid() && ctx.duk != null && natives.Valid() && WellFormed(r) && Inspectable(r, ds, s)
    requires IsAncestor(r, s, inst.dynType) && ctx.boxCounter < IntMax
    modifies ctx, ctx.duk, natives
    ensures ctx.Valid() && ctx.duk == old(ctx.duk) && ctx.duk.stack == old(ctx.duk.stack) + [Ref(old(ctx.duk.nextId))]
    ensures res == SharedAssign(r, Box(SharedOwner, ElemOf(typing, r, s), Some(inst)), ElemOf(typing, r, t), t)
    ensures RootTyped(typing, r, s) && RootTyped(typing, r, t) ==>
      res == if Root(r, t) != Root(r, s) then Err(BadCast)
             else if IsAncestor(r, t, inst.dynType) then Ok(Some(inst))
             else Ok(None)
  {
    PushShared(ctx, natives, typing, r, ds, s, Some(inst));
    ghost var id := ctx.duk.stack[|ctx.duk.stack| - 1].id;
    assert IntOf(ctx.duk.PropOf(Ref(id), SptrKey)) == ctx.boxCounter;
    res := GetSharedPtr(ctx, typing, r, t, -1);
    if RootTyped(typing, r, s) && RootTyped(typing, r, t) {
      RootTypedElem(typing, r, s);
      RootTypedElem(typing, r, t);
      SharedRoundTrip(r, s, inst, t);
    }
  }

  /**
   * The polymorphism test's SubConcrete pushed as shared_ptr<SubConcrete>
   * and read back as shared_ptr<IBase>: bad_cast as written, the object
   * itself with root-typed boxes.
   */
  method GrandchildOnStack(ctx: Context, natives: ClosureHeap, typing: BoxTyping, ds: Declarations, addr: nat)
    returns (res: Result<Option<Instance>>)
    requires ctx.Valid() && ctx.duk != null && natives.Valid() && WellFormed(ThreeLevels) && Inspectable(ThreeLevels, ds, 2)
    requires ctx.boxCounter < IntMax
    modifies ctx, ctx.duk, natives
    ensures ctx.Valid() && ctx.duk == old(ctx.duk)
    ensures res == if typing == AsWritten then Err(BadCast) else Ok(Some(Instance(addr, 2)))
  {
    GrandchildBadCastAsWritten(addr);
    res := SharedRoundTripOnStack(ctx, natives, typing, ThreeLevels, ds, 2, Instance(addr, 2), 0);
  }

  /**
   * The unique counterpart: the get moves out of the box the push stored.
   * When both S and T are boxed by their root the object is handed to the
   * out-parameter (whose previous object is destroyed) when it is a T,
   * destroyed when it is not, and in both
   * cases the box left in the table is empty.
   */
  method UniqueRoundTripOnStack(ctx: Context, natives: ClosureHeap, typing: BoxTyping, r: Registry, ds: Declarations,
                                s: TypeId, inst: Instance, t: TypeId, value: Option<Instance>) returns (res: Result<Moved>)
    requires ctx.Valid() && ctx.duk != null && natives.Valid() && WellFormed(r) && Inspectable(r, ds, s)
    requires IsAncestor(r, s, inst.dynType) && ctx.boxCounter < IntMax
    modifies ctx, ctx.duk, natives
    ensures ctx.Valid() && ctx.duk == old(ctx.duk) && ctx.duk.stack == old(ctx.duk.stack) + [Ref(old(ctx.duk.nextId))]
    ensures var b := Box(UniqueOwner, ElemOf(typing, r, s), Some(inst));
      res == UniqueAssign(r, b, ElemOf(typing, r, t), t, value) &&
      (res.Ok? ==> ctx.boxes == old(ctx.boxes)[old(ctx.boxCounter) + 1 := b.(content := None)])
    ensures RootTyped(typing, r, s) && RootTyped(typing, r, t) ==>
      var b := Box(UniqueOwner, Root(r, s), Some(inst));
      res == if Root(r, t) != Root(r, s) then Err(BadCast)
             else if IsAncestor(r, t, inst.dynType) then Ok(Moved(b.(content := None), Some(inst), None, value))
             else Ok(Moved(b.(content := None), value, Some(inst), None))
  {
    var _ := PushUnique(ctx, natives, typing, r, ds, s, Some(inst));
    ghost var id := ctx.duk.stack[|ctx.duk.stack| - 1].id;
    assert IntOf(ctx.duk.PropOf(Ref(id), UptrKey)) == ctx.boxCounter;
    res := GetUniquePtr(ctx, typing, r, t, -1, value);
    if res.Ok? {
      UniqueMoveIsExclusive(r, Box(UniqueOwner, ElemOf(typing, r, s), Some(inst)), ElemOf(typing, r, t), t, value);
    }
    if RootTyped(typing, r, s) && RootTyped(typing, r, t) {
      RootTypedElem(typing, r, s);
      RootTypedElem(typing, r, t);
      UniqueRoundTrip(r, s, inst, t, value);
    }
  }

  /**
   * Every box a push stores is removed by the finalizer of the wrapper it
   * pushed: when the engine finalizes that wrapper, the table is back to
   * what it was before the push.
   */
  method SharedPushThenFinalize(ctx: Context, natives: ClosureHeap, typing: BoxTyping, r: Registry, ds: Declarations,
                                t: TypeId, inst: Instance)
    requires ctx.Valid() && ctx.duk != null && ctx.SelfAssigned() && natives.Valid() && WellFormed(r) && Inspectable(r, ds, t)
    requires ctx.boxCounter < IntMax
    modifies ctx, ctx.duk, natives
    ensures ctx.Valid() && ctx.duk == old(ctx.duk) && ctx.boxes == old(ctx.boxes)
    ensures ctx.duk.stack == old(ctx.duk.stack) + [Ref(old(ctx.duk.nextId))]
  {
    PushShared(ctx, natives, typing, r, ds, t, Some(inst));
    var d := ctx.duk;
    var w := d.At(-1);
    assert IntOf(d.PropOf(w, SptrKey)) == ctx.boxCounter;
    var caller := d.Enter([w]);
    var _ := BoxFinalizer(ctx, SptrKey);
    d.Leave(caller, 0);
  }
}
