/**
 * PushObjectInspector and the default object codec. Pushing a bound object
 * creates a plain object holding the C++ address under the hidden
 * `obj_ptr`, then replays the class's declarations: a property becomes an
 * accessor whose getter (and setter) are bound native functions, a member
 * function becomes a data property holding a bound native function, and
 * every other declaration is ignored (the EmptyInspector defaults).
 */
module ObjectInspector {
  import opened Errors
  import opened Engine
  import opened ClassInfo
  import opened Scalars
  import opened Inspection
  import opened Codecs
  import opened Bridge
  import opened Methods

  /** The declarations this inspector turns into properties. */
  predicate Binds(decl: Decl) {
    decl.Property? || decl.Method?
  }

  /**
   * The declaration that decides what key k holds after visiting vs: the
   * last one that binds k. Declarations only bind plain (non-hidden) keys.
   */
  function LastBinding(vs: seq<Decl>, k: Key): (r: Option<Decl>)
    ensures r.Some? ==> Binds(r.value) && NameKey(r.value.name) == k && r.value in vs
    ensures r.None? ==> forall j :: 0 <= j < |vs| && Binds(vs[j]) ==> NameKey(vs[j].name) != k
  {
    if vs == [] then None
    else
      var last := vs[|vs| - 1];
      if Binds(last) && NameKey(last.name) == k then Some(last)
      else
        var r := LastBinding(vs[..|vs| - 1], k);
        assert forall j :: 0 <= j < |vs| - 1 ==> vs[..|vs| - 1][j] == vs[j];
        r
  }

  /** A declaration binding k at position j with no later declaration binding k is the one that decides k. */
  lemma {:induction false} LastBindingIsLast(vs: seq<Decl>, j: nat)
    requires j < |vs| && Binds(vs[j])
    requires forall i :: j < i < |vs| && Binds(vs[i]) ==> NameKey(vs[i].name) != NameKey(vs[j].name)
    ensures LastBinding(vs, NameKey(vs[j].name)) == Some(vs[j])
    decreases |vs|
  {
    if j < |vs| - 1 {
      var front := vs[..|vs| - 1];
      assert front[j] == vs[j];
      forall i | j < i < |front| && Binds(front[i])
        ensures NameKey(front[i].name) != NameKey(front[j].name)
      {
        assert front[i] == vs[i];
      }
      LastBindingIsLast(front, j);
    }
  }

  /** A member closure: a member function's holder. */
  function MemberClosure(sig: Sig): Closure {
    Closure(false, sig)
  }

  /** The property p is what declaration decl defines: accessor functions or a method function bound to its holders. */
  ghost predicate Realizes(h: map<nat, Object>, holders: map<nat, Closure>, p: Prop, decl: Decl) {
    match decl
    case Method(_, sig) =>
      p.Data? && BoundTo(h, holders, p.value, MemberClosure(sig))
    case Property(_, g, s) =>
      p.Accessor? && BoundTo(h, holders, p.getter, MemberClosure(g)) &&
      (s.None? ==> p.setter.None?) &&
      (s.Some? ==> p.setter.Some? && BoundTo(h, holders, p.setter.value, MemberClosure(s.value)))
    case _ => false
  }

  /** h1 keeps every object of h0; the object `id` may differ only in its properties. */
  ghost predicate Extends(h0: map<nat, Object>, h1: map<nat, Object>, id: nat) {
    id in h0 && id in h1 && h1[id] == h0[id].(props := h1[id].props) &&
    forall j :: j in h0 ==> j in h1 && (j != id ==> h1[j] == h0[j])
  }

  /** Live holders are never freed or changed while an object is being built. */
  ghost predicate HoldersGrow(m0: map<nat, Closure>, m1: map<nat, Closure>) {
    forall a :: a in m0 ==> a in m1 && m1[a] == m0[a]
  }

  /** A realized property stays realized while the heap and the holders only grow around a non-function target. */
  lemma RealizesKept(h0: map<nat, Object>, m0: map<nat, Closure>, h1: map<nat, Object>, m1: map<nat, Closure>,
                     id: nat, p: Prop, decl: Decl)
    requires Realizes(h0, m0, p, decl) && Extends(h0, h1, id) && HoldersGrow(m0, m1) && !h0[id].kind.Function?
    ensures Realizes(h1, m1, p, decl)
  {
    forall v, c | BoundTo(h0, m0, v, c) ensures BoundTo(h1, m1, v, c) {
      assert v.id != id;
      assert ObjectIn(h1, v) == ObjectIn(h0, v);
    }
  }

  /** The bindings of a prefix of the visit: decided keys are realized, undecided keys hold what they held. */
  ghost predicate BindingsHold(h: map<nat, Object>, holders: map<nat, Closure>, id: nat,
                               props0: map<Key, Prop>, vs: seq<Decl>)
    requires id in h
  {
    (forall k :: LastBinding(vs, k).Some? ==>
      k in h[id].props && Realizes(h, holders, h[id].props[k], LastBinding(vs, k).value)) &&
    (forall k :: LastBinding(vs, k).None? ==>
      (k in h[id].props <==> k in props0) && (k in props0 ==> h[id].props[k] == props0[k]))
  }

  /** The bound native function PushMethod leaves on top of the stack. */
  method PushClosure(d: Duk, natives: ClosureHeap, c: Closure, ghost id: nat) returns (f: Value)
    requires d.Valid() && natives.Valid() && id in d.heap
    modifies d, natives
    ensures d.Valid() && natives.Valid() && d.stack == old(d.stack) + [f]
    ensures Extends(old(d.heap), d.heap, id) && d.heap[id] == old(d.heap[id]) && HoldersGrow(old(natives.holders), natives.holders)
    ensures BoundTo(d.heap, natives.holders, f, c) && f.Ref? && f.id !in old(d.heap)
  {
    var fidx := PushMethod(d, natives, c);
    f := d.At(fidx);
  }

  /**
   * What one inspector call does to the heap: the object `id` changes only
   * at the key the declaration binds, which then holds what the declaration
   * defines; a declaration that binds nothing changes nothing.
   */
  ghost predicate VisitEffect(h0: map<nat, Object>, m0: map<nat, Closure>, h1: map<nat, Object>, m1: map<nat, Closure>,
                              id: nat, decl: Decl)
  {
    Extends(h0, h1, id) && HoldersGrow(m0, m1) &&
    (Binds(decl) ==>
      NameKey(decl.name) in h1[id].props &&
      Realizes(h1, m1, h1[id].props[NameKey(decl.name)], decl) &&
      h1[id].props == h0[id].props[NameKey(decl.name) := h1[id].props[NameKey(decl.name)]]) &&
    (!Binds(decl) ==> h1 == h0)
  }

  /** The operands of duk_def_prop for a property: its name, the bound getter and, if declared, the bound setter. */
  method PushAccessorParts(d: Duk, natives: ClosureHeap, name: string, getter: Sig, setter: Option<Sig>, isStatic: bool,
                           ghost id: nat)
    returns (g: Value, s: Value)
    requires d.Valid() && natives.Valid() && id in d.heap
    modifies d, natives
    ensures d.Valid() && natives.Valid()
    ensures d.stack == old(d.stack) + [Text(CString(name)), g] + (if setter.Some? then [s] else [])
    ensures Extends(old(d.heap), d.heap, id) && d.heap[id] == old(d.heap[id]) && HoldersGrow(old(natives.holders), natives.holders)
    ensures BoundTo(d.heap, natives.holders, g, Closure(isStatic, getter))
    ensures setter.Some? ==> BoundTo(d.heap, natives.holders, s, Closure(isStatic, setter.value))
    ensures g.Ref? && g.id !in old(d.heap) && (setter.Some? ==> s.Ref? && s.id !in old(d.heap))
  {
    d.Push(Text(CString(name)));
    g := PushClosure(d, natives, Closure(isStatic, getter), id);
    s := Undefined;
    if setter.Some? {
      ghost var h1 := d.heap;
      s := PushClosure(d, natives, Closure(isStatic, setter.value), id);
      assert ObjectIn(d.heap, g) == ObjectIn(h1, g);
    }
  }

  /** PushObjectInspector::property: the name, the getter, the setter if any, then duk_def_prop on the object. */
  method DefineProperty(d: Duk, natives: ClosureHeap, objIdx: nat, name: string, getter: Sig, setter: Option<Sig>)
    requires d.Valid() && natives.Valid() && objIdx < |d.stack| && d.stack[objIdx].Ref?
    requires !d.heap[d.stack[objIdx].id].kind.Function?
    modifies d, natives
    ensures d.Valid() && natives.Valid() && d.stack == old(d.stack)
    ensures VisitEffect(old(d.heap), old(natives.holders), d.heap, natives.holders, d.stack[objIdx].id,
                        Property(name, getter, setter))
  {
    ghost var id := d.stack[objIdx].id;
    var g, s := PushAccessorParts(d, natives, name, getter, setter, false, id);
    ghost var h1 := d.heap;
    ghost var acc := Accessor(g, if setter.Some? then Some(s) else None);
    d.DefAccessor(objIdx, setter.Some?);
    AccessorDefined(old(d.heap), old(natives.holders), h1, d.heap, natives.holders, id, Property(name, getter, setter), acc);
  }

  /** Storing the accessor of bound functions at the property's key gives the effect of a property declaration. */
  lemma AccessorDefined(h0: map<nat, Object>, m0: map<nat, Closure>, h1: map<nat, Object>, h2: map<nat, Object>,
                        m: map<nat, Closure>, id: nat, decl: Decl, acc: Prop)
    requires decl.Property? && Extends(h0, h1, id) && h1[id] == h0[id] && HoldersGrow(m0, m)
    requires !h0[id].kind.Function?
    requires acc.Accessor? && BoundTo(h1, m, acc.getter, MemberClosure(decl.getter))
    requires decl.setter.None? ==> acc.setter.None?
    requires decl.setter.Some? ==> acc.setter.Some? && BoundTo(h1, m, acc.setter.value, MemberClosure(decl.setter.value))
    requires h2 == h1[id := h1[id].(props := h1[id].props[NameKey(decl.name) := acc])]
    ensures VisitEffect(h0, m0, h2, m, id, decl)
  {
    assert ObjectIn(h2, acc.getter) == ObjectIn(h1, acc.getter);
    if decl.setter.Some? {
      assert ObjectIn(h2, acc.setter.value) == ObjectIn(h1, acc.setter.value);
    }
  }

  /** PushObjectInspector::method: the bound function, then duk_put_prop_string on the object. */
  method PutMethod(d: Duk, natives: ClosureHeap, objIdx: nat, name: string, sig: Sig)
    requires d.Valid() && natives.Valid() && objIdx < |d.stack| && d.stack[objIdx].Ref?
    requires !d.heap[d.stack[objIdx].id].kind.Function?
    modifies d, natives
    ensures d.Valid() && natives.Valid() && d.stack == old(d.stack)
    ensures VisitEffect(old(d.heap), old(natives.holders), d.heap, natives.holders, d.stack[objIdx].id, Method(name, sig))
  {
    ghost var id := d.stack[objIdx].id;
    var f := PushClosure(d, natives, MemberClosure(sig), id);
    ghost var h1 := d.heap;
    d.PutProp(objIdx, NameKey(name));
    assert ObjectIn(d.heap, f) == ObjectIn(h1, f);
  }

  /** One inspector call on the object at objIdx; constants, static members and constructors are ignored. */
  method VisitObjectDecl(d: Duk, natives: ClosureHeap, objIdx: nat, decl: Decl)
    requires d.Valid() && natives.Valid() && objIdx < |d.stack| && d.stack[objIdx].Ref?
    requires !d.heap[d.stack[objIdx].id].kind.Function?
    modifies d, natives
    ensures d.Valid() && natives.Valid() && d.stack == old(d.stack)
    ensures VisitEffect(old(d.heap), old(natives.holders), d.heap, natives.holders, d.stack[objIdx].id, decl)
  {
    match decl
    case Property(name, getter, setter) =>
      DefineProperty(d, natives, objIdx, name, getter, setter);
    case Method(name, sig) =>
      PutMethod(d, natives, objIdx, name, sig);
    case _ =>
  }

  /** Visiting one more declaration keeps the bindings of the longer prefix. */
  lemma StepKeepsBindings(h0: map<nat, Object>, m0: map<nat, Closure>, h1: map<nat, Object>, m1: map<nat, Closure>,
                          id: nat, props0: map<Key, Prop>, vs: seq<Decl>, decl: Decl)
    requires id in h0 && !h0[id].kind.Function? && BindingsHold(h0, m0, id, props0, vs)
    requires VisitEffect(h0, m0, h1, m1, id, decl)
    ensures BindingsHold(h1, m1, id, props0, vs + [decl])
  {
    var ws := vs + [decl];
    assert ws[..|ws| - 1] == vs;
    forall k | LastBinding(ws, k).Some?
      ensures k in h1[id].props && Realizes(h1, m1, h1[id].props[k], LastBinding(ws, k).value)
    {
      if !(Binds(decl) && NameKey(decl.name) == k) {
        RealizesKept(h0, m0, h1, m1, id, h0[id].props[k], LastBinding(vs, k).value);
      }
    }
  }

  /**
   * Inspect<T>::inspect(i) with a PushObjectInspector on the object at
   * objIdx: after the visit, each key holds what the last declaration
   * binding it defines, the other keys are untouched, and the stack is as
   * it was.
   */
  method InspectObject(d: Duk, natives: ClosureHeap, objIdx: nat, visited: seq<Decl>)
    requires d.Valid() && natives.Valid() && objIdx < |d.stack| && d.stack[objIdx].Ref?
    requires !d.heap[d.stack[objIdx].id].kind.Function?
    modifies d, natives
    ensures d.Valid() && natives.Valid() && d.stack == old(d.stack)
    ensures Extends(old(d.heap), d.heap, d.stack[objIdx].id) && HoldersGrow(old(natives.holders), natives.holders)
    ensures BindingsHold(d.heap, natives.holders, d.stack[objIdx].id, old(d.heap[d.stack[objIdx].id].props), visited)
  {
    ghost var id := d.stack[objIdx].id;
    ghost var h0 := d.heap;
    ghost var m0 := natives.holders;
    var i := 0;
    while i < |visited|
      invariant 0 <= i <= |visited|
      invariant d.Valid() && natives.Valid() && d.stack == old(d.stack)
      invariant Extends(h0, d.heap, id) && HoldersGrow(m0, natives.holders)
      invariant BindingsHold(d.heap, natives.holders, id, h0[id].props, visited[..i])
    {
      VisitNext(d, natives, objIdx, id, h0[id].props, visited[..i], visited[i]);
      assert visited[..i + 1] == visited[..i] + [visited[i]];
      i := i + 1;
    }
    assert visited[..i] == visited;
  }

  /** One iteration of the visit: the next declaration extends the bindings of the prefix. */
  method VisitNext(d: Duk, natives: ClosureHeap, objIdx: nat, ghost id: nat, ghost props0: map<Key, Prop>,
                   ghost vs: seq<Decl>, decl: Decl)
    requires d.Valid() && natives.Valid() && objIdx < |d.stack| && d.stack[objIdx] == Ref(id)
    requires id in d.heap && !d.heap[id].kind.Function? && BindingsHold(d.heap, natives.holders, id, props0, vs)
    modifies d, natives
    ensures d.Valid() && natives.Valid() && d.stack == old(d.stack)
    ensures Extends(old(d.heap), d.heap, id) && HoldersGrow(old(natives.holders), natives.holders)
    ensures BindingsHold(d.heap, natives.holders, id, props0, vs + [decl])
  {
    VisitObjectDecl(d, natives, objIdx, decl);
    StepKeepsBindings(old(d.heap), old(natives.holders), d.heap, natives.holders, id, props0, vs, decl);
  }

  /**
   * Type<T>::push, the default object codec: a new plain object with the
   * value's address under `obj_ptr`, then T's declarations and those of its
   * ancestors. The pushed object is read back as that address by both kinds
   * of object parameter.
   */
  method PushObject(d: Duk, natives: ClosureHeap, r: Registry, ds: Declarations, t: TypeId, addr: nat)
    requires d.Valid() && natives.Valid() && WellFormed(r) && Inspectable(r, ds, t) && addr != 0
    modifies d, natives
    ensures d.Valid() && natives.Valid() && d.stack == old(d.stack) + [Ref(old(d.nextId))]
    ensures HoldersGrow(old(natives.holders), natives.holders)
    ensures var id := old(d.nextId);
      id !in old(d.heap) && id in d.heap && d.heap[id].kind == PlainObject &&
      Get(d.heap[id], ObjPtr) == Pointer(addr) &&
      BindingsHold(d.heap, natives.holders, id, map[ObjPtr := Data(Pointer(addr))], Inspect(r, ds, t))
    ensures forall j :: j in old(d.heap) ==> j in d.heap && d.heap[j] == old(d.heap[j])
    ensures ReadArg(ObjectByRef(t), Ref(old(d.nextId)), ObjectIn(d.heap, Ref(old(d.nextId)))) == Ok(ObjectRef(addr))
    ensures ReadArg(ObjectByValue(t), Ref(old(d.nextId)), ObjectIn(d.heap, Ref(old(d.nextId)))) == Ok(CopiedObject(addr))
  {
    var objIdx := PushHolderObject(d, addr);
    InspectObject(d, natives, objIdx, Inspect(r, ds, t));
    assert LastBinding(Inspect(r, ds, t), ObjPtr).None?;
  }

  /** duk_push_object, then the address stored under `obj_ptr`. */
  method PushHolderObject(d: Duk, addr: nat) returns (objIdx: nat)
    requires d.Valid()
    modifies d
    ensures d.Valid() && objIdx == |old(d.stack)| && d.stack == old(d.stack) + [Ref(old(d.nextId))]
    ensures old(d.nextId) !in old(d.heap) && d.nextId == old(d.nextId) + 1
    ensures d.heap == old(d.heap)[old(d.nextId) := Object(PlainObject, map[ObjPtr := Data(Pointer(addr))], 0, None)]
  {
    objIdx := d.PushNew(PlainObject);
    d.Push(Pointer(addr));
    d.PutProp(-2, ObjPtr);
  }
}
