/**
 * Ownership boxes. A `Box<std::shared_ptr<E>>` or `Box<std::unique_ptr<E>>`
 * is kept in the context's box table and reached from script through the
 * hidden `sptr_key` / `uptr_key` of the wrapping object. `BoxBase::as<T>`
 * is a checked downcast on the box's dynamic type. A C++ object is an
 * `Instance`: its address and its most-derived class.
 */
module Boxes {
  import opened Errors
  import opened ClassInfo

  datatype Ownership = SharedOwner | UniqueOwner

  datatype Instance = Instance(addr: nat, dynType: TypeId)

  /** The box type, `Box<shared_ptr<elem>>` or `Box<unique_ptr<elem>>`. */
  datatype BoxType = BoxType(ownership: Ownership, elem: TypeId)

  /** A box and the smart pointer it holds; `None` is an empty pointer. */
  datatype Box = Box(ownership: Ownership, elem: TypeId, content: Option<Instance>)

  function TypeOf(b: Box): BoxType {
    BoxType(b.ownership, b.elem)
  }

  /** A pointer typed `elem*` only ever points at an `elem` or at an object of a class derived from it. */
  predicate Holds(r: Registry, b: Box)
    requires WellFormed(r)
  {
    b.content.Some? ==> IsAncestor(r, b.elem, b.content.value.dynType)
  }

  /** BoxBase::as<T>: a reference to the same box when its dynamic type is T; std::bad_cast otherwise. */
  function As(b: Box, want: BoxType): (r: Result<Box>)
    ensures r.Ok? <==> TypeOf(b) == want
    ensures r.Ok? ==> r.value == b
    ensures r.Err? ==> r.error == BadCast
  {
    if TypeOf(b) == want then Ok(b) else Err(BadCast)
  }

  /**
   * The element type of the box that pushing or getting a pointer to T uses,
   * as written: `BaseClass<T>::type` when T declares a base, T otherwise.
   */
  function BoxElemAsWritten(r: Registry, t: TypeId): TypeId {
    if t in r.bases then r.bases[t] else t
  }

  /** The element type a box must use so that every class of a hierarchy agrees on it: the root. */
  function BoxElem(r: Registry, t: TypeId): TypeId
    requires WellFormed(r)
  {
    Root(r, t)
  }

  /** A box made for a pointer to T, with the element type chosen by `elem`, holds that pointer. */
  lemma BoxElemHolds(r: Registry, t: TypeId, inst: Instance)
    requires WellFormed(r) && IsAncestor(r, t, inst.dynType)
    ensures Holds(r, Box(SharedOwner, BoxElem(r, t), Some(inst)))
    ensures Holds(r, Box(SharedOwner, BoxElemAsWritten(r, t), Some(inst)))
  {
    RootIsAncestor(r, t);
    AncestorTransitive(r, Root(r, t), t, inst.dynType);
    if t in r.bases {
      assert r.bases[t] in Chain(r, t);
      AncestorTransitive(r, r.bases[t], t, inst.dynType);
    }
  }

  /** dynamic_pointer_cast<T> / dynamic_cast<T*>: the same object when it is a T, null otherwise. */
  function DynamicCast(r: Registry, p: Option<Instance>, t: TypeId): (q: Option<Instance>)
    requires WellFormed(r)
    ensures q.Some? <==> p.Some? && IsAncestor(r, t, p.value.dynType)
    ensures q.Some? ==> q == p
  {
    if p.Some? && IsAncestor(r, t, p.value.dynType) then p else None
  }

  /**
   * SptrBox<T, HasBase>::assign, given the box element the getter expects
   * (`wanted`): with a declared base, `as<Box<shared_ptr<wanted>>>` and a
   * dynamic cast to T; without one, a `dynamic_cast` to `Box<shared_ptr<T>>`
   * and a plain copy. The box is only read.
   */
  function SharedAssign(r: Registry, b: Box, wanted: TypeId, t: TypeId): Result<Option<Instance>>
    requires WellFormed(r)
  {
    if t in r.bases then
      match As(b, BoxType(SharedOwner, wanted))
      case Err(e) => Err(e)
      case Ok(box) => Ok(DynamicCast(r, box.content, t))
    else if TypeOf(b) == BoxType(SharedOwner, wanted) then Ok(b.content)
    else Err(BadCast)
  }

  /** Type<shared_ptr<T>>::get as written: the box expected is the one `BoxElemAsWritten` names. */
  function GetSharedAsWritten(r: Registry, b: Box, t: TypeId): Result<Option<Instance>>
    requires WellFormed(r)
  {
    SharedAssign(r, b, BoxElemAsWritten(r, t), t)
  }

  /** Type<shared_ptr<T>>::get with the box typed by the root of T's hierarchy. */
  function GetShared(r: Registry, b: Box, t: TypeId): Result<Option<Instance>>
    requires WellFormed(r)
  {
    SharedAssign(r, b, BoxElem(r, t), t)
  }

  /**
   * With boxes typed by the root, a pointer pushed as any class S of a
   * hierarchy can be read back as any class T: it is the same object when
   * the object is a T, empty when it is not, and a bad_cast only when T
   * belongs to another hierarchy.
   */
  lemma SharedRoundTrip(r: Registry, s: TypeId, inst: Instance, t: TypeId)
    requires WellFormed(r) && IsAncestor(r, s, inst.dynType)
    ensures GetShared(r, Box(SharedOwner, BoxElem(r, s), Some(inst)), t) ==
      if Root(r, t) != Root(r, s) then Err(BadCast)
      else if IsAncestor(r, t, inst.dynType) then Ok(Some(inst))
      else Ok(None)
  {
    AncestorSameRoot(r, s, inst.dynType);
    if Root(r, t) == Root(r, s) && t !in r.bases {
      RootIsAncestor(r, inst.dynType);
    }
  }

  /** The hierarchy IBase <- Concrete <- SubConcrete of the polymorphism tests, numbered 0, 1, 2. */
  const ThreeLevels: Registry := Registry(map[], map[], map[1 := 0, 2 := 1], {})

  /**
   * As written, a SubConcrete pushed through shared_ptr<SubConcrete> is boxed
   * as shared_ptr<Concrete>, so getting it as shared_ptr<IBase> or as
   * shared_ptr<Concrete> throws bad_cast although the object is both.
   */
  lemma GrandchildBadCastAsWritten(addr: nat)
    ensures WellFormed(ThreeLevels)
    ensures var b := Box(SharedOwner, BoxElemAsWritten(ThreeLevels, 2), Some(Instance(addr, 2)));
      IsAncestor(ThreeLevels, 0, 2) && IsAncestor(ThreeLevels, 1, 2) &&
      GetSharedAsWritten(ThreeLevels, b, 0) == Err(BadCast) &&
      GetSharedAsWritten(ThreeLevels, b, 1) == Err(BadCast)
  {
    assert Chain(ThreeLevels, 0) == [0];
    assert Chain(ThreeLevels, 1) == [1, 0];
    assert Chain(ThreeLevels, 2) == [2, 1, 0];
  }

  /** With one level of inheritance the two typings agree: the as-written scheme is right there. */
  lemma TwoLevelsAgree(r: Registry, t: TypeId)
    requires WellFormed(r) && (t in r.bases ==> r.bases[t] !in r.bases)
    ensures BoxElemAsWritten(r, t) == BoxElem(r, t)
  {
    if t in r.bases {
      assert Root(r, r.bases[t]) == r.bases[t];
    }
  }

  /**
   * Which element type the pointer codecs give a box: `BaseClass<T>::type`
   * as the source writes it, or the root of T's hierarchy, the typing under
   * which every class of a hierarchy agrees (Findings, row 2).
   */
  datatype BoxTyping = AsWritten | ByRoot

  function ElemOf(typing: BoxTyping, r: Registry, t: TypeId): (e: TypeId)
    requires WellFormed(r)
    ensures typing == AsWritten ==> e == BoxElemAsWritten(r, t)
    ensures typing == ByRoot ==> e == Root(r, t)
  {
    if typing == AsWritten then BoxElemAsWritten(r, t) else BoxElem(r, t)
  }

  /** T's box is typed by its root under `typing`: always by root, and as written when T's base declares no base. */
  predicate RootTyped(typing: BoxTyping, r: Registry, t: TypeId)
    requires WellFormed(r)
  {
    typing == ByRoot || t !in r.bases || r.bases[t] !in r.bases
  }

  lemma RootTypedElem(typing: BoxTyping, r: Registry, t: TypeId)
    requires WellFormed(r) && RootTyped(typing, r, t)
    ensures ElemOf(typing, r, t) == BoxElem(r, t)
  {
    if typing == AsWritten {
      TwoLevelsAgree(r, t);
    }
  }

  /**
   * The outcome of moving a unique pointer out of its box: the box
   * afterwards, what the out-parameter owns, the box's object when the
   * failed cast destroyed it, and what the out-parameter owned before when
   * an assignment to it replaced (and so destroyed) it.
   */
  datatype Moved = Moved(box: Box, value: Option<Instance>, destroyed: Option<Instance>, replaced: Option<Instance>)

  /**
   * dynamic_unique_cast<T>: on success the result owns the object and the
   * source is released; on failure the result is null and the source keeps it.
   * The pair is (result, what the source still owns).
   */
  function DynamicUniqueCast(r: Registry, p: Option<Instance>, t: TypeId): (q: (Option<Instance>, Option<Instance>))
    requires WellFormed(r)
    ensures q.0 == DynamicCast(r, p, t)
    ensures q.0.Some? ==> q.1 == None
    ensures q.0.None? ==> q.1 == p
  {
    if p.Some? && IsAncestor(r, t, p.value.dynType) then (p, None) else (None, p)
  }

  /**
   * MakeUptrBox<T, HasBase>::assign, given the expected box element. With a
   * declared base: `as` the expected box, abort on an empty box, move the
   * pointer out into a local, cast it; on success it goes to `value`, on
   * failure the local destroys the object and `value` keeps what it held.
   * Without a base: a `dynamic_cast` to `Box<unique_ptr<T>>` and a move of
   * whatever the box holds, an empty pointer included. Every assignment to
   * `value` destroys the object it owned before.
   */
  function UniqueAssign(r: Registry, b: Box, wanted: TypeId, t: TypeId, value: Option<Instance>): Result<Moved>
    requires WellFormed(r)
  {
    if t in r.bases then
      match As(b, BoxType(UniqueOwner, wanted))
      case Err(e) => Err(e)
      case Ok(box) =>
        if box.content.None? then Err(Abort("b.value()"))
        else
          var (cast, rest) := DynamicUniqueCast(r, box.content, t);
          if cast.Some? then Ok(Moved(box.(content := None), cast, None, value))
          else Ok(Moved(box.(content := None), value, rest, None))
    else if TypeOf(b) == BoxType(UniqueOwner, wanted) then Ok(Moved(b.(content := None), b.content, None, value))
    else Err(BadCast)
  }

  function GetUniqueAsWritten(r: Registry, b: Box, t: TypeId, value: Option<Instance>): Result<Moved>
    requires WellFormed(r)
  {
    UniqueAssign(r, b, BoxElemAsWritten(r, t), t, value)
  }

  function GetUnique(r: Registry, b: Box, t: TypeId, value: Option<Instance>): Result<Moved>
    requires WellFormed(r)
  {
    UniqueAssign(r, b, BoxElem(r, t), t, value)
  }

  /**
   * Moving out never duplicates or leaks the object: afterwards the box is
   * empty, and the object it held is now owned by `value` or has been
   * destroyed, never both. Handing it to `value` destroys what `value`
   * owned before; when the cast fails `value` is left alone.
   */
  lemma UniqueMoveIsExclusive(r: Registry, b: Box, wanted: TypeId, t: TypeId, value: Option<Instance>)
    requires WellFormed(r)
    requires UniqueAssign(r, b, wanted, t, value).Ok?
    ensures var m := UniqueAssign(r, b, wanted, t, value).value;
      m.box.content == None && m.box.elem == b.elem && m.box.ownership == b.ownership &&
      (m.destroyed.Some? ==> m.destroyed == b.content && m.value == value && m.replaced == None) &&
      (m.destroyed.None? ==> m.value == b.content && m.replaced == value)
  {
  }

  /**
   * A second get on the same box finds it empty: with a declared base the
   * assert fires, without one the out-parameter becomes empty and what it
   * owned is destroyed.
   */
  lemma UniqueSecondGet(r: Registry, b: Box, wanted: TypeId, t: TypeId, v1: Option<Instance>, v2: Option<Instance>)
    requires WellFormed(r)
    requires UniqueAssign(r, b, wanted, t, v1).Ok?
    ensures var m := UniqueAssign(r, b, wanted, t, v1).value;
      UniqueAssign(r, m.box, wanted, t, v2) ==
        if t in r.bases then Err(Abort("b.value()")) else Ok(Moved(m.box, None, None, v2))
  {
  }

  /**
   * With boxes typed by the root, a unique pointer pushed as S and read as T
   * is handed over, replacing what `value` owned, when the object is a T,
   * and destroyed otherwise; a class
   * of another hierarchy gets bad_cast and the box is left alone.
   */
  lemma UniqueRoundTrip(r: Registry, s: TypeId, inst: Instance, t: TypeId, value: Option<Instance>)
    requires WellFormed(r) && IsAncestor(r, s, inst.dynType)
    ensures var b := Box(UniqueOwner, BoxElem(r, s), Some(inst));
      GetUnique(r, b, t, value) ==
        if Root(r, t) != Root(r, s) then Err(BadCast)
        else if IsAncestor(r, t, inst.dynType) then Ok(Moved(b.(content := None), Some(inst), None, value))
        else Ok(Moved(b.(content := None), value, Some(inst), None))
  {
    AncestorSameRoot(r, s, inst.dynType);
    if Root(r, t) == Root(r, s) && t !in r.bases {
      RootIsAncestor(r, inst.dynType);
    }
  }

  /** As written, a SubConcrete pushed as unique_ptr<SubConcrete> cannot be taken as unique_ptr<IBase>. */
  lemma UniqueGrandchildBadCastAsWritten(addr: nat, value: Option<Instance>)
    ensures WellFormed(ThreeLevels)
    ensures var b := Box(UniqueOwner, BoxElemAsWritten(ThreeLevels, 2), Some(Instance(addr, 2)));
      IsAncestor(ThreeLevels, 0, 2) && GetUniqueAsWritten(ThreeLevels, b, 0, value) == Err(BadCast)
  {
    assert Chain(ThreeLevels, 2) == [2, 1, 0];
  }
}
