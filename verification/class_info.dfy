/**
 * Class metadata: the `ClassName`, `ShortClassName`, `BaseClass` and
 * `IsPolymorphic` trait templates and the macros that specialise them.
 * A C++ type is a `TypeId`; types are numbered in declaration order, and
 * since a class can only derive from a complete (already declared) class,
 * a declared base always has a smaller id than the class deriving from it.
 */
module ClassInfo {
  import opened Errors

  type TypeId = nat

  /** The explicit specialisations a program has made. */
  datatype Registry = Registry(
    names: map<TypeId, string>,       // DUK_CPP_DEF_CLASS_NAME
    shortNames: map<TypeId, string>,  // DUK_CPP_DEF_SHORT_NAME
    bases: map<TypeId, TypeId>,       // DUK_CPP_DEF_BASE_CLASS
    polymorphic: set<TypeId>)         // DUK_CPP_DEF_POLYMORPHIC

  const NoSpecialisations: Registry := Registry(map[], map[], map[], {})

  const UnknownClass: string := "UnknownClass"

  /** A trait's `isDefined()` together with its `value`. */
  datatype Trait<T> = Trait(isDefined: bool, value: T)

  /** Every declared base precedes the class that derives from it. */
  ghost predicate WellFormed(r: Registry) {
    forall t :: t in r.bases ==> r.bases[t] < t
  }

  /** ClassName<T>: undefined "UnknownClass" unless specialised. */
  function ClassName(r: Registry, t: TypeId): Trait<string> {
    if t in r.names then Trait(true, r.names[t]) else Trait(false, UnknownClass)
  }

  /** ShortClassName<T>: falls back to ClassName<T>::value. */
  function ShortClassName(r: Registry, t: TypeId): Trait<string> {
    if t in r.shortNames then Trait(true, r.shortNames[t]) else Trait(false, ClassName(r, t).value)
  }

  /** GetClassName<T>: the static_assert rejects a type whose name is not defined. */
  function GetClassName(r: Registry, t: TypeId): (name: string)
    requires ClassName(r, t).isDefined
    ensures t in r.names && name == r.names[t]
  {
    ClassName(r, t).value
  }

  /** BaseClass<T>::type; None stands for `void`. */
  function BaseClass(r: Registry, t: TypeId): Option<TypeId> {
    if t in r.bases then Some(r.bases[t]) else None
  }

  function IsPolymorphic(r: Registry, t: TypeId): bool {
    t in r.polymorphic
  }

  /** DUK_CPP_DEF_CLASS_NAME(T): the stringised qualified name; one specialisation per type. */
  function DefClassName(r: Registry, t: TypeId, qualified: string): (r': Registry)
    requires t !in r.names
    ensures ClassName(r', t) == Trait(true, qualified)
    ensures forall u :: u != t ==> ClassName(r', u) == ClassName(r, u)
    ensures r'.bases == r.bases && r'.polymorphic == r.polymorphic && r'.shortNames == r.shortNames
  {
    r.(names := r.names[t := qualified])
  }

  function DefShortName(r: Registry, t: TypeId, short: string): (r': Registry)
    requires t !in r.shortNames
    ensures ShortClassName(r', t) == Trait(true, short)
    ensures forall u :: u != t ==> ShortClassName(r', u) == ShortClassName(r, u)
    ensures r'.names == r.names && r'.bases == r.bases && r'.polymorphic == r.polymorphic
  {
    r.(shortNames := r.shortNames[t := short])
  }

  /** DUK_CPP_DEF_BASE_CLASS(T, Base): gives T exactly one parent. */
  function DefBaseClass(r: Registry, t: TypeId, base: TypeId): (r': Registry)
    requires t !in r.bases && base < t
    ensures BaseClass(r', t) == Some(base)
    ensures forall u :: u != t ==> BaseClass(r', u) == BaseClass(r, u)
    ensures WellFormed(r) ==> WellFormed(r')
    ensures r'.names == r.names && r'.polymorphic == r.polymorphic && r'.shortNames == r.shortNames
  {
    r.(bases := r.bases[t := base])
  }

  function DefPolymorphic(r: Registry, t: TypeId): (r': Registry)
    ensures IsPolymorphic(r', t)
    ensures forall u :: u != t ==> IsPolymorphic(r', u) == IsPolymorphic(r, u)
    ensures r'.names == r.names && r'.bases == r.bases && r'.shortNames == r.shortNames
  {
    r.(polymorphic := r.polymorphic + {t})
  }

  /** T, its base, the base's base, ... up to the first type whose base is `void`. */
  function Chain(r: Registry, t: TypeId): (c: seq<TypeId>)
    requires WellFormed(r)
    decreases t
  {
    [t] + if t in r.bases then Chain(r, r.bases[t]) else []
  }

  /** `a` is `d` or one of its declared ancestors. */
  predicate IsAncestor(r: Registry, a: TypeId, d: TypeId)
    requires WellFormed(r)
  {
    a in Chain(r, d)
  }

  /** The first type of the chain that has no declared base. */
  function Root(r: Registry, t: TypeId): (root: TypeId)
    requires WellFormed(r)
    decreases t
  {
    if t in r.bases then Root(r, r.bases[t]) else t
  }

  /**
   * The walk is linear: it starts at T, each step goes to the declared base
   * of the previous type, ids strictly decrease (so no type is visited
   * twice), and it ends at the root, which has no base.
   */
  lemma {:induction false} ChainShape(r: Registry, t: TypeId)
    requires WellFormed(r)
    ensures var c := Chain(r, t);
      |c| >= 1 && c[0] == t && c[|c| - 1] == Root(r, t) && Root(r, t) !in r.bases &&
      (forall i :: 0 <= i < |c| - 1 ==> c[i] in r.bases && c[i + 1] == r.bases[c[i]]) &&
      (forall i, j :: 0 <= i < j < |c| ==> c[j] < c[i])
    decreases t
  {
    if t in r.bases {
      var b := r.bases[t];
      ChainShape(r, b);
      var c, cb := Chain(r, t), Chain(r, b);
      assert c == [t] + cb;
      forall i, j | 0 <= i < j < |c| ensures c[j] < c[i] {
        if i > 0 {
          assert c[i] == cb[i - 1] && c[j] == cb[j - 1];
        } else {
          assert c[j] == cb[j - 1] && cb[j - 1] <= b;
        }
      }
    }
  }

  /** Every type on a chain has the same root. */
  lemma {:induction false} AncestorSameRoot(r: Registry, a: TypeId, d: TypeId)
    requires WellFormed(r) && IsAncestor(r, a, d)
    ensures Root(r, a) == Root(r, d)
    decreases d
  {
    if a != d {
      assert d in r.bases;
      assert Chain(r, d) == [d] + Chain(r, r.bases[d]);
      AncestorSameRoot(r, a, r.bases[d]);
    }
  }

  /** Being an ancestor is transitive. */
  lemma {:induction false} AncestorTransitive(r: Registry, a: TypeId, b: TypeId, d: TypeId)
    requires WellFormed(r) && IsAncestor(r, a, b) && IsAncestor(r, b, d)
    ensures IsAncestor(r, a, d)
    decreases d
  {
    if b != d {
      assert d in r.bases;
      assert Chain(r, d) == [d] + Chain(r, r.bases[d]);
      AncestorTransitive(r, a, b, r.bases[d]);
    }
  }

  /** The root of a type is one of its ancestors. */
  lemma {:induction false} RootIsAncestor(r: Registry, t: TypeId)
    requires WellFormed(r)
    ensures IsAncestor(r, Root(r, t), t)
    decreases t
  {
    if t in r.bases {
      RootIsAncestor(r, r.bases[t]);
      assert Chain(r, t) == [t] + Chain(r, r.bases[t]);
    }
  }
}
