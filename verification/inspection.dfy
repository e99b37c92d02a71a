/**
 * The inspector protocol. A bound class lists its members in a static
 * `inspect(Inspector &i)` by calling `i.constant`, `i.property`, `i.method`,
 * `i.static_method` and `i.construct`; the model records those calls, in
 * order, as a sequence of declarations per type. `Inspect<T>::inspect`
 * replays them to an inspector, which turns some of them into stack effects
 * and inherits empty bodies (EmptyInspector) for the others.
 */
module Inspection {
  import opened Errors
  import opened ClassInfo
  import opened Scalars

  /** How a native parameter is declared, which decides how its argument is read. */
  datatype Param =
    | ScalarParam(t: ScalarType)        // a primitive-flagged codec, by value or by reference: copied
    | ObjectByValue(cls: TypeId)        // a non-primitive class by value: copied from `obj_ptr`
    | ObjectByRef(cls: TypeId)          // `T&` or `T const&` to a non-primitive class: the object itself

  /** A member function: its parameters, its result (None for void) and const-ness. */
  datatype Sig = Sig(params: seq<Param>, result: Option<ScalarType>, isConst: bool)

  datatype FactoryKind = SharedFactory | UniqueFactory

  datatype Decl =
    | Constant(name: string, value: Scalar)
    | Property(name: string, getter: Sig, setter: Option<Sig>)
    | Method(name: string, sig: Sig)
    | StaticMethod(name: string, sig: Sig)
    | StaticProperty(name: string, getter: Sig, setter: Option<Sig>)
    | Construct(kind: FactoryKind, cls: TypeId, params: seq<ScalarType>)

  /** EmptyInspector::Getter<C, A>: a const member function taking nothing and returning A. */
  predicate IsGetter(g: Sig) {
    g.params == [] && g.result.Some? && g.isConst
  }

  /** EmptyInspector::Setter<C, A>: a void member function taking one A. */
  predicate IsSetter(s: Sig) {
    |s.params| == 1 && s.result.None?
  }

  /** The declarations of one `inspect` body type-check against the inspector overloads. */
  predicate WellTypedDecl(d: Decl) {
    match d
    case Property(_, g, s) =>
      IsGetter(g) && (s.Some? ==> IsSetter(s.value) && s.value.params[0] == ScalarParam(g.result.value))
    case StaticProperty(_, g, s) =>
      g.params == [] && g.result.Some? &&
      (s.Some? ==> IsSetter(s.value) && s.value.params[0] == ScalarParam(g.result.value))
    case _ => true
  }

  /** What each class's `inspect` declares; a class missing here has no `inspect`. */
  type Declarations = map<TypeId, seq<Decl>>

  /** The static_assert of both Inspect variants: every inspected type has `inspect`. */
  ghost predicate Inspectable(r: Registry, ds: Declarations, t: TypeId)
    requires WellFormed(r)
  {
    forall a :: a in Chain(r, t) ==> a in ds
  }

  /**
   * Inspect<T>::inspect (newer variant): T's own declarations, then
   * InspectBase<BaseOf<T>>, which recurses into the base and stops at void.
   */
  function Inspect(r: Registry, ds: Declarations, t: TypeId): seq<Decl>
    requires WellFormed(r) && Inspectable(r, ds, t)
    decreases t
  {
    ds[t] + if t in r.bases then Inspect(r, ds, r.bases[t]) else []
  }

  /** Inspect<T>::inspect (older variant): T::inspect alone, no base walk. */
  function InspectOwn(ds: Declarations, t: TypeId): seq<Decl>
    requires t in ds
  {
    ds[t]
  }

  /** The declarations of a sequence of types, concatenated in that order. */
  function Flatten(ds: Declarations, ts: seq<TypeId>): seq<Decl>
    requires forall a :: a in ts ==> a in ds
  {
    if ts == [] then [] else ds[ts[0]] + Flatten(ds, ts[1..])
  }

  /**
   * The newer walk visits exactly the declarations of T and of each of its
   * ancestors, derived first, each type once (the chain has no repeats).
   */
  lemma {:induction false} InspectVisitsChain(r: Registry, ds: Declarations, t: TypeId)
    requires WellFormed(r) && Inspectable(r, ds, t)
    ensures Inspect(r, ds, t) == Flatten(ds, Chain(r, t))
    decreases t
  {
    var c := Chain(r, t);
    assert c[0] == t && c[1..] == if t in r.bases then Chain(r, r.bases[t]) else [];
    if t in r.bases {
      var b := r.bases[t];
      assert Inspectable(r, ds, b) by {
        forall a | a in Chain(r, b) ensures a in ds { assert a in c; }
      }
      InspectVisitsChain(r, ds, b);
    }
  }

  /** The walk stops at the first type without a base: for such a type it is T's own list. */
  lemma NoBaseInspectsOwn(r: Registry, ds: Declarations, t: TypeId)
    requires WellFormed(r) && Inspectable(r, ds, t) && t !in r.bases
    ensures Inspect(r, ds, t) == InspectOwn(ds, t)
  {
  }

  /** The two variants agree whenever every ancestor above T declares nothing. */
  lemma {:induction false} VariantsAgree(r: Registry, ds: Declarations, t: TypeId)
    requires WellFormed(r) && Inspectable(r, ds, t)
    requires forall a :: a in Chain(r, t) && a != t ==> ds[a] == []
    ensures Inspect(r, ds, t) == InspectOwn(ds, t)
    decreases t
  {
    if t in r.bases {
      var b := r.bases[t];
      var c := Chain(r, t);
      assert c == [t] + Chain(r, b);
      ChainShape(r, t);
      assert Inspectable(r, ds, b) by {
        forall a | a in Chain(r, b) ensures a in ds { assert a in c; }
      }
      forall a | a in Chain(r, b) && a != b ensures ds[a] == [] {
        assert a in c;
        assert a != t by {
          var j :| 0 <= j < |Chain(r, b)| && Chain(r, b)[j] == a;
          assert c[j + 1] == a && c[j + 1] < c[0];
        }
      }
      assert b in c && b != t;
      VariantsAgree(r, ds, b);
    }
  }

  /** The constructors a visit sequence declares. */
  function Constructs(visited: seq<Decl>): (cs: seq<Decl>)
    ensures |cs| <= |visited| && forall d :: d in cs ==> d.Construct? && d in visited
  {
    if visited == [] then []
    else (if visited[0].Construct? then [visited[0]] else []) + Constructs(visited[1..])
  }
}
