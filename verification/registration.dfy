/**
 * The Context helpers that work under global names: addGlobal, getGlobal,
 * evalString, registerClass (the class's constructor under its qualified
 * name) and registerEnum (an object of constants under the enum's
 * qualified name). Each pushes the global object, works on what it pushed
 * and pops it again.
 */
module Registration {
  import opened Errors
  import opened Engine
  import opened ClassInfo
  import opened Scalars
  import opened Namespaces
  import opened Inspection
  import opened Bridge
  import opened Codecs
  import opened Constructors

  const UndefinedSuffix: string := " is undefined"

  // ----- addGlobal / getGlobal / evalString -----

  /** Context::addGlobal for a scalar: the global object gets the value under `name`; the stack is as it was. */
  method AddGlobal(ctx: Context, name: string, x: Scalar)
    requires ctx.Valid() && ctx.duk != null && HasType(x, TypeOfScalar(x))
    modifies ctx.duk
    ensures ctx.Valid() && ctx.duk.stack == old(ctx.duk.stack) && ctx.duk.nextId == old(ctx.duk.nextId)
    ensures ctx.duk.heap ==
      old(ctx.duk.heap)[ctx.duk.global := Put(old(ctx.duk.heap)[ctx.duk.global], NameKey(name), Encode(x))]
  {
    var d := ctx.duk;
    d.Push(Ref(d.global));
    PushScalar(d, x);
    d.PutProp(-2, NameKey(name));
    d.PopN(1);
  }

  /**
   * Context::getGlobal for a scalar type: an undefined global pops both
   * temporaries and throws KeyError("<name> is undefined"); otherwise the
   * value is decoded, and both temporaries are popped only when that
   * succeeds (a throwing codec leaves them on the stack).
   */
  method GetGlobal(ctx: Context, t: ScalarType, name: string) returns (r: Result<Scalar>)
    requires ctx.Valid() && ctx.duk != null
    modifies ctx.duk
    ensures ctx.Valid() && ctx.duk.heap == old(ctx.duk.heap) && ctx.duk.nextId == old(ctx.duk.nextId)
    ensures var v := Look(old(ctx.duk.heap), Ref(ctx.duk.global), NameKey(name));
      if v == Undefined then
        r == Err(KeyError(CString(name) + UndefinedSuffix)) && ctx.duk.stack == old(ctx.duk.stack)
      else
        r == Decode(t, v) &&
        ctx.duk.stack == old(ctx.duk.stack) + (if r.Ok? then [] else [Ref(ctx.duk.global), v])
  {
    var d := ctx.duk;
    d.Push(Ref(d.global));
    d.GetProp(-1, NameKey(name));
    if d.At(-1) == Undefined {
      d.PopN(2);
      return Err(KeyError(CString(name) + UndefinedSuffix));
    }
    r := GetScalar(d, t, -1);
    if r.Ok? {
      d.PopN(2);
    }
  }

  /** A scalar put under a global name is read back unchanged, and neither call leaves anything on the stack. */
  method GlobalRoundTrip(ctx: Context, name: string, x: Scalar) returns (r: Result<Scalar>)
    requires ctx.Valid() && ctx.duk != null && Faithful(x, TypeOfScalar(x))
    modifies ctx.duk
    ensures r == Ok(x) && ctx.duk.stack == old(ctx.duk.stack)
  {
    AddGlobal(ctx, name, x);
    RoundTrip(x, TypeOfScalar(x));
    r := GetGlobal(ctx, TypeOfScalar(x), name);
  }

  /**
   * Context::evalString for a scalar type. The engine's verdict on the
   * script is the `outcome` parameter. A thrown error stays on the stack
   * and is reported through rethrowDukError; a result is decoded and popped
   * when it decodes (a throwing codec leaves it on the stack).
   */
  method EvalString(ctx: Context, t: ScalarType, code: string, outcome: EvalOutcome) returns (r: Result<Scalar>)
    requires ctx.Valid() && ctx.duk != null
    requires outcome.Evaluated? ==> Bounded(outcome.result, ctx.duk.nextId)
    modifies ctx.duk
    ensures ctx.Valid() && ctx.duk.heap == old(ctx.duk.heap) && ctx.duk.nextId == old(ctx.duk.nextId)
    ensures outcome.Threw? ==>
      r == Err(ScriptEvaluation(CString(outcome.message))) &&
      ctx.duk.stack == old(ctx.duk.stack) + [Text(outcome.message)]
    ensures outcome.Evaluated? ==>
      r == Decode(t, outcome.result) &&
      ctx.duk.stack == old(ctx.duk.stack) + (if r.Ok? then [] else [outcome.result])
  {
    var d := ctx.duk;
    match outcome
    case Threw(m) =>
      d.Push(Text(m));
      var e := ctx.RethrowDukError();
      r := Err(e);
    case Evaluated(v) =>
      d.Push(v);
      r := GetScalar(d, t, -1);
      if r.Ok? {
        d.PopN(1);
      }
  }

  // ----- registerClass -----

  /** The value reached from `root` by reading the names of `path` in turn. */
  ghost function Resolve(h: map<nat, Object>, root: Value, path: seq<string>): Value
    decreases |path|
  {
    if path == [] then root
    else Look(h, Resolve(h, root, path[..|path| - 1]), NameKey(path[|path| - 1]))
  }

  /** The values defNamespaces leaves on the stack from the global object up: root, root.ns[0], ... */
  ghost function NamespaceChain(h: map<nat, Object>, root: Value, ns: seq<string>): seq<Value> {
    seq(|ns|, j requires 0 <= j < |ns| => Resolve(h, root, ns[..j]))
  }

  /** The ids first, first + 1, ..., first + n - 1 as object references. */
  function Refs(first: nat, n: nat): (vs: seq<Value>)
    ensures |vs| == n && forall i :: 0 <= i < n ==> vs[i] == Ref(first + i)
  {
    seq(n, i requires 0 <= i < n => Ref(first + i))
  }

  /** Each level defNamespaces pushes is the lookup of the names up to it, starting at the level below the first. */
  lemma {:induction false} LevelsResolve(h: map<nat, Object>, s: seq<Value>, n0: int, k: int, i: int, ns: seq<string>)
    requires Levels(h, s, n0, k, ns) && 0 <= i <= k
    ensures s[n0 - 1 + i] == Resolve(h, s[n0 - 1], ns[..i])
    decreases i
  {
    if i > 0 {
      LevelsResolve(h, s, n0, k, i - 1, ns);
      assert ns[..i][..i - 1] == ns[..i - 1];
    }
  }

  /** The k levels pushed over the root are the start of the namespace chain from it. */
  lemma LevelsChain(h: map<nat, Object>, s: seq<Value>, n0: int, k: int, ns: seq<string>)
    requires k < |ns| && Levels(h, s, n0, k, ns) && |s| == n0 + k
    ensures s == s[..n0 - 1] + NamespaceChain(h, s[n0 - 1], ns)[..k + 1]
  {
    var c := NamespaceChain(h, s[n0 - 1], ns);
    forall j | 0 <= j <= k ensures s[n0 - 1 + j] == c[j] {
      LevelsResolve(h, s, n0, k, j, ns);
    }
  }

  /**
   * How many values of `chain` defNamespaces pushes: it stops after the
   * first value, other than the last, that is undefined or null (reading a
   * name off it throws), and pushes them all otherwise.
   */
  function Walked(chain: seq<Value>): (n: nat)
    ensures n <= |chain| && (|chain| >= 1 ==> n >= 1)
    decreases |chain|
  {
    if |chain| <= 1 then |chain|
    else if !Coercible(chain[0]) then 1
    else 1 + Walked(chain[1..])
  }

  /** The walk pushes k + 1 values when those before k can be read from and k is the last value or cannot. */
  lemma {:induction false} WalkedAt(chain: seq<Value>, k: nat)
    requires k < |chain| && forall j :: 0 <= j < k ==> Coercible(chain[j])
    requires k == |chain| - 1 || !Coercible(chain[k])
    ensures Walked(chain) == k + 1
    decreases k
  {
    if k > 0 {
      WalkedAt(chain[1..], k - 1);
    }
  }

  /** defNamespaces reaches the last name: no namespace value before it is undefined or null. */
  ghost predicate Walkable(h: map<nat, Object>, g: Value, ns: seq<string>) {
    Walked(NamespaceChain(h, g, ns)) == |ns|
  }

  /** A name with at most one namespace is always walked from the global object. */
  lemma ShortNamesWalk(h: map<nat, Object>, g: Value, ns: seq<string>)
    requires 1 <= |ns| <= 2 && g.Ref?
    ensures Walkable(h, g, ns)
  {
    var chain := NamespaceChain(h, g, ns);
    assert chain[0] == g by { assert ns[..0] == []; }
    WalkedAt(chain, |ns| - 1);
  }

  /**
   * The common start of registerClass and registerEnum: the global object is
   * pushed and defNamespaces walks all names but the last. The values it
   * pushed are the walked part of the namespace chain; it fails when that
   * is not the whole chain.
   */
  method OpenNamespaces(ctx: Context, ns: seq<string>) returns (r: Result<int>)
    requires ctx.Valid() && ctx.duk != null && |ns| >= 1
    modifies ctx.duk
    ensures ctx.Valid()
    ensures var chain := NamespaceChain(ctx.duk.heap, Ref(ctx.duk.global), ns);
      var w := Walked(chain);
      ctx.duk.stack == old(ctx.duk.stack) + chain[..w] &&
      (forall i :: 0 <= i < w ==> Bounded(chain[i], ctx.duk.nextId)) &&
      (r.Ok? <==> w == |ns|) && (r.Ok? ==> r.value == |ns| - 1) && (r.Err? ==> r == Err(TypeError(InvalidBase)))
    ensures DefinedKept(old(ctx.duk.heap), ctx.duk.heap)
    ensures NamespaceWrites(old(ctx.duk.heap), ctx.duk.heap, old(ctx.duk.nextId), ctx.duk.nextId, ns)
  {
    var d := ctx.duk;
    ghost var s0 := d.stack;
    d.Push(Ref(d.global));
    ghost var s1 := d.stack;
    r := ctx.DefNamespaces(ns);
    assert d.stack[..|s1|] == s1;
    assert d.stack[..|s0|] == s0 && d.stack[|s0|] == Ref(d.global) by {
      assert d.stack[..|s0|] == s1[..|s0|];
    }
    WalkedLevels(d.heap, d.stack, s0, ns, d.nextId);
  }

  /**
   * The values defNamespaces leaves above s0, each but the top one readable
   * and the top one the last level or unreadable, are the walked part of
   * the namespace chain from the first of them.
   */
  lemma WalkedLevels(h: map<nat, Object>, s: seq<Value>, s0: seq<Value>, ns: seq<string>, n: nat)
    requires |s0| < |s| <= |s0| + |ns| && s[..|s0|] == s0 && Levels(h, s, |s0| + 1, |s| - |s0| - 1, ns)
    requires forall j :: |s0| <= j < |s| - 1 ==> Coercible(s[j])
    requires |s| == |s0| + |ns| || !Coercible(s[|s| - 1])
    requires forall i :: 0 <= i < |s| ==> Bounded(s[i], n)
    ensures var chain := NamespaceChain(h, s[|s0|], ns);
      s == s0 + chain[..Walked(chain)] && forall i :: 0 <= i < Walked(chain) ==> Bounded(chain[i], n)
  {
    var n0, k := |s0| + 1, |s| - |s0| - 1;
    var chain := NamespaceChain(h, s[|s0|], ns);
    LevelsChain(h, s, n0, k, ns);
    assert s[..n0 - 1] == s0;
    forall i | 0 <= i <= k ensures s[|s0| + i] == chain[i] {
      assert s[|s0| + i] == (s0 + chain[..k + 1])[|s0| + i];
    }
    WalkedAt(chain, k);
  }

  /** The heap after one constructor object per declaration of `cs` is allocated from id `first` on. */
  function WithConstructors(h: map<nat, Object>, first: nat, cs: seq<Decl>, factory: Decl -> nat): map<nat, Object>
    requires forall i :: 0 <= i < |cs| ==> cs[i].Construct?
    decreases |cs|
  {
    if cs == [] then h
    else
      var c := cs[|cs| - 1];
      WithConstructors(h, first, cs[..|cs| - 1], factory)[first + |cs| - 1 :=
        ConstructorObject(c.kind, |c.params|, factory(c))]
  }

  /** The i-th declaration's constructor is at id first + i; every other object is untouched. */
  lemma {:induction false} WithConstructorsAt(h: map<nat, Object>, first: nat, cs: seq<Decl>, factory: Decl -> nat)
    requires forall i :: 0 <= i < |cs| ==> cs[i].Construct?
    ensures var w := WithConstructors(h, first, cs, factory);
      (forall j :: j in w <==> j in h || first <= j < first + |cs|) &&
      (forall j :: j in h && !(first <= j < first + |cs|) ==> w[j] == h[j]) &&
      (forall i :: 0 <= i < |cs| ==> w[first + i] == ConstructorObject(cs[i].kind, |cs[i].params|, factory(cs[i])))
    decreases |cs|
  {
    if cs != [] {
      var init := cs[..|cs| - 1];
      WithConstructorsAt(h, first, init, factory);
      assert forall i :: 0 <= i < |init| ==> init[i] == cs[i];
    }
  }

  /** The PushConstructorInspector's visit: each `construct` pushes its constructor function, in order. */
  method PushConstructors(d: Duk, cs: seq<Decl>, factory: Decl -> nat)
    requires d.Valid() && forall i :: 0 <= i < |cs| ==> cs[i].Construct? && factory(cs[i]) != 0
    modifies d
    ensures d.Valid() && d.nextId == old(d.nextId) + |cs|
    ensures d.stack == old(d.stack) + Refs(old(d.nextId), |cs|)
    ensures d.heap == WithConstructors(old(d.heap), old(d.nextId), cs, factory)
  {
    var i := 0;
    while i < |cs|
      invariant 0 <= i <= |cs| && d.Valid() && d.nextId == old(d.nextId) + i
      invariant d.stack == old(d.stack) + Refs(old(d.nextId), i)
      invariant d.heap == WithConstructors(old(d.heap), old(d.nextId), cs[..i], factory)
    {
      var fidx := PushConstructor(d, cs[i].kind, factory(cs[i]), |cs[i].params|);
      assert cs[..i + 1][..i] == cs[..i];
      assert Refs(old(d.nextId), i + 1) == Refs(old(d.nextId), i) + [Ref(old(d.nextId) + i)];
      i := i + 1;
    }
    assert cs[..|cs|] == cs;
  }

  /**
   * What registerClass does, as a relation between the stack s0 and the
   * stack s1 and heap h1 it leaves with result r: defNamespaces left heap
   * `mid`, whose ids are those below `first`, and pushed the chain of
   * namespace values from the global object g; the constructors of `cs`
   * were allocated from `first` on and pushed; the top value was put under
   * the last name on the value below it, and depth + 1 values were popped.
   * The put and the pop are engine calls outside any protected call, so a
   * stack too short for either is an error. When the walk stops at an
   * undefined or null namespace value, nothing after it happens: the
   * walked values stay pushed and the engine's TypeError is the result.
   */
  ghost predicate Registered(s0: seq<Value>, s1: seq<Value>, h1: map<nat, Object>, r: Result<()>,
                             mid: map<nat, Object>, first: nat, g: Value, ns: seq<string>, cs: seq<Decl>,
                             factory: Decl -> nat)
  {
    |ns| >= 1 && (forall i :: 0 <= i < |cs| ==> cs[i].Construct?) &&
    (forall j: nat :: j in mid <==> j < first) &&
    var chain := NamespaceChain(mid, g, ns);
    var w := Walked(chain);
    (forall i :: 0 <= i < w ==> Bounded(chain[i], first)) &&
    if w < |ns| then
      r == Err(TypeError(InvalidBase)) && h1 == mid && s1 == s0 + chain[..w]
    else
      var p := s0 + chain + Refs(first, |cs|);
      (r.Err? <==> |s0| + |cs| == 0) &&
      h1 == PutTopBelow(WithConstructors(mid, first, cs, factory), p, NameKey(ns[|ns| - 1])) &&
      s1 == (if r.Ok? then p[..|s0| + |cs| - 1] else PutOnly(p))
  }

  /**
   * The body of registerClass for the declarations the inspection visits:
   * push the global object, define the namespaces, push one constructor per
   * `construct`, put the top value under the last name on the value below
   * it, and pop depth + 1 values.
   */
  method RegisterDecls(ctx: Context, className: string, visited: seq<Decl>, factory: Decl -> nat)
      returns (r: Result<()>, ghost mid: map<nat, Object>, ghost first: nat)
    requires ctx.Valid() && ctx.duk != null
    requires forall dc :: dc in visited && dc.Construct? ==> factory(dc) != 0
    modifies ctx.duk
    ensures ctx.Valid() && DefinedKept(old(ctx.duk.heap), mid)
    ensures NamespaceWrites(old(ctx.duk.heap), mid, old(ctx.duk.nextId), first, SplitNamespaces(className))
    ensures Registered(old(ctx.duk.stack), ctx.duk.stack, ctx.duk.heap, r, mid, first, Ref(ctx.duk.global),
                       SplitNamespaces(className), Constructs(visited), factory)
  {
    var d := ctx.duk;
    var ns := SplitNamespaces(className);
    var cs := Constructs(visited);
    forall i | 0 <= i < |cs| ensures cs[i].Construct? && factory(cs[i]) != 0 {
      assert cs[i] in cs;
    }
    ghost var s0 := d.stack;
    var walk;
    walk, mid, first := PushConstructorChain(ctx, ns, cs, factory);
    if walk.Err? {
      r := Err(walk.error);
      RegisteredWhenStuck(s0, d.stack, d.heap, r, mid, first, Ref(d.global), ns, cs, factory);
      return;
    }
    var depth := walk.value;
    ghost var p := d.stack;
    r := PutAndPop(d, NameKey(ns[|ns| - 1]), depth + 1);
    assert r.Ok? ==> d.stack == p[..|s0| + |cs| - 1] by {
      assert |p| - 1 - (depth + 1) == |s0| + |cs| - 1;
    }
    RegisteredWhenWalked(s0, d.stack, d.heap, r, mid, first, Ref(d.global), ns, cs, factory);
  }

  lemma RegisteredWhenStuck(s0: seq<Value>, s1: seq<Value>, h1: map<nat, Object>, r: Result<()>,
                            mid: map<nat, Object>, first: nat, g: Value, ns: seq<string>, cs: seq<Decl>,
                            factory: Decl -> nat)
    requires |ns| >= 1 && (forall i :: 0 <= i < |cs| ==> cs[i].Construct?) && (forall j: nat :: j in mid <==> j < first)
    requires var chain := NamespaceChain(mid, g, ns);
      var w := Walked(chain);
      (forall i :: 0 <= i < w ==> Bounded(chain[i], first)) && w < |ns| &&
      r == Err(TypeError(InvalidBase)) && h1 == mid && s1 == s0 + chain[..w]
    ensures Registered(s0, s1, h1, r, mid, first, g, ns, cs, factory)
  {
  }

  lemma RegisteredWhenWalked(s0: seq<Value>, s1: seq<Value>, h1: map<nat, Object>, r: Result<()>,
                             mid: map<nat, Object>, first: nat, g: Value, ns: seq<string>, cs: seq<Decl>,
                             factory: Decl -> nat)
    requires |ns| >= 1 && (forall i :: 0 <= i < |cs| ==> cs[i].Construct?) && (forall j: nat :: j in mid <==> j < first)
    requires var chain := NamespaceChain(mid, g, ns);
      (forall i :: 0 <= i < |ns| ==> Bounded(chain[i], first)) && Walked(chain) == |ns| &&
      var p := s0 + chain + Refs(first, |cs|);
      (r.Err? <==> |p| < 2 || |p| < |ns| + 1) &&
      h1 == PutTopBelow(WithConstructors(mid, first, cs, factory), p, NameKey(ns[|ns| - 1])) &&
      s1 == (if r.Ok? then p[..|s0| + |cs| - 1] else PutOnly(p))
    ensures Registered(s0, s1, h1, r, mid, first, g, ns, cs, factory)
  {
  }

  /**
   * registerClass up to the put: the global object, the namespace levels
   * (defNamespaces leaves heap `mid`) and, when the walk reaches the last
   * name, one constructor per `construct`.
   */
  method PushConstructorChain(ctx: Context, ns: seq<string>, cs: seq<Decl>, factory: Decl -> nat)
      returns (r: Result<int>, ghost mid: map<nat, Object>, ghost first: nat)
    requires ctx.Valid() && ctx.duk != null && |ns| >= 1
    requires forall i :: 0 <= i < |cs| ==> cs[i].Construct? && factory(cs[i]) != 0
    modifies ctx.duk
    ensures ctx.Valid()
    ensures DefinedKept(old(ctx.duk.heap), mid) && forall j: nat :: j in mid <==> j < first
    ensures NamespaceWrites(old(ctx.duk.heap), mid, old(ctx.duk.nextId), first, ns)
    ensures var chain := NamespaceChain(mid, Ref(ctx.duk.global), ns);
      var w := Walked(chain);
      (forall i :: 0 <= i < w ==> Bounded(chain[i], first)) && (r.Ok? <==> w == |ns|) &&
      (r.Ok? ==>
        r.value == |ns| - 1 && ctx.duk.stack == old(ctx.duk.stack) + chain + Refs(first, |cs|) &&
        ctx.duk.heap == WithConstructors(mid, first, cs, factory)) &&
      (r.Err? ==> r == Err(TypeError(InvalidBase)) && ctx.duk.stack == old(ctx.duk.stack) + chain[..w] && ctx.duk.heap == mid)
  {
    var d := ctx.duk;
    r := OpenNamespaces(ctx, ns);
    mid, first := d.heap, d.nextId;
    if r.Err? {
      return;
    }
    assert NamespaceChain(mid, Ref(d.global), ns)[..|ns|] == NamespaceChain(mid, Ref(d.global), ns);
    PushConstructors(d, cs, factory);
  }

  /** duk_put_prop_string(-2, k) on stack p: the top value is written on the value below it. */
  function PutTopBelow(h: map<nat, Object>, p: seq<Value>, k: Key): map<nat, Object> {
    if |p| >= 2 then PutIn(h, p[|p| - 2], k, p[|p| - 1]) else h
  }

  /** The stack that duk_put_prop_string(-2, k) leaves, when it has the two values it needs. */
  function PutOnly(p: seq<Value>): seq<Value> {
    if |p| >= 2 then p[..|p| - 1] else p
  }

  /**
   * The end of registerClass: duk_put_prop_string(-2, name), then
   * duk_pop_n(n). Either engine call fails on a stack too short for it.
   */
  method PutAndPop(d: Duk, k: Key, n: nat) returns (r: Result<()>)
    requires d.Valid()
    modifies d
    ensures d.Valid() && d.nextId == old(d.nextId)
    ensures var p := old(d.stack);
      (r.Err? <==> |p| < 2 || |p| < n + 1) &&
      d.heap == PutTopBelow(old(d.heap), p, k) &&
      d.stack == (if r.Ok? then p[..|p| - 1 - n] else PutOnly(p))
  {
    if |d.stack| < 2 {
      return Err(InvalidIndex);
    }
    d.PutProp(-2, k);
    if |d.stack| < n {
      return Err(InvalidIndex);
    }
    d.PopN(n);
    r := Ok(());
  }

  /** What Registered says once the walk reached the last name. */
  lemma RegisteredWalked(s0: seq<Value>, s1: seq<Value>, h1: map<nat, Object>, r: Result<()>,
                         mid: map<nat, Object>, first: nat, g: Value, ns: seq<string>, cs: seq<Decl>,
                         factory: Decl -> nat)
    requires Registered(s0, s1, h1, r, mid, first, g, ns, cs, factory) && Walkable(mid, g, ns)
    ensures |ns| >= 1 && (forall i :: 0 <= i < |cs| ==> cs[i].Construct?) && (forall j: nat :: j in mid <==> j < first)
    ensures var chain := NamespaceChain(mid, g, ns);
      var p := s0 + chain + Refs(first, |cs|);
      (forall i :: 0 <= i < |ns| ==> Bounded(chain[i], first)) &&
      (r.Err? <==> |s0| + |cs| == 0) &&
      h1 == PutTopBelow(WithConstructors(mid, first, cs, factory), p, NameKey(ns[|ns| - 1])) &&
      s1 == (if r.Ok? then p[..|s0| + |cs| - 1] else PutOnly(p))
  {
  }

  /** The stack ends |cs| - 1 values above where it started, its old values kept below them. */
  lemma RegisteredDepth(s0: seq<Value>, s1: seq<Value>, h1: map<nat, Object>, r: Result<()>,
                        mid: map<nat, Object>, first: nat, g: Value, ns: seq<string>, cs: seq<Decl>,
                        factory: Decl -> nat)
    requires Registered(s0, s1, h1, r, mid, first, g, ns, cs, factory)
    ensures r.Ok? ==> |s1| == |s0| + |cs| - 1
    ensures r.Ok? && |cs| >= 1 ==> s1[..|s0|] == s0
    ensures !Walkable(mid, g, ns) ==>
      r == Err(TypeError(InvalidBase)) && h1 == mid && |s0| < |s1| < |s0| + |ns| && s1[..|s0|] == s0
  {
    var chain := NamespaceChain(mid, g, ns);
    if !Walkable(mid, g, ns) {
      assert s1[..|s0|] == (s0 + chain[..Walked(chain)])[..|s0|];
    }
  }

  /**
   * With a single constructor the put lands on the innermost namespace
   * object (the global object for an unqualified name): the class's last
   * name there is the constructor, which is left as pushed, and the stack
   * is as it was.
   */
  lemma SingleConstructorRegistered(s0: seq<Value>, s1: seq<Value>, h1: map<nat, Object>, r: Result<()>,
                                    mid: map<nat, Object>, first: nat, g: Value, ns: seq<string>, cs: seq<Decl>,
                                    factory: Decl -> nat)
    requires Registered(s0, s1, h1, r, mid, first, g, ns, cs, factory) && |cs| == 1
    ensures r.Ok? <==> Walkable(mid, g, ns)
    ensures Walkable(mid, g, ns) ==>
      s1 == s0 && first in h1 && h1[first] == ConstructorObject(cs[0].kind, |cs[0].params|, factory(cs[0])) &&
      var scope := Resolve(mid, g, ns[..|ns| - 1]);
      scope.Ref? ==> Look(h1, scope, NameKey(ns[|ns| - 1])) == Ref(first)
  {
    if !Walkable(mid, g, ns) {
      return;
    }
    RegisteredWalked(s0, s1, h1, r, mid, first, g, ns, cs, factory);
    var chain := NamespaceChain(mid, g, ns);
    var p := s0 + chain + Refs(first, 1);
    WithConstructorsAt(mid, first, cs, factory);
    var scope := chain[|ns| - 1];
    assert scope == Resolve(mid, g, ns[..|ns| - 1]);
    assert p[|p| - 2] == scope && p[|p| - 1] == Ref(first);
    assert Bounded(scope, first);
    assert s1 == p[..|s0|] == s0;
  }

  /**
   * With two constructors (the class's own, then its base's) the put lands
   * on the first constructor: the base's constructor is stored on the
   * class's constructor under the class's name, the namespace object keeps
   * whatever it had under that name, and the global object stays on the
   * stack.
   */
  lemma TwoConstructorsRegistered(s0: seq<Value>, s1: seq<Value>, h1: map<nat, Object>, r: Result<()>,
                                  mid: map<nat, Object>, first: nat, g: Value, ns: seq<string>, cs: seq<Decl>,
                                  factory: Decl -> nat)
    requires Registered(s0, s1, h1, r, mid, first, g, ns, cs, factory) && |cs| == 2
    ensures r.Ok? <==> Walkable(mid, g, ns)
    ensures Walkable(mid, g, ns) ==>
      s1 == s0 + [g] && Look(h1, Ref(first), NameKey(ns[|ns| - 1])) == Ref(first + 1) &&
      var scope := Resolve(mid, g, ns[..|ns| - 1]);
      Look(h1, scope, NameKey(ns[|ns| - 1])) == Look(mid, scope, NameKey(ns[|ns| - 1]))
  {
    if !Walkable(mid, g, ns) {
      return;
    }
    RegisteredWalked(s0, s1, h1, r, mid, first, g, ns, cs, factory);
    var chain := NamespaceChain(mid, g, ns);
    var p := s0 + chain + Refs(first, 2);
    var k := NameKey(ns[|ns| - 1]);
    var w := WithConstructors(mid, first, cs, factory);
    WithConstructorsAt(mid, first, cs, factory);
    assert p[|p| - 2] == Ref(first) && p[|p| - 1] == Ref(first + 1);
    assert h1 == PutIn(w, Ref(first), k, Ref(first + 1));
    var scope := chain[|ns| - 1];
    assert scope == Resolve(mid, g, ns[..|ns| - 1]);
    assert Bounded(scope, first);
    assert Look(h1, scope, k) == Look(w, scope, k);
    assert chain[0] == Resolve(mid, g, ns[..0]) == g by { assert ns[..0] == []; }
    assert s1 == s0 + [chain[0]] by {
      TakeAcross(s0, chain, Refs(first, 2), 1);
    }
  }

  /** Taking k elements past a prefix a keeps a and the first k of b. */
  lemma TakeAcross<T>(a: seq<T>, b: seq<T>, c: seq<T>, k: nat)
    requires k <= |b|
    ensures (a + b + c)[..|a| + k] == a + b[..k]
  {
  }

  /**
   * Context::registerClass, older variant: the constructor inspector visits
   * T's own declarations only. It fails when a namespace value on the way
   * is undefined or null. Otherwise a class declaring exactly one
   * constructor gets it under its last name on its namespace object, and
   * the stack is as it was.
   */
  method RegisterClass(ctx: Context, r: Registry, ds: Declarations, t: TypeId, factory: Decl -> nat)
      returns (res: Result<()>, ghost mid: map<nat, Object>, ghost first: nat)
    requires ctx.Valid() && ctx.duk != null && ClassName(r, t).isDefined && t in ds
    requires forall dc :: dc in ds[t] && dc.Construct? ==> factory(dc) != 0
    modifies ctx.duk
    ensures ctx.Valid() && DefinedKept(old(ctx.duk.heap), mid)
    ensures NamespaceWrites(old(ctx.duk.heap), mid, old(ctx.duk.nextId), first, SplitNamespaces(GetClassName(r, t)))
    ensures var ns := SplitNamespaces(GetClassName(r, t));
      var cs := Constructs(InspectOwn(ds, t));
      (res.Err? <==> !Walkable(mid, Ref(ctx.duk.global), ns) || |old(ctx.duk.stack)| + |cs| == 0) &&
      (!Walkable(mid, Ref(ctx.duk.global), ns) ==> res == Err(TypeError(InvalidBase)) && ctx.duk.heap == mid) &&
      (res.Ok? ==> |ctx.duk.stack| == |old(ctx.duk.stack)| + |cs| - 1)
    ensures var ns := SplitNamespaces(GetClassName(r, t));
      var cs := Constructs(InspectOwn(ds, t));
      var scope := Resolve(mid, Ref(ctx.duk.global), ns[..|ns| - 1]);
      |cs| == 1 && Walkable(mid, Ref(ctx.duk.global), ns) ==>
        res.Ok? && ctx.duk.stack == old(ctx.duk.stack) &&
        first in ctx.duk.heap && ctx.duk.heap[first] == ConstructorObject(cs[0].kind, |cs[0].params|, factory(cs[0])) &&
        (scope.Ref? ==> Look(ctx.duk.heap, scope, NameKey(ns[|ns| - 1])) == Ref(first))
  {
    ghost var s0 := ctx.duk.stack;
    var visited := InspectOwn(ds, t);
    res, mid, first := RegisterDecls(ctx, GetClassName(r, t), visited, factory);
    ghost var ns, cs := SplitNamespaces(GetClassName(r, t)), Constructs(visited);
    RegisteredDepth(s0, ctx.duk.stack, ctx.duk.heap, res, mid, first, Ref(ctx.duk.global), ns, cs, factory);
    if |cs| == 1 {
      SingleConstructorRegistered(s0, ctx.duk.stack, ctx.duk.heap, res, mid, first, Ref(ctx.duk.global), ns, cs, factory);
    }
  }

  /**
   * Context::registerClass as the newer variant writes it: Inspect<T> also
   * replays every base's declarations, so each `construct` up the chain
   * pushes a constructor. It fails as the older variant does; with one
   * constructor it behaves as the older variant, and with two the class's
   * constructor receives its base's under the class's name, the namespace
   * object is left as it was, and the global object stays on the stack.
   */
  method RegisterClassAsWritten(ctx: Context, r: Registry, ds: Declarations, t: TypeId, factory: Decl -> nat)
      returns (res: Result<()>, ghost mid: map<nat, Object>, ghost first: nat)
    requires ctx.Valid() && ctx.duk != null && ClassName(r, t).isDefined && WellFormed(r) && Inspectable(r, ds, t)
    requires forall dc :: dc in Inspect(r, ds, t) && dc.Construct? ==> factory(dc) != 0
    modifies ctx.duk
    ensures ctx.Valid() && DefinedKept(old(ctx.duk.heap), mid)
    ensures NamespaceWrites(old(ctx.duk.heap), mid, old(ctx.duk.nextId), first, SplitNamespaces(GetClassName(r, t)))
    ensures var ns := SplitNamespaces(GetClassName(r, t));
      var cs := Constructs(Inspect(r, ds, t));
      (res.Err? <==> !Walkable(mid, Ref(ctx.duk.global), ns) || |old(ctx.duk.stack)| + |cs| == 0) &&
      (!Walkable(mid, Ref(ctx.duk.global), ns) ==> res == Err(TypeError(InvalidBase)) && ctx.duk.heap == mid) &&
      (res.Ok? ==> |ctx.duk.stack| == |old(ctx.duk.stack)| + |cs| - 1)
    ensures var ns := SplitNamespaces(GetClassName(r, t));
      var cs := Constructs(Inspect(r, ds, t));
      var scope := Resolve(mid, Ref(ctx.duk.global), ns[..|ns| - 1]);
      |cs| == 2 && Walkable(mid, Ref(ctx.duk.global), ns) ==>
        res.Ok? && ctx.duk.stack == old(ctx.duk.stack) + [Ref(ctx.duk.global)] &&
        Look(ctx.duk.heap, Ref(first), NameKey(ns[|ns| - 1])) == Ref(first + 1) &&
        Look(ctx.duk.heap, scope, NameKey(ns[|ns| - 1])) == Look(mid, scope, NameKey(ns[|ns| - 1]))
  {
    ghost var s0 := ctx.duk.stack;
    var visited := Inspect(r, ds, t);
    res, mid, first := RegisterDecls(ctx, GetClassName(r, t), visited, factory);
    ghost var ns, cs := SplitNamespaces(GetClassName(r, t)), Constructs(visited);
    RegisteredDepth(s0, ctx.duk.stack, ctx.duk.heap, res, mid, first, Ref(ctx.duk.global), ns, cs, factory);
    if |cs| == 2 {
      TwoConstructorsRegistered(s0, ctx.duk.stack, ctx.duk.heap, res, mid, first, Ref(ctx.duk.global), ns, cs, factory);
    }
  }

  /** IBase (0) <- Concrete (1) <- SubConcrete (2), with the names the polymorphism tests define. */
  const Polymorphic: Registry :=
    Registry(map[1 := PolymorphicNs + Sep + "Concrete", 2 := PolymorphicNs + Sep + "SubConcrete"], map[], map[1 := 0, 2 := 1], {})

  /** The namespace of the polymorphism test classes. */
  const PolymorphicNs: string := "PolymorphicTests"

  const ConcreteConstructor: Decl := Construct(SharedFactory, 1, [IntType])
  const SubConcreteConstructor: Decl := Construct(SharedFactory, 2, [IntType])

  /** Their `inspect` bodies (ptToBaseClassArg, whose parameter is a shared pointer, left out). */
  const PolymorphicDecls: Declarations := map[
    0 := [Method("pureVirtualMethod", Sig([], Some(IntType), false)),
          Method("overriddenMethod", Sig([], Some(StringType), false)),
          Method("nonVirtualMethod", Sig([], Some(IntType), false)),
          Method("refToBaseClassArg", Sig([ObjectByRef(0)], Some(IntType), false))],
    1 := [ConcreteConstructor,
          Property("someProp", Sig([], Some(IntType), true), Some(Sig([ScalarParam(IntType)], None, false))),
          Method("refToConcreteClassArg", Sig([ObjectByRef(1)], None, false))],
    2 := [SubConcreteConstructor]]

  /** The base-walking inspection of SubConcrete visits its own, Concrete's and IBase's declarations. */
  lemma PolymorphicInspect()
    ensures WellFormed(Polymorphic) && Inspectable(Polymorphic, PolymorphicDecls, 2)
    ensures Inspect(Polymorphic, PolymorphicDecls, 2) ==
            PolymorphicDecls[2] + (PolymorphicDecls[1] + PolymorphicDecls[0])
  {
    assert Chain(Polymorphic, 0) == [0];
    assert Chain(Polymorphic, 2) == [2, 1, 0];
    assert Inspect(Polymorphic, PolymorphicDecls, 0) == PolymorphicDecls[0];
  }

  /** Concrete's declarations and IBase's hold Concrete's constructor alone. */
  lemma BaseConstructs()
    ensures Constructs(PolymorphicDecls[1] + PolymorphicDecls[0]) == [ConcreteConstructor]
  {
    var base := PolymorphicDecls[1];
    var root := PolymorphicDecls[0];
    NoConstructs(base[1..]);
    NoConstructs(root);
    ConstructsAppend(base, root);
  }

  /**
   * SubConcrete declares one constructor, but the base-walking inspection
   * finds two: its own, then Concrete's.
   */
  lemma SubConcreteConstructsTwice()
    ensures WellFormed(Polymorphic) && Inspectable(Polymorphic, PolymorphicDecls, 2)
    ensures Constructs(Inspect(Polymorphic, PolymorphicDecls, 2)) == [SubConcreteConstructor, ConcreteConstructor]
    ensures Constructs(InspectOwn(PolymorphicDecls, 2)) == [SubConcreteConstructor]
  {
    PolymorphicInspect();
    var own := PolymorphicDecls[2];
    assert Constructs(own) == [SubConcreteConstructor] by {
      assert own[1..] == [];
    }
    BaseConstructs();
    ConstructsAppend(own, PolymorphicDecls[1] + PolymorphicDecls[0]);
  }

  /** The constructors of two visit sequences in a row are those of each, in order. */
  lemma {:induction false} ConstructsAppend(a: seq<Decl>, b: seq<Decl>)
    ensures Constructs(a + b) == Constructs(a) + Constructs(b)
    decreases |a|
  {
    if a == [] {
      assert a + b == b;
    } else {
      assert (a + b)[0] == a[0] && (a + b)[1..] == a[1..] + b;
      ConstructsAppend(a[1..], b);
      var head := if a[0].Construct? then [a[0]] else [];
      assert Constructs(a + b) == head + (Constructs(a[1..]) + Constructs(b));
      assert Constructs(a) == head + Constructs(a[1..]);
    }
  }

  /** A visit sequence without `construct` pushes no constructor. */
  lemma {:induction false} NoConstructs(vs: seq<Decl>)
    requires forall i :: 0 <= i < |vs| ==> !vs[i].Construct?
    ensures Constructs(vs) == []
    decreases |vs|
  {
    if vs != [] {
      NoConstructs(vs[1..]);
    }
  }

  /**
   * Registering SubConcrete with the base-walking inspection: the result
   * is Ok, yet the global object stays on the stack and
   * `PolymorphicTests.SubConcrete` is not its constructor.
   */
  method RegisterSubConcreteAsWritten(ctx: Context, factory: Decl -> nat) returns (res: Result<()>)
    requires ctx.Valid() && ctx.duk != null
    requires factory(SubConcreteConstructor) != 0 && factory(ConcreteConstructor) != 0
    modifies ctx.duk
    ensures res.Ok? && ctx.duk.stack == old(ctx.duk.stack) + [Ref(ctx.duk.global)]
  {
    SubConcreteConstructsTwice();
    assert ClassName(Polymorphic, 2).isDefined;
    ghost var ns := SplitNamespaces(GetClassName(Polymorphic, 2));
    assert |ns| == 2 by {
      SplitPolymorphic();
    }
    PolymorphicFactories(factory);
    ghost var mid, first;
    res, mid, first := RegisterClassAsWritten(ctx, Polymorphic, PolymorphicDecls, 2, factory);
    ShortNamesWalk(mid, Ref(ctx.duk.global), ns);
  }

  lemma PolymorphicFactories(factory: Decl -> nat)
    requires factory(SubConcreteConstructor) != 0 && factory(ConcreteConstructor) != 0
    ensures WellFormed(Polymorphic) && Inspectable(Polymorphic, PolymorphicDecls, 2)
    ensures forall dc :: dc in Inspect(Polymorphic, PolymorphicDecls, 2) && dc.Construct? ==> factory(dc) != 0
  {
    PolymorphicInspect();
  }

  /** SubConcrete's name has one namespace. */
  lemma SplitPolymorphic()
    ensures SplitNamespaces(GetClassName(Polymorphic, 2)) == [PolymorphicNs, "SubConcrete"]
  {
    var a, b := PolymorphicNs, "SubConcrete";
    assert ColonFree(a) by {
      forall i | 0 <= i < |a| ensures a[i] != ':' { }
    }
    assert ColonFree(b) by {
      forall i | 0 <= i < |b| ensures b[i] != ':' { }
    }
    SplitTwoLevels(a, b);
  }

  // ----- registerEnum -----

  /** The declaration is a constant whose name converts to the key `k`. */
  predicate NamesConstant(dc: Decl, k: Key) {
    dc.Constant? && NameKey(dc.name) == k
  }

  /** Every constant of the visit can be pushed as the scalar it holds. */
  predicate PushableConstants(vs: seq<Decl>) {
    forall i :: 0 <= i < |vs| && vs[i].Constant? ==> HasType(vs[i].value, TypeOfScalar(vs[i].value))
  }

  /**
   * The enum object after ConstantsInspector has seen `vs`: a plain object
   * with each constant written under its name, in the order visited.
   */
  function ConstantsObject(vs: seq<Decl>): (o: Object)
    ensures o.kind == PlainObject
    decreases |vs|
  {
    if vs == [] then NewObject(PlainObject)
    else
      var o := ConstantsObject(vs[..|vs| - 1]);
      var dc := vs[|vs| - 1];
      if dc.Constant? then Put(o, NameKey(dc.name), Encode(dc.value)) else o
  }

  /** A key no constant of the visit names reads as undefined on the enum object. */
  lemma {:induction false} ConstantsAbsent(vs: seq<Decl>, k: Key)
    requires forall i :: 0 <= i < |vs| ==> !NamesConstant(vs[i], k)
    ensures Get(ConstantsObject(vs), k) == Undefined
    decreases |vs|
  {
    if vs != [] {
      var init := vs[..|vs| - 1];
      assert forall i :: 0 <= i < |init| ==> init[i] == vs[i];
      ConstantsAbsent(init, k);
      assert !NamesConstant(vs[|vs| - 1], k);
    }
  }

  /** A key reads, on the enum object, as the value of the last constant that names it. */
  lemma {:induction false} ConstantsLast(vs: seq<Decl>, k: Key, j: nat)
    requires j < |vs| && NamesConstant(vs[j], k)
    requires forall i :: j < i < |vs| ==> !NamesConstant(vs[i], k)
    ensures Get(ConstantsObject(vs), k) == Encode(vs[j].value)
    decreases |vs|
  {
    if j < |vs| - 1 {
      var init := vs[..|vs| - 1];
      assert forall i :: 0 <= i < |init| ==> init[i] == vs[i];
      ConstantsLast(init, k, j);
      assert !NamesConstant(vs[|vs| - 1], k);
    }
  }

  /**
   * ConstantsInspector over `vs`, the enum object `obj` on top of the stack:
   * each constant is pushed and put on the object at `objIdx`.
   */
  method PutConstants(d: Duk, objIdx: int, ghost obj: nat, vs: seq<Decl>)
    requires d.Valid() && 0 <= objIdx == |d.stack| - 1 && d.stack[objIdx] == Ref(obj)
    requires obj in d.heap && d.heap[obj] == NewObject(PlainObject) && PushableConstants(vs)
    modifies d
    ensures d.Valid() && d.stack == old(d.stack) && d.nextId == old(d.nextId)
    ensures d.heap == old(d.heap)[obj := ConstantsObject(vs)]
  {
    ghost var h0 := d.heap;
    for i := 0 to |vs|
      invariant d.Valid() && d.stack == old(d.stack) && d.nextId == old(d.nextId)
      invariant d.heap == h0[obj := ConstantsObject(vs[..i])]
    {
      assert vs[..i + 1][..i] == vs[..i];
      if vs[i].Constant? {
        PushScalar(d, vs[i].value);
        d.PutProp(objIdx, NameKey(vs[i].name));
      }
    }
    assert vs[..|vs|] == vs;
  }

  /**
   * The first half of registerEnum: defNamespaces, then, when the walk
   * reaches the last name, the enum object pushed and filled with the
   * constants of `vs`.
   */
  method PushEnumObject(ctx: Context, ns: seq<string>, vs: seq<Decl>)
      returns (r: Result<int>, ghost mid: map<nat, Object>, ghost obj: nat)
    requires ctx.Valid() && ctx.duk != null && |ns| >= 1 && PushableConstants(vs)
    modifies ctx.duk
    ensures ctx.Valid()
    ensures DefinedKept(old(ctx.duk.heap), mid) && forall j: nat :: j in mid <==> j < obj
    ensures NamespaceWrites(old(ctx.duk.heap), mid, old(ctx.duk.nextId), obj, ns)
    ensures var chain := NamespaceChain(mid, Ref(ctx.duk.global), ns);
      var w := Walked(chain);
      (forall i :: 0 <= i < w ==> Bounded(chain[i], obj)) && (r.Ok? <==> w == |ns|) &&
      (r.Ok? ==>
        r.value == |ns| - 1 && ctx.duk.stack == old(ctx.duk.stack) + chain + [Ref(obj)] &&
        ctx.duk.heap == mid[obj := ConstantsObject(vs)]) &&
      (r.Err? ==> r == Err(TypeError(InvalidBase)) && ctx.duk.stack == old(ctx.duk.stack) + chain[..w] && ctx.duk.heap == mid)
  {
    var d := ctx.duk;
    r := OpenNamespaces(ctx, ns);
    mid, obj := d.heap, d.nextId;
    if r.Err? {
      return;
    }
    assert NamespaceChain(mid, Ref(d.global), ns)[..|ns|] == NamespaceChain(mid, Ref(d.global), ns);
    var objIdx := d.PushNew(PlainObject);
    PutConstants(d, objIdx, obj, vs);
  }

  /**
   * Context::registerEnum: a plain object holding the constants T declares
   * is put under the enum's last name on its namespace object (the global
   * object for an unqualified name), and the stack is as it was. `mid` is
   * the heap defNamespaces left; `obj` is the enum object's id. It fails,
   * with the walked namespace values left pushed, when one of them before
   * the last is undefined or null.
   */
  method RegisterEnum(ctx: Context, r: Registry, ds: Declarations, t: TypeId)
      returns (res: Result<()>, ghost mid: map<nat, Object>, ghost obj: nat)
    requires ctx.Valid() && ctx.duk != null && ClassName(r, t).isDefined && t in ds
    requires PushableConstants(InspectOwn(ds, t))
    modifies ctx.duk
    ensures ctx.Valid()
    ensures DefinedKept(old(ctx.duk.heap), mid) && (forall j: nat :: j in mid <==> j < obj)
    ensures NamespaceWrites(old(ctx.duk.heap), mid, old(ctx.duk.nextId), obj, SplitNamespaces(GetClassName(r, t)))
    ensures var ns := SplitNamespaces(GetClassName(r, t));
      var chain := NamespaceChain(mid, Ref(ctx.duk.global), ns);
      (res.Ok? <==> Walkable(mid, Ref(ctx.duk.global), ns)) &&
      (res.Err? ==>
        res == Err(TypeError(InvalidBase)) && ctx.duk.heap == mid &&
        ctx.duk.stack == old(ctx.duk.stack) + chain[..Walked(chain)])
    ensures var ns := SplitNamespaces(GetClassName(r, t));
      var scope := Resolve(mid, Ref(ctx.duk.global), ns[..|ns| - 1]);
      res.Ok? ==>
        ctx.duk.stack == old(ctx.duk.stack) &&
        ctx.duk.heap == PutIn(mid[obj := ConstantsObject(InspectOwn(ds, t))], scope, NameKey(ns[|ns| - 1]), Ref(obj)) &&
        (scope.Ref? ==> Look(ctx.duk.heap, scope, NameKey(ns[|ns| - 1])) == Ref(obj))
  {
    var d := ctx.duk;
    ghost var s0 := d.stack;
    var ns := SplitNamespaces(GetClassName(r, t));
    var walk;
    walk, mid, obj := PushEnumObject(ctx, ns, InspectOwn(ds, t));
    if walk.Err? {
      return Err(walk.error), mid, obj;
    }
    var depth := walk.value;
    ghost var chain := NamespaceChain(mid, Ref(d.global), ns);
    assert chain[|ns| - 1] == Resolve(mid, Ref(d.global), ns[..|ns| - 1]);
    PutEnumAndPop(d, NameKey(ns[|ns| - 1]), depth, s0, chain, obj);
    EnumBound(mid, obj, ConstantsObject(InspectOwn(ds, t)), chain[|ns| - 1], NameKey(ns[|ns| - 1]));
    res := Ok(());
  }

  /**
   * The second half of registerEnum: the enum object on top is put under
   * `k` on the innermost namespace value below it, which is popped, and
   * then the depth namespace values under that.
   */
  method PutEnumAndPop(d: Duk, k: Key, depth: int, ghost s0: seq<Value>, ghost chain: seq<Value>, ghost obj: nat)
    requires d.Valid() && depth >= 0 && |chain| == depth + 1 && d.stack == s0 + chain + [Ref(obj)]
    modifies d
    ensures d.Valid() && d.stack == s0 && d.nextId == old(d.nextId)
    ensures d.heap == PutIn(old(d.heap), chain[depth], k, Ref(obj))
  {
    assert d.At(-2) == chain[depth] && d.At(-1) == Ref(obj);
    d.PutProp(-2, k);
    assert d.stack == s0 + chain;
    d.PopN(1);
    d.PopN(depth);
    assert d.stack == s0;
  }

  /** Putting the new object `obj` on an older object `scope` makes it readable there. */
  lemma EnumBound(mid: map<nat, Object>, obj: nat, o: Object, scope: Value, k: Key)
    requires Bounded(scope, obj) && forall j: nat :: j in mid <==> j < obj
    ensures var h := PutIn(mid[obj := o], scope, k, Ref(obj));
      obj in h && h[obj] == o && (scope.Ref? ==> Look(h, scope, k) == Ref(obj))
  {
  }
}
