/**
 * The value codecs `Type<T>` for the primitive types, `std::string`,
 * `std::vector<T>` and `std::tuple<A...>`, and the reading half of the
 * default object codec. Each `push` adds values to the engine stack; each
 * `get` reads the value at a stack index into an out-parameter. A C++
 * exception or an engine error raised by `get` is an `Err` result.
 */
module Codecs {
  import opened Errors
  import opened Engine
  import opened Scalars

  /** The hidden property holding the address of the native object behind a script object. */
  const ObjPtr: Key := Hidden("obj_ptr")

  // ----- arrays as built by push and read by enumeration -----

  /** The array `duk_push_array` and one `duk_put_prop_index(-2, i)` per element build. */
  function ArrayOf(vs: seq<Value>): (o: Object)
    ensures o.kind == ArrayObject && o.length == |vs| && o.finalizer == None
  {
    Object(ArrayObject, map i: nat | i < |vs| :: Indexed(i) := Data(vs[i]), |vs|, None)
  }

  /** Writing the next index of an array extends it by that element. */
  lemma ArrayOfSnoc(vs: seq<Value>, v: Value)
    ensures Put(ArrayOf(vs), Indexed(|vs|), v) == ArrayOf(vs + [v])
  {
    var a := Put(ArrayOf(vs), Indexed(|vs|), v);
    var b := ArrayOf(vs + [v]);
    assert a.props.Keys == b.props.Keys by {
      forall k | k in b.props ensures k in a.props {
        if k != Indexed(|vs|) { assert k in ArrayOf(vs).props; }
      }
    }
    assert a.props == b.props;
  }

  lemma TakeSnoc<T>(s: seq<T>, i: nat)
    requires i < |s|
    ensures s[..i] + [s[i]] == s[..i + 1]
  {
  }

  lemma TakeAll<T>(s: seq<T>)
    ensures s[..|s|] == s
  {
  }

  /** The consecutive indices from, from + 1, ..., to - 1. */
  function Range(from: nat, to: nat): (ks: seq<nat>)
    ensures |ks| == if from <= to then to - from else 0
    ensures (forall i :: 0 <= i < |ks| ==> ks[i] == from + i)
    decreases if from <= to then to - from else 0
  {
    if from >= to then [] else [from] + Range(from + 1, to)
  }

  /** An enumeration of a pushed array visits 0, 1, ..., n - 1. */
  lemma {:induction false} IndexKeysOfArray(vs: seq<Value>, from: nat)
    requires from <= |vs|
    ensures IndexKeys(ArrayOf(vs), from) == Range(from, |vs|)
    decreases |vs| - from
  {
    if from < |vs| {
      assert Indexed(from) in ArrayOf(vs).props;
      IndexKeysOfArray(vs, from + 1);
    }
  }

  /** The values an enumeration over keys ks of object o yields, in order. */
  function Elements(o: Object, ks: seq<nat>): (vs: seq<Value>)
    ensures |vs| == |ks| && forall i :: 0 <= i < |ks| ==> vs[i] == Get(o, Indexed(ks[i]))
  {
    if ks == [] then [] else [Get(o, Indexed(ks[0]))] + Elements(o, ks[1..])
  }

  /** Enumerating a pushed array gives back its elements in index order. */
  lemma ElementsOfArray(vs: seq<Value>)
    ensures Elements(ArrayOf(vs), IndexKeys(ArrayOf(vs), 0)) == vs
  {
    IndexKeysOfArray(vs, 0);
  }

  function EncodeAll(xs: seq<Scalar>): (vs: seq<Value>)
    ensures |vs| == |xs| && forall i :: 0 <= i < |xs| ==> vs[i] == Encode(xs[i])
  {
    if xs == [] then [] else [Encode(xs[0])] + EncodeAll(xs[1..])
  }

  // ----- scalar codecs -----

  /** Type<int>::push (duk_push_int). */
  method PushInt(d: Duk, i: int)
    requires d.Valid() && IsInt32(i)
    modifies d
    ensures d.Valid() && d.stack == old(d.stack) + [Encode(IntVal(i))]
    ensures d.heap == old(d.heap) && d.nextId == old(d.nextId)
  {
    d.Push(Number(i));
  }

  /** Type<int>::get (duk_require_int): a TypeError for a non-number, a clamped value otherwise. */
  method GetInt(d: Duk, index: int) returns (r: Result<int>)
    requires d.Valid() && d.ValidIndex(index)
    ensures r.Ok? <==> Decode(IntType, d.At(index)).Ok?
    ensures r.Ok? ==> Decode(IntType, d.At(index)) == Ok(IntVal(r.value))
    ensures r.Err? ==> Decode(IntType, d.At(index)) == Err(r.error)
  {
    var v := d.At(index);
    if !v.Number? {
      return Err(TypeError("number required"));
    }
    r := Ok(ClampInt(v.n));
  }

  /** Type<unsigned int>::push (duk_push_uint). */
  method PushUInt(d: Duk, u: int)
    requires d.Valid() && IsUInt32(u)
    modifies d
    ensures d.Valid() && d.stack == old(d.stack) + [Encode(UIntVal(u))]
    ensures d.heap == old(d.heap) && d.nextId == old(d.nextId)
  {
    d.Push(Number(u));
  }

  /** Type<unsigned int>::get (duk_require_uint). */
  method GetUInt(d: Duk, index: int) returns (r: Result<int>)
    requires d.Valid() && d.ValidIndex(index)
    ensures r.Ok? <==> Decode(UIntType, d.At(index)).Ok?
    ensures r.Ok? ==> Decode(UIntType, d.At(index)) == Ok(UIntVal(r.value))
    ensures r.Err? ==> Decode(UIntType, d.At(index)) == Err(r.error)
  {
    var v := d.At(index);
    if !v.Number? {
      return Err(TypeError("number required"));
    }
    r := Ok(ClampUInt(v.n));
  }

  /** Type<bool>::push (duk_push_boolean). */
  method PushBool(d: Duk, b: bool)
    requires d.Valid()
    modifies d
    ensures d.Valid() && d.stack == old(d.stack) + [Encode(BoolVal(b))]
    ensures d.heap == old(d.heap) && d.nextId == old(d.nextId)
  {
    d.Push(Boolean(b));
  }

  /** Type<bool>::get (duk_require_boolean). */
  method GetBool(d: Duk, index: int) returns (r: Result<bool>)
    requires d.Valid() && d.ValidIndex(index)
    ensures r.Ok? <==> Decode(BoolType, d.At(index)).Ok?
    ensures r.Ok? ==> Decode(BoolType, d.At(index)) == Ok(BoolVal(r.value))
    ensures r.Err? ==> Decode(BoolType, d.At(index)) == Err(r.error)
  {
    var v := d.At(index);
    if !v.Boolean? {
      return Err(TypeError("boolean required"));
    }
    r := Ok(v.b);
  }

  /** Type<std::string>::push: duk_push_string of c_str(), so the text stops at the first NUL. */
  method PushString(d: Duk, s: string)
    requires d.Valid()
    modifies d
    ensures d.Valid() && d.stack == old(d.stack) + [Encode(StringVal(s))]
    ensures d.heap == old(d.heap) && d.nextId == old(d.nextId)
  {
    d.Push(Text(CString(s)));
  }

  /**
   * Type<std::string>::get: duk_get_string with no type check; a
   * non-string gives NULL, and constructing a std::string from NULL fails.
   */
  method GetString(d: Duk, index: int) returns (r: Result<string>)
    requires d.Valid() && d.ValidIndex(index)
    ensures r.Ok? <==> Decode(StringType, d.At(index)).Ok?
    ensures r.Ok? ==> Decode(StringType, d.At(index)) == Ok(StringVal(r.value))
    ensures r.Err? ==> Decode(StringType, d.At(index)) == Err(r.error)
  {
    var v := d.At(index);
    if !v.Text? {
      return Err(NullString);
    }
    r := Ok(CString(v.s));
  }

  /** Type<T>::push for a scalar T, by its type. */
  method PushScalar(d: Duk, x: Scalar)
    requires d.Valid() && HasType(x, TypeOfScalar(x))
    modifies d
    ensures d.Valid() && d.stack == old(d.stack) + [Encode(x)]
    ensures d.heap == old(d.heap) && d.nextId == old(d.nextId)
  {
    match x
    case IntVal(i) => PushInt(d, i);
    case UIntVal(u) => PushUInt(d, u);
    case BoolVal(b) => PushBool(d, b);
    case StringVal(s) => PushString(d, s);
  }

  function TypeOfScalar(x: Scalar): ScalarType {
    match x
    case IntVal(_) => IntType
    case UIntVal(_) => UIntType
    case BoolVal(_) => BoolType
    case StringVal(_) => StringType
  }

  /** Type<T>::get for a scalar T: the stack is left as it was. */
  method GetScalar(d: Duk, t: ScalarType, index: int) returns (r: Result<Scalar>)
    requires d.Valid() && d.ValidIndex(index)
    ensures r == Decode(t, d.At(index))
  {
    match t
    case IntType =>
      var i := GetInt(d, index);
      r := if i.Ok? then Ok(IntVal(i.value)) else Err(i.error);
    case UIntType =>
      var u := GetUInt(d, index);
      r := if u.Ok? then Ok(UIntVal(u.value)) else Err(u.error);
    case BoolType =>
      var b := GetBool(d, index);
      r := if b.Ok? then Ok(BoolVal(b.value)) else Err(b.error);
    case StringType =>
      var s := GetString(d, index);
      r := if s.Ok? then Ok(StringVal(s.value)) else Err(s.error);
  }

  /** Pushing a scalar and reading the top back as its type gives the scalar (no NUL in a string). */
  method ScalarRoundTrip(d: Duk, x: Scalar) returns (r: Result<Scalar>)
    requires d.Valid() && HasType(x, TypeOfScalar(x)) && (x.StringVal? ==> '\0' !in x.s)
    modifies d
    ensures r == Ok(x) && d.stack == old(d.stack) + [Encode(x)]
  {
    PushScalar(d, x);
    r := GetScalar(d, TypeOfScalar(x), -1);
    RoundTrip(x, TypeOfScalar(x));
  }

  // ----- std::vector<T> -----

  /**
   * The decoding the vector get loop performs: each enumerated value is
   * decoded and appended to what `acc` already holds; the first value that
   * does not decode ends it with that error.
   */
  function DecodeAppend(t: ScalarType, acc: seq<Scalar>, vs: seq<Value>): (r: Result<seq<Scalar>>)
    ensures r.Ok? ==> |r.value| == |acc| + |vs|
    decreases |vs|
  {
    if vs == [] then Ok(acc)
    else
      var x := Decode(t, vs[0]);
      if x.Err? then Err(x.error) else DecodeAppend(t, acc + [x.value], vs[1..])
  }

  /**
   * The vector get succeeds exactly when every enumerated value decodes,
   * and then it holds the old contents followed by the decoded values.
   */
  lemma {:induction false} DecodeAppendMeaning(t: ScalarType, acc: seq<Scalar>, vs: seq<Value>)
    ensures var r := DecodeAppend(t, acc, vs);
      (r.Ok? <==> forall i :: 0 <= i < |vs| ==> Decode(t, vs[i]).Ok?) &&
      (r.Ok? ==> r.value[..|acc|] == acc && forall i :: 0 <= i < |vs| ==> Decode(t, vs[i]) == Ok(r.value[|acc| + i]))
    decreases |vs|
  {
    if vs != [] {
      var x := Decode(t, vs[0]);
      if x.Ok? {
        DecodeAppendMeaning(t, acc + [x.value], vs[1..]);
        var r := DecodeAppend(t, acc, vs);
        if r.Ok? {
          assert r.value[..|acc| + 1][..|acc|] == r.value[..|acc|];
          forall i | 0 <= i < |vs| ensures Decode(t, vs[i]) == Ok(r.value[|acc| + i]) {
            if i > 0 { assert vs[i] == vs[1..][i - 1]; }
          }
        } else {
          var i :| 0 <= i < |vs[1..]| && !Decode(t, vs[1..][i]).Ok?;
          assert !Decode(t, vs[i + 1]).Ok?;
        }
      }
    }
  }

  /**
   * The caller's vector when the get loop stops: `acc` followed by the
   * decodings of the enumerated values up to the first that does not
   * decode (each is appended as soon as it is read).
   */
  function Filled(t: ScalarType, acc: seq<Scalar>, vs: seq<Value>): (f: seq<Scalar>)
    ensures |acc| <= |f| <= |acc| + |vs|
    decreases |vs|
  {
    if vs == [] then acc
    else
      var x := Decode(t, vs[0]);
      if x.Err? then acc else Filled(t, acc + [x.value], vs[1..])
  }

  /**
   * What the vector holds after the get: on success exactly the result; on
   * failure the old contents and the decodings of the k values before the
   * first that fails, whose error is the one reported.
   */
  lemma {:induction false} FilledMeaning(t: ScalarType, acc: seq<Scalar>, vs: seq<Value>)
    ensures var f := Filled(t, acc, vs);
      var k := |f| - |acc|;
      var r := DecodeAppend(t, acc, vs);
      f[..|acc|] == acc &&
      (forall i :: 0 <= i < k ==> Decode(t, vs[i]) == Ok(f[|acc| + i])) &&
      (r.Ok? ==> r.value == f) &&
      (r.Err? <==> k < |vs|) &&
      (k < |vs| ==> Decode(t, vs[k]).Err? && r == Err(Decode(t, vs[k]).error))
    decreases |vs|
  {
    FilledDecodes(t, acc, vs);
    FilledStops(t, acc, vs);
  }

  lemma {:induction false} FilledDecodes(t: ScalarType, acc: seq<Scalar>, vs: seq<Value>)
    ensures var f := Filled(t, acc, vs);
      f[..|acc|] == acc && forall i :: 0 <= i < |f| - |acc| ==> Decode(t, vs[i]) == Ok(f[|acc| + i])
    decreases |vs|
  {
    if vs != [] && Decode(t, vs[0]).Ok? {
      var acc' := acc + [Decode(t, vs[0]).value];
      FilledDecodes(t, acc', vs[1..]);
      var f := Filled(t, acc, vs);
      assert f[..|acc'|] == acc';
      assert f[..|acc|] == f[..|acc'|][..|acc|] == acc;
      forall i | 0 <= i < |f| - |acc| ensures Decode(t, vs[i]) == Ok(f[|acc| + i]) {
        if i == 0 {
          assert f[|acc|] == f[..|acc'|][|acc|];
        } else {
          assert vs[i] == vs[1..][i - 1];
        }
      }
    }
  }

  lemma {:induction false} FilledStops(t: ScalarType, acc: seq<Scalar>, vs: seq<Value>)
    ensures var f := Filled(t, acc, vs);
      var k := |f| - |acc|;
      var r := DecodeAppend(t, acc, vs);
      (r.Ok? ==> r.value == f) &&
      (r.Err? <==> k < |vs|) &&
      (k < |vs| ==> Decode(t, vs[k]).Err? && r == Err(Decode(t, vs[k]).error))
    decreases |vs|
  {
    if vs != [] && Decode(t, vs[0]).Ok? {
      var acc' := acc + [Decode(t, vs[0]).value];
      FilledStops(t, acc', vs[1..]);
      var k := |Filled(t, acc, vs)| - |acc|;
      if k < |vs| {
        assert vs[k] == vs[1..][k - 1];
      }
    }
  }

  /** The vector get does not clear its out-parameter: the result is the old contents followed by the decoded ones. */
  lemma {:induction false} DecodeAppendKeepsPrefix(t: ScalarType, acc: seq<Scalar>, vs: seq<Value>)
    ensures DecodeAppend(t, [], vs).Ok? <==> DecodeAppend(t, acc, vs).Ok?
    ensures DecodeAppend(t, [], vs).Ok? ==> DecodeAppend(t, acc, vs).value == acc + DecodeAppend(t, [], vs).value
    decreases |vs|
  {
    if vs != [] {
      var x := Decode(t, vs[0]);
      if x.Ok? {
        var rest := DecodeAppend(t, [], vs[1..]);
        assert [] + [x.value] == [x.value];
        assert DecodeAppend(t, [], vs) == DecodeAppend(t, [x.value], vs[1..]);
        assert DecodeAppend(t, acc, vs) == DecodeAppend(t, acc + [x.value], vs[1..]);
        DecodeAppendKeepsPrefix(t, [x.value], vs[1..]);
        DecodeAppendKeepsPrefix(t, acc + [x.value], vs[1..]);
        if rest.Ok? {
          assert acc + ([x.value] + rest.value) == acc + [x.value] + rest.value;
        }
      }
    }
  }

  /** A value of type t that comes back unchanged from the engine (a string must hold no NUL). */
  predicate Faithful(x: Scalar, t: ScalarType) {
    HasType(x, t) && (x.StringVal? ==> '\0' !in x.s)
  }

  /** Decoding the encodings of well-typed scalars gives them back after what was there. */
  lemma {:induction false} DecodeAppendEncoded(t: ScalarType, acc: seq<Scalar>, xs: seq<Scalar>)
    requires forall i :: 0 <= i < |xs| ==> Faithful(xs[i], t)
    ensures DecodeAppend(t, acc, EncodeAll(xs)) == Ok(acc + xs)
    decreases |xs|
  {
    if xs != [] {
      var vs := EncodeAll(xs);
      var x, rest := xs[0], xs[1..];
      assert Faithful(x, t);
      RoundTrip(x, t);
      assert vs[1..] == EncodeAll(rest);
      forall i | 0 <= i < |rest| ensures Faithful(rest[i], t) { assert rest[i] == xs[i + 1]; }
      DecodeAppendEncoded(t, acc + [x], rest);
      assert Decode(t, vs[0]) == Ok(x);
      assert DecodeAppend(t, acc, vs) == DecodeAppend(t, acc + [x], vs[1..]);
      assert DecodeAppend(t, acc + [x], vs[1..]) == Ok(acc + [x] + rest);
      AppendFirst(acc, xs);
    } else {
      assert acc + xs == acc;
    }
  }

  lemma AppendFirst<T>(acc: seq<T>, xs: seq<T>)
    requires xs != []
    ensures acc + [xs[0]] + xs[1..] == acc + xs
  {
    assert [xs[0]] + xs[1..] == xs;
  }

  /**
   * One step of an array push: the scalar is pushed and stored at the next
   * index of the array on top (`duk_put_prop_index(-2, i)`), which then
   * holds the first i + 1 encodings.
   */
  method PushAndPut(d: Duk, id: nat, i: nat, ghost h0: map<nat, Object>, ghost vs: seq<Value>, x: Scalar)
    requires d.Valid() && HasType(x, TypeOfScalar(x)) && i < |vs| && vs[i] == Encode(x)
    requires |d.stack| >= 1 && d.At(-1) == Ref(id) && id in h0 && d.heap == h0[id := ArrayOf(vs[..i])]
    modifies d
    ensures d.Valid() && d.stack == old(d.stack) && d.nextId == old(d.nextId)
    ensures d.heap == h0[id := ArrayOf(vs[..i + 1])]
  {
    PushScalar(d, x);
    assert d.At(-2) == Ref(id);
    d.PutProp(-2, Indexed(i));
    ArrayOfSnoc(vs[..i], Encode(x));
    TakeSnoc(vs, i);
  }

  /** Type<std::vector<T>>::push: one new array holding element i at index i. */
  method PushVector(d: Duk, t: ScalarType, xs: seq<Scalar>)
    requires d.Valid() && forall i :: 0 <= i < |xs| ==> HasType(xs[i], t)
    modifies d
    ensures d.Valid() && d.nextId == old(d.nextId) + 1
    ensures d.stack == old(d.stack) + [Ref(old(d.nextId))]
    ensures d.heap == old(d.heap)[old(d.nextId) := ArrayOf(EncodeAll(xs))]
  {
    var id := d.nextId;
    var _ := d.PushNew(ArrayObject);
    assert ArrayOf([]).props == map[];
    ghost var h1 := d.heap;
    FillArray(d, id, t, xs);
    UpdateTwice(old(d.heap), id, h1[id], ArrayOf(EncodeAll(xs)));
  }

  /** The loop of that push: element i is pushed and put at index i of the empty array on top. */
  method FillArray(d: Duk, id: nat, t: ScalarType, xs: seq<Scalar>)
    requires d.Valid() && forall i :: 0 <= i < |xs| ==> HasType(xs[i], t)
    requires |d.stack| >= 1 && d.At(-1) == Ref(id) && id in d.heap && d.heap[id] == ArrayOf([])
    modifies d
    ensures d.Valid() && d.stack == old(d.stack) && d.nextId == old(d.nextId)
    ensures d.heap == old(d.heap)[id := ArrayOf(EncodeAll(xs))]
  {
    ghost var h0 := d.heap;
    ghost var vs := EncodeAll(xs);
    assert h0 == h0[id := ArrayOf(vs[..0])];
    var i := 0;
    while i < |xs|
      invariant 0 <= i <= |xs| && d.Valid() && d.nextId == old(d.nextId)
      invariant d.stack == old(d.stack)
      invariant d.heap == h0[id := ArrayOf(vs[..i])]
    {
      assert TypeOfScalar(xs[i]) == t by { assert HasType(xs[i], t); }
      PushAndPut(d, id, i, h0, vs, xs[i]);
      i := i + 1;
    }
    TakeAll(vs);
  }

  /**
   * Type<std::vector<T>>::get: enumerates the array indices of the value at
   * `index` and appends each decoded element to the caller's vector `value`;
   * every key/value pair and the enumerator are popped, so on success the
   * stack is as before. `filled` is the caller's vector afterwards, also
   * when an element fails. A value that is not an object cannot be
   * enumerated: a TypeError, with the vector untouched.
   */
  method GetVector(d: Duk, t: ScalarType, value: seq<Scalar>, index: int) returns (r: Result<seq<Scalar>>, filled: seq<Scalar>)
    requires d.Valid() && d.ValidIndex(index)
    modifies d
    ensures d.Valid() && d.heap == old(d.heap) && d.nextId == old(d.nextId)
    ensures var v := old(d.At(index));
      var o := old(d.Deref(v));
      var vs := Elements(o, IndexKeys(o, 0));
      if v.Ref? then r == DecodeAppend(t, value, vs) && filled == Filled(t, value, vs)
      else r == Err(TypeError(ObjectRequired)) && filled == value && d.stack == old(d.stack)
    ensures r.Ok? ==> d.stack == old(d.stack) && r.value == filled
  {
    var v := d.At(index);
    if !v.Ref? {
      return Err(TypeError(ObjectRequired)), value;
    }
    ghost var o := d.Deref(v);
    ghost var ks := IndexKeys(o, 0);
    d.EnumIndices(index);
    r, filled := DecodeEnumerated(d, t, value, o, v.id, ks, old(d.stack));
    if r.Ok? {
      d.PopN(1);
    }
  }

  /** The `while (duk_next)` loop of the vector get, over the enumerator on top of `below`. */
  method DecodeEnumerated(d: Duk, t: ScalarType, value: seq<Scalar>, ghost o: Object, ghost target: nat,
                          ghost ks: seq<nat>, ghost below: seq<Value>)
    returns (r: Result<seq<Scalar>>, filled: seq<Scalar>)
    requires d.Valid() && d.stack == below + [Enumerator(target, ks)]
    requires ks != [] ==> d.Deref(Ref(target)) == o
    modifies d
    ensures d.Valid() && d.heap == old(d.heap) && d.nextId == old(d.nextId)
    ensures r == DecodeAppend(t, value, Elements(o, ks)) && filled == Filled(t, value, Elements(o, ks))
    ensures r.Ok? ==> r.value == filled && d.stack == below + [Enumerator(target, [])]
  {
    var acc := value;
    ghost var j := 0;
    assert ks[0..] == ks;
    var more := NextElement(d, o, target, ks, 0, below);
    while more
      invariant d.Valid() && d.heap == old(d.heap) && d.nextId == old(d.nextId)
      invariant 0 <= j <= |ks| && more == (j < |ks|)
      invariant Resumes(t, value, acc, o, ks, j)
      invariant d.stack == Enumerating(below, o, target, ks, j, more)
      decreases |ks| - j
    {
      var x;
      x, more := DecodeElement(d, t, o, target, ks, j, below);
      ResumesStep(t, value, acc, o, ks, j);
      if x.Err? {
        return Err(x.error), acc;
      }
      acc := acc + [x.value];
      j := j + 1;
    }
    ResumesDone(t, value, acc, o, ks);
    r, filled := Ok(acc), acc;
  }

  /**
   * The stack during that loop: while `more`, key j and its value sit above
   * the enumerator of the keys after j; at the end, the spent enumerator.
   */
  function Enumerating(below: seq<Value>, o: Object, target: nat, ks: seq<nat>, j: nat, more: bool): seq<Value>
    requires j <= |ks| && (more ==> j < |ks|)
  {
    if more then below + [Enumerator(target, ks[j + 1..]), Number(ks[j]), Get(o, Indexed(ks[j]))]
    else below + [Enumerator(target, ks[j..])]
  }

  /** The body of that loop: decode the value on top, pop key and value, and step the enumerator. */
  method DecodeElement(d: Duk, t: ScalarType, ghost o: Object, ghost target: nat, ghost ks: seq<nat>,
                       ghost j: nat, ghost below: seq<Value>)
    returns (x: Result<Scalar>, more: bool)
    requires d.Valid() && j < |ks| && (ks != [] ==> d.Deref(Ref(target)) == o)
    requires d.stack == Enumerating(below, o, target, ks, j, true)
    modifies d
    ensures d.Valid() && d.heap == old(d.heap) && d.nextId == old(d.nextId)
    ensures x == Decode(t, Get(o, Indexed(ks[j])))
    ensures x.Ok? ==> more == (j + 1 < |ks|) && d.stack == Enumerating(below, o, target, ks, j + 1, more)
  {
    x := GetScalar(d, t, -1);
    if x.Err? {
      return x, false;
    }
    d.PopN(2);
    assert d.stack == below + [Enumerator(target, ks[j + 1..])];
    more := NextElement(d, o, target, ks, j + 1, below);
  }

  /** One duk_next over the remaining keys ks[j..] of object o (the enumerator is on top of `below`). */
  method NextElement(d: Duk, ghost o: Object, ghost target: nat, ghost ks: seq<nat>, ghost j: nat, ghost below: seq<Value>)
    returns (more: bool)
    requires d.Valid() && 0 <= j <= |ks| && d.stack == below + [Enumerator(target, ks[j..])]
    requires ks != [] ==> d.Deref(Ref(target)) == o
    modifies d
    ensures d.Valid() && d.heap == old(d.heap) && d.nextId == old(d.nextId)
    ensures more == (j < |ks|) && d.stack == Enumerating(below, o, target, ks, j, more)
  {
    more := d.Next(-1);
    if more {
      assert ks[j..][0] == ks[j] && ks[j..][1..] == ks[j + 1..];
      assert (below + [Enumerator(target, ks[j..])])[|below| := Enumerator(target, ks[j + 1..])] == below + [Enumerator(target, ks[j + 1..])];
    }
  }

  lemma ElementsStep(o: Object, ks: seq<nat>, j: nat)
    requires j < |ks|
    ensures Elements(o, ks[j..]) == [Get(o, Indexed(ks[j]))] + Elements(o, ks[j + 1..])
  {
    assert ks[j..][1..] == ks[j + 1..];
  }

  /** After the keys before j have decoded into `acc`, the rest of the get is the decoding of the keys from j on. */
  predicate Resumes(t: ScalarType, value: seq<Scalar>, acc: seq<Scalar>, o: Object, ks: seq<nat>, j: nat)
    requires j <= |ks|
  {
    DecodeAppend(t, value, Elements(o, ks)) == DecodeAppend(t, acc, Elements(o, ks[j..])) &&
    Filled(t, value, Elements(o, ks)) == Filled(t, acc, Elements(o, ks[j..]))
  }

  /** Decoding key j either fails the whole get, leaving `acc`, or extends `acc` and resumes at j + 1. */
  lemma ResumesStep(t: ScalarType, value: seq<Scalar>, acc: seq<Scalar>, o: Object, ks: seq<nat>, j: nat)
    requires j < |ks| && Resumes(t, value, acc, o, ks, j)
    ensures var x := Decode(t, Get(o, Indexed(ks[j])));
      if x.Err? then DecodeAppend(t, value, Elements(o, ks)) == Err(x.error) && Filled(t, value, Elements(o, ks)) == acc
      else Resumes(t, value, acc + [x.value], o, ks, j + 1)
  {
    EnumeratedStep(t, acc, o, ks, j);
  }

  /** Once every key is decoded, the get succeeds with `acc`, which is also what the vector holds. */
  lemma ResumesDone(t: ScalarType, value: seq<Scalar>, acc: seq<Scalar>, o: Object, ks: seq<nat>)
    requires Resumes(t, value, acc, o, ks, |ks|)
    ensures DecodeAppend(t, value, Elements(o, ks)) == Ok(acc) && Filled(t, value, Elements(o, ks)) == acc
  {
    assert ks[|ks|..] == [] && Elements(o, []) == [];
  }

  /** Decoding from key j on is decoding key j, then the keys after it. */
  lemma EnumeratedStep(t: ScalarType, acc: seq<Scalar>, o: Object, ks: seq<nat>, j: nat)
    requires j < |ks|
    ensures var x := Decode(t, Get(o, Indexed(ks[j])));
      DecodeAppend(t, acc, Elements(o, ks[j..])) ==
        (if x.Err? then Err(x.error) else DecodeAppend(t, acc + [x.value], Elements(o, ks[j + 1..]))) &&
      Filled(t, acc, Elements(o, ks[j..])) ==
        (if x.Err? then acc else Filled(t, acc + [x.value], Elements(o, ks[j + 1..])))
  {
    ElementsStep(o, ks, j);
    DecodeStep(t, acc, Get(o, Indexed(ks[j])), Elements(o, ks[j + 1..]));
  }

  lemma DecodeStep(t: ScalarType, acc: seq<Scalar>, x: Value, rest: seq<Value>)
    ensures DecodeAppend(t, acc, [x] + rest) ==
      if Decode(t, x).Err? then Err(Decode(t, x).error) else DecodeAppend(t, acc + [Decode(t, x).value], rest)
    ensures Filled(t, acc, [x] + rest) ==
      if Decode(t, x).Err? then acc else Filled(t, acc + [Decode(t, x).value], rest)
  {
    assert ([x] + rest)[0] == x && ([x] + rest)[1..] == rest;
  }

  /** The array a vector push builds decodes, by enumeration into an empty vector, to the vector. */
  lemma PushedVectorDecodes(t: ScalarType, xs: seq<Scalar>)
    requires forall i :: 0 <= i < |xs| ==> Faithful(xs[i], t)
    ensures var o := ArrayOf(EncodeAll(xs));
      DecodeAppend(t, [], Elements(o, IndexKeys(o, 0))) == Ok(xs)
  {
    ElementsOfArray(EncodeAll(xs));
    DecodeAppendEncoded(t, [], xs);
    assert [] + xs == xs;
  }

  /**
   * A vector pushed, read back into an empty vector and popped: the result
   * is the original and the stack is as before.
   */
  method VectorRoundTrip(d: Duk, t: ScalarType, xs: seq<Scalar>) returns (r: Result<seq<Scalar>>)
    requires d.Valid() && forall i :: 0 <= i < |xs| ==> Faithful(xs[i], t)
    modifies d
    ensures d.Valid() && r == Ok(xs) && d.stack == old(d.stack)
  {
    PushVector(d, t, xs);
    ghost var top := d.At(-1);
    assert top.Ref? && d.Deref(top) == ArrayOf(EncodeAll(xs));
    PushedVectorDecodes(t, xs);
    var filled;
    r, filled := GetVector(d, t, [], -1);
    d.PopN(1);
  }

  // ----- std::tuple<A...> -----

  /**
   * pushElement<idx, ...>: element idx is pushed and stored at array index
   * idx of the array on top, then the elements after it, in order.
   */
  method PushElements(d: Duk, id: nat, ts: seq<ScalarType>, xs: seq<Scalar>, idx: nat)
    requires d.Valid() && |xs| == |ts| && idx < |xs| && forall i :: 0 <= i < |xs| ==> HasType(xs[i], ts[i])
    requires |d.stack| >= 1 && d.At(-1) == Ref(id) && id in d.heap && d.heap[id] == ArrayOf(EncodeAll(xs)[..idx])
    modifies d
    ensures d.Valid() && d.stack == old(d.stack) && d.nextId == old(d.nextId)
    ensures d.heap == old(d.heap)[id := ArrayOf(EncodeAll(xs))]
    decreases |xs| - idx
  {
    PushElement(d, id, ts, xs, idx);
    if idx + 1 < |xs| {
      ghost var prefix := ArrayOf(EncodeAll(xs)[..idx + 1]);
      PushElements(d, id, ts, xs, idx + 1);
      UpdateTwice(old(d.heap), id, prefix, ArrayOf(EncodeAll(xs)));
    } else {
      TakeAll(EncodeAll(xs));
    }
  }

  lemma UpdateTwice<K, V>(m: map<K, V>, k: K, a: V, b: V)
    ensures m[k := a][k := b] == m[k := b]
  {
  }

  /** The body of pushElement<idx, ...> for element idx alone. */
  method PushElement(d: Duk, id: nat, ts: seq<ScalarType>, xs: seq<Scalar>, idx: nat)
    requires d.Valid() && |xs| == |ts| && idx < |xs| && HasType(xs[idx], ts[idx])
    requires |d.stack| >= 1 && d.At(-1) == Ref(id) && id in d.heap && d.heap[id] == ArrayOf(EncodeAll(xs)[..idx])
    modifies d
    ensures d.Valid() && d.stack == old(d.stack) && d.nextId == old(d.nextId)
    ensures d.heap == old(d.heap)[id := ArrayOf(EncodeAll(xs)[..idx + 1])]
  {
    ghost var vs := EncodeAll(xs);
    assert d.heap == d.heap[id := ArrayOf(vs[..idx])];
    PushAndPut(d, id, idx, d.heap, vs, xs[idx]);
  }

  /** Type<std::tuple<A...>>::push: one new array holding tuple element idx at index idx. */
  method PushTuple(d: Duk, ts: seq<ScalarType>, xs: seq<Scalar>)
    requires d.Valid() && |ts| >= 1 && |xs| == |ts| && forall i :: 0 <= i < |xs| ==> HasType(xs[i], ts[i])
    modifies d
    ensures d.Valid() && d.nextId == old(d.nextId) + 1
    ensures d.stack == old(d.stack) + [Ref(old(d.nextId))]
    ensures d.heap == old(d.heap)[old(d.nextId) := ArrayOf(EncodeAll(xs))]
  {
    var id := d.nextId;
    var _ := d.PushNew(ArrayObject);
    assert ArrayOf([]).props == map[];
    assert EncodeAll(xs)[..0] == [];
    PushElements(d, id, ts, xs, 0);
  }

  /**
   * The decoding getElement performs: the k-th enumerated value becomes
   * tuple element k. duk_next's result is not checked, so once the array is
   * exhausted the enumerator `e` itself, left on top, is what gets decoded;
   * values beyond the tuple's arity are never read.
   */
  function DecodeTuple(ts: seq<ScalarType>, vs: seq<Value>, e: Value): (r: Result<seq<Scalar>>)
    ensures r.Ok? ==> |r.value| == |ts|
  {
    if ts == [] then Ok([])
    else
      var x := Decode(ts[0], if vs == [] then e else vs[0]);
      if x.Err? then Err(x.error)
      else
        var rest := DecodeTuple(ts[1..], if vs == [] then [] else vs[1..], e);
        if rest.Err? then rest else Ok([x.value] + rest.value)
  }

  /** Reading back the encoding of a well-typed tuple gives the tuple. */
  lemma {:induction false} TupleRoundTrip(ts: seq<ScalarType>, xs: seq<Scalar>, e: Value)
    requires |xs| == |ts| && forall i :: 0 <= i < |xs| ==> Faithful(xs[i], ts[i])
    ensures DecodeTuple(ts, EncodeAll(xs), e) == Ok(xs)
    decreases |ts|
  {
    if ts != [] {
      assert Faithful(xs[0], ts[0]);
      RoundTrip(xs[0], ts[0]);
      assert EncodeAll(xs)[1..] == EncodeAll(xs[1..]);
      forall i | 0 <= i < |xs[1..]| ensures Faithful(xs[1..][i], ts[1..][i]) {
        assert xs[1..][i] == xs[i + 1] && ts[1..][i] == ts[i + 1];
      }
      TupleRoundTrip(ts[1..], xs[1..], e);
      assert [xs[0]] + xs[1..] == xs;
    }
  }

  /** The entry the k-th tuple element is read from: past the array, the enumerator itself. */
  function EntryAt(vs: seq<Value>, k: nat, e: Value): Value
  {
    if k < |vs| then vs[k] else e
  }

  /**
   * The caller's tuple `val` after the element gets: each element is
   * written in place as it decodes, and the first failure leaves it and
   * every later element as they were.
   */
  function Written(ts: seq<ScalarType>, val: seq<Scalar>, vs: seq<Value>, e: Value): (w: seq<Scalar>)
    requires |val| == |ts|
    ensures |w| == |ts|
  {
    if ts == [] then []
    else
      var x := Decode(ts[0], if vs == [] then e else vs[0]);
      if x.Err? then val
      else [x.value] + Written(ts[1..], val[1..], if vs == [] then [] else vs[1..], e)
  }

  /** Elements before k were written with their decodings, element k fails with `err`, and the rest are untouched. */
  predicate StoppedAt(ts: seq<ScalarType>, val: seq<Scalar>, vs: seq<Value>, e: Value, w: seq<Scalar>, k: nat, err: Error)
    requires |w| == |val| == |ts| && k < |ts|
  {
    w[k..] == val[k..] && Decode(ts[k], EntryAt(vs, k, e)) == Err(err) &&
    forall i :: 0 <= i < k ==> Decode(ts[i], EntryAt(vs, i, e)) == Ok(w[i])
  }

  /**
   * What the caller's tuple holds after the get: on success exactly the
   * result; on failure the decodings of the elements before the first that
   * fails, whose error is the one reported, and its old values from there on.
   */
  lemma {:induction false} WrittenMeaning(ts: seq<ScalarType>, val: seq<Scalar>, vs: seq<Value>, e: Value)
    requires |val| == |ts|
    ensures DecodeTuple(ts, vs, e).Ok? ==> Written(ts, val, vs, e) == DecodeTuple(ts, vs, e).value
    ensures DecodeTuple(ts, vs, e).Err? ==>
      exists k :: 0 <= k < |ts| && StoppedAt(ts, val, vs, e, Written(ts, val, vs, e), k, DecodeTuple(ts, vs, e).error)
    decreases |ts|
  {
    if ts != [] {
      var w := Written(ts, val, vs, e);
      var x := Decode(ts[0], if vs == [] then e else vs[0]);
      assert EntryAt(vs, 0, e) == if vs == [] then e else vs[0];
      if x.Err? {
        assert w == val && StoppedAt(ts, val, vs, e, w, 0, x.error);
      } else {
        var tl := if vs == [] then [] else vs[1..];
        WrittenMeaning(ts[1..], val[1..], tl, e);
        var r' := DecodeTuple(ts[1..], tl, e);
        if r'.Err? {
          var w' := Written(ts[1..], val[1..], tl, e);
          var k' :| 0 <= k' < |ts| - 1 && StoppedAt(ts[1..], val[1..], tl, e, w', k', r'.error);
          StoppedAtShift(ts, val, vs, tl, e, w', k', r'.error, x.value);
          assert w == [x.value] + w' && DecodeTuple(ts, vs, e) == r';
        }
      }
    }
  }

  /** A failure at k in the rest of the tuple, after a first element that decoded, is a failure at k + 1. */
  lemma StoppedAtShift(ts: seq<ScalarType>, val: seq<Scalar>, vs: seq<Value>, tl: seq<Value>, e: Value,
                       w': seq<Scalar>, k': nat, err: Error, x: Scalar)
    requires |val| == |ts| >= 1 && |w'| == |ts| - 1 && k' < |ts| - 1
    requires tl == (if vs == [] then [] else vs[1..]) && Decode(ts[0], EntryAt(vs, 0, e)) == Ok(x)
    requires StoppedAt(ts[1..], val[1..], tl, e, w', k', err)
    ensures StoppedAt(ts, val, vs, e, [x] + w', k' + 1, err)
  {
    var w := [x] + w';
    EntryShift(vs, tl, k', e);
    assert w[k' + 1..] == w'[k'..] && val[k' + 1..] == val[1..][k'..];
    assert ts[k' + 1] == ts[1..][k'];
    forall i | 0 <= i < k' + 1 ensures Decode(ts[i], EntryAt(vs, i, e)) == Ok(w[i]) {
      if i > 0 {
        EntryShift(vs, tl, i - 1, e);
        assert ts[i] == ts[1..][i - 1] && w[i] == w'[i - 1];
      }
    }
  }

  lemma EntryShift(vs: seq<Value>, tl: seq<Value>, i: nat, e: Value)
    requires tl == if vs == [] then [] else vs[1..]
    ensures EntryAt(vs, i + 1, e) == EntryAt(tl, i, e)
  {
  }

  /** An array shorter than the tuple fails: the enumerator is not a value of any element type. */
  lemma {:induction false} TupleShortArrayFails(ts: seq<ScalarType>, vs: seq<Value>, e: Value)
    requires e.Enumerator? && |vs| < |ts|
    ensures DecodeTuple(ts, vs, e).Err?
    decreases |ts|
  {
    var x := Decode(ts[0], if vs == [] then e else vs[0]);
    if x.Ok? && vs != [] {
      TupleShortArrayFails(ts[1..], vs[1..], e);
    }
  }

  /** Entries beyond the tuple's arity are ignored: the array length is not checked. */
  lemma {:induction false} TupleExtraIgnored(ts: seq<ScalarType>, vs: seq<Value>, extra: seq<Value>, e: Value)
    requires |vs| >= |ts|
    ensures DecodeTuple(ts, vs + extra, e) == DecodeTuple(ts, vs, e)
    decreases |ts|
  {
    if ts != [] {
      assert (vs + extra)[0] == vs[0] && (vs + extra)[1..] == vs[1..] + extra;
      TupleExtraIgnored(ts[1..], vs[1..], extra, e);
    }
  }

  /**
   * The body of getElement<idx, AA>: one duk_next with its result ignored,
   * Type<AA>::get of the value on top, then duk_pop_2. On success the
   * enumerator, advanced by one key, is back on top.
   */
  method ReadElement(d: Duk, t: ScalarType, ghost o: Object, ghost target: nat, ghost ks: seq<nat>, ghost j: nat)
    returns (x: Result<Scalar>)
    requires d.Valid() && j <= |ks| && |d.stack| >= 1 && d.At(-1) == Enumerator(target, ks[j..])
    requires ks != [] ==> d.Deref(Ref(target)) == o
    modifies d
    ensures d.Valid() && d.heap == old(d.heap) && d.nextId == old(d.nextId)
    ensures x == Decode(t, if j < |ks| then Get(o, Indexed(ks[j])) else Enumerator(target, []))
    ensures x.Ok? ==> j < |ks| && d.stack == old(d.stack)[|old(d.stack)| - 1 := Enumerator(target, ks[j + 1..])]
  {
    ghost var below := d.stack[..|d.stack| - 1];
    assert d.stack == below + [d.At(-1)];
    var more := NextElement(d, o, target, ks, j, below);
    x := GetScalar(d, t, -1);
    if !more {
      assert ks[j..] == [];
      return;
    }
    if x.Ok? {
      d.PopN(2);
    }
  }

  /**
   * getElement<idx, ...>: element idx is read and written into `val` in
   * place, then the elements after it.
   */
  method GetElements(d: Duk, ts: seq<ScalarType>, val: seq<Scalar>, idx: nat,
                     ghost o: Object, ghost target: nat, ghost ks: seq<nat>, ghost j: nat)
    returns (r: Result<seq<Scalar>>, written: seq<Scalar>)
    requires d.Valid() && |val| == |ts| && idx < |ts| && j <= |ks|
    requires |d.stack| >= 1 && d.At(-1) == Enumerator(target, ks[j..])
    requires ks != [] ==> d.Deref(Ref(target)) == o
    modifies d
    ensures d.Valid() && d.heap == old(d.heap) && d.nextId == old(d.nextId)
    ensures r == Placed(val, idx, DecodeTuple(ts[idx..], Elements(o, ks[j..]), Enumerator(target, [])))
    ensures written == val[..idx] + Written(ts[idx..], val[idx..], Elements(o, ks[j..]), Enumerator(target, []))
    ensures r.Ok? ==> |d.stack| == |old(d.stack)| && d.stack[..|d.stack| - 1] == old(d.stack)[..|d.stack| - 1]
    decreases |ts| - idx
  {
    ghost var e := Enumerator(target, []);
    var x := ReadElement(d, ts[idx], o, target, ks, j);
    if x.Err? {
      TupleStepErr(ts[idx..], Elements(o, ks[j..]), e, if j < |ks| then Get(o, Indexed(ks[j])) else e);
      WrittenStepErr(ts, val, idx, Elements(o, ks[j..]), e, if j < |ks| then Get(o, Indexed(ks[j])) else e);
      return Err(x.error), val;
    }
    ElementsStep(o, ks, j);
    var val' := val[idx := x.value];
    if idx + 1 < |ts| {
      r, written := GetElements(d, ts, val', idx + 1, o, target, ks, j + 1);
    } else {
      r, written := Ok(val'), val';
    }
    TupleStepOk(ts, idx, val, Elements(o, ks[j + 1..]), Get(o, Indexed(ks[j])), e, x.value);
    WrittenStepOk(ts, idx, val, Elements(o, ks[j + 1..]), Get(o, Indexed(ks[j])), e, x.value);
  }

  lemma WrittenStepErr(ts: seq<ScalarType>, val: seq<Scalar>, idx: nat, vs: seq<Value>, e: Value, head: Value)
    requires idx < |ts| == |val| && head == (if vs == [] then e else vs[0]) && Decode(ts[idx], head).Err?
    ensures val == val[..idx] + Written(ts[idx..], val[idx..], vs, e)
  {
    assert ts[idx..][0] == ts[idx];
    assert val == val[..idx] + val[idx..];
  }

  lemma WrittenStepOk(ts: seq<ScalarType>, idx: nat, val: seq<Scalar>, rest: seq<Value>, head: Value, e: Value, x: Scalar)
    requires idx < |ts| == |val| && Decode(ts[idx], head) == Ok(x)
    ensures val[..idx] + Written(ts[idx..], val[idx..], [head] + rest, e) ==
      if idx + 1 < |ts| then val[idx := x][..idx + 1] + Written(ts[idx + 1..], val[idx := x][idx + 1..], rest, e)
      else val[idx := x]
  {
    var tl := ts[idx..];
    assert tl[0] == ts[idx] && tl[1..] == ts[idx + 1..];
    assert ([head] + rest)[0] == head && ([head] + rest)[1..] == rest;
    assert val[idx..][1..] == val[idx := x][idx + 1..];
    assert val[idx := x][..idx + 1] == val[..idx] + [x];
    if idx + 1 == |ts| {
      assert val[idx := x] == val[..idx] + [x] + [];
    }
  }

  /** The tuple `val` with the decoded elements written from position idx on. */
  function Placed(val: seq<Scalar>, idx: nat, dt: Result<seq<Scalar>>): Result<seq<Scalar>>
    requires idx <= |val|
  {
    if dt.Ok? then Ok(val[..idx] + dt.value) else Err(dt.error)
  }

  lemma TupleStepErr(ts: seq<ScalarType>, vs: seq<Value>, e: Value, head: Value)
    requires ts != [] && head == (if vs == [] then e else vs[0]) && Decode(ts[0], head).Err?
    ensures DecodeTuple(ts, vs, e) == Err(Decode(ts[0], head).error)
  {
  }

  lemma TupleStepOk(ts: seq<ScalarType>, idx: nat, val: seq<Scalar>, rest: seq<Value>, head: Value, e: Value, x: Scalar)
    requires idx < |ts| == |val| && Decode(ts[idx], head) == Ok(x)
    ensures Placed(val, idx, DecodeTuple(ts[idx..], [head] + rest, e)) ==
      if idx + 1 < |ts| then Placed(val[idx := x], idx + 1, DecodeTuple(ts[idx + 1..], rest, e)) else Ok(val[idx := x])
  {
    var tl := ts[idx..];
    assert tl[0] == ts[idx] && tl[1..] == ts[idx + 1..];
    assert ([head] + rest)[0] == head && ([head] + rest)[1..] == rest;
    assert val[idx := x][..idx + 1] == val[..idx] + [x];
    var rd := DecodeTuple(tl[1..], rest, e);
    assert DecodeTuple(tl, [head] + rest, e) == if rd.Err? then rd else Ok([x] + rd.value);
    if rd.Ok? {
      assert val[..idx] + ([x] + rd.value) == val[..idx] + [x] + rd.value;
    }
    if idx + 1 == |ts| {
      assert tl[1..] == [] && rd == Ok([]);
      assert val[idx := x] == val[..idx] + [x] + [];
    }
  }

  /**
   * Type<std::tuple<A...>>::get: enumerates the array indices of the value
   * at `index`, reads one entry per tuple element, and pops the enumerator.
   * A value that is not an object cannot be enumerated: a TypeError. The
   * elements are written into the caller's tuple one by one, so after a
   * failure it holds those read before it (`written`).
   */
  method GetTuple(d: Duk, ts: seq<ScalarType>, val: seq<Scalar>, index: int) returns (r: Result<seq<Scalar>>, written: seq<Scalar>)
    requires d.Valid() && d.ValidIndex(index) && |ts| >= 1 && |val| == |ts|
    modifies d
    ensures d.Valid() && d.heap == old(d.heap) && d.nextId == old(d.nextId)
    ensures var v := old(d.At(index));
      var o := old(d.Deref(v));
      r == if v.Ref? then DecodeTuple(ts, Elements(o, IndexKeys(o, 0)), Enumerator(v.id, []))
           else Err(TypeError(ObjectRequired))
    ensures var v := old(d.At(index));
      var o := old(d.Deref(v));
      written == if v.Ref? then Written(ts, val, Elements(o, IndexKeys(o, 0)), Enumerator(v.id, [])) else val
    ensures r.Ok? || !old(d.At(index)).Ref? ==> d.stack == old(d.stack)
  {
    var v := d.At(index);
    if !v.Ref? {
      return Err(TypeError(ObjectRequired)), val;
    }
    ghost var o := d.Deref(v);
    ghost var ks := IndexKeys(o, 0);
    ghost var target := v.id;
    d.EnumIndices(index);
    assert ks[0..] == ks && ts[0..] == ts;
    r, written := GetElements(d, ts, val, 0, o, target, ks, 0);
    assert val[..0] + Written(ts, val[0..], Elements(o, ks), Enumerator(target, [])) == Written(ts, val, Elements(o, ks), Enumerator(target, []));
    ghost var dt := DecodeTuple(ts, Elements(o, ks), Enumerator(target, []));
    assert dt.Ok? ==> val[..0] + dt.value == dt.value;
    if r.Ok? {
      d.PopN(1);
    }
  }

  /** The array a tuple push builds decodes, by enumeration, to the tuple. */
  lemma PushedTupleDecodes(ts: seq<ScalarType>, xs: seq<Scalar>, id: nat)
    requires |xs| == |ts| && forall i :: 0 <= i < |xs| ==> Faithful(xs[i], ts[i])
    ensures var o := ArrayOf(EncodeAll(xs));
      DecodeTuple(ts, Elements(o, IndexKeys(o, 0)), Enumerator(id, [])) == Ok(xs)
  {
    ElementsOfArray(EncodeAll(xs));
    TupleRoundTrip(ts, xs, Enumerator(id, []));
  }

  /** A tuple pushed, read back and popped: the result is the original and the stack is as before. */
  method TupleRoundTripOnStack(d: Duk, ts: seq<ScalarType>, xs: seq<Scalar>, val: seq<Scalar>) returns (r: Result<seq<Scalar>>)
    requires d.Valid() && |ts| >= 1 && |xs| == |ts| == |val| && forall i :: 0 <= i < |xs| ==> Faithful(xs[i], ts[i])
    modifies d
    ensures d.Valid() && r == Ok(xs) && d.stack == old(d.stack)
  {
    ghost var id := d.nextId;
    PushTuple(d, ts, xs);
    PushedTupleDecodes(ts, xs, id);
    var written;
    r, written := GetTuple(d, ts, val, -1);
    d.PopN(1);
  }

  // ----- the default object codec -----

  /**
   * Type<T>::get for a class without a codec of its own: reads the hidden
   * `obj_ptr` of the value at objIdx, pops it, and fails the assertion when
   * it is NULL; otherwise the object at that address is copied out. The
   * read itself is a TypeError when the value is undefined or null.
   */
  method GetObject(d: Duk, objIdx: int) returns (r: Result<nat>)
    requires d.Valid() && d.ValidIndex(objIdx)
    modifies d
    ensures d.Valid() && d.stack == old(d.stack) && d.heap == old(d.heap) && d.nextId == old(d.nextId)
    ensures var v := old(d.At(objIdx));
      var p := PointerOf(old(d.PropOf(v, ObjPtr)));
      r == if !Coercible(v) then Err(TypeError(InvalidBase)) else if p == 0 then Err(Abort("obj")) else Ok(p)
  {
    if !Coercible(d.At(objIdx)) {
      return Err(TypeError(InvalidBase));
    }
    d.GetProp(objIdx, ObjPtr);
    var p := PointerOf(d.At(-1));
    d.PopN(1);
    if p == 0 {
      return Err(Abort("obj"));
    }
    r := Ok(p);
  }
}
