/**
 * The value side of the primitive codecs `Type<int>`, `Type<unsigned int>`,
 * `Type<bool>` and `Type<std::string>`: which engine value a C++ value is
 * pushed as, and what reading a stack value back yields. The stack
 * operations themselves are in module Codecs.
 */
module Scalars {
  import opened Errors
  import opened Engine

  datatype ScalarType = IntType | UIntType | BoolType | StringType

  datatype Scalar = IntVal(i: int) | UIntVal(u: int) | BoolVal(b: bool) | StringVal(s: string)

  /** A C++ value of the given type: 32-bit int, 32-bit unsigned, bool or std::string. */
  predicate HasType(x: Scalar, t: ScalarType) {
    match x
    case IntVal(i) => t == IntType && IsInt32(i)
    case UIntVal(u) => t == UIntType && IsUInt32(u)
    case BoolVal(_) => t == BoolType
    case StringVal(_) => t == StringType
  }

  /** The C string view of a std::string: everything before the first NUL. */
  function CString(s: string): (c: string)
    ensures |c| <= |s| && c == s[..|c|] && '\0' !in c
    ensures '\0' !in s ==> c == s
  {
    if s == [] then []
    else if s[0] == '\0' then []
    else [s[0]] + CString(s[1..])
  }

  /** Type<T>::push: duk_push_int, duk_push_uint, duk_push_boolean, duk_push_string(c_str()). */
  function Encode(x: Scalar): Value {
    match x
    case IntVal(i) => Number(i)
    case UIntVal(u) => Number(u)
    case BoolVal(b) => Boolean(b)
    case StringVal(s) => Text(CString(s))
  }

  /**
   * Type<T>::get: duk_require_int and duk_require_uint clamp a number to the
   * C++ range and throw a TypeError for anything else; duk_require_boolean
   * throws for a non-boolean; duk_get_string gives NULL for a non-string,
   * from which no std::string can be built.
   */
  function Decode(t: ScalarType, v: Value): (r: Result<Scalar>)
    ensures r.Ok? ==> HasType(r.value, t)
    ensures r.Err? <==> match t
                        case IntType => !v.Number?
                        case UIntType => !v.Number?
                        case BoolType => !v.Boolean?
                        case StringType => !v.Text?
  {
    match t
    case IntType => if v.Number? then Ok(IntVal(ClampInt(v.n))) else Err(TypeError("number required"))
    case UIntType => if v.Number? then Ok(UIntVal(ClampUInt(v.n))) else Err(TypeError("number required"))
    case BoolType => if v.Boolean? then Ok(BoolVal(v.b)) else Err(TypeError("boolean required"))
    case StringType => if v.Text? then Ok(StringVal(CString(v.s))) else Err(NullString)
  }

  /** Pushing a value and reading it back as the same type gives the value (a string must hold no NUL). */
  lemma RoundTrip(x: Scalar, t: ScalarType)
    requires HasType(x, t) && (x.StringVal? ==> '\0' !in x.s)
    ensures Decode(t, Encode(x)) == Ok(x)
  {
  }

  /** A string with an embedded NUL comes back cut at the NUL. */
  lemma {:induction false} StringTruncatedAtNul(s: string, k: nat)
    requires k < |s| && s[k] == '\0' && '\0' !in s[..k]
    ensures Decode(StringType, Encode(StringVal(s))) == Ok(StringVal(s[..k]))
    decreases k
  {
    if k > 0 {
      assert s[1..][..k - 1] == s[..k][1..];
      StringTruncatedAtNul(s[1..], k - 1);
      assert CString(s) == [s[0]] + CString(s[1..]);
      assert [s[0]] + s[1..][..k - 1] == s[..k];
    }
  }
}
