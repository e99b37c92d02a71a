# duktape-cpp binding core in Dafny

This project models the marshalling and lifetime core of duktape-cpp, a C++ binding for the
Duktape JavaScript engine. It covers both generations of the library: the newer
`src/duktape-cpp` layer and the older `src/Duktape/Bindings` layer.

The binding sits between C++ values and the engine's value stack. Its pieces are modelled as
follows.

- **Engine.** The engine itself is the Duktape C API, which is not part of the repository. The
  module `Engine` gives the binding an abstract engine to act on:
  - a value stack with absolute and negative indices;
  - a heap of objects with named, hidden (`"\xff"`-prefixed) and array-index keys;
  - the global object and the global stash;
  - enumerators over array indices;
  - accessors and finalizers.
- **Context** (`Bridge`). A `duk::Context` is a class with the fields of the C++ class:
  - the engine handle;
  - the script id;
  - the ordered box table `_boxes` and its counter `_boxCounter`;
  - the stash counter `_objectRefCounter`.

  Its methods change those fields and the engine in place.
- **Codecs** (`Scalars`, `Codecs`). These are the `Type<T>` codecs:
  - `int`, `unsigned int`, `bool` and `std::string`;
  - `std::vector` and `std::tuple` of those;
  - the default object codec.

  Each `push` and `get` is a method on the engine, proved against a pure decoding function.
- **Ownership boxes** (`Boxes`, `Pointers`). Smart pointers are kept in boxes:
  - `Box<shared_ptr<E>>` and `Box<unique_ptr<E>>`;
  - the checked downcast `BoxBase::as<T>`;
  - `dynamic_unique_cast`.

  The pointer codecs store a box, push a wrapper object carrying the box key, the raw address
  and a finalizer, and read the pointer back through the key. They take the box typing as a
  parameter: `AsWritten` types a box by the immediate base `BaseClass<T>::type`, as the source
  does, and `ByRoot` by the root of the hierarchy (see "## Findings").
- **Inspector protocol** (`Inspection`, `ObjectInspector`, `Constructors`, `Registration`). A
  class lists its members in `inspect(i)`, which the model records as a sequence of
  declarations. `Inspect<T>::inspect` replays T's declarations and then its ancestors'. The
  inspectors turn those declarations into properties:
  - accessors and methods on a pushed object;
  - constructors and static members on a constructor function;
  - constants on an enum object;
  - or nothing (the `EmptyInspector` defaults).
- **Class metadata** (`ClassInfo`). The `ClassName`, `ShortClassName`, `BaseClass` and
  `IsPolymorphic` tables, with the macros that specialise them.
- **Namespaces** (`Namespaces`). `splitNamespaces` cuts a qualified name at each `::`.
- **Methods and functions** (`Methods`, `JSFunctions`).
  - Native methods are bound through heap-allocated closure holders that a finalizer frees.
    Their dispatch reads argument k from stack slot k. C++ leaves the order in which the
    reads of one argument list run unspecified, so it is a parameter (`EvalOrder`): it decides
    which failure is reported, and nothing else.
  - `JSFunction` is a class owning one key of `stash.refs`.

C++ exceptions and failed `assert`s become the `Error` values of module `Errors`. A read of a
property of undefined or null, and an enumeration of a non-object, are the engine's TypeErrors. Work that
happens outside the binding is taken as a parameter: script evaluation, the outcome of a
protected call, and the native function a binding wraps.

## Model

| member | source | states |
|---|---|---|
| Scalars.CString | src/duktape-cpp/Types/STL.h:12-14 | the C string of a std::string is its longest NUL-free prefix, and the whole string when it has no NUL |
| Scalars.Decode | src/duktape-cpp/Types/Primitive.h:11-13 | reading a value as int/uint fails exactly on a non-number, as bool exactly on a non-boolean, as string exactly on a non-string; a success has the requested type |
| Scalars.RoundTrip | src/duktape-cpp/Types/Primitive.h:7-26 | pushing a scalar and reading it back as its own type gives it back (a string without NUL) |
| Scalars.StringTruncatedAtNul | src/duktape-cpp/Types/STL.h:12-19 | a string with a NUL at position k comes back as its first k characters |
| Namespaces.Pieces | src/duktape-cpp/Utils/Helpers.h:29-34 | the first piece is a prefix of the name, and a separator follows it whenever there are more pieces |
| Namespaces.SplitNamespaces | src/duktape-cpp/Utils/Helpers.h:29-34 | the split of any name, the empty name included, has at least one piece |
| Namespaces.JoinPieces | src/duktape-cpp/Utils/Helpers.h:29-34 | joining the pieces with "::" gives back the name, so nothing is lost or reordered |
| Namespaces.PiecesAreSeparatorFree | src/duktape-cpp/Utils/Helpers.h:30-33 | no piece contains "::" |
| Namespaces.PiecesOfComponent | src/Duktape/Bindings/Utils/Helpers.cpp:7-12 | a colon-free leading component is cut off at the first separator, and the pieces keep source order |
| Namespaces.SplitThreeLevels | tests/HelperTests.cpp:11-15 | "a::b::c" with colon-free components splits into [a, b, c] |
| Namespaces.SplitUnqualified | tests/HelperTests.cpp:17-22 | a name without "::" splits into itself alone |
| Namespaces.SplitTwoLevels | src/duktape-cpp/Utils/Helpers.h:29-34 | "a::b" with colon-free components, b non-empty, splits into [a, b] |
| Namespaces.SplitDropsTrailingEmpty | src/duktape-cpp/Utils/Helpers.h:29-34 | the token iterator produces no empty trailing piece: "a::" splits into [a] |
| ClassInfo.GetClassName | src/duktape-cpp/Utils/ClassInfo.h:22-26 | it is callable only for a type whose name is defined, and then it gives the defined name |
| ClassInfo.DefClassName | src/duktape-cpp/Utils/ClassInfo.h:53-59 | DUK_CPP_DEF_CLASS_NAME defines T's name as the qualified name and changes no other type and no other table |
| ClassInfo.DefShortName | src/duktape-cpp/Utils/ClassInfo.h:64-70 | it defines T's short name only |
| ClassInfo.DefBaseClass | src/duktape-cpp/Utils/ClassInfo.h:72-78 | T gets exactly one parent, other types keep theirs, and well-formedness is preserved |
| ClassInfo.DefPolymorphic | src/duktape-cpp/Utils/ClassInfo.h:80-84 | T becomes polymorphic and no other type changes |
| ClassInfo.ChainShape | src/duktape-cpp/Utils/ClassInfo.h:28-34 | the base chain starts at T, each step is the declared base, ids strictly decrease so no type repeats, and it ends at a type whose base is void |
| ClassInfo.AncestorSameRoot | src/duktape-cpp/Utils/ClassInfo.h:72-78 | a type and its ancestors share one root |
| ClassInfo.AncestorTransitive | src/duktape-cpp/Utils/ClassInfo.h:72-78 | being an ancestor is transitive |
| ClassInfo.RootIsAncestor | src/duktape-cpp/Utils/ClassInfo.h:72-78 | the root of T is an ancestor of T |
| Inspection.InspectVisitsChain | src/duktape-cpp/Utils/Inspect.h:33-42 | the newer inspect visits exactly the declarations of T and each ancestor, derived first, each type once |
| Inspection.NoBaseInspectsOwn | src/duktape-cpp/Utils/Inspect.h:23-29 | the walk stops at a type without a base: for it, inspect is its own declarations |
| Inspection.VariantsAgree | src/Duktape/Bindings/Utils/Inspect.h:7-17 | the older inspect (no base walk) agrees with the newer one whenever no ancestor declares anything |
| Inspection.Constructs | src/duktape-cpp/PushConstructorInspector.h:15-23 | the constructors a visit declares are among the visited declarations and are all `construct`s |
| Boxes.As | src/Duktape/Bindings/Box.h:11-21 | `as<T>` succeeds exactly when the box's dynamic type is T, gives the same box then, and bad_cast otherwise |
| Boxes.BoxElemHolds | src/duktape-cpp/Types/SharedPtr.h:25-49 | a box typed by the root, and one typed by the immediate base as written, both hold a pointer to any object derived from T |
| Boxes.DynamicCast | src/duktape-cpp/Types/SharedPtr.h:31-34 | the cast gives the same object exactly when it is a T, and null otherwise |
| Boxes.SharedRoundTrip | src/duktape-cpp/Types/SharedPtr.h:99-111 | with root-typed boxes, a pointer pushed as S and read as T is the same object when it is a T, empty when not, and bad_cast only across hierarchies |
| Boxes.GrandchildBadCastAsWritten | src/duktape-cpp/Types/SharedPtr.h:25-49 | as written, a SubConcrete boxed as shared_ptr<Concrete> cannot be read as shared_ptr<IBase> or shared_ptr<Concrete> although it is both |
| Boxes.TwoLevelsAgree | src/duktape-cpp/Types/SharedPtr.h:25-49 | with one level of inheritance the as-written box type equals the root-typed one |
| Boxes.DynamicUniqueCast | src/duktape-cpp/Types/UniquePtr.h:22-31 | ownership moves only when the cast succeeds; on failure the result is null and the source keeps the object |
| Boxes.UniqueMoveIsExclusive | src/duktape-cpp/Types/UniquePtr.h:45-57 | after an assign the box is empty and its object went to `value` or was destroyed, never both; handing it over destroys what `value` owned before, and a failed cast leaves `value` alone |
| Boxes.UniqueSecondGet | src/duktape-cpp/Types/UniquePtr.h:45-71 | a second get on the same box finds it empty: the assert fires with a declared base, and without one the out-parameter becomes empty and its old object is destroyed |
| Boxes.UniqueRoundTrip | src/duktape-cpp/Types/UniquePtr.h:119-127 | with root-typed boxes, a unique pointer read as T is handed over (destroying what `value` owned) when the object is a T and destroyed otherwise |
| Boxes.UniqueGrandchildBadCastAsWritten | src/duktape-cpp/Types/UniquePtr.h:39-58 | as written, a SubConcrete pushed as unique_ptr<SubConcrete> cannot be taken as unique_ptr<IBase> |
| Codecs.ArrayOf | src/duktape-cpp/Types/STL.h:26-32 | the pushed array has one index per element and no finalizer |
| Codecs.ArrayOfSnoc | src/duktape-cpp/Types/STL.h:28-31 | writing the next index of an array extends it by exactly that element |
| Codecs.IndexKeysOfArray | src/duktape-cpp/Types/STL.h:35-42 | enumerating a pushed array visits 0, 1, ..., n-1 in order |
| Codecs.ElementsOfArray | src/duktape-cpp/Types/STL.h:34-45 | enumerating a pushed array yields its elements in index order |
| Codecs.PushInt | src/duktape-cpp/Types/Primitive.h:7-9 | exactly one value, the int, is added to the stack and the heap is unchanged |
| Codecs.GetInt | src/duktape-cpp/Types/Primitive.h:11-13 | the result is the require-int reading of the slot: a TypeError for a non-number, the number otherwise |
| Codecs.PushUInt | src/duktape-cpp/Types/Primitive.h:20-22 | exactly one value, the unsigned int, is added |
| Codecs.GetUInt | src/duktape-cpp/Types/Primitive.h:24-26 | the require-uint reading of the slot, a TypeError for a non-number |
| Codecs.PushBool | src/duktape-cpp/Types/Primitive.h:59-61 | exactly one boolean is added |
| Codecs.GetBool | src/duktape-cpp/Types/Primitive.h:63-65 | the require-boolean reading of the slot, a TypeError for a non-boolean |
| Codecs.PushString | src/duktape-cpp/Types/STL.h:12-14 | exactly one string, the C string of the value, is added |
| Codecs.GetString | src/duktape-cpp/Types/STL.h:16-19 | there is no type check before the read; a non-string gives a NULL from which no std::string is built |
| Codecs.PushScalar | src/duktape-cpp/Context.inl:172-175 | Context::push of a scalar adds exactly its encoding |
| Codecs.GetScalar | src/duktape-cpp/Types/Primitive.h:11-26 | a scalar get returns the decoding of the slot and leaves the stack as it was |
| Codecs.ScalarRoundTrip | src/duktape-cpp/Types/Primitive.h:7-26 | push followed by get of the top gives back the scalar, with one value added |
| Codecs.DecodeAppend | src/duktape-cpp/Types/STL.h:37-42 | a successful vector decode has the old contents' length plus one per enumerated value |
| Codecs.DecodeAppendMeaning | src/duktape-cpp/Types/STL.h:34-45 | the vector get succeeds exactly when every value decodes, and then holds the old contents followed by value i's decoding at position i |
| Codecs.DecodeAppendKeepsPrefix | src/duktape-cpp/Types/STL.h:34-42 | get does not clear its out-parameter: the result is the old contents followed by what an empty vector would receive |
| Codecs.FilledMeaning | src/duktape-cpp/Types/STL.h:37-42 | after the get the vector holds the old contents and the decodings of the k values before the first that fails, whose error is the one reported; on success it is the result |
| Codecs.DecodeAppendEncoded | src/duktape-cpp/Types/STL.h:26-45 | decoding the encodings of well-typed scalars appends exactly those scalars |
| Codecs.PushAndPut | src/duktape-cpp/Types/STL.h:29-30 | one loop step stores the element at the next index of the array on top and leaves the stack as it was |
| Codecs.PushVector | src/duktape-cpp/Types/STL.h:26-32 | one new array holding element i at index i is pushed |
| Codecs.FillArray | src/duktape-cpp/Types/STL.h:28-31 | the loop stores the encoding of element i at index i of the array on top, and nothing else changes |
| Codecs.GetVector | src/duktape-cpp/Types/STL.h:34-45 | a non-object is a TypeError with the vector untouched; otherwise the result is the appending decode of the enumerated values and the vector holds the old contents plus every element decoded before the first failure; the heap is unchanged and on success the stack is balanced |
| Codecs.DecodeEnumerated | src/duktape-cpp/Types/STL.h:37-42 | the `while (duk_next)` loop decodes the enumerated values in order, the vector grows by each decoded one, and on success the spent enumerator is left on top of the stack it started from |
| Codecs.DecodeElement | src/duktape-cpp/Types/STL.h:38-41 | one iteration decodes the value on top, pops key and value, and advances the enumerator |
| Codecs.NextElement | src/duktape-cpp/Types/STL.h:37 | duk_next reports more exactly while keys remain, pushing the next key and value |
| Codecs.PushedVectorDecodes | src/duktape-cpp/Types/STL.h:26-45 | the array pushed for a vector decodes into an empty vector as that vector |
| Codecs.VectorRoundTrip | tests/STLTypesTests.cpp:56-90 | push, get into an empty vector, and pop give back the vector with the stack as before |
| Codecs.PushElements | src/duktape-cpp/Types/Tuples.h:38-48 | elements idx.. are stored at their own indices of the array on top, and the stack is unchanged |
| Codecs.PushTuple | src/duktape-cpp/Types/Tuples.h:9-12 | one new array holding tuple element idx at index idx is pushed |
| Codecs.DecodeTuple | src/duktape-cpp/Types/Tuples.h:23-36 | a successful tuple decode has one element per tuple position |
| Codecs.TupleRoundTrip | src/duktape-cpp/Types/Tuples.h:9-36 | decoding the encoding of a well-typed tuple gives the tuple |
| Codecs.TupleShortArrayFails | src/duktape-cpp/Types/Tuples.h:29-36 | duk_next's result is ignored, so an array shorter than the tuple fails on the enumerator itself |
| Codecs.TupleExtraIgnored | src/duktape-cpp/Types/Tuples.h:14-18 | entries beyond the arity are ignored, since the array length is not checked |
| Codecs.ReadElement | src/duktape-cpp/Types/Tuples.h:29-36 | one getElement step decodes the next entry (or the enumerator when none is left) and restores the enumerator on top |
| Codecs.GetElements | src/duktape-cpp/Types/Tuples.h:23-27 | the k-th enumerated entry is written into tuple position k, from idx on; the caller's tuple afterwards is `Written`, also on failure |
| Codecs.WrittenMeaning | src/duktape-cpp/Types/Tuples.h:23-36 | after the tuple get the caller's tuple is the result on success; on failure it holds the decodings of the elements before the first that fails, whose error is the one reported, and its old values from there on |
| Codecs.GetTuple | src/duktape-cpp/Types/Tuples.h:14-18 | a non-object is a TypeError with the tuple untouched; otherwise the tuple get is the tuple decode of the enumerated entries, the caller's tuple holds the elements written before any failure, and the stack is balanced on success |
| Codecs.PushedTupleDecodes | src/duktape-cpp/Types/Tuples.h:9-36 | the array pushed for a tuple decodes as that tuple |
| Codecs.TupleRoundTripOnStack | tests/TuplesTest.cpp:10-39 | push, get, and pop give back the tuple with the stack as before |
| Codecs.GetObject | src/duktape-cpp/Type.inl:23-34 | undefined or null is a TypeError at the read of `obj_ptr`; otherwise it reads `obj_ptr`, pops it, and aborts exactly when it is NULL |
| Bridge.ArrayIndex | src/duktape-cpp/Context.inl:132 | a non-negative int key becomes the same array index |
| Bridge.GetSelfFromContext | src/duktape-cpp/Context.inl:105-111 | it returns the pointer stored under `self_ptr` in the stash and leaves the engine as it was |
| Bridge.Context.constructor | src/duktape-cpp/Context.inl:24-27 | a new heap whose stash names this context, with an empty box table, both counters at 0 and an empty stack |
| Bridge.Context.Move | src/Duktape/Bindings/Context.cpp:21-24 | the move takes the engine and a copy of the script id and nulls the source handle, which keeps its script id, box table and counters; the new context starts with an empty table |
| Bridge.Context.MoveAssign | src/duktape-cpp/Context.inl:40-52 | move assignment does nothing on self-assignment; otherwise it takes the engine, empties the source's script id and nulls its handle, keeping its own boxes |
| Bridge.Context.Destroy | src/Duktape/Bindings/Context.cpp:15-19 | the heap is destroyed only when the handle is non-null |
| Bridge.Context.AssignSelf | src/duktape-cpp/Context.inl:113-118 | this context's address is stored under `self_ptr` and nothing else changes |
| Bridge.Context.StoreBox | src/duktape-cpp/Context.inl:54-58 | the key is the pre-incremented counter, larger than every key issued before and never reused (on an unbounded counter); getBox of it returns the box |
| Bridge.Context.GetBox | src/duktape-cpp/Context.inl:60-62 | a present key yields its box, and an absent key out_of_range |
| Bridge.Context.RemoveBox | src/Duktape/Bindings/Context.cpp:50-52 | only that key is erased; every other entry is unchanged and an absent key changes nothing |
| Bridge.Context.DefNamespaces | src/duktape-cpp/Context.inl:68-90 | on success it returns max(n-1, 0) and leaves that many levels pushed; it fails with a TypeError at the first undefined or null level; a level is created only where it was undefined, as a fresh empty plain object, and no other property changes |
| Bridge.Context.DefineLevel | src/duktape-cpp/Context.inl:73-85 | one loop step pushes the level for ns[i] on top of the levels already pushed |
| Bridge.Context.CreateLevel | src/duktape-cpp/Context.inl:79-82 | a missing level is a fresh id holding a new empty plain object, stored under its name on the level below, and nothing else changes |
| Bridge.Context.PushRefs | src/duktape-cpp/Context.inl:124-130 | `stash.refs` is created lazily and pushed with the stash, and nothing stashed changes |
| Bridge.Context.StashRef | src/duktape-cpp/Context.inl:120-137 | keys are 0, 1, 2, ... (on an unbounded counter), the value at the caller's index (negative indices shifted by 2) is stored under the key, and the stack depth is unchanged |
| Bridge.Context.StoreRef | src/duktape-cpp/Context.inl:130-134 | `stash.refs[key]` becomes the value at the index and every other key keeps its value |
| Bridge.Context.UnstashRef | src/duktape-cpp/Context.inl:139-148 | only that key of `stash.refs` is deleted: it is absent afterwards and every other key keeps its value |
| Bridge.Context.GetRef | src/duktape-cpp/Context.inl:150-162 | exactly the stored value is left on top, a net change of +1 |
| Bridge.Context.RethrowDukError | src/Duktape/Bindings/Context.cpp:85-87 | ScriptEvaluationExcepton carries the string form of the top value, which is replaced by that string |
| Bridge.Context.EvalStringNoRes | src/duktape-cpp/Context.inl:92-97 | as written, a failed evaluation reports whatever was below the missing error value |
| Bridge.Context.EvalStringNoResReporting | src/duktape-cpp/Context.inl:92-97 | the corrected variant reports the script's own error and balances the stack on success |
| Bridge.EvalErrorLost | src/duktape-cpp/Context.inl:92-103 | with an empty stack the as-written variant reports a missing index where the corrected one gives the script's message |
| Bridge.CreateKeepsLevels | src/duktape-cpp/Context.inl:79-82 | creating a missing level keeps every lower level and every defined property |
| Bridge.LevelsExtend | src/duktape-cpp/Context.inl:84 | the value pushed for level i is property ns[i] of level i-1, so the chain grows by one |
| Bridge.StoreIndexed | src/duktape-cpp/Context.inl:130-132 | an index write to `stash.refs` changes that index alone |
| Methods.ClosureHeap.Allocate | src/duktape-cpp/Method.h:177 | `new MethodPointer` returns a non-null address no live holder has, and adds exactly that holder |
| Methods.ClosureHeap.Delete | src/duktape-cpp/Method.h:227-228 | it removes exactly that holder; deleting NULL does nothing |
| Methods.ReadArgsPositional | src/duktape-cpp/Method.h:79-82 | argument k is parameter k's reading of slot k; reading succeeds exactly when every parameter's does, otherwise the error reported is that of a parameter whose predecessors in the evaluation order all read |
| Methods.FirstFailureMeaning | src/duktape-cpp/Method.h:79-82 | no read fails exactly when every read succeeds; otherwise the error is that of a read whose predecessors in the evaluation order succeeded |
| Methods.ReadArgsOrderFree | src/duktape-cpp/Method.h:79-82 | whether the call goes ahead, and with which arguments, does not depend on the evaluation order |
| Methods.OrderDecidesError | src/duktape-cpp/Method.h:79-82 | with two bad arguments the reported error does depend on it: left to right gives the first parameter's TypeError, right to left the second's |
| Methods.ScalarArgRoundTrip | src/duktape-cpp/Method.h:21-28 | a scalar pushed with its codec is read back by a parameter of its type |
| Methods.ObjectArgWithoutPointer | src/duktape-cpp/Method.h:47-59 | undefined or null is the engine's TypeError for either kind of object parameter; any other value without `obj_ptr` is a TypeError for a reference parameter, and for a by-value parameter the assertion fails |
| Methods.GetArg | src/duktape-cpp/Method.h:16-66 | ArgGetter reads parameter p from its stack index with the error paths of ReadArg (TypeError for null or undefined objects), leaving the engine as it was |
| Methods.GetArgs | src/duktape-cpp/Method.h:79-82 | the parameters are read from their own slots in a given evaluation order, the first failing read ending it |
| Methods.Dispatch | src/duktape-cpp/Method.h:71-161 | the native is called on the arguments of slots 0..n-1; a void native pushes nothing and returns 0, any other pushes exactly its result and returns 1; a failed argument read calls nothing and reports the first failure in the evaluation order |
| Methods.ReadPointer | src/duktape-cpp/Method.h:204-214 | a hidden pointer is read with a balanced push/pop |
| Methods.MethodFunc | src/duktape-cpp/Method.h:197-219 | a receiver that is undefined or null is a TypeError with `this` left pushed; otherwise the trampoline recovers the context, `this.obj_ptr` and `method_ptr` with balanced pops, then dispatches on the holder's native |
| Methods.StaticFunc | src/duktape-cpp/Method.h:269-285 | as MethodFunc, without a receiver |
| Methods.PushBound | src/duktape-cpp/Method.h:175-184 | one function with nargs equal to the arity is pushed, holding the holder under `method_ptr` |
| Methods.AttachFinalizer | src/duktape-cpp/Method.h:186-187 | the function at fidx gets the finalizer, with the stack balanced |
| Methods.PushMethod | src/duktape-cpp/Method.h:171-190 | exactly one holder is allocated and one function is pushed (net +1) whose `method_ptr` is that holder and whose finalizer frees it |
| Methods.FuncFinalizer | src/duktape-cpp/Method.h:221-231 | it deletes exactly the holder named by the finalized function |
| Methods.PushThenFinalize | src/duktape-cpp/Method.h:175-231 | each allocation is matched by one free: push then finalize leaves the live holders as they were |
| Methods.OlderDispatch | src/Duktape/Bindings/Method.h:28-70 | the older dispatcher reads every parameter by value, returning 1 with one result or 0 for void |
| Methods.LayersAgreeWithoutReferences | src/Duktape/Bindings/Method.h:16-21 | the two layers read the same arguments when no parameter is a reference to an object |
| Methods.ReferenceBecomesCopy | src/Duktape/Bindings/Method.h:16-21 | for a reference parameter the older layer passes a copy where the newer passes the object |
| Methods.OlderMethodFunc | src/Duktape/Bindings/Method.h:106-128 | the same TypeError for an undefined or null receiver; otherwise the older trampoline recovers context, receiver and holder with balanced pops, then uses the older dispatcher |
| ObjectInspector.LastBinding | src/duktape-cpp/PushObjectInspector.inl:9-43 | the declaration deciding key k is one of the visited ones, and it binds k |
| ObjectInspector.LastBindingIsLast | src/duktape-cpp/PushObjectInspector.inl:9-43 | a declaration binding k with no later one binding k decides k |
| ObjectInspector.PushClosure | src/duktape-cpp/PushObjectInspector.inl:12 | one bound native function is pushed and nothing in the heap is lost |
| ObjectInspector.PushAccessorParts | src/duktape-cpp/PushObjectInspector.inl:11-13 | the name, the bound getter and, if declared, the bound setter are pushed |
| ObjectInspector.DefineProperty | src/duktape-cpp/PushObjectInspector.inl:9-31 | a property becomes an accessor with a getter, and a setter only when one is declared; the stack is balanced |
| ObjectInspector.PutMethod | src/duktape-cpp/PushObjectInspector.inl:33-43 | the bound function is stored under the method's name on the object |
| ObjectInspector.VisitObjectDecl | src/duktape-cpp/EmptyInspector.h:7-35 | constants, static members and constructors do nothing; a property or method changes the object at its own key only |
| ObjectInspector.InspectObject | src/duktape-cpp/Type.inl:19-20 | after the visit each key holds what the last declaration binding it defines, other keys are untouched, and the stack is as before |
| ObjectInspector.PushObject | src/duktape-cpp/Type.inl:14-21 | the default push adds one object, with no box and no finalizer, whose `obj_ptr` both object parameter kinds read back as the address; the class's inspected members are bound on it and older objects are kept |
| ObjectInspector.PushHolderObject | src/duktape-cpp/Type.inl:16-18 | a new plain object holding the address under `obj_ptr` is pushed |
| Pointers.PushWrapper | src/duktape-cpp/Types/SharedPtr.h:84-93 | the wrapper object carries the box key, the address and the finalizer |
| Pointers.PushKeyed | src/duktape-cpp/Types/SharedPtr.h:84-90 | a plain object with the box key and the address is pushed |
| Pointers.PushBoxed | src/duktape-cpp/Types/SharedPtr.h:80-96 | exactly one new box is stored and one wrapper referring to it is pushed, with T's members bound |
| Pointers.PushShared | src/duktape-cpp/Types/SharedPtr.h:74-97 | an empty pointer pushes null and stores nothing; otherwise one box, whose element type is the immediate base as written (the root when corrected), and its wrapper |
| Pointers.GetSharedPtr | src/duktape-cpp/Types/SharedPtr.h:99-111 | null or undefined reads as empty without touching the table; otherwise the box under `sptr_key` is cast to T against T's immediate base as written (the root when corrected); nothing changes |
| Pointers.BoxFinalizer | src/duktape-cpp/Types/SharedPtr.h:57-72 | the finalizer removes exactly the box keyed by the finalized object |
| Pointers.PushUnique | src/duktape-cpp/Types/UniquePtr.h:95-117 | an empty pointer fails the assertion and changes nothing; otherwise one box, typed by the immediate base as written (the root when corrected), and one wrapper carrying `uptr_key` and `obj_ptr` |
| Pointers.GetUniquePtr | src/duktape-cpp/Types/UniquePtr.h:119-127 | undefined or null is a TypeError with the table unchanged; a key absent from the table is out_of_range; otherwise the result is the unique assign of the box under `uptr_key`, whose emptied state replaces it on success |
| Pointers.SharedRoundTripOnStack | src/duktape-cpp/Types/SharedPtr.h:74-111 | a pushed shared pointer read back as T is the cast of its box to T under either typing; when both types sit at most one level below their root, it is the same object when it is a T, empty when not, and bad_cast across hierarchies; the wrapper stays on the stack |
| Pointers.GrandchildOnStack | src/duktape-cpp/Types/SharedPtr.h:25-49 | a SubConcrete pushed and read back as IBase is bad_cast as written and the same object with root typing |
| Pointers.UniqueRoundTripOnStack | src/duktape-cpp/Types/UniquePtr.h:95-127 | a pushed unique pointer read back as T is the unique assign of its box under either typing, and the stored box is left empty; with root-level types it is handed over, replacing what the out-parameter owned, when the object is a T and destroyed otherwise |
| Pointers.SharedPushThenFinalize | src/duktape-cpp/Types/SharedPtr.h:57-97 | pushing a shared pointer and then finalizing its wrapper leaves the box table as it was |
| Constructors.PushConstructor | src/duktape-cpp/Constructor.inl:38-45 | one function with nargs equal to the arity is pushed (net +1), holding the non-null factory under `func_ptr` |
| Constructors.PushConstructed | src/duktape-cpp/Constructor.inl:19-23 | a shared factory's null result is pushed as null and returns 1; a unique factory's null result fails the assertion; a result is boxed (typed as the pointer codecs type it) and its wrapper pushed |
| Constructors.DispatchConstructor | src/duktape-cpp/Constructor.inl:17-36 | factory argument k is read by value from index k in the evaluation order given; a failed read constructs nothing and reports that order's first failure |
| Constructors.ConstructorFunc | src/duktape-cpp/Constructor.inl:47-70 | a call without `new` raises a plain Error "Constructor must be called with 'new'." (a return code passed as the error code); otherwise the factory runs on the arguments |
| Constructors.DefineStaticProperty | src/duktape-cpp/PushConstructorInspector.inl:9-31 | a static accessor is defined on the function below its name and functions, with a setter only when declared |
| Constructors.PutStaticMethod | src/duktape-cpp/PushConstructorInspector.inl:33-37 | the receiver-less function is stored under its name on the object at -2 |
| Registration.AddGlobal | src/duktape-cpp/Context.inl:164-170 | the value is stored under the name on the global object and the stack depth is unchanged |
| Registration.GetGlobal | src/duktape-cpp/Context.inl:221-234 | an undefined name pops both temporaries and raises KeyError("<name> is undefined"); otherwise the value is decoded and both are popped |
| Registration.GlobalRoundTrip | src/duktape-cpp/Context.inl:164-234 | a value added under a global name is read back by getGlobal |
| Registration.EvalString | src/duktape-cpp/Context.inl:191-200 | success decodes and pops the result; failure rethrows without popping the error value |
| Registration.LevelsChain | src/duktape-cpp/Context.inl:68-90 | the levels defNamespaces leaves are the namespace objects named by the leading pieces |
| Registration.OpenNamespaces | src/duktape-cpp/Context.inl:179-182 | the global object and the walked namespace levels are pushed; it succeeds exactly when no level before the last name is undefined or null, and fails with a TypeError otherwise |
| Registration.ShortNamesWalk | src/duktape-cpp/Context.inl:68-90 | a name with at most one namespace is always walked from the global object |
| Registration.PushConstructors | src/duktape-cpp/PushConstructorInspector.h:15-23 | one constructor function is pushed per `construct`, in order, and nothing else |
| Registration.RegisterDecls | src/duktape-cpp/Context.inl:177-189 | registration pushes the levels and the constructors, then puts the top one under the last piece and pops depth+1 |
| Registration.PushConstructorChain | src/duktape-cpp/Context.inl:179-185 | the namespace levels and then one constructor per declared `construct` are pushed |
| Registration.PutAndPop | src/duktape-cpp/Context.inl:187-188 | one put stores the top on the value below it, then depth+1 values are popped |
| Registration.RegisteredDepth | src/duktape-cpp/Context.inl:187-188 | on success the stack ends |constructors| - 1 values deeper than it started, with at least one constructor keeping what was below; a stuck walk is a TypeError with the heap as defNamespaces left it and part of the chain pushed |
| Registration.SingleConstructorRegistered | src/duktape-cpp/Context.inl:184-188 | it succeeds exactly when the namespaces walk; then with one constructor the class name holds it on the innermost namespace and the stack is balanced |
| Registration.TwoConstructorsRegistered | src/duktape-cpp/Context.inl:184-188 | it succeeds exactly when the namespaces walk; then with two constructors the second is put on the first and the global object is left on the stack |
| Registration.RegisterClass | src/Duktape/Bindings/Context.inl:31-43 | with the class's own declarations (no base walk), registration fails with a TypeError when a namespace level is undefined or null, and otherwise only on an empty stack with no constructor; it ends |constructors| - 1 deeper, so one `construct` leaves the stack balanced, and the class name then holds that constructor |
| Registration.RegisterClassAsWritten | src/duktape-cpp/Context.inl:177-189 | as written, the constructors counted are those of the base walk, so the stack ends |constructors| - 1 deeper: balanced only when the walk yields exactly one constructor; a stuck namespace walk is a TypeError |
| Registration.PolymorphicInspect | tests/PolymorphicTypesTests.cpp:17-82 | the test hierarchy IBase <- Concrete <- SubConcrete is well formed, and inspecting SubConcrete yields its own declarations, then Concrete's, then IBase's |
| Registration.BaseConstructs | tests/PolymorphicTypesTests.cpp:17-64 | inspecting Concrete yields its one constructor |
| Registration.SubConcreteConstructsTwice | tests/PolymorphicTypesTests.cpp:66-82 | inspecting SubConcrete with the base walk yields two constructors |
| Registration.RegisterSubConcreteAsWritten | tests/PolymorphicTypesTests.cpp:89-91 | registering SubConcrete as written succeeds but leaves the global object on the stack |
| Registration.ConstantsObject | src/Duktape/Bindings/Context.inl:58-71 | the object the constants inspector fills is a plain object (its properties are stated by ConstantsAbsent and ConstantsLast) |
| Registration.ConstantsAbsent | src/Duktape/Bindings/Context.inl:62-66 | a name no constant declares is absent from the enum object |
| Registration.ConstantsLast | src/Duktape/Bindings/Context.inl:62-66 | a declared name holds the encoding of the last constant declared under it |
| Registration.PutConstants | src/duktape-cpp/Context.inl:204-219 | each `constant` pushes one value and stores it on the target object, a net change of 0; other declarations do nothing |
| Registration.PushEnumObject | src/Duktape/Bindings/Context.inl:77-84 | the namespace levels and one new object holding the constants are pushed |
| Registration.RegisterEnum | src/Duktape/Bindings/Context.inl:75-89 | when the namespaces walk, one plain object holding the constants is attached under the last piece of the name and the stack is balanced; otherwise a TypeError |
| Registration.PutEnumAndPop | src/Duktape/Bindings/Context.inl:85-88 | the enum object is stored on the innermost level, then the levels are popped |
| JSFunctions.FailureMessage | src/duktape-cpp/Types/Function.h:103-106 | a message exists exactly when the error's stack property is a string, and it contains the "\n" separating the two |
| JSFunctions.ReturnValue | src/duktape-cpp/Types/Function.h:13-30 | the top value is decoded (void: not decoded) and popped together with numPops more |
| JSFunctions.PushArgs | src/duktape-cpp/Types/Function.h:115-133 | the arguments are pushed in order, one value each |
| JSFunctions.JSFunction.constructor | src/duktape-cpp/Types/Function.h:37-38 | a handle holds the engine and the key given |
| JSFunctions.JSFunction.Take | src/duktape-cpp/Types/Function.h:47-52 | copy and move construction take the key and leave the source as (null, -1) |
| JSFunctions.JSFunction.Assign | src/duktape-cpp/Types/Function.h:54-67 | copy assignment takes the key and empties the source; self-assignment does nothing |
| JSFunctions.JSFunction.MoveAssignAsWritten | src/duktape-cpp/Types/Function.h:75-87 | as written, move assignment nulls the source's engine but leaves its key |
| JSFunctions.JSFunction.Destroy | src/duktape-cpp/Types/Function.h:40-45 | with a live engine the key is deleted from `stash.refs`, every other key keeps its value, and the stack is unchanged |
| JSFunctions.JSFunction.Call | src/duktape-cpp/Types/Function.h:93-109 | a live handle pushes the stashed function and the arguments and pcalls; success decodes the result with the depth unchanged; a thrown object raises the message with stack, and a thrown undefined or null is a TypeError at the read of `stack` |
| JSFunctions.PushCallee | src/duktape-cpp/Types/Function.h:97-100 | the stashed function and then the arguments are pushed |
| JSFunctions.ReportFailure | src/duktape-cpp/Types/Function.h:102-107 | a failed pcall becomes ScriptEvaluationExcepton with the failure message; an undefined or null error value is a TypeError at the read of `stack` |
| JSFunctions.GetFunction | src/duktape-cpp/Types/Function.h:148-169 | exactly one new reference is stashed and wrapped in a handle owning its key |
| JSFunctions.CopyThenDestroyBoth | src/duktape-cpp/Types/Function.h:40-52 | after a copy, destroying both handles unstashes the key exactly once |
| JSFunctions.MovedFromKeepsKey | src/duktape-cpp/Types/Function.h:75-87 | after the as-written move assignment the source still holds the key |
| JSFunctions.MovedFromIsEmpty | src/duktape-cpp/Types/Function.h:69-73 | after a corrected move assignment the source is (null, -1) |

## Left out

- DynamicCast: the class registry (the declared `DUK_CPP_DEF_BASE_CLASS` links) is taken to be the whole C++ hierarchy, single inheritance with every derivation declared. `dynamic_pointer_cast` and `dynamic_cast` follow the real C++ inheritance, so for a class derived without a declared base (say `E : public Concrete` pushed and read back as `shared_ptr<Concrete>`) the source's cast returns the object where the model's returns empty; Holds, IsAncestor, SharedRoundTrip and UniqueRoundTrip are stated for declared derivations only.
- Dispatch, ReadArg, DispatchConstructor: native method, property and constructor parameters are scalars or objects (by value or by reference), and results are scalars or void. Parameters and results of type `shared_ptr`, `unique_ptr`, `std::vector`, `std::tuple` or `std::function` (for instance `returnSharedPtr`, `sharedPtrArg` and `ptToBaseClassArg` in the test classes) are not modelled; the pointer codecs are modelled on their own in Pointers.
- `Type<float>` and `Type<double>` and the float-based test types are not modelled: there is no floating point in the model.
- The values `addGlobal`, `getGlobal`, `evalString`, script-function arguments and vector or tuple elements carry are scalars (int, unsigned int, bool, string); nested containers and objects in those places are not modelled.
- The real engine is outside the model: heap creation and destruction, parsing, evaluation and garbage collection. Evaluation results and protected-call outcomes are parameters, and finalizers are invoked explicitly.
- The engine's own TypeErrors on a write to a non-object (for instance a namespace level that holds a primitive) are not modelled; such writes are dropped.
- I/O is not modelled: the `fatal_handler`, the printf in `rethrowDukError` and in the `std::function` get path.
- Registration.RegisterClass: the older registerClass visits only the class's own declarations, which for the test classes hold one `construct`; static members the constructor inspector would add are not part of its contract.
- `Type<std::function>::push` is left out: it asserts unconditionally.
- `JSFunction::operator()` is left out: it is the same call as `call`.
- JSFunctions.JSFunction.Assign: the key the target held before a copy assignment is not released (the source does not release it either); the model keeps that behaviour and proves nothing about the lost key.
- `std::atomic_int` on the box counter is a plain integer: concurrency and thread safety are not modelled.
- StoreBox: the box counter is an unbounded integer, so "never reused" is a property of the model; the source's `std::atomic_int` wraps after 2^31 - 1 boxes and would then hand out old keys again.
- StashRef: the stash counter is an unbounded integer; the source's `int` overflows (undefined behaviour) after 2^31 - 1 references, so keys 0, 1, 2, ... are promised only below that.
- Move: a moved-into context restarts both counters at 0 while the heap it takes over still holds wrappers and `stash.refs` entries keyed by the old counters, so later keys can collide with live ones; the model keeps this behaviour (its contract states the reset) and proves nothing about the collisions.
- DefineProperty: Duktape property attributes are not modelled. `duk_def_prop` without DUK_DEFPROP_HAVE_CONFIGURABLE makes a non-configurable accessor, so defining the same name again throws a TypeError in the engine; the model overwrites the accessor instead.
- PutMethod: a `duk_put_prop_string` of a method over an existing accessor of the same name throws in the engine (no setter) or calls the setter; the model overwrites the property.
- InspectObject: "the last declaration of a name wins" holds only when no property name is declared twice and no method shares a property's name; otherwise the source throws a TypeError during the push.
- PushObject: inherits InspectObject's gap for repeated property names.
- DefineStaticProperty: as DefineProperty, for static accessors on the constructor function.
- PutStaticMethod: as PutMethod, for static methods on the constructor function.
- When an engine call throws (a TypeError on an undefined or null base, a failed `duk_enum`), the model returns the error with the stack as it was at the throw; the unwinding to the enclosing protected call, which resets the stack, is not modelled.
- C++ template machinery is replaced by explicit data: arities and per-parameter kinds for dispatchers, and type ids for classes. This covers `index_sequence`, `ClearType`/`decay` and the `HasInspectMethod` check.
- Raw pointers are opaque addresses; `reinterpret_cast` identity is not modelled.
- The regular-expression machinery of `splitNamespaces` is replaced by a direct split at "::".
- src/Duktape/Bindings/Component.h and its engine-specific tests are not part of this model: they depend on headers outside the repository.

## Findings

| source | as written | input that shows it | evidently intended | confidence | as-written member | corrected member |
|---|---|---|---|---|---|---|
| src/duktape-cpp/Types/Function.h:84 | the move assignment writes `that._refKey == -1;`, a comparison whose value is discarded, so the moved-from handle keeps its key | move-assign a handle with key 0 into another handle | the source's key becomes -1, as in the move constructor | high, not executed | JSFunctions.JSFunction.MoveAssignAsWritten, JSFunctions.MovedFromKeepsKey | JSFunctions.JSFunction.Assign, JSFunctions.MovedFromIsEmpty |
| src/duktape-cpp/Types/SharedPtr.h:25-49, src/duktape-cpp/Types/UniquePtr.h:39-66 | the box element is the immediate base `BaseClass<T>::type`, so a class two levels below the root is boxed with a different type than its ancestors expect | push a `shared_ptr<SubConcrete>` (SubConcrete <- Concrete <- IBase) and get it as `shared_ptr<IBase>`: bad_cast | every class of a hierarchy agrees on the box type, namely the root, so the read gives the same object | medium, not executed | Boxes.GrandchildBadCastAsWritten, Boxes.UniqueGrandchildBadCastAsWritten, Pointers.GrandchildOnStack (typing AsWritten) | Boxes.SharedRoundTrip, Boxes.UniqueRoundTrip, Pointers.SharedRoundTripOnStack and Pointers.UniqueRoundTripOnStack (typing ByRoot) |
| src/duktape-cpp/Context.inl:177-189 with src/duktape-cpp/Utils/Inspect.h:33-42 | registerClass replays the base's declarations too, so a derived class pushes its base's constructor as well; one put and a pop of depth+1 then leave a value on the stack and store the wrong constructor | registerClass<SubConcrete>() with the test hierarchy | one constructor under the class name and a balanced stack, as in the older registerClass | high, not executed | Registration.RegisterClassAsWritten, Registration.SubConcreteConstructsTwice, Registration.RegisterSubConcreteAsWritten | Registration.RegisterClass |
| src/duktape-cpp/Context.inl:92-97 | evalStringNoRes uses the no-result evaluation, which leaves no error value, then rethrows from the top of the stack | evaluate a failing script on an empty stack | the exception carries the script's own error message | high, not executed | Bridge.Context.EvalStringNoRes, Bridge.EvalErrorLost | Bridge.Context.EvalStringNoResReporting |
