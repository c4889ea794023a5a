/**
 * The recursive structural copy: `deepSimpleClone` (src/utils/deepSimpleClone.ts)
 * and its helpers `cloneArray` and `cloneObject` (src/utils/helpers).
 *
 * Values are immutable here, so a fresh copy and the original are the same
 * datatype value: "structurally equal to the input" is stated as `==`.
 */
module DeepClone {
  import opened Wrappers
  import opened JsValues

  /** The `TypeError` thrown by `deepSimpleClone`. */
  datatype CloneError = TypeError(message: string)

  const UnsupportedMessage: string := "Unsupported type encountered!"

  /**
   * What `cloneArray` stores for an element and `cloneObject` stores for a
   * field: arrays are copied by `cloneArray`, objects by `cloneObject`,
   * primitives are kept, and anything else (a Set, a Map, a function) is
   * copied through unchanged instead of failing.
   */
  function CloneNested(item: Value): (r: Value)
    ensures r == item
    decreases item, 1
  {
    match Classify(item)
    case ArrayKind => Array(CloneArray(item.items))
    case ObjectKind => CloneObject(item)
    case PrimitiveKind => item
    case Unsupported => item
  }

  /** A new array of the same length whose every slot holds the copy of the element at that index. */
  function CloneArray(items: seq<Value>): (cloned: seq<Value>)
    ensures cloned == items
    decreases items
  {
    seq(|items|, i requires 0 <= i < |items| => CloneNested(items[i]))
  }

  /**
   * A value that is not an object comes back as it is; an object comes back
   * with the same keys, each field copied by `CloneNested`.
   */
  function CloneObject(obj: Value): (r: Value)
    ensures r == obj
    decreases obj, 0
  {
    if !IsObject(obj) then obj
    else
      var cloned := map key | key in obj.fields :: CloneNested(obj.fields[key]);
      assert cloned == obj.fields;
      Object(cloned)
  }

  /**
   * The top-level entry point: the same dispatch as `CloneNested`, except
   * that a value outside the three supported classes throws a `TypeError`.
   */
  function DeepSimpleClone(value: Value): (r: Result<Value, CloneError>)
    ensures r.Failure? <==> value.Function? || value.Set? || value.Map?
    ensures r.Success? ==> r.value == value
    ensures r.Failure? ==> r.error == TypeError(UnsupportedMessage)
  {
    match Classify(value)
    case ArrayKind => Success(Array(CloneArray(value.items)))
    case ObjectKind => Success(CloneObject(value))
    case PrimitiveKind => Success(value)
    case Unsupported => Failure(TypeError(UnsupportedMessage))
  }

  /**
   * `deepSimpleClone` applied to an array, as the stacks use it: the result
   * is the copied array's elements. It cannot fail, because the array branch
   * is taken first and `cloneArray` has no failure path.
   */
  function DeepSimpleCloneArray(items: seq<Value>): (r: Result<seq<Value>, CloneError>)
    ensures r == Success(items)
  {
    match DeepSimpleClone(Array(items))
    case Success(copy) => Success(copy.items)
    case Failure(e) => Failure(e)
  }

  /**
   * The entry point and the nested helpers disagree on unsupported values:
   * at top level such a value throws, yet the same value inside an array or
   * as an object's field is copied through without any error.
   */
  lemma TopLevelRejectsWhatNestedAccepts(v: Value, key: string)
    requires Classify(v) == Unsupported
    ensures DeepSimpleClone(v) == Failure(TypeError(UnsupportedMessage))
    ensures DeepSimpleClone(Array([v])) == Success(Array([v]))
    ensures DeepSimpleClone(Object(map[key := v])) == Success(Object(map[key := v]))
  {
  }
}
