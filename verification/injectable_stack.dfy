/**
 * `InjectableStack<T>` (src/stack/injectable.stack.ts): a `Stack` that copies
 * its contents with a clone function chosen at construction instead of
 * always with `deepSimpleClone`. Every other operation is inherited: it is
 * the `Stacks` operation applied to the `stack` field, and it leaves the
 * clone function alone.
 */
module InjectableStacks {
  import opened Wrappers
  import opened JsValues
  import DeepClone
  import Stacks

  /**
   * `CloneFn<T>`: receives the whole backing array and returns the copy. An
   * injected function may throw, so it yields a `Result`.
   */
  type CloneFn = seq<Value> -> Result<seq<Value>, DeepClone.CloneError>

  datatype InjectableStack = InjectableStack(stack: Stacks.Stack<Value>, cloneFn: CloneFn)

  /**
   * `new InjectableStack(array?, cloneDependency = deepSimpleClone)`: the
   * elements are stored exactly as `new Stack(array?)` stores them, and the
   * clone function defaults to `deepSimpleClone`, which copies any array
   * without failing.
   */
  function New(initial: Option<seq<Value>>, cloneDependency: Option<CloneFn>): (r: InjectableStack)
    ensures r.stack == Stacks.New(initial)
    ensures cloneDependency.Some? ==> r.cloneFn == cloneDependency.value
    ensures cloneDependency.None? ==> forall xs :: r.cloneFn(xs) == Success(xs)
  {
    var cloneFn := if cloneDependency.Some? then cloneDependency.value else DeepClone.DeepSimpleCloneArray;
    InjectableStack(Stacks.New(initial), cloneFn)
  }

  /** `toArray()`: whatever the clone function makes of the elements; the stack itself is not touched. */
  function ToArray(ist: InjectableStack): (r: Result<seq<Value>, DeepClone.CloneError>)
    ensures r == ist.cloneFn(ist.stack.elements)
  {
    ist.cloneFn(ist.stack.elements)
  }

  /**
   * `clone()`: a plain `Stack` (not an `InjectableStack`) built from the
   * clone function's copy; a throwing clone function makes `clone()` throw.
   */
  function Clone(ist: InjectableStack): (r: Result<Stacks.Stack<Value>, DeepClone.CloneError>)
    ensures r.Success? <==> ist.cloneFn(ist.stack.elements).Success?
    ensures r.Success? ==> r.value.elements == ist.cloneFn(ist.stack.elements).value
    ensures r.Failure? ==> r.error == ist.cloneFn(ist.stack.elements).error
  {
    match ist.cloneFn(ist.stack.elements)
    case Success(copy) => Success(Stacks.New(Some(copy)))
    case Failure(e) => Failure(e)
  }

  /** With the default clone function, `toArray()` and `clone()` agree with those of a plain `Stack` holding the same elements. */
  lemma DefaultAgreesWithStack(initial: Option<seq<Value>>)
    ensures ToArray(New(initial, None)) == Stacks.ToArray(Stacks.New(initial))
    ensures Clone(New(initial, None)) == Stacks.Clone(Stacks.New(initial))
  {
  }

  /**
   * The stack `clone()` returns no longer carries the injected function: its
   * `toArray()` copies with `deepSimpleClone`, so it hands back the clone
   * function's output unchanged rather than cloning it again.
   */
  lemma CloneDropsInjectedFunction(ist: InjectableStack)
    requires ist.cloneFn(ist.stack.elements).Success?
    ensures Stacks.ToArray(Clone(ist).value) == ist.cloneFn(ist.stack.elements)
  {
  }
}
