# typed-stack in Dafny

A Dafny model of the two components of the `typed-stack` TypeScript library:

- **`Stack<T>`** (`src/stack/stack.ts`): an array-backed last-in-first-out container.
  Its `_elements` array is the sequence `Stacks.Stack.elements`, with index 0 at the
  bottom and the last index at the top. Every operation is a total function from
  the contents (and arguments) to the new contents and the result. The operations
  that scan (`find`, `findLast`, `forEach`, `search`, `contains`, `all`, `any`) and
  `shuffle` are methods whose loops follow the source's loops.
- **`InjectableStack<T>`** (`src/stack/injectable.stack.ts`): a `Stack` plus the clone
  function injected at construction.
- **`deepSimpleClone`** (`src/utils/deepSimpleClone.ts`) with its helpers `cloneArray`,
  `cloneObject`, `isArray`, `isObject` and `isPrimitive` (`src/utils/helpers/`). They work
  over `JsValues.Value`, an inductive datatype of JavaScript values. `cloneArray` and
  `cloneObject` are mutually recursive through `DeepClone.CloneNested`, the element and
  field dispatch the two loops share. Their termination follows the datatype's
  structural order.

Modules: `Wrappers` (Option, Result), `JsValues` (values, `typeof`, classifiers,
truthiness), `DeepClone`, `Stacks`, `InjectableStacks`.

Modelling choices:

- JavaScript truthiness is `JsValues.Truthy`. The generic stack operations that
  test truthiness (`all`, `any`, `moveDown`, `moveUp`) take it as a `truthy: T -> bool`
  parameter.
- A thrown `TypeError` is a `Result.Failure`. An `undefined` result (from `pop`, `peek`,
  `find` or `findLast`) is `Option.None`.
- The overloaded `pop(amount?)` returns `Popped.One` or `Popped.Many`, chosen by the
  source's `!amount` test (`Stacks.PopsOne`).
- `toArray` and `clone` of a plain `Stack` are stated for stacks of `Value`. At run time
  every element of a stack is a JavaScript value.
- Values are immutable datatypes, so "a structurally equal copy" is stated as equality.
- The injected `CloneFn` may throw, so it returns a `Result`.
- `shuffle` takes the `Math.random()` draws as a parameter (reals in `[0, 1)`).
  `Stacks.RandomIndex` turns each draw into the index `Math.floor(draw * (i + 1))`.

Two behaviours follow the code where the library's doc comments suggest something else:

- The doc comments of `moveDown` and `moveUp` (src/stack/stack.ts:179 and 201, "Moves the
  elements 1 position down/up", with a picture of every element moving) suggest that each
  undoes the other. The code drops a falsy moved element, so they are not always mutual
  inverses (see Findings).
- The doc comment of `deepSimpleClone` (src/utils/deepSimpleClone.ts:12 and 18-19) lists
  object literals with "no maps/sets/functions" and says a `TypeError` is thrown for an
  unsupported type. The code throws only when the top-level value is unsupported; one
  nested in an array or object is copied through unchanged.

## Model

| member | source | states |
|---|---|---|
| JsValues.IsObject | src/utils/helpers/isObject.ts:6-11 | holds exactly for plain objects and class instances; false for null, undefined, every primitive, arrays, Sets and Maps |
| JsValues.IsPrimitive | src/utils/helpers/isPrimitive.ts:6-15 | holds exactly for numbers, bigints, booleans, symbols, strings, undefined and null; false for arrays, objects, Sets, Maps and functions |
| JsValues.Classify | src/utils/deepSimpleClone.ts:21-30 | dispatch order array, then object, then primitive, then unsupported; each tag is chosen exactly when its classifier holds; unsupported exactly for Sets, Maps and functions |
| JsValues.ClassifiersDisjoint | src/utils/helpers/isObject.ts:8 | at most one of isArray, isObject and isPrimitive holds of any value |
| JsValues.Truthy | src/stack/stack.ts:197 | the JavaScript `if (v)` test: false exactly for undefined, null, false, "", 0n, NaN and the number 0; every array, object, Set, Map, function and symbol is truthy |
| DeepClone.CloneNested | src/utils/helpers/cloneArray.ts:14-23 | the per-element (and per-field) dispatch returns a value equal to its input, including Sets, Maps and functions, which are copied through without failing |
| DeepClone.CloneArray | src/utils/helpers/cloneArray.ts:11-27 | the copy of any array has the same length and is equal to it element by element at every depth; it has no failure path |
| DeepClone.CloneObject | src/utils/helpers/cloneObject.ts:13-33 | a non-object (array or primitive included) comes back unchanged; an object comes back with the same keys and equal fields at every depth |
| DeepClone.DeepSimpleClone | src/utils/deepSimpleClone.ts:21-31 | throws `TypeError("Unsupported type encountered!")` exactly for a top-level function, Set or Map; otherwise returns a value equal to the input |
| DeepClone.DeepSimpleCloneArray | src/utils/deepSimpleClone.ts:22-23 | on an array input the clone never fails and yields an equal array |
| DeepClone.TopLevelRejectsWhatNestedAccepts | src/utils/helpers/cloneObject.ts:27-28 | an unsupported value throws at top level but is copied through unchanged as an array element or an object field |
| Stacks.New | src/stack/stack.ts:50-52 | construction from an array gives count equal to its length with its last element on top, read top-down in reverse array order; no array gives an empty stack |
| Stacks.IsEmpty | src/stack/stack.ts:174-176 | true exactly when there are no elements |
| Stacks.Clear | src/stack/stack.ts:94-96 | the count afterwards is 0 |
| Stacks.Push | src/stack/stack.ts:254-256 | pushing one element at a time in argument order appends the arguments, in order, after the old contents |
| Stacks.Extend | src/stack/stack.ts:122-124 | count grows by the iterable's length; the iterable's last item is the new top, the old stack sits unchanged beneath the new items |
| Stacks.Peek | src/stack/stack.ts:226-228 | the top element, or undefined exactly when the stack is empty |
| Stacks.Splice | src/stack/stack.ts:246 | one-argument `splice`: remaining head plus removed tail is the original; a start at or past the end removes nothing |
| Stacks.Pop | src/stack/stack.ts:243-247 | no amount or 0 pops the single top element, or returns undefined and changes nothing when empty; a positive amount removes the top min(amount, count) elements, returned bottom-to-top, leaving the original prefix; a negative amount removes nothing |
| Stacks.PushThenPopSinglesIsLifo | src/stack/stack.ts:243-256 | after pushing a sequence, that many single pops return it in reverse order and restore the original stack |
| Stacks.PushThenPopManyIsInverse | src/stack/stack.ts:243-256 | pop(k) right after pushing k >= 1 elements returns exactly those elements and restores the stack |
| Stacks.PopScenario | src/__tests__/stack/stack.test.ts:74-80 | from [1,2,3,4], pop(2) gives [3,4], peek gives 2, pop(3) is clamped to [1,2] and leaves count 0 |
| Stacks.MoveDown | src/stack/stack.ts:195-198 | empty: no change; truthy bottom: it becomes the top and every other element moves one place down; falsy bottom: it is removed and the rest keep their places |
| Stacks.MoveUp | src/stack/stack.ts:216-219 | empty: no change; truthy top: it becomes the bottom and every other element moves one place up; falsy top: it is removed and the rest keep their places |
| Stacks.MoveUpUndoesMoveDown | src/stack/stack.ts:195-219 | moveUp after moveDown restores the stack if and only if it is empty or its bottom element is truthy |
| Stacks.MoveDownUndoesMoveUp | src/stack/stack.ts:195-219 | moveDown after moveUp restores the stack if and only if it is empty or its top element is truthy |
| Stacks.MoveDownDropsZero | src/stack/stack.ts:196-197 | moveDown on the numbers [0, 1] yields [1], which moveUp cannot turn back into [0, 1] |
| Stacks.MoveUpDropsZero | src/stack/stack.ts:217-218 | moveUp on the numbers [1, 0] yields [1], which moveDown cannot turn back into [1, 0] |
| Stacks.MoveDownIntended | src/stack/stack.ts:178-198 | keeps the count; the old bottom becomes the top and the others move one place down |
| Stacks.MoveUpIntended | src/stack/stack.ts:200-219 | keeps the count; the old top becomes the bottom and the others move one place up |
| Stacks.IntendedMovesAreInverses | src/stack/stack.ts:178-219 | the intended moves undo each other on every stack and agree with the source's moves whenever the moved element is truthy |
| Stacks.Rotate | src/stack/stack.ts:274-276 | the new bottom-to-top array is the old stack read top-down |
| Stacks.RotateIsInvolution | src/stack/stack.ts:274-276 | rotating twice restores the stack |
| Stacks.RotateSmallIsNoOp | src/stack/stack.ts:274-276 | rotating a stack of zero or one element changes nothing |
| Stacks.RotateKeepsElements | src/stack/stack.ts:274-276 | rotating keeps every element with its multiplicity |
| Stacks.Swap | src/stack/stack.ts:328-332 | the two top elements exchange places, every other element stays, the count is kept; fewer than two elements: no change |
| Stacks.SwapIsInvolution | src/stack/stack.ts:328-332 | swapping twice restores the stack |
| Stacks.SwapScenario | src/__tests__/stack/stack.test.ts:236-244 | from [1,2,3,4], after swap the stack reads 3, 4, 2, 1 from the top |
| Stacks.Contains | src/stack/stack.ts:113-115 | true exactly when the element occurs in the stack |
| Stacks.All | src/stack/stack.ts:67-74 | false on an empty stack; otherwise true exactly when every element is truthy |
| Stacks.Any | src/stack/stack.ts:81-88 | true exactly when some element is truthy, so false on an empty stack |
| Stacks.Find | src/stack/stack.ts:132-140 | scanning from the top with index 0 at the top, returns the first element whose predicate holds; undefined exactly when none does |
| Stacks.FindLast | src/stack/stack.ts:148-157 | the same scan, returning the last match (closest to the bottom); undefined exactly when none matches |
| Stacks.ForEach | src/stack/stack.ts:164-167 | one callback per element, top to bottom, the k-th with the element k places below the top and index k |
| Stacks.Search | src/stack/stack.ts:286-297 | all matches in top-to-bottom order; a value is in the result exactly when it is in the stack and matches |
| Stacks.RandomIndex | src/stack/stack.ts:307 | for a draw in [0, 1), `Math.floor(draw * (i + 1))` is an index between 0 and i |
| Stacks.Shuffle | src/stack/stack.ts:305-310 | the result is a permutation of the elements (same multiset, same count); with at most one element nothing changes |
| Stacks.ToArray | src/stack/stack.ts:339-341 | never throws and returns an array equal to the elements, bottom-to-top |
| Stacks.Clone | src/stack/stack.ts:103-105 | never throws and returns a stack equal to the original |
| InjectableStacks.New | src/stack/injectable.stack.ts:51-54 | stores the elements exactly as `new Stack` does; keeps the given clone function, or defaults to deepSimpleClone, which copies every array exactly and never throws |
| InjectableStacks.ToArray | src/stack/injectable.stack.ts:65-67 | a one-line delegation: returns exactly what the injected clone function makes of the elements; what that is for the default function is stated by `InjectableStacks.DefaultAgreesWithStack` |
| InjectableStacks.Clone | src/stack/injectable.stack.ts:61-63 | succeeds exactly when the clone function does; the new plain stack holds the clone function's output, and a failure is passed on unchanged |
| InjectableStacks.DefaultAgreesWithStack | src/stack/injectable.stack.ts:51-67 | with the default clone function, toArray and clone give exactly what a plain Stack with the same elements gives |
| InjectableStacks.CloneDropsInjectedFunction | src/stack/injectable.stack.ts:61-63 | the stack clone returns is a plain Stack: its toArray hands back the clone function's output unchanged |

## Left out

- Reference identity: the model does not express that a copy shares no storage with the original (the tests' `not.toBe`). Values have no aliasing here, so only structural equality is stated.
- Prototypes: a class instance is an `Object` of its own fields. That `{...object}` loses the prototype is not modelled.
- Symbol-keyed and non-enumerable fields are not modelled. An object is its own enumerable string-keyed fields.
- Cyclic values are not modelled. They make the source recurse without end and cannot be built from a datatype.
- Other built-in object kinds (Date, RegExp, typed arrays, WeakMap and so on) are not modelled. `Value` has constructors only for the kinds the source names.
- `Stacks.Shuffle`: states only that the result is a permutation, not that it is uniform. `Math.random()` is probabilistic and floating point, so its draws are a parameter.
- `pop` amounts that are not integers (a fraction, NaN, an infinity) are not modelled. The amount is an optional integer.
- `Stacks.Contains`: compares elements with Dafny's structural `==`, whereas `includes` (src/stack/stack.ts:114) compares arrays, objects, Sets, Maps and functions by reference. So `contains([1])` with a fresh array literal is false in the source but true in the model. Values carry no identity here. On primitives the two agree; SameValueZero treats NaN as equal to NaN, as `==` does on `Number(NaN)`.
- `extend`'s iterable protocol is not modelled. Its argument is a sequence.
- Callbacks passed to `find`, `findLast`, `forEach` and `search` are pure, total functions. Their side effects and exceptions are not modelled. `Stacks.ForEach` returns the sequence of calls it makes instead of calling a callback.
- An element that is itself `undefined`: the source cannot tell `pop()` and `peek()` on an empty stack from those on a stack whose top is `undefined`, nor `find` and `findLast` (src/stack/stack.ts:136, 153) finding no match from their matching an `undefined` element. The model can (`None` versus `Some(Undefined)`).
- Inherited `InjectableStack` operations are not written out a second time. They are the `Stacks` operations applied to the `stack` field, which leave `cloneFn` untouched.
- The `count` getter is `Stacks.Count`, a plain accessor.
- `isArray` is `JsValues.IsArray`, the constructor test `v.Array?`. Its facts are stated through `JsValues.Classify` and `JsValues.ClassifiersDisjoint`.
- `src/types/interfaces.ts`, `src/types/types.ts` and `rollup.config.js` are not modelled. They hold type declarations and build configuration only. `CloneFn` is `InjectableStacks.CloneFn`, and `SearchFn` is the `T -> bool` parameter of `Stacks.Search`.

## Findings

| source | as written | input that shows it | evidently intended | confidence | as-written member | corrected member |
|---|---|---|---|---|---|---|
| src/stack/stack.ts:195-198 | `if (lastElement)` pushes the shifted bottom element back only when it is truthy | a stack of the numbers [0, 1]: `moveDown()` leaves [1] and the 0 is gone | re-push the bottom element whenever the stack was not empty, as the doc comment's picture shows | high; not executed | Stacks.MoveDown, shown by Stacks.MoveDownDropsZero | Stacks.MoveDownIntended, proved by Stacks.IntendedMovesAreInverses |
| src/stack/stack.ts:216-219 | `if (firstElement)` unshifts the popped top element only when it is truthy | a stack of the numbers [1, 0]: `moveUp()` leaves [1] and the 0 is gone | unshift the top element whenever the stack was not empty | high; not executed | Stacks.MoveUp, shown by Stacks.MoveUpDropsZero | Stacks.MoveUpIntended, proved by Stacks.IntendedMovesAreInverses |
