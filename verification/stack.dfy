/**
 * The array-backed LIFO stack `Stack<T>` (src/stack/stack.ts).
 *
 * The stack's `_elements` array is a sequence with index 0 at the bottom and
 * the last index at the top. Every operation is a function from the current
 * contents (and its arguments) to the new contents and its result; the
 * operations that scan run as loops, like the loops of `Stack<T>`.
 */
module Stacks {
  import opened Wrappers
  import opened JsValues
  import DeepClone

  datatype Stack<T> = Stack(elements: seq<T>)

  /** The `count` getter. */
  function Count<T>(st: Stack<T>): (n: nat)
  {
    |st.elements|
  }

  /** The element `k` positions below the top: what the scanning operations see at index `k`. */
  function FromTop<T>(st: Stack<T>, k: nat): (x: T)
    requires k < Count(st)
  {
    st.elements[Count(st) - 1 - k]
  }

  /** The stack's contents read from the top down. */
  function TopDown<T>(st: Stack<T>): (r: seq<T>)
    ensures |r| == Count(st)
    ensures forall k :: 0 <= k < |r| ==> r[k] == FromTop(st, k)
  {
    seq(Count(st), k requires 0 <= k < Count(st) => FromTop(st, k))
  }

  /**
   * `new Stack(array?)`: a shallow copy of the array when one is given, so
   * the last array element is the top; an empty stack otherwise.
   */
  function New<T>(initial: Option<seq<T>>): (st: Stack<T>)
    ensures initial.None? ==> Count(st) == 0
    ensures initial.Some? ==> Count(st) == |initial.value|
    ensures initial.Some? ==> forall k :: 0 <= k < Count(st) ==> FromTop(st, k) == initial.value[|initial.value| - 1 - k]
  {
    if initial.Some? then Stack(initial.value) else Stack([])
  }

  function IsEmpty<T>(st: Stack<T>): (r: bool)
    ensures r <==> st.elements == []
  {
    Count(st) == 0
  }

  /** `clear()`. */
  function Clear<T>(st: Stack<T>): (r: Stack<T>)
    ensures Count(r) == 0
  {
    Stack([])
  }

  /** `push(...elements)`: each element is pushed in turn, in argument order. */
  function Push<T>(st: Stack<T>, elements: seq<T>): (r: Stack<T>)
    ensures r.elements == st.elements + elements
    decreases |elements|
  {
    if |elements| == 0 then st
    else Push(Stack(st.elements + [elements[0]]), elements[1..])
  }

  /** `extend(iterable)`: `push(...iterable)`. */
  function Extend<T>(st: Stack<T>, iterable: seq<T>): (r: Stack<T>)
    ensures Count(r) == Count(st) + |iterable|
    ensures forall k :: 0 <= k < |iterable| ==> FromTop(r, k) == iterable[|iterable| - 1 - k]
    ensures forall k :: 0 <= k < Count(st) ==> FromTop(r, |iterable| + k) == FromTop(st, k)
  {
    Push(st, iterable)
  }

  /** `peek()`: the top element, or `undefined` on an empty stack. */
  function Peek<T>(st: Stack<T>): (r: Option<T>)
    ensures r.None? <==> Count(st) == 0
    ensures r.Some? ==> r.value == st.elements[Count(st) - 1]
  {
    if Count(st) == 0 then None else Some(FromTop(st, 0))
  }

  /** The two result shapes of the overloaded `pop`. */
  datatype Popped<T> = One(top: Option<T>) | Many(items: seq<T>)

  /** `!amount`: `pop` takes the single-element form when no amount (or 0) is given. */
  predicate PopsOne(amount: Option<int>)
  {
    amount.None? || amount.value == 0
  }

  /**
   * `Array.prototype.splice(start)` with one argument: the removed tail and
   * the remaining head. A negative start counts from the end; a start past
   * the end removes nothing.
   */
  function Splice<T>(s: seq<T>, start: int): (r: (seq<T>, seq<T>))
    ensures r.1 + r.0 == s
    ensures start >= |s| ==> r == ([], s)
    ensures 0 <= start <= |s| ==> |r.0| == |s| - start
    ensures start < 0 ==> |r.0| == Min(-start, |s|)
  {
    var from :=
      if start < 0 then (if |s| + start < 0 then 0 else |s| + start)
      else if start > |s| then |s| else start;
    assert s[..|s|] == s;
    (s[from..], s[..from])
  }

  /**
   * `pop()` and `pop(amount)`. The single form removes the top element, or
   * changes nothing on an empty stack. A positive amount removes the top
   * `min(amount, count)` elements and returns them bottom-to-top; a negative
   * amount makes `splice` start past the end, so nothing is removed.
   */
  function Pop<T>(st: Stack<T>, amount: Option<int>): (r: (Stack<T>, Popped<T>))
    ensures PopsOne(amount) <==> r.1.One?
    ensures PopsOne(amount) && Count(st) == 0 ==> r == (st, One(None))
    ensures PopsOne(amount) && Count(st) > 0 ==>
              r.1.top == Some(FromTop(st, 0)) && r.0.elements == st.elements[..Count(st) - 1]
    ensures r.1.Many? ==> r.0.elements + r.1.items == st.elements
    ensures r.1.Many? && amount.value > 0 ==> |r.1.items| == Min(amount.value, Count(st))
    ensures r.1.Many? && amount.value < 0 ==> r == (st, Many([]))
  {
    if PopsOne(amount) then
      if Count(st) == 0 then (st, One(None))
      else (Stack(st.elements[..Count(st) - 1]), One(Some(st.elements[Count(st) - 1])))
    else
      var n := if amount.value > Count(st) then Count(st) else amount.value;
      var split := Splice(st.elements, Count(st) - n);
      (Stack(split.1), Many(split.0))
  }

  /** Calls `pop()` `n` times; the popped elements in the order they come off. */
  function PopSingles<T>(st: Stack<T>, n: nat): (r: (Stack<T>, seq<T>))
    requires n <= Count(st)
    decreases n
  {
    if n == 0 then (st, [])
    else
      var first := Pop(st, None);
      var rest := PopSingles(first.0, n - 1);
      (rest.0, [first.1.top.value] + rest.1)
  }

  /** LIFO: after pushing `es`, popping one at a time yields `es` in reverse and restores the stack. */
  lemma {:induction false} PushThenPopSinglesIsLifo<T>(st: Stack<T>, es: seq<T>)
    ensures Count(Push(st, es)) == Count(st) + |es|
    ensures PopSingles(Push(st, es), |es|) == (st, TopDown(Stack(es)))
    decreases |es|
  {
    if |es| > 0 {
      var m := |es| - 1;
      var init := es[..m];
      var pushed := Push(st, es);
      var shorter := Push(st, init);
      assert pushed.elements == shorter.elements + [es[m]] by {
        assert es == init + [es[m]];
      }
      assert Pop(pushed, None) == (shorter, One(Some(es[m])));
      PushThenPopSinglesIsLifo(st, init);
      assert TopDown(Stack(es)) == [es[m]] + TopDown(Stack(init));
    }
  }

  /** `pop(k)` right after pushing `k >= 1` elements returns exactly those elements. */
  lemma PushThenPopManyIsInverse<T>(st: Stack<T>, es: seq<T>)
    requires |es| > 0
    ensures Pop(Push(st, es), Some(|es|)) == (st, Many(es))
  {
    var r := Pop(Push(st, es), Some(|es|));
    assert r.0.elements + r.1.items == st.elements + es;
    assert |r.1.items| == |es|;
    assert r.0.elements == (r.0.elements + r.1.items)[..Count(st)];
    assert r.1.items == (r.0.elements + r.1.items)[Count(st)..];
    assert (st.elements + es)[..Count(st)] == st.elements;
    assert (st.elements + es)[Count(st)..] == es;
  }

  /** From [1, 2, 3, 4]: `pop(2)` gives [3, 4], then `peek()` gives 2, then `pop(3)` is clamped to [1, 2] and empties the stack. */
  lemma PopScenario()
    ensures var p1 := Pop(New(Some([1, 2, 3, 4])), Some(2));
            && p1.1 == Many([3, 4]) && Peek(p1.0) == Some(2)
            && var p2 := Pop(p1.0, Some(3));
               p2.1 == Many([1, 2]) && Count(p2.0) == 0
  {
    var p1 := Pop(New(Some([1, 2, 3, 4])), Some(2));
    assert p1.0.elements + p1.1.items == [1, 2, 3, 4];
    assert p1.0.elements == [1, 2];
    var p2 := Pop(p1.0, Some(3));
    assert p2.0.elements + p2.1.items == [1, 2];
  }

  /** From [1, 2, 3, 4]: after `swap()` the stack reads 3, 4, 2, 1 from the top, the order in which `pop()` returns them. */
  lemma SwapScenario()
    ensures TopDown(Swap(New(Some([1, 2, 3, 4])))) == [3, 4, 2, 1]
  {
    var swapped := Swap(New(Some([1, 2, 3, 4])));
    assert swapped.elements == [1, 2, 4, 3];
  }

  /**
   * `moveDown()`: the bottom element is shifted off and pushed on top. It is
   * pushed back only when it is truthy, so a falsy bottom element is lost.
   */
  function MoveDown<T>(st: Stack<T>, truthy: T -> bool): (r: Stack<T>)
    ensures Count(st) == 0 ==> r == st
    ensures Count(st) > 0 && truthy(st.elements[0]) ==>
              Count(r) == Count(st) && FromTop(r, 0) == FromTop(st, Count(st) - 1)
              && forall k :: 1 <= k < Count(r) ==> FromTop(r, k) == FromTop(st, k - 1)
    ensures Count(st) > 0 && !truthy(st.elements[0]) ==>
              Count(r) == Count(st) - 1 && forall k :: 0 <= k < Count(r) ==> FromTop(r, k) == FromTop(st, k)
  {
    if Count(st) == 0 then st
    else
      var bottom := st.elements[0];
      var rest := st.elements[1..];
      if truthy(bottom) then Stack(rest + [bottom]) else Stack(rest)
  }

  /**
   * `moveUp()`: the top element is popped off and unshifted at the bottom. It
   * is put back only when it is truthy, so a falsy top element is lost.
   */
  function MoveUp<T>(st: Stack<T>, truthy: T -> bool): (r: Stack<T>)
    ensures Count(st) == 0 ==> r == st
    ensures Count(st) > 0 && truthy(FromTop(st, 0)) ==>
              Count(r) == Count(st) && r.elements[0] == FromTop(st, 0)
              && forall k :: 0 <= k < Count(r) - 1 ==> FromTop(r, k) == FromTop(st, k + 1)
    ensures Count(st) > 0 && !truthy(FromTop(st, 0)) ==>
              Count(r) == Count(st) - 1 && forall k :: 0 <= k < Count(r) ==> FromTop(r, k) == FromTop(st, k + 1)
  {
    if Count(st) == 0 then st
    else
      var top := st.elements[Count(st) - 1];
      var rest := st.elements[..Count(st) - 1];
      if truthy(top) then Stack([top] + rest) else Stack(rest)
  }

  /** `moveUp()` undoes `moveDown()` exactly when the moved bottom element is truthy (or the stack is empty). */
  lemma MoveUpUndoesMoveDown<T>(st: Stack<T>, truthy: T -> bool)
    ensures MoveUp(MoveDown(st, truthy), truthy) == st <==> Count(st) == 0 || truthy(st.elements[0])
  {
    if Count(st) > 0 {
      var down := MoveDown(st, truthy);
      if truthy(st.elements[0]) {
        assert down.elements == st.elements[1..] + [st.elements[0]];
        assert FromTop(down, 0) == st.elements[0];
        assert MoveUp(down, truthy).elements == [st.elements[0]] + st.elements[1..];
        assert [st.elements[0]] + st.elements[1..] == st.elements;
      } else {
        assert Count(MoveUp(down, truthy)) < Count(st);
      }
    }
  }

  /** `moveDown()` undoes `moveUp()` exactly when the moved top element is truthy (or the stack is empty). */
  lemma MoveDownUndoesMoveUp<T>(st: Stack<T>, truthy: T -> bool)
    ensures MoveDown(MoveUp(st, truthy), truthy) == st <==> Count(st) == 0 || truthy(FromTop(st, 0))
  {
    if Count(st) > 0 {
      var n := Count(st);
      var up := MoveUp(st, truthy);
      if truthy(FromTop(st, 0)) {
        assert up.elements == [st.elements[n - 1]] + st.elements[..n - 1];
        assert up.elements[0] == st.elements[n - 1];
        assert up.elements[1..] == st.elements[..n - 1];
        assert MoveDown(up, truthy).elements == st.elements[..n - 1] + [st.elements[n - 1]];
        assert st.elements[..n - 1] + [st.elements[n - 1]] == st.elements;
      } else {
        assert Count(MoveDown(up, truthy)) < Count(st);
      }
    }
  }

  /** A stack of numbers whose bottom is 0 loses the 0 on `moveDown()`, so `moveUp()` cannot restore it. */
  lemma MoveDownDropsZero()
    ensures var st := Stack([Number(Finite(0.0)), Number(Finite(1.0))]);
            MoveDown(st, Truthy) == Stack([Number(Finite(1.0))])
            && MoveUp(MoveDown(st, Truthy), Truthy) != st
  {
    var st := Stack([Number(Finite(0.0)), Number(Finite(1.0))]);
    assert !Truthy(st.elements[0]);
    assert st.elements[1..] == [Number(Finite(1.0))];
  }

  /** A stack of numbers whose top is 0 loses the 0 on `moveUp()`, so `moveDown()` cannot restore it. */
  lemma MoveUpDropsZero()
    ensures var st := Stack([Number(Finite(1.0)), Number(Finite(0.0))]);
            MoveUp(st, Truthy) == Stack([Number(Finite(1.0))])
            && MoveDown(MoveUp(st, Truthy), Truthy) != st
  {
    var st := Stack([Number(Finite(1.0)), Number(Finite(0.0))]);
    assert !Truthy(FromTop(st, 0));
    assert st.elements[..1] == [Number(Finite(1.0))];
  }

  /** `moveDown()` as evidently intended: the bottom element always comes back on top. */
  function MoveDownIntended<T>(st: Stack<T>): (r: Stack<T>)
    ensures Count(r) == Count(st)
    ensures Count(st) > 0 ==> FromTop(r, 0) == st.elements[0]
    ensures forall k :: 1 <= k < Count(r) ==> FromTop(r, k) == FromTop(st, k - 1)
  {
    if Count(st) == 0 then st else Stack(st.elements[1..] + [st.elements[0]])
  }

  /** `moveUp()` as evidently intended: the top element always comes back at the bottom. */
  function MoveUpIntended<T>(st: Stack<T>): (r: Stack<T>)
    ensures Count(r) == Count(st)
    ensures Count(st) > 0 ==> r.elements[0] == FromTop(st, 0)
    ensures forall k :: 0 <= k < Count(r) - 1 ==> FromTop(r, k) == FromTop(st, k + 1)
  {
    if Count(st) == 0 then st else Stack([st.elements[Count(st) - 1]] + st.elements[..Count(st) - 1])
  }

  /** The intended moves are mutual inverses on every stack, and agree with the source's whenever the moved element is truthy. */
  lemma IntendedMovesAreInverses<T>(st: Stack<T>, truthy: T -> bool)
    ensures MoveUpIntended(MoveDownIntended(st)) == st
    ensures MoveDownIntended(MoveUpIntended(st)) == st
    ensures Count(st) == 0 || truthy(st.elements[0]) ==> MoveDownIntended(st) == MoveDown(st, truthy)
    ensures Count(st) == 0 || truthy(FromTop(st, 0)) ==> MoveUpIntended(st) == MoveUp(st, truthy)
  {
    if Count(st) > 0 {
      var n := Count(st);
      var down := MoveDownIntended(st);
      assert down.elements[n - 1] == st.elements[0];
      assert down.elements[..n - 1] == st.elements[1..];
      assert [st.elements[0]] + st.elements[1..] == st.elements;
      var up := MoveUpIntended(st);
      assert up.elements[0] == st.elements[n - 1];
      assert up.elements[1..] == st.elements[..n - 1];
      assert st.elements[..n - 1] + [st.elements[n - 1]] == st.elements;
    }
  }

  /** `rotate()`: the new array lists the old elements top-down, so the old top becomes the bottom. */
  function Rotate<T>(st: Stack<T>): (r: Stack<T>)
    ensures r.elements == TopDown(st)
  {
    Stack(seq(Count(st), i requires 0 <= i < Count(st) => st.elements[Count(st) - 1 - i]))
  }

  /** Rotating twice restores the stack. */
  lemma RotateIsInvolution<T>(st: Stack<T>)
    ensures Rotate(Rotate(st)) == st
  {
    var twice := Rotate(Rotate(st));
    assert forall i :: 0 <= i < Count(st) ==> twice.elements[i] == st.elements[i];
  }

  /** Rotating a stack of at most one element changes nothing. */
  lemma RotateSmallIsNoOp<T>(st: Stack<T>)
    requires Count(st) <= 1
    ensures Rotate(st) == st
  {
    assert Rotate(st).elements == st.elements;
  }

  /** Rotating keeps every element with its multiplicity. */
  lemma {:induction false} RotateKeepsElements<T>(st: Stack<T>)
    ensures multiset(Rotate(st).elements) == multiset(st.elements)
    decreases Count(st)
  {
    if Count(st) > 0 {
      var n := Count(st);
      var init := Stack(st.elements[..n - 1]);
      RotateKeepsElements(init);
      assert Rotate(st).elements == [st.elements[n - 1]] + Rotate(init).elements;
      assert st.elements == init.elements + [st.elements[n - 1]];
    }
  }

  /** `swap()`: the two top elements trade places; a stack of fewer than two is left as it is. */
  function Swap<T>(st: Stack<T>): (r: Stack<T>)
    ensures Count(r) == Count(st)
    ensures Count(st) < 2 ==> r == st
    ensures Count(st) >= 2 ==> FromTop(r, 0) == FromTop(st, 1) && FromTop(r, 1) == FromTop(st, 0)
    ensures forall k :: 2 <= k < Count(st) ==> FromTop(r, k) == FromTop(st, k)
  {
    if Count(st) < 2 then st
    else
      var n := Count(st);
      Stack(st.elements[n - 1 := st.elements[n - 2]][n - 2 := st.elements[n - 1]])
  }

  /** Swapping twice restores the stack. */
  lemma SwapIsInvolution<T>(st: Stack<T>)
    ensures Swap(Swap(st)) == st
  {
    assert Swap(Swap(st)).elements == st.elements;
  }

  /** `contains(element)`: `Array.prototype.includes`, a scan from index 0. */
  method Contains<T(==)>(st: Stack<T>, element: T) returns (r: bool)
    ensures r <==> element in st.elements
  {
    var i := 0;
    while i < Count(st)
      invariant 0 <= i <= Count(st)
      invariant element !in st.elements[..i]
    {
      if st.elements[i] == element {
        return true;
      }
      assert st.elements[..i + 1] == st.elements[..i] + [st.elements[i]];
      i := i + 1;
    }
    assert st.elements[..i] == st.elements;
    return false;
  }

  /** `all()`: false on an empty stack, otherwise whether every element is truthy. */
  method All<T>(st: Stack<T>, truthy: T -> bool) returns (r: bool)
    ensures r <==> Count(st) > 0 && forall i :: 0 <= i < Count(st) ==> truthy(st.elements[i])
  {
    if Count(st) == 0 {
      return false;
    }
    var i := 0;
    while i < Count(st)
      invariant 0 <= i <= Count(st)
      invariant forall k :: 0 <= k < i ==> truthy(st.elements[k])
    {
      if !truthy(st.elements[i]) {
        return false;
      }
      i := i + 1;
    }
    return true;
  }

  /** `any()`: whether some element is truthy (so false on an empty stack). */
  method Any<T>(st: Stack<T>, truthy: T -> bool) returns (r: bool)
    ensures r <==> exists i :: 0 <= i < Count(st) && truthy(st.elements[i])
  {
    if Count(st) == 0 {
      return false;
    }
    var i := 0;
    while i < Count(st)
      invariant 0 <= i <= Count(st)
      invariant forall k :: 0 <= k < i ==> !truthy(st.elements[k])
    {
      if truthy(st.elements[i]) {
        return true;
      }
      i := i + 1;
    }
    return false;
  }

  /**
   * `find(predicateFn)`: scans from the top, passing each element with its
   * distance from the top, and returns the first element that matches.
   */
  method Find<T>(st: Stack<T>, predicateFn: (T, nat) -> bool) returns (r: Option<T>)
    ensures r.None? <==> forall k :: 0 <= k < Count(st) ==> !predicateFn(FromTop(st, k), k)
    ensures r.Some? ==> exists k :: 0 <= k < Count(st) && r.value == FromTop(st, k) && predicateFn(FromTop(st, k), k)
                                    && forall j :: 0 <= j < k ==> !predicateFn(FromTop(st, j), j)
  {
    var start := Count(st) - 1;
    var i := start;
    while i >= 0
      invariant -1 <= i <= start
      invariant forall j :: 0 <= j < start - i ==> !predicateFn(FromTop(st, j), j)
    {
      var element := st.elements[i];
      if predicateFn(element, start - i) {
        assert element == FromTop(st, start - i);
        return Some(element);
      }
      i := i - 1;
    }
    return None;
  }

  /**
   * `findLast(predicateFn)`: the same scan, remembering the latest match, so
   * the result is the match closest to the bottom.
   */
  method FindLast<T>(st: Stack<T>, predicateFn: (T, nat) -> bool) returns (r: Option<T>)
    ensures r.None? <==> forall k :: 0 <= k < Count(st) ==> !predicateFn(FromTop(st, k), k)
    ensures r.Some? ==> exists k :: 0 <= k < Count(st) && r.value == FromTop(st, k) && predicateFn(FromTop(st, k), k)
                                    && forall j :: k < j < Count(st) ==> !predicateFn(FromTop(st, j), j)
  {
    var found: Option<T> := None;
    ghost var foundAt: nat := 0;
    var start := Count(st) - 1;
    var i := start;
    while i >= 0
      invariant -1 <= i <= start
      invariant found.None? <==> forall j :: 0 <= j < start - i ==> !predicateFn(FromTop(st, j), j)
      invariant found.Some? ==> foundAt < start - i && found.value == FromTop(st, foundAt)
                                && predicateFn(FromTop(st, foundAt), foundAt)
                                && forall j :: foundAt < j < start - i ==> !predicateFn(FromTop(st, j), j)
    {
      var element := st.elements[i];
      assert element == FromTop(st, start - i);
      if predicateFn(element, start - i) {
        found := Some(element);
        foundAt := start - i;
      }
      i := i - 1;
    }
    return found;
  }

  /** `forEach(callbackFn)`: the calls made, in order, each an element and its distance from the top. */
  method ForEach<T>(st: Stack<T>) returns (calls: seq<(T, nat)>)
    ensures |calls| == Count(st)
    ensures forall k :: 0 <= k < |calls| ==> calls[k] == (FromTop(st, k), k)
  {
    calls := [];
    var start := Count(st) - 1;
    var i := start;
    while i >= 0
      invariant -1 <= i <= start
      invariant |calls| == start - i
      invariant forall k :: 0 <= k < |calls| ==> calls[k] == (FromTop(st, k), k)
    {
      calls := calls + [(st.elements[i], start - i)];
      i := i - 1;
    }
  }

  /** The elements of `xs` that satisfy `f`, in their order in `xs`. */
  function Filter<T>(xs: seq<T>, f: T -> bool): (r: seq<T>)
    ensures |r| <= |xs|
    ensures forall i :: 0 <= i < |r| ==> f(r[i])
  {
    if |xs| == 0 then []
    else Filter(xs[..|xs| - 1], f) + (if f(xs[|xs| - 1]) then [xs[|xs| - 1]] else [])
  }

  /** Exactly the members of `xs` that satisfy `f` survive `Filter`. */
  lemma {:induction false} FilterMembers<T>(xs: seq<T>, f: T -> bool, x: T)
    ensures x in Filter(xs, f) <==> x in xs && f(x)
    decreases |xs|
  {
    if |xs| > 0 {
      var init := xs[..|xs| - 1];
      FilterMembers(init, f, x);
      assert xs == init + [xs[|xs| - 1]];
    }
  }

  /**
   * `search(searchFn)`: every matching element, top-down. An element is in
   * the result exactly when it is in the stack and matches.
   */
  method Search<T>(st: Stack<T>, searchFn: T -> bool) returns (found: seq<T>)
    ensures found == Filter(TopDown(st), searchFn)
    ensures forall x :: x in found <==> x in st.elements && searchFn(x)
  {
    found := [];
    var start := Count(st) - 1;
    var i := start;
    ghost var view := TopDown(st);
    while i >= 0
      invariant -1 <= i <= start
      invariant found == Filter(view[..start - i], searchFn)
    {
      var element := st.elements[i];
      assert view[..start - i + 1][..start - i] == view[..start - i];
      if searchFn(element) {
        found := found + [element];
      }
      i := i - 1;
    }
    assert view[..start - i] == view;
    forall x
      ensures x in found <==> x in st.elements && searchFn(x)
    {
      FilterMembers(view, searchFn, x);
      RotateKeepsElements(st);
      assert x in view <==> x in multiset(st.elements);
    }
  }

  /** `Math.floor(Math.random() * (i + 1))` for a draw `x` of `Math.random()`: an index in `[0, i]`. */
  function RandomIndex(x: real, i: nat): (j: nat)
    requires 0.0 <= x < 1.0
    ensures j <= i
  {
    var n := (i + 1) as real;
    ScaledDrawInRange(x, n);
    (x * n).Floor
  }

  /** A draw in `[0, 1)` scaled by a positive `n` lies in `[0, n)`. */
  lemma ScaledDrawInRange(x: real, n: real)
    requires 0.0 <= x < 1.0 && 0.0 < n
    ensures 0.0 <= x * n < n
  {
    var gap := 1.0 - x;
    assert 0.0 < gap;
    assert 0.0 < gap * n;
    assert n - x * n == gap * n;
  }

  /**
   * `shuffle()`: the Durstenfeld form of the Fisher–Yates shuffle. The
   * `Math.random()` draws are a parameter, consumed one per step from the top
   * index down to 1.
   */
  method Shuffle<T>(st: Stack<T>, draws: seq<real>) returns (r: Stack<T>)
    requires Count(st) <= |draws| + 1
    requires forall t :: 0 <= t < |draws| ==> 0.0 <= draws[t] < 1.0
    ensures multiset(r.elements) == multiset(st.elements)
    ensures Count(st) <= 1 ==> r == st
  {
    var a := st.elements;
    var i := |a| - 1;
    while i > 0
      invariant i < |a| == Count(st)
      invariant multiset(a) == multiset(st.elements)
      invariant Count(st) <= 1 ==> a == st.elements
    {
      var j := RandomIndex(draws[|a| - 1 - i], i);
      a := a[i := a[j]][j := a[i]];
      i := i - 1;
    }
    r := Stack(a);
  }

  /** `toArray()`: `deepSimpleClone` of the elements, bottom-to-top; it cannot fail and yields an equal array. */
  function ToArray(st: Stack<Value>): (r: Result<seq<Value>, DeepClone.CloneError>)
    ensures r == Success(st.elements)
  {
    DeepClone.DeepSimpleCloneArray(st.elements)
  }

  /** `clone()`: a new stack built from `deepSimpleClone` of the elements; it cannot fail and equals the original. */
  function Clone(st: Stack<Value>): (r: Result<Stack<Value>, DeepClone.CloneError>)
    ensures r == Success(st)
  {
    match DeepClone.DeepSimpleCloneArray(st.elements)
    case Success(copy) => Success(New(Some(copy)))
    case Failure(e) => Failure(e)
  }
}
