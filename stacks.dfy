/**
 * The operand stack of the calculator (Stack.PreliminaryStack): an ordered
 * sequence of elements, bottom first, each of which knows its own size.
 * Elements are pushed and popped in bulk at the top.
 */
module Stacks {

  /** The sum of `measure` over `s`: what allSize() adds up. */
  function SumOf<T>(measure: T -> nat, s: seq<T>): (total: nat)
    ensures forall i :: 0 <= i < |s| ==> measure(s[i]) <= total
  {
    if s == [] then 0 else SumOf(measure, s[..|s| - 1]) + measure(s[|s| - 1])
  }

  /** The weighted size of two stacked sequences is the sum of their weighted sizes. */
  lemma {:induction false} SumOfAppend<T>(measure: T -> nat, s: seq<T>, t: seq<T>)
    ensures SumOf(measure, s + t) == SumOf(measure, s) + SumOf(measure, t)
  {
    if t == [] {
      assert s + t == s;
    } else {
      assert (s + t)[..|s + t| - 1] == s + t[..|t| - 1];
      SumOfAppend(measure, s, t[..|t| - 1]);
    }
  }

  /** Reverses an array in place, as Collections.reverse does with a list. */
  method Reverse<T>(a: array<T>)
    modifies a
    ensures forall k :: 0 <= k < a.Length ==> a[k] == old(a[a.Length - 1 - k])
  {
    var lo, hi := 0, a.Length;
    while lo + 1 < hi
      invariant 0 <= lo <= hi <= a.Length && lo + hi == a.Length
      invariant forall k :: 0 <= k < lo ==> a[k] == old(a[a.Length - 1 - k])
      invariant forall k :: hi <= k < a.Length ==> a[k] == old(a[a.Length - 1 - k])
      invariant forall k :: lo <= k < hi ==> a[k] == old(a[k])
    {
      a[lo], a[hi - 1] := a[hi - 1], a[lo];
      lo, hi := lo + 1, hi - 1;
    }
  }

  class OperandStack<T> {
    /** The deque, bottom first: the last element is the top of the stack. */
    var internal: seq<T>
    /** Measurable.size() of an element. */
    const measure: T -> nat

    constructor (measure: T -> nat)
      ensures internal == [] && this.measure == measure
    {
      internal := [];
      this.measure := measure;
    }

    /** The shallow count: how many elements the stack holds. */
    function Size(): (n: nat)
      reads this
      ensures n == |internal|
    {
      |internal|
    }

    /** The weighted count: the sum of the elements' own sizes. */
    function AllSize(): (w: nat)
      reads this
      ensures forall i :: 0 <= i < |internal| ==> measure(internal[i]) <= w
      ensures internal == [] ==> w == 0
    {
      SumOf(measure, internal)
    }

    /** Appends the elements of `e` at the top, one at a time, in e's order. */
    method Push(e: seq<T>)
      modifies this
      ensures internal == old(internal) + e
    {
      var i := 0;
      while i < |e|
        invariant 0 <= i <= |e|
        invariant internal == old(internal) + e[..i]
      {
        internal := internal + [e[i]];
        i := i + 1;
      }
      assert e[..|e|] == e;
    }

    /**
     * Removes the top `n` elements and returns them bottom-to-top; a count
     * below one or above the size returns nothing and changes nothing.
     */
    method Pop(n: int) returns (result: seq<T>)
      modifies this
      ensures n < 1 || n > |old(internal)| ==> result == [] && internal == old(internal)
      ensures 1 <= n <= |old(internal)| ==>
                result == old(internal)[|old(internal)| - n..] &&
                internal == old(internal)[..|old(internal)| - n]
    {
      if n < 1 || n > |internal| {
        return [];
      }
      ghost var before := internal;
      var count := 0;
      var polled: seq<T> := [];
      while count < n
        invariant 0 <= count <= n
        invariant internal == before[..|before| - count]
        invariant |polled| == count
        invariant forall i :: 0 <= i < count ==> polled[i] == before[|before| - 1 - i]
      {
        polled := polled + [internal[|internal| - 1]];
        internal := internal[..|internal| - 1];
        count := count + 1;
      }
      var buffer := new T[n](i requires 0 <= i < |polled| => polled[i]);
      Reverse(buffer);
      result := buffer[..];
      assert forall i :: 0 <= i < n ==> result[i] == before[|before| - n + i];
    }

    /** A bottom-to-top snapshot of the stack. */
    method AllElements() returns (snapshot: seq<T>)
      ensures snapshot == internal
    {
      snapshot := internal;
    }
  }

  /** Pushing a batch and popping as many elements gives the batch back and restores the stack. */
  method PushThenPop<T>(s: OperandStack<T>, xs: seq<T>) returns (popped: seq<T>)
    modifies s
    ensures popped == xs
    ensures s.internal == old(s.internal)
  {
    s.Push(xs);
    popped := s.Pop(|xs|);
    assert (old(s.internal) + xs)[..|old(s.internal)|] == old(s.internal);
  }
}
