/** The `Pila` class: a last-in-first-out stack kept in a list. */
module Stacks {
  import opened Wrappers

  /** The error `desapilar` raises on an empty stack ("La pila está vacía"). */
  datatype StackError = EmptyStack

  class Stack<T> {
    /** The list behind the stack; its last element is the top. */
    var items: seq<T>

    /** A new stack is empty. */
    constructor ()
      ensures items == []
    {
      items := [];
    }

    /** `apilar`: push `x` on top. */
    method Push(x: T)
      modifies this
      ensures items == old(items) + [x]
    {
      items := items + [x];
    }

    /** `desapilar`: remove and return the top, or fail on an empty stack. */
    method Pop() returns (r: Result<T, StackError>)
      modifies this
      ensures old(items) == [] ==> r == Err(EmptyStack) && items == old(items)
      ensures old(items) != [] ==>
        r == Ok(old(items)[|old(items)| - 1]) && items == old(items)[..|old(items)| - 1]
    {
      if items == [] {
        r := Err(EmptyStack);
      } else {
        r := Ok(items[|items| - 1]);
        items := items[..|items| - 1];
      }
    }

    /** `es_vacia`. */
    method IsEmpty() returns (r: bool)
      ensures r <==> |items| == 0
    {
      r := items == [];
    }
  }
}
