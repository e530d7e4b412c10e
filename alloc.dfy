/** Heap growth shared by the line buffer and the token array. */
module Alloc {

  /** realloc: a fresh, larger array whose first part is the old contents. */
  method Realloc<T>(a: array<T>, size: nat, fill: T) returns (b: array<T>)
    requires a.Length <= size
    ensures fresh(b) && b.Length == size
    ensures forall i :: 0 <= i < a.Length ==> b[i] == a[i]
  {
    b := new T[size](_ => fill);
    forall i | 0 <= i < a.Length {
      b[i] := a[i];
    }
  }
}
