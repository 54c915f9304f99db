/** Comparison functions as sorting uses them: negative, zero or positive. */
module Comparators {

  type Comparator<!T> = (T, T) -> int

  function Sign(x: int): int { if x > 0 then 1 else if x < 0 then -1 else 0 }

  /** The comparator is consistent on the elements of s: there it is a total preorder. */
  ghost predicate Consistent<T>(s: seq<T>, f: Comparator<T>) {
    && (forall x, y :: x in s && y in s ==> Antisymmetric(f, x, y))
    && (forall x, y, z :: x in s && y in s && z in s ==> Transitive(f, x, y, z))
  }

  predicate Antisymmetric<T>(f: Comparator<T>, x: T, y: T) {
    f(x, y) > 0 <==> f(y, x) < 0
  }

  predicate Transitive<T>(f: Comparator<T>, x: T, y: T, z: T) {
    f(x, y) <= 0 && f(y, z) <= 0 ==> f(x, z) <= 0
  }
}
