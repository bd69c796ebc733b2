/** Small shared vocabulary: an optional value (Python's None) and order-preserving subsequences. */
module Common {

  /** A value that may be absent, as a Python field that may be None. */
  datatype Option<+T> = None | Some(value: T)

  /** `a` is obtained from `b` by deleting elements, keeping the order of the rest. */
  predicate IsSubseq<T(==)>(a: seq<T>, b: seq<T>)
    decreases |b|
  {
    if a == [] then true
    else if b == [] then false
    else if a[0] == b[0] then IsSubseq(a[1..], b[1..])
    else IsSubseq(a, b[1..])
  }
}
