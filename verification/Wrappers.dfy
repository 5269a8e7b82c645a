/** What several modules share. */
module Wrappers {
  datatype Option<+T> = None | Some(value: T)

  /** Every entry of one map is an entry of the other. */
  ghost predicate Grows<K, V>(a: map<K, V>, b: map<K, V>) {
    forall k :: k in a ==> k in b && b[k] == a[k]
  }
}
