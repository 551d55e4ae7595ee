/** Small shared vocabulary: an option type and a few facts about built-in collections. */
module Basics {

  datatype Option<+T> = None | Some(value: T)

  datatype Result<+T> = Ok(value: T) | Err(error: string)

  /** `m` without key `k`; the unchanged map when `k` is absent. */
  function Remove<K, V>(m: map<K, V>, k: K): (r: map<K, V>)
    ensures r.Keys == m.Keys - {k}
    ensures forall x :: x in r ==> r[x] == m[x]
  {
    map x | x in m && x != k :: m[x]
  }
}
