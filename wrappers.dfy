/** Option and the default-inserting lookup that std::map's operator[] performs. */
module Wrappers {

  datatype Option<+T> = None | Some(value: T)

  /** The value stored under `k`, or `default` when `k` is absent (what
      `m[k]` reads for a key std::map has not seen yet). */
  function ValueOr<K, V>(m: map<K, V>, k: K, default: V): V
  {
    if k in m then m[k] else default
  }
}
