/** Values shared by every part of the model: optional values, database rows,
    and PHP's notion of an "empty" timestamp. */
module Base {

  /** A value that may be absent: PHP's `null`/`false` results become None. */
  datatype Option<+T> = None | Some(value: T)

  /** A fetched database row: column name to value. A column that is NULL, or
      that the row does not have, is not a key of the map (PHP's isset fails). */
  type Row = map<string, int>

  /** Map lookup that reports absence instead of failing. */
  function Get<K, V>(m: map<K, V>, k: K): (r: Option<V>)
    ensures r.Some? <==> k in m
    ensures r.Some? ==> r.value == m[k]
  {
    if k in m then Some(m[k]) else None
  }

  /** `intval` of an optional count: an absent count reads as 0. */
  function OrZero(v: Option<int>): int
  {
    match v
    case Some(n) => n
    case None => 0
  }

  /** PHP's empty() on a nullable timestamp: NULL and 0 are both empty. */
  predicate Empty(v: Option<int>)
  {
    v.None? || v.value == 0
  }
}
