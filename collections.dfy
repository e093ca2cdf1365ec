/** The two mutable collections the clients build their answers in.

  `Dict` is a `Dictionary<string, V>` that entries are only ever added to or
  overwritten in: its `Values` enumerate in the order the keys were first
  inserted. A `HashSet<string>` that is only ever added to is a `seq` without
  duplicates, kept in insertion order.
 */
module Collections {
  predicate NoDup<T(==)>(s: seq<T>) {
    forall i, j | 0 <= i < j < |s| :: s[i] != s[j]
  }

  lemma NoDupAppend<T>(s: seq<T>, x: T)
    requires NoDup(s) && x !in s
    ensures NoDup(s + [x])
  {
  }

  datatype Dict<V> = Dict(keys: seq<string>, entries: map<string, V>)

  /** The element at `i` and the rest after it, seen from the slice `s[i..]`. */
  lemma SliceAt<T>(s: seq<T>, i: nat)
    requires i < |s|
    ensures s[i..][0] == s[i] && s[i..][1..] == s[i + 1..]
  {
  }

  /** Regrouping a concatenation, proved away from any context that would
      unfold the operands. */
  lemma AppendAssoc<T>(a: seq<T>, b: seq<T>, c: seq<T>)
    ensures a + (b + c) == (a + b) + c
  {
  }

  /** The keys are distinct and are exactly the dictionary's keys. */
  predicate Valid<V>(m: Dict<V>) {
    && NoDup(m.keys)
    && (forall k | k in m.entries :: k in m.keys)
    && (forall i | 0 <= i < |m.keys| :: m.keys[i] in m.entries)
  }

  function EmptyDict<V>(): (m: Dict<V>)
    ensures Valid(m) && m.entries == map[]
  {
    Dict([], map[])
  }

  /** `m[k] = v`: a new key goes to the end of the enumeration order, an
      existing key keeps its place. */
  function Put<V>(m: Dict<V>, k: string, v: V): (r: Dict<V>)
    requires Valid(m)
    ensures Valid(r)
    ensures r.entries == m.entries[k := v]
    ensures k in m.entries ==> r.keys == m.keys
    ensures k !in m.entries ==> r.keys == m.keys + [k]
  {
    if k in m.entries then Dict(m.keys, m.entries[k := v]) else Dict(m.keys + [k], m.entries[k := v])
  }

  /** `m.Values.ToList()`. */
  function Values<V>(m: Dict<V>): (r: seq<V>)
    requires Valid(m)
    ensures |r| == |m.keys|
    ensures forall i | 0 <= i < |r| :: r[i] == m.entries[m.keys[i]]
  {
    seq(|m.keys|, i requires 0 <= i < |m.keys| => m.entries[m.keys[i]])
  }
}
