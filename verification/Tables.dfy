/** Finite tables with a default for absent keys; a value equal to the default is not stored. */
module Tables {

  function Get<V>(m: map<string, V>, k: string, d: V): V {
    if k in m then m[k] else d
  }

  function Put<V(==)>(m: map<string, V>, k: string, d: V, v: V): (r: map<string, V>)
    ensures Get(r, k, d) == v
    ensures forall j | j != k :: Get(r, j, d) == Get(m, j, d)
  {
    if v == Get(m, k, d) then m
    else if v == d then m - {k}
    else m[k := v]
  }

  lemma PutGet<V>(m: map<string, V>, k: string, d: V)
    ensures Put(m, k, d, Get(m, k, d)) == m
  {}

  /** No table entry spells out the default. */
  ghost predicate Lean<V(!new)>(m: map<string, V>, d: V) {
    forall k | k in m :: m[k] != d
  }

  lemma PutPut<V(!new)>(m: map<string, V>, k: string, d: V, v: V, w: V)
    requires Lean(m, d)
    ensures Put(Put(m, k, d, v), k, d, w) == Put(m, k, d, w)
  {}

  lemma PutLean<V(!new)>(m: map<string, V>, k: string, d: V, v: V)
    requires Lean(m, d)
    ensures Lean(Put(m, k, d, v), d)
  {}

  lemma PutCommutes<V>(m: map<string, V>, k: string, j: string, d: V, v: V, w: V)
    requires k != j
    ensures Put(Put(m, k, d, v), j, d, w) == Put(Put(m, j, d, w), k, d, v)
  {}
}
