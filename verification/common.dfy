/** Small shared vocabulary. */
module Common {
  /** An optional value: Python's None or a present value. */
  datatype Option<T> = None | Some(value: T)

  /**
   * A piece of text as the program builds it: a literal string, or a
   * number formatted with a fixed count of decimals ("{0:.2f}".format(v)).
   * The formatting itself is kept symbolic.
   */
  datatype Label = Literal(text: string) | Fixed(digits: nat, value: real)

  /** Concatenation regroups freely; stating it once keeps the solver from searching for it. */
  lemma Associative<T>(a: seq<T>, b: seq<T>, c: seq<T>)
    ensures (a + b) + c == a + (b + c)
  {
  }

  /** Updating a key twice keeps only the second value. */
  lemma UpdateTwice<K, V>(m: map<K, V>, k: K, v: V, w: V)
    ensures m[k := v][k := w] == m[k := w]
  {
  }

  /** Extending the value at one key, when it is there, changes no other key. */
  lemma ExtendedAt<K, V>(m: map<K, seq<V>>, at: K, extra: seq<V>, k: K)
    requires k in m
    ensures (if at in m then m[at := m[at] + extra] else m)[k] == if k == at then m[k] + extra else m[k]
  {
  }
}
