/** Two facts about maps that the store's proofs use on its tables. */
module Maps {

  /** A map that agrees with `b` on the same keys except at `c`, where it holds `v`, is `b` updated at `c`. */
  lemma OnlyChanged<K, V>(a: map<K, V>, b: map<K, V>, c: K, v: V)
    requires a.Keys == b.Keys && c in b && a[c] == v
    requires forall k :: k in a && k != c ==> a[k] == b[k]
    ensures a == b[c := v]
  {
  }

  /** A second update at the same key replaces the first. */
  lemma UpdatedTwice<K, V>(m: map<K, V>, c: K, v: V, w: V)
    ensures m[c := v][c := w] == m[c := w]
  {
  }
}
