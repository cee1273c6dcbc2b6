/** Small shared vocabulary: an optional value, the minimum of two naturals
    and a few facts about sequences, maps and multisets. */
module Common {

  /** A value that may be absent (JavaScript's `undefined`). */
  datatype Option<+T> = None | Some(value: T)

  function Min(a: nat, b: nat): nat
  {
    if a <= b then a else b
  }

  /** A second update of the same key overrides the first. */
  lemma UpdateTwice<K, V>(m: map<K, V>, k: K, a: V, b: V)
    ensures m[k := a][k := b] == m[k := b]
  {
    assert m[k := a][k := b].Keys == m[k := b].Keys;
  }

  /** Adding elements to a multiset and removing them again restores it. */
  lemma AddThenRemove<T>(h: multiset<T>, a: T, b: T)
    ensures h + multiset{a} - multiset{a} == h
    ensures h + multiset{b} - multiset{a} - multiset{b} == h - multiset{a}
  {
  }

  /** Two adjacent slices of a sequence join into one. */
  lemma SliceJoin<T>(s: seq<T>, i: nat, j: nat)
    requires i <= j <= |s|
    ensures s[..i] + s[i..j] == s[..j]
  {
  }

  /** Concatenation of sequences is associative. */
  lemma AppendAssoc<T>(a: seq<T>, b: seq<T>, c: seq<T>)
    ensures a + (b + c) == (a + b) + c
  {
  }
}
