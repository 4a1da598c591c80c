/** Bookkeeping of what goes into a queue and what comes out. */
module Sequences {
  /** Two conservation steps in a row are one. */
  lemma Regroup<T>(a: seq<T>, b: seq<T>, c: seq<T>, m: seq<T>, x: seq<T>, y: seq<T>, z: seq<T>)
    requires a + b == c + m && m + x == y + z
    ensures a + (b + x) == (c + y) + z
  {
    assert a + (b + x) == (a + b) + x;
    assert (c + m) + x == c + (m + x);
    assert c + (y + z) == (c + y) + z;
  }

  lemma MapsAssociate<K, V>(a: map<K, V>, b: map<K, V>, c: map<K, V>)
    ensures (a + b) + c == a + (b + c)
  {}
}
