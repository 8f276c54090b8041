/** A value that may be missing (`undefined` in the program), and a law of maps. */
module Options {
  datatype Option<+T> = None | Some(value: T)

  lemma PlusAssociative<K, V>(a: map<K, V>, b: map<K, V>, c: map<K, V>)
    ensures (a + b) + c == a + (b + c)
  {
  }
}
