/** Loops over the keys of a map. */
module Maps {

  /** Go visits the keys of a map in any order. */
  method AnyOf<T(==)>(keys: set<T>) returns (k: T)
    requires keys != {}
    ensures k in keys
  {
    k :| k in keys;
  }

  ghost predicate Merged<K, V>(merged: map<K, V>, base: map<K, V>, over: map<K, V>, todo: set<K>) {
    merged == base + (over - todo)
  }

  lemma MergeStart<K, V>(base: map<K, V>, over: map<K, V>)
    ensures Merged(base, base, over, over.Keys)
  {}

  lemma MergeStep<K, V>(merged: map<K, V>, base: map<K, V>, over: map<K, V>, todo: set<K>, k: K)
    requires k in todo && k in over && Merged(merged, base, over, todo)
    ensures Merged(merged[k := over[k]], base, over, todo - {k})
  {}

  lemma MergeEnd<K, V>(merged: map<K, V>, base: map<K, V>, over: map<K, V>)
    requires Merged(merged, base, over, {})
    ensures merged == base + over
  {
    assert over - {} == over;
  }

  /** Copy every entry of `over` into the merged map. */
  method Overlay<K(==), V>(base: map<K, V>, over: map<K, V>) returns (merged: map<K, V>)
    ensures merged == base + over
  {
    merged := base;
    var todo := over.Keys;
    MergeStart(base, over);
    while todo != {}
      invariant todo <= over.Keys && Merged(merged, base, over, todo)
      decreases |todo|
    {
      var k := AnyOf(todo);
      MergeStep(merged, base, over, todo, k);
      todo := todo - {k};
      merged := merged[k := over[k]];
    }
    MergeEnd(merged, base, over);
  }
}
