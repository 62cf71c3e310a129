/** The `HashMap<String, ItemGroupTag>` that both the backpack insert and the
    schema-154 regrouping build, and the list `map.values().collect()` makes
    of it. A `HashMap` iterates in an unspecified order, so the list is only
    known up to order: it holds each value of the map exactly once. */
module ItemGroupMap {
  import opened PersonModel

  /** Every entry is stored under its own key, as both builders do. */
  predicate KeyedByKey(m: map<string, ItemGroupTag>) {
    forall k :: k in m ==> m[k].key == k
  }

  /** `list` holds every value of `m` once, in some order. */
  predicate Enumerates(list: seq<ItemGroupTag>, m: map<string, ItemGroupTag>) {
    && |list| == |m|
    && UniqueKeys(list)
    && (forall i :: 0 <= i < |list| ==> list[i].key in m && m[list[i].key] == list[i])
  }

  /** `map.values().map(|item| item.clone()).collect()`: the order in which
      values are taken is left open (`:|` chooses). */
  method CollectValues(m: map<string, ItemGroupTag>) returns (list: seq<ItemGroupTag>)
    requires KeyedByKey(m)
    ensures Enumerates(list, m)
  {
    var rest := m.Keys;
    list := [];
    while rest != {}
      invariant rest <= m.Keys
      invariant UniqueKeys(list)
      invariant forall i :: 0 <= i < |list| ==> list[i].key in m && m[list[i].key] == list[i] && list[i].key !in rest
      invariant |list| + |rest| == |m|
      decreases |rest|
    {
      var k :| k in rest;
      list := list + [m[k]];
      rest := rest - {k};
    }
  }

  /** The listed entries carry exactly the keys of the map. */
  lemma EnumeratesKeySet(list: seq<ItemGroupTag>, m: map<string, ItemGroupTag>)
    requires Enumerates(list, m)
    ensures KeySet(list) == m.Keys
  {
    var ks := KeySet(list);
    assert ks <= m.Keys;
    KeySetSizeUnique(list);
    assert |m.Keys - ks| == |m.Keys| - |ks| == 0;
  }

  /** Each key of the map is found at some position of the list. */
  lemma EnumeratesFind(list: seq<ItemGroupTag>, m: map<string, ItemGroupTag>, k: string) returns (i: nat)
    requires Enumerates(list, m)
    requires k in m
    ensures i < |list| && list[i] == m[k]
  {
    EnumeratesKeySet(list, m);
    assert k in KeySet(list);
    var j :| 0 <= j < |list| && list[j].key == k;
    i := j;
  }
}
