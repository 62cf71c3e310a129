/** Writing a `.person` file (src/person/save.rs): the canonical event
    layout, and the in-memory part of the three batch mutations that end in
    a write-back (insert into backpack, delete by key, change soldier group). */
module PersonSave {
  import opened Wrappers
  import opened Numerals
  import opened XmlEvents
  import opened PersonModel
  import opened ItemGroupMap

  // ---------------------------------------------------------------------
  // The layout `save_person` writes
  // ---------------------------------------------------------------------

  const PersonAttrKeys: seq<string> := [
    "max_authority_reached", "authority", "job_points", "faction", "name", "version",
    "alive", "soldier_group_id", "soldier_group_name", "block", "squad_size_setting"]
  const OrderAttrKeys: seq<string> := ["moving", "target", "class"]
  const ItemAttrKeys: seq<string> := ["slot", "index", "amount", "key"]
  const GroupAttrKeys: seq<string> := ["class", "index", "key", "amount"]

  function PersonAttrs(p: Person, fs: FloatSyntax): seq<Attr> {
    [ Attr("max_authority_reached", fs.show(p.maxAuthorityReached)),
      Attr("authority", fs.show(p.authority)),
      Attr("job_points", fs.show(p.jobPoints)),
      Attr("faction", p.faction),
      Attr("name", p.name),
      Attr("version", ShowInt(p.version)),
      Attr("alive", ShowInt(p.alive)),
      Attr("soldier_group_id", ShowInt(p.soldierGroupId)),
      Attr("soldier_group_name", p.soldierGroupName),
      Attr("block", p.block),
      Attr("squad_size_setting", fs.show(p.squadSizeSetting)) ]
  }

  function OrderAttrs(o: OrderTag): seq<Attr> {
    [Attr("moving", ShowInt(o.moving)), Attr("target", o.target), Attr("class", ShowInt(o.classId))]
  }

  function ItemAttrs(it: ItemTag): seq<Attr> {
    [Attr("slot", ShowInt(it.slot)), Attr("index", ShowInt(it.index)),
     Attr("amount", ShowInt(it.amount)), Attr("key", it.key)]
  }

  function GroupAttrs(g: ItemGroupTag): seq<Attr> {
    [Attr("class", ShowInt(g.classId)), Attr("index", ShowInt(g.index)),
     Attr("key", g.key), Attr("amount", ShowInt(g.amount))]
  }

  function CapacityAttrs(capacity: U16): seq<Attr> {
    [Attr("hard_capacity", ShowInt(capacity))]
  }

  function ItemEvents(items: seq<ItemTag>): (evs: seq<Event>)
    ensures |evs| == |items|
  {
    seq(|items|, i requires 0 <= i < |items| => Empty("item", ItemAttrs(items[i])))
  }

  function GroupEvents(groups: seq<ItemGroupTag>): (evs: seq<Event>)
    ensures |evs| == |groups|
  {
    seq(|groups|, i requires 0 <= i < |groups| => Empty("item_group", GroupAttrs(groups[i])))
  }

  function StashEvents(p: Person): seq<Event> {
    [Start("stash", CapacityAttrs(p.stashHardCapacity))] + GroupEvents(p.stashItemList) + [End("stash")]
  }

  function BackpackEvents(p: Person): seq<Event> {
    if |p.backpackItemList| == 0 then [Empty("backpack", CapacityAttrs(p.backpackHardCapacity))]
    else [Start("backpack", CapacityAttrs(p.backpackHardCapacity))] + GroupEvents(p.backpackItemList) + [End("backpack")]
  }

  /** The whole stream `save_person` hands to the writer. */
  function PersonLayout(p: Person, fs: FloatSyntax): seq<Event> {
    [Start("person", PersonAttrs(p, fs)), Empty("order", OrderAttrs(p.order))]
    + ItemEvents(p.itemList) + StashEvents(p) + BackpackEvents(p) + [End("person")]
  }

  lemma ItemEventsSnoc(items: seq<ItemTag>, i: nat)
    requires i < |items|
    ensures ItemEvents(items[..i + 1]) == ItemEvents(items[..i]) + [Empty("item", ItemAttrs(items[i]))]
  {
  }

  lemma GroupEventsSnoc(groups: seq<ItemGroupTag>, i: nat)
    requires i < |groups|
    ensures GroupEvents(groups[..i + 1]) == GroupEvents(groups[..i]) + [Empty("item_group", GroupAttrs(groups[i]))]
  {
  }

  lemma GroupEventsCons(groups: seq<ItemGroupTag>)
    requires groups != []
    ensures GroupEvents(groups)[0] == Empty("item_group", GroupAttrs(groups[0]))
    ensures GroupEvents(groups)[1..] == GroupEvents(groups[1..])
  {
  }

  /** The `for item in p.item_list.iter()` loop of `save_person`. */
  method WriteItems(items: seq<ItemTag>) returns (evs: seq<Event>)
    ensures evs == ItemEvents(items)
  {
    evs := [];
    for i := 0 to |items|
      invariant evs == ItemEvents(items[..i])
    {
      ItemEventsSnoc(items, i);
      evs := evs + [Empty("item", ItemAttrs(items[i]))];
    }
    assert items[..|items|] == items;
  }

  /** The `item_group` loops of `save_person`, for stash and backpack. */
  method WriteGroups(groups: seq<ItemGroupTag>) returns (evs: seq<Event>)
    ensures evs == GroupEvents(groups)
  {
    evs := [];
    for i := 0 to |groups|
      invariant evs == GroupEvents(groups[..i])
    {
      GroupEventsSnoc(groups, i);
      evs := evs + [Empty("item_group", GroupAttrs(groups[i]))];
    }
    assert groups[..|groups|] == groups;
  }

  /** `save_person`: writes the events one after the other. */
  method SavePerson(p: Person, fs: FloatSyntax) returns (out: seq<Event>)
    ensures out == PersonLayout(p, fs)
  {
    out := [Start("person", PersonAttrs(p, fs)), Empty("order", OrderAttrs(p.order))];
    var items := WriteItems(p.itemList);
    out := out + items;
    var stash := WriteGroups(p.stashItemList);
    out := out + ([Start("stash", CapacityAttrs(p.stashHardCapacity))] + stash + [End("stash")]);
    if |p.backpackItemList| == 0 {
      out := out + [Empty("backpack", CapacityAttrs(p.backpackHardCapacity))];
    } else {
      var backpack := WriteGroups(p.backpackItemList);
      out := out + ([Start("backpack", CapacityAttrs(p.backpackHardCapacity))] + backpack + [End("backpack")]);
    }
    out := out + [End("person")];
  }

  /** The head of the layout: the person start tag with its eleven
      attributes in their fixed order, exactly one self-closing `order`, then
      one self-closing `item` per equipped item, in list order. */
  lemma LayoutHead(p: Person, fs: FloatSyntax)
    ensures var out, n := PersonLayout(p, fs), |p.itemList|;
      && |out| == 2 + n + |StashEvents(p)| + |BackpackEvents(p)| + 1
      && out[0] == Start("person", PersonAttrs(p, fs))
      && Keys(out[0].attrs) == PersonAttrKeys
      && out[1] == Empty("order", OrderAttrs(p.order))
      && Keys(out[1].attrs) == OrderAttrKeys
      && (forall i :: 0 <= i < n ==> out[2 + i] == Empty("item", ItemAttrs(p.itemList[i])))
      && (forall i :: 0 <= i < n ==> Keys(ItemAttrs(p.itemList[i])) == ItemAttrKeys)
  {
    var out, n := PersonLayout(p, fs), |p.itemList|;
    var head := [Start("person", PersonAttrs(p, fs)), Empty("order", OrderAttrs(p.order))];
    assert out == head + ItemEvents(p.itemList) + (StashEvents(p) + BackpackEvents(p) + [End("person")]);
    forall i | 0 <= i < n
      ensures out[2 + i] == Empty("item", ItemAttrs(p.itemList[i]))
    {
      assert out[2 + i] == ItemEvents(p.itemList)[i];
    }
    HeadKeys(p, fs);
  }

  /** The attribute names the head's tags carry, in their fixed order. */
  lemma HeadKeys(p: Person, fs: FloatSyntax)
    ensures Keys(PersonAttrs(p, fs)) == PersonAttrKeys
    ensures Keys(OrderAttrs(p.order)) == OrderAttrKeys
    ensures forall i :: 0 <= i < |p.itemList| ==> Keys(ItemAttrs(p.itemList[i])) == ItemAttrKeys
  {
  }

  /** The stash: always an open/close pair carrying `hard_capacity`, even
      when empty, around one self-closing `item_group` per stash entry in
      list order. */
  lemma LayoutStash(p: Person, fs: FloatSyntax)
    ensures var out, n, s := PersonLayout(p, fs), |p.itemList|, |p.stashItemList|;
      && |out| > 3 + n + s
      && out[2 + n] == Start("stash", [Attr("hard_capacity", ShowInt(p.stashHardCapacity))])
      && (forall j :: 0 <= j < s ==> out[3 + n + j] == Empty("item_group", GroupAttrs(p.stashItemList[j])))
      && (forall j :: 0 <= j < s ==> Keys(GroupAttrs(p.stashItemList[j])) == GroupAttrKeys)
      && out[3 + n + s] == End("stash")
  {
    var out, n, s := PersonLayout(p, fs), |p.itemList|, |p.stashItemList|;
    var head := [Start("person", PersonAttrs(p, fs)), Empty("order", OrderAttrs(p.order))] + ItemEvents(p.itemList);
    assert out == head + StashEvents(p) + (BackpackEvents(p) + [End("person")]);
    forall j | 0 <= j < s
      ensures out[3 + n + j] == Empty("item_group", GroupAttrs(p.stashItemList[j]))
    {
      assert out[3 + n + j] == StashEvents(p)[1 + j];
    }
    assert out[2 + n] == StashEvents(p)[0];
    assert out[3 + n + s] == StashEvents(p)[1 + s];
  }

  /** The backpack and the end: a self-closing `backpack` exactly when the
      backpack list is empty, otherwise an open/close pair around one
      `item_group` per entry in list order; the stream ends by closing
      `person`. */
  lemma LayoutBackpack(p: Person, fs: FloatSyntax)
    ensures var out, m, b := PersonLayout(p, fs), 4 + |p.itemList| + |p.stashItemList|, |p.backpackItemList|;
      && |out| == (if b == 0 then m + 2 else m + 3 + b)
      && (out[m].Empty? <==> b == 0)
      && (b == 0 ==> out[m] == Empty("backpack", [Attr("hard_capacity", ShowInt(p.backpackHardCapacity))]))
      && (b > 0 ==> out[m] == Start("backpack", [Attr("hard_capacity", ShowInt(p.backpackHardCapacity))]))
      && (forall k :: 0 <= k < b ==> out[m + 1 + k] == Empty("item_group", GroupAttrs(p.backpackItemList[k])))
      && (b > 0 ==> out[m + 1 + b] == End("backpack"))
      && out[|out| - 1] == End("person")
  {
    var head := [Start("person", PersonAttrs(p, fs)), Empty("order", OrderAttrs(p.order))] + ItemEvents(p.itemList) + StashEvents(p);
    assert |head| == 4 + |p.itemList| + |p.stashItemList|;
    assert PersonLayout(p, fs) == head + BackpackEvents(p) + [End("person")];
    BackpackAfter(head, p);
  }

  lemma BackpackAfter(head: seq<Event>, p: Person)
    ensures var out, m, b := head + BackpackEvents(p) + [End("person")], |head|, |p.backpackItemList|;
      && |out| == (if b == 0 then m + 2 else m + 3 + b)
      && (out[m].Empty? <==> b == 0)
      && (b == 0 ==> out[m] == Empty("backpack", [Attr("hard_capacity", ShowInt(p.backpackHardCapacity))]))
      && (b > 0 ==> out[m] == Start("backpack", [Attr("hard_capacity", ShowInt(p.backpackHardCapacity))]))
      && (forall k :: 0 <= k < b ==> out[m + 1 + k] == Empty("item_group", GroupAttrs(p.backpackItemList[k])))
      && (b > 0 ==> out[m + 1 + b] == End("backpack"))
      && out[|out| - 1] == End("person")
  {
    var b := |p.backpackItemList|;
    var cap := CapacityAttrs(p.backpackHardCapacity);
    if b == 0 {
      assert head + BackpackEvents(p) + [End("person")] == head + [Empty("backpack", cap), End("person")];
    } else {
      BackpackAfterFull(head, p);
    }
  }

  lemma BackpackAfterFull(head: seq<Event>, p: Person)
    requires |p.backpackItemList| > 0
    ensures var out, m, b := head + BackpackEvents(p) + [End("person")], |head|, |p.backpackItemList|;
      && |out| == m + 3 + b
      && out[m] == Start("backpack", CapacityAttrs(p.backpackHardCapacity))
      && (forall k :: 0 <= k < b ==> out[m + 1 + k] == Empty("item_group", GroupAttrs(p.backpackItemList[k])))
      && out[m + 1 + b] == End("backpack")
      && out[|out| - 1] == End("person")
  {
    var m, b := |head|, |p.backpackItemList|;
    var gs := GroupEvents(p.backpackItemList);
    var out := head + [Start("backpack", CapacityAttrs(p.backpackHardCapacity))] + gs + [End("backpack"), End("person")];
    assert head + BackpackEvents(p) + [End("person")] == out;
    forall k | 0 <= k < b
      ensures out[m + 1 + k] == Empty("item_group", GroupAttrs(p.backpackItemList[k]))
    {
      assert out[m + 1 + k] == gs[k];
    }
  }

  /** The indent the writer gives an event inside the person element:
      one level for the person's children, two for the stacks inside
      `stash` and `backpack`. */
  function InnerIndent(e: Event): nat {
    if e.Empty? && e.name == "item_group" then 2 * IndentWidth else IndentWidth
  }

  /** `evs`, written inside the person element, gets the inner indents and
      leaves the writer one level deep. */
  predicate IndentedInside(evs: seq<Event>) {
    && DepthAfter(evs, 1) == 1
    && forall i :: 0 <= i < |evs| ==> IndentsFrom(evs, 1)[i] == InnerIndent(evs[i])
  }

  lemma IndentedInsideAppend(a: seq<Event>, b: seq<Event>)
    requires IndentedInside(a) && IndentedInside(b)
    ensures IndentedInside(a + b)
  {
    IndentsFromAppend(a, b, 1);
    assert forall i :: 0 <= i < |a| ==> (a + b)[i] == a[i];
    assert forall i :: |a| <= i < |a + b| ==> (a + b)[i] == b[i - |a|];
  }

  lemma IndentedTagRun(evs: seq<Event>)
    requires forall i :: 0 <= i < |evs| ==> evs[i].Empty? && evs[i].name != "item_group"
    ensures IndentedInside(evs)
  {
    IndentsOfEmptyTags(evs, 1);
  }

  /** A stash or backpack element with its stacks inside. */
  lemma IndentedContainer(name: string, attrs: seq<Attr>, groups: seq<ItemGroupTag>)
    ensures IndentedInside([Start(name, attrs)] + GroupEvents(groups) + [End(name)])
  {
    var g := GroupEvents(groups);
    IndentsOfEmptyTags(g, 2);
    IndentsFromAppend([Start(name, attrs)], g, 1);
    IndentsFromAppend([Start(name, attrs)] + g, [End(name)], 1);
    var all := [Start(name, attrs)] + g + [End(name)];
    assert forall i :: 1 <= i <= |g| ==> all[i] == g[i - 1];
  }

  /** Everything between the person start and end tags. */
  function PersonBody(p: Person): seq<Event> {
    [Empty("order", OrderAttrs(p.order))] + ItemEvents(p.itemList) + StashEvents(p) + BackpackEvents(p)
  }

  lemma BodyIndented(p: Person)
    ensures IndentedInside(PersonBody(p))
  {
    var head := [Empty("order", OrderAttrs(p.order))];
    var items := ItemEvents(p.itemList);
    IndentedTagRun(head);
    IndentedTagRun(items);
    IndentedContainer("stash", CapacityAttrs(p.stashHardCapacity), p.stashItemList);
    if |p.backpackItemList| == 0 {
      IndentedTagRun(BackpackEvents(p));
    } else {
      IndentedContainer("backpack", CapacityAttrs(p.backpackHardCapacity), p.backpackItemList);
    }
    IndentedInsideAppend(head, items);
    IndentedInsideAppend(head + items, StashEvents(p));
    IndentedInsideAppend(head + items + StashEvents(p), BackpackEvents(p));
  }

  /** An element at the margin around a correctly indented body. */
  lemma WrappedIndents(first: Event, inner: seq<Event>, last: Event)
    requires first.Start? && last.End?
    requires IndentedInside(inner)
    ensures var out := [first] + inner + [last];
      && Indents(out)[0] == 0
      && Indents(out)[|out| - 1] == 0
      && forall i :: 0 < i < |out| - 1 ==> Indents(out)[i] == InnerIndent(out[i])
  {
    var out := [first] + inner + [last];
    IndentsFromAppend([first], inner, 0);
    IndentsFromAppend([first] + inner, [last], 0);
    var ind := Indents(out);
    assert ind == [0] + IndentsFrom(inner, 1) + [0];
    forall i | 0 < i < |out| - 1
      ensures ind[i] == InnerIndent(out[i])
    {
      assert out[i] == inner[i - 1];
      assert ind[i] == IndentsFrom(inner, 1)[i - 1];
    }
  }

  /** The written file is indented by four spaces per level: the person tags
      sit at the margin, their children one level in, and the stacks inside
      `stash` and `backpack` two levels in. */
  lemma LayoutIndents(p: Person, fs: FloatSyntax)
    ensures var out := PersonLayout(p, fs);
      && Indents(out)[0] == 0
      && Indents(out)[|out| - 1] == 0
      && forall i :: 0 < i < |out| - 1 ==> Indents(out)[i] == InnerIndent(out[i])
  {
    BodyIndented(p);
    assert PersonLayout(p, fs) == [Start("person", PersonAttrs(p, fs))] + PersonBody(p) + [End("person")];
    WrappedIndents(Start("person", PersonAttrs(p, fs)), PersonBody(p), End("person"));
  }

  // ---------------------------------------------------------------------
  // insert_person_list_backpack_to_file: merge into the backpack
  // ---------------------------------------------------------------------

  /** The insert's capacity gate: every existing amount plus every incoming
      amount, against the backpack capacity. */
  predicate InsertOverflows(p: Person, items: seq<ItemGroupTag>) {
    SumAmounts(p.backpackItemList) + SumAmounts(items) > p.backpackHardCapacity
  }

  /** The map after `for send_item in item_list { map.insert(key, item) }`:
      a later incoming entry with the same key replaces an earlier one. */
  function SeedMap(items: seq<ItemGroupTag>): (m: map<string, ItemGroupTag>)
    ensures KeyedByKey(m)
  {
    if items == [] then map[]
    else SeedMap(items[..|items| - 1])[items[|items| - 1].key := items[|items| - 1]]
  }

  /** One `entry(key).and_modify(|item| item.amount += amount).or_insert(entry)`. */
  function AddToStack(m: map<string, ItemGroupTag>, e: ItemGroupTag): (r: map<string, ItemGroupTag>)
    ensures KeyedByKey(m) ==> KeyedByKey(r)
  {
    if e.key in m then m[e.key := m[e.key].(amount := m[e.key].amount + e.amount)] else m[e.key := e]
  }

  /** The `for source_item in backpack_item_list` loop folding existing
      entries into the map. */
  function FoldStacks(m: map<string, ItemGroupTag>, list: seq<ItemGroupTag>): (r: map<string, ItemGroupTag>)
    ensures KeyedByKey(m) ==> KeyedByKey(r)
    decreases |list|
  {
    if list == [] then m else FoldStacks(AddToStack(m, list[0]), list[1..])
  }

  /** The map the insert builds from the incoming and the existing entries. */
  function MergeMap(items: seq<ItemGroupTag>, existing: seq<ItemGroupTag>): (m: map<string, ItemGroupTag>)
    ensures KeyedByKey(m)
  {
    FoldStacks(SeedMap(items), existing)
  }

  /** What inserting `items` into `p`'s backpack yields: `p` itself when the
      gate trips; otherwise `p` with a backpack listing the merged map in
      some order, every other field unchanged. */
  predicate InsertResult(p: Person, items: seq<ItemGroupTag>, q: Person) {
    if InsertOverflows(p, items) then q == p
    else q == p.(backpackItemList := q.backpackItemList) && Enumerates(q.backpackItemList, MergeMap(items, p.backpackItemList))
  }

  /** The per-person closure of `insert_person_list_backpack_to_file`. */
  method InsertBackpack(p: Person, items: seq<ItemGroupTag>) returns (q: Person)
    ensures InsertResult(p, items, q)
  {
    var sourceTotal := SumAmounts(p.backpackItemList);
    var insertTotal := SumAmounts(items);
    if sourceTotal + insertTotal > p.backpackHardCapacity {
      return p;
    }
    var m: map<string, ItemGroupTag> := map[];
    for i := 0 to |items|
      invariant m == SeedMap(items[..i])
    {
      assert items[..i + 1][..i] == items[..i];
      m := m[items[i].key := items[i]];
    }
    assert items[..|items|] == items;
    var existing := p.backpackItemList;
    for j := 0 to |existing|
      invariant KeyedByKey(m)
      invariant FoldStacks(m, existing[j..]) == MergeMap(items, existing)
    {
      assert existing[j..][1..] == existing[j + 1..];
      var e := existing[j];
      if e.key in m {
        m := m[e.key := m[e.key].(amount := m[e.key].amount + e.amount)];
      } else {
        m := m[e.key := e];
      }
    }
    var list := CollectValues(m);
    q := p.(backpackItemList := list);
  }

  /** The multi-person insert: every person is written back, in input order,
      whether the gate tripped or not; no error is reported for a person
      whose backpack would overflow. */
  method InsertAll(people: seq<(U64, Person)>, items: seq<ItemGroupTag>) returns (written: seq<(U64, Person)>)
    ensures |written| == |people|
    ensures forall i :: 0 <= i < |people| ==> written[i].0 == people[i].0 && InsertResult(people[i].1, items, written[i].1)
  {
    written := [];
    for i := 0 to |people|
      invariant |written| == i
      invariant forall j :: 0 <= j < i ==> written[j].0 == people[j].0 && InsertResult(people[j].1, items, written[j].1)
    {
      var q := InsertBackpack(people[i].1, items);
      written := written + [(people[i].0, q)];
    }
  }

  /** The last incoming entry with key `k`: the one `HashMap::insert` keeps. */
  function LastWithKey(items: seq<ItemGroupTag>, k: string): (e: ItemGroupTag)
    requires k in KeySet(items)
  {
    var x := items[|items| - 1];
    if x.key == k then x else LastWithKey(items[..|items| - 1], k)
  }

  /** The first entry with key `k`: the one `or_insert` stores. */
  function FirstWithKey(list: seq<ItemGroupTag>, k: string): (e: ItemGroupTag)
    requires k in KeySet(list)
  {
    KeySetCons(list);
    if list[0].key == k then list[0] else FirstWithKey(list[1..], k)
  }

  /** The total amount of the entries with key `k`. */
  function SumKey(list: seq<ItemGroupTag>, k: string): int {
    if list == [] then 0 else (if list[0].key == k then list[0].amount else 0) + SumKey(list[1..], k)
  }

  lemma {:induction false} SeedMapContents(items: seq<ItemGroupTag>)
    ensures SeedMap(items).Keys == KeySet(items)
    ensures forall k :: k in KeySet(items) ==> SeedMap(items)[k] == LastWithKey(items, k)
  {
    if items != [] {
      SeedMapContents(items[..|items| - 1]);
    }
  }

  lemma FoldStacksContents(m: map<string, ItemGroupTag>, list: seq<ItemGroupTag>)
    ensures FoldStacks(m, list).Keys == m.Keys + KeySet(list)
    ensures forall k :: k in m ==> FoldStacks(m, list)[k] == m[k].(amount := m[k].amount + SumKey(list, k))
    ensures forall k :: k !in m && k in KeySet(list) ==>
      FoldStacks(m, list)[k] == FirstWithKey(list, k).(amount := SumKey(list, k))
  {
    FoldStacksKeys(m, list);
    forall k | k in m
      ensures FoldStacks(m, list)[k] == m[k].(amount := m[k].amount + SumKey(list, k))
    {
      FoldStacksPresent(m, list, k);
    }
    forall k | k !in m && k in KeySet(list)
      ensures FoldStacks(m, list)[k] == FirstWithKey(list, k).(amount := SumKey(list, k))
    {
      FoldStacksAbsent(m, list, k);
    }
  }

  lemma {:induction false} FoldStacksKeys(m: map<string, ItemGroupTag>, list: seq<ItemGroupTag>)
    ensures FoldStacks(m, list).Keys == m.Keys + KeySet(list)
    decreases |list|
  {
    if list != [] {
      FoldStacksKeys(AddToStack(m, list[0]), list[1..]);
      KeySetCons(list);
    }
  }

  lemma {:induction false} FoldStacksPresent(m: map<string, ItemGroupTag>, list: seq<ItemGroupTag>, k: string)
    requires k in m
    ensures k in FoldStacks(m, list)
    ensures FoldStacks(m, list)[k] == m[k].(amount := m[k].amount + SumKey(list, k))
    decreases |list|
  {
    if list != [] {
      FoldStacksPresent(AddToStack(m, list[0]), list[1..], k);
    }
  }

  lemma {:induction false} FoldStacksAbsent(m: map<string, ItemGroupTag>, list: seq<ItemGroupTag>, k: string)
    requires k !in m && k in KeySet(list)
    ensures k in FoldStacks(m, list)
    ensures FoldStacks(m, list)[k] == FirstWithKey(list, k).(amount := SumKey(list, k))
    decreases |list|
  {
    var e, rest := list[0], list[1..];
    var m1 := AddToStack(m, e);
    KeySetCons(list);
    if k == e.key {
      FoldStacksPresent(m1, rest, k);
    } else {
      FoldStacksAbsent(m1, rest, k);
    }
  }

  /** The merged map, key by key: its keys are exactly the incoming and the
      existing keys; a key that comes in keeps the class and index of its
      last incoming entry, with the amount of that entry plus every existing
      amount under the key; a key only in the backpack keeps its first
      entry's class and index with the summed existing amount. */
  lemma MergeMapContents(items: seq<ItemGroupTag>, existing: seq<ItemGroupTag>)
    ensures MergeMap(items, existing).Keys == KeySet(items) + KeySet(existing)
    ensures forall k :: k in KeySet(items) ==>
      var e := LastWithKey(items, k);
      MergeMap(items, existing)[k] == e.(amount := e.amount + SumKey(existing, k))
    ensures forall k :: k !in KeySet(items) && k in KeySet(existing) ==>
      MergeMap(items, existing)[k] == FirstWithKey(existing, k).(amount := SumKey(existing, k))
  {
    SeedMapContents(items);
    FoldStacksContents(SeedMap(items), existing);
  }

  /** In a list with unique keys, the entry at `i` is the first and the only
      one with its key. */
  lemma {:induction false} UniqueKeyEntry(list: seq<ItemGroupTag>, i: nat)
    requires UniqueKeys(list) && i < |list|
    ensures FirstWithKey(list, list[i].key) == list[i]
    ensures SumKey(list, list[i].key) == list[i].amount
  {
    var k := list[i].key;
    KeySetCons(list);
    if i > 0 {
      assert list[1..][i - 1] == list[i];
      UniqueKeyEntry(list[1..], i - 1);
    } else {
      NoKeyNoSum(list[1..], k);
    }
  }

  lemma {:induction false} NoKeyNoSum(list: seq<ItemGroupTag>, k: string)
    requires forall i :: 0 <= i < |list| ==> list[i].key != k
    ensures SumKey(list, k) == 0
  {
    if list != [] {
      NoKeyNoSum(list[1..], k);
    }
  }

  /** Inserting the same list again, into the backpack the first insert
      produced: the keys stay the same, every incoming stack grows by its
      incoming amount once more (twice the incoming amount plus what was
      there before the first insert), and every other stack is unchanged. */
  lemma InsertTwice(items: seq<ItemGroupTag>, existing: seq<ItemGroupTag>, once: seq<ItemGroupTag>)
    requires Enumerates(once, MergeMap(items, existing))
    ensures MergeMap(items, once).Keys == MergeMap(items, existing).Keys
    ensures forall k :: k in KeySet(items) ==>
      && k in MergeMap(items, once)
      && MergeMap(items, once)[k].amount == 2 * LastWithKey(items, k).amount + SumKey(existing, k)
    ensures forall k :: k in MergeMap(items, existing) && k !in KeySet(items) ==>
      MergeMap(items, once)[k] == MergeMap(items, existing)[k]
  {
    var m1 := MergeMap(items, existing);
    MergeMapContents(items, existing);
    MergeMapContents(items, once);
    EnumeratesKeySet(once, m1);
    forall k | k in m1
      ensures SumKey(once, k) == m1[k].amount && FirstWithKey(once, k) == m1[k]
    {
      var i := EnumeratesFind(once, m1, k);
      UniqueKeyEntry(once, i);
    }
  }

  /** The capacity invariant survives an insert when every stack holds at
      least one item: the merged backpack has at most one entry per item. */
  lemma InsertWithinCapacity(p: Person, items: seq<ItemGroupTag>, q: Person)
    requires WithinCapacity(p)
    requires forall i :: 0 <= i < |items| ==> items[i].amount >= 1
    requires forall i :: 0 <= i < |p.backpackItemList| ==> p.backpackItemList[i].amount >= 1
    requires InsertResult(p, items, q)
    ensures WithinCapacity(q)
  {
    if !InsertOverflows(p, items) {
      var ex := p.backpackItemList;
      var m := MergeMap(items, ex);
      MergeMapContents(items, ex);
      var a, b := KeySet(items), KeySet(ex);
      assert |a + b| <= |a| + |b| by {
        assert |a + b| + |a * b| == |a| + |b|;
      }
      KeySetSize(items);
      KeySetSize(ex);
      LengthAtMostSum(items);
      LengthAtMostSum(ex);
      assert |q.backpackItemList| == |m.Keys|;
    }
  }

  // ---------------------------------------------------------------------
  // delete_person_item_list_to_file: delete by key set
  // ---------------------------------------------------------------------

  /** The `filter(|item| !key_set.contains(&item.key))` on a grouped list. */
  function FilterOut(list: seq<ItemGroupTag>, keys: set<string>): (r: seq<ItemGroupTag>)
    ensures |r| <= |list|
    ensures forall i :: 0 <= i < |r| ==> r[i].key !in keys
  {
    if list == [] then []
    else
      (if list[0].key in keys then [] else [list[0]]) + FilterOut(list[1..], keys)
  }

  /** The filter drops every entry under a deleted key and keeps every other
      entry, as often as it occurs. */
  lemma {:induction false} FilterOutMultiset(list: seq<ItemGroupTag>, keys: set<string>)
    ensures forall x :: multiset(FilterOut(list, keys))[x] == if x.key in keys then 0 else multiset(list)[x]
  {
    if list != [] {
      FilterOutMultiset(list[1..], keys);
      assert list == [list[0]] + list[1..];
    }
  }

  /** The filter keeps order: filtering a concatenation filters each part. */
  lemma {:induction false} FilterOutAppend(a: seq<ItemGroupTag>, b: seq<ItemGroupTag>, keys: set<string>)
    ensures FilterOut(a + b, keys) == FilterOut(a, keys) + FilterOut(b, keys)
  {
    if a == [] {
      assert a + b == b;
    } else {
      var head := if a[0].key in keys then [] else [a[0]];
      assert (a + b)[0] == a[0] && (a + b)[1..] == a[1..] + b;
      calc {
        FilterOut(a + b, keys);
        head + FilterOut(a[1..] + b, keys);
        { FilterOutAppend(a[1..], b, keys); }
        head + (FilterOut(a[1..], keys) + FilterOut(b, keys));
        (head + FilterOut(a[1..], keys)) + FilterOut(b, keys);
      }
    }
  }

  /** A list none of whose keys is deleted comes through unchanged. */
  lemma {:induction false} FilterOutNothing(list: seq<ItemGroupTag>, keys: set<string>)
    requires forall i :: 0 <= i < |list| ==> list[i].key !in keys
    ensures FilterOut(list, keys) == list
  {
    if list != [] {
      FilterOutNothing(list[1..], keys);
    }
  }

  /** The `map` over `item_list`: an equipped item whose key is deleted keeps
      its slot and gets key "", index -1 and amount 0; the others stay. */
  function VacateSlots(items: seq<ItemTag>, keys: set<string>): (r: seq<ItemTag>)
    ensures |r| == |items|
    ensures forall i :: 0 <= i < |items| ==> r[i].slot == items[i].slot
    ensures forall i :: 0 <= i < |items| && items[i].key in keys ==>
      r[i].key == "" && r[i].index == -1 && r[i].amount == 0
    ensures forall i :: 0 <= i < |items| && items[i].key !in keys ==> r[i] == items[i]
  {
    seq(|items|, i requires 0 <= i < |items| =>
      if items[i].key in keys then items[i].(key := "", index := -1, amount := 0) else items[i])
  }

  /** The per-person closure of `delete_person_item_list_to_file`. */
  function DeleteItems(p: Person, keys: set<string>): (q: Person)
    ensures q == p.(backpackItemList := q.backpackItemList, stashItemList := q.stashItemList, itemList := q.itemList)
    ensures WithinCapacity(p) ==> WithinCapacity(q)
  {
    p.(backpackItemList := FilterOut(p.backpackItemList, keys),
       stashItemList := FilterOut(p.stashItemList, keys),
       itemList := VacateSlots(p.itemList, keys))
  }

  /** Deleting the same keys again changes nothing. */
  lemma DeleteIdempotent(p: Person, keys: set<string>)
    ensures DeleteItems(DeleteItems(p, keys), keys) == DeleteItems(p, keys)
  {
    var q := DeleteItems(p, keys);
    FilterOutNothing(q.backpackItemList, keys);
    FilterOutNothing(q.stashItemList, keys);
    var v := VacateSlots(q.itemList, keys);
    forall i | 0 <= i < |v|
      ensures v[i] == q.itemList[i]
    {
    }
  }

  /** `delete_person_item_list_to_file`: the request's key list becomes a
      set, and every person is written back, in input order. */
  function DeleteAll(people: seq<(U64, Person)>, keyList: seq<string>): (written: seq<(U64, Person)>)
    ensures |written| == |people|
    ensures forall i :: 0 <= i < |people| ==>
      written[i].0 == people[i].0 && written[i].1 == DeleteItems(people[i].1, set k | k in keyList)
  {
    var keys := set k | k in keyList;
    seq(|people|, i requires 0 <= i < |people| => (people[i].0, DeleteItems(people[i].1, keys)))
  }

  // ---------------------------------------------------------------------
  // update_person_list_soldider_group_to_file: cost-gated group change
  // ---------------------------------------------------------------------

  /** The per-person closure: a person short of job points is left as is;
      otherwise the cost is paid and the group renamed. */
  function ChangeGroup(p: Person, group: string, cost: real): (q: Person)
    ensures p.jobPoints < cost ==> q == p
    ensures p.jobPoints >= cost ==>
      q == p.(jobPoints := p.jobPoints - cost, soldierGroupName := group)
    ensures q == p || q.jobPoints >= 0.0
  {
    if p.jobPoints < cost then p else p.(jobPoints := p.jobPoints - cost, soldierGroupName := group)
  }

  /** The ids the closure pushes onto `err_profile_id_vec`, in input order. */
  function ShortOfPoints(people: seq<(U64, Person)>, cost: real): (ids: seq<U64>)
    ensures |ids| <= |people|
  {
    if people == [] then []
    else
      var last := people[|people| - 1];
      ShortOfPoints(people[..|people| - 1], cost) + (if last.1.jobPoints < cost then [last.0] else [])
  }

  /** `update_person_list_soldider_group_to_file`: every person is written
      back, in input order, changed or not; the returned list holds the ids
      of the persons that could not pay. */
  method UpdateSoldierGroup(people: seq<(U64, Person)>, group: string, cost: real)
    returns (written: seq<(U64, Person)>, errIds: seq<U64>)
    ensures |written| == |people|
    ensures forall i :: 0 <= i < |people| ==>
      written[i].0 == people[i].0 && written[i].1 == ChangeGroup(people[i].1, group, cost)
    ensures errIds == ShortOfPoints(people, cost)
  {
    written, errIds := [], [];
    for i := 0 to |people|
      invariant |written| == i
      invariant forall j :: 0 <= j < i ==>
        written[j].0 == people[j].0 && written[j].1 == ChangeGroup(people[j].1, group, cost)
      invariant errIds == ShortOfPoints(people[..i], cost)
    {
      assert people[..i + 1][..i] == people[..i];
      var (id, p) := people[i];
      if p.jobPoints < cost {
        errIds := errIds + [id];
        written := written + [(id, p)];
      } else {
        written := written + [(id, p.(jobPoints := p.jobPoints - cost, soldierGroupName := group))];
      }
    }
    assert people[..|people|] == people;
  }

  /** Some person with id `id` has fewer job points than the cost. */
  predicate CannotPay(people: seq<(U64, Person)>, cost: real, id: U64) {
    exists i :: 0 <= i < |people| && people[i].0 == id && people[i].1.jobPoints < cost
  }

  /** An id is reported exactly when some person with that id could not pay. */
  lemma {:induction false} ShortOfPointsExactly(people: seq<(U64, Person)>, cost: real, id: U64)
    ensures id in ShortOfPoints(people, cost) <==> CannotPay(people, cost, id)
  {
    if people != [] {
      var init := people[..|people| - 1];
      var last := people[|people| - 1];
      ShortOfPointsExactly(init, cost, id);
      if CannotPay(init, cost, id) {
        var i :| 0 <= i < |init| && init[i].0 == id && init[i].1.jobPoints < cost;
        assert people[i] == init[i];
      }
      if CannotPay(people, cost, id) {
        var i :| 0 <= i < |people| && people[i].0 == id && people[i].1.jobPoints < cost;
        if i < |init| {
          assert init[i] == people[i];
        } else {
          assert last == people[i];
        }
      }
    }
  }
}
