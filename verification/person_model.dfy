/** The records of a `.person` save file. The shape is the schema-154 one
    (version and both capacities are unsigned 16-bit numbers; backpack and
    stash hold grouped entries with an amount); the floating-point fields are
    modelled as `real`. */
module PersonModel {
  import opened Numerals

  const MaxDefaultBackpackLen: U16 := 255
  const MaxDefaultStashLen: U16 := 300
  const MaxPersonFileVersion: U16 := 154

  /** The soldier's standing order. */
  datatype OrderTag = OrderTag(moving: I32, target: string, classId: I8)

  /** An equipped item in a slot. */
  datatype ItemTag = ItemTag(slot: I8, index: I32, amount: I8, key: string)

  /** A stack of identical items in the backpack or the stash. */
  datatype ItemGroupTag = ItemGroupTag(classId: I8, index: I32, key: string, amount: int)

  /** The ungrouped stash entry of the older record shape. */
  datatype StashItemTag = StashItemTag(classId: I8, index: I32, key: string)

  datatype Person = Person(
    maxAuthorityReached: real,
    authority: real,
    jobPoints: real,
    faction: string,
    name: string,
    version: U16,
    alive: I8,
    soldierGroupId: I8,
    soldierGroupName: string,
    block: string,
    squadSizeSetting: real,
    order: OrderTag,
    itemList: seq<ItemTag>,
    backpackHardCapacity: U16,
    stashHardCapacity: U16,
    backpackItemList: seq<ItemGroupTag>,
    stashItemList: seq<ItemGroupTag>)

  const DefaultOrder: OrderTag := OrderTag(0, "", 0)
  const DefaultItem: ItemTag := ItemTag(0, 0, 0, "")
  const DefaultItemGroup: ItemGroupTag := ItemGroupTag(0, 0, "", 0)
  const DefaultStashItem: StashItemTag := StashItemTag(0, 0, "")

  /** `Person::default`: numbers 0, strings empty except the group name
      "default", no items, and the default capacities. */
  const DefaultPerson: Person := Person(
    0.0, 0.0, 0.0, "", "", 0, 0, 0, "default", "", 0.0,
    DefaultOrder, [], MaxDefaultBackpackLen, MaxDefaultStashLen, [], [])

  /** The defaults: numbers zero, strings empty except the soldier group
      name, no items; an order, an item and an ungrouped entry default to
      all-zero fields and an empty text. */
  lemma Defaults()
    ensures DefaultOrder.moving == 0 && DefaultOrder.target == "" && DefaultOrder.classId == 0
    ensures DefaultItem.slot == 0 && DefaultItem.index == 0 && DefaultItem.amount == 0 && DefaultItem.key == ""
    ensures DefaultStashItem.classId == 0 && DefaultStashItem.index == 0 && DefaultStashItem.key == ""
    ensures var p := DefaultPerson;
      && p.maxAuthorityReached == 0.0 && p.authority == 0.0 && p.jobPoints == 0.0 && p.squadSizeSetting == 0.0
      && p.version == 0 && p.alive == 0 && p.soldierGroupId == 0
      && p.faction == "" && p.name == "" && p.block == "" && p.soldierGroupName == "default"
      && p.order == DefaultOrder && p.itemList == [] && p.backpackItemList == [] && p.stashItemList == []
      && p.backpackHardCapacity == 255 && p.stashHardCapacity == 300
  {
  }

  /** `From<&Person>`: a field-by-field copy. */
  function CopyPerson(p: Person): (r: Person)
    ensures r == p
  {
    Person(
      p.maxAuthorityReached, p.authority, p.jobPoints, p.faction, p.name,
      p.version, p.alive, p.soldierGroupId, p.soldierGroupName, p.block,
      p.squadSizeSetting,
      OrderTag(p.order.moving, p.order.target, p.order.classId),
      p.itemList, p.backpackHardCapacity, p.stashHardCapacity,
      p.backpackItemList, p.stashItemList)
  }

  /** The capacity invariant every mutation checks before writing back. */
  predicate WithinCapacity(p: Person) {
    |p.backpackItemList| <= p.backpackHardCapacity && |p.stashItemList| <= p.stashHardCapacity
  }

  /** The keys of a grouped list, as a set. */
  function KeySet(list: seq<ItemGroupTag>): (ks: set<string>)
    ensures forall i :: 0 <= i < |list| ==> list[i].key in ks
    ensures forall k :: k in ks ==> exists i :: 0 <= i < |list| && list[i].key == k
  {
    if list == [] then {} else KeySet(list[..|list| - 1]) + {list[|list| - 1].key}
  }

  /** The key set read from the front: the first entry's key and the rest. */
  lemma KeySetCons(list: seq<ItemGroupTag>)
    requires list != []
    ensures KeySet(list) == {list[0].key} + KeySet(list[1..])
  {
    forall k | k in KeySet(list) && k != list[0].key
      ensures k in KeySet(list[1..])
    {
      var i :| 0 <= i < |list| && list[i].key == k;
      assert list[1..][i - 1] == list[i];
    }
  }

  predicate UniqueKeys(list: seq<ItemGroupTag>) {
    forall i, j :: 0 <= i < j < |list| ==> list[i].key != list[j].key
  }

  /** The `fold(0, |acc, item| acc + item.amount)` over a grouped list. */
  function SumAmounts(list: seq<ItemGroupTag>): int {
    if list == [] then 0 else SumAmounts(list[..|list| - 1]) + list[|list| - 1].amount
  }

  /** A set of distinct keys is never larger than the list it comes from. */
  lemma {:induction false} KeySetSize(list: seq<ItemGroupTag>)
    ensures |KeySet(list)| <= |list|
  {
    if list != [] {
      KeySetSize(list[..|list| - 1]);
    }
  }

  /** With unique keys the key set has exactly one key per entry. */
  lemma {:induction false} KeySetSizeUnique(list: seq<ItemGroupTag>)
    requires UniqueKeys(list)
    ensures |KeySet(list)| == |list|
  {
    if list != [] {
      var init := list[..|list| - 1];
      KeySetSizeUnique(init);
      assert list[|list| - 1].key !in KeySet(init);
    }
  }

  /** When every stack holds at least one item, a list has no more entries
      than items. */
  lemma {:induction false} LengthAtMostSum(list: seq<ItemGroupTag>)
    requires forall i :: 0 <= i < |list| ==> list[i].amount >= 1
    ensures |list| <= SumAmounts(list)
  {
    if list != [] {
      LengthAtMostSum(list[..|list| - 1]);
    }
  }
}
