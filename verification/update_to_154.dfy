/** The schema-154 migration of a `.person` file
    (src/version_update/update_to_154.rs): a reader for the older shape, in
    which the backpack and the stash hold one `item` per physical item, and
    the regrouping of those items into counted stacks keyed by item key. */
module Migration154 {
  import opened Wrappers
  import opened Numerals
  import opened XmlEvents
  import opened PersonModel
  import opened ItemGroupMap
  import opened PersonExtract

  /** The older entry's defaults: class 0, index -1, key "". */
  const LegacyItemDefault: StashItemTag := StashItemTag(0, -1, "")

  /** `Person_V153::default()`: the current defaults, except version 153. */
  const LegacyPersonDefault: Person := DefaultPerson.(version := 153)

  /** What the older reader has read so far: the scalar fields, order, item
      list and capacities live in `person` (whose grouped lists the older
      reader never touches), the ungrouped backpack and stash beside it. */
  datatype LegacyState = LegacyState(
    person: Person,
    backpack: seq<StashItemTag>,
    stash: seq<StashItemTag>,
    inPerson: bool,
    inStash: bool,
    inBackpack: bool)

  const LegacyInitial: LegacyState := LegacyState(LegacyPersonDefault, [], [], false, false, false)

  /** An attribute of an ungrouped backpack or stash `item`. */
  function ApplyLegacyItemAttr(it: StashItemTag, a: Attr): Result<StashItemTag, DecodeError> {
    if a.key == "class" then
      var x :- Need(ParseI8(a.value), a.key); Success(it.(classId := x))
    else if a.key == "index" then
      var x :- Need(ParseI32(a.value), a.key); Success(it.(index := x))
    else if a.key == "key" then Success(it.(key := a.value))
    else Success(it)
  }

  /** One turn of the older reader's loop. A self-closing `item` is an
      ungrouped entry once a backpack or stash start tag has been seen (the
      backpack wins when both have), and an equipped item otherwise;
      `item_group` and a self-closing `backpack` are not recognised. */
  function LegacyStep(st: LegacyState, e: Event, fs: FloatSyntax): (r: Result<LegacyState, DecodeError>)
    ensures r.Success? && e.Start? ==>
      && (r.value.inPerson <==> st.inPerson || e.name == "person")
      && (r.value.inStash <==> st.inStash || e.name == "stash")
      && (r.value.inBackpack <==> st.inBackpack || e.name == "backpack")
    ensures r.Success? && !e.Start? ==>
      r.value.inPerson == st.inPerson && r.value.inStash == st.inStash && r.value.inBackpack == st.inBackpack
    ensures r.Success? ==> GroupLists(r.value.person) == GroupLists(st.person)
    ensures e.Broken? ==> r == Failure(ReaderPanic)
  {
    match e
    case Start(name, attrs) =>
      HeadAttrsKeepGroups(st.person, attrs, fs);
      if name == "person" then
        var p :- FoldAttrs(st.person, attrs, PersonAttrHandler(fs));
        Success(st.(person := p, inPerson := true))
      else if name == "stash" then
        var p :- FoldAttrs(st.person, attrs, ApplyStashAttr);
        Success(st.(person := p, inStash := true))
      else if name == "backpack" then
        var p :- FoldAttrs(st.person, attrs, ApplyBackpackAttr);
        Success(st.(person := p, inBackpack := true))
      else Success(st)
    case Empty(name, attrs) =>
      if name == "order" then
        var o :- FoldAttrs(DefaultOrder, attrs, ApplyOrderAttr);
        Success(st.(person := st.person.(order := o)))
      else if name == "item" then
        if st.inBackpack || st.inStash then
          var it :- FoldAttrs(LegacyItemDefault, attrs, ApplyLegacyItemAttr);
          if st.inBackpack then Success(st.(backpack := st.backpack + [it]))
          else Success(st.(stash := st.stash + [it]))
        else
          var it :- FoldAttrs(DefaultItem, attrs, ApplyItemAttr);
          Success(st.(person := st.person.(itemList := st.person.itemList + [it])))
      else Success(st)
    case End(_) => Success(st)
    case Other => Success(st)
    case Broken => Failure(ReaderPanic)
  }

  /** The grouped lists of a person, which the older reader never fills. */
  function GroupLists(p: Person): (seq<ItemGroupTag>, seq<ItemGroupTag>) {
    (p.backpackItemList, p.stashItemList)
  }

  /** The attributes of `person`, `stash` and `backpack` start tags leave
      the grouped lists alone. */
  lemma HeadAttrsKeepGroups(p: Person, attrs: seq<Attr>, fs: FloatSyntax)
    ensures FoldAttrs(p, attrs, PersonAttrHandler(fs)).Success? ==> GroupLists(FoldAttrs(p, attrs, PersonAttrHandler(fs)).value) == GroupLists(p)
    ensures FoldAttrs(p, attrs, ApplyStashAttr).Success? ==> GroupLists(FoldAttrs(p, attrs, ApplyStashAttr).value) == GroupLists(p)
    ensures FoldAttrs(p, attrs, ApplyBackpackAttr).Success? ==> GroupLists(FoldAttrs(p, attrs, ApplyBackpackAttr).value) == GroupLists(p)
  {
    if FoldAttrs(p, attrs, PersonAttrHandler(fs)).Success? {
      FoldAttrsKeeps(p, attrs, PersonAttrHandler(fs), GroupLists);
    }
    if FoldAttrs(p, attrs, ApplyStashAttr).Success? {
      FoldAttrsKeeps(p, attrs, ApplyStashAttr, GroupLists);
    }
    if FoldAttrs(p, attrs, ApplyBackpackAttr).Success? {
      FoldAttrsKeeps(p, attrs, ApplyBackpackAttr, GroupLists);
    }
  }

  function LegacyRun(st: LegacyState, evs: seq<Event>, fs: FloatSyntax): (r: Result<LegacyState, DecodeError>)
    ensures r.Success? ==> GroupLists(r.value.person) == GroupLists(st.person)
    decreases |evs|
  {
    if evs == [] then Success(st)
    else
      var st' :- LegacyStep(st, evs[0], fs);
      LegacyRun(st', evs[1..], fs)
  }

  /** What the event loop of `update_person` has read from a file whose
      events are `evs`. */
  function DecodeLegacy(evs: seq<Event>, fs: FloatSyntax): (r: Result<LegacyState, DecodeError>)
    ensures r.Success? ==> r.value.person.backpackItemList == [] && r.value.person.stashItemList == []
  {
    LegacyRun(LegacyInitial, evs, fs)
  }

  // ---------------------------------------------------------------------
  // Grouping
  // ---------------------------------------------------------------------

  /** `entry(key).and_modify(|item| item.amount += 1).or_insert(..)`: a
      key seen before gains one item; a new key starts a stack of one that
      takes the entry's class and index. */
  function AddLegacyItem(m: map<string, ItemGroupTag>, x: StashItemTag): map<string, ItemGroupTag> {
    if x.key in m then m[x.key := m[x.key].(amount := m[x.key].amount + 1)]
    else m[x.key := ItemGroupTag(x.classId, x.index, x.key, 1)]
  }

  /** The map the grouping loop builds from an ungrouped list. */
  function GroupMap(list: seq<StashItemTag>): map<string, ItemGroupTag>
    decreases |list|
  {
    if list == [] then map[] else AddLegacyItem(GroupMap(list[..|list| - 1]), list[|list| - 1])
  }

  /** How many entries of an ungrouped list carry key `k`. */
  function CountKey(list: seq<StashItemTag>, k: string): nat {
    if list == [] then 0
    else CountKey(list[..|list| - 1], k) + (if list[|list| - 1].key == k then 1 else 0)
  }

  /** Position `i` holds the first entry of `list` with key `k`. */
  predicate FirstWithKey(list: seq<StashItemTag>, k: string, i: int) {
    0 <= i < |list| && list[i].key == k && forall j :: 0 <= j < i ==> list[j].key != k
  }

  /** The keys occurring in an ungrouped list. */
  function LegacyKeys(list: seq<StashItemTag>): set<string> {
    set i | 0 <= i < |list| :: list[i].key
  }

  /** The grouping loop: one pass over the list, in order. */
  method GroupItems(list: seq<StashItemTag>) returns (m: map<string, ItemGroupTag>)
    ensures m == GroupMap(list)
  {
    m := map[];
    for i := 0 to |list|
      invariant m == GroupMap(list[..i])
    {
      assert list[..i + 1][..i] == list[..i];
      var x := list[i];
      if x.key in m {
        m := m[x.key := m[x.key].(amount := m[x.key].amount + 1)];
      } else {
        m := m[x.key := ItemGroupTag(x.classId, x.index, x.key, 1)];
      }
    }
    assert list[..|list|] == list;
  }

  /** Grouping keeps every entry under its own key, and has one stack per
      distinct key of the list. */
  lemma {:induction false} GroupMapKeys(list: seq<StashItemTag>)
    ensures KeyedByKey(GroupMap(list))
    ensures GroupMap(list).Keys == LegacyKeys(list)
    decreases |list|
  {
    if list != [] {
      var init := list[..|list| - 1];
      GroupMapKeys(init);
      assert LegacyKeys(list) == LegacyKeys(init) + {list[|list| - 1].key} by {
        forall k | k in LegacyKeys(list) ensures k in LegacyKeys(init) + {list[|list| - 1].key} {
          var i :| 0 <= i < |list| && list[i].key == k;
          if i < |list| - 1 { assert init[i] == list[i]; }
        }
        forall k | k in LegacyKeys(init) ensures k in LegacyKeys(list) {
          var i :| 0 <= i < |init| && init[i].key == k;
          assert list[i] == init[i];
        }
      }
    }
  }

  /** A stack's amount is the number of entries with its key. */
  lemma {:induction false} GroupMapCounts(list: seq<StashItemTag>, k: string)
    requires k in GroupMap(list)
    ensures GroupMap(list)[k].amount == CountKey(list, k)
    decreases |list|
  {
    var init := list[..|list| - 1];
    var x := list[|list| - 1];
    if x.key == k {
      if k in GroupMap(init) {
        GroupMapCounts(init, k);
      } else {
        GroupMapKeys(init);
        CountKeyAbsent(init, k);
      }
    } else {
      GroupMapCounts(init, k);
    }
  }

  /** A key that does not occur is counted zero times. */
  lemma {:induction false} CountKeyAbsent(list: seq<StashItemTag>, k: string)
    requires k !in LegacyKeys(list)
    ensures CountKey(list, k) == 0
    decreases |list|
  {
    if list != [] {
      var init := list[..|list| - 1];
      assert list[|list| - 1].key in LegacyKeys(list);
      assert LegacyKeys(init) <= LegacyKeys(list) by {
        forall j | 0 <= j < |init| ensures init[j].key in LegacyKeys(list) { assert init[j] == list[j]; }
      }
      CountKeyAbsent(init, k);
    }
  }

  /** A stack keeps the class and index of the first entry with its key;
      later entries only add to the count. */
  lemma {:induction false} GroupMapFirst(list: seq<StashItemTag>, k: string) returns (i: nat)
    requires k in GroupMap(list)
    ensures FirstWithKey(list, k, i)
    ensures GroupMap(list)[k].classId == list[i].classId && GroupMap(list)[k].index == list[i].index
    decreases |list|
  {
    var init := list[..|list| - 1];
    var x := list[|list| - 1];
    if k in GroupMap(init) {
      i := GroupMapFirst(init, k);
      assert init[i] == list[i];
      forall j | 0 <= j < i ensures list[j].key != k { assert init[j] == list[j]; }
    } else {
      GroupMapKeys(init);
      i := |list| - 1;
      forall j | 0 <= j < i ensures list[j].key != k {
        assert init[j] == list[j];
        assert init[j].key in LegacyKeys(init);
      }
    }
  }

  /** Removing one stack from a listing lists the map without that key. */
  lemma EnumeratesRemove(list: seq<ItemGroupTag>, m: map<string, ItemGroupTag>, i: nat)
    requires Enumerates(list, m) && i < |list|
    ensures Enumerates(list[..i] + list[i + 1..], m - {list[i].key})
  {
    var rest := list[..i] + list[i + 1..];
    var k := list[i].key;
    forall j | 0 <= j < |rest|
      ensures rest[j] == (if j < i then list[j] else list[j + 1])
    {}
    assert m.Keys - {k} == (m - {k}).Keys;
    assert |(m - {k}).Keys| == |m.Keys| - 1;
  }

  /** Removing one stack takes its amount off the total. */
  lemma {:induction false} SumAmountsRemove(list: seq<ItemGroupTag>, i: nat)
    requires i < |list|
    ensures SumAmounts(list) == SumAmounts(list[..i] + list[i + 1..]) + list[i].amount
    decreases |list|
  {
    var n := |list| - 1;
    var init := list[..n];
    if i == n {
      assert list[..i] + list[i + 1..] == init;
    } else {
      SumAmountsRemove(init, i);
      assert list[..i] + list[i + 1..] == (init[..i] + init[i + 1..]) + [list[n]];
    }
  }

  /** However the stacks are listed, their amounts add up to the number of
      ungrouped entries: regrouping loses no item. */
  lemma {:induction false} GroupedTotal(list: seq<StashItemTag>, out: seq<ItemGroupTag>)
    requires Enumerates(out, GroupMap(list))
    ensures SumAmounts(out) == |list|
    decreases |list|
  {
    if list == [] {
      assert |out| == 0;
    } else {
      var init := list[..|list| - 1];
      var x := list[|list| - 1];
      var m := GroupMap(init);
      GroupMapKeys(init);
      var i := EnumeratesFind(out, GroupMap(list), x.key);
      SumAmountsRemove(out, i);
      var rest := out[..i] + out[i + 1..];
      EnumeratesRemove(out, GroupMap(list), i);
      if x.key in m {
        var out' := out[i := m[x.key]];
        assert out'[..i] + out'[i + 1..] == rest;
        SumAmountsRemove(out', i);
        assert Enumerates(out', m) by {
          forall j | 0 <= j < |out'| ensures out'[j].key in m && m[out'[j].key] == out'[j] {
            if j != i { assert out[j].key != x.key; }
          }
        }
        GroupedTotal(init, out');
      } else {
        assert GroupMap(list) - {x.key} == m;
        GroupedTotal(init, rest);
      }
    }
  }

  // ---------------------------------------------------------------------
  // The migrated person
  // ---------------------------------------------------------------------

  /** The fields `update_person` carries over onto `Person::default()`:
      version, block and squad size are not among them. */
  function Carried(v153: Person): Person {
    DefaultPerson.(
      maxAuthorityReached := v153.maxAuthorityReached, authority := v153.authority,
      jobPoints := v153.jobPoints, faction := v153.faction, name := v153.name, alive := v153.alive,
      soldierGroupId := v153.soldierGroupId, soldierGroupName := v153.soldierGroupName,
      order := v153.order, itemList := v153.itemList,
      stashHardCapacity := v153.stashHardCapacity, backpackHardCapacity := v153.backpackHardCapacity)
  }

  /** `q` is a person `update_person` may write for what it read: the
      carried fields, and each grouped map's stacks in some order. */
  predicate MigratedFrom(q: Person, st: LegacyState) {
    && q.(backpackItemList := [], stashItemList := []) == Carried(st.person)
    && Enumerates(q.backpackItemList, GroupMap(st.backpack))
    && Enumerates(q.stashItemList, GroupMap(st.stash))
  }

  /** `update_person` without the file system: read the older shape event
      by event, then regroup the backpack and the stash. */
  method UpdatePerson(evs: seq<Event>, fs: FloatSyntax) returns (r: Result<Person, DecodeError>)
    ensures r.Success? <==> DecodeLegacy(evs, fs).Success?
    ensures r.Failure? ==> r.error == DecodeLegacy(evs, fs).error
    ensures r.Success? ==> MigratedFrom(r.value, DecodeLegacy(evs, fs).value)
  {
    var st := LegacyInitial;
    var i := 0;
    while i < |evs|
      invariant 0 <= i <= |evs|
      invariant LegacyRun(st, evs[i..], fs) == DecodeLegacy(evs, fs)
    {
      assert evs[i..][1..] == evs[i + 1..];
      var next := LegacyStep(st, evs[i], fs);
      if next.Failure? {
        return Failure(next.error);
      }
      st := next.value;
      i := i + 1;
    }
    var q := Carried(st.person);
    var backpackMap := GroupItems(st.backpack);
    GroupMapKeys(st.backpack);
    var backpack := CollectValues(backpackMap);
    var stashMap := GroupItems(st.stash);
    GroupMapKeys(st.stash);
    var stash := CollectValues(stashMap);
    q := q.(backpackItemList := backpack, stashItemList := stash);
    return Success(q);
  }

  /** A file is migrated when its version is older than 154. */
  predicate NeedsMigration(p: Person) {
    p.version < MaxPersonFileVersion
  }

  /** The migrated person carries the default version, not 154, so it is
      still older than 154 when it is next read. */
  lemma MigratedStillOlder(q: Person, st: LegacyState)
    requires MigratedFrom(q, st)
    ensures q.version == DefaultPerson.version
    ensures NeedsMigration(q)
  {
    assert q.version == q.(backpackItemList := [], stashItemList := []).version;
  }

  // ---------------------------------------------------------------------
  // Properties of the migration
  // ---------------------------------------------------------------------

  /** Which fields survive: the authorities, job points, faction, name,
      alive flag, group, order, item list and both capacities; version,
      block and squad size take the current defaults. */
  lemma MigratedFields(q: Person, st: LegacyState)
    requires MigratedFrom(q, st)
    ensures q.maxAuthorityReached == st.person.maxAuthorityReached && q.authority == st.person.authority
    ensures q.jobPoints == st.person.jobPoints && q.faction == st.person.faction && q.name == st.person.name
    ensures q.alive == st.person.alive && q.soldierGroupId == st.person.soldierGroupId
    ensures q.soldierGroupName == st.person.soldierGroupName && q.order == st.person.order
    ensures q.itemList == st.person.itemList
    ensures q.backpackHardCapacity == st.person.backpackHardCapacity
    ensures q.stashHardCapacity == st.person.stashHardCapacity
    ensures q.version == DefaultPerson.version && q.block == DefaultPerson.block
    ensures q.squadSizeSetting == DefaultPerson.squadSizeSetting
  {
    assert q.(backpackItemList := [], stashItemList := []).version == q.version;
  }

  /** The migrated backpack has exactly one stack per distinct key of the
      older backpack; each stack counts the entries with its key, takes the
      class and index of the first of them, and all stacks together hold as
      many items as the older backpack had entries. */
  lemma MigratedBackpack(q: Person, st: LegacyState)
    requires MigratedFrom(q, st)
    ensures UniqueKeys(q.backpackItemList)
    ensures KeySet(q.backpackItemList) == LegacyKeys(st.backpack)
    ensures forall i :: 0 <= i < |q.backpackItemList| ==>
      q.backpackItemList[i].amount == CountKey(st.backpack, q.backpackItemList[i].key)
    ensures forall i :: 0 <= i < |q.backpackItemList| ==> exists j ::
      FirstWithKey(st.backpack, q.backpackItemList[i].key, j)
      && q.backpackItemList[i].classId == st.backpack[j].classId
      && q.backpackItemList[i].index == st.backpack[j].index
    ensures SumAmounts(q.backpackItemList) == |st.backpack|
  {
    Grouped(q.backpackItemList, st.backpack);
  }

  /** The same for the stash. */
  lemma MigratedStash(q: Person, st: LegacyState)
    requires MigratedFrom(q, st)
    ensures UniqueKeys(q.stashItemList)
    ensures KeySet(q.stashItemList) == LegacyKeys(st.stash)
    ensures forall i :: 0 <= i < |q.stashItemList| ==>
      q.stashItemList[i].amount == CountKey(st.stash, q.stashItemList[i].key)
    ensures forall i :: 0 <= i < |q.stashItemList| ==> exists j ::
      FirstWithKey(st.stash, q.stashItemList[i].key, j)
      && q.stashItemList[i].classId == st.stash[j].classId
      && q.stashItemList[i].index == st.stash[j].index
    ensures SumAmounts(q.stashItemList) == |st.stash|
  {
    Grouped(q.stashItemList, st.stash);
  }

  /** What a listing of the grouped map says about the ungrouped list. */
  lemma Grouped(out: seq<ItemGroupTag>, list: seq<StashItemTag>)
    requires Enumerates(out, GroupMap(list))
    ensures UniqueKeys(out)
    ensures KeySet(out) == LegacyKeys(list)
    ensures forall i :: 0 <= i < |out| ==> out[i].amount == CountKey(list, out[i].key)
    ensures forall i :: 0 <= i < |out| ==> exists j ::
      FirstWithKey(list, out[i].key, j) && out[i].classId == list[j].classId && out[i].index == list[j].index
    ensures SumAmounts(out) == |list|
  {
    forall i | 0 <= i < |out| {
      GroupedEntry(out, list, i);
    }
    GroupMapKeys(list);
    EnumeratesKeySet(out, GroupMap(list));
    GroupedTotal(list, out);
  }

  lemma GroupedEntry(out: seq<ItemGroupTag>, list: seq<StashItemTag>, i: nat)
    requires Enumerates(out, GroupMap(list)) && i < |out|
    ensures out[i].amount == CountKey(list, out[i].key)
    ensures exists j :: FirstWithKey(list, out[i].key, j) && out[i].classId == list[j].classId && out[i].index == list[j].index
  {
    GroupMapCounts(list, out[i].key);
    var j := GroupMapFirst(list, out[i].key);
  }

  /** Every stack of a migrated list holds at least one item, so the list
      never has more stacks than the older list had entries. */
  lemma MigratedNoLonger(q: Person, st: LegacyState)
    requires MigratedFrom(q, st)
    ensures |q.backpackItemList| <= |st.backpack| && |q.stashItemList| <= |st.stash|
  {
    Grouped(q.backpackItemList, st.backpack);
    Grouped(q.stashItemList, st.stash);
    AmountsPositive(q.backpackItemList, st.backpack);
    AmountsPositive(q.stashItemList, st.stash);
    LengthAtMostSum(q.backpackItemList);
    LengthAtMostSum(q.stashItemList);
  }

  lemma AmountsPositive(out: seq<ItemGroupTag>, list: seq<StashItemTag>)
    requires Enumerates(out, GroupMap(list))
    ensures forall i :: 0 <= i < |out| ==> out[i].amount >= 1
  {
    forall i | 0 <= i < |out| ensures out[i].amount >= 1 {
      GroupMapCounts(list, out[i].key);
      var j := GroupMapFirst(list, out[i].key);
      CountKeyPresent(list, j);
    }
  }

  /** A key that occurs is counted at least once. */
  lemma {:induction false} CountKeyPresent(list: seq<StashItemTag>, j: nat)
    requires j < |list|
    ensures CountKey(list, list[j].key) >= 1
    decreases |list|
  {
    if j < |list| - 1 {
      var init := list[..|list| - 1];
      assert init[j] == list[j];
      CountKeyPresent(init, j);
    }
  }

  /** The older reader's ungrouped entry defaults to index -1, where the
      entry of the current model defaults to index 0. */
  lemma LegacyDefaultDiffers()
    ensures LegacyItemDefault.index == -1 && DefaultStashItem.index == 0
    ensures LegacyItemDefault.(index := 0) == DefaultStashItem
    ensures LegacyPersonDefault.version == 153 && LegacyPersonDefault.(version := 0) == DefaultPerson
  {
  }

  /** Where the older reader puts a self-closing `item`: into the backpack
      once a backpack start tag has been seen, else into the stash once a
      stash start tag has been seen, else into the equipped items. */
  lemma LegacyItemRouting(st: LegacyState, attrs: seq<Attr>, fs: FloatSyntax)
    ensures var r := LegacyStep(st, Empty("item", attrs), fs);
      && (st.inBackpack || st.inStash ==>
            match FoldAttrs(LegacyItemDefault, attrs, ApplyLegacyItemAttr)
            case Failure(e) => r == Failure(e)
            case Success(it) =>
              if st.inBackpack then r == Success(st.(backpack := st.backpack + [it]))
              else r == Success(st.(stash := st.stash + [it])))
      && (!st.inBackpack && !st.inStash ==>
            match FoldAttrs(DefaultItem, attrs, ApplyItemAttr)
            case Failure(e) => r == Failure(e)
            case Success(it) => r == Success(st.(person := st.person.(itemList := st.person.itemList + [it]))))
  {
  }

  /** The older reader does not know `item_group` or a self-closing
      `backpack`: a current-shape stack read by it is dropped. */
  lemma LegacyIgnoresGroups(st: LegacyState, attrs: seq<Attr>, fs: FloatSyntax)
    ensures LegacyStep(st, Empty("item_group", attrs), fs) == Success(st)
    ensures LegacyStep(st, Empty("backpack", attrs), fs) == Success(st)
  {
  }

  /** A tokeniser error anywhere aborts the migration. */
  lemma {:induction false} LegacyBrokenFails(st: LegacyState, evs: seq<Event>, i: nat, fs: FloatSyntax)
    requires i < |evs| && evs[i].Broken?
    ensures LegacyRun(st, evs, fs).Failure?
    decreases |evs|
  {
    match LegacyStep(st, evs[0], fs)
    case Failure(_) =>
    case Success(st1) =>
      assert i != 0;
      assert evs[1..][i - 1] == evs[i];
      LegacyBrokenFails(st1, evs[1..], i - 1, fs);
  }

  /** Reading two streams one after the other is reading the first, then
      the second from where the first left off. */
  lemma {:induction false} LegacyRunAppend(st: LegacyState, a: seq<Event>, b: seq<Event>, fs: FloatSyntax)
    ensures LegacyRun(st, a + b, fs) ==
      (match LegacyRun(st, a, fs)
       case Failure(e) => Failure(e)
       case Success(st') => LegacyRun(st', b, fs))
    decreases |a|
  {
    if a == [] {
      assert a + b == b;
    } else {
      assert (a + b)[0] == a[0] && (a + b)[1..] == a[1..] + b;
      match LegacyStep(st, a[0], fs)
      case Failure(_) =>
      case Success(st') => LegacyRunAppend(st', a[1..], b, fs);
    }
  }

  /** A start tag called `name` occurs in `evs`. */
  predicate SeenStart(evs: seq<Event>, name: string) {
    exists k :: 0 <= k < |evs| && evs[k].Start? && evs[k].name == name
  }

  /** After a successful run the stash and backpack flags say whether a
      start tag of that name has been seen; end tags do not clear them. */
  lemma {:induction false} LegacyRunFlags(st: LegacyState, evs: seq<Event>, fs: FloatSyntax)
    requires LegacyRun(st, evs, fs).Success?
    ensures var q := LegacyRun(st, evs, fs).value;
      && (q.inStash <==> st.inStash || SeenStart(evs, "stash"))
      && (q.inBackpack <==> st.inBackpack || SeenStart(evs, "backpack"))
    decreases |evs|
  {
    if evs != [] {
      var st1 := LegacyStep(st, evs[0], fs).value;
      LegacyRunFlags(st1, evs[1..], fs);
      forall name | name == "stash" || name == "backpack"
        ensures SeenStart(evs, name) <==> (evs[0].Start? && evs[0].name == name) || SeenStart(evs[1..], name)
      {
        if SeenStart(evs, name) {
          var k :| 0 <= k < |evs| && evs[k].Start? && evs[k].name == name;
          if k > 0 { assert evs[1..][k - 1] == evs[k]; }
        }
        if SeenStart(evs[1..], name) {
          var k :| 0 <= k < |evs[1..]| && evs[1..][k].Start? && evs[1..][k].name == name;
          assert evs[k + 1] == evs[1..][k];
        }
      }
    }
  }

  /** A `hard_capacity` that is not a u16. */
  predicate BadCapacityAttr(a: Attr) {
    a.key == "hard_capacity" && ParseU16(a.value).None?
  }

  /** An `order` attribute whose number does not parse. */
  predicate BadOrderAttr(a: Attr) {
    || (a.key == "moving" && ParseI32(a.value).None?)
    || (a.key == "class" && ParseI8(a.value).None?)
  }

  /** An ungrouped entry attribute whose number does not parse. */
  predicate BadLegacyItemAttr(a: Attr) {
    || (a.key == "class" && ParseI8(a.value).None?)
    || (a.key == "index" && ParseI32(a.value).None?)
  }

  /** An equipped item attribute whose number does not parse. */
  predicate BadItemAttr(a: Attr) {
    || (a.key == "slot" && ParseI8(a.value).None?)
    || (a.key == "index" && ParseI32(a.value).None?)
    || (a.key == "amount" && ParseI8(a.value).None?)
  }

  /** Attribute `i` of event `j` is one the older reader rejects there: a
      number that does not parse on a `person`, `stash` or `backpack` start
      tag, or on a self-closing `order` or `item`. Which fields of an `item`
      are numbers depends on whether a stash or backpack start tag came
      before it. */
  predicate LegacyBadAttr(evs: seq<Event>, j: nat, i: nat, fs: FloatSyntax) {
    && j < |evs| && (evs[j].Start? || evs[j].Empty?) && i < |evs[j].attrs|
    && var e := evs[j]; var a := e.attrs[i];
      || (e.Start? && e.name == "person" && BadPersonAttr(a, fs))
      || (e.Start? && (e.name == "stash" || e.name == "backpack") && BadCapacityAttr(a))
      || (e.Empty? && e.name == "order" && BadOrderAttr(a))
      || (e.Empty? && e.name == "item" &&
          if SeenStart(evs[..j], "stash") || SeenStart(evs[..j], "backpack") then BadLegacyItemAttr(a)
          else BadItemAttr(a))
  }

  /** An attribute the older reader cannot parse fails the whole read, and
      so the migration, wherever its tag stands and whatever the other
      attributes say. */
  lemma LegacyBadAttrFails(evs: seq<Event>, j: nat, i: nat, fs: FloatSyntax)
    requires LegacyBadAttr(evs, j, i, fs)
    ensures DecodeLegacy(evs, fs).Failure?
  {
    LegacyRunAppend(LegacyInitial, evs[..j], evs[j..], fs);
    assert evs[..j] + evs[j..] == evs;
    match LegacyRun(LegacyInitial, evs[..j], fs)
    case Failure(_) =>
    case Success(st) =>
      LegacyRunFlags(LegacyInitial, evs[..j], fs);
      assert evs[j..][0] == evs[j];
      var e := evs[j];
      if e.Start? && e.name == "person" {
        FoldAttrsFailsAt(st.person, e.attrs, PersonAttrHandler(fs), i);
      } else if e.Start? && e.name == "stash" {
        FoldAttrsFailsAt(st.person, e.attrs, ApplyStashAttr, i);
      } else if e.Start? && e.name == "backpack" {
        FoldAttrsFailsAt(st.person, e.attrs, ApplyBackpackAttr, i);
      } else if e.name == "order" {
        FoldAttrsFailsAt(DefaultOrder, e.attrs, ApplyOrderAttr, i);
      } else if st.inBackpack || st.inStash {
        FoldAttrsFailsAt(LegacyItemDefault, e.attrs, ApplyLegacyItemAttr, i);
      } else {
        FoldAttrsFailsAt(DefaultItem, e.attrs, ApplyItemAttr, i);
      }
  }
}
