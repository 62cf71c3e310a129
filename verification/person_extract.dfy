/** Reading a `.person` file (src/person/extract.rs): the event loop of
    `extract_person`, which starts from `Person::default()` and lets each
    recognised tag overwrite or extend it. */
module PersonExtract {
  import opened Wrappers
  import opened Numerals
  import opened XmlEvents
  import opened PersonModel
  import opened PersonSave

  /** The reader's state: the person read so far and the three flags. The
      flags are set by start tags and never cleared: end tags are ignored. */
  datatype ReadState = ReadState(person: Person, inPerson: bool, inStash: bool, inBackpack: bool)

  const InitialState: ReadState := ReadState(DefaultPerson, false, false, false)

  /** The `?` on a `parse()`: a value that does not parse ends the decode. */
  function Need<T>(o: Option<T>, key: string): (r: Result<T, DecodeError>)
    ensures r.Success? <==> o.Some?
    ensures r.Success? ==> r.value == o.value
    ensures r.Failure? ==> r.error == BadValue(key)
  {
    match o
    case None => Failure(BadValue(key))
    case Some(v) => Success(v)
  }

  /** One attribute of the person start tag. An `order` attribute is
      accepted and has no effect; unknown attributes are ignored. */
  function ApplyPersonAttr(p: Person, a: Attr, fs: FloatSyntax): Result<Person, DecodeError> {
    var v := a.value;
    if a.key == "max_authority_reached" then
      var x :- Need(fs.parse(v), a.key); Success(p.(maxAuthorityReached := x))
    else if a.key == "authority" then
      var x :- Need(fs.parse(v), a.key); Success(p.(authority := x))
    else if a.key == "job_points" then
      var x :- Need(fs.parse(v), a.key); Success(p.(jobPoints := x))
    else if a.key == "faction" then Success(p.(faction := v))
    else if a.key == "name" then Success(p.(name := v))
    else if a.key == "version" then
      var x :- Need(ParseU16(v), a.key); Success(p.(version := x))
    else if a.key == "alive" then
      var x :- Need(ParseI8(v), a.key); Success(p.(alive := x))
    else if a.key == "soldier_group_id" then
      var x :- Need(ParseI8(v), a.key); Success(p.(soldierGroupId := x))
    else if a.key == "soldier_group_name" then Success(p.(soldierGroupName := v))
    else if a.key == "block" then Success(p.(block := v))
    else if a.key == "squad_size_setting" then
      var x :- Need(fs.parse(v), a.key); Success(p.(squadSizeSetting := x))
    else Success(p)
  }

  /** The person attribute handler as the attribute loop applies it. */
  function PersonAttrHandler(fs: FloatSyntax): (Person, Attr) -> Result<Person, DecodeError> {
    (p, a) => ApplyPersonAttr(p, a, fs)
  }

  /** The `hard_capacity` attribute of a `stash` start tag. */
  function ApplyStashAttr(p: Person, a: Attr): Result<Person, DecodeError> {
    if a.key == "hard_capacity" then
      var x :- Need(ParseU16(a.value), a.key); Success(p.(stashHardCapacity := x))
    else Success(p)
  }

  /** The `hard_capacity` attribute of a `backpack` start tag. */
  function ApplyBackpackAttr(p: Person, a: Attr): Result<Person, DecodeError> {
    if a.key == "hard_capacity" then
      var x :- Need(ParseU16(a.value), a.key); Success(p.(backpackHardCapacity := x))
    else Success(p)
  }

  function ApplyOrderAttr(o: OrderTag, a: Attr): Result<OrderTag, DecodeError> {
    if a.key == "moving" then
      var x :- Need(ParseI32(a.value), a.key); Success(o.(moving := x))
    else if a.key == "target" then Success(o.(target := a.value))
    else if a.key == "class" then
      var x :- Need(ParseI8(a.value), a.key); Success(o.(classId := x))
    else Success(o)
  }

  function ApplyItemAttr(it: ItemTag, a: Attr): Result<ItemTag, DecodeError> {
    if a.key == "slot" then
      var x :- Need(ParseI8(a.value), a.key); Success(it.(slot := x))
    else if a.key == "index" then
      var x :- Need(ParseI32(a.value), a.key); Success(it.(index := x))
    else if a.key == "amount" then
      var x :- Need(ParseI8(a.value), a.key); Success(it.(amount := x))
    else if a.key == "key" then Success(it.(key := a.value))
    else Success(it)
  }

  /** An `item_group` attribute; the amount is read as a 32-bit integer. */
  function ApplyGroupAttr(g: ItemGroupTag, a: Attr): Result<ItemGroupTag, DecodeError> {
    if a.key == "class" then
      var x :- Need(ParseI8(a.value), a.key); Success(g.(classId := x))
    else if a.key == "index" then
      var x :- Need(ParseI32(a.value), a.key); Success(g.(index := x))
    else if a.key == "key" then Success(g.(key := a.value))
    else if a.key == "amount" then
      var x :- Need(ParseI32(a.value), a.key); Success(g.(amount := x))
    else Success(g)
  }

  /** One turn of the reader loop. A stack goes to the backpack once a
      backpack start tag has been seen, else to the stash once a stash start
      tag has been seen, else nowhere. A self-closing `backpack` tag is
      ignored; `readsEmptyBackpack` switches on the corrected reading that
      takes its `hard_capacity` (see `DecodePersonExact`). */
  function Step(st: ReadState, e: Event, fs: FloatSyntax, readsEmptyBackpack: bool): (r: Result<ReadState, DecodeError>)
    ensures r.Success? && e.Start? ==>
      && (r.value.inPerson <==> st.inPerson || e.name == "person")
      && (r.value.inStash <==> st.inStash || e.name == "stash")
      && (r.value.inBackpack <==> st.inBackpack || e.name == "backpack")
    ensures r.Success? && !e.Start? ==>
      r.value.inPerson == st.inPerson && r.value.inStash == st.inStash && r.value.inBackpack == st.inBackpack
    ensures e.Broken? ==> r == Failure(ReaderPanic)
  {
    match e
    case Start(name, attrs) =>
      if name == "person" then
        var p :- FoldAttrs(st.person, attrs, PersonAttrHandler(fs));
        Success(st.(person := p, inPerson := true))
      else if name == "stash" then
        var p :- FoldAttrs(st.person, attrs, ApplyStashAttr);
        Success(st.(person := p, inStash := true))
      else if name == "backpack" then
        var p :- FoldAttrs(st.person, attrs, ApplyBackpackAttr);
        Success(st.(person := p, inBackpack := true))
      else Success(st)
    case Empty(name, attrs) =>
      if name == "order" then
        var o :- FoldAttrs(DefaultOrder, attrs, ApplyOrderAttr);
        Success(st.(person := st.person.(order := o)))
      else if name == "item_group" then
        var g :- FoldAttrs(DefaultItemGroup, attrs, ApplyGroupAttr);
        if st.inBackpack then Success(st.(person := st.person.(backpackItemList := st.person.backpackItemList + [g])))
        else if st.inStash then Success(st.(person := st.person.(stashItemList := st.person.stashItemList + [g])))
        else Success(st)
      else if name == "item" then
        var it :- FoldAttrs(DefaultItem, attrs, ApplyItemAttr);
        Success(st.(person := st.person.(itemList := st.person.itemList + [it])))
      else if name == "backpack" && readsEmptyBackpack then
        var p :- FoldAttrs(st.person, attrs, ApplyBackpackAttr);
        Success(st.(person := p))
      else Success(st)
    case End(_) => Success(st)
    case Other => Success(st)
    case Broken => Failure(ReaderPanic)
  }

  function Run(st: ReadState, evs: seq<Event>, fs: FloatSyntax, readsEmptyBackpack: bool): Result<ReadState, DecodeError>
    decreases |evs|
  {
    if evs == [] then Success(st)
    else
      var st' :- Step(st, evs[0], fs, readsEmptyBackpack);
      Run(st', evs[1..], fs, readsEmptyBackpack)
  }

  /** What `extract_person` returns for a file whose events are `evs`. It
      differs from the corrected reader only on a file with a self-closing
      `backpack` tag. */
  function DecodePerson(evs: seq<Event>, fs: FloatSyntax): (r: Result<Person, DecodeError>)
    ensures NoEmptyBackpack(evs) ==> r == DecodePersonExact(evs, fs)
  {
    RunWithoutEmptyBackpack(InitialState, evs, fs);
    var st :- Run(InitialState, evs, fs, false);
    Success(st.person)
  }

  /** No self-closing `backpack` tag in the stream. */
  predicate NoEmptyBackpack(evs: seq<Event>) {
    forall i :: 0 <= i < |evs| ==> !(evs[i].Empty? && evs[i].name == "backpack")
  }

  /** Without a self-closing `backpack`, the corrected reading changes nothing. */
  lemma {:induction false} RunWithoutEmptyBackpack(st: ReadState, evs: seq<Event>, fs: FloatSyntax)
    ensures NoEmptyBackpack(evs) ==> Run(st, evs, fs, false) == Run(st, evs, fs, true)
    decreases |evs|
  {
    if evs != [] && NoEmptyBackpack(evs) {
      assert !(evs[0].Empty? && evs[0].name == "backpack");
      assert Step(st, evs[0], fs, false) == Step(st, evs[0], fs, true);
      forall i | 0 <= i < |evs[1..]| ensures !(evs[1..][i].Empty? && evs[1..][i].name == "backpack") {
        assert evs[1..][i] == evs[i + 1];
      }
      match Step(st, evs[0], fs, false)
      case Failure(_) =>
      case Success(st1) => RunWithoutEmptyBackpack(st1, evs[1..], fs);
    }
  }

  /** The corrected reader: a self-closing backpack tag's capacity is kept. */
  function DecodePersonExact(evs: seq<Event>, fs: FloatSyntax): Result<Person, DecodeError> {
    var st :- Run(InitialState, evs, fs, true);
    Success(st.person)
  }

  /** `extract_person`: the `loop { match reader.read_event(..) }`, event by
      event, until the end of the stream. */
  method ExtractPerson(evs: seq<Event>, fs: FloatSyntax) returns (r: Result<Person, DecodeError>)
    ensures r == DecodePerson(evs, fs)
  {
    var st := InitialState;
    var i := 0;
    while i < |evs|
      invariant 0 <= i <= |evs|
      invariant Run(st, evs[i..], fs, false) == Run(InitialState, evs, fs, false)
    {
      assert evs[i..][1..] == evs[i + 1..];
      var next := Step(st, evs[i], fs, false);
      if next.Failure? {
        return Failure(next.error);
      }
      st := next.value;
      i := i + 1;
    }
    return Success(st.person);
  }

  // ---------------------------------------------------------------------
  // Properties of the reader
  // ---------------------------------------------------------------------

  /** Running a concatenation runs the second part from where the first
      part left off, and fails if the first part fails. */
  lemma {:induction false} RunAppend(st: ReadState, a: seq<Event>, b: seq<Event>, fs: FloatSyntax, x: bool)
    ensures Run(st, a + b, fs, x) ==
      (match Run(st, a, fs, x)
       case Failure(e) => Failure(e)
       case Success(st') => Run(st', b, fs, x))
    decreases |a|
  {
    if a == [] {
      assert a + b == b;
    } else {
      assert (a + b)[0] == a[0] && (a + b)[1..] == a[1..] + b;
      match Step(st, a[0], fs, x)
      case Failure(_) =>
      case Success(st') => RunAppend(st', a[1..], b, fs, x);
    }
  }

  /** The flags only ever go from false to true: a closing tag does not
      leave the stash or the backpack. */
  lemma {:induction false} FlagsMonotone(st: ReadState, evs: seq<Event>, fs: FloatSyntax, x: bool)
    requires Run(st, evs, fs, x).Success?
    ensures var st' := Run(st, evs, fs, x).value;
      (st.inPerson ==> st'.inPerson) && (st.inStash ==> st'.inStash) && (st.inBackpack ==> st'.inBackpack)
    decreases |evs|
  {
    if evs != [] {
      var st1 := Step(st, evs[0], fs, x).value;
      FlagsMonotone(st1, evs[1..], fs, x);
    }
  }

  /** A closing tag, text, or a tag the reader does not know changes
      nothing; a tokeniser error always ends the decode. */
  lemma StepIgnores(st: ReadState, e: Event, fs: FloatSyntax, x: bool)
    ensures e.End? || e.Other? ==> Step(st, e, fs, x) == Success(st)
    ensures e.Start? && e.name !in {"person", "stash", "backpack"} ==> Step(st, e, fs, x) == Success(st)
    ensures e.Empty? && e.name !in {"order", "item_group", "item", "backpack"} ==> Step(st, e, fs, x) == Success(st)
    ensures e.Broken? ==> Step(st, e, fs, x) == Failure(ReaderPanic)
  {
  }

  /** A stream with a tokeniser error anywhere never yields a person. */
  lemma {:induction false} BrokenStreamFails(evs: seq<Event>, i: nat, fs: FloatSyntax)
    requires i < |evs| && evs[i].Broken?
    ensures DecodePerson(evs, fs).Failure?
  {
    RunAppend(InitialState, evs[..i], evs[i..], fs, false);
    assert evs[..i] + evs[i..] == evs;
    match Run(InitialState, evs[..i], fs, false)
    case Failure(_) =>
    case Success(st) =>
      assert evs[i..][0] == evs[i];
  }

  /** Where a self-closing `item_group` goes: to the backpack once a
      backpack start tag has been seen, else to the stash once a stash start
      tag has been seen, else nowhere; and a stack whose attributes do not
      parse fails the decode wherever it stands, dropped or not. */
  lemma ItemGroupRouting(st: ReadState, attrs: seq<Attr>, fs: FloatSyntax, x: bool)
    ensures FoldAttrs(DefaultItemGroup, attrs, ApplyGroupAttr).Failure? ==>
      Step(st, Empty("item_group", attrs), fs, x).Failure?
    ensures FoldAttrs(DefaultItemGroup, attrs, ApplyGroupAttr).Success? ==>
      var g := FoldAttrs(DefaultItemGroup, attrs, ApplyGroupAttr).value;
      var r := Step(st, Empty("item_group", attrs), fs, x);
      && r.Success?
      && (st.inBackpack ==> r.value == st.(person := st.person.(backpackItemList := st.person.backpackItemList + [g])))
      && (!st.inBackpack && st.inStash ==> r.value == st.(person := st.person.(stashItemList := st.person.stashItemList + [g])))
      && (!st.inBackpack && !st.inStash ==> r.value == st)
  {
  }

  /** Stacks before any stash or backpack start tag are read and dropped. */
  lemma {:induction false} RunGroupsDropped(st: ReadState, groups: seq<ItemGroupTag>, fs: FloatSyntax, x: bool)
    requires !st.inStash && !st.inBackpack && AmountsFit(groups)
    ensures Run(st, GroupEvents(groups), fs, x) == Success(st)
    decreases |groups|
  {
    if groups != [] {
      ReadGroupAttrs(groups[0]);
      ItemGroupRouting(st, GroupAttrs(groups[0]), fs, x);
      GroupEventsCons(groups);
      RunGroupsDropped(st, groups[1..], fs, x);
    }
  }

  /** A self-closing `order` replaces the whole order, and an attribute it
      lacks takes the `OrderTag` default rather than the previous value;
      nothing else is touched. */
  lemma OrderFromTag(st: ReadState, attrs: seq<Attr>, fs: FloatSyntax, x: bool)
    requires Step(st, Empty("order", attrs), fs, x).Success?
    ensures var r := Step(st, Empty("order", attrs), fs, x).value;
      && r == st.(person := st.person.(order := r.person.order))
      && ("moving" !in Keys(attrs) ==> r.person.order.moving == 0)
      && ("target" !in Keys(attrs) ==> r.person.order.target == "")
      && ("class" !in Keys(attrs) ==> r.person.order.classId == 0)
  {
    OrderKeepsAbsent(DefaultOrder, attrs);
  }

  /** An order attribute that is absent leaves its field as it was. */
  lemma {:induction false} OrderKeepsAbsent(o: OrderTag, attrs: seq<Attr>)
    requires FoldAttrs(o, attrs, ApplyOrderAttr).Success?
    ensures var r := FoldAttrs(o, attrs, ApplyOrderAttr).value;
      && ("moving" !in Keys(attrs) ==> r.moving == o.moving)
      && ("target" !in Keys(attrs) ==> r.target == o.target)
      && ("class" !in Keys(attrs) ==> r.classId == o.classId)
    decreases |attrs|
  {
    if attrs != [] {
      var o1 := ApplyOrderAttr(o, attrs[0]).value;
      OrderKeepsAbsent(o1, attrs[1..]);
      assert Keys(attrs) == [attrs[0].key] + Keys(attrs[1..]);
    }
  }

  /** A file without a self-closing `order` keeps the order it started
      with: no other tag or attribute writes it. */
  lemma {:induction false} NoOrderTagKeepsOrder(st: ReadState, evs: seq<Event>, fs: FloatSyntax, x: bool)
    requires Run(st, evs, fs, x).Success?
    requires forall i :: 0 <= i < |evs| ==> !(evs[i].Empty? && evs[i].name == "order")
    ensures Run(st, evs, fs, x).value.person.order == st.person.order
    decreases |evs|
  {
    if evs != [] {
      var st1 := Step(st, evs[0], fs, x).value;
      StepKeepsOrder(st, evs[0], fs, x);
      NoOrderTagKeepsOrder(st1, evs[1..], fs, x);
    }
  }

  /** A single step other than a self-closing `order` keeps the order. */
  lemma StepKeepsOrder(st: ReadState, e: Event, fs: FloatSyntax, x: bool)
    requires Step(st, e, fs, x).Success?
    requires !e.Empty? || e.name != "order"
    ensures Step(st, e, fs, x).value.person.order == st.person.order
  {
    var order := (p: Person) => p.order;
    match e
    case Start(name, attrs) =>
      if name == "person" {
        FoldAttrsKeeps(st.person, attrs, PersonAttrHandler(fs), order);
      } else if name == "stash" {
        FoldAttrsKeeps(st.person, attrs, ApplyStashAttr, order);
      } else if name == "backpack" {
        FoldAttrsKeeps(st.person, attrs, ApplyBackpackAttr, order);
      }
    case Empty(name, attrs) =>
      if name == "backpack" && x {
        FoldAttrsKeeps(st.person, attrs, ApplyBackpackAttr, order);
      }
    case End(_) =>
    case Other =>
  }

  /** A person attribute that must parse: a floating-point field whose
      value does not parse, or an integer field whose value is not a number
      of its width. */
  predicate BadPersonAttr(a: Attr, fs: FloatSyntax) {
    || (a.key in {"max_authority_reached", "authority", "job_points", "squad_size_setting"} && fs.parse(a.value).None?)
    || (a.key == "version" && ParseU16(a.value).None?)
    || (a.key in {"alive", "soldier_group_id"} && ParseI8(a.value).None?)
  }

  /** A person attribute that does not parse makes the whole decode fail,
      wherever the person tag stands and whatever the other attributes say. */
  lemma BadPersonAttrFails(evs: seq<Event>, j: nat, i: nat, fs: FloatSyntax)
    requires j < |evs| && evs[j].Start? && evs[j].name == "person"
    requires i < |evs[j].attrs| && BadPersonAttr(evs[j].attrs[i], fs)
    ensures DecodePerson(evs, fs).Failure?
  {
    RunAppend(InitialState, evs[..j], evs[j..], fs, false);
    assert evs[..j] + evs[j..] == evs;
    match Run(InitialState, evs[..j], fs, false)
    case Failure(_) =>
    case Success(st) =>
      assert evs[j..][0] == evs[j];
      FoldAttrsFailsAt(st.person, evs[j].attrs, PersonAttrHandler(fs), i);
  }

  /** Attributes the person tag does not know are ignored. */
  lemma {:induction false} UnknownPersonAttrsIgnored(p: Person, attrs: seq<Attr>, fs: FloatSyntax)
    requires forall i :: 0 <= i < |attrs| ==> attrs[i].key !in PersonAttrKeys
    ensures FoldAttrs(p, attrs, PersonAttrHandler(fs)) == Success(p)
    decreases |attrs|
  {
    if attrs != [] {
      assert attrs[0].key !in PersonAttrKeys;
      UnknownPersonAttrsIgnored(p, attrs[1..], fs);
    }
  }

  // ---------------------------------------------------------------------
  // Reading back what `save_person` wrote
  // ---------------------------------------------------------------------

  /** The four floating-point fields of `p` read back from their text. */
  ghost predicate FloatsReadBack(p: Person, fs: FloatSyntax) {
    && ReadsBack(fs, p.maxAuthorityReached) && ReadsBack(fs, p.authority)
    && ReadsBack(fs, p.jobPoints) && ReadsBack(fs, p.squadSizeSetting)
  }

  /** The person's eleven scalar fields, copied from `p` onto `q`. */
  function WithScalars(q: Person, p: Person): Person {
    q.(maxAuthorityReached := p.maxAuthorityReached, authority := p.authority, jobPoints := p.jobPoints,
       faction := p.faction, name := p.name, version := p.version, alive := p.alive,
       soldierGroupId := p.soldierGroupId, soldierGroupName := p.soldierGroupName, block := p.block,
       squadSizeSetting := p.squadSizeSetting)
  }

  lemma ReadPersonAttrs(q: Person, p: Person, fs: FloatSyntax)
    requires FloatsReadBack(p, fs)
    ensures FoldAttrs(q, PersonAttrs(p, fs), PersonAttrHandler(fs)) == Success(WithScalars(q, p))
  {
    var ts := seq(12, k requires 0 <= k < 12 => MixPerson(q, p, k));
    var attrs := PersonAttrs(p, fs);
    forall i | 0 <= i < |attrs|
      ensures PersonAttrHandler(fs)(ts[i], attrs[i]) == Success(ts[i + 1])
    {
      if i < 4 { ReadPersonStepA(q, p, fs, i); }
      else if i < 8 { ReadPersonStepB(q, p, fs, i); }
      else { ReadPersonStepC(q, p, fs, i); }
    }
    assert ts[0] == q;
    assert ts[11] == WithScalars(q, p);
    FoldAttrsSteps(ts, attrs, PersonAttrHandler(fs));
  }

  /** The person after the first `k` attributes of `PersonAttrs(p, fs)`
      have been read into `q`. */
  function MixPerson(q: Person, p: Person, k: nat): Person {
    Person(
      if k > 0 then p.maxAuthorityReached else q.maxAuthorityReached,
      if k > 1 then p.authority else q.authority,
      if k > 2 then p.jobPoints else q.jobPoints,
      if k > 3 then p.faction else q.faction,
      if k > 4 then p.name else q.name,
      if k > 5 then p.version else q.version,
      if k > 6 then p.alive else q.alive,
      if k > 7 then p.soldierGroupId else q.soldierGroupId,
      if k > 8 then p.soldierGroupName else q.soldierGroupName,
      if k > 9 then p.block else q.block,
      if k > 10 then p.squadSizeSetting else q.squadSizeSetting,
      q.order, q.itemList, q.backpackHardCapacity, q.stashHardCapacity, q.backpackItemList, q.stashItemList)
  }

  lemma ReadPersonStepA(q: Person, p: Person, fs: FloatSyntax, i: nat)
    requires FloatsReadBack(p, fs) && i < 4
    ensures ApplyPersonAttr(MixPerson(q, p, i), PersonAttrs(p, fs)[i], fs) == Success(MixPerson(q, p, i + 1))
  {
    if i == 0 {
      assert ApplyPersonAttr(MixPerson(q, p, 0), PersonAttrs(p, fs)[0], fs) == Success(MixPerson(q, p, 1));
    } else if i == 1 {
      assert ApplyPersonAttr(MixPerson(q, p, 1), PersonAttrs(p, fs)[1], fs) == Success(MixPerson(q, p, 2));
    } else if i == 2 {
      assert ApplyPersonAttr(MixPerson(q, p, 2), PersonAttrs(p, fs)[2], fs) == Success(MixPerson(q, p, 3));
    } else {
      assert ApplyPersonAttr(MixPerson(q, p, 3), PersonAttrs(p, fs)[3], fs) == Success(MixPerson(q, p, 4));
    }
  }

  lemma ReadPersonStepB(q: Person, p: Person, fs: FloatSyntax, i: nat)
    requires FloatsReadBack(p, fs) && 4 <= i < 8
    ensures ApplyPersonAttr(MixPerson(q, p, i), PersonAttrs(p, fs)[i], fs) == Success(MixPerson(q, p, i + 1))
  {
    if i == 4 {
      assert ApplyPersonAttr(MixPerson(q, p, 4), PersonAttrs(p, fs)[4], fs) == Success(MixPerson(q, p, 5));
    } else if i == 5 {
      ParseShowU16(p.version);
      assert ApplyPersonAttr(MixPerson(q, p, 5), PersonAttrs(p, fs)[5], fs) == Success(MixPerson(q, p, 6));
    } else if i == 6 {
      ParseShowI8(p.alive);
      assert ApplyPersonAttr(MixPerson(q, p, 6), PersonAttrs(p, fs)[6], fs) == Success(MixPerson(q, p, 7));
    } else {
      ParseShowI8(p.soldierGroupId);
      assert ApplyPersonAttr(MixPerson(q, p, 7), PersonAttrs(p, fs)[7], fs) == Success(MixPerson(q, p, 8));
    }
  }

  lemma ReadPersonStepC(q: Person, p: Person, fs: FloatSyntax, i: nat)
    requires FloatsReadBack(p, fs) && 8 <= i < 11
    ensures ApplyPersonAttr(MixPerson(q, p, i), PersonAttrs(p, fs)[i], fs) == Success(MixPerson(q, p, i + 1))
  {
    if i == 8 {
      assert ApplyPersonAttr(MixPerson(q, p, 8), PersonAttrs(p, fs)[8], fs) == Success(MixPerson(q, p, 9));
    } else if i == 9 {
      assert ApplyPersonAttr(MixPerson(q, p, 9), PersonAttrs(p, fs)[9], fs) == Success(MixPerson(q, p, 10));
    } else {
      assert ApplyPersonAttr(MixPerson(q, p, 10), PersonAttrs(p, fs)[10], fs) == Success(MixPerson(q, p, 11));
    }
  }

  lemma ReadOrderAttrs(o: OrderTag)
    ensures FoldAttrs(DefaultOrder, OrderAttrs(o), ApplyOrderAttr) == Success(o)
  {
    ParseShowI32(o.moving);
    ParseShowI8(o.classId);
    var ts := [DefaultOrder, DefaultOrder.(moving := o.moving), DefaultOrder.(moving := o.moving, target := o.target), o];
    FoldAttrsSteps(ts, OrderAttrs(o), ApplyOrderAttr);
  }

  lemma ReadItemAttrs(it: ItemTag)
    ensures FoldAttrs(DefaultItem, ItemAttrs(it), ApplyItemAttr) == Success(it)
  {
    ParseShowI8(it.slot);
    ParseShowI32(it.index);
    ParseShowI8(it.amount);
    var t1 := DefaultItem.(slot := it.slot);
    var t2 := t1.(index := it.index);
    var t3 := t2.(amount := it.amount);
    var ts := [DefaultItem, t1, t2, t3, it];
    var attrs := ItemAttrs(it);
    forall i | 0 <= i < |attrs|
      ensures ApplyItemAttr(ts[i], attrs[i]) == Success(ts[i + 1])
    {
      if i == 0 {} else if i == 1 {} else if i == 2 {} else {}
    }
    FoldAttrsSteps(ts, attrs, ApplyItemAttr);
  }

  /** A stack amount fits the 32-bit integer it is read back as. */
  predicate AmountFits(g: ItemGroupTag) {
    -0x8000_0000 <= g.amount < 0x8000_0000
  }

  predicate AmountsFit(list: seq<ItemGroupTag>) {
    forall i :: 0 <= i < |list| ==> AmountFits(list[i])
  }

  lemma ReadGroupAttrs(g: ItemGroupTag)
    requires AmountFits(g)
    ensures FoldAttrs(DefaultItemGroup, GroupAttrs(g), ApplyGroupAttr) == Success(g)
  {
    ParseShowI8(g.classId);
    ParseShowI32(g.index);
    ParseShowI32(g.amount);
    var t1 := DefaultItemGroup.(classId := g.classId);
    var t2 := t1.(index := g.index);
    var t3 := t2.(key := g.key);
    var ts := [DefaultItemGroup, t1, t2, t3, g];
    var attrs := GroupAttrs(g);
    forall i | 0 <= i < |attrs|
      ensures ApplyGroupAttr(ts[i], attrs[i]) == Success(ts[i + 1])
    {
      if i == 0 {} else if i == 1 {} else if i == 2 {} else {}
    }
    FoldAttrsSteps(ts, attrs, ApplyGroupAttr);
  }

  lemma {:induction false} RunItems(st: ReadState, items: seq<ItemTag>, fs: FloatSyntax, x: bool)
    ensures Run(st, ItemEvents(items), fs, x) == Success(st.(person := st.person.(itemList := st.person.itemList + items)))
    decreases |items|
  {
    if items == [] {
      assert st.person.itemList + items == st.person.itemList;
    } else {
      var n := |items| - 1;
      var init := items[..n];
      RunItems(st, init, fs, x);
      assert items[..n + 1] == items;
      ItemEventsSnoc(items, n);
      RunAppend(st, ItemEvents(init), [Empty("item", ItemAttrs(items[n]))], fs, x);
      ReadItemAttrs(items[n]);
      assert st.person.itemList + init + [items[n]] == st.person.itemList + items;
    }
  }

  /** The stacks after a stash start tag, with no backpack start tag yet. */
  lemma {:induction false} RunStashGroups(st: ReadState, groups: seq<ItemGroupTag>, fs: FloatSyntax, x: bool)
    requires st.inStash && !st.inBackpack && AmountsFit(groups)
    ensures Run(st, GroupEvents(groups), fs, x) == Success(st.(person := st.person.(stashItemList := st.person.stashItemList + groups)))
    decreases |groups|
  {
    if groups == [] {
      assert st.person.stashItemList + groups == st.person.stashItemList;
    } else {
      var n := |groups| - 1;
      var init := groups[..n];
      RunStashGroups(st, init, fs, x);
      var mid := st.(person := st.person.(stashItemList := st.person.stashItemList + init));
      assert groups[..n + 1] == groups;
      GroupEventsSnoc(groups, n);
      RunAppend(st, GroupEvents(init), [Empty("item_group", GroupAttrs(groups[n]))], fs, x);
      ReadGroupAttrs(groups[n]);
      ItemGroupRouting(mid, GroupAttrs(groups[n]), fs, x);
      assert st.person.stashItemList + init + [groups[n]] == st.person.stashItemList + groups;
    }
  }

  /** The stacks after a backpack start tag. */
  lemma {:induction false} RunBackpackGroups(st: ReadState, groups: seq<ItemGroupTag>, fs: FloatSyntax, x: bool)
    requires st.inBackpack && AmountsFit(groups)
    ensures Run(st, GroupEvents(groups), fs, x) == Success(st.(person := st.person.(backpackItemList := st.person.backpackItemList + groups)))
    decreases |groups|
  {
    if groups == [] {
      assert st.person.backpackItemList + groups == st.person.backpackItemList;
    } else {
      var n := |groups| - 1;
      var init := groups[..n];
      RunBackpackGroups(st, init, fs, x);
      var mid := st.(person := st.person.(backpackItemList := st.person.backpackItemList + init));
      assert groups[..n + 1] == groups;
      GroupEventsSnoc(groups, n);
      RunAppend(st, GroupEvents(init), [Empty("item_group", GroupAttrs(groups[n]))], fs, x);
      ReadGroupAttrs(groups[n]);
      ItemGroupRouting(mid, GroupAttrs(groups[n]), fs, x);
      assert st.person.backpackItemList + init + [groups[n]] == st.person.backpackItemList + groups;
    }
  }

  lemma ReadCapacity(q: Person, c: U16)
    ensures FoldAttrs(q, CapacityAttrs(c), ApplyStashAttr) == Success(q.(stashHardCapacity := c))
    ensures FoldAttrs(q, CapacityAttrs(c), ApplyBackpackAttr) == Success(q.(backpackHardCapacity := c))
  {
    ParseShowU16(c);
    FoldAttrsSteps([q, q.(stashHardCapacity := c)], CapacityAttrs(c), ApplyStashAttr);
    FoldAttrsSteps([q, q.(backpackHardCapacity := c)], CapacityAttrs(c), ApplyBackpackAttr);
  }

  /** The stash element, read inside the person before any backpack tag. */
  lemma RunStash(st: ReadState, p: Person, fs: FloatSyntax, x: bool)
    requires !st.inBackpack && st.person.stashItemList == [] && AmountsFit(p.stashItemList)
    ensures Run(st, StashEvents(p), fs, x) == Success(st.(inStash := true,
      person := st.person.(stashHardCapacity := p.stashHardCapacity, stashItemList := p.stashItemList)))
  {
    var start := [Start("stash", CapacityAttrs(p.stashHardCapacity))];
    var groups := GroupEvents(p.stashItemList);
    ReadCapacity(st.person, p.stashHardCapacity);
    var s1 := st.(inStash := true, person := st.person.(stashHardCapacity := p.stashHardCapacity));
    assert Run(st, start, fs, x) == Success(s1);
    RunStashGroups(s1, p.stashItemList, fs, x);
    assert [] + p.stashItemList == p.stashItemList;
    RunAppend(st, start, groups, fs, x);
    RunAppend(st, start + groups, [End("stash")], fs, x);
  }

  /** The backpack element: a start tag with its stacks, or a self-closing
      tag when it is empty, whose capacity only the corrected reader keeps. */
  lemma RunBackpack(st: ReadState, p: Person, fs: FloatSyntax, x: bool)
    requires st.person.backpackItemList == [] && AmountsFit(p.backpackItemList)
    ensures Run(st, BackpackEvents(p), fs, x).Success?
    ensures var st' := Run(st, BackpackEvents(p), fs, x).value;
      st'.person == st.person.(backpackItemList := p.backpackItemList,
        backpackHardCapacity := if |p.backpackItemList| == 0 && !x then st.person.backpackHardCapacity else p.backpackHardCapacity)
  {
    ReadCapacity(st.person, p.backpackHardCapacity);
    if |p.backpackItemList| == 0 {
      assert p.backpackItemList == [];
    } else {
      var start := [Start("backpack", CapacityAttrs(p.backpackHardCapacity))];
      var groups := GroupEvents(p.backpackItemList);
      var s1 := st.(inBackpack := true, person := st.person.(backpackHardCapacity := p.backpackHardCapacity));
      assert Run(st, start, fs, x) == Success(s1);
      RunBackpackGroups(s1, p.backpackItemList, fs, x);
      assert [] + p.backpackItemList == p.backpackItemList;
      RunAppend(st, start, groups, fs, x);
      RunAppend(st, start + groups, [End("backpack")], fs, x);
    }
  }

  /** Running on after a prefix that succeeded. */
  lemma RunThen(st: ReadState, a: seq<Event>, b: seq<Event>, fs: FloatSyntax, x: bool, mid: ReadState)
    requires Run(st, a, fs, x) == Success(mid)
    ensures Run(st, a + b, fs, x) == Run(mid, b, fs, x)
  {
    RunAppend(st, a, b, fs, x);
  }

  /** The person start tag and the order. */
  lemma RunHead(p: Person, fs: FloatSyntax, x: bool)
    requires FloatsReadBack(p, fs)
    ensures Run(InitialState, [Start("person", PersonAttrs(p, fs)), Empty("order", OrderAttrs(p.order))], fs, x)
      == Success(InitialState.(inPerson := true, person := WithScalars(DefaultPerson, p).(order := p.order)))
  {
    var st0 := InitialState;
    var head := [Start("person", PersonAttrs(p, fs)), Empty("order", OrderAttrs(p.order))];
    ReadPersonAttrs(DefaultPerson, p, fs);
    ReadOrderAttrs(p.order);
    var s0 := st0.(inPerson := true, person := WithScalars(DefaultPerson, p));
    var s1 := s0.(person := s0.person.(order := p.order));
    assert Step(st0, head[0], fs, x) == Success(s0);
    assert Step(s0, head[1], fs, x) == Success(s1);
    assert head[1..][1..] == [];
    assert Run(s1, head[1..][1..], fs, x) == Success(s1);
    assert Run(s0, head[1..], fs, x) == Success(s1);
  }

  /** Reading the layout `save_person` writes. */
  lemma RunLayout(p: Person, fs: FloatSyntax, x: bool)
    requires FloatsReadBack(p, fs) && AmountsFit(p.stashItemList) && AmountsFit(p.backpackItemList)
    ensures Run(InitialState, PersonLayout(p, fs), fs, x).Success?
    ensures Run(InitialState, PersonLayout(p, fs), fs, x).value.person ==
      p.(backpackHardCapacity := if |p.backpackItemList| == 0 && !x then MaxDefaultBackpackLen else p.backpackHardCapacity)
  {
    var st0 := InitialState;
    var head := [Start("person", PersonAttrs(p, fs)), Empty("order", OrderAttrs(p.order))];
    RunHead(p, fs, x);
    var s1 := st0.(inPerson := true, person := WithScalars(DefaultPerson, p).(order := p.order));
    var items := ItemEvents(p.itemList);
    RunItems(s1, p.itemList, fs, x);
    var s2 := s1.(person := s1.person.(itemList := p.itemList));
    assert s1.person.itemList + p.itemList == p.itemList;
    RunThen(st0, head, items, fs, x, s1);
    RunStash(s2, p, fs, x);
    var s3 := s2.(inStash := true, person := s2.person.(stashHardCapacity := p.stashHardCapacity, stashItemList := p.stashItemList));
    RunThen(st0, head + items, StashEvents(p), fs, x, s2);
    RunBackpack(s3, p, fs, x);
    var s4 := Run(s3, BackpackEvents(p), fs, x).value;
    RunThen(st0, head + items + StashEvents(p), BackpackEvents(p), fs, x, s3);
    RunThen(st0, head + items + StashEvents(p) + BackpackEvents(p), [End("person")], fs, x, s4);
    assert Run(s4, [End("person")], fs, x) == Success(s4);
    assert PersonLayout(p, fs) == head + items + StashEvents(p) + BackpackEvents(p) + [End("person")];
  }

  /** `extract_person` reads back what `save_person` wrote, field for
      field, except that the capacity of an empty backpack comes back as the
      default 255: the writer puts it on a self-closing tag the reader skips. */
  lemma RoundTrip(p: Person, fs: FloatSyntax)
    requires FloatsReadBack(p, fs) && AmountsFit(p.stashItemList) && AmountsFit(p.backpackItemList)
    ensures DecodePerson(PersonLayout(p, fs), fs) ==
      Success(if |p.backpackItemList| == 0 then p.(backpackHardCapacity := MaxDefaultBackpackLen) else p)
  {
    RunLayout(p, fs, false);
  }

  /** The smallest input that shows the loss: the default person with an
      empty backpack of capacity 100, whose only floating-point value is
      0.0. The reader as written gives back capacity 255; the corrected
      reader gives back the person that was saved. */
  lemma EmptyBackpackCapacityLost(fs: FloatSyntax)
    requires ReadsBack(fs, 0.0)
    ensures var p := DefaultPerson.(backpackHardCapacity := 100);
      && DecodePerson(PersonLayout(p, fs), fs).Success?
      && DecodePerson(PersonLayout(p, fs), fs).value.backpackHardCapacity == 255
      && DecodePersonExact(PersonLayout(p, fs), fs) == Success(p)
  {
    var p := DefaultPerson.(backpackHardCapacity := 100);
    RoundTrip(p, fs);
    RoundTripExact(p, fs);
  }

  /** The loss on one concrete text form of floats, which renders every
      value as "0" and reads "0" back as 0.0: no assumption remains. */
  lemma EmptyBackpackCapacityLostExample()
    ensures var fs := FloatSyntax(x => "0", t => if t == "0" then Some(0.0) else None);
      var p := DefaultPerson.(backpackHardCapacity := 100);
      && DecodePerson(PersonLayout(p, fs), fs) == Success(p.(backpackHardCapacity := 255))
      && DecodePersonExact(PersonLayout(p, fs), fs) == Success(p)
  {
    var fs := FloatSyntax(x => "0", t => if t == "0" then Some(0.0) else None);
    assert ReadsBack(fs, 0.0);
    EmptyBackpackCapacityLost(fs);
    RoundTrip(DefaultPerson.(backpackHardCapacity := 100), fs);
  }

  /** The corrected reader gives back exactly what was written. */
  lemma RoundTripExact(p: Person, fs: FloatSyntax)
    requires FloatsReadBack(p, fs) && AmountsFit(p.stashItemList) && AmountsFit(p.backpackItemList)
    ensures DecodePersonExact(PersonLayout(p, fs), fs) == Success(p)
  {
    RunLayout(p, fs, true);
  }

  /** The reader does not check the version: a file written with any
      version, older ones included, reads back with that version. */
  lemma VersionNotChecked(p: Person, fs: FloatSyntax)
    requires FloatsReadBack(p, fs) && AmountsFit(p.stashItemList) && AmountsFit(p.backpackItemList)
    ensures DecodePerson(PersonLayout(p, fs), fs).Success?
    ensures DecodePerson(PersonLayout(p, fs), fs).value.version == p.version
  {
    RoundTrip(p, fs);
  }
}
