/** The single-person handlers of src/person/service.rs, without HTTP: each
    takes what `extract_person` returned for the requested id and says what
    the handler answers and which person, if any, it writes back with
    `save_person_to_file`. The file write itself is taken to succeed. A
    tokeniser error panics inside `extract_person`, before the handler
    reaches its `match`: such a request gets no reply at all. */
module PersonService {
  import opened Wrappers
  import opened Numerals
  import opened XmlEvents
  import opened PersonModel
  import opened PersonSave
  import opened PersonExtract

  /** An HTTP answer, or none when the handler panicked. */
  datatype Reply = Ok(msg: string) | BadRequest(msg: string) | NoReply

  /** What a handler answers, and the person it writes back, if any. */
  datatype Outcome = Outcome(reply: Reply, written: Option<Person>)

  /** The read panicked: `extract_person` hit a tokeniser error. */
  predicate ReadPanicked(source: Result<Person, DecodeError>) {
    source.Failure? && source.error.ReaderPanic?
  }

  /** A handler that panicked answers nothing and writes nothing. */
  const Panicked: Outcome := Outcome(NoReply, None)

  /** The authority `reset_xp_5_starts` sets. */
  const FiveStarsAuthority: real := 11.098661

  /** `Person { max_authority_reached: a, authority: a, ..person }`. */
  function WithAuthority(p: Person, a: real): (q: Person)
    ensures q.authority == a && q.maxAuthorityReached == a
    ensures q.(authority := p.authority, maxAuthorityReached := p.maxAuthorityReached) == p
  {
    p.(maxAuthorityReached := a, authority := a)
  }

  /** `reset_xp`: a person that cannot be read is reported and nothing is
      written; otherwise both authorities become the requested value. */
  function ResetXp(source: Result<Person, DecodeError>, authority: real): (o: Outcome)
    ensures o.written.Some? <==> source.Success?
    ensures o.reply.Ok? <==> source.Success?
    ensures o.reply.NoReply? <==> ReadPanicked(source)
    ensures source.Success? ==> o.written.value == WithAuthority(source.value, authority)
  {
    match source
    case Failure(e) => if e.ReaderPanic? then Panicked else Outcome(BadRequest("save person error"), None)
    case Success(p) => Outcome(Ok("update stash successful"), Some(WithAuthority(p, authority)))
  }

  /** `reset_xp_5_starts`: the same reset, to the fixed authority. */
  function ResetXpFiveStars(source: Result<Person, DecodeError>): (o: Outcome)
    ensures o.written.Some? <==> source.Success?
    ensures o.reply.Ok? <==> source.Success?
    ensures o.reply.NoReply? <==> ReadPanicked(source)
    ensures source.Success? ==> o.written.value == WithAuthority(source.value, FiveStarsAuthority)
  {
    match source
    case Failure(e) => if e.ReaderPanic? then Panicked else Outcome(BadRequest("save person error"), None)
    case Success(p) => Outcome(Ok("update stash successful"), Some(WithAuthority(p, FiveStarsAuthority)))
  }

  /** `update_backpack`: the list replaces the backpack wholesale unless it
      has more entries than the backpack's capacity. The gate counts
      entries, not the items in them. */
  function ReplaceBackpack(source: Result<Person, DecodeError>, list: seq<ItemGroupTag>): (o: Outcome)
    ensures o.written.Some? <==> source.Success? && |list| <= source.value.backpackHardCapacity
    ensures o.reply.Ok? <==> o.written.Some?
    ensures o.reply.NoReply? <==> ReadPanicked(source)
    ensures o.written.Some? ==> o.written.value == source.value.(backpackItemList := list)
  {
    match source
    case Failure(e) => if e.ReaderPanic? then Panicked else Outcome(BadRequest("merge person error"), None)
    case Success(p) =>
      var q := p.(backpackItemList := list);
      if |q.backpackItemList| > q.backpackHardCapacity then Outcome(BadRequest("backpack overload 255"), None)
      else Outcome(Ok("update stash successful"), Some(q))
  }

  /** `update_stash`: the same for the stash, against the stash capacity. */
  function ReplaceStash(source: Result<Person, DecodeError>, list: seq<ItemGroupTag>): (o: Outcome)
    ensures o.written.Some? <==> source.Success? && |list| <= source.value.stashHardCapacity
    ensures o.reply.Ok? <==> o.written.Some?
    ensures o.reply.NoReply? <==> ReadPanicked(source)
    ensures o.written.Some? ==> o.written.value == source.value.(stashItemList := list)
  {
    match source
    case Failure(e) => if e.ReaderPanic? then Panicked else Outcome(BadRequest("merge person error"), None)
    case Success(p) =>
      var q := p.(stashItemList := list);
      if |q.stashItemList| > q.stashHardCapacity then Outcome(BadRequest("stash overload 300"), None)
      else Outcome(Ok("update stash successful"), Some(q))
  }

  /** `update_group_type`: renames the soldier group, with no cost check. */
  function RenameGroup(source: Result<Person, DecodeError>, group: string): (o: Outcome)
    ensures o.written.Some? <==> source.Success?
    ensures o.reply.Ok? <==> source.Success?
    ensures o.reply.NoReply? <==> ReadPanicked(source)
    ensures source.Success? ==> o.written.value.soldierGroupName == group
    ensures source.Success? ==> o.written.value.(soldierGroupName := source.value.soldierGroupName) == source.value
  {
    match source
    case Failure(e) => if e.ReaderPanic? then Panicked else Outcome(BadRequest("merge person error"), None)
    case Success(p) => Outcome(Ok("update group type successful"), Some(p.(soldierGroupName := group)))
  }

  /** `update_person`: reads the person, writes nothing, and reports
      success whether the read succeeded or failed, unless the read
      panicked. */
  function UpdatePerson(source: Result<Person, DecodeError>): (o: Outcome)
    ensures o.written == None
    ensures o.reply.Ok? <==> !ReadPanicked(source)
    ensures o.reply.NoReply? <==> ReadPanicked(source)
  {
    if ReadPanicked(source) then Panicked else Outcome(Ok(""), None)
  }

  /** The capacity validation of `upload_person`: the backpack is checked
      first, then the stash; an upload that cannot be read is refused. */
  function ValidateUpload(source: Result<Person, DecodeError>): (r: Reply)
    ensures r.Ok? <==> source.Success? && WithinCapacity(source.value)
    ensures r.NoReply? <==> ReadPanicked(source)
  {
    match source
    case Failure(e) => if e.ReaderPanic? then NoReply else BadRequest("extract person error")
    case Success(p) =>
      if |p.backpackItemList| > p.backpackHardCapacity then BadRequest("person backpack over 255")
      else if |p.stashItemList| > p.stashHardCapacity then BadRequest("person stash over 300")
      else Ok("upload & replace person success")
  }

  /** The handlers that write a person keep the capacity invariant. */
  lemma HandlersKeepCapacity(p: Person, a: real, list: seq<ItemGroupTag>, group: string)
    requires WithinCapacity(p)
    ensures WithinCapacity(ResetXp(Success(p), a).written.value)
    ensures WithinCapacity(ResetXpFiveStars(Success(p)).written.value)
    ensures ReplaceBackpack(Success(p), list).written.Some? ==> WithinCapacity(ReplaceBackpack(Success(p), list).written.value)
    ensures ReplaceStash(Success(p), list).written.Some? ==> WithinCapacity(ReplaceStash(Success(p), list).written.value)
    ensures WithinCapacity(RenameGroup(Success(p), group).written.value)
  {
  }

  /** The authority `reset_xp` writes is what the next read finds. */
  lemma ResetXpReadsBack(p: Person, a: real, fs: FloatSyntax)
    requires FloatsReadBack(WithAuthority(p, a), fs) && AmountsFit(p.stashItemList) && AmountsFit(p.backpackItemList)
    ensures var q := ResetXp(Success(p), a).written.value;
      && DecodePerson(PersonLayout(q, fs), fs).Success?
      && DecodePerson(PersonLayout(q, fs), fs).value.authority == a
      && DecodePerson(PersonLayout(q, fs), fs).value.maxAuthorityReached == a
  {
    RoundTrip(WithAuthority(p, a), fs);
  }

  /** A backpack written by `update_backpack` reads back as the list that
      was sent, in the order it was sent. */
  lemma ReplaceBackpackReadsBack(p: Person, list: seq<ItemGroupTag>, fs: FloatSyntax)
    requires FloatsReadBack(p, fs) && AmountsFit(p.stashItemList) && AmountsFit(list)
    requires |list| <= p.backpackHardCapacity
    ensures var q := ReplaceBackpack(Success(p), list).written.value;
      && DecodePerson(PersonLayout(q, fs), fs).Success?
      && DecodePerson(PersonLayout(q, fs), fs).value.backpackItemList == list
  {
    RoundTrip(p.(backpackItemList := list), fs);
  }

  /** A file saved from a person within capacity passes the upload check,
      empty backpack included (its capacity reads back as 255). */
  lemma SavedFilePassesUpload(p: Person, fs: FloatSyntax)
    requires FloatsReadBack(p, fs) && AmountsFit(p.stashItemList) && AmountsFit(p.backpackItemList)
    requires WithinCapacity(p)
    ensures ValidateUpload(DecodePerson(PersonLayout(p, fs), fs)).Ok?
  {
    RoundTrip(p, fs);
  }
}
