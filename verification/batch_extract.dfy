/** Reading every save file of a folder (src/person/async_extract.rs and
    `extract_all_person` in src/person/extract.rs): which file names give
    ids, and how the per-id reads are put together. The folder listing is a
    sequence of file names in the order the directory yields them; the
    readers are functions from an id to what `extract_person` or
    `extract_profile` returns for that id's file. Tasks run one after the
    other here: a spawned task that panics makes `try_join_all` fail, and a
    panic in the calling code is reported as `Panicked`. */
module BatchExtract {
  import opened Wrappers
  import opened Numerals
  import opened XmlEvents
  import opened PersonModel
  import opened ProfileExtract

  /** Why a whole batch produced no list. */
  datatype BatchError =
    | JoinFailed               // a spawned task panicked, so the join returned an error
    | Panicked                 // the calling code itself panicked (an `unwrap` on an error)
    | BadId(name: string)      // a file name whose stem is not a number, returned as an error
    | ReadFailed(e: DecodeError)  // a read error, returned as an error

  predicate EndsWith(name: string, suffix: string) {
    |suffix| <= |name| && name[|name| - |suffix|..] == suffix
  }

  /** `name.split(".").first()`: the text before the first dot, or the
      whole name when it has none. */
  function Stem(name: string): (s: string)
    ensures s <= name
    ensures '.' !in s
    ensures |s| < |name| ==> name[|s|] == '.'
  {
    if name == [] || name[0] == '.' then [] else [name[0]] + Stem(name[1..])
  }

  /** The id a file name gives, if its stem parses as a `u64`. */
  function NameId(name: string): Option<U64> {
    ParseU64(Stem(name))
  }

  /** The ids of the names with the given suffix, skipping the names whose
      stem does not parse, in listing order. */
  function IdsWithSuffix(names: seq<string>, suffix: string): seq<U64>
    decreases |names|
  {
    if names == [] then []
    else
      var last := names[|names| - 1];
      IdsWithSuffix(names[..|names| - 1], suffix)
        + (if EndsWith(last, suffix) && NameId(last).Some? then [NameId(last).value] else [])
  }

  /** The names with the given suffix, in listing order. */
  function WithSuffix(names: seq<string>, suffix: string): seq<string>
    decreases |names|
  {
    if names == [] then []
    else
      var last := names[|names| - 1];
      WithSuffix(names[..|names| - 1], suffix) + (if EndsWith(last, suffix) then [last] else [])
  }

  /** The id discovery loop of `async_extract_all_person_and_profiles`:
      `.profile` files only, and a name that does not parse is skipped. */
  method DiscoverProfileIds(names: seq<string>) returns (ids: seq<U64>)
    ensures ids == IdsWithSuffix(names, ".profile")
  {
    ids := [];
    var i := 0;
    while i < |names|
      invariant 0 <= i <= |names|
      invariant ids == IdsWithSuffix(names[..i], ".profile")
    {
      assert names[..i + 1][..i] == names[..i];
      var name := names[i];
      if EndsWith(name, ".profile") {
        var parsed := NameId(name);
        if parsed.Some? {
          ids := ids + [parsed.value];
        }
      }
      i := i + 1;
    }
    assert names[..|names|] == names;
  }

  /** The id discovery loop of `async_extract_all_person`: `.person` files,
      and a name that does not parse panics (`parse().unwrap()`). */
  method DiscoverPersonIds(names: seq<string>) returns (r: Result<seq<U64>, BatchError>)
    ensures r.Success? <==> forall i :: 0 <= i < |names| && EndsWith(names[i], ".person") ==> NameId(names[i]).Some?
    ensures r.Success? ==> r.value == IdsWithSuffix(names, ".person")
    ensures r.Failure? ==> r.error == Panicked
  {
    var ids := [];
    var i := 0;
    while i < |names|
      invariant 0 <= i <= |names|
      invariant ids == IdsWithSuffix(names[..i], ".person")
      invariant forall j :: 0 <= j < i && EndsWith(names[j], ".person") ==> NameId(names[j]).Some?
    {
      assert names[..i + 1][..i] == names[..i];
      var name := names[i];
      if EndsWith(name, ".person") {
        var parsed := NameId(name);
        if parsed.None? {
          return Failure(Panicked);
        }
        ids := ids + [parsed.value];
      }
      i := i + 1;
    }
    assert names[..|names|] == names;
    return Success(ids);
  }

  /** One task per id, joined with `try_join_all`, where each task returns
      the reader's result as it is: the join fails only when a task
      panicked, that is, when a read hit a tokeniser error. */
  function JoinResults<T>(ids: seq<U64>, read: U64 -> Result<T, DecodeError>): (r: Result<seq<Result<T, DecodeError>>, BatchError>)
    ensures r.Success? <==> forall i :: 0 <= i < |ids| ==> read(ids[i]) != Failure(ReaderPanic)
    ensures r.Success? ==> |r.value| == |ids| && forall i :: 0 <= i < |ids| ==> r.value[i] == read(ids[i])
    ensures r.Failure? ==> r.error == JoinFailed
    decreases |ids|
  {
    if ids == [] then Success([])
    else
      var init := ids[..|ids| - 1];
      var rest :- JoinResults(init, read);
      var x := read(ids[|ids| - 1]);
      if x == Failure(ReaderPanic) then Failure(JoinFailed) else Success(rest + [x])
  }

  /** Some id's read hits a tokeniser error. */
  predicate SomeReadPanics<T>(ids: seq<U64>, read: U64 -> Result<T, DecodeError>) {
    exists i :: 0 <= i < |ids| && read(ids[i]) == Failure(ReaderPanic)
  }

  /** Every id's read succeeds. */
  predicate AllRead<T>(ids: seq<U64>, read: U64 -> Result<T, DecodeError>) {
    forall i :: 0 <= i < |ids| ==> read(ids[i]).Success?
  }

  /** One task per id that unwraps the reader's result, joined with
      `try_join_all`: any failed read panics its task, and the join fails;
      otherwise the i-th pair holds the i-th id and its record. */
  function JoinUnwrapped<T>(ids: seq<U64>, read: U64 -> Result<T, DecodeError>): (r: Result<seq<(U64, T)>, BatchError>)
    ensures r.Success? <==> AllRead(ids, read)
    ensures r.Success? ==> |r.value| == |ids| && forall i :: 0 <= i < |ids| ==> r.value[i] == (ids[i], read(ids[i]).value)
    ensures r.Failure? ==> r.error == JoinFailed
    decreases |ids|
  {
    if ids == [] then Success([])
    else
      var init := ids[..|ids| - 1];
      var rest :- JoinUnwrapped(init, read);
      var id := ids[|ids| - 1];
      match read(id)
      case Failure(_) => Failure(JoinFailed)
      case Success(v) => Success(rest + [(id, v)])
  }

  /** The indexed map of `async_extract_all_person_and_profiles`: each
      result is unwrapped, so any failed read panics the caller; otherwise
      the i-th triple is the i-th id with its person and profile. */
  function ZipUnwrapped(ids: seq<U64>, ps: seq<Result<Person, DecodeError>>, qs: seq<Result<Profile, DecodeError>>): (r: Result<seq<(U64, Person, Profile)>, BatchError>)
    requires |ps| == |ids| && |qs| == |ids|
    ensures r.Success? <==> forall i :: 0 <= i < |ids| ==> ps[i].Success? && qs[i].Success?
    ensures r.Success? ==>
      |r.value| == |ids| && forall i :: 0 <= i < |ids| ==> r.value[i] == (ids[i], ps[i].value, qs[i].value)
    ensures r.Failure? ==> r.error == Panicked
    decreases |ids|
  {
    if ids == [] then Success([])
    else
      var n := |ids| - 1;
      var rest :- ZipUnwrapped(ids[..n], ps[..n], qs[..n]);
      if ps[n].Failure? || qs[n].Failure? then Failure(Panicked)
      else Success(rest + [(ids[n], ps[n].value, qs[n].value)])
  }

  /** `async_extract_all_person_and_profiles`: it succeeds exactly when
      every read does, and then pairs each discovered id, in order, with its
      person and profile. A tokeniser error in any read fails the join; any
      other failed read panics the caller. */
  function ExtractAllPersonAndProfiles(names: seq<string>, persons: U64 -> Result<Person, DecodeError>,
                                       profiles: U64 -> Result<Profile, DecodeError>): (r: Result<seq<(U64, Person, Profile)>, BatchError>)
    ensures var ids := IdsWithSuffix(names, ".profile");
      r.Success? <==> AllRead(ids, persons) && AllRead(ids, profiles)
    ensures var ids := IdsWithSuffix(names, ".profile");
      r.Success? ==> |r.value| == |ids| && forall i :: 0 <= i < |ids| ==> r.value[i] == (ids[i], persons(ids[i]).value, profiles(ids[i]).value)
    ensures var ids := IdsWithSuffix(names, ".profile");
      r == Failure(JoinFailed) <==> SomeReadPanics(ids, persons) || SomeReadPanics(ids, profiles)
    ensures r.Failure? ==> r.error == JoinFailed || r.error == Panicked
  {
    var ids := IdsWithSuffix(names, ".profile");
    var ps :- JoinResults(ids, persons);
    var qs :- JoinResults(ids, profiles);
    ZipUnwrapped(ids, ps, qs)
  }

  /** `async_extract_all_person`: it succeeds exactly when every `.person`
      stem parses and every read succeeds; a stem that does not parse
      panics the caller, and a failed read fails the join. */
  function ExtractAllPersonAsync(names: seq<string>, read: U64 -> Result<Person, DecodeError>): (r: Result<seq<(U64, Person)>, BatchError>)
    ensures r.Success? <==> StemsParse(names, ".person") && AllRead(IdsWithSuffix(names, ".person"), read)
    ensures r == Failure(Panicked) <==> !StemsParse(names, ".person")
    ensures r.Failure? ==> r.error == JoinFailed || r.error == Panicked
  {
    if StemsParse(names, ".person") then
      JoinUnwrapped(IdsWithSuffix(names, ".person"), read)
    else Failure(Panicked)
  }

  /** Every name with the suffix has a numeric stem. */
  predicate StemsParse(names: seq<string>, suffix: string) {
    forall i :: 0 <= i < |names| && EndsWith(names[i], suffix) ==> NameId(names[i]).Some?
  }

  /** `async_extract_selected_person`: the requested ids as they are, in
      request order and duplicates included; any failed read fails the
      join. */
  function ExtractSelectedPerson(ids: seq<U64>, read: U64 -> Result<Person, DecodeError>): (r: Result<seq<(U64, Person)>, BatchError>)
    ensures r.Success? <==> AllRead(ids, read)
    ensures r.Success? ==> |r.value| == |ids| && forall i :: 0 <= i < |ids| ==> r.value[i] == (ids[i], read(ids[i]).value)
    ensures r.Failure? ==> r.error == JoinFailed
  {
    JoinUnwrapped(ids, read)
  }

  /** `extract_all_person`: every `.profile` file; a stem that does not
      parse or a read that returns an error is returned as the error, and a
      read that panics panics the caller. Of several failures the model
      reports the first in listing order; the parallel iterator leaves it
      open which one is reported. */
  function ExtractAllPerson(names: seq<string>, read: U64 -> Result<Person, DecodeError>): (r: Result<seq<(U64, Person)>, BatchError>)
    ensures r.Success? <==> AllNamedRead(WithSuffix(names, ".profile"), read)
    ensures var ps := WithSuffix(names, ".profile");
      r.Failure? ==> FirstUnread(ps, read) < |ps| && r.error == NamedError(ps[FirstUnread(ps, read)], read)
    ensures r.Failure? ==> r.error != JoinFailed
  {
    ReadNamedOutcome(WithSuffix(names, ".profile"), read);
    ReadNamed(WithSuffix(names, ".profile"), read)
  }

  /** Every path has a numeric stem whose read succeeds. */
  predicate AllNamedRead(paths: seq<string>, read: U64 -> Result<Person, DecodeError>) {
    forall i :: 0 <= i < |paths| ==> NameId(paths[i]).Some? && read(NameId(paths[i]).value).Success?
  }

  /** The read of a path fails: its stem does not parse, or its read
      returns an error. */
  predicate NamedFails(path: string, read: U64 -> Result<Person, DecodeError>) {
    !(NameId(path).Some? && read(NameId(path).value).Success?)
  }

  /** What `extract_all_person` makes of a path whose read fails: a bad
      stem is returned as `BadId`, a tokeniser error panics inside
      `extract_person`, and any other read error is returned by `?`. */
  function NamedError(path: string, read: U64 -> Result<Person, DecodeError>): BatchError
    requires NamedFails(path, read)
  {
    match NameId(path)
    case None => BadId(path)
    case Some(id) => if read(id) == Failure(ReaderPanic) then Panicked else ReadFailed(read(id).error)
  }

  /** The position of the first path whose read fails, or the number of
      paths when every read succeeds. */
  function FirstUnread(paths: seq<string>, read: U64 -> Result<Person, DecodeError>): (n: nat)
    ensures n <= |paths|
    ensures AllNamedRead(paths[..n], read)
    ensures n < |paths| ==> NamedFails(paths[n], read)
    decreases |paths|
  {
    if paths == [] then 0
    else if NamedFails(paths[0], read) then 0
    else 1 + FirstUnread(paths[1..], read)
  }

  /** The synchronous read of the paths, in order; the first path that
      fails decides the error. */
  function ReadNamed(paths: seq<string>, read: U64 -> Result<Person, DecodeError>): (r: Result<seq<(U64, Person)>, BatchError>)
    ensures r.Failure? ==> FirstUnread(paths, read) < |paths| && r.error == NamedError(paths[FirstUnread(paths, read)], read)
    ensures r.Failure? ==> r.error != JoinFailed
    decreases |paths|
  {
    if paths == [] then Success([])
    else
      match NameId(paths[0])
      case None => Failure(BadId(paths[0]))
      case Some(id) =>
        match read(id)
        case Failure(ReaderPanic) => Failure(Panicked)
        case Failure(e) => Failure(ReadFailed(e))
        case Success(p) =>
          var rest :- ReadNamed(paths[1..], read);
          Success([(id, p)] + rest)
  }

  // ---------------------------------------------------------------------
  // Properties
  // ---------------------------------------------------------------------

  /** An id is discovered exactly when some name with the suffix has it as
      its parsed stem; no more ids than names are found. */
  lemma {:induction false} IdsWithSuffixMembers(names: seq<string>, suffix: string)
    ensures |IdsWithSuffix(names, suffix)| <= |names|
    ensures forall x :: x in IdsWithSuffix(names, suffix) <==>
      exists i :: 0 <= i < |names| && EndsWith(names[i], suffix) && NameId(names[i]) == Some(x)
    decreases |names|
  {
    if names != [] {
      var init := names[..|names| - 1];
      IdsWithSuffixMembers(init, suffix);
      forall x | (exists i :: 0 <= i < |names| && EndsWith(names[i], suffix) && NameId(names[i]) == Some(x))
        ensures x in IdsWithSuffix(names, suffix)
      {
        var i :| 0 <= i < |names| && EndsWith(names[i], suffix) && NameId(names[i]) == Some(x);
        if i < |names| - 1 {
          assert init[i] == names[i];
        }
      }
      forall x | x in IdsWithSuffix(init, suffix)
        ensures exists i :: 0 <= i < |names| && EndsWith(names[i], suffix) && NameId(names[i]) == Some(x)
      {
        var i :| 0 <= i < |init| && EndsWith(init[i], suffix) && NameId(init[i]) == Some(x);
        assert names[i] == init[i];
      }
    }
  }

  /** Discovery keeps listing order: the ids of two listings one after the
      other are the ids of the first followed by those of the second. */
  lemma {:induction false} IdsWithSuffixAppend(a: seq<string>, b: seq<string>, suffix: string)
    ensures IdsWithSuffix(a + b, suffix) == IdsWithSuffix(a, suffix) + IdsWithSuffix(b, suffix)
    decreases |b|
  {
    if b == [] {
      assert a + b == a;
    } else {
      var n := |b| - 1;
      assert (a + b)[..|a + b| - 1] == a + b[..n];
      IdsWithSuffixAppend(a, b[..n], suffix);
    }
  }

  /** When every name with the suffix parses, one id is found per name, the
      i-th from the i-th such name. */
  lemma {:induction false} IdsWhenAllParse(names: seq<string>, suffix: string)
    requires forall i :: 0 <= i < |names| && EndsWith(names[i], suffix) ==> NameId(names[i]).Some?
    ensures var ids := IdsWithSuffix(names, suffix); var ns := WithSuffix(names, suffix);
      |ids| == |ns| && forall k :: 0 <= k < |ids| ==> NameId(ns[k]) == Some(ids[k])
    decreases |names|
  {
    if names != [] {
      var init := names[..|names| - 1];
      forall i | 0 <= i < |init| && EndsWith(init[i], suffix) ensures NameId(init[i]).Some? {
        assert init[i] == names[i];
      }
      IdsWhenAllParse(init, suffix);
    }
  }





  /** The all-person batch: a `.person` name that does not parse panics;
      otherwise it succeeds exactly when every read does, with one pair per
      `.person` file, in listing order. */
  lemma AllPersonAsyncOutcome(names: seq<string>, read: U64 -> Result<Person, DecodeError>)
    ensures var r := ExtractAllPersonAsync(names, read);
      var ns := WithSuffix(names, ".person");
      && ((exists i :: 0 <= i < |names| && EndsWith(names[i], ".person") && NameId(names[i]).None?) ==> r == Failure(Panicked))
      && (r.Success? ==>
            |r.value| == |ns| && forall k :: 0 <= k < |ns| ==> NameId(ns[k]) == Some(r.value[k].0) && r.value[k].1 == read(r.value[k].0).value)
  {
    if forall i :: 0 <= i < |names| && EndsWith(names[i], ".person") ==> NameId(names[i]).Some? {
      IdsWhenAllParse(names, ".person");
    }
  }



  /** `extract_all_person` succeeds exactly when every `.profile` name
      parses and every read succeeds; a failed read that is not a tokeniser
      error is returned, never swallowed. */
  lemma {:induction false} ReadNamedOutcome(paths: seq<string>, read: U64 -> Result<Person, DecodeError>)
    ensures var r := ReadNamed(paths, read);
      && (r.Success? <==> AllNamedRead(paths, read))
      && (r.Success? ==>
            |r.value| == |paths| && forall i :: 0 <= i < |paths| ==> r.value[i] == (NameId(paths[i]).value, read(NameId(paths[i]).value).value))
    decreases |paths|
  {
    if paths != [] {
      ReadNamedOutcome(paths[1..], read);
      forall i | 1 <= i < |paths| ensures paths[1..][i - 1] == paths[i] {}
    }
  }

  /** With every `.profile` name parsing, `extract_all_person` reads the
      same ids, in the same order, as the asynchronous discovery. */
  lemma ExtractAllPersonIds(names: seq<string>, read: U64 -> Result<Person, DecodeError>)
    requires ExtractAllPerson(names, read).Success?
    ensures var r := ExtractAllPerson(names, read).value; var ids := IdsWithSuffix(names, ".profile");
      |r| == |ids| && forall i :: 0 <= i < |r| ==> r[i].0 == ids[i] && read(ids[i]).Success? && r[i].1 == read(ids[i]).value
  {
    var ns := WithSuffix(names, ".profile");
    ReadNamedOutcome(ns, read);
    WithSuffixParses(names, ".profile");
    IdsWhenAllParse(names, ".profile");
  }

  /** Every name with the suffix is in `WithSuffix`; so if all of those
      parse, every name with the suffix parses. */
  lemma {:induction false} WithSuffixParses(names: seq<string>, suffix: string)
    requires forall k :: 0 <= k < |WithSuffix(names, suffix)| ==> NameId(WithSuffix(names, suffix)[k]).Some?
    ensures forall i :: 0 <= i < |names| && EndsWith(names[i], suffix) ==> NameId(names[i]).Some?
    decreases |names|
  {
    if names != [] {
      var init := names[..|names| - 1];
      var ns := WithSuffix(init, suffix);
      assert forall k :: 0 <= k < |ns| ==> ns[k] == WithSuffix(names, suffix)[k];
      WithSuffixParses(init, suffix);
      forall i | 0 <= i < |names| && EndsWith(names[i], suffix) ensures NameId(names[i]).Some? {
        if i < |names| - 1 {
          assert init[i] == names[i];
        } else {
          assert WithSuffix(names, suffix)[|ns|] == names[i];
        }
      }
    }
  }

  /** The two listings differ on a `.profile` name whose stem is not a
      number: the asynchronous discovery skips it, `extract_all_person`
      fails on it. */
  lemma NonNumericProfileName(read: U64 -> Result<Person, DecodeError>)
    ensures IdsWithSuffix(["abc.profile"], ".profile") == []
    ensures ExtractAllPerson(["abc.profile"], read) == Failure(BadId("abc.profile"))
  {
    var name := "abc.profile";
    assert Stem(name[3..]) == [];
    assert Stem(name) == "abc";
    assert !IsDigit("abc"[0]);
    assert ParseU64("abc") == None;
    assert EndsWith(name, ".profile");
    assert WithSuffix([name], ".profile") == [name];
  }
}
