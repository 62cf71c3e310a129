# rwr-profile-server save files, modelled in Dafny

This project models the save-file logic of rwr-profile-server, a web back end
that edits the `.person` and `.profile` files of the game Running with
Rifles. It covers five parts and proves properties of each:

- **Person codec.** `save_person` writes a soldier record as a fixed
  sequence of XML events: `person`, `order`, `item`, `stash`, `backpack` and
  `item_group` tags. `extract_person` reads such a stream back with an
  event loop and two context flags, `is_in_stash` and `is_in_backpack`.
  XML is modelled as a stream of events (`Start`, `Empty`, `End`, text
  `Other`, and `Broken` for a tokeniser error), not as bytes.
- **Profile decoder.** `extract_profile` reads the `profile` and `stats`
  start tags.
- **Schema-154 migration.**
  - `update_person` reads the older person shape, whose backpack and stash
    hold one ungrouped entry per item.
  - It groups those entries by key into counted stacks.
  - It carries the other fields over onto a current-shape person.
  - `update_profile` rewrites the first `game_version="<digits>"` to
    `game_version="154"`.
- **Mutation operators.**
  - The batch insert into every backpack, with its capacity gate.
  - The batch delete by key.
  - The batch soldier-group change, with its job-point cost.
  - The single-person handlers: reset of authority, wholesale replacement
    of backpack or stash, group rename, the no-op update, and upload
    validation.
- **Batch reads.**
  - Which folder entries yield ids.
  - How per-id reads are joined, and in which order.
  - When a whole batch fails, and how.

Modules, one per file:

- `Wrappers`: Option and Result.
- `Numerals`: Rust's integer `to_string` and `parse`, with the widths i8, i32, u16, u32 and u64.
- `XmlEvents`: events, the attribute loop, and the indentation of the writer.
- `PersonModel`: the records, their defaults and constants.
- `ItemGroupMap`: the listing of a `HashMap`'s values.
- `PersonSave`: writer, insert, delete and group change.
- `PersonExtract`: the reader.
- `PersonService`: the handlers.
- `ProfileExtract`: the profile reader.
- `Migration154`: the person migration.
- `GameVersionRewrite`: the profile migration.
- `BatchExtract`: the batch reads.

Each event loop is a `method` with a `while` loop. It is proved equal to a
fold function (`Run`), and the properties are proved about that function.

The record is the `Person_V153` shape: `version` and both capacities are
`u16`. Stacks are `ItemGroupTag {class: i8, index: i32, key, amount}`.
Floating-point fields are `real`. Their text form is a parameter
`FloatSyntax(show, parse)`. `ReadsBack(fs, x)` says that parsing what
`show` wrote for `x` gives `x` back. The round trips ask this only of the
floats the file carries: the person's four (`FloatsReadBack`) and the
profile's three statistics (`StatsFloatsReadBack`).

Where the code and its description disagree, the model follows the code:

- The insert's capacity gate adds up every existing backpack amount, not only those under incoming keys (src/person/save.rs:136-151).
- An insert over capacity leaves the person unchanged. Its id is only logged, not returned.
- Inserting the same list twice adds the incoming amount a second time: twice the incoming amount plus what was there (`PersonSave.InsertTwice`).
- The older reader does read `hard_capacity` on `stash` and `backpack` (src/version_update/update_to_154.rs:146-177), so the migration copies both capacities instead of resetting them.
- `extract_person` builds the version-mismatch error and then drops it, so any version is accepted (src/person/extract.rs:240-247).
- `extract_all_person` reads `.profile` names, not `.person` names (src/person/extract.rs:253-262).

## Model

| member | source | states |
|---|---|---|
| PersonModel.Defaults | src/person/model.rs:46-66 | the order, item and stash-entry defaults are all zeros and empty strings; the default person has zero numbers, empty strings except group name "default", empty lists and capacities 255/300 |
| PersonModel.CopyPerson | src/person/model.rs:68-91 | the field-by-field copy of `From<&Person>` equals its source |
| PersonModel.KeySetSizeUnique | src/person/save.rs:153-167 | a list with unique keys has exactly one key per entry |
| PersonModel.LengthAtMostSum | src/person/save.rs:136-151 | when every stack holds at least one item, a list has no more entries than items |
| ItemGroupMap.CollectValues | src/person/save.rs:163-167 | listing a map's values yields each value exactly once, in some order |
| ItemGroupMap.EnumeratesKeySet | src/version_update/update_to_154.rs:324-327 | a listing of a map carries exactly the map's keys |
| Numerals.ParseShowInt | src/person/extract.rs:47-85 | parsing what integer `to_string` wrote gives the same integer, negatives included for signed types |
| Numerals.ParseShowU16 | src/person/extract.rs:92-101 | a u16 written and read back is unchanged; the other widths have the same lemma |
| XmlEvents.FoldAttrsFailsAt | src/person/extract.rs:42-86 | one attribute that fails to parse makes the whole tag fail, whatever precedes or follows it |
| PersonSave.SavePerson | src/person/save.rs:12-110 | the writer loop emits exactly `PersonLayout(p, fs)` |
| PersonSave.WriteItems | src/person/save.rs:45-54 | the item loop emits one self-closing `item` per equipped item, in list order |
| PersonSave.WriteGroups | src/person/save.rs:56-75 | the stack loop emits one self-closing `item_group` per stack, in list order |
| PersonSave.LayoutHead | src/person/save.rs:15-54 | the stream opens with the person start tag, then exactly one `order`, then one `item` per equipped item in order |
| PersonSave.HeadKeys | src/person/save.rs:15-54 | the person tag's eleven attribute names, the order's three and each item's four, in their fixed order |
| PersonSave.LayoutStash | src/person/save.rs:56-75 | the stash is always an open/close pair carrying `hard_capacity`, with one `item_group` per stash entry in order, even when empty |
| PersonSave.LayoutBackpack | src/person/save.rs:77-105 | the backpack tag is self-closing exactly when the backpack is empty, otherwise a pair holding one stack per entry in order; the stream ends by closing `person` |
| PersonSave.LayoutIndents | src/person/save.rs:13 | with four spaces per level, `person` sits at the margin, `order`, `item`, `stash` and `backpack` one level in, and stacks two levels in |
| PersonSave.InsertBackpack | src/person/save.rs:131-170 | over capacity (all existing plus all incoming amounts) the person is unchanged; otherwise only the backpack changes, to a listing of the merged map |
| PersonSave.InsertAll | src/person/save.rs:129-171 | every person is written back, in input order, each as `InsertBackpack` would leave it |
| PersonSave.MergeMapContents | src/person/save.rs:153-161 | the merged keys are exactly the incoming and existing keys; an incoming key keeps its last incoming entry, with the existing amounts added; a key only in the backpack keeps its first entry with the summed amount |
| PersonSave.SeedMapContents | src/person/save.rs:155-157 | for a duplicated incoming key, the later entry replaces the earlier |
| PersonSave.FoldStacksContents | src/person/save.rs:159-161 | folding existing entries adds their amounts to a present key and stores the first entry of a new key with the summed amount |
| PersonSave.InsertTwice | src/person/save.rs:153-167 | re-inserting the same list into the result keeps the keys, adds each incoming amount again, and leaves the other stacks as they were |
| PersonSave.InsertWithinCapacity | src/person/save.rs:136-167 | with stacks of at least one item, an accepted insert keeps the backpack within its capacity |
| PersonSave.FilterOutMultiset | src/person/save.rs:205-215 | the filter drops every entry under a deleted key and keeps each other entry as often as it occurred |
| PersonSave.FilterOutAppend | src/person/save.rs:205-215 | the filter keeps order: filtering a concatenation filters each part |
| PersonSave.VacateSlots | src/person/save.rs:217-233 | equipped items keep their number and their slots; a deleted one gets key "", index -1 and amount 0, and the rest are unchanged |
| PersonSave.DeleteItems | src/person/save.rs:200-236 | only the backpack, stash and item list change, and the capacity invariant is kept |
| PersonSave.DeleteIdempotent | src/person/save.rs:196-233 | deleting the same keys twice is the same as deleting them once |
| PersonSave.DeleteAll | src/person/save.rs:196-237 | the request list becomes a key set, and every person is written back in input order |
| PersonSave.ChangeGroup | src/person/save.rs:263-279 | a person short of job points is unchanged; otherwise job points drop by the cost and the group name is replaced, and nothing else changes |
| PersonSave.UpdateSoldierGroup | src/person/save.rs:259-293 | every person is written back in order, changed or not, and the error list is the ids of those who could not pay, in input order |
| PersonSave.ShortOfPointsExactly | src/person/save.rs:269-273 | an id is in the error list exactly when some person with that id had fewer job points than the cost |
| PersonExtract.ExtractPerson | src/person/extract.rs:15-250 | the reader loop returns exactly `DecodePerson(evs, fs)` |
| PersonExtract.Step | src/person/extract.rs:34-237 | one turn of the loop: a start tag sets exactly the flag it names and keeps the others, no other event changes a flag, and a tokeniser error fails with the panic |
| PersonExtract.DecodePerson | src/person/extract.rs:15-250 | the reader as written agrees with the corrected reader on every stream without a self-closing `backpack` tag |
| PersonExtract.FlagsMonotone | src/person/extract.rs:89-120 | the person, stash and backpack flags are only ever set, never cleared, because end tags are ignored |
| PersonExtract.StepIgnores | src/person/extract.rs:226-236 | end tags, text and unknown tags change nothing; a tokeniser error fails |
| PersonExtract.BrokenStreamFails | src/person/extract.rs:235 | a stream with a tokeniser error anywhere yields no person |
| PersonExtract.ItemGroupRouting | src/person/extract.rs:155-191 | a stack goes to the backpack once the backpack flag is set, else to the stash once the stash flag is set, else nowhere; a stack whose attributes do not parse fails the decode even when it would be dropped |
| PersonExtract.RunGroupsDropped | src/person/extract.rs:186-190 | stacks outside both stash and backpack are read and dropped |
| PersonExtract.RunStashGroups | src/person/extract.rs:155-191 | a run of stacks inside the stash is appended to the stash list in document order |
| PersonExtract.RunBackpackGroups | src/person/extract.rs:155-191 | a run of stacks inside the backpack is appended to the backpack list in document order |
| PersonExtract.RunItems | src/person/extract.rs:192-225 | self-closing items are appended to the item list in order, whatever the context |
| PersonExtract.OrderFromTag | src/person/extract.rs:128-153 | a self-closing `order` replaces the whole order and nothing else; a missing attribute takes the default, not the previous value |
| PersonExtract.NoOrderTagKeepsOrder | src/person/extract.rs:39-153 | without a self-closing `order`, the order the read started with is kept |
| PersonExtract.ReadCapacity | src/person/extract.rs:89-120 | `hard_capacity` on a stash or backpack start tag overrides the capacity |
| PersonExtract.BadPersonAttrFails | src/person/extract.rs:47-85 | a person attribute whose number does not parse fails the whole decode |
| PersonExtract.UnknownPersonAttrsIgnored | src/person/extract.rs:81-84 | attributes the person tag does not know leave the person unchanged |
| PersonExtract.RoundTrip | src/person/extract.rs:39-226 | when the four floats read back, reading what `save_person` wrote gives back every field and list in order, except that an empty backpack's capacity reads as 255 |
| PersonExtract.EmptyBackpackCapacityLost | src/person/extract.rs:226 | the default person with an empty backpack of capacity 100, saved and read back, has capacity 255; the corrected reader gives back capacity 100; the only float, 0.0, must read back |
| PersonExtract.EmptyBackpackCapacityLostExample | src/person/save.rs:85-86 | the same loss on a concrete float syntax, with no assumption left |
| PersonExtract.RoundTripExact | src/person/extract.rs:39-226 | when the four floats read back, the corrected reader, which reads a self-closing backpack's capacity, gives back exactly the saved person |
| PersonExtract.VersionNotChecked | src/person/extract.rs:240-249 | when the four floats read back, the decode succeeds with the file's version, whatever it is |
| PersonService.ResetXp | src/person/service.rs:142-177 | a readable person is written back with both authorities set to the requested value and nothing else changed; an unreadable one is refused with nothing written; a tokeniser error panics, with no reply |
| PersonService.ResetXpFiveStars | src/person/service.rs:107-137 | a readable person is written back with both authorities set to 11.098661 and every other field kept, with an Ok reply; an unreadable one is refused with nothing written; a tokeniser error panics, with no reply |
| PersonService.ReplaceBackpack | src/person/service.rs:182-221 | the backpack is replaced wholesale, everything else kept; refused with nothing written when the list has more entries than the backpack capacity or the person cannot be read; no reply when the read panics |
| PersonService.ReplaceStash | src/person/service.rs:226-265 | the same for the stash against the stash capacity |
| PersonService.RenameGroup | src/person/service.rs:270-304 | only the group name changes, with no cost check; refused when the person cannot be read; no reply when the read panics |
| PersonService.UpdatePerson | src/person/service.rs:88-103 | nothing is written; success is reported whether the read succeeded or failed, and there is no reply only when the read panics |
| PersonService.ValidateUpload | src/person/service.rs:703-748 | an upload is accepted exactly when it reads and neither backpack nor stash has more entries than its capacity; no reply when the read panics |
| PersonService.HandlersKeepCapacity | src/person/service.rs:112-304 | every handler that writes keeps the capacity invariant |
| PersonService.ResetXpReadsBack | src/person/service.rs:154-162 | when the written person's floats read back, the authority written by `reset_xp` is what the next read finds |
| PersonService.ReplaceBackpackReadsBack | src/person/service.rs:193-206 | when the person's floats read back, a backpack written by `update_backpack` reads back as the list sent, in order |
| PersonService.SavedFilePassesUpload | src/person/service.rs:705-715 | when the person's floats read back, a saved person within capacity passes the upload check, empty backpack included |
| ProfileExtract.ExtractProfile | src/profile/extract.rs:8-115 | the reader loop returns exactly `DecodeProfile(evs, fs)` |
| ProfileExtract.Step | src/profile/extract.rs:19-110 | one turn of the loop: only a tokeniser error or a `stats` start tag can fail; only a `stats` start tag changes the statistics and only a `profile` start tag changes the other fields |
| ProfileExtract.DecodeProfile | src/profile/extract.rs:8-115 | a file with no tokeniser error and no `stats` start tag always reads; a file without a `stats` start tag (a self-closing `stats` included) reads with every statistic zero |
| ProfileExtract.StepIgnores | src/profile/extract.rs:101-110 | self-closing tags (a self-closing `stats` included), end tags, text and unknown tags contribute nothing; a tokeniser error fails |
| ProfileExtract.HeaderKeepsAbsent | src/profile/extract.rs:22-45 | the profile tag never fails and never touches the statistics; a field whose attribute is absent keeps its value |
| ProfileExtract.ReadHeader | src/profile/extract.rs:22-45 | the six profile attributes are copied verbatim |
| ProfileExtract.ReadStats | src/profile/extract.rs:47-100 | when the three float statistics read back, a stats tag carrying every statistic under its on-disk name, `teamkills` included, fills every counter |
| ProfileExtract.BadStatFails | src/profile/extract.rs:54-96 | a statistic that does not parse fails the whole decode, wherever the stats tag stands |
| ProfileExtract.ProfileRoundTrip | src/profile/extract.rs:8-115 | when the three float statistics read back, a profile and stats pair carrying every field reads back as that profile |
| Migration154.GroupItems | src/version_update/update_to_154.rs:310-322 | the grouping loop builds exactly `GroupMap(list)` |
| Migration154.UpdatePerson | src/version_update/update_to_154.rs:76-353 | it fails exactly when the older reader fails, with the same error; otherwise it returns the carried fields with both lists grouped |
| Migration154.LegacyStep | src/version_update/update_to_154.rs:91-292 | one turn of the older loop: a start tag sets exactly the flag it names, no other event changes a flag, the grouped lists are never touched, and a tokeniser error fails with the panic |
| Migration154.DecodeLegacy | src/version_update/update_to_154.rs:76-293 | whatever the older reader reads, the grouped backpack and stash lists stay empty; the stacks come only from the ungrouped entries |
| Migration154.MigratedStillOlder | src/version_update/preupdate.rs:45-48 | a migrated person carries the default version, which is below 154, so `NeedsMigration` still holds of it |
| Migration154.GroupMapKeys | src/version_update/update_to_154.rs:310-322 | grouping gives one stack per distinct key, stored under that key |
| Migration154.GroupMapCounts | src/version_update/update_to_154.rs:312-321 | a stack's amount is the number of ungrouped entries with its key |
| Migration154.GroupMapFirst | src/version_update/update_to_154.rs:312-321 | a stack keeps the class and index of the first entry with its key |
| Migration154.GroupedTotal | src/version_update/update_to_154.rs:310-348 | however the stacks are listed, their amounts add up to the number of ungrouped entries |
| Migration154.MigratedFields | src/version_update/update_to_154.rs:295-308 | authorities, job points, faction, name, alive flag, group id and name, order, item list and both capacities are copied; version, block and squad size take the defaults |
| Migration154.MigratedBackpack | src/version_update/update_to_154.rs:310-328 | the migrated backpack has unique keys, exactly the older keys, counted amounts, first-entry class and index, and the older length as its total |
| Migration154.MigratedStash | src/version_update/update_to_154.rs:330-348 | the same for the stash |
| Migration154.MigratedNoLonger | src/version_update/update_to_154.rs:310-348 | grouping never lengthens a list |
| Migration154.LegacyDefaultDiffers | src/version_update/update_to_154.rs:18-26 | the older entry defaults to index -1, where the current stash entry defaults to 0 |
| Migration154.LegacyItemRouting | src/version_update/update_to_154.rs:211-279 | a self-closing `item` goes to the backpack if its flag is set, else to the stash, else to the equipped items, with the matching defaults |
| Migration154.LegacyIgnoresGroups | src/version_update/update_to_154.rs:181-284 | the older reader drops `item_group` tags and self-closing `backpack` tags |
| Migration154.LegacyBrokenFails | src/version_update/update_to_154.rs:290 | a tokeniser error anywhere aborts the migration |
| Migration154.LegacyBadAttrFails | src/version_update/update_to_154.rs:99-279 | a number that does not parse on a `person`, `stash` or `backpack` start tag, or on a self-closing `order` or `item` (numeric fields chosen by whether a stash or backpack start tag came before), fails the older reader and so the migration, wherever the tag stands |
| Migration154.LegacyRunFlags | src/version_update/update_to_154.rs:87-89 | after a successful read the stash and backpack flags are set exactly when a start tag of that name has been seen; end tags never clear them |
| GameVersionRewrite.MatchAtIsMatch | src/version_update/update_to_154.rs:362 | `MatchAt` finds exactly the matches of `game_version="\d+"`, and there is at most one match length per position |
| GameVersionRewrite.FirstMatchLeftmost | src/version_update/update_to_154.rs:368 | the match found is the leftmost one, and when none is found there is none |
| GameVersionRewrite.RewriteNoMatch | src/version_update/update_to_154.rs:362-368 | text without a match is unchanged |
| GameVersionRewrite.RewriteLeftmost | src/version_update/update_to_154.rs:362-368 | only the leftmost match is replaced by `game_version="154"`; everything before and after it is kept |
| GameVersionRewrite.RewriteIdempotent | src/version_update/update_to_154.rs:362-368 | rewriting twice equals rewriting once |
| GameVersionRewrite.Rewrite | src/version_update/update_to_154.rs:355-373 | text without a match is kept; otherwise the text before and after the leftmost match is kept and what replaces it is itself a match of the pattern |
| BatchExtract.Stem | src/person/async_extract.rs:28-30 | the stem is the prefix of the name before its first dot, or the whole name |
| BatchExtract.DiscoverProfileIds | src/person/async_extract.rs:23-36 | the discovery loop collects the ids of the `.profile` names whose stem parses, in listing order, and skips the rest |
| BatchExtract.DiscoverPersonIds | src/person/async_extract.rs:127-138 | the `.person` discovery succeeds exactly when every `.person` stem parses, and otherwise panics |
| BatchExtract.IdsWithSuffixMembers | src/person/async_extract.rs:23-36 | an id is discovered exactly when some name with the suffix has it as its stem |
| BatchExtract.IdsWithSuffixAppend | src/person/async_extract.rs:23-36 | discovery keeps listing order |
| BatchExtract.JoinResults | src/person/async_extract.rs:38-81 | the join succeeds exactly when no task hits a tokeniser error, and then holds each id's result in order |
| BatchExtract.JoinUnwrapped | src/person/async_extract.rs:140-155 | a join of unwrapping tasks succeeds exactly when every read does, pairing each id with its person in order |
| BatchExtract.ZipUnwrapped | src/person/async_extract.rs:83-114 | the zip succeeds exactly when every person and profile result is a success, and pairs the i-th id with the i-th results |
| BatchExtract.ExtractAllPersonAndProfiles | src/person/async_extract.rs:18-117 | the batch succeeds exactly when every read succeeds, and then has one (id, person, profile) per discovered id, in discovery order; the join fails exactly when some read hits a tokeniser error, and any other failure panics the caller |
| BatchExtract.AllPersonAsyncOutcome | src/person/async_extract.rs:122-156 | a `.person` name that does not parse panics; a success has one pair per `.person` file, in listing order |
| BatchExtract.ExtractAllPersonAsync | src/person/async_extract.rs:122-156 | the batch succeeds exactly when every `.person` stem parses and every read succeeds; it panics exactly when some stem does not parse; otherwise the join fails |
| BatchExtract.ExtractSelectedPerson | src/person/async_extract.rs:158-176 | the selected batch succeeds exactly when every read does, and answers in request order, duplicates included; otherwise the join fails |
| BatchExtract.ExtractAllPerson | src/person/extract.rs:252-287 | `extract_all_person` succeeds exactly when every `.profile` stem parses and every read succeeds; otherwise it fails with the first failing file's error: `BadId` for a stem that does not parse, `ReadFailed(e)` for a read error, `Panicked` for a tokeniser error; never as a join |
| BatchExtract.ReadNamed | src/person/extract.rs:264-286 | a failure is the first failing path's: `BadId` for a stem that does not parse, `Panicked` for a tokeniser error, `ReadFailed(e)` for any other read error, never a join failure |
| BatchExtract.ReadNamedOutcome | src/person/extract.rs:264-286 | the synchronous read succeeds exactly when every name parses and every read succeeds, and then pairs each name's id with its person in order |
| BatchExtract.ExtractAllPersonIds | src/person/extract.rs:252-287 | when it succeeds, `extract_all_person` reads the ids the asynchronous discovery finds, in the same order |
| BatchExtract.NonNumericProfileName | src/person/extract.rs:273-278 | a non-numeric `.profile` stem is skipped by the discovery but is an error for `extract_all_person` |

## Left out

- Byte-level XML is not modelled: quick_xml's tokenising, escaping, attribute syntax errors and duplicate-attribute checks. The model works over an event stream, and a tokeniser error is the `Broken` event.
- File I/O is a parameter or left out: `Reader::from_file`, `save_person_to_file`, `read_dir`, `read_to_string` and `fs::copy`. A folder listing is a sequence of names in the order the directory yields them. A file's read is a function from an id to the reader's result. Writes are taken to succeed.
- `f32::to_string` and `str::parse::<f32>` are not modelled. They are the `FloatSyntax` parameter. The round trips require only that the floats the file carries read back (`ReadsBack`), which Rust's conversions do for every `f32` except NaN. Floats are `real`, so f32 rounding in the group cost subtraction is not modelled.
- Concurrency is not modelled: `tokio::spawn`, `try_join_all`, rayon `par_iter`, and the write-back joins after insert, delete and group change. Tasks run one after the other. A panic in a spawned task is `JoinFailed`; a panic in the calling code is `Panicked`.
- The preupdate driver is not modelled beyond its test, `Migration154.NeedsMigration` (version below 154), and the fact that a migrated person still passes that test (`Migration154.MigratedStillOlder`, which rests on the inferred default version below). On the profile side it compares `game_version` with the number 154, while the Profile record holds that field as a string.
- HTTP routing, JSON bodies, multipart upload, download and the response messages are not modelled. The handlers return `Ok` or `BadRequest` with the message text only, or `NoReply` when `extract_person` panics before the handler answers.
- The older `Person` shape in src/person/model.rs is not modelled. That shape has a string version, no capacities, and ungrouped backpack and stash lists. The `Person_V153` shape is used.
- `Person::default` for the current shape is taken as version 0 with capacities 255/300; its definition is not part of this model.
- `ItemGroupTag` has no definition in the source. It is taken as class i8, index i32, key and amount, with amount read as i32.
- The Profile record in src/profile/model.rs has no stats. The stats record is built from the fields that src/profile/extract.rs:54-96 assigns, and both the field names and their types are inferred: the counters are taken as u32 and play time, distance and rank progression as floats.
- `extract_all_person_and_profiles` (src/person/extract.rs:289-326) is not part of this model.
- GameVersionRewrite.Rewrite: treats `\d` as the ASCII digits 0-9, while the regex crate's `\d` also matches other Unicode decimal digits.
- BatchExtract.ExtractAllPerson: reports the first failure in listing order. With several failures, the parallel collect may report any one of them.
- PersonService.ValidateUpload: its error message omits the id and the reader's error text.
- Migration154.UpdatePerson: the older reader's `panic!` on a tokeniser error is an error value (`ReaderPanic`), not a process abort.

## Findings

| source | as written | input that shows it | evidently intended | confidence | as-written member | corrected member |
|---|---|---|---|---|---|---|
| src/person/extract.rs:226 with src/person/save.rs:85-86 | the writer stores an empty backpack as a self-closing `<backpack hard_capacity="N"/>`, and the reader skips a self-closing `backpack` without reading its attributes | a person with an empty backpack and backpack capacity 100, saved and read back, comes back with capacity 255 | the capacity written is the capacity read | not executed | PersonExtract.EmptyBackpackCapacityLost | PersonExtract.RoundTripExact |
