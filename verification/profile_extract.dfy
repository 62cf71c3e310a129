/** Reading a `.profile` file (src/profile/extract.rs): only the attributes
    of the `profile` and `stats` start tags are read. */
module ProfileExtract {
  import opened Wrappers
  import opened Numerals
  import opened XmlEvents

  /** The play statistics. Counters are unsigned 32-bit; play time, distance
      and rank progression are floating point. */
  datatype Stats = Stats(
    kills: U32,
    deaths: U32,
    timePlayed: real,
    playerKills: U32,
    teamKills: U32,
    longestKillStreak: U32,
    targetsDestroyed: U32,
    vehiclesDestroyed: U32,
    soldiersHealed: U32,
    timesGotHealed: U32,
    distanceMoved: real,
    shotsFired: U32,
    throwablesThrown: U32,
    rankProgression: real)

  datatype Profile = Profile(
    gameVersion: string,
    username: string,
    sid: string,
    rid: string,
    squadTag: string,
    color: string,
    stats: Stats)

  const DefaultStats: Stats := Stats(0, 0, 0.0, 0, 0, 0, 0, 0, 0, 0, 0.0, 0, 0, 0.0)

  /** `Profile::default`: every string empty, every statistic zero. */
  const DefaultProfile: Profile := Profile("", "", "", "", "", "", DefaultStats)

  /** One attribute of the `profile` start tag: copied verbatim. */
  function ApplyProfileAttr(pr: Profile, a: Attr): Result<Profile, DecodeError> {
    if a.key == "game_version" then Success(pr.(gameVersion := a.value))
    else if a.key == "username" then Success(pr.(username := a.value))
    else if a.key == "sid" then Success(pr.(sid := a.value))
    else if a.key == "rid" then Success(pr.(rid := a.value))
    else if a.key == "squad_tag" then Success(pr.(squadTag := a.value))
    else if a.key == "color" then Success(pr.(color := a.value))
    else Success(pr)
  }

  function Count(a: Attr): Result<U32, DecodeError> {
    match ParseU32(a.value)
    case None => Failure(BadValue(a.key))
    case Some(n) => Success(n)
  }

  function Amount(a: Attr, fs: FloatSyntax): Result<real, DecodeError> {
    match fs.parse(a.value)
    case None => Failure(BadValue(a.key))
    case Some(x) => Success(x)
  }

  /** One attribute of the `stats` start tag. The team-kill counter is
      stored on disk as `teamkills`. */
  function ApplyStatsAttr(s: Stats, a: Attr, fs: FloatSyntax): Result<Stats, DecodeError> {
    if a.key == "kills" then var n :- Count(a); Success(s.(kills := n))
    else if a.key == "deaths" then var n :- Count(a); Success(s.(deaths := n))
    else if a.key == "time_played" then var x :- Amount(a, fs); Success(s.(timePlayed := x))
    else if a.key == "player_kills" then var n :- Count(a); Success(s.(playerKills := n))
    else if a.key == "teamkills" then var n :- Count(a); Success(s.(teamKills := n))
    else if a.key == "longest_kill_streak" then var n :- Count(a); Success(s.(longestKillStreak := n))
    else if a.key == "targets_destroyed" then var n :- Count(a); Success(s.(targetsDestroyed := n))
    else if a.key == "vehicles_destroyed" then var n :- Count(a); Success(s.(vehiclesDestroyed := n))
    else if a.key == "soldiers_healed" then var n :- Count(a); Success(s.(soldiersHealed := n))
    else if a.key == "times_got_healed" then var n :- Count(a); Success(s.(timesGotHealed := n))
    else if a.key == "distance_moved" then var x :- Amount(a, fs); Success(s.(distanceMoved := x))
    else if a.key == "shots_fired" then var n :- Count(a); Success(s.(shotsFired := n))
    else if a.key == "throwables_thrown" then var n :- Count(a); Success(s.(throwablesThrown := n))
    else if a.key == "rank_progression" then var x :- Amount(a, fs); Success(s.(rankProgression := x))
    else Success(s)
  }

  function StatsAttrHandler(fs: FloatSyntax): (Stats, Attr) -> Result<Stats, DecodeError> {
    (s, a) => ApplyStatsAttr(s, a, fs)
  }

  /** One turn of the reader loop: only `profile` and `stats` start tags are
      read; self-closing tags, end tags and text contribute nothing. */
  function Step(pr: Profile, e: Event, fs: FloatSyntax): (r: Result<Profile, DecodeError>)
    ensures r.Failure? ==> e.Broken? || StatsStart(e)
    ensures r.Success? && !StatsStart(e) ==> r.value.stats == pr.stats
    ensures r.Success? && !(e.Start? && e.name == "profile") ==> r.value.(stats := pr.stats) == pr
  {
    match e
    case Start(name, attrs) =>
      if name == "profile" then HeaderKeepsAbsent(pr, attrs); FoldAttrs(pr, attrs, ApplyProfileAttr)
      else if name == "stats" then
        var s :- FoldAttrs(pr.stats, attrs, StatsAttrHandler(fs));
        Success(pr.(stats := s))
      else Success(pr)
    case Empty(_, _) => Success(pr)
    case End(_) => Success(pr)
    case Other => Success(pr)
    case Broken => Failure(ReaderPanic)
  }

  /** A `stats` start tag, the only tag whose reading can fail. */
  predicate StatsStart(e: Event) {
    e.Start? && e.name == "stats"
  }

  function Run(pr: Profile, evs: seq<Event>, fs: FloatSyntax): (r: Result<Profile, DecodeError>)
    ensures (forall i :: 0 <= i < |evs| ==> !evs[i].Broken? && !StatsStart(evs[i])) ==> r.Success?
    ensures r.Success? && (forall i :: 0 <= i < |evs| ==> !StatsStart(evs[i])) ==> r.value.stats == pr.stats
    decreases |evs|
  {
    if evs == [] then Success(pr)
    else
      var pr' :- Step(pr, evs[0], fs);
      Run(pr', evs[1..], fs)
  }

  /** What `extract_profile` returns for a file whose events are `evs`.
      Only a tokeniser error or a statistic can make it fail, and without a
      `stats` start tag every statistic stays zero. */
  function DecodeProfile(evs: seq<Event>, fs: FloatSyntax): (r: Result<Profile, DecodeError>)
    ensures (forall i :: 0 <= i < |evs| ==> !evs[i].Broken? && !StatsStart(evs[i])) ==> r.Success?
    ensures r.Success? && (forall i :: 0 <= i < |evs| ==> !StatsStart(evs[i])) ==> r.value.stats == DefaultStats
  {
    Run(DefaultProfile, evs, fs)
  }

  /** `extract_profile`: the reader loop, event by event. */
  method ExtractProfile(evs: seq<Event>, fs: FloatSyntax) returns (r: Result<Profile, DecodeError>)
    ensures r == DecodeProfile(evs, fs)
  {
    var pr := DefaultProfile;
    var i := 0;
    while i < |evs|
      invariant 0 <= i <= |evs|
      invariant Run(pr, evs[i..], fs) == DecodeProfile(evs, fs)
    {
      assert evs[i..][1..] == evs[i + 1..];
      var next := Step(pr, evs[i], fs);
      if next.Failure? {
        return Failure(next.error);
      }
      pr := next.value;
      i := i + 1;
    }
    return Success(pr);
  }

  // ---------------------------------------------------------------------
  // Properties
  // ---------------------------------------------------------------------

  /** Self-closing tags contribute nothing, a self-closing `stats`
      included; so do end tags, text and unknown start tags. */
  lemma StepIgnores(pr: Profile, e: Event, fs: FloatSyntax)
    ensures e.Empty? || e.End? || e.Other? ==> Step(pr, e, fs) == Success(pr)
    ensures e.Start? && e.name != "profile" && e.name != "stats" ==> Step(pr, e, fs) == Success(pr)
    ensures e.Broken? ==> Step(pr, e, fs) == Failure(ReaderPanic)
  {
  }

  /** The profile tag's attributes never fail, never touch the statistics,
      and a field whose attribute is absent keeps its value. */
  lemma {:induction false} HeaderKeepsAbsent(pr: Profile, attrs: seq<Attr>)
    ensures FoldAttrs(pr, attrs, ApplyProfileAttr).Success?
    ensures var r := FoldAttrs(pr, attrs, ApplyProfileAttr).value;
      && r.stats == pr.stats
      && ("game_version" !in Keys(attrs) ==> r.gameVersion == pr.gameVersion)
      && ("username" !in Keys(attrs) ==> r.username == pr.username)
      && ("sid" !in Keys(attrs) ==> r.sid == pr.sid)
      && ("rid" !in Keys(attrs) ==> r.rid == pr.rid)
      && ("squad_tag" !in Keys(attrs) ==> r.squadTag == pr.squadTag)
      && ("color" !in Keys(attrs) ==> r.color == pr.color)
    decreases |attrs|
  {
    if attrs != [] {
      ProfileAttrKeeps(pr, attrs[0]);
      var pr1 := ApplyProfileAttr(pr, attrs[0]).value;
      HeaderKeepsAbsent(pr1, attrs[1..]);
      assert Keys(attrs) == [attrs[0].key] + Keys(attrs[1..]);
    }
  }

  /** One profile attribute sets at most the field its key names. */
  lemma ProfileAttrKeeps(pr: Profile, a: Attr)
    ensures ApplyProfileAttr(pr, a).Success?
    ensures var r := ApplyProfileAttr(pr, a).value;
      && r.stats == pr.stats
      && (a.key != "game_version" ==> r.gameVersion == pr.gameVersion)
      && (a.key != "username" ==> r.username == pr.username)
      && (a.key != "sid" ==> r.sid == pr.sid)
      && (a.key != "rid" ==> r.rid == pr.rid)
      && (a.key != "squad_tag" ==> r.squadTag == pr.squadTag)
      && (a.key != "color" ==> r.color == pr.color)
  {
  }

  /** A statistic whose value does not parse as its type. */
  predicate BadStat(a: Attr, fs: FloatSyntax) {
    || (a.key in {"kills", "deaths", "player_kills", "teamkills", "longest_kill_streak", "targets_destroyed",
                  "vehicles_destroyed", "soldiers_healed", "times_got_healed", "shots_fired", "throwables_thrown"}
        && ParseU32(a.value).None?)
    || (a.key in {"time_played", "distance_moved", "rank_progression"} && fs.parse(a.value).None?)
  }

  /** A statistic that does not parse makes the whole decode fail, wherever
      the stats tag stands in the file. */
  lemma BadStatFails(evs: seq<Event>, j: nat, i: nat, fs: FloatSyntax)
    requires j < |evs| && evs[j].Start? && evs[j].name == "stats"
    requires i < |evs[j].attrs| && BadStat(evs[j].attrs[i], fs)
    ensures DecodeProfile(evs, fs).Failure?
  {
    RunFailsAt(DefaultProfile, evs, j, i, fs);
  }

  /** A statistic that does not parse fails whatever was read before it. */
  lemma BadStatRejected(a: Attr, fs: FloatSyntax)
    requires BadStat(a, fs)
    ensures forall u :: StatsAttrHandler(fs)(u, a).Failure?
  {
  }

  lemma {:induction false} RunFailsAt(pr: Profile, evs: seq<Event>, j: nat, i: nat, fs: FloatSyntax)
    requires j < |evs| && evs[j].Start? && evs[j].name == "stats"
    requires i < |evs[j].attrs| && BadStat(evs[j].attrs[i], fs)
    ensures Run(pr, evs, fs).Failure?
    decreases |evs|
  {
    if j == 0 {
      BadStatRejected(evs[0].attrs[i], fs);
      FoldAttrsFailsAt(pr.stats, evs[0].attrs, StatsAttrHandler(fs), i);
    } else {
      match Step(pr, evs[0], fs)
      case Failure(_) =>
      case Success(pr1) =>
        assert evs[1..][j - 1] == evs[j];
        RunFailsAt(pr1, evs[1..], j - 1, i, fs);
    }
  }

  /** The attributes of a profile tag carrying every field. */
  function HeaderAttrs(pr: Profile): seq<Attr> {
    [Attr("game_version", pr.gameVersion), Attr("username", pr.username), Attr("sid", pr.sid),
     Attr("rid", pr.rid), Attr("squad_tag", pr.squadTag), Attr("color", pr.color)]
  }

  /** The attributes of a stats tag carrying every statistic under its
      on-disk name. */
  function StatsAttrs(s: Stats, fs: FloatSyntax): seq<Attr> {
    [Attr("kills", ShowInt(s.kills)), Attr("deaths", ShowInt(s.deaths)),
     Attr("time_played", fs.show(s.timePlayed)), Attr("player_kills", ShowInt(s.playerKills)),
     Attr("teamkills", ShowInt(s.teamKills)), Attr("longest_kill_streak", ShowInt(s.longestKillStreak)),
     Attr("targets_destroyed", ShowInt(s.targetsDestroyed)), Attr("vehicles_destroyed", ShowInt(s.vehiclesDestroyed)),
     Attr("soldiers_healed", ShowInt(s.soldiersHealed)), Attr("times_got_healed", ShowInt(s.timesGotHealed)),
     Attr("distance_moved", fs.show(s.distanceMoved)), Attr("shots_fired", ShowInt(s.shotsFired)),
     Attr("throwables_thrown", ShowInt(s.throwablesThrown)), Attr("rank_progression", fs.show(s.rankProgression))]
  }

  /** The three floating-point statistics of `s` read back from their text. */
  ghost predicate StatsFloatsReadBack(s: Stats, fs: FloatSyntax) {
    ReadsBack(fs, s.timePlayed) && ReadsBack(fs, s.distanceMoved) && ReadsBack(fs, s.rankProgression)
  }

  lemma ReadHeader(pr: Profile, q: Profile)
    ensures FoldAttrs(q, HeaderAttrs(pr), ApplyProfileAttr) ==
      Success(q.(gameVersion := pr.gameVersion, username := pr.username, sid := pr.sid,
                 rid := pr.rid, squadTag := pr.squadTag, color := pr.color))
  {
    var t1 := q.(gameVersion := pr.gameVersion);
    var t2 := t1.(username := pr.username);
    var t3 := t2.(sid := pr.sid);
    var t4 := t3.(rid := pr.rid);
    var t5 := t4.(squadTag := pr.squadTag);
    var t6 := t5.(color := pr.color);
    var ts := [q, t1, t2, t3, t4, t5, t6];
    var attrs := HeaderAttrs(pr);
    forall i | 0 <= i < |attrs|
      ensures ApplyProfileAttr(ts[i], attrs[i]) == Success(ts[i + 1])
    {
      if i == 0 {} else if i == 1 {} else if i == 2 {} else if i == 3 {} else if i == 4 {} else {}
    }
    FoldAttrsSteps(ts, attrs, ApplyProfileAttr);
  }

  /** The statistics after the first `k` attributes of `StatsAttrs(s, fs)`
      have been applied to `q`. */
  function MixStats(s: Stats, q: Stats, k: nat): Stats {
    Stats(
      if k > 0 then s.kills else q.kills,
      if k > 1 then s.deaths else q.deaths,
      if k > 2 then s.timePlayed else q.timePlayed,
      if k > 3 then s.playerKills else q.playerKills,
      if k > 4 then s.teamKills else q.teamKills,
      if k > 5 then s.longestKillStreak else q.longestKillStreak,
      if k > 6 then s.targetsDestroyed else q.targetsDestroyed,
      if k > 7 then s.vehiclesDestroyed else q.vehiclesDestroyed,
      if k > 8 then s.soldiersHealed else q.soldiersHealed,
      if k > 9 then s.timesGotHealed else q.timesGotHealed,
      if k > 10 then s.distanceMoved else q.distanceMoved,
      if k > 11 then s.shotsFired else q.shotsFired,
      if k > 12 then s.throwablesThrown else q.throwablesThrown,
      if k > 13 then s.rankProgression else q.rankProgression)
  }

  /** Attribute `i` of `StatsAttrs(s, fs)` sets exactly the `i`-th
      statistic. */
  lemma ReadStatsStep(s: Stats, q: Stats, fs: FloatSyntax, i: nat)
    requires StatsFloatsReadBack(s, fs) && i < 14
    ensures ApplyStatsAttr(MixStats(s, q, i), StatsAttrs(s, fs)[i], fs) == Success(MixStats(s, q, i + 1))
  {
    if i < 2 { ReadStatsStepA(s, q, fs, i); }
    else if i < 4 { ReadStatsStepB(s, q, fs, i); }
    else if i < 6 { ReadStatsStepC(s, q, fs, i); }
    else if i < 8 { ReadStatsStepD(s, q, fs, i); }
    else if i < 10 { ReadStatsStepE(s, q, fs, i); }
    else if i < 12 { ReadStatsStepF(s, q, fs, i); }
    else { ReadStatsStepG(s, q, fs, i); }
  }

  lemma ReadStatsStepA(s: Stats, q: Stats, fs: FloatSyntax, i: nat)
    requires StatsFloatsReadBack(s, fs) && 0 <= i < 2
    ensures ApplyStatsAttr(MixStats(s, q, i), StatsAttrs(s, fs)[i], fs) == Success(MixStats(s, q, i + 1))
  {
    if i == 0 {
      ParseShowU32(s.kills);
      assert ApplyStatsAttr(MixStats(s, q, 0), StatsAttrs(s, fs)[0], fs) == Success(MixStats(s, q, 1));
    } else {
      ParseShowU32(s.deaths);
      assert ApplyStatsAttr(MixStats(s, q, 1), StatsAttrs(s, fs)[1], fs) == Success(MixStats(s, q, 2));
    }
  }

  lemma ReadStatsStepB(s: Stats, q: Stats, fs: FloatSyntax, i: nat)
    requires StatsFloatsReadBack(s, fs) && 2 <= i < 4
    ensures ApplyStatsAttr(MixStats(s, q, i), StatsAttrs(s, fs)[i], fs) == Success(MixStats(s, q, i + 1))
  {
    if i == 2 {
      assert ApplyStatsAttr(MixStats(s, q, 2), StatsAttrs(s, fs)[2], fs) == Success(MixStats(s, q, 3));
    } else {
      ParseShowU32(s.playerKills);
      assert ApplyStatsAttr(MixStats(s, q, 3), StatsAttrs(s, fs)[3], fs) == Success(MixStats(s, q, 4));
    }
  }

  lemma ReadStatsStepC(s: Stats, q: Stats, fs: FloatSyntax, i: nat)
    requires StatsFloatsReadBack(s, fs) && 4 <= i < 6
    ensures ApplyStatsAttr(MixStats(s, q, i), StatsAttrs(s, fs)[i], fs) == Success(MixStats(s, q, i + 1))
  {
    if i == 4 {
      ParseShowU32(s.teamKills);
      assert ApplyStatsAttr(MixStats(s, q, 4), StatsAttrs(s, fs)[4], fs) == Success(MixStats(s, q, 5));
    } else {
      ParseShowU32(s.longestKillStreak);
      assert ApplyStatsAttr(MixStats(s, q, 5), StatsAttrs(s, fs)[5], fs) == Success(MixStats(s, q, 6));
    }
  }

  lemma ReadStatsStepD(s: Stats, q: Stats, fs: FloatSyntax, i: nat)
    requires StatsFloatsReadBack(s, fs) && 6 <= i < 8
    ensures ApplyStatsAttr(MixStats(s, q, i), StatsAttrs(s, fs)[i], fs) == Success(MixStats(s, q, i + 1))
  {
    if i == 6 {
      ParseShowU32(s.targetsDestroyed);
      assert ApplyStatsAttr(MixStats(s, q, 6), StatsAttrs(s, fs)[6], fs) == Success(MixStats(s, q, 7));
    } else {
      ParseShowU32(s.vehiclesDestroyed);
      assert ApplyStatsAttr(MixStats(s, q, 7), StatsAttrs(s, fs)[7], fs) == Success(MixStats(s, q, 8));
    }
  }

  lemma ReadStatsStepE(s: Stats, q: Stats, fs: FloatSyntax, i: nat)
    requires StatsFloatsReadBack(s, fs) && 8 <= i < 10
    ensures ApplyStatsAttr(MixStats(s, q, i), StatsAttrs(s, fs)[i], fs) == Success(MixStats(s, q, i + 1))
  {
    if i == 8 {
      ParseShowU32(s.soldiersHealed);
      assert ApplyStatsAttr(MixStats(s, q, 8), StatsAttrs(s, fs)[8], fs) == Success(MixStats(s, q, 9));
    } else {
      ParseShowU32(s.timesGotHealed);
      assert ApplyStatsAttr(MixStats(s, q, 9), StatsAttrs(s, fs)[9], fs) == Success(MixStats(s, q, 10));
    }
  }

  lemma ReadStatsStepF(s: Stats, q: Stats, fs: FloatSyntax, i: nat)
    requires StatsFloatsReadBack(s, fs) && 10 <= i < 12
    ensures ApplyStatsAttr(MixStats(s, q, i), StatsAttrs(s, fs)[i], fs) == Success(MixStats(s, q, i + 1))
  {
    if i == 10 {
      assert ApplyStatsAttr(MixStats(s, q, 10), StatsAttrs(s, fs)[10], fs) == Success(MixStats(s, q, 11));
    } else {
      ParseShowU32(s.shotsFired);
      assert ApplyStatsAttr(MixStats(s, q, 11), StatsAttrs(s, fs)[11], fs) == Success(MixStats(s, q, 12));
    }
  }

  lemma ReadStatsStepG(s: Stats, q: Stats, fs: FloatSyntax, i: nat)
    requires StatsFloatsReadBack(s, fs) && 12 <= i < 14
    ensures ApplyStatsAttr(MixStats(s, q, i), StatsAttrs(s, fs)[i], fs) == Success(MixStats(s, q, i + 1))
  {
    if i == 12 {
      ParseShowU32(s.throwablesThrown);
      assert ApplyStatsAttr(MixStats(s, q, 12), StatsAttrs(s, fs)[12], fs) == Success(MixStats(s, q, 13));
    } else {
      assert ApplyStatsAttr(MixStats(s, q, 13), StatsAttrs(s, fs)[13], fs) == Success(MixStats(s, q, 14));
    }
  }

  lemma ReadStats(s: Stats, q: Stats, fs: FloatSyntax)
    requires StatsFloatsReadBack(s, fs)
    ensures FoldAttrs(q, StatsAttrs(s, fs), StatsAttrHandler(fs)) == Success(s)
  {
    var ts := seq(15, k requires 0 <= k < 15 => MixStats(s, q, k));
    var attrs := StatsAttrs(s, fs);
    forall i | 0 <= i < |attrs|
      ensures StatsAttrHandler(fs)(ts[i], attrs[i]) == Success(ts[i + 1])
    {
      ReadStatsStep(s, q, fs, i);
    }
    FoldAttrsSteps(ts, attrs, StatsAttrHandler(fs));
    assert ts[0] == q && ts[14] == s;
  }

  /** Every field is read from its own attribute: a file whose profile and
      stats tags carry all of a profile's fields reads back as that
      profile. */
  lemma ProfileRoundTrip(pr: Profile, fs: FloatSyntax)
    requires StatsFloatsReadBack(pr.stats, fs)
    ensures DecodeProfile([Start("profile", HeaderAttrs(pr)), Start("stats", StatsAttrs(pr.stats, fs)),
                           End("stats"), End("profile")], fs) == Success(pr)
  {
    var evs := [Start("profile", HeaderAttrs(pr)), Start("stats", StatsAttrs(pr.stats, fs)), End("stats"), End("profile")];
    ReadHeader(pr, DefaultProfile);
    var p1 := DefaultProfile.(gameVersion := pr.gameVersion, username := pr.username, sid := pr.sid,
                              rid := pr.rid, squadTag := pr.squadTag, color := pr.color);
    ReadStats(pr.stats, p1.stats, fs);
    assert Step(DefaultProfile, evs[0], fs) == Success(p1);
    assert Step(p1, evs[1], fs) == Success(pr);
    assert evs[1..][1..][1..][1..] == [];
    assert Run(pr, evs[1..][1..][1..], fs) == Success(pr);
    assert Run(pr, evs[1..][1..], fs) == Success(pr);
    assert Run(p1, evs[1..], fs) == Success(pr);
  }
}
