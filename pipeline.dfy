/** generate_results_with_teams: directory, grouping, pairing, lookup and
    formatting, with the league data and the name service as inputs. */
module Pipeline {
  import opened LeagueTypes
  import opened Sequences
  import opened TeamDirectory
  import opened PlayerNames
  import opened Matchups
  import opened ResultFormatter

  /** The summary of one matchup. The key players are looked up as one batch;
      fewer than two names back is the source's IndexError. */
  function SummaryOf(team1: TeamSide, team2: TeamSide, service: seq<string> -> Lookup, show: int -> string)
    : (r: Result<string, PipelineError>)
    ensures r.Success? ==> exists name0, name1 :: r.value == Summary(team1, team2, WinnerOf(team1, team2), name0, name1, show)
  {
    var batch := KeyPlayers(team1, team2);
    var names := Values(MapPlayerIds(batch, service(batch)));
    if |names| < 2 then Failure(PlayerNameIndexError)
    else Success(Summary(team1, team2, WinnerOf(team1, team2), names[0], names[1], show))
  }

  /** The matchups of the ids `ks`, in that order: the ids whose group holds
      exactly two sides, paired in input order. */
  function Pairings(ks: seq<int>, entries: seq<MatchupEntry>, dir: map<int, string>): (ps: seq<(TeamSide, TeamSide)>)
    ensures |ps| <= |ks|
  {
    if ks == [] then []
    else
      var g := Group(entries, ks[|ks| - 1], dir);
      Pairings(ks[..|ks| - 1], entries, dir) + (if |g| == 2 then [(g[0], g[1])] else [])
  }

  /** `SummaryOf` for a fixed service and score rendering. */
  function Summarizer(service: seq<string> -> Lookup, show: int -> string)
    : (TeamSide, TeamSide) -> Result<string, PipelineError>
  {
    (team1: TeamSide, team2: TeamSide) => SummaryOf(team1, team2, service, show)
  }

  /** The summaries of the matchups in order; the first failing one aborts
      the whole list. */
  function Summaries(ps: seq<(TeamSide, TeamSide)>, summarize: (TeamSide, TeamSide) -> Result<string, PipelineError>)
    : (r: Result<seq<string>, PipelineError>)
  {
    if ps == [] then Success([])
    else
      match Summaries(ps[..|ps| - 1], summarize)
      case Failure(e) => Failure(e)
      case Success(rs) =>
        var p := ps[|ps| - 1];
        match summarize(p.0, p.1)
        case Failure(e) => Failure(e)
        case Success(s) => Success(rs + [s])
  }

  /** The summaries succeed exactly when every matchup's summary does, and
      then the j-th result is the j-th matchup's summary. */
  lemma {:induction false} SummariesMeaning(ps: seq<(TeamSide, TeamSide)>,
                                            summarize: (TeamSide, TeamSide) -> Result<string, PipelineError>)
    ensures var r := Summaries(ps, summarize);
            && (r.Failure? <==> exists j :: 0 <= j < |ps| && summarize(ps[j].0, ps[j].1).Failure?)
            && (r.Success? ==>
                  |r.value| == |ps| && forall j :: 0 <= j < |ps| ==> summarize(ps[j].0, ps[j].1) == Success(r.value[j]))
  {
    if ps != [] {
      var init := ps[..|ps| - 1];
      SummariesMeaning(init, summarize);
      assert forall j :: 0 <= j < |init| ==> init[j] == ps[j];
    }
  }

  /** What generate_results_with_teams returns for the given league data. */
  function Results(rosters: seq<Roster>, users: seq<User>, entries: seq<MatchupEntry>,
                   service: seq<string> -> Lookup, show: int -> string): Result<seq<string>, PipelineError>
  {
    var dir := Directory(rosters, OwnerMap(users));
    Summaries(Pairings(Distinct(Ids(entries)), entries, dir), Summarizer(service, show))
  }

  lemma {:induction false} PairingsAppend(a: seq<int>, b: seq<int>, entries: seq<MatchupEntry>, dir: map<int, string>)
    ensures Pairings(a + b, entries, dir) == Pairings(a, entries, dir) + Pairings(b, entries, dir)
  {
    if b == [] {
      assert a + b == a;
    } else {
      var b' := b[..|b| - 1];
      assert (a + b)[..|a + b| - 1] == a + b';
      assert (a + b)[|a + b| - 1] == b[|b| - 1];
      PairingsAppend(a, b', entries, dir);
    }
  }

  /** One more id: its group adds a summary only when it has exactly two sides. */
  lemma EmitStep(order: seq<int>, i: nat, entries: seq<MatchupEntry>, dir: map<int, string>,
                 summarize: (TeamSide, TeamSide) -> Result<string, PipelineError>, rs: seq<string>)
    requires i < |order| && Summaries(Pairings(order[..i], entries, dir), summarize) == Success(rs)
    ensures var g := Group(entries, order[i], dir);
            Summaries(Pairings(order[..i + 1], entries, dir), summarize)
              == if |g| != 2 then Success(rs)
                 else match summarize(g[0], g[1])
                      case Failure(e) => Failure(e)
                      case Success(s) => Success(rs + [s])
  {
    PairingsStep(order, i, entries, dir);
    var g := Group(entries, order[i], dir);
    var ps := Pairings(order[..i], entries, dir);
    if |g| == 2 {
      SummariesSnoc(ps, (g[0], g[1]), summarize);
    } else {
      assert ps + [] == ps;
    }
  }

  /** One more id adds its group's matchup when the group has two sides. */
  lemma PairingsStep(order: seq<int>, i: nat, entries: seq<MatchupEntry>, dir: map<int, string>)
    requires i < |order|
    ensures var g := Group(entries, order[i], dir);
            Pairings(order[..i + 1], entries, dir)
              == Pairings(order[..i], entries, dir) + if |g| == 2 then [(g[0], g[1])] else []
  {
    assert order[..i + 1][..i] == order[..i];
  }

  /** One more matchup: its summary is appended, or its failure ends the list. */
  lemma SummariesSnoc(ps: seq<(TeamSide, TeamSide)>, p: (TeamSide, TeamSide),
                      summarize: (TeamSide, TeamSide) -> Result<string, PipelineError>)
    ensures Summaries(ps + [p], summarize)
      == match Summaries(ps, summarize)
         case Failure(e) => Failure(e)
         case Success(rs) =>
           match summarize(p.0, p.1)
           case Failure(e) => Failure(e)
           case Success(s) => Success(rs + [s])
  {
    assert (ps + [p])[..|ps|] == ps;
  }

  /** A failing summary at the i-th id ends the whole list with that failure. */
  lemma EmitAbort(order: seq<int>, i: nat, entries: seq<MatchupEntry>, dir: map<int, string>,
                  summarize: (TeamSide, TeamSide) -> Result<string, PipelineError>)
    requires i < |order| && Summaries(Pairings(order[..i + 1], entries, dir), summarize).Failure?
    ensures Summaries(Pairings(order, entries, dir), summarize) == Summaries(Pairings(order[..i + 1], entries, dir), summarize)
  {
    var front, back := order[..i + 1], order[i + 1..];
    assert order == front + back;
    PairingsAppend(front, back, entries, dir);
    var ps, rest := Pairings(front, entries, dir), Pairings(back, entries, dir);
    assert Pairings(order, entries, dir) == ps + rest;
    SummariesPrefixFailure(ps, rest, summarize);
  }

  /** A failure in the summaries of a prefix is the failure of the whole list. */
  lemma {:induction false} SummariesPrefixFailure(a: seq<(TeamSide, TeamSide)>, b: seq<(TeamSide, TeamSide)>,
                                                  summarize: (TeamSide, TeamSide) -> Result<string, PipelineError>)
    requires Summaries(a, summarize).Failure?
    ensures Summaries(a + b, summarize) == Summaries(a, summarize)
  {
    if b == [] {
      assert a + b == a;
    } else {
      var b' := b[..|b| - 1];
      assert (a + b)[..|a + b| - 1] == a + b';
      SummariesPrefixFailure(a, b', summarize);
    }
  }

  /** Pairings do not change when entries of an id outside `ks` are removed. */
  lemma {:induction false} PairingsWithout(ks: seq<int>, entries: seq<MatchupEntry>, k: int, dir: map<int, string>)
    requires k !in ks
    ensures Pairings(ks, Without(entries, k), dir) == Pairings(ks, entries, dir)
  {
    if ks != [] {
      var last := ks[|ks| - 1];
      WithoutGroups(entries, k, last, dir);
      PairingsWithout(ks[..|ks| - 1], entries, k, dir);
    }
  }

  /** Every matchup uses two entries of its own id, so distinct ids give at
      most half as many matchups as there are entries. */
  lemma {:induction false} PairingsHalf(ks: seq<int>, entries: seq<MatchupEntry>, dir: map<int, string>)
    requires NoDuplicates(ks)
    ensures 2 * |Pairings(ks, entries, dir)| <= |entries|
  {
    if ks != [] {
      var init := ks[..|ks| - 1];
      var k := ks[|ks| - 1];
      assert k !in init;
      WithoutGroups(entries, k, k, dir);
      PairingsWithout(init, entries, k, dir);
      PairingsHalf(init, Without(entries, k), dir);
    }
  }

  /** Each matchup is the two sides of an id of `ks` whose group has exactly two. */
  lemma {:induction false} PairingsSound(ks: seq<int>, entries: seq<MatchupEntry>, dir: map<int, string>)
    ensures forall p :: p in Pairings(ks, entries, dir) ==>
      exists k :: k in ks && Group(entries, k, dir) == [p.0, p.1]
  {
    if ks != [] {
      var init := ks[..|ks| - 1];
      var last := ks[|ks| - 1];
      PairingsSound(init, entries, dir);
      var g := Group(entries, last, dir);
      var ps, ps' := Pairings(ks, entries, dir), Pairings(init, entries, dir);
      assert ps == ps' + (if |g| == 2 then [(g[0], g[1])] else []);
      forall p | p in ps
        ensures exists k :: k in ks && Group(entries, k, dir) == [p.0, p.1]
      {
        if p in ps' {
          var k :| k in init && Group(entries, k, dir) == [p.0, p.1];
          assert k in ks;
        } else {
          assert p == (g[0], g[1]) && g == [g[0], g[1]];
          assert last in ks;
        }
      }
    }
  }

  /** Each id of `ks` whose group has exactly two sides gives its matchup. */
  lemma {:induction false} PairingsComplete(ks: seq<int>, entries: seq<MatchupEntry>, dir: map<int, string>)
    ensures forall k :: k in ks && |Group(entries, k, dir)| == 2 ==>
      (Group(entries, k, dir)[0], Group(entries, k, dir)[1]) in Pairings(ks, entries, dir)
  {
    if ks != [] {
      var init := ks[..|ks| - 1];
      var last := ks[|ks| - 1];
      PairingsComplete(init, entries, dir);
      var g := Group(entries, last, dir);
      var ps, ps' := Pairings(ks, entries, dir), Pairings(init, entries, dir);
      assert ps == ps' + (if |g| == 2 then [(g[0], g[1])] else []);
      forall k | k in ks && |Group(entries, k, dir)| == 2
        ensures (Group(entries, k, dir)[0], Group(entries, k, dir)[1]) in ps
      {
        if k != last {
          assert k in init;
        }
      }
    }
  }

  /** Each matchup is the two sides of an id of `ks` whose group has exactly
      two, and each such id gives its matchup. */
  lemma PairingsExact(ks: seq<int>, entries: seq<MatchupEntry>, dir: map<int, string>)
    ensures forall p :: p in Pairings(ks, entries, dir) ==>
      exists k :: k in ks && Group(entries, k, dir) == [p.0, p.1]
    ensures forall k :: k in ks && |Group(entries, k, dir)| == 2 ==>
      (Group(entries, k, dir)[0], Group(entries, k, dir)[1]) in Pairings(ks, entries, dir)
  {
    PairingsSound(ks, entries, dir);
    PairingsComplete(ks, entries, dir);
  }

  /** Results are at most one per distinct matchup id and at most half the
      number of entries. */
  lemma ResultsBound(rosters: seq<Roster>, users: seq<User>, entries: seq<MatchupEntry>,
                     service: seq<string> -> Lookup, show: int -> string)
    ensures var r := Results(rosters, users, entries, service, show);
            r.Success? ==> |r.value| <= |Distinct(Ids(entries))| && |r.value| <= |entries| / 2
  {
    var dir := Directory(rosters, OwnerMap(users));
    var ps := Pairings(Distinct(Ids(entries)), entries, dir);
    PairingsHalf(Distinct(Ids(entries)), entries, dir);
    SummariesMeaning(ps, Summarizer(service, show));
  }

  /** No matchup entries, no results. */
  lemma EmptyMatchups(rosters: seq<Roster>, users: seq<User>, service: seq<string> -> Lookup, show: int -> string)
    ensures Results(rosters, users, [], service, show) == Success([])
  {
  }

  /** With a service that echoes the ids, the star names are the first two
      distinct key-player ids, the first of them the first key player; the
      summary fails exactly when no two key players differ. */
  lemma EchoRoundTrip(team1: TeamSide, team2: TeamSide, service: seq<string> -> Lookup, show: int -> string)
    requires service(KeyPlayers(team1, team2)) == Resolved(Echo(KeyPlayers(team1, team2)))
    ensures var b := KeyPlayers(team1, team2);
            SummaryOf(team1, team2, service, show).Success? <==> exists i, j :: 0 <= i < j < |b| && b[i] != b[j]
    ensures var b := KeyPlayers(team1, team2);
            var d := Distinct(b);
            |d| >= 2 ==>
              && d[0] == b[0]
              && SummaryOf(team1, team2, service, show) == Success(Summary(team1, team2, WinnerOf(team1, team2), d[0], d[1], show))
  {
    var b := KeyPlayers(team1, team2);
    DistinctAtLeastTwo(b);
    if b != [] {
      DistinctHead(b);
    }
  }

  /** The distinct ids of a batch with two empty slots ("0") first. */
  lemma EmptySlotsDistinct()
    ensures Distinct(["0", "0", "200", "201"]) == ["0", "200", "201"]
  {
    assert ["0"][..0] == [];
    assert Distinct(["0"]) == ["0"];
    assert ["0", "0"][..1] == ["0"];
    assert Distinct(["0", "0"]) == ["0"];
    assert ["0", "0", "200"][..2] == ["0", "0"];
    assert Distinct(["0", "0", "200"]) == ["0", "200"];
    assert ["0", "0", "200", "201"][..3] == ["0", "0", "200"];
  }

  /** For any successful lookup, the stars are the values of the response's
      first two pairs, and fewer than two pairs is the IndexError. */
  lemma ResolvedSummary(team1: TeamSide, team2: TeamSide, service: seq<string> -> Lookup, show: int -> string,
                        items: DictItems)
    requires service(KeyPlayers(team1, team2)) == Resolved(items)
    ensures SummaryOf(team1, team2, service, show).Success? <==> |items| >= 2
    ensures |items| >= 2 ==>
      SummaryOf(team1, team2, service, show)
        == Success(Summary(team1, team2, WinnerOf(team1, team2), items[0].1, items[1].1, show))
  {
  }

  /** Two empty starter slots ("0") on the first team: the echoed stars are
      "0" and the second team's first starter, not "0" twice. */
  lemma EchoEmptySlots(service: seq<string> -> Lookup, show: int -> string)
    requires service(["0", "0", "200", "201"]) == Resolved(Echo(["0", "0", "200", "201"]))
    ensures SummaryOf(TeamSide("Alpha", 99, ["0", "0"]), TeamSide("Beta", 85, ["200", "201"]), service, show)
      == Success(Summary(TeamSide("Alpha", 99, ["0", "0"]), TeamSide("Beta", 85, ["200", "201"]), First, "0", "200", show))
  {
    var t1, t2 := TeamSide("Alpha", 99, ["0", "0"]), TeamSide("Beta", 85, ["200", "201"]);
    assert KeyPlayers(t1, t2) == ["0", "0", "200", "201"];
    EmptySlotsDistinct();
    EchoRoundTrip(t1, t2, service, show);
  }

  /** When the lookup fails, two different key players are enough for a
      summary, and both stars are "Unknown Player". */
  lemma FailedLookupSummary(team1: TeamSide, team2: TeamSide, service: seq<string> -> Lookup, show: int -> string)
    requires service(KeyPlayers(team1, team2)) == Failed
    requires var b := KeyPlayers(team1, team2); exists i, j :: 0 <= i < j < |b| && b[i] != b[j]
    ensures SummaryOf(team1, team2, service, show)
      == Success(Summary(team1, team2, WinnerOf(team1, team2), UnknownPlayer, UnknownPlayer, show))
  {
    var b := KeyPlayers(team1, team2);
    FailedLookupValues(b);
    var names := Values(MapPlayerIds(b, Failed));
    assert names[0] in names && names[1] in names;
  }

  /** When the lookup fails and no two key players differ (no starters, or
      one id repeated), the name list has fewer than two entries and the
      summary raises the IndexError. */
  lemma FailedLookupIndexError(team1: TeamSide, team2: TeamSide, service: seq<string> -> Lookup, show: int -> string)
    requires service(KeyPlayers(team1, team2)) == Failed
    requires var b := KeyPlayers(team1, team2); !exists i, j :: 0 <= i < j < |b| && b[i] != b[j]
    ensures SummaryOf(team1, team2, service, show) == Failure(PlayerNameIndexError)
  {
    FailedLookupValues(KeyPlayers(team1, team2));
  }

  /** The second loop of generate_results_with_teams: walk the groups in
      first-seen order and summarise those of exactly two teams. */
  method EmitResults(order: seq<int>, groups: map<int, seq<TeamSide>>, entries: seq<MatchupEntry>,
                     dir: map<int, string>, service: seq<string> -> Lookup, show: int -> string)
      returns (r: Result<seq<string>, PipelineError>)
    requires forall i :: 0 <= i < |order| ==> order[i] in groups
    requires forall k :: k in groups ==> groups[k] == Group(entries, k, dir)
    ensures r == Summaries(Pairings(order, entries, dir), Summarizer(service, show))
  {
    var results: seq<string> := [];
    for i := 0 to |order|
      invariant Summaries(Pairings(order[..i], entries, dir), Summarizer(service, show)) == Success(results)
    {
      var teams := groups[order[i]];
      EmitStep(order, i, entries, dir, Summarizer(service, show), results);
      if |teams| == 2 {
        var team1, team2 := teams[0], teams[1];
        var summary := SummaryOf(team1, team2, service, show);
        assert summary == Summarizer(service, show)(team1, team2);
        if summary.Failure? {
          r := Failure(summary.error);
          EmitAbort(order, i, entries, dir, Summarizer(service, show));
          return;
        }
        results := results + [summary.value];
      }
    }
    assert order[..|order|] == order;
    r := Success(results);
  }

  /** generate_results_with_teams on already fetched league data. */
  method GenerateResultsWithTeams(rosters: seq<Roster>, users: seq<User>, entries: seq<MatchupEntry>,
                                  service: seq<string> -> Lookup, show: int -> string)
      returns (r: Result<seq<string>, PipelineError>)
    ensures r == Results(rosters, users, entries, service, show)
    ensures r.Success? ==> |r.value| <= |Distinct(Ids(entries))| && |r.value| <= |entries| / 2
  {
    ResultsBound(rosters, users, entries, service, show);
    var dir := BuildDirectory(rosters, users);
    var order, groups := Organize(entries, dir);
    assert forall i :: 0 <= i < |order| ==> order[i] in order;
    r := EmitResults(order, groups, entries, dir, service, show);
  }

  /** The worked week's directory: one name from metadata, one display name. */
  lemma ExampleDirectory()
    ensures Directory([Roster(10, "u1"), Roster(20, "u2")],
                      OwnerMap([User("u1", "alice", map["team_name" := "Alpha"]), User("u2", "Beta", map[])]))
      == map[10 := "Alpha", 20 := "Beta"]
  {
  }

  /** The worked week's one matchup id. */
  lemma ExampleIds()
    ensures Distinct(Ids([MatchupEntry(1, 10, 99, ["100", "101"]), MatchupEntry(1, 20, 85, ["200", "201"])])) == [1]
  {
    var entries := [MatchupEntry(1, 10, 99, ["100", "101"]), MatchupEntry(1, 20, 85, ["200", "201"])];
    assert Ids(entries) == [1, 1];
    assert [1, 1][..1] == [1] && [1][..0] == [];
  }

  /** The worked week's two sides, in input order. */
  lemma ExampleGroup()
    ensures Group([MatchupEntry(1, 10, 99, ["100", "101"]), MatchupEntry(1, 20, 85, ["200", "201"])], 1,
                  map[10 := "Alpha", 20 := "Beta"])
      == [TeamSide("Alpha", 99, ["100", "101"]), TeamSide("Beta", 85, ["200", "201"])]
  {
    var entries := [MatchupEntry(1, 10, 99, ["100", "101"]), MatchupEntry(1, 20, 85, ["200", "201"])];
    var dir := map[10 := "Alpha", 20 := "Beta"];
    var t1, t2 := TeamSide("Alpha", 99, ["100", "101"]), TeamSide("Beta", 85, ["200", "201"]);
    assert entries[..1] == [entries[0]] && [entries[0]][..0] == [];
    assert SideOf(entries[0], dir) == t1 && SideOf(entries[1], dir) == t2;
    assert Group(entries[..1], 1, dir) == [t1];
  }

  /** The worked week's one matchup. */
  lemma ExamplePairings()
    ensures var entries := [MatchupEntry(1, 10, 99, ["100", "101"]), MatchupEntry(1, 20, 85, ["200", "201"])];
            Pairings(Distinct(Ids(entries)), entries, map[10 := "Alpha", 20 := "Beta"])
              == [(TeamSide("Alpha", 99, ["100", "101"]), TeamSide("Beta", 85, ["200", "201"]))]
  {
    ExampleIds();
    ExampleGroup();
    assert [1][..0] == [];
  }

  /** The worked week's summary line. */
  lemma ExampleSummary(service: seq<string> -> Lookup, show: int -> string)
    requires service(["100", "101", "200", "201"]) == Resolved([("100", "Mahomes"), ("101", "Kelce")])
    requires show(99) == "99" && show(85) == "85"
    ensures SummaryOf(TeamSide("Alpha", 99, ["100", "101"]), TeamSide("Beta", 85, ["200", "201"]), service, show)
      == Success(Summary(TeamSide("Alpha", 99, ["100", "101"]), TeamSide("Beta", 85, ["200", "201"]),
                         First, "Mahomes", "Kelce", show))
  {
    var t1, t2 := TeamSide("Alpha", 99, ["100", "101"]), TeamSide("Beta", 85, ["200", "201"]);
    assert KeyPlayers(t1, t2) == ["100", "101", "200", "201"];
    assert Values([("100", "Mahomes"), ("101", "Kelce")]) == ["Mahomes", "Kelce"];
  }

  /** The worked week's result list from its one matchup. */
  lemma ExampleSummaries(service: seq<string> -> Lookup, show: int -> string)
    requires service(["100", "101", "200", "201"]) == Resolved([("100", "Mahomes"), ("101", "Kelce")])
    requires show(99) == "99" && show(85) == "85"
    ensures var t1, t2 := TeamSide("Alpha", 99, ["100", "101"]), TeamSide("Beta", 85, ["200", "201"]);
            Summaries([(t1, t2)], Summarizer(service, show)) == Success([Summary(t1, t2, First, "Mahomes", "Kelce", show)])
  {
    ExampleSummary(service, show);
    var t1, t2 := TeamSide("Alpha", 99, ["100", "101"]), TeamSide("Beta", 85, ["200", "201"]);
    assert [(t1, t2)][..0] == [];
    assert Summarizer(service, show)(t1, t2) == SummaryOf(t1, t2, service, show);
    assert Summaries([(t1, t2)][..0], Summarizer(service, show)) == Success([]);
    var line := Summary(t1, t2, First, "Mahomes", "Kelce", show);
    assert [] + [line] == [line];
  }

  /** A worked week: two teams in matchup 1, one named by its metadata and
      one by its display name, and a service that resolves the first team's
      two starters. */
  lemma ExampleWeek(service: seq<string> -> Lookup, show: int -> string)
    requires service(["100", "101", "200", "201"]) == Resolved([("100", "Mahomes"), ("101", "Kelce")])
    requires show(99) == "99" && show(85) == "85"
    ensures Results([Roster(10, "u1"), Roster(20, "u2")],
                    [User("u1", "alice", map["team_name" := "Alpha"]), User("u2", "Beta", map[])],
                    [MatchupEntry(1, 10, 99, ["100", "101"]), MatchupEntry(1, 20, 85, ["200", "201"])],
                    service, show)
      == Success([Summary(TeamSide("Alpha", 99, ["100", "101"]), TeamSide("Beta", 85, ["200", "201"]),
                          First, "Mahomes", "Kelce", show)])
  {
    ExampleDirectory();
    ExamplePairings();
    ExampleSummaries(service, show);
  }
}
