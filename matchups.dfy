/** Grouping the week's entries by matchup id, and what is read off a pair of
    teams: the winner and the key players (generate_results_with_teams). */
module Matchups {
  import opened LeagueTypes
  import opened Sequences

  /** An entry as a team side; a roster missing from the directory is
      "Unknown Team". */
  function SideOf(e: MatchupEntry, dir: map<int, string>): TeamSide
  {
    TeamSide(GetOr(dir, e.rosterId, UnknownTeam), e.points, e.starters)
  }

  /** The matchup ids of the entries, in input order. */
  function Ids(entries: seq<MatchupEntry>): seq<int>
  {
    seq(|entries|, i requires 0 <= i < |entries| => entries[i].matchupId)
  }

  /** The sides of the entries with matchup id `k`, in input order. */
  function Group(entries: seq<MatchupEntry>, k: int, dir: map<int, string>): (g: seq<TeamSide>)
    ensures |g| <= |entries|
  {
    if entries == [] then []
    else
      var e := entries[|entries| - 1];
      Group(entries[..|entries| - 1], k, dir) + (if e.matchupId == k then [SideOf(e, dir)] else [])
  }

  /** The entries without those of matchup id `k`. */
  function Without(entries: seq<MatchupEntry>, k: int): seq<MatchupEntry>
  {
    if entries == [] then []
    else
      var e := entries[|entries| - 1];
      Without(entries[..|entries| - 1], k) + (if e.matchupId == k then [] else [e])
  }

  /** Grouping keeps input order: the group of a concatenation is the group
      of the first part followed by that of the second. */
  lemma {:induction false} GroupAppend(a: seq<MatchupEntry>, b: seq<MatchupEntry>, k: int, dir: map<int, string>)
    ensures Group(a + b, k, dir) == Group(a, k, dir) + Group(b, k, dir)
  {
    if b != [] {
      var b' := b[..|b| - 1];
      assert (a + b)[..|a + b| - 1] == a + b';
      assert (a + b)[|a + b| - 1] == b[|b| - 1];
      GroupAppend(a, b', k, dir);
    } else {
      assert a + b == a;
    }
  }

  /** A single entry lands in its own matchup's group and no other. */
  lemma GroupSingle(e: MatchupEntry, k: int, dir: map<int, string>)
    ensures Group([e], k, dir) == if e.matchupId == k then [SideOf(e, dir)] else []
  {
  }

  /** A matchup id that occurs in no entry has an empty group. */
  lemma {:induction false} GroupAbsent(entries: seq<MatchupEntry>, k: int, dir: map<int, string>)
    requires k !in Ids(entries)
    ensures Group(entries, k, dir) == []
  {
    if entries != [] {
      var init := entries[..|entries| - 1];
      assert Ids(init) == Ids(entries)[..|entries| - 1];
      assert Ids(entries)[|entries| - 1] == entries[|entries| - 1].matchupId;
      GroupAbsent(init, k, dir);
    }
  }

  /** Removing one matchup's entries leaves the others' groups alone and
      shortens the input by that matchup's group. */
  lemma {:induction false} WithoutGroups(entries: seq<MatchupEntry>, k: int, k': int, dir: map<int, string>)
    ensures |Without(entries, k)| + |Group(entries, k, dir)| == |entries|
    ensures k' != k ==> Group(Without(entries, k), k', dir) == Group(entries, k', dir)
  {
    if entries != [] {
      var init := entries[..|entries| - 1];
      var e := entries[|entries| - 1];
      WithoutGroups(init, k, k', dir);
      var w := Without(entries, k);
      if e.matchupId != k {
        assert w == Without(init, k) + [e];
        assert w[..|w| - 1] == Without(init, k) && w[|w| - 1] == e;
        assert Group(w, k', dir) == Group(Without(init, k), k', dir) + (if e.matchupId == k' then [SideOf(e, dir)] else []);
      } else {
        assert w == Without(init, k);
        assert k' != k ==> Group(entries, k', dir) == Group(init, k', dir) + [];
      }
    }
  }

  /** The state of the grouping loop after the first `i` entries: the keys
      in first-seen order, and each key's sides so far. */
  ghost predicate Organized(entries: seq<MatchupEntry>, i: nat, dir: map<int, string>,
                      order: seq<int>, groups: map<int, seq<TeamSide>>)
    requires i <= |entries|
  {
    && order == Distinct(Ids(entries[..i]))
    && (forall k :: k in groups <==> k in order)
    && (forall k :: k in groups ==> groups[k] == Group(entries[..i], k, dir))
  }

  /** One more entry: its id joins the distinct ids if it is new. */
  lemma IdsStep(entries: seq<MatchupEntry>, i: nat)
    requires i < |entries|
    ensures var id := entries[i].matchupId;
            var d := Distinct(Ids(entries[..i]));
            Distinct(Ids(entries[..i + 1])) == if id in d then d else d + [id]
  {
    var ids := Ids(entries[..i + 1]);
    assert ids[..i] == Ids(entries[..i]);
    assert ids[i] == entries[i].matchupId;
  }

  /** One more entry: its side joins its own id's group and no other. */
  lemma GroupStep(entries: seq<MatchupEntry>, i: nat, k: int, dir: map<int, string>)
    requires i < |entries|
    ensures Group(entries[..i + 1], k, dir)
      == Group(entries[..i], k, dir) + if entries[i].matchupId == k then [SideOf(entries[i], dir)] else []
  {
    assert entries[..i + 1][..i] == entries[..i];
  }

  /** One pass of the grouping loop keeps the dict what the entries so far
      make of it: a new id is added with an empty list, then the entry's side
      is appended to its id's list. */
  lemma OrganizeStep(entries: seq<MatchupEntry>, i: nat, dir: map<int, string>,
                     order: seq<int>, groups: map<int, seq<TeamSide>>,
                     order': seq<int>, groups': map<int, seq<TeamSide>>)
    requires i < |entries| && Organized(entries, i, dir, order, groups)
    requires var id := entries[i].matchupId;
             var started := if id in groups then groups else groups[id := []];
             && order' == (if id in groups then order else order + [id])
             && groups' == started[id := started[id] + [SideOf(entries[i], dir)]]
    ensures Organized(entries, i + 1, dir, order', groups')
  {
    var e := entries[i];
    var id := e.matchupId;
    IdsStep(entries, i);
    if id !in groups {
      assert id !in Ids(entries[..i]);
      GroupAbsent(entries[..i], id, dir);
    }
    forall k | k in groups'
      ensures groups'[k] == Group(entries[..i + 1], k, dir)
    {
      GroupStep(entries, i, k, dir);
    }
  }

  /** The first loop of generate_results_with_teams: an insertion-ordered dict
      from matchup id to the list of its sides, filled entry by entry. */
  method Organize(entries: seq<MatchupEntry>, dir: map<int, string>)
      returns (order: seq<int>, groups: map<int, seq<TeamSide>>)
    ensures order == Distinct(Ids(entries))
    ensures forall k :: k in groups <==> k in order
    ensures forall k :: k in groups ==> groups[k] == Group(entries, k, dir)
  {
    order, groups := [], map[];
    for i := 0 to |entries|
      invariant Organized(entries, i, dir, order, groups)
    {
      var e := entries[i];
      ghost var order0, groups0 := order, groups;
      if e.matchupId !in groups {
        order := order + [e.matchupId];
        groups := groups[e.matchupId := []];
      }
      groups := groups[e.matchupId := groups[e.matchupId] + [SideOf(e, dir)]];
      OrganizeStep(entries, i, dir, order0, groups0, order, groups);
    }
    assert entries[..|entries|] == entries;
  }

  /** Which of the two sides of a matchup. */
  datatype Position = First | Second

  function Other(p: Position): Position
  {
    if p == First then Second else First
  }

  function TeamAt(team1: TeamSide, team2: TeamSide, p: Position): TeamSide
  {
    if p == First then team1 else team2
  }

  /** The winner: a side never has fewer points than the other, and the first
      team wins only with strictly more points, so a tie goes to the second. */
  function WinnerOf(team1: TeamSide, team2: TeamSide): (w: Position)
    ensures TeamAt(team1, team2, w).points >= TeamAt(team1, team2, Other(w)).points
    ensures w == First ==> TeamAt(team1, team2, w).points > TeamAt(team1, team2, Other(w)).points
  {
    if team1.points > team2.points then First else Second
  }

  /** The loser is the side that is not the winner. */
  function LoserOf(team1: TeamSide, team2: TeamSide): (l: Position)
    ensures l == Other(WinnerOf(team1, team2)) && l != WinnerOf(team1, team2)
  {
    if team1.points > team2.points then Second else First
  }

  /** The winner is the first team exactly when it has strictly more points. */
  lemma WinnerRule(team1: TeamSide, team2: TeamSide)
    ensures WinnerOf(team1, team2) == First <==> team1.points > team2.points
    ensures team1.points == team2.points ==> WinnerOf(team1, team2) == Second
  {
  }

  function Min(a: int, b: int): int
  {
    if a < b then a else b
  }

  /** Python's `s[:2]`. */
  function TakeTwo(s: seq<string>): seq<string>
  {
    if |s| <= 2 then s else s[..2]
  }

  /** The key-player batch: the first two starters of each side, team1's
      first, each in starter order. */
  function KeyPlayers(team1: TeamSide, team2: TeamSide): (batch: seq<string>)
    ensures |batch| == Min(2, |team1.players|) + Min(2, |team2.players|) <= 4
    ensures batch[..Min(2, |team1.players|)] <= team1.players
    ensures batch[Min(2, |team1.players|)..] <= team2.players
  {
    TakeTwo(team1.players) + TakeTwo(team2.players)
  }
}
