/** The team directory: which team name each roster goes by
    (get_team_name_by_roster_id). */
module TeamDirectory {
  import opened LeagueTypes

  /** The name a user's team goes by: the metadata's "team_name" when it has
      one, otherwise the user's display name. */
  function OwnerTeamName(u: User): string
  {
    GetOr(u.metadata, "team_name", u.displayName)
  }

  /** The owner-to-team-name dict built by the comprehension over the users;
      a later user with the same id overwrites an earlier one. */
  function OwnerMap(users: seq<User>): map<string, string>
  {
    if users == [] then map[]
    else
      var u := users[|users| - 1];
      OwnerMap(users[..|users| - 1])[u.userId := OwnerTeamName(u)]
  }

  /** No later user has the same id as `users[i]`. */
  predicate LastUser(users: seq<User>, i: int)
    requires 0 <= i < |users|
  {
    forall j :: i < j < |users| ==> users[j].userId != users[i].userId
  }

  /** The owner map has an entry for exactly the users' ids. */
  lemma {:induction false} OwnerMapKeys(users: seq<User>)
    ensures OwnerMap(users).Keys == set u | u in users :: u.userId
  {
    if users != [] {
      var init := users[..|users| - 1];
      OwnerMapKeys(init);
      assert users == init + [users[|users| - 1]];
    }
  }

  /** Each user's id maps to its metadata team name when present, otherwise
      to its display name (the last user wins when ids repeat). */
  lemma {:induction false} OwnerMapEntry(users: seq<User>, i: int)
    requires 0 <= i < |users| && LastUser(users, i)
    ensures users[i].userId in OwnerMap(users)
    ensures OwnerMap(users)[users[i].userId] ==
      if "team_name" in users[i].metadata then users[i].metadata["team_name"] else users[i].displayName
  {
    var n := |users|;
    if i < n - 1 {
      var init := users[..n - 1];
      assert init[i] == users[i];
      assert LastUser(init, i);
      OwnerMapEntry(init, i);
    }
  }

  /** The roster-to-team-name dict filled by the loop over the rosters; a
      later roster with the same id overwrites an earlier one. */
  function Directory(rosters: seq<Roster>, owners: map<string, string>): map<int, string>
  {
    if rosters == [] then map[]
    else
      var r := rosters[|rosters| - 1];
      Directory(rosters[..|rosters| - 1], owners)[r.rosterId := GetOr(owners, r.ownerId, UnknownTeam)]
  }

  /** No later roster has the same id as `rosters[i]`. */
  predicate LastRoster(rosters: seq<Roster>, i: int)
    requires 0 <= i < |rosters|
  {
    forall j :: i < j < |rosters| ==> rosters[j].rosterId != rosters[i].rosterId
  }

  /** Every roster id gets exactly one entry, and nothing else does. */
  lemma {:induction false} DirectoryKeys(rosters: seq<Roster>, owners: map<string, string>)
    ensures Directory(rosters, owners).Keys == set r | r in rosters :: r.rosterId
  {
    if rosters != [] {
      var init := rosters[..|rosters| - 1];
      DirectoryKeys(init, owners);
      assert rosters == init + [rosters[|rosters| - 1]];
    }
  }

  /** A roster's entry is its owner's team name, or "Unknown Team" when the
      owner is not in the owner map. */
  lemma {:induction false} DirectoryEntry(rosters: seq<Roster>, owners: map<string, string>, i: int)
    requires 0 <= i < |rosters| && LastRoster(rosters, i)
    ensures rosters[i].rosterId in Directory(rosters, owners)
    ensures Directory(rosters, owners)[rosters[i].rosterId] ==
      if rosters[i].ownerId in owners then owners[rosters[i].ownerId] else UnknownTeam
  {
    var n := |rosters|;
    if i < n - 1 {
      var init := rosters[..n - 1];
      assert init[i] == rosters[i];
      assert LastRoster(init, i);
      DirectoryEntry(init, owners, i);
    }
  }

  /** A roster whose owner is none of the users is listed as "Unknown Team". */
  lemma UnmatchedOwner(rosters: seq<Roster>, users: seq<User>, i: int)
    requires 0 <= i < |rosters| && LastRoster(rosters, i)
    requires forall u :: u in users ==> u.userId != rosters[i].ownerId
    ensures rosters[i].rosterId in Directory(rosters, OwnerMap(users))
    ensures Directory(rosters, OwnerMap(users))[rosters[i].rosterId] == UnknownTeam
  {
    OwnerMapKeys(users);
    DirectoryEntry(rosters, OwnerMap(users), i);
  }

  /** A roster owned by a user is listed under that user's team name. */
  lemma MatchedOwner(rosters: seq<Roster>, users: seq<User>, i: int, j: int)
    requires 0 <= i < |rosters| && LastRoster(rosters, i)
    requires 0 <= j < |users| && LastUser(users, j) && users[j].userId == rosters[i].ownerId
    ensures rosters[i].rosterId in Directory(rosters, OwnerMap(users))
    ensures Directory(rosters, OwnerMap(users))[rosters[i].rosterId] ==
      if "team_name" in users[j].metadata then users[j].metadata["team_name"] else users[j].displayName
  {
    OwnerMapEntry(users, j);
    DirectoryEntry(rosters, OwnerMap(users), i);
  }

  /** get_team_name_by_roster_id: builds the owner map, then fills the
      directory roster by roster. */
  method BuildDirectory(rosters: seq<Roster>, users: seq<User>) returns (dir: map<int, string>)
    ensures dir == Directory(rosters, OwnerMap(users))
    ensures dir.Keys == set r | r in rosters :: r.rosterId
  {
    var owners := OwnerMap(users);
    dir := map[];
    for i := 0 to |rosters|
      invariant dir == Directory(rosters[..i], owners)
    {
      var r := rosters[i];
      assert rosters[..i + 1][..i] == rosters[..i];
      dir := dir[r.rosterId := GetOr(owners, r.ownerId, UnknownTeam)];
    }
    assert rosters[..|rosters|] == rosters;
    DirectoryKeys(rosters, owners);
  }
}
