/** The records the league API returns and the values the pipeline derives
    from them. Points are integers; how a score is printed is a parameter of
    the formatter. */
module LeagueTypes {

  /** A league member: `metadata` may carry a "team_name". */
  datatype User = User(userId: string, displayName: string, metadata: map<string, string>)

  /** A roster and the user who owns it. */
  datatype Roster = Roster(rosterId: int, ownerId: string)

  /** One team's raw entry in a week's matchups. */
  datatype MatchupEntry = MatchupEntry(matchupId: int, rosterId: int, points: int, starters: seq<string>)

  /** A team as it appears in a matchup: its name, score and starters. */
  datatype TeamSide = TeamSide(teamName: string, points: int, players: seq<string>)

  datatype Result<T, E> = Success(value: T) | Failure(error: E)

  /** The IndexError raised when the name lookup returns fewer than two names. */
  datatype PipelineError = PlayerNameIndexError

  const UnknownTeam: string := "Unknown Team"

  /** Python's `d.get(k, fallback)`. */
  function GetOr<K, V>(m: map<K, V>, k: K, fallback: V): V
  {
    if k in m then m[k] else fallback
  }
}
