/** The scored summary line of one matchup. How a score is printed
    (Python's `str` of a number) is the parameter `show`. */
module ResultFormatter {
  import opened LeagueTypes
  import opened Matchups

  /** "{team1} ({points1} points) vs {team2} ({points2} points)" */
  function Header(team1: TeamSide, team2: TeamSide, show: int -> string): string
  {
    team1.teamName + " (" + show(team1.points) + " points) vs " + team2.teamName + " (" + show(team2.points) + " points)"
  }

  /** The full summary: the header, then " - Winner: {winner}. Star
      performances by {name0} and {name1}." */
  function Summary(team1: TeamSide, team2: TeamSide, w: Position, name0: string, name1: string, show: int -> string): string
  {
    Header(team1, team2, show) + " - Winner: " + TeamAt(team1, team2, w).teamName
      + ". Star performances by " + name0 + " and " + name1 + "."
  }

  /** Where each field sits in the summary: it starts with the first team's
      name, the winner's name follows the header and " - Winner: ", it ends
      with the second star's name and a full stop, and besides the fields it
      holds 64 characters of fixed text. */
  lemma SummaryLayout(team1: TeamSide, team2: TeamSide, w: Position, name0: string, name1: string, show: int -> string)
    ensures var s := Summary(team1, team2, w, name0, name1, show);
            var o := |Header(team1, team2, show)| + 11;
            var winner := TeamAt(team1, team2, w).teamName;
            && |s| == 64 + |team1.teamName| + |team2.teamName| + |show(team1.points)| + |show(team2.points)|
                         + |winner| + |name0| + |name1|
            && s[..|team1.teamName|] == team1.teamName
            && o + |winner| <= |s| && s[o..o + |winner|] == winner
            && s[|s| - |name1| - 1..] == name1 + "."
  {
  }
}
