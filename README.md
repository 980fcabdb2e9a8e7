# SleeperBot matchup summaries, modelled in Dafny

SleeperBot turns a fantasy-football league's week into one line of text per
matchup. It fetches the league's rosters, users and weekly matchup entries
from the Sleeper API. It then names each roster after its owner's team,
pairs the two entries that share a matchup id, picks the winner by points,
looks up the names of up to four key players (the first two starters of
each side) in a separate name service, and renders a fixed sentence. The
model covers that pipeline, which lives in `app.old.py`, and the endpoint's
input check.

The model is a pure function of its inputs:

- the three league-API responses are given as sequences of `Roster`, `User`
  and `MatchupEntry` values;
- the name service is a parameter `service: seq<string> -> Lookup`, where a
  `Lookup` is either the response object's `(id, name)` pairs in their order
  (`Resolved`, whose keys are distinct as in any decoded dict: the subset
  type `DictItems`) or a failed request (`Failed`);
- scores are integers, and how a score is printed (`str` of a number) is a
  parameter `show: int -> string`.

Modules, leaves first:

- `Sequences`: `Distinct`, the key order of a dict filled from a sequence
  (first-seen order), with its properties.
- `LeagueTypes`: the records, `Result`, the pipeline's one error (the
  `IndexError` when fewer than two names come back) and `GetOr` (`dict.get`
  with a default).
- `TeamDirectory`: the owner map comprehension (`OwnerMap`), the roster loop
  as the method `BuildDirectory` with the function `Directory`
  specifying it, and lemmas about both.
- `PlayerNames`: `map_player_ids` given the service's outcome, including the
  failure branch.
- `Matchups`: the grouping loop as the method `Organize`, specified by
  `Distinct` and `Group`; winner, loser and key-player selection.
- `ResultFormatter`: the summary template and where its fields sit.
- `Pipeline`: the pairing loop (`EmitResults`), the whole of
  `generate_results_with_teams` (`GenerateResultsWithTeams`), the
  specification `Results` and its lemmas.
- `RequestHandler`: the `generate_results` endpoint: the input check
  (`ParseRequest`) and the response for each outcome.

Three behaviours of the code worth knowing, all modelled as written:

- The request is rejected when `league_id` or `week` is missing OR falsy
  (`0`, `""`, `false`, `null`, an empty list or object), not only when missing.
- A user without `display_name` makes the code raise a `KeyError`; there is
  no further fallback to "Unknown Team". `display_name` is a required field
  of `User` here.
- The fallback "Unknown Team" is applied twice in the code. It applies to an
  owner missing from the users (line 24) and to a roster id missing from the
  directory (line 64). Both are modelled.

## Model

| member | source | states |
|---|---|---|
| `Sequences.Distinct` | app.old.py:57-63 | the ids as dict keys: each id of the input exactly once and nothing else |
| `Sequences.DistinctFirstSeenOrder` | app.old.py:59-62 | the keys come in the order of the ids' first occurrences in the input |
| `TeamDirectory.OwnerMap` | app.old.py:20 | the comprehension `{user_id: team name}`; no contract of its own, its keys and entries are stated by `OwnerMapKeys` and `OwnerMapEntry` |
| `TeamDirectory.OwnerMapKeys` | app.old.py:20 | the owner map has an entry for exactly the users' ids |
| `TeamDirectory.OwnerMapEntry` | app.old.py:20 | a user's id maps to `metadata["team_name"]` when that key is present, else to `display_name`; with repeated ids the last user wins |
| `TeamDirectory.Directory` | app.old.py:21-25 | the dict the roster loop fills; no contract of its own, its keys and entries are stated by `DirectoryKeys` and `DirectoryEntry`, and `BuildDirectory` is proved to compute it |
| `TeamDirectory.DirectoryKeys` | app.old.py:21-25 | the directory has exactly one entry per roster id in the input and no other |
| `TeamDirectory.DirectoryEntry` | app.old.py:22-25 | a roster's entry is the owner map's name for its owner, or "Unknown Team" when the owner is absent; the last roster with an id wins |
| `TeamDirectory.UnmatchedOwner` | app.old.py:24 | a roster whose owner is none of the users is "Unknown Team" |
| `TeamDirectory.MatchedOwner` | app.old.py:20-25 | a roster owned by a user gets that user's team name, or the display name when the metadata has none |
| `TeamDirectory.BuildDirectory` | app.old.py:19-26 | the loop builds exactly the `Directory` of the rosters over the owner map, keyed by all roster ids |
| `PlayerNames.MapPlayerIds` | app.old.py:35-49 | a successful response is returned as is; on failure the keys are the requested ids once each, in request order, and every value is "Unknown Player"; either way no key occurs twice |
| `PlayerNames.Echo` | app.old.py:45-47 | the response of a service that answers each id with itself: keys and values are the distinct requested ids in request order |
| `PlayerNames.FailedLookupMap` | app.old.py:48-49 | on failure the returned dict is exactly the map from every requested id to "Unknown Player" |
| `PlayerNames.FailedLookupValues` | app.old.py:49 | on failure there are as many names as distinct requested ids, all "Unknown Player", and at least two exactly when two requested ids differ |
| `Matchups.SideOf` | app.old.py:63-67 | one entry as a team side; no contract of its own, `GroupSingle` states it |
| `Matchups.Group` | app.old.py:59-67 | the list of sides the loop builds for one matchup id, in input order; it is never longer than the entries |
| `Matchups.OrganizeStep` | app.old.py:59-67 | one pass of the loop: a new id joins the key order with an empty list, then the entry's side is appended to its own id's list only |
| `Matchups.Organize` | app.old.py:57-67 | the ordered dict from the grouping loop: keys are the distinct matchup ids in first-seen order; each value is that id's `Group` |
| `Matchups.GroupAppend` | app.old.py:59-67 | grouping keeps input order: the group of `a + b` is the group of `a` followed by that of `b` |
| `Matchups.GroupSingle` | app.old.py:63-67 | one entry becomes one side (name from the directory or "Unknown Team", its points and starters) in its own matchup's group only |
| `Matchups.GroupAbsent` | app.old.py:61-62 | an id that occurs in no entry has no sides |
| `Matchups.WinnerOf` | app.old.py:73 | the winner never has fewer points than the other side, and the first team wins only with strictly more, so a tie goes to team2 |
| `Matchups.LoserOf` | app.old.py:74 | the loser is the other side from the winner |
| `Matchups.WinnerRule` | app.old.py:73 | the winner is team1 iff team1 has strictly more points; on equal points it is team2 |
| `Matchups.KeyPlayers` | app.old.py:75 | the batch is at most four ids: a prefix of team1's starters (up to two), then a prefix of team2's starters (up to two) |
| `ResultFormatter.Summary` | app.old.py:77-78 | the f-string; no contract of its own, `SummaryLayout` says where its fields sit |
| `ResultFormatter.SummaryLayout` | app.old.py:77-78 | the summary starts with team1's name, has the winner's name right after the score part and " - Winner: ", ends with the second star name and ".", and holds 64 fixed characters besides the fields |
| `Pipeline.SummaryOf` | app.old.py:73-78 | one matchup's line: a success is always the template with the true winner; which names it carries and when it fails are stated by `ResolvedSummary` (any successful lookup) and `FailedLookupSummary` / `FailedLookupIndexError` (a failed one) |
| `Pipeline.ResolvedSummary` | app.old.py:75-78 | for any successful lookup, the summary succeeds iff the response has at least two pairs, and then the stars are the values of its first two pairs, in response order |
| `Pipeline.Summaries` | app.old.py:69-80 | the summaries of the matchups in order, the first failure aborting the list; no contract of its own, `SummariesMeaning` states it |
| `Pipeline.Results` | app.old.py:52-80 | what generate_results_with_teams returns; no contract of its own, `ResultsBound` bounds it and `GenerateResultsWithTeams` is proved to compute it |
| `Pipeline.SummariesMeaning` | app.old.py:69-80 | the result list succeeds iff every matchup's summary does; then it has one summary per matchup, in order |
| `Pipeline.Pairings` | app.old.py:70-72 | the matchups of a list of ids, at most one per id, in the ids' order |
| `Pipeline.PairingsHalf` | app.old.py:69-72 | matchups come only from groups of exactly two, so distinct ids give at most half as many matchups as entries |
| `Pipeline.PairingsSound` | app.old.py:70-72 | each matchup is the two sides of some id's group of exactly two |
| `Pipeline.PairingsComplete` | app.old.py:70-72 | every id whose group has exactly two sides gives its matchup |
| `Pipeline.PairingsExact` | app.old.py:70-72 | each matchup is the two sides of a group of exactly two, and every such group gives its matchup |
| `Pipeline.ResultsBound` | app.old.py:69-80 | the number of results is at most the number of distinct matchup ids and at most half the number of entries |
| `Pipeline.EmptyMatchups` | app.old.py:57-80 | an empty matchup list gives an empty result list |
| `Pipeline.EchoRoundTrip` | app.old.py:75-78 | with a service that echoes ids, the summary succeeds iff two key players differ, and then the star names are the first two distinct key-player ids, the first being the first key player |
| `Pipeline.EchoEmptySlots` | app.old.py:75-78 | key players "0", "0", "200", "201" echoed give the stars "0" and "200" |
| `Pipeline.FailedLookupSummary` | app.old.py:48-78 | when the lookup fails and two key players differ, the summary is produced with "Unknown Player" twice |
| `Pipeline.FailedLookupIndexError` | app.old.py:48-78 | when the lookup fails and no two key players differ (no starters, or one id repeated), the summary raises the IndexError |
| `Pipeline.ExampleWeek` | app.old.py:52-80 | a two-team week: "Alpha" from metadata, "Beta" from the display name, Alpha the winner, stars "Mahomes" and "Kelce" |
| `Pipeline.EmitResults` | app.old.py:69-80 | the pairing loop returns exactly `Summaries` of the pairings of the ids in dict order, stopping at the first IndexError |
| `Pipeline.GenerateResultsWithTeams` | app.old.py:52-80 | the whole function equals `Results`, and a successful list has at most one line per distinct matchup id and per two entries |
| `RequestHandler.Truthy` | app.old.py:89 | Python truthiness of a JSON value; no contract of its own, `ParseRequest` states the check built on it |
| `RequestHandler.ParseRequest` | app.old.py:85-90 | the request is rejected iff `league_id` or `week` is missing or falsy; otherwise both values are passed on |
| `RequestHandler.GenerateResults` | app.old.py:84-93 | status 400 iff the input check rejects; then the body is the fixed error message; otherwise 200 with the results, or 500 when the pipeline raises |

## Left out

- `get_rosters`, `get_users`, `get_weekly_matchups` (app.old.py:7-16, 29-32): network I/O and JSON parsing. Their results are inputs; in the endpoint they come from a total function `fetch`, so their transport failures (a 500) are not modelled.
- The `requests.post` in `map_player_ids` (app.old.py:44-47): its outcome is the `Lookup` input. Any `RequestException` is `Failed`, including a non-success status from `raise_for_status`. A body that is not JSON counts as `Failed` too, which holds from requests 2.27 on, where `response.json()` raises a `RequestException`; with older versions it raises a `ValueError` that line 48 does not catch, and the endpoint answers 500, which is not modelled. A successful body is taken as its id/name pairs in the order the decoded dict iterates them, each key once (`DictItems`); a JSON body that is not an object is not modelled.
- The name service is a fixed function of the batch: two matchups with the same key players get the same outcome, where two real POSTs could differ (one failing, one not).
- Floating-point numbers: points are integers, and `str` of a score is the parameter `show`. JSON numbers in the request are integers too, so a falsy `0.0` is not modelled.
- The request body is the decoded JSON object. A body that is not an object (where `data.get` itself fails) is not modelled. Nor is Flask's handling of a wrong content type.
- `null` fields in the league data: a `metadata` of `null` (which makes `.get` raise), a `null` owner or matchup id. Fields have the types of the records here.
- The Flask app, the routes, `GET /` and `app.run` (app.old.py:1-4, 83, 95-96; app.py): framework wiring. `app.py` is a stub whose handler echoes its inputs; its input check is the same as app.old.py:89-90.
- The `loser` variable (app.old.py:74) is computed and never used; `LoserOf` only states that it differs from the winner.
- The concrete message text of the 500 response: the model only records that the endpoint answers 500 (`ServerError`).
- `Pipeline.ExampleWeek` states its result as `Summary(...)` with the concrete teams, winner and names, rather than as the rendered literal string, because comparing long string literals is beyond the verifier's budget here. `ResultFormatter.SummaryLayout` states where each field sits in any summary.
