/** The POST /generate_results endpoint: input check, then the pipeline on
    the league data fetched for the request. */
module RequestHandler {
  import opened LeagueTypes
  import opened PlayerNames
  import opened Pipeline

  /** A JSON value of the request body (numbers are integers here). */
  datatype JsonValue =
    | JNull
    | JBool(b: bool)
    | JNumber(n: int)
    | JString(s: string)
    | JArray(items: seq<JsonValue>)
    | JObject(fields: map<string, JsonValue>)

  /** Python truthiness of a decoded JSON value. */
  predicate Truthy(v: JsonValue)
  {
    match v
    case JNull => false
    case JBool(b) => b
    case JNumber(n) => n != 0
    case JString(s) => s != ""
    case JArray(items) => items != []
    case JObject(fields) => fields != map[]
  }

  const InvalidInputMessage: string := "Invalid input. 'league_id' and 'week' are required."

  /** The outcome of the input check. */
  datatype Request = Invalid | Valid(leagueId: JsonValue, week: JsonValue)

  /** The input check: `data.get` gives null for a missing key, and a missing
      or falsy league id or week rejects the request. */
  function ParseRequest(data: map<string, JsonValue>): (r: Request)
    ensures r.Invalid? <==>
      "league_id" !in data || !Truthy(data["league_id"]) || "week" !in data || !Truthy(data["week"])
    ensures r.Valid? ==> r.leagueId == data["league_id"] && r.week == data["week"]
  {
    var leagueId := GetOr(data, "league_id", JNull);
    var week := GetOr(data, "week", JNull);
    if !Truthy(leagueId) || !Truthy(week) then Invalid else Valid(leagueId, week)
  }

  /** What the three league-API calls return for one league and week. */
  datatype LeagueData = LeagueData(rosters: seq<Roster>, users: seq<User>, matchups: seq<MatchupEntry>)

  datatype Body = ErrorBody(error: string) | ResultList(items: seq<string>) | ServerError

  datatype Response = Response(status: int, body: Body)

  /** generate_results: 400 with the fixed message for bad input, otherwise
      200 with the summaries, or 500 when the pipeline raises. */
  method GenerateResults(data: map<string, JsonValue>, fetch: (JsonValue, JsonValue) -> LeagueData,
                         service: seq<string> -> Lookup, show: int -> string)
      returns (resp: Response)
    ensures resp.status == 400 <==> ParseRequest(data).Invalid?
    ensures ParseRequest(data).Invalid? ==> resp.body == ErrorBody(InvalidInputMessage)
    ensures ParseRequest(data).Valid? ==>
      var league := fetch(data["league_id"], data["week"]);
      match Results(league.rosters, league.users, league.matchups, service, show)
      case Success(rs) => resp == Response(200, ResultList(rs))
      case Failure(_) => resp == Response(500, ServerError)
  {
    var request := ParseRequest(data);
    if request.Invalid? {
      return Response(400, ErrorBody(InvalidInputMessage));
    }
    var league := fetch(request.leagueId, request.week);
    var results := GenerateResultsWithTeams(league.rosters, league.users, league.matchups, service, show);
    match results
    case Success(rs) => resp := Response(200, ResultList(rs));
    case Failure(_) => resp := Response(500, ServerError);
  }
}
