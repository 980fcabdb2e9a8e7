/** The player-name lookup (map_player_ids). The service call itself is not
    modelled: its outcome is an input, either the id/name pairs of the
    response object in their order, or a failed request. */
module PlayerNames {
  import opened Sequences

  /** The id/name pairs of a decoded JSON object, in iteration order: a dict
      holds each key once. */
  type DictItems = items: seq<(string, string)> | NoDuplicates(Keys(items)) witness []

  datatype Lookup = Resolved(items: DictItems) | Failed

  const UnknownPlayer: string := "Unknown Player"

  /** The keys of an ordered dict, in order. */
  function Keys(items: seq<(string, string)>): (ks: seq<string>)
  {
    seq(|items|, i requires 0 <= i < |items| => items[i].0)
  }

  /** `list(d.values())` of an ordered dict. */
  function Values(items: seq<(string, string)>): (vs: seq<string>)
  {
    seq(|items|, i requires 0 <= i < |items| => items[i].1)
  }

  /** The dict the ordered pairs stand for, as a plain map. */
  function AsMap(items: seq<(string, string)>): map<string, string>
  {
    if items == [] then map[]
    else AsMap(items[..|items| - 1])[items[|items| - 1].0 := items[|items| - 1].1]
  }

  /** map_player_ids: a successful response is taken as it is; on a failed
      request every requested id, once each and in request order, maps to
      "Unknown Player". */
  function MapPlayerIds(ids: seq<string>, outcome: Lookup): (r: seq<(string, string)>)
    ensures outcome.Resolved? ==> r == outcome.items
    ensures NoDuplicates(Keys(r))
    ensures outcome.Failed? ==> Keys(r) == Distinct(ids)
    ensures outcome.Failed? ==> forall i :: 0 <= i < |r| ==> r[i].1 == UnknownPlayer
  {
    match outcome
    case Resolved(items) => items
    case Failed =>
      var d := Distinct(ids);
      seq(|d|, i requires 0 <= i < |d| => (d[i], UnknownPlayer))
  }

  /** The response of a service that answers each requested id with the id
      itself: the distinct ids, in request order, each mapped to itself. */
  function Echo(ids: seq<string>): (r: DictItems)
    ensures Keys(r) == Distinct(ids) && Values(r) == Distinct(ids)
  {
    var d := Distinct(ids);
    var r := seq(|d|, i requires 0 <= i < |d| => (d[i], d[i]));
    assert Keys(r) == d;
    r
  }

  /** Pairs that all carry the value `v` stand for the map from their keys to `v`. */
  lemma {:induction false} AsMapConstant(items: seq<(string, string)>, v: string)
    requires forall i :: 0 <= i < |items| ==> items[i].1 == v
    ensures AsMap(items) == map k | k in Keys(items) :: v
  {
    if items != [] {
      var init := items[..|items| - 1];
      AsMapConstant(init, v);
      assert Keys(items) == Keys(init) + [items[|items| - 1].0];
    }
  }

  /** On a failed lookup the returned dict's keys are exactly the requested
      ids and every value is "Unknown Player". */
  lemma FailedLookupMap(ids: seq<string>)
    ensures AsMap(MapPlayerIds(ids, Failed)) == map k | k in ids :: UnknownPlayer
  {
    var r := MapPlayerIds(ids, Failed);
    AsMapConstant(r, UnknownPlayer);
    assert forall k :: k in Keys(r) <==> k in ids;
  }

  /** On a failed lookup there are as many names as distinct requested ids,
      all of them "Unknown Player"; there are at least two exactly when two
      requested ids differ. */
  lemma FailedLookupValues(ids: seq<string>)
    ensures |Values(MapPlayerIds(ids, Failed))| == |Distinct(ids)|
    ensures forall v :: v in Values(MapPlayerIds(ids, Failed)) ==> v == UnknownPlayer
    ensures |Values(MapPlayerIds(ids, Failed))| >= 2 <==>
      exists i, j :: 0 <= i < j < |ids| && ids[i] != ids[j]
  {
    DistinctAtLeastTwo(ids);
  }
}
