/**
 * The parsing half of `fetch_place_odds`: the decoded response of the odds
 * endpoint is walked down to `data.place.raceOddsList`, and every record whose
 * horse number is truthy and whose odds value is strictly positive is written
 * into a horse -> place-odds map, later records overwriting earlier ones.
 *
 * The HTTP request itself is not modelled: its outcome is the parameter
 * `Response` (a failed request, or the decoded JSON payload).
 */
module OddsFetcher {
  import opened Wrappers

  /** One entry of `raceOddsList`: the `horseNo1` and `value` fields, each possibly absent or null. */
  datatype OddsRecord = OddsRecord(horseNo: Option<int>, value: Option<real>)

  /** The parts of the decoded JSON payload on the path `data.place.raceOddsList`. */
  datatype PlaceSection = PlaceSection(raceOddsList: Option<seq<OddsRecord>>)
  datatype DataSection = DataSection(place: Option<PlaceSection>)
  datatype Payload = Payload(data: Option<DataSection>)

  /** What the HTTP call yields: a request error (network, timeout, HTTP status) or a decoded body. */
  datatype Response = RequestFailed | Decoded(payload: Payload)

  /**
   * The fault that escapes `fetch_place_odds`: a record with a truthy horse number
   * and no value makes the comparison `value > 0` raise a TypeError, which the
   * function does not catch. `index` is the position of that record.
   */
  datatype ParseError = MissingValue(index: nat)

  type OddsMap = map<int, real>

  /** Python truthiness of the `horseNo1` field: present, non-null and non-zero. */
  predicate Truthy(h: Option<int>) {
    h.Some? && h.value != 0
  }

  /** A record that is written into the map. */
  predicate Qualifies(r: OddsRecord) {
    Truthy(r.horseNo) && r.value.Some? && r.value.value > 0.0
  }

  /** A record on which the comparison with 0 raises. */
  predicate Crashes(r: OddsRecord) {
    Truthy(r.horseNo) && r.value.None?
  }

  /** `json_data.get("data", {}).get("place", {}).get("raceOddsList", [])` */
  function RaceOddsList(p: Payload): (rs: seq<OddsRecord>)
    ensures p.data.None? || p.data.value.place.None? || p.data.value.place.value.raceOddsList.None? ==> rs == []
    ensures p.data.Some? && p.data.value.place.Some? && p.data.value.place.value.raceOddsList.Some? ==>
              rs == p.data.value.place.value.raceOddsList.value
  {
    match p.data
    case None => []
    case Some(d) =>
      match d.place
      case None => []
      case Some(pl) => pl.raceOddsList.GetOr([])
  }

  /**
   * The effect of one iteration of the loop on the map built so far; `i` is the
   * record's position. It raises exactly on a crashing record, writes exactly the
   * qualifying record's horse, and leaves every other entry alone.
   */
  function Step(m: OddsMap, r: OddsRecord, i: nat): (res: Result<OddsMap, ParseError>)
    ensures res.Err? <==> Crashes(r)
    ensures res.Err? ==> res.error == MissingValue(i)
    ensures res.Ok? ==> forall h :: h in res.value <==> h in m || (Qualifies(r) && h == r.horseNo.value)
    ensures res.Ok? && Qualifies(r) ==> res.value[r.horseNo.value] == r.value.value
    ensures res.Ok? ==> forall h :: h in m && !(Qualifies(r) && h == r.horseNo.value) ==> res.value[h] == m[h]
  {
    if !Truthy(r.horseNo) then Ok(m)
    else if r.value.None? then Err(MissingValue(i))
    else if r.value.value > 0.0 then Ok(m[r.horseNo.value := r.value.value])
    else Ok(m)
  }

  /** The loop as a left fold over the records; a failure names a record that raises. */
  function Normalised(rs: seq<OddsRecord>): (res: Result<OddsMap, ParseError>)
    ensures res.Err? ==> res.error.index < |rs| && Crashes(rs[res.error.index])
    decreases |rs|
  {
    if rs == [] then Ok(map[])
    else
      match Normalised(rs[..|rs| - 1])
      case Err(e) => Err(e)
      case Ok(m) => Step(m, rs[|rs| - 1], |rs| - 1)
  }

  /**
   * The whole of `fetch_place_odds` after the request: a failed request gives the
   * empty map and never an error, and every odds value returned is positive.
   */
  function FetchedOdds(resp: Response): (res: Result<OddsMap, ParseError>)
    ensures resp.RequestFailed? ==> res == Ok(map[])
    ensures res.Ok? ==> forall h :: h in res.value ==> res.value[h] > 0.0
  {
    match resp
    case RequestFailed => Ok(map[])
    case Decoded(p) =>
      var rs := RaceOddsList(p);
      match Normalised(rs)
      case Err(e) => Err(e)
      case Ok(m) => NormalisedPositive(rs, m); Ok(m)
  }

  /** Some qualifying record carries horse number `h`. */
  ghost predicate Offers(rs: seq<OddsRecord>, h: int) {
    exists i :: 0 <= i < |rs| && Qualifies(rs[i]) && rs[i].horseNo == Some(h)
  }

  /** Once the fold has failed on a prefix, the outcome for the whole sequence is that failure. */
  lemma {:induction false} FailurePersists(rs: seq<OddsRecord>, k: nat)
    requires k <= |rs| && Normalised(rs[..k]).Err?
    ensures Normalised(rs) == Normalised(rs[..k])
    decreases |rs|
  {
    if k < |rs| {
      var pre := rs[..|rs| - 1];
      assert pre[..k] == rs[..k];
      FailurePersists(pre, k);
    } else {
      assert rs[..k] == rs;
    }
  }

  /**
   * `fetch_place_odds` from the response on: the record loop updates the `odds`
   * map in place and stops with the TypeError on a truthy horse without a value.
   */
  method FetchPlaceOdds(resp: Response) returns (res: Result<OddsMap, ParseError>)
    ensures res == FetchedOdds(resp)
  {
    if resp.RequestFailed? {
      return Ok(map[]);
    }
    var raceOddsList := RaceOddsList(resp.payload);
    var odds: OddsMap := map[];
    var i := 0;
    while i < |raceOddsList|
      invariant 0 <= i <= |raceOddsList|
      invariant Normalised(raceOddsList[..i]) == Ok(odds)
    {
      var item := raceOddsList[i];
      assert raceOddsList[..i + 1][..i] == raceOddsList[..i];
      if item.horseNo.Some? && item.horseNo.value != 0 {
        if item.value.None? {
          FailurePersists(raceOddsList, i + 1);
          return Err(MissingValue(i));
        }
        if item.value.value > 0.0 {
          odds := odds[item.horseNo.value := item.value.value];
        }
      }
      i := i + 1;
    }
    assert raceOddsList[..i] == raceOddsList;
    return Ok(odds);
  }

  /** The fold fails exactly when some record crashes, and then at the first such record. */
  lemma {:induction false} NormalisedFailsAtFirstCrash(rs: seq<OddsRecord>)
    ensures Normalised(rs).Err? <==> exists i :: 0 <= i < |rs| && Crashes(rs[i])
    ensures Normalised(rs).Err? ==>
              var i := Normalised(rs).error.index;
              i < |rs| && Crashes(rs[i]) && forall j :: 0 <= j < i ==> !Crashes(rs[j])
    decreases |rs|
  {
    if rs != [] {
      var pre := rs[..|rs| - 1];
      NormalisedFailsAtFirstCrash(pre);
      forall j | 0 <= j < |pre| ensures pre[j] == rs[j] { }
      if exists i :: 0 <= i < |rs| && Crashes(rs[i]) {
        var i :| 0 <= i < |rs| && Crashes(rs[i]);
        if i < |pre| {
          assert Crashes(pre[i]);
        }
      }
    }
  }

  /** Every odds value in a successfully built map is strictly positive. */
  lemma {:induction false} NormalisedPositive(rs: seq<OddsRecord>, m: OddsMap)
    requires Normalised(rs) == Ok(m)
    ensures forall h :: h in m ==> m[h] > 0.0
    decreases |rs|
  {
    if rs != [] {
      NormalisedPositive(rs[..|rs| - 1], Normalised(rs[..|rs| - 1]).value);
    }
  }

  /** The keys of the map are exactly the horse numbers of the qualifying records. */
  lemma {:induction false} NormalisedKeys(rs: seq<OddsRecord>, m: OddsMap)
    requires Normalised(rs) == Ok(m)
    ensures forall h :: h in m <==> Offers(rs, h)
    decreases |rs|
  {
    if rs != [] {
      var pre := rs[..|rs| - 1];
      var m0 := Normalised(pre).value;
      NormalisedKeys(pre, m0);
      forall h ensures h in m <==> Offers(rs, h) {
        if Offers(pre, h) {
          var i :| 0 <= i < |pre| && Qualifies(pre[i]) && pre[i].horseNo == Some(h);
          assert rs[i] == pre[i];
        }
        if Offers(rs, h) {
          var i :| 0 <= i < |rs| && Qualifies(rs[i]) && rs[i].horseNo == Some(h);
          if i < |pre| {
            assert pre[i] == rs[i];
          }
        }
      }
    }
  }

  /** A qualifying record that no later qualifying record overrides determines its horse's odds. */
  lemma {:induction false} NormalisedLastWins(rs: seq<OddsRecord>, m: OddsMap, i: nat)
    requires Normalised(rs) == Ok(m)
    requires i < |rs| && Qualifies(rs[i])
    requires forall j :: i < j < |rs| && Qualifies(rs[j]) ==> rs[j].horseNo != rs[i].horseNo
    ensures rs[i].horseNo.value in m && m[rs[i].horseNo.value] == rs[i].value.value
    decreases |rs|
  {
    if i < |rs| - 1 {
      var pre := rs[..|rs| - 1];
      assert pre[i] == rs[i];
      forall j | i < j < |pre| && Qualifies(pre[j]) ensures pre[j].horseNo != pre[i].horseNo {
        assert pre[j] == rs[j];
      }
      NormalisedLastWins(pre, Normalised(pre).value, i);
    }
  }

  /**
   * The fetch yields the empty map, not an error, when the request failed, when
   * the `data.place.raceOddsList` path is absent, or when no record qualifies
   * and none crashes.
   */
  lemma EmptyWhenNothingQualifies(resp: Response)
    requires resp.Decoded? ==>
               forall i :: 0 <= i < |RaceOddsList(resp.payload)| ==>
                 !Qualifies(RaceOddsList(resp.payload)[i]) && !Crashes(RaceOddsList(resp.payload)[i])
    ensures FetchedOdds(resp) == Ok(map[])
  {
    if resp.Decoded? {
      var rs := RaceOddsList(resp.payload);
      NormalisedFailsAtFirstCrash(rs);
      var m := Normalised(rs).value;
      NormalisedKeys(rs, m);
      assert forall h :: h !in m;
    }
  }
}
