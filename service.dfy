/** `SatelliteService` as the object the source updates in place: the token
    cache, and the environment it talks to (the token endpoint, the processing
    API, the file system and the clock) as queues and a clock reading. Every
    method is proved to leave the object in the state the functional model
    predicts for the same call. */
module Service {
  import opened Common
  import opened Imagery
  import opened Dates
  import opened Grid
  import opened Satellite

  class SatelliteService {
    const cfg: Config
    var token: Option<string>
    var tokenExpiry: real
    /** The reading `time.time()` would give. */
    var clock: real
    /** Outcomes of the coming token requests, in order. */
    var exchanges: seq<ExchangeOutcome>
    /** Outcomes of the coming processing-API requests, in order. */
    var responses: seq<ApiResponse>
    /** Outcomes of the coming image-and-metadata writes, in order. */
    var saves: seq<bool>
    /** The observable events so far. */
    ghost var log: seq<Event>

    /** The object and its environment as a world of the functional model. */
    ghost function State(): World
      reads this
    {
      World(token, tokenExpiry, clock, exchanges, responses, saves, log)
    }

    /** `__init__`: no token, expiry 0, then the initial `get_oauth_token`. */
    constructor (cfg: Config, now: real, exchanges: seq<ExchangeOutcome>, responses: seq<ApiResponse>, saves: seq<bool>)
      ensures this.cfg == cfg
      ensures State() == GetToken(cfg, World(None, 0.0, now, exchanges, responses, saves, [])).world
    {
      this.cfg := cfg;
      token := None;
      tokenExpiry := 0.0;
      clock := now;
      this.exchanges := exchanges;
      this.responses := responses;
      this.saves := saves;
      log := [];
      new;
      var _ := GetOAuthToken();
    }

    /** `_get_oauth_token`. */
    method ExchangeToken() returns (t: Option<string>)
      modifies this
      ensures Step(State(), t) == Exchange(old(State()))
    {
      var outcome: ExchangeOutcome;
      if exchanges == [] {
        outcome := OAuthError;
      } else {
        outcome := exchanges[0];
        exchanges := exchanges[1..];
      }
      log := log + [TokenExchange(outcome)];
      match outcome
      case OAuthError =>
        return None;
      case OAuthResponse(status, json) =>
        if status != 200 || json.None? {
          return None;
        }
        var reply := json.value;
        if reply.accessToken.None? {
          return None;
        }
        token := reply.accessToken;
        if reply.expiresIn.None? {
          return None;
        }
        tokenExpiry := clock + reply.expiresIn.value;
        return token;
    }

    /** `get_oauth_token`. */
    method GetOAuthToken() returns (t: Option<string>)
      modifies this
      ensures Step(State(), t) == GetToken(cfg, old(State()))
    {
      var now := clock;
      if token.Some? && token.value != "" && now < tokenExpiry - cfg.tokenRefreshMargin {
        return token;
      }
      t := ExchangeToken();
    }

    /** `time.sleep(seconds)`. */
    method Sleep(seconds: nat)
      modifies this
      ensures State() == Satellite.Sleep(old(State()), seconds)
    {
      clock := clock + seconds as real;
      log := log + [Slept(seconds)];
    }

    /** One `requests.post` to the processing API. */
    method PostRequest(q: Query, collection: string, bearer: Option<string>) returns (response: ApiResponse)
      modifies this
      ensures Step(State(), response) == Post(old(State()), q, collection, bearer)
    {
      if responses == [] {
        response := RequestError;
      } else {
        response := responses[0];
        responses := responses[1..];
      }
      log := log + [ApiRequest(collection, bearer, q.loc.bbox, q.dateFrom, q.dateTo)];
    }

    /** Writing the image file and `save_metadata`: `false` when either raised. */
    method SaveImage() returns (ok: bool)
      modifies this
      ensures Step(State(), ok) == Save(old(State()))
    {
      ok := saves == [] || saves[0];
      if saves != [] {
        saves := saves[1..];
      }
    }

    /** The `while retries < MAX_RETRIES` loop of `fetch_imagery` for one
        collection, with the bearer currently in the headers. */
    method TryCollection(q: Query, collection: string, bearer: Option<string>) returns (bearer': Option<string>, attempt: Attempt)
      modifies this
      ensures LoopResult(State(), bearer', attempt) == CollectionLoop(cfg, q, collection, bearer, 0, old(State()))
    {
      bearer' := bearer;
      var retries := 0;
      while retries < cfg.maxRetries
        invariant CollectionLoop(cfg, q, collection, bearer', retries, State()) == CollectionLoop(cfg, q, collection, bearer, 0, old(State()))
        decreases cfg.maxRetries - retries
      {
        var response := PostRequest(q, collection, bearer');
        match response
        case RequestError =>
          retries := retries + 1;
          if retries < cfg.maxRetries {
            Sleep(cfg.retryDelay);
          } else {
            return bearer', Abandoned;
          }
        case Http(status, content) =>
          if status == 200 {
            if IsImageValid(cfg, Some(content), None, None) {
              var ok := SaveImage();
              if ok {
                return bearer', Accepted(MakeResult(cfg, q, collection, content));
              }
              return bearer', SaveFailed;
            }
            return bearer', Abandoned;
          } else if status == 401 {
            var t := ExchangeToken();
            if Truthy(t) {
              bearer' := t;
              retries := retries + 1;
            } else {
              return bearer', Abandoned;
            }
          } else if status == 429 {
            Sleep(cfg.retryDelay * Pow2(retries));
            retries := retries + 1;
          } else {
            return bearer', Abandoned;
          }
      }
      return bearer', Abandoned;
    }

    /** `fetch_imagery(location, date)`: one token lookup, the search window,
        then the collections in order until one gives a result; without a
        cloud-coverage setting it raises before sending anything. */
    method FetchImagery(loc: Location, date: int) returns (outcome: FetchOutcome)
      modifies this
      ensures Step(State(), outcome) == Fetch(cfg, loc, date, old(State()))
    {
      var token := GetOAuthToken();
      ghost var w0 := State();
      var days: int;
      if cfg.cloudCoverage.Some? && cfg.cloudCoverage.value >= 50.0 {
        days := Lookup(cfg.dateRangeExtension, "HIGH_CLOUD_DAYS", 3);
      } else {
        days := Lookup(cfg.dateRangeExtension, "LOW_CLOUD_DAYS", 1);
      }
      if cfg.cloudCoverage.None? {
        // the message announcing the window reads the missing setting
        return Raised;
      }
      var dateFrom, dateTo := date - days, date + days;
      var q := Query(loc, date, dateFrom, dateTo);
      assert q == QueryOf(cfg, loc, date);
      var bearer := token;
      var k := 0;
      while k < |Collections|
        invariant 0 <= k <= |Collections|
        invariant TryCollections(cfg, q, Collections[k..], bearer, State()) == TryCollections(cfg, q, Collections, token, w0)
      {
        var attempt;
        bearer, attempt := TryCollection(q, Collections[k], bearer);
        match attempt {
          case Accepted(d) =>
            return Found(d);
          case SaveFailed =>
            return Raised;
          case Abandoned =>
        }
        assert Collections[k..][1..] == Collections[k + 1..];
        k := k + 1;
      }
      return NotFound;
    }

    /** The `for date in dates` loop of one section, appending to `acc`. */
    method ProcessSection(section: Section, dates: seq<int>, acc: seq<ImageryData>) returns (results: seq<ImageryData>)
      modifies this
      ensures Run(State(), results) == TraverseDates(cfg, LocationOf(section), dates, old(State()), acc)
    {
      var loc := Location(section.center.lat, section.center.lon,
                          [section.bounds.minLon, section.bounds.minLat, section.bounds.maxLon, section.bounds.maxLat],
                          section.id);
      assert loc == LocationOf(section);
      results := acc;
      var j := 0;
      while j < |dates|
        invariant 0 <= j <= |dates|
        invariant TraverseDates(cfg, loc, dates[j..], State(), results) == TraverseDates(cfg, loc, dates, old(State()), acc)
      {
        var date := dates[j];
        assert dates[j..][1..] == dates[j + 1..];
        log := log + [Visit(section.id, date)];
        var outcome := FetchImagery(loc, date);
        match outcome {
          case Found(d) =>
            results := results + [d];
            Sleep(1);
          case NotFound =>
            Sleep(1);
          case Raised =>
        }
        j := j + 1;
      }
    }

    /** `fetch_imagery_for_gaza`: the configured grid, the weekly dates, and
        every date of every section from the resume point on; a fetch that
        returns is followed by a one-second wait, one that raises is skipped. */
    method FetchImageryForGaza() returns (r: Result<seq<ImageryData>, GridError>)
      modifies this
      ensures r.Err? ==> GazaRun(cfg, old(State())) == Err(r.error) && State() == old(State())
      ensures r.Ok? ==> GazaRun(cfg, old(State())) == Ok(Run(State(), r.value))
    {
      var grid := DivideRegionIntoSections(cfg.gazaBounds, cfg.numSectionsLat, cfg.numSectionsLon, EasternShift(cfg));
      if grid.Err? {
        return Err(grid.error);
      }
      var sections := grid.value;
      var dates := GenerateWeeklyDates(cfg.startDate, cfg.endDate);
      var allImagery: seq<ImageryData> := [];
      var resume := false;
      if cfg.resumeFrom.Some? && cfg.resumeFrom.value != "" {
        resume := true;
      }
      var i := 0;
      while i < |sections|
        invariant 0 <= i <= |sections|
        invariant TraverseSections(cfg, sections[i..], dates, resume, State(), allImagery)
               == TraverseSections(cfg, sections, dates, Truthy(cfg.resumeFrom), old(State()), [])
      {
        var section := sections[i];
        assert sections[i..][1..] == sections[i + 1..];
        if resume && cfg.resumeFrom != Some(section.id) {
          i := i + 1;
          continue;
        } else if resume && cfg.resumeFrom == Some(section.id) {
          resume := false;
        }
        allImagery := ProcessSection(section, dates, allImagery);
        i := i + 1;
      }
      return Ok(allImagery);
    }
  }
}
