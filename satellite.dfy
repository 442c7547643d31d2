/** The acquisition state machine of `SatelliteService` as functions over an
    explicit world: the OAuth 2.0 client-credentials token (section 4.4 of
    RFC 6749, `expires_in` per section 5.1), the quality gate, the search
    window, the retry loop over the two collections (429 per section 4 of
    RFC 6585), and the resume traversal of sections and dates.

    The network, the file system and the clock are replaced by the world:
    queues of token-exchange outcomes, API responses and save outcomes,
    consumed one per call, a clock that only sleeps advance, and a log of the
    observable events. */
module Satellite {
  import opened Common
  import opened Imagery
  import opened Dates
  import opened Borders
  import opened Grid

  /** The settings the core reads. `None` stands for an attribute that is absent
      from the settings module, where the source tests `hasattr`. */
  datatype Config = Config(
    maxRetries: int,
    retryDelay: nat,
    tokenRefreshMargin: real,
    cloudCoverage: Option<real>,
    dateRangeExtension: map<string, int>,
    minBrightness: Option<real>,
    minStdDev: Option<real>,
    imagesDir: string,
    imageFormat: string,
    gazaBounds: GeoBounds,
    numSectionsLat: int,
    numSectionsLon: int,
    easternShift: Option<real>,
    startDate: int,
    endDate: int,
    resumeFrom: Option<string>)

  /** The shipped settings, with the `"current"` end date pinned to `endDate`. */
  function Settings(endDate: int): (cfg: Config)
  {
    Config(10, 5, 300.0, Some(50.0), map["HIGH_CLOUD_DAYS" := 3, "LOW_CLOUD_DAYS" := 1],
           Some(0.0), Some(0.0), "data/images", "png",
           GeoBounds(31.235845, 31.594361, 34.219500, 34.558917), 10, 2, Some(0.15),
           StartOrdinal2023, endDate, None)
  }

  /** The JSON body of a 200 token response: each key may be missing. */
  datatype TokenReply = TokenReply(accessToken: Option<string>, expiresIn: Option<real>)

  /** What one `requests.post` to the token endpoint gives: a response whose body
      may not parse as JSON, or an exception. */
  datatype ExchangeOutcome = OAuthResponse(status: int, json: Option<TokenReply>) | OAuthError

  /** What one `requests.post` to the processing API gives: a status with the
      body, or a `RequestException`. */
  datatype ApiResponse = Http(status: int, content: Bytes) | RequestError

  /** Observable events, in the order they happen. */
  datatype Event =
    | TokenExchange(outcome: ExchangeOutcome)
    | ApiRequest(collection: string, bearer: Option<string>, bbox: seq<real>, dateFrom: int, dateTo: int)
    | Slept(seconds: int)
    | Visit(sectionId: string, date: int)

  /** The service's mutable state together with its environment. */
  datatype World = World(
    token: Option<string>,
    tokenExpiry: real,
    clock: real,
    exchanges: seq<ExchangeOutcome>,
    responses: seq<ApiResponse>,
    saves: seq<bool>,
    log: seq<Event>)

  /** A new world paired with a computed value. */
  datatype Step<T> = Step(world: World, out: T)

  function Tail<T>(s: seq<T>): seq<T>
  {
    if s == [] then [] else s[1..]
  }

  /** `time.sleep(seconds)`. */
  function Sleep(w: World, seconds: nat): (w': World)
  {
    w.(clock := w.clock + seconds as real, log := w.log + [Slept(seconds)])
  }

  // ---------------------------------------------------------------------------
  // Token

  /** `_get_oauth_token`: one exchange. On a 200 whose body holds both keys the
      token and its expiry `now + expires_in` are stored and the token is
      returned. A missing `access_token` raises before anything is stored; a
      missing `expires_in` raises after the token was stored. Every failure is
      caught and gives `None`. A queue with no outcome left counts as an
      exception. */
  function Exchange(w: World): (s: Step<Option<string>>)
  {
    var outcome := if w.exchanges == [] then OAuthError else w.exchanges[0];
    var w1 := w.(exchanges := Tail(w.exchanges), log := w.log + [TokenExchange(outcome)]);
    match outcome
    case OAuthError => Step(w1, None)
    case OAuthResponse(status, json) =>
      if status != 200 || json.None? || json.value.accessToken.None? then Step(w1, None)
      else
        var w2 := w1.(token := json.value.accessToken);
        if json.value.expiresIn.None? then Step(w2, None)
        else Step(w2.(tokenExpiry := w.clock + json.value.expiresIn.value), json.value.accessToken)
  }

  /** The cache test of `get_oauth_token`: a truthy token that is not within the
      refresh margin of its expiry. */
  predicate CacheFresh(cfg: Config, w: World)
  {
    Truthy(w.token) && w.clock < w.tokenExpiry - cfg.tokenRefreshMargin
  }

  /** `get_oauth_token`. */
  function GetToken(cfg: Config, w: World): (s: Step<Option<string>>)
  {
    if CacheFresh(cfg, w) then Step(w, w.token) else Exchange(w)
  }

  // ---------------------------------------------------------------------------
  // Quality gate and search window

  /** `is_image_valid(image_data, min_brightness, min_std_dev)`. A missing
      threshold falls back to the setting. When both are zero every image is
      accepted; otherwise a buffer under 1000 bytes is rejected. `None` makes
      `len` raise, and the handler accepts. */
  function IsImageValid(cfg: Config, image: Option<Bytes>, minBrightness: Option<real>, minStdDev: Option<real>): bool
  {
    var brightness := if minBrightness.None? && cfg.minBrightness.Some? then cfg.minBrightness else minBrightness;
    var stdDev := if minStdDev.None? && cfg.minStdDev.Some? then cfg.minStdDev else minStdDev;
    if brightness == Some(0.0) && stdDev == Some(0.0) then true
    else if image.None? then true
    else |image.value| >= 1000
  }

  /** `dict.get(key, default)`. */
  function Lookup(m: map<string, int>, key: string, default: int): int
  {
    if key in m then m[key] else default
  }

  /** The number of days the search window extends on each side of a date. */
  function ExtensionDays(cfg: Config): int
  {
    if cfg.cloudCoverage.Some? && cfg.cloudCoverage.value >= 50.0
    then Lookup(cfg.dateRangeExtension, "HIGH_CLOUD_DAYS", 3)
    else Lookup(cfg.dateRangeExtension, "LOW_CLOUD_DAYS", 1)
  }

  /** The collections in the order they are tried. */
  const Collections: seq<string> := ["sentinel-2-l2a", "sentinel-2-l1c"]

  // ---------------------------------------------------------------------------
  // One fetch

  /** The `location` argument of `fetch_imagery`. */
  datatype Location = Location(lat: real, lon: real, bbox: seq<real>, sectionId: string)

  /** The location built for a section: its center and the bbox
      `[min_lon, min_lat, max_lon, max_lat]`. */
  function LocationOf(s: Section): Location
  {
    Location(s.center.lat, s.center.lon, [s.bounds.minLon, s.bounds.minLat, s.bounds.maxLon, s.bounds.maxLat], s.id)
  }

  /** The search parameters shared by every request of one fetch: the date
      and the window's first and last days, which `fetch_imagery` computes
      once before trying any collection. */
  datatype Query = Query(loc: Location, date: int, dateFrom: int, dateTo: int)

  /** The window as the metadata records it: `f"{from} to {to}"`. */
  function DateRange(dateFrom: int, dateTo: int): string
  {
    IsoDate(dateFrom) + " to " + IsoDate(dateTo)
  }

  function QueryOf(cfg: Config, loc: Location, date: int): Query
  {
    var days := ExtensionDays(cfg);
    Query(loc, date, date - days, date + days)
  }

  /** One POST to the processing API with the current `Authorization` bearer. */
  function Post(w: World, q: Query, collection: string, bearer: Option<string>): (s: Step<ApiResponse>)
  {
    var response := if w.responses == [] then RequestError else w.responses[0];
    Step(w.(responses := Tail(w.responses),
            log := w.log + [ApiRequest(collection, bearer, q.loc.bbox, q.dateFrom, q.dateTo)]),
         response)
  }

  /** Writing the image and its metadata file: `false` when either raised. */
  function Save(w: World): (s: Step<bool>)
  {
    Step(w.(saves := Tail(w.saves)), w.saves == [] || w.saves[0])
  }

  /** `os.path.join(images_dir, section_id, f"{date}.{IMAGE_FORMAT}")`. */
  function LocalPath(cfg: Config, sectionId: string, stamp: string): string
  {
    cfg.imagesDir + "/" + sectionId + "/" + stamp + "." + cfg.imageFormat
  }

  function BboxValue(bbox: seq<real>): (v: Value)
  {
    VList(seq(|bbox|, k requires 0 <= k < |bbox| => VReal(bbox[k])))
  }

  /** The record built for an accepted image. */
  function MakeResult(cfg: Config, q: Query, collection: string, content: Bytes): (d: ImageryData)
  {
    ImageryData(
      VStr(""),
      VStr(IsoDate(q.date)),
      VDict(map["source" := VStr("Sentinel Hub"), "collection" := VStr(collection),
                "bbox" := BboxValue(q.loc.bbox), "date_range" := VStr(DateRange(q.dateFrom, q.dateTo))]),
      VStr(q.loc.sectionId),
      VStr(LocalPath(cfg, q.loc.sectionId, IsoDate(q.date))),
      Some(content))
  }

  /** How one collection ends: a result, abandoned for the next collection, or
      an exception while saving that escapes `fetch_imagery`. */
  datatype Attempt = Accepted(data: ImageryData) | Abandoned | SaveFailed

  datatype LoopResult = LoopResult(world: World, bearer: Option<string>, attempt: Attempt)

  /** The `while retries < MAX_RETRIES` loop for one collection from `retries` on,
      with the `Authorization` bearer it currently sends. */
  function CollectionLoop(cfg: Config, q: Query, collection: string, bearer: Option<string>, retries: int, w: World): (r: LoopResult)
    decreases cfg.maxRetries - retries
  {
    if retries >= cfg.maxRetries then LoopResult(w, bearer, Abandoned)
    else
      var p := Post(w, q, collection, bearer);
      match p.out
      case RequestError =>
        if retries + 1 < cfg.maxRetries
        then CollectionLoop(cfg, q, collection, bearer, retries + 1, Sleep(p.world, cfg.retryDelay))
        else LoopResult(p.world, bearer, Abandoned)
      case Http(status, content) =>
        if status == 200 then
          if IsImageValid(cfg, Some(content), None, None) then
            var s := Save(p.world);
            LoopResult(s.world, bearer, if s.out then Accepted(MakeResult(cfg, q, collection, content)) else SaveFailed)
          else LoopResult(p.world, bearer, Abandoned)
        else if status == 401 then
          var t := Exchange(p.world);
          if Truthy(t.out) then CollectionLoop(cfg, q, collection, t.out, retries + 1, t.world)
          else LoopResult(t.world, bearer, Abandoned)
        else if status == 429 then
          CollectionLoop(cfg, q, collection, bearer, retries + 1, Sleep(p.world, cfg.retryDelay * Pow2(retries)))
        else LoopResult(p.world, bearer, Abandoned)
  }

  function Pow2(k: int): nat
    decreases k
  {
    if k <= 0 then 1 else 2 * Pow2(k - 1)
  }

  /** What `fetch_imagery` gives its caller. */
  datatype FetchOutcome = Found(data: ImageryData) | NotFound | Raised

  /** The `for collection in collections` loop from the given collection on. */
  function TryCollections(cfg: Config, q: Query, collections: seq<string>, bearer: Option<string>, w: World): (r: Step<FetchOutcome>)
  {
    if collections == [] then Step(w, NotFound)
    else
      var r := CollectionLoop(cfg, q, collections[0], bearer, 0, w);
      match r.attempt
      case Accepted(d) => Step(r.world, Found(d))
      case SaveFailed => Step(r.world, Raised)
      case Abandoned => TryCollections(cfg, q, collections[1..], r.bearer, r.world)
  }

  /** `fetch_imagery(location, date)`: one token lookup, then the collections in
      order. Without a cloud-coverage setting the message announcing the window
      reads the missing attribute and raises before any request is sent. */
  function Fetch(cfg: Config, loc: Location, date: int, w: World): (r: Step<FetchOutcome>)
  {
    var t := GetToken(cfg, w);
    if cfg.cloudCoverage.None? then Step(t.world, Raised)
    else TryCollections(cfg, QueryOf(cfg, loc, date), Collections, t.out, t.world)
  }

  // ---------------------------------------------------------------------------
  // Traversal

  /** The world after a traversal and the records collected so far. */
  datatype Run = Run(world: World, results: seq<ImageryData>)

  /** The `for date in dates` loop of one section, appending to `acc`. A fetch
      that returns (with or without a result) is followed by `time.sleep(1)`;
      one that raises is reported and skipped without sleeping. */
  function TraverseDates(cfg: Config, loc: Location, dates: seq<int>, w: World, acc: seq<ImageryData>): (r: Run)
    decreases |dates|
  {
    if dates == [] then Run(w, acc)
    else
      var f := Fetch(cfg, loc, dates[0], w.(log := w.log + [Visit(loc.sectionId, dates[0])]));
      match f.out
      case Found(d) => TraverseDates(cfg, loc, dates[1..], Sleep(f.world, 1), acc + [d])
      case NotFound => TraverseDates(cfg, loc, dates[1..], Sleep(f.world, 1), acc)
      case Raised => TraverseDates(cfg, loc, dates[1..], f.world, acc)
  }

  /** The `for section in sections` loop with the `resume` flag. */
  function TraverseSections(cfg: Config, sections: seq<Section>, dates: seq<int>, resume: bool, w: World, acc: seq<ImageryData>): (r: Run)
    decreases |sections|
  {
    if sections == [] then Run(w, acc)
    else
      var s := sections[0];
      if resume && cfg.resumeFrom != Some(s.id) then TraverseSections(cfg, sections[1..], dates, resume, w, acc)
      else
        var resume' := if resume && cfg.resumeFrom == Some(s.id) then false else resume;
        var r := TraverseDates(cfg, LocationOf(s), dates, w, acc);
        TraverseSections(cfg, sections[1..], dates, resume', r.world, r.results)
  }

  /** The eastern shift `divide_region_into_sections` reads from the settings. */
  function EasternShift(cfg: Config): real
  {
    if cfg.easternShift.Some? then cfg.easternShift.value else 0.0
  }

  /** `fetch_imagery_for_gaza`: the configured grid, the weekly dates and the
      resume traversal. A zero grid dimension raises out of it. */
  function GazaRun(cfg: Config, w: World): (r: Result<Run, GridError>)
  {
    match RegionSections(cfg.gazaBounds, cfg.numSectionsLat, cfg.numSectionsLon, EasternShift(cfg))
    case Err(e) => Err(e)
    case Ok(sections) =>
      Ok(TraverseSections(cfg, sections, WeeklyDates(cfg.startDate, cfg.endDate), Truthy(cfg.resumeFrom), w, []))
  }
}
