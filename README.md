# Satellite imagery acquisition, modelled in Dafny

This project models the acquisition core of a satellite-imagery fetcher for
the Gaza Strip. The fetcher talks to the Sentinel Hub Processing API.

- **`SatelliteService`** keeps an OAuth 2.0 client-credentials token in a
  cache. A token counts as fresh while it is truthy and more than
  `TOKEN_REFRESH_MARGIN` seconds from its expiry.
- **`fetch_imagery`** fetches one image of one location for one date.
  - It widens the date into a search window of ±3 days when
    `CLOUD_COVERAGE_PERCENTAGE >= 50`, else ±1 day. Without a
    `CLOUD_COVERAGE_PERCENTAGE` setting, the message announcing the window
    raises before any request is sent.
  - It tries `sentinel-2-l2a`, then `sentinel-2-l1c`. Each collection has a
    retry loop of at most `MAX_RETRIES` requests:
    - a 401 refreshes the token;
    - a 429 waits `RETRY_DELAY * 2^retries` seconds;
    - a transport error waits `RETRY_DELAY` seconds;
    - a 200 image is accepted or rejected by the quality gate
      `is_image_valid`.
  - It saves the accepted image and builds an `ImageryData` record for it.
- **`fetch_imagery_for_gaza`** walks every section of the configured grid
  and every weekly date. It can resume from a named section, and it sleeps
  one second after each fetch that returns.
- **Geometry and dates:**
  - the rectangular grid of `divide_region_into_sections`, with its eastern
    shift;
  - the target-count grid of `divide_gaza_into_sections`;
  - assembling the border points into a closed ring, and folding them into a
    bounding box;
  - the weekly date list.
- **`ImageryData`**, with its `to_dict` and `from_dict`.

Modules, one per concern of the program:

- `Common`: `Option`, `Result`, decimal rendering and Python truthiness of a
  string.
- `Imagery`: `imagery_data.py`. Python values are the `Value` datatype and a
  dictionary is a `map<string, Value>`.
- `Dates`: `generate_weekly_dates`.
  - A date is a day ordinal; 2023-01-01 is 738521.
  - `strftime("%Y-%m-%d")` is `IsoDate`, through a proleptic Gregorian
    conversion.
- `Borders`: the point assembly of `create_gaza_polygon` and the min/max fold
  of `get_gaza_bounds`.
- `Grid`: `divide_region_into_sections` and `divide_gaza_into_sections`, both
  as methods with loops. Each is proved equal to a function that describes
  the whole grid, cell by cell.
- `Satellite`: the service as functions over a `World` value.
  - The `World` holds:
    - the token cache;
    - a clock;
    - queues of token-exchange outcomes, API responses and save outcomes,
      each consumed one per call;
    - a log of observable events: token exchanges, API requests, sleeps and
      the (section, date) visits.
  - An empty exchange or response queue stands for a raised exception. An
    empty save queue stands for a successful write.
- `SatelliteFacts`: the properties of those functions. They cover the token
  cache, the gate, the window, the retry loop, the collections, the records
  built and the resume traversal.
- `Service`: class `SatelliteService`.
  - Its fields are the token cache and the environment it consumes.
  - Each method updates the fields in place, and its loops carry invariants.
  - Each method is proved to leave the object in the `World` state that the
    matching `Satellite` function predicts.

In the source, `fetch_imagery` contains the per-collection retry loop, and
the per-section date loop sits inside `fetch_imagery_for_gaza`. The model
writes these two loops as their own methods: `SatelliteService.TryCollection`
and `SatelliteService.ProcessSection`.

Behaviours of the code that the model keeps as they are:

- A 200 image that fails the quality gate ends that collection's loop, and
  the next collection is tried. Only after both collections does the fetch
  give up.
- A failed token exchange keeps the cached token. A 200 reply that lacks
  `expires_in` stores the new token before it raises.
- A start date after the end date gives an empty date list.
- The one-second pause follows every fetch that returns, whether or not it
  found an image. A fetch that raises (a failed save) is skipped without a
  pause.
- The quality gate rejects only on size: fewer than 1000 bytes, when the
  thresholds are not both zero. It looks at neither brightness nor contrast.
- `divide_gaza_into_sections` stores each section's east edge as its
  `min_lon`, as written (see Findings); the evidently intended sections are
  modelled beside it and related to it.

## Model

| member | source | states |
|---|---|---|
| Imagery.ConstructorDefaults | src/models/imagery_data.py:2-8 | the constructor keeps the three given values and defaults `section_id`, `local_path` and `image_data` to None |
| Imagery.ToDictShape | src/models/imagery_data.py:13-27 | `to_dict` has exactly the five record keys, plus `has_image_data` (set to True) exactly when image data is present, and each key maps to its field |
| Imagery.RoundTrip | src/models/imagery_data.py:13-38 | `from_dict(to_dict(x))` gives back `x` with its image data dropped |
| Imagery.FromDictFailure | src/models/imagery_data.py:29-38 | `from_dict` raises KeyError exactly when one of `image_url`, `timestamp`, `metadata` is missing, and it names the first one missing in argument order |
| Imagery.FromDictFields | src/models/imagery_data.py:29-38 | every field of a successful `from_dict` comes from its key; an absent optional key gives None; no image data |
| Imagery.DictRoundTrip | src/models/imagery_data.py:13-38 | a dictionary holding the five record keys is accepted, and `to_dict` of the result gives back the dictionary restricted to those keys |
| Dates.GenerateWeeklyDates | src/utils/geo_helpers.py:341-361 | the date loop yields the weekly sequence from start to end |
| Dates.WeeklyDatesShape | src/utils/geo_helpers.py:341-361 | the list is non-empty iff start <= end; it starts at start, steps by exactly 7 days, never passes end, and stops only when the next date would pass end |
| Dates.WeeklyDatesExample | src/utils/geo_helpers.py:355-361 | from 2023-01-01 to 2023-01-22 there are exactly the four Sundays |
| Dates.CivilJanuary2023 | src/utils/geo_helpers.py:359 | every day ordinal of January 2023 converts to (2023, 1, day) |
| Dates.IsoDateJanuary2023 | src/utils/geo_helpers.py:359 | every day of January 2023 renders as "2023-01-" followed by the day in two digits, so the first four weekly dates are "2023-01-01" … "2023-01-22" |
| Borders.Reverse | src/utils/geo_helpers.py:111 | `list(reversed(xs))` has the same length, with element k taken from position length - 1 - k |
| Borders.CreatePolygonRing | src/utils/geo_helpers.py:87-135 | the in-place assembly gives west, north, east reversed, south reversed; the ring is closed and swapped to (lon, lat) |
| Borders.PolygonRingShape | src/utils/geo_helpers.py:98-135 | no ring iff all four borders are empty; otherwise the ring holds each assembled point swapped, in order, ends on its first point, and adds one point only when the points were not already closed |
| Borders.RingExample | src/utils/geo_helpers.py:98-135 | borders that already close on themselves give the ring without a repeated point; with the south border missing, the first point is appended to close it; both rings come out as (lon, lat) |
| Borders.MinOf | src/utils/geo_helpers.py:163-165 | Python `min` returns an element of the list that is no larger than any other |
| Borders.MaxOf | src/utils/geo_helpers.py:164-166 | Python `max` returns an element of the list that is no smaller than any other |
| Borders.GazaBoundsFallback | src/utils/geo_helpers.py:149-179 | an unloadable file, or one with no points (where `min([])` raises), gives the hard-coded box 31.23–31.60 N, 34.20–34.56 E |
| Borders.GazaBoundsTight | src/utils/geo_helpers.py:155-170 | with points, the box contains every border point, and each of its four bounds is attained by some point |
| Grid.SectionIdInjective | src/utils/geo_helpers.py:241 | `f"section_{k}"` names differ exactly for different k |
| Grid.DivideRegionIntoSections | src/utils/geo_helpers.py:266-339 | raises ZeroDivisionError exactly when a dimension is zero, gives no sections when one is negative, and otherwise the nested loops build exactly the row-major grid of cells |
| Grid.RegionGridOrder | src/utils/geo_helpers.py:287-337 | the grid has rows × cols cells; cell (i, j) sits at index i·cols + j and is named `section_{i·cols+j}` |
| Grid.RegionGridIds | src/utils/geo_helpers.py:318 | cell k is named `section_k`, and names are unique |
| Grid.RegionRows | src/utils/geo_helpers.py:289-290 | rows start at the south edge, neighbouring rows share their edge, and the last row ends at the north edge |
| Grid.RegionCellSize | src/utils/geo_helpers.py:274-311 | each cell is lat_step tall and lon_step wide, shift or not |
| Grid.RegionShift | src/utils/geo_helpers.py:292-311 | column 1 is moved east by 1.5× the shift in row 0, 3× in row 1 (section_3 on the shipped 10 × 2 grid; the source comment calls it section_10) and 1× elsewhere; every other column is unshifted |
| Grid.RegionColumnsUnshifted | src/utils/geo_helpers.py:307-311 | without a shift, columns start at the west edge, share edges, and end at the east edge |
| Grid.RegionCenter | src/utils/geo_helpers.py:313-315 | the stored center, the midpoint of the cell's box, lies inside that box |
| Grid.CeilDivBounds | src/utils/geo_helpers.py:201-217 | the column count is the least c with rows·c >= n |
| Grid.GazaGridShape | src/utils/geo_helpers.py:197-217 | rows is max(1, estimate), and the adjust loops leave the least column count that covers n sections |
| Grid.DivideGazaIntoSections | src/utils/geo_helpers.py:181-259 | the target-count division of the loaded bounds, with its ZeroDivisionError case and its ValueError case (`n / aspect` negative), storing `min_lon` as written |
| Grid.PartitionBounds | src/utils/geo_helpers.py:188-257 | the emit loops with their two breaks produce exactly the first n as-written cells in row-major order |
| Grid.GazaSectionsAt | src/utils/geo_helpers.py:225-254 | the section at index i·cols + j is the as-written cell (i, j), whose `min_lon` is its east edge; in the intended list it is the corrected cell (i, j) |
| Grid.GazaWrittenVsIntended | src/utils/geo_helpers.py:225-254 | the program's section k is the intended section k with `min_lon` replaced by `max_lon`: same name, center, latitudes and east edge |
| Grid.GazaSectionId | src/utils/geo_helpers.py:221-259 | there are exactly n sections, and the one at index k is named `section_k` |
| Grid.GazaPartitionCount | src/utils/geo_helpers.py:181-259 | when the division returns, a negative count gives no sections and a count n gives n sections, the k-th named `section_k` |
| Grid.GazaSectionsCount | src/utils/geo_helpers.py:221-259 | exactly n sections, named section_0 … section_{n-1}, unique |
| Grid.GazaCellDegenerate | src/utils/geo_helpers.py:245 | as written, every stored box has min_lon == max_lon, and its center lies west of the box |
| Grid.GazaCellIntendedCenter | src/utils/geo_helpers.py:231-250 | corrected, the stored center, the midpoint of the cell's box, lies inside that box |
| Grid.GazaCellIntendedTiling | src/utils/geo_helpers.py:231-234 | corrected, cells start at the box's south and west edges, neighbours share edges, and the last row and column end at its north and east edges |
| SatelliteFacts.ExchangeOutcomes | src/api/satellite_service.py:44-69 | one exchange consumes one outcome and logs it. It succeeds iff 200 with both keys, storing the token and `now + expires_in`. A missing `expires_in` stores the token and still fails. Any other failure leaves the cache as it was |
| SatelliteFacts.TokenCache | src/api/satellite_service.py:71-80 | the cache returns the stored token and changes nothing iff the token is truthy and `now < expiry - margin`; otherwise it is exactly one exchange |
| SatelliteFacts.TokenMarginExample | src/api/satellite_service.py:76 | with a 300 s margin, 301 s left is served from the cache, while 300 s or 100 s left forces an exchange |
| SatelliteFacts.GetTokenLog | src/api/satellite_service.py:71-80 | getting a token only extends the log, sends no API request, visits nothing and consumes no API response or save |
| SatelliteFacts.GateDecision | src/api/satellite_service.py:314-340 | missing thresholds fall back to the settings. Both zero accepts everything. Otherwise an image is accepted iff it has at least 1000 bytes, and a missing image is accepted by the handler |
| SatelliteFacts.GateExamples | src/api/satellite_service.py:314-340 | for the shipped settings: a 10-byte image passes with default thresholds, a 500-byte image fails with thresholds 10, a 5000-byte one passes |
| SatelliteFacts.WindowExtension | src/api/satellite_service.py:164-179 | the shipped settings extend by 3 days; when the key is missing the defaults give 3 (coverage >= 50) or 1 day (coverage < 50); the window is [date - days, date + days] |
| SatelliteFacts.WindowExample | src/api/satellite_service.py:164-179 | with the shipped settings, the window around day d of January 2023 runs from day d - 3 to day d + 3 |
| SatelliteFacts.JanuaryRange | src/api/satellite_service.py:178-179 | the `date_range` text for two days of January 2023 is "2023-01-aa to 2023-01-bb", each day in two digits |
| SatelliteFacts.CollectionLoopLog | src/api/satellite_service.py:236-309 | one collection's loop only extends the log, visits nothing, and sends at most MAX_RETRIES - retries requests, all to that collection with the fetch's bbox and window |
| SatelliteFacts.CollectionLoopSaves | src/api/satellite_service.py:247-281 | a loop that gives up writes nothing; an accepted image took exactly one successful write; a failed write is the exception that escapes |
| SatelliteFacts.CollectionLoopAccept | src/api/satellite_service.py:247-278 | an accepted image came from the last request of the loop, with the current bearer, and passed the gate; the record is built from that content |
| SatelliteFacts.CollectionLoopLastRequest | src/api/satellite_service.py:239-278 | an accepted image came from the last logged event, a request to this collection with the bearer the loop ends with, the bbox and the window |
| SatelliteFacts.CollectionLoopAcceptedImage | src/api/satellite_service.py:247-278 | an accepted record is built from a 200 body that passed the gate with the settings' thresholds |
| SatelliteFacts.CollectionLoopExhausted | src/api/satellite_service.py:236-309 | when every request raises, the loop sends exactly MAX_RETRIES requests, waits RETRY_DELAY between them (not after the last), keeps the bearer, and gives up |
| SatelliteFacts.RateLimitExample | src/api/satellite_service.py:293-297 | two 429s, then an image: waits of 5 s and 10 s (exponential backoff), three requests, then the record |
| SatelliteFacts.UnauthorizedExample | src/api/satellite_service.py:283-288 | a 401 refreshes the token; the retry carries the new bearer, and the new token and expiry are cached |
| SatelliteFacts.RefreshFailureExample | src/api/satellite_service.py:283-291 | a 401 whose refresh fails abandons the collection, keeping the old bearer |
| SatelliteFacts.AbandonExamples | src/api/satellite_service.py:279-301 | any status other than 200, 401 or 429, or a 200 image that fails the gate, ends the loop after one request and changes nothing else |
| SatelliteFacts.MakeResultFields | src/api/satellite_service.py:256-274 | the record has an empty URL, the ISO date, the section, the path `images/<section>/<date>.<format>`, the image content, and metadata with exactly source, collection, bbox and the date range |
| SatelliteFacts.TryBoth | src/api/satellite_service.py:199-312 | l2a's outcome is final unless l2a was abandoned, in which case l1c is tried with the bearer l2a left |
| SatelliteFacts.FetchRequests | src/api/satellite_service.py:152-312 | one fetch visits nothing; its requests are a block to l2a and then a block to l1c, each at most MAX_RETRIES long, all with the location's bbox and the window of that date |
| SatelliteFacts.FetchOutcomes | src/api/satellite_service.py:152-312 | a found record was built from content that passed the gate, from one of the two collections, after one successful write; an escaping error is either a missing CLOUD_COVERAGE_PERCENTAGE, with nothing written, or a failed write; nothing found means nothing written |
| SatelliteFacts.FetchMissingCoverage | src/api/satellite_service.py:158-175 | without CLOUD_COVERAGE_PERCENTAGE the fetch raises after the token lookup: no search request, no response consumed, nothing written |
| SatelliteFacts.NotFoundExample | src/api/satellite_service.py:199-312 | with a fresh cached token, a 404 from each collection gives NotFound, not an error, after exactly one request per collection with the cached bearer and nothing else changed |
| SatelliteFacts.FallbackExample | src/api/satellite_service.py:247-281 | a 200 image that fails the gate moves on to `sentinel-2-l1c`, whose valid image becomes the result tagged with that collection |
| SatelliteFacts.MakeResultRecord | src/api/satellite_service.py:262-274 | a record built from a gated image of a known collection has the date, section, path, collection and window of its request |
| SatelliteFacts.FetchRecord | src/api/satellite_service.py:152-312 | every record a fetch returns has that date's timestamp, the section, the path, a known collection, the window, and image data passing the gate |
| SatelliteFacts.DropUntilFirst | src/api/satellite_service.py:116-122 | resume skips exactly the sections before the first one with the resume name |
| SatelliteFacts.DropUntilAbsent | src/api/satellite_service.py:116-122 | if no section has the resume name, every section is skipped |
| SatelliteFacts.ResumeSkips | src/api/satellite_service.py:111-122 | with resume on, the traversal equals the traversal of the sections from the resume section on, with resume off |
| SatelliteFacts.ResumeTraversal | src/api/satellite_service.py:104-122 | a truthy RESUME_FROM processes exactly the sections from the first one of that name; a falsy one processes all |
| SatelliteFacts.FetchThenSleep | src/api/satellite_service.py:143-145 | a fetch and its one-second pause only extend the log and visit nothing |
| SatelliteFacts.TraverseDatesLog | src/api/satellite_service.py:126-147 | one section's date loop visits (section, date) for every date in order, keeps earlier results, adds no more records than dates, and only extends the log |
| SatelliteFacts.ForSomeDateMeans | src/api/satellite_service.py:126-144 | a record is accounted for by the date loop iff it is a well-formed record for one of the dates |
| SatelliteFacts.ForSomeSectionMeans | src/api/satellite_service.py:111-144 | a record is accounted for by the section loop iff it is accounted for by one section's date loop |
| SatelliteFacts.TraverseDatesRecords | src/api/satellite_service.py:126-147 | every record one section collects is a well-formed record for that section and one of the dates |
| SatelliteFacts.TraverseSectionsLog | src/api/satellite_service.py:111-147 | the section loop visits every (section, date) pair in row-major order, keeps earlier results, and adds no more records than pairs |
| SatelliteFacts.PlacedMeans | src/api/satellite_service.py:111-147 | records are placed on targets iff a strictly increasing index map sends each record to a target it is a record for |
| SatelliteFacts.TraverseDatesPlaced | src/api/satellite_service.py:126-147 | one section's date loop appends its records in date order, at most one per date, each a record for its date |
| SatelliteFacts.TraverseSectionsPlaced | src/api/satellite_service.py:111-147 | the section loop appends its records in traversal order, at most one per (section, date) pair, each a record for its pair |
| SatelliteFacts.TraverseSectionsRecords | src/api/satellite_service.py:111-147 | every record collected is a well-formed record for one of the sections and one of the dates |
| SatelliteFacts.GazaRunFacts | src/api/satellite_service.py:82-150 | the run raises iff a grid dimension is zero. Otherwise it visits exactly the resumed sections × weekly dates, and its records come in visit order, at most one per visit, each a record for its section and date |
| SatelliteFacts.SettingsGrid | src/api/satellite_service.py:91-98 | the shipped 10 × 2 settings give 20 sections named section_0 … section_19 |
| SatelliteFacts.ResumeFromIndex | src/api/satellite_service.py:111-122 | resuming from `section_n` processes the sections from index n on, or none when n is past the end |
| SatelliteFacts.ResumeExamples | src/api/satellite_service.py:104-122 | on the shipped grid: "section_2" starts at index 2, "section_99" processes nothing, and "" or None process everything |
| Service.SatelliteService.constructor | src/api/satellite_service.py:17-42 | a new service starts with no token and expiry 0, then obtains its first token |
| Service.SatelliteService.ExchangeToken | src/api/satellite_service.py:44-69 | the object is left in the state of one exchange |
| Service.SatelliteService.GetOAuthToken | src/api/satellite_service.py:71-80 | the cached token or one exchange, as TokenCache states |
| Service.SatelliteService.Sleep | src/api/satellite_service.py:145 | the clock advances by the pause, which is logged |
| Service.SatelliteService.PostRequest | src/api/satellite_service.py:239-245 | one request is consumed and logged with its collection, bearer, bbox and window |
| Service.SatelliteService.SaveImage | src/api/satellite_service.py:254-277 | one write outcome is consumed |
| Service.SatelliteService.TryCollection | src/api/satellite_service.py:236-309 | the retry loop leaves the object, the bearer and the attempt as CollectionLoop predicts |
| Service.SatelliteService.FetchImagery | src/api/satellite_service.py:152-312 | the object and the outcome are as Fetch predicts, including the raise when CLOUD_COVERAGE_PERCENTAGE is missing |
| Service.SatelliteService.ProcessSection | src/api/satellite_service.py:124-147 | one section's date loop leaves the object and the results as TraverseDates predicts |
| Service.SatelliteService.FetchImageryForGaza | src/api/satellite_service.py:82-150 | a grid error raises and leaves the object unchanged; otherwise the object and the results are as GazaRun predicts, and so have the properties of GazaRunFacts |

## Left out

- HTTP payloads and headers (evalscript, image size, mosaicking order, the
  `timeRange` strings) are not modelled. A request is logged only with its
  collection, bearer, bbox and window, and a response is its status and body.
- The contents written to the image file and the metadata JSON are not
  modelled. Each write is one outcome from a queue: success or a raised
  error. `os.makedirs`, `save_image`, `process_imagery` and `__repr__` are not
  part of this model.
- `print` output is left out. The per-date "Fetching imagery" line is kept as
  a `Visit` event, so that the traversal has something to observe.
- The clock is a parameter of the constructor. Only sleeps advance it;
  request latency is not modelled.
- `datetime.strptime` and the `"current"` end date are left out. Dates are
  day ordinals, and `Settings` takes the end date as a parameter.
  `datetime` range limits (OverflowError) are not modelled.
- `IsoDate` always pads the year to four digits (year 1 is "0001"). Platform
  `strftime("%Y")` may leave years below 1000 unpadded; that is not modelled.
- Coordinates are exact reals. Floating-point rounding is not modelled.
- `DivideGazaIntoSections`: `int(sqrt(n / aspect))` is the `rowsEstimate`
  parameter, because `sqrt` of a real has no exact model. Its two raising
  cases are modelled: a zero span raises ZeroDivisionError, and a negative
  `n / aspect` raises ValueError. For a negative count that passes `sqrt`,
  the grid shape is not computed, since no cell is emitted whatever it is.
- The shapely `Polygon`, its validity check and `buffer(0)` are left out.
  `CreatePolygonRing` stops at the ring handed to shapely.
- `find_gaza_coordinates_file`, `load_gaza_borders` and `load_gaza_bounds` are
  left out. `GetGazaBounds` takes their result as `Option<Borders>`, where
  `None` stands for an exception.
- `SatelliteService.constructor`: the endpoint, keys and directory paths are
  left out. `imagesDir` is a configuration string.
- A non-string `access_token` and a non-numeric `expires_in` are not
  modelled. A negative `RETRY_DELAY` is excluded: `Config.retryDelay` is a
  `nat`.
- `main.py`, the settings module beyond the values listed in `Settings`, and
  the tests are not part of this model.

## Findings

| source | as written | input that shows it | evidently intended | confidence | as-written member | corrected member |
|---|---|---|---|---|---|---|
| src/utils/geo_helpers.py:245 | each section's bounds store `"min_lon": max_lon`, so the box has zero width and the stored center lies west of it | any region with min_lon < max_lon, e.g. the fallback box with 150 sections: every section has min_lon == max_lon | `"min_lon": min_lon`, the cell's west edge | high (not executed) | Grid.GazaCellDegenerate | Grid.GazaCellIntendedCenter |
