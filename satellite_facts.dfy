/** What the acquisition state machine promises: token caching and exchange,
    the quality gate, the search window, retry accounting and collection
    order within one fetch, and the resume traversal. */
module SatelliteFacts {
  import opened Common
  import opened Imagery
  import opened Dates
  import opened Borders
  import opened Grid
  import opened Satellite

  // ---------------------------------------------------------------------------
  // Views of the event log

  /** The (section, date) pairs visited, in order. */
  function Visits(log: seq<Event>): (v: seq<(string, int)>)
    ensures |v| <= |log|
  {
    if log == [] then []
    else (if log[0].Visit? then [(log[0].sectionId, log[0].date)] else []) + Visits(log[1..])
  }

  lemma {:induction false} VisitsAppend(a: seq<Event>, b: seq<Event>)
    ensures Visits(a + b) == Visits(a) + Visits(b)
    decreases |a|
  {
    if a == [] {
      assert a + b == b;
    } else {
      assert (a + b)[1..] == a[1..] + b;
      assert (a + b)[0] == a[0];
      VisitsAppend(a[1..], b);
    }
  }

  /** The requests sent to the processing API, in order. */
  function Requests(log: seq<Event>): (reqs: seq<Event>)
    ensures |reqs| <= |log|
    ensures forall k :: 0 <= k < |reqs| ==> reqs[k].ApiRequest?
  {
    if log == [] then []
    else (if log[0].ApiRequest? then [log[0]] else []) + Requests(log[1..])
  }

  lemma {:induction false} RequestsAppend(a: seq<Event>, b: seq<Event>)
    ensures Requests(a + b) == Requests(a) + Requests(b)
    decreases |a|
  {
    if a == [] {
      assert a + b == b;
    } else {
      assert (a + b)[1..] == a[1..] + b;
      assert (a + b)[0] == a[0];
      RequestsAppend(a[1..], b);
    }
  }

  /** The token exchanges attempted, in order. */
  function Exchanges(log: seq<Event>): (xs: seq<Event>)
    ensures |xs| <= |log|
  {
    if log == [] then []
    else (if log[0].TokenExchange? then [log[0]] else []) + Exchanges(log[1..])
  }

  lemma {:induction false} ExchangesAppend(a: seq<Event>, b: seq<Event>)
    ensures Exchanges(a + b) == Exchanges(a) + Exchanges(b)
    decreases |a|
  {
    if a == [] {
      assert a + b == b;
    } else {
      assert (a + b)[1..] == a[1..] + b;
      assert (a + b)[0] == a[0];
      ExchangesAppend(a[1..], b);
    }
  }

  /** The waits, in seconds, in order. */
  function Sleeps(log: seq<Event>): (ws: seq<int>)
    ensures |ws| <= |log|
  {
    if log == [] then []
    else (if log[0].Slept? then [log[0].seconds] else []) + Sleeps(log[1..])
  }

  lemma {:induction false} SleepsAppend(a: seq<Event>, b: seq<Event>)
    ensures Sleeps(a + b) == Sleeps(a) + Sleeps(b)
    decreases |a|
  {
    if a == [] {
      assert a + b == b;
    } else {
      assert (a + b)[1..] == a[1..] + b;
      assert (a + b)[0] == a[0];
      SleepsAppend(a[1..], b);
    }
  }

  /** Each view of a concatenated log is the concatenation of the views. */
  lemma LogViewsAppend(a: seq<Event>, b: seq<Event>)
    ensures Visits(a + b) == Visits(a) + Visits(b)
    ensures Requests(a + b) == Requests(a) + Requests(b)
    ensures Exchanges(a + b) == Exchanges(a) + Exchanges(b)
    ensures Sleeps(a + b) == Sleeps(a) + Sleeps(b)
  {
    VisitsAppend(a, b);
    RequestsAppend(a, b);
    ExchangesAppend(a, b);
    SleepsAppend(a, b);
  }

  lemma VisitsPush(log: seq<Event>, e: Event)
    ensures Visits(log + [e]) == Visits(log) + (if e.Visit? then [(e.sectionId, e.date)] else [])
  {
    VisitsAppend(log, [e]);
    assert [e][1..] == [];
  }

  lemma RequestsPush(log: seq<Event>, e: Event)
    ensures Requests(log + [e]) == Requests(log) + (if e.ApiRequest? then [e] else [])
  {
    RequestsAppend(log, [e]);
    assert [e][1..] == [];
  }

  lemma ExchangesPush(log: seq<Event>, e: Event)
    ensures Exchanges(log + [e]) == Exchanges(log) + (if e.TokenExchange? then [e] else [])
  {
    ExchangesAppend(log, [e]);
    assert [e][1..] == [];
  }

  lemma SleepsPush(log: seq<Event>, e: Event)
    ensures Sleeps(log + [e]) == Sleeps(log) + (if e.Slept? then [e.seconds] else [])
  {
    SleepsAppend(log, [e]);
    assert [e][1..] == [];
  }

  /** Appending one event extends exactly the view it belongs to. */
  lemma LogViewsPush(log: seq<Event>, e: Event)
    ensures Visits(log + [e]) == Visits(log) + (if e.Visit? then [(e.sectionId, e.date)] else [])
    ensures Requests(log + [e]) == Requests(log) + (if e.ApiRequest? then [e] else [])
    ensures Exchanges(log + [e]) == Exchanges(log) + (if e.TokenExchange? then [e] else [])
    ensures Sleeps(log + [e]) == Sleeps(log) + (if e.Slept? then [e.seconds] else [])
  {
    VisitsPush(log, e);
    RequestsPush(log, e);
    ExchangesPush(log, e);
    SleepsPush(log, e);
  }

  // ---------------------------------------------------------------------------
  // Token

  /** The outcome the next exchange consumes; none left counts as an exception. */
  function NextExchange(w: World): ExchangeOutcome
  {
    if w.exchanges == [] then OAuthError else w.exchanges[0]
  }

  /** A 200 whose body holds both `access_token` and `expires_in`. */
  predicate Successful(o: ExchangeOutcome)
  {
    o.OAuthResponse? && o.status == 200 && o.json.Some? && o.json.value.accessToken.Some? && o.json.value.expiresIn.Some?
  }

  /** A 200 with a token but without `expires_in`: the token is stored before the
      lookup of `expires_in` raises. */
  predicate PartiallyStored(o: ExchangeOutcome)
  {
    o.OAuthResponse? && o.status == 200 && o.json.Some? && o.json.value.accessToken.Some? && o.json.value.expiresIn.None?
  }

  /** Every exchange consumes one outcome and logs it. It returns the new token
      exactly when the outcome is successful, and then stores the token and
      `now + expires_in`. A failed exchange returns `None` and keeps the previous
      expiry, and the previous token, except when the token was stored before
      `expires_in` was found missing. The clock and the other queues are untouched. */
  lemma ExchangeOutcomes(w: World)
    ensures var s, o := Exchange(w), NextExchange(w);
      && s.world.log == w.log + [TokenExchange(o)]
      && s.world.exchanges == Tail(w.exchanges)
      && s.world.clock == w.clock && s.world.responses == w.responses && s.world.saves == w.saves
      && (s.out.Some? <==> Successful(o))
      && (Successful(o) ==>
            s.out == s.world.token == o.json.value.accessToken
            && s.world.tokenExpiry == w.clock + o.json.value.expiresIn.value)
      && (!Successful(o) ==> s.out.None? && s.world.tokenExpiry == w.tokenExpiry)
      && (!Successful(o) && !PartiallyStored(o) ==> s.world.token == w.token)
      && (PartiallyStored(o) ==> s.world.token == o.json.value.accessToken)
  {
  }

  /** `get_oauth_token` leaves the world untouched and returns the cached token
      exactly when the cache is fresh; otherwise it is one exchange. */
  lemma TokenCache(cfg: Config, w: World)
    ensures CacheFresh(cfg, w) <==> GetToken(cfg, w).world == w
    ensures CacheFresh(cfg, w) ==> GetToken(cfg, w).out == w.token
    ensures !CacheFresh(cfg, w) ==> GetToken(cfg, w) == Exchange(w)
  {
    if !CacheFresh(cfg, w) {
      assert |Exchange(w).world.log| == |w.log| + 1;
    }
  }

  /** The margin is strict: with a 300 s margin a token expiring 301 s from now
      is reused, one expiring 100 s from now (or exactly 300 s) is exchanged. */
  lemma TokenMarginExample(cfg: Config, w: World, t: string)
    requires cfg.tokenRefreshMargin == 300.0 && t != "" && w.token == Some(t)
    ensures GetToken(cfg, w.(tokenExpiry := w.clock + 301.0)) == Step(w.(tokenExpiry := w.clock + 301.0), Some(t))
    ensures GetToken(cfg, w.(tokenExpiry := w.clock + 100.0)) == Exchange(w.(tokenExpiry := w.clock + 100.0))
    ensures GetToken(cfg, w.(tokenExpiry := w.clock + 300.0)) == Exchange(w.(tokenExpiry := w.clock + 300.0))
  {
  }

  /** A request to `get_oauth_token` touches only the token part of the log. */
  lemma GetTokenLog(cfg: Config, w: World)
    ensures var s := GetToken(cfg, w);
      && w.log <= s.world.log
      && Visits(s.world.log) == Visits(w.log) && Requests(s.world.log) == Requests(w.log)
      && s.world.responses == w.responses && s.world.saves == w.saves
  {
    if !CacheFresh(cfg, w) {
      VisitsPush(w.log, TokenExchange(NextExchange(w)));
      RequestsPush(w.log, TokenExchange(NextExchange(w)));
    }
  }

  // ---------------------------------------------------------------------------
  // Quality gate

  /** The threshold `is_image_valid` ends up comparing. */
  function Effective(given: Option<real>, setting: Option<real>): Option<real>
  {
    if given.None? then setting else given
  }

  /** The gate: both effective thresholds zero accepts anything; otherwise an
      image that cannot be measured is accepted and a measurable one is accepted
      exactly when it has at least 1000 bytes. */
  lemma GateDecision(cfg: Config, image: Option<Bytes>, minBrightness: Option<real>, minStdDev: Option<real>)
    ensures var zero := Effective(minBrightness, cfg.minBrightness) == Some(0.0)
                        && Effective(minStdDev, cfg.minStdDev) == Some(0.0);
      && (zero ==> IsImageValid(cfg, image, minBrightness, minStdDev))
      && (!zero && image.None? ==> IsImageValid(cfg, image, minBrightness, minStdDev))
      && (!zero && image.Some? ==> (IsImageValid(cfg, image, minBrightness, minStdDev) <==> |image.value| >= 1000))
  {
  }

  /** With the shipped zero thresholds even a 10-byte buffer passes; with nonzero
      thresholds a 500-byte buffer fails and a 5000-byte one passes. */
  lemma GateExamples(endDate: int)
    ensures IsImageValid(Settings(endDate), Some(Zeros(10)), None, None)
    ensures !IsImageValid(Settings(endDate), Some(Zeros(500)), Some(10.0), Some(10.0))
    ensures IsImageValid(Settings(endDate), Some(Zeros(5000)), Some(10.0), Some(10.0))
    ensures !IsImageValid(Settings(endDate).(minBrightness := None, minStdDev := None), Some(Zeros(500)), None, None)
  {
  }

  /** The shipped cloud threshold of 50 % counts as high: the window is three
      days on each side, as is the default when the high key is absent. */
  lemma WindowExtension(cfg: Config, loc: Location, date: int)
    ensures ExtensionDays(Settings(cfg.endDate)) == 3
    ensures cfg.cloudCoverage.Some? && cfg.cloudCoverage.value >= 50.0 && "HIGH_CLOUD_DAYS" !in cfg.dateRangeExtension
      ==> ExtensionDays(cfg) == 3
    ensures cfg.cloudCoverage.Some? && cfg.cloudCoverage.value < 50.0 && "LOW_CLOUD_DAYS" !in cfg.dateRangeExtension
      ==> ExtensionDays(cfg) == 1
    ensures var q := QueryOf(cfg, loc, date);
      && q.dateFrom == date - ExtensionDays(cfg) && q.dateTo == date + ExtensionDays(cfg)
  {
  }

  /** With the shipped settings a fetch for a day of January 2023 searches the
      three days either side (JanuaryRange renders that window). */
  lemma WindowExample(endDate: int, loc: Location, day: int)
    requires 4 <= day <= 28
    ensures var q := QueryOf(Settings(endDate), loc, StartOrdinal2023 - 1 + day);
      && q.dateFrom == StartOrdinal2023 - 1 + (day - 3) && q.dateTo == StartOrdinal2023 - 1 + (day + 3)
  {
    assert ExtensionDays(Settings(endDate)) == 3;
  }

  /** The `date_range` string between two days of January 2023: for the
      fetch of 2023-01-08 under the shipped settings, "2023-01-05 to 2023-01-11". */
  lemma JanuaryRange(a: int, b: int)
    requires 1 <= a <= 31 && 1 <= b <= 31
    ensures DateRange(StartOrdinal2023 - 1 + a, StartOrdinal2023 - 1 + b)
      == "2023-01-" + [Digit(a / 10), Digit(a % 10)] + " to " + "2023-01-" + [Digit(b / 10), Digit(b % 10)]
  {
    IsoDateJanuary2023(a);
    IsoDateJanuary2023(b);
  }

  // ---------------------------------------------------------------------------
  // One collection

  /** The requests still allowed from `retries` on. */
  function Budget(cfg: Config, retries: int): nat
  {
    if cfg.maxRetries > retries then cfg.maxRetries - retries else 0
  }

  /** Every request in `reqs` goes to collection `c` with the query's bbox and window. */
  predicate ForCollection(reqs: seq<Event>, c: string, q: Query)
  {
    forall k :: 0 <= k < |reqs| ==>
      reqs[k].ApiRequest? && reqs[k].collection == c && reqs[k].bbox == q.loc.bbox
      && reqs[k].dateFrom == q.dateFrom && reqs[k].dateTo == q.dateTo
  }

  /** A request to `c` for `q` followed by requests to `c` for `q`. */
  lemma ForCollectionChain(before: seq<Event>, mid: seq<Event>, after: seq<Event>, e: Event, c: string, q: Query)
    requires mid == before + [e] && mid <= after
    requires e.ApiRequest? && e.collection == c && e.bbox == q.loc.bbox && e.dateFrom == q.dateFrom && e.dateTo == q.dateTo
    requires ForCollection(after[|mid|..], c, q)
    ensures before <= after && ForCollection(after[|before|..], c, q)
  {
    forall k | 0 <= k < |after[|before|..]|
      ensures after[|before|..][k].ApiRequest?
    {
      if k > 0 {
        assert after[|before|..][k] == after[|mid|..][k - 1];
      } else {
        assert after[|before|] == mid[|before|] == e;
      }
    }
  }

  /** What one run of a collection's retry loop does to the log: it only
      appends, visits nothing, sends at most `budget` requests, all to `c` with
      the query's bbox and window. */
  predicate LoopLog(before: seq<Event>, after: seq<Event>, c: string, q: Query, budget: nat)
  {
    && before <= after
    && Visits(after) == Visits(before)
    && Requests(before) <= Requests(after)
    && |Requests(after)| <= |Requests(before)| + budget
    && ForCollection(Requests(after)[|Requests(before)|..], c, q)
  }

  /** One request followed by a log that satisfies `LoopLog` with one retry fewer. */
  lemma LoopLogChain(before: seq<Event>, mid: seq<Event>, after: seq<Event>, e: Event, c: string, q: Query, budget: nat)
    requires before <= mid && Visits(mid) == Visits(before) && Requests(mid) == Requests(before) + [e]
    requires e.ApiRequest? && e.collection == c && e.bbox == q.loc.bbox && e.dateFrom == q.dateFrom && e.dateTo == q.dateTo
    requires budget >= 1 && LoopLog(mid, after, c, q, budget - 1)
    ensures LoopLog(before, after, c, q, budget)
  {
    ForCollectionChain(Requests(before), Requests(mid), Requests(after), e, c, q);
  }

  /** A request followed by events that are neither requests nor visits. */
  predicate RequestThenQuiet(before: seq<Event>, after: seq<Event>, e: Event)
  {
    before <= after && Visits(after) == Visits(before) && Requests(after) == Requests(before) + [e]
  }

  lemma QuietPush(before: seq<Event>, mid: seq<Event>, e: Event, x: Event)
    requires RequestThenQuiet(before, mid, e) && !x.ApiRequest? && !x.Visit?
    ensures RequestThenQuiet(before, mid + [x], e)
  {
    VisitsPush(mid, x);
    RequestsPush(mid, x);
  }

  lemma LoopLogLast(before: seq<Event>, after: seq<Event>, e: Event, c: string, q: Query, budget: nat)
    requires RequestThenQuiet(before, after, e) && budget >= 1
    requires e.ApiRequest? && e.collection == c && e.bbox == q.loc.bbox && e.dateFrom == q.dateFrom && e.dateTo == q.dateTo
    ensures LoopLog(before, after, c, q, budget)
  {
    assert Requests(after)[|Requests(before)|..] == [e];
  }

  /** A request appends its own event and nothing else to the log. */
  lemma PostQuiet(w: World, q: Query, c: string, bearer: Option<string>)
    ensures RequestThenQuiet(w.log, Post(w, q, c, bearer).world.log, ApiRequest(c, bearer, q.loc.bbox, q.dateFrom, q.dateTo))
  {
    var e := ApiRequest(c, bearer, q.loc.bbox, q.dateFrom, q.dateTo);
    VisitsPush(w.log, e);
    RequestsPush(w.log, e);
  }

  /** A request, one quiet event (a sleep or a token exchange), then a retry
      that satisfies `LoopLog` with one retry fewer. */
  lemma RetryLog(before: seq<Event>, mid: seq<Event>, x: Event, after: seq<Event>, e: Event, c: string, q: Query, budget: nat)
    requires RequestThenQuiet(before, mid, e) && !x.ApiRequest? && !x.Visit?
    requires e.ApiRequest? && e.collection == c && e.bbox == q.loc.bbox && e.dateFrom == q.dateFrom && e.dateTo == q.dateTo
    requires budget >= 1 && LoopLog(mid + [x], after, c, q, budget - 1)
    ensures LoopLog(before, after, c, q, budget)
  {
    QuietPush(before, mid, e, x);
    LoopLogChain(before, mid + [x], after, e, c, q, budget);
  }

  /** The retry loop of one collection only appends to the log, visits nothing,
      sends at most one request per remaining retry, and sends each of them to
      this collection with the fetch's bbox and window. */
  lemma {:induction false} CollectionLoopLog(cfg: Config, q: Query, c: string, bearer: Option<string>, retries: int, w: World)
    ensures LoopLog(w.log, CollectionLoop(cfg, q, c, bearer, retries, w).world.log, c, q, Budget(cfg, retries))
    decreases cfg.maxRetries - retries
  {
    if retries < cfg.maxRetries {
      var r := CollectionLoop(cfg, q, c, bearer, retries, w);
      var p := Post(w, q, c, bearer);
      var e := ApiRequest(c, bearer, q.loc.bbox, q.dateFrom, q.dateTo);
      var budget := Budget(cfg, retries);
      PostQuiet(w, q, c, bearer);
      match p.out
      case RequestError =>
        if retries + 1 < cfg.maxRetries {
          var next := Sleep(p.world, cfg.retryDelay);
          assert r == CollectionLoop(cfg, q, c, bearer, retries + 1, next);
          CollectionLoopLog(cfg, q, c, bearer, retries + 1, next);
          RetryLog(w.log, p.world.log, Slept(cfg.retryDelay), r.world.log, e, c, q, budget);
        } else {
          assert r.world == p.world;
          LoopLogLast(w.log, p.world.log, e, c, q, budget);
        }
      case Http(status, content) =>
        if status == 401 {
          var t := Exchange(p.world);
          if Truthy(t.out) {
            assert r == CollectionLoop(cfg, q, c, t.out, retries + 1, t.world);
            CollectionLoopLog(cfg, q, c, t.out, retries + 1, t.world);
            RetryLog(w.log, p.world.log, TokenExchange(NextExchange(p.world)), r.world.log, e, c, q, budget);
          } else {
            assert r.world == t.world;
            QuietPush(w.log, p.world.log, e, TokenExchange(NextExchange(p.world)));
            LoopLogLast(w.log, t.world.log, e, c, q, budget);
          }
        } else if status == 429 {
          var next := Sleep(p.world, cfg.retryDelay * Pow2(retries));
          assert r == CollectionLoop(cfg, q, c, bearer, retries + 1, next);
          CollectionLoopLog(cfg, q, c, bearer, retries + 1, next);
          RetryLog(w.log, p.world.log, Slept(cfg.retryDelay * Pow2(retries)), r.world.log, e, c, q, budget);
        } else {
          assert r.world.log == p.world.log;
          LoopLogLast(w.log, p.world.log, e, c, q, budget);
        }
    }
  }



  /** Only a `200` whose image passes the gate reaches the save: an abandoned
      collection leaves the save queue alone, an accepted one consumed one
      successful save and one that raised consumed one failed save. */
  lemma {:induction false} CollectionLoopSaves(cfg: Config, q: Query, c: string, bearer: Option<string>, retries: int, w: World)
    ensures var r := CollectionLoop(cfg, q, c, bearer, retries, w);
      && (r.attempt.Abandoned? ==> r.world.saves == w.saves)
      && (r.attempt.Accepted? ==> (w.saves == [] || w.saves[0]) && r.world.saves == Tail(w.saves))
      && (r.attempt.SaveFailed? ==> w.saves != [] && !w.saves[0] && r.world.saves == Tail(w.saves))
    decreases cfg.maxRetries - retries
  {
    if retries < cfg.maxRetries {
      var p := Post(w, q, c, bearer);
      match p.out
      case RequestError =>
        if retries + 1 < cfg.maxRetries {
          CollectionLoopSaves(cfg, q, c, bearer, retries + 1, Sleep(p.world, cfg.retryDelay));
        }
      case Http(status, content) =>
        if status == 401 {
          var t := Exchange(p.world);
          if Truthy(t.out) {
            CollectionLoopSaves(cfg, q, c, t.out, retries + 1, t.world);
          }
        } else if status == 429 {
          CollectionLoopSaves(cfg, q, c, bearer, retries + 1, Sleep(p.world, cfg.retryDelay * Pow2(retries)));
        }
    }
  }

  /** An accepted collection ends on the request that fetched the image, sent
      with the bearer the loop ends with, and its record is built from an image
      that passed the gate with the settings' thresholds. */
  lemma CollectionLoopAccept(cfg: Config, q: Query, c: string, bearer: Option<string>, retries: int, w: World)
    ensures var r := CollectionLoop(cfg, q, c, bearer, retries, w);
      r.attempt.Accepted? ==>
        && |r.world.log| >= 1
        && r.world.log[|r.world.log| - 1] == ApiRequest(c, r.bearer, q.loc.bbox, q.dateFrom, q.dateTo)
        && exists content :: IsImageValid(cfg, Some(content), None, None) && r.attempt.data == MakeResult(cfg, q, c, content)
  {
    CollectionLoopLastRequest(cfg, q, c, bearer, retries, w);
    CollectionLoopAcceptedImage(cfg, q, c, bearer, retries, w);
  }

  /** An accepted collection ends on the request that fetched the image, sent
      with the bearer the loop ends with. */
  lemma {:induction false} CollectionLoopLastRequest(cfg: Config, q: Query, c: string, bearer: Option<string>, retries: int, w: World)
    ensures var r := CollectionLoop(cfg, q, c, bearer, retries, w);
      r.attempt.Accepted? ==>
        && |r.world.log| >= 1
        && r.world.log[|r.world.log| - 1] == ApiRequest(c, r.bearer, q.loc.bbox, q.dateFrom, q.dateTo)
    decreases cfg.maxRetries - retries
  {
    if retries < cfg.maxRetries {
      var p := Post(w, q, c, bearer);
      match p.out
      case RequestError =>
        if retries + 1 < cfg.maxRetries {
          CollectionLoopLastRequest(cfg, q, c, bearer, retries + 1, Sleep(p.world, cfg.retryDelay));
        }
      case Http(status, content) =>
        if status == 401 {
          var t := Exchange(p.world);
          if Truthy(t.out) {
            CollectionLoopLastRequest(cfg, q, c, t.out, retries + 1, t.world);
          }
        } else if status == 429 {
          CollectionLoopLastRequest(cfg, q, c, bearer, retries + 1, Sleep(p.world, cfg.retryDelay * Pow2(retries)));
        }
    }
  }

  /** The record of an accepted collection is built from an image that passed
      the gate with the settings' thresholds. */
  lemma {:induction false} CollectionLoopAcceptedImage(cfg: Config, q: Query, c: string, bearer: Option<string>, retries: int, w: World)
    ensures var r := CollectionLoop(cfg, q, c, bearer, retries, w);
      r.attempt.Accepted? ==>
        exists content :: IsImageValid(cfg, Some(content), None, None) && r.attempt.data == MakeResult(cfg, q, c, content)
    decreases cfg.maxRetries - retries
  {
    if retries < cfg.maxRetries {
      var p := Post(w, q, c, bearer);
      match p.out
      case RequestError =>
        if retries + 1 < cfg.maxRetries {
          CollectionLoopAcceptedImage(cfg, q, c, bearer, retries + 1, Sleep(p.world, cfg.retryDelay));
        }
      case Http(status, content) =>
        if status == 200 {
          if IsImageValid(cfg, Some(content), None, None) {
            assert CollectionLoop(cfg, q, c, bearer, retries, w).attempt.Accepted? ==>
              CollectionLoop(cfg, q, c, bearer, retries, w).attempt.data == MakeResult(cfg, q, c, content);
          }
        } else if status == 401 {
          var t := Exchange(p.world);
          if Truthy(t.out) {
            CollectionLoopAcceptedImage(cfg, q, c, t.out, retries + 1, t.world);
          }
        } else if status == 429 {
          CollectionLoopAcceptedImage(cfg, q, c, bearer, retries + 1, Sleep(p.world, cfg.retryDelay * Pow2(retries)));
        }
    }
  }

  /** With the transport failing on every request the loop spends its whole
      budget: exactly `MAX_RETRIES - retries` requests, `RETRY_DELAY` seconds
      between consecutive ones, and the collection is abandoned. */
  lemma {:induction false} CollectionLoopExhausted(cfg: Config, q: Query, c: string, bearer: Option<string>, retries: int, w: World)
    requires w.responses == []
    ensures var r := CollectionLoop(cfg, q, c, bearer, retries, w);
      && r.attempt.Abandoned? && r.bearer == bearer
      && |Requests(r.world.log)| == |Requests(w.log)| + Budget(cfg, retries)
      && r.world.clock == w.clock + (if Budget(cfg, retries) == 0 then 0 else Budget(cfg, retries) - 1) as real * cfg.retryDelay as real
    decreases cfg.maxRetries - retries
  {
    if retries < cfg.maxRetries {
      var p := Post(w, q, c, bearer);
      var e := ApiRequest(c, bearer, q.loc.bbox, q.dateFrom, q.dateTo);
      RequestsPush(w.log, e);
      if retries + 1 < cfg.maxRetries {
        var next := Sleep(p.world, cfg.retryDelay);
        RequestsPush(p.world.log, Slept(cfg.retryDelay));
        CollectionLoopExhausted(cfg, q, c, bearer, retries + 1, next);
        var k := Budget(cfg, retries + 1);
        assert Budget(cfg, retries) == k + 1;
        assert (k - 1) as real * cfg.retryDelay as real + cfg.retryDelay as real == k as real * cfg.retryDelay as real;
      }
    }
  }

  /** Two rate limits and then an image: the waits double from the base delay
      (5 s, then 10 s), the same bearer is resent and the image is accepted. */
  lemma RateLimitExample(cfg: Config, q: Query, c: string, bearer: Option<string>, w: World, x: Bytes, y: Bytes, image: Bytes)
    requires cfg.maxRetries == 10 && cfg.retryDelay == 5
    requires w.responses == [Http(429, x), Http(429, y), Http(200, image)] && w.saves == []
    requires IsImageValid(cfg, Some(image), None, None)
    ensures var r, e := CollectionLoop(cfg, q, c, bearer, 0, w), ApiRequest(c, bearer, q.loc.bbox, q.dateFrom, q.dateTo);
      && r.world.log == w.log + [e, Slept(5), e, Slept(10), e]
      && r.world.clock == w.clock + 15.0
      && r.attempt == Accepted(MakeResult(cfg, q, c, image))
  {
    var e := ApiRequest(c, bearer, q.loc.bbox, q.dateFrom, q.dateTo);
    var w1 := Sleep(Post(w, q, c, bearer).world, 5);
    assert Pow2(1) == 2;
    var w2 := Sleep(Post(w1, q, c, bearer).world, 10);
    assert w1.responses == [Http(429, y), Http(200, image)];
    assert w2.responses == [Http(200, image)];
    assert CollectionLoop(cfg, q, c, bearer, 0, w) == CollectionLoop(cfg, q, c, bearer, 1, w1);
    assert CollectionLoop(cfg, q, c, bearer, 1, w1) == CollectionLoop(cfg, q, c, bearer, 2, w2);
    assert w2.log == w.log + [e, Slept(5), e, Slept(10)];
  }

  /** A `401` refreshes the token once, and the retry carries the new bearer. */
  lemma UnauthorizedExample(cfg: Config, q: Query, c: string, bearer: Option<string>, w: World, x: Bytes, image: Bytes, t: string, expiresIn: real)
    requires cfg.maxRetries >= 2 && t != ""
    requires w.responses == [Http(401, x), Http(200, image)] && w.saves == []
    requires w.exchanges == [OAuthResponse(200, Some(TokenReply(Some(t), Some(expiresIn))))]
    requires IsImageValid(cfg, Some(image), None, None)
    ensures var r := CollectionLoop(cfg, q, c, bearer, 0, w);
      && r.world.log == w.log + [ApiRequest(c, bearer, q.loc.bbox, q.dateFrom, q.dateTo),
                                 TokenExchange(w.exchanges[0]),
                                 ApiRequest(c, Some(t), q.loc.bbox, q.dateFrom, q.dateTo)]
      && r.bearer == Some(t) && r.world.token == Some(t) && r.world.tokenExpiry == w.clock + expiresIn
      && r.attempt == Accepted(MakeResult(cfg, q, c, image))
  {
    var ex := Exchange(Post(w, q, c, bearer).world);
    assert ex.out == Some(t);
    assert CollectionLoop(cfg, q, c, bearer, 0, w) == CollectionLoop(cfg, q, c, Some(t), 1, ex.world);
  }

  /** A `401` whose refresh fails abandons the collection with the old bearer. */
  lemma RefreshFailureExample(cfg: Config, q: Query, c: string, bearer: Option<string>, w: World, x: Bytes)
    requires cfg.maxRetries >= 1
    requires w.responses == [Http(401, x)] && w.exchanges == []
    ensures var r := CollectionLoop(cfg, q, c, bearer, 0, w);
      && r.world.log == w.log + [ApiRequest(c, bearer, q.loc.bbox, q.dateFrom, q.dateTo), TokenExchange(OAuthError)]
      && r.bearer == bearer && r.attempt == Abandoned
  {
  }

  /** Any other status, and a `200` the gate rejects, abandon the collection after
      one request with nothing else changed but the response queue. */
  lemma AbandonExamples(cfg: Config, q: Query, c: string, bearer: Option<string>, w: World, status: int, x: Bytes)
    requires cfg.maxRetries >= 1 && w.responses == [Http(status, x)]
    requires status !in {401, 429} && (status == 200 ==> !IsImageValid(cfg, Some(x), None, None))
    ensures var r := CollectionLoop(cfg, q, c, bearer, 0, w);
      && r.world == w.(responses := [], log := w.log + [ApiRequest(c, bearer, q.loc.bbox, q.dateFrom, q.dateTo)])
      && r.bearer == bearer && r.attempt == Abandoned
  {
  }

  // ---------------------------------------------------------------------------
  // One fetch

  /** The record of an accepted image: no URL, the sampled date as timestamp,
      the source, collection, bbox and search window as metadata, the section's
      id and image path, and the image buffer itself. */
  lemma MakeResultFields(cfg: Config, q: Query, c: string, content: Bytes)
    ensures var d := MakeResult(cfg, q, c, content);
      && d.imageUrl == VStr("") && d.timestamp == VStr(IsoDate(q.date))
      && d.sectionId == VStr(q.loc.sectionId) && d.imageData == Some(content)
      && d.localPath == VStr(cfg.imagesDir + "/" + q.loc.sectionId + "/" + IsoDate(q.date) + "." + cfg.imageFormat)
      && d.metadata.VDict? && d.metadata.entries.Keys == {"source", "collection", "bbox", "date_range"}
      && d.metadata.entries["source"] == VStr("Sentinel Hub")
      && d.metadata.entries["collection"] == VStr(c)
      && d.metadata.entries["date_range"] == VStr(IsoDate(q.dateFrom) + " to " + IsoDate(q.dateTo))
      && d.metadata.entries["bbox"].VList? && |d.metadata.entries["bbox"].items| == |q.loc.bbox|
      && forall k :: 0 <= k < |q.loc.bbox| ==> d.metadata.entries["bbox"].items[k] == VReal(q.loc.bbox[k])
  {
  }

  /** Splitting a fetch's requests at the point where the first collection ended. */
  lemma SplitRequests(a: seq<Event>, b: seq<Event>, c: seq<Event>, q: Query)
    requires a <= b <= c
    requires ForCollection(b[|a|..], Collections[0], q) && ForCollection(c[|b|..], Collections[1], q)
    ensures var delta, n := c[|a|..], |b| - |a|;
      0 <= n <= |delta| && delta[..n] == b[|a|..] && delta[n..] == c[|b|..]
      && ForCollection(delta[..n], Collections[0], q) && ForCollection(delta[n..], Collections[1], q)
  {
  }

  /** How a collection's attempt turns into the outcome of the collection loop. */
  predicate Reports(r: Step<FetchOutcome>, l: LoopResult)
  {
    && r.world == l.world
    && (r.out.Found? <==> l.attempt.Accepted?)
    && (r.out.Found? ==> r.out.data == l.attempt.data)
    && (r.out.Raised? <==> l.attempt.SaveFailed?)
  }

  lemma TryOne(cfg: Config, q: Query, c: string, bearer: Option<string>, w: World)
    ensures Reports(TryCollections(cfg, q, [c], bearer, w), CollectionLoop(cfg, q, c, bearer, 0, w))
  {
    assert [c][1..] == [];
  }

  /** The collection loop over the two collections: the first one's outcome
      unless it was abandoned, and then the second one's. */
  lemma TryBoth(cfg: Config, q: Query, bearer: Option<string>, w: World)
    ensures var r, r1 := TryCollections(cfg, q, Collections, bearer, w), CollectionLoop(cfg, q, Collections[0], bearer, 0, w);
      && (!r1.attempt.Abandoned? ==> Reports(r, r1))
      && (r1.attempt.Abandoned? ==> Reports(r, CollectionLoop(cfg, q, Collections[1], r1.bearer, 0, r1.world)))
  {
    var r1 := CollectionLoop(cfg, q, Collections[0], bearer, 0, w);
    assert Collections[1..] == [Collections[1]] && Collections[1..][1..] == [];
    if r1.attempt.Abandoned? {
      assert TryCollections(cfg, q, Collections, bearer, w) == TryCollections(cfg, q, [Collections[1]], r1.bearer, r1.world);
      TryOne(cfg, q, Collections[1], r1.bearer, r1.world);
    }
  }

  /** One fetch appends to the log, visits nothing and sends first a block of
      requests to `sentinel-2-l2a` and then a block to `sentinel-2-l1c`, each at
      most `MAX_RETRIES` long, every one with the location's bbox and the
      date's window. */
  lemma FetchRequests(cfg: Config, loc: Location, date: int, w: World)
    ensures var r, q := Fetch(cfg, loc, date, w), QueryOf(cfg, loc, date);
      && w.log <= r.world.log
      && Visits(r.world.log) == Visits(w.log)
      && Requests(w.log) <= Requests(r.world.log)
      && var delta := Requests(r.world.log)[|Requests(w.log)|..];
         exists n :: 0 <= n <= |delta| && n <= Budget(cfg, 0) && |delta| - n <= Budget(cfg, 0)
           && ForCollection(delta[..n], Collections[0], q) && ForCollection(delta[n..], Collections[1], q)
  {
    var q := QueryOf(cfg, loc, date);
    var t := GetToken(cfg, w);
    GetTokenLog(cfg, w);
    if cfg.cloudCoverage.None? {
      assert Fetch(cfg, loc, date, w).world == t.world;
      var delta := Requests(t.world.log)[|Requests(w.log)|..];
      assert delta == [] && ForCollection(delta[..0], Collections[0], q) && ForCollection(delta[0..], Collections[1], q);
      return;
    }
    TryBoth(cfg, q, t.out, t.world);
    var r1 := CollectionLoop(cfg, q, Collections[0], t.out, 0, t.world);
    CollectionLoopLog(cfg, q, Collections[0], t.out, 0, t.world);
    var a, b := Requests(w.log), Requests(r1.world.log);
    if r1.attempt.Abandoned? {
      var r2 := CollectionLoop(cfg, q, Collections[1], r1.bearer, 0, r1.world);
      CollectionLoopLog(cfg, q, Collections[1], r1.bearer, 0, r1.world);
      assert Fetch(cfg, loc, date, w).world == r2.world;
      SplitRequests(a, b, Requests(r2.world.log), q);
      var delta := Requests(r2.world.log)[|a|..];
      assert delta[..|b| - |a|] == b[|a|..];
    } else {
      assert Fetch(cfg, loc, date, w).world == r1.world;
      SplitRequests(a, b, b, q);
      assert b[|a|..][..|b| - |a|] == b[|a|..];
    }
  }

  /** A found record comes from one of the two collections, from an image that
      passed the gate; a fetch that raised either had no cloud-coverage setting
      and saved nothing, or consumed a failed save; one that found nothing left
      the save queue alone. */
  lemma FetchOutcomes(cfg: Config, loc: Location, date: int, w: World)
    ensures var r, q := Fetch(cfg, loc, date, w), QueryOf(cfg, loc, date);
      && (r.out.Found? ==>
            (exists c, content :: c in Collections && IsImageValid(cfg, Some(content), None, None)
                                  && r.out.data == MakeResult(cfg, q, c, content))
            && (w.saves == [] || w.saves[0]) && r.world.saves == Tail(w.saves))
      && (r.out.Raised? ==>
            (cfg.cloudCoverage.None? && r.world.saves == w.saves)
            || (w.saves != [] && !w.saves[0] && r.world.saves == Tail(w.saves)))
      && (r.out.NotFound? ==> r.world.saves == w.saves)
  {
    var q := QueryOf(cfg, loc, date);
    var t := GetToken(cfg, w);
    GetTokenLog(cfg, w);
    if cfg.cloudCoverage.None? {
      return;
    }
    TryBoth(cfg, q, t.out, t.world);
    var r1 := CollectionLoop(cfg, q, Collections[0], t.out, 0, t.world);
    CollectionLoopSaves(cfg, q, Collections[0], t.out, 0, t.world);
    CollectionLoopAccept(cfg, q, Collections[0], t.out, 0, t.world);
    assert Collections[0] in Collections && Collections[1] in Collections;
    if r1.attempt.Abandoned? {
      CollectionLoopSaves(cfg, q, Collections[1], r1.bearer, 0, r1.world);
      CollectionLoopAccept(cfg, q, Collections[1], r1.bearer, 0, r1.world);
    }
  }

  /** Without a cloud-coverage setting every fetch raises after the token lookup:
      no search request is sent, no response consumed, nothing saved. */
  lemma FetchMissingCoverage(cfg: Config, loc: Location, date: int, w: World)
    requires cfg.cloudCoverage.None?
    ensures var r := Fetch(cfg, loc, date, w);
      && r.out == Raised
      && Requests(r.world.log) == Requests(w.log) && Visits(r.world.log) == Visits(w.log)
      && r.world.responses == w.responses && r.world.saves == w.saves
  {
    GetTokenLog(cfg, w);
  }

  /** Both collections answering with a status that is not retried (404, say)
      end the fetch with NotFound, not an error: one request per collection,
      with the cached bearer, and nothing saved. */
  lemma NotFoundExample(cfg: Config, loc: Location, date: int, w: World, x: Bytes, y: Bytes)
    requires cfg.cloudCoverage.Some? && cfg.maxRetries >= 1 && CacheFresh(cfg, w)
    requires w.responses == [Http(404, x), Http(404, y)]
    ensures var r, q := Fetch(cfg, loc, date, w), QueryOf(cfg, loc, date);
      && r.out == NotFound
      && r.world == w.(responses := [],
                       log := w.log + [ApiRequest(Collections[0], w.token, q.loc.bbox, q.dateFrom, q.dateTo),
                                       ApiRequest(Collections[1], w.token, q.loc.bbox, q.dateFrom, q.dateTo)])
  {
    var q := QueryOf(cfg, loc, date);
    assert GetToken(cfg, w) == Step(w, w.token);
    var p1 := Post(w, q, Collections[0], w.token);
    assert p1.out == Http(404, x);
    var w1 := p1.world;
    assert CollectionLoop(cfg, q, Collections[0], w.token, 0, w) == LoopResult(w1, w.token, Abandoned);
    var p2 := Post(w1, q, Collections[1], w.token);
    assert p2.out == Http(404, y);
    assert CollectionLoop(cfg, q, Collections[1], w.token, 0, w1) == LoopResult(p2.world, w.token, Abandoned);
    assert Collections[1..][1..] == [];
    assert TryCollections(cfg, q, Collections, w.token, w) == TryCollections(cfg, q, Collections[1..], w.token, w1);
    assert TryCollections(cfg, q, Collections[1..], w.token, w1) == Step(p2.world, NotFound);
  }

  /** A `200` that fails the gate gives up on `sentinel-2-l2a` only: the same
      date is then fetched from `sentinel-2-l1c`, whose valid image is the result. */
  lemma FallbackExample(cfg: Config, loc: Location, date: int, w: World, small: Bytes, image: Bytes)
    requires cfg.cloudCoverage.Some? && cfg.maxRetries >= 1 && CacheFresh(cfg, w) && w.saves == []
    requires w.responses == [Http(200, small), Http(200, image)]
    requires !IsImageValid(cfg, Some(small), None, None) && IsImageValid(cfg, Some(image), None, None)
    ensures var r, q := Fetch(cfg, loc, date, w), QueryOf(cfg, loc, date);
      && r.out == Found(MakeResult(cfg, q, Collections[1], image))
      && r.world.log == w.log + [ApiRequest(Collections[0], w.token, q.loc.bbox, q.dateFrom, q.dateTo),
                                 ApiRequest(Collections[1], w.token, q.loc.bbox, q.dateFrom, q.dateTo)]
  {
    var q := QueryOf(cfg, loc, date);
    assert GetToken(cfg, w) == Step(w, w.token);
    var p1 := Post(w, q, Collections[0], w.token);
    assert p1.out == Http(200, small);
    var w1 := p1.world;
    assert CollectionLoop(cfg, q, Collections[0], w.token, 0, w) == LoopResult(w1, w.token, Abandoned);
    var p2 := Post(w1, q, Collections[1], w.token);
    assert p2.out == Http(200, image);
    assert Save(p2.world).out;
    var d := MakeResult(cfg, q, Collections[1], image);
    assert CollectionLoop(cfg, q, Collections[1], w.token, 0, w1) == LoopResult(Save(p2.world).world, w.token, Accepted(d));
    assert TryCollections(cfg, q, Collections, w.token, w) == TryCollections(cfg, q, Collections[1..], w.token, w1);
    assert TryCollections(cfg, q, Collections[1..], w.token, w1) == Step(Save(p2.world).world, Found(d));
  }

  /** What a record found for `loc` on `date` holds: the sampled date, the
      section and its image path, one of the two collections, the window of
      `date ± extension` days and an image that passed the gate. */
  predicate RecordFor(cfg: Config, loc: Location, date: int, d: ImageryData)
  {
    && d.timestamp == VStr(IsoDate(date)) && d.sectionId == VStr(loc.sectionId)
    && d.localPath == VStr(LocalPath(cfg, loc.sectionId, IsoDate(date)))
    && d.metadata.VDict? && "collection" in d.metadata.entries && "date_range" in d.metadata.entries
    && d.metadata.entries["collection"] in {VStr("sentinel-2-l2a"), VStr("sentinel-2-l1c")}
    && d.metadata.entries["date_range"] == VStr(DateRange(QueryOf(cfg, loc, date).dateFrom, QueryOf(cfg, loc, date).dateTo))
    && d.imageData.Some? && IsImageValid(cfg, d.imageData, None, None)
  }

  lemma MakeResultRecord(cfg: Config, loc: Location, date: int, c: string, content: Bytes)
    requires c in Collections && IsImageValid(cfg, Some(content), None, None)
    ensures RecordFor(cfg, loc, date, MakeResult(cfg, QueryOf(cfg, loc, date), c, content))
  {
    var q := QueryOf(cfg, loc, date);
    assert q.loc == loc && q.date == date;
    var d := MakeResult(cfg, q, c, content);
    assert VStr(c) == VStr(Collections[0]) || VStr(c) == VStr(Collections[1]);
  }

  /** A found record is a record for the fetch's location and date. */
  lemma FetchRecord(cfg: Config, loc: Location, date: int, w: World)
    requires Fetch(cfg, loc, date, w).out.Found?
    ensures RecordFor(cfg, loc, date, Fetch(cfg, loc, date, w).out.data)
  {
    FetchOutcomes(cfg, loc, date, w);
    var q := QueryOf(cfg, loc, date);
    var d := Fetch(cfg, loc, date, w).out.data;
    var c, content :| c in Collections && IsImageValid(cfg, Some(content), None, None) && d == MakeResult(cfg, q, c, content);
    MakeResultRecord(cfg, loc, date, c, content);
  }

  // ---------------------------------------------------------------------------
  // Traversal

  /** The sections from the first one named `id` on; none when no section has that name. */
  function DropUntil(sections: seq<Section>, id: string): (rest: seq<Section>)
    ensures |rest| <= |sections|
  {
    if sections == [] then []
    else if sections[0].id == id then sections
    else DropUntil(sections[1..], id)
  }

  /** The sections whose dates are traversed for a `RESUME_FROM` setting. */
  function Processed(sections: seq<Section>, resumeFrom: Option<string>): seq<Section>
  {
    if Truthy(resumeFrom) then DropUntil(sections, resumeFrom.value) else sections
  }

  /** `DropUntil` cuts at the first section with the name. */
  lemma {:induction false} DropUntilFirst(sections: seq<Section>, id: string, m: int)
    requires 0 <= m < |sections| && sections[m].id == id
    requires forall k :: 0 <= k < m ==> sections[k].id != id
    ensures DropUntil(sections, id) == sections[m..]
    decreases m
  {
    if m > 0 {
      assert sections[1..][m - 1] == sections[m];
      forall k | 0 <= k < m - 1
        ensures sections[1..][k].id != id
      {
        assert sections[1..][k] == sections[k + 1];
      }
      DropUntilFirst(sections[1..], id, m - 1);
      assert sections[1..][m - 1..] == sections[m..];
    }
  }

  /** `DropUntil` leaves nothing when no section has the name. */
  lemma {:induction false} DropUntilAbsent(sections: seq<Section>, id: string)
    requires forall k :: 0 <= k < |sections| ==> sections[k].id != id
    ensures DropUntil(sections, id) == []
    decreases |sections|
  {
    if sections != [] {
      forall k | 0 <= k < |sections| - 1
        ensures sections[1..][k].id != id
      {
        assert sections[1..][k] == sections[k + 1];
      }
      DropUntilAbsent(sections[1..], id);
    }
  }

  /** With the resume flag set, the sections before the first one named
      `RESUME_FROM` are skipped without a request, a visit or a wait,
      and the flag is cleared from that section on. */
  lemma {:induction false} ResumeSkips(cfg: Config, sections: seq<Section>, dates: seq<int>, w: World, acc: seq<ImageryData>)
    requires cfg.resumeFrom.Some?
    ensures TraverseSections(cfg, sections, dates, true, w, acc)
         == TraverseSections(cfg, DropUntil(sections, cfg.resumeFrom.value), dates, false, w, acc)
    decreases |sections|
  {
    if sections != [] && sections[0].id != cfg.resumeFrom.value {
      ResumeSkips(cfg, sections[1..], dates, w, acc);
    }
  }

  /** `fetch_imagery_for_gaza` traverses exactly the processed sections with
      the flag off. */
  lemma ResumeTraversal(cfg: Config, sections: seq<Section>, dates: seq<int>, w: World)
    ensures TraverseSections(cfg, sections, dates, Truthy(cfg.resumeFrom), w, [])
         == TraverseSections(cfg, Processed(sections, cfg.resumeFrom), dates, false, w, [])
  {
    if Truthy(cfg.resumeFrom) {
      ResumeSkips(cfg, sections, dates, w, []);
    }
  }

  /** The (section, date) pairs of one section. */
  function Pairs(id: string, dates: seq<int>): (ps: seq<(string, int)>)
    ensures |ps| == |dates|
  {
    seq(|dates|, k requires 0 <= k < |dates| => (id, dates[k]))
  }

  /** Every section with every date, sections in the outer loop. */
  function Cross(sections: seq<Section>, dates: seq<int>): (ps: seq<(string, int)>)
  {
    if sections == [] then [] else Pairs(sections[0].id, dates) + Cross(sections[1..], dates)
  }

  /** The log grows by a fetch and maybe a wait, neither of which visits. */
  lemma FetchThenSleep(cfg: Config, loc: Location, date: int, w: World)
    ensures var f := Fetch(cfg, loc, date, w);
      && w.log <= f.world.log <= Sleep(f.world, 1).log
      && Visits(f.world.log) == Visits(w.log) && Visits(Sleep(f.world, 1).log) == Visits(w.log)
  {
    FetchRequests(cfg, loc, date, w);
    VisitsPush(Fetch(cfg, loc, date, w).world.log, Slept(1));
  }

  /** One section: every date is visited once, in order; the records found are
      appended to what was collected before, at most one per date. */
  lemma {:induction false} TraverseDatesLog(cfg: Config, loc: Location, dates: seq<int>, w: World, acc: seq<ImageryData>)
    ensures var r := TraverseDates(cfg, loc, dates, w, acc);
      && acc <= r.results && |r.results| <= |acc| + |dates|
      && w.log <= r.world.log
      && Visits(r.world.log) == Visits(w.log) + Pairs(loc.sectionId, dates)
    decreases |dates|
  {
    if dates != [] {
      var v := Visit(loc.sectionId, dates[0]);
      var w0 := w.(log := w.log + [v]);
      VisitsPush(w.log, v);
      var f := Fetch(cfg, loc, dates[0], w0);
      FetchThenSleep(cfg, loc, dates[0], w0);
      var next := if f.out.Raised? then f.world else Sleep(f.world, 1);
      var acc' := if f.out.Found? then acc + [f.out.data] else acc;
      assert TraverseDates(cfg, loc, dates, w, acc) == TraverseDates(cfg, loc, dates[1..], next, acc');
      TraverseDatesLog(cfg, loc, dates[1..], next, acc');
      assert Pairs(loc.sectionId, dates) == [(loc.sectionId, dates[0])] + Pairs(loc.sectionId, dates[1..]);
    }
  }

  /** The first date of a section: one visit, one fetch, and the wait unless it raised. */
  function DateStep(cfg: Config, loc: Location, date: int, w: World): (f: Step<FetchOutcome>)
  {
    Fetch(cfg, loc, date, w.(log := w.log + [Visit(loc.sectionId, date)]))
  }

  lemma TraverseDatesStep(cfg: Config, loc: Location, dates: seq<int>, w: World, acc: seq<ImageryData>)
    requires dates != []
    ensures var f := DateStep(cfg, loc, dates[0], w);
      TraverseDates(cfg, loc, dates, w, acc)
      == TraverseDates(cfg, loc, dates[1..], if f.out.Raised? then f.world else Sleep(f.world, 1),
                       if f.out.Found? then acc + [f.out.data] else acc)
  {
  }

  /** `d` is a record for `loc` and one of `dates`. */
  predicate ForSomeDate(cfg: Config, loc: Location, dates: seq<int>, d: ImageryData)
    decreases |dates|
  {
    dates != [] && (RecordFor(cfg, loc, dates[0], d) || ForSomeDate(cfg, loc, dates[1..], d))
  }

  lemma ForSomeDateHead(cfg: Config, loc: Location, dates: seq<int>, d: ImageryData)
    requires dates != [] && RecordFor(cfg, loc, dates[0], d)
    ensures ForSomeDate(cfg, loc, dates, d)
  {
  }

  lemma ForSomeDateTail(cfg: Config, loc: Location, dates: seq<int>, d: ImageryData)
    requires dates != [] && ForSomeDate(cfg, loc, dates[1..], d)
    ensures ForSomeDate(cfg, loc, dates, d)
  {
  }

  /** `d` is a record for one of `sections` and one of `dates`. */
  predicate ForSomeSection(cfg: Config, sections: seq<Section>, dates: seq<int>, d: ImageryData)
    decreases |sections|
  {
    sections != [] && (ForSomeDate(cfg, LocationOf(sections[0]), dates, d) || ForSomeSection(cfg, sections[1..], dates, d))
  }

  /** Read as a quantifier: a record for some date of the list. */
  lemma {:induction false} ForSomeDateMeans(cfg: Config, loc: Location, dates: seq<int>, d: ImageryData)
    ensures ForSomeDate(cfg, loc, dates, d) <==> exists date :: date in dates && RecordFor(cfg, loc, date, d)
    decreases |dates|
  {
    if dates != [] {
      ForSomeDateMeans(cfg, loc, dates[1..], d);
      if ForSomeDate(cfg, loc, dates[1..], d) {
        var date :| date in dates[1..] && RecordFor(cfg, loc, date, d);
        assert date in dates;
      }
      if exists date :: date in dates && RecordFor(cfg, loc, date, d) {
        var date :| date in dates && RecordFor(cfg, loc, date, d);
        if date != dates[0] {
          assert date in dates[1..];
        }
      }
    }
  }

  /** Read as a quantifier: a record for some section of the list and some date. */
  lemma {:induction false} ForSomeSectionMeans(cfg: Config, sections: seq<Section>, dates: seq<int>, d: ImageryData)
    ensures ForSomeSection(cfg, sections, dates, d) <==> exists s :: s in sections && ForSomeDate(cfg, LocationOf(s), dates, d)
    decreases |sections|
  {
    if sections != [] {
      ForSomeSectionMeans(cfg, sections[1..], dates, d);
      if ForSomeSection(cfg, sections[1..], dates, d) {
        var s :| s in sections[1..] && ForSomeDate(cfg, LocationOf(s), dates, d);
        assert s in sections;
      }
      if exists s :: s in sections && ForSomeDate(cfg, LocationOf(s), dates, d) {
        var s :| s in sections && ForSomeDate(cfg, LocationOf(s), dates, d);
        if s != sections[0] {
          assert s in sections[1..];
        }
      }
    }
  }

  /** Every record found for a section is a record for that section and one of its dates. */
  lemma {:induction false} TraverseDatesRecords(cfg: Config, loc: Location, dates: seq<int>, w: World, acc: seq<ImageryData>)
    ensures var r := TraverseDates(cfg, loc, dates, w, acc);
      forall k :: |acc| <= k < |r.results| ==> ForSomeDate(cfg, loc, dates, r.results[k])
    decreases |dates|
  {
    if dates != [] {
      var f := DateStep(cfg, loc, dates[0], w);
      var next := if f.out.Raised? then f.world else Sleep(f.world, 1);
      var acc' := if f.out.Found? then acc + [f.out.data] else acc;
      TraverseDatesStep(cfg, loc, dates, w, acc);
      TraverseDatesRecords(cfg, loc, dates[1..], next, acc');
      TraverseDatesLog(cfg, loc, dates[1..], next, acc');
      var results := TraverseDates(cfg, loc, dates[1..], next, acc').results;
      if f.out.Found? {
        FetchRecord(cfg, loc, dates[0], w.(log := w.log + [Visit(loc.sectionId, dates[0])]));
        assert results[|acc|] == f.out.data;
      }
      forall k | |acc| <= k < |results|
        ensures ForSomeDate(cfg, loc, dates, results[k])
      {
        if k >= |acc'| {
          ForSomeDateTail(cfg, loc, dates, results[k]);
        } else {
          ForSomeDateHead(cfg, loc, dates, results[k]);
        }
      }
    }
  }

  /** Without the resume flag every section is traversed: each (section, date)
      pair is visited once, sections in the outer loop, and at most one record
      per pair is appended to what was collected before. */
  lemma {:induction false} TraverseSectionsLog(cfg: Config, sections: seq<Section>, dates: seq<int>, w: World, acc: seq<ImageryData>)
    ensures var r := TraverseSections(cfg, sections, dates, false, w, acc);
      && acc <= r.results && |r.results| <= |acc| + |sections| * |dates|
      && w.log <= r.world.log
      && Visits(r.world.log) == Visits(w.log) + Cross(sections, dates)
    decreases |sections|
  {
    if sections != [] {
      var r1 := TraverseDates(cfg, LocationOf(sections[0]), dates, w, acc);
      TraverseDatesLog(cfg, LocationOf(sections[0]), dates, w, acc);
      TraverseSectionsLog(cfg, sections[1..], dates, r1.world, r1.results);
      assert |sections| * |dates| == |dates| + |sections[1..]| * |dates|;
    }
  }

  /** Every record of a traversal without the resume flag is a record for one
      of the sections and one of the dates. */
  lemma {:induction false} TraverseSectionsRecords(cfg: Config, sections: seq<Section>, dates: seq<int>, w: World, acc: seq<ImageryData>)
    ensures var r := TraverseSections(cfg, sections, dates, false, w, acc);
      forall k :: |acc| <= k < |r.results| ==> ForSomeSection(cfg, sections, dates, r.results[k])
    decreases |sections|
  {
    if sections != [] {
      var r1 := TraverseDates(cfg, LocationOf(sections[0]), dates, w, acc);
      TraverseDatesLog(cfg, LocationOf(sections[0]), dates, w, acc);
      TraverseDatesRecords(cfg, LocationOf(sections[0]), dates, w, acc);
      TraverseSectionsRecords(cfg, sections[1..], dates, r1.world, r1.results);
      TraverseSectionsLog(cfg, sections[1..], dates, r1.world, r1.results);
      var results := TraverseSections(cfg, sections[1..], dates, false, r1.world, r1.results).results;
      forall k | |acc| <= k < |results|
        ensures ForSomeSection(cfg, sections, dates, results[k])
      {
        if k < |r1.results| {
          assert results[k] == r1.results[k];
          assert ForSomeDate(cfg, LocationOf(sections[0]), dates, results[k]);
        } else {
          assert ForSomeSection(cfg, sections[1..], dates, results[k]);
        }
      }
    }
  }

  /** The (location, date) fetch targets of one section, in the order the date loop visits them. */
  function Along(loc: Location, dates: seq<int>): (ts: seq<(Location, int)>)
    ensures |ts| == |dates|
    decreases |dates|
  {
    if dates == [] then [] else [(loc, dates[0])] + Along(loc, dates[1..])
  }

  /** The fetch targets of a traversal without the resume flag, sections in the outer loop. */
  function Targets(sections: seq<Section>, dates: seq<int>): (ts: seq<(Location, int)>)
    decreases |sections|
  {
    if sections == [] then [] else Along(LocationOf(sections[0]), dates) + Targets(sections[1..], dates)
  }

  /** `recs` can be matched, in order, to distinct targets in the order they
      come: each target accounts for at most one record, and each record is
      `ok` for its target. */
  predicate Placed<T, R>(ok: (T, R) -> bool, targets: seq<T>, recs: seq<R>)
    decreases |targets|
  {
    if recs == [] then true
    else
      && targets != []
      && ((ok(targets[0], recs[0]) && Placed(ok, targets[1..], recs[1..])) || Placed(ok, targets[1..], recs))
  }

  /** `idx` sends record k to target `idx[k]`, strictly increasing, and record k
      is `ok` for that target. */
  predicate IndexMap<T, R>(ok: (T, R) -> bool, targets: seq<T>, recs: seq<R>, idx: seq<int>)
  {
    && |idx| == |recs|
    && (forall k :: 0 <= k < |idx| ==> 0 <= idx[k] < |targets| && ok(targets[idx[k]], recs[k]))
    && (forall k, l :: 0 <= k < l < |idx| ==> idx[k] < idx[l])
  }

  function Shift(idx: seq<int>, d: int): (r: seq<int>)
    ensures |r| == |idx| && forall k :: 0 <= k < |idx| ==> r[k] == idx[k] + d
  {
    seq(|idx|, k requires 0 <= k < |idx| => idx[k] + d)
  }

  lemma PlacedTake<T, R>(ok: (T, R) -> bool, targets: seq<T>, recs: seq<R>)
    requires targets != [] && recs != []
    requires ok(targets[0], recs[0]) && Placed(ok, targets[1..], recs[1..])
    ensures Placed(ok, targets, recs)
  {
  }

  lemma PlacedSkip<T, R>(ok: (T, R) -> bool, targets: seq<T>, recs: seq<R>)
    requires targets != [] && Placed(ok, targets[1..], recs)
    ensures Placed(ok, targets, recs)
  {
  }

  /** Placed records are exactly those with a strictly increasing map to
      targets they are `ok` for. */
  lemma PlacedMeans<T, R>(ok: (T, R) -> bool, targets: seq<T>, recs: seq<R>)
    ensures Placed(ok, targets, recs) <==> exists idx :: IndexMap(ok, targets, recs, idx)
  {
    if Placed(ok, targets, recs) {
      PlacedHasIndexMap(ok, targets, recs);
    }
    if exists idx :: IndexMap(ok, targets, recs, idx) {
      var idx :| IndexMap(ok, targets, recs, idx);
      IndexMapPlaced(ok, targets, recs, idx);
    }
  }

  lemma {:induction false} PlacedHasIndexMap<T, R>(ok: (T, R) -> bool, targets: seq<T>, recs: seq<R>)
    requires Placed(ok, targets, recs)
    ensures exists idx :: IndexMap(ok, targets, recs, idx)
    decreases |targets|
  {
    if recs == [] {
      assert IndexMap(ok, targets, recs, []);
    } else if ok(targets[0], recs[0]) && Placed(ok, targets[1..], recs[1..]) {
      PlacedHasIndexMap(ok, targets[1..], recs[1..]);
      var idx :| IndexMap(ok, targets[1..], recs[1..], idx);
      IndexMapTake(ok, targets, recs, idx);
    } else {
      PlacedHasIndexMap(ok, targets[1..], recs);
      var idx :| IndexMap(ok, targets[1..], recs, idx);
      IndexMapSkip(ok, targets, recs, idx);
    }
  }

  lemma IndexMapTake<T, R>(ok: (T, R) -> bool, targets: seq<T>, recs: seq<R>, idx: seq<int>)
    requires targets != [] && recs != [] && ok(targets[0], recs[0])
    requires IndexMap(ok, targets[1..], recs[1..], idx)
    ensures IndexMap(ok, targets, recs, [0] + Shift(idx, 1))
  {
    var idx' := [0] + Shift(idx, 1);
    forall k | 0 <= k < |idx'|
      ensures 0 <= idx'[k] < |targets| && ok(targets[idx'[k]], recs[k])
    {
      if k > 0 {
        assert idx'[k] == idx[k - 1] + 1;
        assert targets[idx'[k]] == targets[1..][idx[k - 1]];
        assert recs[k] == recs[1..][k - 1];
      }
    }
  }

  lemma IndexMapSkip<T, R>(ok: (T, R) -> bool, targets: seq<T>, recs: seq<R>, idx: seq<int>)
    requires targets != [] && IndexMap(ok, targets[1..], recs, idx)
    ensures IndexMap(ok, targets, recs, Shift(idx, 1))
  {
    var idx' := Shift(idx, 1);
    forall k | 0 <= k < |idx'|
      ensures 0 <= idx'[k] < |targets| && ok(targets[idx'[k]], recs[k])
    {
      assert targets[idx'[k]] == targets[1..][idx[k]];
    }
  }

  lemma {:induction false} IndexMapPlaced<T, R>(ok: (T, R) -> bool, targets: seq<T>, recs: seq<R>, idx: seq<int>)
    requires IndexMap(ok, targets, recs, idx)
    ensures Placed(ok, targets, recs)
    decreases |targets|
  {
    if recs != [] {
      assert 0 <= idx[0] < |targets|;
      if idx[0] == 0 {
        var idx' := Shift(idx[1..], -1);
        forall k | 0 <= k < |idx'|
          ensures 0 <= idx'[k] < |targets[1..]| && ok(targets[1..][idx'[k]], recs[1..][k])
        {
          assert idx[0] < idx[k + 1];
          assert targets[1..][idx'[k]] == targets[idx[k + 1]];
        }
        assert IndexMap(ok, targets[1..], recs[1..], idx');
        IndexMapPlaced(ok, targets[1..], recs[1..], idx');
        PlacedTake(ok, targets, recs);
      } else {
        var idx' := Shift(idx, -1);
        forall k | 0 <= k < |idx'|
          ensures 0 <= idx'[k] < |targets[1..]| && ok(targets[1..][idx'[k]], recs[k])
        {
          if k > 0 {
            assert idx[0] < idx[k];
          }
          assert targets[1..][idx'[k]] == targets[idx[k]];
        }
        assert IndexMap(ok, targets[1..], recs, idx');
        IndexMapPlaced(ok, targets[1..], recs, idx');
        PlacedSkip(ok, targets, recs);
      }
    }
  }

  /** Records placed on two target lists, one after the other, are placed on
      their concatenation. */
  lemma {:induction false} PlacedAppend<T, R>(ok: (T, R) -> bool, t1: seq<T>, r1: seq<R>, t2: seq<T>, r2: seq<R>)
    requires Placed(ok, t1, r1) && Placed(ok, t2, r2)
    ensures Placed(ok, t1 + t2, r1 + r2)
    decreases |t1|
  {
    if t1 == [] {
      assert r1 == [];
      assert t1 + t2 == t2 && r1 + r2 == r2;
    } else {
      assert (t1 + t2)[1..] == t1[1..] + t2;
      assert (t1 + t2)[0] == t1[0];
      if r1 != [] && ok(t1[0], r1[0]) && Placed(ok, t1[1..], r1[1..]) {
        PlacedAppend(ok, t1[1..], r1[1..], t2, r2);
        assert (r1 + r2)[1..] == r1[1..] + r2;
        PlacedTake(ok, t1 + t2, r1 + r2);
      } else {
        PlacedAppend(ok, t1[1..], r1, t2, r2);
        PlacedSkip(ok, t1 + t2, r1 + r2);
      }
    }
  }

  /** Records placed after `acc`, then more placed after those, are placed
      on the two target lists together. */
  lemma PlacedExtend<T, R>(ok: (T, R) -> bool, t1: seq<T>, t2: seq<T>, acc: seq<R>, mid: seq<R>, fin: seq<R>)
    requires acc <= mid <= fin
    requires Placed(ok, t1, mid[|acc|..]) && Placed(ok, t2, fin[|mid|..])
    ensures acc <= fin && Placed(ok, t1 + t2, fin[|acc|..])
  {
    assert fin[|acc|..] == mid[|acc|..] + fin[|mid|..];
    PlacedAppend(ok, t1, mid[|acc|..], t2, fin[|mid|..]);
  }

  /** `d` is a record for the fetch target `t`. */
  function IsRecord(cfg: Config): ((Location, int), ImageryData) -> bool
  {
    (t: (Location, int), d: ImageryData) => RecordFor(cfg, t.0, t.1, d)
  }

  /** The date loop of one section appends its records in date order, at most
      one per date, each a record for its date. */
  lemma {:induction false} TraverseDatesPlaced(cfg: Config, loc: Location, dates: seq<int>, w: World, acc: seq<ImageryData>)
    ensures var r := TraverseDates(cfg, loc, dates, w, acc);
      acc <= r.results && Placed(IsRecord(cfg), Along(loc, dates), r.results[|acc|..])
    decreases |dates|
  {
    var r := TraverseDates(cfg, loc, dates, w, acc);
    if dates != [] {
      var f := DateStep(cfg, loc, dates[0], w);
      var next := if f.out.Raised? then f.world else Sleep(f.world, 1);
      var acc' := if f.out.Found? then acc + [f.out.data] else acc;
      TraverseDatesStep(cfg, loc, dates, w, acc);
      TraverseDatesPlaced(cfg, loc, dates[1..], next, acc');
      var targets := Along(loc, dates);
      assert targets[0] == (loc, dates[0]) && targets[1..] == Along(loc, dates[1..]);
      if f.out.Found? {
        FetchRecord(cfg, loc, dates[0], w.(log := w.log + [Visit(loc.sectionId, dates[0])]));
        assert r.results[|acc|..][0] == f.out.data;
        assert r.results[|acc|..][1..] == r.results[|acc'|..];
        PlacedTake(IsRecord(cfg), targets, r.results[|acc|..]);
      } else {
        PlacedSkip(IsRecord(cfg), targets, r.results[|acc|..]);
      }
    } else {
      assert r.results[|acc|..] == [];
    }
  }

  /** A traversal without the resume flag appends its records in traversal
      order, at most one per (section, date) pair, each a record for its pair. */
  lemma {:induction false} TraverseSectionsPlaced(cfg: Config, sections: seq<Section>, dates: seq<int>, w: World, acc: seq<ImageryData>)
    ensures var r := TraverseSections(cfg, sections, dates, false, w, acc);
      acc <= r.results && Placed(IsRecord(cfg), Targets(sections, dates), r.results[|acc|..])
    decreases |sections|
  {
    var r := TraverseSections(cfg, sections, dates, false, w, acc);
    if sections != [] {
      var r1 := TraverseDates(cfg, LocationOf(sections[0]), dates, w, acc);
      TraverseDatesPlaced(cfg, LocationOf(sections[0]), dates, w, acc);
      TraverseSectionsPlaced(cfg, sections[1..], dates, r1.world, r1.results);
      assert r == TraverseSections(cfg, sections[1..], dates, false, r1.world, r1.results);
      assert Targets(sections, dates) == Along(LocationOf(sections[0]), dates) + Targets(sections[1..], dates);
      PlacedExtend(IsRecord(cfg), Along(LocationOf(sections[0]), dates), Targets(sections[1..], dates),
                   acc, r1.results, r.results);
    } else {
      assert r.results[|acc|..] == [];
    }
  }

  /** `fetch_imagery_for_gaza`: a zero grid dimension raises; otherwise every
      date of the weekly list is visited for every processed section, in order,
      and every collected record is a record for one of those sections and
      dates, at most one per pair. */
  lemma GazaRunFacts(cfg: Config, w: World)
    ensures GazaRun(cfg, w).Err? <==> cfg.numSectionsLat == 0 || cfg.numSectionsLon == 0
    ensures GazaRun(cfg, w).Ok? ==>
      var sections := RegionSections(cfg.gazaBounds, cfg.numSectionsLat, cfg.numSectionsLon, EasternShift(cfg)).value;
      var todo, dates, r := Processed(sections, cfg.resumeFrom), WeeklyDates(cfg.startDate, cfg.endDate), GazaRun(cfg, w).value;
      && Visits(r.world.log) == Visits(w.log) + Cross(todo, dates)
      && |r.results| <= |todo| * |dates|
      && (forall k :: 0 <= k < |r.results| ==> ForSomeSection(cfg, todo, dates, r.results[k]))
      && Placed(IsRecord(cfg), Targets(todo, dates), r.results)
  {
    var res := RegionSections(cfg.gazaBounds, cfg.numSectionsLat, cfg.numSectionsLon, EasternShift(cfg));
    if res.Ok? {
      var todo, dates := Processed(res.value, cfg.resumeFrom), WeeklyDates(cfg.startDate, cfg.endDate);
      ResumeTraversal(cfg, res.value, dates, w);
      TraverseSectionsLog(cfg, todo, dates, w, []);
      TraverseSectionsRecords(cfg, todo, dates, w, []);
      TraverseSectionsPlaced(cfg, todo, dates, w, []);
    }
  }

  /** The shipped 10 x 2 grid: twenty sections named `section_0` .. `section_19` in order. */
  lemma SettingsGrid(endDate: int)
    ensures var cfg := Settings(endDate);
      var r := RegionSections(cfg.gazaBounds, cfg.numSectionsLat, cfg.numSectionsLon, EasternShift(cfg));
      && r.Ok? && |r.value| == 20
      && forall k :: 0 <= k < 20 ==> r.value[k].id == SectionId(k)
  {
    var cfg := Settings(endDate);
    forall k | 0 <= k < 20
      ensures RegionGrid(cfg.gazaBounds, 10, 2, 0.15)[k].id == SectionId(k)
    {
      RegionGridIds(cfg.gazaBounds, 10, 2, 0.15, k, k);
    }
  }

  /** On sections named `section_k` by position, resuming from `section_n`
      skips exactly the first `n` of them, and from a number past the end skips all. */
  lemma ResumeFromIndex(sections: seq<Section>, n: nat)
    requires forall k :: 0 <= k < |sections| ==> sections[k].id == SectionId(k)
    ensures n < |sections| ==> Processed(sections, Some(SectionId(n))) == sections[n..]
    ensures n >= |sections| ==> Processed(sections, Some(SectionId(n))) == []
  {
    forall k | 0 <= k < |sections|
      ensures sections[k].id == SectionId(n) <==> k == n
    {
      SectionIdInjective(k, n);
    }
    if n < |sections| {
      DropUntilFirst(sections, SectionId(n), n);
    } else {
      DropUntilAbsent(sections, SectionId(n));
    }
  }

  /** Resuming the shipped grid from `section_2` skips exactly the first two
      sections; resuming from `section_99`, which no section is named, skips
      them all; an empty name resumes nothing and every section is processed. */
  lemma ResumeExamples(endDate: int)
    ensures var cfg := Settings(endDate);
      var grid := RegionSections(cfg.gazaBounds, cfg.numSectionsLat, cfg.numSectionsLon, EasternShift(cfg)).value;
      && Processed(grid, Some("section_2")) == grid[2..]
      && Processed(grid, Some("section_99")) == []
      && Processed(grid, Some("")) == grid
      && Processed(grid, None) == grid
  {
    var cfg := Settings(endDate);
    SettingsGrid(endDate);
    var grid := RegionSections(cfg.gazaBounds, cfg.numSectionsLat, cfg.numSectionsLon, EasternShift(cfg)).value;
    assert NatToString(2) == "2" && NatToString(99) == "99";
    assert SectionId(2) == "section_2" && SectionId(99) == "section_99";
    ResumeFromIndex(grid, 2);
    ResumeFromIndex(grid, 99);
    assert Processed(grid, Some("section_2")) == grid[2..];
    assert Processed(grid, Some("section_99")) == [];
  }
}
