/** The weather enrichment: a city's coordinates come from a geocoding
    service and its current weather from a forecast service, each answer
    kept in a shared key/value cache with a time to live. The two services
    are parameters of the model (functions from the request to the answer),
    the cache is a map from key to value and expiry, and time is a whole
    number of seconds given by the caller. */
module Services {
  import opened Wrappers
  import opened Strings

  datatype Coords = Coords(lat: real, lon: real)

  /** The payload cached and shown for a city: `None` fields are JSON nulls. */
  datatype Weather = Weather(temperature: Option<real>, humidity: Option<real>, windspeed: Option<real>)

  /** What a cache entry, or a resolver, holds: `NoValue` is Python's `None`. */
  datatype CacheValue = NoValue | CoordsValue(coords: Coords) | WeatherValue(weather: Weather)

  datatype Entry = Entry(value: CacheValue, expiry: nat)

  /** A geocoding answer: a failed request (a connection error or a
      non-success status, which `raise_for_status` turns into an exception),
      or the decoded list of matches. */
  datatype GeoResponse = GeoFailed | GeoMatches(matches: seq<Coords>)

  /** The decoded forecast document: the `current_weather` object, where a
      missing or null field is an absent key, and the `relativehumidity_2m`
      samples of `hourly`, where a missing list is the empty one. */
  datatype WeatherJson = WeatherJson(currentWeather: map<string, real>, humiditySamples: seq<Option<real>>)

  datatype ForecastResponse = ForecastFailed | ForecastOk(json: WeatherJson)

  /** A request sent to one of the two services. */
  datatype Request = GeocodeRequest(query: string) | ForecastRequest(at: Coords)

  /** How a resolver ends: it returns a value, or an exception escapes it. */
  datatype Outcome = Returned(value: CacheValue) | Raised

  /** A resolver's outcome, the cache afterwards, and the requests it sent,
      in order. */
  datatype Step = Step(outcome: Outcome, entries: map<string, Entry>, calls: seq<Request>)

  const CoordsPrefix: string := "city_coords:"
  const WeatherPrefix: string := "weather:"

  /** One day: how long a city with no geocoding match is remembered. */
  const NoMatchTtl: nat := 60 * 60 * 24
  /** Thirty days: how long coordinates are remembered. */
  const CoordsTtl: nat := 60 * 60 * 24 * 30
  /** Ten minutes: how long a weather payload, or its absence, is remembered. */
  const WeatherTtl: nat := 60 * 10

  function CoordsKey(city: string): (k: string)
    ensures StartsWith(k, CoordsPrefix) && k[|CoordsPrefix|..] == Lower(Trim(city))
  {
    CoordsPrefix + Lower(Trim(city))
  }

  function WeatherKey(city: string): (k: string)
    ensures StartsWith(k, WeatherPrefix) && k[|WeatherPrefix|..] == Lower(Trim(city))
  {
    WeatherPrefix + Lower(Trim(city))
  }

  /** Two cities share a cache entry exactly when they agree once trimmed
      and lower-cased, and a coordinates key never equals a weather key. */
  lemma KeysSeparateCities(a: string, b: string)
    ensures CoordsKey(a) == CoordsKey(b) <==> Lower(Trim(a)) == Lower(Trim(b))
    ensures WeatherKey(a) == WeatherKey(b) <==> Lower(Trim(a)) == Lower(Trim(b))
    ensures CoordsKey(a) != WeatherKey(b)
  {
    assert CoordsKey(a)[0] == 'c' && WeatherKey(b)[0] == 'w';
  }

  /** `cache.get(key)`: the stored value while the entry is alive (its expiry
      is still ahead), `None` otherwise. */
  function Lookup(entries: map<string, Entry>, now: nat, key: string): (v: CacheValue)
    ensures v != NoValue ==> key in entries && now < entries[key].expiry && v == entries[key].value
    ensures key in entries && now < entries[key].expiry ==> v == entries[key].value
  {
    if key in entries && now < entries[key].expiry then entries[key].value else NoValue
  }

  /** Python truthiness of a cached value: `None` is false, and both the
      two-key coordinates dict and the three-key weather dict are true. */
  predicate Truthy(v: CacheValue) {
    !v.NoValue?
  }

  /** The payload built from a forecast: the two `current_weather` fields,
      and the first humidity sample when there is one. */
  function ExtractPayload(json: WeatherJson): (w: Weather)
    ensures w.temperature.Some? <==> "temperature" in json.currentWeather
    ensures w.temperature.Some? ==> w.temperature.value == json.currentWeather["temperature"]
    ensures w.windspeed.Some? <==> "windspeed" in json.currentWeather
    ensures w.windspeed.Some? ==> w.windspeed.value == json.currentWeather["windspeed"]
    ensures json.humiditySamples == [] ==> w.humidity == None
    ensures json.humiditySamples != [] ==> w.humidity == json.humiditySamples[0]
  {
    Weather(
      if "temperature" in json.currentWeather then Some(json.currentWeather["temperature"]) else None,
      if json.humiditySamples != [] then json.humiditySamples[0] else None,
      if "windspeed" in json.currentWeather then Some(json.currentWeather["windspeed"]) else None)
  }

  /** The two maps differ at most at the keys in `keys`. */
  ghost predicate AgreeExcept(a: map<string, Entry>, b: map<string, Entry>, keys: set<string>) {
    forall k :: k !in keys ==> (k in a <==> k in b) && (k in a ==> a[k] == b[k])
  }

  /** `get_city_coordinates`, as a function of the cache it starts from. */
  function ResolveCoords(entries: map<string, Entry>, now: nat, city: string,
                         geocode: string -> GeoResponse): (r: Step)
    ensures IsBlank(city) ==> r == Step(Returned(NoValue), entries, [])
    ensures AgreeExcept(r.entries, entries, {CoordsKey(city)})
    ensures r.outcome.Raised? ==> r.entries == entries
    ensures r.calls == [] || r.calls == [GeocodeRequest(Trim(city))]
    ensures r.calls == [] <==> IsBlank(city) || Truthy(Lookup(entries, now, CoordsKey(city)))
    ensures !IsBlank(city) && Truthy(Lookup(entries, now, CoordsKey(city))) ==>
              r == Step(Returned(Lookup(entries, now, CoordsKey(city))), entries, [])
    ensures r.calls != [] && r.outcome.Returned? ==>
              CoordsKey(city) in r.entries && r.entries[CoordsKey(city)].value == r.outcome.value
    ensures r.calls != [] && r.outcome == Returned(NoValue) ==>
              r.entries[CoordsKey(city)].expiry == now + NoMatchTtl
    ensures r.calls != [] && r.outcome.Returned? && Truthy(r.outcome.value) ==>
              r.entries[CoordsKey(city)].expiry == now + CoordsTtl
    ensures r.outcome.Raised? ==> r.calls != [] && geocode(Trim(city)).GeoFailed?
    ensures r.calls != [] && r.outcome.Returned? ==> !r.outcome.value.WeatherValue?
    ensures r.calls != [] ==>
              && (r.outcome.Raised? <==> geocode(Trim(city)).GeoFailed?)
              && (geocode(Trim(city)) == GeoMatches([]) ==> r.outcome == Returned(NoValue))
              && (geocode(Trim(city)).GeoMatches? && geocode(Trim(city)).matches != [] ==>
                    r.outcome == Returned(CoordsValue(geocode(Trim(city)).matches[0])))
  {
    var name := Trim(city);
    if name == [] then Step(Returned(NoValue), entries, [])
    else
      var key := CoordsKey(city);
      var cached := Lookup(entries, now, key);
      if Truthy(cached) then Step(Returned(cached), entries, [])
      else
        match geocode(name)
        case GeoFailed => Step(Raised, entries, [GeocodeRequest(name)])
        case GeoMatches(matches) =>
          if matches == [] then
            Step(Returned(NoValue), entries[key := Entry(NoValue, now + NoMatchTtl)], [GeocodeRequest(name)])
          else
            var coords := CoordsValue(matches[0]);
            Step(Returned(coords), entries[key := Entry(coords, now + CoordsTtl)], [GeocodeRequest(name)])
  }

  /** `get_current_weather_for_city`, as a function of the cache it starts
      from: a blank name and a cache hit end at once, anything else resolves
      the coordinates of the trimmed name and goes on in `FinishWeather`. */
  function ResolveWeather(entries: map<string, Entry>, now: nat, city: string,
                          geocode: string -> GeoResponse, forecast: Coords -> ForecastResponse): (r: Step)
    ensures IsBlank(city) ==> r == Step(Returned(NoValue), entries, [])
    ensures !IsBlank(city) && Truthy(Lookup(entries, now, WeatherKey(city))) ==>
              r == Step(Returned(Lookup(entries, now, WeatherKey(city))), entries, [])
    ensures !IsBlank(city) && !Truthy(Lookup(entries, now, WeatherKey(city))) ==>
              r == FinishWeather(ResolveCoords(entries, now, Trim(city), geocode), WeatherKey(city), now, forecast)
    ensures |r.calls| <= 2
  {
    var name := Trim(city);
    if name == [] then Step(Returned(NoValue), entries, [])
    else
      var key := WeatherKey(city);
      var cached := Lookup(entries, now, key);
      if Truthy(cached) then Step(Returned(cached), entries, [])
      else
        TrimIdempotent(Python, city);
        KeysSeparateCities(city, name);
        FinishWeather(ResolveCoords(entries, now, name, geocode), key, now, forecast)
  }

  /** The part of `get_current_weather_for_city` after the coordinates are
      resolved: an escaped exception passes through, no coordinates store
      `None` for ten minutes, and coordinates lead to one forecast request
      whose payload is stored for ten minutes. A coordinates entry holding a
      weather payload, which this module never writes, would make the
      lookup of its latitude fail. */
  function FinishWeather(located: Step, key: string, now: nat, forecast: Coords -> ForecastResponse): (r: Step)
    ensures AgreeExcept(r.entries, located.entries, {key})
    ensures r.outcome.Raised? ==> r.entries == located.entries
    ensures r.outcome.Returned? ==>
              key in r.entries && r.entries[key] == Entry(r.outcome.value, now + WeatherTtl)
    ensures located.outcome == Returned(NoValue) ==> r.outcome == Returned(NoValue) && r.calls == located.calls
    ensures located.calls <= r.calls && |r.calls| <= |located.calls| + 1
    ensures |r.calls| == |located.calls| + 1 ==>
              && located.outcome.Returned? && located.outcome.value.CoordsValue?
              && r.calls[|located.calls|] == ForecastRequest(located.outcome.value.coords)
    ensures located.outcome.Raised? ==> r == located
    ensures located.outcome.Returned? && located.outcome.value.CoordsValue? ==>
              var at := located.outcome.value.coords;
              && r.calls == located.calls + [ForecastRequest(at)]
              && (r.outcome.Raised? <==> forecast(at).ForecastFailed?)
              && (forecast(at).ForecastOk? ==>
                    r.outcome == Returned(WeatherValue(ExtractPayload(forecast(at).json))))
  {
    match located.outcome
    case Raised => Step(Raised, located.entries, located.calls)
    case Returned(NoValue) =>
      Step(Returned(NoValue), located.entries[key := Entry(NoValue, now + WeatherTtl)], located.calls)
    case Returned(WeatherValue(_)) => Step(Raised, located.entries, located.calls)
    case Returned(CoordsValue(at)) =>
      match forecast(at)
      case ForecastFailed => Step(Raised, located.entries, located.calls + [ForecastRequest(at)])
      case ForecastOk(json) =>
        var payload := WeatherValue(ExtractPayload(json));
        Step(Returned(payload), located.entries[key := Entry(payload, now + WeatherTtl)],
             located.calls + [ForecastRequest(at)])
  }

  /** Resolving a city's weather writes at most its two own cache entries,
      and a failure leaves its weather entry alone: only coordinates found
      before the forecast request failed are kept. */
  lemma WeatherTouchesOnlyItsKeys(entries: map<string, Entry>, now: nat, city: string,
                                  geocode: string -> GeoResponse, forecast: Coords -> ForecastResponse)
    ensures var r := ResolveWeather(entries, now, city, geocode, forecast);
            && AgreeExcept(r.entries, entries, {CoordsKey(city), WeatherKey(city)})
            && (r.outcome.Raised? ==> AgreeExcept(r.entries, entries, {CoordsKey(city)}))
  {
    var name := Trim(city);
    if name != [] && !Truthy(Lookup(entries, now, WeatherKey(city))) {
      TrimIdempotent(Python, city);
      KeysSeparateCities(city, name);
    }
  }

  /** Whether the service answered request `q` with a failure. */
  predicate FailedRequest(q: Request, geocode: string -> GeoResponse, forecast: Coords -> ForecastResponse) {
    match q
    case GeocodeRequest(query) => geocode(query).GeoFailed?
    case ForecastRequest(at) => forecast(at).ForecastFailed?
  }

  /** The cache is well kept: a coordinates key never holds a weather
      payload and a weather key never holds coordinates. */
  ghost predicate WellTyped(entries: map<string, Entry>) {
    forall k :: k in entries ==>
      (StartsWith(k, CoordsPrefix) ==> !entries[k].value.WeatherValue?) &&
      (StartsWith(k, WeatherPrefix) ==> !entries[k].value.CoordsValue?)
  }

  lemma KeyKinds(city: string)
    ensures StartsWith(CoordsKey(city), CoordsPrefix) && !StartsWith(CoordsKey(city), WeatherPrefix)
    ensures StartsWith(WeatherKey(city), WeatherPrefix) && !StartsWith(WeatherKey(city), CoordsPrefix)
  {
    assert CoordsKey(city)[0] == 'c' && WeatherKey(city)[0] == 'w';
  }

  /** On a well kept cache, resolving a city's coordinates keeps the cache
      well kept and returns coordinates or `None`. */
  lemma CoordsKeepCacheTyped(entries: map<string, Entry>, now: nat, city: string,
                             geocode: string -> GeoResponse)
    requires WellTyped(entries)
    ensures var r := ResolveCoords(entries, now, city, geocode);
            && WellTyped(r.entries)
            && (r.outcome.Returned? ==> !r.outcome.value.WeatherValue?)
  {
    KeyKinds(city);
  }

  /** A resolution that keeps the cache well kept, returns a weather
      payload or `None`, and raises only when a service answered its last
      request with a failure. */
  ghost predicate TypedWeatherStep(r: Step, geocode: string -> GeoResponse, forecast: Coords -> ForecastResponse) {
    && WellTyped(r.entries)
    && (r.outcome.Returned? ==> !r.outcome.value.CoordsValue?)
    && (r.outcome.Raised? ==> r.calls != [] && FailedRequest(r.calls[|r.calls| - 1], geocode, forecast))
  }

  /** On a well kept cache, resolving a city's weather keeps the cache well
      kept, returns a weather payload or `None`, and raises only when a
      service answered its last request with a failure. */
  lemma WeatherKeepsCacheTyped(entries: map<string, Entry>, now: nat, city: string,
                               geocode: string -> GeoResponse, forecast: Coords -> ForecastResponse)
    requires WellTyped(entries)
    ensures TypedWeatherStep(ResolveWeather(entries, now, city, geocode, forecast), geocode, forecast)
  {
    if IsBlank(city) || Truthy(Lookup(entries, now, WeatherKey(city))) {
      WeatherHitKeepsTyped(entries, now, city, geocode, forecast);
    } else {
      WeatherMissKeepsTyped(entries, now, city, geocode, forecast);
    }
  }

  lemma WeatherHitKeepsTyped(entries: map<string, Entry>, now: nat, city: string,
                             geocode: string -> GeoResponse, forecast: Coords -> ForecastResponse)
    requires WellTyped(entries)
    requires IsBlank(city) || Truthy(Lookup(entries, now, WeatherKey(city)))
    ensures TypedWeatherStep(ResolveWeather(entries, now, city, geocode, forecast), geocode, forecast)
  {
    KeyKinds(city);
    CachedWeatherIsTyped(entries, now, WeatherKey(city));
  }

  lemma WeatherMissKeepsTyped(entries: map<string, Entry>, now: nat, city: string,
                              geocode: string -> GeoResponse, forecast: Coords -> ForecastResponse)
    requires WellTyped(entries)
    requires !IsBlank(city) && !Truthy(Lookup(entries, now, WeatherKey(city)))
    ensures TypedWeatherStep(ResolveWeather(entries, now, city, geocode, forecast), geocode, forecast)
  {
    var name := Trim(city);
    KeyKinds(city);
    CoordsKeepCacheTyped(entries, now, name, geocode);
    CoordsRaiseOnFailure(entries, now, name, geocode, forecast);
    FinishKeepsTyped(ResolveCoords(entries, now, name, geocode), WeatherKey(city), now, geocode, forecast);
  }

  /** Resolving coordinates raises only when the geocoder answered its one
      request with a failure. */
  lemma CoordsRaiseOnFailure(entries: map<string, Entry>, now: nat, city: string,
                             geocode: string -> GeoResponse, forecast: Coords -> ForecastResponse)
    ensures var r := ResolveCoords(entries, now, city, geocode);
            r.outcome.Raised? ==> r.calls != [] && FailedRequest(r.calls[|r.calls| - 1], geocode, forecast)
  {
  }

  /** A value found under a weather key of a well kept cache is never a
      pair of coordinates. */
  lemma CachedWeatherIsTyped(entries: map<string, Entry>, now: nat, key: string)
    requires WellTyped(entries) && StartsWith(key, WeatherPrefix)
    ensures !Lookup(entries, now, key).CoordsValue?
  {
  }

  lemma FinishKeepsTyped(located: Step, key: string, now: nat,
                         geocode: string -> GeoResponse, forecast: Coords -> ForecastResponse)
    requires WellTyped(located.entries)
    requires StartsWith(key, WeatherPrefix) && !StartsWith(key, CoordsPrefix)
    requires located.outcome.Returned? ==> !located.outcome.value.WeatherValue?
    requires located.outcome.Raised? ==>
               located.calls != [] && FailedRequest(located.calls[|located.calls| - 1], geocode, forecast)
    ensures TypedWeatherStep(FinishWeather(located, key, now, forecast), geocode, forecast)
  {
    var r := FinishWeather(located, key, now, forecast);
    if r.outcome.Returned? {
      SetKeepsTyped(located.entries, key, r.entries[key]);
      assert r.entries == located.entries[key := r.entries[key]];
    }
  }

  /** Writing a value of the right kind keeps the cache well kept. */
  lemma SetKeepsTyped(entries: map<string, Entry>, key: string, e: Entry)
    requires WellTyped(entries)
    requires StartsWith(key, CoordsPrefix) ==> !e.value.WeatherValue?
    requires StartsWith(key, WeatherPrefix) ==> !e.value.CoordsValue?
    ensures WellTyped(entries[key := e])
  {
  }

  /** A weather payload fetched at `now` is served from the cache, with no
      request at all and whatever the services would now answer, by any
      call for the same city during the following ten minutes. */
  lemma WeatherIsServedFromCacheWithinTtl(entries: map<string, Entry>, now: nat, later: nat, city: string,
                                          geocode: string -> GeoResponse, forecast: Coords -> ForecastResponse,
                                          geocode': string -> GeoResponse, forecast': Coords -> ForecastResponse)
    requires !Truthy(Lookup(entries, now, WeatherKey(city)))
    requires ResolveWeather(entries, now, city, geocode, forecast).outcome.Returned?
    requires Truthy(ResolveWeather(entries, now, city, geocode, forecast).outcome.value)
    requires now <= later < now + WeatherTtl
    ensures var first := ResolveWeather(entries, now, city, geocode, forecast);
            ResolveWeather(first.entries, later, city, geocode', forecast')
              == Step(first.outcome, first.entries, [])
  {
    var first := ResolveWeather(entries, now, city, geocode, forecast);
    assert Lookup(first.entries, later, WeatherKey(city)) == first.outcome.value;
  }

  /** Coordinates found at `now` are served from the cache for the next
      thirty days. */
  lemma CoordsAreServedFromCacheWithinTtl(entries: map<string, Entry>, now: nat, later: nat, city: string,
                                          geocode: string -> GeoResponse, geocode': string -> GeoResponse)
    requires !Truthy(Lookup(entries, now, CoordsKey(city)))
    requires ResolveCoords(entries, now, city, geocode).outcome.Returned?
    requires Truthy(ResolveCoords(entries, now, city, geocode).outcome.value)
    requires now <= later < now + CoordsTtl
    ensures var first := ResolveCoords(entries, now, city, geocode);
            ResolveCoords(first.entries, later, city, geocode') == Step(first.outcome, first.entries, [])
  {
    var first := ResolveCoords(entries, now, city, geocode);
    assert Lookup(first.entries, later, CoordsKey(city)) == first.outcome.value;
  }

  /** A city the geocoder does not know is remembered as `None`, and since
      `None` does not count as a hit, the next call asks the geocoder again,
      however soon it comes. */
  lemma UnknownCityIsQueriedAgain(entries: map<string, Entry>, now: nat, later: nat, city: string,
                                  geocode: string -> GeoResponse, geocode': string -> GeoResponse)
    requires !IsBlank(city) && !Truthy(Lookup(entries, now, CoordsKey(city)))
    requires geocode(Trim(city)) == GeoMatches([])
    ensures var first := ResolveCoords(entries, now, city, geocode);
            && first.outcome == Returned(NoValue)
            && first.entries[CoordsKey(city)] == Entry(NoValue, now + NoMatchTtl)
            && ResolveCoords(first.entries, later, city, geocode').calls == [GeocodeRequest(Trim(city))]
  {
    var first := ResolveCoords(entries, now, city, geocode);
    assert Lookup(first.entries, later, CoordsKey(city)) == NoValue;
  }

  /** A city found in neither cache entry: its trimmed name is geocoded; a
      failed geocode raises and writes nothing; no match gives `None`; a
      match is remembered for thirty days and the forecast is asked at the
      first match, whose failure raises without writing any weather entry,
      while its answer is the payload returned and remembered for ten
      minutes. */
  lemma WeatherOfAnUncachedCity(entries: map<string, Entry>, now: nat, city: string,
                                geocode: string -> GeoResponse, forecast: Coords -> ForecastResponse)
    requires !IsBlank(city)
    requires !Truthy(Lookup(entries, now, WeatherKey(city))) && !Truthy(Lookup(entries, now, CoordsKey(city)))
    ensures var r := ResolveWeather(entries, now, city, geocode, forecast);
            var ask := GeocodeRequest(Trim(city));
            && (geocode(Trim(city)).GeoFailed? ==> r == Step(Raised, entries, [ask]))
            && (geocode(Trim(city)) == GeoMatches([]) ==> r.outcome == Returned(NoValue) && r.calls == [ask])
            && (geocode(Trim(city)).GeoMatches? && geocode(Trim(city)).matches != [] ==>
                  var at := geocode(Trim(city)).matches[0];
                  && r.calls == [ask, ForecastRequest(at)]
                  && r.entries[CoordsKey(city)] == Entry(CoordsValue(at), now + CoordsTtl)
                  && (forecast(at).ForecastFailed? ==>
                        r.outcome == Raised && AgreeExcept(r.entries, entries, {CoordsKey(city)}))
                  && (forecast(at).ForecastOk? ==>
                        var payload := WeatherValue(ExtractPayload(forecast(at).json));
                        r.outcome == Returned(payload) && r.entries[WeatherKey(city)] == Entry(payload, now + WeatherTtl)))
  {
    var name := Trim(city);
    TrimIdempotent(Python, city);
    KeysSeparateCities(city, name);
    KeyKinds(city);
    var located := ResolveCoords(entries, now, name, geocode);
    assert located.calls == [GeocodeRequest(name)];
  }

  /** A city without coordinates gets `None` remembered for ten minutes and
      the forecast service is never asked. */
  lemma NoCoordsMeansNoForecast(entries: map<string, Entry>, now: nat, city: string,
                                geocode: string -> GeoResponse, forecast: Coords -> ForecastResponse)
    requires !IsBlank(city) && !Truthy(Lookup(entries, now, WeatherKey(city)))
    requires ResolveCoords(entries, now, Trim(city), geocode).outcome == Returned(NoValue)
    ensures var r := ResolveWeather(entries, now, city, geocode, forecast);
            && r.outcome == Returned(NoValue)
            && r.entries[WeatherKey(city)] == Entry(NoValue, now + WeatherTtl)
            && forall q <- r.calls :: q.GeocodeRequest?
  {
    var r := ResolveWeather(entries, now, city, geocode, forecast);
    var located := ResolveCoords(entries, now, Trim(city), geocode);
    assert r.calls == located.calls;
  }

  /** The shared cache, `django.core.cache.cache`. */
  class Cache {
    var entries: map<string, Entry>

    ghost predicate Valid()
      reads this
    {
      WellTyped(entries)
    }

    constructor ()
      ensures entries == map[] && Valid()
    {
      entries := map[];
    }

    /** `cache.get(key)`. */
    method Get(now: nat, key: string) returns (v: CacheValue)
      ensures v == Lookup(entries, now, key)
    {
      v := NoValue;
      if key in entries && now < entries[key].expiry {
        v := entries[key].value;
      }
    }

    /** `cache.set(key, value, ttl)`. */
    method Set(now: nat, key: string, value: CacheValue, ttl: nat)
      modifies this
      ensures entries == old(entries)[key := Entry(value, now + ttl)]
    {
      entries := entries[key := Entry(value, now + ttl)];
    }
  }

  /** `get_city_coordinates` against the shared cache. */
  method GetCityCoordinates(cache: Cache, now: nat, city: string, geocode: string -> GeoResponse)
    returns (outcome: Outcome, calls: seq<Request>)
    modifies cache
    ensures var r := ResolveCoords(old(cache.entries), now, city, geocode);
            outcome == r.outcome && calls == r.calls && cache.entries == r.entries
    ensures old(cache.Valid()) ==> cache.Valid()
  {
    if cache.Valid() {
      CoordsKeepCacheTyped(cache.entries, now, city, geocode);
    }
    var name := Trim(city);
    calls := [];
    if name == [] {
      return Returned(NoValue), calls;
    }
    var key := CoordsPrefix + Lower(name);
    var cached := cache.Get(now, key);
    if Truthy(cached) {
      return Returned(cached), calls;
    }
    calls := calls + [GeocodeRequest(name)];
    var response := geocode(name);
    if response.GeoFailed? {
      return Raised, calls;
    }
    if response.matches == [] {
      cache.Set(now, key, NoValue, NoMatchTtl);
      return Returned(NoValue), calls;
    }
    var coords := CoordsValue(response.matches[0]);
    cache.Set(now, key, coords, CoordsTtl);
    outcome := Returned(coords);
  }

  /** `get_current_weather_for_city` against the shared cache. */
  method GetCurrentWeatherForCity(cache: Cache, now: nat, city: string,
                                  geocode: string -> GeoResponse, forecast: Coords -> ForecastResponse)
    returns (outcome: Outcome, calls: seq<Request>)
    modifies cache
    ensures var r := ResolveWeather(old(cache.entries), now, city, geocode, forecast);
            outcome == r.outcome && calls == r.calls && cache.entries == r.entries
    ensures old(cache.Valid()) ==> cache.Valid()
  {
    if cache.Valid() {
      WeatherKeepsCacheTyped(cache.entries, now, city, geocode, forecast);
    }
    var name := Trim(city);
    if name == [] {
      return Returned(NoValue), [];
    }
    var key := WeatherPrefix + Lower(name);
    var cached := cache.Get(now, key);
    if Truthy(cached) {
      return Returned(cached), [];
    }
    TrimIdempotent(Python, city);
    var located;
    located, calls := GetCityCoordinates(cache, now, name, geocode);
    outcome, calls := FinishWeatherIn(cache, located, calls, key, now, forecast);
  }

  /** The end of `get_current_weather_for_city`, once the coordinates
      lookup ended with `located` after sending `calls`. */
  method FinishWeatherIn(cache: Cache, located: Outcome, calls: seq<Request>, key: string, now: nat,
                         forecast: Coords -> ForecastResponse)
    returns (outcome: Outcome, calls': seq<Request>)
    modifies cache
    ensures var r := FinishWeather(Step(located, old(cache.entries), calls), key, now, forecast);
            outcome == r.outcome && calls' == r.calls && cache.entries == r.entries
  {
    calls' := calls;
    if located.Raised? {
      return Raised, calls';
    }
    match located.value
    case NoValue =>
      cache.Set(now, key, NoValue, WeatherTtl);
      outcome := Returned(NoValue);
    case WeatherValue(_) =>
      outcome := Raised;
    case CoordsValue(at) =>
      calls' := calls' + [ForecastRequest(at)];
      var response := forecast(at);
      if response.ForecastFailed? {
        return Raised, calls';
      }
      var payload := WeatherValue(ExtractPayload(response.json));
      cache.Set(now, key, payload, WeatherTtl);
      outcome := Returned(payload);
  }
}
