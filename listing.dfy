/** The contact list page: the contacts are filtered by a search query and
    sorted by the requested key, and the weather of every distinct city among
    them is resolved through the shared cache. */
module Listing {
  import opened Wrappers
  import opened Strings
  import opened Store
  import opened Services

  /** The `q` parameter, trimmed; a missing parameter is the empty query. */
  function SearchQuery(q: Option<string>): (r: string)
    ensures IsTrimmed(r)
    ensures q.None? ==> r == []
    ensures q.Some? ==> r == Trim(q.value)
  {
    Trim(q.GetOr(""))
  }

  /** The `sort` parameter: "last_name" when it is missing or empty,
      otherwise the trimmed value (so a blank value becomes the empty key,
      which sorts by name like every key but "created_at"). */
  function SortKey(sort: Option<string>): (r: string)
    ensures sort.None? || sort.value == [] ==> r == "last_name"
    ensures sort.Some? && sort.value != [] ==> r == Trim(sort.value)
  {
    if sort.None? || sort.value == [] then "last_name" else Trim(sort.value)
  }

  /** `field__icontains=query`: `query` occurs in `field` when both are
      lower-cased. */
  predicate ContainsIgnoringCase(field: string, query: string) {
    Contains(Lower(field), Lower(query))
  }

  /** The search filter: an empty query keeps every contact, any other keeps
      the contacts with the query in one of five fields. */
  predicate Matches(c: Contact, query: string) {
    query == []
    || ContainsIgnoringCase(c.firstName, query)
    || ContainsIgnoringCase(c.lastName, query)
    || ContainsIgnoringCase(c.email, query)
    || ContainsIgnoringCase(c.phoneNumber, query)
    || ContainsIgnoringCase(c.city, query)
  }

  /** The contacts that match `query`, in their original order. */
  function Filter(cs: seq<Contact>, query: string): (r: seq<Contact>)
    ensures forall c <- r :: Matches(c, query)
    ensures forall c <- cs :: Matches(c, query) ==> c in r
    ensures multiset(r) <= multiset(cs)
    ensures query == [] ==> r == cs
  {
    if cs == [] then []
    else
      var rest := Filter(cs[1..], query);
      assert cs == [cs[0]] + cs[1..];
      if Matches(cs[0], query) then [cs[0]] + rest else rest
  }

  /** Letter case in the query does not change what matches. */
  lemma QueryCaseIsIgnored(c: Contact, query: string)
    ensures Matches(c, query) <==> Matches(c, Lower(query))
  {
    LowerIsIdempotent(query);
  }

  lemma LowerIsIdempotent(s: string)
    ensures Lower(Lower(s)) == Lower(s)
  {
    assert forall i :: 0 <= i < |s| ==> Lower(s)[i] == LowerChar(s[i]);
  }

  /** `order_by("last_name", "first_name")`. */
  predicate NameLe(a: Contact, b: Contact) {
    if a.lastName != b.lastName then LexLe(a.lastName, b.lastName) else LexLe(a.firstName, b.firstName)
  }

  /** Whether `a` may come before `b` under the sort key: "created_at"
      puts the newest first, any other key sorts by name. */
  predicate InOrder(key: string, a: Contact, b: Contact) {
    if key == "created_at" then a.createdAt >= b.createdAt else NameLe(a, b)
  }

  lemma InOrderTotal(key: string, a: Contact, b: Contact)
    ensures InOrder(key, a, b) || InOrder(key, b, a)
  {
    LexTotal(a.lastName, b.lastName);
    LexTotal(a.firstName, b.firstName);
  }

  lemma InOrderTransitive(key: string, a: Contact, b: Contact, c: Contact)
    requires InOrder(key, a, b) && InOrder(key, b, c)
    ensures InOrder(key, a, c)
  {
    if key != "created_at" {
      if a.lastName == b.lastName && b.lastName == c.lastName {
        LexTransitive(a.firstName, b.firstName, c.firstName);
      } else {
        if a.lastName != b.lastName && b.lastName != c.lastName {
          LexTransitive(a.lastName, b.lastName, c.lastName);
          if a.lastName == c.lastName {
            LexAntisymmetric(a.lastName, b.lastName);
          }
        }
      }
    }
  }

  predicate Sorted(key: string, cs: seq<Contact>) {
    forall i, j :: 0 <= i < j < |cs| ==> InOrder(key, cs[i], cs[j])
  }

  /** `c` placed into the sorted `cs` before the first contact it may
      precede. */
  function Insert(key: string, c: Contact, cs: seq<Contact>): (r: seq<Contact>)
    requires Sorted(key, cs)
    ensures Sorted(key, r)
    ensures multiset(r) == multiset(cs) + multiset{c}
  {
    if cs == [] then [c]
    else if InOrder(key, c, cs[0]) then
      InsertFront(key, c, cs);
      [c] + cs
    else
      var rest := Insert(key, c, cs[1..]);
      InsertBehind(key, c, cs, rest);
      assert cs == [cs[0]] + cs[1..];
      [cs[0]] + rest
  }

  lemma InsertFront(key: string, c: Contact, cs: seq<Contact>)
    requires Sorted(key, cs) && cs != [] && InOrder(key, c, cs[0])
    ensures Sorted(key, [c] + cs)
  {
    forall j | 0 <= j < |cs|
      ensures InOrder(key, c, cs[j])
    {
      if j > 0 {
        InOrderTransitive(key, c, cs[0], cs[j]);
      }
    }
  }

  lemma InsertBehind(key: string, c: Contact, cs: seq<Contact>, rest: seq<Contact>)
    requires Sorted(key, cs) && cs != [] && !InOrder(key, c, cs[0])
    requires Sorted(key, rest) && multiset(rest) == multiset(cs[1..]) + multiset{c}
    ensures Sorted(key, [cs[0]] + rest)
  {
    InOrderTotal(key, c, cs[0]);
    forall j | 0 <= j < |rest|
      ensures InOrder(key, cs[0], rest[j])
    {
      assert rest[j] in multiset(rest);
      if rest[j] != c {
        assert rest[j] in multiset(cs[1..]);
        var k :| 0 <= k < |cs[1..]| && cs[1..][k] == rest[j];
        assert cs[k + 1] == rest[j];
      }
    }
  }

  /** `order_by` as an insertion sort: a permutation of the contacts in the
      order of the sort key. */
  function SortContacts(key: string, cs: seq<Contact>): (r: seq<Contact>)
    ensures Sorted(key, r)
    ensures multiset(r) == multiset(cs)
  {
    if cs == [] then []
    else
      assert cs == [cs[0]] + cs[1..];
      Insert(key, cs[0], SortContacts(key, cs[1..]))
  }

  /** The distinct trimmed, non-empty city names of the contacts. */
  function CityNames(cs: seq<Contact>): set<string> {
    if cs == [] then {}
    else
      var city := Trim(cs[0].city);
      (if city != [] then {city} else {}) + CityNames(cs[1..])
  }

  /** The city names are trimmed and non-empty; every contact with a
      non-blank city contributes its trimmed city, and nothing else is
      there. */
  lemma {:induction false} CityNamesAreTheCitiesShown(cs: seq<Contact>)
    ensures forall name <- CityNames(cs) :: name != [] && IsTrimmed(name)
    ensures forall c <- cs :: !IsBlank(c.city) ==> Trim(c.city) in CityNames(cs)
    ensures forall name <- CityNames(cs) :: exists c <- cs :: Trim(c.city) == name
  {
    if cs != [] {
      CityNamesAreTheCitiesShown(cs[1..]);
      assert cs == [cs[0]] + cs[1..];
      forall name | name in CityNames(cs)
        ensures exists c <- cs :: Trim(c.city) == name
      {
        if name !in CityNames(cs[1..]) {
          assert Trim(cs[0].city) == name;
        }
      }
    }
  }

  /** The weather step of the page, as a function of the order in which
      the cities are visited: each city's outcome is recorded, and an
      exception stops the page. */
  datatype Enrichment = Enrichment(weather: map<string, CacheValue>, entries: map<string, Entry>,
                                   calls: seq<Request>, failed: bool)

  function EnrichCities(entries: map<string, Entry>, now: nat, cities: seq<string>,
                        geocode: string -> GeoResponse, forecast: Coords -> ForecastResponse): (e: Enrichment)
  {
    if cities == [] then Enrichment(map[], entries, [], false)
    else
      var before := EnrichCities(entries, now, cities[..|cities| - 1], geocode, forecast);
      var city := cities[|cities| - 1];
      assert cities == cities[..|cities| - 1] + [city];
      if before.failed then before
      else
        var r := ResolveWeather(before.entries, now, city, geocode, forecast);
        if r.outcome.Raised? then Enrichment(before.weather, r.entries, before.calls + r.calls, true)
        else Enrichment(before.weather[city := r.outcome.value], r.entries, before.calls + r.calls, false)
  }

  /** Weather is recorded only for cities visited, and, unless an
      exception stopped the page, for every one of them. */
  lemma {:induction false} EnrichCoversCities(entries: map<string, Entry>, now: nat, cities: seq<string>,
                                              geocode: string -> GeoResponse, forecast: Coords -> ForecastResponse)
    ensures var e := EnrichCities(entries, now, cities, geocode, forecast);
            && (forall c <- e.weather :: c in cities)
            && (!e.failed ==> forall c <- cities :: c in e.weather)
            && |e.calls| <= 2 * |cities|
  {
    if cities != [] {
      var init := cities[..|cities| - 1];
      var city := cities[|cities| - 1];
      assert cities == init + [city];
      EnrichCoversCities(entries, now, init, geocode, forecast);
    }
  }

  /** Visiting one more city, after the earlier ones all succeeded, extends
      the enrichment by that city's resolution. */
  lemma EnrichStep(entries: map<string, Entry>, now: nat, cities: seq<string>, city: string,
                   geocode: string -> GeoResponse, forecast: Coords -> ForecastResponse,
                   weather: map<string, CacheValue>, reached: map<string, Entry>, calls: seq<Request>, r: Step)
    requires EnrichCities(entries, now, cities, geocode, forecast) == Enrichment(weather, reached, calls, false)
    requires r == ResolveWeather(reached, now, city, geocode, forecast)
    ensures EnrichCities(entries, now, cities + [city], geocode, forecast)
              == if r.outcome.Raised? then Enrichment(weather, r.entries, calls + r.calls, true)
                 else Enrichment(weather[city := r.outcome.value], r.entries, calls + r.calls, false)
  {
    assert (cities + [city])[..|cities|] == cities;
  }

  /** What the page renders. */
  datatype Page = Rendered(contacts: seq<Contact>, searchQuery: string, sortKey: string,
                           weatherByCity: map<string, CacheValue>)
                | Failed

  /** The contacts the page lists: those matching the query, in the order
      of the sort key. */
  function Shown(db: Db, q: Option<string>, sort: Option<string>): seq<Contact> {
    SortContacts(SortKey(sort), Filter(db.contacts, SearchQuery(q)))
  }

  /** The page lists exactly the stored contacts that match the query,
      sorted by the key. */
  lemma ShownIsTheMatchingContacts(db: Db, q: Option<string>, sort: Option<string>)
    ensures Sorted(SortKey(sort), Shown(db, q, sort))
    ensures forall c <- Shown(db, q, sort) :: c in db.contacts && Matches(c, SearchQuery(q))
    ensures forall c <- db.contacts :: Matches(c, SearchQuery(q)) ==> c in Shown(db, q, sort)
  {
    var kept := Filter(db.contacts, SearchQuery(q));
    var r := SortContacts(SortKey(sort), kept);
    SameMembers(r, kept);
    SameMembers(kept, db.contacts);
    SameMembers(kept, r);
  }

  lemma SameMembers(a: seq<Contact>, b: seq<Contact>)
    requires multiset(a) <= multiset(b)
    ensures forall c <- a :: c in b
  {
    forall c | c in a
      ensures c in b
    {
      assert c in multiset(a);
    }
  }

  /** `contact_list`. `asked` is the order in which the cities were
      resolved. */
  method ContactList(cache: Cache, now: nat, db: Db, q: Option<string>, sort: Option<string>,
                     geocode: string -> GeoResponse, forecast: Coords -> ForecastResponse)
    returns (page: Page, asked: seq<string>, calls: seq<Request>)
    modifies cache
    ensures forall i, j :: 0 <= i < j < |asked| ==> asked[i] != asked[j]
    ensures var cities := CityNames(Shown(db, q, sort));
            && (forall c <- asked :: c in cities)
            && (page.Rendered? ==> forall c <- cities :: c in asked)
    ensures var e := EnrichCities(old(cache.entries), now, asked, geocode, forecast);
            && cache.entries == e.entries && calls == e.calls
            && (if e.failed then page == Failed
                else page == Rendered(Shown(db, q, sort), SearchQuery(q), SortKey(sort), e.weather))
  {
    var shown := Shown(db, q, sort);
    var weather, failed;
    weather, failed, asked, calls := ResolveCities(cache, now, CityNames(shown), geocode, forecast);
    if failed {
      page := Failed;
    } else {
      page := Rendered(shown, SearchQuery(q), SortKey(sort), weather);
    }
  }

  /** The loop of `contact_list` over the distinct cities, in whatever order
      the set yields them; an exception from the resolver ends it. */
  method ResolveCities(cache: Cache, now: nat, cities: set<string>,
                       geocode: string -> GeoResponse, forecast: Coords -> ForecastResponse)
    returns (weather: map<string, CacheValue>, failed: bool, asked: seq<string>, calls: seq<Request>)
    modifies cache
    ensures forall i, j :: 0 <= i < j < |asked| ==> asked[i] != asked[j]
    ensures forall c <- asked :: c in cities
    ensures !failed ==> forall c <- cities :: c in asked
    ensures EnrichCities(old(cache.entries), now, asked, geocode, forecast)
              == Enrichment(weather, cache.entries, calls, failed)
  {
    weather := map[];
    failed := false;
    asked := [];
    calls := [];
    var remaining := cities;
    while remaining != {} && !failed
      invariant remaining <= cities
      invariant forall c <- asked :: c in cities && c !in remaining
      invariant forall c <- cities :: c in asked || c in remaining
      invariant forall i, j :: 0 <= i < j < |asked| ==> asked[i] != asked[j]
      invariant EnrichCities(old(cache.entries), now, asked, geocode, forecast)
                  == Enrichment(weather, cache.entries, calls, failed)
      decreases remaining
    {
      var city :| city in remaining;
      ghost var reached := cache.entries;
      var outcome, sent := GetCurrentWeatherForCity(cache, now, city, geocode, forecast);
      EnrichStep(old(cache.entries), now, asked, city, geocode, forecast, weather, reached, calls,
                 Step(outcome, cache.entries, sent));
      asked := asked + [city];
      calls := calls + sent;
      if outcome.Raised? {
        failed := true;
      } else {
        weather := weather[city := outcome.value];
      }
      remaining := remaining - {city};
    }
  }
}
