# Contact directory — a Dafny model

This project models the core of a small Django contact directory. Each
contact has a first and last name, a phone number, an email address, a city
and a status. Statuses are a separate table of unique names. Four statuses
are seeded by default: "new", "in progress", "lost" and "outdated".

The parts modelled are:

- the store and its rules: the two models, their uniqueness constraints,
  the protected foreign key, and the default orderings;
- the start-up hook that seeds the default statuses;
- the CSV import view. It trims every cell and skips incomplete rows. It
  maps Polish status aliases to the English names, creates missing
  statuses, and counts rows created and rows skipped. A row whose phone
  number or email is already taken is skipped;
- the contact list view: search, sorting, and weather for each city shown;
- the `normalize_statuses` management command. It moves contacts from the
  Polish statuses to the English ones and deletes the Polish statuses;
- the geocoding and weather services, with their time-limited cache;
- the contact form's initial values and its phone rule: exactly nine
  digits, with the country code "+48" put in front;
- the REST serializer's create-time validation and its output fields;
- the browser-side check of the contact form.

The database is a value, `Store.Db`. It holds the set of status names, the
contacts in insertion order, and a logical clock. `created_at` is modelled
by that clock. Code that changes things step by step is written as
methods with loops, each proved against a function that specifies it. The
import loop and the list view's weather lookups are proved equal to folds
over their inputs. The migration loop is proved against a closed form of
its first passes (`MigratedUpTo`), and the seeding loop against the old
statuses plus the defaults.

The cache is a `class` with a map of entries. An entry is alive while
`now < expiry`, and a hit also needs a truthy value. The geocoding and
forecast HTTP calls are function parameters, and every request the code
would send is recorded. Strings are sequences of characters. Python's
`strip` and JavaScript's `trim` each remove their own language's whitespace.
Both remove TAB..CR, the Unicode space separators and the line and
paragraph separators. Python also removes U+001C..U+001F and U+0085, and
JavaScript also removes U+FEFF. `lower`, `isdigit` and `\D` are modelled on
ASCII.

## Model

| member | source | states |
|---|---|---|
| Strings.Trim | contacts/views.py:111-116 | Python's `strip`: the result has no leading or trailing Python whitespace (U+001C..U+001F and U+0085 included); it is empty exactly when the input is all whitespace |
| Strings.TrimIn | static/app.js:35 | trimming in either language: no whitespace of that language at either end; empty exactly when the input is all whitespace |
| Strings.TrimStartIsSuffix | contacts/views.py:111-116 | stripping the left end removes only leading whitespace and keeps the rest |
| Strings.TrimEndIsPrefix | contacts/views.py:111-116 | stripping the right end removes only trailing whitespace and keeps the rest |
| Strings.TrimIdempotent | contacts/services.py:44 | stripping an already stripped name changes nothing, so the weather lookup's coordinate lookup sees the same name |
| Strings.Digits | contacts/forms.py:48 | keeps only digits; is no longer than the input; leaves an all-digit string unchanged |
| Strings.DigitsKeepEveryDigit | contacts/forms.py:48 | every digit of the input is kept as often as it occurs, and nothing else, so the length counts the digit characters |
| Strings.DigitsOfConcat | static/app.js:41 | the digits of two joined strings are the digits of the first, then those of the second, so their order is kept |
| Strings.DigitsOfTrim | static/app.js:35-41 | trimming, in either language, removes no digit |
| Strings.Contains | contacts/views.py:30-34 | true exactly when the query occurs at some position of the field |
| Strings.LexTotal | contacts/models.py:6-7 | ordering by name compares any two names |
| Strings.LexAntisymmetric | contacts/models.py:6-7 | two names that are each ordered before the other are equal |
| Strings.LexTransitive | contacts/models.py:6-7 | ordering by name is transitive |
| Store.CreateStatus | contacts/models.py:4 | succeeds exactly when the name is unused; adds exactly that name; keeps the store's invariants |
| Store.GetOrCreateStatus | contacts/apps.py:11 | afterwards the name exists; reports "created" exactly when it was missing; an existing name leaves the store as it was |
| Store.CreateContact | contacts/models.py:13-20 | succeeds exactly when the phone and the email are unused and the status exists; appends the contact stamped with the clock; keeps the invariants |
| Store.DeleteStatus | contacts/models.py:19 | fails exactly when a contact still refers to the status (PROTECT); otherwise removes just that name |
| Store.FirstStatus | contacts/views.py:106 | the first status in name order: none exactly when there is no status, otherwise a status no later than any other |
| Store.FirstIsUnique | contacts/models.py:6-7 | two statuses that both come first in name order are the same |
| Store.DisplayName | contacts/models.py:25-26 | first name, one space, last name |
| Store.DisplayNameInjective | contacts/models.py:25-26 | when first names contain no space, equal display names mean equal first and last names |
| Store.DefaultOrderIsStrictTotal | contacts/models.py:22-23 | the default order (last name, then newest first) is irreflexive and transitive, and it orders any two contacts with different stamps |
| Taxonomy.AliasTarget | contacts/views.py:14-19 | defined exactly for the four Polish names, and maps each to a default status |
| Taxonomy.NormalizeStatusName | contacts/views.py:124 | a name whose lower case is an alias becomes its English target; any other name is kept; the result is never an alias |
| Taxonomy.DefaultsAreNotAliases | contacts/views.py:14-19 | every default status is lower case and is not a Polish alias |
| Taxonomy.NormalizeIdempotent | contacts/views.py:124 | normalizing twice is the same as normalizing once |
| Taxonomy.AliasAndEnglishAgree | contacts/management/commands/normalize_statuses.py:4-9 | each alias normalizes to the English name the command migrates it to, and that English name is kept |
| Taxonomy.SeedDefaults | contacts/apps.py:9-11 | adds exactly the missing default statuses; contacts and clock are unchanged; a store that already has them is unchanged; keeps the invariants |
| Import.Cell | contacts/views.py:111-116 | a present cell reads as its stripped text; a missing column reads as empty |
| Import.ImportRow | contacts/views.py:111-138 | an incomplete row is skipped and changes nothing; a created contact carries the row's cells and the normalized (or default) status; a complete row is skipped as a duplicate exactly when its phone or email is taken; new statuses are never aliases |
| Import.ImportAll | contacts/views.py:110-138 | created plus skipped equals the number of rows; contacts are only appended, one per created row; statuses are only added, and never as an alias |
| Import.ImportAllKeepsValid | contacts/models.py:13-20 | an import never breaks the store's constraints: unique phones and emails, existing statuses, increasing stamps |
| Import.CreatedContactsComeFromRows | contacts/views.py:127-136 | every contact the import appends was built from one of the rows |
| Import.SeededDefaultIsInProgress | contacts/views.py:106 | with only the seeded defaults, the first status by name is "in progress", so rows without a status are filed under it |
| Import.StartOf | contacts/views.py:106-108 | the default status exists afterwards; an empty status table gets exactly "new" |
| Import.ImportContacts | contacts/views.py:102-140 | the view's counts and store equal the fold over the rows; the default is "new" when there were no statuses, else the first status; created plus skipped equals the number of rows |
| Import.ReconcileRows | contacts/views.py:110-138 | the loop computes exactly the fold over the rows |
| Import.DuplicateRowIsSkipped | contacts/views.py:127-138 | a row whose phone or email is taken is counted as skipped and adds no contact; a status name it names is still created |
| Import.SharedPhoneCreatesOnce | contacts/views.py:127-138 | of two complete rows that share a phone or an email, when the first row's phone and email are not yet in the store, one is created and one skipped |
| Import.AliasRowFiledInEnglish | contacts/views.py:122-125 | a row with a Polish status is filed under the English status, and the Polish status is not created |
| NormalizeStatuses.Reassign | contacts/management/commands/normalize_statuses.py:26 | contacts of the old status move to the new one; all others are unchanged |
| NormalizeStatuses.MigrateStatus | contacts/management/commands/normalize_statuses.py:19-40 | a missing Polish status changes nothing; otherwise its contacts move to the English status, which exists afterwards, and the Polish status is gone; the count is the number moved |
| NormalizeStatuses.ReassignKeepsStore | contacts/management/commands/normalize_statuses.py:26-35 | after the update no contact refers to the Polish status, so the delete cannot be refused; the invariants still hold |
| NormalizeStatuses.MigrationStep | contacts/management/commands/normalize_statuses.py:18-40 | one pass of the loop moves exactly the contacts of that alias |
| NormalizeStatuses.StatusesStep | contacts/management/commands/normalize_statuses.py:18-40 | one pass of the loop removes exactly that alias and adds its target when the alias existed |
| NormalizeStatuses.PassStep | contacts/management/commands/normalize_statuses.py:18-40 | one pass keeps the loop invariant: contacts, statuses and the count are as if the first i aliases were migrated |
| NormalizeStatuses.MigrateAll | contacts/management/commands/normalize_statuses.py:16-40 | after the loop, every alias has been migrated, and the count is the number of contacts that were on an alias |
| NormalizeStatuses.MigratedIsNotAlias | contacts/management/commands/normalize_statuses.py:26 | a migrated contact is never on a Polish status |
| NormalizeStatuses.NothingToMigrate | contacts/management/commands/normalize_statuses.py:39-43 | with no Polish status present, migration leaves every contact and status as it was and counts zero |
| NormalizeStatuses.Handle | contacts/management/commands/normalize_statuses.py:15-47 | afterwards no contact and no status is Polish; each contact was moved to its English status; the count is the contacts moved; the warning is printed exactly when it is zero |
| Services.CoordsKey | contacts/services.py:12 | the key is "city_coords:" then the stripped, lower-cased name |
| Services.WeatherKey | contacts/services.py:39 | the key is "weather:" then the stripped, lower-cased name |
| Services.KeysSeparateCities | contacts/services.py:12 | two names share a key exactly when they agree after strip and lower; a coordinates key never equals a weather key |
| Services.Lookup | contacts/services.py:13 | a value is returned only from an entry whose time has not run out, and every live entry is returned |
| Services.ExtractPayload | contacts/services.py:63-77 | temperature and wind speed are present exactly when the response has them; humidity is the first hourly sample or nothing |
| Services.ResolveCoords | contacts/services.py:7-31 | a blank name sends nothing; a cached hit sends nothing and is returned; otherwise the stripped name is geocoded once; the call raises exactly when that request failed, and then the cache is left alone; no match returns and stores None for a day; otherwise the first match is returned and stored for thirty days; only its own key is written |
| Services.ResolveWeather | contacts/services.py:34-79 | a blank name sends nothing; a cached hit is returned untouched; a miss resolves the coordinates of the stripped name and goes on as `FinishWeather`; at most two requests are sent |
| Services.FinishWeather | contacts/services.py:44-79 | a raised coordinates lookup passes through unchanged; no coordinates gives None stored for ten minutes and no forecast request; coordinates send exactly one forecast request there, which raises exactly when it failed and otherwise returns the payload built from the answer, stored for ten minutes under the weather key only |
| Services.WeatherOfAnUncachedCity | contacts/services.py:7-79 | for a city in neither cache entry: a failed geocode raises and writes nothing; no match gives None; a match is stored for thirty days and the forecast is asked at the first match; a failed forecast raises and writes no weather; an answer is returned as its payload and stored for ten minutes |
| Services.WeatherTouchesOnlyItsKeys | contacts/services.py:39-79 | the weather lookup writes only the weather and coordinate keys of its city; a raised error writes no weather entry |
| Services.CoordsKeepCacheTyped | contacts/services.py:26-30 | a coordinates key never holds a weather value |
| Services.WeatherKeepsCacheTyped | contacts/services.py:44-78 | cache kinds stay separate; the weather lookup never returns coordinates; when it raises, the last request it sent failed |
| Services.WeatherIsServedFromCacheWithinTtl | contacts/services.py:39-42 | a weather value fetched at one time is returned from the cache, with no request, until ten minutes later |
| Services.CoordsAreServedFromCacheWithinTtl | contacts/services.py:12-30 | coordinates fetched at one time are returned from the cache, with no request, for thirty days |
| Services.UnknownCityIsQueriedAgain | contacts/services.py:13-27 | a stored "no match" is not a hit, so a later call asks the geocoder again |
| Services.NoCoordsMeansNoForecast | contacts/services.py:44-47 | when a city cannot be located, the weather is nothing and no forecast request is sent |
| Services.Cache.Get | contacts/services.py:13 | returns the lookup of the key at the given time |
| Services.Cache.Set | contacts/services.py:30 | stores the value under the key with expiry now plus the time to live; nothing else changes |
| Services.GetCityCoordinates | contacts/services.py:7-31 | outcome, requests and new cache are those of `ResolveCoords`; cache kinds stay separate |
| Services.GetCurrentWeatherForCity | contacts/services.py:34-79 | outcome, requests and new cache are those of `ResolveWeather`; cache kinds stay separate |
| Services.FinishWeatherIn | contacts/services.py:44-79 | outcome, requests and new cache are those of `FinishWeather` |
| Listing.SearchQuery | contacts/views.py:23 | the query is the stripped parameter, or empty when absent |
| Listing.SortKey | contacts/views.py:24 | the key is the stripped parameter, or "last_name" when absent or empty |
| Listing.Filter | contacts/views.py:28-35 | keeps exactly the contacts where one of five fields contains the query ignoring case; an empty query keeps all |
| Listing.QueryCaseIsIgnored | contacts/views.py:29-34 | a query and its lower-case form select the same contacts |
| Listing.InOrderTotal | contacts/views.py:37-40 | the chosen order compares any two contacts |
| Listing.InOrderTransitive | contacts/views.py:37-40 | the chosen order is transitive |
| Listing.SortContacts | contacts/views.py:37-40 | the result is sorted by the chosen key and is a permutation of the input |
| Listing.CityNamesAreTheCitiesShown | contacts/views.py:42 | the city names are exactly the stripped, non-blank cities of the contacts shown |
| Listing.EnrichCoversCities | contacts/views.py:43-45 | weather is recorded only for the cities asked; without a failure it is recorded for all of them; at most two requests per city |
| Listing.EnrichStep | contacts/views.py:43-45 | one pass of the loop extends the fold by one city |
| Listing.ShownIsTheMatchingContacts | contacts/views.py:26-40 | the shown contacts are sorted and are exactly the stored contacts matching the query |
| Listing.ContactList | contacts/views.py:22-53 | each city of the contacts shown is asked once and no other city is asked; a rendered page holds exactly the shown contacts, the query, the key and the weather of the fold; the cache and requests are those of the fold; the page fails exactly when the fold raised |
| Listing.ResolveCities | contacts/views.py:42-45 | the loop asks each city once and computes exactly the fold; without a failure every city is asked |
| Forms.InitialFor | contacts/forms.py:34-40 | a new form starts with "+48"; an edited number starting with "+48" shows the code apart and the rest stripped; any other number is shown as stored |
| Forms.InitForm | contacts/forms.py:27-40 | seeds the missing default statuses and sets the initial values |
| Forms.PhoneOf | contacts/forms.py:44 | the number is the posted value stripped, or empty when there is none |
| Forms.Clean | contacts/forms.py:42-54 | a non-empty number without exactly nine digits is rejected with the message; a valid one is saved as code plus number; an empty one is left alone |
| Forms.SavedPhoneIsShownAsTyped | contacts/forms.py:34-52 | a number accepted with "+48" and then edited is shown as the code and the number as typed, stripped |
| Serializers.Validate | contacts/serializers.py:19-28 | on create, rejected exactly when phone or email is missing, with an error for each missing one; on update always accepted; accepted data is unchanged |
| Serializers.Represent | contacts/serializers.py:9-17 | the output has exactly the first and last name, city, status by name and creation time of the contact, and never the phone or the email |
| Serializers.WriteOnlyFieldsAreHidden | contacts/serializers.py:11-12 | changing the phone or the email does not change the output |
| Client.CheckPhone | static/app.js:34-51 | empty after JavaScript's trim means required; no digits means the digits message; otherwise accepted exactly when the value has nine digits |
| Client.BrowserAgreesWithServer | static/app.js:41-50 | with ASCII digits on both sides, for a number the server does not read as empty, the browser accepts exactly when the server-side form adds no phone error, although the two trims differ |
| Client.OnSubmit | static/app.js:16-58 | a form without "needs-validation" is untouched; otherwise submission is stopped exactly when the email or the phone is rejected, and each present input is marked with the right message |

## Left out

- Reading the uploaded file: decoding, the UTF-8-with-BOM fallback and CSV tokenising are not modelled. The import starts from rows as maps from column to cell.
- HTTP, JSON and floats: the geocoding and forecast services are function parameters. URLs, query parameters, headers and timeouts are not modelled, and coordinates are reals.
- Time: each service call sees one `now`. The cache backend's eviction and its sharing between processes are left out.
- Unicode: `lower`, `isdigit`, JavaScript's `\D` and the database's `icontains` are modelled on ASCII only. The whitespace of `strip` and `trim` follows the current Unicode space separators; an older runtime's table may differ.
- Text order: names are ordered by character code (`Strings.LexLe`), which is SQLite's default BINARY collation. The source does not choose a collation, and another database could order names differently.
- The ORM: row ids, `max_length` limits, email format checks and `select_related` are left out. The foreign key holds the status name, which is unique. `created_at` is a logical clock.
- Transactions: each import row is committed on its own, as with autocommit. Concurrent requests are not modelled.
- The create, edit and delete views, and also the API views, URLs, admin, templates, flash messages and the command's output text. Only the command's final warning is modelled, as a flag.
- The form's other validation is not modelled: the field-level checks before `clean`, such as required fields, and the model validation and uniqueness check that run after it, on the "+48"-prefixed number `clean` produced. `Forms.Clean` starts from the fields' cleaned values.
- The serializer's `id` field and its status lookup by slug are left out.
- The browser: the email input's `checkValidity()` is an input flag, and the DOM feedback elements are not modelled.
- `ContactStatus.__str__` is left out; it returns the name unchanged.
- `Client.BrowserAgreesWithServer`: holds only because both sides read digits as ASCII '0'..'9'. Python's `isdigit` also accepts other decimal digits, such as the full-width "１２３４５６７８９", which the form accepts and saves while the browser's `\D` strips them and rejects the value with "Phone number must contain only digits."; the model does not capture this disagreement.
- `Listing.SortContacts`: contacts with equal sort keys keep their insertion order. The database does not promise any order for ties, so this is stronger than the source.
- `Listing.ContactList`: an exception from the weather service is modelled as a `Failed` page. The source lets the exception propagate.
- `Listing.Filter`: states which contacts are kept and that none is repeated, but not that their relative order is kept. Sorting follows, so that order is never observed.
