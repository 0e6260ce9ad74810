# Weather compare app: session controller and lookup normaliser

A Dafny model of the logic in the weather lookup and comparison widget
(`weather-compare-app/src/App.jsx`). The widget lets a user look up one
city's current weather, put two cities side by side, and keep a list of
favorite cities in the browser's local storage.

Three modules follow the two parts of that file:

- `Lookup` (`lookup.dfy`) — how `fetchLiveWeather` turns the combined
  outcome of its geocoding call and its current-weather call into the
  display record. The outcome is the datatype
  `NotFound | Found(resolvedName, temperature, windspeed) | Failed`;
  `Normalise` maps it to `WeatherRecord(name, temp, humidity, description)`.
  The `"--"` marker is the constructor `Placeholder` of `Reading`, so it can
  never be confused with a measured number. `Recover` reads the outcome back
  from a record, and `RecoverNormalise` proves that nothing is lost: the
  "City not found" and "Error fetching weather" records stay distinguishable,
  and a successful lookup is recognisable by its measured temperature.
- `Favorites` (`favorites.dfy`) — the two new lists the handlers build:
  `Added` (`[...favorites, city]` behind the guard of `saveFavorite`) and
  `Without` (`favorites.filter(f => f !== cityName)`), with lemmas about
  membership, multiplicity, order, duplicate-freeness, idempotence and
  remove-after-save.
- `Session` (`session.dfy`) — the component's state as the class
  `Controller` (`city`, `weather`, `left`, `right`, `toggle`, `favorites`,
  and a ghost `persisted` for the local-storage entry) and the handlers
  `Search`, `Compare`, `SaveFavorite` and `RemoveFavorite` as methods with
  `modifies this`. The awaited lookup is a parameter: each handler receives
  the `Outcome` of the lookup for the current city and normalises it with
  `Normalise`, so a handler runs as one atomic step.
  `ModesExclusive` (a single result and a filled comparison slot are never
  shown together) holds after construction and is kept by every handler.

The model follows the code at three points that are easy to misread:

- Only the empty string is a no-op input for search, compare and save
  (`!city` at App.jsx lines 67, 79 and 94); a whitespace-only name goes ahead.
- The start-up load is `JSON.parse(localStorage.getItem("favorites")) || []`:
  a missing entry gives `[]`, but an entry that is not valid JSON throws
  rather than giving `[]`. The model covers the missing and the present entry.
- The stored list is not checked for duplicates when loaded, so
  duplicate-freeness is stated as preserved by each handler, not as an
  invariant of every session.

## Model

| member | source | states |
|---|---|---|
| Lookup.Normalise | weather-compare-app/src/App.jsx:17-63 | Humidity is always the placeholder; the temperature is the placeholder exactly when the lookup did not succeed; not-found gives the input name with "City not found"; a failure gives the input name with "Error fetching weather"; success gives the geocoder's name, the fetched temperature and "Wind <speed> km/h" |
| Lookup.WindTextRoundTrip | weather-compare-app/src/App.jsx:51 | The wind speed can be read back out of the "Wind <speed> km/h" condition text |
| Lookup.RecoverNormalise | weather-compare-app/src/App.jsx:25-61 | The outcome of a lookup can always be recovered from the record it produced, so the two failure texts and the success record are all distinguishable |
| Lookup.NormaliseInjective | weather-compare-app/src/App.jsx:25-61 | Two different outcomes for the same city never yield the same record |
| Favorites.Added | weather-compare-app/src/App.jsx:94-95 | The list after saving: either unchanged or the old list with the name appended at the end, the old entries always kept in order as a prefix, and a non-empty name always present afterwards |
| Favorites.Without | weather-compare-app/src/App.jsx:101 | The filtered list never contains the removed name and is no longer than the list; its full meaning (who stays, with what multiplicity, in what order) is stated by WithoutMembership, WithoutMultiset and WithoutConcat |
| Favorites.WithoutMembership | weather-compare-app/src/App.jsx:101 | A name is in the filtered list exactly when it was in the list and differs from the removed name |
| Favorites.WithoutMultiset | weather-compare-app/src/App.jsx:101 | Filtering drops every copy of the removed name and keeps every other entry with its multiplicity |
| Favorites.WithoutConcat | weather-compare-app/src/App.jsx:101 | Filtering a concatenation filters each part, so the relative order of the remaining entries is kept |
| Favorites.WithoutAbsent | weather-compare-app/src/App.jsx:101 | Removing a name that is not in the list leaves it unchanged |
| Favorites.WithoutIdempotent | weather-compare-app/src/App.jsx:101 | Removing the same name twice is the same as removing it once |
| Favorites.WithoutNoDuplicates | weather-compare-app/src/App.jsx:101 | Filtering a duplicate-free list gives a duplicate-free list |
| Favorites.AddedNoDuplicates | weather-compare-app/src/App.jsx:94-95 | Saving into a duplicate-free list gives a duplicate-free list |
| Favorites.AddedIdempotent | weather-compare-app/src/App.jsx:94-95 | A saved non-empty name is in the list, and saving it again changes nothing |
| Favorites.AddedTwiceOnce | weather-compare-app/src/App.jsx:94-95 | Saving a non-empty name twice leaves it in the list exactly once whenever it occurred at most once before, whatever other names repeat |
| Favorites.RemoveUndoesSave | weather-compare-app/src/App.jsx:93-104 | Removing a name that was just saved (and was not there before) restores the list as it was |
| Session.Load | weather-compare-app/src/App.jsx:12-14 | The initial favorites are the stored list, or the empty list when nothing is stored; with the writes of lines 97 and 103 this gives the storage round trip `Controller.Synced` (the stored entry, read back this way, is the list in memory), which the constructor establishes and every handler keeps |
| Session.Controller.constructor | weather-compare-app/src/App.jsx:5-14 | A new session has an empty input, no result, empty slots, the toggle at the left slot, the loaded favorites and the storage entry as it was |
| Session.Controller.SetCity | weather-compare-app/src/App.jsx:113 | Editing the input changes the city text and nothing else |
| Session.Controller.Search | weather-compare-app/src/App.jsx:66-75 | An empty input changes nothing; otherwise the looked-up record becomes the single result, both slots are cleared, the toggle points at the left slot, and the modes stay exclusive |
| Session.Controller.Compare | weather-compare-app/src/App.jsx:78-91 | An empty input changes nothing; otherwise the single result is cleared, the record goes into the left slot if the toggle is set and into the right slot if not, the other slot is kept, the toggle flips, and the modes stay exclusive |
| Session.Controller.SaveFavorite | weather-compare-app/src/App.jsx:93-98 | An empty or already saved name changes nothing, storage included; otherwise the name is appended at the end and storage holds the new list; duplicate-freeness and the storage round trip are kept |
| Session.Controller.RemoveFavorite | weather-compare-app/src/App.jsx:100-104 | The list becomes the filtered list: the name is gone, every other entry stays with its multiplicity, an absent name changes nothing, duplicate-freeness is kept, and storage holds the new list, so reloading it gives the list in memory |
| Session.CompareThrice | weather-compare-app/src/App.jsx:84-90 | Starting at the left slot, three compares of three inputs fill left with the first, right with the second, then overwrite left with the third; favorites and storage are untouched |

## Left out

- The two `fetch` calls, URL building and JSON decoding (App.jsx lines 20-23 and 36-39) are network I/O; their combined result is the parameter `Outcome`.
- A geocoding match without a `name` field, or other malformed answers that do not throw, are not modelled; every throwing path is the single `Failed` outcome.
- Temperatures and wind speeds are floating-point numbers in the application; the model keeps them opaque, as the text the application renders for them.
- The display record nests its fields (`main.temp`, `main.humidity`, `weather[0].description`); the model flattens them into one datatype.
- Local storage is the ghost field `persisted`; the JSON encoding of the stored list is not modelled (the entry holds the list itself), and an entry holding invalid JSON, which makes the start-up load throw, is not modelled.
- Storage writes are assumed to succeed; a throwing `localStorage.setItem` (App.jsx lines 97 and 103, for example with storage full) would leave the stored entry behind the in-memory list, which the model's `persisted == Some(favorites)` does not capture.
- Overlapping asynchronous handlers (a later lookup finishing first, with the last write winning) are concurrency and are not modelled: each handler is one atomic step over the current state.
- Rendering, styling and `weather-compare-app/src/components/WeatherCard.jsx`, which only displays a record's fields, are not modelled.
- The `console.error` diagnostic in the error path (App.jsx line 56) is logging and is not modelled.
