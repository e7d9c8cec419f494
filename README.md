# TV show browser: a verified model of its logic

The page lists the shows of a TV catalogue, lets the user narrow the list
with a search box and pick a show from a dropdown, and then lists that
show's episodes, again with a search box, a dropdown and a match count
("Displaying k/n episodes."). The show list and each show's episode list are
fetched once and kept in a cache.

This project models that logic in Dafny:

- `Text`, `Decimal`, `Format`: ASCII `toLowerCase`, `trim` and `includes`;
  `Number.prototype.toString`; `pad`, the `SxxEyy` episode code and the count
  label. Each of the last three has a decoder, and round-trip lemmas prove
  that the decoder reads back the numbers the string was built from.
- `Catalog`, `Search`: the show and episode records and the two search filters.
  The filters are order-preserving `filter`s over a normalised term.
- `ShowOrder`: the name order `loadShows` sorts the catalogue into.
- `Dropdown`: the option lists of the two dropdowns, and the `forEach` loops
  that fill them, as methods over a `Select` object.
- `ShowControls`, `EpisodeControls`, `Controls`: the controls `setup` builds.
  They are classes whose methods are the event handlers, and the episode
  controls form a state machine with an object invariant.
- `FetchCache`: the `cache` object with `loadShows` and `loadEpisodesForShow`.
  Each `fetch` is an input, `Fetched(data)` or `FetchFailed`. Each call
  returns the requests it actually issued.

Behaviour worth knowing, as the code has it:

- The dropdown reports a pick only when its value changes. Editing the search
  box resets it to the default option, so the default can only be picked
  away from an episode. By then the search box is empty, and the page shows
  the full episode list.
- Picking an episode empties the search box. Editing the search box resets the
  dropdown to its default option.
- The episode dropdown is filled once, from the full list, so a picked index
  always lies inside the full list.
- The show search looks at show names only.
- A failed fetch writes nothing to the cache, so the next attempt fetches again.

## Model

| member | source | states |
|---|---|---|
| `Text.Lower` | script.js:135 | lower-casing keeps the length and lower-cases each ASCII letter in place |
| `Text.TrimSpec` | script.js:135 | the trimmed term is what is left of the input once a white-space prefix and a white-space suffix are removed; it has no white space at either end, and it is empty exactly when the input is all white space |
| `Text.ContainsIff` | script.js:138 | `includes` holds exactly when the term occurs at some position of the text (both directions) |
| `Decimal.Digits` | script.js:8 | the decimal form of a natural number is a non-empty digit string with no leading zero, two or more digits exactly from 10 up |
| `Decimal.ParseToString` | script.js:8 | reading back what `toString` prints gives the number |
| `Decimal.ToStringInjective` | script.js:8 | two different integers never print alike |
| `Format.PadDenotes` | script.js:7-9 | `pad(n)` reads back as `n` |
| `Format.PadChars` | script.js:7-9 | `pad(n)` holds only digits and minus signs, and only digits when `n` is not negative |
| `Format.PadSpec` | script.js:7-9 | `pad(n)` is "0" followed by the digit for 0 to 9 and `n`'s own decimal form otherwise; it has at least two characters and denotes `n` |
| `Format.EpisodeCodeRoundTrip` | script.js:33 | the code `S{pad(season)}E{pad(number)}` decodes to that season and number |
| `Format.EpisodeCodeInjective` | script.js:188-190 | different (season, number) pairs never get the same code |
| `Format.CountLabelRoundTrip` | script.js:211 | the label `Displaying k/n episodes.` decodes to `k` and `n` |
| `Format.CountLabelInjective` | script.js:211 | a count label determines both counts |
| `Search.Filter` | script.js:137-139 | `filter` never returns more elements than it is given |
| `Search.FilterSpec` | script.js:137-139 | `filter` keeps order, keeps exactly the elements passing the test, and keeps every copy of each |
| `Search.FilterIdempotent` | script.js:217-221 | filtering twice by one test equals filtering once |
| `Search.NormalizeBlank` | script.js:135 | the lower-cased, trimmed term is empty exactly when the query is all white space |
| `Search.FilterShowsSpec` | script.js:134-139 | the show search returns, in order, exactly the shows whose lower-cased name contains the term |
| `Search.BlankQueryKeepsShows` | script.js:135-139 | an empty or all-white-space query returns every show |
| `Search.FilterShowsIdempotent` | script.js:137-139 | re-running the show search on its own result changes nothing |
| `Search.FilterEpisodesSpec` | script.js:216-221 | the episode search returns, in order, exactly the episodes whose name, or whose summary when present, contains the term |
| `Search.BlankQueryKeepsEpisodes` | script.js:216-221 | an empty or all-white-space query returns every episode |
| `Search.FilterEpisodesIdempotent` | script.js:217-221 | re-running the episode search on its own result changes nothing |
| `ShowOrder.SortByNameSpec` | script.js:252-254 | the sorted show list holds the same shows, each as often, in order of lower-cased name |
| `Dropdown.Options` | script.js:114-127 | a populated dropdown has one option more than there are items, and the first is the default option with an empty value |
| `Dropdown.OptionAt` | script.js:122-127 | option `i + 1` of a populated dropdown is the entry built from item `i` and its index `i` |
| `Dropdown.ShowOptionsLayout` | script.js:114-127 | the show dropdown is the default option, then option `i + 1` for show `i`, valued by its id and labelled with its name |
| `Dropdown.EpisodeOptionsLayout` | script.js:177-192 | the episode dropdown is the default option, then option `i + 1` for episode `i`, valued by `i` and labelled with its code and name |
| `Dropdown.EpisodeChoiceInRange` | script.js:185-195 | any option picked from the episode dropdown has the default value or an index into the full list |
| `Dropdown.PopulateShowSelect` | script.js:114-128 | the loop leaves exactly the option list `ShowOptions(shows)` in the dropdown |
| `Dropdown.PopulateEpisodeSelect` | script.js:177-193 | the loop leaves exactly the option list `EpisodeOptions(episodes)` in the dropdown |
| `ShowControls.ShowPanel.constructor` | script.js:106-131 | new show controls have an empty search and list every show |
| `ShowControls.ShowPanel.Search` | script.js:134-142 | a show search edit refills the dropdown with exactly the matching shows |
| `ShowControls.ShowPanel.Choose` | script.js:145-153 | the default option clears the page; option `k` loads the episodes of show `k - 1` of the search result, which is a matching show of the full list |
| `EpisodeControls.EpisodeView.constructor` | script.js:158-239 | new episode controls have an empty search, no pick, every episode shown and the dropdown filled from the full list |
| `EpisodeControls.EpisodeView.UpdateDisplay` | script.js:209-212 | the page shows the given list and the count compares its length with the full list |
| `EpisodeControls.EpisodeView.Search` | script.js:215-224 | a search edit shows the filtered list and resets the dropdown to its default option |
| `EpisodeControls.EpisodeView.Choose` | script.js:227-236 | for a pick that changes the dropdown's value: the default option shows the full list with the search box already empty; option `k` shows exactly `[episodes[k - 1]]` and empties the search box |
| `EpisodeControls.ShownWithinTotal` | script.js:209-211 | in every reachable state the page shows at most the full count, and the label decodes to the shown and full counts |
| `EpisodeControls.SearchThenPick` | script.js:215-236 | after a search, picking an episode shows it alone with an empty search box and a count of 1 out of all |
| `EpisodeControls.SearchPickThenDefault` | script.js:215-236 | after a search and an episode pick, the default option brings back the full list with an empty search box and a full count |
| `EpisodeControls.PickThenPickAnother` | script.js:227-236 | picking one episode and then another shows only the second, counted as 1 out of all |
| `Controls.Setup` | script.js:78-245 | the show controls are always built; the episode controls are built, in their initial state, exactly when a non-empty episode list is given |
| `FetchCache.Cache.constructor` | script.js:2-5 | the cache starts with no show list and no episode lists |
| `FetchCache.Cache.LoadShows` | script.js:247-257 | a cached list is returned without a request; a failed fetch throws and writes nothing; a successful one is sorted, cached and returned |
| `FetchCache.Cache.LoadEpisodesForShow` | script.js:258-279 | a hit uses the stored list without requesting it; a miss requests the episodes first, then the show list only if it is not cached; a failed episode fetch writes nothing, a successful one is cached under the show id; any failure leaves the show list as it was; stored entries never change |
| `FetchCache.LoadTwice` | script.js:259-263 | a second load of the same show issues no request and shows the same lists as the first |
| `FetchCache.RetryAfterFailure` | script.js:265-278 | after a failed load, the next load of the show requests its episodes again and shows them on success |

## Left out

- Rendering: the episode cards, the messages, the inline styles, and removing and re-inserting the controls. The page content is modelled only as the list of episodes shown, the count text and the `Outcome` of a load.
- The network: `fetch`, the HTTP status beyond ok or not ok, and `response.json()`. Each response is a `Fetched(data)` or `FetchFailed` input.
- `async`/`await` ordering and the `window.onload` handler. Each load runs to completion before the next event, as the model's method calls do. Like the code, the model has no de-duplication of requests in flight and no guard against a late response for a show the user has left.
- The user-visible text of the two error messages. A failed episode load is the outcome `LoadError`, and a rejected promise carries the thrown message.
- Locale collation: `localeCompare` is modelled as character-code order on the lower-cased names.
- Unicode: `toLowerCase` folds ASCII letters only, and `trim` removes ASCII white space only.
- Option values and cache keys: they are strings in the page; here they are the numbers they are written from, show ids and episode indices.
- An episode without a number (`null`): `pad(null)` would throw. Seasons and numbers are integers here.
- Decimal.ToString: prints the full decimal form of an unbounded integer. JavaScript numbers are doubles: `toString` switches to exponent form from 1e21 up, and integers above 2^53 are not exact, so the model matches the page only for seasons and numbers of magnitude below 2^53.
- Summaries: the search runs over the raw summary text, markup included, as the code does. How that text is rendered is not modelled.
- `ShowOrder.SortByNameSpec`: states order and permutation but not stability (shows with equal names keep their fetched order), which the insertion order gives but no lemma states.
