# react-sw-demo core, modelled in Dafny

react-sw-demo shows Star Wars characters from the SWAPI people endpoint in a
table. The table has a name filter and a "power" column (height × mass ×
multiplier). Under the user interface sits a small sequential layer, and this
project models that layer:

- **Loader** (`loader.dfy`). `readAllPagesFromPeopleApi` requests pages 1, 2, 3, …
  one at a time.
  - Each successful page's people are transformed and handed to
    `onNewDataCallback`.
  - A 404 `ApiError` ends the loop silently.
  - Every other error goes to `onErrorCallback`.
  - The loop also stops after a page whose `next` is null, or once the page
    number passes `pageLimit`.
  - `Run`/`LoadAll` define the run recursively. The method `LoadPages` is the
    loop itself, proved equal to `LoadAll`. `ReadAllPagesFromPeopleApi` runs
    that loop over the mock or the people endpoint, as `useMockApi` selects.
- **Page sources.**
  - The people endpoint (`people_api.dfy`): host table, URL, and an `ApiError`
    for a response that is not ok.
  - The mock endpoint (`mocks.dfy`): nine fixture pages, and a 404 for every
    other page.
- **`ApiError`** (`api_error.dfy`): an immutable record, the derived
  `isNotFound`, and the formatted message.
- **Record transform** (`person.dfy`, `conversion.dfy`).
  - Height and mass: every "," is stripped, then the value is parsed as a
    number (NaN becomes absent).
  - The three colour fields are split on ", ".
  - `birth_year` is renamed; everything else passes through.
- **Localization** (`localization.dfy`): the per-locale string tables, the
  fallback defaults, and `makeUIStringLookup`.
- **The React table's rows** (`person_table.dfy`): one row per person, in data
  order, with a case-insensitive name filter.
- **The plain-TypeScript app** (`vanilla_app.dfy`): a class holding the app
  state and its setters, plus the id and filter helpers.

The helper modules are:

- `wrappers.dfy`: `Option` and `Result`.
- `sequences.dfy`: two facts about sequence concatenation.
- `text.dfy`: substring search, `split`/`join`, ASCII lower-casing, removing a
  character, and decimal text of integers.
- `swapi_model.dfy`: the record shapes.

After a failure that is not a 404, the loop does not move on to the next page:
`page += 1` runs only after a successful fetch, so the same page is requested
again. `PageAfter` keeps the page after an error, and `RunAttempts` states it.
As a result, a source that keeps failing keeps the loop running for ever. The
model therefore bounds the number of fetch attempts by `fuel`. When that bound,
and not the loop, ends a run, the stop reason is `OutOfFuel`.

## Model

| member | source | states |
|---|---|---|
| RestError.NewApiError | src/services/rest/error.ts:13-21 | The error keeps the response, its status and status text. `isNotFound` holds iff the status is 404. The message is "API Error with status " + status + ": " + statusText. |
| RestError.MessageDeterminesStatus | src/services/rest/error.ts:15-16 | Two errors with the same status text and the same message have the same status. |
| Conversion.SplitCommaSeparatedList | src/utility/conversion.ts:1 | The default separator is ", ". A non-empty separator gives at least one item. An input without the separator gives `[input]`. |
| Conversion.SplitCommaSeparatedListRoundTrip | src/utility/conversion.ts:1 | Joining the items with the separator gives back the input. |
| Conversion.SplitCommaSeparatedListItems | src/utility/conversion.ts:1 | With a non-empty separator, no item contains the separator. |
| Conversion.ConvertToNumber | src/utility/conversion.ts:3-6 | The result is the parse of the input with every "," removed. NaN is `None`, so no NaN is returned. |
| Conversion.ConvertToNumberSkipsWhiteSpace | src/utility/conversion.ts:4 | Any JavaScript white space before the text of a whole number (a no-break space or a vertical tab, for example) is skipped, and the number is read. |
| Conversion.ParseFloatOfNatToString | src/utility/conversion.ts:4 | Parsing the decimal text of a natural number gives that number. |
| Conversion.ConvertToNumberOfNatToString | src/utility/conversion.ts:3-6 | Converting the text of a whole number gives the number back. |
| Conversion.ConvertToNumberOfWord | src/utility/conversion.ts:3-6 | A description that starts with a lower-case letter converts to `None`. |
| Conversion.ConvertToNumberOfGroupedNumber | src/utility/conversion.ts:4 | "1,358" converts to 1358. |
| Conversion.ConvertToNumberOfUnknown | src/utility/conversion.ts:5 | "unknown" converts to `None`. |
| Conversion.ConvertToNumberOfPlainNumber | src/utility/conversion.ts:4 | "172" converts to 172. |
| Person.TransformPersonResponse | src/model/StarWarsPerson.ts:21-40 | Height and mass are the converted raw strings. Each of the three colour lists is the ", " split of its raw field, so it is non-empty and joins back to that field. `birthYear` is `birth_year`. Name and every other field pass through. The function is total. |
| Person.TransformAll | src/utility/readAllPagesFromPeopleApi.ts:38-40 | One person per record, same length, same order, each transformed. |
| Person.ColorItemsAreSeparated | src/model/StarWarsPerson.ts:34-36 | No item of the hair, skin or eye colour list contains ", ". |
| Person.TransformExample | src/model/StarWarsPerson.ts:32-33 | A height of "172" becomes 172. A mass of "unknown" becomes absent. |
| Person.SplitColorExample | src/utility/conversion.ts:1 | "blond, grey" splits into ["blond", "grey"]. |
| PeopleApi.SwapiHost | src/services/rest/swapi/constants.ts:3-10 | Every environment's host is "https://swapi.dev". |
| PeopleApi.RequestedPage | src/services/rest/swapi/api/people.ts:20 | The page defaults to 1 when the options or their page are left out. Otherwise it is the given page. |
| PeopleApi.PeopleUrlShape | src/services/rest/swapi/api/people.ts:21 | The URL does not depend on the environment. Different pages have different URLs. |
| PeopleApi.Read | src/services/rest/swapi/api/people.ts:16-28 | A rejected fetch passes its error on. A response that is not ok throws the `ApiError` built from it. An ok response returns its parsed page. |
| PeopleApi.People | src/services/rest/swapi/api/people.ts:30-32 | `people(env).read(o)` is `read(env, o)`. |
| PeopleApi.ReadNotFound | src/services/rest/swapi/api/people.ts:24-26 | A 404 response reaches the caller as an end-of-stream `ApiError`. |
| Mocks.Responses | src/test/common/mocks.ts:15-25 | The table has entries for exactly pages 1 to 9. Page p holds fixture p. |
| Mocks.BuildMockResponseFor | src/test/common/mocks.ts:27-41 | The response is ok iff the page has an entry. Status is 200 "OK" when ok and 404 "NOT FOUND" otherwise. An ok response carries the fixture unchanged. The URL is the Dev people URL of the page. |
| Mocks.MockApiCall | src/test/common/mocks.ts:51-61 | Pages 1 to 9 return their fixture. Every other page throws an `ApiError` with status 404, which is the end of the stream. |
| Loader.MockSource | src/utility/readAllPagesFromPeopleApi.ts:35-36 | Every attempt at a page is `mockApiCall({ page })`. |
| Loader.SelectedSource | src/utility/readAllPagesFromPeopleApi.ts:35-37 | `useMockApi` selects the mock. Otherwise each attempt is `read(env, { page })` over the network. |
| Loader.RunStep | src/utility/readAllPagesFromPeopleApi.ts:33-50 | One turn of the loop covers three outcomes. A 404 ends the run. A success delivers its page and moves to the next page. Any other error is reported and keeps the page. |
| Loader.RunAttempts | src/utility/readAllPagesFromPeopleApi.ts:31-49 | The first attempt is of the starting page. Each later page is one more after a success and the same after an error. Every page is within `pageLimit`. Each outcome is the source's answer to that attempt. There are at most `fuel` attempts. |
| Loader.RunCallbacks | src/utility/readAllPagesFromPeopleApi.ts:38-49 | `onNewDataCallback` receives exactly each successful page's transformed people, in order, and never a cumulative list. `onErrorCallback` receives exactly the non-404 errors, in order. A missing callback is never called. |
| Loader.RunSuccessPages | src/utility/readAllPagesFromPeopleApi.ts:31-43 | The successfully fetched pages are consecutive from the starting page. |
| Loader.RunContinues | src/utility/readAllPagesFromPeopleApi.ts:33-49 | Every attempt but the last is either a page with a `next` or an error other than a 404. |
| Loader.RunStopByOutcome | src/utility/readAllPagesFromPeopleApi.ts:42-48 | The run ends with `EndOfStream` iff the last attempt threw a 404. `Done` means the last page's `next` was null. |
| Loader.RunStopByBound | src/utility/readAllPagesFromPeopleApi.ts:33 | `LimitReached` means the next page is past the limit. `OutOfFuel` means all `fuel` attempts were used. In both cases the last attempt let the loop go on. |
| Loader.RunStop | src/utility/readAllPagesFromPeopleApi.ts:33-48 | The run ends with `EndOfStream` iff the last attempt threw a 404. `Done` means the last page's `next` was null. `LimitReached` means the next page is past the limit. `OutOfFuel` means all `fuel` attempts were used. |
| Loader.CallbacksDoNotSteer | src/utility/readAllPagesFromPeopleApi.ts:41-49 | With the same page limit, the callbacks change neither the pages fetched nor how the loop ends. |
| Loader.MockServesNinePages | src/test/common/mocks.ts:51-61 | The mock serves pages 1 to 9 and throws a 404 for page 10. All it ever throws is a 404. |
| Loader.RunNoErrors | src/utility/readAllPagesFromPeopleApi.ts:44-49 | Over a source whose only failures are 404s, `onErrorCallback` is never called. |
| Loader.RunServedPages | src/utility/readAllPagesFromPeopleApi.ts:31-43 | Over a source serving pages 1 to `last`, the pages asked for are consecutive and none is past `last` + 1. |
| Loader.RunServedEnds | src/utility/readAllPagesFromPeopleApi.ts:33-48 | Over such a source, the loop ends by itself within the attempts needed to reach page `last` + 1. |
| Loader.MockLoadAll | src/utility/readAllPagesFromPeopleApi.ts:31-51 | Driven by the mock, the loader asks for pages 1, 2, 3, … and never past page 10. It reports no error. Ten attempts always suffice for it to end. |
| Loader.LoadAllProperties | src/utility/readAllPagesFromPeopleApi.ts:29-51 | The whole run starts at page 1 and never passes the limit (none by default). Successful pages are 1, 2, 3, … in order. The callbacks receive exactly the transformed pages and the non-404 errors. |
| Loader.LoadPages | src/utility/readAllPagesFromPeopleApi.ts:31-51 | The loop's attempts, callback calls and stop reason are exactly those of `LoadAll`, so every property above holds of it. |
| Loader.ReadAllPagesFromPeopleApi | src/utility/readAllPagesFromPeopleApi.ts:16-52 | The whole call is the loop over the source that `useMockApi` selects: the mock, or `read(env, { page })` over the network. |
| Localization.SetupLocale | src/localization/utility.ts:16-19 | `locale` defaults to EnglishUS. |
| Localization.SetupDefaultLocale | src/localization/utility.ts:16-19 | `defaultLocale` defaults to EnglishUS. |
| Localization.MakeUIStringLookup | src/localization/utility.ts:13-24 | The lookup is total. For every key it gives the locale's value if its table has one, and the fallback default otherwise. |
| Localization.EveryLocaleHasTable | src/localization/constants.ts:3-21 | Every locale has a table, so the default locale's table is never read. |
| Localization.DefaultLocaleIgnored | src/localization/utility.ts:20-23 | Changing the default locale changes no lookup. |
| Localization.NoSetupIsEnglishUS | src/localization/utility.ts:15-19 | With no setup, the lookup is the EnglishUS one. |
| Localization.EnglishFallsBack | src/localization/constants.ts:4-5 | Both English locales give the fallback default for every key. |
| Localization.SpanishCoverage | src/localization/constants.ts:6-20 | The SpanishUS table has every key except `incalculable`. |
| Localization.SpanishTranslates | src/localization/constants.ts:6-20 | For each of those keys, the SpanishUS lookup is the table's value, which differs from the fallback. |
| Localization.IncalculableEverywhere | src/localization/constants.ts:23-38 | `incalculable` is "-" in every locale. |
| PersonTable.AllRows | src/components/StarWarsPersonTable.tsx:27-38 | One row per person, in data order. Row i is keyed i and carries that person, its name and the multiplier. |
| PersonTable.FilterRows | src/components/StarWarsPersonTable.tsx:39-44 | The filter keeps no more rows than it is given. |
| PersonTable.Elements | src/components/StarWarsPersonTable.tsx:43 | The elements are the rows' elements, in order. |
| PersonTable.RenderTable | src/components/StarWarsPersonTable.tsx:14-59 | Nothing is rendered iff there is no data. The header is the four column texts. The body has no more rows than there are people. |
| PersonTable.FilterKeepsIff | src/components/StarWarsPersonTable.tsx:40-42 | A row is kept iff it is one of the rows and its lower-cased name contains the lower-cased filter (any name when the filter is absent or empty). |
| PersonTable.FilterKeepsOrder | src/components/StarWarsPersonTable.tsx:40-43 | Filtering keeps the relative order of the rows. |
| PersonTable.NoFilterKeepsAll | src/components/StarWarsPersonTable.tsx:41 | An absent or empty filter keeps every row. |
| PersonTable.FilterAppend | src/components/StarWarsPersonTable.tsx:40-42 | Filtering a concatenation filters each part, so the kept rows are a subsequence of the rows. |
| PersonTable.RenderTableBody | src/components/StarWarsPersonTable.tsx:39-44 | The body is the elements of the filtered rows. |
| PersonTable.RenderTableRowsKept | src/components/StarWarsPersonTable.tsx:14-44 | Each body row is the row of a person whose name the filter keeps, with the given multiplier or 1. |
| PersonTable.RenderTableRowsInOrder | src/components/StarWarsPersonTable.tsx:27-44 | Body rows follow the data order. |
| PersonTable.RenderTableRowsComplete | src/components/StarWarsPersonTable.tsx:27-44 | Every person whose name the filter keeps has a row in the body. |
| PersonTable.RenderTableUnfiltered | src/components/StarWarsPersonTable.tsx:41 | With no filter, the body is every person's row, in data order. |
| PersonTable.FilterIgnoresCase | src/components/StarWarsPersonTable.tsx:41 | The filter "LUKE" keeps "Luke Skywalker". |
| VanillaApp.ColValue | src/challenge-1-vanilla.ts:10-15 | Every column id suffix starts "col-". |
| VanillaApp.ColValueInjective | src/challenge-1-vanilla.ts:10-15 | Different columns have different suffixes. |
| VanillaApp.Standardized | src/challenge-1-vanilla.ts:329 | Standardizing keeps the length. |
| VanillaApp.StandardizedChars | src/challenge-1-vanilla.ts:329 | Each character is lower-cased, except that the first " " (only that one) becomes "-". |
| VanillaApp.StandardizedHead | src/challenge-1-vanilla.ts:329 | A value not starting with a space keeps its first character, lower-cased. |
| VanillaApp.StandardizedIgnoresCase | src/challenge-1-vanilla.ts:329 | Standardizing ignores case. |
| VanillaApp.ToId | src/challenge-1-vanilla.ts:331 | An id is "v-" followed by a string as long as the value. |
| VanillaApp.ColIdInjective | src/challenge-1-vanilla.ts:333 | Cell ids are unique: equal ids mean the same row id and the same column. |
| VanillaApp.App.constructor | src/challenge-1-vanilla.ts:52-57 | A new app is in the initial state: not loading, the default multiplier, empty filter, no data. |
| VanillaApp.App.Translate | src/challenge-1-vanilla.ts:88-89 | `translate` is the lookup for the app's locale. |
| VanillaApp.App.SetLoading | src/challenge-1-vanilla.ts:108-114 | Sets the loading flag and nothing else. |
| VanillaApp.App.RerenderTable | src/challenge-1-vanilla.ts:286-304 | Counts one re-render and changes no state. |
| VanillaApp.App.SetFilter | src/challenge-1-vanilla.ts:116-121 | Sets the filter. An unchanged filter re-renders nothing. A changed one re-renders once. Nothing else changes. |
| VanillaApp.App.SetMultiplier | src/challenge-1-vanilla.ts:123-128 | Sets the multiplier. An unchanged multiplier re-renders nothing. A changed one re-renders once. Nothing else changes. |
| VanillaApp.App.SetData | src/challenge-1-vanilla.ts:130-134 | The new people are appended to the data, or become the data when there is none. Nothing else changes. |
| VanillaApp.App.ResetState | src/challenge-1-vanilla.ts:379-384 | Restores the initial state, re-rendering once for each of filter and multiplier that changes. |
| VanillaApp.App.ShouldRender | src/challenge-1-vanilla.ts:308-312 | Everything is shown while the filter is empty, and so is an absent value. |
| VanillaApp.App.RowShown | src/challenge-1-vanilla.ts:224-228 | A row (filtered by its id, as written) is shown while the filter is empty. |
| VanillaApp.App.RowShownByName | src/challenge-1-vanilla.ts:224-228 | A row (filtered by its name) is shown while the filter is empty. |
| VanillaApp.App.GetPower | src/challenge-1-vanilla.ts:267-276 | Without both height and mass, the cell is the `incalculable` text "-". With both, it is their product times the multiplier. |
| VanillaApp.App.GetPowerOf | src/challenge-1-vanilla.ts:267-272 | A person without a height or a mass gets "-". |
| VanillaApp.RowShownIgnoresCase | src/challenge-1-vanilla.ts:226-227 | Filtering by row id ignores the case of the name. |
| VanillaApp.PrefixFilterShowsEveryRow | src/challenge-1-vanilla.ts:226-227 | As written, the filter "v" shows every row, whatever the name. |
| VanillaApp.NameFilterHidesNamesWithoutV | src/challenge-1-vanilla.ts:308-312 | Filtering by name, the filter "v" hides every name with no "v" or "V". |
| VanillaApp.RowShownByNameIff | src/challenge-1-vanilla.ts:308-312 | Filtering by name, a non-empty filter shows a name iff the standardized filter occurs in the standardized name. |

## Left out

- Loader.LoadPages: the number of fetch attempts is bounded by `fuel`. A source that fails for ever makes the real loop run for ever. The model reports `OutOfFuel` instead, and `RunStop` says when.
- Network I/O, `async`/`await`, the mock's `setTimeout` latency and its console logging are left out. Each awaited fetch is one call of a page source `(attempt, page) -> page or failure`. The network is a function from URL to response.
- `response.json()` is modelled as a page or nothing. The message of the error thrown for a body that is not a page is invented here (`MalformedBodyMessage`).
- Callbacks are recorded in the trace rather than run. A callback that throws would be caught and its page re-requested; that is not modelled.
- Conversion.ConvertToNumber: `Number.parseFloat` is modelled for plain decimal notation only: leading white space (ECMAScript's white space and line terminators), sign, digits, point, digits. Exponents, "Infinity" and the float rounding of the result are not modelled; values are exact reals.
- Text.ToLower: `toLowerCase` is modelled for ASCII letters only.
- The fixture pages' contents are not part of this model; the nine pages are a parameter.
- src/constants.ts is not part of this model. `DEFAULT_MULTIPLIER` is a parameter of the `App` constructor.
- VanillaApp.App.GetPower: the product is an exact real. Float arithmetic and `toLocaleString` formatting are not modelled.
- VanillaApp.App.SetData: the `increment` option only decides what `loadDataToTable` redraws, so it is not modelled; the data update is.
- VanillaApp.App.RerenderTable: only counts re-renders. The DOM walk, `lastStateRendered` and the per-row visibility and power updates are left out; `RowShown` is the visibility each row receives.
- The DOM work of the plain-TypeScript app is left out: `loadDataToTable`, `makeRow`, `emptyContentFrom`, listeners, `alert`, `init`, `getAllPeople`, `onError`, `describe` and the element getters. So are the `Number.parseInt` of the multiplier input and its NaN.
- React rendering, hooks and `useMemo` are left out; the table is modelled as the data it renders.
- `translate` is computed from the app's locale rather than stored as a closure, and `makeUIStringLookup` returns `None` where JavaScript would throw on an undefined table (which the lemmas show never happens).

## Findings

| source | as written | input that shows it | evidently intended | confidence | as-written member | corrected member |
|---|---|---|---|---|---|---|
| src/challenge-1-vanilla.ts:226-227 | The name filter is applied to the row id "v-" + standardized(name), so the prefix "v-" takes part in the match. | Filter "v" and name "Luke Skywalker": the row is shown, because its id "v-luke-skywalker" contains "v". | Filter on the name, so that "v" hides every name without a "v". | medium, not executed | VanillaApp.PrefixFilterShowsEveryRow | VanillaApp.NameFilterHidesNamesWithoutV |
