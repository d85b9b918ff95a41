# Docksnappy catalog front end: Dafny model

This project models the logic of the Docksnappy catalog front end, a React
page that lists container apps fetched from a catalog service. It covers three
pieces and proves properties of each:

- **Freshness cache** (`src/services/cache.ts`). One storage slot,
  `docker_apps_cache`, holds the catalog with the time it was written.
  `setApps` overwrites the slot. `getApps` returns the catalog while it is
  fresh, and removes the slot and returns `null` once more than 300000 ms
  (five minutes) have passed. `clearCache` removes the slot. Browser storage
  is a `map<string, CacheData>` and the clock is a `nat` argument in
  milliseconds (module `Cache`).
- **Catalog page** (`src/App.tsx`). The first part is the search filter: an
  app is kept when its lower-cased name or description contains the
  lower-cased search term, and catalog order is kept. The second part is the
  load effect `fetchApps`. It reads the cache first. On a hit it issues no
  request. On a miss it issues one request: a success is shown and cached,
  and any failure shows one error message and caches nothing. The request's
  result is an input value (module `App`). Lower-casing and `includes` are in
  module `Text`.
- **Deploy-configuration dialog** (`src/components/ConfigModal.tsx`). The
  configuration is seeded from the options' defaults. A later option with
  the same key overwrites an earlier one. Options without a default add
  nothing. The checkbox and text/number inputs each write one key.
  Submitting hands the current configuration to `onDeploy` once the
  browser's `required` check on the fields passes. Module
  `ConfigModal` models this as a state machine over dialog events.

`DockerApp` (`src/types.ts:1-10`) has no `configOptions` or `name` field,
although the dialog reads both. The model therefore gives the dialog its own
`ConfigOption` record: key, name, type string, optional default, required
flag and description. The dialog takes a sequence of these records.

## Model

| member | source | states |
|---|---|---|
| `Cache.SetApps` | src/services/cache.ts:12-18 | afterwards the slot holds the given catalog stamped with the current time, whatever it held before; every other storage key is unchanged |
| `Cache.GetApps` | src/services/cache.ts:20-33 | returns a catalog exactly when the slot is present and at most 300000 ms old, and the catalog returned is the stored one with storage untouched; after a `null` read the slot is absent; other keys are unchanged; an empty slot leaves storage as it was |
| `Cache.ClearCache` | src/services/cache.ts:35-37 | afterwards the slot is absent and every other key is unchanged |
| `Cache.SetThenGetFresh` | src/services/cache.ts:12-33 | round trip: a catalog written at t is read back unchanged at any t' with t' − t ≤ 300000, and the read leaves storage as the write left it |
| `Cache.ExpiryBoundary` | src/services/cache.ts:25-30 | expiry is strict (`>`): a read exactly 300000 ms after the write hits, and a read at 300001 ms misses and empties the slot |
| `Cache.SetThenGetStale` | src/services/cache.ts:25-30 | every read more than 300000 ms after the write returns `null` and leaves storage as `clearCache` would |
| `Cache.ClearThenGet` | src/services/cache.ts:35-37 | after `clearCache` a read returns `null` at any clock value and changes nothing |
| `Cache.OverwriteLastWins` | src/services/cache.ts:12-18 | after two writes, storage is as if only the second had happened |
| `Cache.FreshReadIdempotent` | src/services/cache.ts:20-33 | a read that hits does not modify storage, so every later read while the snapshot is still within the 300000 ms gives the same answer |
| `Cache.RunKeepsOtherKeys` | src/services/cache.ts:3-37 | no sequence of `setApps`/`getApps`/`clearCache` changes a storage key other than `docker_apps_cache` |
| `Cache.EmptySlotStaysEmpty` | src/services/cache.ts:21-22 | from an empty slot, every read in any sequence of reads and clears returns `null` at any clock values, and the slot stays empty |
| `Cache.EvictionIsSticky` | src/services/cache.ts:25-30 | a stale read evicts the slot, and every later read returns `null` until the next `setApps`, whatever the clock says |
| `Text.Lower` | src/App.tsx:50-51 | lower-casing keeps the length and maps each character on its own: `A`–`Z` to `a`–`z`, everything else unchanged |
| `Text.Includes` | src/App.tsx:50-51 | the left-to-right scan that models `includes` succeeds exactly when the term occurs at some position of the string |
| `App.Matches` | src/App.tsx:50-51 | the filter callback holds exactly when the lower-cased term occurs somewhere in the lower-cased name or somewhere in the lower-cased description |
| `App.FilterApps` | src/App.tsx:49-52 | the result is a subsequence of the catalog (order kept) and every kept app matches |
| `App.FilterCounts` | src/App.tsx:49-52 | a matching app occurs in the result as often as in the catalog, and a non-matching app not at all |
| `App.KeptIffMatches` | src/App.tsx:49-51 | an app is in the result iff it is in the catalog and its lower-cased name or description contains the lower-cased term |
| `App.FilterAppend` | src/App.tsx:49-52 | filtering a concatenation is the concatenation of the filtered parts, so relative order is preserved |
| `App.EmptyTermKeepsAll` | src/App.tsx:49-52 | an empty search term keeps the whole catalog in order |
| `App.FilterIdempotent` | src/App.tsx:49-52 | filtering the filtered list with the same term changes nothing |
| `App.MatchesNarrower` | src/App.tsx:50-51 | an app matching a term also matches every substring of that term, regardless of case |
| `App.FilterRefines` | src/App.tsx:49-52 | if t1 is a substring of t2, filtering the t1 result by t2 gives the t2 result |
| `App.FilterMonotone` | src/App.tsx:49-52 | if t1 is a substring of t2, the t2 result is a subsequence (so a subset) of the t1 result |
| `App.SearchExample` | src/App.tsx:49-52 | the match is case-insensitive on both sides: "RE" keeps both "Redis" and "Postgres" |
| `App.FetchApps` | src/App.tsx:17-43 | loading ends false on every path; no request iff the cache hits, otherwise exactly one; a hit shows the cached catalog, storage untouched; the error is set iff the cache missed and the response failed, and then the app list stays empty and nothing is cached; a successful miss shows the response and caches it stamped with the post-response clock; other storage keys are unchanged |
| `App.FetchedIsCached` | src/App.tsx:31-33 | after a successful fetch, the list shown and the catalog a read returns at the write time are the same data |
| `App.ReloadWithinTtlHits` | src/App.tsx:20-24 | a reload within 300000 ms of a successful load issues no request and shows the same catalog, whatever the network would answer |
| `App.FailureCachesNothing` | src/App.tsx:27-38 | after a failed load, the next load misses again and issues a request, at any clock value |
| `ConfigModal.InitialConfig` | src/components/ConfigModal.tsx:12-20 | key k is seeded iff some option with key k has a default; its value is the default of the last such option in list order |
| `ConfigModal.InitialKeysAreOptionKeys` | src/components/ConfigModal.tsx:12-20 | the seeded configuration holds only keys of the options |
| `ConfigModal.ToggleFlag` | src/components/ConfigModal.tsx:51-54 | the checkbox stores the checked state under the option's key; every other key keeps its value and no other key is added |
| `ConfigModal.EditValue` | src/components/ConfigModal.tsx:61-64 | a field edit stores the converted number for a "number" option and the raw text for any other type, under that option's key only |
| `ConfigModal.EditsOnDistinctKeysCommute` | src/components/ConfigModal.tsx:61-64 | edits to two different keys can be applied in either order |
| `ConfigModal.ToggleIsDisplayed` | src/components/ConfigModal.tsx:50-54 | after a click, the checkbox's `checked` is the state just stored |
| `ConfigModal.TextEditIsDisplayed` | src/components/ConfigModal.tsx:60-64 | a text field displays exactly the text last typed, the empty text included |
| `ConfigModal.Truthy` | src/components/ConfigModal.tsx:50-60 | a value is truthy exactly when it is not one of the falsy values `""`, `0` and `false` |
| `ConfigModal.Checked` | src/components/ConfigModal.tsx:50 | the checkbox is unchecked exactly when the key is unset or holds a falsy value |
| `ConfigModal.DisplayedValue` | src/components/ConfigModal.tsx:60 | the field's value as written: the stored value when it is truthy; the empty string exactly when the key is unset or holds a falsy value |
| `ConfigModal.ZeroNumberDisplaysBlank` | src/components/ConfigModal.tsx:60-64 | as written, a number field whose input converts to 0 stores 0 but displays the empty string |
| `ConfigModal.DisplayedValueIfSet` | src/components/ConfigModal.tsx:60 | corrected display: any stored value is shown, and only a missing key shows the empty string |
| `ConfigModal.NumberEditIsDisplayed` | src/components/ConfigModal.tsx:60-64 | with the corrected display, a number field shows the number just stored, 0 included, and so does not stop the submit even when required |
| `ConfigModal.Step` | src/components/ConfigModal.tsx:22-66 | a submit changes nothing and reaches `onDeploy` exactly when no required text or number field displays empty, and then hands it the current configuration unchanged; an edit or toggle deploys nothing, changes only its option's key, and stores the toggled or edited value under that key (the converted number for a "number" option, the raw text otherwise) |
| `ConfigModal.BlocksSubmit` | src/components/ConfigModal.tsx:47-67 | only a field whose option is required can stop the submit; a checkbox never does, nor does a field that displays a non-empty value |
| `ConfigModal.FormValid` | src/components/ConfigModal.tsx:38-67 | the form passes the browser's `required` check exactly when every required text or number option holds a truthy value |
| `ConfigModal.MissingRequiredBlocksSubmit` | src/components/ConfigModal.tsx:38-66 | a required text or number field whose key was never set stops the submit, so nothing is deployed |
| `ConfigModal.ZeroRequiredNumberBlocksSubmit` | src/components/ConfigModal.tsx:60-66 | as written, entering a value that converts to 0 in a required number field blanks it, and the submit then deploys nothing |
| `ConfigModal.SessionKeysAreOptionKeys` | src/components/ConfigModal.tsx:40-64 | in a session whose events come from the rendered options, every key of the configuration, and of every submitted configuration, belongs to an option |
| `ConfigModal.EditThenSubmitDeploysEdit` | src/components/ConfigModal.tsx:22-64 | an edit followed by a submit of a valid form deploys exactly one configuration, holding the edited value under the option's key |
| `ConfigModal.SubmitDeploysCurrent` | src/components/ConfigModal.tsx:12-25 | submitting right after opening deploys exactly the seeded configuration when the form is valid, and nothing otherwise |

## Left out

- Storage substrate: `localStorage` and `JSON.stringify`/`JSON.parse` are replaced by a map holding structured snapshots. The source does not guard a corrupted slot (`JSON.parse` would throw inside `fetchApps` and show the error), so no behaviour is modelled for it.
- Storage write failures: if `localStorage.setItem` throws (quota), the source shows the error after already setting `apps`. The model treats storage writes as total.
- Clock: `Date.now()` is a `nat` argument. `fetchApps` reads it twice, before the request (`readAt`) and after the response (`writeAt`).
- Network: the request to `/apps` is an input value. `FetchOutcome` covers success, a non-OK status, a rejected `fetch` and a body that `response.json()` cannot parse. Only the count of requests issued is modelled, not the URL.
- A response body that parses as JSON but is not an app list is not modelled. `Ok` always carries a `DockerApp` sequence.
- Text.Lower: models `toLowerCase` on ASCII letters only. Unicode case mapping is not modelled.
- ConfigModal.EditValue: `Number(...)` is a function parameter `string -> real`. IEEE-754 doubles, NaN and infinities are not modelled, so `Truthy` treats every nonzero number as truthy.
- ConfigModal.InitialConfig, ConfigModal.Checked and ConfigModal.DisplayedValue treat the configuration as a map. The source uses a plain JavaScript object. Option keys that name `Object.prototype` members are not modelled. An unset key such as `constructor` or `toString` reads an inherited function, which is truthy. A `__proto__` key drops a primitive default.
- ConfigModal.Step: the form's `required` check is modelled as a displayed empty string on a required text or number input. Other browser constraint checks are not modelled, such as a number input holding unparsable text.
- ConfigModal.ConfigOption: the component reads `app.configOptions` and `app.name`, which `DockerApp` lacks. The dialog takes the option sequence directly, and the title is not modelled.
- React state hooks, effects, async scheduling, `window.location.reload`, `console.error` and all rendering except the inputs' `checked`/`value` expressions.
- `src/components/ComposeEditor.tsx` is not part of this model. Its two `fetch` calls and the YAML `load`/`dump` round trip are library and network code; the same goes for its clipboard and `setTimeout` use.
- `src/components/AppCard.tsx` and `src/components/ConfigPage.tsx` are not part of this model: they are presentation only.

## Findings

| source | as written | input that shows it | evidently intended | confidence | as-written member | corrected member |
|---|---|---|---|---|---|---|
| src/components/ConfigModal.tsx:60 | the field's value applies the logical-OR fallback to `''`, so every falsy stored value displays as empty | a "number" option where the user types `0`: `Number("0")` stores 0, and the controlled input is re-rendered with `''`; if the option is required, the submit is then stopped (`ConfigModal.ZeroRequiredNumberBlocksSubmit`) | show the stored value and fall back to `''` only when the key is missing (`??`) | medium, not executed | `ConfigModal.ZeroNumberDisplaysBlank` (on `ConfigModal.DisplayedValue`) | `ConfigModal.NumberEditIsDisplayed` (on `ConfigModal.DisplayedValueIfSet`) |
