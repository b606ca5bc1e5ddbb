# Dashboard client runtime: session checks, global search, module router

A Dafny model of the three scripts that hold the decision logic of the ERP
dashboard's browser side:

- `security.js`: `checkAuth` decides from the page path, the stored token,
  the decoded claims and the clock whether a session exists. It can bypass,
  redirect to the login page, or log out. `hasPermission`,
  `enforceModuleAccess`, `logout`, `monitorSession` and `logAction` are built
  on it. `localStorage` is a `map<string, string>`. The audit log is the
  sequence of entries stored under `erp_audit_log`. Token decoding
  (`atob` then `JSON.parse`) is an arbitrary partial function
  `string -> Option<Session>` fixed with the browser. The clock, the ISO
  timestamp and the page path are inputs.
- `search.js`: a four-record corpus and the `input` handler. The handler
  lowercases the input, closes the panel for queries shorter than two
  characters, and otherwise shows the records whose lowercased title or id
  contains the query, or a "No results found" row. The outside-click handler
  hides the panel.
- `app.js`: `loadModule` clears `active` on every sidebar item and header
  link, then marks the element with id `<m>-nav` and the header link for `m`.
  It shows a Loading placeholder, fetches `/modules/<m>.html`, and shows the
  fragment or an error surface. Clicks call it with the element's
  `data-module`, and the first page load opens `hr`.

The page elements are abstracted to plain state. Navigation affordances are
a `Dom.Affordance` datatype, with the `active` and `locked` classes as
booleans, held in an `array`. Contents are tags: `Html(text)`,
`Loading(name)` and `Failed(name)` for the content area, and `Cleared`,
`Rows(results)`, `NoResults` and `Markup` for the search panel. An `async`
`loadModule(m)` is split in two. `Router.LoadModule` is the synchronous part
up to the `await`. `Router.Resolve` is the continuation that runs when the
fetch settles, with the fetch outcome as an input.

Where the design description and the code differ, the model follows the code:

- Search has no relevance scoring, no top-10 cut and no debounce. Results
  come in corpus order.
- The router performs no permission check and writes no audit record.
- Nothing discards a stale response: the last fetch to settle decides the
  content (`App.StaleCompletionWins`).
- Expiry is strict (`exp < now`), so a session whose `exp` equals the
  current time is still returned.
- `exp` is compared as `<` coerces it. A claim that coerces to NaN (absent,
  an object, a non-numeric string) never expires, because every comparison
  with NaN is false. `null`, `true`, `""`, `[]` and numeric strings such as
  `"5"` coerce to numbers and can expire. `Session.exp` holds that coerced
  number, or `None` for NaN.
- An empty stored token counts as no token.
- The lock listener of `enforceModuleAccess` calls `stopPropagation`. That
  does not stop the router's listener on the same element, so a click on a
  locked item still loads its module. `Router.Click` does not consult
  `locked`.
- When no element with id `<m>-nav` exists, or no header link for `m`
  exists, `loadModule` throws a `TypeError` after clearing the active
  classes. The content area is then left as it was, and no fetch starts
  (`Request` is `None`).

## Model

| member | source | states |
|---|---|---|
| `Strings.Lower` | search.js:27 | a lowered string has no upper-case letter left and differs from the input in letter case alone |
| `Strings.LowerIdempotent` | search.js:36-37 | lowercasing an already lowered string changes nothing |
| `Strings.LowerOfSameIgnoringCase` | search.js:27 | two inputs that differ only in letter case lower to the same query |
| `Strings.PrefixIsContained` | search.js:36-37 | `includes` finds a prefix |
| `Search.Query` | search.js:27 | the query has the input's length and no upper-case letter |
| `Search.Filter` | search.js:35-38 | the filter never returns more records than it was given |
| `Search.FilterSound` | search.js:35-38 | every result is a corpus record whose lowered title or id contains the query |
| `Search.FilterComplete` | search.js:35-38 | every corpus record whose lowered title or id contains the query is a result |
| `Search.FilterIsSubsequence` | search.js:35-38 | the results are a subsequence of the corpus, in corpus order |
| `Search.FilterNoDuplicates` | search.js:35-38 | a corpus without duplicates gives results without duplicates |
| `Search.Results` | search.js:35 | the results are never more than the records of `SEARCH_DATA` |
| `Search.ResultsCharacterised` | search.js:5-38 | the results are exactly the matching records of `SEARCH_DATA`, in order, each once, at most four |
| `Search.CaseInsensitive` | search.js:27-37 | inputs that differ only in letter case give identical results |
| `Search.SubtitleNotSearched` | search.js:5-38 | "engineering" occurs in the first record's subtitle, yet yields no results |
| `Search.EmployeePrefixQuery` | search.js:5-38 | "EMP" and "emp" both yield EMP-2847 then EMP-2891 |
| `Search.ResultsPanel.OnInput` | search.js:26-53 | a query under 2 characters hides and empties the panel; otherwise the panel is shown with one row per result in order, or the "No results found" row |
| `Search.ResultsPanel.OnDocumentClick` | search.js:56-60 | a click outside the search box hides the panel; its contents never change |
| `Dom.First` | app.js:16-17 | a lookup returns the first element in document order that satisfies the selector, or none when no element does |
| `App.Capitalize` | app.js:23 | the result equals the name up to letter case, does not start with a lower-case letter, and differs from the name in the first character at most |
| `App.CapitalizeIdempotent` | app.js:23 | capitalising a capitalised name changes nothing |
| `App.ModuleUrl` | app.js:30 | the module name reads back from the fetched URL as the text between `/modules/` and `.html` |
| `App.ModuleUrlInjective` | app.js:30 | distinct modules are fetched from distinct URLs |
| `App.Settled` | app.js:29-46 | a settled fetch never leaves the loading placeholder; the fragment is shown iff the response is ok, and then it is the body verbatim; otherwise the error surface names the module, capitalised |
| `App.RequestIffBothMarked` | app.js:11-30 | a fetch starts exactly when `loadModule(m)` leaves both an element with id `<m>-nav` and a header link for `m` marked active |
| `App.RequestIgnoresNavigation` | app.js:9-30 | whether a load starts its fetch does not depend on the loads before it |
| `App.NavigatedActive` | app.js:11-17 | after `loadModule(m)`, only `active` has changed, and it is set on exactly the `<m>-nav` element and the first header link for `m` |
| `App.Router.LoadModule` | app.js:9-30 | the affordances become `Navigated` of the old ones; when the fetch starts, the content is the Loading placeholder for the capitalised name; otherwise the content is unchanged |
| `App.Router.Resolve` | app.js:29-46 | when a fetch settles, the content becomes `Settled` of its outcome, whatever was requested since |
| `App.Router.Click` | app.js:49-65 | a click on an affordance loads the module named by its `data-module` |
| `App.Router.Start` | app.js:67-68 | the first page load loads `hr` |
| `App.StaleCompletionWins` | app.js:9-46 | on a page with the affordances of both modules, when the fetch for "crm" settles after the later "hr" request's fetch, the content shows the "crm" outcome |
| `Security.Includes` | security.js:51 | `includes` is true iff the permission is in the list |
| `Security.LoginPageBypass` | security.js:11-14 | on a path containing `login.html`, the result is null and the store is untouched |
| `Security.ValidIffDecodedAndCurrent` | security.js:16-41 | off the login page, a session is returned iff the token is non-empty, decodes, and has not expired, and it is the decoded session unchanged; a missing token redirects; a token that does not decode logs out |
| `Security.ExpiryIsStrict` | security.js:29-35 | with `exp == now` the session is returned; one millisecond later it has expired |
| `Security.LogoutIdempotent` | security.js:85-90 | logging out twice leaves the same store as logging out once |
| `Security.ValidIsStable` | security.js:47-64 | right after a check that found a valid session, a re-check changes nothing and decides the same |
| `Security.Browser.Logout` | security.js:85-90 | the store loses the three session keys, the audit log is untouched, and the location is `login.html` |
| `Security.Browser.CheckAuth` | security.js:8-42 | result, store and location follow the verdict: bypass changes nothing; no token redirects and keeps the store; malformed or expired tokens log out and return null; a valid session is returned and nothing changes |
| `Security.Browser.HasPermission` | security.js:47-52 | false when `checkAuth` yields null; otherwise true iff the permission is in the session's list |
| `Security.Browser.EnforceModuleAccess` | security.js:54-79 | with no session, no item changes; otherwise exactly the sidebar items with a non-empty requirement that the session lacks become locked, and no other item or field changes |
| `Security.Browser.MonitorSession` | security.js:95-109 | the re-check is scheduled iff the initial check finds a valid session |
| `Security.Browser.MonitorTick` | security.js:103-108 | one timer tick has the effects of one `checkAuth` |
| `Security.Browser.LogAction` | security.js:114-134 | with a valid session, the log becomes the old log plus one entry carrying the timestamp, the session's email and role, the action, the module and the details; with no session the log is unchanged |

## Left out

- HTML strings and inline styles are not modelled: content is a tag (`Html`, `Loading`, `Failed`, `Rows`, `NoResults`), not markup.
- `alert`, `confirm` and `console` output are left out: they hold no state.
- The `setInterval` timer is not modelled. `MonitorSession` reports whether it would be armed, and `MonitorTick` models one firing.
- Token decoding (`atob`, `JSON.parse`) is an abstract decoder that yields a claims record or nothing. A token that decodes to `null` makes `session.exp` throw, is caught, and logs out; the model covers it as a decoder result of `None`. A token that decodes to a number, a string, a boolean or an array is returned by `checkAuth` as the session; that case is not modelled. Claims whose `permissions` is a string make `includes` a substring test, and claims without `permissions` make it throw; neither is modelled, since `permissions` is always a list here.
- An `exp` of `Infinity` or `-Infinity` is not modelled; a fractional `exp` is held rounded down, which decides `exp < now` against the integer clock the same way.
- The audit log is kept as parsed entries. JSON serialisation is left out, and so is the `JSON.parse` failure that an unparsable stored log would cause in `logAction`.
- ISO timestamp formatting is left out: the timestamp is an input.
- Security.Browser.EnforceModuleAccess: uses one clock reading for its own check and for every inner `hasPermission` call. The source reads `Date.now()` again each time. If the session expires mid-loop, the inner check logs out and `hasPermission` returns false from then on, so the current item and every later sidebar item with a requirement are locked, whatever the session granted.
- The `fetch` transport, and `response.text()` failing, are one `Fault` outcome. The timing of `async` continuations is whatever order the caller applies `Resolve` in.
- Event-listener registration is not modelled. `enforceModuleAccess` adding a further lock listener on every call is not modelled either, nor is the lock icon's `display` style.
- The result-row `onclick` is left out. It calls `window.loadModule`, which `app.js` never defines outside its closure, so it reaches no router.
- Unicode case mapping is left out: `Lower`, `UpperChar` and `Capitalize` map ASCII letters only. Lengths count characters, not UTF-16 code units.
- The early return of the search script when its elements are missing (search.js:16) is left out.
- Element lookups search only the navigation affordances. A `<m>-nav` id elsewhere in the document is not modelled. A module name containing a quote or a backslash, which makes the selector invalid or changes what it matches, is not modelled either.
- An affordance without `data-module` (the name then reads as `undefined`) is not modelled: `moduleName` is always a string.
- The `DOMContentLoaded` handler of `security.js` (security.js:139-172) and its logout button are not modelled. On page load the handler shows the user name and runs `CheckAuth`, `EnforceModuleAccess`, `MonitorSession`, then `LogAction` with `PAGE_LOAD` and `app`. Only the logout button, once confirmed, runs `LogAction` with `LOGOUT` and `auth` and then `Logout`.
- The default `details = {}` of `logAction` is not modelled: `LogAction` always takes its `details`, and a caller that omits them passes `map[]`.
