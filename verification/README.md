# Cliply: click analytics and the shorten proxy, in Dafny

Cliply is a URL-shortener front-end. Shortening, redirects and click storage
happen in an external worker and a hosted database. This project models the
two pieces of logic that the repository does hold:

- **Click-analytics aggregation** (`viewAnalytics` in `pages/dashboard.js`).
  The click records of one short URL, ordered by `clicked_at`, are folded into
  three things: a per-day series keyed by the date part of the timestamp, a
  per-country breakdown with an `"Unknown"` bucket for a missing country, and
  a total. Next to it is the dashboard's selection rule: `deleteUrl` clears
  the selected URL and its analytics only when the deleted URL is the
  selected one.
- **The `/api/shorten` route** (`pages/api/shorten.js`). It checks the
  method, checks the URL is present, checks that it parses, forwards it to the
  worker, and maps the worker's answer to a response.

Modules:

- `Wrappers` (wrappers.dfy): `Option`.
- `Tally` (tally.dfy): the group-by-count fold behind both breakdowns. A
  bucket list is built by `Bump`, one key at a time. Counts are proved
  equal to the reference multiplicity `multiset(keys)[k]`, and bucket order
  is proved to follow the first occurrence of each key in the input.
- `LexOrder` (lexorder.dfy): lexicographic string order, which is the order
  of ISO timestamps.
- `Analytics` (analytics.dfy): click records, the summary, the imperative
  aggregation loop, and the dashboard's selection state.
- `Shorten` (shorten.dfy): JSON values, JavaScript truthiness and property
  access, and the route handler as a pure function. The inputs are the
  method, the request body, a `new URL` acceptance predicate and the
  worker's answer. The output is the response and the body forwarded to the
  worker, if any.

Behaviour of the code that the model keeps:

- The route reads the field `originalUrl` of the request body.
- When `req.body` is `null` or `undefined`, the destructuring
  `const { originalUrl } = req.body` throws. The outer `catch` handles it,
  so the answer is 500 `Internal server error`.
- An ok worker reply whose body is not JSON also ends in that `catch` and
  gives 500.
- A click whose country is the literal string `"Unknown"` shares the
  `"Unknown"` bucket with clicks that have no country (`Analytics.CountryCounts`).
- An invalid `clicked_at` makes `toISOString` throw inside the loop. The
  `catch` then abandons the update, so the previous analytics stay on screen
  (`Analytics.ViewAnalytics`).

## Model

| member | source | states |
|---|---|---|
| Tally.BumpCountOf | pages/dashboard.js:126 | one accumulator step `acc[k] = (acc[k] \|\| 0) + 1` raises the count of `k` by one and changes no other count |
| Tally.BumpTotal | pages/dashboard.js:126 | one accumulator step adds exactly one to the sum of all counts |
| Tally.BumpKeys | pages/dashboard.js:126 | a step keeps the key order when the key is already present, and otherwise appends the key at the end (insertion order of object keys) |
| Tally.BumpPositive | pages/dashboard.js:126 | a step never produces a zero count |
| Tally.CountMatchesOccurrences | pages/dashboard.js:123-131 | after the fold, the count for each key equals the number of times that key occurs in the input |
| Tally.CountTotal | pages/dashboard.js:123-131 | the counts of the folded buckets add up to the number of input keys |
| Tally.CountWellFormed | pages/dashboard.js:123-142 | every key is listed once, every count is at least one, and a key is listed exactly when it occurs in the input |
| Tally.CountFirstAppearanceOrder | pages/dashboard.js:134-137 | buckets are listed in the order in which their keys first occur in the input |
| Tally.TwoDayExample | pages/dashboard.js:123-137 | three clicks on one day and one on another day give the series `[first day: 3, second day: 1]` |
| LexOrder.PrefixMonotone | pages/dashboard.js:125 | cutting two ordered timestamps to the same length keeps them ordered, so ordered timestamps have ordered dates |
| Analytics.DayKey | pages/dashboard.js:125 | the day key is the longest prefix of the timestamp that has no `T`, and it is followed by a `T` unless it is the whole timestamp (`split('T')[0]`) |
| Analytics.DayKeyAt | pages/dashboard.js:125 | for a timestamp whose first `T` is at position n, the day key is the first n characters |
| Analytics.Summarize | pages/dashboard.js:120-148 | `totalClicks` is the number of clicks; the daily counts and the country counts each add up to it; both breakdowns have distinct keys and counts of at least one; no clicks give empty breakdowns and a zero total |
| Analytics.Aggregate | pages/dashboard.js:120-148 | the single `forEach` pass that bumps a day bucket and a country bucket per click computes exactly the summary above |
| Analytics.DailyCounts | pages/dashboard.js:125-137 | each day's count is the number of clicks whose day key is that day, and a day is listed exactly when some click falls on it |
| Analytics.CountryCounts | pages/dashboard.js:129-130 | the `"Unknown"` count is the number of clicks with a null or empty country plus those with the literal country `"Unknown"`; the empty string never gets a bucket; any other country is counted under its own name (names of `Object.prototype` members excepted, see Left out) |
| Analytics.CountryKeyMultiplicity | pages/dashboard.js:129-130 | the multiplicity of each country key among the clicks follows from the raw country column as described for `CountryCounts` |
| Analytics.LandingStep | pages/dashboard.js:129-130 | one more click adds one to exactly the country bucket its country maps to |
| Analytics.DailyAscending | pages/dashboard.js:111-137 | clicks ordered by ISO `clicked_at` give a day series whose dates are strictly ascending |
| Analytics.ViewAnalytics | pages/dashboard.js:106-153 | opening analytics always selects the URL; the analytics become the summary of the queried clicks, or stay as they were when the query fails or some `clicked_at` is not a valid date |
| Analytics.DeleteUrl | pages/dashboard.js:76-96 | a delete either keeps the state or clears both selection and analytics, and it clears them exactly when the user confirmed, the delete succeeded and the deleted id is the selected URL's id |
| Analytics.ViewThenDelete | pages/dashboard.js:88-91 | deleting the URL whose analytics are open clears them; deleting any other URL leaves the selection and analytics in place |
| Shorten.Member | pages/api/shorten.js:39-41 | a member lookup finds a value exactly when the object has a member of that name, and the value comes from the last such member, as `JSON.parse` keeps the last duplicate |
| Shorten.Property | pages/api/shorten.js:10 | reading a property throws exactly on `null` or `undefined`; on an object it yields that object's member of the name (last duplicate), on other values `undefined` — for names no prototype defines, such as `originalUrl` and `error` |
| Shorten.FailureMessage | pages/api/shorten.js:36-48 | the failure message is the worker's `error` property when the reply body parses and that property is truthy, and `'Failed to shorten URL'` otherwise (no `error`, a falsy one, a body that is `null` or not JSON); it is always truthy |
| Shorten.Handle | pages/api/shorten.js:3-58 | a non-POST gets 405 `'Method not allowed'`; a body that cannot be destructured gets 500; a missing or falsy URL gets 400 `'URL is required'`; an unparsable one gets 400 `'Invalid URL format'`; the worker is contacted exactly when the method is POST and the URL is present and parses, and it is sent exactly `{ originalUrl }` |
| Shorten.UpstreamIgnoredUnlessForwarded | pages/api/shorten.js:5-33 | a request rejected before the `fetch` gets the same response whatever the worker would have answered, and nothing is forwarded |
| Shorten.ForwardedResponse | pages/api/shorten.js:36-57 | for a forwarded request: 201 exactly when the worker answers ok with a JSON body, and that body is passed through unchanged; a not-ok answer keeps the worker's status and gets the failure message; a throwing `fetch` or unparsable ok body gets 500 `'Internal server error'` |
| Shorten.WorkerErrorRelayed | pages/api/shorten.js:36-48 | a forwarded request whose worker reply is not ok gets the worker's status, with `{ message: error }` when the reply has a truthy `error` and `{ message: 'Failed to shorten URL' }` otherwise |
| Shorten.ErrorResponsesHaveMessage | pages/api/shorten.js:5-57 | every non-201 response body is an object with a truthy `message`, and its status is 400, 405, 500 or the worker's own failing status |

## Left out

- The database and authentication calls are not modelled: the session check, the `urls` and `clicks` queries, `create_short_url`, and the delete itself. Query results and the delete's success are inputs.
- The list refresh through `fetchUrls` after a delete is not modelled.
- `fetch` to the worker is not modelled; the worker's answer is an input. The `URL` constructor is the predicate parameter `parses`, and `JSON.stringify` of the forwarded body is represented by the JSON value it encodes.
- `console.error`, `alert`, `confirm`, clipboard access, router redirects and all React rendering are left out; the confirmation answer is the `confirmed` input of `DeleteUrl`.
- Analytics.DayKey: `new Date(...).toISOString()` is not modelled. This means time-zone conversion is absent: `clicked_at` is taken to be a UTC ISO timestamp already, and the day is the text before its first `T`.
- Analytics.DailyAscending: the ordering of `clicked_at` is modelled as lexicographic order of uniform ISO strings. For such strings this is chronological order, but mixed formats or offsets are outside the lemma.
- Analytics.Summarize: the country breakdown is built in first-appearance order like the day series. JavaScript's `Object.keys` lists integer-like keys first, so no lemma promises an order for the country breakdown. The counting laws (sum equals total, distinct keys, counts of at least one) are claimed for every country string, but the source's counter is a plain `{}` and breaks them for names of `Object.prototype` members; see the next line.
- Analytics.CountryCounts: country values that name `Object.prototype` members are outside the model. For `"__proto__"` the source reads `Object.prototype`, computes the string `"[object Object]1"` and the setter ignores it, so the country is missing from the breakdown. For `"constructor"`, `"toString"`, `"valueOf"`, `"hasOwnProperty"` and the like, the count becomes a string such as `"function Object() { [native code] }1"`. The model counts each of these under its own name.
- Analytics.ViewAnalytics: the validity of a timestamp for `new Date` is the predicate parameter `validDate`. A null `clicked_at` (which `new Date` reads as the epoch, day `1970-01-01`) is not represented: `clickedAt` is always a string.
- Shorten.Property: inherited property names (`length` on strings and arrays, `constructor`, `toString`, ...) are not represented; the route reads only `originalUrl` and `error`, which no prototype defines.
- Shorten.Truthy: JSON numbers are integers in this model, so `NaN`, `-0` and fractions are not represented.
- The dashboard's "Total Clicks" card shows the database counter `click_count`, not the aggregated event count. The model makes no claim that the two agree.
- Concurrency between overlapping asynchronous state updates (two `viewAnalytics` calls in flight) is not modelled.
- Shortening itself happens in the worker the route forwards to (pages/api/shorten.js:25-33), and click records are read from the database's `clicks` table. Neither is part of this repository or of this model.
- pages/index.js, pages/login.js, pages/signup.js, pages/_app.js and tailwind.config.js are presentational and are not part of this model.
