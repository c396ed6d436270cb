# repo-star-charts, modelled in Dafny

repo-star-charts compares the star histories of two public repositories on a chart. The
backend authenticates users with bearer tokens. It serves each repository's stargazer list
from a Repo collection (a cache keyed by repository URL), and on a miss it fetches the list
once from the hosting API and stores it. The page checks both URLs before sending its
request. It then merges the two returned series into chart rows keyed by date.

This project models that logic and proves what it promises:

- `common.dfy`: `Option` and `Result`.
- `js_string.dfy`: `String.prototype.split` with a one-character separator, proved inverse
  to `join`. Also JavaScript's default string order, proved irreflexive, asymmetric,
  transitive and total.
- `js_sort.dfy`: `[...new Set(xs)].sort()`. The result is proved strictly ascending and
  duplicate-free, with exactly the input's values. It is also proved to be the only
  ascending sequence with those values.
- `server.dfy`: the `authenticateToken` gate, the `/login` decision, and `fetchStars` as the
  function `Fetch`. `Fetch` takes the collection's state and gives the result, the new
  state and the upstream requests made. `/fetch-stars` is the function `FetchStarsRoute`.
  The class `Backend` holds the Repo collection as a map from URL to star list, plus a
  ghost log of upstream requests. Its methods `FetchStars` and `HandleFetchStars` are
  proved against those two functions.
- `index_page.dfy`: the page's request guard and `formatChartData`.

Foreign code becomes parameters:
- `verify` (jwt.verify) and `sign` (jwt.sign, `None` when it throws);
- `compare` (bcrypt.compare, `None` when it throws);
- `upstream`, the hosting API's reply for each request URL;
- `dayKey` (`new Date(x).toLocaleDateString()`).

Behaviours of the code worth noting:
- The server does not reject an empty repository URL; only the page does. An uncached `""`
  is requested upstream as owner `""` and repository `undefined` (`Server.EmptyUrlIsFetched`).
- `/fetch-stars` fetches repo1 and then repo2, strictly in that order.
  A repo1 record stored before repo2 fails stays stored.
- Any non-404 upstream error is rethrown unchanged. It is not wrapped into a separate
  fetch error.
- `count` is the stargazer's user id, as the code has it, not a star count.
- An empty `Authorization` header is falsy, so the token is `""` rather than `null`. It goes
  to signature checking and gives 403, not 401.
- Nothing makes usernames unique, and registration is not modelled (see below).

## Model

| member | source | states |
|---|---|---|
| JsString.Split | src/server.js:98 | `split` gives at least one piece, no piece contains the separator, and a second piece exists exactly when the string contains the separator |
| JsString.JoinAppend | src/server.js:99 | joining two non-empty piece lists puts exactly one separator between their joins |
| JsString.SplitJoin | src/server.js:98 | joining the pieces of a split gives back the original string |
| JsString.JoinSplit | src/server.js:98 | splitting a join of separator-free pieces gives back those pieces |
| JsString.Below | src/pages/Index.jsx:68 | the default sort order: a string never sorts before itself, and a proper prefix sorts before the longer string |
| JsString.BelowTransitive | src/pages/Index.jsx:68 | the default string order is transitive |
| JsString.BelowTotal | src/pages/Index.jsx:68 | of two different strings, one sorts before the other |
| JsString.BelowAsymmetric | src/pages/Index.jsx:68 | two strings never sort before each other both ways |
| JsSort.Dedup | src/pages/Index.jsx:68 | `[...new Set(s)]` has no repeats, holds exactly the values of `s`, and is no longer than `s` |
| JsSort.SortDistinct | src/pages/Index.jsx:68 | sorting a duplicate-free array gives a strictly ascending array of the same length with the same values |
| JsSort.SortedUnique | src/pages/Index.jsx:68 | `[...new Set(s)].sort()` is ascending, duplicate-free, holds exactly the values of `s`, and is at most as long |
| JsSort.AscendingUnique | src/pages/Index.jsx:68 | two ascending sequences with the same values are equal, so the sorted set is the only ascending enumeration |
| JsSort.SortedUniqueOrderFree | src/pages/Index.jsx:68 | the sorted set depends only on which values occur, not on their order or repeats |
| Server.BearerToken | src/server.js:33-34 | no header gives no token; an empty header gives the token `""`; otherwise a token exists exactly when the header has a space, and it contains no space |
| Server.BearerTokenField | src/server.js:34 | the token is the text between the first space and the next space or the end of the header |
| Server.Authenticate | src/server.js:32-43 | 401 exactly when there is no token; 403 exactly when there is a token that fails verification; otherwise proceeds with the verified claims |
| Server.Login | src/server.js:61-76 | unknown user gives 400 "Cannot find user"; a mismatch gives "Not Allowed" with status 200; a throwing comparison or a throwing `jwt.sign` gives 500 "Error logging in"; only a match with a successful signing gives `{accessToken}`, signed over the username |
| Server.LoginTokenPassesGate | src/server.js:66-69 | a token issued by login, sent as `Bearer <token>`, passes the gate with that user's claims |
| Server.LastTwo | src/server.js:98 | repo is defined exactly when the URL contains `/`; neither piece contains `/`; with no `/`, owner is the whole URL |
| Server.LastTwoOfJoin | src/server.js:98 | owner and repo are the last two `/`-separated pieces of the URL |
| Server.LastTwoExample | src/server.js:98 | `"github.com/a/b"` gives owner `a` and repo `b` |
| Server.ToStars | src/server.js:109-112 | the star list has the items' length and order; each date is `starred_at` and each count is `user.id` |
| Server.StargazersUrl | src/server.js:99 | the request URL starts with `https://api.github.com/repos/<owner>/`, and an undefined repo is rendered as `undefined` |
| Server.StargazersUrlPieces | src/server.js:99 | split on `/`, the request URL is `https:`, ``, `api.github.com`, `repos`, then the owner, then the repo, then `stargazers` |
| Server.Message | src/server.js:88 | the message of a rethrown error is kept; the 404 error's message is "Repository not found or not public" |
| Server.Rejection | src/server.js:118-123 | the error is "not found" exactly for a 404 response; any other error keeps its message |
| Server.Fetch | src/server.js:92-124 | a request is made exactly when the URL is not stored, and then it is the URL's stargazers request; stored records are kept; only the URL can be added; on success that record is the list returned; a failure writes nothing |
| Server.FetchHit | src/server.js:93-96 | a cache hit returns the stored list with no request and no write |
| Server.FetchMiss | src/server.js:98-123 | a miss makes exactly one request, for the URL's owner/repo. On success the list returned follows the items in length and order and is the single record added; on failure the error is mapped and nothing is written |
| Server.FetchAgain | src/server.js:93-117 | after a successful fetch, fetching the same URL again returns the same list with no request, whatever the hosting API would now answer |
| Server.EmptyUrlIsFetched | src/server.js:98-99 | an uncached empty URL is requested upstream as `repos//undefined/stargazers` |
| Server.FetchStarsRoute | src/server.js:79-90 | stored records are kept; only repo1 and repo2 can be added; at most two requests; a successful reply's two lists are the records then stored for repo1 and repo2 |
| Server.RouteGateFirst | src/server.js:32-43 | a request the gate refuses gets 401 or 403, makes no request and changes no record |
| Server.RouteSequencing | src/server.js:79-90 | repo1 is fetched before repo2, and repo2 only if repo1 succeeded; a failed repo1 writes nothing. The reply holds both lists exactly when both succeed; otherwise it is a 500 with the first failure's message and no partial body |
| Server.RouteOneCached | src/server.js:83-84 | with repo1 stored and repo2 not, the route makes exactly one request, for repo2 |
| Server.RouteRepeat | src/server.js:83-86 | repeating a successful comparison makes no request, writes nothing and gives the identical reply |
| Server.Backend.constructor | src/server.js:13-29 | the backend connects to the Repo collection as it is already stored, with no upstream request made yet |
| Server.Backend.FetchStars | src/server.js:92-124 | the method's result, new collection and request log are those of `Fetch` on the old collection |
| Server.Backend.HandleFetchStars | src/server.js:79-90 | the handler's reply, new collection and request log are those of `FetchStarsRoute` on the old collection |
| IndexPage.StarsRequestFor | src/pages/Index.jsx:17-26 | an error "Please enter both repository URLs", with no request, exactly when either URL is empty; otherwise a request with both URLs |
| IndexPage.RequestCarriesToken | src/pages/Index.jsx:23 | the page's `Bearer <token>` header gives the server's gate exactly that token |
| IndexPage.SeriesOf | src/pages/Index.jsx:65-66 | a present series is used as it is; a missing one is empty |
| IndexPage.Dates | src/pages/Index.jsx:68 | the date list has the series' length, and each element is that entry's date |
| IndexPage.ChartDates | src/pages/Index.jsx:68 | the merged dates are ascending and duplicate-free, are exactly the date values of either series, and number at most the two lengths combined |
| IndexPage.FirstCount | src/pages/Index.jsx:72-73 | a count is reported only as the nonzero count of the first entry on that day; `null` means no entry on that day or a first entry with count 0 |
| IndexPage.RowFor | src/pages/Index.jsx:70-74 | a row has exactly the keys `date`, `[repo1]` and `[repo2]`; `[repo2]` always holds repo2's first-on-day count; `[repo1]` holds repo1's unless it equals repo2; `date` holds the day label unless a repo key overwrites it |
| IndexPage.FormatChartData | src/pages/Index.jsx:63-75 | no data gives `[]`; otherwise one row per merged date, in order. Each row has the keys `date`, `[repo1]` and `[repo2]`, holding the day label and each series' first-on-day count, later keys winning on collision |
| IndexPage.ChartRowsCoverDates | src/pages/Index.jsx:64-70 | a missing series counts as empty; there are at most as many rows as entries; every date value of either series has a row |
| IndexPage.SameDayRowsAgree | src/pages/Index.jsx:71-73 | rows for date values on the same calendar day are identical |
| IndexPage.SameUrlKeepsRepo2 | src/pages/Index.jsx:70-74 | when both inputs hold the same URL, a row holds one series key, carrying repo2's count |
| IndexPage.ChartDatesSymmetric | src/pages/Index.jsx:68 | the merged dates do not depend on which series is repo1 |

## Left out

- HTTP transport is not modelled: axios, Express, `app.listen`, CORS and JSON middleware. Replies are returned values; upstream replies are the `upstream` parameter, one fixed answer per URL per call.
- MongoDB is not modelled. The Repo collection is a map from URL to star list, and the User collection is a map from username to hash. Store errors are not modelled. In the code they end up in different places. `Repo.findOne` (src/server.js:93) runs before the `try` of `fetchStars`, so its failure skips the 404 mapping and reaches only the route's catch, a 500 with its message. `newRepo.save()` (src/server.js:115) fails inside that `try` and is rethrown unchanged, also a 500. `User.findOne` (src/server.js:62) is awaited before the login `try` opens, so its failure reaches no catch and the request gets no reply. Stored subdocuments also get a generated `_id`, which a cache hit returns and a miss does not; the model treats the two as the same list.
- bcrypt and JWT are not modelled; they are opaque parameters. Login assumes the found account's username equals the one asked for.
- Registration (`/register`) is not modelled. It is a hash and a save, answering 201 or 500, and the schema has no uniqueness constraint.
- Concurrent cache misses for one URL are not modelled. Calls are sequential, so two in-flight misses cannot both store a record.
- `new Date(item.starred_at)` and its JSON serialisation are not modelled: `date` carries `starred_at` as given. `toLocaleDateString` is the `dayKey` parameter.
- Malformed inputs are not modelled: a body without `repo1`/`repo2`, an item without `user`, or a non-array upstream body. Each would throw a TypeError that ends in a 500.
- JsString.Below: compares Dafny characters (Unicode scalar values), not JavaScript's UTF-16 code units. The two orders agree on the ASCII used in ISO timestamps.
- JsSort.SortDistinct: models `sort()` only on duplicate-free arrays, the only kind the page sorts.
- React rendering, Recharts, `useState`/`useQuery`, `localStorage` and the login, register and logout handlers are UI and are not modelled.
