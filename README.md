# EasyBroker listing client, modelled in Dafny

A model of `EasyBroker.ts`, a small client for the EasyBroker real-estate API. The client
checks its API key when it is constructed. It fetches one page of property listings, walks
every page with a do-while loop and collects what it gets, and formats one
`Property title: <title>` line per property.

Files:

- `wrappers.dfy` (module `Wrappers`): `Option` models a TypeScript `T | undefined`, and `Result` models a value-or-throw.
- `js_string.dfy` (module `JsString`): JavaScript's `String.prototype.trim`. It strips the
  ECMAScript WhiteSpace and LineTerminator characters from both ends.
- `easy_broker.dfy` (module `EasyBroker`): the data model, the constructor check, `getProperties`,
  the `getAllProperties` loop as a `while` method, and the title lines.
- `easy_broker_facts.dfy` (module `EasyBrokerFacts`): lemmas about the walk, the constructor and the titles.

How the model is laid out:

- The HTTP server and transport form a `PageSource`. This is a function from a `Request` (key, page, limit) to either a
  `PropertiesResponse` or a `TransportFailure` (a network failure or an error status). `GetProperties`
  follows the `try`/`catch` of `getProperties`: a response is returned unchanged, and any failure
  becomes `PageError(page)` without its cause.
- The client object is never changed after construction. Its only state is the key, which is
  attached to every request. So it is the immutable value `Client(apiKey)`. The throwing
  constructor is `NewClient: Option<string> -> Result<Client, ConfigError>`.
- `GetAllProperties` is a method with a loop. It keeps the source's local variables `page`,
  `totalProperties` and `allProperties`. The do-while is a `while true` whose body ends
  with the source's condition `totalProperties > 0 && (page - 1) * limit < totalProperties` as the
  exit test. The method is proved equal to the ghost specification `AllPages` / `WalkFrom`, which
  fetches one page at a time. A ghost out-parameter `requested` records the page of every request.
- The walk is modelled only where it ends. `GetAllProperties` takes a ghost page `stop` that fails
  or ends the loop (`StopsAt`). With one, every walk ends at or before it. The source does not
  guarantee that such a page exists. A limit of at least 1 with totals bounded above is enough
  (`BoundedTotalsStop`). With `limit <= 0` a positive total never ends the loop
  (`NonPositiveLimitNeverStops`). With a positive limit the walk never ends when every page reports a
  positive total above `page * limit`, a total that outgrows the pages by about `limit` per page
  (`OutrunningTotalNeverStops`). A total that merely grows can still end it (`GrowingTotalStillEnds`). The value of
  the walk does not depend on which stop page is given (`WalkFromIndependentOfStop`).

## Model

| member | source | states |
|---|---|---|
| `EasyBroker.NewClient` | EasyBroker.ts:27-30 | The constructor fails, with `ApiKeyRequired`, exactly when the key is undefined or every character of it is whitespace (this includes ""). Otherwise it keeps the key unchanged. |
| `JsString.TrimStart` | EasyBroker.ts:28 | The leading half of `trim()`. The result is a suffix of the input; everything removed is whitespace; the result does not start with whitespace. |
| `JsString.TrimEnd` | EasyBroker.ts:28 | The trailing half of `trim()`. The result is a prefix of the input; everything removed is whitespace; the result does not end with whitespace. |
| `JsString.Trim` | EasyBroker.ts:28 | `trim()`: the result is the slice of the input that starts after the leading whitespace. Everything before and after that slice is whitespace, and the result neither starts nor ends with whitespace. |
| `JsString.TrimEmptyIff` | EasyBroker.ts:28 | `trim()` yields "" if and only if every character of the string is whitespace. |
| `EasyBrokerFacts.ConstructorCases` | EasyBroker.spec.ts:18-22 | Undefined, "", and a key of only spaces and control whitespace are refused. A key with a visible character is kept as given, surrounding spaces included. |
| `EasyBroker.GetProperties` | EasyBroker.ts:47-61 | Succeeds exactly when the page source answers request (key, page, limit). On success it returns that response unchanged. On failure the error names `page`, whatever the transport failure was. |
| `EasyBroker.MoreToFetch` | EasyBroker.ts:84 | The do-while condition, taken at the incremented page. A non-positive total always ends the loop. While it continues with a limit of at least 1, fewer pages than the total have been fetched. |
| `EasyBroker.WalkFrom` | EasyBroker.ts:75-84 | The walk from a given page always requests at least one page (do-while). It requests no page past the stop page. When it fails, the error names the last page it requested. |
| `EasyBroker.AllPages` | EasyBroker.ts:69-90 | The walk from page 1 requests between 1 and `stop` pages. A failing walk names its last page. |
| `EasyBroker.GetAllProperties` | EasyBroker.ts:69-90 | The loop returns exactly what the one-page-at-a-time specification `AllPages` returns. The pages it requests are exactly 1, 2, ..., n in order, where n is the specification's page count. |
| `EasyBrokerFacts.WalkFromShape` | EasyBroker.ts:75-88 | Every page before the last succeeded and reported a total that continues the loop. The last page either failed or reported a total that ends it. The walk fails exactly when its last page fails, with an error naming that page. Otherwise it returns the concatenation of the requested pages' contents in page order. |
| `EasyBrokerFacts.WalkFromIndependentOfStop` | EasyBroker.ts:75-84 | Any two stop pages give the same walk: the stop page only witnesses that the walk ends. |
| `EasyBrokerFacts.WalkLengthUnique` | EasyBroker.ts:81-84 | The page count n is fixed by the pages themselves: it is the first page that fails or does not continue the loop. |
| `EasyBrokerFacts.PagesContentLength` | EasyBroker.ts:78 | The concatenated contents of a page range are as long as the sum of the page sizes. |
| `EasyBrokerFacts.AllPagesContent` | EasyBroker.ts:78-86 | A successful walk returns the contents of pages 1..n in page order, and its length is the sum of their sizes. |
| `EasyBrokerFacts.FirstPageNonPositiveTotal` | EasyBroker.ts:75-84 | When page 1 reports a total of zero or less, the walk ends at page 1: exactly one page is requested and its content is the result. |
| `EasyBrokerFacts.NonPositiveLimitNeverStops` | EasyBroker.ts:84 | With a limit below 1, a positive total always continues the loop. |
| `EasyBrokerFacts.OutrunningTotalNeverStops` | EasyBroker.ts:81-84 | When every page p >= 1 succeeds and reports a total that is positive and above p * limit, no page ends the walk: it never stops. |
| `EasyBrokerFacts.GrowingTotalStillEnds` | EasyBroker.ts:81-84 | With limit 2, page 1 reporting total 3 and page 2 reporting total 4, the walk ends at page 2 after two requests, although the total grew. |
| `EasyBrokerFacts.NonPositiveLimitStop` | EasyBroker.ts:81-84 | With a limit below 1, the walk can end only at a page that fails or reports a non-positive total. |
| `EasyBrokerFacts.StableTotalPageCount` | EasyBroker.ts:84 | When pages 1..ceil(T / limit) all succeed and report the same total T > 0 (limit at least 1), page ceil(T / limit) ends the loop, so the walk ends. It then requests exactly ceil(T / limit) pages and succeeds. |
| `EasyBrokerFacts.BoundedTotalsStop` | EasyBroker.ts:81-84 | With a limit of at least 1, and every successful page from 1 on reporting a total of at most some bound B >= 1, page B fails or ends the loop, so the walk ends by page B. |
| `EasyBrokerFacts.FailingPageAborts` | EasyBroker.ts:57-59 | When pages 1..k-1 succeed and continue the loop and page k fails, the walk ends at page k after exactly k requests. It fails naming page k and returns no partial list. |
| `EasyBrokerFacts.TwoFullPages` | EasyBroker.spec.ts:84-139 | With limit 2 and two pages of two properties each, both reporting total 4: the walk ends at page 2, two pages are requested and the four properties come back in order. |
| `EasyBrokerFacts.SecondPageFails` | EasyBroker.spec.ts:144-173 | With limit 2, page 1 reporting total 4 and page 2 failing: the walk ends at page 2, two pages are requested and the walk fails naming page 2. |
| `EasyBroker.TitleLines` | EasyBroker.ts:96-100 | One line per property, in order. Line i is `Property title: ` followed by the title of property i. |
| `EasyBrokerFacts.TitleLinesConcat` | EasyBroker.ts:96-100 | The lines for a concatenation of property lists are the lines of each list in turn. |
| `EasyBrokerFacts.TitleLinesRecoverTitles` | EasyBroker.ts:98 | Each line is the fixed label followed by exactly the title it was made from. |
| `EasyBrokerFacts.TitleLinesOfTwo` | EasyBroker.spec.ts:178-193 | Two properties give the two lines `Property title: Property 1` and `Property title: Property 2`. |

## Left out

- The axios instance, the base URL, the `X-Authorization` header and HTTP status handling (EasyBroker.ts:1, 32-37, 50-55) are left out. They are network plumbing; the page source and the key carried in each `Request` stand for them.
- Response bodies are assumed to have the declared shape. `getProperties` returns `response.data` without checking it (EasyBroker.ts:57). A 2xx body without `pagination` or `content` makes line 81 or line 78 throw a `TypeError`, which line 88 rewraps as an error that names no page. The model does not capture that error path: a successful `PageSource` always answers with a well-formed `PropertiesResponse`.
- The page source always answers. The client sets no timeout, so a request that never answers blocks the walk forever. The model does not capture that.
- `async`/`await` are left out: the calls run strictly one after another and are modelled as sequential calls.
- The default arguments `page = 1, limit = 20` of `getProperties` (EasyBroker.ts:47) and `limit = 20` of `getAllProperties` (EasyBroker.ts:69) are left out: every model operation takes `page` and `limit` explicitly.
- Console output is left out: the "Getting properties from page" log (EasyBroker.ts:49) and the `console.log` of `printPropertiesTitle`. `TitleLines` returns the lines that would be printed.
- Errors: both failures are plain `Error`s in the source, with a message. The model has the datatypes `ApiKeyRequired` (a `ConfigError`) and `PageError(page)` instead, not the message text. The re-wrap `new Error(error)` at EasyBroker.ts:88 keeps the page, so it is modelled as passing the same `PageError` on.
- TypeScript `number` values are Dafny `int`s. Fractional, `NaN` and infinite page totals or limits, and floating-point rounding in `(page - 1) * limit`, are not modelled.
- The `Pagination` fields `limit` and `page` are carried but never read, as in the source. The test fixtures omit them.
- index.ts is not part of this model. It is process glue: the `.env` loading, the entry point and `console.error`.
- EasyBroker.GetAllProperties: requires a ghost page `stop` at which the walk fails or ends (`StopsAt`). The model covers only walks that end. The source does not ensure that they do. With a limit below 1 and positive totals, or when every page reports a positive total above `page * limit`, it keeps requesting pages.
- `getAllProperties(...)` and `printPropertiesTitle` are typed at EasyBroker.ts:5-6 with `Property[] | undefined`. `properties.forEach` at EasyBroker.ts:97 would throw a `TypeError` on `undefined`. `TitleLines` takes a sequence, so it cannot express that case; no call site passes `undefined`.
- JavaScript strings are sequences of UTF-16 code units, while Dafny's `string` holds Unicode scalar values. A key containing a lone surrogate half cannot be represented. Every character `trim()` removes lies in the Basic Multilingual Plane (BMP), so this changes no covered behaviour.
- Unchecked page and limit: `getProperties` does not check `page` or `limit`, so `GetProperties` accepts any integers.
