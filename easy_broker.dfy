/** The EasyBroker listing client: API-key validation at construction, a
    single-page fetch over an abstract page source, the do-while walk that
    accumulates every page, and the formatting of property titles. */
module EasyBroker {
  import opened Wrappers
  import JsString

  // ---------------------------------------------------------------------------
  // Data model

  datatype Property = Property(title: string)

  /** `total` is the number of matching records over all pages, not on this page. */
  datatype Pagination = Pagination(limit: int, page: int, total: int)

  datatype PropertiesResponse = PropertiesResponse(pagination: Pagination, content: seq<Property>)

  /** Thrown by the constructor for a missing or blank key. */
  datatype ConfigError = ApiKeyRequired

  /** Thrown by a page fetch; only the number of the failing page survives. */
  datatype PageError = PageError(page: int)

  /** Why a request failed: the client discards this. */
  datatype TransportFailure = NetworkFailure | HttpStatus(code: int)

  /** A GET of the listings endpoint: the key travels as the authorization
      header, `page` and `limit` as query parameters. */
  datatype Request = Request(apiKey: string, page: int, limit: int)

  /** The server and the HTTP transport, seen as a function of the request. */
  type PageSource = Request -> Result<PropertiesResponse, TransportFailure>

  /** A constructed client: the key fixed for every later request. */
  datatype Client = Client(apiKey: string)

  // ---------------------------------------------------------------------------
  // Construction

  /** The constructor: rejects an undefined key, "" and a key that trims to "",
      and otherwise keeps the key. */
  function NewClient(apiKey: Option<string>): (r: Result<Client, ConfigError>)
    ensures r.Err? <==> apiKey.None? || JsString.AllWhitespace(apiKey.value)
    ensures r.Err? ==> r.error == ApiKeyRequired
    ensures r.Ok? ==> r.value.apiKey == apiKey.value
  {
    if apiKey.None? || apiKey.value == "" then Err(ApiKeyRequired)
    else
      JsString.TrimEmptyIff(apiKey.value);
      if JsString.Trim(apiKey.value) == "" then Err(ApiKeyRequired)
      else Ok(Client(apiKey.value))
  }

  // ---------------------------------------------------------------------------
  // One page

  /** `getProperties`: the source's response for (`page`, `limit`) unchanged, or
      an error naming `page` whatever the transport failure was. */
  function GetProperties(client: Client, source: PageSource, page: int, limit: int)
    : (r: Result<PropertiesResponse, PageError>)
    ensures r.Ok? <==> source(Request(client.apiKey, page, limit)).Ok?
    ensures r.Ok? ==> r.value == source(Request(client.apiKey, page, limit)).value
    ensures r.Err? ==> r.error == PageError(page)
  {
    match source(Request(client.apiKey, page, limit))
    case Ok(response) => Ok(response)
    case Err(_) => Err(PageError(page))
  }

  // ---------------------------------------------------------------------------
  // All pages

  /** Condition of the do-while, evaluated after `page` has been incremented:
      `total` is the one reported by the page just fetched. A non-positive
      total always ends the loop, and while it goes on with a limit of at
      least 1, fewer pages than `total` have been fetched. */
  function MoreToFetch(total: int, page: int, limit: int): (more: bool)
    ensures total <= 0 ==> !more
    ensures more && limit >= 1 ==> page - 1 < total
  {
    if page >= 1 && limit >= 1 then PageAtMostProduct(page - 1, limit); total > 0 && (page - 1) * limit < total
    else total > 0 && (page - 1) * limit < total
  }

  /** Page `page` was fetched successfully and the walk goes on past it. */
  predicate Proceeds(client: Client, source: PageSource, limit: int, page: int) {
    var r := GetProperties(client, source, page, limit);
    r.Ok? && MoreToFetch(r.value.pagination.total, page + 1, limit)
  }

  /** Page `stop` fails or ends the loop, so a walk that reaches it goes no
      further. The client does not ensure that such a page exists: with a
      limit below 1, or a total that keeps growing, the walk need not end. */
  predicate StopsAt(client: Client, source: PageSource, limit: int, stop: int) {
    stop >= 1 && !Proceeds(client, source, limit, stop)
  }

  /** Puts `acc` in front of a successful result; an error passes unchanged. */
  function Prefixed(acc: seq<Property>, r: Result<seq<Property>, PageError>): Result<seq<Property>, PageError> {
    match r
    case Ok(rest) => Ok(acc + rest)
    case Err(e) => Err(e)
  }

  lemma PrefixedNothing(r: Result<seq<Property>, PageError>)
    ensures Prefixed([], r) == r
  {
    if r.Ok? { assert [] + r.value == r.value; }
  }

  lemma PrefixedTwice(a: seq<Property>, b: seq<Property>, r: Result<seq<Property>, PageError>)
    ensures Prefixed(a, Prefixed(b, r)) == Prefixed(a + b, r)
  {
    if r.Ok? { assert a + (b + r.value) == (a + b) + r.value; }
  }

  /** What a walk does: how many pages it requests, and what it returns. */
  datatype Walk = Walk(pages: nat, result: Result<seq<Property>, PageError>)

  lemma PageAtMostProduct(page: int, limit: int)
    requires page >= 0 && limit >= 1
    ensures page <= page * limit
  {
    assert page * limit == page + page * (limit - 1);
  }

  /** The walk started at `page`, one fetch at a time. `stop` only witnesses
      that it ends: the walk requests no page beyond it. A failing walk names
      the last page it requested. */
  ghost function WalkFrom(client: Client, source: PageSource, limit: int, stop: int, page: int): (w: Walk)
    requires 1 <= page <= stop && StopsAt(client, source, limit, stop)
    ensures w.pages >= 1 && page + w.pages - 1 <= stop
    ensures w.result.Err? ==> w.result.error == PageError(page + w.pages - 1)
    decreases stop - page
  {
    match GetProperties(client, source, page, limit)
    case Err(e) => Walk(1, Err(e))
    case Ok(response) =>
      if MoreToFetch(response.pagination.total, page + 1, limit) then
        var rest := WalkFrom(client, source, limit, stop, page + 1);
        Walk(1 + rest.pages, Prefixed(response.content, rest.result))
      else
        Walk(1, Ok(response.content))
  }

  /** The whole walk, from page 1: at least one page is requested, and a
      failing walk names the last page it requested. */
  ghost function AllPages(client: Client, source: PageSource, limit: int, stop: int): (w: Walk)
    requires StopsAt(client, source, limit, stop)
    ensures 1 <= w.pages <= stop
    ensures w.result.Err? ==> w.result.error == PageError(w.pages)
  {
    WalkFrom(client, source, limit, stop, 1)
  }

  /** The page numbers 1, 2, ..., n. */
  function PageNumbers(n: nat): (s: seq<int>)
    ensures |s| == n
    ensures forall i :: 0 <= i < n ==> s[i] == i + 1
  {
    seq(n, i => i + 1)
  }

  /** `getAllProperties`. Requests pages 1, 2, ... in turn, appends each page's
      content, and stops when the last reported total is non-positive or the
      pages requested so far cover it; the first failing page aborts the walk.
      `requested` records the page of every request, in order. */
  method GetAllProperties(client: Client, source: PageSource, limit: int, ghost stop: int)
    returns (r: Result<seq<Property>, PageError>, ghost requested: seq<int>)
    requires StopsAt(client, source, limit, stop)
    ensures r == AllPages(client, source, limit, stop).result
    ensures requested == PageNumbers(AllPages(client, source, limit, stop).pages)
  {
    ghost var whole := AllPages(client, source, limit, stop);
    var page := 1;
    var totalProperties := 0;
    var allProperties: seq<Property> := [];
    requested := [];
    PrefixedNothing(whole.result);
    while true
      invariant 1 <= page <= stop
      invariant requested == PageNumbers(page - 1)
      invariant whole.pages == page - 1 + WalkFrom(client, source, limit, stop, page).pages
      invariant whole.result == Prefixed(allProperties, WalkFrom(client, source, limit, stop, page).result)
      decreases stop - page
    {
      requested := requested + [page];
      var properties := GetProperties(client, source, page, limit);
      if properties.Err? {
        r := Err(properties.error);
        return;
      }
      ghost var before := allProperties;
      allProperties := allProperties + properties.value.content;
      totalProperties := properties.value.pagination.total;
      page := page + 1;
      if !(totalProperties > 0 && (page - 1) * limit < totalProperties) {
        break;
      }
      PrefixedTwice(before, properties.value.content, WalkFrom(client, source, limit, stop, page).result);
    }
    r := Ok(allProperties);
  }

  // ---------------------------------------------------------------------------
  // Titles

  const TitleLabel: string := "Property title: "

  /** `printPropertiesTitle`: the line printed for each property, in order. */
  function TitleLines(properties: seq<Property>): (lines: seq<string>)
    ensures |lines| == |properties|
    ensures forall i :: 0 <= i < |properties| ==> lines[i] == TitleLabel + properties[i].title
  {
    if properties == [] then [] else [TitleLabel + properties[0].title] + TitleLines(properties[1..])
  }
}
