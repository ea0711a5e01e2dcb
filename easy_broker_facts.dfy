/** What the walk of `getAllProperties` guarantees: which pages it requests,
    when it stops, what it returns, and how a failing page ends it. */
module EasyBrokerFacts {
  import opened Wrappers
  import opened EasyBroker

  // ---------------------------------------------------------------------------
  // Reference definitions

  /** The content of page `page`, or nothing when that page fails. */
  function ContentOf(client: Client, source: PageSource, limit: int, page: int): seq<Property> {
    match GetProperties(client, source, page, limit)
    case Ok(response) => response.content
    case Err(_) => []
  }

  /** The contents of pages lo, lo + 1, ..., hi - 1, concatenated in page order. */
  function PagesContent(client: Client, source: PageSource, limit: int, lo: int, hi: int): seq<Property>
    decreases hi - lo
  {
    if lo >= hi then [] else ContentOf(client, source, limit, lo) + PagesContent(client, source, limit, lo + 1, hi)
  }

  /** The sum of the content lengths of pages lo, ..., hi - 1. */
  function PageSizes(client: Client, source: PageSource, limit: int, lo: int, hi: int): nat
    decreases hi - lo
  {
    if lo >= hi then 0 else |ContentOf(client, source, limit, lo)| + PageSizes(client, source, limit, lo + 1, hi)
  }

  /** The number of the last page a walk from `from` requests. */
  ghost function LastPage(client: Client, source: PageSource, limit: int, stop: int, from: int): int
    requires 1 <= from <= stop && StopsAt(client, source, limit, stop)
  {
    from + WalkFrom(client, source, limit, stop, from).pages - 1
  }

  // ---------------------------------------------------------------------------
  // Shape of the walk

  /** The stop page is only a witness that the walk ends: any two witnesses
      describe the same walk. */
  lemma {:induction false} WalkFromIndependentOfStop(client: Client, source: PageSource, limit: int, stop1: int, stop2: int, from: int)
    requires 1 <= from <= stop1 && StopsAt(client, source, limit, stop1)
    requires 1 <= from <= stop2 && StopsAt(client, source, limit, stop2)
    ensures WalkFrom(client, source, limit, stop1, from) == WalkFrom(client, source, limit, stop2, from)
    decreases stop1 - from
  {
    if Proceeds(client, source, limit, from) {
      WalkFromIndependentOfStop(client, source, limit, stop1, stop2, from + 1);
    }
  }

  /** Every page before the last one succeeded and asked for more; the last
      page either failed or ended the loop. The walk fails exactly when its last
      page fails, naming that page, and otherwise returns the concatenation of
      the contents of the pages it requested. */
  lemma {:induction false} WalkFromShape(client: Client, source: PageSource, limit: int, stop: int, from: int)
    requires 1 <= from <= stop && StopsAt(client, source, limit, stop)
    ensures forall p :: from <= p < LastPage(client, source, limit, stop, from) ==> Proceeds(client, source, limit, p)
    ensures !Proceeds(client, source, limit, LastPage(client, source, limit, stop, from))
    ensures WalkFrom(client, source, limit, stop, from).result.Err? <==>
            GetProperties(client, source, LastPage(client, source, limit, stop, from), limit).Err?
    ensures WalkFrom(client, source, limit, stop, from).result.Err? ==>
            WalkFrom(client, source, limit, stop, from).result.error == PageError(LastPage(client, source, limit, stop, from))
    ensures WalkFrom(client, source, limit, stop, from).result.Ok? ==>
            WalkFrom(client, source, limit, stop, from).result.value ==
            PagesContent(client, source, limit, from, LastPage(client, source, limit, stop, from) + 1)
    decreases stop - from
  {
    var w := WalkFrom(client, source, limit, stop, from);
    match GetProperties(client, source, from, limit)
    case Err(e) =>
    case Ok(response) =>
      if MoreToFetch(response.pagination.total, from + 1, limit) {
        WalkFromShape(client, source, limit, stop, from + 1);
        var rest := WalkFrom(client, source, limit, stop, from + 1);
        assert LastPage(client, source, limit, stop, from) == LastPage(client, source, limit, stop, from + 1);
        if rest.result.Ok? {
          assert w.result.value == response.content + rest.result.value;
        }
      } else {
        assert PagesContent(client, source, limit, from + 1, from + 1) == [];
      }
  }

  /** The page count is determined by the pages themselves: it is the first
      page that fails or does not ask for more. */
  lemma WalkLengthUnique(client: Client, source: PageSource, limit: int, stop: int, n: int)
    requires StopsAt(client, source, limit, stop) && n >= 1
    requires forall p :: 1 <= p < n ==> Proceeds(client, source, limit, p)
    requires !Proceeds(client, source, limit, n)
    ensures AllPages(client, source, limit, stop).pages == n
  {
    WalkFromShape(client, source, limit, stop, 1);
  }

  /** A walk that succeeds returns exactly as many properties as its pages held. */
  lemma {:induction false} PagesContentLength(client: Client, source: PageSource, limit: int, lo: int, hi: int)
    ensures |PagesContent(client, source, limit, lo, hi)| == PageSizes(client, source, limit, lo, hi)
    decreases hi - lo
  {
    if lo < hi {
      PagesContentLength(client, source, limit, lo + 1, hi);
    }
  }

  /** On success the result is the page contents in page order, and its length
      is the sum of the page sizes. */
  lemma AllPagesContent(client: Client, source: PageSource, limit: int, stop: int)
    requires StopsAt(client, source, limit, stop)
    requires AllPages(client, source, limit, stop).result.Ok?
    ensures AllPages(client, source, limit, stop).result.value ==
            PagesContent(client, source, limit, 1, AllPages(client, source, limit, stop).pages + 1)
    ensures |AllPages(client, source, limit, stop).result.value| ==
            PageSizes(client, source, limit, 1, AllPages(client, source, limit, stop).pages + 1)
  {
    WalkFromShape(client, source, limit, stop, 1);
    PagesContentLength(client, source, limit, 1, AllPages(client, source, limit, stop).pages + 1);
  }

  // ---------------------------------------------------------------------------
  // Stopping

  /** Do-while: when page 1 reports a non-positive total, page 1 is the only
      page requested and its content is the result. */
  lemma FirstPageNonPositiveTotal(client: Client, source: PageSource, limit: int)
    requires GetProperties(client, source, 1, limit).Ok?
    requires GetProperties(client, source, 1, limit).value.pagination.total <= 0
    ensures StopsAt(client, source, limit, 1)
    ensures AllPages(client, source, limit, 1) == Walk(1, Ok(GetProperties(client, source, 1, limit).value.content))
  {
  }

  /** With a limit below 1 a positive total never ends the loop. */
  lemma NonPositiveLimitNeverStops(total: int, page: int, limit: int)
    requires total > 0 && page >= 1 && limit <= 0
    ensures MoreToFetch(total, page, limit)
  {
    assert (page - 1) * limit == -((page - 1) * -limit);
  }

  /** So with a limit below 1 the walk ends only at a page that fails or
      reports a non-positive total. */
  lemma NonPositiveLimitStop(client: Client, source: PageSource, limit: int, stop: int)
    requires StopsAt(client, source, limit, stop) && limit <= 0
    ensures GetProperties(client, source, stop, limit).Err? ||
            GetProperties(client, source, stop, limit).value.pagination.total <= 0
  {
    var r := GetProperties(client, source, stop, limit);
    if r.Ok? && r.value.pagination.total > 0 {
      NonPositiveLimitNeverStops(r.value.pagination.total, stop + 1, limit);
    }
  }

  /** The walk never ends when every page succeeds and reports a total above
      the number of records its own and the earlier pages can hold, that is a
      total that outgrows `page * limit` at every page. */
  lemma OutrunningTotalNeverStops(client: Client, source: PageSource, limit: int)
    requires forall p :: p >= 1 ==>
      GetProperties(client, source, p, limit).Ok? &&
      GetProperties(client, source, p, limit).value.pagination.total > 0 &&
      GetProperties(client, source, p, limit).value.pagination.total > p * limit
    ensures forall p :: !StopsAt(client, source, limit, p)
  {
    forall p | p >= 1
      ensures Proceeds(client, source, limit, p)
    {
      assert ((p + 1) - 1) * limit == p * limit;
    }
  }

  /** A total that grows but does not outrun the pages still ends the walk:
      with limit 2, a total of 3 on page 1 and 4 on page 2, two pages are
      requested. */
  lemma GrowingTotalStillEnds(client: Client, source: PageSource)
    requires GetProperties(client, source, 1, 2).Ok?
    requires GetProperties(client, source, 1, 2).value.pagination.total == 3
    requires GetProperties(client, source, 2, 2).Ok?
    requires GetProperties(client, source, 2, 2).value.pagination.total == 4
    ensures StopsAt(client, source, 2, 2)
    ensures AllPages(client, source, 2, 2).pages == 2
  {
    assert Proceeds(client, source, 2, 1);
    WalkLengthUnique(client, source, 2, 2, 2);
  }

  lemma CeilDivBounds(total: int, limit: int)
    requires total > 0 && limit >= 1
    ensures (total + limit - 1) / limit >= 1
    ensures ((total + limit - 1) / limit - 1) * limit < total <= ((total + limit - 1) / limit) * limit
  {
    var n := (total + limit - 1) / limit;
    var rem := (total + limit - 1) % limit;
    assert total + limit - 1 == n * limit + rem;
    assert (n - 1) * limit == n * limit - limit;
  }

  lemma ProductMonotone(a: int, b: int, limit: int)
    requires a <= b && limit >= 1
    ensures a * limit <= b * limit
  {
    assert b * limit - a * limit == (b - a) * limit;
    PageAtMostProduct(b - a, limit);
  }

  /** When pages 1 .. ceil(T / limit) all answer with the same total T > 0,
      the walk ends at page ceil(T / limit): it requests exactly those pages
      and succeeds. */
  lemma StableTotalPageCount(client: Client, source: PageSource, limit: int, total: int)
    requires limit >= 1 && total > 0
    requires forall p :: 1 <= p <= (total + limit - 1) / limit ==>
      GetProperties(client, source, p, limit).Ok? && GetProperties(client, source, p, limit).value.pagination.total == total
    ensures StopsAt(client, source, limit, (total + limit - 1) / limit)
    ensures AllPages(client, source, limit, (total + limit - 1) / limit).pages == (total + limit - 1) / limit
    ensures AllPages(client, source, limit, (total + limit - 1) / limit).result.Ok?
  {
    var n := (total + limit - 1) / limit;
    CeilDivBounds(total, limit);
    assert StopsAt(client, source, limit, n);
    forall p | 1 <= p < n
      ensures Proceeds(client, source, limit, p)
    {
      ProductMonotone(p, n - 1, limit);
    }
    WalkLengthUnique(client, source, limit, n, n);
    WalkFromShape(client, source, limit, n, 1);
  }

  /** A sufficient condition for the walk to end: with a limit of at least 1
      and every page from 1 on reporting a total of at most `bound`, page
      `bound` fails or ends the loop. */
  lemma BoundedTotalsStop(client: Client, source: PageSource, limit: int, bound: int)
    requires limit >= 1 && bound >= 1
    requires forall p :: p >= 1 && GetProperties(client, source, p, limit).Ok? ==>
      GetProperties(client, source, p, limit).value.pagination.total <= bound
    ensures StopsAt(client, source, limit, bound)
  {
    PageAtMostProduct(bound, limit);
  }

  // ---------------------------------------------------------------------------
  // Failure

  /** All or nothing: when pages 1 .. k - 1 succeed and ask for more and page k
      fails, the walk requests exactly k pages and fails naming page k. */
  lemma FailingPageAborts(client: Client, source: PageSource, limit: int, k: int)
    requires k >= 1
    requires forall p :: 1 <= p < k ==> Proceeds(client, source, limit, p)
    requires GetProperties(client, source, k, limit).Err?
    ensures StopsAt(client, source, limit, k)
    ensures AllPages(client, source, limit, k) == Walk(k, Err(PageError(k)))
  {
    WalkLengthUnique(client, source, limit, k, k);
    WalkFromShape(client, source, limit, k, 1);
  }

  // ---------------------------------------------------------------------------
  // The recorded scenarios, limit 2

  /** Page 1 and page 2 each hold two properties and report a total of 4: two
      pages are requested and the four properties come back in page order. */
  lemma TwoFullPages(client: Client, source: PageSource, a: Property, b: Property, c: Property, d: Property)
    requires GetProperties(client, source, 1, 2).Ok?
    requires GetProperties(client, source, 1, 2).value.pagination.total == 4
    requires GetProperties(client, source, 1, 2).value.content == [a, b]
    requires GetProperties(client, source, 2, 2).Ok?
    requires GetProperties(client, source, 2, 2).value.pagination.total == 4
    requires GetProperties(client, source, 2, 2).value.content == [c, d]
    ensures StopsAt(client, source, 2, 2)
    ensures AllPages(client, source, 2, 2) == Walk(2, Ok([a, b, c, d]))
  {
    assert Proceeds(client, source, 2, 1);
    assert !Proceeds(client, source, 2, 2);
    WalkLengthUnique(client, source, 2, 2, 2);
    WalkFromShape(client, source, 2, 2, 1);
    assert LastPage(client, source, 2, 2, 1) == 2;
    assert AllPages(client, source, 2, 2).result.Ok?;
    assert PagesContent(client, source, 2, 1, 3) == [a, b] + ([c, d] + []) == [a, b, c, d];
    assert AllPages(client, source, 2, 2).result.value == PagesContent(client, source, 2, 1, 3);
  }

  /** Page 1 holds two of four properties and page 2 fails: the walk fails
      naming page 2 and returns no properties. */
  lemma SecondPageFails(client: Client, source: PageSource)
    requires GetProperties(client, source, 1, 2).Ok?
    requires GetProperties(client, source, 1, 2).value.pagination.total == 4
    requires GetProperties(client, source, 2, 2).Err?
    ensures StopsAt(client, source, 2, 2)
    ensures AllPages(client, source, 2, 2) == Walk(2, Err(PageError(2)))
  {
    FailingPageAborts(client, source, 2, 2);
  }

  // ---------------------------------------------------------------------------
  // Construction and titles

  /** The key checks behind the constructor: undefined, "" and a blank key are
      refused; any key with a visible character is kept as given. */
  lemma ConstructorCases()
    ensures NewClient(None) == Err(ApiKeyRequired)
    ensures NewClient(Some("")) == Err(ApiKeyRequired)
    ensures NewClient(Some(" \t\r\n")) == Err(ApiKeyRequired)
    ensures NewClient(Some(" key ")) == Ok(Client(" key "))
  {
    assert !JsString.IsWhitespace(" key "[1]);
  }

  /** The titles of a concatenation of pages are the titles of each page in turn. */
  lemma TitleLinesConcat(xs: seq<Property>, ys: seq<Property>)
    ensures TitleLines(xs + ys) == TitleLines(xs) + TitleLines(ys)
  {
  }

  /** Each line gives back the title it was made from. */
  lemma TitleLinesRecoverTitles(properties: seq<Property>)
    ensures forall i :: 0 <= i < |properties| ==>
      TitleLines(properties)[i][..|TitleLabel|] == TitleLabel &&
      TitleLines(properties)[i][|TitleLabel|..] == properties[i].title
  {
  }

  /** Two properties give two labelled lines, in order. */
  lemma TitleLinesOfTwo()
    ensures TitleLines([Property("Property 1"), Property("Property 2")]) ==
            ["Property title: Property 1", "Property title: Property 2"]
  {
    assert TitleLabel + "Property 1" == "Property title: Property 1";
    assert TitleLabel + "Property 2" == "Property title: Property 2";
  }
}
