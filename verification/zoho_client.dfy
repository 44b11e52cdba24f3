/** The Zoho CRM client of backend/src/ingestion/zohoClient.js: one call to the API
    (`fetchFromZoho`) and the paging loop that collects every record modified since a
    cursor (`fetchModifiedRecords`). The network is an oracle: `replies[p - 1]` is what
    the exchange for page `p` yields, and a page past the end of `replies` answers 204. */
module ZohoClient {
  import opened Wrappers
  import ZohoAuth

  /** Records asked for per page. */
  const PerPage: nat := 200

  /** A decoded response body: its `data` array (absent or `null` as `None`) and
      `info.more_records` (false when `info` is absent). */
  datatype Body<R> = Body(data: Option<seq<R>>, moreRecords: bool)

  /** What one exchange yields: the access token could not be obtained, the request
      got no response, or an HTTP status with a body that is JSON (`Some`) or not (`None`). */
  datatype Exchange<R> =
    | AuthFailed(error: ZohoAuth.AuthError)
    | NoResponse(reason: string)
    | Http(status: int, body: Option<Body<R>>)

  datatype ZohoError =
    | TokenError(error: ZohoAuth.AuthError)
    | NetworkError(reason: string)
    | MalformedBody(status: int)
    | ApiError(status: int)

  /** `fetchFromZoho`: 204 is an empty listing and its body is never read; any other
      body is decoded first, and then a status of 400 or more is an error. */
  function FetchFromZoho<R>(x: Exchange<R>): (r: Result<Body<R>, ZohoError>)
    ensures x.Http? && x.status == 204 ==> r == Success(Body(Some([]), false))
    ensures x.Http? && x.status != 204 && x.status >= 400 ==> r.Failure?
    ensures x.Http? && x.status != 204 && x.body.None? ==> r == Failure(MalformedBody(x.status))
    ensures r.Success? ==> x.Http? && (x.status == 204 || (x.status < 400 && x.body == Some(r.value)))
    ensures x.AuthFailed? ==> r == Failure(TokenError(x.error))
    ensures x.NoResponse? ==> r == Failure(NetworkError(x.reason))
  {
    match x
    case AuthFailed(e) => Failure(TokenError(e))
    case NoResponse(reason) => Failure(NetworkError(reason))
    case Http(status, body) =>
      if status == 204 then Success(Body(Some([]), false))
      else if body.None? then Failure(MalformedBody(status))
      else if status >= 400 then Failure(ApiError(status))
      else Success(body.value)
  }

  /** The search criterion `(field:greater_equal:value)`. */
  datatype Criterion = GreaterEqual(field: string, value: string)

  function ModifiedSince(since: string): Criterion {
    GreaterEqual("Modified_Time", since)
  }

  /** `GET /{module}/search?criteria=...&page=...&per_page=...`. */
  datatype SearchRequest = SearchRequest(moduleName: string, criterion: Criterion, page: nat, perPage: nat)

  /** `requests` are pages 1, 2, ... of the search for the records of `moduleName`
      modified since `since`, 200 to a page. */
  predicate SearchesFor(requests: seq<SearchRequest>, moduleName: string, since: string) {
    forall i :: 0 <= i < |requests| ==>
      requests[i] == SearchRequest(moduleName, ModifiedSince(since), i + 1, PerPage)
  }

  /** The exchange for page `page`. */
  function ReplyTo<R>(replies: seq<Exchange<R>>, page: nat): Exchange<R>
    requires page >= 1
  {
    if page <= |replies| then replies[page - 1] else Http(204, None)
  }

  /** A page that carries records (`response.data && response.data.length > 0`). */
  predicate HasRecords<R>(b: Body<R>) {
    b.data.Some? && |b.data.value| > 0
  }

  /** Records `xs` in front of a listing that may still fail. */
  function Prepend<R>(xs: seq<R>, rest: Result<seq<R>, ZohoError>): Result<seq<R>, ZohoError> {
    match rest
    case Success(ys) => Success(xs + ys)
    case Failure(e) => Failure(e)
  }

  lemma PrependAssociative<R>(xs: seq<R>, ys: seq<R>, rest: Result<seq<R>, ZohoError>)
    ensures Prepend(xs, Prepend(ys, rest)) == Prepend(xs + ys, rest)
    ensures Prepend([], rest) == rest
  {
    if rest.Success? {
      assert xs + (ys + rest.value) == (xs + ys) + rest.value;
      assert [] + rest.value == rest.value;
    }
  }

  /** The records of page `page` and of every page fetched after it: an error anywhere
      fails the whole listing; a page without records, or one without `more_records`,
      ends it. */
  function PagesFrom<R>(replies: seq<Exchange<R>>, page: nat): (r: Result<seq<R>, ZohoError>)
    requires page >= 1
    decreases |replies| + 1 - page
  {
    if page > |replies| then Success([])
    else
      match FetchFromZoho(replies[page - 1])
      case Failure(e) => Failure(e)
      case Success(body) =>
        if !HasRecords(body) then Success([])
        else if body.moreRecords then Prepend(body.data.value, PagesFrom(replies, page + 1))
        else Success(body.data.value)
  }

  /** The number of requests sent from page `page` on. */
  function PageCount<R>(replies: seq<Exchange<R>>, page: nat): (n: nat)
    requires page >= 1
    ensures n >= 1
    decreases |replies| + 1 - page
  {
    if page > |replies| then 1
    else
      match FetchFromZoho(replies[page - 1])
      case Failure(_) => 1
      case Success(body) =>
        if HasRecords(body) && body.moreRecords then 1 + PageCount(replies, page + 1) else 1
  }

  /** The requests the paging loop sends for the listing `replies` answers. */
  function SearchRequests<R>(moduleName: string, since: string, replies: seq<Exchange<R>>)
    : (q: seq<SearchRequest>)
    ensures |q| == PageCount(replies, 1)
    ensures SearchesFor(q, moduleName, since)
  {
    seq(PageCount(replies, 1), i requires 0 <= i => SearchRequest(moduleName, ModifiedSince(since), i + 1, PerPage))
  }

  /** `fetchModifiedRecords`: the records the paging loop collects, and the requests it
      sends, in order. */
  method FetchModifiedRecords<R>(moduleName: string, since: string, replies: seq<Exchange<R>>)
    returns (records: Result<seq<R>, ZohoError>, requests: seq<SearchRequest>)
    ensures records == PagesFrom(replies, 1)
    ensures |requests| == PageCount(replies, 1)
    ensures forall i :: 0 <= i < |requests| ==>
              requests[i] == SearchRequest(moduleName, ModifiedSince(since), i + 1, PerPage)
    ensures requests == SearchRequests(moduleName, since, replies)
  {
    var all: seq<R> := [];
    var page: nat := 1;
    var hasMore := true;
    requests := [];
    PrependAssociative(all, all, PagesFrom(replies, 1));
    while hasMore
      invariant 1 <= page <= |replies| + 1
      invariant forall i :: 0 <= i < |requests| ==>
                  requests[i] == SearchRequest(moduleName, ModifiedSince(since), i + 1, PerPage)
      invariant hasMore ==> |requests| == page - 1
      invariant hasMore ==> PagesFrom(replies, 1) == Prepend(all, PagesFrom(replies, page))
      invariant hasMore ==> PageCount(replies, 1) == page - 1 + PageCount(replies, page)
      invariant !hasMore ==> PagesFrom(replies, 1) == Success(all) && PageCount(replies, 1) == |requests|
      decreases |replies| + 1 - page, hasMore
    {
      requests := requests + [SearchRequest(moduleName, ModifiedSince(since), page, PerPage)];
      var response := FetchFromZoho(ReplyTo(replies, page));
      if response.Failure? {
        records := Failure(response.error);
        return;
      }
      var body := response.value;
      if HasRecords(body) {
        PrependAssociative(all, body.data.value, PagesFrom(replies, page + 1));
        assert all + body.data.value + [] == all + body.data.value;
        all := all + body.data.value;
        page := page + 1;
        hasMore := body.moreRecords;
      } else {
        assert all + [] == all;
        hasMore := false;
      }
    }
    records := Success(all);
  }

  /** The records of every exchange, in order. */
  function AllData<R>(bodies: seq<Body<R>>): seq<R> {
    if |bodies| == 0 then [] else bodies[0].data.GetOr([]) + AllData(bodies[1..])
  }

  /** When pages `page..page + |bodies| - 1` all answer 200 with records, every one but
      the last announcing more, the listing is the concatenation of their records. */
  lemma {:induction false} PagesConcatenate<R>(replies: seq<Exchange<R>>, page: nat, bodies: seq<Body<R>>)
    requires page >= 1 && |bodies| >= 1 && page - 1 + |bodies| <= |replies|
    requires forall i :: 0 <= i < |bodies| ==> replies[page - 1 + i] == Http(200, Some(bodies[i]))
    requires forall i :: 0 <= i < |bodies| ==> HasRecords(bodies[i])
    requires forall i :: 0 <= i < |bodies| - 1 ==> bodies[i].moreRecords
    requires !bodies[|bodies| - 1].moreRecords
    ensures PagesFrom(replies, page) == Success(AllData(bodies))
    ensures PageCount(replies, page) == |bodies|
    decreases |bodies|
  {
    assert replies[page - 1] == Http(200, Some(bodies[0]));
    assert FetchFromZoho(replies[page - 1]) == Success(bodies[0]);
    assert HasRecords(bodies[0]);
    if |bodies| == 1 {
      assert !bodies[0].moreRecords;
      assert AllData(bodies[1..]) == [];
      assert bodies[0].data.value + [] == bodies[0].data.value;
    } else {
      var rest := bodies[1..];
      forall i | 0 <= i < |rest|
        ensures replies[page + 1 - 1 + i] == Http(200, Some(rest[i]))
      {
        assert replies[page + 1 - 1 + i] == replies[page - 1 + (i + 1)];
      }
      PagesConcatenate(replies, page + 1, rest);
    }
  }

  /** Exchanges after the one that ends the listing are never looked at: answering more
      pages changes neither the records nor the requests. */
  lemma {:induction false} LaterRepliesIgnored<R>(replies: seq<Exchange<R>>, extra: seq<Exchange<R>>, page: nat)
    requires page >= 1
    requires page - 1 + PageCount(replies, page) <= |replies|
    ensures PagesFrom(replies + extra, page) == PagesFrom(replies, page)
    ensures PageCount(replies + extra, page) == PageCount(replies, page)
    decreases |replies| + 1 - page
  {
    assert (replies + extra)[page - 1] == replies[page - 1];
    match FetchFromZoho(replies[page - 1])
    case Failure(_) =>
    case Success(body) =>
      if HasRecords(body) && body.moreRecords {
        LaterRepliesIgnored(replies, extra, page + 1);
      }
  }

  /** A failed exchange on a page that is requested fails the whole listing: no partial
      result is returned. */
  lemma {:induction false} FailureDiscardsRecords<R>(replies: seq<Exchange<R>>, page: nat, k: nat)
    requires 1 <= page <= k <= |replies|
    requires k < page + PageCount(replies, page)
    requires FetchFromZoho(replies[k - 1]).Failure?
    ensures PagesFrom(replies, page).Failure?
    decreases k - page
  {
    if page < k {
      FailureDiscardsRecords(replies, page + 1, k);
    }
  }
}
