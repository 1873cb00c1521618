/** fetchAllActivities: page through the activity listing, with one fixed
    "before" timestamp, until a page comes back empty, and abort on the
    first response that is not ok. The remote service is a function from
    the request to its response; the wall clock is the parameter before. */
module Fetcher {
  import opened Wrappers
  import opened Activities

  /** The largest page size the listing endpoint accepts. */
  const PerPage: nat := 200

  /** The query of one listing request: ?before=&after=&page=&per_page= */
  datatype Request = Request(before: int, after: int, page: nat, perPage: nat)

  /** A listing response: its status and, when ok, the decoded page. */
  datatype Response = Response(status: int, body: seq<Activity>)

  /** The request the script makes for page n. */
  function PageRequest(before: int, n: nat): Request {
    Request(before, 0, n, PerPage)
  }

  /** The service's answer for page n. */
  function Page(listing: Request -> Response, before: int, n: nat): Response {
    listing(PageRequest(before, n))
  }

  /** A response after which no further page is requested: an error or an
      empty page. */
  predicate Stops(r: Response) {
    !IsOk(r.status) || r.body == []
  }

  /** Page k is the first page, counting from 1, that stops the paging. */
  ghost predicate IsFirstStop(listing: Request -> Response, before: int, k: nat) {
    && 1 <= k
    && Stops(Page(listing, before, k))
    && forall j :: 1 <= j < k ==> !Stops(Page(listing, before, j))
  }

  /** The bodies of pages 1..n, in page order. */
  function Concat(listing: Request -> Response, before: int, n: nat): seq<Activity> {
    if n == 0 then [] else Concat(listing, before, n - 1) + Page(listing, before, n).body
  }

  /** The paging loop. bound is some page the service answers with an
      error or an empty list; without one the loop would not end. */
  method FetchAllActivities(listing: Request -> Response, before: int, ghost bound: nat)
    returns (result: Result<seq<Activity>, Error>, requests: seq<Request>)
    requires 1 <= bound && Stops(Page(listing, before, bound))
    ensures IsFirstStop(listing, before, |requests|)
    ensures forall i :: 0 <= i < |requests| ==> requests[i] == Request(before, 0, i + 1, PerPage)
    ensures var last := Page(listing, before, |requests|);
            if IsOk(last.status) then result == Success(Concat(listing, before, |requests|))
            else result == Failure(FetchFailed(last.status))
  {
    var allActivities: seq<Activity> := [];
    var page: nat := 1;
    var activities: seq<Activity> := [];
    var first := true;
    requests := [];
    while first || |activities| > 0
      invariant 1 <= page <= bound + 1
      invariant |requests| == page - 1
      invariant forall i :: 0 <= i < |requests| ==> requests[i] == PageRequest(before, i + 1)
      invariant allActivities == Concat(listing, before, page - 1)
      invariant forall j :: 1 <= j < page - 1 ==> !Stops(Page(listing, before, j))
      invariant first <==> page == 1
      invariant !first ==> IsOk(Page(listing, before, page - 1).status)
      invariant !first ==> activities == Page(listing, before, page - 1).body
      decreases bound + 1 - page
    {
      assert page <= bound;
      var request := PageRequest(before, page);
      var response := listing(request);
      requests := requests + [request];
      if !IsOk(response.status) {
        result := Failure(FetchFailed(response.status));
        return;
      }
      activities := response.body;
      allActivities := allActivities + activities;
      page := page + 1;
      first := false;
    }
    result := Success(allActivities);
  }

  /** The pages fetched earlier come first: the bodies of pages 1..n are a
      prefix of those of pages 1..m when n <= m. */
  lemma {:induction false} ConcatPrefix(listing: Request -> Response, before: int, n: nat, m: nat)
    requires n <= m
    ensures Concat(listing, before, n) <= Concat(listing, before, m)
    decreases m
  {
    if n < m {
      ConcatPrefix(listing, before, n, m - 1);
    }
  }

  /** An activity is in the result exactly when some page 1..n holds it. */
  lemma {:induction false} ConcatHolds(listing: Request -> Response, before: int, n: nat, x: Activity)
    ensures x in Concat(listing, before, n) <==>
            exists j :: 1 <= j <= n && x in Page(listing, before, j).body
  {
    if n > 0 {
      ConcatHolds(listing, before, n - 1, x);
      if x in Page(listing, before, n).body {
        assert x in Concat(listing, before, n);
      }
    }
  }

  /** The length of the result is the sum of the page sizes, so no page is
      dropped or repeated. */
  lemma {:induction false} ConcatLength(listing: Request -> Response, before: int, n: nat)
    ensures |Concat(listing, before, n)| == PageSizes(listing, before, n)
  {
    if n > 0 {
      ConcatLength(listing, before, n - 1);
    }
  }

  /** The number of activities on pages 1..n. */
  function PageSizes(listing: Request -> Response, before: int, n: nat): nat {
    if n == 0 then 0 else PageSizes(listing, before, n - 1) + |Page(listing, before, n).body|
  }

  /** The first stopping page is unique, so the number of requests the
      script makes is determined by the service's answers. */
  lemma FirstStopUnique(listing: Request -> Response, before: int, k1: nat, k2: nat)
    requires IsFirstStop(listing, before, k1) && IsFirstStop(listing, before, k2)
    ensures k1 == k2
  {
  }

  /** The final, empty page adds nothing: a successful result is the
      concatenation of the non-empty pages before it. */
  lemma LastPageEmpty(listing: Request -> Response, before: int, k: nat)
    requires IsFirstStop(listing, before, k) && IsOk(Page(listing, before, k).status)
    ensures Concat(listing, before, k) == Concat(listing, before, k - 1)
    ensures forall j :: 1 <= j < k ==> Page(listing, before, j).body != []
  {
  }
}
