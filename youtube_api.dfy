/**
 * The part of the YouTube Data API v3 both comment extractors use: `commentThreads().list(...)
 * .execute()`, seen as a scripted server. The server holds a fixed sequence of response pages;
 * the `k`-th request made is answered by page `k`, unless the script names `k` as the failure
 * point or has no page `k`, in which case the request raises `HttpError`.
 */
module YouTubeApi {
  import opened Wrappers

  /** The `likeCount` and `textDisplay` of an item's top-level comment snippet. */
  datatype Item = Item(likeCount: int, textDisplay: string)

  /** A response: its `items` and, when there are more, its `nextPageToken`. */
  datatype Page = Page(items: seq<Item>, nextPageToken: Option<string>)

  /** The arguments of a `commentThreads().list` request that vary between calls. */
  datatype Request = Request(videoId: string, maxResults: int, pageToken: Option<string>)

  /** An argument value as the extractors receive it, with its dynamic type. */
  datatype Arg = StrArg(s: string) | IntArg(i: int) | OtherArg

  /** Which of the two argument assertions fails. */
  datatype ArgError = VideoIdNotString | MaxResultsOutOfRange

  /**
   * The two assertions at the top of `get_video_comments`: `videoID` must be a string, then
   * `max_results` an int in [1, 100].
   */
  function CheckArgs(videoId: Arg, maxResults: Arg): (r: Result<(string, int), ArgError>)
    ensures r.Success? <==> videoId.StrArg? && maxResults.IntArg? && 1 <= maxResults.i <= 100
    ensures r.Success? ==> r.value == (videoId.s, maxResults.i)
    ensures r.Failure? ==> (r.error == VideoIdNotString <==> !videoId.StrArg?)
  {
    if !videoId.StrArg? then Failure(VideoIdNotString)
    else if !(maxResults.IntArg? && 1 <= maxResults.i <= 100) then Failure(MaxResultsOutOfRange)
    else Success((videoId.s, maxResults.i))
  }

  /** The answer to the `k`-th request: `None` stands for `HttpError`. */
  function Respond(pages: seq<Page>, failAt: Option<nat>, k: nat): (r: Option<Page>)
    ensures r.Some? <==> k < |pages| && failAt != Some(k)
    ensures r.Some? ==> r.value == pages[k]
  {
    if k < |pages| && failAt != Some(k) then Some(pages[k]) else None
  }

  /**
   * How many pages a client receives from request `k` on when it keeps asking while the last
   * page it received has a `nextPageToken`.
   */
  function Received(pages: seq<Page>, failAt: Option<nat>, k: nat): (n: nat)
    ensures n > 0 ==> k + n <= |pages|
    decreases |pages| - k
  {
    match Respond(pages, failAt, k)
    case None => 0
    case Some(page) => if page.nextPageToken.None? then 1 else 1 + Received(pages, failAt, k + 1)
  }

  /** Whether the run from request 0 ended with an `HttpError` rather than a last page. */
  function FailedAfter(pages: seq<Page>, n: nat): bool
    requires n <= |pages|
  {
    n == 0 || pages[n - 1].nextPageToken.Some?
  }

  /** The requests of a run that made `count` of them: the first without a token, each later one with the token of the page before. */
  function RequestsFor(videoId: string, maxResults: int, pages: seq<Page>, count: nat): (rs: seq<Request>)
    requires count <= |pages| + 1
    ensures |rs| == count
    ensures forall j :: 0 <= j < count ==> rs[j].videoId == videoId && rs[j].maxResults == maxResults
    ensures count > 0 ==> rs[0].pageToken == None
    ensures forall j :: 0 < j < count ==> rs[j].pageToken == pages[j - 1].nextPageToken
  {
    seq(count, j requires 0 <= j < count => Request(videoId, maxResults, if j == 0 then None else pages[j - 1].nextPageToken))
  }

  /** The API client, built once per call of `get_video_comments`, and the requests it made. */
  class YouTube {
    const pages: seq<Page>
    const failAt: Option<nat>
    var requests: seq<Request>

    /** `build('youtube', 'v3', developerKey=API_KEY)` over the scripted server. */
    constructor (pages: seq<Page>, failAt: Option<nat>)
      ensures this.pages == pages && this.failAt == failAt && requests == []
    {
      this.pages := pages;
      this.failAt := failAt;
      requests := [];
    }

    /** `youtube.commentThreads().list(...).execute()`: one request, answered by the script. */
    method List(req: Request) returns (response: Option<Page>)
      modifies this
      ensures requests == old(requests) + [req]
      ensures response == Respond(pages, failAt, |old(requests)|)
    {
      response := Respond(pages, failAt, |requests|);
      requests := requests + [req];
    }
  }

  /**
   * A run that gets past requests `0..m-1`, each answered with a page that has a token, has
   * received those `m` pages and then whatever requests `m..` bring.
   */
  lemma {:induction false} ReceivedAfter(pages: seq<Page>, failAt: Option<nat>, k: nat, m: nat)
    requires k <= m
    requires forall j :: k <= j < m ==> Respond(pages, failAt, j).Some? && pages[j].nextPageToken.Some?
    ensures Received(pages, failAt, k) == m - k + Received(pages, failAt, m)
    decreases m - k
  {
    if k < m {
      ReceivedAfter(pages, failAt, k + 1, m);
    }
  }

  /**
   * With a failure point `f` and a token on every page before it, exactly the `f` pages before
   * the failure are received: partial results survive the `HttpError`.
   */
  lemma FailureKeepsEarlierPages(pages: seq<Page>, f: nat)
    requires f <= |pages|
    requires forall j :: 0 <= j < f ==> pages[j].nextPageToken.Some?
    ensures Received(pages, Some(f), 0) == f
    ensures FailedAfter(pages, f)
  {
    ReceivedAfter(pages, Some(f), 0, f);
  }

  /** Without a failure, the run receives every page up to the first one without a token. */
  lemma StopsAtLastPage(pages: seq<Page>, e: nat)
    requires e < |pages| && pages[e].nextPageToken.None?
    requires forall j :: 0 <= j < e ==> pages[j].nextPageToken.Some?
    ensures Received(pages, None, 0) == e + 1
    ensures !FailedAfter(pages, e + 1)
  {
    ReceivedAfter(pages, None, 0, e);
  }

  /**
   * A client that stopped after `k` requests, having followed a token after each of the first
   * `k - 1`, received `Received(pages, failAt, 0)` pages, and made one request more than that
   * exactly when the run ended with an `HttpError`.
   */
  lemma RunEnds(pages: seq<Page>, failAt: Option<nat>, k: nat)
    requires 1 <= k <= |pages| + 1
    requires forall j :: 0 <= j < k - 1 ==> Respond(pages, failAt, j).Some? && pages[j].nextPageToken.Some?
    requires !(Respond(pages, failAt, k - 1).Some? && Respond(pages, failAt, k - 1).value.nextPageToken.Some?)
    ensures Received(pages, failAt, 0) == if Respond(pages, failAt, k - 1).Some? then k else k - 1
    ensures k == Received(pages, failAt, 0) + if FailedAfter(pages, Received(pages, failAt, 0)) then 1 else 0
  {
    ReceivedAfter(pages, failAt, 0, k - 1);
  }

  /** A further request, carrying the token of the last page, extends the run's requests. */
  lemma RequestsSnoc(videoId: string, maxResults: int, pages: seq<Page>, k: nat)
    requires 1 <= k <= |pages|
    ensures RequestsFor(videoId, maxResults, pages, k) + [Request(videoId, maxResults, pages[k - 1].nextPageToken)] ==
      RequestsFor(videoId, maxResults, pages, k + 1)
  {
  }
}
