/**
 * `comment-scraper/yt-comment-extractor.py`: the earlier extractor, whose
 * `get_video_comments` keeps only the distinct `textDisplay` strings and returns them as a tuple.
 */
module CommentScraper {
  import opened Wrappers
  import opened YouTubeApi
  import CommentsExtractor

  /** The distinct texts of one page's items. */
  function TextSet(items: seq<Item>): set<string>
  {
    set it | it in items :: it.textDisplay
  }

  /** The distinct `textDisplay` strings of the items of `pages`. */
  function TextsOf(pages: seq<Page>): set<string>
  {
    if pages == [] then {} else TextsOf(pages[..|pages| - 1]) + TextSet(pages[|pages| - 1].items)
  }

  lemma TextsOfSnoc(pages: seq<Page>, k: nat)
    requires k < |pages|
    ensures TextsOf(pages[..k + 1]) == TextsOf(pages[..k]) + TextSet(pages[k].items)
  {
    assert pages[..k + 1][..k] == pages[..k];
  }

  /**
   * The texts this extractor keeps are the texts of the pairs the later extractor keeps: a text
   * is kept once whatever like counts it came with.
   */
  lemma {:induction false} TextsOfPairs(pages: seq<Page>)
    ensures TextsOf(pages) == set it | it in CommentsExtractor.PairsOf(pages) :: it.textDisplay
  {
    if pages != [] {
      TextsOfPairs(pages[..|pages| - 1]);
    }
  }

  /** The same page as for the later extractor: the two `"a"` items give a single text. */
  lemma TextsCollapse()
    ensures TextsOf([Page([Item(1, "a"), Item(2, "a"), Item(1, "a")], None)]) == {"a"}
  {
    var page := Page([Item(1, "a"), Item(2, "a"), Item(1, "a")], None);
    assert [page][..0] == [];
    assert page.items[0].textDisplay == "a";
  }

  /** The inner `for` loop: every item's text is added to the set. */
  method AddTexts(comments: set<string>, items: seq<Item>) returns (r: set<string>)
    ensures r == comments + TextSet(items)
  {
    r := comments;
    var i := 0;
    while i < |items|
      invariant 0 <= i <= |items|
      invariant r == comments + TextSet(items[..i])
    {
      assert items[..i + 1] == items[..i] + [items[i]];
      r := r + {items[i].textDisplay};
      i := i + 1;
    }
    assert items[..i] == items;
  }

  /**
   * The `try` block: the first request without a token, then one request per `nextPageToken`,
   * adding each received page's texts, until a page has no token or a request fails.
   */
  method CollectTexts(youtube: YouTube, vid: string, max: int) returns (comments: set<string>)
    requires youtube.requests == []
    modifies youtube
    ensures var n := Received(youtube.pages, youtube.failAt, 0);
      && comments == TextsOf(youtube.pages[..n])
      && youtube.requests == RequestsFor(vid, max, youtube.pages, n + if FailedAfter(youtube.pages, n) then 1 else 0)
  {
    var pages, failAt := youtube.pages, youtube.failAt;
    comments := {};
    var response := youtube.List(Request(vid, max, None));
    var k := 1;
    ghost var got := 0;
    assert youtube.requests == RequestsFor(vid, max, pages, 1);
    if response.Some? {
      comments := AddTexts(comments, response.value.items);
      TextsOfSnoc(pages, 0);
      got := 1;
    }
    while response.Some? && response.value.nextPageToken.Some?
      invariant 1 <= k <= |pages| + 1 && k == |youtube.requests|
      invariant got == if response.Some? then k else k - 1
      invariant youtube.requests == RequestsFor(vid, max, pages, k)
      invariant response == Respond(pages, failAt, k - 1)
      invariant forall j :: 0 <= j < k - 1 ==> Respond(pages, failAt, j).Some? && pages[j].nextPageToken.Some?
      invariant comments == TextsOf(pages[..got])
      decreases |pages| + 1 - k
    {
      var token := response.value.nextPageToken.value;
      RequestsSnoc(vid, max, pages, k);
      response := youtube.List(Request(vid, max, Some(token)));
      if response.Some? {
        comments := AddTexts(comments, response.value.items);
        TextsOfSnoc(pages, k);
        got := k + 1;
      }
      k := k + 1;
    }
    RunEnds(pages, failAt, k);
  }

  /** `tuple(comments)`: every text of the set once, in the set's own order. */
  method ToTuple(s: set<string>) returns (t: seq<string>)
    ensures |t| == |s|
    ensures forall x :: x in t <==> x in s
    ensures forall i, j :: 0 <= i < j < |t| ==> t[i] != t[j]
  {
    t := [];
    var rest := s;
    while rest != {}
      invariant rest <= s && |t| + |rest| == |s|
      invariant forall x :: x in t <==> x in s && x !in rest
      invariant forall i, j :: 0 <= i < j < |t| ==> t[i] != t[j]
      decreases |rest|
    {
      var c :| c in rest;
      t := t + [c];
      rest := rest - {c};
    }
  }

  /**
   * `get_video_comments(videoID, max_results)` against the server script `pages` / `failAt`.
   * With valid arguments the result holds each distinct text of the pages received before the
   * run stopped exactly once; the requests made are the first without a token and one per token
   * received. With invalid arguments the assertion fails before any request.
   */
  method GetVideoComments(pages: seq<Page>, failAt: Option<nat>, videoId: Arg, maxResults: Arg)
    returns (r: Result<seq<string>, ArgError>, ghost requests: seq<Request>)
    ensures r.Failure? <==> CheckArgs(videoId, maxResults).Failure?
    ensures r.Failure? ==> r.error == CheckArgs(videoId, maxResults).error && requests == []
    ensures r.Success? ==>
      var n := Received(pages, failAt, 0);
      && |r.value| == |TextsOf(pages[..n])|
      && (forall x :: x in r.value <==> x in TextsOf(pages[..n]))
      && (forall i, j :: 0 <= i < j < |r.value| ==> r.value[i] != r.value[j])
      && requests == RequestsFor(videoId.s, maxResults.i, pages, n + if FailedAfter(pages, n) then 1 else 0)
  {
    var checked := CheckArgs(videoId, maxResults);
    if checked.Failure? {
      return Failure(checked.error), [];
    }
    var (vid, max) := checked.value;
    var youtube := new YouTube(pages, failAt);
    var comments := CollectTexts(youtube, vid, max);
    var t := ToTuple(comments);
    return Success(t), youtube.requests;
  }

  const VideoId: string := "sW9npZVpiMI"
  const MaxResults: int := 100

  /**
   * `main`: the fixed video id and `MAX_RESULTS` = 100 pass the argument assertions, so every
   * request is for that video and the saved tuple holds each received text once.
   */
  method RunMain(pages: seq<Page>, failAt: Option<nat>) returns (comments: seq<string>, ghost requests: seq<Request>)
    ensures forall x :: x in comments <==> x in TextsOf(pages[..Received(pages, failAt, 0)])
    ensures forall i, j :: 0 <= i < j < |comments| ==> comments[i] != comments[j]
    ensures forall j :: 0 <= j < |requests| ==> requests[j].videoId == VideoId && requests[j].maxResults == MaxResults
  {
    var r;
    r, requests := GetVideoComments(pages, failAt, StrArg(VideoId), IntArg(MaxResults));
    comments := r.value;
  }
}
