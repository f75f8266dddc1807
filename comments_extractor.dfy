/**
 * `src/comments-extractor/yt-comments-extractor.py`: `get_video_comments` collects the distinct
 * `(likeCount, textDisplay)` pairs of every page of a video's comment threads and numbers them.
 */
module CommentsExtractor {
  import opened Wrappers
  import opened PyStr
  import opened YouTubeApi

  /** The distinct pairs of one page's items. */
  function ItemSet(items: seq<Item>): set<Item>
  {
    set it | it in items
  }

  /** The distinct `(likeCount, textDisplay)` pairs of the items of `pages`. */
  function PairsOf(pages: seq<Page>): set<Item>
  {
    if pages == [] then {} else PairsOf(pages[..|pages| - 1]) + ItemSet(pages[|pages| - 1].items)
  }

  /** A pair is collected exactly when some page has an item with that like count and text. */
  lemma {:induction false} PairsOfMembers(pages: seq<Page>)
    ensures forall it :: it in PairsOf(pages) <==> exists k :: 0 <= k < |pages| && it in pages[k].items
  {
    if pages != [] {
      var front := pages[..|pages| - 1];
      PairsOfMembers(front);
      assert forall k :: 0 <= k < |front| ==> front[k] == pages[k];
    }
  }

  lemma PairsOfSnoc(pages: seq<Page>, k: nat)
    requires k < |pages|
    ensures PairsOf(pages[..k + 1]) == PairsOf(pages[..k]) + ItemSet(pages[k].items)
  {
    assert pages[..k + 1][..k] == pages[..k];
  }

  /** The inner `for` loop: every item's pair is added to the set. */
  method AddPairs(comments: set<Item>, items: seq<Item>) returns (r: set<Item>)
    ensures r == comments + ItemSet(items)
  {
    r := comments;
    var i := 0;
    while i < |items|
      invariant 0 <= i <= |items|
      invariant r == comments + set it | it in items[..i]
    {
      assert items[..i + 1] == items[..i] + [items[i]];
      r := r + {items[i]};
      i := i + 1;
    }
    assert items[..i] == items;
  }

  /**
   * `d` numbers the elements of `s`: its keys are `"0"` to `"n-1"` for `n = |s|`, its values
   * are exactly the elements of `s`, and no two keys share a value.
   */
  ghost predicate Indexed(d: map<string, Item>, s: set<Item>) {
    && (forall key :: key in d <==> exists j :: 0 <= j < |s| && key == Decimal(j))
    && (forall it :: it in s <==> exists key :: key in d && d[key] == it)
    && (forall a, b :: a in d && b in d && d[a] == d[b] ==> a == b)
  }

  /** `{str(index): ... for index, (like_count, comment) in enumerate(comments)}`, in the set's own order. */
  method Enumerate(s: set<Item>) returns (d: map<string, Item>)
    ensures Indexed(d, s)
  {
    d := map[];
    var rest := s;
    var i := 0;
    ghost var order: seq<Item> := [];
    while rest != {}
      invariant i == |order| && d == Numbered(order)
      invariant rest <= s && |order| + |rest| == |s|
      invariant forall j, m :: 0 <= j < m < |order| ==> order[j] != order[m]
      invariant forall it :: it in order <==> it in s && it !in rest
      decreases |rest|
    {
      var c :| c in rest;
      d := d[Decimal(i) := c];
      rest := rest - {c};
      order := order + [c];
      i := i + 1;
    }
    NumberedKeys(order);
    IndexedByOrder(d, s, order);
  }

  /** The map that gives key `str(j)` to the `j`-th element of `order`. */
  function Numbered(order: seq<Item>): map<string, Item>
  {
    if order == [] then map[]
    else Numbered(order[..|order| - 1])[Decimal(|order| - 1) := order[|order| - 1]]
  }

  /** `Numbered(order)` has exactly the keys `"0"` to `str(|order| - 1)`, key `str(j)` holding `order[j]`. */
  lemma {:induction false} NumberedKeys(order: seq<Item>)
    ensures forall j :: 0 <= j < |order| ==> Decimal(j) in Numbered(order) && Numbered(order)[Decimal(j)] == order[j]
    ensures forall key :: key in Numbered(order) ==> exists j :: 0 <= j < |order| && key == Decimal(j)
  {
    if order != [] {
      var i := |order| - 1;
      var front := order[..i];
      NumberedKeys(front);
      NewKey(i);
      forall j | 0 <= j < i ensures Decimal(j) in Numbered(order) && Numbered(order)[Decimal(j)] == order[j] {
        assert front[j] == order[j];
      }
    }
  }

  /** The next number's key is not among the keys already given out. */
  lemma NewKey(i: nat)
    ensures forall j :: 0 <= j < i ==> Decimal(j) != Decimal(i)
  {
    forall j | 0 <= j < i ensures Decimal(j) != Decimal(i) {
      if Decimal(j) == Decimal(i) {
        DecimalInjective(j, i);
      }
    }
  }

  /** A map that gives key `"j"` the `j`-th element of a duplicate-free listing of `s` numbers `s`. */
  lemma IndexedByOrder(d: map<string, Item>, s: set<Item>, order: seq<Item>)
    requires |order| == |s|
    requires forall j, m :: 0 <= j < m < |order| ==> order[j] != order[m]
    requires forall it :: it in order <==> it in s
    requires forall j :: 0 <= j < |order| ==> Decimal(j) in d && d[Decimal(j)] == order[j]
    requires forall key :: key in d ==> exists j :: 0 <= j < |order| && key == Decimal(j)
    ensures Indexed(d, s)
  {
    forall it | it in s ensures exists key :: key in d && d[key] == it {
      var j :| 0 <= j < |order| && order[j] == it;
      assert d[Decimal(j)] == it;
    }
    forall a, b | a in d && b in d && d[a] == d[b] ensures a == b {
      var j :| 0 <= j < |order| && a == Decimal(j);
      var m :| 0 <= m < |order| && b == Decimal(m);
      assert order[j] == order[m];
    }
  }

  /**
   * `get_video_comments(videoID, max_results)` against the server script `pages` / `failAt`.
   * With valid arguments the result numbers exactly the distinct pairs of the pages received
   * before the run stopped (a page without `nextPageToken`, or an `HttpError`, whose request
   * adds nothing); the requests made are the first without a token and one per token received.
   * With invalid arguments the assertion fails before any request.
   */
  method GetVideoComments(pages: seq<Page>, failAt: Option<nat>, videoId: Arg, maxResults: Arg)
    returns (r: Result<map<string, Item>, ArgError>, ghost requests: seq<Request>)
    ensures r.Failure? <==> CheckArgs(videoId, maxResults).Failure?
    ensures r.Failure? ==> r.error == CheckArgs(videoId, maxResults).error && requests == []
    ensures r.Success? ==>
      var n := Received(pages, failAt, 0);
      && Indexed(r.value, PairsOf(pages[..n]))
      && requests == RequestsFor(videoId.s, maxResults.i, pages, n + if FailedAfter(pages, n) then 1 else 0)
  {
    var checked := CheckArgs(videoId, maxResults);
    if checked.Failure? {
      return Failure(checked.error), [];
    }
    var (vid, max) := checked.value;
    var youtube := new YouTube(pages, failAt);
    var comments := CollectPairs(youtube, vid, max);
    var d := Enumerate(comments);
    return Success(d), youtube.requests;
  }

  /**
   * The `try` block: the first request without a token, then one request per `nextPageToken`,
   * adding each received page's pairs, until a page has no token or a request fails.
   */
  method CollectPairs(youtube: YouTube, vid: string, max: int) returns (comments: set<Item>)
    requires youtube.requests == []
    modifies youtube
    ensures var n := Received(youtube.pages, youtube.failAt, 0);
      && comments == PairsOf(youtube.pages[..n])
      && youtube.requests == RequestsFor(vid, max, youtube.pages, n + if FailedAfter(youtube.pages, n) then 1 else 0)
  {
    var pages, failAt := youtube.pages, youtube.failAt;
    comments := {};
    var response := youtube.List(Request(vid, max, None));
    var k := 1;
    ghost var got := 0;
    assert youtube.requests == RequestsFor(vid, max, pages, 1);
    if response.Some? {
      comments := AddPairs(comments, response.value.items);
      PairsOfSnoc(pages, 0);
      got := 1;
    }
    while response.Some? && response.value.nextPageToken.Some?
      invariant 1 <= k <= |pages| + 1 && k == |youtube.requests|
      invariant got == if response.Some? then k else k - 1
      invariant youtube.requests == RequestsFor(vid, max, pages, k)
      invariant response == Respond(pages, failAt, k - 1)
      invariant forall j :: 0 <= j < k - 1 ==> Respond(pages, failAt, j).Some? && pages[j].nextPageToken.Some?
      invariant comments == PairsOf(pages[..got])
      decreases |pages| + 1 - k
    {
      var token := response.value.nextPageToken.value;
      RequestsSnoc(vid, max, pages, k);
      response := youtube.List(Request(vid, max, Some(token)));
      if response.Some? {
        comments := AddPairs(comments, response.value.items);
        PairsOfSnoc(pages, k);
        got := k + 1;
      }
      k := k + 1;
    }
    RunEnds(pages, failAt, k);
  }

  /**
   * `main` requests with `max_results` = 100, so the argument assertions always hold and the
   * saved data numbers the distinct pairs received.
   */
  method RunMain(pages: seq<Page>, failAt: Option<nat>, videoId: string) returns (comments: map<string, Item>)
    ensures Indexed(comments, PairsOf(pages[..Received(pages, failAt, 0)]))
  {
    var r, _ := GetVideoComments(pages, failAt, StrArg(videoId), IntArg(100));
    comments := r.value;
  }

  /**
   * The set collapses identical pairs only: a repeated `(1, "a")` is kept once, while `(2, "a")`,
   * the same text with another like count, stays beside it.
   */
  lemma PairsCollapseOnlyIdentical()
    ensures PairsOf([Page([Item(1, "a"), Item(2, "a"), Item(1, "a")], None)]) == {Item(1, "a"), Item(2, "a")}
  {
    var page := Page([Item(1, "a"), Item(2, "a"), Item(1, "a")], None);
    assert [page][..0] == [];
    assert ItemSet(page.items) == {Item(1, "a"), Item(2, "a")};
  }
}
