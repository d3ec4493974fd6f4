/** `GooglePhotosClient.list_media_items`: follows `nextPageToken` from page to
    page and yields every media item of every page it fetches.

    The photo library service is given as the finite sequence of responses it
    would return to successive requests: request k is answered by
    `responses[k]`, and a request beyond the end of the sequence raises (the
    listing then ends incomplete, after the items of the pages already
    fetched). */
module GooglePhotos {
  import opened Wrappers

  /** The fields of a `mediaItems` entry that the catalog uses, each possibly
      absent from the response. */
  datatype RawMetadata = RawMetadata(creationTime: Option<string>)

  datatype RawMediaItem = RawMediaItem(
    id: Option<string>,
    baseUrl: Option<string>,
    mimeType: Option<string>,
    filename: Option<string>,
    mediaMetadata: Option<RawMetadata>)

  /** One `mediaItems.list` response. */
  datatype Page<T> = Page(mediaItems: Option<seq<T>>, nextPageToken: Option<string>)

  /** The arguments of one `mediaItems.list` call. */
  datatype Request = Request(pageSize: int, pageToken: Option<string>)

  const DEFAULT_PAGE_SIZE := 100

  /** `results.get('mediaItems', [])`. */
  function ItemsOf<T>(p: Page<T>): seq<T> {
    p.mediaItems.GetOr([])
  }

  /** A page continues the listing when its token is present and non-empty:
      a missing token and an empty one both end it. */
  predicate HasNext<T>(p: Page<T>)
    ensures p.nextPageToken.None? ==> !HasNext(p)
    ensures p.nextPageToken == Some("") ==> !HasNext(p)
    ensures p.nextPageToken.Some? && p.nextPageToken.value != "" ==> HasNext(p)
  {
    p.nextPageToken.Some? && p.nextPageToken.value != ""
  }

  /** The items of consecutive pages, page after page. */
  function AllItems<T>(pages: seq<Page<T>>): seq<T> {
    if pages == [] then [] else ItemsOf(pages[0]) + AllItems(pages[1..])
  }

  /** What the listing yields: the items, how many responses were used, and
      whether it ended at a page without a next token (true) or at a request
      that raised (false). */
  datatype Listing<T> = Listing(items: seq<T>, pagesUsed: nat, complete: bool)

  /** The listing the pagination loop produces from `responses`. */
  function Paginate<T>(responses: seq<Page<T>>): (l: Listing<T>)
    ensures l.pagesUsed <= |responses|
    ensures l.items == AllItems(responses[..l.pagesUsed])
    ensures forall k :: 0 <= k < l.pagesUsed - 1 ==> HasNext(responses[k])
    ensures l.complete <==> l.pagesUsed > 0 && !HasNext(responses[l.pagesUsed - 1])
    ensures !l.complete ==> l.pagesUsed == |responses|
  {
    if responses == [] then Listing([], 0, false)
    else if !HasNext(responses[0]) then
      assert responses[..1][1..] == [];
      Listing(ItemsOf(responses[0]), 1, true)
    else
      var rest := Paginate(responses[1..]);
      assert responses[..rest.pagesUsed + 1][1..] == responses[1..][..rest.pagesUsed];
      Listing(ItemsOf(responses[0]) + rest.items, rest.pagesUsed + 1, rest.complete)
  }

  /** Listing stops right after the first page without a next token: the
      responses after it are never requested. */
  lemma {:induction false} PaginateStopsAtFirstTerminal<T>(responses: seq<Page<T>>, t: nat)
    requires t < |responses| && !HasNext(responses[t])
    requires forall k :: 0 <= k < t ==> HasNext(responses[k])
    ensures Paginate(responses) == Listing(AllItems(responses[..t + 1]), t + 1, true)
    ensures Paginate(responses) == Paginate(responses[..t + 1])
  {
    if t > 0 {
      PaginateStopsAtFirstTerminal(responses[1..], t - 1);
      assert responses[1..][..t] == responses[..t + 1][1..];
      assert responses[..t + 1][0] == responses[0];
    }
  }

  /** A page without `mediaItems` yields nothing and, when it carries a
      token, does not stop the listing. */
  lemma EmptyPageContinues<T>(token: string, rest: seq<Page<T>>)
    requires token != ""
    ensures Paginate([Page(None, Some(token))] + rest).items == Paginate(rest).items
    ensures Paginate([Page(None, Some(token))] + rest).complete == Paginate(rest).complete
  {
    assert ([Page(None, Some(token))] + rest)[1..] == rest;
  }

  /** The page token of request `k`: none for the first request, the previous
      response's `nextPageToken` for every later one. */
  function TokenFor<T>(responses: seq<Page<T>>, k: nat): Option<string>
    requires k <= |responses|
  {
    if k == 0 then None else responses[k - 1].nextPageToken
  }

  /** The first `n` requests the loop makes. */
  function RequestsFor<T>(responses: seq<Page<T>>, pageSize: int, n: nat): (rs: seq<Request>)
    requires n <= |responses| + 1
    ensures |rs| == n
  {
    if n == 0 then [] else RequestsFor(responses, pageSize, n - 1) + [Request(pageSize, TokenFor(responses, n - 1))]
  }

  /** Request `j` asks for a page of `pageSize` with the token of request `j`. */
  lemma {:induction false} RequestsForAt<T>(responses: seq<Page<T>>, pageSize: int, n: nat)
    requires n <= |responses| + 1
    ensures forall j :: 0 <= j < n ==> RequestsFor(responses, pageSize, n)[j] == Request(pageSize, TokenFor(responses, j))
  {
    if n > 0 {
      RequestsForAt(responses, pageSize, n - 1);
    }
  }

  /** The pagination loop. Returns the items in yield order, the requests it
      made, and whether the listing finished (false: a request raised). */
  method ListMediaItems(responses: seq<Page<RawMediaItem>>, pageSize: int)
    returns (items: seq<RawMediaItem>, requests: seq<Request>, complete: bool)
    ensures 1 <= |requests| <= |responses| + 1
    ensures forall k :: 0 <= k < |requests| ==> requests[k] == Request(pageSize, TokenFor(responses, k))
    ensures forall k :: 0 <= k < |requests| - 1 ==> HasNext(responses[k])
    ensures Paginate(responses) == Listing(items, |requests| - (if complete then 0 else 1), complete)
  {
    var nextPageToken: Option<string> := None;
    items, requests, complete := [], [], false;
    var k := 0;
    while true
      invariant k == |requests| && k <= |responses|
      invariant nextPageToken == TokenFor(responses, k)
      invariant requests == RequestsFor(responses, pageSize, k)
      invariant forall j :: 0 <= j < k ==> HasNext(responses[j])
      invariant Paginate(responses) == Prepend(items, k, Paginate(responses[k..]))
      decreases |responses| - k
    {
      requests := requests + [Request(pageSize, nextPageToken)];
      RequestsForAt(responses, pageSize, k + 1);
      if k == |responses| {
        // The request raised: the generator stops with an exception.
        assert responses[k..] == [];
        complete := false;
        return;
      }
      var results := responses[k];
      PaginateStep(responses, k, items);
      items := items + ItemsOf(results);
      nextPageToken := results.nextPageToken;
      k := k + 1;
      if !HasNext(results) {
        complete := true;
        return;
      }
    }
  }

  /** One turn of the pagination loop: the listing from response `k` on is
      that response's items followed, when it has a next token, by the listing
      from response `k + 1` on. */
  lemma PaginateStep<T>(responses: seq<Page<T>>, k: nat, items: seq<T>)
    requires k < |responses|
    ensures var page := responses[k];
            Prepend(items, k, Paginate(responses[k..])) ==
              if HasNext(page) then Prepend(items + ItemsOf(page), k + 1, Paginate(responses[k + 1..]))
              else Listing(items + ItemsOf(page), k + 1, true)
  {
    var tail := responses[k..];
    assert tail[0] == responses[k] && tail[1..] == responses[k + 1..];
    if HasNext(responses[k]) {
      var rest := Paginate(responses[k + 1..]);
      assert items + (ItemsOf(responses[k]) + rest.items) == items + ItemsOf(responses[k]) + rest.items;
    }
  }

  /** The listing of earlier pages (`items`, from `k` responses) followed by `rest`. */
  function Prepend<T>(items: seq<T>, k: nat, rest: Listing<T>): Listing<T> {
    Listing(items + rest.items, k + rest.pagesUsed, rest.complete)
  }
}
