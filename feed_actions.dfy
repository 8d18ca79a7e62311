/** Pagination of getFeedAction and searchPostsAction (src/app/actions.ts):
    the database query is given as the full result list in its order
    (newest first); a page skips `(page - 1) * limit` rows and takes `limit`. */
module FeedActions {
  import opened Common

  /** `findMany({ skip, take })` over `rows`. */
  function Slice<T>(rows: seq<T>, skip: nat, take: nat): (r: seq<T>)
    ensures |r| == Min(take, Max(0, |rows| - skip))
    ensures forall i :: 0 <= i < |r| ==> r[i] == rows[skip + i]
  {
    if skip >= |rows| then [] else rows[skip..Min(skip + take, |rows|)]
  }

  /** `findMany({ skip: (page - 1) * limit, take: limit })` over `rows`. */
  function Page<T>(rows: seq<T>, page: nat, limit: nat): (r: seq<T>)
    requires page >= 1
    ensures |r| == Min(limit, Max(0, |rows| - (page - 1) * limit))
    ensures forall i :: 0 <= i < |r| ==> r[i] == rows[(page - 1) * limit + i]
  {
    Slice(rows, (page - 1) * limit, limit)
  }

  /** The rows skipped before page n + 1, counted page by page. */
  function Skipped(n: nat, limit: nat): nat {
    if n == 0 then 0 else Skipped(n - 1, limit) + limit
  }

  lemma {:induction false} SkippedIsProduct(n: nat, limit: nat)
    ensures Skipped(n, limit) == n * limit
  {
    if n > 0 {
      SkippedIsProduct(n - 1, limit);
      assert n * limit == (n - 1) * limit + limit;
    }
  }

  /** Pages 1 to n, read in order, are the first n * limit rows: nothing is
      skipped twice and nothing is left out between pages. */
  lemma PagesTile<T>(rows: seq<T>, n: nat, limit: nat)
    ensures Pages(rows, n, limit) == rows[..Min(n * limit, |rows|)]
  {
    PagesTileSkipped(rows, n, limit);
    SkippedIsProduct(n, limit);
  }

  lemma {:induction false} PagesTileSkipped<T>(rows: seq<T>, n: nat, limit: nat)
    ensures Pages(rows, n, limit) == rows[..Min(Skipped(n, limit), |rows|)]
  {
    if n > 0 {
      PagesTileSkipped(rows, n - 1, limit);
      PageAtSkipped(rows, n, limit);
      TileStep(rows, Skipped(n - 1, limit), limit);
    }
  }

  lemma PageAtSkipped<T>(rows: seq<T>, n: nat, limit: nat)
    requires n >= 1
    ensures Page(rows, n, limit) == Slice(rows, Skipped(n - 1, limit), limit)
  {
    SkippedIsProduct(n - 1, limit);
  }

  /** The rows before `skip`, then the slice at `skip`, are the rows before
      `skip + take`. */
  lemma TileStep<T>(rows: seq<T>, skip: nat, take: nat)
    ensures rows[..Min(skip, |rows|)] + Slice(rows, skip, take) == rows[..Min(skip + take, |rows|)]
  {
    var lo, hi := Min(skip, |rows|), Min(skip + take, |rows|);
    assert Slice(rows, skip, take) == rows[lo..hi];
    assert rows[..lo] + rows[lo..hi] == rows[..hi];
  }

  /** Pages 1 to n concatenated. */
  function Pages<T>(rows: seq<T>, n: nat, limit: nat): seq<T> {
    if n == 0 then [] else Pages(rows, n - 1, limit) + Page(rows, n, limit)
  }

  datatype SearchResult<T> = SearchResult(posts: seq<T>, hasMore: bool)

  /** searchPostsAction (actions.ts:375-416): `matches` are the posts the
      search predicate selects, newest first, and `failed` says whether the
      query throws. An empty query and a failed one both return nothing. */
  function SearchPosts<T>(query: string, matches: seq<T>, page: nat, limit: nat, failed: bool): (r: SearchResult<T>)
    requires page >= 1
    ensures query == "" || failed ==> r == SearchResult([], false)
    ensures query != "" && !failed ==> r.posts == Page(matches, page, limit)
    ensures query != "" && !failed && limit > 0 ==> (r.hasMore <==> Page(matches, page + 1, limit) != [])
  {
    if query == "" then SearchResult([], false)
    else if failed then SearchResult([], false)
    else SearchResult(Page(matches, page, limit), |matches| > page * limit)
  }

  /** Once a search reports no more, every match has been on pages 1 to page. */
  lemma NoMoreMeansComplete<T>(query: string, matches: seq<T>, page: nat, limit: nat)
    requires page >= 1 && query != ""
    requires !SearchPosts(query, matches, page, limit, false).hasMore
    ensures Pages(matches, page, limit) == matches
  {
    PagesTile(matches, page, limit);
  }

  /** The default page size of getFeedAction and searchPostsAction. */
  const DefaultLimit: nat := 10

  /** getFeedAction(page) (actions.ts:352-372) over the posts newest first. */
  function GetFeed<T>(rows: seq<T>, page: nat): (r: seq<T>)
    requires page >= 1
    ensures |r| == Min(DefaultLimit, Max(0, |rows| - (page - 1) * DefaultLimit))
    ensures forall i :: 0 <= i < |r| ==> r[i] == rows[(page - 1) * DefaultLimit + i]
  {
    Page(rows, page, DefaultLimit)
  }

  /** A page shorter than the limit is the last one: every row has been
      served by pages 1 to n and the next page is empty. This is the rule
      the home feed uses to stop fetching. */
  lemma ShortPageIsLast<T>(rows: seq<T>, n: nat, limit: nat)
    requires n >= 1 && |Page(rows, n, limit)| < limit
    ensures Pages(rows, n, limit) == rows
    ensures Page(rows, n + 1, limit) == []
  {
    PagesTile(rows, n, limit);
    assert (n + 1 - 1) * limit == n * limit;
    assert n * limit == (n - 1) * limit + limit;
  }
}
