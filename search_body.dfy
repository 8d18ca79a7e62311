/** The search results view of src/components/SearchBody.tsx: the state the
    effects keep (posts, page, hasMore, loading, isFetching), the reset on a
    new query, the guarded fetch, and the four columns it renders. */
module SearchBody {
  import opened Common
  import opened FeedList
  import FeedActions

  /** The normalisation of SearchBody.tsx:53-60: the avatar default, and
      `createdAt` rewritten by `iso` (standing for `toISOString`). */
  function NormalizeResults(batch: seq<Post>, iso: string -> string): (r: seq<Post>)
    ensures |r| == |batch|
    ensures forall i :: 0 <= i < |batch| ==>
              r[i].id == batch[i].id && r[i].title == batch[i].title && r[i].imgUrl == batch[i].imgUrl
              && r[i].createdAt == iso(batch[i].createdAt)
              && r[i].user == Normalize(batch[i]).user
    ensures Ids(r) == Ids(batch)
  {
    if batch == [] then []
    else
      var p := batch[|batch| - 1];
      NormalizeResults(batch[..|batch| - 1], iso) + [Normalize(p).(createdAt := iso(p.createdAt))]
  }

  class SearchFeed {
    var query: string
    var posts: seq<Post>
    var page: nat
    var hasMore: bool
    var loading: bool
    var isFetching: bool

    /** The page number is positive and the merge keeps ids unique. */
    predicate Valid()
      reads this
    {
      page >= 1 && UniqueIds(posts)
    }

    constructor (query: string)
      ensures Valid()
      ensures this.query == query && posts == [] && page == 1 && hasMore && loading && !isFetching
    {
      this.query := query;
      posts, page, hasMore, loading, isFetching := [], 1, true, true, false;
    }

    /** The reset effect on a new `q` parameter (SearchBody.tsx:38-43). */
    method ChangeQuery(q: string)
      modifies this
      ensures Valid()
      ensures query == q && posts == [] && page == 1 && hasMore && loading
      ensures isFetching == old(isFetching)
    {
      query := q;
      posts, page, hasMore, loading := [], 1, true, true;
    }

    /** The guard and first step of fetchPosts (SearchBody.tsx:46-48). */
    method BeginFetch() returns (started: bool)
      requires Valid()
      modifies this
      ensures Valid()
      ensures started <==> old(query != "" && hasMore && !isFetching)
      ensures started ==> isFetching
      ensures !started ==> isFetching == old(isFetching)
      ensures query == old(query) && posts == old(posts) && page == old(page)
      ensures hasMore == old(hasMore) && loading == old(loading)
    {
      if query == "" || !hasMore || isFetching {
        return false;
      }
      isFetching := true;
      started := true;
    }

    /** The rest of fetchPosts (SearchBody.tsx:51-76): `outcome` is the
        search reply, None when the call throws. */
    method CompleteFetch(outcome: Option<FeedActions.SearchResult<Post>>, iso: string -> string)
      requires Valid() && isFetching
      modifies this
      ensures Valid()
      ensures !loading && !isFetching
      ensures query == old(query) && page == old(page)
      ensures outcome.None? ==> posts == old(posts) && hasMore == old(hasMore)
      ensures outcome.Some? ==>
                posts == Merge(old(posts), NormalizeResults(outcome.value.posts, iso))
                && hasMore == outcome.value.hasMore
                && |old(posts)| <= |posts| && posts[..|old(posts)|] == old(posts)
                && Ids(posts) == Ids(old(posts)) + Ids(outcome.value.posts)
    {
      if outcome.Some? {
        var normalized := NormalizeResults(outcome.value.posts, iso);
        var merged := Merge(posts, normalized);
        MergeFacts(posts, normalized, merged);
        posts, hasMore := merged, outcome.value.hasMore;
      }
      loading, isFetching := false, false;
    }

    /** The scroll handler (SearchBody.tsx:84-88); `nearBottom` stands for
        the window geometry test. */
    method Scroll(nearBottom: bool)
      requires Valid()
      modifies this
      ensures Valid()
      ensures page == if nearBottom && hasMore && !isFetching then old(page) + 1 else old(page)
      ensures query == old(query) && posts == old(posts) && hasMore == old(hasMore)
      ensures loading == old(loading) && isFetching == old(isFetching)
    {
      if nearBottom && hasMore && !isFetching {
        page := page + 1;
      }
    }
  }
}
