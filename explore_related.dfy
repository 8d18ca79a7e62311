/** The tag page view of src/components/ExploreRelated.tsx: the tag taken
    from the URL, the reset on a new tag, the guarded fetch of
    exploreRelatedPostsAction, and the four columns it renders. */
module ExploreRelated {
  import opened Common
  import opened FeedList

  /** `decodeURIComponent(pathname.split("/").pop() || "")`, with `decode`
      standing for decodeURIComponent. */
  function TagOf(pathname: string, decode: string -> string): (tag: string)
    ensures tag == decode(LastSegment(pathname))
    ensures pathname == [] || pathname[|pathname| - 1] == '/' ==> tag == decode("")
  {
    decode(LastSegment(pathname))
  }

  class ExploreFeed {
    var tag: string
    var posts: seq<Post>
    var page: nat
    var hasMore: bool
    var loading: bool
    var isFetching: bool

    predicate Valid()
      reads this
    {
      page >= 1 && UniqueIds(posts)
    }

    constructor (pathname: string, decode: string -> string)
      ensures Valid()
      ensures tag == TagOf(pathname, decode) && posts == [] && page == 1 && hasMore && loading && !isFetching
    {
      tag := TagOf(pathname, decode);
      posts, page, hasMore, loading, isFetching := [], 1, true, true, false;
    }

    /** The reset effect on a new tag (ExploreRelated.tsx:42-47). */
    method ChangeTag(pathname: string, decode: string -> string)
      modifies this
      ensures Valid()
      ensures tag == TagOf(pathname, decode) && posts == [] && page == 1 && hasMore && loading
      ensures isFetching == old(isFetching)
    {
      tag := TagOf(pathname, decode);
      posts, page, hasMore, loading := [], 1, true, true;
    }

    /** The guard and first step of fetchPosts (ExploreRelated.tsx:50-52). */
    method BeginFetch() returns (started: bool)
      requires Valid()
      modifies this
      ensures Valid()
      ensures started <==> old(tag != "" && hasMore && !isFetching)
      ensures started ==> isFetching
      ensures !started ==> isFetching == old(isFetching)
      ensures tag == old(tag) && posts == old(posts) && page == old(page)
      ensures hasMore == old(hasMore) && loading == old(loading)
    {
      if tag == "" || !hasMore || isFetching {
        return false;
      }
      isFetching := true;
      started := true;
    }

    /** The rest of fetchPosts (ExploreRelated.tsx:54-78): `outcome` is the
        batch, None when the call throws. Only an empty batch ends the feed. */
    method CompleteFetch(outcome: Option<seq<Post>>)
      requires Valid() && isFetching
      modifies this
      ensures Valid()
      ensures !loading && !isFetching
      ensures tag == old(tag) && page == old(page)
      ensures outcome.None? ==> posts == old(posts) && hasMore == old(hasMore)
      ensures outcome.Some? ==> posts == Merge(old(posts), NormalizeAll(outcome.value))
      ensures outcome.Some? ==> (hasMore <==> old(hasMore) && |outcome.value| > 0)
      ensures outcome.Some? ==> |old(posts)| <= |posts| && posts[..|old(posts)|] == old(posts)
      ensures outcome.Some? ==> Ids(posts) == Ids(old(posts)) + Ids(outcome.value)
    {
      if outcome.Some? {
        var batch := outcome.value;
        var normalized := NormalizeAll(batch);
        var merged := Merge(posts, normalized);
        MergeFacts(posts, normalized, merged);
        var more := hasMore && |batch| > 0;
        posts, hasMore := merged, more;
      }
      loading, isFetching := false, false;
    }

    /** The scroll handler (ExploreRelated.tsx:85-89); `nearBottom` stands for
        the window geometry test. */
    method Scroll(nearBottom: bool)
      requires Valid()
      modifies this
      ensures Valid()
      ensures page == if nearBottom && hasMore && !isFetching then old(page) + 1 else old(page)
      ensures tag == old(tag) && posts == old(posts) && hasMore == old(hasMore)
      ensures loading == old(loading) && isFetching == old(isFetching)
    {
      if nearBottom && hasMore && !isFetching {
        page := page + 1;
      }
    }
  }

  /** exploreRelatedPostsAction takes no page, so every fetch returns the
      same batch; merging it again changes nothing. */
  lemma RepeatedBatchIsHarmless(prev: seq<Post>, batch: seq<Post>)
    ensures Merge(Merge(prev, NormalizeAll(batch)), NormalizeAll(batch)) == Merge(prev, NormalizeAll(batch))
  {
    MergeIdempotent(prev, NormalizeAll(batch));
  }
}
