/** The related-posts view of src/components/RelatedPosts.tsx: the post id
    taken from the URL, the reset on a new id, the guarded fetch of
    relatedPostsAction, and the four columns it renders. */
module RelatedPosts {
  import opened Common
  import opened FeedList

  class RelatedFeed {
    /** `pathname.split("/").pop()`, not decoded. */
    var postId: string
    var posts: seq<Post>
    var page: nat
    var hasMore: bool
    var loading: bool
    var isFetching: bool

    predicate Valid()
      reads this
    {
      page >= 1 && UniqueIds(posts)
    }

    constructor (pathname: string)
      ensures Valid()
      ensures postId == LastSegment(pathname) && posts == [] && page == 1 && hasMore && loading && !isFetching
    {
      posts, page, hasMore, loading, isFetching := [], 1, true, true, false;
      postId := LastSegment(pathname);
    }

    /** The reset effect on a new post id (RelatedPosts.tsx:42-47). */
    method ChangePost(pathname: string)
      modifies this
      ensures Valid()
      ensures postId == LastSegment(pathname) && posts == [] && page == 1 && hasMore && loading
      ensures isFetching == old(isFetching)
    {
      posts, page, hasMore, loading := [], 1, true, true;
      postId := LastSegment(pathname);
    }

    /** The guard and first step of fetchPosts (RelatedPosts.tsx:50-52). */
    method BeginFetch() returns (started: bool)
      requires Valid()
      modifies this
      ensures Valid()
      ensures started <==> old(postId != "" && hasMore && !isFetching)
      ensures started ==> isFetching
      ensures !started ==> isFetching == old(isFetching)
      ensures postId == old(postId) && posts == old(posts) && page == old(page)
      ensures hasMore == old(hasMore) && loading == old(loading)
    {
      if postId == "" || !hasMore || isFetching {
        return false;
      }
      isFetching := true;
      started := true;
    }

    /** The rest of fetchPosts (RelatedPosts.tsx:54-78): `outcome` is the
        batch, None when the call throws. Only an empty batch ends the feed. */
    method CompleteFetch(outcome: Option<seq<Post>>)
      requires Valid() && isFetching
      modifies this
      ensures Valid()
      ensures !loading && !isFetching
      ensures postId == old(postId) && page == old(page)
      ensures outcome.None? ==> posts == old(posts) && hasMore == old(hasMore)
      ensures outcome.Some? ==> posts == Merge(old(posts), NormalizeAll(outcome.value))
      ensures outcome.Some? ==> (hasMore <==> old(hasMore) && |outcome.value| > 0)
      ensures outcome.Some? ==> |old(posts)| <= |posts| && posts[..|old(posts)|] == old(posts)
      ensures outcome.Some? ==> Ids(posts) == Ids(old(posts)) + Ids(outcome.value)
    {
      if outcome.Some? {
        var batch := outcome.value;
        var normalized := NormalizeAll(batch);
        var merged := Merge(posts, normalized);
        MergeFacts(posts, normalized, merged);
        var more := hasMore && |batch| > 0;
        posts, hasMore := merged, more;
      }
      loading, isFetching := false, false;
    }

    /** The scroll handler (RelatedPosts.tsx:85-89); `nearBottom` stands for
        the window geometry test. */
    method Scroll(nearBottom: bool)
      requires Valid()
      modifies this
      ensures Valid()
      ensures page == if nearBottom && hasMore && !isFetching then old(page) + 1 else old(page)
      ensures postId == old(postId) && posts == old(posts) && hasMore == old(hasMore)
      ensures loading == old(loading) && isFetching == old(isFetching)
    {
      if nearBottom && hasMore && !isFetching {
        page := page + 1;
      }
    }
  }
}
