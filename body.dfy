/** The home feed of src/components/Body.tsx: pages of getFeedAction are
    appended as they arrive, and the feed stops after a short page. */
module Body {
  import opened Common
  import opened FeedList
  import FeedActions

  class HomeFeed {
    var posts: seq<Post>
    var loading: bool
    var page: nat
    var hasMore: bool

    predicate Valid()
      reads this
    {
      page >= 1
    }

    constructor ()
      ensures Valid()
      ensures posts == [] && loading && page == 1 && hasMore
    {
      posts, loading, page, hasMore := [], true, 1, true;
    }

    /** fetchPosts (Body.tsx:56-79): `outcome` is the page getFeedAction
        returns, None when it throws. Nothing happens once the feed has
        ended; otherwise the batch is appended without any dedup and a
        batch of fewer than `DefaultLimit` posts ends the feed. */
    method FetchPosts(outcome: Option<seq<Post>>) returns (fetched: bool)
      requires Valid()
      modifies this
      ensures Valid() && page == old(page)
      ensures fetched <==> old(hasMore)
      ensures !fetched ==> posts == old(posts) && loading == old(loading) && !hasMore
      ensures fetched ==> !loading
      ensures fetched && outcome.None? ==> posts == old(posts) && hasMore == old(hasMore)
      ensures fetched && outcome.Some? ==>
                posts == old(posts) + NormalizeAll(outcome.value)
                && |posts| == |old(posts)| + |outcome.value|
                && (hasMore <==> |outcome.value| >= FeedActions.DefaultLimit)
      ensures hasMore ==> old(hasMore)
    {
      if !hasMore {
        return false;
      }
      fetched := true;
      loading := true;
      if outcome.Some? {
        var normalized := NormalizeAll(outcome.value);
        posts := posts + normalized;
        if |normalized| < FeedActions.DefaultLimit {
          hasMore := false;
        }
      }
      loading := false;
    }

    /** The IntersectionObserver callback on the last post (Body.tsx:85-89). */
    method LastPostVisible(isIntersecting: bool)
      requires Valid()
      modifies this
      ensures Valid()
      ensures page == if isIntersecting && hasMore then old(page) + 1 else old(page)
      ensures posts == old(posts) && loading == old(loading) && hasMore == old(hasMore)
    {
      if isIntersecting && hasMore {
        page := page + 1;
      }
    }
  }

  /** When the home feed is fed getFeedAction's own pages, the batch that
      ends it is the last page: pages 1 to `page` have served every post and
      the next page would be empty. */
  lemma ShortBatchEndsFeed(rows: seq<Post>, page: nat)
    requires page >= 1 && |FeedActions.GetFeed(rows, page)| < FeedActions.DefaultLimit
    ensures FeedActions.Pages(rows, page, FeedActions.DefaultLimit) == rows
    ensures FeedActions.GetFeed(rows, page + 1) == []
  {
    FeedActions.ShortPageIsLast(rows, page, FeedActions.DefaultLimit);
  }
}
