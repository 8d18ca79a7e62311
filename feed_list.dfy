/** The list logic shared by the infinite-scroll components
    (src/components/SearchBody.tsx, ExploreRelated.tsx, RelatedPosts.tsx,
    Body.tsx): avatar normalisation, the four-column split by index, the
    keep-first-occurrence merge, and the last path segment of a URL. */
module FeedList {
  import opened Common

  datatype Author = Author(username: string, image: Option<string>)
  datatype Post = Post(id: string, title: string, imgUrl: string, createdAt: string, user: Author)

  const NoAvatar := "/noAvatar.png"

  /** `{ ...post, user: { ...post.user, image: post.user.image || "/noAvatar.png" } }` */
  function Normalize(p: Post): (q: Post)
    ensures q.user.image == Some(OrElse(p.user.image, NoAvatar))
    ensures q.user.image.value != ""
    ensures q.(user := p.user) == p && q.user.username == p.user.username
  {
    p.(user := p.user.(image := Some(OrElse(p.user.image, NoAvatar))))
  }

  /** Normalisation of a whole batch, in order. */
  function NormalizeAll(batch: seq<Post>): (r: seq<Post>)
    ensures |r| == |batch|
    ensures Ids(r) == Ids(batch)
  {
    if batch == [] then []
    else NormalizeAll(batch[..|batch| - 1]) + [Normalize(batch[|batch| - 1])]
  }

  /** Each post of the batch is normalised where it stands. */
  lemma {:induction false} NormalizeAllAt(batch: seq<Post>)
    ensures forall i :: 0 <= i < |batch| ==> NormalizeAll(batch)[i] == Normalize(batch[i])
  {
    if batch != [] {
      NormalizeAllAt(batch[..|batch| - 1]);
    }
  }

  // ----- The four columns -----

  /** `posts.filter((_, index) => index % 4 === column)` */
  function Column(s: seq<Post>, column: nat): seq<Post> {
    if s == [] then []
    else Column(s[..|s| - 1], column) + (if (|s| - 1) % 4 == column then [s[|s| - 1]] else [])
  }

  /** Column c holds the posts at indices c, c + 4, c + 8, ..., in order. */
  lemma {:induction false} ColumnAt(s: seq<Post>, column: nat)
    requires column < 4
    ensures |Column(s, column)| == (|s| + 3 - column) / 4
    ensures forall k :: 0 <= k < |Column(s, column)| ==> Column(s, column)[k] == s[4 * k + column]
  {
    if s != [] {
      var init, last := s[..|s| - 1], s[|s| - 1];
      ColumnAt(init, column);
      ColumnLengthStep(|init|, column);
      var prefix, col := Column(init, column), Column(s, column);
      assert col == prefix + (if |init| % 4 == column then [last] else []);
      forall k | 0 <= k < |col|
        ensures col[k] == s[4 * k + column]
      {
        if k < |prefix| {
          assert col[k] == prefix[k] == init[4 * k + column];
        }
      }
    }
  }

  /** Index n joins column c exactly when the column's length formula grows. */
  lemma ColumnLengthStep(n: nat, column: nat)
    requires column < 4
    ensures (n + 4 - column) / 4 == (n + 3 - column) / 4 + (if n % 4 == column then 1 else 0)
    ensures n % 4 == column ==> 4 * ((n + 3 - column) / 4) + column == n
  {
    var q, r := n / 4, n % 4;
    assert n == 4 * q + r;
  }

  /** The four columns split the list: their lengths add up to its length,
      and the post at index i is at position i / 4 of column i % 4. */
  lemma ColumnsPartition(s: seq<Post>)
    ensures |Column(s, 0)| + |Column(s, 1)| + |Column(s, 2)| + |Column(s, 3)| == |s|
    ensures forall i :: 0 <= i < |s| ==> i / 4 < |Column(s, i % 4)| && Column(s, i % 4)[i / 4] == s[i]
  {
    ColumnAt(s, 0);
    ColumnAt(s, 1);
    ColumnAt(s, 2);
    ColumnAt(s, 3);
    QuarterSum(|s|);
    forall i | 0 <= i < |s|
      ensures i / 4 < |Column(s, i % 4)| && Column(s, i % 4)[i / 4] == s[i]
    {
      ColumnIndex(s, i);
    }
  }

  lemma QuarterSum(n: nat)
    ensures (n + 3) / 4 + (n + 2) / 4 + (n + 1) / 4 + n / 4 == n
  {
    var q, r := n / 4, n % 4;
    assert n == 4 * q + r;
  }

  lemma ColumnIndex(s: seq<Post>, i: nat)
    requires i < |s|
    ensures i / 4 < |Column(s, i % 4)| && Column(s, i % 4)[i / 4] == s[i]
  {
    var c := i % 4;
    ColumnAt(s, c);
    assert 4 * (i / 4) + c == i;
  }

  // ----- Ids and uniqueness -----

  function Ids(s: seq<Post>): set<string> {
    if s == [] then {} else Ids(s[..|s| - 1]) + {s[|s| - 1].id}
  }

  lemma {:induction false} IdsMember(s: seq<Post>, id: string)
    ensures id in Ids(s) <==> exists i :: 0 <= i < |s| && s[i].id == id
  {
    if s != [] {
      var init := s[..|s| - 1];
      IdsMember(init, id);
      if id in Ids(init) {
        var i :| 0 <= i < |init| && init[i].id == id;
        assert s[i] == init[i];
      }
      if exists i :: 0 <= i < |s| && s[i].id == id {
        var i :| 0 <= i < |s| && s[i].id == id;
        if i < |init| { assert init[i] == s[i]; }
      }
    }
  }

  lemma {:induction false} IdsAppend(a: seq<Post>, b: seq<Post>)
    ensures Ids(a + b) == Ids(a) + Ids(b)
  {
    if b != [] {
      assert (a + b)[..|a + b| - 1] == a + b[..|b| - 1];
      IdsAppend(a, b[..|b| - 1]);
    } else {
      assert a + b == a;
    }
  }

  predicate UniqueIds(s: seq<Post>) {
    forall i, j :: 0 <= i < j < |s| ==> s[i].id != s[j].id
  }

  /** `self.findIndex((p) => p.id === id)`: the first position holding `id`, or -1. */
  function FindIndex(s: seq<Post>, id: string): (r: int)
    ensures -1 <= r < |s|
    ensures r == -1 <==> forall j :: 0 <= j < |s| ==> s[j].id != id
    ensures r >= 0 ==> s[r].id == id && forall j :: 0 <= j < r ==> s[j].id != id
  {
    if s == [] then -1
    else if s[0].id == id then 0
    else
      var k := FindIndex(s[1..], id);
      if k < 0 then -1 else k + 1
  }

  // ----- The dedup merge -----

  /** The filter `(post, index, self) => index === self.findIndex((p) => p.id === post.id)`
      applied to the first n elements of `self`. */
  function FirstOccurrences(self: seq<Post>, n: nat): seq<Post>
    requires n <= |self|
  {
    if n == 0 then []
    else FirstOccurrences(self, n - 1) + (if FindIndex(self, self[n - 1].id) == n - 1 then [self[n - 1]] else [])
  }

  /** `[...prev, ...batch].filter(...)`: the merge of the three search and
      related-posts components. */
  function Merge(prev: seq<Post>, batch: seq<Post>): seq<Post> {
    FirstOccurrences(prev + batch, |prev + batch|)
  }

  /** Reference definition: scan left to right and keep a post when its id
      has not been seen before. */
  function KeepFirst(s: seq<Post>): seq<Post> {
    if s == [] then []
    else KeepFirst(s[..|s| - 1]) + (if s[|s| - 1].id in Ids(s[..|s| - 1]) then [] else [s[|s| - 1]])
  }

  /** The source's filter is the keep-first scan. */
  lemma {:induction false} FirstOccurrencesIsKeepFirst(self: seq<Post>, n: nat)
    requires n <= |self|
    ensures FirstOccurrences(self, n) == KeepFirst(self[..n])
  {
    if n > 0 {
      FirstOccurrencesIsKeepFirst(self, n - 1);
      FirstOccurrencesStep(self, n);
      KeepFirstStep(self, n);
    }
  }

  /** Both scans take the post at n - 1 exactly when its id is new. */
  function Added(self: seq<Post>, n: nat): seq<Post>
    requires 1 <= n <= |self|
  {
    if self[n - 1].id in Ids(self[..n - 1]) then [] else [self[n - 1]]
  }

  lemma FirstOccurrencesStep(self: seq<Post>, n: nat)
    requires 1 <= n <= |self|
    ensures FirstOccurrences(self, n) == FirstOccurrences(self, n - 1) + Added(self, n)
  {
    FirstIffUnseen(self, n);
  }

  lemma KeepFirstStep(self: seq<Post>, n: nat)
    requires 1 <= n <= |self|
    ensures KeepFirst(self[..n]) == KeepFirst(self[..n - 1]) + Added(self, n)
  {
    var s := self[..n];
    assert s[..|s| - 1] == self[..n - 1] && s[|s| - 1] == self[n - 1];
  }

  /** The post at n - 1 is the first with its id exactly when no earlier
      post has that id. */
  lemma FirstIffUnseen(self: seq<Post>, n: nat)
    requires 1 <= n <= |self|
    ensures FindIndex(self, self[n - 1].id) == n - 1 <==> self[n - 1].id !in Ids(self[..n - 1])
  {
    var id := self[n - 1].id;
    var init := self[..n - 1];
    IdsMember(init, id);
    var r := FindIndex(self, id);
    if r == n - 1 {
      forall i | 0 <= i < |init|
        ensures init[i].id != id
      {
        assert init[i] == self[i];
      }
    } else {
      assert 0 <= r < n - 1;
      assert init[r].id == id;
    }
  }

  /** The keep-first scan keeps exactly the ids of its input, once each. */
  lemma {:induction false} KeepFirstIds(s: seq<Post>)
    ensures Ids(KeepFirst(s)) == Ids(s)
    ensures UniqueIds(KeepFirst(s))
  {
    if s != [] {
      var init := s[..|s| - 1];
      var last := s[|s| - 1];
      KeepFirstIds(init);
      var kept := KeepFirst(init);
      if last.id in Ids(init) {
        assert KeepFirst(s) == kept + [];
        assert kept + [] == kept;
      } else {
        assert KeepFirst(s) == kept + [last];
        IdsAppend(kept, [last]);
        UniqueSnoc(kept, last);
      }
    }
  }

  /** Appending a post whose id is new keeps the ids unique. */
  lemma UniqueSnoc(s: seq<Post>, p: Post)
    requires UniqueIds(s) && p.id !in Ids(s)
    ensures UniqueIds(s + [p])
  {
    forall i | 0 <= i < |s|
      ensures s[i].id != p.id
    {
      IdsMember(s, s[i].id);
    }
  }

  /** A list whose ids are already unique passes through unchanged. */
  lemma {:induction false} KeepFirstOfUnique(s: seq<Post>)
    requires UniqueIds(s)
    ensures KeepFirst(s) == s
  {
    if s != [] {
      var init := s[..|s| - 1];
      assert UniqueIds(init);
      KeepFirstOfUnique(init);
      IdsMember(init, s[|s| - 1].id);
      assert s == init + [s[|s| - 1]];
    }
  }

  /** Appending to the input only appends to the output. */
  lemma {:induction false} KeepFirstAppend(a: seq<Post>, b: seq<Post>)
    ensures |KeepFirst(a)| <= |KeepFirst(a + b)|
    ensures KeepFirst(a + b)[..|KeepFirst(a)|] == KeepFirst(a)
    ensures forall p :: p in KeepFirst(a + b)[|KeepFirst(a)|..] ==> p in b && p.id !in Ids(a)
  {
    if b == [] {
      assert a + b == a;
    } else {
      var b0 := b[..|b| - 1];
      KeepFirstAppend(a, b0);
      assert (a + b)[..|a + b| - 1] == a + b0;
      var last := b[|b| - 1];
      IdsAppend(a, b0);
      var prefix := KeepFirst(a + b0);
      var tail := if last.id in Ids(a + b0) then [] else [last];
      assert KeepFirst(a + b) == prefix + tail;
      assert KeepFirst(a + b)[|KeepFirst(a)|..] == prefix[|KeepFirst(a)|..] + tail;
    }
  }

  /** Once every id of the batch is present, the scan adds nothing. */
  lemma {:induction false} KeepFirstAbsorbs(r: seq<Post>, b: seq<Post>)
    requires UniqueIds(r) && Ids(b) <= Ids(r)
    ensures KeepFirst(r + b) == r
  {
    if b == [] {
      assert r + b == r;
      KeepFirstOfUnique(r);
    } else {
      var b0 := b[..|b| - 1];
      assert Ids(b) == Ids(b0) + {b[|b| - 1].id};
      KeepFirstAbsorbs(r, b0);
      assert (r + b)[..|r + b| - 1] == r + b0;
      IdsAppend(r, b0);
    }
  }

  /** The merge keeps every earlier post in place when their ids are unique,
      appends only new ids from the batch, and ends with unique ids covering
      both lists. */
  lemma MergeKeepsPrevious(prev: seq<Post>, batch: seq<Post>)
    requires UniqueIds(prev)
    ensures |prev| <= |Merge(prev, batch)|
    ensures Merge(prev, batch)[..|prev|] == prev
    ensures forall p :: p in Merge(prev, batch)[|prev|..] ==> p in batch && p.id !in Ids(prev)
    ensures UniqueIds(Merge(prev, batch))
    ensures Ids(Merge(prev, batch)) == Ids(prev) + Ids(batch)
  {
    var s := prev + batch;
    FirstOccurrencesIsKeepFirst(s, |s|);
    assert s[..|s|] == s;
    KeepFirstOfUnique(prev);
    KeepFirstAppend(prev, batch);
    KeepFirstIds(s);
    IdsAppend(prev, batch);
  }

  /** The facts of MergeKeepsPrevious a feed's state needs, about a merge
      already computed. */
  lemma MergeFacts(prev: seq<Post>, batch: seq<Post>, m: seq<Post>)
    requires UniqueIds(prev) && m == Merge(prev, batch)
    ensures UniqueIds(m) && |prev| <= |m| && m[..|prev|] == prev
    ensures Ids(m) == Ids(prev) + Ids(batch)
  {
    MergeKeepsPrevious(prev, batch);
  }

  /** Merging the same batch twice gives the list of merging it once. */
  lemma MergeIdempotent(prev: seq<Post>, batch: seq<Post>)
    ensures Merge(Merge(prev, batch), batch) == Merge(prev, batch)
  {
    var s := prev + batch;
    FirstOccurrencesIsKeepFirst(s, |s|);
    assert s[..|s|] == s;
    var r := Merge(prev, batch);
    KeepFirstIds(s);
    IdsAppend(prev, batch);
    var t := r + batch;
    FirstOccurrencesIsKeepFirst(t, |t|);
    assert t[..|t|] == t;
    KeepFirstAbsorbs(r, batch);
  }

  // ----- Path segments -----

  /** `path.split("/").pop()`: the characters after the last `/`, or the
      whole path when it has none. */
  function LastSegment(path: string): (r: string)
    ensures |r| <= |path|
    ensures forall i :: 0 <= i < |r| ==> r[i] == path[|path| - |r| + i] && r[i] != '/'
    ensures |r| < |path| ==> path[|path| - |r| - 1] == '/'
  {
    if path == [] then []
    else if path[|path| - 1] == '/' then []
    else LastSegment(path[..|path| - 1]) + [path[|path| - 1]]
  }
}
