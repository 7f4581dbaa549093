/** The social feed of `community_page.py`: the user's posts followed by the posts of each
    friend, every post given a sort key from its timestamp (the start of 1970 when there is
    none or it does not parse), then shown newest first. */
module Community {
  import opened Basics
  import opened Sorting

  /** A post's timestamp text: absent or empty, present but not in the expected format,
      or a parsed point in time. */
  datatype PostTime = NoTimestamp | Unparseable | PostedAt(t: Seconds)

  /** A post of the Posts table; `datetime` is the key the page writes into it. */
  datatype Post = Post(
    postId: string,
    authorId: string,
    content: string,
    image: Option<string>,
    timestamp: PostTime,
    datetime: Option<Seconds>)

  /** The part of a user profile the feed reads: the `friends` key, which may be absent. */
  datatype Profile = Profile(friends: Option<seq<string>>)

  /** The outcome of `get_user_posts` for a friend: the posts, or an exception. */
  datatype Fetch = Fetched(posts: seq<Post>) | FetchFailed

  /** `datetime(1970, 1, 1)`, in seconds since that instant. */
  const Epoch: Seconds := 0

  /** The key a post is sorted by: its timestamp when it parses, otherwise the epoch. */
  function SortKey(p: Post): Seconds
  {
    match p.timestamp
    case PostedAt(t) => t
    case _ => Epoch
  }

  /** The key as read back from the `datetime` field the page wrote. */
  function DatetimeOf(p: Post): Seconds { p.datetime.GetOr(Epoch) }

  // ---------------------------------------------------------------------------
  // Gathering the feed

  /** How many friends come before the first whose posts could not be fetched. */
  function FirstFailure(friends: seq<string>, fetch: string -> Fetch): (n: nat)
    ensures n <= |friends|
    ensures forall i :: 0 <= i < n ==> fetch(friends[i]).Fetched?
    ensures n < |friends| ==> fetch(friends[n]).FetchFailed?
  {
    if friends == [] then 0
    else if fetch(friends[0]).FetchFailed? then 0
    else 1 + FirstFailure(friends[1..], fetch)
  }

  /** The posts of the given friends, friend by friend. */
  function FriendPosts(friends: seq<string>, fetch: string -> Fetch): seq<Post>
  {
    if friends == [] then []
    else
      var last := fetch(friends[|friends| - 1]);
      FriendPosts(friends[..|friends| - 1], fetch) + (if last.Fetched? then last.posts else [])
  }

  /** The loop of `display_posts_page` over the friends: their posts are appended in friend
      order; the first failure stops the loop with a warning and keeps what was gathered. */
  method GatherFeed(own: seq<Post>, friends: seq<string>, fetch: string -> Fetch)
    returns (feed: seq<Post>, warned: bool)
    ensures feed == own + FriendPosts(friends[..FirstFailure(friends, fetch)], fetch)
    ensures warned <==> FirstFailure(friends, fetch) < |friends|
  {
    feed := own;
    warned := false;
    var i := 0;
    while i < |friends| && !warned
      invariant 0 <= i <= FirstFailure(friends, fetch)
      invariant warned ==> i == FirstFailure(friends, fetch) < |friends|
      invariant !warned ==> i <= |friends|
      invariant feed == own + FriendPosts(friends[..i], fetch)
      decreases |friends| - i, !warned
    {
      var got := fetch(friends[i]);
      if got.FetchFailed? {
        warned := true;
      } else {
        assert friends[..i + 1][..i] == friends[..i];
        if got.posts != [] {
          feed := feed + got.posts;
        }
        i := i + 1;
      }
    }
  }

  /** A post is gathered exactly when it is one of the user's own, or one of the posts of a
      friend before the first failed fetch. */
  lemma {:induction false} FriendPostsMembers(friends: seq<string>, fetch: string -> Fetch, p: Post)
    requires forall i :: 0 <= i < |friends| ==> fetch(friends[i]).Fetched?
    ensures p in FriendPosts(friends, fetch) <==>
            exists i :: 0 <= i < |friends| && p in fetch(friends[i]).posts
  {
    if friends != [] {
      var front := friends[..|friends| - 1];
      FriendPostsMembers(front, fetch, p);
      if p in fetch(friends[|friends| - 1]).posts {
        assert friends[|friends| - 1] == friends[|friends| - 1];
      }
      if exists i :: 0 <= i < |friends| && p in fetch(friends[i]).posts {
        var i :| 0 <= i < |friends| && p in fetch(friends[i]).posts;
        if i < |friends| - 1 {
          assert front[i] == friends[i];
        }
      }
    }
  }

  // ---------------------------------------------------------------------------
  // Sort keys and order

  /** The loop that writes `post['datetime']` into each post. */
  method AssignSortKeys(posts: seq<Post>) returns (keyed: seq<Post>)
    ensures |keyed| == |posts|
    ensures forall i :: 0 <= i < |posts| ==>
      keyed[i] == posts[i].(datetime := Some(SortKey(posts[i])))
  {
    keyed := posts;
    for i := 0 to |posts|
      invariant |keyed| == |posts|
      invariant forall k :: 0 <= k < i ==> keyed[k] == posts[k].(datetime := Some(SortKey(posts[k])))
      invariant forall k :: i <= k < |posts| ==> keyed[k] == posts[k]
    {
      keyed := keyed[i := keyed[i].(datetime := Some(SortKey(keyed[i])))];
    }
  }

  /** The posts with their sort keys written in, as a value. */
  function WithSortKeys(posts: seq<Post>): (keyed: seq<Post>)
    ensures |keyed| == |posts|
    ensures forall i :: 0 <= i < |posts| ==> DatetimeOf(keyed[i]) == SortKey(posts[i])
  {
    if posts == [] then []
    else WithSortKeys(posts[..|posts| - 1]) + [posts[|posts| - 1].(datetime := Some(SortKey(posts[|posts| - 1])))]
  }

  /** In a feed sorted newest first, a post without a usable timestamp comes after every
      post dated after the start of 1970. */
  lemma UndatedAfterDated(shown: seq<Post>, i: nat, j: nat)
    requires SortedDesc(shown, DatetimeOf)
    requires i < |shown| && j < |shown|
    requires DatetimeOf(shown[i]) == Epoch && DatetimeOf(shown[j]) > Epoch
    ensures j < i
  {
  }

  // ---------------------------------------------------------------------------
  // The page

  /** What the feed column shows. */
  datatype FeedView =
    | UserNotFound
    | EmptyFeed(friendsWarning: bool)
    | Feed(friendsWarning: bool, shown: seq<Post>)

  /** `display_posts_page`: `profile` is `None` when the profile lookup raises, `own` the
      user's posts and `fetch` the lookup of a friend's posts. */
  method DisplayPostsPage(profile: Option<Profile>, own: seq<Post>, fetch: string -> Fetch)
    returns (view: FeedView)
    ensures profile.None? <==> view == UserNotFound
    ensures profile.Some? ==>
      var friends := profile.value.friends.GetOr([]);
      var gathered := own + FriendPosts(friends[..FirstFailure(friends, fetch)], fetch);
      (view.EmptyFeed? <==> gathered == []) &&
      (view.EmptyFeed? || view.Feed?) &&
      (view.friendsWarning <==> FirstFailure(friends, fetch) < |friends|) &&
      (view.Feed? ==> SortedDesc(view.shown, DatetimeOf) &&
                      multiset(view.shown) == multiset(WithSortKeys(gathered)) &&
                      forall t :: WithKey(view.shown, DatetimeOf, t) == WithKey(WithSortKeys(gathered), DatetimeOf, t))
  {
    if profile.None? {
      return UserNotFound;
    }
    var friends := profile.value.friends.GetOr([]);
    var feed, warned := GatherFeed(own, friends, fetch);
    if feed == [] {
      return EmptyFeed(warned);
    }
    var keyed := AssignSortKeys(feed);
    assert keyed == WithSortKeys(feed) by {
      forall i | 0 <= i < |feed| ensures keyed[i] == WithSortKeys(feed)[i] {
        KeyedAt(feed, i);
      }
    }
    var shown := SortDesc(keyed, DatetimeOf);
    forall t ensures WithKey(shown, DatetimeOf, t) == WithKey(keyed, DatetimeOf, t) {
      SortDescIsStable(keyed, DatetimeOf, t);
    }
    view := Feed(warned, shown);
  }

  lemma {:induction false} KeyedAt(posts: seq<Post>, i: nat)
    requires i < |posts|
    ensures WithSortKeys(posts)[i] == posts[i].(datetime := Some(SortKey(posts[i])))
  {
    if i < |posts| - 1 {
      KeyedAt(posts[..|posts| - 1], i);
    }
  }

  /** Every gathered post is shown exactly once: the feed has as many posts as were
      gathered, and each gathered post appears, with its key written in. */
  lemma ShownOnce(gathered: seq<Post>, shown: seq<Post>, i: nat)
    requires multiset(shown) == multiset(WithSortKeys(gathered))
    requires i < |gathered|
    ensures |shown| == |gathered|
    ensures gathered[i].(datetime := Some(SortKey(gathered[i]))) in shown
  {
    assert |multiset(shown)| == |multiset(WithSortKeys(gathered))|;
    KeyedAt(gathered, i);
    assert WithSortKeys(gathered)[i] in multiset(WithSortKeys(gathered));
  }
}
