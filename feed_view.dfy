/** views/FeedView.tsx: the feed's post list and how the handlers change it, the "all" and
    "following" filters, and the fetch flags. The backend fetch is an outcome parameter. */
module FeedView {
  import opened Types
  import opened Lists

  datatype FeedFilter = All | Following

  /** `posts.map(post => post.id === updated.id ? updated : post)`. */
  function ReplaceById(posts: seq<Post>, updated: Post): (r: seq<Post>)
    ensures |r| == |posts|
    ensures forall i :: 0 <= i < |posts| ==> r[i] == (if posts[i].id == updated.id then updated else posts[i])
  {
    if posts == [] then []
    else [if posts[0].id == updated.id then updated else posts[0]] + ReplaceById(posts[1..], updated)
  }

  /** Replacing keeps every post's id in its place. */
  lemma ReplaceByIdKeepsIds(posts: seq<Post>, updated: Post)
    ensures forall i :: 0 <= i < |posts| ==> ReplaceById(posts, updated)[i].id == posts[i].id
  {
  }

  /** A post whose id is not in the list changes nothing. */
  lemma ReplaceUnknownId(posts: seq<Post>, updated: Post)
    requires forall i :: 0 <= i < |posts| ==> posts[i].id != updated.id
    ensures ReplaceById(posts, updated) == posts
  {
  }

  /** Applying the same update twice is applying it once. */
  lemma ReplaceByIdIdempotent(posts: seq<Post>, updated: Post)
    ensures ReplaceById(ReplaceById(posts, updated), updated) == ReplaceById(posts, updated)
  {
  }

  /** `user?.following?.includes(post.authorId)`: false without a user. */
  predicate ByFollowed(user: Option<User>, post: Post) {
    user.Some? && post.authorId in user.value.following
  }

  /** `filteredPosts`: all posts, or the posts of followed authors. */
  function FilteredPosts(posts: seq<Post>, filter: FeedFilter, user: Option<User>): (r: seq<Post>)
    ensures filter == All ==> r == posts
    ensures filter == Following ==> forall p :: p in r <==> p in posts && ByFollowed(user, p)
    ensures |r| <= |posts|
  {
    if filter == All then posts else Filter(posts, p => ByFollowed(user, p))
  }

  /** Without a user the "following" feed is empty. */
  lemma FollowingWithoutUser(posts: seq<Post>)
    ensures FilteredPosts(posts, Following, None) == []
  {
    FilterKeepsNone(posts, p => ByFollowed(None, p));
  }

  /** The "following" feed keeps the order of the posts: it filters each part separately. */
  lemma FollowingKeepsOrder(a: seq<Post>, b: seq<Post>, user: Option<User>)
    ensures FilteredPosts(a + b, Following, user) == FilteredPosts(a, Following, user) + FilteredPosts(b, Following, user)
  {
    FilterConcat(a, b, p => ByFollowed(user, p));
  }

  class FeedViewState {
    var posts: seq<Post>
    var loading: bool
    var refreshing: bool
    var activeFilter: FeedFilter
    var selectedPostId: Option<string>

    constructor()
      ensures posts == [] && loading && !refreshing && activeFilter == All && selectedPostId.None?
    {
      posts := [];
      loading := true;
      refreshing := false;
      activeFilter := All;
      selectedPostId := None;
    }

    /** fetchPosts: the fetched posts replace the list, a failed fetch keeps it; both flags end
        false whatever the outcome. */
    method FetchPosts(isRefresh: bool, fetched: Option<seq<Post>>)
      modifies this
      ensures posts == (if fetched.Some? then fetched.value else old(posts))
      ensures !loading && !refreshing
      ensures activeFilter == old(activeFilter) && selectedPostId == old(selectedPostId)
    {
      if isRefresh {
        refreshing := true;
      } else {
        loading := true;
      }
      if fetched.Some? {
        posts := fetched.value;
      }
      loading := false;
      refreshing := false;
    }

    /** The mount effect's `post` query parameter: a non-empty value selects that post. */
    method SelectFromQuery(postParam: Option<string>)
      modifies this
      ensures selectedPostId == (if postParam.Some? && postParam.value != "" then postParam else old(selectedPostId))
      ensures posts == old(posts) && loading == old(loading) && refreshing == old(refreshing)
      ensures activeFilter == old(activeFilter)
    {
      if postParam.Some? && postParam.value != "" {
        selectedPostId := postParam;
      }
    }

    /** handlePostCreated: the new post goes first, the others follow in order. */
    method HandlePostCreated(newPost: Post)
      modifies this
      ensures posts == [newPost] + old(posts)
      ensures loading == old(loading) && refreshing == old(refreshing)
      ensures activeFilter == old(activeFilter) && selectedPostId == old(selectedPostId)
    {
      posts := [newPost] + posts;
    }

    /** handlePostUpdate: every post with the updated post's id is replaced by it. */
    method HandlePostUpdate(updatedPost: Post)
      modifies this
      ensures posts == ReplaceById(old(posts), updatedPost)
      ensures |posts| == |old(posts)|
      ensures loading == old(loading) && refreshing == old(refreshing)
      ensures activeFilter == old(activeFilter) && selectedPostId == old(selectedPostId)
    {
      posts := ReplaceById(posts, updatedPost);
    }

    /** The list shown for the active filter. */
    function Shown(user: Option<User>): seq<Post>
      reads this
    {
      FilteredPosts(posts, activeFilter, user)
    }
  }
}
