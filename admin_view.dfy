/** views/AdminView.tsx: the admin's own posts and the role gate of the dashboard. The backend
    fetch is an outcome parameter. */
module AdminView {
  import opened Types
  import opened Lists

  /** `p.authorId === user?.id`: false without a user. */
  predicate ByUser(user: Option<User>, p: Post) {
    user.Some? && p.authorId == user.value.id
  }

  /** The fetched posts the current user wrote, in order. */
  function OwnPosts(fetched: seq<Post>, user: Option<User>): (r: seq<Post>)
    ensures |r| <= |fetched|
    ensures forall p :: p in r <==> p in fetched && ByUser(user, p)
  {
    Filter(fetched, p => ByUser(user, p))
  }

  /** The list keeps the fetched order. */
  lemma OwnPostsKeepOrder(a: seq<Post>, b: seq<Post>, user: Option<User>)
    ensures OwnPosts(a + b, user) == OwnPosts(a, user) + OwnPosts(b, user)
  {
    FilterConcat(a, b, p => ByUser(user, p));
  }

  /** What the view renders: the access-denied notice, or the dashboard with the post list. */
  datatype Screen = AccessDenied | Dashboard(posts: seq<Post>)

  predicate IsAdmin(user: Option<User>) {
    user.Some? && user.value.role == AdminRole
  }

  /** The role gate: anyone who is not an admin gets the notice, whatever the posts. */
  function View(user: Option<User>, posts: seq<Post>): (s: Screen)
    ensures s == AccessDenied <==> !IsAdmin(user)
    ensures s.Dashboard? ==> s.posts == posts
  {
    if !IsAdmin(user) then AccessDenied else Dashboard(posts)
  }

  class AdminViewState {
    const user: Option<User>
    var posts: seq<Post>

    constructor(user: Option<User>)
      ensures this.user == user && posts == []
    {
      this.user := user;
      posts := [];
    }

    /** The effect: with a user, a successful fetch shows that user's own posts; without a user
        nothing is fetched, and a failed fetch changes nothing. */
    method LoadPosts(fetched: Option<seq<Post>>) returns (requested: bool)
      modifies this
      ensures requested <==> user.Some?
      ensures requested && fetched.Some? ==> posts == OwnPosts(fetched.value, user)
      ensures !requested || fetched.None? ==> posts == old(posts)
    {
      requested := user.Some?;
      if requested && fetched.Some? {
        posts := OwnPosts(fetched.value, user);
      }
    }

    /** handlePostCreated: the new post goes first. */
    method HandlePostCreated(newPost: Post)
      modifies this
      ensures posts == [newPost] + old(posts)
    {
      posts := [newPost] + posts;
    }
  }
}
