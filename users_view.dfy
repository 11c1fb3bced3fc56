/** views/UsersView.tsx: the list of admins to follow, the following test and the follow toggle.
    The admin fetch is an outcome parameter. */
module UsersView {
  import opened Types
  import opened Lists
  import App

  /** `a.id !== currentUser?.id`: every admin but the current user. */
  predicate Listed(currentUser: Option<User>, a: User) {
    currentUser.None? || a.id != currentUser.value.id
  }

  /** `fetchedAdmins.filter(a => a.id !== currentUser?.id)`: the current user is never listed. */
  function VisibleAdmins(fetched: seq<User>, currentUser: Option<User>): (r: seq<User>)
    ensures |r| <= |fetched|
    ensures forall a :: a in r <==> a in fetched && (currentUser.None? || a.id != currentUser.value.id)
  {
    Filter(fetched, (a: User) => Listed(currentUser, a))
  }

  /** Without a user every fetched admin is listed. */
  lemma VisibleAdminsWithoutUser(fetched: seq<User>)
    ensures VisibleAdmins(fetched, None) == fetched
  {
    FilterKeepsAll(fetched, (a: User) => Listed(None, a));
  }

  /** The list keeps the order the admins were fetched in: listing distributes over concatenation. */
  lemma VisibleAdminsKeepOrder(a: seq<User>, b: seq<User>, currentUser: Option<User>)
    ensures VisibleAdmins(a + b, currentUser) == VisibleAdmins(a, currentUser) + VisibleAdmins(b, currentUser)
  {
    FilterConcat(a, b, (x: User) => Listed(currentUser, x));
  }

  /** `currentUser?.following.includes(admin.id) ?? false`. */
  predicate IsFollowing(currentUser: Option<User>, admin: User) {
    currentUser.Some? && admin.id in currentUser.value.following
  }

  /** Nobody is followed without a user; after following an admin the button reads "Following",
      after unfollowing "Follow", and the other admins' buttons do not change. */
  lemma ToggleFlipsFollowing(u: User, admin: User, other: User)
    requires other.id != admin.id
    ensures !IsFollowing(None, admin)
    ensures IsFollowing(Some(App.FollowedUser(u, admin.id)), admin)
    ensures !IsFollowing(Some(App.UnfollowedUser(u, admin.id)), admin)
    ensures IsFollowing(Some(App.FollowedUser(u, admin.id)), other) == IsFollowing(Some(u), other)
    ensures IsFollowing(Some(App.UnfollowedUser(u, admin.id)), other) == IsFollowing(Some(u), other)
  {
  }

  /** handleFollowToggle: unfollow when following, follow otherwise. */
  method HandleFollowToggle(app: App.AppState, adminId: string, isFollowing: bool)
    modifies app
    ensures old(app.user).None? ==> app.user.None?
    ensures old(app.user).Some? && isFollowing ==> app.user == Some(App.UnfollowedUser(old(app.user).value, adminId))
    ensures old(app.user).Some? && !isFollowing ==> app.user == Some(App.FollowedUser(old(app.user).value, adminId))
    ensures app.loading == old(app.loading) && app.currentPage == old(app.currentPage)
  {
    if isFollowing {
      var _ := app.Unfollow(adminId);
    } else {
      var _ := app.Follow(adminId);
    }
  }

  class UsersViewState {
    const currentUser: Option<User>
    var admins: seq<User>
    var loading: bool

    constructor(currentUser: Option<User>)
      ensures this.currentUser == currentUser && admins == [] && loading
    {
      this.currentUser := currentUser;
      admins := [];
      loading := true;
    }

    /** The fetch effect: the fetched admins minus the current user; a failed fetch keeps the
        list; loading ends false either way. */
    method FetchAdmins(fetched: Option<seq<User>>)
      modifies this
      ensures admins == (if fetched.Some? then VisibleAdmins(fetched.value, currentUser) else old(admins))
      ensures !loading
    {
      loading := true;
      if fetched.Some? {
        admins := VisibleAdmins(fetched.value, currentUser);
      }
      loading := false;
    }
  }
}
