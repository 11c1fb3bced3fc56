/** App.tsx: the signed-in user, the loading flag and the current page, with the auth listener,
    sign-in, logout, partial user updates, follow and unfollow. Backend calls are outcome
    parameters; the stored follow lists of services/firebase.ts are modelled beside them. */
module App {
  import opened Types
  import opened Lists

  /** `Partial<User>`: None leaves a field as it is. */
  datatype UserUpdate = UserUpdate(
    name: Option<string>, email: Option<string>, photoURL: Option<string>, bio: Option<string>,
    role: Option<Role>, goals: Option<seq<string>>, following: Option<seq<string>>,
    followers: Option<Option<seq<string>>>)

  const NoUpdate: UserUpdate := UserUpdate(None, None, None, None, None, None, None, None)

  /** `{...user, ...updates}`: each supplied field replaces the user's, the others are kept. */
  function ApplyUpdate(u: User, upd: UserUpdate): (r: User)
    ensures r.id == u.id
    ensures r.name == upd.name.GetOr(u.name) && r.email == upd.email.GetOr(u.email)
    ensures r.photoURL == upd.photoURL.GetOr(u.photoURL) && r.bio == upd.bio.GetOr(u.bio)
    ensures r.role == upd.role.GetOr(u.role) && r.goals == upd.goals.GetOr(u.goals)
    ensures r.following == upd.following.GetOr(u.following) && r.followers == upd.followers.GetOr(u.followers)
  {
    u.(name := upd.name.GetOr(u.name), email := upd.email.GetOr(u.email),
       photoURL := upd.photoURL.GetOr(u.photoURL), bio := upd.bio.GetOr(u.bio),
       role := upd.role.GetOr(u.role), goals := upd.goals.GetOr(u.goals),
       following := upd.following.GetOr(u.following), followers := upd.followers.GetOr(u.followers))
  }

  /** `{...a, ...b}` on two updates: b's fields win. */
  function Merge(a: UserUpdate, b: UserUpdate): UserUpdate {
    UserUpdate(
      if b.name.Some? then b.name else a.name, if b.email.Some? then b.email else a.email,
      if b.photoURL.Some? then b.photoURL else a.photoURL, if b.bio.Some? then b.bio else a.bio,
      if b.role.Some? then b.role else a.role, if b.goals.Some? then b.goals else a.goals,
      if b.following.Some? then b.following else a.following,
      if b.followers.Some? then b.followers else a.followers)
  }

  /** An empty update changes nothing, and two updates in a row are their merge. */
  lemma ApplyUpdateLaws(u: User, a: UserUpdate, b: UserUpdate)
    ensures ApplyUpdate(u, NoUpdate) == u
    ensures ApplyUpdate(ApplyUpdate(u, a), b) == ApplyUpdate(u, Merge(a, b))
    ensures ApplyUpdate(ApplyUpdate(u, a), a) == ApplyUpdate(u, a)
  {
  }

  /** The local user after `follow`: the id appended, with no membership check. */
  function FollowedUser(u: User, adminId: string): (r: User)
    ensures r.following == u.following + [adminId]
    ensures r.(following := u.following) == u
  {
    ApplyUpdate(u, NoUpdate.(following := Some(u.following + [adminId])))
  }

  /** The local user after `unfollow`: every copy of the id dropped, the others kept in order. */
  function UnfollowedUser(u: User, adminId: string): (r: User)
    ensures adminId !in r.following
    ensures forall x :: x != adminId ==> (x in r.following <==> x in u.following)
    ensures multiset(r.following) == multiset(u.following)[adminId := 0]
    ensures r.following == RemoveAll(u.following, adminId)
    ensures r.(following := u.following) == u
  {
    RemoveAllCounts(u.following, adminId);
    ApplyUpdate(u, NoUpdate.(following := Some(RemoveAll(u.following, adminId))))
  }

  /** Unfollowing an id followed once, between other ids, leaves those ids in their order. */
  lemma UnfollowKeepsOthersInOrder(u: User, before: seq<string>, adminId: string, after: seq<string>)
    requires adminId !in before && adminId !in after
    ensures UnfollowedUser(u.(following := before + [adminId] + after), adminId).following == before + after
  {
    RemoveOnlyCopy(before, adminId, after);
  }

  /** Following someone not yet followed and unfollowing them restores the user. */
  lemma FollowThenUnfollow(u: User, adminId: string)
    requires adminId !in u.following
    ensures UnfollowedUser(FollowedUser(u, adminId), adminId) == u
  {
    AppendThenRemoveAll(u.following, adminId);
  }

  /** `arrayUnion(adminId)` on the stored list: appended only when absent. */
  function ArrayUnion(s: seq<string>, x: string): (r: seq<string>)
    ensures x in r
    ensures x in s ==> r == s
    ensures x !in s ==> r == s + [x]
  {
    if x in s then s else s + [x]
  }

  /** Following twice duplicates the id in the local list but not in the stored one. */
  lemma DoubleFollowDiverges(u: User, adminId: string)
    requires adminId !in u.following
    ensures FollowedUser(FollowedUser(u, adminId), adminId).following == u.following + [adminId, adminId]
    ensures ArrayUnion(ArrayUnion(u.following, adminId), adminId) == u.following + [adminId]
  {
    assert u.following + [adminId] + [adminId] == u.following + [adminId, adminId];
  }

  /** The signed-in state the auth listener reports: signed out, or signed in with the profile
      formatUser produced (None when it threw). */
  datatype AuthEvent = SignedOut | SignedIn(profile: Option<User>)

  /** The profile fields updateProfile may change. */
  datatype ProfileUpdate = ProfileUpdate(name: Option<string>, bio: Option<string>, photoURL: Option<string>)

  function ProfileAsUserUpdate(p: ProfileUpdate): UserUpdate {
    NoUpdate.(name := p.name, bio := p.bio, photoURL := p.photoURL)
  }

  class AppState {
    var user: Option<User>
    var loading: bool
    var currentPage: Page

    constructor()
      ensures user.None? && loading && currentPage == FeedPage
    {
      user := None;
      loading := true;
      currentPage := FeedPage;
    }

    /** The auth listener: the formatted profile when signed in, no user on sign-out or when the
        profile fails; loading ends false in every case. */
    method OnAuthStateChanged(event: AuthEvent)
      modifies this
      ensures user == (if event.SignedIn? then event.profile else None)
      ensures !loading && currentPage == old(currentPage)
    {
      if event.SignedIn? {
        match event.profile
        case Some(appUser) => user := Some(appUser);
        case None => user := None;
      } else {
        user := None;
      }
      loading := false;
    }

    /** login, loginWithGoogle and signup: the returned user becomes the current one; a failed
        call throws and changes nothing. */
    method SignIn(result: Option<User>) returns (r: Option<User>)
      modifies this
      ensures r == result
      ensures user == (if result.Some? then result else old(user))
      ensures loading == old(loading) && currentPage == old(currentPage)
    {
      r := result;
      if result.Some? {
        user := result;
      }
    }

    /** logout: after the backend signs out there is no user and the page is the feed; a failed
        sign-out changes nothing. */
    method Logout(ok: bool)
      modifies this
      ensures ok ==> user.None? && currentPage == FeedPage
      ensures !ok ==> user == old(user) && currentPage == old(currentPage)
      ensures loading == old(loading)
    {
      if ok {
        user := None;
        currentPage := FeedPage;
      }
    }

    /** updateUserState: the supplied fields replace the current user's; no-op without a user. */
    method UpdateUserState(updates: UserUpdate)
      modifies this
      ensures user == (if old(user).Some? then Some(ApplyUpdate(old(user).value, updates)) else None)
      ensures loading == old(loading) && currentPage == old(currentPage)
    {
      if user.Some? {
        user := Some(ApplyUpdate(user.value, updates));
      }
    }

    /** follow: the id is appended locally at once, whatever the un-awaited backend call does;
        the backend is asked to add it with arrayUnion. */
    method Follow(adminId: string) returns (stored: Option<(string, seq<string>)>)
      modifies this
      ensures old(user).None? ==> user.None? && stored.None?
      ensures old(user).Some? ==> user == Some(FollowedUser(old(user).value, adminId))
      ensures old(user).Some? ==> stored == Some((old(user).value.id, ArrayUnion(old(user).value.following, adminId)))
      ensures loading == old(loading) && currentPage == old(currentPage)
    {
      if user.None? {
        return None;
      }
      var u := user.value;
      stored := Some((u.id, ArrayUnion(u.following, adminId)));
      UpdateUserState(NoUpdate.(following := Some(u.following + [adminId])));
    }

    /** unfollow: every copy of the id is dropped locally at once; the backend is asked to
        remove it with arrayRemove. */
    method Unfollow(adminId: string) returns (stored: Option<(string, seq<string>)>)
      modifies this
      ensures old(user).None? ==> user.None? && stored.None?
      ensures old(user).Some? ==> user == Some(UnfollowedUser(old(user).value, adminId))
      ensures old(user).Some? ==> stored == Some((old(user).value.id, RemoveAll(old(user).value.following, adminId)))
      ensures loading == old(loading) && currentPage == old(currentPage)
    {
      if user.None? {
        return None;
      }
      var u := user.value;
      stored := Some((u.id, RemoveAll(u.following, adminId)));
      UpdateUserState(NoUpdate.(following := Some(RemoveAll(u.following, adminId))));
    }

    /** updateProfile: after the backend accepts the change the supplied profile fields replace
        the user's; without a user or on failure nothing changes. */
    method UpdateProfile(updates: ProfileUpdate, ok: bool)
      modifies this
      ensures old(user).Some? && ok ==> user == Some(ApplyUpdate(old(user).value, ProfileAsUserUpdate(updates)))
      ensures old(user).None? || !ok ==> user == old(user)
      ensures loading == old(loading) && currentPage == old(currentPage)
    {
      if user.None? || !ok {
        return;
      }
      UpdateUserState(ProfileAsUserUpdate(updates));
    }
  }
}
