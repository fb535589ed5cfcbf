/**
 The session part of the user context: the published user is the auth user,
 with its `user_metadata` overlaid by the user's `profiles` row when one is
 found. The initial session check and every auth-state change run the same
 derivation.
 */
module Session {
  import opened Values
  import opened Backend

  /** The auth user's own metadata object (none when absent). */
  function Metadata(authUser: Row): map<string, Value> {
    Fields(Get(authUser, "user_metadata"))
  }

  /** `{ ...authUser, user_metadata: { ...authUser.user_metadata, ...profile } }`. */
  function MergeProfile(authUser: Row, profile: Row): (u: Row)
    ensures u.Keys == authUser.Keys + {"user_metadata"}
    ensures forall k :: k in authUser && k != "user_metadata" ==> u[k] == authUser[k]
    ensures u["user_metadata"].Obj?
    ensures Metadata(u).Keys == Metadata(authUser).Keys + profile.Keys
    ensures forall k :: k in profile ==> Metadata(u)[k] == profile[k]
    ensures forall k :: k in Metadata(authUser) && k !in profile ==> Metadata(u)[k] == Metadata(authUser)[k]
  {
    authUser["user_metadata" := Obj(Metadata(authUser) + profile)]
  }

  /** The user published after the profile fetch for `authUser` (the auth
      session's user, if any). A fetch that finds no row, or fails for any
      other reason, leaves the plain auth user in place. */
  function SessionUser(authUser: Option<Row>, profiles: Table, fault: Option<DbError>): (u: Option<Row>)
    ensures authUser.None? ==> u.None?
    ensures authUser.Some? && fault.None? && |Select(profiles, Eq("id", Get(authUser.value, "id")))| == 1
            ==> u == Some(MergeProfile(authUser.value, Select(profiles, Eq("id", Get(authUser.value, "id")))[0]))
    ensures authUser.Some? && (fault.Some? || |Select(profiles, Eq("id", Get(authUser.value, "id")))| != 1)
            ==> u == authUser
  {
    match authUser
    case None => None
    case Some(a) =>
      match SelectSingle(profiles, Eq("id", Get(a, "id")), fault)
      case Ok(profile) => Some(MergeProfile(a, profile))
      case Fault(_) => Some(a)
  }

  /** With the primary key unique, the row whose id is the user's is the one merged. */
  lemma {:induction false} SessionUserFindsRow(authUser: Row, profiles: Table, i: nat)
    requires UniqueIds(profiles)
    requires i < |profiles| && Get(profiles[i], "id") == Get(authUser, "id")
    ensures SessionUser(Some(authUser), profiles, None) == Some(MergeProfile(authUser, profiles[i]))
  {
    SingleById(profiles, Get(authUser, "id"), i);
  }

  /** The merge never changes who the user is: the id and email are the auth
      user's, whatever the profile row holds. */
  lemma {:induction false} SessionUserKeepsIdentity(authUser: Row, profiles: Table, fault: Option<DbError>)
    ensures var u := SessionUser(Some(authUser), profiles, fault);
            u.Some? && Get(u.value, "id") == Get(authUser, "id") && Get(u.value, "email") == Get(authUser, "email")
  {
  }

  // ---------------------------------------------------------------------------
  // The auth-change subscription across provider mounts
  // ---------------------------------------------------------------------------

  datatype Lifecycle = Mount | Unmount

  /** Live auth-change listeners after a run of provider mounts and unmounts,
      as written: each mount subscribes, but the unsubscribe function is
      returned from the async helper, not from the effect, so React never
      receives a cleanup and no unmount unsubscribes: the count is the
      number of mounts. */
  function ListenersAsWritten(events: seq<Lifecycle>): (n: nat)
    ensures n == multiset(events)[Mount]
    ensures n <= |events|
  {
    if events == [] then 0
    else
      assert events == events[..|events| - 1] + [events[|events| - 1]];
      ListenersAsWritten(events[..|events| - 1]) + (if events[|events| - 1] == Mount then 1 else 0)
  }

  /** Mounting twice and unmounting twice (as React's development mode does)
      leaves two listeners behind. */
  lemma {:induction false} ListenersLeak()
    ensures ListenersAsWritten([Mount, Unmount, Mount, Unmount]) == 2
  {
    var e := [Mount, Unmount, Mount, Unmount];
    assert e[..1][..0] == [] && e[..2][..1] == e[..1] && e[..3][..2] == e[..2] && e[..4][..3] == e[..3];
    assert ListenersAsWritten(e[..1]) == 1;
    assert ListenersAsWritten(e[..2]) == 1;
    assert ListenersAsWritten(e[..3]) == 2;
    assert e[..4] == e;
  }

  /** The evident intent: each unmount runs the cleanup of the mount before it. */
  function Listeners(events: seq<Lifecycle>): (n: nat)
    ensures n <= ListenersAsWritten(events)
  {
    if events == [] then 0
    else
      var before := Listeners(events[..|events| - 1]);
      if events[|events| - 1] == Mount then before + 1
      else if before > 0 then before - 1 else 0
  }

  /** Mounts and unmounts alternating, starting with a mount. */
  ghost predicate Alternating(events: seq<Lifecycle>) {
    forall i :: 0 <= i < |events| ==> events[i] == (if i % 2 == 0 then Mount else Unmount)
  }

  /** With the cleanup wired, alternating mounts and unmounts keep at most one
      listener, and none once the provider is unmounted. */
  lemma {:induction false} ListenersBalanced(events: seq<Lifecycle>)
    requires Alternating(events)
    ensures Listeners(events) == |events| % 2
  {
    if events != [] {
      var init := events[..|events| - 1];
      assert Alternating(init) by {
        forall i | 0 <= i < |init| ensures init[i] == (if i % 2 == 0 then Mount else Unmount) {
          assert init[i] == events[i];
        }
      }
      ListenersBalanced(init);
    }
  }
}
