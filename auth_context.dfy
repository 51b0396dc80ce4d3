/** The client-side session holder: what it extracts from an identity
    provider's user record for the profile sync, which auth events make it
    call the sync endpoint, and what signing out resets.

    The identity provider's calls and the two `fetch` requests are not
    performed: a handler returns the requests it would send, in order, as
    the bodies the endpoint receives. Their replies are ignored by the
    handlers, so they are not inputs. */
module AuthContext {
  import opened Js
  import ProfileSync

  /** The `user_metadata` keys the extraction reads. */
  datatype UserMetadata = UserMetadata(
    provider: JsValue, sub: JsValue, googleId: JsValue,
    name: JsValue, fullName: JsValue, fullNameCamel: JsValue,
    firstName: JsValue, firstNameCamel: JsValue, givenName: JsValue,
    lastName: JsValue, lastNameCamel: JsValue, familyName: JsValue,
    avatarUrl: JsValue, picture: JsValue, profilePicture: JsValue)

  const EmptyMetadata := UserMetadata(
    Undefined, Undefined, Undefined, Undefined, Undefined, Undefined, Undefined, Undefined,
    Undefined, Undefined, Undefined, Undefined, Undefined, Undefined, Undefined)

  /** A signed-in user as the identity provider reports it. Absent
      metadata objects are `None`. */
  datatype AuthUser = AuthUser(
    id: string,
    email: JsValue,
    userMetadata: Option<UserMetadata>,
    appProvider: Option<JsValue>,     // `app_metadata.provider`, `None` without `app_metadata`
    emailConfirmedAt: JsValue)

  datatype Session = Session(user: Option<AuthUser>)

  /** `user.user_metadata || {}` */
  function Meta(u: AuthUser): UserMetadata {
    if u.userMetadata.Some? then u.userMetadata.value else EmptyMetadata
  }

  predicate SignedInWithGoogle(u: AuthUser) {
    (u.appProvider.Some? && u.appProvider.value == Str("google")) || Meta(u).provider == Str("google")
  }

  function AuthProvider(u: AuthUser): string {
    if SignedInWithGoogle(u) then "google" else "email"
  }

  function GoogleId(u: AuthUser): JsValue {
    if SignedInWithGoogle(u) then Or(Or(Meta(u).sub, Meta(u).googleId), Str(u.id)) else Null
  }

  function FullName(u: AuthUser): JsValue {
    Or(Or(Or(Meta(u).name, Meta(u).fullName), Meta(u).fullNameCamel), Str(""))
  }

  function FirstName(u: AuthUser): JsValue {
    Or(Or(Or(Meta(u).firstName, Meta(u).firstNameCamel), Meta(u).givenName), Str(""))
  }

  function LastName(u: AuthUser): JsValue {
    Or(Or(Or(Meta(u).lastName, Meta(u).lastNameCamel), Meta(u).familyName), Str(""))
  }

  function Picture(u: AuthUser): JsValue {
    Or(Or(Or(Meta(u).avatarUrl, Meta(u).picture), Meta(u).profilePicture), Null)
  }

  /** The body `syncUserToDatabase` posts. */
  function SyncBodyOf(u: AuthUser): (b: ProfileSync.SyncBody)
    ensures b.userId == Str(u.id) && b.email == u.email
    ensures b.authProvider == Str("google") <==> SignedInWithGoogle(u)
    ensures b.googleId != Null <==> SignedInWithGoogle(u)
  {
    ProfileSync.SyncBody(Str(u.id), u.email, FullName(u), FirstName(u), LastName(u),
                         Picture(u), GoogleId(u), Str(AuthProvider(u)))
  }

  /** The provider is "google" exactly when either metadata object says
      so, and only then is there a Google id, the first truthy of `sub`,
      `google_id` and the user's own id. */
  lemma ProviderFields(u: AuthUser)
    ensures AuthProvider(u) == "google" <==>
      (u.appProvider.Some? && u.appProvider.value == Str("google")) || Meta(u).provider == Str("google")
    ensures AuthProvider(u) != "google" ==> AuthProvider(u) == "email" && GoogleId(u) == Null
    ensures AuthProvider(u) == "google" ==>
      GoogleId(u) == (if Truthy(Meta(u).sub) then Meta(u).sub
                      else if Truthy(Meta(u).googleId) then Meta(u).googleId
                      else Str(u.id))
  {
  }

  /** Each name is the first truthy alias, else ''; the picture the first
      truthy of its aliases, else null. So a name is truthy exactly when
      some alias is, and the picture is never ''. */
  lemma NameChains(u: AuthUser)
    ensures Truthy(FullName(u)) <==> Truthy(Meta(u).name) || Truthy(Meta(u).fullName) || Truthy(Meta(u).fullNameCamel)
    ensures !Truthy(FullName(u)) ==> FullName(u) == Str("")
    ensures Truthy(Meta(u).name) ==> FullName(u) == Meta(u).name
    ensures !Truthy(FirstName(u)) ==> FirstName(u) == Str("")
    ensures Truthy(Meta(u).firstName) ==> FirstName(u) == Meta(u).firstName
    ensures !Truthy(LastName(u)) ==> LastName(u) == Str("")
    ensures Truthy(Meta(u).lastName) ==> LastName(u) == Meta(u).lastName
    ensures Truthy(Picture(u)) || Picture(u) == Null
    ensures Truthy(Meta(u).avatarUrl) ==> Picture(u) == Meta(u).avatarUrl
  {
  }

  /** What the endpoint makes of the posted body: it is rejected exactly
      when the user has no id or no email; the provider is always written;
      and the sticky fields are provided only when truthy, so a second sign
      in with the same metadata leaves a synced name and picture alone. */
  lemma SyncBodyAtEndpoint(u: AuthUser)
    ensures var body := SyncBodyOf(u);
      && ProfileSync.StringNames(body)
      && (Truthy(body.userId) <==> u.id != "")
      && IsPresent(body.authProvider)
      && (SignedInWithGoogle(u) <==> IsPresent(body.googleId))
  {
    NameChains(u);
  }

  /** Signing in again with the same metadata, after a first sync went
      through, assigns neither `full_name` nor `profile_picture` and leaves
      every column but `updated_at` as the first sync left it. */
  lemma SecondSignInKeepsProfile(u: AuthUser, check: ProfileSync.ExistenceCheck, current: Option<ProfileSync.UserRow>,
                                 clock: ProfileSync.Clock, clock2: ProfileSync.Clock)
    requires var a := ProfileSync.SyncDecision(SyncBodyOf(u), check, current, clock); a.Insert? || a.Update?
    requires check.Exists? ==> current.Some?
    ensures var row := ProfileSync.AfterSync(current, ProfileSync.SyncDecision(SyncBodyOf(u), check, current, clock));
      var again := ProfileSync.UpdatePayload(SyncBodyOf(u), Some(row), clock2);
      && again.fullName.None? && again.profilePicture.None?
      && forall c :: c != ProfileSync.UpdatedAt ==> ProfileSync.Get(ProfileSync.Apply(row, again), c) == ProfileSync.Get(row, c)
  {
    SyncBodyAtEndpoint(u);
    ProfileSync.SyncIdempotent(SyncBodyOf(u), check, current, clock, clock2);
  }

  /** A request the provider sends to the sync endpoint. */
  datatype Request = SyncPost(sync: ProfileSync.SyncBody) | VerifyPut(edit: ProfileSync.EditBody)

  /** The body of the follow-up `PUT` that marks the email verified. */
  function VerifyBody(u: AuthUser): ProfileSync.EditBody {
    ProfileSync.EditBody(Str(u.id), Bool(true), Undefined, Undefined)
  }

  predicate IsSignIn(event: string) {
    event == "SIGNED_IN" || event == "SIGNED_UP"
  }

  /** The requests an auth event leads to: none but for a sign-in or
      sign-up that carries a user; then the sync, followed by the
      verification update when the email is confirmed. */
  function EventRequests(event: string, session: Option<Session>): (r: seq<Request>)
    ensures |r| <= 2
    ensures r != [] ==> IsSignIn(event) && session.Some? && session.value.user.Some?
    ensures r != [] ==> r[0] == SyncPost(SyncBodyOf(session.value.user.value))
  {
    if event == "INITIAL_SESSION" then []
    else if session.Some? && session.value.user.Some? && IsSignIn(event) then
      var u := session.value.user.value;
      [SyncPost(SyncBodyOf(u))] + (if Truthy(u.emailConfirmedAt) then [VerifyPut(VerifyBody(u))] else [])
    else []
  }

  /** Only a sign-in or sign-up with a user syncs; an initial session never
      does; the verification update comes second and only for a confirmed
      email. */
  lemma EventGating(event: string, session: Option<Session>)
    ensures var r := EventRequests(event, session);
      && (r != [] <==> IsSignIn(event) && session.Some? && session.value.user.Some?)
      && (event == "INITIAL_SESSION" ==> r == [])
      && (r != [] ==> r[0] == SyncPost(SyncBodyOf(session.value.user.value)))
      && (|r| == 2 <==> r != [] && Truthy(session.value.user.value.emailConfirmedAt))
      && (|r| == 2 ==> r[1] == VerifyPut(VerifyBody(session.value.user.value)))
      && |r| <= 2
  {
  }

  /** The verification update writes `email_verified = true` and the
      timestamp and nothing else, unless the user has no id. */
  lemma VerifyPutAtEndpoint(u: AuthUser, stamp: string)
    ensures var a := ProfileSync.EditDecision(VerifyBody(u), stamp);
      && (a.EditUpdate? <==> u.id != "")
      && (a.EditUpdate? ==> a.changes == ProfileSync.NoChanges.(updatedAt := Some(Str(stamp)), emailVerified := Some(Bool(true))))
  {
  }

  /** The outcome of `getSession()`. */
  datatype SessionResult = SessionError | SessionOk(session: Option<Session>)

  function UserOf(session: Option<Session>): Option<AuthUser> {
    if session.Some? then session.value.user else None
  }

  /** The provider's state. `mounted` is the effect's flag, cleared when
      the component unmounts. */
  class AuthState {
    var user: Option<AuthUser>
    var session: Option<Session>
    var loading: bool
    var mounted: bool

    constructor()
      ensures user.None? && session.None? && loading && mounted
    {
      user := None;
      session := None;
      loading := true;
      mounted := true;
    }

    /** The answer to `getSession()`: records the session, stops loading,
        and never sends a request. */
    method InitialSession(result: SessionResult)
      modifies this
      ensures mounted == old(mounted)
      ensures !old(mounted) ==> user == old(user) && session == old(session) && loading == old(loading)
      ensures old(mounted) ==> !loading
      ensures old(mounted) && result.SessionError? ==> user == old(user) && session == old(session)
      ensures old(mounted) && result.SessionOk? ==> session == result.session && user == UserOf(result.session)
    {
      if !mounted {
        return;
      }
      if result.SessionError? {
        loading := false;
        return;
      }
      session := result.session;
      user := UserOf(result.session);
      loading := false;
    }

    /** The `onAuthStateChange` listener. It ignores everything after
        unmounting and the `INITIAL_SESSION` event; otherwise it records
        the session and returns the requests it sends. */
    method AuthStateChange(event: string, newSession: Option<Session>) returns (requests: seq<Request>)
      modifies this
      ensures mounted == old(mounted) && loading == old(loading)
      ensures !old(mounted) || event == "INITIAL_SESSION" ==>
        requests == [] && user == old(user) && session == old(session)
      ensures old(mounted) && event != "INITIAL_SESSION" ==>
        session == newSession && user == UserOf(newSession) && requests == EventRequests(event, newSession)
    {
      requests := [];
      if !mounted {
        return;
      }
      if event == "INITIAL_SESSION" {
        return;
      }
      session := newSession;
      user := UserOf(newSession);
      if newSession.Some? && newSession.value.user.Some? && (event == "SIGNED_IN" || event == "SIGNED_UP") {
        var u := newSession.value.user.value;
        requests := [SyncPost(SyncBodyOf(u))];
        if Truthy(u.emailConfirmedAt) {
          requests := requests + [VerifyPut(VerifyBody(u))];
        }
      }
    }

    /** `signOut()`: both the user and the session are cleared. */
    method SignOut()
      modifies this
      ensures user.None? && session.None?
      ensures loading == old(loading) && mounted == old(mounted)
    {
      user := None;
      session := None;
    }

    /** The effect's cleanup. */
    method Unmount()
      modifies this
      ensures !mounted
      ensures user == old(user) && session == old(session) && loading == old(loading)
    {
      mounted := false;
    }
  }
}
