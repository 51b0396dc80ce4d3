/** The site's navigation bar: the avatar or initials of the signed-in
    user, the shadow it gains once the page is scrolled, and the mobile
    menu button.

    The profile fetch is not performed; its answer is an input. */
module Navbar {
  import opened Js
  import AuthContext
  import ProfilePage

  // ---------------------------------------------------------------------
  // Initials.

  /** `getInitials(name, email)` as written, where `email` is
      `user.email || ''`. `None` is the `TypeError` thrown by
      `email[0].toUpperCase()` when there is neither a name nor an email:
      `''[0]` is `undefined`. */
  function InitialsAsWritten(name: Option<string>, email: string): (r: Option<string>)
    ensures r.None? <==> (name.None? || name.value == "") && email == ""
  {
    // With a name, both pages take the same branch, which ignores the email.
    if name.Some? && name.value != "" then Some(ProfilePage.Initials(name, EmailOption(email)))
    else if email != "" then Some([UpperChar(email[0])])
    else None
  }

  /** The user the navigation bar shows without a stored name or an email
      makes it throw. */
  lemma InitialsThrowWithoutEmail()
    ensures InitialsAsWritten(None, "").None?
  {
  }

  /** `user.email || ''` handed on as the profile page's optional email. */
  function EmailOption(email: string): Option<string> {
    if email == "" then None else Some(email)
  }

  /** The evidently intended rule, the one the profile page follows: "?"
      when there is neither a name nor an email. */
  function Initials(name: Option<string>, email: string): (r: string)
    ensures 1 <= |r| <= 2
  {
    ProfilePage.Initials(name, EmailOption(email))
  }

  /** The intended rule agrees with the code wherever the code does not
      throw. */
  lemma InitialsAgree(name: Option<string>, email: string)
    ensures InitialsAsWritten(name, email).Some? ==> InitialsAsWritten(name, email).value == Initials(name, email)
    ensures InitialsAsWritten(name, email).None? ==> Initials(name, email) == "?"
  {
    if !(name.Some? && name.value != "") {
      if email != "" {
        assert Initials(name, email) == [UpperChar(email[0])];
      } else {
        assert Initials(name, email) == "?";
      }
    }
  }

  /** `userProfile?.full_name || null` */
  function NameOf(profile: Option<ProfilePage.StoredProfile>): Option<string> {
    if profile.Some? && profile.value.fullName.Some? && profile.value.fullName.value != "" then profile.value.fullName else None
  }

  /** `user.email || ''` */
  function EmailOf(u: AuthContext.AuthUser): string {
    if u.email.Str? then u.email.s else ""
  }

  // ---------------------------------------------------------------------
  // The avatar.

  /** `getAvatarUrl()` */
  function AvatarUrl(profile: Option<ProfilePage.StoredProfile>, user: Option<AuthContext.AuthUser>): (r: JsValue)
    ensures Truthy(r) || r == Null
    ensures Truthy(ProfilePage.StoredPicture(profile)) ==> r == ProfilePage.StoredPicture(profile)
  {
    var meta := ProfilePage.MetaOf(user);
    if Truthy(ProfilePage.StoredPicture(profile)) then ProfilePage.StoredPicture(profile)
    else if Truthy(meta.avatarUrl) || Truthy(meta.picture) then Or(meta.avatarUrl, meta.picture)
    else Null
  }

  /** The bar shows the avatar the profile page shows when no new picture
      is being previewed: the stored picture, then `avatar_url`, then
      `picture`, else none. */
  lemma AvatarAgreesWithProfilePage(profile: Option<ProfilePage.StoredProfile>, user: Option<AuthContext.AuthUser>)
    ensures AvatarUrl(profile, user) == ProfilePage.AvatarUrl(None, profile, user)
    ensures AvatarUrl(profile, user) == Null <==>
      !Truthy(ProfilePage.StoredPicture(profile)) && !Truthy(ProfilePage.MetaOf(user).avatarUrl) && !Truthy(ProfilePage.MetaOf(user).picture)
  {
    ProfilePage.AvatarPriority(None, profile, user);
  }

  /** What the signed-in entry shows: the avatar when there is one, else the
      initials. */
  datatype Badge = Avatar(url: JsValue) | InitialsBadge(text: string)

  /** The signed-in entry with the corrected initials rule: where the code
      as written throws, it shows "?". */
  function BadgeOf(profile: Option<ProfilePage.StoredProfile>, u: AuthContext.AuthUser): (b: Badge)
    ensures b.Avatar? <==> Truthy(AvatarUrl(profile, Some(u)))
    ensures b.InitialsBadge? ==> 1 <= |b.text| <= 2
  {
    var url := AvatarUrl(profile, Some(u));
    if Truthy(url) then Avatar(url) else InitialsBadge(Initials(NameOf(profile), EmailOf(u)))
  }

  /** The signed-in entry as written: `None` where `getInitials` throws. */
  function BadgeAsWritten(profile: Option<ProfilePage.StoredProfile>, u: AuthContext.AuthUser): (r: Option<Badge>)
    ensures r.Some? && r.value.Avatar? <==> Truthy(AvatarUrl(profile, Some(u)))
    ensures r.Some? && r.value.InitialsBadge? ==> 1 <= |r.value.text| <= 2
  {
    var url := AvatarUrl(profile, Some(u));
    if Truthy(url) then Some(Avatar(url))
    else
      var initials := InitialsAsWritten(NameOf(profile), EmailOf(u));
      if initials.None? then None else Some(InitialsBadge(initials.value))
  }

  /** The entry throws exactly when there is no avatar, no stored name and
      no email; everywhere else it shows what the corrected entry shows. */
  lemma BadgeThrowsOnlyWithoutEmail(profile: Option<ProfilePage.StoredProfile>, u: AuthContext.AuthUser)
    ensures BadgeAsWritten(profile, u).None? <==>
      !Truthy(AvatarUrl(profile, Some(u))) && NameOf(profile).None? && EmailOf(u) == ""
    ensures BadgeAsWritten(profile, u).Some? ==> BadgeAsWritten(profile, u).value == BadgeOf(profile, u)
    ensures BadgeAsWritten(profile, u).None? ==> BadgeOf(profile, u) == InitialsBadge("?")
  {
    InitialsAgree(NameOf(profile), EmailOf(u));
  }

  // ---------------------------------------------------------------------
  // State.

  const ScrollThreshold := 10

  class NavbarState {
    var isMenuOpen: bool
    var isScrolled: bool
    var userProfile: Option<ProfilePage.StoredProfile>

    constructor()
      ensures !isMenuOpen && !isScrolled && userProfile.None?
    {
      isMenuOpen := false;
      isScrolled := false;
      userProfile := None;
    }

    /** The scroll listener: the bar counts as scrolled past 10 pixels. */
    method HandleScroll(scrollY: int)
      modifies this
      ensures isScrolled <==> scrollY > ScrollThreshold
      ensures isMenuOpen == old(isMenuOpen) && userProfile == old(userProfile)
    {
      isScrolled := scrollY > ScrollThreshold;
    }

    /** The mobile menu button. */
    method ToggleMenu()
      modifies this
      ensures isMenuOpen == !old(isMenuOpen)
      ensures isScrolled == old(isScrolled) && userProfile == old(userProfile)
    {
      isMenuOpen := !isMenuOpen;
    }

    /** The answer to the profile fetch: `data.user` when there is one.
        Without one the previous profile stays. */
    method ProfileFetched(user: Option<ProfilePage.StoredProfile>)
      modifies this
      ensures userProfile == (if user.Some? then user else old(userProfile))
      ensures isMenuOpen == old(isMenuOpen) && isScrolled == old(isScrolled)
    {
      if user.Some? {
        userProfile := user;
      }
    }
  }
}
