/** The profile page: the initials and the avatar it shows, the body it
    sends when a name is saved, the checks an uploaded picture must pass,
    and the page state its handlers update.

    The requests are not performed: a handler returns the body it would
    send to `PUT /api/users/sync`, and the reply is a separate input. The
    file's contents reach the model as the data URL the reader produced. */
module ProfilePage {
  import opened Js
  import ProfileSync
  import AuthContext

  // ---------------------------------------------------------------------
  // Initials.

  /** Splitting a trimmed name with a space in it: the first piece starts
      with the name's first character, and the last piece is the non-empty
      rest after the last space. */
  lemma NameParts(t: string)
    requires Trimmed(t) && ' ' in t
    ensures var parts := Split(t, ' ');
      var last := parts[|parts| - 1];
      && |parts| >= 2
      && parts[0] != "" && parts[0][0] == t[0]
      && last != "" && |last| < |t| && last == t[|t| - |last|..] && t[|t| - |last| - 1] == ' '
  {
    SplitCount(t, ' ');
    assert t[0] != ' ' && t[|t| - 1] != ' ';
    SplitFirst(t, ' ');
    SplitLast(t, ' ');
  }

  /** `getInitials(name, email)`: the first letters of the first and last
      words of the trimmed name, else the name's own first character, else
      the email's, upper-cased character by character; "?" with neither. */
  function Initials(name: Option<string>, email: Option<string>): (r: string)
    ensures 1 <= |r| <= 2
  {
    if name.Some? && name.value != "" then
      var t := Trim(name.value);
      var parts := Split(t, ' ');
      if |parts| >= 2 then
        SplitCount(t, ' ');
        NameParts(t);
        [UpperChar(parts[0][0]), UpperChar(parts[|parts| - 1][0])]
      else [UpperChar(name.value[0])]
    else if email.Some? && email.value != "" then [UpperChar(email.value[0])]
    else "?"
  }

  /** The two-initial case on the trimmed name `t`. */
  lemma TwoInitials(t: string)
    requires Trimmed(t) && ' ' in t
    ensures var parts := Split(t, ' ');
      && |parts| >= 2 && parts[0] != "" && parts[|parts| - 1] != ""
      && parts[0][0] == t[0]
      && (exists k :: 0 < k < |t| && t[k - 1] == ' ' && ' ' !in t[k..] && parts[|parts| - 1][0] == t[k])
  {
    NameParts(t);
    var parts := Split(t, ' ');
    var last := parts[|parts| - 1];
    var k := |t| - |last|;
    assert t[k] == last[0];
    assert t[k..] == last;
  }

  /** A name with a space in it after trimming gives two initials: the
      first character of the trimmed name and the one just after its last
      space. */
  lemma InitialsOfSeveralWords(name: string, email: Option<string>)
    requires name != "" && ' ' in Trim(name)
    ensures var r := Initials(Some(name), email);
      var t := Trim(name);
      && |r| == 2 && r[0] == UpperChar(t[0])
      && exists k :: 0 < k < |t| && t[k - 1] == ' ' && ' ' !in t[k..] && r[1] == UpperChar(t[k])
  {
    var t := Trim(name);
    var parts := Split(t, ' ');
    TwoInitials(t);
    assert Initials(Some(name), email) == [UpperChar(parts[0][0]), UpperChar(parts[|parts| - 1][0])];
  }

  /** A one-word name gives the first character of the name as stored,
      before trimming, so a leading space is what the avatar shows. */
  lemma InitialsOfOneWord(name: string, email: Option<string>)
    requires name != "" && ' ' !in Trim(name)
    ensures Initials(Some(name), email) == [UpperChar(name[0])]
  {
    SplitCount(Trim(name), ' ');
  }

  /** Without a name the email's first character is used, and "?" without
      either. */
  lemma InitialsWithoutName(name: Option<string>, email: Option<string>)
    requires name.None? || name.value == ""
    ensures email.Some? && email.value != "" ==> Initials(name, email) == [UpperChar(email.value[0])]
    ensures email.None? || email.value == "" ==> Initials(name, email) == "?"
  {
  }

  // ---------------------------------------------------------------------
  // The avatar.

  /** The row `GET /api/users/profile` returns, as far as the page reads it. */
  datatype StoredProfile = StoredProfile(fullName: Option<string>, profilePicture: Option<string>)

  /** `profile?.profile_picture` */
  function StoredPicture(profile: Option<StoredProfile>): JsValue {
    if profile.Some? && profile.value.profilePicture.Some? then Str(profile.value.profilePicture.value) else Null
  }

  /** `profile?.full_name || ''` */
  function StoredName(profile: Option<StoredProfile>): string {
    if profile.Some? && profile.value.fullName.Some? then profile.value.fullName.value else ""
  }

  /** `user?.user_metadata`, empty without a user. */
  function MetaOf(user: Option<AuthContext.AuthUser>): AuthContext.UserMetadata {
    if user.Some? then AuthContext.Meta(user.value) else AuthContext.EmptyMetadata
  }

  /** `getAvatarUrl()` */
  function AvatarUrl(imagePreview: Option<string>, profile: Option<StoredProfile>,
                     user: Option<AuthContext.AuthUser>): (r: JsValue)
    ensures Truthy(r) || r == Null
    ensures imagePreview.Some? && imagePreview.value != "" ==> r == Str(imagePreview.value)
  {
    var meta := MetaOf(user);
    if imagePreview.Some? && imagePreview.value != "" then Str(imagePreview.value)
    else if Truthy(StoredPicture(profile)) then StoredPicture(profile)
    else if Truthy(meta.avatarUrl) || Truthy(meta.picture) then Or(meta.avatarUrl, meta.picture)
    else Null
  }

  /** The avatar is the first truthy of the preview, the stored picture,
      `avatar_url` and `picture`, and `null` when none is. */
  lemma AvatarPriority(imagePreview: Option<string>, profile: Option<StoredProfile>,
                       user: Option<AuthContext.AuthUser>)
    ensures var r := AvatarUrl(imagePreview, profile, user);
      var preview := if imagePreview.Some? then Str(imagePreview.value) else Null;
      var meta := MetaOf(user);
      && (Truthy(r) || r == Null)
      && (r == Null <==> !Truthy(preview) && !Truthy(StoredPicture(profile)) && !Truthy(meta.avatarUrl) && !Truthy(meta.picture))
      && (Truthy(preview) ==> r == preview)
      && (!Truthy(preview) && Truthy(StoredPicture(profile)) ==> r == StoredPicture(profile))
      && (!Truthy(preview) && !Truthy(StoredPicture(profile)) && Truthy(meta.avatarUrl) ==> r == meta.avatarUrl)
      && (!Truthy(preview) && !Truthy(StoredPicture(profile)) && !Truthy(meta.avatarUrl) && Truthy(meta.picture) ==> r == meta.picture)
  {
  }

  /** Before a picture is stored, the avatar is the picture the sign-in
      sync sends, unless that one came from `profile_picture` metadata. */
  lemma AvatarFallsBackToSyncedPicture(profile: Option<StoredProfile>, u: AuthContext.AuthUser)
    requires !Truthy(StoredPicture(profile)) && !Truthy(AuthContext.Meta(u).profilePicture)
    ensures AvatarUrl(None, profile, Some(u)) == AuthContext.Picture(u)
  {
  }

  // ---------------------------------------------------------------------
  // Saving a name and uploading a picture.

  /** The body `handleSaveName` sends: the trimmed name, or `null` when it
      is blank. */
  function SaveNameBody(userId: string, editedName: string): (b: ProfileSync.EditBody)
    ensures b.userId == Str(userId) && b.emailVerified.Undefined? && b.profilePicture.Undefined?
    ensures b.fullName == (if Trim(editedName) == "" then Null else Str(Trim(editedName)))
  {
    ProfileSync.EditBody(Str(userId), Undefined, Or(Str(Trim(editedName)), Null), Undefined)
  }

  /** A `PUT` that carries only a name writes that name and `updated_at`
      and nothing else. */
  lemma NameEditAtEndpoint(userId: string, fullName: JsValue, row: ProfileSync.UserRow, stamp: string)
    requires userId != "" && !fullName.Undefined?
    ensures var a := ProfileSync.EditDecision(ProfileSync.EditBody(Str(userId), Undefined, fullName, Undefined), stamp);
      var r := ProfileSync.Apply(row, a.changes);
      && a.EditUpdate?
      && r.fullName == fullName
      && forall c :: c !in {ProfileSync.UpdatedAt, ProfileSync.FullName} ==> ProfileSync.Get(r, c) == ProfileSync.Get(row, c)
  {
    ProfileSync.EditIsAuthoritative(ProfileSync.EditBody(Str(userId), Undefined, fullName, Undefined), row, stamp);
  }

  /** The name `SaveNameBody` carries, for a trimmed `t`. */
  lemma SavedNameValue(userId: string, t: string, row: ProfileSync.UserRow, stamp: string)
    requires userId != "" && Trimmed(t)
    ensures var a := ProfileSync.EditDecision(ProfileSync.EditBody(Str(userId), Undefined, Or(Str(t), Null), Undefined), stamp);
      var r := ProfileSync.Apply(row, a.changes);
      && a.EditUpdate?
      && (t == "" ==> r.fullName == Null)
      && (t != "" ==> r.fullName == Str(t) && Trimmed(r.fullName.s))
      && forall c :: c !in {ProfileSync.UpdatedAt, ProfileSync.FullName} ==> ProfileSync.Get(r, c) == ProfileSync.Get(row, c)
  {
    NameEditAtEndpoint(userId, Or(Str(t), Null), row, stamp);
  }

  /** At the endpoint, saving a name stores the trimmed name, or clears it
      to `null` when blank, whatever was stored; only `updated_at` changes
      with it. */
  lemma SavedNameAtEndpoint(userId: string, editedName: string, row: ProfileSync.UserRow, stamp: string)
    requires userId != ""
    ensures var a := ProfileSync.EditDecision(SaveNameBody(userId, editedName), stamp);
      var r := ProfileSync.Apply(row, a.changes);
      && a.EditUpdate?
      && (Trim(editedName) == "" ==> r.fullName == Null)
      && (Trim(editedName) != "" ==> r.fullName == Str(Trim(editedName)) && Trimmed(r.fullName.s))
      && forall c :: c !in {ProfileSync.UpdatedAt, ProfileSync.FullName} ==> ProfileSync.Get(r, c) == ProfileSync.Get(row, c)
  {
    SavedNameValue(userId, Trim(editedName), row, stamp);
  }

  const MaxImageBytes := 5 * 1024 * 1024
  const NotAnImage := "Please select an image file"
  const TooLarge := "Image size must be less than 5MB"

  /** The checks of `handleImageChange`: the message shown, or `None` when
      the file may be uploaded. */
  function UploadError(fileType: string, size: int): (r: Option<string>)
    ensures r.None? <==> StartsWith(fileType, "image/") && size <= MaxImageBytes
    ensures !StartsWith(fileType, "image/") ==> r == Some(NotAnImage)
    ensures StartsWith(fileType, "image/") && size > MaxImageBytes ==> r == Some(TooLarge)
  {
    if !StartsWith(fileType, "image/") then Some(NotAnImage)
    else if size > MaxImageBytes then Some(TooLarge)
    else None
  }

  /** The first file of the input: its MIME type and its size in bytes. */
  datatype File = File(fileType: string, size: int)

  /** The answer to a `PUT`: the updated row, or the error the page shows
      (`data.error`, possibly empty), or a request that threw. */
  datatype UpdateReply = Updated(user: StoredProfile) | UpdateFailed(message: string) | UpdateThrew

  /** The outcome of loading the profile. `LoadFailed` carries a truthy
      `data.error`, so its message is never empty: a reply with a falsy
      error takes the success branch and is `Loaded`. */
  datatype LoadReply = Loaded(user: StoredProfile) | LoadFailed(message: string) | LoadThrew

  /** The page's state. */
  class ProfileView {
    var profile: Option<StoredProfile>
    var loading: bool
    var error: Option<string>
    var isEditingName: bool
    var isEditingImage: bool
    var editedName: string
    var saving: bool
    var imagePreview: Option<string>

    constructor()
      ensures profile.None? && loading && error.None? && !isEditingName && !isEditingImage
      ensures editedName == "" && !saving && imagePreview.None?
    {
      profile := None;
      loading := true;
      error := None;
      isEditingName := false;
      isEditingImage := false;
      editedName := "";
      saving := false;
      imagePreview := None;
    }

    /** The answer to the profile fetch. A loaded profile also fills the
        name field. */
    method ProfileLoaded(reply: LoadReply)
      requires reply.LoadFailed? ==> reply.message != ""
      modifies this
      ensures !loading
      ensures reply.Loaded? ==> profile == Some(reply.user) && editedName == StoredName(profile) && error == old(error)
      ensures reply.LoadFailed? ==> error == Some(reply.message) && profile == old(profile) && editedName == old(editedName)
      ensures reply.LoadThrew? ==> error == Some("Failed to load profile") && profile == old(profile) && editedName == old(editedName)
      ensures isEditingName == old(isEditingName) && isEditingImage == old(isEditingImage)
      ensures saving == old(saving) && imagePreview == old(imagePreview)
    {
      match reply {
        case Loaded(user) =>
          profile := Some(user);
          editedName := StoredName(profile);
        case LoadFailed(message) =>
          error := Some(message);
        case LoadThrew =>
          error := Some("Failed to load profile");
      }
      loading := false;
    }

    /** `handleEditName()` */
    method EditName()
      modifies this
      ensures isEditingName && editedName == StoredName(profile)
      ensures profile == old(profile) && loading == old(loading) && error == old(error)
      ensures isEditingImage == old(isEditingImage) && saving == old(saving) && imagePreview == old(imagePreview)
    {
      isEditingName := true;
      editedName := StoredName(profile);
    }

    /** `handleCancelEditName()`: the edit is dropped and the field shows
        the stored name again. */
    method CancelEditName()
      modifies this
      ensures !isEditingName && editedName == StoredName(profile)
      ensures profile == old(profile) && loading == old(loading) && error == old(error)
      ensures isEditingImage == old(isEditingImage) && saving == old(saving) && imagePreview == old(imagePreview)
    {
      isEditingName := false;
      editedName := StoredName(profile);
    }

    /** `handleSaveName()` up to the request: nothing happens without a
        user or a profile; otherwise saving starts and the body with the
        normalised name is sent. */
    method SaveName(userId: Option<string>) returns (request: Option<ProfileSync.EditBody>)
      modifies this
      ensures request == if userId.None? || profile.None? then None else Some(SaveNameBody(userId.value, editedName))
      ensures saving == (request.Some? || old(saving))
      ensures profile == old(profile) && loading == old(loading) && error == old(error)
      ensures isEditingName == old(isEditingName) && isEditingImage == old(isEditingImage)
      ensures editedName == old(editedName) && imagePreview == old(imagePreview)
    {
      if userId.None? || profile.None? {
        return None;
      }
      request := Some(SaveNameBody(userId.value, editedName));
      saving := true;
    }

    /** The rest of `handleSaveName()`: the answer to its request. */
    method SaveNameReply(reply: UpdateReply)
      modifies this
      ensures !saving
      ensures reply.Updated? ==> profile == Some(reply.user) && !isEditingName && error.None?
      ensures reply.UpdateFailed? ==> error == Some(OrElse(reply.message, "Failed to update name"))
      ensures reply.UpdateThrew? ==> error == Some("Failed to update name")
      ensures !reply.Updated? ==> profile == old(profile) && isEditingName == old(isEditingName)
      ensures loading == old(loading) && editedName == old(editedName)
      ensures isEditingImage == old(isEditingImage) && imagePreview == old(imagePreview)
    {
      match reply {
        case Updated(user) =>
          profile := Some(user);
          isEditingName := false;
          error := None;
        case UpdateFailed(message) =>
          error := Some(OrElse(message, "Failed to update name"));
        case UpdateThrew =>
          error := Some("Failed to update name");
      }
      saving := false;
    }

    /** `handleImageChange()` up to the request. Without a file, a user or
        a profile nothing happens; a file that is not an image or is over
        5 MiB only sets the error; otherwise the preview is shown and the
        data URL is sent as the new picture. */
    method ImageChange(file: Option<File>, userId: Option<string>, dataUrl: string)
      returns (request: Option<ProfileSync.EditBody>)
      modifies this
      ensures request.Some? <==>
        file.Some? && userId.Some? && old(profile).Some? && UploadError(file.value.fileType, file.value.size).None?
      ensures request.Some? ==>
        && request.value == ProfileSync.EditBody(Str(userId.value), Undefined, Undefined, Str(dataUrl))
        && imagePreview == Some(dataUrl) && isEditingImage && saving && error == old(error)
      ensures file.Some? && userId.Some? && old(profile).Some? && UploadError(file.value.fileType, file.value.size).Some? ==>
        error == UploadError(file.value.fileType, file.value.size)
        && imagePreview == old(imagePreview) && isEditingImage == old(isEditingImage) && saving == old(saving)
      ensures !(file.Some? && userId.Some? && old(profile).Some?) ==>
        error == old(error) && imagePreview == old(imagePreview) && isEditingImage == old(isEditingImage) && saving == old(saving)
      ensures profile == old(profile) && loading == old(loading)
      ensures isEditingName == old(isEditingName) && editedName == old(editedName)
    {
      request := None;
      if file.None? || userId.None? || profile.None? {
        return;
      }
      var problem := UploadError(file.value.fileType, file.value.size);
      if problem.Some? {
        error := problem;
        return;
      }
      imagePreview := Some(dataUrl);
      isEditingImage := true;
      saving := true;
      request := Some(ProfileSync.EditBody(Str(userId.value), Undefined, Undefined, Str(dataUrl)));
    }

    /** The rest of `handleImageChange()`: the preview is dropped whatever
        the answer, and a stored picture replaces the profile. */
    method ImageReply(reply: UpdateReply)
      modifies this
      ensures !saving && !isEditingImage && imagePreview.None?
      ensures reply.Updated? ==> profile == Some(reply.user) && error.None?
      ensures reply.UpdateFailed? ==> error == Some(OrElse(reply.message, "Failed to update image"))
      ensures reply.UpdateThrew? ==> error == Some("Failed to update image")
      ensures !reply.Updated? ==> profile == old(profile)
      ensures loading == old(loading) && isEditingName == old(isEditingName) && editedName == old(editedName)
    {
      match reply {
        case Updated(user) =>
          profile := Some(user);
          error := None;
        case UpdateFailed(message) =>
          error := Some(OrElse(message, "Failed to update image"));
        case UpdateThrew =>
          error := Some("Failed to update image");
      }
      saving := false;
      isEditingImage := false;
      imagePreview := None;
    }
  }

  /** An uploaded picture, once accepted, is what the store keeps: the data
      URL is never empty in practice, and a non-empty one is written as
      sent, leaving every other column but `updated_at` alone. */
  lemma UploadedPictureAtEndpoint(userId: string, dataUrl: string, row: ProfileSync.UserRow, stamp: string)
    requires userId != "" && dataUrl != ""
    ensures var a := ProfileSync.EditDecision(ProfileSync.EditBody(Str(userId), Undefined, Undefined, Str(dataUrl)), stamp);
      var r := ProfileSync.Apply(row, a.changes);
      && a.EditUpdate?
      && r.profilePicture == Str(dataUrl)
      && forall c :: c !in {ProfileSync.UpdatedAt, ProfileSync.ProfilePicture} ==> ProfileSync.Get(r, c) == ProfileSync.Get(row, c)
  {
    ProfileSync.EditIsAuthoritative(ProfileSync.EditBody(Str(userId), Undefined, Undefined, Str(dataUrl)), row, stamp);
  }
}
