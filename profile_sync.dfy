/** The profile synchronisation endpoint (`/api/users/sync`).

    `POST` turns an identity-provider body into the row to insert, or, when
    the user already has a row, into the update to apply to it. `full_name`
    and `profile_picture` are sticky on update: they are written only while
    the stored value is falsy. `PUT` is the explicit-edit path: it writes
    whatever the caller supplied.

    The store's replies are inputs: the existence check, the re-fetched row
    and the readings of the clock. The route's own decision, the payload,
    is what is modelled. */
module ProfileSync {
  import opened Js

  /** Columns of the `users` table that the route writes or reads. */
  datatype Column =
    | Id | Email | UpdatedAt | CreatedAt | EmailVerified
    | FullName | FirstName | LastName | ProfilePicture | GoogleId | AuthProvider

  /** A row of the `users` table as `select('*')` returns it. */
  datatype UserRow = UserRow(
    id: JsValue, email: JsValue, updatedAt: JsValue, createdAt: JsValue,
    emailVerified: JsValue, fullName: JsValue, firstName: JsValue, lastName: JsValue,
    profilePicture: JsValue, googleId: JsValue, authProvider: JsValue)

  /** The object literal the route sends to `insert` or `update`: one
      optional property per column. `None` is a property never assigned,
      which the store leaves as it is. */
  datatype Payload = Payload(
    id: Option<JsValue>, email: Option<JsValue>, updatedAt: Option<JsValue>, createdAt: Option<JsValue>,
    emailVerified: Option<JsValue>, fullName: Option<JsValue>, firstName: Option<JsValue>,
    lastName: Option<JsValue>, profilePicture: Option<JsValue>, googleId: Option<JsValue>,
    authProvider: Option<JsValue>)

  const NoChanges := Payload(None, None, None, None, None, None, None, None, None, None, None)

  function Get(row: UserRow, c: Column): JsValue {
    match c
    case Id => row.id
    case Email => row.email
    case UpdatedAt => row.updatedAt
    case CreatedAt => row.createdAt
    case EmailVerified => row.emailVerified
    case FullName => row.fullName
    case FirstName => row.firstName
    case LastName => row.lastName
    case ProfilePicture => row.profilePicture
    case GoogleId => row.googleId
    case AuthProvider => row.authProvider
  }

  function Field(p: Payload, c: Column): Option<JsValue> {
    match c
    case Id => p.id
    case Email => p.email
    case UpdatedAt => p.updatedAt
    case CreatedAt => p.createdAt
    case EmailVerified => p.emailVerified
    case FullName => p.fullName
    case FirstName => p.firstName
    case LastName => p.lastName
    case ProfilePicture => p.profilePicture
    case GoogleId => p.googleId
    case AuthProvider => p.authProvider
  }

  function Override(stored: JsValue, v: Option<JsValue>): JsValue {
    if v.Some? then v.value else stored
  }

  /** What the store does with an update: every column the payload assigns
      takes the payload's value, every other column keeps its value. */
  function Apply(row: UserRow, p: Payload): (r: UserRow)
    ensures forall c :: Get(r, c) == Override(Get(row, c), Field(p, c))
  {
    UserRow(
      Override(row.id, p.id), Override(row.email, p.email),
      Override(row.updatedAt, p.updatedAt), Override(row.createdAt, p.createdAt),
      Override(row.emailVerified, p.emailVerified), Override(row.fullName, p.fullName),
      Override(row.firstName, p.firstName), Override(row.lastName, p.lastName),
      Override(row.profilePicture, p.profilePicture), Override(row.googleId, p.googleId),
      Override(row.authProvider, p.authProvider))
  }

  /** The row an insert creates: the payload's columns, `null` elsewhere. */
  function Inserted(p: Payload): UserRow {
    Apply(UserRow(Null, Null, Null, Null, Null, Null, Null, Null, Null, Null, Null), p)
  }

  /** The body of a `POST`, each field as the JSON parser produced it. */
  datatype SyncBody = SyncBody(
    userId: JsValue, email: JsValue, fullName: JsValue, firstName: JsValue,
    lastName: JsValue, profilePicture: JsValue, googleId: JsValue, authProvider: JsValue)

  /** The outcome of `select('id').eq('id', userId).single()`. */
  datatype ExistenceCheck = Exists | CheckFailed(code: string)

  /** The store's error code for "no row", which the route treats as the
      expected answer for a new user. */
  const NotFoundCode := "PGRST116"

  /** The readings of `new Date().toISOString()` in the order the handler
      takes them: `first` for `userData.updated_at`, `second` for
      `updateData.updated_at` on the update branch or for `created_at` on
      the insert branch. */
  datatype Clock = Clock(first: string, second: string)

  /** What the handler asks of the store, or the error response it returns
      instead. */
  datatype SyncAction =
    | BadRequest(message: string)
    | ServerError(code: string)
    | Insert(row: Payload)
    | Update(key: JsValue, changes: Payload)

  const SyncRequiredMessage := "User ID and email are required"
  const EditRequiredMessage := "User ID is required"

  // ---------------------------------------------------------------------
  // The merge policy as a table: each column has one rule per branch.

  datatype Rule =
    | Always          // written on every call
    | Never           // never written
    | IfDefined       // written unless undefined (null and '' are written)
    | IfPresent       // written unless undefined or null ('' is written)
    | IfProvided      // written unless undefined, null or ''
    | Sticky          // as IfProvided, and only while the stored value is falsy

  function InsertRule(c: Column): Rule {
    match c
    case Id => Always
    case Email => Always
    case UpdatedAt => Always
    case CreatedAt => Always
    case EmailVerified => Always
    case FullName => IfProvided
    case FirstName => IfProvided
    case LastName => IfProvided
    case ProfilePicture => IfProvided
    case GoogleId => IfPresent
    case AuthProvider => IfPresent
  }

  function UpdateRule(c: Column): Rule {
    match c
    case Id => Never
    case Email => Always
    case UpdatedAt => Always
    case CreatedAt => Never
    case EmailVerified => Never
    case FullName => Sticky
    case FirstName => IfProvided
    case LastName => IfProvided
    case ProfilePicture => Sticky
    case GoogleId => IfPresent
    case AuthProvider => IfPresent
  }

  function EditRule(c: Column): Rule {
    match c
    case UpdatedAt => Always
    case EmailVerified => IfDefined
    case FullName => IfDefined
    case ProfilePicture => IfDefined
    case _ => Never
  }

  /** The value a sync would write to column `c`; `stamp` is the clock
      reading used for `updated_at` on this branch. */
  function Incoming(body: SyncBody, c: Column, stamp: string, created: string): JsValue {
    match c
    case Id => body.userId
    case Email => body.email
    case UpdatedAt => Str(stamp)
    case CreatedAt => Str(created)
    case EmailVerified => Bool(false)
    case FullName => body.fullName
    case FirstName => body.firstName
    case LastName => body.lastName
    case ProfilePicture => body.profilePicture
    case GoogleId => body.googleId
    case AuthProvider => body.authProvider
  }

  /** Whether a rule writes `v`, given the stored value of the column when a
      row was re-fetched. A missing re-fetch lets sticky columns through. */
  predicate Writes(rule: Rule, v: JsValue, stored: Option<JsValue>) {
    match rule
    case Always => true
    case Never => false
    case IfDefined => !v.Undefined?
    case IfPresent => IsPresent(v)
    case IfProvided => IsProvided(v)
    case Sticky => IsProvided(v) && (stored.None? || !Truthy(stored.value))
  }

  function Stored(current: Option<UserRow>, c: Column): Option<JsValue> {
    if current.Some? then Some(Get(current.value, c)) else None
  }

  /** The payload entry a rule produces for an incoming value. */
  function Entry(rule: Rule, v: JsValue, stored: Option<JsValue>): Option<JsValue> {
    if Writes(rule, v, stored) then Some(v) else None
  }

  function InsertEntry(body: SyncBody, clock: Clock, c: Column): Option<JsValue> {
    Entry(InsertRule(c), Incoming(body, c, clock.first, clock.second), None)
  }

  function UpdateEntry(body: SyncBody, current: Option<UserRow>, clock: Clock, c: Column): Option<JsValue> {
    Entry(UpdateRule(c), Incoming(body, c, clock.second, ""), Stored(current, c))
  }

  /** The insert row the table prescribes. */
  function InsertPayload(body: SyncBody, clock: Clock): (p: Payload)
    ensures p.id == Some(body.userId) && p.email == Some(body.email) && p.emailVerified == Some(Bool(false))
    ensures p.fullName.Some? <==> IsProvided(body.fullName)
    ensures p.profilePicture.Some? <==> IsProvided(body.profilePicture)
  {
    Payload(
      InsertEntry(body, clock, Id), InsertEntry(body, clock, Email),
      InsertEntry(body, clock, UpdatedAt), InsertEntry(body, clock, CreatedAt),
      InsertEntry(body, clock, EmailVerified), InsertEntry(body, clock, FullName),
      InsertEntry(body, clock, FirstName), InsertEntry(body, clock, LastName),
      InsertEntry(body, clock, ProfilePicture), InsertEntry(body, clock, GoogleId),
      InsertEntry(body, clock, AuthProvider))
  }

  /** The update the table prescribes, given the re-fetched row. */
  function UpdatePayload(body: SyncBody, current: Option<UserRow>, clock: Clock): (p: Payload)
    ensures p.id.None? && p.createdAt.None? && p.emailVerified.None? && p.email == Some(body.email)
    ensures p.fullName.Some? ==> current.None? || !Truthy(current.value.fullName)
    ensures p.profilePicture.Some? ==> current.None? || !Truthy(current.value.profilePicture)
  {
    Payload(
      UpdateEntry(body, current, clock, Id), UpdateEntry(body, current, clock, Email),
      UpdateEntry(body, current, clock, UpdatedAt), UpdateEntry(body, current, clock, CreatedAt),
      UpdateEntry(body, current, clock, EmailVerified), UpdateEntry(body, current, clock, FullName),
      UpdateEntry(body, current, clock, FirstName), UpdateEntry(body, current, clock, LastName),
      UpdateEntry(body, current, clock, ProfilePicture), UpdateEntry(body, current, clock, GoogleId),
      UpdateEntry(body, current, clock, AuthProvider))
  }

  /** The whole `POST` decision, stated through the policy table. */
  function SyncDecision(body: SyncBody, check: ExistenceCheck, current: Option<UserRow>, clock: Clock): (a: SyncAction)
    ensures a.BadRequest? <==> !Truthy(body.userId) || !Truthy(body.email)
    ensures a.ServerError? <==> Truthy(body.userId) && Truthy(body.email) && check.CheckFailed? && check.code != NotFoundCode
    ensures a.Update? <==> Truthy(body.userId) && Truthy(body.email) && check.Exists?
    ensures a.Update? ==> a.key == body.userId
  {
    if !Truthy(body.userId) || !Truthy(body.email) then BadRequest(SyncRequiredMessage)
    else if check.CheckFailed? && check.code != NotFoundCode then ServerError(check.code)
    else if check.Exists? then Update(body.userId, UpdatePayload(body, current, clock))
    else Insert(InsertPayload(body, clock))
  }

  // ---------------------------------------------------------------------
  // The handlers, property by property as the route builds its objects.

  /** `POST /api/users/sync`. `check` is the reply to the existence check
      and `current` the reply to the `select('*')` re-fetch, which the
      handler only makes when the user exists. */
  method Post(body: SyncBody, check: ExistenceCheck, current: Option<UserRow>, clock: Clock)
    returns (action: SyncAction)
    ensures action.BadRequest? <==> !Truthy(body.userId) || !Truthy(body.email)
    ensures action.ServerError? <==>
              Truthy(body.userId) && Truthy(body.email) && check.CheckFailed? && check.code != NotFoundCode
    ensures action.Update? ==> check.Exists? && action.key == body.userId
    ensures action == SyncDecision(body, check, current, clock)
  {
    if !Truthy(body.userId) || !Truthy(body.email) {
      return BadRequest(SyncRequiredMessage);
    }
    if check.CheckFailed? && check.code != NotFoundCode {
      return ServerError(check.code);
    }

    ghost var spec := InsertPayload(body, clock);
    var userData := NoChanges.(id := Some(body.userId), email := Some(body.email),
                               updatedAt := Some(Str(clock.first)));
    if IsProvided(body.fullName) {
      userData := userData.(fullName := Some(body.fullName));
    }
    assert userData.fullName == spec.fullName;
    if IsProvided(body.firstName) {
      userData := userData.(firstName := Some(body.firstName));
    }
    assert userData.firstName == spec.firstName;
    if IsProvided(body.lastName) {
      userData := userData.(lastName := Some(body.lastName));
    }
    assert userData.lastName == spec.lastName;
    if IsProvided(body.profilePicture) {
      userData := userData.(profilePicture := Some(body.profilePicture));
    }
    assert userData.profilePicture == spec.profilePicture;
    if IsPresent(body.googleId) {
      userData := userData.(googleId := Some(body.googleId));
    }
    assert userData.googleId == spec.googleId;
    if IsPresent(body.authProvider) {
      userData := userData.(authProvider := Some(body.authProvider));
    }
    assert userData.authProvider == spec.authProvider;

    if check.Exists? {
      var updateData := UpdateData(body, current, clock);
      action := Update(body.userId, updateData);
    } else {
      userData := userData.(createdAt := Some(Str(clock.second)));
      userData := userData.(emailVerified := Some(Bool(false)));
      action := Insert(userData);
    }
  }

  /** The `updateData` object of the update branch: sticky columns are
      consulted against the re-fetched row. */
  method UpdateData(body: SyncBody, current: Option<UserRow>, clock: Clock) returns (updateData: Payload)
    ensures updateData == UpdatePayload(body, current, clock)
  {
    ghost var spec := UpdatePayload(body, current, clock);
    updateData := NoChanges.(email := Some(body.email), updatedAt := Some(Str(clock.second)));
    if IsProvided(body.fullName) {
      if current.Some? {
        if !Truthy(current.value.fullName) {
          updateData := updateData.(fullName := Some(body.fullName));
        }
      } else {
        updateData := updateData.(fullName := Some(body.fullName));
      }
    }
    assert updateData.fullName == spec.fullName;
    if IsProvided(body.profilePicture) {
      if current.Some? {
        if !Truthy(current.value.profilePicture) {
          updateData := updateData.(profilePicture := Some(body.profilePicture));
        }
      } else {
        updateData := updateData.(profilePicture := Some(body.profilePicture));
      }
    }
    assert updateData.profilePicture == spec.profilePicture;
    if IsProvided(body.firstName) {
      updateData := updateData.(firstName := Some(body.firstName));
    }
    assert updateData.firstName == spec.firstName;
    if IsProvided(body.lastName) {
      updateData := updateData.(lastName := Some(body.lastName));
    }
    assert updateData.lastName == spec.lastName;
    if IsPresent(body.googleId) {
      updateData := updateData.(googleId := Some(body.googleId));
    }
    assert updateData.googleId == spec.googleId;
    if IsPresent(body.authProvider) {
      updateData := updateData.(authProvider := Some(body.authProvider));
    }
    assert updateData.authProvider == spec.authProvider;
  }

  /** The body of a `PUT`. */
  datatype EditBody = EditBody(userId: JsValue, emailVerified: JsValue, fullName: JsValue, profilePicture: JsValue)

  datatype EditAction = EditRejected(message: string) | EditUpdate(key: JsValue, changes: Payload)

  function EditField(body: EditBody, c: Column): JsValue {
    match c
    case EmailVerified => body.emailVerified
    case FullName => body.fullName
    case ProfilePicture => body.profilePicture
    case _ => Undefined
  }

  /** The value a `PUT` writes: a falsy picture is stored as `null`. */
  function EditValue(body: EditBody, c: Column, stamp: string): JsValue {
    match c
    case UpdatedAt => Str(stamp)
    case ProfilePicture => Or(body.profilePicture, Null)
    case _ => EditField(body, c)
  }

  function EditEntry(body: EditBody, stamp: string, c: Column): Option<JsValue> {
    if Writes(EditRule(c), if c == UpdatedAt then Str(stamp) else EditField(body, c), None)
    then Some(EditValue(body, c, stamp)) else None
  }

  /** The `PUT` decision the table prescribes. */
  function EditDecision(body: EditBody, stamp: string): (a: EditAction)
    ensures a.EditUpdate? ==> forall c :: Field(a.changes, c) == EditEntry(body, stamp, c)
    ensures a.EditRejected? <==> !Truthy(body.userId)
    ensures a.EditUpdate? ==> a.key == body.userId
    ensures a.EditUpdate? ==>
      && a.changes.updatedAt == Some(Str(stamp))
      && a.changes.emailVerified == (if body.emailVerified.Undefined? then None else Some(body.emailVerified))
      && a.changes.fullName == (if body.fullName.Undefined? then None else Some(body.fullName))
      && a.changes.profilePicture == (if body.profilePicture.Undefined? then None
                                      else if Truthy(body.profilePicture) then Some(body.profilePicture) else Some(Null))
      && a.changes.id.None? && a.changes.email.None? && a.changes.createdAt.None?
      && a.changes.firstName.None? && a.changes.lastName.None?
      && a.changes.googleId.None? && a.changes.authProvider.None?
  {
    if !Truthy(body.userId) then EditRejected(EditRequiredMessage)
    else EditUpdate(body.userId, Payload(
      EditEntry(body, stamp, Id), EditEntry(body, stamp, Email),
      EditEntry(body, stamp, UpdatedAt), EditEntry(body, stamp, CreatedAt),
      EditEntry(body, stamp, EmailVerified), EditEntry(body, stamp, FullName),
      EditEntry(body, stamp, FirstName), EditEntry(body, stamp, LastName),
      EditEntry(body, stamp, ProfilePicture), EditEntry(body, stamp, GoogleId),
      EditEntry(body, stamp, AuthProvider)))
  }

  /** `PUT /api/users/sync`. The row it re-reads before the update is never
      used, and there is no not-found answer: an unknown id reaches the
      store's `update`, whose reply is not modelled. */
  method Put(body: EditBody, stamp: string) returns (action: EditAction)
    ensures action.EditRejected? <==> !Truthy(body.userId)
    ensures action.EditUpdate? ==> action.key == body.userId
    ensures action == EditDecision(body, stamp)
  {
    if !Truthy(body.userId) {
      return EditRejected(EditRequiredMessage);
    }
    var updateData := NoChanges.(updatedAt := Some(Str(stamp)));
    if !body.emailVerified.Undefined? {
      updateData := updateData.(emailVerified := Some(body.emailVerified));
    }
    if !body.fullName.Undefined? {
      updateData := updateData.(fullName := Some(body.fullName));
    }
    if !body.profilePicture.Undefined? {
      updateData := updateData.(profilePicture := Some(Or(body.profilePicture, Null)));
    }
    action := EditUpdate(body.userId, updateData);
  }

  // ---------------------------------------------------------------------
  // What the policy guarantees.

  /** A rejected `POST` never reaches the store, and an accepted one always
      names the row by the caller's user id and writes the caller's email. */
  lemma SyncValidation(body: SyncBody, check: ExistenceCheck, current: Option<UserRow>, clock: Clock)
    ensures var a := SyncDecision(body, check, current, clock);
      (a == BadRequest(SyncRequiredMessage) <==> !Truthy(body.userId) || !Truthy(body.email))
      && (a.Insert? ==> a.row.id == Some(body.userId) && a.row.email == Some(body.email))
      && (a.Update? ==> a.key == body.userId && a.changes.email == Some(body.email))
  {
  }

  /** The insert row: `id`, `email`, both timestamps and
      `email_verified = false` always; the names and the picture only when
      provided and not ''; the provider fields whenever not undefined or
      null, so '' is written. Every written value is the incoming one. */
  lemma InsertShape(body: SyncBody, clock: Clock)
    ensures var p := InsertPayload(body, clock);
      && p.id == Some(body.userId)
      && p.email == Some(body.email)
      && p.updatedAt == Some(Str(clock.first))
      && p.createdAt == Some(Str(clock.second))
      && p.emailVerified == Some(Bool(false))
      && (p.fullName.Some? <==> IsProvided(body.fullName))
      && (p.firstName.Some? <==> IsProvided(body.firstName))
      && (p.lastName.Some? <==> IsProvided(body.lastName))
      && (p.profilePicture.Some? <==> IsProvided(body.profilePicture))
      && (p.googleId.Some? <==> IsPresent(body.googleId))
      && (p.authProvider.Some? <==> IsPresent(body.authProvider))
      && forall c :: Field(p, c).Some? ==> Field(p, c).value == Incoming(body, c, clock.first, clock.second)
  {
  }

  /** The update: `email` and `updated_at` always; never `id`, `created_at`
      or `email_verified`; `first_name`/`last_name` whenever provided;
      the provider fields whenever not undefined or null; `full_name` and
      `profile_picture` only when provided and either the stored value is
      falsy or the re-fetch returned no row. */
  lemma UpdateShape(body: SyncBody, current: Option<UserRow>, clock: Clock)
    ensures var p := UpdatePayload(body, current, clock);
      && p.email == Some(body.email)
      && p.updatedAt == Some(Str(clock.second))
      && p.id.None? && p.createdAt.None? && p.emailVerified.None?
      && (p.firstName.Some? <==> IsProvided(body.firstName))
      && (p.lastName.Some? <==> IsProvided(body.lastName))
      && (p.googleId.Some? <==> IsPresent(body.googleId))
      && (p.authProvider.Some? <==> IsPresent(body.authProvider))
      && (p.fullName.Some? <==>
            IsProvided(body.fullName) && (current.None? || !Truthy(current.value.fullName)))
      && (p.profilePicture.Some? <==>
            IsProvided(body.profilePicture) && (current.None? || !Truthy(current.value.profilePicture)))
      && forall c :: Field(p, c).Some? ==> Field(p, c).value == Incoming(body, c, clock.second, "")
  {
  }

  /** Sticky columns: once the stored `full_name` (or `profile_picture`) is
      truthy, no sync assigns it, whatever the body says, so the stored
      value survives the update. */
  lemma StickyColumnsSurvive(body: SyncBody, row: UserRow, clock: Clock, c: Column)
    requires c == FullName || c == ProfilePicture
    requires Truthy(Get(row, c))
    ensures Field(UpdatePayload(body, Some(row), clock), c).None?
    ensures Get(Apply(row, UpdatePayload(body, Some(row), clock)), c) == Get(row, c)
  {
  }

  /** The refreshed columns always take the incoming value: a provided
      first or last name, and a present provider id or provider, overwrite
      what is stored. */
  lemma RefreshedColumnsOverwrite(body: SyncBody, row: UserRow, clock: Clock, c: Column)
    requires c == FirstName || c == LastName || c == GoogleId || c == AuthProvider
    requires if c == FirstName || c == LastName then IsProvided(Incoming(body, c, "", ""))
             else IsPresent(Incoming(body, c, "", ""))
    ensures Get(Apply(row, UpdatePayload(body, Some(row), clock)), c) == Incoming(body, c, "", "")
  {
  }

  /** The body fields the sticky rule looks at are strings or absent, as
      the sign-in flow sends them; then "provided" and "truthy" agree. */
  predicate StringNames(body: SyncBody) {
    (IsProvided(body.fullName) ==> Truthy(body.fullName))
    && (IsProvided(body.profilePicture) ==> Truthy(body.profilePicture))
  }

  /** The row the first sync leaves behind, whichever branch it took. */
  function AfterSync(before: Option<UserRow>, a: SyncAction): UserRow {
    match a
    case Insert(p) => Inserted(p)
    case Update(_, p) => if before.Some? then Apply(before.value, p) else Inserted(p)
    case _ => if before.Some? then before.value else Inserted(NoChanges)
  }

  /** `row` already holds everything a sync with `body` would refresh, and
      its sticky columns are filled wherever the body provides them. */
  predicate Reflects(body: SyncBody, row: UserRow) {
    && row.email == body.email
    && (IsProvided(body.firstName) ==> row.firstName == body.firstName)
    && (IsProvided(body.lastName) ==> row.lastName == body.lastName)
    && (IsPresent(body.googleId) ==> row.googleId == body.googleId)
    && (IsPresent(body.authProvider) ==> row.authProvider == body.authProvider)
    && (IsProvided(body.fullName) ==> Truthy(row.fullName))
    && (IsProvided(body.profilePicture) ==> Truthy(row.profilePicture))
  }

  /** Against a row that reflects the body, a sync assigns no sticky column
      and changes nothing but `updated_at`. */
  lemma ReplayChangesNothing(body: SyncBody, row: UserRow, clock: Clock)
    requires Reflects(body, row)
    ensures var again := UpdatePayload(body, Some(row), clock);
      && again.fullName.None? && again.profilePicture.None?
      && forall c :: c != UpdatedAt ==> Get(Apply(row, again), c) == Get(row, c)
  {
    var again := UpdatePayload(body, Some(row), clock);
    forall c | c != UpdatedAt ensures Get(Apply(row, again), c) == Get(row, c) {
      assert Field(again, c) == UpdateEntry(body, Some(row), clock, c);
    }
  }

  /** Whichever branch the first sync took, the row it leaves behind
      reflects the body, provided the names it consults are strings. */
  lemma SyncLeavesReflectingRow(body: SyncBody, check: ExistenceCheck, current: Option<UserRow>, clock: Clock)
    requires StringNames(body)
    requires SyncDecision(body, check, current, clock).Insert? || SyncDecision(body, check, current, clock).Update?
    requires check.Exists? ==> current.Some?
    ensures Reflects(body, AfterSync(current, SyncDecision(body, check, current, clock)))
  {
    if check.Exists? {
      UpdateReflects(body, current.value, clock);
    } else {
      InsertReflects(body, clock);
    }
  }

  lemma InsertReflects(body: SyncBody, clock: Clock)
    requires StringNames(body)
    ensures Reflects(body, Inserted(InsertPayload(body, clock)))
  {
  }

  lemma UpdateReflects(body: SyncBody, row: UserRow, clock: Clock)
    requires StringNames(body)
    ensures Reflects(body, Apply(row, UpdatePayload(body, Some(row), clock)))
  {
  }

  /** Replaying a sign-in: running `POST` again with the same body against
      the row the first run produced never assigns `full_name` or
      `profile_picture`, and every column except `updated_at` keeps the
      value it already has. */
  lemma SyncIdempotent(body: SyncBody, check: ExistenceCheck, current: Option<UserRow>,
                       clock: Clock, clock2: Clock)
    requires StringNames(body)
    requires SyncDecision(body, check, current, clock).Insert? || SyncDecision(body, check, current, clock).Update?
    requires check.Exists? ==> current.Some?
    ensures var row := AfterSync(current, SyncDecision(body, check, current, clock));
      var again := UpdatePayload(body, Some(row), clock2);
      && again.fullName.None? && again.profilePicture.None?
      && forall c :: c != UpdatedAt ==> Get(Apply(row, again), c) == Get(row, c)
  {
    SyncLeavesReflectingRow(body, check, current, clock);
    ReplayChangesNothing(body, AfterSync(current, SyncDecision(body, check, current, clock)), clock2);
  }

  /** An explicit edit is authoritative: whatever the stored row holds, a
      supplied `full_name` or `email_verified` is written as given (null
      and '' included), an omitted one is left alone, a supplied falsy
      picture clears the stored one to `null`, and nothing but these
      three and `updated_at` is assigned. */
  lemma EditIsAuthoritative(body: EditBody, row: UserRow, stamp: string)
    requires Truthy(body.userId)
    ensures var a := EditDecision(body, stamp);
      var r := Apply(row, a.changes);
      && a.EditUpdate?
      && r.updatedAt == Str(stamp)
      && r.emailVerified == (if body.emailVerified.Undefined? then row.emailVerified else body.emailVerified)
      && r.fullName == (if body.fullName.Undefined? then row.fullName else body.fullName)
      && (!body.profilePicture.Undefined? && !Truthy(body.profilePicture) ==> r.profilePicture == Null)
      && (Truthy(body.profilePicture) ==> r.profilePicture == body.profilePicture)
      && (body.profilePicture.Undefined? ==> r.profilePicture == row.profilePicture)
      && forall c :: c !in {UpdatedAt, EmailVerified, FullName, ProfilePicture} ==> Get(r, c) == Get(row, c)
  {
    var a := EditDecision(body, stamp);
    forall c | c !in {UpdatedAt, EmailVerified, FullName, ProfilePicture}
      ensures Get(Apply(row, a.changes), c) == Get(row, c)
    {
      assert Field(a.changes, c) == EditEntry(body, stamp, c);
    }
  }

  /** The two paths differ exactly on sticky columns: for a stored name, a
      sync keeps it while an edit replaces it. */
  lemma SyncKeepsWhatEditReplaces(row: UserRow, name: string, clock: Clock, stamp: string)
    requires Truthy(row.fullName) && name != ""
    ensures var sync := SyncBody(row.id, Str("e"), Str(name), Undefined, Undefined, Undefined, Undefined, Undefined);
      Apply(row, UpdatePayload(sync, Some(row), clock)).fullName == row.fullName
    ensures var edit := EditBody(Str("u"), Undefined, Str(name), Undefined);
      Apply(row, EditDecision(edit, stamp).changes).fullName == Str(name)
  {
    var sync := SyncBody(row.id, Str("e"), Str(name), Undefined, Undefined, Undefined, Undefined, Undefined);
    StickyColumnsSurvive(sync, row, clock, FullName);
    var edit := EditBody(Str("u"), Undefined, Str(name), Undefined);
    EditIsAuthoritative(edit, row, stamp);
  }
}
