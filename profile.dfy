/** The profile settings page (`src/pages/Profile.tsx`): edit name and e-mail, optionally
    set a new password, save or cancel. */
module Profile {
  import opened Js
  import opened Api

  /** The signed-in user as the auth context provides it. */
  datatype UserInfo = UserInfo(name: string, email: string)

  datatype ProfileForm = ProfileForm(
    name: string,
    email: string,
    currentPassword: string,
    newPassword: string,
    confirmPassword: string)

  /** The `name` attribute of each input. */
  datatype ProfileField = NameInput | EmailInput | CurrentPasswordInput | NewPasswordInput | ConfirmPasswordInput

  function FieldValue(f: ProfileForm, field: ProfileField): string {
    match field
    case NameInput => f.name
    case EmailInput => f.email
    case CurrentPasswordInput => f.currentPassword
    case NewPasswordInput => f.newPassword
    case ConfirmPasswordInput => f.confirmPassword
  }

  /** `{ ...prev, [e.target.name]: e.target.value }` (lines 27-32): the named field takes
      the value, every other field keeps its own. */
  function WithField(f: ProfileForm, field: ProfileField, value: string): (r: ProfileForm)
    ensures FieldValue(r, field) == value
    ensures forall other :: other != field ==> FieldValue(r, other) == FieldValue(f, other)
  {
    match field
    case NameInput => f.(name := value)
    case EmailInput => f.(email := value)
    case CurrentPasswordInput => f.(currentPassword := value)
    case NewPasswordInput => f.(newPassword := value)
    case ConfirmPasswordInput => f.(confirmPassword := value)
  }

  /** The form filled from the user (lines 19-25 and 108-114): `user?.name || ''`, and
      empty password fields. */
  function FormFor(user: Option<UserInfo>): (f: ProfileForm)
    ensures f.currentPassword == "" && f.newPassword == "" && f.confirmPassword == ""
    ensures user.Some? ==> f.name == user.value.name && f.email == user.value.email
    ensures user.None? ==> f.name == "" && f.email == ""
  {
    match user
    case Some(u) => ProfileForm(u.name, u.email, "", "", "")
    case None => ProfileForm("", "", "", "", "")
  }

  /** The shortest new password accepted, in UTF-16 code units. */
  const MinPasswordLength: int := 6

  /** How a save attempt ends. */
  datatype SaveOutcome = NotSignedIn | PasswordMismatch | PasswordTooShort | Updated | Failed(message: string)

  /** The password checks at lines 48-65, mismatch first; None when the form may be sent. */
  function PasswordProblem(f: ProfileForm): (p: Option<SaveOutcome>)
    ensures p.Some? ==> p.value == PasswordMismatch || p.value == PasswordTooShort
    ensures f.newPassword == "" ==> p == None
    ensures f.newPassword != "" && f.newPassword != f.confirmPassword ==> p == Some(PasswordMismatch)
    ensures f.newPassword != "" && f.newPassword == f.confirmPassword ==>
      (p == Some(PasswordTooShort) <==> Utf16Length(f.newPassword) < MinPasswordLength)
    ensures p == None <==>
      f.newPassword == "" || (f.newPassword == f.confirmPassword && Utf16Length(f.newPassword) >= MinPasswordLength)
  {
    if f.newPassword != "" then
      if f.newPassword != f.confirmPassword then Some(PasswordMismatch)
      else if Utf16Length(f.newPassword) < MinPasswordLength then Some(PasswordTooShort)
      else None
    else None
  }

  /** The body sent to `updateProfile`; an absent `password` is None. */
  datatype UpdatePayload = UpdatePayload(name: string, email: string, password: Option<string>)

  /** The payload as a value. */
  function Payload(f: ProfileForm): UpdatePayload {
    UpdatePayload(f.name, f.email, if f.newPassword != "" then Some(f.newPassword) else None)
  }

  /** Lines 68-75: name and e-mail always, the new password only when one was typed. */
  method BuildPayload(f: ProfileForm) returns (p: UpdatePayload)
    ensures p.name == f.name && p.email == f.email
    ensures p.password.Some? <==> f.newPassword != ""
    ensures p.password.Some? ==> p.password.value == f.newPassword
    ensures p == Payload(f)
  {
    p := UpdatePayload(f.name, f.email, None);
    if f.newPassword != "" {
      p := p.(password := Some(f.newPassword));
    }
  }

  /** The current password is collected but never sent. */
  lemma PayloadIgnoresCurrentPassword(f: ProfileForm, typed: string)
    ensures Payload(f.(currentPassword := typed)) == Payload(f)
    ensures Payload(f).name == f.name && Payload(f).email == f.email
  {
  }

  /** A password that is sent was typed twice the same and is long enough. */
  lemma SentPasswordIsChecked(f: ProfileForm)
    requires PasswordProblem(f) == None && Payload(f).password.Some?
    ensures Payload(f).password.value == f.confirmPassword
    ensures Utf16Length(Payload(f).password.value) >= MinPasswordLength
  {
  }

  /** Conversely, a typed password that matches its confirmation and has at least six
      code units passes the checks and is sent. */
  lemma CheckedPasswordIsSent(f: ProfileForm)
    requires f.newPassword != "" && f.newPassword == f.confirmPassword
    requires Utf16Length(f.newPassword) >= MinPasswordLength
    ensures PasswordProblem(f) == None
    ensures Payload(f).password == Some(f.confirmPassword)
  {
  }

  class ProfilePage {
    const user: Option<UserInfo>
    const token: Option<string>
    var isEditing: bool
    var isLoading: bool
    var form: ProfileForm
    /** `window.location.reload()` has been called. */
    var reloadRequested: bool

    constructor (user: Option<UserInfo>, token: Option<string>)
      ensures this.user == user && this.token == token
      ensures !isEditing && !isLoading && !reloadRequested
      ensures form == FormFor(user)
    {
      this.user, this.token := user, token;
      isEditing, isLoading, reloadRequested := false, false, false;
      form := FormFor(user);
    }

    /** The Edit Profile button (line 128). */
    method StartEditing()
      modifies this`isEditing
      ensures isEditing
    {
      isEditing := true;
    }

    /** `handleInputChange`; the inputs only accept typing while editing. */
    method InputChange(field: ProfileField, value: string)
      requires isEditing
      modifies this`form
      ensures form == WithField(old(form), field, value)
    {
      form := WithField(form, field, value);
    }

    /** `handleSave` (lines 34-104), with the reply of `updateProfile` as input. Without a
        token nothing changes, not even `isLoading`. A password problem stops the save with
        nothing sent. Otherwise the payload is sent: any resolved reply counts as success
        (editing ends, the password fields are cleared, the page reloads); a throw keeps the
        form and reports the message. Loading always ends once the token was there. */
    method Save(reply: Call<Envelope<AuthData>>) returns (outcome: SaveOutcome, sent: Option<UpdatePayload>)
      requires isEditing && !isLoading
      modifies this`isEditing, this`isLoading, this`form, this`reloadRequested
      ensures !HasToken(token) ==>
        outcome == NotSignedIn && sent == None && unchanged(this)
      ensures HasToken(token) && PasswordProblem(old(form)).Some? ==>
        outcome == PasswordProblem(old(form)).value && sent == None
        && form == old(form) && isEditing && reloadRequested == old(reloadRequested)
      ensures HasToken(token) && PasswordProblem(old(form)) == None ==> sent == Some(Payload(old(form)))
      ensures HasToken(token) && PasswordProblem(old(form)) == None && reply.Resolved? ==>
        outcome == Updated && !isEditing && reloadRequested
        && form == old(form).(currentPassword := "", newPassword := "", confirmPassword := "")
      ensures HasToken(token) && PasswordProblem(old(form)) == None && reply.Thrown? ==>
        outcome == Failed(reply.message) && form == old(form) && isEditing && reloadRequested == old(reloadRequested)
      ensures HasToken(token) ==> !isLoading
    {
      if !HasToken(token) {
        return NotSignedIn, None;
      }
      isLoading := true;
      sent := None;
      if form.newPassword != "" {
        if form.newPassword != form.confirmPassword {
          isLoading := false;
          return PasswordMismatch, None;
        }
        if Utf16Length(form.newPassword) < MinPasswordLength {
          isLoading := false;
          return PasswordTooShort, None;
        }
      }
      var payload := BuildPayload(form);
      sent := Some(payload);
      match reply {
        case Resolved(_) =>
          outcome := Updated;
          isEditing := false;
          form := form.(currentPassword := "", newPassword := "", confirmPassword := "");
          reloadRequested := true;
        case Thrown(message) =>
          outcome := Failed(message);
      }
      isLoading := false;
    }

    /** `handleCancel` (lines 106-115): editing ends and the form is refilled from the user. */
    method Cancel()
      requires !isLoading
      modifies this`isEditing, this`form
      ensures !isEditing && form == FormFor(user)
    {
      isEditing := false;
      form := FormFor(user);
    }
  }
}
