/** The settings page's form state and save logic (src/app/settings/page.tsx). */
module Settings {
  import opened Wrappers

  /** The four notification switches and their defaults. */
  function DefaultNotifications(): (flags: map<string, bool>)
    ensures flags.Keys == {"email", "push", "goalReminders", "achievements"}
    ensures forall k :: k in flags ==> flags[k]
  {
    map["email" := true, "push" := true, "goalReminders" := true, "achievements" := true]
  }

  /** `formData`. */
  datatype FormData = FormData(name: string, email: string, avatarUrl: string, notifications: map<string, bool>)

  /** The text inputs, by their `name` attribute. */
  datatype Field = Name | Email | AvatarUrl

  /** The signed-in user and the row of the `users` table (absent when the query found none). */
  datatype AuthUser = AuthUser(id: string, email: Option<string>)
  datatype ProfileRow = ProfileRow(name: Option<string>, avatarUrl: Option<string>, notifications: Option<map<string, bool>>)

  /**
   * The form as loaded: each text field falls back to "" when missing or
   * empty; the notifications fall back to the defaults only when the profile
   * has none (a stored object is used as it is, even an empty one).
   */
  function Loaded(user: AuthUser, profile: Option<ProfileRow>): (form: FormData)
    ensures profile.None? ==> form == FormData("", OrEmpty(user.email), "", DefaultNotifications())
    ensures profile.Some? ==> form.name == OrEmpty(profile.value.name) && form.avatarUrl == OrEmpty(profile.value.avatarUrl)
    ensures form.email == OrEmpty(user.email)
    ensures form.notifications == if profile.Some? && profile.value.notifications.Some?
                                  then profile.value.notifications.value else DefaultNotifications()
  {
    var row := if profile.Some? then profile.value else ProfileRow(None, None, None);
    FormData(OrEmpty(row.name), OrEmpty(user.email), OrEmpty(row.avatarUrl),
             if row.notifications.Some? then row.notifications.value else DefaultNotifications())
  }

  /** `formData` with one text field replaced. */
  function WithField(form: FormData, field: Field, value: string): (r: FormData)
    ensures r.notifications == form.notifications
    ensures r.name == (if field == Name then value else form.name)
    ensures r.email == (if field == Email then value else form.email)
    ensures r.avatarUrl == (if field == AvatarUrl then value else form.avatarUrl)
  {
    match field
    case Name => form.(name := value)
    case Email => form.(email := value)
    case AvatarUrl => form.(avatarUrl := value)
  }

  class SettingsForm {
    var formData: FormData

    /** The initial state: empty fields, every notification on. */
    constructor ()
      ensures formData == FormData("", "", "", DefaultNotifications())
    {
      formData := FormData("", "", "", DefaultNotifications());
    }

    /** The effect of `getUser`: a signed-in user's data replaces the form; otherwise it stays. */
    method Load(user: Option<AuthUser>, profile: Option<ProfileRow>)
      modifies this
      ensures user.Some? ==> formData == Loaded(user.value, profile)
      ensures user.None? ==> formData == old(formData)
    {
      if user.Some? {
        formData := Loaded(user.value, profile);
      }
    }

    /** `handleChange`: sets only the named field. */
    method HandleChange(field: Field, value: string)
      modifies this
      ensures formData == WithField(old(formData), field, value)
    {
      formData := WithField(formData, field, value);
    }

    /** `handleNotificationChange`: sets only the given key; every other key and field keeps its value. */
    method HandleNotificationChange(key: string, value: bool)
      modifies this
      ensures formData.notifications.Keys == old(formData.notifications).Keys + {key}
      ensures formData.notifications[key] == value
      ensures forall k :: k in old(formData.notifications) && k != key ==>
        formData.notifications[k] == old(formData.notifications)[k]
      ensures formData.(notifications := old(formData.notifications)) == old(formData)
    {
      formData := formData.(notifications := formData.notifications[key := value]);
    }
  }

  /** The columns `handleSaveProfile` writes to the `users` row; the email is not among them. */
  datatype ProfileUpdate = ProfileUpdate(name: string, avatarUrl: string, notifications: map<string, bool>)

  /** What `handleSaveProfile` did: the writes it attempted and the alert it showed. */
  datatype SaveOutcome = SaveOutcome(
    profileUpdate: Option<ProfileUpdate>,
    emailUpdate: Option<string>,
    alert: Option<string>)

  const SuccessAlert := "Profile updated successfully!"

  /** The alert for a failed save, carrying the error's message. */
  function ErrorAlert(message: string): (text: string)
    ensures text != SuccessAlert
    ensures |text| >= |message| && text[|text| - |message|..] == message
  {
    var text := "Error updating profile: " + message;
    assert text[0] != SuccessAlert[0];
    text
  }

  /**
   * `handleSaveProfile`. Without a user nothing happens. Otherwise the profile
   * row is written first; only if that succeeds, and the form's email differs
   * from the account's, is the email change requested. Any failure ends in
   * an error alert, else a success alert.
   */
  function SaveProfile(user: Option<AuthUser>, form: FormData, profileError: Option<string>, emailError: Option<string>): (out: SaveOutcome)
    ensures user.None? ==> out == SaveOutcome(None, None, None)
    ensures user.Some? ==> out.profileUpdate == Some(ProfileUpdate(form.name, form.avatarUrl, form.notifications)) && out.alert.Some?
    ensures out.emailUpdate.Some? <==> user.Some? && profileError.None? && user.value.email != Some(form.email)
    ensures out.emailUpdate.Some? ==> out.emailUpdate.value == form.email
    ensures out.alert == Some(SuccessAlert) <==>
      user.Some? && profileError.None? && (out.emailUpdate.None? || emailError.None?)
    ensures user.Some? && profileError.Some? ==> out.alert == Some(ErrorAlert(profileError.value))
    ensures out.emailUpdate.Some? && emailError.Some? ==> out.alert == Some(ErrorAlert(emailError.value))
  {
    var row := ProfileUpdate(form.name, form.avatarUrl, form.notifications);
    if user.None? then SaveOutcome(None, None, None)
    else if profileError.Some? then
      SaveOutcome(Some(row), None, Some(ErrorAlert(profileError.value)))
    else if user.value.email != Some(form.email) then
      SaveOutcome(Some(row), Some(form.email),
                  if emailError.Some? then Some(ErrorAlert(emailError.value))
                  else Some(SuccessAlert))
    else SaveOutcome(Some(row), None, Some(SuccessAlert))
  }

  /** Loading and then saving without edits never requests an email change when the account has an email. */
  lemma SaveAfterLoadKeepsEmail(user: AuthUser, profile: Option<ProfileRow>, profileError: Option<string>, emailError: Option<string>)
    requires Truthy(user.email)
    ensures SaveProfile(Some(user), Loaded(user, profile), profileError, emailError).emailUpdate.None?
  {
  }

  /** A notification change followed by a field change keeps the notification, and vice versa. */
  lemma NotificationsAndFieldsIndependent(form: FormData, field: Field, value: string, key: string, flag: bool)
    ensures WithField(form.(notifications := form.notifications[key := flag]), field, value)
         == WithField(form, field, value).(notifications := form.notifications[key := flag])
  {
  }
}
