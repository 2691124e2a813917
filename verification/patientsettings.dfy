/** The patient's settings page (app/patient/settings/page.tsx): the
    password-change dialog and the preference switches. */
module PatientSettings {
  import opened Wrappers

  const MinPasswordLength := 6

  datatype PasswordDialog = PasswordDialog(
    currentPassword: string,
    newPassword: string,
    confirmPassword: string,
    open: bool,
    changing: bool)

  /** How the `changePassword` call went: a reply without an error, a reply
      carrying one, or an exception. The client helper (lib/api.ts:47-53)
      fills the error from the reply's `detail` or "API request failed", so
      the message is never empty and the page's truthiness test on it is the
      same as asking whether there is an error. */
  datatype ApiOutcome = ApiOk | ApiError(message: string) | ApiThrew

  /** The toast the user sees. */
  datatype Notice = Mismatch | TooShort | Rejected(message: string) | Failed | Changed

  /** The dialog afterwards, the toast, and the (current, new) passwords sent
      to the server, if any were. */
  datatype ChangeResult = ChangeResult(dialog: PasswordDialog, notice: Notice, sent: Option<(string, string)>)

  /** `handlePasswordChange`: the mismatch check comes first, then the length
      check, both without a call; otherwise the call is made, its outcome
      reported, the fields cleared and the dialog closed only on success,
      and the in-progress flag dropped whatever happened. `api` stands for
      the server's answer. */
  function HandlePasswordChange(d: PasswordDialog, api: ApiOutcome): (r: ChangeResult)
    ensures d.newPassword != d.confirmPassword ==> r == ChangeResult(d, Mismatch, None)
    ensures d.newPassword == d.confirmPassword && |d.newPassword| < MinPasswordLength ==>
      r == ChangeResult(d, TooShort, None)
    ensures r.sent.Some? <==> d.newPassword == d.confirmPassword && |d.newPassword| >= MinPasswordLength
    ensures r.sent.Some? ==> r.sent.value == (d.currentPassword, d.newPassword) && !r.dialog.changing
    ensures r.notice == Changed <==> r.sent.Some? && api == ApiOk
    ensures r.notice == Changed ==>
      r.dialog == PasswordDialog("", "", "", false, false)
    ensures r.sent.Some? && api != ApiOk ==>
      r.dialog == d.(changing := false) && (api.ApiError? ==> r.notice == Rejected(api.message)) &&
      (api == ApiThrew ==> r.notice == Failed)
  {
    if d.newPassword != d.confirmPassword then ChangeResult(d, Mismatch, None)
    else if |d.newPassword| < MinPasswordLength then ChangeResult(d, TooShort, None)
    else
      var sent := Some((d.currentPassword, d.newPassword));
      match api
      case ApiOk => ChangeResult(PasswordDialog("", "", "", false, false), Changed, sent)
      case ApiError(msg) => ChangeResult(d.(changing := false), Rejected(msg), sent)
      case ApiThrew => ChangeResult(d.(changing := false), Failed, sent)
  }

  /** A preference value: a switch or a choice. */
  datatype Setting = Flag(on: bool) | Choice(value: string)

  type Settings = map<string, Setting>

  /** `handleSettingChange`: the named preference takes the value; the others
      keep theirs. */
  function HandleSettingChange(s: Settings, key: string, value: Setting): (t: Settings)
    ensures t.Keys == s.Keys + {key}
    ensures t[key] == value
    ensures forall k :: k in s && k != key ==> t[k] == s[k]
  {
    s[key := value]
  }

  /** Whatever is typed, the request reaches the server only with two equal
      entries of at least six characters, and the mismatch is reported even
      when the entries are also too short. */
  lemma ValidationOrder(d: PasswordDialog, api: ApiOutcome)
    requires |d.newPassword| < MinPasswordLength && d.newPassword != d.confirmPassword
    ensures HandlePasswordChange(d, api).notice == Mismatch
    ensures HandlePasswordChange(d, api).sent.None?
  {
  }

  /** A failed call can be retried with the same entries: nothing was cleared. */
  lemma FailureKeepsEntries(d: PasswordDialog, api: ApiOutcome, retry: ApiOutcome)
    requires HandlePasswordChange(d, api).sent.Some? && api != ApiOk
    ensures HandlePasswordChange(HandlePasswordChange(d, api).dialog, retry).sent ==
      HandlePasswordChange(d, api).sent
  {
  }

  /** Changes to two different preferences do not interfere, and a second
      change to the same preference overrides the first. */
  lemma SettingChangesCommute(s: Settings, a: string, va: Setting, b: string, vb: Setting)
    ensures a != b ==>
      HandleSettingChange(HandleSettingChange(s, a, va), b, vb) == HandleSettingChange(HandleSettingChange(s, b, vb), a, va)
    ensures HandleSettingChange(HandleSettingChange(s, a, va), a, vb) == HandleSettingChange(s, a, vb)
  {
  }
}
