/**
 * `AuthForm`: the login/register mode, the validation rules of its fields, the request it
 * builds in each mode, and what a submission does to the mode, the stored token and the route.
 */
module AuthForm {
  import opened Wrappers
  import opened ClientTypes
  import Auth

  datatype Mode = Login | Register

  /** `toggleMode`'s new mode. */
  function Toggled(mode: Mode): (r: Mode)
    ensures r != mode
  {
    if mode == Login then Register else Login
  }

  /** Toggling twice restores the mode. */
  lemma ToggleTwice(mode: Mode)
    ensures Toggled(Toggled(mode)) == mode
  {
  }

  const UsernameRequiredMessage: string := "Username is required"
  const EmailRequiredMessage: string := "Email is required"
  const EmailInvalidMessage: string := "Invalid email address"
  const PasswordRequiredMessage: string := "Password is required"
  const PasswordTooShortMessage: string := "Password must be at least 6 characters"
  const PasswordMinLength: nat := 6
  const DashboardRoute: string := "/dashboard"

  predicate IsLetter(c: char) { ('a' <= c <= 'z') || ('A' <= c <= 'Z') }
  predicate IsDigit(c: char) { '0' <= c <= '9' }

  /** `[A-Z0-9._%+-]` under the `i` flag. */
  predicate IsLocalChar(c: char)
  {
    IsLetter(c) || IsDigit(c) || c == '.' || c == '_' || c == '%' || c == '+' || c == '-'
  }

  /** `[A-Z0-9.-]` under the `i` flag. */
  predicate IsDomainChar(c: char)
  {
    IsLetter(c) || IsDigit(c) || c == '.' || c == '-'
  }

  predicate LocalPart(s: string) { |s| >= 1 && forall k :: 0 <= k < |s| ==> IsLocalChar(s[k]) }
  predicate DomainPart(s: string) { |s| >= 1 && forall k :: 0 <= k < |s| ==> IsDomainChar(s[k]) }
  predicate TopLevelPart(s: string) { |s| >= 2 && forall k :: 0 <= k < |s| ==> IsLetter(s[k]) }

  /**
   * `/^[A-Z0-9._%+-]+@[A-Z0-9.-]+\.[A-Z]{2,}$/i`: some `@` and some later `.` cut the whole
   * string into a local part, a domain and a top-level part of at least two letters.
   */
  predicate EmailPatternMatches(s: string)
  {
    exists i, j :: 0 <= i < j < |s| && s[i] == '@' && s[j] == '.'
      && LocalPart(s[..i]) && DomainPart(s[i + 1..j]) && TopLevelPart(s[j + 1..])
  }

  /** The first index of `c` in `s`. */
  function FirstIndexOf(s: string, c: char): (r: Option<nat>)
    ensures r.None? ==> forall k :: 0 <= k < |s| ==> s[k] != c
    ensures r.Some? ==> r.value < |s| && s[r.value] == c && forall k :: 0 <= k < r.value ==> s[k] != c
  {
    if s == [] then None
    else if s[0] == c then Some(0)
    else
      match FirstIndexOf(s[1..], c)
      case None => None
      case Some(i) => Some(i + 1)
  }

  /** The last index of `c` in `s`. */
  function LastIndexOf(s: string, c: char): (r: Option<nat>)
    ensures r.None? ==> forall k :: 0 <= k < |s| ==> s[k] != c
    ensures r.Some? ==> r.value < |s| && s[r.value] == c && forall k :: r.value < k < |s| ==> s[k] != c
  {
    if s == [] then None
    else if s[|s| - 1] == c then Some(|s| - 1)
    else LastIndexOf(s[..|s| - 1], c)
  }

  /**
   * A direct check of the e-mail rule: cut at the first `@` and the last `.`. Neither part
   * before the `@` nor the top-level part can hold those chars, so these are the only cuts.
   */
  predicate IsEmail(s: string)
  {
    match (FirstIndexOf(s, '@'), LastIndexOf(s, '.'))
    case (Some(i), Some(j)) =>
      i < j && LocalPart(s[..i]) && DomainPart(s[i + 1..j]) && TopLevelPart(s[j + 1..])
    case _ => false
  }

  /** The direct check accepts exactly the strings the regular expression matches. */
  lemma IsEmailAgreesWithPattern(s: string)
    ensures IsEmail(s) <==> EmailPatternMatches(s)
  {
    var fi := FirstIndexOf(s, '@');
    var lj := LastIndexOf(s, '.');
    if EmailPatternMatches(s) {
      var i, j :| 0 <= i < j < |s| && s[i] == '@' && s[j] == '.'
        && LocalPart(s[..i]) && DomainPart(s[i + 1..j]) && TopLevelPart(s[j + 1..]);
      forall k | 0 <= k < i ensures s[k] != '@' {
        assert s[..i][k] == s[k];
      }
      forall k | j < k < |s| ensures s[k] != '.' {
        assert s[j + 1..][k - j - 1] == s[k];
      }
      assert fi == Some(i);
      assert lj == Some(j);
    }
    if IsEmail(s) {
      var i, j := fi.value, lj.value;
      assert s[i] == '@' && s[j] == '.';
    }
  }

  /** Examples: a plain address passes; a one-letter top-level part or a missing local part does not. */
  lemma EmailExamples()
    ensures EmailPatternMatches("a@b.co")
    ensures !EmailPatternMatches("a@b.c")
    ensures !EmailPatternMatches("@b.co")
  {
    IsEmailAgreesWithPattern("a@b.co");
    IsEmailAgreesWithPattern("a@b.c");
    IsEmailAgreesWithPattern("@b.co");
    assert FirstIndexOf("a@b.co", '@') == Some(1);
    assert LastIndexOf("a@b.co", '.') == Some(3);
    assert "a@b.co"[..1] == "a" && "a@b.co"[2..3] == "b" && "a@b.co"[4..] == "co";
    assert LastIndexOf("a@b.c", '.') == Some(3);
    assert FirstIndexOf("@b.co", '@') == Some(0);
  }

  /** The errors shown per field; the e-mail field exists only in register mode. */
  datatype AuthErrors = AuthErrors(username: Option<string>, email: Option<string>, password: Option<string>)

  /** react-hook-form's rules: `required` fails only on `""`; `minLength` and `pattern` apply to other values. */
  function AuthFieldErrors(mode: Mode, username: string, email: string, password: string): (r: AuthErrors)
    ensures r.username.None? <==> username != ""
    ensures r.email.None? <==> mode == Login || (email != "" && EmailPatternMatches(email))
    ensures mode == Register && email == "" ==> r.email == Some(EmailRequiredMessage)
    ensures r.email.Some? && email != "" ==> r.email == Some(EmailInvalidMessage)
    ensures r.password.None? <==> |password| >= PasswordMinLength
    ensures r.password.Some? ==>
      r.password.value == (if password == "" then PasswordRequiredMessage else PasswordTooShortMessage)
    ensures r.username.Some? ==> r.username.value == UsernameRequiredMessage
  {
    AuthErrors(
      if username == "" then Some(UsernameRequiredMessage) else None,
      if mode == Login then None
      else if email == "" then Some(EmailRequiredMessage)
      else if !EmailPatternMatches(email) then Some(EmailInvalidMessage)
      else None,
      if password == "" then Some(PasswordRequiredMessage)
      else if |password| < PasswordMinLength then Some(PasswordTooShortMessage)
      else None)
  }

  predicate NoErrors(e: AuthErrors)
  {
    e.username.None? && e.email.None? && e.password.None?
  }

  /** `LoginRequest` and `RegisterRequest`. */
  datatype AuthRequest =
    | LoginRequest(username: string, password: string)
    | RegisterRequest(username: string, email: string, password: string)

  /** The request of each mode: login sends no e-mail; register sends all three fields. */
  function BuildAuthRequest(mode: Mode, username: string, email: string, password: string): (r: AuthRequest)
    ensures r.LoginRequest? <==> mode == Login
    ensures r.username == username && r.password == password
    ensures r.RegisterRequest? ==> r.email == email
  {
    if mode == Login then LoginRequest(username, password) else RegisterRequest(username, email, password)
  }

  /** The component's state; `store` is the browser storage reached through `authUtils`. */
  class AuthFormState {
    var mode: Mode
    var isLoading: bool
    var loadingHistory: seq<bool>
    var username: string
    var email: string
    var password: string
    var sent: seq<AuthRequest>
    /** Every route passed to `router.push`. */
    var navigations: seq<string>
    const store: Auth.TokenStore

    constructor (store: Auth.TokenStore)
      ensures mode == Login && !isLoading && this.store == store
      ensures username == "" && email == "" && password == ""
      ensures loadingHistory == [] && sent == [] && navigations == []
    {
      this.store := store;
      mode, isLoading, loadingHistory := Login, false, [];
      username, email, password := "", "", "";
      sent, navigations := [], [];
    }

    /** `toggleMode`: the other mode and empty fields. */
    method ToggleMode()
      modifies this
      ensures mode == Toggled(old(mode))
      ensures username == "" && email == "" && password == ""
      ensures sent == old(sent) && navigations == old(navigations) && loadingHistory == old(loadingHistory)
      ensures isLoading == old(isLoading)
    {
      mode := Toggled(mode);
      username, email, password := "", "", "";
    }

    /**
     * A submission whose API call ends in `outcome` (the token on a successful login). Invalid
     * fields stop it before `onSubmit`. Otherwise the mode's request is sent with loading on;
     * a successful login saves the token and then goes to the dashboard; a successful
     * registration switches to login and empties the fields; any failure changes neither the
     * mode nor the storage; loading ends off.
     */
    method Submit(outcome: Outcome<string>)
      modifies this, store
      ensures !old(NoErrors(AuthFieldErrors(mode, username, email, password))) ==>
        mode == old(mode) && sent == old(sent) && navigations == old(navigations)
        && loadingHistory == old(loadingHistory) && store.storage == old(store.storage)
        && username == old(username) && email == old(email) && password == old(password)
        && isLoading == old(isLoading)
      ensures old(NoErrors(AuthFieldErrors(mode, username, email, password))) ==>
        && sent == old(sent) + [BuildAuthRequest(old(mode), old(username), old(email), old(password))]
        && loadingHistory == old(loadingHistory) + [true, false]
        && !isLoading
      ensures old(NoErrors(AuthFieldErrors(mode, username, email, password))) && old(mode) == Login && Succeeded(outcome) ==>
        && mode == Login
        && store.storage == (if store.hasWindow then old(store.storage)[Auth.TokenKey := outcome.response.data] else old(store.storage))
        && navigations == old(navigations) + [DashboardRoute]
        && username == old(username) && email == old(email) && password == old(password)
      ensures old(NoErrors(AuthFieldErrors(mode, username, email, password))) && old(mode) == Register && Succeeded(outcome) ==>
        && mode == Login && username == "" && email == "" && password == ""
        && store.storage == old(store.storage) && navigations == old(navigations)
      ensures !Succeeded(outcome) ==>
        && mode == old(mode) && store.storage == old(store.storage) && navigations == old(navigations)
        && username == old(username) && email == old(email) && password == old(password)
    {
      var valid := NoErrors(AuthFieldErrors(mode, username, email, password));
      if !valid {
        return;
      }
      var request := BuildAuthRequest(mode, username, email, password);
      isLoading := true;
      loadingHistory := loadingHistory + [true];
      sent := sent + [request];
      if outcome.Answered? && outcome.response.ApiSuccess? {
        if mode == Login {
          store.SaveToken(outcome.response.data);
          navigations := navigations + [DashboardRoute];
        } else {
          mode := Login;
          username, email, password := "", "", "";
        }
      }
      isLoading := false;
      loadingHistory := loadingHistory + [false];
    }
  }
}
