/** The form checks behind three buttons: Save on the settings screen,
    Register and Login. Each is an ordered chain of checks that either shows
    the first failing check's message or hands the normalised input on.
    Android's email pattern is the parameter `emailMatches`; the messages of
    the register and login screens are string resources, named here by
    `FormError`. */
module Screens {
  import opened Wrappers
  import opened Text
  import opened Preferences
  import opened UserRepository

  const MinPasswordLength := 6

  // ---- Settings: Save ----

  const CurrentPasswordRequired := "Current password is required to save changes"
  const NewPasswordTooShort := "New password must be at least 6 characters"
  const NoChanges := "No changes were made"

  /** What Save does: show a message, or call `onUpdateUser` with the edited
      profile and the two fields in that lambda's order (new, then current). */
  datatype SaveOutcome =
    | SaveRejected(message: string)
    | SaveCall(user: UserData, newPassword: string, currentPassword: string)

  /** The Save button: the current password is required; a new password, if
      given, needs six characters; and something must have changed. Only the
      username of the profile is edited. */
  function SaveClick(user: UserData, username: string, newPassword: string, currentPassword: string): (r: SaveOutcome)
    ensures r == SaveRejected(CurrentPasswordRequired) <==> IsBlank(currentPassword)
    ensures r == SaveRejected(NewPasswordTooShort) <==>
      !IsBlank(currentPassword) && !IsBlank(newPassword) && Utf16Length(newPassword) < MinPasswordLength
    ensures r == SaveRejected(NoChanges) <==>
      !IsBlank(currentPassword) && IsBlank(newPassword) && username == user.username
    ensures r.SaveCall? ==>
      && r.user == user.(username := username)
      && r.newPassword == newPassword && r.currentPassword == currentPassword
    ensures r.SaveRejected? || r.SaveCall?
  {
    if IsBlank(currentPassword) then SaveRejected(CurrentPasswordRequired)
    else if !IsBlank(newPassword) && Utf16Length(newPassword) < MinPasswordLength then
      assert NewPasswordTooShort[0] != CurrentPasswordRequired[0];
      SaveRejected(NewPasswordTooShort)
    else if IsBlank(newPassword) && username == user.username then
      assert NoChanges[0] != CurrentPasswordRequired[0] && |NoChanges| != |NewPasswordTooShort|;
      SaveRejected(NoChanges)
    else SaveCall(user.(username := username), newPassword, currentPassword)
  }

  /** A call reaches `onUpdateUser` exactly when the three checks pass, and
      then a given new password has at least six characters. */
  lemma SaveCallsOnlyValid(user: UserData, username: string, newPassword: string, currentPassword: string)
    ensures SaveClick(user, username, newPassword, currentPassword).SaveCall? <==>
      && !IsBlank(currentPassword)
      && (IsBlank(newPassword) || Utf16Length(newPassword) >= MinPasswordLength)
      && (!IsBlank(newPassword) || username != user.username)
  {
  }

  /** The arguments `updateUser(userData, currentPassword, newPassword)`
      receives, by its parameter names. */
  datatype UpdateCall = UpdateCall(user: UserData, currentPassword: string, newPassword: string)

  /** The `onUpdateUser` lambda as written: it passes its second argument,
      the new password, as `updateUser`'s current password, and its third,
      the current password, as the new one. */
  function OnUpdateUserAsWritten(user: UserData, newPassword: string, currentPassword: string): (c: UpdateCall)
    ensures c.currentPassword == newPassword && c.newPassword == currentPassword && c.user == user
  {
    UpdateCall(user, newPassword, currentPassword)
  }

  /** The lambda with each password passed as the parameter of its name. */
  function OnUpdateUser(user: UserData, newPassword: string, currentPassword: string): (c: UpdateCall)
    ensures c.currentPassword == currentPassword && c.newPassword == newPassword && c.user == user
  {
    UpdateCall(user, currentPassword, newPassword)
  }

  /** The password Firebase holds after `updateUser` runs its password step
      for a call: `account` before, and the new one only when the step runs,
      re-authentication accepts the current password and Firebase accepts
      the new one (`update`). */
  function PasswordAfter(signedIn: Option<FirebaseUser>, account: string, c: UpdateCall, rejection: Message,
                         update: Result<()>): string {
    if !IsBlank(c.currentPassword) && !IsBlank(c.newPassword) then
      match UpdatePassword(signedIn, account, c.currentPassword, c.newPassword, rejection, update)
      case Success(p) => p
      case Failure(_) => account
    else account
  }

  /** As written, a user who types the right current password and a
      different new one never changes the password: re-authentication is
      tried with the new password and refused. */
  lemma PasswordNeverChangesAsWritten(user: UserData, username: string, newPassword: string, account: string,
                                      signedIn: FirebaseUser, rejection: Message, update: Result<()>)
    requires signedIn.email.Some?
    requires SaveClick(user, username, newPassword, account).SaveCall?
    requires !IsBlank(newPassword) && newPassword != account
    ensures var c := OnUpdateUserAsWritten(user, newPassword, account);
      && UpdatePassword(Some(signedIn), account, c.currentPassword, c.newPassword, rejection, update) == Failure(rejection)
      && PasswordAfter(Some(signedIn), account, c, rejection, update) == account
  {
  }

  /** With each password in its place, the same input sets the new password
      whenever Firebase accepts it; a blank new password, or one Firebase
      refuses, leaves the account's password alone. */
  lemma PasswordChangesCorrected(user: UserData, username: string, newPassword: string, account: string,
                                 signedIn: FirebaseUser, rejection: Message, update: Result<()>)
    requires signedIn.email.Some?
    requires SaveClick(user, username, newPassword, account).SaveCall?
    ensures var c := OnUpdateUser(user, newPassword, account);
      PasswordAfter(Some(signedIn), account, c, rejection, update)
        == if IsBlank(newPassword) || update.Failure? then account else newPassword
  {
  }

  /** Both lambdas hand over the same profile. */
  lemma LambdasAgreeOnProfile(user: UserData, newPassword: string, currentPassword: string)
    ensures OnUpdateUserAsWritten(user, newPassword, currentPassword).user
         == OnUpdateUser(user, newPassword, currentPassword).user
  {
  }

  // ---- Register and Login ----

  /** The string resources the two forms show. */
  datatype FormError =
    | EnterFullName
    | EnterUsername
    | EnterEmail
    | ValidEmail
    | EnterPassword
    | PasswordLength
    | PasswordsMatch

  /** What Register does: show an error, or call `registerUser` with the
      normalised fields and the password. */
  datatype RegisterOutcome =
    | RegisterRejected(error: FormError)
    | RegisterCall(name: string, username: string, email: string, password: string)

  /** The register checks in order; `lengthChecked` is the length the
      six-character check looks at, in UTF-16 code units as Kotlin counts. */
  function RegisterError(fullName: string, username: string, email: string, password: string,
                         confirmPassword: string, emailMatches: string -> bool, lengthChecked: nat): (e: Option<FormError>)
    ensures e == Some(EnterFullName) <==> IsBlank(fullName)
    ensures e == Some(EnterUsername) <==> !IsBlank(fullName) && IsBlank(username)
    ensures e == Some(EnterEmail) <==> !IsBlank(fullName) && !IsBlank(username) && IsBlank(email)
    ensures e == Some(ValidEmail) <==>
      !IsBlank(fullName) && !IsBlank(username) && !IsBlank(email) && !emailMatches(email)
    ensures e == Some(EnterPassword) <==>
      !IsBlank(fullName) && !IsBlank(username) && !IsBlank(email) && emailMatches(email) && IsBlank(password)
    ensures e == Some(PasswordLength) <==>
      && !IsBlank(fullName) && !IsBlank(username) && !IsBlank(email) && emailMatches(email)
      && !IsBlank(password) && lengthChecked < MinPasswordLength
    ensures e.None? <==>
      && !IsBlank(fullName) && !IsBlank(username) && !IsBlank(email) && emailMatches(email)
      && !IsBlank(password) && lengthChecked >= MinPasswordLength && password == confirmPassword
  {
    if IsBlank(fullName) then Some(EnterFullName)
    else if IsBlank(username) then Some(EnterUsername)
    else if IsBlank(email) then Some(EnterEmail)
    else if !emailMatches(email) then Some(ValidEmail)
    else if IsBlank(password) then Some(EnterPassword)
    else if lengthChecked < MinPasswordLength then Some(PasswordLength)
    else if password != confirmPassword then Some(PasswordsMatch)
    else None
  }

  /** The Register button as written: the length and match checks look at
      the password as typed, but the trimmed password is registered. */
  function RegisterClickAsWritten(fullName: string, username: string, email: string, password: string,
                                  confirmPassword: string, emailMatches: string -> bool): (r: RegisterOutcome)
    ensures r.RegisterCall? <==>
      RegisterError(fullName, username, email, password, confirmPassword, emailMatches, Utf16Length(password)).None?
    ensures r.RegisterCall? ==> r.password == Trim(password)
    ensures r.RegisterCall? ==> r.name == Trim(fullName) && r.username == Trim(username) && r.email == Lower(Trim(email))
  {
    match RegisterError(fullName, username, email, password, confirmPassword, emailMatches, Utf16Length(password))
    case Some(e) => RegisterRejected(e)
    case None => RegisterCall(Trim(fullName), Trim(username), Lower(Trim(email)), Trim(password))
  }

  /** The padded password "abc   " passes every register check as
      written. */
  lemma PaddedPasswordPasses(emailMatches: string -> bool)
    requires emailMatches("ann@example.com")
    ensures RegisterError("Ann", "ann", "ann@example.com", "abc   ", "abc   ", emailMatches, 6).None?
  {
    assert !IsBlank("Ann") by { UnpaddedTrim("Ann"); }
    assert !IsBlank("ann") by { UnpaddedTrim("ann"); }
    assert !IsBlank("ann@example.com") by { UnpaddedTrim("ann@example.com"); }
    assert !IsBlank("abc   ") by { PaddedTrim(); }
  }

  /** As written, a password padded with blanks to six characters passes the
      checks, and a three-character password is registered. */
  lemma ShortPasswordRegisteredAsWritten(emailMatches: string -> bool)
    requires emailMatches("ann@example.com")
    ensures var r := RegisterClickAsWritten("Ann", "ann", "ann@example.com", "abc   ", "abc   ", emailMatches);
      r.RegisterCall? && r.password == "abc" && Utf16Length(r.password) < MinPasswordLength
  {
    PaddedPasswordPasses(emailMatches);
    PaddedTrim();
  }

  /** The corrected button rejects the same input for its length. */
  lemma ShortPasswordRejected(emailMatches: string -> bool)
    requires emailMatches("ann@example.com")
    ensures RegisterClick("Ann", "ann", "ann@example.com", "abc   ", "abc   ", emailMatches) == RegisterRejected(PasswordLength)
  {
    PaddedPasswordPasses(emailMatches);
    PaddedTrim();
  }

  /** Text that neither starts nor ends with a blank trims to itself and is
      not blank. */
  lemma UnpaddedTrim(s: string)
    requires s != [] && !IsWhitespace(s[0]) && !IsWhitespace(s[|s| - 1])
    ensures Trim(s) == s && !IsBlank(s)
  {
  }

  lemma PaddedTrim()
    ensures Trim("abc   ") == "abc" && !IsBlank("abc   ")
  {
    var padded := "abc   ";
    assert !IsWhitespace(padded[0]);
    assert TrimStart(padded) == padded;
    var s3, s4, s5 := padded[..3], padded[..4], padded[..5];
    assert TrimEnd(s3) == s3;
    assert s4[..3] == s3;
    assert TrimEnd(s4) == s3;
    assert s5[..4] == s4;
    assert TrimEnd(s5) == s3;
    assert padded[..5] == s5;
    assert TrimEnd(padded) == s3;
    assert s3 == "abc";
  }

  /** The Register button with the six-character check on the password that
      is registered. */
  function RegisterClick(fullName: string, username: string, email: string, password: string,
                         confirmPassword: string, emailMatches: string -> bool): (r: RegisterOutcome)
    ensures r.RegisterCall? <==>
      RegisterError(fullName, username, email, password, confirmPassword, emailMatches, Utf16Length(Trim(password))).None?
    ensures r.RegisterCall? ==> r.password == Trim(password) && Utf16Length(r.password) >= MinPasswordLength
    ensures r.RegisterCall? ==> r.name == Trim(fullName) && r.username == Trim(username) && r.email == Lower(Trim(email))
  {
    match RegisterError(fullName, username, email, password, confirmPassword, emailMatches, Utf16Length(Trim(password)))
    case Some(e) => RegisterRejected(e)
    case None => RegisterCall(Trim(fullName), Trim(username), Lower(Trim(email)), Trim(password))
  }

  /** For a password typed without surrounding blanks the two versions
      agree. */
  lemma RegisterAgreesWithoutPadding(fullName: string, username: string, email: string, password: string,
                                     confirmPassword: string, emailMatches: string -> bool)
    requires Trim(password) == password
    ensures RegisterClick(fullName, username, email, password, confirmPassword, emailMatches)
         == RegisterClickAsWritten(fullName, username, email, password, confirmPassword, emailMatches)
  {
  }

  /** The registered name and username are not empty and neither start nor
      end with a blank. */
  lemma RegisteredNamesTrimmed(fullName: string, username: string, email: string, password: string,
                               confirmPassword: string, emailMatches: string -> bool)
    requires RegisterClick(fullName, username, email, password, confirmPassword, emailMatches).RegisterCall?
    ensures var r := RegisterClick(fullName, username, email, password, confirmPassword, emailMatches);
      && r.name != [] && !IsWhitespace(r.name[0]) && !IsWhitespace(r.name[|r.name| - 1])
      && r.username != [] && !IsWhitespace(r.username[0]) && !IsWhitespace(r.username[|r.username| - 1])
  {
    TrimProperties(fullName);
    TrimProperties(username);
  }

  /** What Login does: show an error, or call `loginUser`. */
  datatype LoginOutcome = LoginRejected(error: FormError) | LoginCall(email: string, password: string)

  /** The Login button: email, then password, then the email pattern on the
      text as typed; the email is passed on trimmed and lower-cased, the
      password unchanged. */
  function LoginClick(email: string, password: string, emailMatches: string -> bool): (r: LoginOutcome)
    ensures r == LoginRejected(EnterEmail) <==> IsBlank(email)
    ensures r == LoginRejected(EnterPassword) <==> !IsBlank(email) && IsBlank(password)
    ensures r == LoginRejected(ValidEmail) <==> !IsBlank(email) && !IsBlank(password) && !emailMatches(email)
    ensures r.LoginCall? <==> !IsBlank(email) && !IsBlank(password) && emailMatches(email)
    ensures r.LoginCall? ==> r.email == Lower(Trim(email)) && r.password == password
  {
    if IsBlank(email) then LoginRejected(EnterEmail)
    else if IsBlank(password) then LoginRejected(EnterPassword)
    else if !emailMatches(email) then LoginRejected(ValidEmail)
    else LoginCall(Lower(Trim(email)), password)
  }

  /** After a successful login on a device with biometrics, the email saved
      for biometric sign-in, when the field is not blank. */
  function BiometricEmail(isBiometricAvailable: bool, email: string): (saved: Option<string>)
    ensures saved.Some? <==> isBiometricAvailable && !IsBlank(email)
  {
    if isBiometricAvailable && !IsBlank(email) then Some(Lower(Trim(email))) else None
  }

  /** The email saved for biometrics is the one the login was made with. */
  lemma BiometricEmailIsLoginEmail(email: string, password: string, emailMatches: string -> bool)
    requires LoginClick(email, password, emailMatches).LoginCall?
    ensures BiometricEmail(true, email) == Some(LoginClick(email, password, emailMatches).email)
  {
  }

  /** Login and Register normalise an email the same way, so an account
      registered with an email logs in with the same text in any letter case
      and padding. */
  lemma LoginFindsRegisteredEmail(regEmail: string, loginEmail: string, password: string, emailMatches: string -> bool)
    requires Lower(Trim(regEmail)) == Lower(Trim(loginEmail))
    requires LoginClick(loginEmail, password, emailMatches).LoginCall?
    ensures EqualsIgnoreCase(LoginClick(loginEmail, password, emailMatches).email, Lower(Trim(regEmail)))
  {
    LowerIdempotent(Trim(loginEmail));
  }

  lemma LowerIdempotent(s: string)
    ensures Lower(Lower(s)) == Lower(s)
  {
    assert forall i :: 0 <= i < |s| ==> LowerChar(LowerChar(s[i])) == LowerChar(s[i]);
  }
}
