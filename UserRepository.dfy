/** The app's user repository: online login with an offline fallback on the
    cached credentials, the auto sign-in guards, guest login, logout and the
    profile a first Google sign-in creates. Firebase's answers are
    parameters; the cached credentials live in `UserPreferences`, which is
    absent when the repository has no context. */
module UserRepository {
  import opened Wrappers
  import opened Text
  import opened Preferences

  const OfflineUnavailable := "Offline login not available"
  const NoCachedCredentials := "No cached credentials found. Please connect to the internet to login."
  const InvalidCredentials := "Invalid credentials. Please connect to the internet to login."
  const GuestUnavailable := "Guest login not available"
  const AutoSignInUnavailable := "Auto sign-in not available"
  const GuestNeedsSelection := "Guest mode requires explicit selection"
  const AutoSignInDisabled := "Auto sign-in is disabled"
  const NoCachedUser := "No cached user data found"
  const NoCachedPassword := "No cached password found"

  /** Kotlin `equals(other, ignoreCase = true)`. */
  predicate EqualsIgnoreCase(a: string, b: string) {
    Lower(a) == Lower(b)
  }

  /** The Firebase account a Google sign-in returns. */
  datatype FirebaseUser = FirebaseUser(uid: string, displayName: Option<string>, email: Option<string>)

  /** The profile created for a first Google sign-in. */
  function NewGoogleUser(u: FirebaseUser): (r: UserData)
    ensures r.id == u.uid
    ensures r.name == u.displayName.GetOr("N/A")
    ensures r.email == u.email.GetOr("")
  {
    UserData(
      u.uid,
      u.displayName.GetOr("N/A"),
      match u.email
      case Some(e) => SubstringBefore(e, '@')
      case None => "user_" + Take(u.uid, 6),
      u.email.GetOr(""))
  }

  /** With an email, the username is the text before its first `@`, so it
      has no `@` and the email starts with it; without one, it is `user_`
      and at most six characters of the uid. */
  lemma GoogleUsername(u: FirebaseUser)
    ensures u.email.Some? ==>
      '@' !in NewGoogleUser(u).username && StartsWith(u.email.value, NewGoogleUser(u).username)
    ensures u.email.None? ==>
      StartsWith(NewGoogleUser(u).username, "user_") && |NewGoogleUser(u).username| <= 11
      && StartsWith(u.uid, NewGoogleUser(u).username[5..])
  {
    if u.email.None? {
      var name := NewGoogleUser(u).username;
      assert name[..5] == "user_";
      assert name[5..] == Take(u.uid, 6);
    }
  }

  const NoUserLoggedIn := "No user logged in"
  const EmailNotFound := "Email not found"

  /** `updatePassword`: Firebase re-authenticates the signed-in account with
      `currentPassword` and then sets `newPassword`. `account` is the password
      Firebase holds, `rejection` the message of its refusal to
      re-authenticate, and `update` Firebase's answer to setting the new
      password (it may refuse a weak password or fail on the network); the
      value of a success is the password the account holds afterwards. */
  function UpdatePassword(signedIn: Option<FirebaseUser>, account: string, currentPassword: string,
                          newPassword: string, rejection: Message, update: Result<()>): (r: Result<string>)
    ensures r.Success? <==>
      signedIn.Some? && signedIn.value.email.Some? && currentPassword == account && update.Success?
    ensures r.Success? ==> r.value == newPassword
    ensures signedIn.None? ==> r == Failure(Some(NoUserLoggedIn))
    ensures signedIn.Some? && signedIn.value.email.None? ==> r == Failure(Some(EmailNotFound))
    ensures signedIn.Some? && signedIn.value.email.Some? && currentPassword != account ==> r == Failure(rejection)
    ensures signedIn.Some? && signedIn.value.email.Some? && currentPassword == account && update.Failure? ==>
      r == Failure(update.message)
  {
    match signedIn
    case None => Failure(Some(NoUserLoggedIn))
    case Some(user) =>
      if user.email.None? then Failure(Some(EmailNotFound))
      else if currentPassword != account then Failure(rejection)
      else if update.Failure? then Failure(update.message)
      else Success(newPassword)
  }

  class UserRepo {
    /** The preferences reachable through the context; `null` without one. */
    const prefs: UserPreferences?

    constructor(prefs: UserPreferences?)
      ensures this.prefs == prefs
    {
      this.prefs := prefs;
    }

    /** `loginOffline`: the cached profile, when its email matches ignoring
        case and the cached password matches exactly. */
    function LoginOffline(email: string, password: string): (r: Result<UserData>)
      reads prefs
      ensures r.Success? <==>
        && prefs != null
        && prefs.CachedUserData().Some? && prefs.CachedPassword().Some?
        && EqualsIgnoreCase(prefs.CachedUserData().value.email, email)
        && prefs.CachedPassword().value == password
      ensures r.Success? ==> r.value == prefs.CachedUserData().value
      ensures prefs == null ==> r == Failure(Some(OfflineUnavailable))
      ensures prefs != null && !prefs.HasCredentialsCached() ==> r == Failure(Some(NoCachedCredentials))
      ensures prefs != null && prefs.HasCredentialsCached() && r.Failure? ==> r == Failure(Some(InvalidCredentials))
    {
      if prefs == null then Failure(Some(OfflineUnavailable))
      else match (prefs.CachedUserData(), prefs.CachedPassword())
        case (None, _) => Failure(Some(NoCachedCredentials))
        case (_, None) => Failure(Some(NoCachedCredentials))
        case (Some(cached), Some(cachedPassword)) =>
          if EqualsIgnoreCase(cached.email, email) && cachedPassword == password then Success(cached)
          else Failure(Some(InvalidCredentials))
    }

    /** The cached credentials always log in offline, in any letter case of
        the email. */
    lemma CachedCredentialsLogIn(email: string)
      requires prefs != null && prefs.HasCredentialsCached()
      requires EqualsIgnoreCase(prefs.CachedUserData().value.email, email)
      ensures LoginOffline(email, prefs.CachedPassword().value) == Success(prefs.CachedUserData().value)
    {
    }

    /** `loginUser`. `networkAvailable` is the connectivity check, made only
        with a context (without one the repository assumes it is online);
        `online` is the outcome of the Firebase sign-in and profile fetch. A
        successful online login caches the profile and password; when
        caching throws, or the online login fails, the offline login decides,
        provided there is a context. */
    method LoginUser(email: string, password: string, networkAvailable: bool, online: Result<UserData>)
      returns (r: Result<UserData>)
      modifies prefs
      ensures prefs == null ==> r == online
      ensures prefs != null && !networkAvailable ==> r == LoginOffline(email, password) && unchanged(prefs)
      ensures prefs != null && networkAvailable && online.Failure? ==>
        r == LoginOffline(email, password) && unchanged(prefs)
      ensures prefs != null && networkAvailable && online.Success? ==>
        prefs.CachedUserData() == Some(online.value) && !prefs.IsGuestMode()
      ensures prefs != null && networkAvailable && online.Success? && prefs.encryptedAvailable ==>
        r == online && prefs.CachedPassword() == Some(password)
      ensures prefs != null && networkAvailable && online.Success? && !prefs.encryptedAvailable ==>
        r == Failure(Some(NoCachedCredentials))
    {
      if prefs != null && !networkAvailable {
        return LoginOffline(email, password);
      }
      if online.Failure? {
        if prefs != null {
          return LoginOffline(email, password);
        }
        return online;
      }
      if prefs != null {
        var threw := prefs.SaveUserData(online.value, Some(password));
        if threw {
          return LoginOffline(email, password);
        }
      }
      r := online;
    }

    /** `loginAsGuest`: guest mode on, then the placeholder profile it wrote. */
    method LoginAsGuest(now: nat) returns (r: Result<UserData>)
      modifies prefs
      ensures prefs == null ==> r == Failure(Some(GuestUnavailable))
      ensures prefs != null ==> r == Success(GuestUser(now)) && prefs.IsGuestMode()
      ensures prefs != null ==> prefs.CachedUserData() == Some(GuestUser(now))
      ensures prefs != null ==> prefs.encrypted == old(prefs.encrypted)
    {
      if prefs == null {
        return Failure(Some(GuestUnavailable));
      }
      prefs.SetGuestMode(true, now);
      // Guest mode has just written all four profile keys, so the read finds them.
      r := Success(prefs.CachedUserData().value);
    }

    /** `autoSignIn`: the guards in order, then `loginUser` with the cached
        email and password. */
    method AutoSignIn(networkAvailable: bool, online: Result<UserData>) returns (r: Result<UserData>)
      modifies prefs
      ensures prefs == null ==> r == Failure(Some(AutoSignInUnavailable))
      ensures prefs != null && old(prefs.IsGuestMode()) ==> r == Failure(Some(GuestNeedsSelection))
      ensures prefs != null && !old(prefs.IsGuestMode()) && !old(prefs.IsAutoSignInEnabled()) ==>
        r == Failure(Some(AutoSignInDisabled))
      ensures prefs != null && !old(prefs.IsGuestMode()) && old(prefs.IsAutoSignInEnabled()) ==>
        && (old(prefs.CachedUserData()).None? ==> r == Failure(Some(NoCachedUser)))
        && (old(prefs.CachedUserData()).Some? && old(prefs.CachedPassword()).None? ==>
              r == Failure(Some(NoCachedPassword)))
        && (old(prefs.HasCredentialsCached()) && !networkAvailable ==>
              r == Success(old(prefs.CachedUserData()).value))
    {
      if prefs == null {
        return Failure(Some(AutoSignInUnavailable));
      }
      if prefs.IsGuestMode() {
        return Failure(Some(GuestNeedsSelection));
      }
      if !prefs.IsAutoSignInEnabled() {
        return Failure(Some(AutoSignInDisabled));
      }
      var cached := prefs.CachedUserData();
      if cached.None? {
        return Failure(Some(NoCachedUser));
      }
      var cachedPassword := prefs.CachedPassword();
      if cachedPassword.None? {
        return Failure(Some(NoCachedPassword));
      }
      r := LoginUser(cached.value.email, cachedPassword.value, networkAvailable, online);
    }

    /** `logoutUser`: every cached preference is cleared (the Firebase
        sign-out is outside the model). */
    method LogoutUser()
      modifies prefs
      ensures prefs != null ==> prefs.CachedUserData() == None && prefs.CachedPassword() == None
      ensures prefs != null ==> !prefs.IsGuestMode() && prefs.IsAutoSignInEnabled()
    {
      if prefs != null {
        prefs.ClearAll();
      }
    }
  }
}
