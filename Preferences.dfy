/** The app's three preference stores. Each Android preference file is a map
    from key to a string or boolean value; a `get` with a default returns
    the default for a missing key. The user store keeps the cached password
    in a second, encrypted file, which may fail to open. */
module Preferences {
  import opened Wrappers
  import opened Text
  import Locale

  datatype PrefValue = PString(s: string) | PBool(b: bool)

  type Entries = map<string, PrefValue>

  /** `getString(key, null)`. */
  function GetString(e: Entries, key: string): Option<string> {
    if key in e && e[key].PString? then Some(e[key].s) else None
  }

  /** `getBoolean(key, default)`. */
  function GetBoolean(e: Entries, key: string, default: bool): bool {
    if key in e && e[key].PBool? then e[key].b else default
  }

  /** The user profile the app caches: the four fields the preferences store. */
  datatype UserData = UserData(id: string, name: string, username: string, email: string)

  const KeyUserId := "user_id"
  const KeyUserName := "user_name"
  const KeyUserUsername := "user_username"
  const KeyUserEmail := "user_email"
  const KeyCachedPassword := "cached_password"
  const KeyIsGuest := "is_guest"
  const KeyAutoSignIn := "auto_sign_in"

  /** The four `putString` calls that store a profile. */
  function WriteUser(e: Entries, user: UserData): Entries {
    e[KeyUserId := PString(user.id)]
     [KeyUserName := PString(user.name)]
     [KeyUserUsername := PString(user.username)]
     [KeyUserEmail := PString(user.email)]
  }

  /** `getCachedUserData`: a profile only when all four keys hold text. */
  function ReadUser(e: Entries): (u: Option<UserData>)
    ensures u.Some? <==>
      GetString(e, KeyUserId).Some? && GetString(e, KeyUserName).Some?
      && GetString(e, KeyUserUsername).Some? && GetString(e, KeyUserEmail).Some?
  {
    match (GetString(e, KeyUserId), GetString(e, KeyUserName), GetString(e, KeyUserUsername), GetString(e, KeyUserEmail))
    case (Some(id), Some(name), Some(username), Some(email)) => Some(UserData(id, name, username, email))
    case _ => None
  }

  /** Round trip: a stored profile reads back field for field. */
  lemma ReadAfterWrite(e: Entries, user: UserData)
    ensures ReadUser(WriteUser(e, user)) == Some(user)
  {
    var w := WriteUser(e, user);
    assert GetString(w, KeyUserId) == Some(user.id);
    assert GetString(w, KeyUserName) == Some(user.name);
    assert GetString(w, KeyUserUsername) == Some(user.username);
  }

  /** Writing other keys leaves the cached profile as it was. */
  lemma ReadIgnoresOtherKeys(e: Entries, key: string, v: PrefValue)
    requires key !in {KeyUserId, KeyUserName, KeyUserUsername, KeyUserEmail}
    ensures ReadUser(e[key := v]) == ReadUser(e)
  {
    assert GetString(e[key := v], KeyUserId) == GetString(e, KeyUserId);
    assert GetString(e[key := v], KeyUserName) == GetString(e, KeyUserName);
    assert GetString(e[key := v], KeyUserUsername) == GetString(e, KeyUserUsername);
    assert GetString(e[key := v], KeyUserEmail) == GetString(e, KeyUserEmail);
  }

  /** The placeholder identity guest mode writes, with the clock's millis. */
  function GuestUser(now: nat): UserData {
    UserData("guest_" + NatToString(now), "Guest User", "guest", "guest@geoquest.local")
  }

  /** `UserPreferences`: the plain file holds the profile and the flags, the
      encrypted file the password. */
  class UserPreferences {
    var plain: Entries
    var encrypted: Entries
    /** Whether the encrypted file opens; when it does not, reading the
        password yields null and clearing it is skipped. */
    const encryptedAvailable: bool

    constructor(encryptedAvailable: bool)
      ensures this.encryptedAvailable == encryptedAvailable
      ensures plain == map[] && encrypted == map[]
    {
      this.encryptedAvailable := encryptedAvailable;
      plain := map[];
      encrypted := map[];
    }

    function CachedUserData(): Option<UserData>
      reads this
    {
      ReadUser(plain)
    }

    /** `getCachedPassword`: a store error becomes null. */
    function CachedPassword(): (p: Option<string>)
      reads this
      ensures !encryptedAvailable ==> p.None?
    {
      if encryptedAvailable then GetString(encrypted, KeyCachedPassword) else None
    }

    predicate HasCredentialsCached()
      reads this
    {
      CachedUserData().Some? && CachedPassword().Some?
    }

    /** Unset, guest mode is off. */
    predicate IsGuestMode()
      reads this
    {
      GetBoolean(plain, KeyIsGuest, false)
    }

    /** Unset, auto sign-in is on. */
    predicate IsAutoSignInEnabled()
      reads this
    {
      GetBoolean(plain, KeyAutoSignIn, true)
    }

    /** `saveUserData`: the profile and guest mode off go to the plain file;
        a given password goes to the encrypted one, and `threw` reports that
        the encrypted file could not be opened for it. */
    method SaveUserData(user: UserData, password: Option<string>) returns (threw: bool)
      modifies this
      ensures plain == WriteUser(old(plain), user)[KeyIsGuest := PBool(false)]
      ensures threw <==> password.Some? && !encryptedAvailable
      ensures encrypted == if password.Some? && encryptedAvailable
                           then old(encrypted)[KeyCachedPassword := PString(password.value)]
                           else old(encrypted)
      ensures CachedUserData() == Some(user) && !IsGuestMode()
      ensures IsAutoSignInEnabled() == old(IsAutoSignInEnabled())
      ensures CachedPassword() == if password.Some? && encryptedAvailable then password else old(CachedPassword())
    {
      ReadIgnoresOtherKeys(WriteUser(plain, user), KeyIsGuest, PBool(false));
      ReadAfterWrite(plain, user);
      plain := WriteUser(plain, user)[KeyIsGuest := PBool(false)];
      threw := false;
      if password.Some? {
        if encryptedAvailable {
          encrypted := encrypted[KeyCachedPassword := PString(password.value)];
        } else {
          threw := true;
        }
      }
    }

    /** `setGuestMode`: on, it also writes the guest placeholder profile;
        off, it only clears the flag. */
    method SetGuestMode(isGuest: bool, now: nat)
      modifies this
      ensures IsGuestMode() == isGuest
      ensures isGuest ==> CachedUserData() == Some(GuestUser(now))
      ensures !isGuest ==> plain == old(plain)[KeyIsGuest := PBool(false)] && CachedUserData() == old(CachedUserData())
      ensures IsAutoSignInEnabled() == old(IsAutoSignInEnabled())
      ensures encrypted == old(encrypted)
    {
      if isGuest {
        var flagged := plain[KeyIsGuest := PBool(true)];
        ReadAfterWrite(flagged, GuestUser(now));
        plain := WriteUser(flagged, GuestUser(now));
      } else {
        ReadIgnoresOtherKeys(plain, KeyIsGuest, PBool(false));
        plain := plain[KeyIsGuest := PBool(false)];
      }
    }

    method SetAutoSignIn(enabled: bool)
      modifies this
      ensures plain == old(plain)[KeyAutoSignIn := PBool(enabled)]
      ensures IsAutoSignInEnabled() == enabled
      ensures CachedUserData() == old(CachedUserData()) && IsGuestMode() == old(IsGuestMode())
      ensures encrypted == old(encrypted)
    {
      ReadIgnoresOtherKeys(plain, KeyAutoSignIn, PBool(enabled));
      plain := plain[KeyAutoSignIn := PBool(enabled)];
    }

    /** `clearAll`: both files emptied, every getter back to its default. */
    method ClearAll()
      modifies this
      ensures plain == map[]
      ensures encrypted == if encryptedAvailable then map[] else old(encrypted)
      ensures CachedUserData() == None && CachedPassword() == None
      ensures !IsGuestMode() && IsAutoSignInEnabled() && !HasCredentialsCached()
    {
      plain := map[];
      if encryptedAvailable {
        encrypted := map[];
      }
    }

    /** `clearPassword`: only the password key goes. */
    method ClearPassword()
      modifies this
      ensures plain == old(plain)
      ensures encrypted == if encryptedAvailable then old(encrypted) - {KeyCachedPassword} else old(encrypted)
      ensures CachedPassword() == None && CachedUserData() == old(CachedUserData())
    {
      if encryptedAvailable {
        encrypted := encrypted - {KeyCachedPassword};
      }
    }
  }

  const KeyBiometricEnabled := "biometric_enabled"

  /** `BiometricPreferences`. */
  class BiometricPreferences {
    var entries: Entries

    constructor()
      ensures entries == map[]
    {
      entries := map[];
    }

    /** Unset, biometrics are off. */
    predicate IsBiometricEnabled()
      reads this
    {
      GetBoolean(entries, KeyBiometricEnabled, false)
    }

    function SavedUserEmail(): Option<string>
      reads this
    {
      GetString(entries, KeyUserEmail)
    }

    method EnableBiometric(userEmail: string)
      modifies this
      ensures entries == old(entries)[KeyBiometricEnabled := PBool(true)][KeyUserEmail := PString(userEmail)]
      ensures IsBiometricEnabled() && SavedUserEmail() == Some(userEmail)
    {
      entries := entries[KeyBiometricEnabled := PBool(true)][KeyUserEmail := PString(userEmail)];
    }

    method DisableBiometric()
      modifies this
      ensures entries == old(entries)[KeyBiometricEnabled := PBool(false)] - {KeyUserEmail}
      ensures !IsBiometricEnabled() && SavedUserEmail() == None
    {
      entries := entries[KeyBiometricEnabled := PBool(false)] - {KeyUserEmail};
    }

    method ClearAll()
      modifies this
      ensures entries == map[]
      ensures !IsBiometricEnabled() && SavedUserEmail() == None
    {
      entries := map[];
    }
  }

  const KeyLanguageCode := "language_code"
  const DefaultLanguage := "en"

  /** `LanguagePreferences`. */
  class LanguagePreferences {
    var entries: Entries

    constructor()
      ensures entries == map[]
    {
      entries := map[];
    }

    /** `getLanguage`: the saved code, or English. */
    function Language(): (code: string)
      reads this
      ensures KeyLanguageCode !in entries ==> code == DefaultLanguage
    {
      GetString(entries, KeyLanguageCode).GetOr(DefaultLanguage)
    }

    function CurrentLanguageName(): (name: string)
      reads this
      ensures name == Locale.LanguageDisplayName(Language())
      ensures KeyLanguageCode !in entries ==> name == "English"
    {
      Locale.LanguageDisplayName(Language())
    }

    method SetLanguage(languageCode: string)
      modifies this
      ensures entries == old(entries)[KeyLanguageCode := PString(languageCode)]
      ensures Language() == languageCode
    {
      entries := entries[KeyLanguageCode := PString(languageCode)];
    }

    method ClearLanguage()
      modifies this
      ensures entries == old(entries) - {KeyLanguageCode}
      ensures Language() == DefaultLanguage
    {
      entries := entries - {KeyLanguageCode};
    }
  }
}
