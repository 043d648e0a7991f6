/** `UserViewModel`: the signed-in user as the screens see it, the last
    message for the user, and the guest-upgrade prompt. The prompt is driven
    by connectivity events, each already debounced and distinct from the one
    before; each action is one sequential step. Firebase's answers are
    parameters of the actions that wait for them. */
module UserViewModels {
  import opened Wrappers
  import opened Text
  import opened Preferences
  import opened UserRepository

  // ---- The guest-upgrade prompt ----

  /** The four values the connectivity collector reads and writes. */
  datatype PromptState = PromptState(isConnected: bool, isGuestMode: bool, show: bool, dismissed: bool)

  /** The prompt is shown only to a guest who is online. */
  predicate PromptOnlyForConnectedGuest(s: PromptState) {
    s.show ==> s.isGuestMode && s.isConnected
  }

  /** The collector's body for one connectivity event: coming online as a
      guest who has not dismissed the prompt shows it; going offline hides
      it and keeps the dismissal; a full offline-to-online cycle clears the
      dismissal and shows the prompt again to a guest. */
  function ConnectivityStep(s: PromptState, connected: bool): (r: PromptState)
    ensures r.isConnected == connected && r.isGuestMode == s.isGuestMode
    ensures !connected ==> !r.show && r.dismissed == s.dismissed
    ensures connected && s.isGuestMode && !s.dismissed ==> r.show
    ensures !s.isConnected && connected && s.dismissed ==> !r.dismissed && (s.isGuestMode ==> r.show)
    ensures s.isConnected || !connected ==> r.dismissed == s.dismissed
    ensures connected && (!s.isGuestMode || (s.isConnected && s.dismissed)) ==> r.show == s.show
  {
    var show1 := if connected && s.isGuestMode && !s.dismissed then true
                 else if !connected then false
                 else s.show;
    if !s.isConnected && connected && s.dismissed then
      PromptState(connected, s.isGuestMode, if s.isGuestMode then true else show1, false)
    else
      PromptState(connected, s.isGuestMode, show1, s.dismissed)
  }

  /** Every event keeps the prompt to an online guest. */
  lemma ConnectivityKeepsPrompt(s: PromptState, connected: bool)
    requires PromptOnlyForConnectedGuest(s)
    ensures PromptOnlyForConnectedGuest(ConnectivityStep(s, connected))
  {
  }

  /** A repeated event changes nothing, so dropping repeats before the
      collector does not change what it computes. */
  lemma RepeatedEventIgnored(s: PromptState, connected: bool)
    ensures ConnectivityStep(ConnectivityStep(s, connected), connected) == ConnectivityStep(s, connected)
  {
  }

  /** The collector over a sequence of events, oldest first. */
  function Observe(s: PromptState, events: seq<bool>): PromptState
    decreases |events|
  {
    if events == [] then s
    else ConnectivityStep(Observe(s, events[..|events| - 1]), events[|events| - 1])
  }

  /** Events never change guest mode, and they keep the prompt invariant. */
  lemma {:induction false} ObserveKeeps(s: PromptState, events: seq<bool>)
    requires PromptOnlyForConnectedGuest(s)
    ensures Observe(s, events).isGuestMode == s.isGuestMode
    ensures PromptOnlyForConnectedGuest(Observe(s, events))
    decreases |events|
  {
    if events != [] {
      ObserveKeeps(s, events[..|events| - 1]);
      ConnectivityKeepsPrompt(Observe(s, events[..|events| - 1]), events[|events| - 1]);
    }
  }

  /** Whatever came before, a guest who goes offline and comes back online
      sees the prompt, dismissed or not. */
  lemma ReconnectShowsPrompt(s: PromptState, events: seq<bool>)
    requires s.isGuestMode && PromptOnlyForConnectedGuest(s)
    ensures Observe(s, events + [false, true]).show
  {
    var all := events + [false, true];
    assert all[..|all| - 1] == events + [false];
    assert (events + [false])[..|events|] == events;
    ObserveKeeps(s, events);
  }

  /** Without a full cycle, a dismissed prompt stays dismissed: as long as
      the device stays online, no event shows it again. */
  lemma {:induction false} StayingOnlineKeepsDismissal(s: PromptState, n: nat)
    requires s.isConnected && s.dismissed && !s.show
    ensures Observe(s, seq(n, i => true)) == s
    decreases n
  {
    if n > 0 {
      var events := seq(n, i => true);
      assert events[..n - 1] == seq(n - 1, i => true);
      StayingOnlineKeepsDismissal(s, n - 1);
    }
  }

  // ---- The message `updateUser` shows ----

  const ProfileUpdated := "Profile updated successfully"
  const IncorrectPassword := "Incorrect current password"
  const NetworkError := "Network error. Please check your connection"
  const ErrorPrefix := "Error: "

  /** `updateUser`'s catch: a message that mentions a password, in any
      letter case, reads as a wrong current password; otherwise one that
      mentions the network reads as a network error; anything else is shown
      after "Error: ". */
  function UpdateErrorText(m: Message): (text: string)
    ensures text == IncorrectPassword <==> m.Some? && ContainsIgnoreCase(m.value, "password")
    ensures text == NetworkError <==>
      m.Some? && !ContainsIgnoreCase(m.value, "password") && ContainsIgnoreCase(m.value, "network")
    ensures text != IncorrectPassword && text != NetworkError ==> text == ErrorPrefix + Render(m)
  {
    if m.Some? && ContainsIgnoreCase(m.value, "password") then IncorrectPassword
    else if m.Some? && ContainsIgnoreCase(m.value, "network") then NetworkError
    else
      var text := ErrorPrefix + Render(m);
      assert text[0] == 'E';
      text
  }

  /** The password step runs only when both fields hold something other
      than blanks. */
  predicate PasswordStepRuns(currentPassword: Option<string>, newPassword: Option<string>) {
    currentPassword.Some? && !IsBlank(currentPassword.value) && newPassword.Some? && !IsBlank(newPassword.value)
  }

  class UserViewModel {
    const repo: UserRepo
    var currentUser: Option<UserData>
    var errorMessage: Message
    var loginSuccess: bool
    var isGuestMode: bool
    var isConnected: bool
    var showGuestUpgradePrompt: bool
    var guestPromptDismissed: bool

    /** The repository is built on the application's context, so it always
        has preferences; the prompt is shown only to an online guest. */
    predicate Valid()
      reads this
    {
      repo.prefs != null && PromptOnlyForConnectedGuest(Prompt())
    }

    function Prompt(): PromptState
      reads this
    {
      PromptState(isConnected, isGuestMode, showGuestUpgradePrompt, guestPromptDismissed)
    }

    /** `init`: guest mode as the preferences say, the prompt hidden until
        connectivity changes. */
    constructor(repo: UserRepo)
      requires repo.prefs != null
      ensures Valid() && this.repo == repo
      ensures isGuestMode == repo.prefs.IsGuestMode()
      ensures currentUser == None && errorMessage == None && !loginSuccess
      ensures !isConnected && !showGuestUpgradePrompt && !guestPromptDismissed
    {
      this.repo := repo;
      currentUser := None;
      errorMessage := None;
      loginSuccess := false;
      isGuestMode := repo.prefs.IsGuestMode();
      isConnected := false;
      showGuestUpgradePrompt := false;
      guestPromptDismissed := false;
    }

    /** One event reaching the connectivity collector. */
    method OnConnectivity(connected: bool)
      requires Valid()
      modifies this
      ensures Valid()
      ensures Prompt() == ConnectivityStep(old(Prompt()), connected)
      ensures currentUser == old(currentUser) && errorMessage == old(errorMessage)
      ensures loginSuccess == old(loginSuccess)
    {
      var wasConnected := isConnected;
      isConnected := connected;
      if connected && isGuestMode && !guestPromptDismissed {
        showGuestUpgradePrompt := true;
      } else if !connected {
        showGuestUpgradePrompt := false;
      }
      if !wasConnected && connected && guestPromptDismissed {
        guestPromptDismissed := false;
        if isGuestMode {
          showGuestUpgradePrompt := true;
        }
      }
      ConnectivityKeepsPrompt(old(Prompt()), connected);
    }

    /** The collector over a sequence of events, oldest first. */
    method ObserveConnectivity(events: seq<bool>)
      requires Valid()
      modifies this
      ensures Valid()
      ensures Prompt() == Observe(old(Prompt()), events)
      ensures currentUser == old(currentUser) && errorMessage == old(errorMessage)
      ensures loginSuccess == old(loginSuccess)
    {
      for i := 0 to |events|
        invariant Valid()
        invariant Prompt() == Observe(old(Prompt()), events[..i])
        invariant currentUser == old(currentUser) && errorMessage == old(errorMessage)
        invariant loginSuccess == old(loginSuccess)
      {
        assert events[..i + 1][..i] == events[..i];
        OnConnectivity(events[i]);
      }
      assert events[..|events|] == events;
    }

    /** `dismissGuestUpgradePrompt`: hidden, and dismissed for the session. */
    method DismissGuestUpgradePrompt()
      requires Valid()
      modifies this
      ensures Valid()
      ensures !showGuestUpgradePrompt && guestPromptDismissed
      ensures isConnected == old(isConnected) && isGuestMode == old(isGuestMode)
      ensures currentUser == old(currentUser) && errorMessage == old(errorMessage)
      ensures loginSuccess == old(loginSuccess)
    {
      showGuestUpgradePrompt := false;
      guestPromptDismissed := true;
    }

    /** `loginUser`: the repository's login (see `UserRepo.LoginUser` for
        the parameters); a success leaves guest mode and hides the prompt, a
        failure shows the exception's message. */
    method LoginUser(email: string, password: string, networkAvailable: bool, online: Result<UserData>)
      returns (result: Result<UserData>)
      requires Valid()
      modifies this, repo.prefs
      ensures Valid()
      ensures !networkAvailable ==> result == old(repo.LoginOffline(email, password))
      ensures networkAvailable && online.Failure? ==> result == old(repo.LoginOffline(email, password))
      ensures networkAvailable && online.Success? && repo.prefs.encryptedAvailable ==> result == online
      ensures result.Success? ==>
        && currentUser == Some(result.value) && loginSuccess && errorMessage == None
        && !isGuestMode && !showGuestUpgradePrompt
      ensures result.Failure? ==>
        && errorMessage == result.message && !loginSuccess
        && currentUser == old(currentUser) && isGuestMode == old(isGuestMode)
        && showGuestUpgradePrompt == old(showGuestUpgradePrompt)
      ensures isConnected == old(isConnected) && guestPromptDismissed == old(guestPromptDismissed)
    {
      result := repo.LoginUser(email, password, networkAvailable, online);
      if result.Success? {
        currentUser := Some(result.value);
        loginSuccess := true;
        errorMessage := None;
        isGuestMode := false;
        showGuestUpgradePrompt := false;
      } else {
        errorMessage := result.message;
        loginSuccess := false;
      }
    }

    /** `loginAsGuest`: guest mode on with the placeholder profile, the
        dismissal reset, and the prompt shown exactly when online. */
    method LoginAsGuest(now: nat)
      requires Valid()
      modifies this, repo.prefs
      ensures Valid()
      ensures currentUser == Some(GuestUser(now)) && loginSuccess && isGuestMode && errorMessage == None
      ensures !guestPromptDismissed && showGuestUpgradePrompt == isConnected
      ensures isConnected == old(isConnected)
      ensures repo.prefs.IsGuestMode() && repo.prefs.CachedUserData() == Some(GuestUser(now))
    {
      var result := repo.LoginAsGuest(now);
      // With preferences present the repository's guest login always
      // succeeds, so the "Failed to login as guest" branch cannot be taken.
      currentUser := Some(result.value);
      loginSuccess := true;
      isGuestMode := true;
      errorMessage := None;
      guestPromptDismissed := false;
      if isConnected {
        showGuestUpgradePrompt := true;
      }
    }

    /** `logoutUser`: the cached preferences cleared and every session value
        back to signed out. */
    method LogoutUser()
      requires Valid()
      modifies this, repo.prefs
      ensures Valid()
      ensures currentUser == None && !loginSuccess && !isGuestMode
      ensures !showGuestUpgradePrompt && !guestPromptDismissed
      ensures isConnected == old(isConnected) && errorMessage == old(errorMessage)
      ensures repo.prefs.CachedUserData() == None && repo.prefs.CachedPassword() == None
      ensures !repo.prefs.IsGuestMode()
    {
      repo.LogoutUser();
      currentUser := None;
      loginSuccess := false;
      isGuestMode := false;
      showGuestUpgradePrompt := false;
      guestPromptDismissed := false;
    }

    /** `updateUser`. `updatePassword` is the repository's password change,
        called with (current, new); `profile` is the outcome of the profile
        update. A failed password change skips the profile update; either
        failure shows its message through `UpdateErrorText`. */
    method UpdateUser(user: UserData, currentPassword: Option<string>, newPassword: Option<string>,
                      updatePassword: (string, string) -> Result<()>, profile: Result<UserData>)
      requires Valid()
      modifies this
      ensures Valid()
      ensures PasswordStepRuns(currentPassword, newPassword)
              && updatePassword(currentPassword.value, newPassword.value).Failure? ==>
        && errorMessage == Some(UpdateErrorText(updatePassword(currentPassword.value, newPassword.value).message))
        && currentUser == old(currentUser)
      ensures (!PasswordStepRuns(currentPassword, newPassword)
               || updatePassword(currentPassword.value, newPassword.value).Success?) ==>
        && (profile.Success? ==> currentUser == Some(profile.value) && errorMessage == Some(ProfileUpdated))
        && (profile.Failure? ==> currentUser == old(currentUser) && errorMessage == Some(UpdateErrorText(profile.message)))
      ensures loginSuccess == old(loginSuccess) && Prompt() == old(Prompt())
    {
      var passwordResult: Result<()> := Success(());
      if PasswordStepRuns(currentPassword, newPassword) {
        passwordResult := updatePassword(currentPassword.value, newPassword.value);
      }
      if passwordResult.Failure? {
        errorMessage := Some(UpdateErrorText(passwordResult.message));
      } else if profile.Success? {
        currentUser := Some(profile.value);
        errorMessage := Some(ProfileUpdated);
      } else {
        errorMessage := Some(UpdateErrorText(profile.message));
      }
    }
  }
}
