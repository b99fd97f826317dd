/** handleUpdateProfile of src/components/EditProfileDialog.jsx: the
    "nothing changed" shortcut, then the username pattern /^[a-zA-Z0-9_]+$/,
    then the profiles update, with the dialog's loading and open flags and
    the toasts it shows. The update call is an oracle. */
module ProfileEditing {
  import opened JsSemantics

  const InvalidUsername := "Username can only contain letters, numbers, and underscores."
  const UsernameTaken := "Username already exists."
  const Updated := "Profile updated successfully."
  const UpdateCrashed := "An error occurred while updating your profile."

  /** user.profile as the dialog receives it; a null column is None. */
  datatype Profile = Profile(id: string, fullName: Option<string>, username: Option<string>)

  datatype Toast = SuccessToast(text: string) | ErrorToast(text: string)

  /** What the profiles update answers: no error, an error result, or a throw. */
  datatype UpdateReply = UpdateOk | UpdateError | UpdateThrows

  /** What the awaited update is made with: the user's id and the two
      names as they stood when the handler ran. */
  datatype PendingUpdate = PendingUpdate(userId: string, fullName: string, username: string)

  datatype Decision =
    | NothingChanged       // dialog closes, no update
    | BadUsername          // error toast, dialog stays open
    | Rejected             // update returned an error: toast, dialog stays open
    | Saved                // update succeeded: toast, refetch, dialog closes
    | Crashed              // update threw: toast, dialog closes

  // ---------------------------------------------------------------------
  // The username pattern.

  predicate IsUsernameChar(c: char) {
    ('a' <= c <= 'z') || ('A' <= c <= 'Z') || ('0' <= c <= '9') || c == '_'
  }

  /** [a-zA-Z0-9_]* anchored at the end of the string. */
  function MatchesClassStar(s: string): bool {
    s == [] || (IsUsernameChar(s[0]) && MatchesClassStar(s[1..]))
  }

  /** usernamePattern.test(s) for /^[a-zA-Z0-9_]+$/: one class character,
      then any number of them, then the end of the string. A username passes
      exactly when it is non-empty and every character is an ASCII letter, a
      digit or an underscore. */
  function MatchesUsernamePattern(s: string): (b: bool)
    ensures b <==> |s| > 0 && forall i :: 0 <= i < |s| ==> IsUsernameChar(s[i])
  {
    if s == [] then false
    else
      ClassStarSpec(s[1..]);
      assert forall i :: 1 <= i < |s| ==> s[i] == s[1..][i - 1];
      IsUsernameChar(s[0]) && MatchesClassStar(s[1..])
  }

  lemma {:induction false} ClassStarSpec(s: string)
    ensures MatchesClassStar(s) <==> forall i :: 0 <= i < |s| ==> IsUsernameChar(s[i])
  {
    if s != [] {
      ClassStarSpec(s[1..]);
      assert forall i :: 1 <= i < |s| ==> s[i] == s[1..][i - 1];
    }
  }

  // ---------------------------------------------------------------------
  // The decision.

  /** fullName === user?.profile.full_name && username === user?.profile.username.
      Strict equality: a string never equals a null or undefined stored name,
      not even "". */
  function Unchanged(user: Option<Profile>, fullName: string, username: string): (b: bool)
    ensures b ==> user.Some? && user.value.fullName.Some? && user.value.username.Some?
    ensures user.Some? && (user.value.fullName.None? || user.value.username.None?) ==> !b
    ensures user.Some? && user.value.fullName.Some? && user.value.username.Some? ==>
              (b <==> fullName == user.value.fullName.value && username == user.value.username.value)
  {
    user.Some? && user.value.fullName == Some(fullName) && user.value.username == Some(username)
  }

  /** Which way handleUpdateProfile goes. Without a user, user.id throws
      inside the try block, which is the Crashed path. */
  function Decide(user: Option<Profile>, fullName: string, username: string, reply: UpdateReply): (d: Decision)
    ensures d == NothingChanged <==> Unchanged(user, fullName, username)
    ensures d == BadUsername <==> !Unchanged(user, fullName, username) && !MatchesUsernamePattern(username)
    ensures d == Saved <==> !Unchanged(user, fullName, username) && MatchesUsernamePattern(username)
                            && user.Some? && reply.UpdateOk?
    ensures d == Rejected <==> !Unchanged(user, fullName, username) && MatchesUsernamePattern(username)
                               && user.Some? && reply.UpdateError?
    ensures d == Crashed <==> !Unchanged(user, fullName, username) && MatchesUsernamePattern(username)
                              && (user.None? || reply.UpdateThrows?)
  {
    if Unchanged(user, fullName, username) then NothingChanged
    else if !MatchesUsernamePattern(username) then BadUsername
    else if user.None? then Crashed
    else match reply
      case UpdateOk => Saved
      case UpdateError => Rejected
      case UpdateThrows => Crashed
  }

  /** The toasts a decision shows: one, except when nothing changed. */
  function ToastsOf(d: Decision): (r: seq<Toast>)
    ensures |r| <= 1
    ensures r == [] <==> d == NothingChanged
    ensures forall t :: t in r ==> (t.SuccessToast? <==> d == Saved)
  {
    match d
    case NothingChanged => []
    case BadUsername => [ErrorToast(InvalidUsername)]
    case Rejected => [ErrorToast(UsernameTaken)]
    case Saved => [SuccessToast(Updated)]
    case Crashed => [ErrorToast(UpdateCrashed)]
  }

  /** The unchanged check comes before validation: an unchanged username is
      never rejected, whatever it contains and whatever the database says. */
  lemma UnchangedNeverValidated(p: Profile, reply: UpdateReply)
    requires p.fullName.Some? && p.username.Some?
    ensures Decide(Some(p), p.fullName.value, p.username.value, reply) == NothingChanged
  {
  }

  /** Changing either field alone reaches validation and, with a valid
      username, the update. */
  lemma EitherChangeReachesUpdate(p: Profile, fullName: string, username: string, reply: UpdateReply)
    requires p.fullName != Some(fullName) || p.username != Some(username)
    requires MatchesUsernamePattern(username)
    ensures Decide(Some(p), fullName, username, reply) in {Saved, Rejected, Crashed}
  {
  }

  /** The edit dialog: its inputs, flags and the toasts shown so far. */
  class ProfileDialog {
    var user: Option<Profile>
    var fullName: string
    var username: string
    var loading: bool
    var isOpen: bool
    var toasts: seq<Toast>

    /** useState(user?.profile.full_name || "") and the like. */
    constructor (user: Option<Profile>)
      ensures this.user == user && !loading && !isOpen && toasts == []
      ensures fullName == (if user.Some? && !IsFalsy(user.value.fullName) then user.value.fullName.value else "")
      ensures username == (if user.Some? && !IsFalsy(user.value.username) then user.value.username.value else "")
    {
      this.user := user;
      fullName := if user.Some? && !IsFalsy(user.value.fullName) then user.value.fullName.value else "";
      username := if user.Some? && !IsFalsy(user.value.username) then user.value.username.value else "";
      loading := false;
      isOpen := false;
      toasts := [];
    }

    method SetOpen(open: bool)
      modifies this
      ensures isOpen == open
      ensures user == old(user) && fullName == old(fullName) && username == old(username)
      ensures loading == old(loading) && toasts == old(toasts)
    {
      isOpen := open;
    }

    method SetFullName(s: string)
      modifies this
      ensures fullName == s
      ensures user == old(user) && username == old(username) && loading == old(loading)
      ensures isOpen == old(isOpen) && toasts == old(toasts)
    {
      fullName := s;
    }

    method SetUsername(s: string)
      modifies this
      ensures username == s
      ensures user == old(user) && fullName == old(fullName) && loading == old(loading)
      ensures isOpen == old(isOpen) && toasts == old(toasts)
    {
      username := s;
    }

    /** handleUpdateProfile up to the await of the profiles update. The
        unchanged and pattern checks end it at once; so does a missing user,
        since user.id throws while the query is built. Otherwise the loading
        flag is set and the values the update is made with are returned. */
    method BeginUpdate() returns (pending: Option<PendingUpdate>)
      modifies this
      ensures Unchanged(old(user), old(fullName), old(username)) ==>
                pending.None? && !loading && !isOpen && toasts == old(toasts)
      ensures !Unchanged(old(user), old(fullName), old(username)) && !MatchesUsernamePattern(old(username)) ==>
                pending.None? && !loading && isOpen == old(isOpen) && toasts == old(toasts) + [ErrorToast(InvalidUsername)]
      ensures !Unchanged(old(user), old(fullName), old(username)) && MatchesUsernamePattern(old(username)) && old(user).None? ==>
                pending.None? && !loading && !isOpen && toasts == old(toasts) + [ErrorToast(UpdateCrashed)]
      ensures !Unchanged(old(user), old(fullName), old(username)) && MatchesUsernamePattern(old(username)) && old(user).Some? ==>
                && pending == Some(PendingUpdate(old(user).value.id, old(fullName), old(username)))
                && loading && isOpen == old(isOpen) && toasts == old(toasts)
      ensures user == old(user) && fullName == old(fullName) && username == old(username)
    {
      loading := true;
      if Unchanged(user, fullName, username) {
        loading := false;
        isOpen := false;
        pending := None;
        return;
      }
      if !MatchesUsernamePattern(username) {
        toasts := toasts + [ErrorToast(InvalidUsername)];
        loading := false;
        pending := None;
        return;
      }
      if user.None? {
        toasts := toasts + [ErrorToast(UpdateCrashed)];
        isOpen := false;
        loading := false;
        pending := None;
        return;
      }
      pending := Some(PendingUpdate(user.value.id, fullName, username));
    }

    /** handleUpdateProfile once the update has settled. A success refetches
        the user, whose profile then holds the names that were saved; the
        inputs keep whatever they hold by then. */
    method FinishUpdate(p: PendingUpdate, reply: UpdateReply)
      modifies this
      ensures reply.UpdateThrows? ==>
                toasts == old(toasts) + [ErrorToast(UpdateCrashed)] && !isOpen && user == old(user)
      ensures reply.UpdateError? ==>
                toasts == old(toasts) + [ErrorToast(UsernameTaken)] && isOpen == old(isOpen) && user == old(user)
      ensures reply.UpdateOk? ==>
                && toasts == old(toasts) + [SuccessToast(Updated)] && !isOpen
                && user == Some(Profile(p.userId, Some(p.fullName), Some(p.username)))
      ensures !loading && fullName == old(fullName) && username == old(username)
    {
      if reply.UpdateThrows? {
        toasts := toasts + [ErrorToast(UpdateCrashed)];
        isOpen := false;
        loading := false;
        return;
      }
      loading := false;
      if reply.UpdateError? {
        toasts := toasts + [ErrorToast(UsernameTaken)];
        return;
      }
      toasts := toasts + [SuccessToast(Updated)];
      user := Some(Profile(p.userId, Some(p.fullName), Some(p.username)));
      isOpen := false;
    }

    /** handleUpdateProfile run to completion with no other event in
        between. A successful update refetches the user, so the dialog's user
        afterwards carries the saved names. */
    method HandleUpdateProfile(reply: UpdateReply) returns (d: Decision)
      modifies this
      ensures d == Decide(old(user), old(fullName), old(username), reply)
      ensures !loading
      ensures isOpen == (if d in {BadUsername, Rejected} then old(isOpen) else false)
      ensures toasts == old(toasts) + ToastsOf(d)
      ensures fullName == old(fullName) && username == old(username)
      ensures user == (if d == Saved then Some(Profile(old(user).value.id, Some(fullName), Some(username))) else old(user))
    {
      d := Decide(user, fullName, username, reply);
      var pending := BeginUpdate();
      if pending.None? {
        return;
      }
      FinishUpdate(pending.value, reply);
    }
  }

  /** The username is edited again while the update with the first edit is
      pending. The stored profile gets the name captured when the handler
      ran, and the input keeps the newer text. */
  method TypingDuringUpdate(p: Profile, saved: string, typed: string)
    returns (stored: Option<string>, input: string)
    requires MatchesUsernamePattern(saved) && p.username != Some(saved)
    ensures stored == Some(saved) && input == typed
  {
    var dialog := new ProfileDialog(Some(p));
    dialog.SetUsername(saved);
    var pending := dialog.BeginUpdate();
    dialog.SetUsername(typed);
    dialog.FinishUpdate(pending.value, UpdateOk);
    stored := dialog.user.value.username;
    input := dialog.username;
  }
}
