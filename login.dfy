/**
  * Authentication: the username and password rules, the order in which the
  * login and registration handlers check their inputs, and the session
  * fields those handlers and logout set. The notices the handlers show are
  * returned as values.
  */
module Login {
  import opened Text
  import Settings
  import opened Store

  /** A validator's `(is_valid, error_message)` pair. */
  datatype Check = Check(ok: bool, message: string)

  /** The class `[a-zA-Z0-9_]`. */
  predicate UsernameChar(c: char) {
    IsLetter(c) || IsDigit(c) || c == '_'
  }

  /**
    * `re.match(r'^[a-zA-Z0-9_]+$', s)`: one or more class characters from
    * the start, then `$`, which matches at the end or before a final "\n".
    */
  predicate MatchesUsernamePattern(s: string) {
    var n := if s != [] && s[|s| - 1] == '\n' then |s| - 1 else |s|;
    n > 0 && forall i :: 0 <= i < n ==> UsernameChar(s[i])
  }

  const ShortUsername := "Username must be at least 3 characters long"
  const LongUsername := "Username must be less than 20 characters"
  const BadUsernameChars := "Username can only contain letters, numbers, and underscores"

  /** `validate_username`: the first failing rule's message, in the order length, length, characters. */
  function ValidateUsername(username: string): (r: Check)
    ensures r.ok <==> 3 <= |username| <= 20 && MatchesUsernamePattern(username)
    ensures r.ok ==> r.message == ""
    ensures |username| < 3 ==> r.message == ShortUsername
    ensures |username| > 20 ==> r.message == LongUsername
    ensures 3 <= |username| <= 20 && !MatchesUsernamePattern(username) ==> r.message == BadUsernameChars
  {
    if |username| < 3 then Check(false, ShortUsername)
    else if |username| > 20 then Check(false, LongUsername)
    else if !MatchesUsernamePattern(username) then Check(false, BadUsernameChars)
    else Check(true, "")
  }

  /**
    * The pattern's `$` lets one trailing newline through: a valid name of
    * at most 19 characters followed by "\n" is accepted, and exactly 20
    * characters is not too long.
    */
  lemma UsernameEdgeCases(name: string)
    requires 3 <= |name| <= 19
    requires forall i :: 0 <= i < |name| ==> UsernameChar(name[i])
    ensures ValidateUsername(name + "\n").ok
    ensures ValidateUsername(name + "_").ok
    ensures !ValidateUsername(name + "\n\n").ok
  {
    var s := name + "\n";
    assert forall i :: 0 <= i < |name| ==> s[i] == name[i];
    var t := name + "_";
    assert t[|t| - 1] == '_';
    assert forall i :: 0 <= i < |name| ==> t[i] == name[i];
    assert forall i :: 0 <= i < |t| ==> UsernameChar(t[i]);
    assert MatchesUsernamePattern(t);
    var u := name + "\n\n";
    assert u[|u| - 1] == '\n';
    assert u[|u| - 2] == '\n' && !UsernameChar(u[|u| - 2]);
  }

  const WeakPasswords := ["password", "123456", "admin", "user"]

  const ShortPassword := "Password must be at least 6 characters"
  const CommonPassword := "Password is too common. Please choose a stronger password."

  /** `validate_password_strength`: the length rule first, then the list of common passwords (ASCII case-insensitive). */
  function ValidatePasswordStrength(password: string): (r: Check)
    ensures r.ok <==> |password| >= Settings.PasswordMinLength && Lower(password) !in WeakPasswords
    ensures r.ok ==> r.message == ""
    ensures |password| < Settings.PasswordMinLength ==> r.message == ShortPassword
    ensures |password| >= Settings.PasswordMinLength && Lower(password) in WeakPasswords ==> r.message == CommonPassword
  {
    if |password| < Settings.PasswordMinLength then Check(false, ShortPassword)
    else if Lower(password) in WeakPasswords then Check(false, CommonPassword)
    else Check(true, "")
  }

  /**
    * "admin" and "user" are shorter than the minimum length, so the
    * common-password rule can only ever reject "password" and "123456"
    * (in any letter case).
    */
  lemma OnlyLongWeakPasswordsReachListCheck(password: string)
    requires |password| >= Settings.PasswordMinLength && Lower(password) in WeakPasswords
    ensures Lower(password) == "password" || Lower(password) == "123456"
    ensures !ValidatePasswordStrength(password).ok
  {
  }

  /** Something shown to the user by `st.error` or `st.success`. */
  datatype Notice = ErrorNotice(text: string) | SuccessNotice(text: string)

  const MissingCredentials := "❌ Please enter both username and password"
  const LoginSucceeded := "✅ Login successful!"
  const LoginRejected := "❌ Invalid credentials or insufficient permissions"
  const MissingFields := "❌ Please fill in all fields"
  const PasswordMismatch := "❌ Passwords do not match"
  const AccountCreated := "✅ Account created successfully! Please login."
  const UsernameTaken := "❌ Username already exists"

  /** The message of the registration length check, with the minimum written in. */
  function PasswordTooShortNotice(): string {
    "❌ Password must be at least " + NatToString(Settings.PasswordMinLength) + " characters"
  }

  /** One entry of the session's chat history: the question and the answer shown. */
  datatype Exchange = Exchange(message: string, response: string)

  /** `get_user_role`: the session's role when it is set and non-empty, "user" otherwise. */
  function RoleOrDefault(role: Option<string>): (r: string)
    ensures role.Some? && role.value != "" ==> r == role.value
    ensures role.None? || role.value == "" ==> r == "user"
  {
    if role.Some? && role.value != "" then role.value else "user"
  }

  /** The session fields the authentication code reads and writes. */
  class Session {
    var authenticated: bool
    var currentUser: Option<User>
    var userRole: Option<string>
    var chatHistory: seq<Exchange>

    /** A fresh session: nobody logged in, no history. */
    constructor ()
      ensures !authenticated && currentUser.None? && userRole.None? && chatHistory == []
    {
      authenticated := false;
      currentUser := None;
      userRole := None;
      chatHistory := [];
    }

    function IsAuthenticated(): bool
      reads this
    {
      authenticated
    }

    function GetUserRole(): (r: string)
      reads this
      ensures userRole.None? ==> r == "user"
      ensures userRole.Some? && userRole.value != "" ==> r == userRole.value
    {
      RoleOrDefault(userRole)
    }

    /**
      * `handle_login`: no lookup at all when a field is empty; otherwise
      * the session is opened only for a user whose credentials match and
      * whose stored role is the one the button asked for.
      */
    method HandleLogin(db: Database, username: string, password: string, expectedRole: string) returns (notice: Notice)
      modifies this
      ensures username == "" || password == "" ==> notice == ErrorNotice(MissingCredentials) && unchanged(this)
      ensures username != "" && password != "" ==>
        var found := db.VerifyUser(username, password);
        if found.Some? && found.value.role == expectedRole then
          && notice == SuccessNotice(LoginSucceeded)
          && authenticated && currentUser == found && userRole == Some(expectedRole)
          && chatHistory == old(chatHistory)
        else
          notice == ErrorNotice(LoginRejected) && unchanged(this)
    {
      if username == "" || password == "" {
        return ErrorNotice(MissingCredentials);
      }
      var user := db.VerifyUser(username, password);
      if user.Some? && user.value.role == expectedRole {
        authenticated := true;
        currentUser := user;
        userRole := Some(expectedRole);
        notice := SuccessNotice(LoginSucceeded);
      } else {
        notice := ErrorNotice(LoginRejected);
      }
    }

    /** `logout`: every session field back to its logged-out value, history cleared. */
    method Logout()
      modifies this
      ensures !authenticated && currentUser.None? && userRole.None? && chatHistory == []
      ensures !IsAuthenticated() && GetUserRole() == "user"
    {
      authenticated := false;
      currentUser := None;
      userRole := None;
      chatHistory := [];
    }

    /** `clear_chat_history` of the chat page: the history is emptied and the login stays as it was. */
    method ClearChatHistory()
      modifies this
      ensures chatHistory == []
      ensures authenticated == old(authenticated) && currentUser == old(currentUser) && userRole == old(userRole)
    {
      chatHistory := [];
    }
  }

  /**
    * `handle_registration`: empty fields, then mismatch, then the length
    * rule; `create_user` is called only when all three pass. The username
    * and password-strength validators are not consulted.
    */
  method HandleRegistration(db: Database, username: string, password: string, confirm: string, role: string)
    returns (notice: Notice)
    requires db.Valid()
    modifies db
    ensures db.Valid()
    ensures username == "" || password == "" || confirm == "" ==> notice == ErrorNotice(MissingFields) && unchanged(db)
    ensures username != "" && password != "" && confirm != "" && password != confirm ==>
      notice == ErrorNotice(PasswordMismatch) && unchanged(db)
    ensures username != "" && password != "" && confirm != "" && password == confirm && |password| < Settings.PasswordMinLength ==>
      notice == ErrorNotice(PasswordTooShortNotice()) && unchanged(db)
    ensures username != "" && password == confirm && |password| >= Settings.PasswordMinLength ==>
      && (FindUserByName(old(db.users), username).None? ==>
            notice == SuccessNotice(AccountCreated)
            && db.users == old(db.users) + [User(old(db.nextUserId), username, db.hash(password), role)])
      && (FindUserByName(old(db.users), username).Some? ==> notice == ErrorNotice(UsernameTaken) && db.users == old(db.users))
    ensures RegistrationGate(username, password, confirm).Some? ==>
      notice == ErrorNotice(RegistrationGate(username, password, confirm).value) && unchanged(db)
    ensures db.resources == old(db.resources) && db.permissions == old(db.permissions) && db.chats == old(db.chats)
  {
    if username == "" || password == "" || confirm == "" {
      return ErrorNotice(MissingFields);
    }
    if password != confirm {
      return ErrorNotice(PasswordMismatch);
    }
    if |password| < Settings.PasswordMinLength {
      return ErrorNotice(PasswordTooShortNotice());
    }
    var created := db.CreateUser(username, password, role);
    notice := if created then SuccessNotice(AccountCreated) else ErrorNotice(UsernameTaken);
  }

  /** The registration handler's three checks, in its order: the error it shows, or None when `create_user` is reached. */
  function RegistrationGate(username: string, password: string, confirm: string): (r: Option<string>)
    ensures r.None? <==> username != "" && password == confirm && |password| >= Settings.PasswordMinLength
  {
    if username == "" || password == "" || confirm == "" then Some(MissingFields)
    else if password != confirm then Some(PasswordMismatch)
    else if |password| < Settings.PasswordMinLength then Some(PasswordTooShortNotice())
    else None
  }

  /**
    * Registration does not apply the username rules: a name the username
    * validator rejects (too short, or with a space) still reaches
    * `create_user`, and so does a password on the common list.
    */
  lemma RegistrationIgnoresValidators()
    ensures RegistrationGate("ab", "secret1", "secret1").None? && !ValidateUsername("ab").ok
    ensures RegistrationGate("a b", "secret1", "secret1").None? && !ValidateUsername("a b").ok
    ensures RegistrationGate("alice", "password", "password").None? && !ValidatePasswordStrength("password").ok
  {
    var s := "a b";
    assert s[|s| - 1] == 'b' && s[1] == ' ' && !UsernameChar(s[1]);
    assert !MatchesUsernamePattern(s);
    assert Lower("password") == "password";
  }
}
