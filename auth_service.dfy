/**
 * Accounts (`src/main/java/com/phoenix/service/AuthService.java`):
 * registration with unique addresses, login, and the password-reset token
 * lifecycle (issue, single use, one-hour expiry).
 *
 * The password encoder and the JWT provider are function parameters; the
 * authentication manager's verdict is a boolean; "now" is a number of
 * seconds.
 */
module AuthService {
  import opened Wrappers
  import opened Text
  import opened Database

  /** How long a reset token stays valid, in seconds. */
  const ResetTokenLifetime: int := 3600

  datatype AuthResponse = AuthResponse(token: string, email: string, name: string, role: string)

  /** The role as responses report it: the enum name without its `ROLE_` prefix. */
  function RoleLabel(role: Role): (r: string)
    ensures "ROLE_" + r == RoleName(role)
  {
    match role
    case RoleUser => "USER"
    case RoleAdmin => "ADMIN"
  }

  /** The response both `register` and `login` build for a user. */
  function Respond(user: User, jwt: User -> string): (r: AuthResponse)
    ensures r.email == user.email && r.name == user.name && r.token == jwt(user)
    ensures "ROLE_" + r.role == RoleName(user.role)
  {
    AuthResponse(jwt(user), user.email, user.name, RoleLabel(user.role))
  }

  /** Adding a row whose address is not yet taken keeps the addresses unique. */
  lemma AddFreshKeepsUnique(users: seq<User>, user: User)
    requires FindByEmail(users, user.email).None?
    ensures UniqueEmails(users) ==> UniqueEmails(users + [user])
  {
    var after := users + [user];
    if UniqueEmails(users) {
      forall i, j | 0 <= i < j < |after|
        ensures after[i].email != after[j].email
      {
        if j == |users| {
          assert after[i] == users[i];
        } else {
          assert after[i] == users[i] && after[j] == users[j];
        }
      }
    }
  }

  /**
   * `register`: a taken address throws and adds nobody; otherwise a
   * `ROLE_USER` row with the encoded password is added.
   */
  method Register(db: Db, email: string, name: string, password: string,
                  encode: string -> string, jwt: User -> string) returns (r: Result<AuthResponse, Error>)
    modifies db`users
    ensures FindByEmail(old(db.users), email).Some? ==>
      r == Err(EmailAlreadyExists("Email already exists")) && db.users == old(db.users)
    ensures FindByEmail(old(db.users), email).None? ==>
      var user := User(email, name, RoleUser, encode(password));
      db.users == old(db.users) + [user] && r == Ok(Respond(user, jwt)) && r.value.role == "USER"
    ensures UniqueEmails(old(db.users)) ==> UniqueEmails(db.users)
  {
    if FindByEmail(db.users, email).Some? {
      return Err(EmailAlreadyExists("Email already exists"));
    }
    var user := User(email, name, RoleUser, encode(password));
    AddFreshKeepsUnique(db.users, user);
    db.users := db.users + [user];
    r := Ok(Respond(user, jwt));
  }

  /**
   * `login`: rejected credentials throw before anything else; an address with
   * no row throws; otherwise the stored user's response.
   */
  function Login(users: seq<User>, email: string, authenticated: bool, jwt: User -> string): (r: Result<AuthResponse, Error>)
    ensures !authenticated ==> r == Err(BadCredentials("Bad credentials"))
    ensures authenticated && FindByEmail(users, email).None? ==> r == Err(Runtime("User not found"))
    ensures r.Ok? ==> authenticated && exists i :: 0 <= i < |users| && users[i].email == email && r.value == Respond(users[i], jwt)
    ensures authenticated && FindByEmail(users, email).Some? ==> r == Ok(Respond(FindByEmail(users, email).value, jwt))
  {
    if !authenticated then Err(BadCredentials("Bad credentials"))
    else match FindByEmail(users, email)
      case None => Err(Runtime("User not found"))
      case Some(u) => Ok(Respond(u, jwt))
  }

  /** The reset tokens a user holds. */
  function TokensOf(tokens: map<string, ResetToken>, email: string): set<string> {
    set k | k in tokens && tokens[k].user == email
  }

  /**
   * The token table after `forgotPassword` for a known user: afterwards the
   * user holds exactly the new token, unused and expiring an hour on; other
   * users' tokens are untouched.
   */
  function IssueToken(tokens: map<string, ResetToken>, email: string, rawToken: string, now: int): (after: map<string, ResetToken>)
    ensures TokensOf(after, email) == {rawToken}
    ensures rawToken in after && after[rawToken] == ResetToken(email, now + ResetTokenLifetime, false)
    ensures forall k :: k in tokens && tokens[k].user != email && k != rawToken ==> k in after && after[k] == tokens[k]
  {
    var after := (map k | k in tokens && tokens[k].user != email :: tokens[k])[rawToken := ResetToken(email, now + ResetTokenLifetime, false)];
    assert rawToken in TokensOf(after, email);
    after
  }

  /**
   * `forgotPassword`: an unknown address changes nothing and does not fail;
   * a known one gets a fresh token, and the reset link that is mailed to it
   * is returned.
   */
  method ForgotPassword(db: Db, email: string, rawToken: string, now: int, frontendUrl: string) returns (link: Option<string>)
    modifies db`resetTokens
    ensures FindByEmail(db.users, email).None? ==> link == None && db.resetTokens == old(db.resetTokens)
    ensures FindByEmail(db.users, email).Some? ==>
      && db.resetTokens == IssueToken(old(db.resetTokens), email, rawToken, now)
      && link == Some(frontendUrl + "/reset-password?token=" + rawToken)
  {
    var user := FindByEmail(db.users, email);
    if user.None? {
      return None;
    }
    db.resetTokens := map k | k in db.resetTokens && db.resetTokens[k].user != user.value.email :: db.resetTokens[k];
    db.resetTokens := db.resetTokens[rawToken := ResetToken(user.value.email, now + ResetTokenLifetime, false)];
    link := Some(frontendUrl + "/reset-password?token=" + rawToken);
  }

  /** The checks of `resetPassword`, in order: known token, not yet used, not expired. Yields the token's user. */
  function CheckResetToken(tokens: map<string, ResetToken>, token: string, now: int): (r: Result<string, Error>)
    ensures token !in tokens ==> r == Err(Runtime("Invalid or expired reset token"))
    ensures token in tokens && tokens[token].used ==> r == Err(Runtime("Reset token has already been used"))
    ensures token in tokens && !tokens[token].used && tokens[token].expiresAt < now ==> r == Err(Runtime("Reset token has expired"))
    ensures r.Ok? <==> token in tokens && !tokens[token].used && now <= tokens[token].expiresAt
    ensures r.Ok? ==> r.value == tokens[token].user
  {
    if token !in tokens then Err(Runtime("Invalid or expired reset token"))
    else if tokens[token].used then Err(Runtime("Reset token has already been used"))
    else if tokens[token].expiresAt < now then Err(Runtime("Reset token has expired"))
    else Ok(tokens[token].user)
  }

  /** Every row with that address gets the new password; the rest are untouched. */
  function SetPassword(users: seq<User>, email: string, password: string): (r: seq<User>)
    ensures |r| == |users|
    ensures forall i :: 0 <= i < |users| ==>
      r[i] == if users[i].email == email then users[i].(password := password) else users[i]
  {
    if users == [] then []
    else
      var first := if users[0].email == email then users[0].(password := password) else users[0];
      [first] + SetPassword(users[1..], email, password)
  }

  /**
   * `resetPassword`: a failed check changes nothing; a passed one sets the
   * user's password to the encoded new one and marks the token used.
   */
  method ResetPassword(db: Db, token: string, newPassword: string, now: int, encode: string -> string)
    returns (r: Result<(), Error>)
    modifies db`users, db`resetTokens
    ensures CheckResetToken(old(db.resetTokens), token, now).Err? ==>
      && r == Err(CheckResetToken(old(db.resetTokens), token, now).error)
      && db.users == old(db.users) && db.resetTokens == old(db.resetTokens)
    ensures CheckResetToken(old(db.resetTokens), token, now).Ok? ==>
      && r == Ok(())
      && db.users == SetPassword(old(db.users), old(db.resetTokens)[token].user, encode(newPassword))
      && db.resetTokens == old(db.resetTokens)[token := old(db.resetTokens)[token].(used := true)]
  {
    if token !in db.resetTokens {
      return Err(Runtime("Invalid or expired reset token"));
    }
    var resetToken := db.resetTokens[token];
    if resetToken.used {
      return Err(Runtime("Reset token has already been used"));
    }
    if resetToken.expiresAt < now {
      return Err(Runtime("Reset token has expired"));
    }
    db.users := SetPassword(db.users, resetToken.user, encode(newPassword));
    db.resetTokens := db.resetTokens[token := resetToken.(used := true)];
    r := Ok(());
  }

  /** A token is good for one reset: after it succeeds, the same token is refused at any later time. */
  lemma TokenSingleUse(tokens: map<string, ResetToken>, token: string, now: int, later: int)
    requires CheckResetToken(tokens, token, now).Ok?
    ensures CheckResetToken(tokens[token := tokens[token].(used := true)], token, later)
      == Err(Runtime("Reset token has already been used"))
  {
  }

  /** A freshly issued token is accepted up to an hour after issue and refused after that. */
  lemma IssuedTokenLifetime(tokens: map<string, ResetToken>, email: string, rawToken: string, issued: int, now: int)
    ensures var after := IssueToken(tokens, email, rawToken, issued);
      (CheckResetToken(after, rawToken, now).Ok? <==> now <= issued + ResetTokenLifetime)
      && (CheckResetToken(after, rawToken, now).Ok? ==> CheckResetToken(after, rawToken, now).value == email)
  {
  }
}
