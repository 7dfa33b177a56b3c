/**
 * The `/api/login` POST handler: look the user up by name, compare the
 * password as plain text, and on success answer with the user's name and
 * set two http-only cookies, one holding a signed token. Signing is a
 * foreign call, so it is a parameter: the token is whatever `sign` returns
 * for the claims and the lifetime.
 */
module LoginRoute {
  import opened Wrappers

  /** A login principal: `_id`, `userName`, `Pwd`. */
  datatype User = User(id: nat, userName: string, pwd: string)

  /** What the token asserts. */
  datatype Claims = Claims(id: nat, userName: string)

  datatype Cookie = Cookie(name: string, value: string, httpOnly: bool)

  datatype LoginReply =
    | LoginError(error: string)
    | LoginOk(message: string, success: bool, userName: string, cookies: seq<Cookie>)

  const UserNotFound := "User not found"
  const IncorrectPassword := "Incorrect Password"
  const LoginSuccessful := "Login successful"
  /** The token lifetime, one day, in seconds. */
  const OneDay: nat := 86400

  /** The lookup by user name: the first user with that name. */
  function FindUser(users: seq<User>, userName: string): (r: Option<User>)
    ensures r.Some? <==> exists k | 0 <= k < |users| :: users[k].userName == userName
    ensures r.Some? ==> exists k | 0 <= k < |users| :: users[k] == r.value && r.value.userName == userName &&
                          forall j | 0 <= j < k :: users[j].userName != userName
  {
    if |users| == 0 then None
    else if users[0].userName == userName then Some(users[0])
    else
      var r := FindUser(users[1..], userName);
      assert forall k | 1 <= k < |users| :: users[k] == users[1..][k - 1];
      r
  }

  /** POST /api/login with a user name and a password in the body. */
  function Login(users: seq<User>, userName: string, pwd: string, sign: (Claims, nat) -> string): (r: LoginReply)
    ensures FindUser(users, userName).None? ==> r == LoginError(UserNotFound)
    ensures FindUser(users, userName).Some? && FindUser(users, userName).value.pwd != pwd ==>
              r == LoginError(IncorrectPassword)
    ensures r.LoginOk? <==> FindUser(users, userName).Some? && FindUser(users, userName).value.pwd == pwd
    ensures r.LoginOk? ==>
              var u := FindUser(users, userName).value;
              && r.success
              && r.userName == u.userName == userName
              && r.cookies == [Cookie("token", sign(Claims(u.id, u.userName), OneDay), true),
                               Cookie("userName", u.userName, true)]
  {
    var found := FindUser(users, userName);
    if found.None? then LoginError(UserNotFound)
    else
      var user := found.value;
      var validPassword := pwd == user.pwd;
      if !validPassword then LoginError(IncorrectPassword)
      else
        var tokenData := Claims(user.id, user.userName);
        var token := sign(tokenData, OneDay);
        LoginOk(LoginSuccessful, true, user.userName,
                [Cookie("token", token, true), Cookie("userName", user.userName, true)])
  }

  /** No two users share a name (the user schema does not enforce it). */
  predicate UniqueUserNames(users: seq<User>)
  {
    forall i, j | 0 <= i < j < |users| :: users[i].userName != users[j].userName
  }

  /** With unique names, login succeeds exactly when some stored user has
      both the given name and the given password. */
  lemma {:induction false} LoginSucceedsIffCredentialsMatch(users: seq<User>, userName: string, pwd: string,
                                                            sign: (Claims, nat) -> string)
    requires UniqueUserNames(users)
    ensures Login(users, userName, pwd, sign).LoginOk? <==>
              exists k | 0 <= k < |users| :: users[k].userName == userName && users[k].pwd == pwd
  {
    var found := FindUser(users, userName);
    if found.Some? {
      var k :| 0 <= k < |users| && users[k] == found.value && found.value.userName == userName;
      assert forall j | 0 <= j < |users| && users[j].userName == userName :: j == k;
    }
  }

  /** Without unique names only the first user of a name can log in: a later
      user with the same name is refused even with their own password. */
  lemma ShadowedUserRefused(users: seq<User>, i: nat, j: nat, sign: (Claims, nat) -> string)
    requires i < j < |users|
    requires users[i].userName == users[j].userName
    requires forall k | 0 <= k < i :: users[k].userName != users[i].userName
    requires users[i].pwd != users[j].pwd
    ensures Login(users, users[j].userName, users[j].pwd, sign) == LoginError(IncorrectPassword)
  {
    var found := FindUser(users, users[j].userName);
    var k :| 0 <= k < |users| && users[k] == found.value && found.value.userName == users[j].userName &&
             forall m | 0 <= m < k :: users[m].userName != users[j].userName;
    assert k == i;
  }
}
