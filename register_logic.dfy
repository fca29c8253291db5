/**
 * js/auth/register-logic.js: the registration page without hashing. It runs
 * the same form checks with Hebrew messages and stores the password as
 * typed.
 */
module RegisterLogic {
  import opened Wrappers
  import Crypto
  import opened UserStore
  import opened Auth
  import Login
  import LoginLogic

  const Messages := FormMessages(
    "הסיסמאות אינן תואמות",
    "הסיסמה חייבת להכיל לפחות 6 תווים",
    "שם המשתמש חייב להכיל לפחות 3 תווים",
    "כתובת האימייל אינה תקינה")

  const LoginPage := "login.html"

  /** The submit handler: the registration decision with the password stored as typed. */
  method Submit(store: UserStorage, f: Form, now: int) returns (outcome: Outcome)
    modifies store`users
    ensures Registration(store.users, outcome) == SignUp(old(store.users), f, f.password, Messages, LoginPage, now)
  {
    outcome := SubmitSignUp(store, f, f.password, Messages, LoginPage, now);
  }

  /** Whoever registers here can sign in on the page that also skips hashing. */
  lemma RegisteredCanSignIn(s: State, f: Form, joined: int, now: int)
    requires SignUp(s.users, f, f.password, Messages, LoginPage, joined).outcome.Redirect?
    requires !IsBlocked(s.attempts, f.username, now)
    ensures
      var registered := SignUp(s.users, f, f.password, Messages, LoginPage, joined).users;
      SignIn(s.(users := registered), f.username, f.password, LoginLogic.Messages, LoginLogic.GamesPage, now).outcome
        == Redirect(LoginLogic.GamesPage)
  {
    SignUpThenSignIn(s, f, f.password, Messages, LoginPage, LoginLogic.Messages, LoginLogic.GamesPage, joined, now);
  }

  /**
   * The plain record does not fit the hashing sign-in page: a password
   * stored as typed is compared with a 64-digit hex digest, so unless the
   * password itself has 64 characters the sign-in is refused.
   */
  lemma PlainRecordRefusedByHashedSignIn(s: State, f: Form, digest: string -> Crypto.Digest, joined: int, now: int)
    requires SignUp(s.users, f, f.password, Messages, LoginPage, joined).outcome.Redirect?
    requires |f.password| != 64
    ensures
      var registered := SignUp(s.users, f, f.password, Messages, LoginPage, joined).users;
      SignIn(s.(users := registered), f.username, Crypto.Hash(f.password, digest), Login.Messages, Login.HomePage, now)
        .outcome.Failed?
  {
    var registered := SignUp(s.users, f, f.password, Messages, LoginPage, joined).users;
    var hashed := Crypto.Hash(f.password, digest);
    RegisteredAtEnd(s.users, f, f.password, Messages, LoginPage, joined);
    assert |hashed| == 64;
    var r := SignIn(s.(users := registered), f.username, hashed, Login.Messages, Login.HomePage, now);
    assert !r.outcome.Redirect?;
  }
}
