/**
 * js/auth/register.js: the registration page. It runs the form checks with
 * English messages, stores the hex SHA-256 digest of the password and moves
 * to the sign-in page.
 */
module Register {
  import Crypto
  import opened UserStore
  import opened Auth
  import Login

  const Messages := FormMessages(
    "Passwords do not match",
    "Password must contain at least 6 characters",
    "Username must contain at least 3 characters",
    "Invalid email address")

  const LoginPage := "login.html"

  /** The submit handler: the registration decision with the hashed password stored. */
  method Submit(store: UserStorage, f: Form, now: int, digest: string -> Crypto.Digest) returns (outcome: Outcome)
    modifies store`users
    ensures Registration(store.users, outcome) ==
      SignUp(old(store.users), f, Crypto.Hash(f.password, digest), Messages, LoginPage, now)
  {
    outcome := SubmitSignUp(store, f, Crypto.Hash(f.password, digest), Messages, LoginPage, now);
  }

  /**
   * This page and the hashing sign-in page fit together: whoever registers
   * here can then sign in there with the same password, unless the name is
   * blocked.
   */
  lemma RegisteredCanSignIn(s: State, f: Form, digest: string -> Crypto.Digest, joined: int, now: int)
    requires SignUp(s.users, f, Crypto.Hash(f.password, digest), Messages, LoginPage, joined).outcome.Redirect?
    requires !IsBlocked(s.attempts, f.username, now)
    ensures
      var registered := SignUp(s.users, f, Crypto.Hash(f.password, digest), Messages, LoginPage, joined).users;
      SignIn(s.(users := registered), f.username, Crypto.Hash(f.password, digest), Login.Messages, Login.HomePage, now).outcome
        == Redirect(Login.HomePage)
  {
    SignUpThenSignIn(s, f, Crypto.Hash(f.password, digest), Messages, LoginPage, Login.Messages, Login.HomePage, joined, now);
  }
}
