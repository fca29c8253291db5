/**
 * js/auth/login-logic.js: the sign-in page without hashing. It compares the
 * typed password with the stored one as it is, shows Hebrew messages and
 * moves to the games page on success; it writes no cookie.
 */
module LoginLogic {
  import opened UserStore
  import opened Auth

  const Messages := LoginMessages(
    "החשבון חסום זמנית עקב ניסיונות כניסה מרובים. נסה שוב בעוד 30 דקות",
    "שם משתמש או סיסמה שגויים",
    "החשבון נחסם עקב ניסיונות כניסה מרובים. נסה שוב בעוד 30 דקות")

  const GamesPage := "../pages/games.html"

  /** The submit handler: the sign-in decision on the password as typed. */
  method Submit(store: UserStorage, username: string, password: string, now: int) returns (outcome: Outcome)
    modifies store
    ensures Step(store.Snapshot(), outcome) == SignIn(old(store.Snapshot()), username, password, Messages, GamesPage, now)
  {
    outcome := SubmitSignIn(store, username, password, Messages, GamesPage, now);
  }
}
