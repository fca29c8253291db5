/**
 * What the sign-in and registration forms of js/auth/ decide. Each page's
 * submit handler runs the same sequence of store calls; the pages differ
 * only in their messages, their redirect target, and whether the password
 * is hashed before it is stored or compared. `SignIn` and `SignUp` state
 * that sequence once, on the store's state; the methods below run it on a
 * live store.
 */
module Auth {
  import opened Wrappers
  import opened Text
  import opened UserStore

  /** A handler either shows an error message or navigates away. */
  datatype Outcome = Failed(message: string) | Redirect(location: string)

  /** The store after a sign-in attempt, and what the page shows. */
  datatype Step = Step(state: State, outcome: Outcome)

  /** The three messages a sign-in page can show. */
  datatype LoginMessages = LoginMessages(blocked: string, incorrect: string, nowBlocked: string)

  /**
   * The sign-in handler: a username blocked now is rejected before anything
   * else; an unknown username is rejected; a stored password different from
   * `presented` records one failed attempt and is rejected, with the "now
   * blocked" message when that attempt blocked the name; otherwise the user
   * becomes the current user and the page moves to `home`.
   */
  function SignIn(s: State, username: string, presented: string, m: LoginMessages, home: string, now: int): (r: Step)
    ensures IsBlocked(s.attempts, username, now) ==> r == Step(s, Failed(m.blocked))
    ensures r.outcome.Redirect? <==>
      && !IsBlocked(s.attempts, username, now)
      && IndexOf(s.users, username).Some?
      && s.users[IndexOf(s.users, username).value].password == presented
    ensures r.outcome.Redirect? ==>
      var u := s.users[IndexOf(s.users, username).value];
      && r.outcome == Redirect(home)
      && r.state.session == Some(Session(u, now)) && r.state.token == Some(Token(username, now))
      && r.state.users == s.users[IndexOf(s.users, username).value := u.(lastLogin := Some(now))]
      && r.state.attempts == AfterBlockCheck(s.attempts, username, now)
    ensures r.outcome.Failed? ==>
      r.state.users == s.users && r.state.session == s.session && r.state.token == s.token
    ensures !IsBlocked(s.attempts, username, now) && IndexOf(s.users, username).None? ==>
      r.outcome == Failed(m.incorrect) && r.state.attempts == AfterBlockCheck(s.attempts, username, now)
    ensures (!IsBlocked(s.attempts, username, now) && IndexOf(s.users, username).Some? &&
             s.users[IndexOf(s.users, username).value].password != presented) ==>
      var checked := AfterBlockCheck(s.attempts, username, now);
      var a := NextAttempt(Record(checked, username), now);
      r.state.attempts == checked[username := a] &&
      r.outcome == Failed(if a.blocked then m.nowBlocked else m.incorrect)
    ensures UniqueNames(s.users) ==> UniqueNames(r.state.users)
  {
    var checked := AfterBlockCheck(s.attempts, username, now);
    if IsBlocked(s.attempts, username, now) then Step(s, Failed(m.blocked))
    else match IndexOf(s.users, username)
      case None => Step(s.(attempts := checked), Failed(m.incorrect))
      case Some(i) =>
        var u := s.users[i];
        if u.password != presented then
          var a := NextAttempt(Record(checked, username), now);
          Step(s.(attempts := checked[username := a]), Failed(if a.blocked then m.nowBlocked else m.incorrect))
        else
          Step(State(s.users[i := u.(lastLogin := Some(now))], checked, Some(Session(u, now)), Some(Token(username, now))),
               Redirect(home))
  }

  /**
   * An unknown username and a wrong password that does not block the name
   * get the same message, so the page does not reveal which names exist.
   */
  lemma UnknownLooksLikeWrong(s: State, unknown: string, known: string, presented: string, m: LoginMessages, home: string, now: int)
    requires !IsBlocked(s.attempts, unknown, now) && IndexOf(s.users, unknown).None?
    requires !IsBlocked(s.attempts, known, now) && IndexOf(s.users, known).Some?
    requires s.users[IndexOf(s.users, known).value].password != presented
    requires !NextAttempt(Record(AfterBlockCheck(s.attempts, known, now), known), now).blocked
    ensures SignIn(s, unknown, presented, m, home, now).outcome == SignIn(s, known, presented, m, home, now).outcome
  {
  }

  /** The store after failed sign-ins as `username` at each of `times` in turn. */
  function FailedSignIns(s: State, username: string, presented: string, m: LoginMessages, home: string, times: seq<int>): State {
    if times == [] then s
    else SignIn(FailedSignIns(s, username, presented, m, home, times[..|times| - 1]), username, presented, m, home, times[|times| - 1]).state
  }

  /**
   * Up to five wrong passwords for a registered name, each within 30
   * minutes of the one before, leave exactly the record that that run of
   * `recordLoginAttempt` calls builds: one attempt counted per sign-in.
   */
  lemma {:induction false} FailuresAreCounted(s: State, username: string, presented: string, m: LoginMessages, home: string, times: seq<int>)
    requires IndexOf(s.users, username).Some? && s.users[IndexOf(s.users, username).value].password != presented
    requires username !in s.attempts
    requires 1 <= |times| <= MaxAttempts && Rapid(times)
    ensures FailedSignIns(s, username, presented, m, home, times).users == s.users
    ensures Record(FailedSignIns(s, username, presented, m, home, times).attempts, username) == Some(Replay(times))
  {
    var init := times[..|times| - 1];
    var last := times[|times| - 1];
    if |init| > 0 {
      assert Rapid(init) by {
        forall k | 0 < k < |init| ensures init[k] - init[k - 1] <= BlockWindowMs {
          assert init[k] == times[k] && init[k - 1] == times[k - 1];
        }
      }
      FailuresAreCounted(s, username, presented, m, home, init);
      RapidFailuresBlock(init);
      var before := FailedSignIns(s, username, presented, m, home, init);
      assert !IsBlocked(before.attempts, username, last);
    }
  }

  /**
   * After five quick wrong passwords the fifth is told the account is now
   * blocked, and until 30 minutes after it every sign-in as that name, even
   * with the right password, is rejected as blocked and changes nothing.
   */
  lemma LockedOut(s: State, username: string, wrong: string, any: string, m: LoginMessages, home: string, times: seq<int>, later: int)
    requires IndexOf(s.users, username).Some? && s.users[IndexOf(s.users, username).value].password != wrong
    requires username !in s.attempts
    requires |times| == MaxAttempts && Rapid(times)
    requires later - times[MaxAttempts - 1] <= BlockWindowMs
    ensures SignIn(FailedSignIns(s, username, wrong, m, home, times[..MaxAttempts - 1]), username, wrong, m, home, times[MaxAttempts - 1]).outcome == Failed(m.nowBlocked)
    ensures var after := FailedSignIns(s, username, wrong, m, home, times);
      SignIn(after, username, any, m, home, later) == Step(after, Failed(m.blocked))
  {
    FailuresAreCounted(s, username, wrong, m, home, times);
    RapidFailuresBlock(times);
    var init := times[..MaxAttempts - 1];
    assert Rapid(init) by {
      forall k | 0 < k < |init| ensures init[k] - init[k - 1] <= BlockWindowMs {
        assert init[k] == times[k] && init[k - 1] == times[k - 1];
      }
    }
    FailuresAreCounted(s, username, wrong, m, home, init);
    RapidFailuresBlock(init);
  }

  /** The fields of a registration form. */
  datatype Form = Form(username: string, password: string, confirmPassword: string, email: string, fullname: string)

  /** The four messages a registration page can show for a bad form. */
  datatype FormMessages = FormMessages(mismatch: string, shortPassword: string, shortUsername: string, badEmail: string)

  const MinPasswordLength := 6
  const MinUsernameLength := 3

  /** `[^\s@]`: one character of the email pattern's three runs. */
  predicate EmailChar(c: char) {
    !IsSpace(c) && c != '@'
  }

  /** `[^\s@]+`. */
  predicate EmailRun(s: string) {
    |s| > 0 && forall i :: 0 <= i < |s| ==> EmailChar(s[i])
  }

  /** The strings `/^[^\s@]+@[^\s@]+\.[^\s@]+$/` matches. */
  ghost predicate MatchesEmailPattern(e: string) {
    exists local, host, top :: EmailRun(local) && EmailRun(host) && EmailRun(top) && e == local + "@" + host + "." + top
  }

  /**
   * An '@' at `at`, not first, and a '.' at `dot`, neither right after the
   * '@' nor last; every other character is neither white space nor '@'.
   */
  predicate EmailShape(e: string, at: nat, dot: nat) {
    && 0 < at && at + 1 < dot && dot + 1 < |e|
    && e[at] == '@' && e[dot] == '.'
    && forall j | 0 <= j < |e| :: j != at ==> EmailChar(e[j])
  }

  /** `emailRegex.test(email)`, by positions. */
  predicate IsValidEmail(e: string) {
    exists at: nat, dot: nat | at < dot < |e| :: EmailShape(e, at, dot)
  }

  /** The positional test accepts exactly the strings the pattern matches. */
  lemma EmailPattern(e: string)
    ensures IsValidEmail(e) <==> MatchesEmailPattern(e)
  {
    if IsValidEmail(e) {
      var at: nat, dot: nat :| at < dot < |e| && EmailShape(e, at, dot);
      EmailShapeMatches(e, at, dot);
    }
    if MatchesEmailPattern(e) {
      var local, host, top :| EmailRun(local) && EmailRun(host) && EmailRun(top) && e == local + "@" + host + "." + top;
      PatternHasShape(e, local, host, top);
    }
  }

  lemma EmailShapeMatches(e: string, at: nat, dot: nat)
    requires EmailShape(e, at, dot)
    ensures MatchesEmailPattern(e)
  {
    var local, host, top := e[..at], e[at + 1..dot], e[dot + 1..];
    assert forall i :: 0 <= i < |local| ==> local[i] == e[i];
    assert forall i :: 0 <= i < |host| ==> host[i] == e[at + 1 + i];
    assert forall i :: 0 <= i < |top| ==> top[i] == e[dot + 1 + i];
    assert EmailRun(local) && EmailRun(host) && EmailRun(top);
    assert e == local + "@" + host + "." + top;
  }

  lemma PatternHasShape(e: string, local: string, host: string, top: string)
    requires EmailRun(local) && EmailRun(host) && EmailRun(top) && e == local + "@" + host + "." + top
    ensures EmailShape(e, |local|, |local| + 1 + |host|)
  {
    var at, dot := |local|, |local| + 1 + |host|;
    forall j | 0 <= j < |e| && j != at
      ensures EmailChar(e[j])
    {
      if j < at {
        assert e[j] == local[j];
      } else if j < dot {
        assert e[j] == host[j - at - 1];
      } else if j > dot {
        assert e[j] == top[j - dot - 1];
      }
    }
  }

  /**
   * The checks of a registration handler, in order; the first that fails
   * gives the message. Lengths are JavaScript lengths (UTF-16 code units)
   * and the bounds are strict.
   */
  function Validate(m: FormMessages, f: Form): (r: Option<string>)
    ensures r == None <==>
      && f.password == f.confirmPassword
      && Utf16Length(f.password) >= MinPasswordLength
      && Utf16Length(f.username) >= MinUsernameLength
      && IsValidEmail(f.email)
    ensures f.password != f.confirmPassword ==> r == Some(m.mismatch)
    ensures f.password == f.confirmPassword && Utf16Length(f.password) < MinPasswordLength ==>
      r == Some(m.shortPassword)
    ensures (f.password == f.confirmPassword && Utf16Length(f.password) >= MinPasswordLength &&
             Utf16Length(f.username) < MinUsernameLength) ==> r == Some(m.shortUsername)
    ensures (f.password == f.confirmPassword && Utf16Length(f.password) >= MinPasswordLength &&
             Utf16Length(f.username) >= MinUsernameLength && !IsValidEmail(f.email)) ==> r == Some(m.badEmail)
  {
    if f.password != f.confirmPassword then Some(m.mismatch)
    else if Utf16Length(f.password) < MinPasswordLength then Some(m.shortPassword)
    else if Utf16Length(f.username) < MinUsernameLength then Some(m.shortUsername)
    else if !IsValidEmail(f.email) then Some(m.badEmail)
    else None
  }

  /** A six-character password and a three-character username are long enough. */
  lemma BoundsAreInclusive(m: FormMessages)
    ensures Validate(m, Form("abc", "secret", "secret", "a@b.co", "")) == None
    ensures Validate(m, Form("ab", "secret", "secret", "a@b.co", "")) == Some(m.shortUsername)
    ensures Validate(m, Form("abc", "short", "short", "a@b.co", "")) == Some(m.shortPassword)
  {
    SampleEmail();
    assert Utf16Length("abc") == 3 && Utf16Length("ab") == 2;
    assert Utf16Length("secret") == 6 && Utf16Length("short") == 5;
  }

  /** `a@b.co` passes the email check. */
  lemma SampleEmail()
    ensures IsValidEmail("a@b.co")
  {
    assert EmailShape("a@b.co", 1, 3);
  }

  /** The store's users after a registration, and what the page shows. */
  datatype Registration = Registration(users: seq<User>, outcome: Outcome)

  /**
   * The registration handler: a bad form stores nothing and shows the
   * first failing check; a taken username stores nothing and shows the
   * store's error; otherwise one user is added with `stored` as its
   * password and the page moves to `next`.
   */
  function SignUp(users: seq<User>, f: Form, stored: string, m: FormMessages, next: string, now: int): (r: Registration)
    ensures Validate(m, f).Some? ==> r == Registration(users, Failed(Validate(m, f).value))
    ensures Validate(m, f).None? && IndexOf(users, f.username).Some? ==>
      r == Registration(users, Failed(DuplicateUsername))
    ensures r.outcome.Redirect? <==> Validate(m, f).None? && IndexOf(users, f.username).None?
    ensures r.outcome.Redirect? ==>
      && r.outcome == Redirect(next)
      && r.users == users + [User(f.username, stored, f.email, f.fullname, now, now, [], None)]
    ensures UniqueNames(users) ==> UniqueNames(r.users)
  {
    var error := Validate(m, f);
    if error.Some? then Registration(users, Failed(error.value))
    else if IndexOf(users, f.username).Some? then Registration(users, Failed(DuplicateUsername))
    else Registration(users + [User(f.username, stored, f.email, f.fullname, now, now, [], None)], Redirect(next))
  }

  /**
   * Registering and then signing in round-trip: after a successful
   * registration, signing in with the same stored credential succeeds,
   * unless earlier failures have the name blocked.
   */
  lemma SignUpThenSignIn(s: State, f: Form, stored: string, fm: FormMessages, next: string,
                         lm: LoginMessages, home: string, joined: int, now: int)
    requires SignUp(s.users, f, stored, fm, next, joined).outcome.Redirect?
    requires !IsBlocked(s.attempts, f.username, now)
    ensures SignIn(s.(users := SignUp(s.users, f, stored, fm, next, joined).users),
                   f.username, stored, lm, home, now).outcome == Redirect(home)
  {
    RegisteredAtEnd(s.users, f, stored, fm, next, joined);
  }

  /**
   * After a successful registration the name leads to the new record, the
   * last one, which holds the stored credential.
   */
  lemma RegisteredAtEnd(users: seq<User>, f: Form, stored: string, fm: FormMessages, next: string, joined: int)
    requires SignUp(users, f, stored, fm, next, joined).outcome.Redirect?
    ensures var r := SignUp(users, f, stored, fm, next, joined).users;
      IndexOf(r, f.username) == Some(|users|) && r[|users|].password == stored
  {
    var r := SignUp(users, f, stored, fm, next, joined).users;
    var last := |users|;
    assert r[last].username == f.username && r[last].password == stored;
    assert forall i :: 0 <= i < last ==> r[i].username != f.username by {
      assert forall i :: 0 <= i < last ==> r[i] == users[i];
    }
  }

  /** Runs the sign-in handler's store calls. */
  method SubmitSignIn(store: UserStorage, username: string, presented: string, m: LoginMessages, home: string, now: int)
    returns (outcome: Outcome)
    modifies store
    ensures Step(store.Snapshot(), outcome) == SignIn(old(store.Snapshot()), username, presented, m, home, now)
  {
    var blocked := store.IsUserBlocked(username, now);
    if blocked {
      return Failed(m.blocked);
    }
    var user := store.GetUserByUsername(username);
    if user.None? {
      return Failed(m.incorrect);
    }
    if user.value.password != presented {
      var attempt := store.RecordLoginAttempt(username, now);
      return Failed(if attempt.blocked then m.nowBlocked else m.incorrect);
    }
    store.SetCurrentUser(user.value, now);
    outcome := Redirect(home);
  }

  /** Runs the registration handler's checks and its `addUser` call. */
  method SubmitSignUp(store: UserStorage, f: Form, stored: string, m: FormMessages, next: string, now: int)
    returns (outcome: Outcome)
    modifies store`users
    ensures Registration(store.users, outcome) == SignUp(old(store.users), f, stored, m, next, now)
  {
    var error := Validate(m, f);
    if error.Some? {
      return Failed(error.value);
    }
    var failure := store.AddUser(NewUser(f.username, stored, f.email, f.fullname), now);
    if failure.Some? {
      return Failed(failure.value);
    }
    outcome := Redirect(next);
  }
}
