/**
 * The account store of js/storage/user-storage.js (class UserStorage): the
 * list of registered users, the per-username login-attempt records that
 * throttle logins, and the session and token of the signed-in user. The
 * browser's local storage entries are the fields; clock readings arrive as
 * `now`, in milliseconds.
 */
module UserStore {
  import opened Wrappers

  /** 30 minutes: how long a block lasts and how long failed attempts are remembered. */
  const BlockWindowMs := 30 * 60 * 1000
  /** The attempt count at which a username is blocked. */
  const MaxAttempts := 5
  const DuplicateUsername := "username already exists"

  /** The fields a registration form supplies. */
  datatype NewUser = NewUser(username: string, password: string, email: string, fullname: string)

  /** A stored account: the form's fields plus the ones `addUser` adds. */
  datatype User = User(
    username: string, password: string, email: string, fullname: string,
    id: int, created: int, scores: seq<int>, lastLogin: Option<int>)

  /** The fields an `updateUser` call overwrites; None leaves a field alone. */
  datatype UserUpdate = UserUpdate(
    username: Option<string>, password: Option<string>, email: Option<string>,
    fullname: Option<string>, lastLogin: Option<Option<int>>)

  /** A login-attempt record. */
  datatype Attempt = Attempt(count: nat, lastAttempt: Option<int>, blocked: bool)

  /** The stored session: the user as read at login, and when it started. */
  datatype Session = Session(user: User, sessionStart: int)

  /** The token `generateToken` makes: `${username}-${Date.now()}`. */
  datatype Token = Token(username: string, issuedAt: int)

  const NoUpdate := UserUpdate(None, None, None, None, None)

  /** Everything the store keeps: its four local-storage entries. */
  datatype State = State(
    users: seq<User>, attempts: map<string, Attempt>, session: Option<Session>, token: Option<Token>)

  /** `{ ...u, ...upd }`. */
  function Merge(u: User, upd: UserUpdate): User {
    u.(username := upd.username.GetOr(u.username),
       password := upd.password.GetOr(u.password),
       email := upd.email.GetOr(u.email),
       fullname := upd.fullname.GetOr(u.fullname),
       lastLogin := upd.lastLogin.GetOr(u.lastLogin))
  }

  /** `users.findIndex(user => user.username === name)`, None for -1. */
  function IndexOf(users: seq<User>, name: string): (r: Option<nat>)
    ensures r.None? <==> forall i :: 0 <= i < |users| ==> users[i].username != name
    ensures r.Some? ==>
      r.value < |users| && users[r.value].username == name &&
      forall j :: 0 <= j < r.value ==> users[j].username != name
  {
    if users == [] then None
    else if users[0].username == name then Some(0)
    else match IndexOf(users[1..], name)
      case None => None
      case Some(i) => Some(i + 1)
  }

  predicate UniqueNames(users: seq<User>) {
    forall i, j :: 0 <= i < j < |users| ==> users[i].username != users[j].username
  }

  /** The attempt record kept for `name`, if any. */
  function Record(attempts: map<string, Attempt>, name: string): Option<Attempt> {
    if name in attempts then Some(attempts[name]) else None
  }

  /** A record whose last attempt lies more than the window before `now`. */
  predicate Stale(a: Attempt, now: int) {
    a.lastAttempt.Some? && now - a.lastAttempt.value > BlockWindowMs
  }

  /**
   * The record `recordLoginAttempt` leaves: a stale record starts over,
   * the count goes up by one, the time is `now`, and the record is blocked
   * from the fifth counted attempt on; a block inside the window stays.
   */
  function NextAttempt(prev: Option<Attempt>, now: int): (a: Attempt)
    ensures a.lastAttempt == Some(now)
    ensures prev.None? || Stale(prev.value, now) ==> a.count == 1 && !a.blocked
    ensures prev.Some? && !Stale(prev.value, now) ==>
      a.count == prev.value.count + 1 && (a.blocked <==> prev.value.blocked || a.count >= MaxAttempts)
  {
    var base := prev.GetOr(Attempt(0, None, false));
    var base := if Stale(base, now) then base.(count := 0, blocked := false) else base;
    var count := base.count + 1;
    Attempt(count, Some(now), if count >= MaxAttempts then true else base.blocked)
  }

  /** `new Date(lastAttempt)`: a missing time reads as the epoch. */
  function LastAttemptMs(a: Attempt): int {
    a.lastAttempt.GetOr(0)
  }

  /** A blocked record whose window has passed: `isUserBlocked` lifts it. */
  predicate BlockExpired(a: Attempt, now: int) {
    a.blocked && now - LastAttemptMs(a) > BlockWindowMs
  }

  /** What `isUserBlocked(name)` answers at `now`. */
  predicate IsBlocked(attempts: map<string, Attempt>, name: string, now: int) {
    name in attempts && attempts[name].blocked && !BlockExpired(attempts[name], now)
  }

  /**
   * The records after `isUserBlocked(name)`: an expired block is lifted and
   * its count cleared; nothing else changes.
   */
  function AfterBlockCheck(attempts: map<string, Attempt>, name: string, now: int): (r: map<string, Attempt>)
    ensures r.Keys == attempts.Keys
    ensures forall n :: n in attempts && n != name ==> r[n] == attempts[n]
    ensures IsBlocked(attempts, name, now) || name !in attempts ==> r == attempts
    ensures name in attempts ==> r[name].lastAttempt == attempts[name].lastAttempt
    ensures IsBlocked(r, name, now) == IsBlocked(attempts, name, now)
  {
    if name in attempts && BlockExpired(attempts[name], now)
    then attempts[name := attempts[name].(blocked := false, count := 0)]
    else attempts
  }

  /** Consecutive attempt times, none more than the window after the one before. */
  predicate Rapid(times: seq<int>) {
    forall k :: 0 < k < |times| ==> times[k] - times[k - 1] <= BlockWindowMs
  }

  /** The record after a run of failed logins at `times`, starting from no record. */
  function Replay(times: seq<int>): (a: Attempt)
    requires |times| > 0
    ensures a.lastAttempt == Some(times[|times| - 1])
  {
    if |times| == 1 then NextAttempt(None, times[0])
    else NextAttempt(Some(Replay(times[..|times| - 1])), times[|times| - 1])
  }

  /**
   * n failed logins in quick succession count n attempts, and the username
   * is blocked exactly when n reaches five.
   */
  lemma {:induction false} RapidFailuresBlock(times: seq<int>)
    requires |times| > 0 && Rapid(times)
    ensures Replay(times).count == |times|
    ensures Replay(times).blocked <==> |times| >= MaxAttempts
  {
    if |times| > 1 {
      var init := times[..|times| - 1];
      assert Rapid(init) by {
        forall k | 0 < k < |init| ensures init[k] - init[k - 1] <= BlockWindowMs {
          assert init[k] == times[k] && init[k - 1] == times[k - 1];
        }
      }
      RapidFailuresBlock(init);
    }
  }

  /**
   * Once its window has passed, a blocked username is let through, and the
   * next failed login starts counting from one again.
   */
  lemma BlockLapses(attempts: map<string, Attempt>, name: string, now: int)
    requires name in attempts && attempts[name].blocked && attempts[name].lastAttempt.Some?
    requires now - attempts[name].lastAttempt.value > BlockWindowMs
    ensures !IsBlocked(attempts, name, now)
    ensures NextAttempt(Some(AfterBlockCheck(attempts, name, now)[name]), now) == Attempt(1, Some(now), false)
  {
  }

  /*
   * The attempt records are one plain object indexed by username, so a
   * username that names a member of Object.prototype and has no record of
   * its own reads the inherited member instead of `undefined`. Such a value
   * is truthy, so no fresh record is made; its `count` is undefined and
   * `count++` leaves NaN; and the properties set on it are not the object's
   * own, so JSON.stringify drops them from the stored entry. What follows
   * models that path as written, next to the own-key model above.
   */

  /** The names Object.prototype gives every plain object. */
  const PrototypeMembers: set<string> := {
    "constructor", "hasOwnProperty", "isPrototypeOf", "propertyIsEnumerable",
    "toLocaleString", "toString", "valueOf", "__proto__",
    "__defineGetter__", "__defineSetter__", "__lookupGetter__", "__lookupSetter__"}

  /** A username whose lookup in the records reaches an inherited member. */
  predicate InheritedKey(attempts: map<string, Attempt>, name: string) {
    name in PrototypeMembers && name !in attempts
  }

  /**
   * The properties `recordLoginAttempt` sets on an inherited member: a
   * count that is None while it is undefined or NaN, the last attempt
   * time, and the blocked flag. They live on the shared prototype object,
   * so they last as long as the page does.
   */
  datatype Inherited = Inherited(count: Option<int>, lastAttempt: Option<int>, blocked: bool)

  /** An inherited member before any attempt touched it. */
  const Untouched := Inherited(None, None, false)

  /**
   * One `recordLoginAttempt` on an inherited member: a stale time resets
   * the count to a number; otherwise undefined or NaN plus one stays NaN,
   * and NaN >= 5 is false, so the flag is left as it was.
   */
  function InheritedAttempt(r: Inherited, now: int): (a: Inherited)
    ensures a.lastAttempt == Some(now)
    ensures r.lastAttempt.Some? && now - r.lastAttempt.value > BlockWindowMs ==>
      a.count == Some(1) && !a.blocked
    ensures !(r.lastAttempt.Some? && now - r.lastAttempt.value > BlockWindowMs) ==>
      && (r.count.None? ==> a.count.None? && a.blocked == r.blocked)
      && (r.count.Some? ==>
            a.count == Some(r.count.value + 1) && (a.blocked <==> r.blocked || a.count.value >= MaxAttempts))
  {
    var base := if r.lastAttempt.Some? && now - r.lastAttempt.value > BlockWindowMs
                then r.(count := Some(0), blocked := false) else r;
    var count := if base.count.Some? then Some(base.count.value + 1) else None;
    Inherited(count, Some(now), if count.Some? && count.value >= MaxAttempts then true else base.blocked)
  }

  /** The inherited member after a run of failed logins at `times`. */
  function InheritedReplay(times: seq<int>): (a: Inherited)
    requires |times| > 0
    ensures a.lastAttempt == Some(times[|times| - 1])
  {
    if |times| == 1 then InheritedAttempt(Untouched, times[0])
    else InheritedAttempt(InheritedReplay(times[..|times| - 1]), times[|times| - 1])
  }

  /**
   * What `isUserBlocked` answers for an inherited member: its flag, unless
   * the window since its last attempt has passed (a missing time makes an
   * invalid date, and a comparison with NaN is false).
   */
  predicate BlockedAsWritten(r: Inherited, now: int) {
    r.blocked && !(r.lastAttempt.Some? && now - r.lastAttempt.value > BlockWindowMs)
  }

  /** A quick run of failures on an inherited member never makes a number or a block. */
  lemma {:induction false} InheritedRunNeverBlocks(times: seq<int>)
    requires |times| > 0 && Rapid(times)
    ensures InheritedReplay(times).count.None? && !InheritedReplay(times).blocked
  {
    if |times| > 1 {
      var init := times[..|times| - 1];
      assert Rapid(init) by {
        forall k | 0 < k < |init| ensures init[k] - init[k - 1] <= BlockWindowMs {
          assert init[k] == times[k] && init[k - 1] == times[k - 1];
        }
      }
      InheritedRunNeverBlocks(init);
    }
  }

  /**
   * Five quick failed logins block a username with a record of its own,
   * but not one named after an Object.prototype member: as written, it is
   * never reported blocked, however often the password is guessed.
   */
  lemma LockoutBypassed(attempts: map<string, Attempt>, name: string, times: seq<int>)
    requires InheritedKey(attempts, name)
    requires |times| == MaxAttempts && Rapid(times)
    ensures IsBlocked(attempts[name := Replay(times)], name, times[|times| - 1])
    ensures !InheritedReplay(times).blocked
    ensures forall now :: !BlockedAsWritten(InheritedReplay(times), now)
  {
    RapidFailuresBlock(times);
    InheritedRunNeverBlocks(times);
  }

  class UserStorage {
    var users: seq<User>
    var attempts: map<string, Attempt>
    var session: Option<Session>
    var token: Option<Token>

    /** Usernames are unique. */
    ghost predicate Valid()
      reads this
    {
      UniqueNames(users)
    }

    function Snapshot(): State
      reads this
    {
      State(users, attempts, session, token)
    }

    /** A store on empty local storage (`initStorage`). */
    constructor ()
      ensures Valid() && users == [] && attempts == map[] && session == None && token == None
    {
      users := [];
      attempts := map[];
      session := None;
      token := None;
    }

    /** getUserByUsername(name): the first user with that name, or undefined. */
    function GetUserByUsername(name: string): (r: Option<User>)
      reads this
      ensures r.None? <==> forall i :: 0 <= i < |users| ==> users[i].username != name
      ensures r.Some? ==>
        exists i :: 0 <= i < |users| && users[i] == r.value && r.value.username == name &&
          forall j :: 0 <= j < i ==> users[j].username != name
    {
      match IndexOf(users, name)
      case None => None
      case Some(i) => Some(users[i])
    }

    /**
     * addUser(user): a taken username throws 'username already exists' and
     * stores nothing; otherwise the user is appended with id and creation
     * time `now`, no scores and no last login.
     */
    method AddUser(user: NewUser, now: int) returns (error: Option<string>)
      modifies this`users
      ensures old(IndexOf(users, user.username)).Some? ==>
        error == Some(DuplicateUsername) && users == old(users)
      ensures old(IndexOf(users, user.username)).None? ==>
        error == None &&
        users == old(users) + [User(user.username, user.password, user.email, user.fullname, now, now, [], None)]
      ensures old(Valid()) ==> Valid()
    {
      if GetUserByUsername(user.username).Some? {
        return Some(DuplicateUsername);
      }
      users := users + [User(user.username, user.password, user.email, user.fullname, now, now, [], None)];
      error := None;
    }

    /**
     * updateUser(name, updates): false and no change when nobody has that
     * name; otherwise the first match gets the given fields.
     */
    method UpdateUser(name: string, updates: UserUpdate) returns (ok: bool)
      modifies this`users
      ensures old(IndexOf(users, name)).None? ==> !ok && users == old(users)
      ensures old(IndexOf(users, name)).Some? ==>
        var i := old(IndexOf(users, name)).value;
        ok && users == old(users)[i := Merge(old(users)[i], updates)]
      ensures old(Valid()) && updates.username.None? ==> Valid()
    {
      var index := IndexOf(users, name);
      if index.None? {
        return false;
      }
      users := users[index.value := Merge(users[index.value], updates)];
      ok := true;
    }

    /**
     * setCurrentUser(user): stores the session and a token, then records
     * `now` as the user's last login.
     */
    method SetCurrentUser(user: User, now: int)
      modifies this`users, this`session, this`token
      ensures session == Some(Session(user, now)) && token == Some(Token(user.username, now))
      ensures IsUserLoggedIn()
      ensures old(IndexOf(users, user.username)).None? ==> users == old(users)
      ensures old(IndexOf(users, user.username)).Some? ==>
        var i := old(IndexOf(users, user.username)).value;
        users == old(users)[i := old(users)[i].(lastLogin := Some(now))]
      ensures old(Valid()) ==> Valid()
    {
      session := Some(Session(user, now));
      token := Some(Token(user.username, now));
      var _ := UpdateUser(user.username, NoUpdate.(lastLogin := Some(Some(now))));
    }

    /** getCurrentUser. */
    function GetCurrentUser(): Option<Session>
      reads this
    {
      session
    }

    /** logout: the session and the token are removed. */
    method Logout()
      modifies this`session, this`token
      ensures session == None && token == None && !IsUserLoggedIn()
    {
      session := None;
      token := None;
    }

    /** isUserLoggedIn: a token is stored (a token is never the empty string). */
    predicate IsUserLoggedIn()
      reads this
    {
      token.Some?
    }

    /**
     * recordLoginAttempt(name): the record for `name` becomes the next
     * attempt record and is returned; other usernames' records are kept.
     */
    method RecordLoginAttempt(name: string, now: int) returns (attempt: Attempt)
      modifies this`attempts
      ensures attempt == NextAttempt(Record(old(attempts), name), now)
      ensures attempts == old(attempts)[name := attempt]
    {
      var record := if name in attempts then attempts[name] else Attempt(0, None, false);
      if record.lastAttempt.Some? && now - record.lastAttempt.value > BlockWindowMs {
        record := record.(count := 0, blocked := false);
      }
      record := record.(count := record.count + 1);
      record := record.(lastAttempt := Some(now));
      if record.count >= MaxAttempts {
        record := record.(blocked := true);
      }
      attempts := attempts[name := record];
      attempt := record;
    }

    /**
     * isUserBlocked(name): false for an unknown name; an expired block is
     * lifted (count cleared) and reported false; otherwise the stored flag,
     * with nothing changed.
     */
    method IsUserBlocked(name: string, now: int) returns (blocked: bool)
      modifies this`attempts
      ensures blocked == IsBlocked(old(attempts), name, now)
      ensures attempts == AfterBlockCheck(old(attempts), name, now)
      ensures name !in old(attempts) ==> !blocked
      ensures name in old(attempts) && BlockExpired(old(attempts)[name], now) ==>
        !blocked && attempts[name] == old(attempts)[name].(blocked := false, count := 0)
      ensures name in old(attempts) && !BlockExpired(old(attempts)[name], now) ==>
        blocked == old(attempts)[name].blocked && attempts == old(attempts)
    {
      if name !in attempts {
        return false;
      }
      var record := attempts[name];
      if record.blocked && now - LastAttemptMs(record) > BlockWindowMs {
        attempts := attempts[name := record.(blocked := false, count := 0)];
        return false;
      }
      blocked := record.blocked;
    }
  }
}
