/**
 * js/auth/login.js: the cookie helpers and the sign-in handler that
 * compares the SHA-256 hex digest of the typed password with the stored
 * one and, on success, remembers the username in a cookie for seven days.
 */
module Login {
  import opened Wrappers
  import opened Text
  import Crypto
  import opened UserStore
  import opened Auth

  const Messages := LoginMessages(
    "The account is temporarily blocked due to multiple login attempts. Please try again in 30 minutes.",
    "Incorrect username or password.",
    "The account has been blocked due to multiple login attempts. Please try again in 30 minutes.")

  const HomePage := "/"
  const LastUserCookie := "lastSignedInUser"
  const CookieDays := 7
  const DayMs := 24 * 60 * 60 * 1000

  /** A cookie as `setCookie` writes it; its path is always '/'. */
  datatype Cookie = Cookie(name: string, value: string, expiresAt: int)

  /** setCookie(name, value, days): the pair, expiring `days` days after `now`. */
  function SetCookie(name: string, value: string, days: int, now: int): (c: Cookie)
    ensures c.name == name && c.value == value
    ensures c.expiresAt - now == days * 86400000
  {
    Cookie(name, value, now + days * DayMs)
  }

  /**
   * The string `setCookie` assigns to `document.cookie`:
   * `name=value; expires=<date>; path=/`, where `utc` stands for
   * `Date.prototype.toUTCString`.
   */
  function CookieText(c: Cookie, utc: int -> string): string {
    c.name + "=" + c.value + "; expires=" + utc(c.expiresAt) + "; path=/"
  }

  /** A `;`-separated segment that, trimmed, starts with `name=`. */
  predicate Names(segment: string, name: string) {
    StartsWith(Trim(segment), name + "=")
  }

  /** What follows `name=` in a segment that names `name`. */
  function ValueIn(segment: string, name: string): string
    requires Names(segment, name)
  {
    Trim(segment)[|name| + 1..]
  }

  /** Segment `i` is the first to name `name`. */
  predicate FirstNaming(segments: seq<string>, name: string, i: nat) {
    i < |segments| && Names(segments[i], name) && forall j :: 0 <= j < i ==> !Names(segments[j], name)
  }

  /**
   * The value getCookie finds among the segments: what follows `name=` in
   * the first segment that names it, or null.
   */
  function Lookup(segments: seq<string>, name: string): Option<string> {
    if segments == [] then None
    else if Names(segments[0], name) then Some(ValueIn(segments[0], name))
    else Lookup(segments[1..], name)
  }

  /**
   * Lookup finds nothing exactly when no segment names `name`, and
   * otherwise the value in the first segment that does.
   */
  lemma {:induction false} LookupFindsFirst(segments: seq<string>, name: string)
    ensures Lookup(segments, name).None? <==> forall i :: 0 <= i < |segments| ==> !Names(segments[i], name)
    ensures Lookup(segments, name).Some? ==>
      exists i: nat :: FirstNaming(segments, name, i) && Lookup(segments, name).value == ValueIn(segments[i], name)
  {
    if segments == [] {
    } else if Names(segments[0], name) {
      assert FirstNaming(segments, name, 0);
    } else {
      var tail := segments[1..];
      LookupFindsFirst(tail, name);
      if Lookup(tail, name).Some? {
        var i: nat :| FirstNaming(tail, name, i) && Lookup(tail, name).value == ValueIn(tail[i], name);
        forall j | 0 < j <= i ensures !Names(segments[j], name) {
          assert segments[j] == tail[j - 1];
        }
        assert segments[i + 1] == tail[i];
        assert FirstNaming(segments, name, i + 1);
      } else {
        forall j | 0 < j < |segments| ensures !Names(segments[j], name) {
          assert segments[j] == tail[j - 1];
        }
      }
    }
  }

  /** One step of the scan: segment `i` either names `name` or is passed over. */
  lemma LookupStep(segments: seq<string>, i: nat, name: string)
    requires i < |segments|
    ensures Lookup(segments[i..], name) ==
      if Names(segments[i], name) then Some(ValueIn(segments[i], name)) else Lookup(segments[i + 1..], name)
  {
    assert segments[i..][0] == segments[i];
    assert segments[i..][1..] == segments[i + 1..];
  }

  /**
   * getCookie(name) on the cookie string: splits it at ';', trims each
   * segment and returns the rest of the first one starting with `name=`.
   * (`substring(name.length + 1)` cuts exactly that prefix.)
   */
  method GetCookie(cookie: string, name: string) returns (value: Option<string>)
    ensures value == Lookup(Split(cookie, ';'), name)
  {
    var cookies := Split(cookie, ';');
    for i := 0 to |cookies|
      invariant Lookup(cookies[i..], name) == Lookup(cookies, name)
    {
      LookupStep(cookies, i, name);
      var c := Trim(cookies[i]);
      if StartsWith(c, name + "=") {
        return Some(ValueIn(cookies[i], name));
      }
    }
    assert cookies[|cookies|..] == [];
    value := None;
  }

  /**
   * A key free of '=' names the segment `key=v` for `name` only when it is
   * `name` itself: `named=...` is not read for `name`.
   */
  lemma OnlyWholeKeys(key: string, name: string, v: string)
    requires '=' !in key && '=' !in name
    ensures StartsWith(key + "=" + v, name + "=") <==> key == name
  {
    var s, p := key + "=" + v, name + "=";
    if StartsWith(s, p) {
      assert s[|name|] == p[|name|] == '=';
      assert forall j :: 0 <= j < |name| ==> s[j] == p[j] == name[j];
      assert s[|key|] == '=';
      assert |key| == |name|;
      assert key == s[..|name|] == name;
    }
    if key == name {
      assert s[..|p|] == p;
    }
  }

  lemma Reassociate<T>(a: seq<T>, b: seq<T>, c: seq<T>)
    ensures a + b + c == a + (b + c)
  {
  }

  lemma Regroup(pad: string, a: string, b: string, c: string)
    ensures pad + (a + b + c) + [] == pad + a + b + c
  {
  }

  /** A padded pair `name=value` names `name`, and its trimmed rest is `value`. */
  lemma PairReads(pad: string, name: string, value: string)
    requires AllSpace(pad) && Trimmed(name + "=" + value)
    ensures Names(pad + name + "=" + value, name)
    ensures Trim(pad + name + "=" + value)[|name| + 1..] == value
  {
    var pair := name + "=" + value;
    TrimPadded(pad, pair, []);
    Regroup(pad, name, "=", value);
    assert pair[..|name + "="|] == name + "=";
    assert pair[|name| + 1..] == value;
  }

  /** Segments that do not name `name` are passed over. */
  lemma {:induction false} LookupSkips(before: seq<string>, rest: seq<string>, name: string)
    requires forall k :: 0 <= k < |before| ==> !Names(before[k], name)
    ensures Lookup(before + rest, name) == Lookup(rest, name)
  {
    if before != [] {
      var all := before + rest;
      assert all[0] == before[0] && all[1..] == before[1..] + rest;
      assert !Names(all[0], name);
      LookupSkips(before[1..], rest, name);
    } else {
      assert before + rest == rest;
    }
  }

  /**
   * What `setCookie` writes reads back: for a name and value without ';'
   * and without white space at the ends of the pair, getCookie(name) on
   * the written string returns the value.
   */
  lemma CookieReadsBack(c: Cookie, utc: int -> string)
    requires ';' !in c.name && ';' !in c.value && ';' !in utc(c.expiresAt)
    requires Trimmed(c.name + "=" + c.value)
    ensures Lookup(Split(CookieText(c, utc), ';'), c.name) == Some(c.value)
  {
    var pair := c.name + "=" + c.value;
    var parts := [pair, " expires=" + utc(c.expiresAt), " path=/"];
    assert Join(parts, ';') == CookieText(c, utc) by {
      assert Join(parts[2..], ';') == " path=/";
      assert Join(parts[1..], ';') == parts[1] + ";" + " path=/";
    }
    assert ';' !in pair;
    assert ';' !in parts[1] && ';' !in parts[2];
    SplitJoin(parts, ';');
    PairReads([], c.name, c.value);
    assert [] + c.name + "=" + c.value == pair;
  }

  /**
   * The cookie `setCookie(name, value, days)` writes reads back through
   * getCookie(name): for a name, value and expiry date free of ';' and a
   * pair without white space at its ends, the value comes back.
   */
  lemma SetCookieReadsBack(name: string, value: string, days: int, now: int, utc: int -> string)
    requires ';' !in name && ';' !in value
    requires ';' !in utc(now + days * 86400000)
    requires Trimmed(name + "=" + value)
    ensures Lookup(Split(CookieText(SetCookie(name, value, days, now), utc), ';'), name) == Some(value)
  {
    var c := SetCookie(name, value, days, now);
    assert c.expiresAt == now + days * 86400000;
    CookieReadsBack(c, utc);
  }

  lemma SeparatorFree(before: seq<string>, seg: string, after: seq<string>)
    requires forall k :: 0 <= k < |before| ==> ';' !in before[k]
    requires forall k :: 0 <= k < |after| ==> ';' !in after[k]
    requires ';' !in seg
    ensures forall k :: 0 <= k < |before + [seg] + after| ==> ';' !in (before + [seg] + after)[k]
  {
    var segs := before + [seg] + after;
    forall k | 0 <= k < |segs| ensures ';' !in segs[k] {
      if k < |before| {
        assert segs[k] == before[k];
      } else if k > |before| {
        assert segs[k] == after[k - |before| - 1];
      }
    }
  }

  /**
   * In a cookie string `k1=v1; k2=v2; ...` the first pair for `name` wins:
   * pairs before it that do not name it and pairs after it do not matter.
   */
  lemma FirstPairWins(before: seq<string>, pad: string, name: string, value: string, after: seq<string>)
    requires forall k :: 0 <= k < |before| ==> ';' !in before[k] && !Names(before[k], name)
    requires forall k :: 0 <= k < |after| ==> ';' !in after[k]
    requires AllSpace(pad) && ';' !in pad + name + "=" + value
    requires Trimmed(name + "=" + value)
    ensures Lookup(Split(Join(before + [pad + name + "=" + value] + after, ';'), ';'), name) == Some(value)
  {
    var seg := pad + name + "=" + value;
    var rest := [seg] + after;
    SplitSegments(before, seg, after);
    Reassociate(before, [seg], after);
    LookupSkips(before, rest, name);
    PairFirst(pad, name, value, after);
  }

  /** Separator-free segments joined with ';' split back into themselves. */
  lemma SplitSegments(before: seq<string>, seg: string, after: seq<string>)
    requires forall k :: 0 <= k < |before| ==> ';' !in before[k]
    requires forall k :: 0 <= k < |after| ==> ';' !in after[k]
    requires ';' !in seg
    ensures Split(Join(before + [seg] + after, ';'), ';') == before + [seg] + after
  {
    SeparatorFree(before, seg, after);
    SplitJoin(before + [seg] + after, ';');
  }

  /** A padded pair for `name` at the front is the one read. */
  lemma PairFirst(pad: string, name: string, value: string, after: seq<string>)
    requires AllSpace(pad) && Trimmed(name + "=" + value)
    ensures Lookup([pad + name + "=" + value] + after, name) == Some(value)
  {
    PairReads(pad, name, value);
    assert ([pad + name + "=" + value] + after)[0] == pad + name + "=" + value;
  }

  /**
   * The submit handler: the sign-in decision with the hex SHA-256 digest of
   * the password as the value compared, then on success the
   * `lastSignedInUser` cookie for seven days and navigation to '/'.
   */
  method Submit(store: UserStorage, username: string, password: string, now: int, digest: string -> Crypto.Digest)
    returns (outcome: Outcome, cookie: Option<Cookie>)
    modifies store
    ensures Step(store.Snapshot(), outcome) ==
      SignIn(old(store.Snapshot()), username, Crypto.Hash(password, digest), Messages, HomePage, now)
    ensures cookie.Some? <==> outcome.Redirect?
    ensures cookie.Some? ==> cookie.value == SetCookie(LastUserCookie, username, CookieDays, now)
  {
    outcome := SubmitSignIn(store, username, Crypto.Hash(password, digest), Messages, HomePage, now);
    cookie := if outcome.Redirect? then Some(SetCookie(LastUserCookie, username, CookieDays, now)) else None;
  }
}
