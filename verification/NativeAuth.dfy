/** authenticate_native: failed attempts, the lockout, and the session a login opens. Times are clock ticks. */
module NativeAuth {
  import opened Wrappers

  const TICKS := 1_000_000

  /** Seconds, as config.py accepts them in native_session mode. */
  datatype Settings = Settings(maxFailed: int, lockout: int, sessionTtl: int, idleTtl: int, touch: int) {
    predicate Accepted() {
      && 900 <= sessionTtl <= 86400
      && 300 <= idleTtl <= sessionTtl
      && 30 <= touch <= idleTtl
      && 3 <= maxFailed <= 20
      && 60 <= lockout <= 86400
    }
  }

  function Min(a: int, b: int): int {
    if a <= b then a else b
  }

  datatype Session = Session(lastSeenAt: int, expiresAt: int, idleExpiresAt: int, revokedAt: Option<int>)

  function NewSession(s: Settings, now: int): Session {
    var expires := now + s.sessionTtl * TICKS;
    Session(now, expires, Min(expires, now + s.idleTtl * TICKS), None)
  }

  /** The lockout fields of a credential. */
  datatype Lock = Lock(failed: int, until: Option<int>)

  predicate Locked(lock: Lock, now: int) {
    lock.until.Some? && now < lock.until.value
  }

  /** One login against a credential; `good`: the password, the credential and its membership are right. */
  datatype Login = Login(at: int, good: bool)

  function AfterFailure(s: Settings, lock: Lock, now: int): Lock {
    Lock(lock.failed + 1, if lock.failed + 1 >= s.maxFailed then Some(now + s.lockout * TICKS) else lock.until)
  }

  function After(s: Settings, lock: Lock, login: Login): Lock {
    if Locked(lock, login.at) then lock
    else if login.good then Lock(0, None)
    else AfterFailure(s, lock, login.at)
  }

  datatype Event = LoginSuccess | LoginRejected | LoginLocked | LoginRejectedLocked

  class Credential {
    var active: bool
    var failedAttempts: int
    var lockedUntil: Option<int>
    var lastLoginAt: Option<int>

    function State(): Lock
      reads this
    {
      Lock(failedAttempts, lockedUntil)
    }

    /** A login that found this credential. A session is opened exactly when the credential is not locked and
        everything about the login is right; only then do the counters go back to zero. */
    method Authenticate(s: Settings, now: int, passwordOk: bool, membershipOk: bool)
        returns (session: Option<Session>, event: Event)
      modifies this
      ensures active == old(active)
      ensures State() == After(s, old(State()), Login(now, passwordOk && old(active) && membershipOk))
      ensures session.Some? <==> !Locked(old(State()), now) && passwordOk && old(active) && membershipOk
      ensures session.Some? ==> session.value == NewSession(s, now)
      ensures lastLoginAt == if session.Some? then Some(now) else old(lastLoginAt)
      ensures event.LoginSuccess? <==> session.Some?
      ensures event.LoginRejectedLocked? <==> Locked(old(State()), now)
      ensures event.LoginLocked? <==> session.None? && !Locked(old(State()), now) && failedAttempts >= s.maxFailed
    {
      var locked := lockedUntil.Some? && now < lockedUntil.value;
      var valid := !locked && passwordOk && active && membershipOk;
      if !valid {
        if locked {
          return None, LoginRejectedLocked;
        }
        failedAttempts := failedAttempts + 1;
        if failedAttempts >= s.maxFailed {
          lockedUntil := Some(now + s.lockout * TICKS);
          return None, LoginLocked;
        }
        return None, LoginRejected;
      }
      failedAttempts, lockedUntil, lastLoginAt := 0, None, Some(now);
      var expires := now + s.sessionTtl * TICKS;
      session := Some(Session(now, expires, Min(expires, now + s.idleTtl * TICKS), None));
      event := LoginSuccess;
    }
  }

  // ----- how many passwords can be tried

  predicate Ordered(logins: seq<Login>, start: int, end: int) {
    if logins == [] then start <= end
    else start <= logins[0].at && Ordered(logins[1..], logins[0].at, end)
  }

  predicate AllBad(logins: seq<Login>) {
    forall l | l in logins :: !l.good
  }

  function Run(s: Settings, lock: Lock, logins: seq<Login>): Lock
    decreases |logins|
  {
    if logins == [] then lock else Run(s, After(s, lock, logins[0]), logins[1..])
  }

  /** The attempts whose password counts: those made while the credential is not locked. */
  function Evaluated(s: Settings, lock: Lock, logins: seq<Login>): nat
    decreases |logins|
  {
    if logins == [] then 0
    else
      (if Locked(lock, logins[0].at) then 0 else 1) + Evaluated(s, After(s, lock, logins[0]), logins[1..])
  }

  /** After `count` evaluated attempts since `start`, `rounds` lockouts have been served. */
  predicate Spent(s: Settings, lock: Lock, count: nat, rounds: nat, start: int, now: int) {
    && count <= s.maxFailed + rounds
    && (count > 0 ==> count <= lock.failed)
    && (lock.failed < s.maxFailed ==> rounds == 0)
    && (lock.failed >= s.maxFailed && count > 0 ==>
      lock.until.Some? && start + (rounds + 1) * (s.lockout * TICKS) <= lock.until.value <= now + s.lockout * TICKS)
    && (count == 0 ==> rounds == 0 && lock.failed >= 0)
  }

  lemma SpentStep(s: Settings, lock: Lock, login: Login, count: nat, rounds: nat, start: int, now: int)
      returns (rounds': nat)
    requires s.Accepted() && Spent(s, lock, count, rounds, start, now) && start <= now <= login.at
    requires !login.good && !Locked(lock, login.at)
    ensures Spent(s, After(s, lock, login), count + 1, rounds', start, login.at)
  {
    var period := s.lockout * TICKS;
    rounds' := if lock.failed >= s.maxFailed && count > 0 then rounds + 1 else 0;
    assert (rounds' + 1) * period == rounds' * period + period;
    if rounds' == 0 {
      assert rounds' * period == 0;
    }
  }

  lemma {:induction false} RoundsOf(s: Settings, lock: Lock, logins: seq<Login>, count: nat, rounds: nat, start: int,
                                    now: int, end: int) returns (rounds': nat)
    requires s.Accepted() && Spent(s, lock, count, rounds, start, now) && start <= now
    requires Ordered(logins, now, end) && AllBad(logins)
    ensures Spent(s, Run(s, lock, logins), count + Evaluated(s, lock, logins), rounds', start, end)
    decreases |logins|
  {
    if logins == [] {
      rounds' := rounds;
    } else {
      var login := logins[0];
      assert login in logins && forall l | l in logins[1..] :: l in logins;
      OrderedEnds(logins, now, end);
      if Locked(lock, login.at) {
        rounds' := RoundsOf(s, lock, logins[1..], count, rounds, start, login.at, end);
      } else {
        var next := SpentStep(s, lock, login, count, rounds, start, now);
        rounds' := RoundsOf(s, After(s, lock, login), logins[1..], count + 1, next, start, login.at, end);
      }
    }
  }

  lemma {:induction false} OrderedEnds(logins: seq<Login>, now: int, end: int)
    requires Ordered(logins, now, end)
    ensures now <= end
  {
    if logins != [] {
      OrderedEnds(logins[1..], logins[0].at, end);
    }
  }

  /** In any stretch of time without a successful login, whatever the credential's state at its start, at most
      maxFailed passwords are evaluated, and one more for every full lockout period. */
  lemma {:induction false} AttemptsAreBounded(s: Settings, lock: Lock, logins: seq<Login>, start: int, end: int)
    requires s.Accepted() && lock.failed >= 0 && Ordered(logins, start, end) && AllBad(logins)
    ensures Evaluated(s, lock, logins) <= s.maxFailed + (end - start) / (s.lockout * TICKS)
  {
    var rounds := RoundsOf(s, lock, logins, 0, 0, start, start, end);
    OrderedEnds(logins, start, end);
    var period := s.lockout * TICKS;
    if rounds > 0 {
      assert (rounds + 1) * period == rounds * period + period;
      Quotient(rounds, period, end - start);
    } else {
      Quotient(0, period, end - start);
    }
  }

  lemma Quotient(n: nat, period: int, span: int)
    requires period > 0 && n * period <= span
    ensures n <= span / period
  {
    var q := span / period;
    assert span < (q + 1) * period;
    if q + 1 <= n {
      MulMonotone(q + 1, n, period);
    }
  }

  lemma MulMonotone(a: int, b: int, period: nat)
    requires a <= b
    ensures a * period <= b * period
  {
    assert b * period - a * period == (b - a) * period;
  }

  // ----- the bound is reached

  /** The fastest attack: maxFailed attempts at once, and one at the end of every lockout. */
  function Burst(at: int, n: nat): seq<Login> {
    if n == 0 then [] else [Login(at, false)] + Burst(at, n - 1)
  }

  function Waits(at: int, period: int, n: nat): seq<Login>
    decreases n
  {
    if n == 0 then [] else [Login(at + period, false)] + Waits(at + period, period, n - 1)
  }

  lemma {:induction false} BurstFills(s: Settings, at: int, failed: nat, tail: seq<Login>)
    requires s.Accepted() && failed <= s.maxFailed
    ensures var left := s.maxFailed - failed;
      Evaluated(s, if left == 0 then Lock(failed, Some(at + s.lockout * TICKS)) else Lock(failed, None), Burst(at, left) + tail)
        == left + Evaluated(s, Lock(s.maxFailed, Some(at + s.lockout * TICKS)), tail)
    decreases s.maxFailed - failed
  {
    var left := s.maxFailed - failed;
    if left == 0 {
      assert Burst(at, left) + tail == tail;
    } else {
      assert (Burst(at, left) + tail)[1..] == Burst(at, left - 1) + tail;
      BurstFills(s, at, failed + 1, tail);
    }
  }

  lemma {:induction false} WaitsAreEvaluated(s: Settings, failed: int, at: int, n: nat)
    requires s.Accepted() && failed >= s.maxFailed
    ensures Evaluated(s, Lock(failed, Some(at + s.lockout * TICKS)), Waits(at, s.lockout * TICKS, n)) == n
    decreases n
  {
    if n > 0 {
      WaitsAreEvaluated(s, failed + 1, at + s.lockout * TICKS, n - 1);
      assert Waits(at, s.lockout * TICKS, n)[1..] == Waits(at + s.lockout * TICKS, s.lockout * TICKS, n - 1);
    }
  }

  lemma {:induction false} WaitsAreOrdered(at: int, period: int, n: nat)
    requires period >= 0
    ensures Ordered(Waits(at, period, n), at, at + n * period) && AllBad(Waits(at, period, n))
    decreases n
  {
    if n > 0 {
      WaitsAreOrdered(at + period, period, n - 1);
      assert at + period + (n - 1) * period == at + n * period;
    }
  }

  lemma {:induction false} BurstIsOrdered(at: int, n: nat, tail: seq<Login>, end: int)
    requires Ordered(tail, at, end) && AllBad(tail)
    ensures Ordered(Burst(at, n) + tail, at, end) && AllBad(Burst(at, n) + tail)
  {
    if n == 0 {
      assert Burst(at, n) + tail == tail;
    } else {
      BurstIsOrdered(at, n - 1, tail, end);
      assert (Burst(at, n) + tail)[1..] == Burst(at, n - 1) + tail;
    }
  }

  /** No smaller bound holds: for every number of lockout periods there is a run that reaches it. */
  lemma BoundIsReached(s: Settings, start: int, periods: nat) returns (logins: seq<Login>)
    requires s.Accepted()
    ensures Ordered(logins, start, start + periods * (s.lockout * TICKS)) && AllBad(logins)
    ensures Evaluated(s, Lock(0, None), logins) == s.maxFailed + periods
  {
    var tail := Waits(start, s.lockout * TICKS, periods);
    logins := Burst(start, s.maxFailed) + tail;
    WaitsAreOrdered(start, s.lockout * TICKS, periods);
    BurstIsOrdered(start, s.maxFailed, tail, start + periods * (s.lockout * TICKS));
    BurstFills(s, start, 0, tail);
    WaitsAreEvaluated(s, s.maxFailed, start, periods);
  }

  // ----- what the lockout fields remember

  /** The logins made while the credential is not locked. */
  function Tried(s: Settings, lock: Lock, logins: seq<Login>): seq<Login>
    decreases |logins|
  {
    if logins == [] then []
    else
      (if Locked(lock, logins[0].at) then [] else [logins[0]]) + Tried(s, After(s, lock, logins[0]), logins[1..])
  }

  /** The failures since the last success. */
  function FailuresSince(logins: seq<Login>): nat {
    if logins == [] || logins[|logins| - 1].good then 0 else 1 + FailuresSince(logins[..|logins| - 1])
  }

  lemma {:induction false} RunSnoc(s: Settings, lock: Lock, logins: seq<Login>, l: Login)
    ensures Run(s, lock, logins + [l]) == After(s, Run(s, lock, logins), l)
    ensures Tried(s, lock, logins + [l])
            == Tried(s, lock, logins) + if Locked(Run(s, lock, logins), l.at) then [] else [l]
    decreases |logins|
  {
    if logins == [] {
      assert (logins + [l])[1..] == [];
    } else {
      assert (logins + [l])[0] == logins[0] && (logins + [l])[1..] == logins[1..] + [l];
      RunSnoc(s, After(s, lock, logins[0]), logins[1..], l);
    }
  }

  /** The lockout fields that a series of tried logins leaves. */
  predicate Remembers(s: Settings, lock: Lock, tried: seq<Login>)
    requires s.maxFailed >= 1
  {
    && lock.failed == FailuresSince(tried)
    && lock.until ==
       if FailuresSince(tried) < s.maxFailed then None else Some(tried[|tried| - 1].at + s.lockout * TICKS)
  }

  /** Whatever logins a new credential has seen: the failures counted are those tried since the last success, and
      the credential is locked exactly for the lockout period after the latest of at least maxFailed of them. A
      login made meanwhile, right or wrong, leaves no trace, and neither do the failures before a success. */
  lemma {:induction false} LockIsHistory(s: Settings, logins: seq<Login>)
    requires s.maxFailed >= 1
    ensures Remembers(s, Run(s, Lock(0, None), logins), Tried(s, Lock(0, None), logins))
  {
    if logins != [] {
      var before, l := logins[..|logins| - 1], logins[|logins| - 1];
      assert logins == before + [l];
      LockIsHistory(s, before);
      RunSnoc(s, Lock(0, None), before, l);
      RemembersNext(s, Run(s, Lock(0, None), before), Tried(s, Lock(0, None), before), l);
    }
  }

  lemma {:induction false} RemembersNext(s: Settings, lock: Lock, tried: seq<Login>, l: Login)
    requires s.maxFailed >= 1 && Remembers(s, lock, tried)
    ensures Remembers(s, After(s, lock, l), tried + if Locked(lock, l.at) then [] else [l])
  {
    if Locked(lock, l.at) {
      assert tried + [] == tried;
    } else {
      assert (tried + [l])[..|tried|] == tried && (tried + [l])[|tried|] == l;
    }
  }

  /** A success gives back the full number of attempts: after it, the first maxFailed wrong passwords are all
      tried, and with the last of them, not before, the credential is locked for the lockout period. */
  lemma {:induction false} SuccessRestores(s: Settings, lock: Lock, at: int, logins: seq<Login>, t: int)
    requires s.maxFailed >= 1 && !Locked(lock, at) && AllBad(logins) && |logins| <= s.maxFailed
    ensures var restored := Run(s, lock, [Login(at, true)]);
      && Evaluated(s, restored, logins) == |logins|
      && (Locked(Run(s, restored, logins), t)
          <==> |logins| == s.maxFailed && t < logins[|logins| - 1].at + s.lockout * TICKS)
  {
    FreshAttempts(s, 0, logins, t);
  }

  lemma {:induction false} FreshAttempts(s: Settings, failed: nat, logins: seq<Login>, t: int)
    requires failed < s.maxFailed && AllBad(logins) && failed + |logins| <= s.maxFailed
    ensures Evaluated(s, Lock(failed, None), logins) == |logins|
    ensures Locked(Run(s, Lock(failed, None), logins), t)
            <==> failed + |logins| == s.maxFailed && t < logins[|logins| - 1].at + s.lockout * TICKS
    decreases |logins|
  {
    if logins != [] {
      var l, rest := logins[0], logins[1..];
      assert l in logins && forall r | r in rest :: r in logins;
      if failed + 1 < s.maxFailed {
        FreshAttempts(s, failed + 1, rest, t);
      } else {
        assert rest == [];
      }
    }
  }

  /** While the credential is locked, no login is tried and none changes anything. */
  lemma {:induction false} LockedIsDeaf(s: Settings, lock: Lock, logins: seq<Login>)
    requires forall l | l in logins :: Locked(lock, l.at)
    ensures Evaluated(s, lock, logins) == 0 && Run(s, lock, logins) == lock
    decreases |logins|
  {
    if logins != [] {
      assert logins[0] in logins && forall r | r in logins[1..] :: r in logins;
      LockedIsDeaf(s, lock, logins[1..]);
    }
  }
}
