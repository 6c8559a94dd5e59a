/** Local login with lockout: what one attempt does to a user's counter and lock,
    and how many wrong passwords any run of attempts can get counted. Password
    verification is a parameter; each attempt reads the clock twice. */
module Lockout {
  import opened Types

  const THRESHOLD: nat := 5
  const LOCKOUT_SECS: nat := 300

  datatype LocalUser = LocalUser(hash: string, disabled: bool, failedLogins: nat, lockedUntil: Option<nat>)

  datatype LoginResult = InvalidCredentials | DisabledUser | LockedOut | LoggedIn

  function NextFailureState(failed: nat, now: nat): (nat, Option<nat>) {
    if failed + 1 >= THRESHOLD then (0, Some(now + LOCKOUT_SECS)) else (failed + 1, None)
  }

  /** The login handler over the user table; `checkedAt` is the clock at the lock
      test and `recordedAt` the clock when a failure is recorded. */
  class LocalAuthenticator {
    var users: map<string, LocalUser>

    method RecordFailure(username: string, now: nat)
      requires username in users
      modifies this
      ensures users == old(users)[username := Failed(old(users)[username], now)]
    {
      var u := users[username];
      var next := NextFailureState(u.failedLogins, now);
      users := users[username := u.(failedLogins := next.0, lockedUntil := next.1)];
    }

    method Login(username: string, password: string, verify: (string, string) -> bool, checkedAt: nat, recordedAt: nat)
        returns (r: LoginResult)
      modifies this
      ensures username !in old(users) ==> users == old(users) && r == InvalidCredentials
      ensures username in old(users) ==>
        var u := old(users)[username];
        var a := Attempt(verify(password, u.hash), checkedAt, recordedAt);
        users == old(users)[username := After(u, a)] && r == Result(u, a)
    {
      if username !in users {
        return InvalidCredentials;
      }
      var u := users[username];
      assert users == users[username := u];
      if u.disabled {
        return DisabledUser;
      }
      if u.lockedUntil.Some? && u.lockedUntil.value > checkedAt {
        return LockedOut;
      }
      if !verify(password, u.hash) {
        RecordFailure(username, recordedAt);
        return InvalidCredentials;
      }
      users := users[username := u.(failedLogins := 0, lockedUntil := None)];
      return LoggedIn;
    }
  }

  // --- One user's history ---

  datatype Attempt = Attempt(correct: bool, checkedAt: nat, recordedAt: nat)

  predicate Locked(u: LocalUser, now: nat) {
    u.lockedUntil.Some? && u.lockedUntil.value > now
  }

  function Failed(u: LocalUser, now: nat): LocalUser {
    var next := NextFailureState(u.failedLogins, now);
    u.(failedLogins := next.0, lockedUntil := next.1)
  }

  function Result(u: LocalUser, a: Attempt): LoginResult {
    if u.disabled then DisabledUser
    else if Locked(u, a.checkedAt) then LockedOut
    else if a.correct then LoggedIn
    else InvalidCredentials
  }

  function After(u: LocalUser, a: Attempt): LocalUser {
    match Result(u, a)
    case InvalidCredentials => Failed(u, a.recordedAt)
    case LoggedIn => u.(failedLogins := 0, lockedUntil := None)
    case _ => u
  }

  function Run(u: LocalUser, attempts: seq<Attempt>): LocalUser {
    if attempts == [] then u
    else After(Run(u, attempts[..|attempts| - 1]), attempts[|attempts| - 1])
  }

  function ResultAt(u: LocalUser, attempts: seq<Attempt>, i: nat): LoginResult
    requires i < |attempts|
  {
    Result(Run(u, attempts[..i]), attempts[i])
  }

  /** Wrong passwords that were recorded as failures. */
  function Counted(u: LocalUser, attempts: seq<Attempt>): nat {
    if attempts == [] then 0
    else
      var n := |attempts| - 1;
      Counted(u, attempts[..n]) + if ResultAt(u, attempts, n).InvalidCredentials? then 1 else 0
  }

  /** One attempt after another on a clock that does not go back. */
  predicate Sequential(attempts: seq<Attempt>) {
    && (forall i | 0 <= i < |attempts| :: attempts[i].checkedAt <= attempts[i].recordedAt)
    && (forall i, j | 0 <= i < j < |attempts| :: attempts[i].recordedAt <= attempts[j].checkedAt)
  }

  predicate NoSuccess(u: LocalUser, attempts: seq<Attempt>) {
    forall i | 0 <= i < |attempts| :: !ResultAt(u, attempts, i).LoggedIn?
  }

  // --- What holds in every run ---

  /** The counter never reaches the threshold. */
  lemma {:induction false} CounterStaysBelow(u: LocalUser, attempts: seq<Attempt>)
    requires u.failedLogins < THRESHOLD
    ensures Run(u, attempts).failedLogins < THRESHOLD
  {
    if attempts != [] {
      CounterStaysBelow(u, attempts[..|attempts| - 1]);
    }
  }

  /** While a lock is in force attempts, right or wrong, leave everything as it is. */
  lemma {:induction false} LockedRunsChangeNothing(u: LocalUser, attempts: seq<Attempt>)
    requires forall i | 0 <= i < |attempts| :: Locked(u, attempts[i].checkedAt)
    ensures Run(u, attempts) == u && Counted(u, attempts) == 0
  {
    if attempts != [] {
      LockedRunsChangeNothing(u, attempts[..|attempts| - 1]);
    }
  }

  lemma {:induction false} RunConcat(u: LocalUser, a: seq<Attempt>, b: seq<Attempt>)
    ensures Run(u, a + b) == Run(Run(u, a), b)
  {
    if b == [] {
      assert a + b == a;
    } else {
      assert (a + b)[..|a + b| - 1] == a + b[..|b| - 1];
      RunConcat(u, a, b[..|b| - 1]);
    }
  }

  /** A disabled user is told so at every attempt, and nothing is recorded. */
  lemma {:induction false} DisabledStaysOut(u: LocalUser, attempts: seq<Attempt>, a: Attempt)
    requires u.disabled
    ensures Run(u, attempts) == u && Result(Run(u, attempts), a) == DisabledUser
  {
    if attempts != [] {
      DisabledStaysOut(u, attempts[..|attempts| - 1], a);
    }
  }

  predicate AllWrong(attempts: seq<Attempt>) {
    forall i | 0 <= i < |attempts| :: !attempts[i].correct
  }

  /** From a clean counter, up to four wrong passwords are only counted and the fifth
      locks for five minutes from its own recording. */
  lemma {:induction false} FifthLocks(u: LocalUser, wrong: seq<Attempt>)
    requires !u.disabled && u.failedLogins == 0 && u.lockedUntil == None
    requires AllWrong(wrong) && |wrong| <= 5
    ensures Run(u, wrong)
      == if |wrong| < 5 then u.(failedLogins := |wrong|)
         else u.(lockedUntil := Some(wrong[4].recordedAt + 300))
  {
    if wrong != [] {
      var n := |wrong| - 1;
      assert AllWrong(wrong[..n]);
      FifthLocks(u, wrong[..n]);
      assert !wrong[n].correct;
    }
  }

  /** A right password that is accepted wipes the slate: then four wrong ones, whenever
      they come, still let the right one in, and after five nothing does until
      five minutes after the fifth, and then the right one does. */
  lemma SuccessStartsOver(u: LocalUser, attempts: seq<Attempt>, wrong: seq<Attempt>, a: Attempt)
    requires attempts != [] && ResultAt(u, attempts, |attempts| - 1) == LoggedIn
    requires AllWrong(wrong) && |wrong| <= 5
    ensures
      var r := Result(Run(u, attempts + wrong), a);
      && (|wrong| < 5 ==> r == if a.correct then LoggedIn else InvalidCredentials)
      && (|wrong| == 5 && a.checkedAt < wrong[4].recordedAt + 300 ==> r == LockedOut)
      && (|wrong| == 5 && a.checkedAt >= wrong[4].recordedAt + 300 ==>
            r == if a.correct then LoggedIn else InvalidCredentials)
  {
    RunConcat(u, attempts, wrong);
    FifthLocks(Run(u, attempts), wrong);
  }

  /** How often the lock tripped, and when it last did. */
  datatype Trips = Trips(count: nat, last: nat)

  function TripsOf(u: LocalUser, attempts: seq<Attempt>): Trips {
    if attempts == [] then Trips(0, 0)
    else
      var n := |attempts| - 1;
      var before := TripsOf(u, attempts[..n]);
      if ResultAt(u, attempts, n).InvalidCredentials? && Run(u, attempts[..n]).failedLogins + 1 >= THRESHOLD then
        Trips(before.count + 1, attempts[n].recordedAt)
      else before
  }

  /** The book-keeping: every trip has used up a full counter, and trips are a
      lockout apart. */
  predicate Books(start: LocalUser, u: LocalUser, counted: nat, t: Trips, first: nat, now: nat) {
    && u.disabled == start.disabled
    && u.failedLogins < THRESHOLD
    && counted + start.failedLogins == THRESHOLD * t.count + u.failedLogins
    && (t.count > 0 ==>
          && first + LOCKOUT_SECS * (t.count - 1) <= t.last <= now
          && (|| (u.lockedUntil == Some(t.last + LOCKOUT_SECS) && u.failedLogins == 0)
              || t.last + LOCKOUT_SECS <= now))
  }

  lemma {:induction false} RunKeepsBooks(u: LocalUser, attempts: seq<Attempt>)
    requires u.failedLogins < THRESHOLD && attempts != [] && Sequential(attempts) && NoSuccess(u, attempts)
    ensures Books(u, Run(u, attempts), Counted(u, attempts), TripsOf(u, attempts),
                  attempts[0].checkedAt, attempts[|attempts| - 1].recordedAt)
    decreases |attempts|
  {
    var n := |attempts| - 1;
    var rest, a := attempts[..n], attempts[n];
    assert !ResultAt(u, attempts, n).LoggedIn?;
    if n == 0 {
      assert rest == [];
    } else {
      RestSequential(u, attempts);
      RunKeepsBooks(u, rest);
      assert attempts[n - 1].recordedAt <= a.checkedAt;
    }
  }

  lemma RestSequential(u: LocalUser, attempts: seq<Attempt>)
    requires attempts != [] && Sequential(attempts) && NoSuccess(u, attempts)
    ensures Sequential(attempts[..|attempts| - 1]) && NoSuccess(u, attempts[..|attempts| - 1])
  {
    var rest := attempts[..|attempts| - 1];
    forall i | 0 <= i < |rest| ensures !ResultAt(u, rest, i).LoggedIn? {
      assert rest[..i] == attempts[..i];
      assert !ResultAt(u, attempts, i).LoggedIn?;
    }
  }

  lemma Periods(trips: nat, span: nat)
    requires LOCKOUT_SECS * trips <= span
    ensures trips <= span / LOCKOUT_SECS
  {
  }

  /** A run of `span` seconds without a success gets at most five wrong passwords
      counted per lockout period it touches: a partly filled counter at the end
      never adds to that. */
  lemma {:induction false} WrongPasswordsBounded(u: LocalUser, attempts: seq<Attempt>, span: nat)
    requires u.failedLogins < THRESHOLD && Sequential(attempts) && NoSuccess(u, attempts)
    requires attempts != [] ==> attempts[|attempts| - 1].recordedAt <= attempts[0].checkedAt + span
    ensures Counted(u, attempts) <= THRESHOLD * (span / LOCKOUT_SECS + 1)
  {
    if attempts != [] {
      RunKeepsBooks(u, attempts);
      var t, f := TripsOf(u, attempts), Run(u, attempts).failedLogins;
      if t.count > 0 && f > 0 {
        Periods(t.count, span);
      } else if t.count > 0 {
        Periods(t.count - 1, span);
      }
    }
  }

  // --- The bound is reached ---

  function Burst(now: nat, n: nat): seq<Attempt> {
    if n == 0 then [] else Burst(now, n - 1) + [Attempt(false, now, now)]
  }

  /** Five wrong passwords at once, again at the end of each lock. */
  function Hammer(periods: nat): seq<Attempt> {
    if periods == 0 then [] else Hammer(periods - 1) + Burst(LOCKOUT_SECS * (periods - 1), THRESHOLD)
  }

  lemma {:induction false} BurstCounts(u: LocalUser, before: seq<Attempt>, now: nat, n: nat)
    requires !u.disabled && n <= THRESHOLD
    requires Run(u, before).failedLogins == 0 && !Locked(Run(u, before), now) && !Run(u, before).disabled
    ensures Counted(u, before + Burst(now, n)) == Counted(u, before) + n
    ensures
      var s := Run(u, before + Burst(now, n));
      && !s.disabled
      && (n < THRESHOLD ==> s.failedLogins == n && !Locked(s, now))
      && (n == THRESHOLD ==> s.failedLogins == 0 && s.lockedUntil == Some(now + LOCKOUT_SECS))
  {
    if n == 0 {
      assert before + [] == before;
    } else {
      BurstCounts(u, before, now, n - 1);
      var all := before + Burst(now, n);
      assert all[..|all| - 1] == before + Burst(now, n - 1);
      assert all[|all| - 1] == Attempt(false, now, now);
    }
  }

  lemma {:induction false} HammerCounts(u: LocalUser, periods: nat)
    requires !u.disabled && u.failedLogins == 0 && u.lockedUntil.None?
    ensures Counted(u, Hammer(periods)) == THRESHOLD * periods
    ensures
      var s := Run(u, Hammer(periods));
      !s.disabled && s.failedLogins == 0 && !Locked(s, LOCKOUT_SECS * periods)
  {
    if periods > 0 {
      HammerCounts(u, periods - 1);
      BurstCounts(u, Hammer(periods - 1), LOCKOUT_SECS * (periods - 1), THRESHOLD);
    }
  }

  /** The attempts are wrong, in order, and over one period before the bursts are. */
  predicate HammerTimes(attempts: seq<Attempt>, periods: nat) {
    && Sequential(attempts)
    && (forall i | 0 <= i < |attempts| ::
          !attempts[i].correct && attempts[i].recordedAt + LOCKOUT_SECS <= LOCKOUT_SECS * periods)
  }

  lemma {:induction false} HammerSpan(periods: nat)
    ensures HammerTimes(Hammer(periods), periods)
  {
    if periods > 0 {
      HammerSpan(periods - 1);
      BurstTimes(LOCKOUT_SECS * (periods - 1), THRESHOLD);
    }
  }

  lemma {:induction false} BurstTimes(now: nat, n: nat)
    ensures forall i | 0 <= i < |Burst(now, n)| :: Burst(now, n)[i] == Attempt(false, now, now)
  {
    if n > 0 {
      BurstTimes(now, n - 1);
    }
  }

  /** The bound is the best one: for every span there is a sequential run without a
      success that fits into it and reaches it. */
  lemma BoundReached(u: LocalUser, span: nat)
    requires !u.disabled && u.failedLogins == 0 && u.lockedUntil.None?
    ensures
      var attempts := Hammer(span / LOCKOUT_SECS + 1);
      && Sequential(attempts) && NoSuccess(u, attempts)
      && (attempts != [] ==> attempts[|attempts| - 1].recordedAt <= attempts[0].checkedAt + span)
      && Counted(u, attempts) == THRESHOLD * (span / LOCKOUT_SECS + 1)
  {
    var periods := span / LOCKOUT_SECS + 1;
    HammerCounts(u, periods);
    HammerSpan(periods);
    PeriodsFit(span);
  }

  lemma PeriodsFit(span: nat)
    ensures LOCKOUT_SECS * (span / LOCKOUT_SECS + 1) <= span + LOCKOUT_SECS
  {
  }
}
