/** Login, the stored failure counter and the temporary lock. Instants are nanoseconds; the lock is stored in whole seconds. */
module Auth {
  import opened Timestamps

  const MINUTE: int := 60 * SECOND

  /** The two limits of the security settings: failures before a lock, and the lock's length in minutes. */
  datatype Limits = Limits(maxAttempts: int, windowMinutes: int)

  datatype User = User(username: string, passwordHash: string, role: string, failed: int, lockedUntil: Option<int>)

  datatype Outcome = Granted | Denied | Locked

  /** One login that reached a known account: when, and whether the password matched. */
  datatype Attempt = Attempt(now: int, matches: bool)

  predicate LockedAt(user: User, now: int) {
    user.lockedUntil.Some? && user.lockedUntil.value * SECOND > now
  }

  function OutcomeOf(user: User, at: Attempt): Outcome {
    if LockedAt(user, at.now) then Locked else if at.matches then Granted else Denied
  }

  function LoginStep(limits: Limits, user: User, at: Attempt): User {
    match OutcomeOf(user, at)
    case Locked => user
    case Granted => user.(failed := 0, lockedUntil := None)
    case Denied =>
      if user.failed + 1 >= limits.maxAttempts
      then user.(failed := 0, lockedUntil := Some(Stamp(at.now + limits.windowMinutes * MINUTE)))
      else user.(failed := user.failed + 1, lockedUntil := None)
  }

  // ---------- whole runs ----------

  /** A new account: no failures and no lock. */
  predicate Fresh(user: User) {
    user.failed == 0 && user.lockedUntil.None?
  }

  function Run(limits: Limits, user: User, attempts: seq<Attempt>): User {
    if attempts == [] then user
    else LoginStep(limits, Run(limits, user, attempts[..|attempts| - 1]), attempts[|attempts| - 1])
  }

  /** The outcome of the attempt at position `i` of a run. */
  function OutcomeAt(limits: Limits, user: User, attempts: seq<Attempt>, i: nat): Outcome
    requires i < |attempts|
  {
    OutcomeOf(Run(limits, user, attempts[..i]), attempts[i])
  }

  predicate Ordered(attempts: seq<Attempt>) {
    forall i, j | 0 <= i < j < |attempts| :: attempts[i].now <= attempts[j].now
  }

  /** Wrong-password checks made at `from <= now < to`. */
  function Checks(limits: Limits, user: User, attempts: seq<Attempt>, from: int, to: int): (n: nat) {
    if attempts == [] then 0
    else
      var k := |attempts| - 1;
      Checks(limits, user, attempts[..k], from, to)
      + (if from <= attempts[k].now < to && OutcomeAt(limits, user, attempts, k) == Denied then 1 else 0)
  }

  predicate NoSuccess(limits: Limits, user: User, attempts: seq<Attempt>, from: int, to: int) {
    forall i | 0 <= i < |attempts| && from <= attempts[i].now < to :: OutcomeAt(limits, user, attempts, i) != Granted
  }

  /** A limit below one acts as one: the first failure locks. */
  function Cap(limits: Limits): int {
    if limits.maxAttempts < 1 then 1 else limits.maxAttempts
  }

  /** Wrong passwords since the last success; attempts refused by the lock do not count. */
  function Streak(limits: Limits, user: User, attempts: seq<Attempt>): (n: nat) {
    if attempts == [] then 0
    else
      var k := |attempts| - 1;
      match OutcomeAt(limits, user, attempts, k)
      case Granted => 0
      case Denied => Streak(limits, user, attempts[..k]) + 1
      case Locked => Streak(limits, user, attempts[..k])
  }

  /** The row agrees with a streak: the counter is its remainder by the limit, and a lock is stored exactly at its full multiples. */
  predicate Reflects(limits: Limits, user: User, streak: nat) {
    && user.failed == streak % Cap(limits)
    && (user.lockedUntil.Some? <==> streak > 0 && user.failed == 0)
  }

  /** After any run the row agrees with the streak, so the counter stays below the limit; nothing else in the row changes. */
  lemma {:induction false} CounterIsStreak(limits: Limits, user: User, attempts: seq<Attempt>)
    requires Fresh(user)
    ensures var after := Run(limits, user, attempts);
            && Reflects(limits, after, Streak(limits, user, attempts))
            && 0 <= after.failed < Cap(limits)
            && after == user.(failed := after.failed, lockedUntil := after.lockedUntil)
  {
    hide Reflects;
    if attempts == [] {
      ReflectsFresh(limits, user);
    } else {
      var k := |attempts| - 1;
      CounterIsStreak(limits, user, attempts[..k]);
      StepReflects(limits, Run(limits, user, attempts[..k]), attempts[k], Streak(limits, user, attempts[..k]));
    }
  }

  lemma ReflectsFresh(limits: Limits, user: User)
    requires Fresh(user)
    ensures Reflects(limits, user, 0)
  {
  }

  lemma StepReflects(limits: Limits, user: User, at: Attempt, streak: nat)
    requires Reflects(limits, user, streak) && 0 <= user.failed < Cap(limits)
    ensures var after := LoginStep(limits, user, at);
            && 0 <= after.failed < Cap(limits)
            && Reflects(limits, after, match OutcomeOf(user, at) case Granted => 0 case Denied => streak + 1 case Locked => streak)
  {
    Increment(streak, Cap(limits));
  }

  lemma Increment(n: nat, m: int)
    requires m >= 1
    ensures (n + 1) % m == if n % m + 1 == m then 0 else n % m + 1
  {
    var q, r := n / m, n % m;
    if r + 1 == m {
      Remainder(n + 1, q + 1, 0, m);
    } else {
      Remainder(n + 1, q, r + 1, m);
    }
  }

  lemma Remainder(n: int, q: int, r: int, m: int)
    requires 0 <= r < m && n == q * m + r
    ensures n % m == r
  {
    var d := n / m - q;
    assert d * m == r - n % m;
    Grows(d, m);
    Grows(-d, m);
  }

  lemma Grows(d: int, m: int)
    requires m >= 1
    ensures d >= 1 ==> d * m >= m
  {
  }

  // ---------- who is let in ----------

  /** The attempt at `j` set a lock: it was a wrong password that filled the limit. */
  predicate Locks(limits: Limits, user: User, attempts: seq<Attempt>, j: nat)
    requires j < |attempts|
  {
    OutcomeAt(limits, user, attempts, j) == Denied && Streak(limits, user, attempts[..j + 1]) % Cap(limits) == 0
  }

  /** When the lock set at `j` ends. */
  function Until(limits: Limits, at: Attempt): int {
    Stamp(at.now + limits.windowMinutes * MINUTE) * SECOND
  }

  predicate Covers(limits: Limits, user: User, attempts: seq<Attempt>, j: nat, i: nat)
    requires j < i < |attempts|
  {
    Locks(limits, user, attempts, j) && Until(limits, attempts[j]) > attempts[i].now
  }

  /** The lock stored before attempt `i` was set by an earlier one, and every other earlier lock has ended by then. */
  lemma {:induction false} StoredLock(limits: Limits, user: User, attempts: seq<Attempt>, i: nat)
    requires Fresh(user) && Ordered(attempts) && i <= |attempts|
    ensures var stored := Run(limits, user, attempts[..i]).lockedUntil;
            && (stored.Some? ==> exists j: nat | j < i ::
                  Locks(limits, user, attempts, j) && stored.value * SECOND == Until(limits, attempts[j]))
            && forall j: nat | j < i && Locks(limits, user, attempts, j) ::
                 (stored.Some? && stored.value * SECOND == Until(limits, attempts[j])) || attempts[i - 1].now >= Until(limits, attempts[j])
  {
    hide Streak;
    hide Stamp;
    hide Until;
    if i > 0 {
      var k := i - 1;
      StoredLock(limits, user, attempts, k);
      assert attempts[..i][..k] == attempts[..k];
      var before, after := Run(limits, user, attempts[..k]), Run(limits, user, attempts[..i]);
      assert after == LoginStep(limits, before, attempts[k]);
      LockStoredIff(limits, user, attempts, k);
      assert k > 0 ==> attempts[k - 1].now <= attempts[k].now;
      hide Run;
      hide Locks;
    }
  }

  lemma LockStoredIff(limits: Limits, user: User, attempts: seq<Attempt>, k: nat)
    requires Fresh(user) && k < |attempts|
    ensures var after := Run(limits, user, attempts[..k + 1]);
            && (Locks(limits, user, attempts, k) ==>
                  after.lockedUntil.Some? && after.lockedUntil.value * SECOND == Until(limits, attempts[k]))
            && (OutcomeAt(limits, user, attempts, k) == Denied && after.lockedUntil.Some? ==> Locks(limits, user, attempts, k))
            && (OutcomeAt(limits, user, attempts, k) == Granted ==> after.lockedUntil.None?)
            && (OutcomeAt(limits, user, attempts, k) == Locked ==> after == Run(limits, user, attempts[..k]))
  {
    hide Stamp;
    var upTo := attempts[..k + 1];
    assert upTo[..k] == attempts[..k] && upTo[k] == attempts[k];
    CounterIsStreak(limits, user, upTo);
    CounterIsStreak(limits, user, attempts[..k]);
    assert OutcomeAt(limits, user, upTo, k) == OutcomeAt(limits, user, attempts, k);
    assert OutcomeAt(limits, user, attempts, k) == Denied ==> Streak(limits, user, upTo) == Streak(limits, user, attempts[..k]) + 1;
  }

  /** Over every run: an attempt is refused by a lock exactly when an earlier one set a lock that has not ended, and otherwise
      it is granted exactly when its password matches. */
  lemma GrantedIff(limits: Limits, user: User, attempts: seq<Attempt>, i: nat)
    requires Fresh(user) && Ordered(attempts) && i < |attempts|
    ensures var covered := exists j: nat | j < i :: Covers(limits, user, attempts, j, i);
            && (OutcomeAt(limits, user, attempts, i) == Locked <==> covered)
            && (OutcomeAt(limits, user, attempts, i) == Granted <==> !covered && attempts[i].matches)
            && (OutcomeAt(limits, user, attempts, i) == Denied <==> !covered && !attempts[i].matches)
  {
    hide Locks;
    hide Until;
    hide Run;
    StoredLock(limits, user, attempts, i);
    if OutcomeAt(limits, user, attempts, i) == Locked {
      var j: nat :| j < i && Locks(limits, user, attempts, j)
        && Run(limits, user, attempts[..i]).lockedUntil.value * SECOND == Until(limits, attempts[j]);
      assert Covers(limits, user, attempts, j, i);
    }
    if j: nat :| j < i && Covers(limits, user, attempts, j, i) {
      assert attempts[i - 1].now <= attempts[i].now;
    }
  }

  /** From any whole second the lock covers the rest of the window, so a window without success holds at most `Cap` checks. */
  lemma {:induction false} WindowBound(limits: Limits, user: User, attempts: seq<Attempt>, from: int, to: int)
    requires Fresh(user) && Ordered(attempts)
    requires to <= Stamp(from) * SECOND + limits.windowMinutes * MINUTE
    requires NoSuccess(limits, user, attempts, from, to)
    ensures var n := Checks(limits, user, attempts, from, to);
            var after := Run(limits, user, attempts);
            && n <= Cap(limits)
            && (n == 0 || attempts[|attempts| - 1].now >= to || n <= after.failed || LockedAt(after, to - 1))
  {
    hide Stamp;
    hide Streak;
    hide Reflects;
    if attempts != [] {
      var k := |attempts| - 1;
      var init, last := attempts[..k], attempts[k];
      InitNoSuccess(limits, user, attempts, from, to);
      WindowBound(limits, user, init, from, to);
      CounterIsStreak(limits, user, init);
      if last.now < from {
        NoneBefore(limits, user, attempts, from, to);
      } else if last.now < to {
        LockCovers(limits, last.now, from, to);
        assert OutcomeAt(limits, user, attempts, k) != Granted;
      }
    }
  }

  lemma InitNoSuccess(limits: Limits, user: User, attempts: seq<Attempt>, from: int, to: int)
    requires attempts != [] && NoSuccess(limits, user, attempts, from, to)
    ensures NoSuccess(limits, user, attempts[..|attempts| - 1], from, to)
  {
    var init := attempts[..|attempts| - 1];
    forall i | 0 <= i < |init| && from <= init[i].now < to ensures OutcomeAt(limits, user, init, i) != Granted {
      assert init[..i] == attempts[..i] && init[i] == attempts[i];
      assert OutcomeAt(limits, user, attempts, i) != Granted;
    }
  }

  lemma LockCovers(limits: Limits, now: int, from: int, to: int)
    requires from <= now && to <= Stamp(from) * SECOND + limits.windowMinutes * MINUTE
    ensures Stamp(now + limits.windowMinutes * MINUTE) * SECOND >= to
  {
  }

  lemma {:induction false} NoneBefore(limits: Limits, user: User, attempts: seq<Attempt>, from: int, to: int)
    requires forall i | 0 <= i < |attempts| :: attempts[i].now < from
    ensures Checks(limits, user, attempts, from, to) == 0
  {
    if attempts != [] {
      NoneBefore(limits, user, attempts[..|attempts| - 1], from, to);
    }
  }

  /** Every run keeps at most `Cap` checks in the half-open window of `windowMinutes` from `from`. */
  ghost predicate WindowSafe(limits: Limits, user: User, from: int) {
    var to := from + limits.windowMinutes * MINUTE;
    forall attempts | Ordered(attempts) && NoSuccess(limits, user, attempts, from, to) ::
      Checks(limits, user, attempts, from, to) <= Cap(limits)
  }

  /** The bound holds for all runs exactly from whole seconds: the stored lock drops the fraction, so it can end early. */
  lemma WindowSafeIffWholeSecond(limits: Limits, user: User, from: int)
    requires Fresh(user) && limits.windowMinutes > 0
    ensures WindowSafe(limits, user, from) <==> from % SECOND == 0
  {
    var to := from + limits.windowMinutes * MINUTE;
    if from % SECOND == 0 {
      assert Stamp(from) * SECOND == from;
      forall attempts | Ordered(attempts) && NoSuccess(limits, user, attempts, from, to)
        ensures Checks(limits, user, attempts, from, to) <= Cap(limits)
      {
        WindowBound(limits, user, attempts, from, to);
      }
    } else {
      var attempts := EarlyUnlock(limits, user, from);
      assert Checks(limits, user, attempts, from, to) == Cap(limits) + 1;
    }
  }

  /** `n` wrong passwords at one instant. */
  function Burst(n: nat, now: int): (s: seq<Attempt>)
    ensures |s| == n && forall i | 0 <= i < n :: s[i] == Attempt(now, false)
  {
    seq(n, _ => Attempt(now, false))
  }

  lemma {:induction false} BurstCounts(limits: Limits, user: User, n: nat, from: int, to: int)
    requires Fresh(user) && from < to && n <= Cap(limits)
    ensures Checks(limits, user, Burst(n, from), from, to) == n
    ensures n < Cap(limits) ==> Run(limits, user, Burst(n, from)) == user.(failed := n)
    ensures n == Cap(limits) ==> Run(limits, user, Burst(n, from)).lockedUntil == Some(Stamp(from + limits.windowMinutes * MINUTE))
  {
    if n > 0 {
      BurstCounts(limits, user, n - 1, from, to);
      assert Burst(n, from)[..n - 1] == Burst(n - 1, from);
    }
  }

  /** From a fraction of a second: `Cap` failures lock the account, and one more check fits before the window ends. */
  lemma EarlyUnlock(limits: Limits, user: User, from: int) returns (attempts: seq<Attempt>)
    requires Fresh(user) && limits.windowMinutes > 0 && from % SECOND != 0
    ensures var to := from + limits.windowMinutes * MINUTE;
            && Ordered(attempts) && NoSuccess(limits, user, attempts, from, to)
            && Checks(limits, user, attempts, from, to) == Cap(limits) + 1
  {
    var to := from + limits.windowMinutes * MINUTE;
    var n := Cap(limits);
    var again := Stamp(to) * SECOND;
    assert from < again < to;
    attempts := Burst(n, from) + [Attempt(again, false)];
    assert attempts[..n] == Burst(n, from);
    BurstCounts(limits, user, n, from, to);
    assert OutcomeAt(limits, user, attempts, n) == Denied;
    forall i | 0 <= i < |attempts| ensures OutcomeAt(limits, user, attempts, i) != Granted {
      assert !attempts[i].matches;
    }
  }

  // ---------- the service over the users table ----------

  datatype Audit = Audit(username: string, action: string, detail: string)

  datatype LoginResult = Token(token: string) | BadCredentials | LockedUntil(stamp: int) | StoreFailed | SigningFailed

  /** Which of the store's operations succeed during one login. */
  datatype Health = Health(readOk: bool, updateOk: bool, resetOk: bool, auditOk: bool)

  /** The users table of the store and the audit log. */
  class UserStore {
    var users: map<string, User>
    var audits: seq<Audit>

    constructor (users: map<string, User>)
      ensures this.users == users && audits == []
    {
      this.users := users;
      audits := [];
    }

    method UpdateLoginFailure(health: Health, username: string, failed: int, lockedUntil: Option<int>)
      modifies this`users
      ensures users == if health.updateOk && username in old(users)
                       then old(users)[username := old(users)[username].(failed := failed, lockedUntil := lockedUntil)]
                       else old(users)
    {
      if health.updateOk && username in users {
        users := users[username := users[username].(failed := failed, lockedUntil := lockedUntil)];
      }
    }

    method ResetLoginFailures(health: Health, username: string) returns (ok: bool)
      modifies this`users
      ensures ok == health.resetOk
      ensures users == if ok && username in old(users)
                       then old(users)[username := old(users)[username].(failed := 0, lockedUntil := None)]
                       else old(users)
    {
      ok := health.resetOk;
      if ok && username in users {
        users := users[username := users[username].(failed := 0, lockedUntil := None)];
      }
    }

    method WriteAudit(health: Health, username: string, action: string, detail: string)
      modifies this`audits
      ensures audits == old(audits) + if health.auditOk then [Audit(username, action, detail)] else []
    {
      if health.auditOk {
        audits := audits + [Audit(username, action, detail)];
      }
    }
  }

  class Service {
    const limits: Limits
    const store: UserStore
    const checkPassword: (string, string) -> bool
    const signJWT: (string, string) -> Option<string>

    constructor (limits: Limits, store: UserStore, checkPassword: (string, string) -> bool, signJWT: (string, string) -> Option<string>)
      ensures this.limits == limits && this.store == store && this.checkPassword == checkPassword && this.signJWT == signJWT
    {
      this.limits, this.store, this.checkPassword, this.signJWT := limits, store, checkPassword, signJWT;
    }

    /** What one login tells the caller, from the account's row before it. */
    ghost function Answer(health: Health, user: User, at: Attempt): LoginResult {
      match OutcomeOf(user, at)
      case Locked => LockedUntil(user.lockedUntil.value)
      case Denied => BadCredentials
      case Granted =>
        if !health.resetOk then StoreFailed
        else match signJWT(user.username, user.role) case Some(token) => Token(token) case None => SigningFailed
    }

    /** A failure that could not be counted, or a success that could not be recorded, leaves the row as it was. */
    ghost function RowAfter(health: Health, user: User, at: Attempt): User {
      match OutcomeOf(user, at)
      case Locked => user
      case Denied => if health.updateOk then LoginStep(limits, user, at) else user
      case Granted => if health.resetOk then LoginStep(limits, user, at) else user
    }

    ghost function AuditOf(health: Health, username: string, answer: LoginResult): seq<Audit> {
      if !health.auditOk then []
      else
        match answer
        case BadCredentials => [Audit(username, "login_failed", "invalid credentials")]
        case Token(_) => [Audit(username, "login_success", "token issued")]
        case _ => []
    }

    method Login(username: string, password: string, now: int, health: Health) returns (r: LoginResult)
      modifies store
      ensures !health.readOk || username !in old(store.users) ==>
                && r == (if health.readOk then BadCredentials else StoreFailed)
                && store.users == old(store.users) && store.audits == old(store.audits)
      ensures health.readOk && username in old(store.users) ==>
                var user := old(store.users)[username];
                var at := Attempt(now, checkPassword(user.passwordHash, password));
                && r == Answer(health, user, at)
                && store.users == old(store.users)[username := RowAfter(health, user, at)]
                && store.audits == old(store.audits) + AuditOf(health, username, r)
      ensures health == Health(true, true, true, true) && username in old(store.users) ==>
                var was, now' := old(store.users)[username], store.users[username];
                var right := checkPassword(was.passwordHash, password);
                if was.lockedUntil.Some? && was.lockedUntil.value * SECOND > now then
                  r == LockedUntil(was.lockedUntil.value) && now' == was && store.audits == old(store.audits)
                else if right then
                  && r == (match signJWT(was.username, was.role) case Some(token) => Token(token) case None => SigningFailed)
                  && now' == was.(failed := 0, lockedUntil := None)
                  && store.audits == old(store.audits) + (if r.Token? then [Audit(username, "login_success", "token issued")] else [])
                else
                  && r == BadCredentials
                  && now' == (if was.failed + 1 >= limits.maxAttempts
                              then was.(failed := 0, lockedUntil := Some((now + limits.windowMinutes * 60_000_000_000) / 1_000_000_000))
                              else was.(failed := was.failed + 1, lockedUntil := None))
                  && store.audits == old(store.audits) + [Audit(username, "login_failed", "invalid credentials")]
    {
      if !health.readOk {
        return StoreFailed;
      }
      if username !in store.users {
        return BadCredentials;
      }
      var user := store.users[username];
      if user.lockedUntil.Some? && user.lockedUntil.value * SECOND > now {
        return LockedUntil(user.lockedUntil.value);
      }
      if !checkPassword(user.passwordHash, password) {
        var failed := user.failed + 1;
        var lockUntil := None;
        if failed >= limits.maxAttempts {
          lockUntil := Some(Stamp(now + limits.windowMinutes * MINUTE));
          failed := 0;
        }
        store.UpdateLoginFailure(health, username, failed, lockUntil);
        store.WriteAudit(health, username, "login_failed", "invalid credentials");
        return BadCredentials;
      }
      var ok := store.ResetLoginFailures(health, username);
      if !ok {
        return StoreFailed;
      }
      var token := signJWT(user.username, user.role);
      if token.None? {
        return SigningFailed;
      }
      store.WriteAudit(health, username, "login_success", "token issued");
      r := Token(token.value);
    }
  }
}
