// The login lockout counter of one account (internal/app/auth.go, Login).
module Lockout {
  import opened Common

  const MAX_FAILURES: nat := 5
  const LOCK_SECONDS: nat := 300

  const MAX_PASSWORD: nat := 72

  /** bcrypt is modelled by what it compares equal to. */
  datatype PasswordHash = Bcrypt(plain: string)

  /** bcrypt works on the first 72 bytes; it compares longer passwords but refuses to store them. */
  function HashOf(password: string): PasswordHash {
    Bcrypt(if |password| <= MAX_PASSWORD then password else password[..MAX_PASSWORD])
  }

  /** A stored password opens for itself and, at the full length, for whatever extends it. */
  predicate Opens(stored: string, given: string) {
    given == stored || (|stored| == MAX_PASSWORD && stored < given)
  }

  lemma SameHashExactly(stored: string, given: string)
    requires |stored| <= MAX_PASSWORD
    ensures HashOf(stored) == HashOf(given) <==> Opens(stored, given)
  {
    if |given| > MAX_PASSWORD && given[..MAX_PASSWORD] == stored { assert given == stored + given[MAX_PASSWORD..]; }
  }

  datatype Account = Account(password: PasswordHash, failed: nat, lockedUntil: Option<nat>)

  datatype Verdict = Locked | Wrong | Correct

  predicate IsLocked(a: Account, now: nat) {
    a.lockedUntil.Some? && now < a.lockedUntil.value
  }

  function Judge(a: Account, password: string, now: nat): Verdict {
    if IsLocked(a, now) then Locked
    else if a.password == HashOf(password) then Correct
    else Wrong
  }

  /** The row after the attempt. The counter is cleared by success only, never by an expired lock. */
  function Attempt(a: Account, password: string, now: nat): Account {
    match Judge(a, password, now)
    case Locked => a
    case Correct => a.(failed := 0, lockedUntil := None)
    case Wrong =>
      if a.failed + 1 >= MAX_FAILURES then a.(failed := a.failed + 1, lockedUntil := Some(now + LOCK_SECONDS))
      else a.(failed := a.failed + 1)
  }

  // ---------- stretches of attempts ----------

  datatype Try = Try(at: nat, password: string)

  function AfterTries(a: Account, ts: seq<Try>): Account {
    if ts == [] then a else
      var n := |ts| - 1;
      Attempt(AfterTries(a, ts[..n]), ts[n].password, ts[n].at)
  }

  /** How many of the attempts reached the password comparison. */
  function Comparisons(a: Account, ts: seq<Try>): nat {
    if ts == [] then 0 else
      var n := |ts| - 1;
      Comparisons(a, ts[..n]) + if IsLocked(AfterTries(a, ts[..n]), ts[n].at) then 0 else 1
  }

  predicate InOrder(ts: seq<Try>) {
    forall i, j | 0 <= i < j < |ts| :: ts[i].at <= ts[j].at
  }

  predicate NoSuccess(a: Account, ts: seq<Try>) {
    forall i | 0 <= i < |ts| :: Judge(AfterTries(a, ts[..i]), ts[i].password, ts[i].at) != Correct
  }

  /** Either no attempt has set the lock yet, or the bound holds up to the one that set it last. */
  ghost predicate Paced(a: Account, ts: seq<Try>, t0: nat) {
    var b, n := AfterTries(a, ts), Comparisons(a, ts);
    || (n == 0 && b == a)
    || (n <= MAX_FAILURES - 1 && b.failed == a.failed + n < MAX_FAILURES)
    || (b.failed >= MAX_FAILURES && b.lockedUntil.Some?
        && t0 + LOCK_SECONDS <= b.lockedUntil.value
        && n <= MAX_FAILURES + (b.lockedUntil.value - LOCK_SECONDS - t0) / LOCK_SECONDS
        && ts != [] && b.lockedUntil.value <= ts[|ts| - 1].at + LOCK_SECONDS)
  }

  lemma {:induction false} StaysPaced(a: Account, ts: seq<Try>, t0: nat)
    requires InOrder(ts) && NoSuccess(a, ts) && (ts != [] ==> t0 <= ts[0].at)
    ensures Paced(a, ts, t0)
  {
    if ts != [] {
      var n := |ts| - 1;
      forall i | 0 <= i < n ensures ts[..n][..i] == ts[..i] {}
      StaysPaced(a, ts[..n], t0);
      var b := AfterTries(a, ts[..n]);
      assert Judge(b, ts[n].password, ts[n].at) != Correct;
      if !IsLocked(b, ts[n].at) && b.failed >= MAX_FAILURES && b.lockedUntil.Some? && n > 0 && Comparisons(a, ts[..n]) > 0 {
        Slots(ts[n].at - t0, b.lockedUntil.value - LOCK_SECONDS - t0);
      }
    }
  }

  lemma Slots(later: int, earlier: int)
    requires earlier + LOCK_SECONDS <= later
    ensures earlier / LOCK_SECONDS + 1 <= later / LOCK_SECONDS
  {
  }

  /** Without a successful login at most 5 + T / 5 min comparisons happen in any span of length T. */
  lemma ComparisonsBounded(a: Account, ts: seq<Try>)
    requires ts != [] && InOrder(ts) && NoSuccess(a, ts)
    ensures Comparisons(a, ts) <= MAX_FAILURES + (ts[|ts| - 1].at - ts[0].at) / LOCK_SECONDS
  {
    var t0, t1 := ts[0].at, ts[|ts| - 1].at;
    StaysPaced(a, ts, t0);
    var b := AfterTries(a, ts);
    if b.lockedUntil.Some? && b.lockedUntil.value <= t1 + LOCK_SECONDS {
      DivMonotone(b.lockedUntil.value - LOCK_SECONDS - t0, t1 - t0);
    }
  }

  lemma DivMonotone(x: int, y: int)
    requires x <= y
    ensures x / LOCK_SECONDS <= y / LOCK_SECONDS
  {
  }

  lemma ComparisonsWithin(a: Account, ts: seq<Try>, lo: nat, hi: nat)
    requires InOrder(ts) && NoSuccess(a, ts) && lo <= hi && forall i | 0 <= i < |ts| :: lo <= ts[i].at <= hi
    ensures Comparisons(a, ts) <= MAX_FAILURES + (hi - lo) / LOCK_SECONDS
  {
    if ts != [] {
      ComparisonsBounded(a, ts);
      DivMonotone(ts[|ts| - 1].at - ts[0].at, hi - lo);
    }
  }

  /** The patient guesser: five tries at once, then one try whenever the lock runs out. */
  function TryTime(i: nat): nat {
    if i < MAX_FAILURES then 0 else (i - MAX_FAILURES + 1) * LOCK_SECONDS
  }

  function Patient(n: nat, guess: string): seq<Try> {
    if n == 0 then [] else Patient(n - 1, guess) + [Try(TryTime(n - 1), guess)]
  }

  lemma {:induction false} PatientTimes(n: nat, guess: string)
    ensures |Patient(n, guess)| == n && forall i | 0 <= i < n :: Patient(n, guess)[i] == Try(TryTime(i), guess)
    ensures InOrder(Patient(n, guess))
  {
    if n > 0 { PatientTimes(n - 1, guess); }
  }

  lemma OneMoreTry(a: Account, ts: seq<Try>, t: Try)
    ensures AfterTries(a, ts + [t]) == Attempt(AfterTries(a, ts), t.password, t.at)
    ensures Comparisons(a, ts + [t]) == Comparisons(a, ts) + if IsLocked(AfterTries(a, ts), t.at) then 0 else 1
  {
    assert (ts + [t])[..|ts|] == ts;
  }

  lemma OneMoreFailure(a: Account, ts: seq<Try>, t: Try)
    requires NoSuccess(a, ts) && Judge(AfterTries(a, ts), t.password, t.at) != Correct
    ensures NoSuccess(a, ts + [t])
  {
    forall i | 0 <= i < |ts| ensures (ts + [t])[..i] == ts[..i] {}
    assert (ts + [t])[..|ts|] == ts;
  }

  function AfterPatient(a: Account, n: nat): Account {
    a.(failed := n, lockedUntil := if n < MAX_FAILURES then None else Some(TryTime(n - 1) + LOCK_SECONDS))
  }

  lemma PatientAttempt(a: Account, n: nat, guess: string)
    requires a.failed == 0 && a.lockedUntil.None? && a.password != HashOf(guess)
    ensures !IsLocked(AfterPatient(a, n), TryTime(n))
    ensures Attempt(AfterPatient(a, n), guess, TryTime(n)) == AfterPatient(a, n + 1)
  {
  }

  lemma {:induction false} PatientTries(a: Account, n: nat, guess: string)
    requires a.failed == 0 && a.lockedUntil.None? && a.password != HashOf(guess)
    ensures AfterTries(a, Patient(n, guess)) == AfterPatient(a, n)
    ensures Comparisons(a, Patient(n, guess)) == n
  {
    hide *;
    if n == 0 {
      PatientStart(a);
    } else {
      PatientTries(a, n - 1, guess);
      PatientTry(a, n - 1, guess, Patient(n - 1, guess));
      PatientNext(n - 1, guess);
    }
  }

  lemma PatientStart(a: Account)
    requires a.failed == 0 && a.lockedUntil.None?
    ensures forall guess :: Patient(0, guess) == []
    ensures AfterTries(a, []) == AfterPatient(a, 0) && Comparisons(a, []) == 0
  {
  }

  lemma PatientNext(n: nat, guess: string)
    ensures Patient(n + 1, guess) == Patient(n, guess) + [Try(TryTime(n), guess)]
  {
  }

  lemma {:induction false} PatientTry(a: Account, n: nat, guess: string, ts: seq<Try>)
    requires a.failed == 0 && a.lockedUntil.None? && a.password != HashOf(guess)
    requires AfterTries(a, ts) == AfterPatient(a, n) && Comparisons(a, ts) == n
    ensures AfterTries(a, ts + [Try(TryTime(n), guess)]) == AfterPatient(a, n + 1)
    ensures Comparisons(a, ts + [Try(TryTime(n), guess)]) == n + 1
  {
    PatientAttempt(a, n, guess);
    OneMoreTry(a, ts, Try(TryTime(n), guess));
  }

  lemma {:induction false} PatientFails(a: Account, n: nat, guess: string)
    requires a.failed == 0 && a.lockedUntil.None? && a.password != HashOf(guess)
    ensures NoSuccess(a, Patient(n, guess))
  {
    PatientTimes(n, guess);
    forall i | 0 <= i < n ensures Judge(AfterTries(a, Patient(n, guess)[..i]), guess, TryTime(i)) != Correct {
      PatientPrefix(n, i, guess);
      PatientTries(a, i, guess);
    }
  }

  lemma {:induction false} PatientPrefix(n: nat, i: nat, guess: string)
    requires i <= n
    ensures |Patient(n, guess)| == n && Patient(n, guess)[..i] == Patient(i, guess)
  {
    PatientTimes(n, guess);
    PatientTimes(i, guess);
  }

  /** The bound is attained for every number of expired locks: it cannot be lowered. */
  lemma BoundIsTight(a: Account, k: nat, guess: string)
    requires a.failed == 0 && a.lockedUntil.None? && a.password != HashOf(guess)
    ensures var ts := Patient(k + MAX_FAILURES, guess);
      InOrder(ts) && NoSuccess(a, ts) && ts[|ts| - 1].at - ts[0].at == k * LOCK_SECONDS
      && Comparisons(a, ts) == MAX_FAILURES + k
  {
    PatientTimes(k + MAX_FAILURES, guess);
    PatientTries(a, k + MAX_FAILURES, guess);
    PatientFails(a, k + MAX_FAILURES, guess);
  }
}
