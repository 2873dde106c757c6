/**
 Brute-force lockout: one counter and one lock instant, shared by every way of guessing. The
 organization password has its own gate; an account's password and its second factor share one.
 */
module Lockout {
  import opened Wrappers

  type Time = nat

  datatype Config = Config(maxFailed: nat, lockFor: nat)

  /** The stored counter and lock. */
  datatype Gate = Gate(failed: nat, lockedUntil: Option<Time>)

  /** What the attempt turns out to be when it is evaluated. Neutral attempts neither count nor
      reset: an inactive account, a second factor still to come, an undecryptable secret. */
  datatype Verdict = Wrong | Right | Neutral

  /** checkAt: when the lock is read; lockAt: when a failure is recorded; saved: the row is
      written. */
  datatype Try = Try(checkAt: Time, lockAt: Time, verdict: Verdict, saved: bool)

  predicate Locked(g: Gate, now: Time) {
    g.lockedUntil.Some? && now < g.lockedUntil.value
  }

  function Fail(cfg: Config, g: Gate, lockAt: Time): Gate {
    Gate(g.failed + 1, if g.failed + 1 >= cfg.maxFailed then Some(lockAt + cfg.lockFor) else g.lockedUntil)
  }

  /** The stored gate after an attempt. */
  function Next(cfg: Config, g: Gate, t: Try): Gate {
    if Locked(g, t.checkAt) || !t.saved then g
    else
      match t.verdict
      case Wrong => Fail(cfg, g, t.lockAt)
      case Right => Gate(0, None)
      case Neutral => g
  }

  // ---------------------------------------------------------------- the organization password

  datatype OrgResult = OrgLocked | OrgIncorrect | OrgAccepted

  class OrgPasswordGuard {
    const cfg: Config
    var failed: nat
    var lockedUntil: Option<Time>
    var hasHash: bool

    constructor (cfg: Config, hasHash: bool)
      ensures this.cfg == cfg && Stored() == Gate(0, None)
    {
      this.cfg := cfg;
      this.hasHash := hasHash;
      failed, lockedUntil := 0, None;
    }

    function Stored(): Gate
      reads this
    {
      Gate(failed, lockedUntil)
    }

    /** orgPasswordGuard.Verify; matches is bcrypt's answer for a stored hash. */
    method Verify(matches: bool, checkAt: Time, lockAt: Time, saved: bool) returns (r: OrgResult)
      modifies this`failed, this`lockedUntil
      ensures Stored() == Next(cfg, old(Stored()), Try(checkAt, lockAt, if hasHash && matches then Right else Wrong, saved))
      ensures r == if old(lockedUntil).Some? && checkAt < old(lockedUntil).value then OrgLocked
                   else if hasHash && matches then OrgAccepted
                   else OrgIncorrect
      ensures r.OrgLocked? || !saved ==> failed == old(failed) && lockedUntil == old(lockedUntil)
      ensures r.OrgAccepted? && saved ==> failed == 0 && lockedUntil == None
      ensures r.OrgIncorrect? && saved ==>
                && failed == old(failed) + 1
                && lockedUntil == if failed >= cfg.maxFailed then Some(lockAt + cfg.lockFor) else old(lockedUntil)
    {
      if lockedUntil.Some? && checkAt < lockedUntil.value {
        return OrgLocked;
      }
      if !hasHash || !matches {
        RecordFailure(lockAt, saved);
        return OrgIncorrect;
      }
      if failed > 0 || lockedUntil.Some? {
        if saved {
          failed, lockedUntil := 0, None;
        }
      }
      return OrgAccepted;
    }

    method RecordFailure(lockAt: Time, saved: bool)
      modifies this`failed, this`lockedUntil
      ensures Stored() == if saved then Fail(cfg, old(Stored()), lockAt) else old(Stored())
      ensures saved ==>
                && failed == old(failed) + 1
                && lockedUntil == if failed >= cfg.maxFailed then Some(lockAt + cfg.lockFor) else old(lockedUntil)
    {
      var newFailed, newLock := failed + 1, lockedUntil;
      if newFailed >= cfg.maxFailed {
        newLock := Some(lockAt + cfg.lockFor);
      }
      if saved {
        failed, lockedUntil := newFailed, newLock;
      }
    }
  }

  // ---------------------------------------------------------------- an account

  datatype LoginResult = Invalid | AccountLocked | Inactive | MfaRequired | TokenError | LoggedIn

  /** What an account is, apart from its gate. */
  datatype Profile = Profile(hasHash: bool, active: bool, mfaEnabled: bool)

  /** One call of Login or of VerifyMFALogin, with what the world answers. */
  datatype Attempt =
    | Password(matches: bool, tokensOk: bool, checkAt: Time, lockAt: Time, saved: bool)
    | Code(ticketOk: bool, secretOk: bool, codeOk: bool, tokensOk: bool, checkAt: Time, lockAt: Time, saved: bool)

  function VerdictOn(p: Profile, a: Attempt): Verdict {
    match a
    case Password(matches, tokensOk, _, _, _) =>
      if p.hasHash && !matches then Wrong
      else if p.hasHash && p.active && !p.mfaEnabled && tokensOk then Right
      else Neutral
    case Code(ticketOk, secretOk, codeOk, tokensOk, _, _, _) =>
      if !ticketOk || !p.mfaEnabled || !secretOk then Neutral
      else if !codeOk then Wrong
      else if tokensOk then Right
      else Neutral
  }

  function AsTry(p: Profile, a: Attempt): Try {
    Try(a.checkAt, a.lockAt, VerdictOn(p, a), a.saved)
  }

  class Account {
    const cfg: Config
    var failed: nat
    var lockedUntil: Option<Time>
    var hasHash: bool
    var active: bool
    var mfaEnabled: bool

    constructor (cfg: Config, hasHash: bool, active: bool, mfaEnabled: bool)
      ensures this.cfg == cfg && Stored() == Gate(0, None)
    {
      this.cfg := cfg;
      this.hasHash, this.active, this.mfaEnabled := hasHash, active, mfaEnabled;
      failed, lockedUntil := 0, None;
    }

    function Stored(): Gate
      reads this
    {
      Gate(failed, lockedUntil)
    }

    method RecordFailedLogin(lockAt: Time, saved: bool)
      modifies this`failed, this`lockedUntil
      ensures Stored() == if saved then Fail(cfg, old(Stored()), lockAt) else old(Stored())
      ensures saved ==>
                && failed == old(failed) + 1
                && lockedUntil == if failed >= cfg.maxFailed then Some(lockAt + cfg.lockFor) else old(lockedUntil)
    {
      var newFailed, newLock := failed + 1, lockedUntil;
      if newFailed >= cfg.maxFailed {
        newLock := Some(lockAt + cfg.lockFor);
      }
      if saved {
        failed, lockedUntil := newFailed, newLock;
      }
    }

    /** Tokens come first; without them the counter is not reset. */
    method CompleteLogin(tokensOk: bool, saved: bool) returns (r: LoginResult)
      modifies this`failed, this`lockedUntil
      ensures r == if tokensOk then LoggedIn else TokenError
      ensures Stored() == if tokensOk && saved then Gate(0, None) else old(Stored())
    {
      if !tokensOk {
        return TokenError;
      }
      if saved {
        failed, lockedUntil := 0, None;
      }
      return LoggedIn;
    }

    function Kind(): Profile
      reads this
    {
      Profile(hasHash, active, mfaEnabled)
    }

    /** The lock is read before anything else; a wrong password counts, whatever the account's state,
        and only a login resets the counter. */
    method Login(matches: bool, tokensOk: bool, checkAt: Time, lockAt: Time, saved: bool) returns (r: LoginResult)
      modifies this`failed, this`lockedUntil
      ensures Stored() == Next(cfg, old(Stored()), AsTry(Kind(), Password(matches, tokensOk, checkAt, lockAt, saved)))
      ensures r == if old(lockedUntil).Some? && checkAt < old(lockedUntil).value then AccountLocked
                   else if !hasHash || !matches then Invalid
                   else if !active then Inactive
                   else if mfaEnabled then MfaRequired
                   else if tokensOk then LoggedIn
                   else TokenError
      ensures r.Invalid? && hasHash && saved ==>
                && failed == old(failed) + 1
                && lockedUntil == if failed >= cfg.maxFailed then Some(lockAt + cfg.lockFor) else old(lockedUntil)
      ensures r.LoggedIn? && saved ==> failed == 0 && lockedUntil == None
      ensures !saved || (r.Invalid? && !hasHash) || r in {AccountLocked, Inactive, MfaRequired, TokenError} ==>
                failed == old(failed) && lockedUntil == old(lockedUntil)
    {
      if lockedUntil.Some? && checkAt < lockedUntil.value {
        return AccountLocked;
      }
      if !hasHash {
        return Invalid;
      }
      if !matches {
        RecordFailedLogin(lockAt, saved);
        return Invalid;
      }
      if !active {
        return Inactive;
      }
      if mfaEnabled {
        return MfaRequired;
      }
      r := CompleteLogin(tokensOk, saved);
    }

    /** The second factor, after a password login left a ticket; codeOk is the TOTP check or a matching
        backup code. A wrong code counts like a wrong password. */
    method VerifyMFALogin(ticketOk: bool, secretOk: bool, codeOk: bool, tokensOk: bool,
                          checkAt: Time, lockAt: Time, saved: bool) returns (r: LoginResult)
      modifies this`failed, this`lockedUntil
      ensures Stored() == Next(cfg, old(Stored()),
                               AsTry(Kind(), Code(ticketOk, secretOk, codeOk, tokensOk, checkAt, lockAt, saved)))
      ensures r == if !ticketOk || !mfaEnabled then Invalid
                   else if old(lockedUntil).Some? && checkAt < old(lockedUntil).value then AccountLocked
                   else if !secretOk || !codeOk then Invalid
                   else if tokensOk then LoggedIn
                   else TokenError
      ensures r.Invalid? && ticketOk && mfaEnabled && secretOk && saved ==>
                && failed == old(failed) + 1
                && lockedUntil == if failed >= cfg.maxFailed then Some(lockAt + cfg.lockFor) else old(lockedUntil)
      ensures r.LoggedIn? && saved ==> failed == 0 && lockedUntil == None
      ensures !saved || !ticketOk || !mfaEnabled || (r.Invalid? && !secretOk) || r in {AccountLocked, TokenError} ==>
                failed == old(failed) && lockedUntil == old(lockedUntil)
    {
      if !ticketOk || !mfaEnabled {
        return Invalid;
      }
      if lockedUntil.Some? && checkAt < lockedUntil.value {
        return AccountLocked;
      }
      if !secretOk {
        return Invalid;
      }
      if codeOk {
        r := CompleteLogin(tokensOk, saved);
        return;
      }
      RecordFailedLogin(lockAt, saved);
      return Invalid;
    }
  }

  // ---------------------------------------------------------------- the bound over a run

  predicate Counts(g: Gate, t: Try) {
    !Locked(g, t.checkAt) && t.saved && t.verdict.Wrong?
  }

  predicate Resets(g: Gate, t: Try) {
    !Locked(g, t.checkAt) && t.saved && t.verdict.Right?
  }

  /** No attempt of the run resets the counter. */
  predicate NoReset(cfg: Config, g: Gate, tries: seq<Try>)
    decreases |tries|
  {
    tries == [] || (!Resets(g, tries[0]) && NoReset(cfg, Next(cfg, g, tries[0]), tries[1..]))
  }

  /** A failure is recorded no earlier than it was checked. */
  predicate Causal(tries: seq<Try>) {
    forall i :: 0 <= i < |tries| ==> tries[i].checkAt <= tries[i].lockAt
  }

  /** When the run's counted failures were checked, in order. */
  function FailureTimes(cfg: Config, g: Gate, tries: seq<Try>): seq<Time>
    decreases |tries|
  {
    if tries == [] then []
    else
      (if Counts(g, tries[0]) then [tries[0].checkAt] else [])
      + FailureTimes(cfg, Next(cfg, g, tries[0]), tries[1..])
  }

  /** Each entry from index k on is at least gap after the one before it. */
  predicate SpacedFrom(times: seq<Time>, k: int, gap: nat) {
    forall i :: 0 < i < |times| && k < i ==> times[i] >= times[i - 1] + gap
  }

  /** Once the ceiling is reached, every further failure waits for the lock. */
  lemma {:induction false} LockedFailuresAreSpaced(cfg: Config, g: Gate, tries: seq<Try>)
    requires g.failed >= cfg.maxFailed && g.lockedUntil.Some? && Causal(tries) && NoReset(cfg, g, tries)
    ensures var times := FailureTimes(cfg, g, tries);
            SpacedFrom(times, 0, cfg.lockFor) && (times != [] ==> times[0] >= g.lockedUntil.value)
    decreases |tries|
  {
    if tries != [] {
      var g', t := Next(cfg, g, tries[0]), tries[0];
      var rest := FailureTimes(cfg, g', tries[1..]);
      LockedFailuresAreSpaced(cfg, g', tries[1..]);
      assert [] + rest == rest;
    }
  }

  lemma {:induction false} Prepend(x: Time, rest: seq<Time>, k: int, gap: nat)
    requires SpacedFrom(rest, k - 1, gap)
    requires k <= 0 && rest != [] ==> rest[0] >= x + gap
    ensures SpacedFrom([x] + rest, k, gap)
  {
    var times := [x] + rest;
    forall i | 0 < i < |times| && k < i ensures times[i] >= times[i - 1] + gap {
      assert times[i] == rest[i - 1];
      assert i > 1 ==> times[i - 1] == rest[i - 2];
    }
  }

  lemma {:induction false} FailuresAreSpaced(cfg: Config, g: Gate, tries: seq<Try>)
    requires g.failed < cfg.maxFailed && Causal(tries) && NoReset(cfg, g, tries)
    ensures SpacedFrom(FailureTimes(cfg, g, tries), cfg.maxFailed - g.failed - 1, cfg.lockFor)
    decreases |tries|
  {
    if tries != [] {
      var g', k := Next(cfg, g, tries[0]), cfg.maxFailed - g.failed - 1;
      var rest := FailureTimes(cfg, g', tries[1..]);
      if g'.failed >= cfg.maxFailed {
        LockedFailuresAreSpaced(cfg, g', tries[1..]);
        Prepend(tries[0].checkAt, rest, k, cfg.lockFor);
      } else {
        FailuresAreSpaced(cfg, g', tries[1..]);
        if Counts(g, tries[0]) {
          Prepend(tries[0].checkAt, rest, k, cfg.lockFor);
        } else {
          assert [] + rest == rest;
        }
      }
    }
  }

  lemma {:induction false} SpacingAddsUp(times: seq<Time>, k: nat, n: nat, gap: nat)
    requires SpacedFrom(times, k, gap) && k <= n < |times|
    ensures times[n] >= times[k] + (n - k) * gap
    decreases n
  {
    if k < n {
      SpacingAddsUp(times, k, n - 1, gap);
      assert (n - k) * gap == (n - 1 - k) * gap + gap;
    }
  }

  /** In a run of attempts, from a fresh gate and without a reset, the n-th counted failure comes
      at least (n - MaxFailedLogins) * LoginLockoutDuration after the MaxFailedLogins-th. */
  lemma {:induction false} LockoutBound(cfg: Config, tries: seq<Try>, n: nat)
    requires cfg.maxFailed > 0 && Causal(tries) && NoReset(cfg, Gate(0, None), tries)
    requires var times := FailureTimes(cfg, Gate(0, None), tries); cfg.maxFailed <= n <= |times|
    ensures var times := FailureTimes(cfg, Gate(0, None), tries);
            times[n - 1] >= times[cfg.maxFailed - 1] + (n - cfg.maxFailed) * cfg.lockFor
  {
    FailuresAreSpaced(cfg, Gate(0, None), tries);
    SpacingAddsUp(FailureTimes(cfg, Gate(0, None), tries), cfg.maxFailed - 1, n - 1, cfg.lockFor);
  }

  // ---------------------------------------------------------------- failures that are not written

  /** A guess that is checked and turns out wrong, whether or not the failure is then written. */
  predicate Evaluated(g: Gate, t: Try) {
    !Locked(g, t.checkAt) && t.verdict.Wrong?
  }

  /** When the run's wrong guesses were checked, in order. */
  function GuessTimes(cfg: Config, g: Gate, tries: seq<Try>): seq<Time>
    decreases |tries|
  {
    if tries == [] then []
    else
      (if Evaluated(g, tries[0]) then [tries[0].checkAt] else [])
      + GuessTimes(cfg, Next(cfg, g, tries[0]), tries[1..])
  }

  /** How many of them were not written. */
  function Lost(cfg: Config, g: Gate, tries: seq<Try>): nat
    decreases |tries|
  {
    if tries == [] then 0
    else
      (if Evaluated(g, tries[0]) && !tries[0].saved then 1 else 0) + Lost(cfg, Next(cfg, g, tries[0]), tries[1..])
  }

  /** The gate after a run. */
  function Final(cfg: Config, g: Gate, tries: seq<Try>): Gate
    decreases |tries|
  {
    if tries == [] then g else Final(cfg, Next(cfg, g, tries[0]), tries[1..])
  }

  predicate InOrder(tries: seq<Try>) {
    forall i, j :: 0 <= i < j < |tries| ==> tries[i].checkAt <= tries[j].checkAt
  }

  lemma {:induction false} GuessesBalance(cfg: Config, g: Gate, tries: seq<Try>)
    ensures |GuessTimes(cfg, g, tries)| == |FailureTimes(cfg, g, tries)| + Lost(cfg, g, tries)
    decreases |tries|
  {
    if tries != [] {
      GuessesBalance(cfg, Next(cfg, g, tries[0]), tries[1..]);
    }
  }

  lemma {:induction false} FirstTry(cfg: Config, g: Gate, tries: seq<Try>)
    requires tries != []
    ensures var t, rest := tries[0], GuessTimes(cfg, Next(cfg, g, tries[0]), tries[1..]);
            GuessTimes(cfg, g, tries) == if Evaluated(g, t) then [t.checkAt] + rest else rest
    ensures var t, rest := tries[0], FailureTimes(cfg, Next(cfg, g, tries[0]), tries[1..]);
            FailureTimes(cfg, g, tries) == if Counts(g, t) then [t.checkAt] + rest else rest
    ensures Counts(g, tries[0]) ==> Evaluated(g, tries[0])
  {
    var g' := Next(cfg, g, tries[0]);
    assert [] + GuessTimes(cfg, g', tries[1..]) == GuessTimes(cfg, g', tries[1..]);
    assert [] + FailureTimes(cfg, g', tries[1..]) == FailureTimes(cfg, g', tries[1..]);
  }

  predicate Ascending(times: seq<Time>, from: Time) {
    && (forall i :: 0 <= i < |times| ==> from <= times[i])
    && (forall i, j :: 0 <= i < j < |times| ==> times[i] <= times[j])
  }

  lemma {:induction false} LaterTries(tries: seq<Try>)
    requires InOrder(tries) && tries != []
    ensures InOrder(tries[1..]) && (tries[1..] != [] ==> tries[0].checkAt <= tries[1..][0].checkAt)
  {
  }

  lemma {:induction false} AscendingFrom(x: Time, times: seq<Time>, from: Time)
    requires Ascending(times, x) && from <= x
    ensures Ascending(times, from) && Ascending([x] + times, from)
  {
  }

  lemma {:induction false} GuessesAreInOrder(cfg: Config, g: Gate, tries: seq<Try>, from: Time)
    requires InOrder(tries) && (tries != [] ==> from <= tries[0].checkAt)
    ensures Ascending(GuessTimes(cfg, g, tries), from)
    decreases |tries|
  {
    hide Next, Evaluated, Counts, FailureTimes, InOrder;
    if tries != [] {
      hide Ascending, GuessTimes;
      LaterTries(tries);
      FirstTry(cfg, g, tries);
      GuessesAreInOrder(cfg, Next(cfg, g, tries[0]), tries[1..], tries[0].checkAt);
      AscendingFrom(tries[0].checkAt, GuessTimes(cfg, Next(cfg, g, tries[0]), tries[1..]), from);
    }
  }

  /** Entry i of some failures is no earlier than entry i of the guesses, nor later than the last. */
  predicate Among(guesses: seq<Time>, failures: seq<Time>, i: nat) {
    i < |guesses| && i < |failures| && guesses[i] <= failures[i] <= guesses[|guesses| - 1]
  }

  lemma {:induction false} AmongOneMore(x: Time, guesses: seq<Time>, failures: seq<Time>, i: nat)
    requires Ascending(guesses, x)
    ensures Among(guesses, failures, i) ==> Among([x] + guesses, failures, i)
    ensures Among(guesses, failures, i) ==> Among([x] + guesses, [x] + failures, i + 1)
    ensures Among([x] + guesses, [x] + failures, 0)
  {
    if Among(guesses, failures, i) {
      assert ([x] + guesses)[i] <= guesses[i];
    }
  }

  lemma {:induction false} SomeTry(cfg: Config, g: Gate, tries: seq<Try>)
    requires FailureTimes(cfg, g, tries) != []
    ensures tries != []
  {
  }

  /** The counted failures are among the guesses. */
  lemma {:induction false} FailuresAreGuesses(cfg: Config, g: Gate, tries: seq<Try>, i: nat)
    requires InOrder(tries) && i < |FailureTimes(cfg, g, tries)|
    ensures Among(GuessTimes(cfg, g, tries), FailureTimes(cfg, g, tries), i)
    decreases |tries|
  {
    hide Next, Evaluated, Counts, FailureTimes, GuessTimes, Among, Ascending, InOrder;
    SomeTry(cfg, g, tries);
    var t, g' := tries[0], Next(cfg, g, tries[0]);
    LaterTries(tries);
    FirstTry(cfg, g, tries);
    GuessesAreInOrder(cfg, g', tries[1..], t.checkAt);
    var rest, failures := GuessTimes(cfg, g', tries[1..]), FailureTimes(cfg, g', tries[1..]);
    if !Counts(g, t) {
      FailuresAreGuesses(cfg, g', tries[1..], i);
      AmongOneMore(t.checkAt, rest, failures, i);
    } else if i > 0 {
      FailuresAreGuesses(cfg, g', tries[1..], i - 1);
      AmongOneMore(t.checkAt, rest, failures, i - 1);
    } else {
      AmongOneMore(t.checkAt, rest, failures, 0);
    }
  }

  /** The bound on guesses: each failure that is not written allows one more before the lock, and
      no more than one. */
  lemma {:induction false} GuessBound(cfg: Config, tries: seq<Try>)
    requires cfg.maxFailed > 0 && Causal(tries) && InOrder(tries) && NoReset(cfg, Gate(0, None), tries)
    requires |GuessTimes(cfg, Gate(0, None), tries)| >= cfg.maxFailed + Lost(cfg, Gate(0, None), tries)
    ensures var guesses, lost := GuessTimes(cfg, Gate(0, None), tries), Lost(cfg, Gate(0, None), tries);
            guesses[|guesses| - 1] >= guesses[cfg.maxFailed - 1] + (|guesses| - lost - cfg.maxFailed) * cfg.lockFor
  {
    var start := Gate(0, None);
    GuessesBalance(cfg, start, tries);
    var n := |FailureTimes(cfg, start, tries)|;
    LockoutBound(cfg, tries, n);
    FailuresAreGuesses(cfg, start, tries, cfg.maxFailed - 1);
    FailuresAreGuesses(cfg, start, tries, n - 1);
  }

  /** n wrong guesses at one time. */
  function Salvo(n: nat, at: Time, saved: bool): seq<Try> {
    if n == 0 then [] else [Try(at, at, Wrong, saved)] + Salvo(n - 1, at, saved)
  }

  function Copies(n: nat, at: Time): seq<Time> {
    if n == 0 then [] else [at] + Copies(n - 1, at)
  }

  /** Failures that are never written leave the gate as it was, and while it is not locked every
      one of any number of guesses is evaluated: the lock never comes. */
  lemma {:induction false} UnsavedFailuresAreFree(cfg: Config, g: Gate, tries: seq<Try>)
    requires forall i :: 0 <= i < |tries| ==> !tries[i].saved
    ensures Final(cfg, g, tries) == g && NoReset(cfg, g, tries) && FailureTimes(cfg, g, tries) == []
    ensures g.lockedUntil.None? && (forall i :: 0 <= i < |tries| ==> tries[i].verdict.Wrong?) ==>
              && |GuessTimes(cfg, g, tries)| == Lost(cfg, g, tries) == |tries|
              && forall i :: 0 <= i < |tries| ==> GuessTimes(cfg, g, tries)[i] == tries[i].checkAt
    decreases |tries|
  {
    if tries != [] {
      assert Next(cfg, g, tries[0]) == g;
      UnsavedFailuresAreFree(cfg, g, tries[1..]);
    }
  }

  /** A lost failure costs nothing: it is one guess more, and the gate is as before. */
  lemma {:induction false} LostGuess(cfg: Config, g: Gate, at: Time, others: seq<Try>)
    requires g.lockedUntil.None?
    ensures var tries := [Try(at, at, Wrong, false)] + others;
            && GuessTimes(cfg, g, tries) == [at] + GuessTimes(cfg, g, others)
            && Lost(cfg, g, tries) == 1 + Lost(cfg, g, others)
            && Final(cfg, g, tries) == Final(cfg, g, others)
  {
    assert ([Try(at, at, Wrong, false)] + others)[1..] == others;
  }

  lemma {:induction false} LostSalvo(cfg: Config, k: nat, at: Time, rest: seq<Try>)
    ensures var g, tries := Gate(0, None), Salvo(k, at, false) + rest;
            && GuessTimes(cfg, g, tries) == Copies(k, at) + GuessTimes(cfg, g, rest)
            && Lost(cfg, g, tries) == k + Lost(cfg, g, rest)
            && Final(cfg, g, tries) == Final(cfg, g, rest)
  {
    hide GuessTimes, Lost, Final;
    if k == 0 {
      assert Salvo(k, at, false) + rest == rest;
      assert Copies(k, at) + GuessTimes(cfg, Gate(0, None), rest) == GuessTimes(cfg, Gate(0, None), rest);
    } else {
      LostSalvo(cfg, k - 1, at, rest);
      var others := Salvo(k - 1, at, false) + rest;
      LostGuess(cfg, Gate(0, None), at, others);
      assert Salvo(k, at, false) + rest == [Try(at, at, Wrong, false)] + others;
      assert Copies(k, at) + GuessTimes(cfg, Gate(0, None), rest)
          == [at] + (Copies(k - 1, at) + GuessTimes(cfg, Gate(0, None), rest));
    }
  }

  lemma {:induction false} SavedSalvo(cfg: Config, failed: nat, n: nat, at: Time)
    requires n > 0 && failed + n == cfg.maxFailed
    ensures var g, tries := Gate(failed, None), Salvo(n, at, true);
            && GuessTimes(cfg, g, tries) == Copies(n, at) && Lost(cfg, g, tries) == 0
            && Final(cfg, g, tries) == Gate(cfg.maxFailed, Some(at + cfg.lockFor))
    decreases n
  {
    var tries := Salvo(n, at, true);
    assert tries[1..] == Salvo(n - 1, at, true);
    if n > 1 {
      SavedSalvo(cfg, failed + 1, n - 1, at);
    } else {
      assert tries[1..] == [] && Copies(0, at) == [];
    }
  }

  /** The bound is reached, whatever the number k of lost failures: exactly MaxFailedLogins + k
      guesses are evaluated at one instant before the lock comes. */
  lemma {:induction false} LostFailuresAddGuesses(cfg: Config, k: nat, at: Time)
    requires cfg.maxFailed > 0
    ensures var g, tries := Gate(0, None), Salvo(k, at, false) + Salvo(cfg.maxFailed, at, true);
            && Lost(cfg, g, tries) == k
            && GuessTimes(cfg, g, tries) == Copies(k, at) + Copies(cfg.maxFailed, at)
            && Final(cfg, g, tries) == Gate(cfg.maxFailed, Some(at + cfg.lockFor))
  {
    LostSalvo(cfg, k, at, Salvo(cfg.maxFailed, at, true));
    SavedSalvo(cfg, 0, cfg.maxFailed, at);
  }

  /** A run of attempts on a fresh gate, in order and without a reset, that loses k failures. */
  ghost predicate Loses(cfg: Config, tries: seq<Try>, k: nat) {
    && Causal(tries) && InOrder(tries) && NoReset(cfg, Gate(0, None), tries)
    && Lost(cfg, Gate(0, None), tries) == k
  }

  /** What lockout is for: guesses beyond MaxFailedLogins cost LoginLockoutDuration each. */
  ghost predicate Throttled(cfg: Config, guesses: seq<Time>)
    requires cfg.maxFailed > 0
  {
    |guesses| >= cfg.maxFailed ==>
      guesses[|guesses| - 1] >= guesses[cfg.maxFailed - 1] + (|guesses| - cfg.maxFailed) * cfg.lockFor
  }

  lemma {:induction false} SalvosAreFair(cfg: Config, g: Gate, tries: seq<Try>, at: Time)
    requires forall i :: 0 <= i < |tries| ==> tries[i].verdict.Wrong? && tries[i].checkAt == tries[i].lockAt == at
    ensures Causal(tries) && InOrder(tries) && NoReset(cfg, g, tries)
    decreases |tries|
  {
    if tries != [] {
      SalvosAreFair(cfg, Next(cfg, g, tries[0]), tries[1..], at);
    }
  }

  lemma {:induction false} SalvoShape(n: nat, at: Time, saved: bool)
    ensures |Salvo(n, at, saved)| == n && forall i :: 0 <= i < n ==> Salvo(n, at, saved)[i] == Try(at, at, Wrong, saved)
    ensures |Copies(n, at)| == n && forall i :: 0 <= i < n ==> Copies(n, at)[i] == at
  {
    if n > 0 {
      SalvoShape(n - 1, at, saved);
    }
  }

  lemma {:induction false} FairRunIsThrottled(cfg: Config, tries: seq<Try>)
    requires cfg.maxFailed > 0 && Loses(cfg, tries, Lost(cfg, Gate(0, None), tries))
    requires Lost(cfg, Gate(0, None), tries) == 0 || cfg.lockFor == 0
    ensures Throttled(cfg, GuessTimes(cfg, Gate(0, None), tries))
  {
    var guesses := GuessTimes(cfg, Gate(0, None), tries);
    if |guesses| >= cfg.maxFailed {
      if Lost(cfg, Gate(0, None), tries) == 0 {
        GuessBound(cfg, tries);
      } else {
        GuessesAreInOrder(cfg, Gate(0, None), tries, 0);
        assert (|guesses| - cfg.maxFailed) * cfg.lockFor == 0;
      }
    }
  }

  /** Every run that loses k failures is throttled if and only if k is zero, or locks last no time. */
  lemma {:induction false} ThrottledExactly(cfg: Config, k: nat)
    requires cfg.maxFailed > 0
    ensures (forall tries :: Loses(cfg, tries, k) ==> Throttled(cfg, GuessTimes(cfg, Gate(0, None), tries)))
            <==> k == 0 || cfg.lockFor == 0
  {
    hide Loses, GuessTimes, Lost;
    if k == 0 || cfg.lockFor == 0 {
      forall tries | Loses(cfg, tries, k) ensures Throttled(cfg, GuessTimes(cfg, Gate(0, None), tries)) {
        LosesItsOwn(cfg, tries, k);
        FairRunIsThrottled(cfg, tries);
      }
    } else {
      var tries := UnfairRun(cfg, k);
    }
  }

  lemma {:induction false} LosesItsOwn(cfg: Config, tries: seq<Try>, k: nat)
    requires Loses(cfg, tries, k)
    ensures Lost(cfg, Gate(0, None), tries) == k
  {
  }

  lemma {:induction false} UnfairRun(cfg: Config, k: nat) returns (tries: seq<Try>)
    requires cfg.maxFailed > 0 && k > 0 && cfg.lockFor > 0
    ensures Loses(cfg, tries, k) && !Throttled(cfg, GuessTimes(cfg, Gate(0, None), tries))
  {
    tries := Salvo(k, 0, false) + Salvo(cfg.maxFailed, 0, true);
    LostFailuresAddGuesses(cfg, k, 0);
    SalvoShape(k, 0, false);
    SalvoShape(cfg.maxFailed, 0, true);
    SalvosAreFair(cfg, Gate(0, None), tries, 0);
    hide Salvo, Copies, GuessTimes, Lost;
    assert k * cfg.lockFor > 0;
  }

  // ---------------------------------------------------------------- passwords and codes mixed

  /** A password or a second factor that was checked and is wrong. */
  predicate WrongGuess(p: Profile, a: Attempt) {
    match a
    case Password(matches, _, _, _, _) => p.hasHash && !matches
    case Code(ticketOk, secretOk, codeOk, _, _, _, _) => ticketOk && p.mfaEnabled && secretOk && !codeOk
  }

  /** The attempt logs the user in. */
  predicate LogsIn(p: Profile, a: Attempt) {
    match a
    case Password(matches, tokensOk, _, _, _) => p.hasHash && matches && p.active && !p.mfaEnabled && tokensOk
    case Code(ticketOk, secretOk, codeOk, tokensOk, _, _, _) => ticketOk && p.mfaEnabled && secretOk && codeOk && tokensOk
  }

  lemma {:induction false} VerdictExactly(p: Profile, a: Attempt)
    ensures VerdictOn(p, a).Wrong? <==> WrongGuess(p, a)
    ensures VerdictOn(p, a).Right? <==> LogsIn(p, a)
  {
  }

  /** When the wrong passwords and codes of a run were checked, in order. */
  function WrongTimes(cfg: Config, p: Profile, g: Gate, attempts: seq<Attempt>): seq<Time>
    decreases |attempts|
  {
    if attempts == [] then []
    else
      var a := attempts[0];
      (if (g.lockedUntil.Some? ==> a.checkAt >= g.lockedUntil.value) && WrongGuess(p, a) then [a.checkAt] else [])
      + WrongTimes(cfg, p, Next(cfg, g, AsTry(p, a)), attempts[1..])
  }

  /** How many of them were not written. */
  function WrongLost(cfg: Config, p: Profile, g: Gate, attempts: seq<Attempt>): nat
    decreases |attempts|
  {
    if attempts == [] then 0
    else
      var a := attempts[0];
      (if (g.lockedUntil.Some? ==> a.checkAt >= g.lockedUntil.value) && WrongGuess(p, a) && !a.saved then 1 else 0)
      + WrongLost(cfg, p, Next(cfg, g, AsTry(p, a)), attempts[1..])
  }

  function AsTries(p: Profile, attempts: seq<Attempt>): (tries: seq<Try>)
    ensures |tries| == |attempts| && forall i :: 0 <= i < |attempts| ==> tries[i] == AsTry(p, attempts[i])
  {
    seq(|attempts|, i requires 0 <= i < |attempts| => AsTry(p, attempts[i]))
  }

  lemma {:induction false} WrongTimesAreGuesses(cfg: Config, p: Profile, g: Gate, attempts: seq<Attempt>)
    ensures WrongTimes(cfg, p, g, attempts) == GuessTimes(cfg, g, AsTries(p, attempts))
    ensures WrongLost(cfg, p, g, attempts) == Lost(cfg, g, AsTries(p, attempts))
    ensures (forall i :: 0 <= i < |attempts| ==> !LogsIn(p, attempts[i])) ==> NoReset(cfg, g, AsTries(p, attempts))
    decreases |attempts|
  {
    if attempts != [] {
      var a := attempts[0];
      VerdictExactly(p, a);
      hide Next, WrongGuess, LogsIn, VerdictOn;
      assert AsTries(p, attempts)[1..] == AsTries(p, attempts[1..]);
      WrongTimesAreGuesses(cfg, p, Next(cfg, g, AsTry(p, a)), attempts[1..]);
    }
  }

  /** The bound on guesses of the password and of the second factor together: on a fresh account
      nobody logs in to, those beyond MaxFailedLogins and the lost ones cost a lock each. */
  lemma {:induction false} MixedGuessBound(cfg: Config, p: Profile, attempts: seq<Attempt>)
    requires cfg.maxFailed > 0 && forall i :: 0 <= i < |attempts| ==> !LogsIn(p, attempts[i])
    requires forall i :: 0 <= i < |attempts| ==> attempts[i].checkAt <= attempts[i].lockAt
    requires forall i, j :: 0 <= i < j < |attempts| ==> attempts[i].checkAt <= attempts[j].checkAt
    requires |WrongTimes(cfg, p, Gate(0, None), attempts)| >= cfg.maxFailed + WrongLost(cfg, p, Gate(0, None), attempts)
    ensures var wrong, lost := WrongTimes(cfg, p, Gate(0, None), attempts), WrongLost(cfg, p, Gate(0, None), attempts);
            wrong[|wrong| - 1] >= wrong[cfg.maxFailed - 1] + (|wrong| - lost - cfg.maxFailed) * cfg.lockFor
  {
    WrongTimesAreGuesses(cfg, p, Gate(0, None), attempts);
    GuessBound(cfg, AsTries(p, attempts));
  }

  /** MaxFailedLogins wrong guesses of either kind, all written, lock the account for the whole lock
      duration from the last of them on. */
  lemma {:induction false} CeilingLocks(cfg: Config, p: Profile, g: Gate, attempts: seq<Attempt>)
    requires attempts != [] && g.lockedUntil.None? && g.failed + |attempts| == cfg.maxFailed
    requires forall i :: 0 <= i < |attempts| ==> WrongGuess(p, attempts[i]) && attempts[i].saved
    ensures Final(cfg, g, AsTries(p, attempts))
            == Gate(cfg.maxFailed, Some(attempts[|attempts| - 1].lockAt + cfg.lockFor))
    decreases |attempts|
  {
    VerdictExactly(p, attempts[0]);
    var tries := AsTries(p, attempts);
    assert tries[1..] == AsTries(p, attempts[1..]);
    hide WrongGuess, VerdictOn;
    if |attempts| > 1 {
      CeilingLocks(cfg, p, Next(cfg, g, tries[0]), attempts[1..]);
    }
  }
}
