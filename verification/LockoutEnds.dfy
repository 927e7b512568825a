/** How a lockout begins and ends, for requests as bytes on the wire (firmware/main/src/application_auth.c). */
module LockoutEnds {
  import opened Words
  import opened Wire
  import opened ProtocolServer
  import opened ProtocolClient
  import opened ProtocolRuns
  import opened RoundTrip
  import opened LockoutRuns
  import Auth = ApplicationAuth

  lemma CountingInput(c: Auth.Config, s: Server, t: Stamped, n: u32)
    requires WellFormed(s) && Allowed(t) && Auth.Sane(c) && s.auth.guard == Auth.Guard(n, 0) && !Proves(c, s, t)
    requires TurnsDown(c, s, t) ==> n + 1 < c.maxFailures
    ensures Next(c, s, t).auth.guard == Auth.Guard(if TurnsDown(c, s, t) then n + 1 else n, 0)
  {
    InputIsEvent(c, s, t);
    TurnDownIsRejection(c, s, t);
    if EventOf(s, t).Some? {
      Auth.CountingStep(c, s.auth, EventOf(s, t).value, n);
    }
  }

  lemma {:induction false} CountingTrace(c: Auth.Config, s: Server, trace: seq<Stamped>, n: nat)
    requires WellFormed(s) && Trace(trace) && n <= |trace| && Auth.Sane(c) && s.auth.guard == Auth.UNLOCKED
    requires Unproven(c, s, trace, n) && WrongGuesses(c, s, trace, n) < c.maxFailures
    ensures At(c, s, trace, n).auth.guard == Auth.Guard(WrongGuesses(c, s, trace, n), 0)
  {
    if n > 0 {
      CountingTrace(c, s, trace, n - 1);
      CountingInput(c, At(c, s, trace, n - 1), trace[n - 1], WrongGuesses(c, s, trace, n - 1));
    }
  }

  lemma LockInput(c: Auth.Config, s: Server, t: Stamped)
    requires WellFormed(s) && Allowed(t) && Auth.Sane(c) && s.auth.guard == Auth.Guard(c.maxFailures - 1, 0) && TurnsDown(c, s, t)
    ensures Next(c, s, t).auth.guard == Auth.Guard(c.maxFailures, t.now + c.lockout)
  {
    InputIsEvent(c, s, t);
    TurnDownIsRejection(c, s, t);
    Auth.LockStep(c, s.auth, EventOf(s, t).value);
  }

  /** The lock still stands, or has been cleared, with `count` wrong guesses by now and `wrong` when it was set. */
  predicate EndingBy(c: Auth.Config, g: Auth.Guard, until: int, wrong: nat, count: nat)
    requires Auth.Sane(c)
  {
    wrong <= count && Auth.Ending(c, g, until, count - wrong)
  }

  lemma EndingInput(c: Auth.Config, s: Server, t: Stamped, until: int, wrong: nat, count: nat)
    requires WellFormed(s) && Allowed(t) && Auth.Sane(c) && 0 < until && EndingBy(c, s.auth.guard, until, wrong, count)
    requires TurnsDown(c, s, t) ==> count + 1 < wrong + c.maxFailures
    ensures EndingBy(c, Next(c, s, t).auth.guard, until, wrong, count + if TurnsDown(c, s, t) then 1 else 0)
  {
    InputIsEvent(c, s, t);
    TurnDownIsRejection(c, s, t);
    if EventOf(s, t).Some? {
      Auth.EndingStep(c, s.auth, EventOf(s, t).value, until, count - wrong);
    }
  }

  lemma {:induction false} EndingTrace(c: Auth.Config, s: Server, trace: seq<Stamped>, m: nat, n: nat, until: int, wrong: nat)
    requires WellFormed(s) && Trace(trace) && m <= n <= |trace| && Auth.Sane(c) && 0 < until
    requires EndingBy(c, At(c, s, trace, m).auth.guard, until, wrong, WrongGuesses(c, s, trace, m))
    requires WrongGuesses(c, s, trace, n) < wrong + c.maxFailures
    ensures EndingBy(c, At(c, s, trace, n).auth.guard, until, wrong, WrongGuesses(c, s, trace, n))
  {
    if m < n {
      EndingTrace(c, s, trace, m, n - 1, until, wrong);
      EndingInput(c, At(c, s, trace, n - 1), trace[n - 1], until, wrong, WrongGuesses(c, s, trace, n - 1));
    }
  }

  lemma StandingInput(c: Auth.Config, s: Server, t: Stamped, until: int)
    requires WellFormed(s) && Allowed(t) && Auth.Sane(c) && t.now < until && s.auth.guard == Auth.Guard(c.maxFailures, until)
    ensures Next(c, s, t).auth.guard == s.auth.guard
  {
    InputIsEvent(c, s, t);
    if EventOf(s, t).Some? {
      Auth.EndingStep(c, s.auth, EventOf(s, t).value, until, 0);
    }
  }

  lemma {:induction false} StandingTrace(c: Auth.Config, s: Server, trace: seq<Stamped>, m: nat, n: nat, until: int)
    requires WellFormed(s) && Trace(trace) && m <= n <= |trace| && Auth.Sane(c)
    requires At(c, s, trace, m).auth.guard == Auth.Guard(c.maxFailures, until) && forall k :: m <= k < n ==> trace[k].now < until
    ensures At(c, s, trace, n).auth.guard == Auth.Guard(c.maxFailures, until)
  {
    if m < n {
      StandingTrace(c, s, trace, m, n - 1, until);
      StandingInput(c, At(c, s, trace, n - 1), trace[n - 1], until);
    }
  }

  /**
   * Input `j` of the trace is the last of maxFailures wrong proofs since the start, with no right one
   * before it, and fewer than maxFailures wrong ones have come since, up to input `n`.
   */
  predicate LockedBy(c: Auth.Config, s: Server, trace: seq<Stamped>, j: nat, n: nat)
    requires WellFormed(s) && Trace(trace)
  {
    && j < n <= |trace|
    && Unproven(c, s, trace, j) && WrongGuesses(c, s, trace, j) == c.maxFailures - 1 && TurnsDown(c, At(c, s, trace, j), trace[j])
    && WrongGuesses(c, s, trace, n) < 2 * c.maxFailures
  }

  /** Input `j` sets the lock. */
  lemma LockSet(c: Auth.Config, s: Server, trace: seq<Stamped>, j: nat, n: nat)
    requires Fresh(c, s) && s.auth.guard == Auth.UNLOCKED && Trace(trace) && LockedBy(c, s, trace, j, n)
    ensures At(c, s, trace, j + 1).auth.guard == Auth.Guard(c.maxFailures, trace[j].now + c.lockout)
    ensures WrongGuesses(c, s, trace, j + 1) == c.maxFailures
  {
    CountingTrace(c, s, trace, j);
    LockInput(c, At(c, s, trace, j), trace[j]);
  }

  lemma EarlierThan(trace: seq<Stamped>, n: nat, now: int)
    requires Timely(trace, 0) && 0 < n <= |trace| && trace[n - 1].now <= now
    ensures forall k :: 0 <= k < n ==> trace[k].now <= now
  {
  }

  lemma LockStands(c: Auth.Config, s: Server, trace: seq<Stamped>, j: nat, n: nat, until: int, g: Auth.Guard)
    requires WellFormed(s) && Trace(trace) && j < n <= |trace| && Auth.Sane(c)
    requires At(c, s, trace, j + 1).auth.guard == Auth.Guard(c.maxFailures, until) && forall k :: 0 <= k < n ==> trace[k].now < until
    requires g == At(c, s, trace, n).auth.guard
    ensures g.lockedUntil == until
  {
    StandingTrace(c, s, trace, j + 1, n, until);
  }

  lemma LockClears(c: Auth.Config, s: Server, trace: seq<Stamped>, j: nat, n: nat, until: int, g: Auth.Guard)
    requires WellFormed(s) && Trace(trace) && j < n <= |trace| && Auth.Sane(c) && 0 < until
    requires At(c, s, trace, j + 1).auth.guard == Auth.Guard(c.maxFailures, until) && WrongGuesses(c, s, trace, j + 1) == c.maxFailures
    requires WrongGuesses(c, s, trace, n) < 2 * c.maxFailures && g == At(c, s, trace, n).auth.guard
    ensures g.lockedUntil == 0 || g.lockedUntil == until
  {
    EndingTrace(c, s, trace, j + 1, n, until, c.maxFailures);
  }

  /** The guard a peer then meets. */
  lemma LockAt(c: Auth.Config, s: Server, trace: seq<Stamped>, j: nat, n: nat, until: int, now: int, g: Auth.Guard)
    requires Fresh(c, s) && s.auth.guard == Auth.UNLOCKED && Trace(trace) && Timely(trace, 0) && LockedBy(c, s, trace, j, n)
    requires trace[n - 1].now <= now && until == trace[j].now + c.lockout && g == At(c, s, trace, n).auth.guard
    ensures if now < until then g.lockedUntil == until else g.lockedUntil == 0 || g.lockedUntil <= now
  {
    LockSet(c, s, trace, j, n);
    if now < until {
      EarlierThan(trace, n, now);
      LockStands(c, s, trace, j, n, until, g);
    } else {
      LockClears(c, s, trace, j, n, until, g);
    }
  }

  /**
   * Whatever bytes arrive over however many connections: after the last of maxFailures wrong proofs a
   * client that knows the passkey is turned away at AUTH_BEGIN until exactly one lockout period later,
   * and from then on let in.
   */
  lemma LockoutEndsOnWire(c: Auth.Config, s: Server, trace: seq<Stamped>, j: nat, n: nat,
                          first: Ambient, second: Ambient, id: u16, next: u16, capacity: nat)
    requires Fresh(c, s) && s.auth.guard == Auth.UNLOCKED && Trace(trace) && Timely(trace, 0) && LockedBy(c, s, trace, j, n)
    requires trace[n - 1].now <= first.now && 0 <= second.now - first.now <= c.timeout
    requires HEADER_SIZE + AUTH_BEGIN_SIZE <= capacity && forall m :: c.mac(m).Some?
    ensures first.now < trace[j].now + c.lockout ==>
              ParseResponse(Exchange(c, At(c, s, trace, n), first, BuildRequest(AUTH_BEGIN, id, []).value, capacity).1,
                            Some(AUTH_BEGIN), Some(id), false)
              == Failure(ProtocolError(Some(AuthenticationLocked)))
    ensures first.now >= trace[j].now + c.lockout ==> LetsIn(c, At(c, s, trace, n), first, second, id, next, capacity)
  {
    LockAt(c, s, trace, j, n, trace[j].now + c.lockout, first.now, At(c, s, trace, n).auth.guard);
    if first.now < trace[j].now + c.lockout {
      TurnedAway(c, At(c, s, trace, n), first, id, capacity);
    } else {
      Handshake(c, At(c, s, trace, n), first, second, id, next, capacity);
    }
  }

  lemma TurnedAway(c: Auth.Config, s: Server, env: Ambient, id: u16, capacity: nat)
    requires WellFormed(s) && HEADER_SIZE + AUTH_BEGIN_SIZE <= capacity && 0 != s.auth.guard.lockedUntil > env.now
    ensures ParseResponse(Exchange(c, s, env, BuildRequest(AUTH_BEGIN, id, []).value, capacity).1, Some(AUTH_BEGIN), Some(id), false)
         == Failure(ProtocolError(Some(AuthenticationLocked)))
  {
    ExchangeParses(c, s, env, AUTH_BEGIN, id, [], capacity);
  }
}
