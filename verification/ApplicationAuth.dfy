/** Challenge, proof and lockout (firmware/main/src/application_auth.c). */
module ApplicationAuth {
  import opened Words

  const ZERO6: seq<u8> := [0, 0, 0, 0, 0, 0]
  const ZERO16: seq<u8> := [0, 0, 0, 0, 0, 0, 0, 0, 0, 0, 0, 0, 0, 0, 0, 0]

  type DeviceId = s: seq<u8> | |s| == 6 witness ZERO6
  type Nonce = s: seq<u8> | |s| == 16 witness ZERO16
  type Proof = s: seq<u8> | |s| == 32 witness ZERO16 + ZERO16

  /** Keyed hash of the challenge message; `None` when the crypto library fails. */
  type Mac = seq<u8> -> Option<Proof>

  /** Configured limits; times are in microseconds of the device clock. */
  datatype Config = Config(
    maxFailures: int, lockout: int, timeout: int, domain: seq<u8>, version: u8, mac: Mac
  )

  /** What the shared configuration guarantees about the limits. */
  predicate Sane(c: Config) {
    0 < c.maxFailures < TWO32 && 0 < c.lockout && 0 < c.timeout
  }

  datatype Guard = Guard(failures: u32, lockedUntil: int)

  datatype Session = Session(
    deviceId: DeviceId, nonce: Nonce, issuedAt: int,
    challengeActive: bool, authenticated: bool, disconnectRequested: bool
  )

  datatype Auth = Auth(guard: Guard, session: Session)

  datatype Outcome = Accepted | Required | Rejected | Locked

  const UNLOCKED := Guard(0, 0)
  const NO_SESSION := Session(ZERO6, ZERO16, 0, false, false, false)

  function Started(deviceId: DeviceId): Session {
    NO_SESSION.(deviceId := deviceId)
  }

  predicate IsLocked(g: Guard, now: int) {
    g.lockedUntil != 0 && now < g.lockedUntil
  }

  /** Looking at the lock clears it once it has expired. */
  function Refreshed(g: Guard, now: int): Guard {
    if g.lockedUntil == 0 || now < g.lockedUntil then g else UNLOCKED
  }

  function Begin(a: Auth, now: int, nonce: Nonce): (Auth, Outcome) {
    var g := Refreshed(a.guard, now);
    if IsLocked(a.guard, now) then (Auth(g, a.session), Locked)
    else
      (Auth(g, a.session.(nonce := nonce, issuedAt := now, challengeActive := true, authenticated := false)), Accepted)
  }

  function Message(c: Config, deviceId: DeviceId, bootId: u32, nonce: Nonce): seq<u8> {
    c.domain + [c.version] + deviceId + U32Bytes(bootId) + nonce
  }

  predicate ProofValid(c: Config, s: Session, bootId: u32, proof: Proof) {
    c.mac(Message(c, s.deviceId, bootId, s.nonce)) == Some(proof)
  }

  /** The proof reaches the comparison: not locked out, and a challenge is pending and recent. */
  predicate Evaluated(c: Config, a: Auth, now: int) {
    !IsLocked(a.guard, now) && a.session.challengeActive && now - a.session.issuedAt <= c.timeout
  }

  function Prove(c: Config, a: Auth, now: int, bootId: u32, proof: Proof): (Auth, Outcome) {
    var g, s := Refreshed(a.guard, now), a.session.(challengeActive := false);
    if IsLocked(a.guard, now) then (Auth(g, a.session.(disconnectRequested := true)), Locked)
    else if !Evaluated(c, a, now) then (Auth(g, s), Required)
    else if ProofValid(c, a.session, bootId, proof) then (Auth(UNLOCKED, s.(authenticated := true)), Accepted)
    else
      var failures := Wrap32(g.failures + 1);
      var ended := s.(authenticated := false, disconnectRequested := true);
      if failures >= c.maxFailures then (Auth(Guard(failures, now + c.lockout), ended), Locked)
      else (Auth(g.(failures := failures), ended), Rejected)
  }

  /**
   * What a proof leads to, from its time, the lock, the pending challenge and the hash alone: a lockout
   * turns it away, without a recent challenge it is not compared, the right one authenticates and
   * clears the failures, a wrong one counts, and locks if it is one too many. Whoever is turned away
   * by the lock or proves wrong is to be disconnected.
   */
  lemma ProofDecides(c: Config, a: Auth, now: int, bootId: u32, proof: Proof)
    requires Sane(c) && a.guard.failures + 1 < TWO32
    ensures var (b, outcome) := Prove(c, a, now, bootId, proof);
            var locked := a.guard.lockedUntil != 0 && now < a.guard.lockedUntil;
            var failures := if a.guard.lockedUntil == 0 then a.guard.failures else 0;
            var asked := a.session.challengeActive && now - a.session.issuedAt <= c.timeout;
            var right := c.mac(c.domain + [c.version] + a.session.deviceId + U32Bytes(bootId) + a.session.nonce) == Some(proof);
            && (locked ==> outcome == Locked && b.guard == a.guard && b.session == a.session.(disconnectRequested := true))
            && (!locked ==> b.session.nonce == a.session.nonce && b.session.deviceId == a.session.deviceId && !b.session.challengeActive)
            && (!locked && !asked ==> outcome == Required && b.guard.failures == failures && b.guard.lockedUntil == 0
                                      && b.session == a.session.(challengeActive := false))
            && (!locked && asked && right ==> outcome == Accepted && b.guard == Guard(0, 0) && b.session.authenticated
                                              && b.session.disconnectRequested == a.session.disconnectRequested)
            && (!locked && asked && !right ==> !b.session.authenticated && b.session.disconnectRequested && b.guard.failures == failures + 1
                                               && (outcome == Locked <==> failures + 1 >= c.maxFailures)
                                               && (outcome == Rejected <==> failures + 1 < c.maxFailures)
                                               && b.guard.lockedUntil == if failures + 1 >= c.maxFailures then now + c.lockout else 0)
  {
  }

  // --- The invariant of every run ------------------------------------------------

  /** The failure count reaches the maximum exactly while a lock is recorded. */
  predicate GuardInv(c: Config, g: Guard) {
    && 0 <= g.failures <= c.maxFailures && 0 <= g.lockedUntil
    && (g.failures == c.maxFailures <==> g.lockedUntil != 0)
  }

  predicate AuthInv(c: Config, a: Auth) {
    && GuardInv(c, a.guard)
    && !(a.session.challengeActive && a.session.authenticated)
    && (a.session.authenticated ==> a.guard == UNLOCKED)
  }

  datatype Event =
    | Connect(deviceId: DeviceId)
    | Disconnect
    | BeginAt(nonce: Nonce)
    | ProveAt(bootId: u32, proof: Proof)
    | TakeDisconnect

  datatype Timed = Timed(now: int, event: Event)

  function Next(c: Config, a: Auth, t: Timed): Auth {
    match t.event
    case Connect(id) => a.(session := Started(id))
    case Disconnect => a.(session := NO_SESSION)
    case BeginAt(nonce) => Begin(a, t.now, nonce).0
    case ProveAt(bootId, proof) => Prove(c, a, t.now, bootId, proof).0
    case TakeDisconnect => a.(session := a.session.(disconnectRequested := false))
  }

  lemma NextKeepsInv(c: Config, a: Auth, t: Timed)
    requires Sane(c) && AuthInv(c, a) && 0 <= t.now
    ensures AuthInv(c, Next(c, a, t))
  {
  }

  function Run(c: Config, a: Auth, events: seq<Timed>): Auth
    decreases |events|
  {
    if events == [] then a else Run(c, Next(c, a, events[0]), events[1..])
  }

  /** Event times never run backwards from `from` and never pass `until`. */
  predicate Clocked(events: seq<Timed>, from: int, until: int) {
    if events == [] then from <= until
    else from <= events[0].now && Clocked(events[1..], events[0].now, until)
  }

  lemma {:induction false} RunKeepsInv(c: Config, a: Auth, events: seq<Timed>, from: int, until: int)
    requires Sane(c) && AuthInv(c, a) && 0 <= from && Clocked(events, from, until)
    ensures AuthInv(c, Run(c, a, events))
    decreases |events|
  {
    if events != [] {
      NextKeepsInv(c, a, events[0]);
      RunKeepsInv(c, Next(c, a, events[0]), events[1..], events[0].now, until);
    }
  }

  // --- The lockout bounds guessing -------------------------------------------------

  predicate IsRejection(c: Config, a: Auth, t: Timed) {
    t.event.ProveAt? && Evaluated(c, a, t.now) && !ProofValid(c, a.session, t.event.bootId, t.event.proof)
  }

  predicate IsAcceptance(c: Config, a: Auth, t: Timed) {
    t.event.ProveAt? && Evaluated(c, a, t.now) && ProofValid(c, a.session, t.event.bootId, t.event.proof)
  }

  /** How many proofs a run compares and turns down. */
  function Rejections(c: Config, a: Auth, events: seq<Timed>): nat
    decreases |events|
  {
    if events == [] then 0
    else (if IsRejection(c, a, events[0]) then 1 else 0) + Rejections(c, Next(c, a, events[0]), events[1..])
  }

  predicate NoAcceptance(c: Config, a: Auth, events: seq<Timed>)
    decreases |events|
  {
    events == [] || (!IsAcceptance(c, a, events[0]) && NoAcceptance(c, Next(c, a, events[0]), events[1..]))
  }

  /** Rejections a guard can still hand out between `now` and `until`. */
  function Budget(c: Config, g: Guard, now: int, until: int): int
    requires Sane(c)
  {
    if g.lockedUntil == 0 then c.maxFailures - g.failures + c.maxFailures * ((until - now) / c.lockout)
    else if g.lockedUntil > until then 0
    else
      var from := if now < g.lockedUntil then g.lockedUntil else now;
      c.maxFailures + c.maxFailures * ((until - from) / c.lockout)
  }

  lemma QuotientMonotone(m: int, d: int, x: int, y: int)
    requires 0 < m && 0 < d && x <= y
    ensures m * (x / d) <= m * (y / d)
  {
    var p, q := x / d, y / d;
    assert x == d * p + x % d && y == d * q + y % d;
    if p > q {
      assert d * p >= d * (q + 1) by { MultiplyMonotone(d, q + 1, p); }
      assert false;
    }
    MultiplyMonotone(m, p, q);
  }

  lemma MultiplyMonotone(m: int, x: int, y: int)
    requires 0 < m && x <= y
    ensures m * x <= m * y
  {
  }

  lemma QuotientStep(m: int, d: int, x: int)
    requires 0 < m && 0 < d
    ensures m + m * ((x - d) / d) == m * (x / d)
  {
    var q := (x - d) / d;
    assert x == d * (q + 1) + (x - d) % d;
    assert x / d == q + 1 by { QuotientUnique(x, d, q + 1, (x - d) % d); }
    assert m * (q + 1) == m * q + m;
  }

  lemma QuotientUnique(x: int, d: int, q: int, r: int)
    requires 0 < d && 0 <= r < d && x == d * q + r
    ensures x / d == q
  {
    var p := x / d;
    assert x == d * p + x % d;
    assert d * (p - q) == r - x % d;
    if p > q {
      MultiplyMonotone(d, 1, p - q);
    } else if p < q {
      MultiplyMonotone(d, p - q, -1);
    }
  }

  lemma BudgetShrinks(c: Config, g: Guard, now: int, later: int, until: int)
    requires Sane(c) && now <= later <= until
    ensures Budget(c, g, later, until) <= Budget(c, g, now, until)
  {
    QuotientMonotone(c.maxFailures, c.lockout, until - later, until - now);
    if g.lockedUntil != 0 && now < g.lockedUntil < later {
      QuotientMonotone(c.maxFailures, c.lockout, until - later, until - g.lockedUntil);
    }
  }

  lemma BudgetNonNegative(c: Config, g: Guard, now: int, until: int)
    requires Sane(c) && GuardInv(c, g) && now <= until
    ensures 0 <= Budget(c, g, now, until)
  {
    QuotientMonotone(c.maxFailures, c.lockout, 0, until - now);
    if g.lockedUntil != 0 && now < g.lockedUntil <= until {
      QuotientMonotone(c.maxFailures, c.lockout, 0, until - g.lockedUntil);
    }
  }

  /** One event spends at least what it rejects. */
  lemma BudgetStep(c: Config, a: Auth, t: Timed, until: int)
    requires Sane(c) && AuthInv(c, a) && 0 <= t.now <= until && !IsAcceptance(c, a, t)
    ensures (if IsRejection(c, a, t) then 1 else 0) + Budget(c, Next(c, a, t).guard, t.now, until)
         <= Budget(c, a.guard, t.now, until)
  {
    var g := Refreshed(a.guard, t.now);
    assert Budget(c, g, t.now, until) <= Budget(c, a.guard, t.now, until);
    if IsRejection(c, a, t) {
      QuotientStep(c.maxFailures, c.lockout, until - t.now);
      QuotientMonotone(c.maxFailures, c.lockout, 0, until - t.now);
    }
  }

  lemma {:induction false} RejectionsWithinBudget(c: Config, a: Auth, events: seq<Timed>, now: int, until: int)
    requires Sane(c) && AuthInv(c, a) && 0 <= now && Clocked(events, now, until) && NoAcceptance(c, a, events)
    ensures now <= until && Rejections(c, a, events) <= Budget(c, a.guard, now, until)
    decreases |events|
  {
    if events == [] {
      BudgetNonNegative(c, a.guard, now, until);
    } else {
      var t := events[0];
      NextKeepsInv(c, a, t);
      RejectionsWithinBudget(c, Next(c, a, t), events[1..], t.now, until);
      BudgetShrinks(c, a.guard, now, t.now, until);
      BudgetStep(c, a, t, until);
    }
  }

  /**
   * Over any run without a correct proof, from any reachable state and across any number of
   * connections, at most maxFailures proofs are evaluated per started lockout period.
   */
  lemma LockoutBound(c: Config, a: Auth, events: seq<Timed>, from: int, until: int)
    requires Sane(c) && AuthInv(c, a) && 0 <= from && Clocked(events, from, until) && NoAcceptance(c, a, events)
    ensures Rejections(c, a, events) <= c.maxFailures * ((until - from) / c.lockout + 1)
  {
    RejectionsWithinBudget(c, a, events, from, until);
    QuotientMonotone(c.maxFailures, c.lockout, 0, until - from);
    if a.guard.lockedUntil != 0 && from < a.guard.lockedUntil <= until {
      QuotientMonotone(c.maxFailures, c.lockout, until - a.guard.lockedUntil, until - from);
    }
    assert c.maxFailures * ((until - from) / c.lockout + 1)
        == c.maxFailures * ((until - from) / c.lockout) + c.maxFailures;
  }

  // --- The lockout begins and ends ---------------------------------------------------

  /** Before the limit is reached every rejected proof counts, and nothing else does. */
  lemma CountingStep(c: Config, a: Auth, t: Timed, n: u32)
    requires Sane(c) && a.guard == Guard(n, 0) && !IsAcceptance(c, a, t)
    requires IsRejection(c, a, t) ==> n + 1 < c.maxFailures
    ensures Next(c, a, t).guard == Guard(if IsRejection(c, a, t) then n + 1 else n, 0)
  {
  }

  lemma {:induction false} Counting(c: Config, a: Auth, events: seq<Timed>, n: u32)
    requires Sane(c) && a.guard == Guard(n, 0) && NoAcceptance(c, a, events) && n + Rejections(c, a, events) < c.maxFailures
    ensures Run(c, a, events).guard == Guard(n + Rejections(c, a, events), 0)
    decreases |events|
  {
    if events != [] {
      CountingStep(c, a, events[0], n);
      Counting(c, Next(c, a, events[0]), events[1..], if IsRejection(c, a, events[0]) then n + 1 else n);
    }
  }

  /** The rejection that reaches the limit. */
  lemma LockStep(c: Config, a: Auth, t: Timed)
    requires Sane(c) && a.guard == Guard(c.maxFailures - 1, 0) && IsRejection(c, a, t)
    ensures Next(c, a, t).guard == Guard(c.maxFailures, t.now + c.lockout)
  {
  }

  /** The lock that ends at `until` still stands, or it has been cleared and at most `n` proofs were rejected since. */
  predicate Ending(c: Config, g: Guard, until: int, n: nat)
    requires Sane(c)
  {
    (g == Guard(c.maxFailures, until) && n == 0) || (g.lockedUntil == 0 && g.failures <= n < c.maxFailures)
  }

  lemma EndingStep(c: Config, a: Auth, t: Timed, until: int, n: nat)
    requires Sane(c) && 0 < until && Ending(c, a.guard, until, n)
    requires IsRejection(c, a, t) ==> n + 1 < c.maxFailures
    ensures Ending(c, Next(c, a, t).guard, until, if IsRejection(c, a, t) then n + 1 else n)
    ensures t.now < until && a.guard == Guard(c.maxFailures, until) ==> Next(c, a, t).guard == a.guard && !IsRejection(c, a, t)
  {
  }

  lemma {:induction false} EndingRun(c: Config, a: Auth, events: seq<Timed>, until: int, n: nat, from: int, now: int)
    requires Sane(c) && 0 < until && Ending(c, a.guard, until, n) && n + Rejections(c, a, events) < c.maxFailures
    requires Clocked(events, from, now)
    ensures Ending(c, Run(c, a, events).guard, until, n + Rejections(c, a, events))
    ensures now < until && a.guard == Guard(c.maxFailures, until) ==> Run(c, a, events).guard == a.guard
    decreases |events|
  {
    if events != [] {
      EndingStep(c, a, events[0], until, n);
      ClockedUntil(events, from, now);
      EndingRun(c, Next(c, a, events[0]), events[1..], until, if IsRejection(c, a, events[0]) then n + 1 else n, events[0].now, now);
    }
  }

  lemma {:induction false} ClockedUntil(events: seq<Timed>, from: int, until: int)
    requires Clocked(events, from, until)
    ensures from <= until && (events != [] ==> events[0].now <= until)
  {
    if events != [] {
      ClockedUntil(events[1..], events[0].now, until);
    }
  }

  /** The event presents a proof that is not the keyed hash of the pending challenge, in time. */
  predicate Guesses(c: Config, a: Auth, t: Timed) {
    && t.event.ProveAt? && a.session.challengeActive && t.now - a.session.issuedAt <= c.timeout
    && c.mac(c.domain + [c.version] + a.session.deviceId + U32Bytes(t.event.bootId) + a.session.nonce) != Some(t.event.proof)
  }

  /**
   * From a start without failures, the lock set by the last of maxFailures wrong proofs, given at
   * `wrong.now`, stands until exactly one lockout period later, whatever is sent meanwhile: a challenge
   * is refused before, and issued from then on unless maxFailures further proofs have been wrong.
   */
  lemma LockoutEnds(c: Config, a: Auth, events: seq<Timed>, wrong: Timed, more: seq<Timed>, from: int, now: int, nonce: Nonce)
    requires Sane(c) && a.guard == UNLOCKED && 0 <= wrong.now
    requires NoAcceptance(c, a, events) && Rejections(c, a, events) == c.maxFailures - 1 && Guesses(c, Run(c, a, events), wrong)
    requires var locked := Next(c, Run(c, a, events), wrong);
             Clocked(more, wrong.now, now) && Rejections(c, locked, more) < c.maxFailures
    ensures var before := Run(c, Next(c, Run(c, a, events), wrong), more);
            var (after, outcome) := Begin(before, now, nonce);
            if now < wrong.now + c.lockout then outcome == Locked && after.session == before.session
            else outcome == Accepted
                 && after.session == before.session.(nonce := nonce, issuedAt := now, challengeActive := true, authenticated := false)
  {
    var reached := Run(c, a, events);
    Counting(c, a, events, 0);
    LockStep(c, reached, wrong);
    EndingRun(c, Next(c, reached, wrong), more, wrong.now + c.lockout, 0, wrong.now, now);
  }

  /** A challenge that has been issued is answered with success by the right proof in time. */
  lemma RightProofAccepted(c: Config, a: Auth, now: int, nonce: Nonce, later: int, bootId: u32, proof: Proof)
    requires Begin(a, now, nonce).1 == Accepted && 0 <= later - now <= c.timeout
    requires c.mac(c.domain + [c.version] + a.session.deviceId + U32Bytes(bootId) + nonce) == Some(proof)
    ensures var (after, outcome) := Prove(c, Begin(a, now, nonce).0, later, bootId, proof);
            outcome == Accepted && after.session.authenticated && !after.session.challengeActive && after.guard == UNLOCKED
  {
  }

  // --- The state in memory -----------------------------------------------------------

  class AuthSession {
    var deviceId: DeviceId
    var nonce: Nonce
    var issuedAt: int
    var challengeActive: bool
    var authenticated: bool
    var disconnectRequested: bool

    function Value(): Session
      reads this
    {
      Session(deviceId, nonce, issuedAt, challengeActive, authenticated, disconnectRequested)
    }

    constructor ()
      ensures Value() == NO_SESSION
    {
      deviceId, nonce, issuedAt := ZERO6, ZERO16, 0;
      challengeActive, authenticated, disconnectRequested := false, false, false;
    }

    method Clear()
      modifies this
      ensures Value() == NO_SESSION
    {
      deviceId, nonce, issuedAt := ZERO6, ZERO16, 0;
      challengeActive, authenticated, disconnectRequested := false, false, false;
    }

    method Start(deviceId: DeviceId)
      modifies this
      ensures Value() == Started(deviceId)
    {
      Clear();
      this.deviceId := deviceId;
    }

    /** Report a requested disconnect once. */
    method TakeDisconnect() returns (requested: bool)
      modifies this`disconnectRequested
      ensures requested == old(disconnectRequested)
      ensures Value() == old(Value()).(disconnectRequested := false)
    {
      requested := disconnectRequested;
      disconnectRequested := false;
    }
  }

  class AuthGuard {
    const config: Config
    var failureCount: u32
    var lockedUntil: int

    function Value(): Guard
      reads this
    {
      Guard(failureCount, lockedUntil)
    }

    constructor (config: Config)
      ensures this.config == config && Value() == UNLOCKED
    {
      this.config, failureCount, lockedUntil := config, 0, 0;
    }

    method CheckLocked(now: int) returns (locked: bool)
      modifies this
      ensures locked <==> old(lockedUntil) != 0 && now < old(lockedUntil)
      ensures locked ==> Value() == old(Value())
      ensures !locked && old(lockedUntil) == 0 ==> Value() == old(Value())
      ensures !locked && old(lockedUntil) != 0 ==> failureCount == 0 && lockedUntil == 0
    {
      if lockedUntil == 0 {
        return false;
      }
      if now < lockedUntil {
        return true;
      }
      lockedUntil := 0;
      failureCount := 0;
      locked := false;
    }

    method BeginChallenge(session: AuthSession, now: int, nonce: Nonce) returns (outcome: Outcome)
      modifies this, session
      ensures (Auth(Value(), session.Value()), outcome) == Begin(old(Auth(Value(), session.Value())), now, nonce)
    {
      var locked := CheckLocked(now);
      if locked {
        return Locked;
      }
      session.nonce := nonce;
      session.issuedAt := now;
      session.challengeActive := true;
      session.authenticated := false;
      outcome := Accepted;
    }

    method CheckProof(session: AuthSession, now: int, bootId: u32, proof: Proof) returns (outcome: Outcome)
      modifies this, session
      ensures (Auth(Value(), session.Value()), outcome)
           == Prove(config, old(Auth(Value(), session.Value())), now, bootId, proof)
    {
      var locked := CheckLocked(now);
      if locked {
        session.disconnectRequested := true;
        return Locked;
      }
      if !session.challengeActive || now - session.issuedAt > config.timeout {
        session.challengeActive := false;
        return Required;
      }
      var expected := config.mac(Message(config, session.deviceId, bootId, session.nonce));
      var valid := false;
      if expected.Some? {
        valid := ConstantTimeEqual(expected.value, proof);
      }
      session.challengeActive := false;
      if !valid {
        failureCount := Wrap32(failureCount + 1);
        session.authenticated := false;
        session.disconnectRequested := true;
        if failureCount >= config.maxFailures {
          lockedUntil := now + config.lockout;
          return Locked;
        }
        return Rejected;
      }
      failureCount := 0;
      lockedUntil := 0;
      session.authenticated := true;
      outcome := Accepted;
    }
  }

  /** Compare without leaving early; the loop always visits every byte of `left`. */
  method ConstantTimeEqual(left: Proof, right: Proof) returns (equal: bool)
    ensures equal <==> left == right
  {
    var difference := false;
    for i := 0 to |left|
      invariant difference <==> left[..i] != right[..i]
    {
      assert left[..i + 1] == left[..i] + [left[i]] && right[..i + 1] == right[..i] + [right[i]];
      difference := difference || left[i] != right[i];
    }
    assert left[..|left|] == left && right[..|right|] == right;
    equal := !difference;
  }
}
