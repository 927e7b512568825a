/** What the authentication gate guarantees over whole runs of the device. */
module ProtocolRuns {
  import opened Words
  import opened ApplicationAuth
  import opened Wire
  import opened ProtocolServer
  import Device

  datatype Input =
    | Connected(deviceId: DeviceId)
    | Disconnected
    | Request(bytes: seq<u8>, random: Nonce, capacity: nat)
    | DisconnectTaken
    | BondResetTaken
    | Background(event: Device.Event)

  datatype Stamped = Stamped(now: int, input: Input)

  /** Background activity is sampling, sensor readings and the local buttons. */
  predicate Allowed(t: Stamped) {
    && 0 <= t.now
    && (t.input.Background? ==> Device.Possible(t.input.event) && t.input.event != Device.Frozen)
  }

  predicate Trace(trace: seq<Stamped>) {
    forall i :: 0 <= i < |trace| ==> Allowed(trace[i])
  }

  function Next(c: Config, s: Server, t: Stamped): (u: Server)
    requires WellFormed(s) && Allowed(t)
    ensures WellFormed(u)
  {
    match t.input
    case Connected(id) => s.(auth := s.auth.(session := Started(id)), bondReset := false)
    case Disconnected => s.(auth := s.auth.(session := NO_SESSION), bondReset := false)
    case Request(bytes, random, capacity) =>
      if capacity < HEADER_SIZE then s else Process(c, s, Ambient(t.now, random), bytes, capacity).0
    case DisconnectTaken => s.(auth := s.auth.(session := s.auth.session.(disconnectRequested := false)))
    case BondResetTaken => s.(bondReset := false)
    case Background(e) => s.(device := Device.Step(s.device, e))
  }

  /** The device before input `n` of the trace. */
  function At(c: Config, s: Server, trace: seq<Stamped>, n: nat): (u: Server)
    requires WellFormed(s) && Trace(trace) && n <= |trace|
    ensures WellFormed(u)
  {
    if n == 0 then s else Next(c, At(c, s, trace, n - 1), trace[n - 1])
  }

  // --- What an observer of requests and replies sees ------------------------------------

  predicate IsRequest(t: Stamped, opcode: u8, length: nat) {
    && t.input.Request? && HEADER_SIZE <= t.input.capacity
    && HeaderFault(t.input.bytes).None?
    && OpcodeOf(t.input.bytes) == opcode
    && |t.input.bytes| == HEADER_SIZE + length
  }

  function StatusAt(c: Config, s: Server, t: Stamped): Status
    requires WellFormed(s) && t.input.Request?
  {
    Process(c, s, Ambient(t.now, t.input.random), t.input.bytes, t.input.capacity).1.status
  }

  /** The input asks for a challenge and is not turned away by a lockout. */
  predicate Issues(c: Config, s: Server, t: Stamped)
    requires WellFormed(s)
  {
    IsRequest(t, AUTH_BEGIN, 0) && StatusAt(c, s, t) != AuthenticationLocked
  }

  /** The input presents a proof and is told that it is right. */
  predicate Proves(c: Config, s: Server, t: Stamped)
    requires WellFormed(s)
  {
    IsRequest(t, AUTH_PROVE, PROOF_SIZE) && StatusAt(c, s, t) == Ok
  }

  /** The input presents a proof that reaches the comparison. */
  predicate Evaluates(c: Config, s: Server, t: Stamped)
    requires WellFormed(s)
  {
    IsRequest(t, AUTH_PROVE, PROOF_SIZE) && Evaluated(c, s.auth, t.now)
  }

  predicate Boundary(t: Stamped) {
    t.input.Connected? || t.input.Disconnected?
  }

  // --- One step ------------------------------------------------------------------------------

  lemma IssueStep(c: Config, s: Server, t: Stamped)
    requires WellFormed(s) && Allowed(t) && Issues(c, s, t)
    ensures var a := Next(c, s, t).auth.session;
            a == s.auth.session.(nonce := t.input.random, issuedAt := t.now, challengeActive := true, authenticated := false)
  {
  }

  lemma ProveStep(c: Config, s: Server, t: Stamped)
    requires WellFormed(s) && Allowed(t) && Sane(c) && AuthInv(c, s.auth) && !Boundary(t) && !Issues(c, s, t)
    ensures var u := Next(c, s, t);
            && (u.auth.session.challengeActive ==> s.auth.session.challengeActive && !Evaluates(c, s, t))
            && u.auth.session.nonce == s.auth.session.nonce && u.auth.session.issuedAt == s.auth.session.issuedAt
            && u.auth.session.deviceId == s.auth.session.deviceId
            && (u.auth.session.authenticated <==> s.auth.session.authenticated || Proves(c, s, t))
  {
    if t.input.Request? && HEADER_SIZE <= t.input.capacity {
      RequestStep(c, s, t);
    }
  }

  /** Only the two authentication opcodes touch the session. */
  lemma RequestStep(c: Config, s: Server, t: Stamped)
    requires WellFormed(s) && Allowed(t) && t.input.Request? && HEADER_SIZE <= t.input.capacity
    ensures Next(c, s, t).auth
         == if IsRequest(t, AUTH_BEGIN, 0) then Begin(s.auth, t.now, t.input.random).0
            else if IsRequest(t, AUTH_PROVE, PROOF_SIZE) then
              Prove(c, s.auth, t.now, s.device.bootId, t.input.bytes[HEADER_SIZE..]).0
            else s.auth
  {
  }

  /** A right proof answers the pending challenge of this connection, in time. */
  lemma RightProof(c: Config, s: Server, t: Stamped)
    requires WellFormed(s) && Allowed(t) && Proves(c, s, t)
    ensures Evaluates(c, s, t) && s.auth.session.challengeActive
    ensures t.now - s.auth.session.issuedAt <= c.timeout
    ensures c.mac(Message(c, s.auth.session.deviceId, s.device.bootId, s.auth.session.nonce))
         == Some(t.input.bytes[HEADER_SIZE..])
  {
  }

  lemma StepKeepsInv(c: Config, s: Server, t: Stamped)
    requires WellFormed(s) && Allowed(t) && Sane(c) && AuthInv(c, s.auth)
    ensures AuthInv(c, Next(c, s, t).auth)
  {
    if t.input.Request? && HEADER_SIZE <= t.input.capacity {
      RequestStep(c, s, t);
    }
  }

  lemma {:induction false} AlwaysInv(c: Config, s: Server, trace: seq<Stamped>, n: nat)
    requires WellFormed(s) && Trace(trace) && n <= |trace| && Sane(c) && AuthInv(c, s.auth)
    ensures AuthInv(c, At(c, s, trace, n).auth)
  {
    if n > 0 {
      AlwaysInv(c, s, trace, n - 1);
      StepKeepsInv(c, At(c, s, trace, n - 1), trace[n - 1]);
    }
  }

  // --- Sessions of a run, seen one step at a time --------------------------------------------

  /** What one input did, as far as the session is concerned. */
  datatype Mark = Mark(
    issues: bool, boundary: bool, evaluates: bool, proves: bool,
    now: int, random: Nonce, bootId: u32, payload: seq<u8>
  )

  function MarkOf(c: Config, s: Server, t: Stamped): Mark
    requires WellFormed(s)
  {
    Mark(Issues(c, s, t), Boundary(t), Evaluates(c, s, t), Proves(c, s, t), t.now,
         if t.input.Request? then t.input.random else ZERO16, s.device.bootId,
         if t.input.Request? && |t.input.bytes| >= HEADER_SIZE then t.input.bytes[HEADER_SIZE..] else [])
  }

  /** How a session may move across one input. */
  predicate Linked(c: Config, a: Session, m: Mark, b: Session) {
    && (m.evaluates ==> a.challengeActive && !m.boundary && !m.issues)
    && (m.proves ==> m.evaluates && m.now - a.issuedAt <= c.timeout
                     && c.mac(Message(c, a.deviceId, m.bootId, a.nonce)) == Some(m.payload))
    && (m.boundary ==> !m.issues && !b.challengeActive && !b.authenticated)
    && (m.issues ==> b.challengeActive && !b.authenticated && b == a.(nonce := m.random, issuedAt := m.now, challengeActive := true, authenticated := false))
    && (!m.issues && !m.boundary ==>
          && (b.challengeActive ==> a.challengeActive && !m.evaluates)
          && (b.authenticated <==> a.authenticated || m.proves)
          && b.nonce == a.nonce && b.issuedAt == a.issuedAt && b.deviceId == a.deviceId)
  }

  predicate Chain(c: Config, views: seq<Session>, marks: seq<Mark>) {
    && |views| == |marks| + 1
    && !views[0].challengeActive && !views[0].authenticated
    && forall k :: 0 <= k < |marks| ==> Linked(c, views[k], marks[k], views[k + 1])
  }

  /** The challenge of input `i` is still the connection's current one just before input `n`. */
  predicate Current(marks: seq<Mark>, i: nat, n: nat) {
    && i < n <= |marks| && marks[i].issues
    && forall k :: i < k < n ==> !marks[k].issues && !marks[k].boundary
  }

  /** A pending challenge is the one issued last in this connection. */
  lemma {:induction false} PendingIsCurrent(c: Config, views: seq<Session>, marks: seq<Mark>, n: nat) returns (i: nat)
    requires Chain(c, views, marks) && n <= |marks| && views[n].challengeActive
    ensures Current(marks, i, n)
    ensures i < n && views[n].nonce == marks[i].random && views[n].issuedAt == marks[i].now && views[n].deviceId == views[i].deviceId
  {
    assert Linked(c, views[n - 1], marks[n - 1], views[n - 1 + 1]);
    if marks[n - 1].issues {
      i := n - 1;
    } else {
      i := PendingIsCurrent(c, views, marks, n - 1);
    }
  }

  /**
   * The whole reason a session counts as authenticated just before input `n`: input `i` issued
   * the connection's current challenge, input `j` presented the keyed hash of exactly that
   * challenge within the timeout, and neither a new challenge nor a new connection came since.
   */
  predicate Authentic(c: Config, views: seq<Session>, marks: seq<Mark>, i: nat, j: nat, n: nat)
    requires |views| == |marks| + 1
  {
    && i < j < n && Current(marks, i, n) && marks[j].proves
    && marks[j].now - marks[i].now <= c.timeout
    && c.mac(Message(c, views[i].deviceId, marks[j].bootId, marks[i].random)) == Some(marks[j].payload)
  }

  ghost predicate Justified(c: Config, views: seq<Session>, marks: seq<Mark>, n: nat)
    requires |views| == |marks| + 1
  {
    exists i, j :: Authentic(c, views, marks, i, j, n)
  }

  lemma {:induction false} AuthenticatedNeedsProof(c: Config, views: seq<Session>, marks: seq<Mark>, n: nat) returns (i: nat, j: nat)
    requires Chain(c, views, marks) && n <= |marks| && views[n].authenticated
    ensures Authentic(c, views, marks, i, j, n)
  {
    assert Linked(c, views[n - 1], marks[n - 1], views[n - 1 + 1]);
    if views[n - 1].authenticated {
      i, j := AuthenticatedNeedsProof(c, views, marks, n - 1);
    } else {
      i := PendingIsCurrent(c, views, marks, n - 1);
      j := n - 1;
    }
  }

  lemma {:induction false} ProofAuthenticates(c: Config, views: seq<Session>, marks: seq<Mark>, i: nat, j: nat, n: nat)
    requires Chain(c, views, marks) && i < j < n && Current(marks, i, n) && marks[j].proves
    ensures views[n].authenticated
  {
    assert Linked(c, views[n - 1], marks[n - 1], views[n - 1 + 1]);
    if j < n - 1 {
      ProofAuthenticates(c, views, marks, i, j, n - 1);
    }
  }

  lemma ChainAuthentic(c: Config, views: seq<Session>, marks: seq<Mark>, n: nat)
    requires Chain(c, views, marks) && n == |marks|
    ensures views[n].authenticated <==> Justified(c, views, marks, n)
  {
    if views[n].authenticated {
      var i, j := AuthenticatedNeedsProof(c, views, marks, n);
    }
    forall i, j | Authentic(c, views, marks, i, j, n)
      ensures views[n].authenticated
    {
      ProofAuthenticates(c, views, marks, i, j, n);
    }
  }

  /** Once compared, a challenge stays used up until the next one is issued. */
  lemma {:induction false} UsedUp(c: Config, views: seq<Session>, marks: seq<Mark>, i: nat, j: nat, n: nat)
    requires Chain(c, views, marks) && i <= j < n && Current(marks, i, n) && marks[j].evaluates
    ensures !views[n].challengeActive
  {
    assert Linked(c, views[n - 1], marks[n - 1], views[n - 1 + 1]);
    if j < n - 1 {
      UsedUp(c, views, marks, i, j, n - 1);
    }
  }

  // --- Whole runs ----------------------------------------------------------------------------

  predicate Fresh(c: Config, s: Server) {
    WellFormed(s) && Sane(c) && s.auth.session == NO_SESSION && GuardInv(c, s.auth.guard)
  }

  /** The session before each of the first `n` inputs and after them. */
  function Views(c: Config, s: Server, trace: seq<Stamped>, n: nat): (views: seq<Session>)
    requires WellFormed(s) && Trace(trace) && n <= |trace|
    ensures |views| == n + 1
  {
    seq(n + 1, k requires 0 <= k <= n => At(c, s, trace, k).auth.session)
  }

  /** What each of the first `n` inputs did. */
  function Marks(c: Config, s: Server, trace: seq<Stamped>, n: nat): (marks: seq<Mark>)
    requires WellFormed(s) && Trace(trace) && n <= |trace|
    ensures |marks| == n
  {
    seq(n, k requires 0 <= k < n => MarkOf(c, At(c, s, trace, k), trace[k]))
  }

  lemma ViewAt(c: Config, s: Server, trace: seq<Stamped>, n: nat, k: nat)
    requires WellFormed(s) && Trace(trace) && k <= n <= |trace|
    ensures Views(c, s, trace, n)[k] == At(c, s, trace, k).auth.session
  {
  }

  lemma MarkAt(c: Config, s: Server, trace: seq<Stamped>, n: nat, k: nat)
    requires WellFormed(s) && Trace(trace) && k < n <= |trace|
    ensures Marks(c, s, trace, n)[k] == MarkOf(c, At(c, s, trace, k), trace[k])
  {
  }

  lemma StepLinked(c: Config, s: Server, t: Stamped)
    requires WellFormed(s) && Allowed(t) && Sane(c) && AuthInv(c, s.auth)
    ensures Linked(c, s.auth.session, MarkOf(c, s, t), Next(c, s, t).auth.session)
  {
    if Issues(c, s, t) {
      IssueStep(c, s, t);
    } else if !Boundary(t) {
      ProveStep(c, s, t);
      if Proves(c, s, t) {
        RightProof(c, s, t);
      }
    }
  }

  lemma RunLinked(c: Config, s: Server, trace: seq<Stamped>, k: nat)
    requires Fresh(c, s) && Trace(trace) && k < |trace|
    ensures Linked(c, At(c, s, trace, k).auth.session, MarkOf(c, At(c, s, trace, k), trace[k]), At(c, s, trace, k + 1).auth.session)
  {
    AlwaysInv(c, s, trace, k);
    StepLinked(c, At(c, s, trace, k), trace[k]);
    assert At(c, s, trace, k + 1) == Next(c, At(c, s, trace, k), trace[k]);
  }

  lemma ViewsLinked(c: Config, s: Server, trace: seq<Stamped>, n: nat, k: nat)
    requires Fresh(c, s) && Trace(trace) && k < n <= |trace|
    ensures Linked(c, Views(c, s, trace, n)[k], Marks(c, s, trace, n)[k], Views(c, s, trace, n)[k + 1])
  {
    var before, after := At(c, s, trace, k), At(c, s, trace, k + 1);
    ViewAt(c, s, trace, n, k);
    ViewAt(c, s, trace, n, k + 1);
    MarkAt(c, s, trace, n, k);
    RunLinked(c, s, trace, k);
    SameLinked(c, before.auth.session, MarkOf(c, before, trace[k]), after.auth.session,
               Views(c, s, trace, n)[k], Marks(c, s, trace, n)[k], Views(c, s, trace, n)[k + 1]);
  }

  lemma SameLinked(c: Config, a: Session, m: Mark, b: Session, a': Session, m': Mark, b': Session)
    requires Linked(c, a, m, b) && a' == a && m' == m && b' == b
    ensures Linked(c, a', m', b')
  {
  }

  lemma RunChain(c: Config, s: Server, trace: seq<Stamped>, n: nat)
    requires Fresh(c, s) && Trace(trace) && n <= |trace|
    ensures Chain(c, Views(c, s, trace, n), Marks(c, s, trace, n))
  {
    var views, marks := Views(c, s, trace, n), Marks(c, s, trace, n);
    ViewAt(c, s, trace, n, 0);
    forall k | 0 <= k < n
      ensures Linked(c, views[k], marks[k], views[k + 1])
    {
      ViewsLinked(c, s, trace, n, k);
    }
  }

  /**
   * A session is authenticated exactly when, in this connection, the proof for the last issued
   * challenge was presented in time and accepted, and no challenge was issued since.
   */
  lemma AuthenticatedIff(c: Config, s: Server, trace: seq<Stamped>, n: nat)
    requires Fresh(c, s) && Trace(trace) && n <= |trace|
    ensures At(c, s, trace, n).auth.session.authenticated <==>
            Justified(c, Views(c, s, trace, n), Marks(c, s, trace, n), n)
  {
    RunChain(c, s, trace, n);
    ViewAt(c, s, trace, n, n);
    ChainAuthentic(c, Views(c, s, trace, n), Marks(c, s, trace, n), n);
  }

  predicate Protected(opcode: u8) {
    opcode != AUTH_BEGIN && opcode != AUTH_PROVE
  }

  /** The gate: a protected opcode succeeds on authenticated sessions only. */
  lemma Gate(c: Config, s: Server, t: Stamped)
    requires WellFormed(s) && t.input.Request? && Protected(OpcodeOf(t.input.bytes)) && StatusAt(c, s, t) == Ok
    ensures s.auth.session.authenticated
  {
  }

  /** No protected opcode succeeds, over any run, without such a proof. */
  lemma ProtectedNeedsProof(c: Config, s: Server, trace: seq<Stamped>, n: nat)
    requires Fresh(c, s) && Trace(trace) && n < |trace|
    requires trace[n].input.Request? && Protected(OpcodeOf(trace[n].input.bytes))
    requires StatusAt(c, At(c, s, trace, n), trace[n]) == Ok
    ensures Justified(c, Views(c, s, trace, n), Marks(c, s, trace, n), n)
  {
    Gate(c, At(c, s, trace, n), trace[n]);
    AuthenticatedIff(c, s, trace, n);
  }

  /** Between two proofs that are compared a new challenge is issued: none is tried twice. */
  lemma ChallengeUsedOnce(c: Config, s: Server, trace: seq<Stamped>, j: nat, k: nat)
    requires Fresh(c, s) && Trace(trace) && j < k < |trace|
    requires Evaluates(c, At(c, s, trace, j), trace[j]) && Evaluates(c, At(c, s, trace, k), trace[k])
    ensures exists i :: j < i < k && Issues(c, At(c, s, trace, i), trace[i])
  {
    var views, marks := Views(c, s, trace, k), Marks(c, s, trace, k);
    RunChain(c, s, trace, k);
    ViewAt(c, s, trace, k, k);
    MarkAt(c, s, trace, k, j);
    var i := PendingIsCurrent(c, views, marks, k);
    if i <= j {
      UsedUp(c, views, marks, i, j, k);
    }
    MarkAt(c, s, trace, k, i);
  }

  /** Whatever it sends, an unauthenticated peer changes neither display, rings nor bond. */
  lemma UnauthenticatedIsHarmless(c: Config, s: Server, env: Ambient, request: seq<u8>, capacity: nat)
    requires WellFormed(s) && !s.auth.session.authenticated
    ensures Process(c, s, env, request, capacity).0.device == s.device
    ensures Process(c, s, env, request, capacity).0.bondReset == s.bondReset
    ensures Protected(OpcodeOf(request)) ==> Process(c, s, env, request, capacity).0 == s
  {
  }
}
