/** The lockout bound, carried over to requests as bytes on the wire. */
module LockoutRuns {
  import opened Words
  import opened Wire
  import opened ProtocolServer
  import opened ProtocolRuns
  import Auth = ApplicationAuth

  /** The authentication event an input amounts to, if any. */
  function EventOf(s: Server, t: Stamped): Option<Auth.Timed>
    requires WellFormed(s)
  {
    match t.input
    case Connected(id) => Some(Auth.Timed(t.now, Auth.Connect(id)))
    case Disconnected => Some(Auth.Timed(t.now, Auth.Disconnect))
    case DisconnectTaken => Some(Auth.Timed(t.now, Auth.TakeDisconnect))
    case BondResetTaken => None
    case Background(_) => None
    case Request(bytes, random, _) =>
      if IsRequest(t, AUTH_BEGIN, 0) then Some(Auth.Timed(t.now, Auth.BeginAt(random)))
      else if IsRequest(t, AUTH_PROVE, PROOF_SIZE) then
        Some(Auth.Timed(t.now, Auth.ProveAt(s.device.bootId, bytes[HEADER_SIZE..])))
      else None
  }

  function Moved(c: Auth.Config, a: Auth.Auth, e: Option<Auth.Timed>): Auth.Auth {
    if e.None? then a else Auth.Next(c, a, e.value)
  }

  /** No other byte sequence touches the authentication state. */
  lemma InputIsEvent(c: Auth.Config, s: Server, t: Stamped)
    requires WellFormed(s) && Allowed(t)
    ensures Next(c, s, t).auth == Moved(c, s.auth, EventOf(s, t))
  {
  }

  /** The input presents a proof that is compared and turned down. */
  predicate TurnsDown(c: Auth.Config, s: Server, t: Stamped)
    requires WellFormed(s)
  {
    Evaluates(c, s, t) && !Proves(c, s, t)
  }

  lemma TurnDownIsRejection(c: Auth.Config, s: Server, t: Stamped)
    requires WellFormed(s) && Allowed(t) && Auth.Sane(c)
    ensures TurnsDown(c, s, t) <==> EventOf(s, t).Some? && Auth.IsRejection(c, s.auth, EventOf(s, t).value)
    ensures EventOf(s, t).Some? && Auth.IsAcceptance(c, s.auth, EventOf(s, t).value) ==> Proves(c, s, t)
  {
  }

  function Listed(e: Option<Auth.Timed>): seq<Auth.Timed> {
    if e.None? then [] else [e.value]
  }

  /** The authentication events among the first `n` inputs. */
  function Events(c: Auth.Config, s: Server, trace: seq<Stamped>, n: nat): seq<Auth.Timed>
    requires WellFormed(s) && Trace(trace) && n <= |trace|
  {
    if n == 0 then [] else Events(c, s, trace, n - 1) + Listed(EventOf(At(c, s, trace, n - 1), trace[n - 1]))
  }

  /** How many of the first `n` inputs guess wrong. */
  function WrongGuesses(c: Auth.Config, s: Server, trace: seq<Stamped>, n: nat): nat
    requires WellFormed(s) && Trace(trace) && n <= |trace|
  {
    if n == 0 then 0
    else WrongGuesses(c, s, trace, n - 1) + if TurnsDown(c, At(c, s, trace, n - 1), trace[n - 1]) then 1 else 0
  }

  /** One more event at the end of a run. */
  lemma {:induction false} Appended(c: Auth.Config, a: Auth.Auth, events: seq<Auth.Timed>, e: Auth.Timed)
    ensures Auth.Run(c, a, events + [e]) == Auth.Next(c, Auth.Run(c, a, events), e)
    ensures Auth.Rejections(c, a, events + [e])
         == Auth.Rejections(c, a, events) + if Auth.IsRejection(c, Auth.Run(c, a, events), e) then 1 else 0
    ensures Auth.NoAcceptance(c, a, events + [e])
       <==> Auth.NoAcceptance(c, a, events) && !Auth.IsAcceptance(c, Auth.Run(c, a, events), e)
    decreases |events|
  {
    if events == [] {
      assert events + [e] == [e] && [e][1..] == [];
    } else {
      assert (events + [e])[0] == events[0] && (events + [e])[1..] == events[1..] + [e];
      Appended(c, Auth.Next(c, a, events[0]), events[1..], e);
    }
  }

  lemma {:induction false} ClockedOn(events: seq<Auth.Timed>, e: Auth.Timed, from: int, until: int, later: int)
    requires Auth.Clocked(events, from, until) && until <= e.now <= later
    ensures Auth.Clocked(events + [e], from, later)
  {
    if events == [] {
      assert events + [e] == [e] && [e][1..] == [];
    } else {
      assert (events + [e])[0] == events[0] && (events + [e])[1..] == events[1..] + [e];
      ClockedOn(events[1..], e, events[0].now, until, later);
    }
  }

  lemma {:induction false} ClockedLonger(events: seq<Auth.Timed>, from: int, until: int, later: int)
    requires Auth.Clocked(events, from, until) && until <= later
    ensures Auth.Clocked(events, from, later)
  {
    if events != [] {
      ClockedLonger(events[1..], events[0].now, until, later);
    }
  }

  /** The device clock never runs backwards along the trace. */
  predicate Timely(trace: seq<Stamped>, from: int) {
    && (forall i :: 0 <= i < |trace| ==> from <= trace[i].now)
    && forall i, j :: 0 <= i <= j < |trace| ==> trace[i].now <= trace[j].now
  }

  /** None of the first `n` inputs presents a right proof. */
  predicate Unproven(c: Auth.Config, s: Server, trace: seq<Stamped>, n: nat)
    requires WellFormed(s) && Trace(trace) && n <= |trace|
  {
    n == 0 || (Unproven(c, s, trace, n - 1) && !Proves(c, At(c, s, trace, n - 1), trace[n - 1]))
  }

  /** The events so far account for the device's authentication state and its refusals. */
  ghost predicate Mirrored(c: Auth.Config, a: Auth.Auth, events: seq<Auth.Timed>, now: Auth.Auth, wrong: nat) {
    now == Auth.Run(c, a, events) && wrong == Auth.Rejections(c, a, events) && Auth.NoAcceptance(c, a, events)
  }

  lemma MirrorStep(c: Auth.Config, a: Auth.Auth, events: seq<Auth.Timed>, s: Server, t: Stamped, wrong: nat, from: int, until: int)
    requires WellFormed(s) && Allowed(t) && Auth.Sane(c) && !Proves(c, s, t)
    requires Mirrored(c, a, events, s.auth, wrong) && Auth.Clocked(events, from, until) && until <= t.now
    ensures var longer := events + Listed(EventOf(s, t));
            && Mirrored(c, a, longer, Next(c, s, t).auth, wrong + if TurnsDown(c, s, t) then 1 else 0)
            && Auth.Clocked(longer, from, t.now)
  {
    InputIsEvent(c, s, t);
    TurnDownIsRejection(c, s, t);
    OneMore(c, a, events, EventOf(s, t), from, until, t.now);
  }

  /** The bytes' run is the events' run. */
  lemma {:induction false} TraceIsRun(c: Auth.Config, s: Server, trace: seq<Stamped>, n: nat, from: int)
    requires WellFormed(s) && Trace(trace) && n <= |trace| && Auth.Sane(c) && Timely(trace, from)
    requires Unproven(c, s, trace, n)
    ensures Mirrored(c, s.auth, Events(c, s, trace, n), At(c, s, trace, n).auth, WrongGuesses(c, s, trace, n))
    ensures Auth.Clocked(Events(c, s, trace, n), from, if n == 0 then from else trace[n - 1].now)
  {
    if n > 0 {
      TraceIsRun(c, s, trace, n - 1, from);
      MirrorStep(c, s.auth, Events(c, s, trace, n - 1), At(c, s, trace, n - 1), trace[n - 1],
                 WrongGuesses(c, s, trace, n - 1), from, if n == 1 then from else trace[n - 2].now);
    }
  }

  lemma OneMore(c: Auth.Config, a: Auth.Auth, events: seq<Auth.Timed>, e: Option<Auth.Timed>, from: int, until: int, later: int)
    requires Auth.Clocked(events, from, until) && until <= later && (e.Some? ==> e.value.now == later)
    ensures Auth.Run(c, a, events + Listed(e)) == Moved(c, Auth.Run(c, a, events), e)
    ensures Auth.Rejections(c, a, events + Listed(e))
         == Auth.Rejections(c, a, events)
            + if e.Some? && Auth.IsRejection(c, Auth.Run(c, a, events), e.value) then 1 else 0
    ensures Auth.NoAcceptance(c, a, events + Listed(e))
       <==> Auth.NoAcceptance(c, a, events) && !(e.Some? && Auth.IsAcceptance(c, Auth.Run(c, a, events), e.value))
    ensures Auth.Clocked(events + Listed(e), from, later)
  {
    if e.None? {
      assert events + [] == events;
      ClockedLonger(events, from, until, later);
    } else {
      Appended(c, a, events, e.value);
      ClockedOn(events, e.value, from, until, later);
    }
  }

  /**
   * Guessing on the wire: whatever bytes arrive over however many connections, while no proof is
   * right, at most maxFailures wrong proofs are compared per started lockout period.
   */
  lemma GuessingIsBounded(c: Auth.Config, s: Server, trace: seq<Stamped>, from: int, until: int)
    requires Fresh(c, s) && Trace(trace) && Timely(trace, from) && 0 <= from <= until
    requires (forall k :: 0 <= k < |trace| ==> trace[k].now <= until) && Unproven(c, s, trace, |trace|)
    ensures WrongGuesses(c, s, trace, |trace|) <= c.maxFailures * ((until - from) / c.lockout + 1)
  {
    var n := |trace|;
    var events := Events(c, s, trace, n);
    TraceIsRun(c, s, trace, n, from);
    ClockedLonger(events, from, if n == 0 then from else trace[n - 1].now, until);
    Auth.LockoutBound(c, s.auth, events, from, until);
  }
}
