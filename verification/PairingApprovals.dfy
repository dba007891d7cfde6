/** Pairing approval: one queue of requests waiting for the local user. Each operation is one atomic step. */
module PairingApprovals {
  import opened Basics
  import opened RejectRecords

  const MAX_PENDING_PAIRINGS := 16

  /** Names one registration: the channel between a request and the one who waits for its decision. */
  type Ticket = nat

  datatype Refusal = TooMany | AlreadyPending | Paused

  /**
   * `listening` holds the tickets someone still waits on, `answers` the decisions sent but not yet
   * read, and `history` every decision that was delivered.
   */
  datatype Pairing = Pairing(
    pending: map<string, Ticket>,
    rejects: map<string, Record>,
    next: Ticket,
    listening: set<Ticket>,
    answers: map<Ticket, bool>,
    history: seq<Decision>)

  const EMPTY := Pairing(map[], map[], 0, {}, map[], [])

  function Refused(s: Pairing, peer: string, now: Instant): Option<Refusal> {
    if |s.pending| >= MAX_PENDING_PAIRINGS then Some(TooMany)
    else if peer in s.pending then Some(AlreadyPending)
    else if Frozen(s.rejects, peer, now) then Some(Paused)
    else None
  }

  function Register(s: Pairing, fingerprint: string, now: Instant): (Pairing, Result<Ticket, Refusal>) {
    var peer := AsciiLower(fingerprint);
    var refused := Refused(s, peer, now);
    if refused.Some? then (s, Err(refused.value))
    else
      (s.(pending := s.pending[peer := s.next], rejects := Swept(s.rejects, now),
          next := s.next + 1, listening := s.listening + {s.next}), Ok(s.next))
  }

  /** The decision reaches whoever waits; only then does it count. */
  function Decide(s: Pairing, fingerprint: string, approved: bool, now: Instant): (Pairing, bool) {
    var peer := AsciiLower(fingerprint);
    if peer !in s.pending then (s, false)
    else
      var ticket, rest := s.pending[peer], s.(pending := s.pending - {peer});
      if ticket !in s.listening then (rest, false)
      else
        (rest.(rejects := Decided(s.rejects, peer, approved, now), answers := s.answers[ticket := approved],
               history := s.history + [Decision(peer, approved, now)]), true)
  }

  function Cancel(s: Pairing, fingerprint: string): Pairing {
    s.(pending := s.pending - {AsciiLower(fingerprint)})
  }

  /** The one who waited got an answer or ran out of time; the request is removed by its key. */
  function Finish(s: Pairing, peer: string, ticket: Ticket): (Pairing, bool) {
    (s.(pending := s.pending - {peer}, listening := s.listening - {ticket}, answers := s.answers - {ticket}),
     ticket in s.answers && s.answers[ticket])
  }

  /** The one who waited went away without waiting; the request stays listed. */
  function Abandon(s: Pairing, ticket: Ticket): Pairing {
    s.(listening := s.listening - {ticket})
  }

  class PairingApprovals {
    var pending: map<string, Ticket>
    var rejects: map<string, Record>
    var next: Ticket
    var listening: set<Ticket>
    var answers: map<Ticket, bool>
    ghost var history: seq<Decision>

    ghost function State(): Pairing
      reads this
    {
      Pairing(pending, rejects, next, listening, answers, history)
    }

    constructor ()
      ensures State() == EMPTY
    {
      pending, rejects, next, listening, answers, history := map[], map[], 0, {}, map[], [];
    }

    /** Lists a request, unless the queue is full, the device is listed already, or it is frozen. */
    method RegisterRequest(fingerprint: string, now: Instant) returns (r: Result<Ticket, Refusal>)
      modifies this
      ensures (State(), r) == Register(old(State()), fingerprint, now)
    {
      var peer := AsciiLower(fingerprint);
      if |pending| >= MAX_PENDING_PAIRINGS {
        return Err(TooMany);
      }
      if peer in pending {
        return Err(AlreadyPending);
      }
      if peer in rejects && FrozenRecord(rejects[peer], now) {
        return Err(Paused);
      }
      rejects := Swept(rejects, now);
      var ticket := next;
      pending := pending[peer := ticket];
      next := next + 1;
      listening := listening + {ticket};
      r := Ok(ticket);
    }

    /** The local user's decision. */
    method DecideRequest(fingerprint: string, approved: bool, now: Instant) returns (delivered: bool)
      modifies this
      ensures (State(), delivered) == Decide(old(State()), fingerprint, approved, now)
    {
      var peer := AsciiLower(fingerprint);
      if peer !in pending {
        return false;
      }
      var ticket := pending[peer];
      pending := pending - {peer};
      if ticket !in listening {
        return false;
      }
      answers := answers[ticket := approved];
      if approved {
        rejects := rejects - {peer};
      } else {
        var record := if peer in rejects then rejects[peer] else FreshRecord(now);
        if Elapsed(record.windowStarted, now) >= REJECT_WINDOW {
          record := FreshRecord(now);
        }
        record := record.(count := record.count + 1);
        if record.count >= MAX_REJECTS {
          record := record.(frozenUntil := Some(now + REJECT_FREEZE));
        }
        rejects := rejects[peer := record];
      }
      history := history + [Decision(peer, approved, now)];
      delivered := true;
    }

    method CancelRequest(fingerprint: string)
      modifies this
      ensures State() == Cancel(old(State()), fingerprint)
    {
      pending := pending - {AsciiLower(fingerprint)};
    }

    /** The end of waiting, whether by decision or by timeout: without an answer the request was denied. */
    method FinishWaiting(peer: string, ticket: Ticket) returns (approved: bool)
      modifies this
      ensures (State(), approved) == Finish(old(State()), peer, ticket)
    {
      approved := ticket in answers && answers[ticket];
      answers := answers - {ticket};
      listening := listening - {ticket};
      pending := pending - {peer};
    }
  }

  // ---- runs ----------------------------------------------------------------------------------

  datatype Op =
    | RegisterOp(fingerprint: string, now: Instant)
    | DecideOp(fingerprint: string, approved: bool, now: Instant)
    | CancelOp(fingerprint: string, now: Instant)
    | FinishOp(peer: string, ticket: Ticket, now: Instant)
    | AbandonOp(ticket: Ticket, now: Instant)

  function Apply(s: Pairing, op: Op): Pairing {
    match op
    case RegisterOp(fingerprint, now) => Register(s, fingerprint, now).0
    case DecideOp(fingerprint, approved, now) => Decide(s, fingerprint, approved, now).0
    case CancelOp(fingerprint, _) => Cancel(s, fingerprint)
    case FinishOp(peer, ticket, _) => Finish(s, peer, ticket).0
    case AbandonOp(ticket, _) => Abandon(s, ticket)
  }

  function Run(ops: seq<Op>): Pairing {
    if ops == [] then EMPTY else Apply(Run(ops[..|ops| - 1]), ops[|ops| - 1])
  }

  predicate InTime(ops: seq<Op>) {
    forall i, j :: 0 <= i <= j < |ops| ==> ops[i].now <= ops[j].now
  }

  function ClockOf(ops: seq<Op>): Instant {
    if ops == [] then 0 else ops[|ops| - 1].now
  }

  /** No listed device is frozen. */
  predicate NoneFrozen(s: Pairing, now: Instant) {
    forall peer :: peer in s.pending ==> !Frozen(s.rejects, peer, now)
  }

  ghost predicate Safe(s: Pairing, clock: Instant) {
    && |s.pending| <= 16
    && NoneFrozen(s, clock)
    && Tracks(s.rejects, s.history, clock) && Clocked(s.history, clock)
  }

  lemma ShrinkPending(s: Pairing, peer: string)
    ensures |s.pending - {peer}| <= |s.pending|
  {
    assert (s.pending - {peer}).Keys == s.pending.Keys - {peer};
    assert |(s.pending - {peer}).Keys| <= |s.pending.Keys|;
  }

  lemma GrowPending(s: Pairing, peer: string, ticket: Ticket)
    requires peer !in s.pending
    ensures |s.pending[peer := ticket]| == |s.pending| + 1
  {
    assert s.pending[peer := ticket].Keys == s.pending.Keys + {peer};
  }

  lemma SafeLater(s: Pairing, clock: Instant, now: Instant)
    requires Safe(s, clock) && clock <= now
    ensures Safe(s, now)
  {
    TracksLater(s.rejects, s.history, clock, now);
    hide Tracks;
  }

  lemma RegisterSafe(s: Pairing, fingerprint: string, now: Instant)
    requires Safe(s, now)
    ensures Safe(Register(s, fingerprint, now).0, now)
  {
    var peer := AsciiLower(fingerprint);
    TracksSwept(s.rejects, s.history, now, now);
    hide Tracks, Clocked;
    if peer !in s.pending {
      GrowPending(s, peer, s.next);
    }
  }

  lemma DecideSafe(s: Pairing, fingerprint: string, approved: bool, now: Instant)
    requires Safe(s, now)
    ensures Safe(Decide(s, fingerprint, approved, now).0, now)
  {
    var peer := AsciiLower(fingerprint);
    var d := Decision(peer, approved, now);
    TracksDecided(s.rejects, s.history, now, d);
    assert Clocked(s.history + [d], now);
    hide Tracks, Clocked;
    ShrinkPending(s, peer);
  }

  /**
   * Over every run, whatever the order of its steps: at most 16 requests are listed, none of them from
   * a frozen device, and who is frozen follows from the delivered decisions alone.
   */
  lemma {:induction false} RunSafe(ops: seq<Op>)
    requires InTime(ops)
    ensures Safe(Run(ops), ClockOf(ops))
  {
    if ops != [] {
      var n := |ops| - 1;
      RunSafe(ops[..n]);
      var s, op := Run(ops[..n]), ops[n];
      assert n > 0 ==> ops[n - 1].now <= op.now;
      SafeLater(s, ClockOf(ops[..n]), op.now);
      StepSafe(s, op);
    }
  }

  lemma StepSafe(s: Pairing, op: Op)
    requires Safe(s, op.now)
    ensures Safe(Apply(s, op), op.now)
  {
    match op
    case RegisterOp(fingerprint, now) => RegisterSafe(s, fingerprint, now);
    case DecideOp(fingerprint, approved, now) => DecideSafe(s, fingerprint, approved, now);
    case CancelOp(fingerprint, _) => ShrinkPending(s, AsciiLower(fingerprint));
    case FinishOp(peer, ticket, _) => ShrinkPending(s, peer);
    case AbandonOp(_, _) =>
  }

  // ---- a freeze holds ------------------------------------------------------------------------

  predicate FrozenUntil(s: Pairing, peer: string, until: Instant) {
    peer in s.rejects && s.rejects[peer].frozenUntil == Some(until)
  }

  /** While a device is frozen no step lifts its freeze, and every request of it is refused. */
  lemma FreezeStep(s: Pairing, op: Op, peer: string, until: Instant)
    requires NoneFrozen(s, op.now) && FrozenUntil(s, peer, until) && op.now < until
    ensures FrozenUntil(Apply(s, op), peer, until)
    ensures op.RegisterOp? && AsciiLower(op.fingerprint) == peer ==>
              Register(s, op.fingerprint, op.now).1.Err? && Apply(s, op) == s
  {
    hide AsciiLower;
    assert peer !in s.pending;
  }

  /** A run of steps that all fall before the freeze ends leaves it as it was. */
  lemma {:induction false} FreezeHolds(s: Pairing, ops: seq<Op>, peer: string, until: Instant, clock: Instant)
    requires Safe(s, clock) && FrozenUntil(s, peer, until) && InTime(ops)
    requires forall i :: 0 <= i < |ops| ==> clock <= ops[i].now < until
    ensures FrozenUntil(AfterAll(s, ops), peer, until)
  {
    if ops != [] {
      var n := |ops| - 1;
      FreezeHolds(s, ops[..n], peer, until, clock);
      var t := AfterAll(s, ops[..n]);
      SafeAfter(s, ops[..n], clock);
      SafeLater(t, if n == 0 then clock else ops[n - 1].now, ops[n].now);
      FreezeStep(t, ops[n], peer, until);
    }
  }

  /** So every request of the device before the freeze ends is refused, whatever else happens meanwhile. */
  lemma FreezeRefuses(
    s: Pairing, ops: seq<Op>, fingerprint: string, now: Instant, until: Instant, clock: Instant)
    requires Safe(s, clock) && FrozenUntil(s, AsciiLower(fingerprint), until) && InTime(ops)
    requires forall i :: 0 <= i < |ops| ==> clock <= ops[i].now <= now
    requires clock <= now < until
    ensures Register(AfterAll(s, ops), fingerprint, now).1.Err?
  {
    FreezeHolds(s, ops, AsciiLower(fingerprint), until, clock);
    hide AsciiLower, AfterAll;
  }

  function AfterAll(s: Pairing, ops: seq<Op>): Pairing {
    if ops == [] then s else Apply(AfterAll(s, ops[..|ops| - 1]), ops[|ops| - 1])
  }

  lemma {:induction false} SafeAfter(s: Pairing, ops: seq<Op>, clock: Instant)
    requires Safe(s, clock) && InTime(ops) && forall i :: 0 <= i < |ops| ==> clock <= ops[i].now
    ensures Safe(AfterAll(s, ops), if ops == [] then clock else ops[|ops| - 1].now)
  {
    if ops != [] {
      var n := |ops| - 1;
      SafeAfter(s, ops[..n], clock);
      SafeLater(AfterAll(s, ops[..n]), if n == 0 then clock else ops[n - 1].now, ops[n].now);
      StepSafe(AfterAll(s, ops[..n]), ops[n]);
    }
  }

  /** A denial that freezes does so for exactly a minute, and takes the device off the list. */
  lemma FreezingDenial(s: Pairing, fingerprint: string, now: Instant)
    requires Safe(s, now) && Decide(s, fingerprint, false, now).1
    ensures var t := Decide(s, fingerprint, false, now).0;
            var peer := AsciiLower(fingerprint);
            && peer !in t.pending && peer in t.rejects
            && (t.rejects[peer].count >= 5 <==> FrozenUntil(t, peer, now + 60 * SECOND))
  {
    var peer := AsciiLower(fingerprint);
    if peer in s.rejects {
      assert Tally(s.history, peer) == Some(s.rejects[peer]);
      RecordMeans(s.history, peer, now);
    }
  }

  // ---- clean-up by key -----------------------------------------------------------------------

  /**
   * Removal by key at the end of waiting hits the waiter's own request or nothing, exactly when no newer
   * request of the same device is listed by then.
   */
  lemma FinishHitsOwnIff(s: Pairing, peer: string, ticket: Ticket)
    ensures var t := Finish(s, peer, ticket).0;
            (forall other :: other in s.pending && s.pending[other] != ticket ==> other in t.pending)
            <==> (peer in s.pending ==> s.pending[peer] == ticket)
  {
  }

  /**
   * Between its decision and its waiter's clean-up a device can ask again, and that request is dropped
   * unseen while its own waiter still listens.
   */
  lemma NewerRequestDropped(s: Pairing, key: string, now: Instant)
    requires AsciiLower(key) == key && Refused(s, key, now).None?
    ensures var asked := Register(s, key, now).0;
            var approved := Decide(asked, key, true, now).0;
            var again := Register(approved, key, now);
            var cleaned := Finish(again.0, key, s.next).0;
            && again.1 == Ok(s.next + 1) && key in again.0.pending
            && key !in cleaned.pending && s.next + 1 in cleaned.listening
  {
    hide AsciiLower, Swept, FrozenRecord;
    AskedAndApproved(s, key, now);
    hide Decide;
  }

  lemma AskedAndApproved(s: Pairing, key: string, now: Instant)
    requires AsciiLower(key) == key && Refused(s, key, now).None?
    ensures var t := Decide(Register(s, key, now).0, key, true, now).0;
            && t.pending == s.pending && key !in t.rejects
            && t.next == s.next + 1 && t.listening == s.listening + {s.next}
  {
    hide AsciiLower, Swept, FrozenRecord;
    var asked := Register(s, key, now).0;
    assert key in asked.pending && asked.pending[key] in asked.listening;
    assert s.pending[key := s.next] - {key} == s.pending;
  }
}
