/** Which links read approved, over whole runs and in terms of what was asked, allowed and revoked. */
module LinkGrants {
  import opened Basics
  import opened RejectRecords
  import opened LinkApprovals
  import opened LinkAnswers

  /** The n-th operation allowed this link, and the decision was delivered. */
  ghost predicate AllowedAt(ops: seq<Op>, n: nat, key: LinkKey)
    requires n < |ops|
  {
    ops[n].DecideOp? && ops[n].allow && KeyOf(ops[n]) == key && Delivers(ops, n)
  }

  /** The n-th operation allowed a link while 512 others less than a day old were remembered. */
  ghost predicate OverflowAt(ops: seq<Op>, n: nat)
    requires n < |ops|
  {
    && ops[n].DecideOp? && AllowedAt(ops, n, KeyOf(ops[n]))
    && |Live(Run(ops[..n]).approved, ops[n].now).Keys + {KeyOf(ops[n])}| > 512
  }

  /** The n-th operation allowed this link, and since then nothing revoked its epoch or its device or overflowed. */
  ghost predicate StandsFrom(ops: seq<Op>, n: nat, key: LinkKey)
    requires n < |ops|
  {
    && AllowedAt(ops, n, key) && !OverflowAt(ops, n)
    && forall k :: n < k < |ops| ==> !Revokes(ops[k], key) && !OverflowAt(ops, k)
  }

  /** When a link was last allowed, unless that has been undone since, by the operations of a run. */
  ghost function LastAllowed(ops: seq<Op>, key: LinkKey): Option<Instant> {
    if ops == [] then None
    else
      var n := |ops| - 1;
      if Revokes(ops[n], key) || OverflowAt(ops, n) then None
      else if AllowedAt(ops, n, key) then Some(ops[n].now)
      else LastAllowed(ops[..n], key)
  }

  // ---- one step ------------------------------------------------------------------------------

  lemma TwoMarks(trail: seq<Mark>, m: Mark, key: LinkKey)
    ensures Standing(trail + [m] + [CapReached], key) == None
  {
    StandingSnoc(trail + [m], CapReached, key);
  }

  lemma GrantStands(s: Links, granted: LinkKey, now: Instant, key: LinkKey)
    ensures Standing(Grant(s, granted, now).trail, key)
         == if |Live(s.approved, now).Keys + {granted}| > 512 then None
            else if granted == key then Some(now)
            else Standing(s.trail, key)
  {
    LiveGranted(s.approved, granted, now);
    StandingSnoc(s.trail, Granted(granted, now), key);
    TwoMarks(s.trail, Granted(granted, now), key);
    hide Standing, Live;
  }

  lemma DecideStands(s: Links, op: Op, key: LinkKey)
    requires op.DecideOp?
    ensures Standing(Apply(s, op).trail, key)
         == if op.allow && KeyOf(op) in s.pending && s.pending[KeyOf(op)] in s.listening
            then if |Live(s.approved, op.now).Keys + {KeyOf(op)}| > 512 then None
                 else if KeyOf(op) == key then Some(op.now)
                 else Standing(s.trail, key)
            else Standing(s.trail, key)
  {
    hide AsciiLower, Decided, Grant, Standing, Live;
    var granted := KeyOf(op);
    if granted in s.pending {
      var counted := s.(
        pending := s.pending - {granted}, rejects := Decided(s.rejects, granted.peer, op.allow, op.now),
        answers := s.answers[s.pending[granted] := op.allow],
        history := s.history + [Decision(granted.peer, op.allow, op.now)]);
      GrantStands(counted, granted, op.now, key);
    }
  }

  /** Every other operation undoes exactly what it names; a look-up never overflows. */
  lemma QuietStands(s: Links, op: Op, key: LinkKey)
    requires |s.approved| <= 512 && !op.DecideOp?
    ensures Standing(Apply(s, op).trail, key) == if Revokes(op, key) then None else Standing(s.trail, key)
  {
    hide AsciiLower, Swept, Frozen, Standing, Live;
    match op
    case CheckOp(_, _, now) => LiveFewer(s.approved, now);
    case RevokeEpochOp(epoch, _) => StandingSnoc(s.trail, EpochRevoked(epoch), key);
    case RevokePeerOp(fingerprint, _) => StandingSnoc(s.trail, PeerRevoked(AsciiLower(fingerprint)), key);
    case _ =>
  }

  lemma LiveFewer(approved: map<LinkKey, Instant>, now: Instant)
    ensures |Live(approved, now)| <= |approved|
  {
    FewerKeys(approved, Live(approved, now));
  }

  // ---- runs ----------------------------------------------------------------------------------

  lemma InTimePrefix(ops: seq<Op>, n: nat)
    requires InTime(ops) && n <= |ops|
    ensures InTime(ops[..n])
  {
  }

  lemma SafeSmall(s: Links, clock: Instant)
    requires Safe(s, clock)
    ensures |s.approved| <= 512
  {
    hide Remembers, Tracks, Clocked;
  }

  lemma {:induction false} StandingIsLast(ops: seq<Op>, key: LinkKey)
    requires InTime(ops)
    ensures Standing(Run(ops).trail, key) == LastAllowed(ops, key)
  {
    hide Apply, Safe, Standing, Live, AsciiLower, Revokes, Delivers;
    if ops == [] {
      NothingStands(key);
    } else {
      var n := |ops| - 1;
      var init := ops[..n];
      InTimePrefix(ops, n);
      StandingIsLast(init, key);
      if ops[n].DecideOp? {
        assert ops[..n + 1] == ops;
        DeliversIff(ops, n);
        DecideStands(Run(init), ops[n], key);
        DecisionsRevokeNothing(ops[n], key);
      } else {
        RunSafe(init);
        SafeSmall(Run(init), ClockOf(init));
        QuietStands(Run(init), ops[n], key);
      }
    }
  }

  lemma DecisionsRevokeNothing(op: Op, key: LinkKey)
    requires op.DecideOp?
    ensures !Revokes(op, key)
  {
  }

  lemma NothingStands(key: LinkKey)
    ensures Standing(Run([]).trail, key) == None
  {
  }

  lemma PrefixAllowed(ops: seq<Op>, n: nat, k: nat, key: LinkKey)
    requires k < n <= |ops|
    ensures AllowedAt(ops[..n], k, key) <==> AllowedAt(ops, k, key)
    ensures OverflowAt(ops[..n], k) <==> OverflowAt(ops, k)
  {
    hide Run, Live;
    assert ops[..n][..k] == ops[..k] && ops[..n][k] == ops[k];
    if ops[k].DecideOp? {
      PrefixDelivers(ops, n, k);
    }
  }

  lemma PrefixDelivers(ops: seq<Op>, n: nat, k: nat)
    requires k < n <= |ops|
    ensures Delivers(ops[..n], k) <==> Delivers(ops, k)
  {
    hide DecidedAt;
    forall ticket, allow
      ensures DecidedAt(ops[..n], k, ticket, allow) <==> DecidedAt(ops, k, ticket, allow)
    {
      PrefixDecided(ops, n, k, ticket, allow);
    }
  }

  /** A link was last allowed at the latest of its grants that stand. */
  lemma {:induction false} LastStands(ops: seq<Op>, key: LinkKey)
    requires InTime(ops)
    ensures var last := LastAllowed(ops, key);
            && (last.Some? ==> exists n :: 0 <= n < |ops| && StandsFrom(ops, n, key) && ops[n].now == last.value)
            && (forall n :: 0 <= n < |ops| && StandsFrom(ops, n, key) ==> last.Some? && ops[n].now <= last.value)
  {
    hide AllowedAt, OverflowAt, Revokes;
    if ops != [] {
      var n := |ops| - 1;
      var init := ops[..n];
      InTimePrefix(ops, n);
      LastStands(init, key);
      if AllowedAt(ops, n, key) && !OverflowAt(ops, n) {
        assert StandsFrom(ops, n, key);
      }
      forall k | 0 <= k < n
        ensures StandsFrom(ops, k, key) <==> StandsFrom(init, k, key) && !Revokes(ops[n], key) && !OverflowAt(ops, n)
      {
        StandsPrefix(ops, k, key);
      }
      hide StandsFrom;
      AllowedRevokesNothing(ops, n, key);
    }
  }

  lemma AllowedRevokesNothing(ops: seq<Op>, n: nat, key: LinkKey)
    requires n < |ops|
    ensures AllowedAt(ops, n, key) ==> !Revokes(ops[n], key)
    ensures StandsFrom(ops, n, key) ==> AllowedAt(ops, n, key) && !OverflowAt(ops, n)
  {
  }

  lemma StandsPrefix(ops: seq<Op>, k: nat, key: LinkKey)
    requires k < |ops| - 1
    ensures var n := |ops| - 1;
            StandsFrom(ops, k, key) <==> StandsFrom(ops[..n], k, key) && !Revokes(ops[n], key) && !OverflowAt(ops, n)
  {
    hide AllowedAt, OverflowAt, Revokes;
    var n := |ops| - 1;
    forall j | 0 <= j < n
      ensures AllowedAt(ops[..n], j, key) <==> AllowedAt(ops, j, key)
      ensures OverflowAt(ops[..n], j) <==> OverflowAt(ops, j)
    {
      PrefixAllowed(ops, n, j, key);
    }
  }

  /**
   * Over every run a link reads approved exactly when it was allowed, by a delivered decision less than a day
   * ago, and since then nothing revoked its epoch, or its device under any spelling, or overflowed the cap.
   */
  lemma ApprovedIff(ops: seq<Op>, fingerprint: string, epoch: nat, now: Instant)
    requires InTime(ops) && ClockOf(ops) <= now
    ensures var key := LinkKey(AsciiLower(fingerprint), epoch);
            IsApproved(Run(ops), fingerprint, epoch, now).1
            <==> exists n :: 0 <= n < |ops| && StandsFrom(ops, n, key) && Elapsed(ops[n].now, now) < 24 * 3600 * SECOND
  {
    hide Run, Safe, IsApproved, Standing, LastAllowed, StandsFrom, AsciiLower, ClockOf, InTime;
    var key := LinkKey(AsciiLower(fingerprint), epoch);
    RunSafe(ops);
    SafeLater(Run(ops), ClockOf(ops), now);
    ApprovedByTrail(Run(ops), fingerprint, epoch, now);
    StandingIsLast(ops, key);
    LastStands(ops, key);
  }
}
