/** Link approval: every fresh link of a paired device waits for the local user. Each operation is one atomic step. */
module LinkApprovals {
  import opened Basics
  import opened RejectRecords

  const MAX_PENDING_LINKS := 16
  const APPROVED_TTL := 24 * 3600 * SECOND
  const APPROVED_CAP := 512

  type Ticket = nat

  datatype LinkKey = LinkKey(peer: string, epoch: nat)

  datatype Refusal = Epochless | TooMany | AlreadyPending | Paused

  /** What happened to approvals, in order. */
  datatype Mark = Granted(key: LinkKey, at: Instant) | EpochRevoked(epoch: nat) | PeerRevoked(peer: string) | CapReached

  /** `history` holds every decision delivered, `trail` every grant, revocation and overflow. */
  datatype Links = Links(
    pending: map<LinkKey, Ticket>,
    approved: map<LinkKey, Instant>,
    rejects: map<string, Record>,
    next: Ticket,
    listening: set<Ticket>,
    answers: map<Ticket, bool>,
    history: seq<Decision>,
    trail: seq<Mark>)

  const EMPTY := Links(map[], map[], map[], 0, {}, map[], [], [])

  function Register(s: Links, fingerprint: string, epoch: Option<nat>, now: Instant): (Links, Result<Ticket, Refusal>) {
    if epoch.None? then (s, Err(Epochless))
    else
      var key := LinkKey(AsciiLower(fingerprint), epoch.value);
      if |s.pending| >= MAX_PENDING_LINKS then (s, Err(TooMany))
      else if key in s.pending then (s, Err(AlreadyPending))
      else if Frozen(s.rejects, key.peer, now) then (s, Err(Paused))
      else
        (s.(pending := s.pending[key := s.next], rejects := Swept(s.rejects, now),
            next := s.next + 1, listening := s.listening + {s.next}), Ok(s.next))
  }

  function Live(approved: map<LinkKey, Instant>, now: Instant): map<LinkKey, Instant> {
    map key | key in approved && Elapsed(approved[key], now) < APPROVED_TTL :: approved[key]
  }

  predicate Overflows(approved: map<LinkKey, Instant>, now: Instant) {
    |Live(approved, now)| > APPROVED_CAP
  }

  /** Day-old approvals go; and if still more than the cap are left, all of them do. */
  function Pruned(s: Links, now: Instant): Links {
    if Overflows(s.approved, now) then s.(approved := map[], trail := s.trail + [CapReached])
    else s.(approved := Live(s.approved, now))
  }

  function Grant(s: Links, key: LinkKey, now: Instant): Links {
    Pruned(s.(approved := s.approved[key := now], trail := s.trail + [Granted(key, now)]), now)
  }

  function Decide(s: Links, fingerprint: string, epoch: nat, approved: bool, now: Instant): (Links, bool) {
    var key := LinkKey(AsciiLower(fingerprint), epoch);
    if key !in s.pending then (s, false)
    else
      var ticket, rest := s.pending[key], s.(pending := s.pending - {key});
      if ticket !in s.listening then (rest, false)
      else
        var counted := rest.(
          rejects := Decided(s.rejects, key.peer, approved, now),
          answers := s.answers[ticket := approved], history := s.history + [Decision(key.peer, approved, now)]);
        (if approved then Grant(counted, key, now) else counted, true)
  }

  function IsApproved(s: Links, fingerprint: string, epoch: nat, now: Instant): (Links, bool) {
    var t := Pruned(s, now);
    (t, LinkKey(AsciiLower(fingerprint), epoch) in t.approved)
  }

  function RevokeEpoch(s: Links, epoch: nat): Links {
    s.(approved := map k | k in s.approved && k.epoch != epoch :: s.approved[k],
       pending := map k | k in s.pending && k.epoch != epoch :: s.pending[k],
       trail := s.trail + [EpochRevoked(epoch)])
  }

  function RevokePeer(s: Links, fingerprint: string): Links {
    var peer := AsciiLower(fingerprint);
    s.(approved := map k | k in s.approved && k.peer != peer :: s.approved[k],
       pending := map k | k in s.pending && k.peer != peer :: s.pending[k],
       trail := s.trail + [PeerRevoked(peer)])
  }

  /** The end of waiting, or a cancellation: the request is removed by its key. */
  function Finish(s: Links, key: LinkKey, ticket: Ticket): (Links, bool) {
    (s.(pending := s.pending - {key}, listening := s.listening - {ticket}, answers := s.answers - {ticket}),
     ticket in s.answers && s.answers[ticket])
  }

  class LinkApprovals {
    var pending: map<LinkKey, Ticket>
    var approved: map<LinkKey, Instant>
    var rejects: map<string, Record>
    var next: Ticket
    var listening: set<Ticket>
    var answers: map<Ticket, bool>
    ghost var history: seq<Decision>
    ghost var trail: seq<Mark>

    ghost function State(): Links
      reads this
    {
      Links(pending, approved, rejects, next, listening, answers, history, trail)
    }

    constructor ()
      ensures State() == EMPTY
    {
      pending, approved, rejects, next, listening := map[], map[], map[], 0, {};
      answers, history, trail := map[], [], [];
    }

    /** Lists one link, unless it has no epoch, the queue is full, it is listed already, or its device is frozen. */
    method RegisterLink(fingerprint: string, epoch: Option<nat>, now: Instant) returns (r: Result<Ticket, Refusal>)
      modifies this
      ensures (State(), r) == Register(old(State()), fingerprint, epoch, now)
    {
      if epoch.None? {
        return Err(Epochless);
      }
      var key := LinkKey(AsciiLower(fingerprint), epoch.value);
      if |pending| >= MAX_PENDING_LINKS {
        return Err(TooMany);
      }
      if key in pending {
        return Err(AlreadyPending);
      }
      if key.peer in rejects && FrozenRecord(rejects[key.peer], now) {
        return Err(Paused);
      }
      rejects := Swept(rejects, now);
      pending := pending[key := next];
      listening := listening + {next};
      r := Ok(next);
      next := next + 1;
    }

    method Prune(now: Instant)
      modifies this`approved, this`trail
      ensures State() == Pruned(old(State()), now)
    {
      approved := Live(approved, now);
      if |approved| > APPROVED_CAP {
        approved := map[];
        trail := trail + [CapReached];
      }
    }

    /** The local user's decision: a grant is remembered, a denial counted. */
    method DecideLink(fingerprint: string, epoch: nat, allow: bool, now: Instant) returns (delivered: bool)
      modifies this
      ensures (State(), delivered) == Decide(old(State()), fingerprint, epoch, allow, now)
    {
      hide Pruned, Counted;
      var key := LinkKey(AsciiLower(fingerprint), epoch);
      if key !in pending {
        return false;
      }
      var ticket := pending[key];
      pending := pending - {key};
      if ticket !in listening {
        return false;
      }
      answers := answers[ticket := allow];
      history := history + [Decision(key.peer, allow, now)];
      rejects := Decided(rejects, key.peer, allow, now);
      if allow {
        approved := approved[key := now];
        trail := trail + [Granted(key, now)];
        Prune(now);
      }
      delivered := true;
    }

    /** Whether this very link was allowed before, and still is. */
    method CheckApproved(fingerprint: string, epoch: nat, now: Instant) returns (allowed: bool)
      modifies this`approved, this`trail
      ensures (State(), allowed) == IsApproved(old(State()), fingerprint, epoch, now)
    {
      Prune(now);
      allowed := LinkKey(AsciiLower(fingerprint), epoch) in approved;
    }

    method ForgetEpoch(epoch: nat)
      modifies this
      ensures State() == RevokeEpoch(old(State()), epoch)
    {
      approved := map k | k in approved && k.epoch != epoch :: approved[k];
      pending := map k | k in pending && k.epoch != epoch :: pending[k];
      trail := trail + [EpochRevoked(epoch)];
    }

    method ForgetPeer(fingerprint: string)
      modifies this
      ensures State() == RevokePeer(old(State()), fingerprint)
    {
      var peer := AsciiLower(fingerprint);
      approved := map k | k in approved && k.peer != peer :: approved[k];
      pending := map k | k in pending && k.peer != peer :: pending[k];
      trail := trail + [PeerRevoked(peer)];
    }

    /** The end of waiting, whether by decision or by timeout: without an answer the link was denied. */
    method FinishWaiting(key: LinkKey, ticket: Ticket) returns (allowed: bool)
      modifies this
      ensures (State(), allowed) == Finish(old(State()), key, ticket)
    {
      allowed := ticket in answers && answers[ticket];
      answers := answers - {ticket};
      listening := listening - {ticket};
      pending := pending - {key};
    }
  }

  // ---- which grants stand --------------------------------------------------------------------

  predicate Undoes(m: Mark, key: LinkKey) {
    m.CapReached? || (m.EpochRevoked? && m.epoch == key.epoch) || (m.PeerRevoked? && m.peer == key.peer)
  }

  /** When a link was last allowed, unless that has been undone since. */
  function Standing(trail: seq<Mark>, key: LinkKey): Option<Instant> {
    if trail == [] then None
    else
      var m := trail[|trail| - 1];
      if m.Granted? && m.key == key then Some(m.at)
      else if Undoes(m, key) then None
      else Standing(trail[..|trail| - 1], key)
  }

  /** The grants kept are the ones that stand; those missing are a day old. */
  ghost predicate Remembers(s: Links, clock: Instant) {
    forall key ::
      && (key in s.approved ==> Standing(s.trail, key) == Some(s.approved[key]))
      && (key !in s.approved && Standing(s.trail, key).Some? ==>
            Elapsed(Standing(s.trail, key).value, clock) >= APPROVED_TTL)
  }

  ghost predicate Safe(s: Links, clock: Instant) {
    && |s.pending| <= 16 && |s.approved| <= 512
    && Remembers(s, clock) && Tracks(s.rejects, s.history, clock) && Clocked(s.history, clock)
  }

  lemma StandingSnoc(trail: seq<Mark>, m: Mark, key: LinkKey)
    ensures Standing(trail + [m], key)
         == if m.Granted? && m.key == key then Some(m.at) else if Undoes(m, key) then None else Standing(trail, key)
  {
    assert (trail + [m])[..|trail|] == trail;
  }

  lemma PruneRemembers(s: Links, now: Instant)
    requires Remembers(s, now)
    ensures Remembers(Pruned(s, now), now) && |Pruned(s, now).approved| <= APPROVED_CAP
  {
    forall key
      ensures var t := Pruned(s, now);
              && (key in t.approved ==> Standing(t.trail, key) == Some(t.approved[key]))
              && (key !in t.approved && Standing(t.trail, key).Some? ==>
                    Elapsed(Standing(t.trail, key).value, now) >= APPROVED_TTL)
    {
      StandingSnoc(s.trail, CapReached, key);
    }
  }

  lemma GrantRemembers(s: Links, key: LinkKey, now: Instant)
    requires Remembers(s, now)
    ensures Remembers(Grant(s, key, now), now) && |Grant(s, key, now).approved| <= APPROVED_CAP
  {
    var granted := s.(approved := s.approved[key := now], trail := s.trail + [Granted(key, now)]);
    forall k
      ensures && (k in granted.approved ==> Standing(granted.trail, k) == Some(granted.approved[k]))
              && (k !in granted.approved && Standing(granted.trail, k).Some? ==>
                    Elapsed(Standing(granted.trail, k).value, now) >= APPROVED_TTL)
    {
      StandingSnoc(s.trail, Granted(key, now), k);
    }
    PruneRemembers(granted, now);
  }

  lemma FewerKeys<K, V>(m: map<K, V>, part: map<K, V>)
    requires part.Keys <= m.Keys
    ensures |part| <= |m|
  {
    SubsetSize(part.Keys, m.Keys);
  }

  lemma {:induction false} SubsetSize<K>(a: set<K>, b: set<K>)
    requires a <= b
    ensures |a| <= |b|
    decreases |a|
  {
    if a != {} {
      var x :| x in a;
      SubsetSize(a - {x}, b - {x});
    }
  }

  lemma RevokeRemembers(s: Links, t: Links, m: Mark, now: Instant)
    requires Remembers(s, now) && !m.Granted? && !m.CapReached? && t.trail == s.trail + [m]
    requires forall k :: k in t.approved <==> k in s.approved && !Undoes(m, k)
    requires forall k :: k in t.approved ==> t.approved[k] == s.approved[k]
    ensures Remembers(t, now)
  {
    forall k
      ensures && (k in t.approved ==> Standing(t.trail, k) == Some(t.approved[k]))
              && (k !in t.approved && Standing(t.trail, k).Some? ==>
                    Elapsed(Standing(t.trail, k).value, now) >= APPROVED_TTL)
    {
      StandingSnoc(s.trail, m, k);
    }
  }

  // ---- runs ----------------------------------------------------------------------------------

  datatype Op =
    | RegisterOp(fingerprint: string, link: Option<nat>, now: Instant)
    | DecideOp(fingerprint: string, epoch: nat, allow: bool, now: Instant)
    | CheckOp(fingerprint: string, epoch: nat, now: Instant)
    | RevokeEpochOp(epoch: nat, now: Instant)
    | RevokePeerOp(fingerprint: string, now: Instant)
    | FinishOp(key: LinkKey, ticket: Ticket, now: Instant)
    | AbandonOp(ticket: Ticket, now: Instant)

  function Apply(s: Links, op: Op): Links {
    match op
    case RegisterOp(fingerprint, link, now) => Register(s, fingerprint, link, now).0
    case DecideOp(fingerprint, epoch, allow, now) => Decide(s, fingerprint, epoch, allow, now).0
    case CheckOp(fingerprint, epoch, now) => IsApproved(s, fingerprint, epoch, now).0
    case RevokeEpochOp(epoch, _) => RevokeEpoch(s, epoch)
    case RevokePeerOp(fingerprint, _) => RevokePeer(s, fingerprint)
    case FinishOp(key, ticket, _) => Finish(s, key, ticket).0
    case AbandonOp(ticket, _) => s.(listening := s.listening - {ticket})
  }

  function Run(ops: seq<Op>): Links {
    if ops == [] then EMPTY else Apply(Run(ops[..|ops| - 1]), ops[|ops| - 1])
  }

  predicate InTime(ops: seq<Op>) {
    forall i, j :: 0 <= i <= j < |ops| ==> ops[i].now <= ops[j].now
  }

  function ClockOf(ops: seq<Op>): Instant {
    if ops == [] then 0 else ops[|ops| - 1].now
  }

  lemma SafeLater(s: Links, clock: Instant, now: Instant)
    requires Safe(s, clock) && clock <= now
    ensures Safe(s, now)
  {
    TracksLater(s.rejects, s.history, clock, now);
    hide Tracks, Standing;
  }

  lemma RegisterSafe(s: Links, fingerprint: string, link: Option<nat>, now: Instant)
    requires Safe(s, now)
    ensures Safe(Register(s, fingerprint, link, now).0, now)
  {
    TracksSwept(s.rejects, s.history, now, now);
    if link.Some? {
      GrowPending(s, LinkKey(AsciiLower(fingerprint), link.value));
    }
    hide Tracks, Clocked, AsciiLower, Swept, Frozen, Standing;
  }

  lemma GrowPending(s: Links, key: LinkKey)
    ensures key !in s.pending ==> |s.pending[key := s.next]| == |s.pending| + 1
  {
    assert key !in s.pending ==> s.pending[key := s.next].Keys == s.pending.Keys + {key};
  }

  lemma DropSafe(s: Links, key: LinkKey, now: Instant)
    requires Safe(s, now)
    ensures Safe(s.(pending := s.pending - {key}), now)
  {
    FewerKeys(s.pending, s.pending - {key});
    hide Tracks, Clocked;
  }

  lemma CountSafe(s: Links, d: Decision, ticket: Ticket)
    requires Safe(s, d.at)
    ensures Safe(s.(rejects := Decided(s.rejects, d.peer, d.approved, d.at), answers := s.answers[ticket := d.approved],
                    history := s.history + [d]), d.at)
  {
    TracksDecided(s.rejects, s.history, d.at, d);
    assert Clocked(s.history + [d], d.at);
    hide Tracks, Clocked, Decided, Standing;
  }

  lemma GrantSafe(s: Links, key: LinkKey, now: Instant)
    requires Safe(s, now)
    ensures Safe(Grant(s, key, now), now)
  {
    GrantRemembers(s, key, now);
    hide Tracks, Clocked, Remembers;
  }

  lemma DecideSafe(s: Links, fingerprint: string, epoch: nat, allow: bool, now: Instant)
    requires Safe(s, now)
    ensures Safe(Decide(s, fingerprint, epoch, allow, now).0, now)
  {
    hide Safe, AsciiLower, Decided, Grant;
    var key := LinkKey(AsciiLower(fingerprint), epoch);
    if key in s.pending {
      var rest := s.(pending := s.pending - {key});
      DropSafe(s, key, now);
      if s.pending[key] in s.listening {
        var d := Decision(key.peer, allow, now);
        CountSafe(rest, d, s.pending[key]);
        var counted := rest.(rejects := Decided(s.rejects, d.peer, d.approved, d.at),
                             answers := s.answers[s.pending[key] := allow], history := s.history + [d]);
        if allow {
          GrantSafe(counted, key, now);
        }
      }
    }
  }

  lemma RevokeSafe(s: Links, t: Links, m: Mark, now: Instant)
    requires Safe(s, now) && !m.Granted? && !m.CapReached? && t.trail == s.trail + [m]
    requires t.approved == map k | k in s.approved && !Undoes(m, k) :: s.approved[k]
    requires t.pending == map k | k in s.pending && !Undoes(m, k) :: s.pending[k]
    requires t.rejects == s.rejects && t.history == s.history
    ensures Safe(t, now)
  {
    RevokeRemembers(s, t, m, now);
    FewerKeys(s.approved, t.approved);
    FewerKeys(s.pending, t.pending);
  }

  lemma CheckSafe(s: Links, now: Instant)
    requires Safe(s, now)
    ensures Safe(Pruned(s, now), now)
  {
    PruneRemembers(s, now);
    hide Tracks, Clocked, Remembers;
  }

  lemma FinishSafe(s: Links, key: LinkKey, ticket: Ticket, now: Instant)
    requires Safe(s, now)
    ensures Safe(Finish(s, key, ticket).0, now)
  {
    FewerKeys(s.pending, s.pending - {key});
    hide Tracks, Clocked;
  }

  lemma StepSafe(s: Links, op: Op)
    requires Safe(s, op.now)
    ensures Safe(Apply(s, op), op.now)
  {
    match op
    case RegisterOp(fingerprint, link, now) =>
      hide *;
      RegisterSafe(s, fingerprint, link, now);
    case DecideOp(fingerprint, epoch, allow, now) =>
      hide *;
      DecideSafe(s, fingerprint, epoch, allow, now);
    case CheckOp(_, _, now) => CheckSafe(s, now);
    case RevokeEpochOp(epoch, now) =>
      RevokeSafe(s, RevokeEpoch(s, epoch), EpochRevoked(epoch), now);
      hide *;
    case RevokePeerOp(fingerprint, now) =>
      RevokeSafe(s, RevokePeer(s, fingerprint), PeerRevoked(AsciiLower(fingerprint)), now);
      hide *;
    case FinishOp(key, ticket, now) =>
      hide *;
      FinishSafe(s, key, ticket, now);
    case AbandonOp(_, _) =>
  }

  /** Over every run: at most 16 links are listed, at most 512 remembered, and what is remembered stands. */
  lemma {:induction false} RunSafe(ops: seq<Op>)
    requires InTime(ops)
    ensures Safe(Run(ops), ClockOf(ops))
  {
    if ops != [] {
      var n := |ops| - 1;
      RunSafe(ops[..n]);
      assert n > 0 ==> ops[n - 1].now <= ops[n].now;
      SafeLater(Run(ops[..n]), ClockOf(ops[..n]), ops[n].now);
      StepSafe(Run(ops[..n]), ops[n]);
    }
  }

  lemma ApprovedByTrail(s: Links, fingerprint: string, epoch: nat, now: Instant)
    requires Safe(s, now)
    ensures var standing := Standing(s.trail, LinkKey(AsciiLower(fingerprint), epoch));
            IsApproved(s, fingerprint, epoch, now).1 <==> standing.Some? && Elapsed(standing.value, now) < APPROVED_TTL
  {
    FewerKeys(s.approved, Live(s.approved, now));
    hide AsciiLower, Tracks, Clocked, Standing;
  }

  // ---- the cap -------------------------------------------------------------------------------

  lemma LiveTwice(approved: map<LinkKey, Instant>, now: Instant)
    ensures Live(Live(approved, now), now) == Live(approved, now)
    ensures Live(map[], now) == map[]
  {
  }

  lemma LiveGranted(approved: map<LinkKey, Instant>, key: LinkKey, now: Instant)
    ensures Live(approved[key := now], now).Keys == Live(approved, now).Keys + {key}
    ensures Overflows(approved[key := now], now) <==> |Live(approved, now).Keys + {key}| > APPROVED_CAP
  {
    LiveKeys(approved, key, now);
    hide Live;
    var live := Live(approved[key := now], now);
    assert |live| == |live.Keys|;
  }

  lemma LiveKeys(approved: map<LinkKey, Instant>, key: LinkKey, now: Instant)
    ensures Live(approved[key := now], now).Keys == Live(approved, now).Keys + {key}
  {
  }

  lemma GrantPruned(s: Links, key: LinkKey, now: Instant)
    ensures var t := Pruned(Grant(s, key, now), now);
            key in t.approved <==> |Live(s.approved, now).Keys + {key}| <= APPROVED_CAP
  {
    var granted := s.approved[key := now];
    LiveTwice(granted, now);
    LiveGranted(s.approved, key, now);
    hide Live;
  }

  /** A grant outlives its own decision exactly when it is not the one that overflows the cap. */
  lemma GrantSurvivesIff(s: Links, fingerprint: string, epoch: nat, now: Instant)
    requires Decide(s, fingerprint, epoch, true, now).1
    ensures var t := Decide(s, fingerprint, epoch, true, now).0;
            var key := LinkKey(AsciiLower(fingerprint), epoch);
            IsApproved(t, fingerprint, epoch, now).1 <==> |Live(s.approved, now).Keys + {key}| <= 512
  {
    var key := LinkKey(AsciiLower(fingerprint), epoch);
    var t := Decide(s, fingerprint, epoch, true, now).0;
    var counted := s.(
      pending := s.pending - {key}, rejects := Decided(s.rejects, key.peer, true, now),
      answers := s.answers[s.pending[key] := true], history := s.history + [Decision(key.peer, true, now)]);
    assert t == Grant(counted, key, now);
    GrantPruned(counted, key, now);
    hide AsciiLower, Decided, Grant, Live, Pruned;
  }

  /** `n` links of one device, all granted at time zero. */
  function Granted0(n: nat): map<LinkKey, Instant> {
    if n == 0 then map[] else Granted0(n - 1)[LinkKey("p", n - 1) := 0]
  }

  lemma {:induction false} Granted0Size(n: nat)
    ensures |Granted0(n)| == n
    ensures forall key :: key in Granted0(n) ==> key.epoch < n && Granted0(n)[key] == 0
  {
    if n > 0 {
      Granted0Size(n - 1);
      assert Granted0(n).Keys == Granted0(n - 1).Keys + {LinkKey("p", n - 1)};
    }
  }

  lemma LiveAtZero(approved: map<LinkKey, Instant>)
    requires forall key :: key in approved ==> approved[key] == 0
    ensures Live(approved, 0) == approved
  {
  }

  lemma MoreGranted(n: nat)
    ensures LinkKey("p", n) !in Granted0(n) && |Granted0(n + 1)| == n + 1
    ensures Granted0(n + 1) == Granted0(n)[LinkKey("p", n) := 0]
    ensures Live(Granted0(n), 0) == Granted0(n) && Live(Granted0(n + 1), 0) == Granted0(n + 1)
  {
    Granted0Size(n);
    Granted0Size(n + 1);
    LiveAtZero(Granted0(n));
    LiveAtZero(Granted0(n + 1));
  }

  /** A device asks for `n` links, one after another, and each is allowed at once. */
  function GrantOps(n: nat): (ops: seq<Op>)
    ensures |ops| == 2 * n
  {
    if n == 0 then []
    else GrantOps(n - 1) + [RegisterOp("p", Some(n - 1), 0), DecideOp("p", n - 1, true, 0)]
  }

  lemma LowerP()
    ensures AsciiLower("p") == "p"
  {
    assert "p"[..0] == [];
  }

  /** The queue as one allowed link after another leaves it. */
  predicate AllGranted(s: Links, n: nat) {
    s.pending == map[] && s.rejects == map[] && s.approved == Granted0(n) && s.next == n
  }

  lemma RegistersAlone(s: Links, epoch: nat)
    requires s.pending == map[] && s.rejects == map[]
    ensures var t := Register(s, "p", Some(epoch), 0);
            && t.1.Ok? && t.0.pending == map[LinkKey("p", epoch) := s.next] && t.0.rejects == map[]
            && s.next in t.0.listening && t.0.approved == s.approved && t.0.next == s.next + 1
  {
    LowerP();
    hide AsciiLower;
    assert Swept(s.rejects, 0) == map[];
    assert s.pending[LinkKey("p", epoch) := s.next] == map[LinkKey("p", epoch) := s.next];
  }

  lemma DecidesAlone(s: Links, epoch: nat, ticket: Ticket)
    requires s.pending == map[LinkKey("p", epoch) := ticket] && s.rejects == map[] && ticket in s.listening
    ensures var t := Decide(s, "p", epoch, true, 0);
            && t.1 && t.0.pending == map[] && t.0.rejects == map[] && t.0.next == s.next
            && t.0.approved == var granted := s.approved[LinkKey("p", epoch) := 0];
                               if Overflows(granted, 0) then map[] else Live(granted, 0)
  {
    LowerP();
    hide AsciiLower, Live, Overflows;
    assert s.pending - {LinkKey("p", epoch)} == map[] && s.rejects - {"p"} == map[];
  }

  lemma GrantRound(s: Links, n: nat)
    requires AllGranted(s, n) && n < APPROVED_CAP
    ensures AllGranted(Apply(Apply(s, RegisterOp("p", Some(n), 0)), DecideOp("p", n, true, 0)), n + 1)
  {
    RegistersAlone(s, n);
    var asked := Register(s, "p", Some(n), 0).0;
    DecidesAlone(asked, n, n);
    MoreGranted(n);
    hide Register, Decide, Live, Granted0;
  }

  lemma RunTwo(ops: seq<Op>, a: Op, b: Op)
    ensures Run(ops + [a, b]) == Apply(Apply(Run(ops), a), b)
  {
    assert (ops + [a, b])[..|ops| + 1] == ops + [a] && (ops + [a])[..|ops|] == ops;
    hide Apply;
  }

  lemma {:induction false} GrantRun(n: nat)
    requires n <= APPROVED_CAP
    ensures AllGranted(Run(GrantOps(n)), n) && InTime(GrantOps(n))
  {
    hide Run, AllGranted, GrantOps, Apply, InTime;
    if n == 0 {
      GrantNone();
    } else {
      GrantRun(n - 1);
      GrantMore(n);
      GrantRound(Run(GrantOps(n - 1)), n - 1);
      RunTwo(GrantOps(n - 1), RegisterOp("p", Some(n - 1), 0), DecideOp("p", n - 1, true, 0));
    }
  }

  lemma GrantNone()
    ensures AllGranted(Run(GrantOps(0)), 0) && InTime(GrantOps(0))
  {
    assert Run([]) == EMPTY;
  }

  lemma GrantMore(n: nat)
    requires n > 0 && InTime(GrantOps(n - 1))
    ensures GrantOps(n) == GrantOps(n - 1) + [RegisterOp("p", Some(n - 1), 0), DecideOp("p", n - 1, true, 0)]
    ensures InTime(GrantOps(n))
  {
    AllAtZero(n);
    assert forall i :: 0 <= i < |GrantOps(n)| ==> GrantOps(n)[i] in GrantOps(n);
  }

  lemma {:induction false} AllAtZero(n: nat)
    ensures forall op :: op in GrantOps(n) ==> op.now == 0
  {
    if n > 0 {
      AllAtZero(n - 1);
    }
  }

  /**
   * A run from the start: 512 links are asked for and allowed, then one more; the user's decision on it
   * is delivered, and it is not remembered even for a moment.
   */
  lemma GrantForgotten(n: nat)
    requires n == APPROVED_CAP
    ensures var before := Run(GrantOps(n) + [RegisterOp("p", Some(n), 0)]);
            var decided := Decide(before, "p", n, true, 0);
            decided.1 && !IsApproved(decided.0, "p", n, 0).1
  {
    GrantRun(n);
    var ops, register := GrantOps(n), RegisterOp("p", Some(n), 0);
    assert (ops + [register])[..|ops|] == ops;
    var s := Run(ops);
    RegistersAlone(s, n);
    var asked := Register(s, "p", Some(n), 0).0;
    assert Run(ops + [register]) == asked;
    DecidesAlone(asked, n, n);
    MoreGranted(n);
    LowerP();
    hide Run, Register, Decide, GrantOps, Granted0, AsciiLower, Live;
    NoneLiveNow();
  }

  lemma NoneLiveNow()
    ensures Live(map[], 0) == map[]
  {
  }

  // ---- freezes -------------------------------------------------------------------------------

  /** Nothing but a delivered decision on the same device changes its freeze. */
  lemma FreezeStep(s: Links, op: Op, peer: string, until: Instant)
    requires peer in s.rejects && s.rejects[peer].frozenUntil == Some(until) && op.now < until
    requires op.DecideOp? ==> AsciiLower(op.fingerprint) != peer
    ensures var t := Apply(s, op); peer in t.rejects && t.rejects[peer] == s.rejects[peer]
    ensures op.RegisterOp? && AsciiLower(op.fingerprint) == peer ==> Register(s, op.fingerprint, op.link, op.now).1.Err?
  {
    hide AsciiLower, Live, Counted;
  }

  /**
   * A denial of another queued link, once the ten minutes have run out, starts a new window and ends the freeze
   * early.
   */
  lemma DenialLiftsFreeze(s: Links, fingerprint: string, epoch: nat, now: Instant)
    requires Decide(s, fingerprint, epoch, false, now).1
    ensures var peer := AsciiLower(fingerprint);
            Frozen(s.rejects, peer, now) ==>
              (!Frozen(Decide(s, fingerprint, epoch, false, now).0.rejects, peer, now)
               <==> Elapsed(s.rejects[peer].windowStarted, now) >= 600 * SECOND)
  {
    hide AsciiLower;
  }

  /** A link asked for and denied at once. */
  function DenyRound(s: Links, epoch: nat, now: Instant): Links {
    Decide(Register(s, "p", Some(epoch), now).0, "p", epoch, false, now).0
  }

  /** `count` denials at time zero and nothing else. */
  predicate DeniedAtZero(s: Links, count: nat) {
    && s.pending == map[] && (count > 0 ==> "p" in s.rejects && s.rejects["p"] == Record(count, 0, None))
    && (count == 0 ==> s.rejects == map[])
  }

  lemma AsksFirst(s: Links, epoch: nat, count: nat)
    requires DeniedAtZero(s, count)
    ensures var t := Register(s, "p", Some(epoch), 0).0;
            && t.pending == map[LinkKey("p", epoch) := s.next] && s.next in t.listening
            && (count > 0 ==> "p" in t.rejects && t.rejects["p"] == Record(count, 0, None))
            && (count == 0 ==> t.rejects == map[])
  {
    LowerP();
    hide AsciiLower;
    assert s.pending[LinkKey("p", epoch) := s.next] == map[LinkKey("p", epoch) := s.next];
    assert count == 0 ==> Swept(s.rejects, 0) == map[];
  }

  lemma DenyOnce(s: Links, epoch: nat, count: nat)
    requires DeniedAtZero(s, count) && count < MAX_REJECTS - 1
    ensures DeniedAtZero(DenyRound(s, epoch, 0), count + 1)
  {
    LowerP();
    AsksFirst(s, epoch, count);
    var asked := Register(s, "p", Some(epoch), 0).0;
    hide AsciiLower, Register, Swept;
    assert asked.pending - {LinkKey("p", epoch)} == map[];
  }

  /** Both links are listed, under their own tickets, and both are waited for. */
  predicate BothListed(s: Links, a: nat, b: nat) {
    && LinkKey("p", a) in s.pending && LinkKey("p", b) in s.pending
    && s.pending[LinkKey("p", a)] in s.listening && s.pending[LinkKey("p", b)] in s.listening
  }

  lemma ListsTwo(s: Links, a: nat, b: nat, count: nat)
    requires DeniedAtZero(s, count) && count > 0 && a != b
    ensures var t := Register(Register(s, "p", Some(a), 0).0, "p", Some(b), 0).0;
            BothListed(t, a, b) && "p" in t.rejects && t.rejects["p"] == Record(count, 0, None)
  {
    LowerP();
    AsksFirst(s, a, count);
    var asked := Register(s, "p", Some(a), 0).0;
    hide AsciiLower;
    assert |asked.pending| == 1;
  }

  lemma DeniesListed(s: Links, epoch: nat, now: Instant)
    requires LinkKey("p", epoch) in s.pending && s.pending[LinkKey("p", epoch)] in s.listening && "p" in s.rejects
    ensures var t := Decide(s, "p", epoch, false, now).0;
            && t.pending == s.pending - {LinkKey("p", epoch)} && t.listening == s.listening
            && "p" in t.rejects && t.rejects["p"] == Counted(s.rejects["p"], now)
  {
    LowerP();
    hide AsciiLower, Counted;
  }

  /**
   * A run from the start: six links of one device, four denied at once, the fifth in the last second of
   * the ten minutes, which freezes the device for a minute; the sixth, denied a second later, lets it
   * ask again though the minute has hardly begun.
   */
  lemma FreezeLifted()
    ensures var four := DenyRound(DenyRound(DenyRound(DenyRound(EMPTY, 0, 0), 1, 0), 2, 0), 3, 0);
            var listed := Register(Register(four, "p", Some(4), 0).0, "p", Some(5), 0).0;
            var frozen := Decide(listed, "p", 4, false, 599 * SECOND).0;
            var lifted := Decide(frozen, "p", 5, false, 600 * SECOND).0;
            Frozen(frozen.rejects, "p", 600 * SECOND) && !Frozen(lifted.rejects, "p", 600 * SECOND)
  {
    DenyOnce(EMPTY, 0, 0);
    var one := DenyRound(EMPTY, 0, 0);
    DenyOnce(one, 1, 1);
    var two := DenyRound(one, 1, 0);
    DenyOnce(two, 2, 2);
    var three := DenyRound(two, 2, 0);
    DenyOnce(three, 3, 3);
    var four := DenyRound(three, 3, 0);
    ListsTwo(four, 4, 5, 4);
    hide DenyRound, Register, Decide;
    var listed := Register(Register(four, "p", Some(4), 0).0, "p", Some(5), 0).0;
    DeniesListed(listed, 4, 599 * SECOND);
    var frozen := Decide(listed, "p", 4, false, 599 * SECOND).0;
    assert frozen.rejects["p"] == Record(5, 0, Some(659 * SECOND));
    assert LinkKey("p", 5) in frozen.pending;
    DeniesListed(frozen, 5, 600 * SECOND);
  }
}
