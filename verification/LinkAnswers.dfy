/** Link approval over whole runs: which links are listed, whom a decision reaches, and what whoever waits hears. */
module LinkAnswers {
  import opened Basics
  import opened RejectRecords
  import opened LinkApprovals

  // ---- one step ------------------------------------------------------------------------------

  /** A link is refused exactly when it has no epoch, the queue is full, it is listed, or its device is frozen. */
  lemma RegisterIff(s: Links, fingerprint: string, link: Option<nat>, now: Instant)
    ensures var out := Register(s, fingerprint, link, now);
            && (out.1 == Err(Epochless) <==> link.None?)
            && (out.1.Err? ==> out.0 == s)
            && (link.Some? ==>
                  var key := LinkKey(AsciiLower(fingerprint), link.value);
                  && (out.1.Ok? <==> |s.pending| < 16 && key !in s.pending && !Frozen(s.rejects, key.peer, now))
                  && (out.1 == Err(TooMany) <==> |s.pending| >= 16)
                  && (out.1 == Err(AlreadyPending) <==> |s.pending| < 16 && key in s.pending)
                  && (out.1.Ok? ==> out.0.rejects == Swept(s.rejects, now))
                  && (out.1.Ok? ==> forall k :: k in out.0.pending <==> k == key || k in s.pending))
  {
    hide AsciiLower, Swept, Frozen;
  }

  function KeyOf(op: Op): LinkKey
    requires op.DecideOp? || (op.RegisterOp? && op.link.Some?)
  {
    LinkKey(AsciiLower(op.fingerprint), if op.DecideOp? then op.epoch else op.link.value)
  }

  predicate Listed(s: Links, key: LinkKey, ticket: Ticket) {
    key in s.pending && s.pending[key] == ticket
  }

  /** The operation lists this link and hands out this ticket. */
  predicate Asks(s: Links, op: Op, key: LinkKey, ticket: Ticket) {
    && op.RegisterOp? && op.link.Some? && KeyOf(op) == key
    && Register(s, op.fingerprint, op.link, op.now).1 == Ok(ticket)
  }

  /** The operation revokes everything of this link's epoch, or of its device. */
  predicate Revokes(op: Op, key: LinkKey) {
    || (op.RevokeEpochOp? && op.epoch == key.epoch)
    || (op.RevokePeerOp? && AsciiLower(op.fingerprint) == key.peer)
  }

  /** The operation takes this link off the list, if it is listed. */
  predicate Unlists(op: Op, key: LinkKey) {
    || (op.DecideOp? && KeyOf(op) == key)
    || (op.FinishOp? && op.key == key)
    || Revokes(op, key)
  }

  /** Whoever holds this ticket stops waiting. */
  predicate Leaves(op: Op, ticket: Ticket) {
    (op.FinishOp? || op.AbandonOp?) && op.ticket == ticket
  }

  lemma GrantKeeps(s: Links, key: LinkKey, now: Instant)
    ensures var t := Grant(s, key, now);
            && t.pending == s.pending && t.listening == s.listening && t.next == s.next
            && t.answers == s.answers && t.history == s.history
  {
    hide Live, Overflows;
  }

  /** What a decision does to the queue, whatever it does to the grants. */
  lemma DecideQueue(s: Links, op: Op)
    requires op.DecideOp?
    ensures var t := Apply(s, op);
            && t.pending == s.pending - {KeyOf(op)} && t.listening == s.listening && t.next == s.next
            && if KeyOf(op) in s.pending && s.pending[KeyOf(op)] in s.listening
               then t.answers == s.answers[s.pending[KeyOf(op)] := op.allow]
                    && t.history == s.history + [Decision(KeyOf(op).peer, op.allow, op.now)]
               else t.answers == s.answers && t.history == s.history
  {
    hide AsciiLower, Decided, Grant;
    var key := KeyOf(op);
    if key in s.pending {
      var counted := s.(
        pending := s.pending - {key}, rejects := Decided(s.rejects, key.peer, op.allow, op.now),
        answers := s.answers[s.pending[key] := op.allow],
        history := s.history + [Decision(key.peer, op.allow, op.now)]);
      GrantKeeps(counted, key, op.now);
    } else {
      assert s.pending - {key} == s.pending;
    }
  }

  lemma ListedStep(s: Links, op: Op, key: LinkKey, ticket: Ticket)
    ensures Listed(Apply(s, op), key, ticket)
        <==> Asks(s, op, key, ticket) || (Listed(s, key, ticket) && !Unlists(op, key))
  {
    hide AsciiLower, Swept, Decided, Frozen, Live, Overflows, Decide;
    if op.DecideOp? {
      DecideQueue(s, op);
      hide Apply;
    }
  }

  predicate AsksFor(s: Links, op: Op, ticket: Ticket) {
    op.RegisterOp? && op.link.Some? && Asks(s, op, KeyOf(op), ticket)
  }

  lemma WaitingStep(s: Links, op: Op, ticket: Ticket)
    ensures ticket in Apply(s, op).listening
        <==> AsksFor(s, op, ticket) || (ticket in s.listening && !Leaves(op, ticket))
  {
    hide AsciiLower, Swept, Decided, Frozen, Live, Overflows, Decide;
    if op.DecideOp? {
      DecideQueue(s, op);
      hide Apply;
    }
  }

  /** A decision is delivered exactly to a listed link someone still waits for. */
  lemma DecideIff(s: Links, op: Op)
    requires op.DecideOp?
    ensures Decide(s, op.fingerprint, op.epoch, op.allow, op.now).1
        <==> exists ticket :: Listed(s, KeyOf(op), ticket) && ticket in s.listening
  {
    hide AsciiLower, Decided, Grant;
    assert KeyOf(op) in s.pending ==> Listed(s, KeyOf(op), s.pending[KeyOf(op)]);
  }

  // ---- who is listed, who waits --------------------------------------------------------------

  /** The m-th operation of a run listed this link on this ticket. */
  predicate AskedAt(ops: seq<Op>, m: nat, key: LinkKey, ticket: Ticket)
    requires m < |ops|
  {
    Asks(Run(ops[..m]), ops[m], key, ticket)
  }

  predicate AskedFor(ops: seq<Op>, m: nat, ticket: Ticket)
    requires m < |ops|
  {
    AsksFor(Run(ops[..m]), ops[m], ticket)
  }

  /** Nothing after the m-th operation decided on, revoked or cleaned up this link. */
  predicate StaysListed(ops: seq<Op>, m: nat, key: LinkKey) {
    forall k :: m < k < |ops| ==> !Unlists(ops[k], key)
  }

  predicate StaysWaiting(ops: seq<Op>, m: nat, ticket: Ticket) {
    forall k :: m < k < |ops| ==> !Leaves(ops[k], ticket)
  }

  lemma RunSnoc(ops: seq<Op>, n: nat)
    requires n < |ops|
    ensures Run(ops[..n + 1]) == Apply(Run(ops[..n]), ops[n])
  {
    hide Apply;
    assert ops[..n + 1][..n] == ops[..n];
  }

  lemma PrefixAsked(ops: seq<Op>, n: nat, m: nat, key: LinkKey, ticket: Ticket)
    requires m < n <= |ops|
    ensures AskedAt(ops[..n], m, key, ticket) <==> AskedAt(ops, m, key, ticket)
    ensures AskedFor(ops[..n], m, ticket) <==> AskedFor(ops, m, ticket)
  {
    hide Asks;
    assert ops[..n][..m] == ops[..m] && ops[..n][m] == ops[m];
  }

  /** Over every run a link is listed on a ticket exactly when it was asked for and nothing took it off since. */
  lemma {:induction false} ListedIff(ops: seq<Op>, key: LinkKey, ticket: Ticket)
    ensures Listed(Run(ops), key, ticket)
        <==> exists m :: 0 <= m < |ops| && AskedAt(ops, m, key, ticket) && StaysListed(ops, m, key)
  {
    hide Run, Listed, Asks, Unlists;
    if ops == [] {
      NobodyYet(key, ticket);
    } else {
      var n := |ops| - 1;
      var init := ops[..n];
      ListedIff(init, key, ticket);
      assert ops[..n + 1] == ops;
      RunSnoc(ops, n);
      ListedStep(Run(init), ops[n], key, ticket);
      if m :| 0 <= m < n && AskedAt(init, m, key, ticket) && StaysListed(init, m, key) && !Unlists(ops[n], key) {
        PrefixAsked(ops, n, m, key, ticket);
        assert AskedAt(ops, m, key, ticket) && StaysListed(ops, m, key);
      }
      if Asks(Run(init), ops[n], key, ticket) {
        assert AskedAt(ops, n, key, ticket) && StaysListed(ops, n, key);
      }
      if m :| 0 <= m < n && AskedAt(ops, m, key, ticket) && StaysListed(ops, m, key) {
        PrefixAsked(ops, n, m, key, ticket);
        assert AskedAt(init, m, key, ticket) && StaysListed(init, m, key);
      }
    }
  }

  lemma NobodyYet(key: LinkKey, ticket: Ticket)
    ensures !Listed(Run([]), key, ticket) && ticket !in Run([]).listening
  {
  }

  lemma NoneAnswered(ticket: Ticket, allow: bool)
    ensures !Answered(Run([]), ticket, allow)
  {
  }

  /** And a ticket is waited on exactly when it was handed out and its holder has not stopped waiting. */
  lemma {:induction false} WaitingIff(ops: seq<Op>, ticket: Ticket)
    ensures ticket in Run(ops).listening
        <==> exists m :: 0 <= m < |ops| && AskedFor(ops, m, ticket) && StaysWaiting(ops, m, ticket)
  {
    hide Run, Asks, Leaves;
    if ops == [] {
      NobodyYet(LinkKey("", 0), ticket);
    } else {
      var n := |ops| - 1;
      var init := ops[..n];
      WaitingIff(init, ticket);
      assert ops[..n + 1] == ops;
      RunSnoc(ops, n);
      WaitingStep(Run(init), ops[n], ticket);
      if m :| 0 <= m < n && AskedFor(init, m, ticket) && StaysWaiting(init, m, ticket) && !Leaves(ops[n], ticket) {
        PrefixAsked(ops, n, m, LinkKey("", 0), ticket);
        assert AskedFor(ops, m, ticket) && StaysWaiting(ops, m, ticket);
      }
      if AsksFor(Run(init), ops[n], ticket) {
        assert AskedFor(ops, n, ticket) && StaysWaiting(ops, n, ticket);
      }
      if m :| 0 <= m < n && AskedFor(ops, m, ticket) && StaysWaiting(ops, m, ticket) {
        PrefixAsked(ops, n, m, LinkKey("", 0), ticket);
        assert AskedFor(init, m, ticket) && StaysWaiting(init, m, ticket);
      }
    }
  }

  // ---- whom a decision reaches ---------------------------------------------------------------

  /**
   * The n-th operation decided on this ticket, this way, and was delivered: its link was asked for on this
   * ticket before, nothing took it off the list since, and whoever holds the ticket still waits.
   */
  predicate DecidedAt(ops: seq<Op>, n: nat, ticket: Ticket, allow: bool)
    requires n < |ops|
  {
    && ops[n].DecideOp? && ops[n].allow == allow
    && exists m :: 0 <= m < n && AskedAt(ops, m, KeyOf(ops[n]), ticket)
         && StaysListed(ops[..n], m, KeyOf(ops[n])) && StaysWaiting(ops[..n], m, ticket)
  }

  /** Every link listed waits on a ticket of its own, and answers went to tickets that were decided on. */
  predicate Ticketed(s: Links) {
    && (forall k :: k in s.pending ==> s.pending[k] < s.next)
    && (forall p, q :: p in s.pending && q in s.pending && s.pending[p] == s.pending[q] ==> p == q)
    && (forall k :: k in s.pending ==> s.pending[k] !in s.answers)
    && (forall t :: t in s.answers ==> t < s.next)
  }

  lemma TicketedStep(s: Links, op: Op)
    requires Ticketed(s)
    ensures Ticketed(Apply(s, op))
  {
    hide AsciiLower, Swept, Decided, Frozen, Live, Overflows, Decide;
    if op.DecideOp? {
      DecideQueue(s, op);
      hide Apply;
    }
  }

  lemma {:induction false} RunTicketed(ops: seq<Op>)
    ensures Ticketed(Run(ops))
  {
    if ops != [] {
      RunTicketed(ops[..|ops| - 1]);
      TicketedStep(Run(ops[..|ops| - 1]), ops[|ops| - 1]);
    }
  }

  lemma NextGrows(s: Links, op: Op)
    ensures s.next <= Apply(s, op).next
  {
    hide AsciiLower, Swept, Decided, Frozen, Live, Overflows, Decide;
    if op.DecideOp? {
      DecideQueue(s, op);
      hide Apply;
    }
  }

  /** A ticket is handed out once. */
  lemma {:induction false} NextMonotone(ops: seq<Op>, m: nat, n: nat)
    requires m <= n <= |ops|
    ensures Run(ops[..m]).next <= Run(ops[..n]).next
  {
    if m < n {
      hide Run, Apply;
      NextMonotone(ops, m, n - 1);
      RunSnoc(ops, n - 1);
      NextGrows(Run(ops[..n - 1]), ops[n - 1]);
    }
  }

  lemma AskedOnce(ops: seq<Op>, m: nat, k: nat, key: LinkKey, other: LinkKey, ticket: Ticket)
    requires m < |ops| && k < |ops| && AskedAt(ops, m, key, ticket) && AskedAt(ops, k, other, ticket)
    ensures m == k && key == other
  {
    hide Run, AsciiLower, Swept, Frozen, Decide, Live, Overflows;
    RunSnoc(ops, m);
    RunSnoc(ops, k);
    if m < k {
      NextMonotone(ops, m + 1, k);
    } else if k < m {
      NextMonotone(ops, k + 1, m);
    }
  }

  /** A delivered decision, from the state it meets. */
  predicate Reaches(s: Links, op: Op, ticket: Ticket, allow: bool) {
    op.DecideOp? && op.allow == allow && Listed(s, KeyOf(op), ticket) && ticket in s.listening
  }

  lemma ReachesIff(ops: seq<Op>, n: nat, ticket: Ticket, allow: bool)
    requires n < |ops|
    ensures Reaches(Run(ops[..n]), ops[n], ticket, allow) <==> DecidedAt(ops, n, ticket, allow)
  {
    hide Run, Listed, Asks, Unlists, Leaves;
    if ops[n].DecideOp? {
      var init, key := ops[..n], KeyOf(ops[n]);
      ListedIff(init, key, ticket);
      WaitingIff(init, ticket);
      if m :| 0 <= m < n && AskedAt(init, m, key, ticket) && StaysListed(init, m, key) {
        PrefixAsked(ops, n, m, key, ticket);
        AskIsFor(ops, m, key, ticket);
        if k :| 0 <= k < n && AskedFor(init, k, ticket) && StaysWaiting(init, k, ticket) {
          PrefixAsked(ops, n, k, key, ticket);
          AskedOnce(ops, m, k, key, KeyOf(ops[k]), ticket);
        }
      }
      if m :| 0 <= m < n && AskedAt(ops, m, key, ticket) && StaysListed(init, m, key)
              && StaysWaiting(init, m, ticket) {
        PrefixAsked(ops, n, m, key, ticket);
        AskIsFor(ops, m, key, ticket);
        assert AskedAt(init, m, key, ticket) && AskedFor(init, m, ticket);
      }
    }
  }

  lemma AskIsFor(ops: seq<Op>, m: nat, key: LinkKey, ticket: Ticket)
    requires m < |ops| && AskedAt(ops, m, key, ticket)
    ensures AskedFor(ops, m, ticket)
  {
    hide AsciiLower, Register, Run;
  }

  // ---- what is heard -------------------------------------------------------------------------

  predicate Answered(s: Links, ticket: Ticket, allow: bool) {
    ticket in s.answers && s.answers[ticket] == allow
  }

  predicate Cleans(op: Op, ticket: Ticket) {
    op.FinishOp? && op.ticket == ticket
  }

  lemma AnsweredStep(s: Links, op: Op, ticket: Ticket, allow: bool)
    requires Ticketed(s)
    ensures Answered(Apply(s, op), ticket, allow)
        <==> Reaches(s, op, ticket, allow) || (Answered(s, ticket, allow) && !Cleans(op, ticket))
  {
    hide AsciiLower, Swept, Decided, Frozen, Live, Overflows, Decide;
    if op.DecideOp? {
      DecideQueue(s, op);
      hide Apply;
    }
  }

  predicate StaysUnread(ops: seq<Op>, n: nat, ticket: Ticket) {
    forall k :: n < k < |ops| ==> !Cleans(ops[k], ticket)
  }

  lemma {:induction false} AnsweredIff(ops: seq<Op>, ticket: Ticket, allow: bool)
    ensures Answered(Run(ops), ticket, allow)
        <==> exists n :: 0 <= n < |ops| && DecidedAt(ops, n, ticket, allow) && StaysUnread(ops, n, ticket)
  {
    hide Run, Apply, DecidedAt, Reaches, Ticketed, Answered, Cleans;
    if ops == [] {
      NoneAnswered(ticket, allow);
    } else {
      var n := |ops| - 1;
      var init := ops[..n];
      AnsweredIff(init, ticket, allow);
      assert ops[..n + 1] == ops;
      RunSnoc(ops, n);
      RunTicketed(init);
      AnsweredStep(Run(init), ops[n], ticket, allow);
      ReachesIff(ops, n, ticket, allow);
      if k :| 0 <= k < n && DecidedAt(init, k, ticket, allow) && StaysUnread(init, k, ticket)
              && !Cleans(ops[n], ticket) {
        PrefixDecided(ops, n, k, ticket, allow);
        assert DecidedAt(ops, k, ticket, allow) && StaysUnread(ops, k, ticket);
      }
      if DecidedAt(ops, n, ticket, allow) {
        assert StaysUnread(ops, n, ticket);
      }
      if k :| 0 <= k < n && DecidedAt(ops, k, ticket, allow) && StaysUnread(ops, k, ticket) {
        PrefixDecided(ops, n, k, ticket, allow);
        assert DecidedAt(init, k, ticket, allow) && StaysUnread(init, k, ticket);
      }
    }
  }

  lemma PrefixDecided(ops: seq<Op>, n: nat, k: nat, ticket: Ticket, allow: bool)
    requires k < n <= |ops|
    ensures DecidedAt(ops[..n], k, ticket, allow) <==> DecidedAt(ops, k, ticket, allow)
  {
    hide Asks, Unlists, Leaves;
    assert ops[..n][..k] == ops[..k] && ops[..n][k] == ops[k];
    if ops[k].DecideOp? {
      forall m | 0 <= m < k
        ensures AskedAt(ops[..n], m, KeyOf(ops[k]), ticket) <==> AskedAt(ops, m, KeyOf(ops[k]), ticket)
      {
        PrefixAsked(ops, n, m, KeyOf(ops[k]), ticket);
      }
      hide AskedAt;
    }
  }

  /**
   * Over every run whoever asked for a link hears yes exactly when a decision allowing that very link was
   * delivered to them and they have not finished waiting since; otherwise, and after a denial, no.
   */
  lemma AnswerIff(ops: seq<Op>, key: LinkKey, ticket: Ticket)
    ensures Finish(Run(ops), key, ticket).1
        <==> exists n :: 0 <= n < |ops| && DecidedAt(ops, n, ticket, true) && StaysUnread(ops, n, ticket)
  {
    AnsweredIff(ops, ticket, true);
    hide Run, DecidedAt, StaysUnread;
  }

  // ---- what counts ---------------------------------------------------------------------------

  /** The n-th operation is a decision, and some ticket it is about was still waited on. */
  ghost predicate Delivers(ops: seq<Op>, n: nat)
    requires n < |ops|
  {
    ops[n].DecideOp? && exists ticket :: DecidedAt(ops, n, ticket, ops[n].allow)
  }

  lemma DeliversIff(ops: seq<Op>, n: nat)
    requires n < |ops| && ops[n].DecideOp?
    ensures var s := Run(ops[..n]);
            && (Delivers(ops, n) <==> KeyOf(ops[n]) in s.pending && s.pending[KeyOf(ops[n])] in s.listening)
            && (Delivers(ops, n) <==> Decide(s, ops[n].fingerprint, ops[n].epoch, ops[n].allow, ops[n].now).1)
  {
    var s, op := Run(ops[..n]), ops[n];
    DecideIff(s, op);
    hide Run, DecidedAt, Decide, AsciiLower;
    forall ticket
      ensures Reaches(s, op, ticket, op.allow) <==> DecidedAt(ops, n, ticket, op.allow)
    {
      ReachesIff(ops, n, ticket, op.allow);
    }
    if ticket :| Listed(s, KeyOf(op), ticket) && ticket in s.listening {
      assert Reaches(s, op, ticket, op.allow);
    }
  }

  /** The decisions of a run that were delivered, in order. */
  ghost function Said(ops: seq<Op>): seq<Decision> {
    if ops == [] then []
    else
      var n := |ops| - 1;
      Said(ops[..n]) + if Delivers(ops, n) then [Decision(KeyOf(ops[n]).peer, ops[n].allow, ops[n].now)] else []
  }

  lemma QuietHistory(s: Links, op: Op)
    requires !op.DecideOp?
    ensures Apply(s, op).history == s.history
  {
    hide AsciiLower, Swept, Frozen, Live, Overflows;
  }

  lemma {:induction false} HistoryIsSaid(ops: seq<Op>)
    ensures Run(ops).history == Said(ops)
  {
    if ops != [] {
      var n := |ops| - 1;
      HistoryIsSaid(ops[..n]);
      assert ops[..n + 1] == ops;
      if ops[n].DecideOp? {
        DeliversIff(ops, n);
        DecideQueue(Run(ops[..n]), ops[n]);
      } else {
        QuietHistory(Run(ops[..n]), ops[n]);
      }
      hide Delivers, Apply, AsciiLower;
    }
  }

  /** Over every run a device is frozen exactly as the decisions delivered on its links amount to. */
  lemma FrozenIff(ops: seq<Op>, peer: string)
    requires InTime(ops)
    ensures Frozen(Run(ops).rejects, peer, ClockOf(ops))
        <==> Tally(Said(ops), peer).Some? && FrozenRecord(Tally(Said(ops), peer).value, ClockOf(ops))
  {
    RunSafe(ops);
    HistoryIsSaid(ops);
    FrozenByHistory(Run(ops).rejects, Run(ops).history, ClockOf(ops), peer);
    hide Run, Said, Tally, Frozen;
  }
}
