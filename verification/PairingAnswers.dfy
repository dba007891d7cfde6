/** Pairing approval over whole runs: who is listed, whom a decision reaches, and what whoever waits hears. */
module PairingAnswers {
  import opened Basics
  import opened RejectRecords
  import opened PairingApprovals

  // ---- one step ------------------------------------------------------------------------------

  /** A request is refused exactly when the queue is full, its device is listed, or its device is frozen. */
  lemma RegisterIff(s: Pairing, fingerprint: string, now: Instant)
    ensures var peer, out := AsciiLower(fingerprint), Register(s, fingerprint, now);
            && (out.1.Ok? <==> |s.pending| < 16 && peer !in s.pending && !Frozen(s.rejects, peer, now))
            && (out.1 == Err(TooMany) <==> |s.pending| >= 16)
            && (out.1 == Err(AlreadyPending) <==> |s.pending| < 16 && peer in s.pending)
            && (out.1.Err? ==> out.0 == s)
            && (out.1.Ok? ==> out.0.rejects == Swept(s.rejects, now))
            && (out.1.Ok? ==> forall k :: k in out.0.pending <==> k == peer || k in s.pending)
  {
    hide AsciiLower, Swept, Frozen;
  }

  predicate Listed(s: Pairing, peer: string, ticket: Ticket) {
    peer in s.pending && s.pending[peer] == ticket
  }

  /** The operation lists a request of this device and hands out this ticket. */
  predicate Asks(s: Pairing, op: Op, peer: string, ticket: Ticket) {
    op.RegisterOp? && AsciiLower(op.fingerprint) == peer && Register(s, op.fingerprint, op.now).1 == Ok(ticket)
  }

  /** The operation takes whatever request of this device is listed off the list. */
  predicate Unlists(op: Op, peer: string) {
    || ((op.DecideOp? || op.CancelOp?) && AsciiLower(op.fingerprint) == peer)
    || (op.FinishOp? && op.peer == peer)
  }

  /** Whoever holds this ticket stops waiting. */
  predicate Leaves(op: Op, ticket: Ticket) {
    (op.FinishOp? || op.AbandonOp?) && op.ticket == ticket
  }

  lemma ListedStep(s: Pairing, op: Op, peer: string, ticket: Ticket)
    ensures Listed(Apply(s, op), peer, ticket)
        <==> Asks(s, op, peer, ticket) || (Listed(s, peer, ticket) && !Unlists(op, peer))
  {
    hide AsciiLower, Swept, Decided, Frozen;
  }

  lemma WaitingStep(s: Pairing, op: Op, ticket: Ticket)
    ensures ticket in Apply(s, op).listening
        <==> (op.RegisterOp? && Asks(s, op, AsciiLower(op.fingerprint), ticket))
             || (ticket in s.listening && !Leaves(op, ticket))
  {
    hide AsciiLower, Swept, Decided, Frozen;
  }

  /** A decision is delivered exactly to a listed request someone still waits on. */
  lemma DecideIff(s: Pairing, fingerprint: string, approved: bool, now: Instant)
    ensures Decide(s, fingerprint, approved, now).1
        <==> exists ticket :: Listed(s, AsciiLower(fingerprint), ticket) && ticket in s.listening
  {
    hide AsciiLower, Decided;
    var peer := AsciiLower(fingerprint);
    assert peer in s.pending ==> Listed(s, peer, s.pending[peer]);
  }

  // ---- who is listed, who waits --------------------------------------------------------------

  /** The m-th operation of a run listed a request of this device on this ticket. */
  predicate AskedAt(ops: seq<Op>, m: nat, peer: string, ticket: Ticket)
    requires m < |ops|
  {
    Asks(Run(ops[..m]), ops[m], peer, ticket)
  }

  predicate AskedFor(ops: seq<Op>, m: nat, ticket: Ticket)
    requires m < |ops|
  {
    ops[m].RegisterOp? && AskedAt(ops, m, AsciiLower(ops[m].fingerprint), ticket)
  }

  /** Nothing after the m-th operation decided on, cancelled or cleaned up a request of this device. */
  predicate StaysListed(ops: seq<Op>, m: nat, peer: string) {
    forall k :: m < k < |ops| ==> !Unlists(ops[k], peer)
  }

  predicate StaysWaiting(ops: seq<Op>, m: nat, ticket: Ticket) {
    forall k :: m < k < |ops| ==> !Leaves(ops[k], ticket)
  }

  lemma RunSnoc(ops: seq<Op>, n: nat)
    requires n < |ops|
    ensures Run(ops[..n + 1]) == Apply(Run(ops[..n]), ops[n])
  {
    hide Apply;
    assert ops[..n + 1][..n] == ops[..n];
  }

  lemma PrefixAsked(ops: seq<Op>, n: nat, m: nat, peer: string, ticket: Ticket)
    requires m < n <= |ops|
    ensures AskedAt(ops[..n], m, peer, ticket) <==> AskedAt(ops, m, peer, ticket)
    ensures AskedFor(ops[..n], m, ticket) <==> AskedFor(ops, m, ticket)
  {
    hide Asks;
    assert ops[..n][..m] == ops[..m] && ops[..n][m] == ops[m];
  }

  /** Over every run a device is listed on a ticket exactly when it asked and nothing took it off since. */
  lemma {:induction false} ListedIff(ops: seq<Op>, peer: string, ticket: Ticket)
    ensures Listed(Run(ops), peer, ticket)
        <==> exists m :: 0 <= m < |ops| && AskedAt(ops, m, peer, ticket) && StaysListed(ops, m, peer)
  {
    hide Run, Listed, Asks, Unlists;
    if ops == [] {
      NobodyYet(peer, ticket);
    } else {
      var n := |ops| - 1;
      var init := ops[..n];
      ListedIff(init, peer, ticket);
      assert ops[..n + 1] == ops;
      RunSnoc(ops, n);
      ListedStep(Run(init), ops[n], peer, ticket);
      if m :| 0 <= m < n && AskedAt(init, m, peer, ticket) && StaysListed(init, m, peer) && !Unlists(ops[n], peer) {
        PrefixAsked(ops, n, m, peer, ticket);
        assert AskedAt(ops, m, peer, ticket) && StaysListed(ops, m, peer);
      }
      if Asks(Run(init), ops[n], peer, ticket) {
        assert AskedAt(ops, n, peer, ticket) && StaysListed(ops, n, peer);
      }
      if m :| 0 <= m < n && AskedAt(ops, m, peer, ticket) && StaysListed(ops, m, peer) {
        PrefixAsked(ops, n, m, peer, ticket);
        assert AskedAt(init, m, peer, ticket) && StaysListed(init, m, peer);
      }
    }
  }

  lemma NobodyYet(peer: string, ticket: Ticket)
    ensures !Listed(Run([]), peer, ticket) && ticket !in Run([]).listening
  {
  }

  lemma NoneAnswered(ticket: Ticket, approved: bool)
    ensures !Answered(Run([]), ticket, approved)
  {
  }

  /** And a ticket is waited on exactly when it was handed out and its holder has not stopped waiting. */
  lemma {:induction false} WaitingIff(ops: seq<Op>, ticket: Ticket)
    ensures ticket in Run(ops).listening
        <==> exists m :: 0 <= m < |ops| && AskedFor(ops, m, ticket) && StaysWaiting(ops, m, ticket)
  {
    hide Run, Asks, Leaves;
    if ops == [] {
      NobodyYet("", ticket);
    } else {
      var n := |ops| - 1;
      var init := ops[..n];
      WaitingIff(init, ticket);
      assert ops[..n + 1] == ops;
      RunSnoc(ops, n);
      WaitingStep(Run(init), ops[n], ticket);
      if m :| 0 <= m < n && AskedFor(init, m, ticket) && StaysWaiting(init, m, ticket) && !Leaves(ops[n], ticket) {
        PrefixAsked(ops, n, m, "", ticket);
        assert AskedFor(ops, m, ticket) && StaysWaiting(ops, m, ticket);
      }
      if ops[n].RegisterOp? && Asks(Run(init), ops[n], AsciiLower(ops[n].fingerprint), ticket) {
        assert AskedFor(ops, n, ticket) && StaysWaiting(ops, n, ticket);
      }
      if m :| 0 <= m < n && AskedFor(ops, m, ticket) && StaysWaiting(ops, m, ticket) {
        PrefixAsked(ops, n, m, "", ticket);
        assert AskedFor(init, m, ticket) && StaysWaiting(init, m, ticket);
      }
    }
  }

  // ---- whom a decision reaches ---------------------------------------------------------------

  /**
   * The n-th operation decided on this ticket, this way, and was delivered: the device asked on this ticket
   * before, nothing took it off the list since, and whoever holds the ticket still waits.
   */
  predicate DecidedAt(ops: seq<Op>, n: nat, ticket: Ticket, approved: bool)
    requires n < |ops|
  {
    && ops[n].DecideOp? && ops[n].approved == approved
    && exists m :: 0 <= m < n && AskedAt(ops, m, AsciiLower(ops[n].fingerprint), ticket)
         && StaysListed(ops[..n], m, AsciiLower(ops[n].fingerprint)) && StaysWaiting(ops[..n], m, ticket)
  }

  /** Everyone listed waits on a ticket of their own, and answers went to tickets that were decided on. */
  predicate Ticketed(s: Pairing) {
    && (forall peer :: peer in s.pending ==> s.pending[peer] < s.next)
    && (forall p, q :: p in s.pending && q in s.pending && s.pending[p] == s.pending[q] ==> p == q)
    && (forall peer :: peer in s.pending ==> s.pending[peer] !in s.answers)
    && (forall t :: t in s.answers ==> t < s.next)
  }

  lemma TicketedStep(s: Pairing, op: Op)
    requires Ticketed(s)
    ensures Ticketed(Apply(s, op))
  {
    hide AsciiLower, Swept, Decided, Frozen;
  }

  lemma {:induction false} RunTicketed(ops: seq<Op>)
    ensures Ticketed(Run(ops))
  {
    if ops != [] {
      RunTicketed(ops[..|ops| - 1]);
      TicketedStep(Run(ops[..|ops| - 1]), ops[|ops| - 1]);
    }
  }

  lemma NextGrows(s: Pairing, op: Op)
    ensures s.next <= Apply(s, op).next
  {
    hide AsciiLower, Swept, Decided, Frozen;
  }

  /** A ticket is handed out once. */
  lemma {:induction false} NextMonotone(ops: seq<Op>, m: nat, n: nat)
    requires m <= n <= |ops|
    ensures Run(ops[..m]).next <= Run(ops[..n]).next
  {
    if m < n {
      hide Run, Apply;
      NextMonotone(ops, m, n - 1);
      RunSnoc(ops, n - 1);
      NextGrows(Run(ops[..n - 1]), ops[n - 1]);
    }
  }

  lemma AskedOnce(ops: seq<Op>, m: nat, k: nat, peer: string, other: string, ticket: Ticket)
    requires m < |ops| && k < |ops| && AskedAt(ops, m, peer, ticket) && AskedAt(ops, k, other, ticket)
    ensures m == k && peer == other
  {
    hide Run, AsciiLower, Swept, Frozen;
    RunSnoc(ops, m);
    RunSnoc(ops, k);
    if m < k {
      NextMonotone(ops, m + 1, k);
    } else if k < m {
      NextMonotone(ops, k + 1, m);
    }
  }

  /** A delivered decision, from the state it meets. */
  predicate Reaches(s: Pairing, op: Op, ticket: Ticket, approved: bool) {
    op.DecideOp? && op.approved == approved && Listed(s, AsciiLower(op.fingerprint), ticket) && ticket in s.listening
  }

  lemma ReachesIff(ops: seq<Op>, n: nat, ticket: Ticket, approved: bool)
    requires n < |ops|
    ensures Reaches(Run(ops[..n]), ops[n], ticket, approved) <==> DecidedAt(ops, n, ticket, approved)
  {
    hide Run, Listed, Asks, Unlists, Leaves;
    if ops[n].DecideOp? {
      var init, peer := ops[..n], AsciiLower(ops[n].fingerprint);
      ListedIff(init, peer, ticket);
      WaitingIff(init, ticket);
      if m :| 0 <= m < n && AskedAt(init, m, peer, ticket) && StaysListed(init, m, peer) {
        PrefixAsked(ops, n, m, peer, ticket);
        AskIsFor(ops, m, peer, ticket);
        if k :| 0 <= k < n && AskedFor(init, k, ticket) && StaysWaiting(init, k, ticket) {
          PrefixAsked(ops, n, k, AsciiLower(ops[k].fingerprint), ticket);
          AskedOnce(ops, m, k, peer, AsciiLower(ops[k].fingerprint), ticket);
        }
      }
      if m :| 0 <= m < n && AskedAt(ops, m, peer, ticket) && StaysListed(init, m, peer)
              && StaysWaiting(init, m, ticket) {
        PrefixAsked(ops, n, m, peer, ticket);
        AskIsFor(ops, m, peer, ticket);
        assert AskedAt(init, m, peer, ticket) && AskedFor(init, m, ticket);
      }
    }
  }

  lemma AskIsFor(ops: seq<Op>, m: nat, peer: string, ticket: Ticket)
    requires m < |ops| && AskedAt(ops, m, peer, ticket)
    ensures AskedFor(ops, m, ticket) && peer == AsciiLower(ops[m].fingerprint)
  {
    hide AsciiLower, Register, Run;
  }

  // ---- what is heard -------------------------------------------------------------------------

  predicate Answered(s: Pairing, ticket: Ticket, approved: bool) {
    ticket in s.answers && s.answers[ticket] == approved
  }

  predicate Cleans(op: Op, ticket: Ticket) {
    op.FinishOp? && op.ticket == ticket
  }

  lemma AnsweredStep(s: Pairing, op: Op, ticket: Ticket, approved: bool)
    requires Ticketed(s)
    ensures Answered(Apply(s, op), ticket, approved)
        <==> Reaches(s, op, ticket, approved) || (Answered(s, ticket, approved) && !Cleans(op, ticket))
  {
    hide AsciiLower, Swept, Decided, Frozen;
  }

  predicate StaysUnread(ops: seq<Op>, n: nat, ticket: Ticket) {
    forall k :: n < k < |ops| ==> !Cleans(ops[k], ticket)
  }

  lemma {:induction false} AnsweredIff(ops: seq<Op>, ticket: Ticket, approved: bool)
    ensures Answered(Run(ops), ticket, approved)
        <==> exists n :: 0 <= n < |ops| && DecidedAt(ops, n, ticket, approved) && StaysUnread(ops, n, ticket)
  {
    hide Run, Apply, DecidedAt, Reaches, Ticketed, Answered, Cleans;
    if ops == [] {
      NoneAnswered(ticket, approved);
    } else {
      var n := |ops| - 1;
      var init := ops[..n];
      AnsweredIff(init, ticket, approved);
      assert ops[..n + 1] == ops;
      RunSnoc(ops, n);
      RunTicketed(init);
      AnsweredStep(Run(init), ops[n], ticket, approved);
      ReachesIff(ops, n, ticket, approved);
      if k :| 0 <= k < n && DecidedAt(init, k, ticket, approved) && StaysUnread(init, k, ticket)
              && !Cleans(ops[n], ticket) {
        PrefixDecided(ops, n, k, ticket, approved);
        assert DecidedAt(ops, k, ticket, approved) && StaysUnread(ops, k, ticket);
      }
      if DecidedAt(ops, n, ticket, approved) {
        assert StaysUnread(ops, n, ticket);
      }
      if k :| 0 <= k < n && DecidedAt(ops, k, ticket, approved) && StaysUnread(ops, k, ticket) {
        PrefixDecided(ops, n, k, ticket, approved);
        assert DecidedAt(init, k, ticket, approved) && StaysUnread(init, k, ticket);
      }
    }
  }

  lemma PrefixDecided(ops: seq<Op>, n: nat, k: nat, ticket: Ticket, approved: bool)
    requires k < n <= |ops|
    ensures DecidedAt(ops[..n], k, ticket, approved) <==> DecidedAt(ops, k, ticket, approved)
  {
    hide Asks, Unlists, Leaves;
    assert ops[..n][..k] == ops[..k] && ops[..n][k] == ops[k];
    if ops[k].DecideOp? {
      forall m | 0 <= m < k
        ensures AskedAt(ops[..n], m, AsciiLower(ops[k].fingerprint), ticket)
            <==> AskedAt(ops, m, AsciiLower(ops[k].fingerprint), ticket)
      {
        PrefixAsked(ops, n, m, AsciiLower(ops[k].fingerprint), ticket);
      }
      hide AskedAt;
    }
  }

  /**
   * Over every run one who waits hears yes exactly when an approval of that very request was delivered to
   * them and they have not finished waiting since; otherwise, and after a denial, they hear no.
   */
  lemma AnswerIff(ops: seq<Op>, peer: string, ticket: Ticket)
    ensures Finish(Run(ops), peer, ticket).1
        <==> exists n :: 0 <= n < |ops| && DecidedAt(ops, n, ticket, true) && StaysUnread(ops, n, ticket)
  {
    AnsweredIff(ops, ticket, true);
    hide Run, DecidedAt, StaysUnread;
  }

  // ---- what counts ---------------------------------------------------------------------------

  /** The decisions of a run that were delivered, in order. */
  ghost function Said(ops: seq<Op>): seq<Decision> {
    if ops == [] then []
    else
      var n := |ops| - 1;
      Said(ops[..n]) + if Delivers(ops, n) then [Decision(AsciiLower(ops[n].fingerprint), ops[n].approved, ops[n].now)]
                       else []
  }

  /** The n-th operation is a decision, and some ticket it is about was still waited on. */
  ghost predicate Delivers(ops: seq<Op>, n: nat)
    requires n < |ops|
  {
    ops[n].DecideOp? && exists ticket :: DecidedAt(ops, n, ticket, ops[n].approved)
  }

  lemma DeliversIff(ops: seq<Op>, n: nat)
    requires n < |ops| && ops[n].DecideOp?
    ensures Delivers(ops, n) <==> Decide(Run(ops[..n]), ops[n].fingerprint, ops[n].approved, ops[n].now).1
  {
    var s, op := Run(ops[..n]), ops[n];
    DecideIff(s, op.fingerprint, op.approved, op.now);
    hide Run, DecidedAt, Decide, AsciiLower;
    forall ticket
      ensures Reaches(s, op, ticket, op.approved) <==> DecidedAt(ops, n, ticket, op.approved)
    {
      ReachesIff(ops, n, ticket, op.approved);
    }
    if ticket :| Listed(s, AsciiLower(op.fingerprint), ticket) && ticket in s.listening {
      assert Reaches(s, op, ticket, op.approved);
    }
  }

  lemma {:induction false} HistoryIsSaid(ops: seq<Op>)
    ensures Run(ops).history == Said(ops)
  {
    if ops != [] {
      var n := |ops| - 1;
      HistoryIsSaid(ops[..n]);
      assert ops[..n + 1] == ops;
      if ops[n].DecideOp? {
        DeliversIff(ops, n);
      }
      hide Delivers, AsciiLower, Swept, Decided, Frozen;
    }
  }

  /** Over every run a device is frozen exactly as the decisions delivered on it amount to. */
  lemma FrozenIff(ops: seq<Op>, peer: string)
    requires InTime(ops)
    ensures Frozen(Run(ops).rejects, peer, ClockOf(ops))
        <==> Tally(Said(ops), peer).Some? && FrozenRecord(Tally(Said(ops), peer).value, ClockOf(ops))
  {
    RunSafe(ops);
    HistoryIsSaid(ops);
    FrozenByHistory(Run(ops).rejects, Run(ops).history, ClockOf(ops), peer);
    hide Run, Said, Tally, Frozen;
  }
}
