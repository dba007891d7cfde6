/** Denial accounting shared by both approval queues: sustained denial of one device freezes its requests. */
module RejectRecords {
  import opened Basics

  const MAX_REJECTS := 5
  const REJECT_WINDOW := 600 * SECOND
  const REJECT_FREEZE := 60 * SECOND

  /** Denials of one device in the current window, and until when its requests are refused. */
  datatype Record = Record(count: nat, windowStarted: Instant, frozenUntil: Option<Instant>)

  /** One decision that reached the one who asked. */
  datatype Decision = Decision(peer: string, approved: bool, at: Instant)

  function AsciiLower(s: string): (r: string)
    ensures |r| == |s|
  {
    if s == [] then []
    else
      var c := s[|s| - 1];
      AsciiLower(s[..|s| - 1]) + [if 'A' <= c <= 'Z' then c - 'A' + 'a' else c]
  }

  /** Fingerprints that differ in ASCII case alone name one device, and the name names itself. */
  lemma {:induction false} SameDevice(a: string, b: string)
    requires |a| == |b|
    requires forall i :: 0 <= i < |a| ==> a[i] == b[i] || ('A' <= a[i] <= 'Z' && b[i] == a[i] - 'A' + 'a')
    ensures AsciiLower(a) == AsciiLower(b) == AsciiLower(AsciiLower(a))
  {
    if a != [] {
      var n := |a| - 1;
      SameDevice(a[..n], b[..n]);
      assert AsciiLower(a)[..n] == AsciiLower(a[..n]);
    }
  }

  predicate FrozenRecord(r: Record, now: Instant) {
    r.frozenUntil.Some? && now < r.frozenUntil.value
  }

  predicate Frozen(rejects: map<string, Record>, peer: string, now: Instant) {
    peer in rejects && FrozenRecord(rejects[peer], now)
  }

  function FreshRecord(now: Instant): Record {
    Record(0, now, None)
  }

  /** One more denial; a window that has run out starts over. */
  function Counted(r: Record, now: Instant): Record {
    var current := if Elapsed(r.windowStarted, now) >= REJECT_WINDOW then FreshRecord(now) else r;
    current.(count := current.count + 1,
             frozenUntil := if current.count + 1 >= MAX_REJECTS then Some(now + REJECT_FREEZE) else current.frozenUntil)
  }

  function Denied(rejects: map<string, Record>, peer: string, now: Instant): map<string, Record> {
    rejects[peer := Counted(if peer in rejects then rejects[peer] else FreshRecord(now), now)]
  }

  /** The bookkeeping of one decision: an approval clears the count, a denial grows it. */
  function Decided(rejects: map<string, Record>, peer: string, approved: bool, now: Instant): map<string, Record> {
    if approved then rejects - {peer} else Denied(rejects, peer, now)
  }

  /** The janitor: records neither frozen nor in their window are dropped. */
  function Swept(rejects: map<string, Record>, now: Instant): map<string, Record> {
    map peer | peer in rejects && !Stale(rejects[peer], now) :: rejects[peer]
  }

  predicate Stale(r: Record, now: Instant) {
    !FrozenRecord(r, now) && Elapsed(r.windowStarted, now) >= REJECT_WINDOW
  }

  /** The janitor keeps exactly the records that still freeze or whose ten minutes are not over. */
  lemma SweptMeans(rejects: map<string, Record>, now: Instant, peer: string)
    ensures peer in Swept(rejects, now) <==>
            peer in rejects && (Frozen(rejects, peer, now) || Elapsed(rejects[peer].windowStarted, now) < 600 * SECOND)
    ensures peer in Swept(rejects, now) ==> Swept(rejects, now)[peer] == rejects[peer]
  {
  }

  // ---- the record a history amounts to -------------------------------------------------------

  /** The record of one device, had nothing ever been swept. */
  function Tally(history: seq<Decision>, peer: string): Option<Record> {
    if history == [] then None
    else
      var before, d := Tally(history[..|history| - 1], peer), history[|history| - 1];
      if d.peer != peer then before
      else if d.approved then None
      else Some(Counted(if before.Some? then before.value else FreshRecord(d.at), d.at))
  }

  /** Decisions come in the order of their times, none later than `clock`. */
  predicate Clocked(history: seq<Decision>, clock: Instant) {
    && (forall i, j :: 0 <= i <= j < |history| ==> history[i].at <= history[j].at)
    && forall i :: 0 <= i < |history| ==> history[i].at <= clock
  }

  /** The records kept are the ones the history amounts to; those missing no longer matter. */
  ghost predicate Tracks(rejects: map<string, Record>, history: seq<Decision>, clock: Instant) {
    forall peer ::
      && (peer in rejects ==> Tally(history, peer) == Some(rejects[peer]))
      && (peer !in rejects && Tally(history, peer).Some? ==> Stale(Tally(history, peer).value, clock))
  }

  lemma TallySnoc(history: seq<Decision>, d: Decision, peer: string)
    ensures Tally(history + [d], peer)
         == if d.peer != peer then Tally(history, peer)
            else if d.approved then None
            else Some(Counted(if Tally(history, peer).Some? then Tally(history, peer).value
                else FreshRecord(d.at), d.at))
  {
    assert (history + [d])[..|history|] == history;
  }

  lemma TracksDecided(rejects: map<string, Record>, history: seq<Decision>, clock: Instant, d: Decision)
    requires Tracks(rejects, history, clock) && clock <= d.at
    ensures Tracks(Decided(rejects, d.peer, d.approved, d.at), history + [d], d.at)
  {
    forall peer
      ensures var after := Decided(rejects, d.peer, d.approved, d.at);
              var tally := Tally(history + [d], peer);
              && (peer in after ==> tally == Some(after[peer]))
              && (peer !in after && tally.Some? ==> Stale(tally.value, d.at))
    {
      TallySnoc(history, d, peer);
    }
  }

  lemma TracksSwept(rejects: map<string, Record>, history: seq<Decision>, clock: Instant, now: Instant)
    requires Tracks(rejects, history, clock) && clock <= now
    ensures Tracks(Swept(rejects, now), history, now)
  {
    hide Tally;
  }

  lemma TracksLater(rejects: map<string, Record>, history: seq<Decision>, clock: Instant, now: Instant)
    requires Tracks(rejects, history, clock) && clock <= now
    ensures Tracks(rejects, history, now)
  {
    hide Tally;
  }

  /** Sweeping is invisible: whether a device is frozen depends on the history of decisions alone. */
  lemma FrozenByHistory(rejects: map<string, Record>, history: seq<Decision>, clock: Instant, peer: string)
    requires Tracks(rejects, history, clock)
    ensures Frozen(rejects, peer, clock) <==>
            Tally(history, peer).Some? && FrozenRecord(Tally(history, peer).value, clock)
  {
    hide Tally;
  }

  // ---- what a freeze means -------------------------------------------------------------------

  /** Where in the history the current window of a device began. */
  function WindowFrom(history: seq<Decision>, peer: string): nat {
    if history == [] then 0
    else
      var n := |history| - 1;
      var before := Tally(history[..n], peer);
      if history[n].peer != peer then WindowFrom(history[..n], peer)
      else if before.None? || Elapsed(before.value.windowStarted, history[n].at) >= 600 * SECOND then n
      else WindowFrom(history[..n], peer)
  }

  function DecisionsFor(history: seq<Decision>, peer: string): nat {
    if history == [] then 0
    else DecisionsFor(history[..|history| - 1], peer) + if history[|history| - 1].peer == peer then 1 else 0
  }

  /** When a device was last decided on. */
  function LastAt(history: seq<Decision>, peer: string): Instant {
    if history == [] then 0
    else if history[|history| - 1].peer == peer then history[|history| - 1].at
    else LastAt(history[..|history| - 1], peer)
  }

  lemma DecisionsSnoc(history: seq<Decision>, d: Decision, peer: string)
    ensures DecisionsFor(history + [d], peer) == DecisionsFor(history, peer) + if d.peer == peer then 1 else 0
  {
    assert (history + [d])[..|history|] == history;
  }

  /** All of a device's decisions from `from` on are denials in one window. */
  predicate OneWindow(history: seq<Decision>, peer: string, from: nat, started: Instant) {
    forall j :: from <= j < |history| && history[j].peer == peer ==>
      !history[j].approved && started <= history[j].at < started + 600 * SECOND
  }

  /** A record `r` of a device, whose window began at index `from`, says what happened. */
  predicate Means(history: seq<Decision>, peer: string, r: Record, from: nat) {
    && from < |history| && history[from] == Decision(peer, false, r.windowStarted)
    && OneWindow(history, peer, from, r.windowStarted)
    && r.count == DecisionsFor(history[from..], peer)
    && r.frozenUntil == if r.count >= 5 then Some(LastAt(history, peer) + 60 * SECOND) else None
  }

  lemma MeansFirst(history: seq<Decision>, peer: string)
    requires history != [] && history[|history| - 1].peer == peer && !history[|history| - 1].approved
    ensures var n := |history| - 1;
            Means(history, peer, Counted(FreshRecord(history[n].at), history[n].at), n)
  {
    var n := |history| - 1;
    assert history[n..] == [] + [history[n]];
    DecisionsSnoc([], history[n], peer);
    assert DecisionsFor([], peer) == 0 && LastAt(history, peer) == history[n].at;
    hide DecisionsFor, LastAt;
  }

  lemma MeansMore(history: seq<Decision>, peer: string, r: Record, from: nat)
    requires history != [] && Means(history[..|history| - 1], peer, r, from)
    requires history[from].at <= history[|history| - 1].at
    requires var d := history[|history| - 1];
             d.peer == peer ==> !d.approved && Elapsed(r.windowStarted, d.at) < 600 * SECOND
    ensures var d := history[|history| - 1];
            Means(history, peer, if d.peer == peer then Counted(r, d.at) else r, from)
  {
    var n := |history| - 1;
    assert history[from..] == history[..n][from..] + [history[n]];
    DecisionsSnoc(history[..n][from..], history[n], peer);
    assert history[..n][from] == history[from];
    hide DecisionsFor;
  }

  /**
   * What a record means. It counts the denials of the device since its window began; there was no
   * approval among them and all fell within ten minutes; and it freezes the device, for a minute after
   * the last of them, exactly when there were at least five.
   */
  lemma {:induction false} RecordMeans(history: seq<Decision>, peer: string, clock: Instant)
    requires Clocked(history, clock) && Tally(history, peer).Some?
    ensures Means(history, peer, Tally(history, peer).value, WindowFrom(history, peer))
  {
    var n := |history| - 1;
    var before, d := history[..n], history[n];
    var tally := Tally(before, peer);
    hide Means;
    if tally.Some? {
      RecordMeans(before, peer, clock);
    }
    if d.peer != peer {
      WindowInside(before, peer, clock);
      MeansMore(history, peer, tally.value, WindowFrom(before, peer));
    } else if tally.None? || Elapsed(tally.value.windowStarted, d.at) >= 600 * SECOND {
      MeansFirst(history, peer);
    } else {
      WindowInside(before, peer, clock);
      MeansMore(history, peer, tally.value, WindowFrom(before, peer));
    }
  }

  lemma WindowInside(history: seq<Decision>, peer: string, clock: Instant)
    requires Tally(history, peer).Some? && Means(history, peer, Tally(history, peer).value, WindowFrom(history, peer))
    ensures WindowFrom(history, peer) < |history|
  {
  }

  /** So a frozen device was denied at least five times within ten minutes with no approval between. */
  lemma FreezeIsEarned(rejects: map<string, Record>, history: seq<Decision>, clock: Instant, peer: string)
    requires Tracks(rejects, history, clock) && Clocked(history, clock) && Frozen(rejects, peer, clock)
    ensures exists from: nat ::
              && from < |history| && DecisionsFor(history[from..], peer) >= 5
              && OneWindow(history, peer, from, history[from].at)
    ensures rejects[peer].frozenUntil == Some(LastAt(history, peer) + 60 * SECOND)
  {
    assert Tally(history, peer) == Some(rejects[peer]);
    hide Tally, WindowFrom, DecisionsFor, LastAt, OneWindow, Clocked;
    RecordMeans(history, peer, clock);
    var from := WindowFrom(history, peer);
    assert DecisionsFor(history[from..], peer) >= 5 && OneWindow(history, peer, from, history[from].at);
  }

  /** And conversely: five denials within ten minutes, from a clean slate and with no approval, do freeze it. */
  lemma {:induction false} DenialsFreeze(history: seq<Decision>, more: seq<Decision>, peer: string, started: Instant)
    requires Tally(history, peer).None? || Elapsed(Tally(history, peer).value.windowStarted, started) >= 600 * SECOND
    requires Clocked(more, started + 600 * SECOND) && OneWindow(more, peer, 0, started)
    requires more != [] && more[0] == Decision(peer, false, started)
    ensures var tally := Tally(history + more, peer);
            && tally.Some? && tally.value.windowStarted == started && tally.value.count == DecisionsFor(more, peer)
            && (DecisionsFor(more, peer) >= 5 ==>
                  tally.value.frozenUntil == Some(LastAt(more, peer) + 60 * SECOND))
    decreases |more|
  {
    var n := |more| - 1;
    assert history + more == (history + more[..n]) + [more[n]];
    TallySnoc(history + more[..n], more[n], peer);
    if n == 0 {
      assert history + more[..0] == history;
      assert more[..0] == [];
    } else {
      DenialsFreeze(history, more[..n], peer, started);
    }
  }
}
