/** In what order accepted events are handed on: exactly when a disconnect reorders them, and what that costs. */
module CaptureOrders {
  import opened Basics
  import opened Events
  import opened Holds
  import opened Devices
  import opened Captures

  // ---- order of emission ---------------------------------------------------------------------

  /** Everything still to be handed on, in the order NextEvent hands it on. */
  function Backlog(s: CaptureState): seq<InputEvent> {
    s.pending + Queues(s.devices)
  }

  lemma {:induction false} QueuesFrom(devices: seq<DeviceState>, i: nat)
    requires i < |devices| && forall k :: 0 <= k < i ==> devices[k].queue == []
    requires devices[i].queue != []
    ensures var d := devices[i].(queue := devices[i].queue[1..]);
            Queues(devices) == [devices[i].queue[0]] + Queues(devices[i := d])
  {
    var n := |devices| - 1;
    var d := devices[i].(queue := devices[i].queue[1..]);
    var popped := devices[i := d];
    if i < n {
      QueuesFrom(devices[..n], i);
      assert devices[..n][i := d] == popped[..n];
    } else {
      NoQueues(devices[..n]);
      assert popped[..n] == devices[..n];
    }
  }

  lemma NoQueues(devices: seq<DeviceState>)
    requires forall k :: 0 <= k < |devices| ==> devices[k].queue == []
    ensures Queues(devices) == []
  {
  }

  /** NextEvent hands on the backlog front first, and is done exactly when it is empty. */
  lemma NextIsBacklogHead(s: CaptureState)
    ensures match NextEvent(s)
            case Some(next) => Backlog(s) == [next.1] + Backlog(next.0)
            case None => Backlog(s) == []
  {
    if s.pending == [] {
      var i := FirstQueued(s.devices);
      if i < |s.devices| {
        QueuesFrom(s.devices, i);
      } else {
        NoQueues(s.devices);
      }
    }
  }

  /** What one read adds to the log and to its device's queue. */
  function Gained(s: CaptureState, i: nat, raw: Raw, hid: map<Code, HidUsage>, now: Instant): seq<InputEvent>
    requires i < |s.devices|
  {
    var p := Process(s.devices[i], raw, hid, now);
    var repeated := QueuedBy(EffectOf(s.devices[i], raw, hid, now));
    repeated + AcceptAll(s.(devices := s.devices[i := p.0], log := s.log + repeated), i, p.1).1
  }

  lemma ReadGains(s: CaptureState, i: nat, raw: Raw, hid: map<Code, HidUsage>, now: Instant)
    requires i < |s.devices|
    ensures var t := Read(s, i, raw, hid, now);
            var more := Gained(s, i, raw, hid, now);
            && t.pending == s.pending && t.log == s.log + more
            && |t.devices| == |s.devices| && t.devices == s.devices[i := t.devices[i]]
            && t.devices[i].queue == s.devices[i].queue + more
  {
    var p := Process(s.devices[i], raw, hid, now);
    var repeated := QueuedBy(EffectOf(s.devices[i], raw, hid, now));
    ProcessShape(s.devices[i], raw, hid, now);
    var s1 := s.(devices := s.devices[i := p.0], log := s.log + repeated);
    AcceptAllKeepsDevices(s1, i, p.1);
    hide Process, EffectOf, QueuedBy, AcceptAll;
    var accepted := AcceptAll(s1, i, p.1).1;
    Associative(s.log, repeated, accepted);
    Associative(s.devices[i].queue, repeated, accepted);
  }

  lemma Associative<T>(a: seq<T>, b: seq<T>, c: seq<T>)
    ensures a + b + c == a + (b + c)
  {
  }

  /** Reading the devices in order, every accepted event joins the back of the backlog. */
  lemma ReadJoinsBacklog(s: CaptureState, i: nat, raw: Raw, hid: map<Code, HidUsage>, now: Instant)
    requires i < |s.devices| && forall k :: i < k < |s.devices| ==> s.devices[k].queue == []
    ensures var t := Read(s, i, raw, hid, now);
            && |t.log| >= |s.log| && t.log[..|s.log|] == s.log
            && Backlog(t) == Backlog(s) + t.log[|s.log|..]
  {
    hide Read, Gained, Queues, Backlog;
    ReadGains(s, i, raw, hid, now);
    var t, more := Read(s, i, raw, hid, now), Gained(s, i, raw, hid, now);
    QueueAppend(s.devices, i, t.devices[i], more);
    JoinBacklog(s, t, more);
  }

  lemma JoinBacklog(s: CaptureState, t: CaptureState, more: seq<InputEvent>)
    requires t.pending == s.pending && t.log == s.log + more && Queues(t.devices) == Queues(s.devices) + more
    ensures |t.log| >= |s.log| && t.log[..|s.log|] == s.log
    ensures Backlog(t) == Backlog(s) + t.log[|s.log|..]
  {
    hide Queues;
    assert t.log[|s.log|..] == more;
  }

  lemma {:induction false} QueueAppend(devices: seq<DeviceState>, i: nat, d: DeviceState, more: seq<InputEvent>)
    requires i < |devices| && d.queue == devices[i].queue + more
    requires forall k :: i < k < |devices| ==> devices[k].queue == []
    ensures Queues(devices[i := d]) == Queues(devices) + more
  {
    var n := |devices| - 1;
    var u := devices[i := d];
    if i < n {
      QueueAppend(devices[..n], i, d, more);
      assert u[..n] == devices[..n][i := d];
    } else {
      assert u[..n] == devices[..n];
    }
  }

  /** One pass over the devices: raw events as they are read, device by device. */
  datatype Reading = Reading(device: nat, raw: Raw, now: Instant)

  function ReadAll(s: CaptureState, readings: seq<Reading>, hid: map<Code, HidUsage>): CaptureState {
    if readings == [] then s
    else
      var t := ReadAll(s, readings[..|readings| - 1], hid);
      var r := readings[|readings| - 1];
      if r.device < |t.devices| then Read(t, r.device, r.raw, hid, r.now) else t
  }

  predicate Ordered(readings: seq<Reading>) {
    forall a, b :: 0 <= a < b < |readings| ==> readings[a].device <= readings[b].device
  }

  /** Devices past the last one read have nothing queued. */
  predicate QuietPast(devices: seq<DeviceState>, readings: seq<Reading>) {
    forall k :: 0 <= k < |devices| && (readings == [] || readings[|readings| - 1].device < k) ==> devices[k].queue == []
  }

  /** Everything accepted since `s` is what is left to hand on. */
  predicate InOrderSince(s: CaptureState, t: CaptureState) {
    |t.log| >= |s.log| && t.log[..|s.log|] == s.log && Backlog(t) == t.log[|s.log|..]
  }

  lemma InOrderStep(s: CaptureState, t: CaptureState, i: nat, raw: Raw, hid: map<Code, HidUsage>, now: Instant)
    requires i < |t.devices| && forall k :: i < k < |t.devices| ==> t.devices[k].queue == []
    requires InOrderSince(s, t)
    ensures InOrderSince(s, Read(t, i, raw, hid, now))
  {
    ReadJoinsBacklog(t, i, raw, hid, now);
    hide Backlog, Read;
    var u := Read(t, i, raw, hid, now);
    assert u.log[|s.log|..] == t.log[|s.log|..] + u.log[|t.log|..];
    assert u.log[..|s.log|] == t.log[..|s.log|];
  }

  lemma PassStep(s: CaptureState, t: CaptureState, readings: seq<Reading>, r: Reading, hid: map<Code, HidUsage>)
    requires InOrderSince(s, t) && QuietPast(t.devices, readings) && r.device < |t.devices|
    requires readings != [] ==> readings[|readings| - 1].device <= r.device
    ensures var u := Read(t, r.device, r.raw, hid, r.now); InOrderSince(s, u) && QuietPast(u.devices, readings + [r])
  {
    ReadTouchesOne(t, r.device, r.raw, hid, r.now);
    hide Read, InOrderSince;
    InOrderStep(s, t, r.device, r.raw, hid, r.now);
  }

  /** A pass starts with nothing left to hand on, and takes the devices in order. */
  lemma {:induction false} PassInOrder(s: CaptureState, readings: seq<Reading>, hid: map<Code, HidUsage>)
    requires Backlog(s) == [] && Ordered(readings)
    ensures var t := ReadAll(s, readings, hid); InOrderSince(s, t) && QuietPast(t.devices, readings)
  {
    hide Read, Ordered, InOrderSince, ReadAll, QuietPast, Backlog;
    if readings == [] {
      NothingRead(s, readings, hid);
    } else {
      var n := |readings| - 1;
      OrderedPrefix(readings);
      PassInOrder(s, readings[..n], hid);
      assert readings == readings[..n] + [readings[n]];
      ReadAllSnoc(s, readings[..n], readings[n], hid);
      PassMore(s, ReadAll(s, readings[..n], hid), readings[..n], readings[n], hid);
    }
  }

  lemma OrderedPrefix(readings: seq<Reading>)
    requires Ordered(readings) && readings != []
    ensures Ordered(readings[..|readings| - 1])
    ensures |readings| > 1 ==> readings[|readings| - 2].device <= readings[|readings| - 1].device
  {
  }

  lemma NothingRead(s: CaptureState, readings: seq<Reading>, hid: map<Code, HidUsage>)
    requires Backlog(s) == [] && readings == []
    ensures ReadAll(s, readings, hid) == s && InOrderSince(s, s) && QuietPast(s.devices, readings)
  {
    assert s.log[|s.log|..] == [];
    QueuesEmpty(s.devices);
  }

  /** One more reading, of a device that may have gone since. */
  lemma PassMore(s: CaptureState, t: CaptureState, readings: seq<Reading>, r: Reading, hid: map<Code, HidUsage>)
    requires InOrderSince(s, t) && QuietPast(t.devices, readings)
    requires readings != [] ==> readings[|readings| - 1].device <= r.device
    ensures var u := if r.device < |t.devices| then Read(t, r.device, r.raw, hid, r.now) else t;
            InOrderSince(s, u) && QuietPast(u.devices, readings + [r])
  {
    hide Read, InOrderSince;
    if r.device < |t.devices| {
      PassStep(s, t, readings, r, hid);
    }
  }

  lemma ReadAllSnoc(s: CaptureState, readings: seq<Reading>, r: Reading, hid: map<Code, HidUsage>)
    ensures ReadAll(s, [], hid) == s
    ensures var t := ReadAll(s, readings, hid);
            ReadAll(s, readings + [r], hid)
                == if r.device < |t.devices| then Read(t, r.device, r.raw, hid, r.now) else t
  {
    assert (readings + [r])[..|readings|] == readings;
    hide Read;
  }

  lemma ReadTouchesOne(s: CaptureState, i: nat, raw: Raw, hid: map<Code, HidUsage>, now: Instant)
    requires i < |s.devices|
    ensures var t := Read(s, i, raw, hid, now);
            |t.devices| == |s.devices| && forall k :: 0 <= k < |s.devices| && k != i ==> t.devices[k] == s.devices[k]
  {
    hide Process, EffectOf, AcceptAll;
  }

  lemma {:induction false} QueuesEmpty(devices: seq<DeviceState>)
    requires Queues(devices) == []
    ensures forall k :: 0 <= k < |devices| ==> devices[k].queue == []
  {
    if devices != [] {
      QueuesEmpty(devices[..|devices| - 1]);
    }
  }

  lemma LogGrows<T>(log: seq<T>, accepted: seq<T>, freed: seq<T>, n: nat)
    requires n <= |log| && log[n..] == accepted
    ensures |log + freed| >= n && (log + freed)[..n] == log[..n] && (log + freed)[n..] == accepted + freed
  {
  }

  // ---- positions -----------------------------------------------------------------------------

  /** `n` consecutive positions. */
  function Span(from: nat, n: nat): (ps: seq<nat>)
    ensures |ps| == n
  {
    if n == 0 then [] else Span(from, n - 1) + [from + n - 1]
  }

  lemma {:induction false} SpanAt(from: nat, n: nat, k: nat)
    requires k < n
    ensures Span(from, n)[k] == from + k
  {
    if k < n - 1 {
      SpanAt(from, n - 1, k);
    }
  }

  lemma SpanHas(from: nat, n: nat, p: nat)
    ensures p in Span(from, n) <==> from <= p < from + n
  {
    if from <= p < from + n {
      SpanAt(from, n, p - from);
    }
    if p in Span(from, n) {
      var k :| 0 <= k < n && Span(from, n)[k] == p;
      SpanAt(from, n, k);
    }
  }

  /** Where the queue of a device starts in the order of acceptance. */
  function Start(devices: seq<DeviceState>, k: nat): nat
    requires k <= |devices|
  {
    |Queues(devices[..k])|
  }

  /** The positions, in acceptance order, of what is queued at the vanished or at the surviving devices. */
  function Positions(devices: seq<DeviceState>, removed: set<nat>, vanished: bool): seq<nat> {
    if devices == [] then []
    else
      var n := |devices| - 1;
      Positions(devices[..n], removed, vanished)
      + if (n in removed) == vanished then Span(|Queues(devices[..n])|, |devices[n].queue|) else []
  }

  /** The positions in the order they are handed on: vanished devices, then what is freed, then the survivors. */
  function HandedOn(devices: seq<DeviceState>, removed: set<nat>, freed: nat): seq<nat> {
    Positions(devices, removed, true) + Span(|Queues(devices)|, freed) + Positions(devices, removed, false)
  }

  ghost predicate Ascending(ps: seq<nat>) {
    forall a, b :: 0 <= a < b < |ps| ==> ps[a] < ps[b]
  }

  /** The elements of a sequence at the given positions. */
  predicate PickedAt<T(==)>(picked: seq<T>, from: seq<T>, ps: seq<nat>) {
    |picked| == |ps| && forall k :: 0 <= k < |ps| ==> ps[k] < |from| && picked[k] == from[ps[k]]
  }

  /** A device's events lie between its start and the next one's. */
  predicate Owns(devices: seq<DeviceState>, k: nat, p: nat)
    requires k < |devices|
  {
    Start(devices, k) <= p < Start(devices, k) + |devices[k].queue|
  }

  lemma StartNext(devices: seq<DeviceState>, k: nat)
    requires k < |devices|
    ensures Start(devices, k + 1) == Start(devices, k) + |devices[k].queue|
    ensures Start(devices, |devices|) == |Queues(devices)|
  {
    assert devices[..k + 1][..k] == devices[..k];
    assert devices[..|devices|] == devices;
  }

  lemma {:induction false} StartMonotone(devices: seq<DeviceState>, i: nat, j: nat)
    requires i <= j <= |devices|
    ensures Start(devices, i) <= Start(devices, j)
  {
    if i < j {
      StartMonotone(devices, i, j - 1);
      StartNext(devices, j - 1);
    }
  }

  lemma {:induction false} PickedQueues(devices: seq<DeviceState>, removed: set<nat>, vanished: bool)
    ensures PickedAt(QueuesOf(devices, removed, vanished), Queues(devices), Positions(devices, removed, vanished))
  {
    hide Queues, PickedAt, Positions, QueuesOf;
    if devices == [] {
      PickedNone(removed, vanished);
    } else {
      var n := |devices| - 1;
      PickedQueues(devices[..n], removed, vanished);
      PickedSnoc(devices[..n], devices[n], removed, vanished);
      assert devices == devices[..n] + [devices[n]];
    }
  }

  lemma PickedNone(removed: set<nat>, vanished: bool)
    ensures PickedAt(QueuesOf([], removed, vanished), Queues([]), Positions([], removed, vanished))
  {
  }

  function QueuesOf(devices: seq<DeviceState>, removed: set<nat>, vanished: bool): seq<InputEvent> {
    Queues(if vanished then Gone(devices, removed) else Kept(devices, removed))
  }

  lemma PickedSnoc(init: seq<DeviceState>, d: DeviceState, removed: set<nat>, vanished: bool)
    requires PickedAt(QueuesOf(init, removed, vanished), Queues(init), Positions(init, removed, vanished))
    ensures PickedAt(QueuesOf(init + [d], removed, vanished), Queues(init + [d]),
        Positions(init + [d], removed, vanished))
  {
    hide Queues, Gone, Kept, PickedAt, Positions, Span;
    QueuesOfSnoc(init, d, removed, vanished);
    QueuesSnoc(init, d);
    PositionsSnoc(init, d, removed, vanished);
    hide QueuesOf;
    PickMore(QueuesOf(init, removed, vanished), Queues(init), Positions(init, removed, vanished), d.queue);
  }

  lemma QueuesOfSnoc(init: seq<DeviceState>, d: DeviceState, removed: set<nat>, vanished: bool)
    ensures QueuesOf(init + [d], removed, vanished)
         == if (|init| in removed) == vanished then QueuesOf(init, removed, vanished) + d.queue
            else QueuesOf(init, removed, vanished)
  {
    hide Queues, Gone, Kept;
    SplitSnoc(init, d, removed);
    QueuesSnoc(if vanished then Gone(init, removed) else Kept(init, removed), d);
    assert Gone(init, removed) + [] == Gone(init, removed) && Kept(init, removed) + [] == Kept(init, removed);
  }

  lemma PositionsSnoc(init: seq<DeviceState>, d: DeviceState, removed: set<nat>, vanished: bool)
    ensures Positions(init + [d], removed, vanished)
         == if (|init| in removed) == vanished then Positions(init, removed, vanished) + Span(|Queues(init)|, |d.queue|)
            else Positions(init, removed, vanished)
  {
    assert (init + [d])[..|init|] == init;
    assert Positions(init, removed, vanished) + [] == Positions(init, removed, vanished);
  }

  lemma PickMore<T>(picked: seq<T>, from: seq<T>, ps: seq<nat>, more: seq<T>)
    requires PickedAt(picked, from, ps)
    ensures PickedAt(picked, from + more, ps)
    ensures PickedAt(picked + more, from + more, ps + Span(|from|, |more|))
  {
    var all, qs := from + more, ps + Span(|from|, |more|);
    forall k | 0 <= k < |qs|
      ensures qs[k] < |all| && (picked + more)[k] == all[qs[k]]
    {
      if k >= |ps| {
        SpanAt(|from|, |more|, k - |ps|);
      } else {
        assert picked[k] == from[ps[k]];
      }
    }
  }

  /** Each position belongs to one device of its kind. */
  lemma {:induction false} PositionOwned(devices: seq<DeviceState>, removed: set<nat>, vanished: bool, p: nat)
    requires p in Positions(devices, removed, vanished)
    ensures exists k :: 0 <= k < |devices| && (k in removed) == vanished && Owns(devices, k, p)
  {
    var n := |devices| - 1;
    if p in Positions(devices[..n], removed, vanished) {
      PositionOwned(devices[..n], removed, vanished, p);
      var k :| 0 <= k < n && (k in removed) == vanished && Owns(devices[..n], k, p);
      assert devices[..n][..k] == devices[..k];
      assert Owns(devices, k, p);
    } else {
      SpanHas(|Queues(devices[..n])|, |devices[n].queue|, p);
      assert Owns(devices, n, p);
    }
  }

  /** And every device with events has its first one among them. */
  lemma {:induction false} StartListed(devices: seq<DeviceState>, removed: set<nat>, k: nat)
    requires k < |devices| && devices[k].queue != []
    ensures Start(devices, k) in Positions(devices, removed, k in removed)
  {
    var n := |devices| - 1;
    if k < n {
      StartListed(devices[..n], removed, k);
      assert devices[..n][..k] == devices[..k];
    } else {
      SpanHas(|Queues(devices[..n])|, |devices[n].queue|, Start(devices, k));
    }
  }

  lemma {:induction false} PositionsAscend(devices: seq<DeviceState>, removed: set<nat>, vanished: bool)
    ensures Ascending(Positions(devices, removed, vanished))
    ensures forall p :: p in Positions(devices, removed, vanished) ==> p < |Queues(devices)|
  {
    if devices != [] {
      var n := |devices| - 1;
      PositionsAscend(devices[..n], removed, vanished);
      AscendMore(Positions(devices[..n], removed, vanished), |Queues(devices[..n])|, |devices[n].queue|);
      assert Queues(devices) == Queues(devices[..n]) + devices[n].queue;
      hide Queues, Ascending;
    }
  }

  lemma AscendMore(ps: seq<nat>, from: nat, n: nat)
    requires Ascending(ps) && forall p :: p in ps ==> p < from
    ensures Ascending(ps + Span(from, n)) && ps + [] == ps
    ensures forall p :: p in ps + Span(from, n) ==> p < from + n
  {
    var all := ps + Span(from, n);
    forall a, b | 0 <= a < b < |all|
      ensures all[a] < all[b]
    {
      if b >= |ps| {
        SpanAt(from, n, b - |ps|);
        if a >= |ps| {
          SpanAt(from, n, a - |ps|);
        } else {
          assert ps[a] in ps;
        }
      }
    }
    forall p | p in all
      ensures p < from + n
    {
      SpanHas(from, n, p);
    }
  }

  lemma SpanAscends(from: nat, n: nat)
    ensures Ascending(Span(from, n))
  {
    AscendMore([], from, n);
    assert [] + Span(from, n) == Span(from, n);
  }

  /** A vanished device with events sits behind a surviving one with events. */
  predicate Overtakes(devices: seq<DeviceState>, removed: set<nat>) {
    exists i, j :: 0 <= i < j < |devices| && i !in removed && j in removed && devices[i].queue != []
        && devices[j].queue != []
  }

  predicate AnyQueued(devices: seq<DeviceState>, removed: set<nat>) {
    exists k :: 0 <= k < |devices| && k !in removed && devices[k].queue != []
  }

  /** What keeps the order: no vanished device overtakes, and nothing freed goes before a survivor's events. */
  predicate KeepsOrder(devices: seq<DeviceState>, removed: set<nat>, freed: nat) {
    !Overtakes(devices, removed) && (freed == 0 || !AnyQueued(devices, removed))
  }

  /** Without overtaking, every vanished device's position comes before every survivor's. */
  lemma VanishedFirst(devices: seq<DeviceState>, removed: set<nat>, p: nat, q: nat)
    requires !Overtakes(devices, removed)
    requires p in Positions(devices, removed, true) && q in Positions(devices, removed, false)
    ensures p < q
  {
    PositionOwned(devices, removed, true, p);
    PositionOwned(devices, removed, false, q);
    hide Positions, Owns;
    var j :| 0 <= j < |devices| && (j in removed) == true && Owns(devices, j, p);
    var i :| 0 <= i < |devices| && (i in removed) == false && Owns(devices, i, q);
    OwnerQueued(devices, j, p);
    OwnerQueued(devices, i, q);
    assert i > j;
    OwnersOrdered(devices, j, p, i, q);
  }

  lemma OwnerQueued(devices: seq<DeviceState>, k: nat, p: nat)
    requires k < |devices| && Owns(devices, k, p)
    ensures devices[k].queue != []
  {
    hide Start;
  }

  lemma OwnersOrdered(devices: seq<DeviceState>, j: nat, p: nat, i: nat, q: nat)
    requires j < i < |devices| && Owns(devices, j, p) && Owns(devices, i, q)
    ensures p < q
  {
    hide Start;
    StartNext(devices, j);
    StartMonotone(devices, j + 1, i);
  }

  lemma SurvivorListed(devices: seq<DeviceState>, removed: set<nat>)
    ensures AnyQueued(devices, removed) <==> Positions(devices, removed, false) != []
  {
    if AnyQueued(devices, removed) {
      var k :| 0 <= k < |devices| && k !in removed && devices[k].queue != [];
      StartListed(devices, removed, k);
    }
    if Positions(devices, removed, false) != [] {
      var p := Positions(devices, removed, false)[0];
      PositionOwned(devices, removed, false, p);
      var k :| 0 <= k < |devices| && (k in removed) == false && Owns(devices, k, p);
      assert devices[k].queue != [];
    }
  }

  /** Everything in `a` comes before everything in `b`. */
  ghost predicate AllBefore(a: seq<nat>, b: seq<nat>) {
    forall p, q :: p in a && q in b ==> p < q
  }

  lemma JoinTwo(a: seq<nat>, b: seq<nat>)
    ensures Ascending(a + b) <==> Ascending(a) && Ascending(b) && AllBefore(a, b)
  {
    var all := a + b;
    if Ascending(all) {
      JoinTwoParts(a, b);
    }
    if Ascending(a) && Ascending(b) && AllBefore(a, b) {
      forall i, j | 0 <= i < j < |all|
        ensures all[i] < all[j]
      {
        if i < |a| && j >= |a| {
          assert a[i] in a && b[j - |a|] in b;
        } else if i >= |a| {
          assert b[i - |a|] < b[j - |a|];
        }
      }
    }
  }

  lemma JoinTwoParts(a: seq<nat>, b: seq<nat>)
    requires Ascending(a + b)
    ensures Ascending(a) && Ascending(b) && AllBefore(a, b)
  {
    var all := a + b;
    forall i, j | 0 <= i < j < |a|
      ensures a[i] < a[j]
    {
      assert all[i] < all[j];
    }
    forall i, j | 0 <= i < j < |b|
      ensures b[i] < b[j]
    {
      assert all[|a| + i] < all[|a| + j];
    }
    forall p, q | p in a && q in b
      ensures p < q
    {
      var i :| 0 <= i < |a| && a[i] == p;
      var j :| 0 <= j < |b| && b[j] == q;
      assert all[i] < all[|a| + j];
    }
  }

  /** Three ascending runs, one after another. */
  lemma JoinAscending(a: seq<nat>, b: seq<nat>, c: seq<nat>)
    ensures Ascending(a + b + c) <==>
            && Ascending(a) && Ascending(b) && Ascending(c)
            && AllBefore(a, b) && AllBefore(a, c) && AllBefore(b, c)
  {
    JoinTwo(a, b);
    JoinTwo(a + b, c);
    hide Ascending;
    assert forall p :: p in a + b <==> p in a || p in b;
  }

  /** Positions are handed on in ascending order exactly when the order is kept. */
  lemma HandedOnInOrderIff(devices: seq<DeviceState>, removed: set<nat>, freed: nat)
    ensures Ascending(HandedOn(devices, removed, freed)) <==> KeepsOrder(devices, removed, freed)
  {
    var total := |Queues(devices)|;
    var gone, kept, middle := Positions(devices, removed, true), Positions(devices, removed, false), Span(total, freed);
    JoinAscending(gone, middle, kept);
    PositionsAscend(devices, removed, true);
    PositionsAscend(devices, removed, false);
    SpanAscends(total, freed);
    SurvivorListed(devices, removed);
    VanishedFirstIff(devices, removed);
    forall p: nat
      ensures p in middle <==> total <= p < total + freed
    {
      SpanHas(total, freed, p);
    }
    hide Positions, Overtakes, AnyQueued, Queues, Ascending, Span;
    if freed > 0 && kept != [] {
      assert total in middle && kept[0] in kept;
    }
  }

  lemma VanishedFirstIff(devices: seq<DeviceState>, removed: set<nat>)
    ensures AllBefore(Positions(devices, removed, true), Positions(devices, removed, false))
        <==> !Overtakes(devices, removed)
  {
    if Overtakes(devices, removed) {
      var i, j :| 0 <= i < j < |devices| && i !in removed && j in removed && devices[i].queue != []
          && devices[j].queue != [];
      StartListed(devices, removed, i);
      StartListed(devices, removed, j);
      StartMonotone(devices, i, j);
    } else {
      forall p, q | p in Positions(devices, removed, true) && q in Positions(devices, removed, false)
        ensures p < q
      {
        VanishedFirst(devices, removed, p, q);
      }
    }
  }

  // ---- one pass ------------------------------------------------------------------------------

  lemma {:induction false} EachOnce(devices: seq<DeviceState>, removed: set<nat>)
    ensures multiset(Positions(devices, removed, true)) + multiset(Positions(devices, removed, false))
         == multiset(Span(0, |Queues(devices)|))
  {
    hide Queues, Positions, Span;
    if devices == [] {
      NonePlaced(removed);
    } else {
      var n := |devices| - 1;
      EachOnce(devices[..n], removed);
      OneMorePlaced(devices[..n], devices[n], removed);
      assert devices == devices[..n] + [devices[n]];
    }
  }

  lemma NonePlaced(removed: set<nat>)
    ensures Positions([], removed, true) == [] && Positions([], removed, false) == [] && Span(0, |Queues([])|) == []
  {
  }

  lemma OneMorePlaced(init: seq<DeviceState>, d: DeviceState, removed: set<nat>)
    requires multiset(Positions(init, removed, true)) + multiset(Positions(init, removed, false))
          == multiset(Span(0, |Queues(init)|))
    ensures multiset(Positions(init + [d], removed, true)) + multiset(Positions(init + [d], removed, false))
         == multiset(Span(0, |Queues(init + [d])|))
  {
    hide Queues, Positions, Span;
    QueuesSnoc(init, d);
    PositionsSnoc(init, d, removed, true);
    PositionsSnoc(init, d, removed, false);
    SpanJoin(|Queues(init)|, |d.queue|);
    Regroup(Positions(init, removed, true), Positions(init, removed, false), Span(0, |Queues(init)|),
            Span(|Queues(init)|, |d.queue|));
  }

  lemma SpanJoin(a: nat, b: nat)
    ensures Span(0, a + b) == Span(0, a) + Span(a, b)
  {
    forall k | 0 <= k < a + b
      ensures Span(0, a + b)[k] == (Span(0, a) + Span(a, b))[k]
    {
      SpanAt(0, a + b, k);
      if k < a {
        SpanAt(0, a, k);
      } else {
        SpanAt(a, b, k - a);
      }
    }
  }

  lemma Regroup<T>(gone: seq<T>, kept: seq<T>, all: seq<T>, q: seq<T>)
    requires multiset(gone) + multiset(kept) == multiset(all)
    ensures multiset(gone + q) + multiset(kept) == multiset(all + q)
    ensures multiset(gone) + multiset(kept + q) == multiset(all + q)
  {
  }

  lemma AllOnce(devices: seq<DeviceState>, removed: set<nat>, freed: nat)
    ensures multiset(HandedOn(devices, removed, freed)) == multiset(Span(0, |Queues(devices)| + freed))
  {
    hide Queues, Positions, Span;
    var gone, kept, total := Positions(devices, removed, true), Positions(devices, removed, false), |Queues(devices)|;
    assert HandedOn(devices, removed, freed) == gone + Span(total, freed) + kept;
    hide HandedOn;
    EachOnce(devices, removed);
    SpanJoin(total, freed);
    MiddleOut(gone, Span(total, freed), kept, Span(0, total));
  }

  lemma MiddleOut<T>(a: seq<T>, b: seq<T>, c: seq<T>, ac: seq<T>)
    requires multiset(a) + multiset(c) == multiset(ac)
    ensures multiset(a + b + c) == multiset(ac + b)
  {
  }

  lemma PickedThree<T>(a: seq<T>, b: seq<T>, c: seq<T>, from: seq<T>, pa: seq<nat>, pc: seq<nat>)
    requires PickedAt(a, from, pa) && PickedAt(c, from, pc)
    ensures PickedAt(a + b + c, from + b, pa + Span(|from|, |b|) + pc)
  {
    PickMore(a, from, pa, b);
    PickMore(c, from, pc, b);
    PickedJoin(a + b, c, from + b, pa + Span(|from|, |b|), pc);
  }

  lemma PickedJoin<T>(a: seq<T>, c: seq<T>, from: seq<T>, pa: seq<nat>, pc: seq<nat>)
    requires PickedAt(a, from, pa) && PickedAt(c, from, pc)
    ensures PickedAt(a + c, from, pa + pc)
  {
    var ps := pa + pc;
    forall k | 0 <= k < |ps|
      ensures ps[k] < |from| && (a + c)[k] == from[ps[k]]
    {
      if k >= |pa| {
        assert c[k - |pa|] == from[pc[k - |pa|]];
      } else {
        assert a[k] == from[pa[k]];
      }
    }
  }

  /** How many controls a disconnect frees. */
  function Freed(s: CaptureState, removed: set<nat>): nat {
    |Releases(Orphaned(s, removed))|
  }

  /**
   * What one pass and its disconnects hand on: every event accepted in the pass and every release of
   * the disconnects, each exactly once, at the positions of `HandedOn`; and in the order of
   * acceptance exactly when no vanished device with events sits behind a surviving one with events
   * and, if anything is freed, no survivor has events queued.
   */
  lemma PassHandsOn(s: CaptureState, readings: seq<Reading>, removed: set<nat>, hid: map<Code, HidUsage>)
    requires Backlog(s) == [] && Ordered(readings)
    ensures var read := ReadAll(s, readings, hid);
            var t := Unplug(read, removed);
            var ps := HandedOn(read.devices, removed, Freed(read, removed));
            && |t.log| >= |s.log| && t.log[..|s.log|] == s.log
            && PickedAt(Backlog(t), t.log[|s.log|..], ps)
            && multiset(ps) == multiset(Span(0, |t.log| - |s.log|))
            && (Ascending(ps) <==> KeepsOrder(read.devices, removed, Freed(read, removed)))
  {
    hide ReadAll, Ordered, QuietPast, Unplug, Backlog, HandedOn, Freed, PickedAt, Ascending, KeepsOrder;
    PassInOrder(s, readings, hid);
    PassNothingPending(s, readings, hid);
    var read := ReadAll(s, readings, hid);
    UnplugHandsOn(s, read, removed);
    HandedOnInOrderIff(read.devices, removed, Freed(read, removed));
  }

  lemma {:induction false} PassNothingPending(s: CaptureState, readings: seq<Reading>, hid: map<Code, HidUsage>)
    requires Backlog(s) == []
    ensures ReadAll(s, readings, hid).pending == []
  {
    if readings != [] {
      var n := |readings| - 1;
      PassNothingPending(s, readings[..n], hid);
      var t, r := ReadAll(s, readings[..n], hid), readings[n];
      if r.device < |t.devices| {
        ReadGains(t, r.device, r.raw, hid, r.now);
      }
      hide Read;
    }
  }

  lemma UnplugHandsOn(s: CaptureState, read: CaptureState, removed: set<nat>)
    requires InOrderSince(s, read) && read.pending == []
    ensures var t := Unplug(read, removed);
            var ps := HandedOn(read.devices, removed, Freed(read, removed));
            && |t.log| >= |s.log| && t.log[..|s.log|] == s.log
            && PickedAt(Backlog(t), t.log[|s.log|..], ps)
            && multiset(ps) == multiset(Span(0, |t.log| - |s.log|))
  {
    hide *;
    UnplugShape(s, read, removed);
    var devices, freed := read.devices, Releases(Orphaned(read, removed));
    LogGrows(read.log, Queues(devices), freed, |s.log|);
    PickedQueues(devices, removed, true);
    PickedQueues(devices, removed, false);
    AllOnce(devices, removed, |freed|);
    PickedThree(QueuesOf(devices, removed, true), freed, QueuesOf(devices, removed, false), Queues(devices),
                Positions(devices, removed, true), Positions(devices, removed, false));
  }

  lemma UnplugShape(s: CaptureState, read: CaptureState, removed: set<nat>)
    requires InOrderSince(s, read) && read.pending == []
    ensures var t, freed := Unplug(read, removed), Releases(Orphaned(read, removed));
            && |s.log| <= |read.log| && read.log[..|s.log|] == s.log && read.log[|s.log|..] == Queues(read.devices)
            && t.log == read.log + freed && Freed(read, removed) == |freed|
            && Backlog(t) == QueuesOf(read.devices, removed, true) + freed + QueuesOf(read.devices, removed, false)
            && HandedOn(read.devices, removed, |freed|)
               == Positions(read.devices, removed, true) + Span(|Queues(read.devices)|, |freed|)
                  + Positions(read.devices, removed, false)
  {
    hide Queues, Gone, Kept, Releases, Orphaned, Positions, Span;
    assert Backlog(read) == Queues(read.devices);
  }
  const SHARED_KEY: HidUsage := 4
  const KEYBOARD := Kind(true, false, false, false)
  const SHARED_MAP: map<Code, HidUsage> := map[30 := SHARED_KEY]

  const DOWN := Raw(EV_KEY, 30, 1)
  const UP := Raw(EV_KEY, 30, 0)
  const SHARED := KeyControl(SHARED_KEY)

  function Keyboard(queue: seq<InputEvent>, held: set<Control>): DeviceState {
    DeviceState(KEYBOARD, EMPTY_TOUCHPAD, EMPTY_FRAME, queue, held)
  }

  /** Three keyboards, the first holding a key whose press was handed on already. */
  const FIRST_HOLDS := CaptureState(
    [Keyboard([], {SHARED}), Keyboard([], {}), Keyboard([], {})], [], {SHARED}, [SHARED.Press()])

  /** Three keyboards are plugged in, the first presses the key, and the press is handed on. */
  const FIRST_PRESS := [
    PlugStep(KEYBOARD), PlugStep(KEYBOARD), PlugStep(KEYBOARD), ReadStep(0, DOWN, 0), HandOnStep]

  /** In one pass the first lets the key go, and the second and the third press it. */
  const OVERLAP := [Reading(0, UP, 0), Reading(1, DOWN, 0), Reading(2, DOWN, 0)]

  lemma HeldSnoc(log: seq<InputEvent>, event: InputEvent)
    ensures HeldAfter(log + [event]) == HeldNext(HeldAfter(log), event)
  {
    assert (log + [event])[..|log|] == log;
  }

  /** What one keyboard pressing or releasing the shared key does. */
  lemma KeyboardRead(s: CaptureState, i: nat, down: bool)
    requires i < |s.devices| && s.devices[i].kind == KEYBOARD
    ensures var d := s.devices[i];
            var event := if down then SHARED.Press() else SHARED.Release();
            var passed := if Accepts(s, i, event) then [event] else [];
            Read(s, i, if down then DOWN else UP, SHARED_MAP, 0)
            == CaptureState(
                 s.devices[i := d.(held := if down then d.held + {SHARED} else d.held - {SHARED},
                                   queue := d.queue + passed)],
                 s.pending,
                 if passed == [] then s.held else if down then s.held + {SHARED} else s.held - {SHARED},
                 s.log + passed)
  {
    var raw := if down then DOWN else UP;
    var d := s.devices[i];
    var event := if down then SHARED.Press() else SHARED.Release();
    var e := EffectOf(d, raw, SHARED_MAP, 0);
    assert e == if down then Down(SHARED) else Up(SHARED);
    var p := Process(d, raw, SHARED_MAP, 0);
    assert d.queue + QueuedBy(e) == d.queue && s.log + QueuedBy(e) == s.log;
    assert p == (d.(held := HeldWith(d.held, e)), [event]);
    hide Process, EffectOf, HeldElsewhere;
    var s1 := s.(devices := s.devices[i := p.0]);
    assert HeldElsewhere(s1.devices, i, SHARED) == HeldElsewhere(s.devices, i, SHARED) by {
      ElsewhereUnchanged(s.devices, i, p.0, SHARED);
    }
    assert [event][1..] == [];
    var passed := if Accepts(s1, i, event) then [event] else [];
    assert passed + [] == passed;
    assert AcceptAll(s1, i, [event]) == (Accept(s1, i, event), passed);
  }

  const IDLE := Keyboard([], {})
  const FIRST_FREED := CaptureState(
    [Keyboard([SHARED.Release()], {}), IDLE, IDLE], [], {}, [SHARED.Press(), SHARED.Release()])
  const SECOND_HOLDS := CaptureState(
    [Keyboard([SHARED.Release()], {}), Keyboard([SHARED.Press()], {SHARED}), IDLE],
    [], {SHARED}, [SHARED.Press(), SHARED.Release(), SHARED.Press()])

  lemma RunSnoc(steps: seq<Step>, step: Step)
    ensures Run(steps + [step], SHARED_MAP) == Captures.Apply(Run(steps, SHARED_MAP), step, SHARED_MAP)
  {
    hide Captures.Apply;
    assert (steps + [step])[..|steps|] == steps;
  }

  const PLUGGED := CaptureState([IDLE, IDLE, IDLE], [], {}, [])

  lemma PlugsThree(k: Step)
    requires k == PlugStep(KEYBOARD)
    ensures Run([k, k, k], SHARED_MAP) == PLUGGED
  {
    hide Run;
    RunSnoc([], k);
    RunSnoc([k], k);
    RunSnoc([k, k], k);
    assert [] + [k] == [k] && [k] + [k] == [k, k] && [k, k] + [k] == [k, k, k];
    assert Run([], SHARED_MAP) == NOTHING_PLUGGED by {
      RunNothing();
    }
    assert [] + [IDLE] == [IDLE] && [IDLE] + [IDLE] == [IDLE, IDLE] && [IDLE, IDLE] + [IDLE] == [IDLE, IDLE, IDLE];
  }

  lemma RunNothing()
    ensures Run([], SHARED_MAP) == NOTHING_PLUGGED
  {
  }

  lemma FirstPresses()
    ensures Read(PLUGGED, 0, DOWN, SHARED_MAP, 0)
         == CaptureState([Keyboard([SHARED.Press()], {SHARED}), IDLE, IDLE], [], {SHARED}, [SHARED.Press()])
  {
    var p := SHARED.Press();
    KeyboardRead(PLUGGED, 0, true);
    hide Read, HeldElsewhere;
    assert {} + {SHARED} == {SHARED} && [] + [p] == [p];
    assert PLUGGED.devices[0 := Keyboard([p], {SHARED})] == [Keyboard([p], {SHARED}), IDLE, IDLE];
  }

  lemma HandsOnPress(p: InputEvent)
    requires p == SHARED.Press()
    ensures NextEvent(CaptureState([Keyboard([p], {SHARED}), IDLE, IDLE], [], {SHARED}, [p]))
         == Some((FIRST_HOLDS, p))
  {
    assert [p][1..] == [];
    assert [Keyboard([p], {SHARED}), IDLE, IDLE][0 := Keyboard([], {SHARED})] == FIRST_HOLDS.devices;
  }

  lemma FirstHoldsReached()
    ensures Run(FIRST_PRESS, SHARED_MAP) == FIRST_HOLDS
  {
    hide Run, Read, NextEvent;
    var k, r, p := PlugStep(KEYBOARD), ReadStep(0, DOWN, 0), SHARED.Press();
    PlugsThree(k);
    FirstPresses();
    HandsOnPress(p);
    RunSnoc([k, k, k], r);
    RunSnoc([k, k, k, r], HandOnStep);
    assert [k, k, k] + [r] == [k, k, k, r] && [k, k, k, r] + [HandOnStep] == FIRST_PRESS;
  }

  lemma FirstLetsGo()
    ensures Read(FIRST_HOLDS, 0, UP, SHARED_MAP, 0) == FIRST_FREED
  {
    var p, r := SHARED.Press(), SHARED.Release();
    KeyboardRead(FIRST_HOLDS, 0, false);
    hide Read;
    assert !HeldElsewhere(FIRST_HOLDS.devices, 0, SHARED);
    assert {SHARED} - {SHARED} == {} && [] + [r] == [r] && [p] + [r] == [p, r];
    assert FIRST_HOLDS.devices[0 := Keyboard([r], {})] == FIRST_FREED.devices;
  }

  lemma SecondPresses()
    ensures Read(FIRST_FREED, 1, DOWN, SHARED_MAP, 0) == SECOND_HOLDS
  {
    var p, r := SHARED.Press(), SHARED.Release();
    KeyboardRead(FIRST_FREED, 1, true);
    hide Read, HeldElsewhere;
    assert {} + {SHARED} == {SHARED} && [] + [p] == [p] && [p, r] + [p] == [p, r, p];
    assert FIRST_FREED.devices[1 := Keyboard([p], {SHARED})] == SECOND_HOLDS.devices;
  }

  lemma ThirdPresses()
    ensures Read(SECOND_HOLDS, 2, DOWN, SHARED_MAP, 0)
         == SECOND_HOLDS.(devices := [SECOND_HOLDS.devices[0], SECOND_HOLDS.devices[1], Keyboard([], {SHARED})])
  {
    var log := SECOND_HOLDS.log;
    KeyboardRead(SECOND_HOLDS, 2, true);
    hide Read, HeldElsewhere;
    assert {} + {SHARED} == {SHARED} && IDLE.queue + [] == IDLE.queue && log + [] == log;
    assert SECOND_HOLDS.devices[2 := Keyboard([], {SHARED})]
        == [SECOND_HOLDS.devices[0], SECOND_HOLDS.devices[1], Keyboard([], {SHARED})];
  }

  lemma OverlapRead(p: InputEvent, r: InputEvent)
    requires p == SHARED.Press() && r == SHARED.Release()
    ensures ReadAll(FIRST_HOLDS, OVERLAP, SHARED_MAP)
         == CaptureState([Keyboard([r], {}), Keyboard([p], {SHARED}), Keyboard([], {SHARED})], [], {SHARED}, [p, r, p])
  {
    FirstLetsGo();
    SecondPresses();
    ThirdPresses();
    hide Read;
    ReadAllSnoc(FIRST_HOLDS, [], OVERLAP[0], SHARED_MAP);
    ReadAllSnoc(FIRST_HOLDS, [] + [OVERLAP[0]], OVERLAP[1], SHARED_MAP);
    ReadAllSnoc(FIRST_HOLDS, [] + [OVERLAP[0]] + [OVERLAP[1]], OVERLAP[2], SHARED_MAP);
    hide ReadAll;
    assert [] + [OVERLAP[0]] + [OVERLAP[1]] + [OVERLAP[2]] == OVERLAP;
  }

  lemma OverlapPulled(p: InputEvent, r: InputEvent, s: CaptureState)
    requires p == SHARED.Press()
    requires s == CaptureState([Keyboard([r], {}), Keyboard([p], {SHARED}), Keyboard([], {SHARED})], [], {SHARED},
        [p, r, p])
    ensures Unplug(s, {1}) == CaptureState([s.devices[0], s.devices[2]], [p], {SHARED}, s.log)
    ensures Backlog(Unplug(s, {1})) == [p, r]
  {
    PulledSplit(s.devices[0], s.devices[1], s.devices[2]);
    assert s.devices == [s.devices[0], s.devices[1], s.devices[2]];
    hide Kept, Gone, Queues, UnionOf;
    assert [s.devices[0], s.devices[2]][1].held == {SHARED};
    assert Orphaned(s, {1}) == {};
    assert [p] + [] == [p] && [] + [r] == [r] && [] + [p] + [] == [p] && [p] + [r] == [p, r];
    assert s.log + [] == s.log && s.held - {} == s.held;
  }

  lemma PulledSplit(first: DeviceState, second: DeviceState, third: DeviceState)
    ensures Kept([first, second, third], {1}) == [first, third]
    ensures Gone([first, second, third], {1}) == [second]
    ensures Queues([second]) == second.queue && Queues([first, third]) == first.queue + third.queue
  {
    hide Kept, Gone, Queues;
    SplitSnoc([], first, {1});
    SplitSnoc([first], second, {1});
    SplitSnoc([first, second], third, {1});
    NoneSplit({1});
    QueuesSnoc([], first);
    QueuesSnoc([], second);
    QueuesSnoc([first], third);
    assert [] + [first] == [first] && [] + [second] == [second] && [first] + [] == [first];
    assert [first] + [second] == [first, second] && [first, second] + [third] == [first, second, third];
    assert [first] + [third] == [first, third] && [second] + [] == [second];
    assert [] + first.queue == first.queue && [] + second.queue == second.queue;
  }

  /**
   * From nothing plugged in: acceptance order is right, but the pulled keyboard's press is handed on before
   * the first one's release: whoever plays what is handed on lets go of a key the third keyboard still holds.
   */
  lemma HandedOnOutOfOrder()
    ensures Run(FIRST_PRESS, SHARED_MAP) == FIRST_HOLDS && TrueUnion(FIRST_HOLDS)
    ensures Backlog(FIRST_HOLDS) == [] && Ordered(OVERLAP)
    ensures var t := Unplug(ReadAll(FIRST_HOLDS, OVERLAP, SHARED_MAP), {1});
            && t.held == {SHARED} && t.log == [SHARED.Press(), SHARED.Release(), SHARED.Press()]
            && Backlog(t) == [SHARED.Press(), SHARED.Release()]
            && HeldAfter(FIRST_HOLDS.log + Backlog(t)) == {}
  {
    hide ReadAll, Unplug, Backlog, Run, TrueUnion, HeldAfter;
    FirstHoldsReached();
    RunIsUnion(FIRST_PRESS, SHARED_MAP);
    FirstHoldsIdle();
    var p, r := SHARED.Press(), SHARED.Release();
    OverlapRead(p, r);
    OverlapPulled(p, r, ReadAll(FIRST_HOLDS, OVERLAP, SHARED_MAP));
    PlayedLetsGo(p, r);
  }

  lemma FirstHoldsIdle()
    ensures Backlog(FIRST_HOLDS) == []
  {
    NoQueues(FIRST_HOLDS.devices);
  }

  lemma PlayedLetsGo(p: InputEvent, r: InputEvent)
    requires p == SHARED.Press() && r == SHARED.Release()
    ensures HeldAfter([p] + [p, r]) == {}
  {
    hide HeldAfter;
    assert HeldAfter([]) == {} by {
      HeldNothing();
    }
    HeldSnoc([], p);
    assert [] + [p] == [p];
    assert HeldAfter([p]) == {SHARED};
    HeldSnoc([p], p);
    assert [p] + [p] == [p, p];
    assert HeldAfter([p, p]) == {SHARED};
    HeldSnoc([p, p], r);
    assert [p, p] + [r] == [p] + [p, r];
  }

  lemma HeldNothing()
    ensures HeldAfter([]) == {}
  {
  }
}
