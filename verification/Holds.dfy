/** Controls, the events that press and release them, and what a stream of events leaves held. */
module Holds {
  import opened Basics
  import opened Events

  /** Anything that can be held: a key by HID usage, or a mouse button. */
  datatype Control = KeyControl(usage: HidUsage) | ButtonControl(button: MouseButton) {
    function Press(): InputEvent {
      match this
      case KeyControl(usage) => Key(usage, true, false)
      case ButtonControl(button) => Button(button, true)
    }

    function Release(): InputEvent {
      match this
      case KeyControl(usage) => Key(usage, false, false)
      case ButtonControl(button) => Button(button, false)
    }

    /** Keys before buttons, each in ascending order: the order synthetic releases are sent in. */
    function Rank(): nat {
      match this
      case KeyControl(usage) => usage
      case ButtonControl(button) => 0x1_0000 + ButtonRank(button)
    }
  }

  function ButtonRank(button: MouseButton): nat {
    match button
    case LeftButton => 0
    case RightButton => 1
    case MiddleButton => 2
    case BackButton => 3
    case ForwardButton => 4
  }

  /** Keys come before buttons, keys by usage, and buttons left, right, middle, back, forward. */
  lemma RankMeans(a: Control, b: Control)
    ensures a.KeyControl? && b.KeyControl? ==> (a.Rank() < b.Rank() <==> a.usage < b.usage)
    ensures a.KeyControl? && b.ButtonControl? ==> a.Rank() < b.Rank()
    ensures ButtonControl(LeftButton).Rank() < ButtonControl(RightButton).Rank() < ButtonControl(MiddleButton).Rank()
          < ButtonControl(BackButton).Rank() < ButtonControl(ForwardButton).Rank()
  {
  }

  /** Typematic repeat of a key already held. */
  predicate IsRepeat(event: InputEvent) {
    event.Key? && event.pressed && event.again
  }

  /** The control an event presses or releases; none for repeats, motion, scroll and pinch. */
  function Subject(event: InputEvent): Option<Control> {
    if IsRepeat(event) then None
    else
      match event
      case Key(usage, _, _) => Some(KeyControl(usage))
      case Button(button, _) => Some(ButtonControl(button))
      case _ => None
  }

  predicate Presses(event: InputEvent)
    requires Subject(event).Some?
  {
    event.pressed
  }

  /** What is held after one more event. */
  function HeldNext(held: set<Control>, event: InputEvent): set<Control> {
    var c := Subject(event);
    if c.None? then held else if Presses(event) then held + {c.value} else held - {c.value}
  }

  /** What a stream of events leaves held. */
  function HeldAfter(log: seq<InputEvent>): set<Control> {
    if log == [] then {} else HeldNext(HeldAfter(log[..|log| - 1]), log[|log| - 1])
  }

  /** An event that fits what is held: presses of the unheld, releases and repeats of the held. */
  predicate Fits(held: set<Control>, event: InputEvent) {
    if IsRepeat(event) then KeyControl(event.usage) in held
    else
      var c := Subject(event);
      c.Some? ==> (Presses(event) <==> c.value !in held)
  }

  /** Every event of the stream fits what the ones before it left held. */
  predicate Disciplined(log: seq<InputEvent>) {
    forall n :: 0 <= n < |log| ==> Fits(HeldAfter(log[..n]), log[n])
  }

  /** The presses and releases of one control, in order: true for a press. */
  function Transitions(log: seq<InputEvent>, c: Control): seq<bool> {
    if log == [] then []
    else
      var last := log[|log| - 1];
      Transitions(log[..|log| - 1], c) + if Subject(last) == Some(c) then [Presses(last)] else []
  }

  lemma {:induction false} DisciplinedPrefix(log: seq<InputEvent>, n: nat)
    requires Disciplined(log) && n <= |log|
    ensures Disciplined(log[..n])
  {
    forall k | 0 <= k < n
      ensures Fits(HeldAfter(log[..n][..k]), log[..n][k])
    {
      assert log[..n][..k] == log[..k];
    }
  }

  /**
   * Discipline is strict alternation: each control goes press, release, press, ..., and is held iff the count
   * is odd.
   */
  lemma {:induction false} DisciplinedAlternates(log: seq<InputEvent>, c: Control)
    requires Disciplined(log)
    ensures forall i :: 0 <= i < |Transitions(log, c)| ==> (Transitions(log, c)[i] <==> i % 2 == 0)
    ensures c in HeldAfter(log) <==> |Transitions(log, c)| % 2 == 1
  {
    if log != [] {
      var n := |log| - 1;
      DisciplinedPrefix(log, n);
      DisciplinedAlternates(log[..n], c);
      assert Fits(HeldAfter(log[..n]), log[n]);
    }
  }

  /** And conversely, per-control alternation of a stream without repeats makes it disciplined. */
  lemma {:induction false} AlternatesDisciplined(log: seq<InputEvent>)
    requires forall n :: 0 <= n < |log| ==> !IsRepeat(log[n])
    requires forall c: Control, i :: 0 <= i < |Transitions(log, c)| ==> (Transitions(log, c)[i] <==> i % 2 == 0)
    ensures Disciplined(log)
  {
    if log != [] {
      var n := |log| - 1;
      var init := log[..n];
      forall c: Control, i | 0 <= i < |Transitions(init, c)|
        ensures Transitions(init, c)[i] <==> i % 2 == 0
      {
        assert Transitions(log, c)[i] == Transitions(init, c)[i];
      }
      AlternatesDisciplined(init);
      var s := Subject(log[n]);
      if s.Some? {
        DisciplinedAlternates(init, s.value);
        var t := Transitions(log, s.value);
        assert t[|t| - 1] == Presses(log[n]);
      }
      forall k | 0 <= k < |log|
        ensures Fits(HeldAfter(log[..k]), log[k])
      {
        if k < n {
          assert init[..k] == log[..k];
          assert Fits(HeldAfter(init[..k]), init[k]);
        }
      }
    }
  }

  lemma DisciplinedExtend(log: seq<InputEvent>, event: InputEvent)
    requires Disciplined(log) && Fits(HeldAfter(log), event)
    ensures Disciplined(log + [event])
    ensures HeldAfter(log + [event]) == HeldNext(HeldAfter(log), event)
  {
    var longer := log + [event];
    assert longer[..|log|] == log;
    forall n | 0 <= n < |longer|
      ensures Fits(HeldAfter(longer[..n]), longer[n])
    {
      if n < |log| {
        assert longer[..n] == log[..n];
        assert Fits(HeldAfter(log[..n]), log[n]);
      }
    }
  }

  // ---- ordered release of a set of controls --------------------------------------------------

  lemma RankInjective(a: Control, b: Control)
    requires a.Rank() == b.Rank()
    ensures a == b
  {
  }

  lemma {:induction false} HasLeast(s: set<Control>)
    requires s != {}
    ensures exists c :: c in s && forall d :: d in s ==> c.Rank() <= d.Rank()
    decreases |s|
  {
    hide Control.Rank;
    var c :| c in s;
    var rest := s - {c};
    if rest != {} {
      HasLeast(rest);
      var m :| m in rest && forall d :: d in rest ==> m.Rank() <= d.Rank();
      var least := if c.Rank() < m.Rank() then c else m;
      assert forall d :: d in s ==> d == c || d in rest;
      assert forall d :: d in s ==> least.Rank() <= d.Rank();
    } else {
      assert forall d :: d in s ==> d == c || d in rest;
    }
  }

  function Least(s: set<Control>): (c: Control)
    requires s != {}
    ensures c in s && forall d :: d in s ==> c.Rank() <= d.Rank()
  {
    HasLeast(s);
    var c :| c in s && forall d :: d in s ==> c.Rank() <= d.Rank();
    c
  }

  /** The releases of a set of controls, in ascending order. */
  function Releases(s: set<Control>): seq<InputEvent>
    decreases |s|
  {
    if s == {} then []
    else
      var c := Least(s);
      [c.Release()] + Releases(s - {c})
  }

  /** Each control is released exactly once, keys before buttons and in ascending order. */
  lemma {:induction false} ReleasesAscend(s: set<Control>)
    ensures |Releases(s)| == |s|
    ensures forall i :: 0 <= i < |s| ==> exists c :: c in s && Releases(s)[i] == c.Release()
    ensures forall i, j, c: Control, d: Control ::
              0 <= i < j < |s| && Releases(s)[i] == c.Release() && Releases(s)[j] == d.Release() ==> c.Rank() < d.Rank()
    decreases |s|
  {
    if s != {} {
      var least := Least(s);
      var rest := s - {least};
      ReleasesAscend(rest);
      var r := Releases(s);
      assert r == [least.Release()] + Releases(rest);
      hide Releases, Least, Control.Rank;
      forall i | 0 <= i < |s|
        ensures exists c :: c in s && r[i] == c.Release()
      {
        if i > 0 {
          var c :| c in rest && Releases(rest)[i - 1] == c.Release();
          assert c in s;
        }
      }
      forall i, j, c: Control, d: Control | 0 <= i < j < |s| && r[i] == c.Release() && r[j] == d.Release()
        ensures c.Rank() < d.Rank()
      {
        if i == 0 {
          var e :| e in rest && Releases(rest)[j - 1] == e.Release();
          ReleaseNames(e, d);
          ReleaseNames(least, c);
          RankDiffers(least, e);
        }
      }
    }
  }

  lemma ReleaseNames(a: Control, b: Control)
    requires a.Release() == b.Release()
    ensures a == b
  {
  }

  lemma RankDiffers(a: Control, b: Control)
    requires a != b
    ensures a.Rank() != b.Rank()
  {
  }

  /** Releasing controls that are all held keeps a log disciplined and leaves exactly the others held. */
  lemma {:induction false} ReleasesExtend(log: seq<InputEvent>, s: set<Control>)
    requires Disciplined(log) && s <= HeldAfter(log)
    ensures Disciplined(log + Releases(s)) && HeldAfter(log + Releases(s)) == HeldAfter(log) - s
    decreases |s|
  {
    hide Disciplined, HeldAfter;
    if s == {} {
      assert log + Releases(s) == log;
    } else {
      var c := Least(s);
      DisciplinedExtend(log, c.Release());
      ReleasesExtend(log + [c.Release()], s - {c});
      assert log + [c.Release()] + Releases(s - {c}) == log + Releases(s);
    }
  }
}
