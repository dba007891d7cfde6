/** What a touchpad's raw events say is touching it: contacts by slot, and how many fingers its tools report. */
module TouchContacts {
  import opened Basics
  import opened Events
  import opened Holds
  import opened Devices
  import opened Touchpads

  predicate Touch(kind: Kind) {
    kind.touchpad && !kind.ownInjector
  }

  /** An absolute event (type 3) with this code. */
  predicate IsAbs(raw: Raw, code: Code) {
    raw.kind == 3 && raw.code == code
  }

  /** The slot a run has chosen last; only the first ten count. */
  function SlotOf(raws: seq<Timed>): nat {
    if raws == [] then 0
    else
      var last := raws[|raws| - 1].raw;
      if IsAbs(last, 0x2f) && 0 <= last.value < 10 then last.value else SlotOf(raws[..|raws| - 1])
  }

  /** The last event is about the contact in this slot. */
  predicate AboutSlot(raws: seq<Timed>, code: Code, slot: nat)
    requires raws != []
  {
    IsAbs(raws[|raws| - 1].raw, code) && SlotOf(raws[..|raws| - 1]) == slot
  }

  /** A contact is down from its tracking id, or its first position, until its id is withdrawn. */
  predicate DownIn(raws: seq<Timed>, slot: nat) {
    if raws == [] then false
    else if AboutSlot(raws, 0x39, slot) then raws[|raws| - 1].raw.value >= 0
    else AboutSlot(raws, 0x35, slot) || AboutSlot(raws, 0x36, slot) || DownIn(raws[..|raws| - 1], slot)
  }

  function AcrossIn(raws: seq<Timed>, slot: nat): int {
    if raws == [] then 0
    else if AboutSlot(raws, 0x35, slot) then raws[|raws| - 1].raw.value
    else AcrossIn(raws[..|raws| - 1], slot)
  }

  function AlongIn(raws: seq<Timed>, slot: nat): int {
    if raws == [] then 0
    else if AboutSlot(raws, 0x36, slot) then raws[|raws| - 1].raw.value
    else AlongIn(raws[..|raws| - 1], slot)
  }

  /** The last position reported at all, on either set of axes. */
  function LastAcross(raws: seq<Timed>): int {
    if raws == [] then 0
    else
      var last := raws[|raws| - 1].raw;
      if IsAbs(last, 0x00) || IsAbs(last, 0x35) then last.value else LastAcross(raws[..|raws| - 1])
  }

  function LastAlong(raws: seq<Timed>): int {
    if raws == [] then 0
    else
      var last := raws[|raws| - 1].raw;
      if IsAbs(last, 0x01) || IsAbs(last, 0x36) then last.value else LastAlong(raws[..|raws| - 1])
  }

  /** The tracked state is what the run said. */
  predicate Follows(t: Touchpad, raws: seq<Timed>) {
    && t.slot == SlotOf(raws) < 10 && |t.slots| == 10
    && (forall k :: 0 <= k < 10 ==> t.slots[k] == Slot(DownIn(raws, k), AcrossIn(raws, k), AlongIn(raws, k)))
    && t.absX == LastAcross(raws) && t.absY == LastAlong(raws)
  }

  lemma OtherKeepsSlots(d: DeviceState, t: Timed, hid: map<Code, HidUsage>)
    requires Touch(d.kind)
    ensures var n, was := Process(d, t.raw, hid, t.now).0.touch, d.touch;
            if t.raw.kind == 3 then n == TouchAbs(was, t.raw.code, t.raw.value)
            else n.slot == was.slot && n.slots == was.slots && n.absX == was.absX && n.absY == was.absY
  {
    hide TouchAbs, EffectOf, Flush, PointerFrame, PanFrame, Contacts, Fingers, RelFrame;
  }

  /** What one more absolute event says of a slot. */
  lemma SlotSaid(raws: seq<Timed>, k: nat)
    requires raws != []
    ensures var init, last := raws[..|raws| - 1], raws[|raws| - 1].raw;
            var here := last.kind == 3 && SlotOf(init) == k;
            && DownIn(raws, k) == (if here && last.code == 0x39 then last.value >= 0
                                   else (here && (last.code == 0x35 || last.code == 0x36)) || DownIn(init, k))
            && AcrossIn(raws, k) == (if here && last.code == 0x35 then last.value else AcrossIn(init, k))
            && AlongIn(raws, k) == (if here && last.code == 0x36 then last.value else AlongIn(init, k))
  {
  }

  lemma PlaceSaid(raws: seq<Timed>)
    requires raws != [] && raws[|raws| - 1].raw.kind == 3
    ensures var init, last := raws[..|raws| - 1], raws[|raws| - 1].raw;
            && SlotOf(raws) == (if last.code == 0x2f && 0 <= last.value < 10 then last.value else SlotOf(init))
            && LastAcross(raws) == (if last.code == 0x00 || last.code == 0x35 then last.value else LastAcross(init))
            && LastAlong(raws) == (if last.code == 0x01 || last.code == 0x36 then last.value else LastAlong(init))
  {
  }

  /** What one absolute event does to the tracked state, slot by slot. */
  lemma AbsDoes(t: Touchpad, code: Code, value: i32)
    requires t.slot < 10 && |t.slots| == 10
    ensures var n := TouchAbs(t, code, value);
            && n.slot == (if code == 0x2f && 0 <= value < 10 then value else t.slot) < 10 && |n.slots| == 10
            && n.absX == (if code == 0x00 || code == 0x35 then value else t.absX)
            && n.absY == (if code == 0x01 || code == 0x36 then value else t.absY)
            && (forall k :: 0 <= k < 10 && k != t.slot ==> n.slots[k] == t.slots[k])
            && n.slots[t.slot]
               == Slot(if code == 0x39 then value >= 0 else code == 0x35 || code == 0x36 || t.slots[t.slot].down,
                       if code == 0x35 then value else t.slots[t.slot].x,
                       if code == 0x36 then value else t.slots[t.slot].y)
  {
    hide CountDown;
  }

  lemma AbsFollows(t: Touchpad, raws: seq<Timed>)
    requires raws != [] && raws[|raws| - 1].raw.kind == 3 && Follows(t, raws[..|raws| - 1])
    ensures Follows(TouchAbs(t, raws[|raws| - 1].raw.code, raws[|raws| - 1].raw.value), raws)
  {
    hide TouchAbs, SlotOf, DownIn, AcrossIn, AlongIn, LastAcross, LastAlong;
    var last := raws[|raws| - 1].raw;
    PlaceSaid(raws);
    AbsDoes(t, last.code, last.value);
    var n := TouchAbs(t, last.code, last.value);
    forall k | 0 <= k < 10
      ensures n.slots[k] == Slot(DownIn(raws, k), AcrossIn(raws, k), AlongIn(raws, k))
    {
      SlotSaid(raws, k);
    }
  }

  /** Over every run a contact is where its slot was last reported, down exactly while the run says so. */
  lemma {:induction false} ContactsFollow(kind: Kind, raws: seq<Timed>, hid: map<Code, HidUsage>)
    requires Touch(kind)
    ensures Follows(After(Opened(kind), raws, hid).touch, raws)
  {
    if raws != [] {
      var n := |raws| - 1;
      ContactsFollow(kind, raws[..n], hid);
      KindKept(Opened(kind), raws[..n], hid);
      var d := After(Opened(kind), raws[..n], hid);
      OtherKeepsSlots(d, raws[n], hid);
      hide Process, TouchAbs;
      if raws[n].raw.kind == 3 {
        AbsFollows(d.touch, raws);
      }
    }
  }

  // ---- how many fingers ----------------------------------------------------------------------

  /** The contacts down, in slot order. */
  function DownSlots(raws: seq<Timed>, n: nat): seq<(int, int)> {
    if n == 0 then []
    else DownSlots(raws, n - 1) + if DownIn(raws, n - 1) then [(AcrossIn(raws, n - 1), AlongIn(raws, n - 1))] else []
  }

  lemma {:induction false} ContactsAre(slots: seq<Slot>, raws: seq<Timed>)
    requires forall k :: 0 <= k < |slots| ==> slots[k] == Slot(DownIn(raws, k), AcrossIn(raws, k), AlongIn(raws, k))
    ensures Contacts(slots) == DownSlots(raws, |slots|)
  {
    hide DownIn, AcrossIn, AlongIn;
    if slots != [] {
      ContactsAre(slots[..|slots| - 1], raws);
    }
  }

  /** Over every run what a report looks at is exactly the contacts the run left down, in slot order. */
  lemma ContactsSeen(kind: Kind, raws: seq<Timed>, hid: map<Code, HidUsage>)
    requires Touch(kind)
    ensures Contacts(After(Opened(kind), raws, hid).touch.slots) == DownSlots(raws, 10)
  {
    ContactsFollow(kind, raws, hid);
    ContactsAre(After(Opened(kind), raws, hid).touch.slots, raws);
    hide After;
  }

  /** The tool code for one, two or three fingers. */
  function ToolCode(fingers: nat): Code
    requires 1 <= fingers <= 3
  {
    if fingers == 1 then 0x145 else if fingers == 2 then 0x14d else 0x14e
  }

  function Tool(t: Touchpad, fingers: nat, down: bool, now: Instant): Touchpad
    requires 1 <= fingers <= 3
  {
    TouchKey(t, ToolCode(fingers), if down then 1 else 0, now)
  }

  /** One tool hands over to another in one report, codes ascending, as the kernel sends them. */
  function HandOver(t: Touchpad, from: nat, to: nat, now: Instant): Touchpad
    requires from <= 3 && to <= 3 && from != to
  {
    if from == 0 then Tool(t, to, true, now)
    else if to == 0 then Tool(t, from, false, now)
    else if from < to then Tool(Tool(t, from, false, now), to, true, now)
    else Tool(Tool(t, to, true, now), from, false, now)
  }

  /**
   * However fingers join and leave, the tool count is the number of fingers; except that two or three lifted
   * at once leave a count of one.
   */
  lemma ToolsCount(t: Touchpad, from: nat, to: nat, now: Instant)
    requires from <= 3 && to <= 3 && from != to && t.toolFingers == from
    ensures HandOver(t, from, to, now).toolFingers == if to == 0 && from >= 2 then 1 else to
    ensures HandOver(t, from, to, now).tapTwoFinger == (t.tapTwoFinger || to == 2)
  {
  }

  /** A one-finger tool that joins while two or three fingers are counted takes none away. */
  lemma OneMoreTool(t: Touchpad, now: Instant)
    requires t.toolFingers >= 2
    ensures Tool(t, 1, true, now).toolFingers == Tool(t, 1, false, now).toolFingers == t.toolFingers
  {
  }

  /** With contacts tracked, they are the fingers; without, a touch counts by its tool, and at least one. */
  lemma FingersMean(t: Touchpad)
    ensures Fingers(t) == if Contacts(t.slots) != [] then |Contacts(t.slots)|
                          else if !t.touchDown then 0
                          else if t.toolFingers == 0 then 1 else t.toolFingers
  {
    hide Contacts;
  }
}
