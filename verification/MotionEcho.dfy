/** The motion echo oracle: injected motion that comes back on the untagged raw channel is recognised and dropped. */
module MotionEchoes {
  import opened Basics

  const ECHO_WINDOW_MS := 40
  const NOTES_KEPT := 32

  /** One receipt of our own injected motion. */
  datatype Note = Note(at: Instant, dx: i32, dy: i32)

  /** A noted displacement explains a raw one: same direction, no larger than twice the note and four pixels. */
  predicate Explains(noted: i32, delta: i32) {
    delta != 0 && noted != 0 && Signum(delta) == Signum(noted) && Abs(delta) <= 2 * Abs(noted) + 4
  }

  predicate Recent(note: Note, now: Instant) {
    ElapsedMillis(note.at, now) <= ECHO_WINDOW_MS
  }

  /** The notes the oracle may still use, of everything ever noted. */
  function Remembered(history: seq<Note>): seq<Note> {
    history[Max(0, |history| - NOTES_KEPT)..]
  }

  predicate EchoX(history: seq<Note>, dx: i32, now: Instant) {
    exists note :: note in Remembered(history) && Recent(note, now) && Explains(note.dx, dx)
  }

  predicate EchoY(history: seq<Note>, dy: i32, now: Instant) {
    exists note :: note in Remembered(history) && Recent(note, now) && Explains(note.dy, dy)
  }

  /** The declarative filter: each axis is dropped exactly when a remembered, recent note explains it. */
  function Filtered(history: seq<Note>, dx: i32, dy: i32, now: Instant): (i32, i32) {
    (if EchoX(history, dx, now) then 0 else dx, if EchoY(history, dy, now) then 0 else dy)
  }

  /** The machine's test, in saturating 32-bit arithmetic. */
  predicate Matches(noted: i32, delta: i32) {
    && delta != 0 && noted != 0 && Signum(delta) == Signum(noted)
    && Abs(delta) <= SaturateU32(SaturateU32(Abs(noted) * 2) + 4)
  }

  /** Saturation never decides: no raw displacement reaches the ceiling. */
  lemma MatchesIsExplains(noted: i32, delta: i32)
    ensures Matches(noted, delta) <==> Explains(noted, delta)
  {
  }

  /** Notes come in the order they were taken. */
  predicate InOrder(notes: seq<Note>) {
    forall i, j :: 0 <= i <= j < |notes| ==> notes[i].at <= notes[j].at
  }

  /** The notes kept are the newest of the history; the remembered ones that are gone have expired. */
  ghost predicate KeepsRecent(notes: seq<Note>, history: seq<Note>, clock: Instant) {
    && InOrder(history) && |notes| <= NOTES_KEPT && |notes| <= |history| && notes == history[|history| - |notes|..]
    && forall i :: Max(0, |history| - NOTES_KEPT) <= i < |history| - |notes| ==> !Recent(history[i], clock)
  }

  lemma Later(notes: seq<Note>, history: seq<Note>, clock: Instant, now: Instant)
    requires KeepsRecent(notes, history, clock) && clock <= now
    ensures KeepsRecent(notes, history, now)
  {
  }

  lemma DropFront(notes: seq<Note>, history: seq<Note>, now: Instant)
    requires KeepsRecent(notes, history, now) && notes != [] && !Recent(notes[0], now)
    ensures KeepsRecent(notes[1..], history, now)
  {
    assert history[|history| - |notes|] == notes[0];
  }

  lemma AddNote(notes: seq<Note>, history: seq<Note>, note: Note)
    requires KeepsRecent(notes, history, note.at) && forall n :: n in history ==> n.at <= note.at
    ensures var longer := notes + [note];
            KeepsRecent(if |longer| > NOTES_KEPT then longer[1..] else longer, history + [note], note.at)
  {
    var longer, full := notes + [note], history + [note];
    assert forall i :: 0 <= i < |history| ==> history[i] in history;
    assert longer == full[|full| - |longer|..];
    if |longer| > NOTES_KEPT {
      assert longer[1..] == full[|full| - NOTES_KEPT..];
    }
  }

  /** Once the front is recent everything kept is, and what is kept is what is remembered and recent. */
  lemma FrontRecent(notes: seq<Note>, history: seq<Note>, now: Instant)
    requires KeepsRecent(notes, history, now) && (notes == [] || Recent(notes[0], now))
    ensures forall note :: note in notes <==> note in Remembered(history) && Recent(note, now)
  {
    var from, cut := Max(0, |history| - NOTES_KEPT), |history| - |notes|;
    forall note | note in Remembered(history) && Recent(note, now)
      ensures note in notes
    {
      var k :| 0 <= k < |history| - from && Remembered(history)[k] == note;
      assert history[from + k] == note && from + k >= cut;
      assert notes[from + k - cut] == note;
    }
    forall note | note in notes
      ensures note in Remembered(history) && Recent(note, now)
    {
      var k :| 0 <= k < |notes| && notes[k] == note;
      assert history[cut] == notes[0] && history[cut + k] == note;
      assert Remembered(history)[cut + k - from] == note;
    }
  }

  class MotionEcho {
    var notes: seq<Note>
    /** Every note ever taken, and the latest clock reading. */
    ghost var history: seq<Note>
    ghost var clock: Instant

    ghost predicate Valid()
      reads this
    {
      KeepsRecent(notes, history, clock) && forall note :: note in history ==> note.at <= clock
    }

    constructor ()
      ensures Valid() && history == [] && clock == 0
    {
      notes, history, clock := [], [], 0;
    }

    /** Notes one receipt of our own motion; only the newest 32 are kept. */
    method NoteOwn(dx: i32, dy: i32, now: Instant)
      requires Valid() && clock <= now
      modifies this
      ensures Valid() && history == old(history) + [Note(now, dx, dy)] && clock == now
    {
      var note := Note(now, dx, dy);
      Later(notes, history, clock, now);
      AddNote(notes, history, note);
      hide KeepsRecent;
      notes := notes + [note];
      if |notes| > NOTES_KEPT {
        notes := notes[1..];
      }
      history := history + [note];
      clock := now;
    }

    /** Drops the notes at the front that are too old to explain anything. */
    method Expire(now: Instant)
      requires Valid() && clock <= now
      modifies this
      ensures Valid() && history == old(history) && clock == now
      ensures forall note :: note in notes <==> note in Remembered(history) && Recent(note, now)
    {
      hide KeepsRecent, Recent;
      Later(notes, history, clock, now);
      clock := now;
      while notes != [] && !Recent(notes[0], now)
        invariant Valid() && history == old(history) && clock == now
        decreases |notes|
      {
        DropFront(notes, history, now);
        notes := notes[1..];
      }
      FrontRecent(notes, history, now);
    }

    /** Filters one raw report: exactly the components a remembered, recent note explains are dropped. */
    method FilterRaw(dx: i32, dy: i32, now: Instant) returns (outX: i32, outY: i32)
      requires Valid() && clock <= now
      modifies this
      ensures Valid() && history == old(history) && clock == now
      ensures (outX, outY) == Filtered(history, dx, dy, now)
    {
      Expire(now);
      forall noted: i32, delta: i32
        ensures Matches(noted, delta) <==> Explains(noted, delta)
      {
        MatchesIsExplains(noted, delta);
      }
      hide Matches, Remembered, Recent, Valid;
      outX, outY := dx, dy;
      var i := 0;
      while i < |notes| && (outX != 0 || outY != 0)
        invariant 0 <= i <= |notes|
        invariant outX == if exists k :: 0 <= k < i && Explains(notes[k].dx, dx) then 0 else dx
        invariant outY == if exists k :: 0 <= k < i && Explains(notes[k].dy, dy) then 0 else dy
      {
        if Matches(notes[i].dx, outX) {
          outX := 0;
        }
        if Matches(notes[i].dy, outY) {
          outY := 0;
        }
        i := i + 1;
      }
      ScanX(dx, i, outX, now);
      ScanY(dy, i, outY, now);
    }

    /** Stopping early loses nothing: a dropped component stays dropped and a zero is never explained. */
    lemma ScanX(dx: i32, i: nat, outX: i32, now: Instant)
      requires i <= |notes| && (i == |notes| || outX == 0)
      requires outX == if exists k :: 0 <= k < i && Explains(notes[k].dx, dx) then 0 else dx
      requires forall note :: note in notes <==> note in Remembered(history) && Recent(note, now)
      ensures outX == Filtered(history, dx, 0, now).0
    {
      hide Remembered, Recent;
      if EchoX(history, dx, now) {
        var note :| note in Remembered(history) && Recent(note, now) && Explains(note.dx, dx);
        var k :| 0 <= k < |notes| && notes[k] == note;
      }
    }

    lemma ScanY(dy: i32, i: nat, outY: i32, now: Instant)
      requires i <= |notes| && (i == |notes| || outY == 0)
      requires outY == if exists k :: 0 <= k < i && Explains(notes[k].dy, dy) then 0 else dy
      requires forall note :: note in notes <==> note in Remembered(history) && Recent(note, now)
      ensures outY == Filtered(history, 0, dy, now).1
    {
      hide Remembered, Recent;
      if EchoY(history, dy, now) {
        var note :| note in Remembered(history) && Recent(note, now) && Explains(note.dy, dy);
        var k :| 0 <= k < |notes| && notes[k] == note;
      }
    }
  }

  // ---- what the filter promises --------------------------------------------------------------

  /** Going a noted way, and no further than twice the note and four pixels. */
  predicate Echoes(noted: i32, delta: i32) {
    (noted > 0 && 0 < delta <= 2 * noted + 4) || (noted < 0 && 2 * noted - 4 <= delta < 0)
  }

  /** One of the last 32 injections, at most 40 ms ago in whole milliseconds. */
  predicate Fresh(history: seq<Note>, i: int, now: Instant) {
    0 <= i < |history| && i >= |history| - 32 && now < history[i].at + 41 * MILLISECOND
  }

  lemma RememberedFresh(history: seq<Note>, now: Instant)
    ensures forall i :: Fresh(history, i, now) ==> history[i] in Remembered(history) && Recent(history[i], now)
    ensures forall note :: note in Remembered(history) && Recent(note, now) ==>
              exists i :: Fresh(history, i, now) && history[i] == note
  {
    var from := Max(0, |history| - 32);
    forall i | Fresh(history, i, now)
      ensures history[i] in Remembered(history) && Recent(history[i], now)
    {
      assert Remembered(history)[i - from] == history[i];
    }
    forall note | note in Remembered(history) && Recent(note, now)
      ensures exists i :: Fresh(history, i, now) && history[i] == note
    {
      var k :| 0 <= k < |Remembered(history)| && Remembered(history)[k] == note;
      assert history[from + k] == note && Fresh(history, from + k, now);
    }
  }

  lemma ExplainsEchoes(noted: i32, delta: i32)
    ensures Explains(noted, delta) <==> Echoes(noted, delta)
  {
  }

  /**
   * Exactly what is dropped, axis by axis: motion that goes the way of one of the last 32 injections of the last
   * 40 ms and no further than twice it and four pixels. Everything else passes as it is.
   */
  lemma EchoIff(history: seq<Note>, dx: i32, dy: i32, now: Instant)
    ensures var echoX := exists i :: Fresh(history, i, now) && Echoes(history[i].dx, dx);
            var echoY := exists i :: Fresh(history, i, now) && Echoes(history[i].dy, dy);
            Filtered(history, dx, dy, now) == (if echoX then 0 else dx, if echoY then 0 else dy)
  {
    RememberedFresh(history, now);
    hide Remembered, Recent, Fresh, Explains, Echoes;
    forall noted: i32, delta: i32
      ensures Explains(noted, delta) <==> Echoes(noted, delta)
    {
      ExplainsEchoes(noted, delta);
    }
  }

  /** A take-back larger than every recent dribble passes whole, and so does motion when nothing recent was injected. */
  lemma TakeBackPasses(history: seq<Note>, dx: i32, dy: i32, now: Instant)
    requires forall note :: note in history && Recent(note, now) ==>
               Abs(dx) > 2 * Abs(note.dx) + 4 && Abs(dy) > 2 * Abs(note.dy) + 4
    ensures Filtered(history, dx, dy, now) == (dx, dy)
  {
    assert forall note :: note in Remembered(history) ==> note in history;
  }

  lemma LaterIsNewer(history: seq<Note>, i: nat, j: nat, now: Instant)
    requires InOrder(history) && i <= j < |history|
    ensures Recent(history[i], now) ==> Recent(history[j], now)
  {
    assert history[i].at <= history[j].at;
  }

  /** Forgetting all but the newest 32 notes is invisible while no more than 32 fall in the window. */
  lemma {:induction false} BoundInvisible(history: seq<Note>, dx: i32, dy: i32, now: Instant)
    requires InOrder(history)
    requires |history| > NOTES_KEPT ==> !Recent(history[|history| - NOTES_KEPT - 1], now)
    ensures Filtered(history, dx, dy, now).0 == 0 <==>
            dx == 0 || exists note :: note in history && Recent(note, now) && Explains(note.dx, dx)
    ensures Filtered(history, dx, dy, now).1 == 0 <==>
            dy == 0 || exists note :: note in history && Recent(note, now) && Explains(note.dy, dy)
  {
    var from := Max(0, |history| - NOTES_KEPT);
    forall note | note in history && Recent(note, now)
      ensures note in Remembered(history)
    {
      var k :| 0 <= k < |history| && history[k] == note;
      if from > 0 {
        LaterIsNewer(history, Min(k, from - 1), from - 1, now);
      }
      assert k >= from;
      assert Remembered(history)[k - from] == note;
    }
    assert forall note :: note in Remembered(history) ==> note in history;
  }
}
