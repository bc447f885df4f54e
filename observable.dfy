/** Which chart notes become which creation events, and when; and the two predicates on
    states that drive the end of the game. The timers and the merging of streams are not
    modelled: a stream is the finite sequence of (delay, event) pairs it would emit. */
module Streams {
  import opened GameTypes
  import opened GameState
  import opened Util

  /** An event together with the delay, in milliseconds, after which it is emitted. */
  datatype Scheduled = Scheduled(delayMs: real, event: Event)

  /** A short note lasts at most one second; it becomes a falling circle. */
  predicate IsShort(n: Note) {
    n.end - n.start <= 1.0
  }

  /** A long note played by the user; it becomes a tail. */
  predicate IsPlayedLong(n: Note) {
    n.userPlayed && n.end - n.start > 1.0
  }

  function ShortP(): Note -> bool { (n: Note) => IsShort(n) }
  function PlayedP(): Note -> bool { (n: Note) => n.userPlayed }
  function LongP(): Note -> bool { (n: Note) => n.end - n.start > 1.0 }
  function BackgroundLongP(): Note -> bool { (n: Note) => !IsShort(n) && !n.userPlayed }

  /** A note's creation event, emitted at its start time. */
  function At(n: Note, e: Event): Scheduled {
    Scheduled(n.start * 1000.0, e)
  }

  /** The circle-creation stream: the short notes, in chart order. */
  function CircleEvents(notes: seq<Note>): seq<Scheduled> {
    MapSeq((n: Note) => At(n, CircleCreation(n)), Filter(ShortP(), notes))
  }

  /** The tail-creation stream: the user-played long notes, in chart order. */
  function TailEvents(notes: seq<Note>): seq<Scheduled> {
    MapSeq((n: Note) => At(n, TailCreation(n)), Filter(LongP(), Filter(PlayedP(), notes)))
  }

  /** `notesObs$` and `longnotesObs$`: both streams read the chart text. */
  function NotesObs(csvContents: string, num: NumberParser): seq<Scheduled> {
    CircleEvents(ParseCSV(csvContents, num))
  }

  function LongNotesObs(csvContents: string, num: NumberParser): seq<Scheduled> {
    TailEvents(ParseCSV(csvContents, num))
  }

  /** Every circle event carries a short chart note, unchanged, delayed by its start time;
      and every short note of the chart has its event. */
  lemma CircleEventsExact(notes: seq<Note>)
    ensures forall se :: se in CircleEvents(notes) ==>
      && se.event.CircleCreation?
      && se.event.note in notes
      && IsShort(se.event.note)
      && se.delayMs == se.event.note.start * 1000.0
    ensures forall n :: n in notes && IsShort(n) ==> At(n, CircleCreation(n)) in CircleEvents(notes)
  {
    var shorts := Filter(ShortP(), notes);
    forall n | n in notes && IsShort(n)
      ensures At(n, CircleCreation(n)) in CircleEvents(notes)
    {
      var i :| 0 <= i < |shorts| && shorts[i] == n;
      assert CircleEvents(notes)[i] == At(n, CircleCreation(n));
    }
  }

  /** Every tail event carries a user-played long chart note, unchanged, delayed by its start
      time; and every such note has its event. Background long notes yield nothing. */
  lemma TailEventsExact(notes: seq<Note>)
    ensures forall se :: se in TailEvents(notes) ==>
      && se.event.TailCreation?
      && se.event.note in notes
      && IsPlayedLong(se.event.note)
      && se.delayMs == se.event.note.start * 1000.0
    ensures forall n :: n in notes && IsPlayedLong(n) ==> At(n, TailCreation(n)) in TailEvents(notes)
  {
    var longs := Filter(LongP(), Filter(PlayedP(), notes));
    forall se | se in TailEvents(notes)
      ensures se.event.TailCreation? && se.event.note in notes && IsPlayedLong(se.event.note)
    {
      var i :| 0 <= i < |longs| && TailEvents(notes)[i] == se;
      assert longs[i] in Filter(PlayedP(), notes);
    }
    forall n | n in notes && IsPlayedLong(n)
      ensures At(n, TailCreation(n)) in TailEvents(notes)
    {
      var i :| 0 <= i < |longs| && longs[i] == n;
      assert TailEvents(notes)[i] == At(n, TailCreation(n));
    }
  }

  /** The events a single note gives rise to, over both streams. */
  function EventsOf(n: Note): seq<Scheduled> {
    CircleEvents([n]) + TailEvents([n])
  }

  /** A note yields at most one event: a circle iff it is short, a tail iff it is a played
      long note, and nothing iff it is a long background note. */
  lemma EventsOfNote(n: Note)
    ensures |EventsOf(n)| <= 1
    ensures IsShort(n) ==> EventsOf(n) == [At(n, CircleCreation(n))]
    ensures IsPlayedLong(n) ==> EventsOf(n) == [At(n, TailCreation(n))]
    ensures !IsShort(n) && !n.userPlayed ==> EventsOf(n) == []
  {
    assert [n][1..] == [];
  }

  /** Counting over the whole chart: each note yields circle, tail or nothing, so the two
      streams together hold exactly as many events as there are notes that are short or
      played-long. */
  lemma {:induction false} StreamSizes(notes: seq<Note>)
    ensures |CircleEvents(notes)| + |TailEvents(notes)| + |Filter(BackgroundLongP(), notes)| == |notes|
    decreases |notes|
  {
    if notes != [] {
      var n, rest := notes[0], notes[1..];
      StreamSizes(rest);
      assert notes == [n] + rest;
      FilterAppend(ShortP(), [n], rest);
      FilterAppend(BackgroundLongP(), [n], rest);
      FilterAppend(PlayedP(), [n], rest);
      FilterAppend(LongP(), Filter(PlayedP(), [n]), Filter(PlayedP(), rest));
      assert [n][1..] == [];
    }
  }

  /** A chart row without a comma, such as the empty row after a final newline, has no
      instrument, so the circle it would create is never added. */
  lemma RowWithoutFieldsAddsNoCircle(line: string, num: NumberParser, s: State)
    requires ',' !in line
    ensures CreateCircle(ParseLine(line, num), s) == s
  {
    ParseLineMissingInstrument(line, num);
  }

  // ---------------------------------------------------------------------------------------
  // End of game.

  /** All the object collections and all three exit collections are empty;
      `randomNotes` and the counters play no part. */
  predicate ExitEmpty(s: State) {
    && |s.circleObjs| == 0
    && |s.activeTails| == 0
    && |s.collidedTails| == 0
    && |s.exit| == 0
    && |s.bgexit| == 0
    && |s.tailexit| == 0
  }

  /** `gameEnd$` fires on states that have the end flag set. */
  predicate GameEnded(s: State) {
    s.gameEnd
  }

  lemma InitialStateExitEmpty()
    ensures ExitEmpty(InitialState()) && !GameEnded(InitialState())
    ensures InitialState().randomNotes == []
  {
  }
}
