/** The events the reducer consumes, the initial state, and the helpers that build new
    game objects: the pitch-to-lane rule, circle and tail creation, the deterministic
    feedback-note generator and the combo multiplier. */
module GameState {
  import opened GameTypes

  /** The four kinds of event; `Tick` carries the clock's tick count. */
  datatype Event =
    | Tick(elapsed: nat)
    | KeyPress(key: Key, pressed: bool)
    | CircleCreation(note: Note)
    | TailCreation(note: Note)

  function InitialState(): State {
    State(
      gameEnd := false,
      multiplier := 1.0,
      score := 0.0,
      missedClicks := 0,
      time := 0,
      circleObjs := [],
      activeTails := [],
      collidedTails := [],
      exit := [],
      tailexit := [],
      bgexit := [],
      randomNotes := [],
      consecutiveNotes := 0)
  }

  // ---------------------------------------------------------------------------------------
  // Lanes.

  const Columns: seq<nat> := [0, 1, 2, 3]
  const Colors: seq<string> := ["green", "red", "blue", "yellow"]

  datatype Lane = Lane(column: nat, color: string)

  /** The lane of a note is its pitch modulo 4; each lane has a fixed colour. */
  function Heuristic(note: Note): (lane: Lane)
    ensures lane.column < 4 && lane.column == note.pitch % 4
    ensures lane.color == Colors[lane.column]
  {
    var column := Columns[note.pitch % |Columns|];
    Lane(column, Colors[column])
  }

  /** Horizontal position of a lane, in percent of the canvas. */
  function LaneX(column: nat): real {
    20.0 + 20.0 * column as real
  }

  // ---------------------------------------------------------------------------------------
  // Object creation.

  /** A note's instrument name is usable when present and non-empty. */
  predicate HasInstrument(note: Note) {
    note.instrumentName.Some? && note.instrumentName.value != ""
  }

  /** Adds a falling circle for `note` at the top of its lane, unless the note has no
      instrument name, in which case nothing changes. */
  function CreateCircle(note: Note, s: State): (r: State)
    ensures !HasInstrument(note) ==> r == s
    ensures HasInstrument(note) ==>
      && |r.circleObjs| == |s.circleObjs| + 1
      && r.circleObjs[..|s.circleObjs|] == s.circleObjs
      && r == s.(circleObjs := r.circleObjs)
    ensures HasInstrument(note) ==>
      var b := r.circleObjs[|s.circleObjs|];
      && b.cy == 0.0 && b.cx == LaneX(note.pitch % 4) && b.r == Radius
      && b.createTime == s.time && b.note == note && !b.clicked
  {
    if !HasInstrument(note) then s
    else
      var lane := Heuristic(note);
      var circle := Body(
        r := Radius,
        cx := LaneX(lane.column),
        cy := 0.0,
        style := "fill: " + lane.color,
        cssClass := "shadow",
        createTime := s.time,
        note := note,
        clicked := false);
      s.(circleObjs := s.circleObjs + [circle])
  }

  /** Length of the tail drawn for a note: its duration in ticks times the fall step. */
  function TailHeight(note: Note): real {
    (note.end - note.start) * (1000.0 / TickRateMs as real) * Difficulty as real
  }

  /** Adds a sustained-note tail for `note`: its bottom edge starts at the top of the lane
      and it reaches up by its duration's worth of fall. There is no instrument check. */
  function CreateTail(note: Note, s: State): (r: State)
    ensures |r.activeTails| == |s.activeTails| + 1
    ensures r.activeTails[..|s.activeTails|] == s.activeTails
    ensures r == s.(activeTails := r.activeTails)
    ensures
      var t := r.activeTails[|s.activeTails|];
      && t.y2 == 0.0 && t.y1 == -(note.end - note.start) * 140.0
      && t.x1 == t.x2 == t.head.cx == LaneX(note.pitch % 4)
      && t.head.cy == -Radius && t.head.r == Radius
      && t.noteKey == note.pitch % 4 && t.createTime == s.time && t.note == note
      && !t.isPressed && !t.hasAttacked
  {
    var lane := Heuristic(note);
    var tailHeight := TailHeight(note);
    var tail := Tail(
      x1 := LaneX(lane.column),
      y1 := -tailHeight,
      x2 := LaneX(lane.column),
      y2 := 0.0,
      // The stroke width is the tail width of the drawing, 10.
      style := "stroke: " + lane.color + "; stroke-width: 10",
      cssClass := "shadow",
      createTime := s.time,
      note := note,
      hasAttacked := false,
      isPressed := false,
      head := Head(
        cx := LaneX(lane.column),
        cy := -Radius,
        r := Radius,
        style := "fill: url(#" + lane.color + "Gradient)",
        cssClass := "shadow"),
      noteKey := lane.column);
    s.(activeTails := s.activeTails + [tail])
  }

  // ---------------------------------------------------------------------------------------
  // Feedback notes for a missed press.

  const Modulus: nat := 0x8000_0000
  const Instruments: seq<string> := ["piano", "violin", "flute", "bass-electric"]

  /** The linear-congruential step. */
  function Hash(seed: nat): (h: nat)
    ensures h < Modulus
  {
    (1103515245 * seed + 12345) % Modulus
  }

  /** A hash value scaled to an index below `range`. */
  function ScaledHash(h: nat, range: nat): (k: int)
    requires h < Modulus
    ensures range > 0 ==> 0 <= k < range
  {
    var x := h as real / Modulus as real;
    assert 0.0 <= x < 1.0;
    ScaleBelow(x, range);
    (x * range as real).Floor
  }

  lemma ScaleBelow(x: real, range: nat)
    requires 0.0 <= x < 1.0
    ensures 0.0 <= x * range as real
    ensures range > 0 ==> x * range as real < range as real
  {
    if range > 0 {
      assert (1.0 - x) * range as real > 0.0;
    }
  }

  /** A hash value scaled into the interval [min, max). */
  function ScaledHashFloat(h: nat, min: real, max: real): (v: real)
    requires h < Modulus
    ensures min < max ==> min <= v < max
  {
    var x := h as real / Modulus as real;
    var span := max - min;
    assert 0.0 <= x < 1.0;
    if min < max then
      ScaleSpan(x, span);
      assert min + x * span < min + span == max;
      min + x * span
    else min + x * span
  }

  lemma ScaleSpan(x: real, span: real)
    requires 0.0 <= x < 1.0 && span > 0.0
    ensures 0.0 <= x * span < span
  {
    assert (1.0 - x) * span > 0.0;
  }

  /** The background note played after a missed press. Everything about it is derived
      from the current time by the hash, so the same time always gives the same note. */
  function GenerateRandomNote(s: State): (n: Note)
    ensures !n.userPlayed && n.velocity == 1.0 && n.start == -1.0
    ensures n.instrumentName.Some? && n.instrumentName.value in Instruments
    ensures 75 <= n.pitch < 100
    ensures 0.1 <= n.end < 0.5
  {
    var instrumentIndex := ScaledHash(Hash(s.time), |Instruments|);
    var pitch := ScaledHash(Hash(s.time + 1), 25) + 75;
    var duration := ScaledHashFloat(Hash(s.time + 2), 0.1, 0.5);
    Note(
      userPlayed := false,
      instrumentName := Some(Instruments[instrumentIndex]),
      velocity := 1.0,
      pitch := pitch,
      start := -1.0,
      end := duration)
  }

  /** The feedback note depends on the state's time and on nothing else. */
  lemma RandomNoteDependsOnTimeOnly(s1: State, s2: State)
    requires s1.time == s2.time
    ensures GenerateRandomNote(s1) == GenerateRandomNote(s2)
  {
  }

  // ---------------------------------------------------------------------------------------
  // Combo multiplier.

  /** 1.0 plus 0.2 for every full ten consecutive hits. */
  function UpdateMultiplier(consecutiveNotes: int): (m: real)
    ensures 0 <= consecutiveNotes < 10 ==> m == 1.0
    ensures consecutiveNotes >= 0 ==> m >= 1.0
  {
    1.0 + (consecutiveNotes / 10) as real * 0.2
  }

  /** More consecutive hits never give a smaller multiplier. */
  lemma UpdateMultiplierMonotone(m: int, n: int)
    requires m <= n
    ensures UpdateMultiplier(m) <= UpdateMultiplier(n)
  {
    assert m / 10 <= n / 10;
  }

  /** The multiplier steps: 1.2 at ten hits, 1.4 at twenty. */
  lemma UpdateMultiplierSteps()
    ensures UpdateMultiplier(0) == 1.0
    ensures UpdateMultiplier(9) == 1.0
    ensures UpdateMultiplier(10) == 1.2
    ensures UpdateMultiplier(19) == 1.2
    ensures UpdateMultiplier(20) == 1.4
  {
  }
}
