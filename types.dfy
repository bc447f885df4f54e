/** Records and constants shared by every part of the game: the notes read from the chart,
    the falling circles ("bodies"), the sustained-note tails and the single state record
    that every reduction step rebuilds. */
module GameTypes {

  datatype Option<T> = None | Some(value: T)

  // Size of the drawing area.
  const CanvasWidth: nat := 200

  // Period of the game clock, in milliseconds.
  const TickRateMs: nat := 50
  // How far every falling object moves on one tick.
  const Difficulty: nat := 7

  // Radius of a falling circle: 7% of the canvas width (exactly 14).
  const Radius: real := 0.07 * CanvasWidth as real

  /** The four lane keys. */
  datatype Key = KeyH | KeyJ | KeyK | KeyL

  /** One row of the chart. A field missing from the row has no instrument name. */
  datatype Note = Note(
    userPlayed: bool,
    instrumentName: Option<string>,
    velocity: real,
    pitch: nat,
    start: real,
    end: real)

  /** A falling short-note circle; `clicked` is false until the circle is hit. */
  datatype Body = Body(
    r: real,
    cx: real,
    cy: real,
    style: string,
    cssClass: string,
    createTime: nat,
    note: Note,
    clicked: bool)

  /** The circle drawn at the leading end of a tail. */
  datatype Head = Head(cx: real, cy: real, r: real, style: string, cssClass: string)

  /** A sustained note: a vertical segment from y1 (its top) to y2 (its bottom edge),
      led by a head circle, in lane `noteKey`. */
  datatype Tail = Tail(
    x1: real,
    y1: real,
    x2: real,
    y2: real,
    style: string,
    cssClass: string,
    createTime: nat,
    note: Note,
    hasAttacked: bool,
    isPressed: bool,
    head: Head,
    noteKey: nat)

  /** An entry of the `exit` collection: a circle that left the board, or a collided tail
      whose head has passed the target (the source stores both kinds in that one list). */
  datatype Exited = ExitedBody(body: Body) | ExitedTail(tail: Tail)

  /** The whole game state. */
  datatype State = State(
    gameEnd: bool,
    multiplier: real,
    score: real,
    missedClicks: int,
    time: nat,
    circleObjs: seq<Body>,
    activeTails: seq<Tail>,
    collidedTails: seq<Tail>,
    exit: seq<Exited>,
    tailexit: seq<Tail>,
    bgexit: seq<Body>,
    randomNotes: seq<Note>,
    consecutiveNotes: int)
}
