/** The state transducer: motion, collision tests, the tick step, key handling, the
    reducer that dispatches on the event kind, the fold of the reducer over an event
    sequence, and the end-of-game rule. */
module Game {
  import opened GameTypes
  import opened GameState
  import opened Util
  import opened Streams

  /** One of the four fixed target circles at the bottom of the board. */
  datatype Target = Target(cx: real, cy: real, r: real)

  type Targets = ts: seq<Target> | |ts| == 4
    witness [Target(0.0, 0.0, 0.0), Target(0.0, 0.0, 0.0), Target(0.0, 0.0, 0.0), Target(0.0, 0.0, 0.0)]

  /** What the reducer reads from the page: the target circles (green, red, blue, yellow)
      and whether a circle created at a given time has a drawn element. */
  datatype Env = Env(targets: Targets, rendered: nat -> bool)

  // ---------------------------------------------------------------------------------------
  // Motion and collision.

  /** A circle falls by one step; nothing else about it changes. */
  function MoveBody(b: Body): (r: Body)
    ensures r.cy == b.cy + Difficulty as real
    ensures r.(cy := b.cy) == b
  {
    b.(cy := b.cy + Difficulty as real)
  }

  /** A tail and its head fall by one step together, so the tail keeps its length. */
  function MoveTail(t: Tail): (r: Tail)
    ensures r.y1 == t.y1 + Difficulty as real && r.y2 == t.y2 + Difficulty as real
    ensures r.head.cy == t.head.cy + Difficulty as real
    ensures r.y2 - r.y1 == t.y2 - t.y1
    ensures r.(y1 := t.y1, y2 := t.y2, head := r.head.(cy := t.head.cy)) == t
  {
    t.(y1 := t.y1 + Difficulty as real, y2 := t.y2 + Difficulty as real,
       head := t.head.(cy := t.head.cy + Difficulty as real))
  }

  /** The circle overlaps the target: the distance between the centres is at most the sum
      of the radii (compared squared, both sides being non-negative). */
  predicate DetectCollision(b: Body, c: Target) {
    var dx := b.cx - c.cx;
    var dy := b.cy - c.cy;
    var reach := b.r + c.r;
    0.0 <= reach && dx * dx + dy * dy <= reach * reach
  }

  /** How far the tail's bottom edge is above the target's top edge. */
  function TailCollisionDistance(t: Tail, c: Target): real {
    (c.cy - c.r) - t.y2
  }

  // ---------------------------------------------------------------------------------------
  // The tick step.

  predicate Expired(c0: Target, b: Body) {
    b.cy > c0.cy
  }

  /** A tail is still active while its bottom edge is 20 units above the target. */
  predicate TailNotCollided(c0: Target, t: Tail) {
    t.y2 <= c0.cy - c0.r - 20.0
  }

  /** A collided tail is consumed once it is wholly on screen and shorter than 10. */
  predicate TailConsumed(t: Tail) {
    t.y1 > 0.0 && t.y2 - t.y1 < 10.0
  }

  predicate HeadPassed(c0: Target, t: Tail) {
    c0.cy + c0.r < t.head.cy
  }

  function ExpiredP(c0: Target): Body -> bool { (b: Body) => Expired(c0, b) }
  function UserPlayedP(): Body -> bool { (b: Body) => b.note.userPlayed }
  function BackgroundP(): Body -> bool { (b: Body) => !b.note.userPlayed }
  function NotCollidedP(c0: Target): Tail -> bool { (t: Tail) => TailNotCollided(c0, t) }
  function ConsumedP(): Tail -> bool { (t: Tail) => TailConsumed(t) }
  function HeadPassedP(c0: Target): Tail -> bool { (t: Tail) => HeadPassed(c0, t) }
  function ShaveP(c0: Target): Tail -> Tail { (t: Tail) => Shave(c0, t) }

  /** A tail whose bottom edge has reached the target's top edge is cut back to exactly
      that edge; any other tail is left alone. */
  function Shave(c0: Target, t: Tail): (r: Tail)
    ensures t.y2 >= c0.cy - c0.r ==> r.y2 == c0.cy - c0.r
    ensures t.y2 < c0.cy - c0.r ==> r == t
    ensures r.(y2 := t.y2) == t
  {
    var distance := TailCollisionDistance(t, c0);
    if distance <= 0.0 then
      t.(y2 := t.y2 - Abs(distance))
    else t
  }

  function Abs(x: real): real {
    if x < 0.0 then -x else x
  }

  /** The score a tick adds for the held tails, accumulated left to right from `acc`. */
  function HeldBonus(tails: seq<Tail>, acc: real): real
    decreases |tails|
  {
    if tails == [] then acc
    else HeldBonus(tails[1..], if tails[0].isPressed then acc + 0.05 else acc)
  }

  function IsPressedP(): Tail -> bool { (t: Tail) => t.isPressed }

  /** One clock tick. Circles past the first target leave the board (to `exit` when the
      user plays them, to `bgexit` otherwise); active tails that reached the target become
      collided; consumed collided tails leave through `tailexit`; the collided tails are
      shaved; held tails score; everything left falls one step. */
  function AdvanceTick(env: Env, elapsed: nat, s: State): State {
    var c0 := env.targets[0];
    var expiredCircles := Filter(ExpiredP(c0), s.circleObjs);
    var activeCircles := Filter(Not(ExpiredP(c0)), s.circleObjs);
    var exitCircles := Filter(UserPlayedP(), expiredCircles);
    var bgexitCircles := Filter(BackgroundP(), expiredCircles);
    var notCollidedTails := Filter(NotCollidedP(c0), s.activeTails);
    var newlyCollidedTails := Filter(Not(NotCollidedP(c0)), s.activeTails);
    var expiredTails := Filter(ConsumedP(), s.collidedTails);
    var collidedTails := Filter(Not(ConsumedP()), s.collidedTails) + newlyCollidedTails;
    var updatedCollidedTails := MapSeq(ShaveP(c0), collidedTails);
    var expiredTailHeads := Filter(HeadPassedP(c0), updatedCollidedTails);
    var scoreIncrement := HeldBonus(updatedCollidedTails, 0.0);
    s.(
      time := elapsed,
      exit := MapSeq((b: Body) => ExitedBody(b), exitCircles)
              + MapSeq((t: Tail) => ExitedTail(t), expiredTailHeads),
      tailexit := expiredTails,
      bgexit := bgexitCircles,
      circleObjs := MapSeq(MoveBody, activeCircles),
      activeTails := MapSeq(MoveTail, notCollidedTails),
      collidedTails := MapSeq(MoveTail, updatedCollidedTails),
      randomNotes := [],
      score := s.score + scoreIncrement)
  }

  // ---------------------------------------------------------------------------------------
  // Key presses.

  /** The lane a key plays. */
  function KeyColumn(k: Key): (c: nat)
    ensures c < 4
  {
    match k
    case KeyH => 0
    case KeyJ => 1
    case KeyK => 2
    case KeyL => 3
  }

  /** The key of a lane, when the lane is one of the four. */
  function ColumnKey(c: nat): (k: Option<Key>)
    ensures k.Some? <==> c < 4
  {
    if c == 0 then Some(KeyH)
    else if c == 1 then Some(KeyJ)
    else if c == 2 then Some(KeyK)
    else if c == 3 then Some(KeyL)
    else None
  }

  /** A collided tail is held exactly when this event presses the key of its lane. */
  function PressTail(key: Key, pressed: bool, t: Tail): (r: Tail)
    ensures r == t.(isPressed := pressed && ColumnKey(t.noteKey) == Some(key))
  {
    if pressed && ColumnKey(t.noteKey) == Some(key) then
      if !t.isPressed then t.(isPressed := true) else t
    else t.(isPressed := false)
  }

  function PressTailP(key: Key, pressed: bool): Tail -> Tail {
    (t: Tail) => PressTail(key, pressed, t)
  }

  /** A circle is hit by a press in `column` when it is in that lane, overlaps one of the
      targets, is drawn, and is played by the user. */
  predicate Hit(env: Env, column: nat, b: Body) {
    && Heuristic(b.note).column == column
    && (exists i :: 0 <= i < |env.targets| && DetectCollision(b, env.targets[i]))
    && env.rendered(b.createTime)
    && b.note.userPlayed
  }

  function HitP(env: Env, column: nat): Body -> bool { (b: Body) => Hit(env, column, b) }

  /** A key press or release. If any tail is collided or any circle is hit, the hits score
      at the current multiplier and are marked clicked on the board, the hits as they were
      before the event go to `exit`, and the combo grows; otherwise a press is a miss that
      resets the combo and queues a feedback note, and a release changes nothing. */
  function HandleKeyPress(env: Env, key: Key, pressed: bool, s: State): State {
    var staticColumn := KeyColumn(key);
    var updatedCollidedTails := MapSeq(PressTailP(key, pressed), s.collidedTails);
    var collidedCircles := Filter(HitP(env, staticColumn), s.circleObjs);
    if |updatedCollidedTails| > 0 || |collidedCircles| > 0 then
      var newScore := s.score + |collidedCircles| as real * s.multiplier;
      var updatedCircleObjs :=
        MapSeq((b: Body) => if b in collidedCircles then b.(clicked := true) else b, s.circleObjs);
      s.(
        score := newScore,
        circleObjs := updatedCircleObjs,
        exit := s.exit + MapSeq((b: Body) => ExitedBody(b), collidedCircles),
        consecutiveNotes := s.consecutiveNotes + 1,
        multiplier := UpdateMultiplier(s.consecutiveNotes + 1),
        collidedTails := updatedCollidedTails)
    else if pressed then
      var randomNote := GenerateRandomNote(s);
      s.(
        randomNotes := s.randomNotes + [randomNote],
        missedClicks := s.missedClicks + 1,
        consecutiveNotes := 0,
        multiplier := 1.0)
    else
      s.(collidedTails := updatedCollidedTails)
  }

  // ---------------------------------------------------------------------------------------
  // The reducer and the game loop.

  function ReduceState(env: Env, s: State, e: Event): State {
    match e
    case CircleCreation(note) => CreateCircle(note, s)
    case TailCreation(note) => CreateTail(note, s)
    case KeyPress(key, pressed) => HandleKeyPress(env, key, pressed, s)
    case Tick(elapsed) => AdvanceTick(env, elapsed, s)
  }

  /** The state after reducing every event of `es`, in order, starting from `s`. */
  function Run(env: Env, s: State, es: seq<Event>): State
    decreases |es|
  {
    if es == [] then s else Run(env, ReduceState(env, s, es[0]), es[1..])
  }

  /** The end-of-game rule: once the short-note stream has completed, the first state with
      every collection empty is re-emitted with the end flag set. */
  function GameComplete(notesComplete: bool, s: State): (r: Option<State>)
    ensures r.Some? <==> notesComplete && ExitEmpty(s)
    ensures r.Some? ==> r.value == s.(gameEnd := true)
  {
    if notesComplete && ExitEmpty(s) then Some(s.(gameEnd := true)) else None
  }

  /** The whole session: events are reduced one by one; `pending` counts the events still
      to arrive before the short-note stream completes. The session stops at the first
      state (the current one included) for which the end-of-game rule fires. */
  function Play(env: Env, s: State, es: seq<Event>, pending: nat): State
    decreases |es|
  {
    match GameComplete(pending == 0, s)
    case Some(final) => final
    case None =>
      if es == [] then s
      else Play(env, ReduceState(env, s, es[0]), es[1..], if pending == 0 then 0 else pending - 1)
  }
}
