/** Facts about every state the game can reach: the counters stay consistent with each
    other and the score never drops; and, for events coming from the chart, tails keep
    their top edge above their bottom edge through creation, falling and shaving. */
module Invariants {
  import opened GameTypes
  import opened GameState
  import opened Util
  import opened Streams
  import opened Game
  import opened GameProperties

  // ---------------------------------------------------------------------------------------
  // Counters.

  /** The combo and miss counters are non-negative, the multiplier is the one the combo
      gives, and the score is non-negative. */
  predicate Counters(s: State) {
    && s.consecutiveNotes >= 0
    && s.missedClicks >= 0
    && s.multiplier == UpdateMultiplier(s.consecutiveNotes)
    && s.score >= 0.0
  }

  /** The game starts with no score, no combo, no misses, multiplier 1, at time 0 and with
      no feedback notes queued; its counters are consistent. */
  lemma InitialCounters()
    ensures var s := InitialState();
      && s.score == 0.0 && s.multiplier == 1.0 && s.consecutiveNotes == 0 && s.missedClicks == 0
      && s.time == 0 && s.randomNotes == [] && !s.gameEnd
    ensures Counters(InitialState())
  {
    UpdateMultiplierSteps();
  }

  lemma ScaledScore(hits: nat, multiplier: real)
    requires multiplier >= 1.0
    ensures hits as real * multiplier >= 0.0
  {
    assert hits as real * multiplier >= hits as real * 1.0;
  }

  /** Every event keeps the counters consistent; the score and the miss count never drop. */
  lemma ReduceKeepsCounters(env: Env, s: State, e: Event)
    requires Counters(s)
    ensures var r := ReduceState(env, s, e);
      && Counters(r)
      && r.score >= s.score
      && r.missedClicks >= s.missedClicks
  {
    match e
    case Tick(elapsed) =>
      TickScalars(env, elapsed, s);
    case KeyPress(key, pressed) =>
      if HitBranch(env, key, s) {
        KeyPressHitScore(env, key, pressed, s);
        ScaledScore(|Hits(env, key, s)|, s.multiplier);
      } else if pressed {
        KeyPressMiss(env, key, s);
        UpdateMultiplierSteps();
      } else {
        KeyReleaseIdle(env, key, s);
      }
    case CircleCreation(note) =>
    case TailCreation(note) =>
  }

  /** Along any sequence of events the counters stay consistent and the score and the miss
      count never drop. */
  lemma {:induction false} RunKeepsCounters(env: Env, s: State, es: seq<Event>)
    requires Counters(s)
    ensures var r := Run(env, s, es);
      && Counters(r)
      && r.score >= s.score
      && r.missedClicks >= s.missedClicks
    decreases |es|
  {
    if es != [] {
      ReduceKeepsCounters(env, s, es[0]);
      RunKeepsCounters(env, ReduceState(env, s, es[0]), es[1..]);
    }
  }

  // ---------------------------------------------------------------------------------------
  // Tail geometry.

  /** The top edge of the first target, the line that decides collision and shaving. */
  function Edge(env: Env): real {
    env.targets[0].cy - env.targets[0].r
  }

  /** The first target sits low enough that a freshly created tail (bottom edge at 0) is
      still clear of it by more than the collision margin minus one step. */
  predicate BoardFits(env: Env) {
    Edge(env) >= 20.0 - Difficulty as real
  }

  /** An active tail is upright and its bottom edge is clear of the target by at least the
      collision margin less one step. */
  predicate ActiveShape(edge: real, t: Tail) {
    t.y1 <= t.y2 <= edge - 20.0 + Difficulty as real
  }

  /** A collided tail is upright and its bottom edge is at most one step past the target. */
  predicate CollidedShape(edge: real, t: Tail) {
    t.y1 <= t.y2 <= edge + Difficulty as real
  }

  predicate TailGeometry(env: Env, s: State) {
    && (forall t :: t in s.activeTails ==> ActiveShape(Edge(env), t))
    && (forall t :: t in s.collidedTails ==> CollidedShape(Edge(env), t))
  }

  /** The creation events of a chart: circles for short notes, tails for played long ones. */
  predicate FromChart(e: Event) {
    match e
    case CircleCreation(n) => IsShort(n)
    case TailCreation(n) => IsPlayedLong(n)
    case _ => true
  }

  /** Tails that stay active fall one step and keep their shape. */
  lemma StayingShape(c0: Target, tails: seq<Tail>)
    requires forall t :: t in tails ==> ActiveShape(c0.cy - c0.r, t)
    ensures forall t :: t in MapSeq(MoveTail, Filter(NotCollidedP(c0), tails)) ==>
      ActiveShape(c0.cy - c0.r, t)
  {
    var staying := Filter(NotCollidedP(c0), tails);
    forall t | t in MapSeq(MoveTail, staying)
      ensures ActiveShape(c0.cy - c0.r, t)
    {
      var i :| 0 <= i < |staying| && MapSeq(MoveTail, staying)[i] == t;
      assert staying[i] in staying;
    }
  }

  /** A collided tail that survives the tick has its top edge above the target: otherwise
      it would be wholly on screen and shorter than one step, hence consumed. */
  lemma SurvivorTop(edge: real, t: Tail)
    requires edge >= 0.0 && CollidedShape(edge, t) && !TailConsumed(t)
    ensures t.y1 <= edge
  {
  }

  /** Shaving an upright tail whose top edge is above the target leaves it upright, with
      its bottom edge no lower than the target. */
  lemma ShaveUpright(c0: Target, t: Tail)
    requires t.y1 <= t.y2 && t.y1 <= c0.cy - c0.r
    ensures var u := Shave(c0, t); u.y1 <= u.y2 <= c0.cy - c0.r
  {
  }

  /** The collided tails after a tick keep their shape. */
  lemma CollidedShapeKept(c0: Target, collided: seq<Tail>, active: seq<Tail>)
    requires c0.cy - c0.r >= 0.0
    requires forall t :: t in collided ==> CollidedShape(c0.cy - c0.r, t)
    requires forall t :: t in active ==> ActiveShape(c0.cy - c0.r, t)
    ensures forall t :: t in MapSeq(MoveTail, MapSeq(ShaveP(c0),
        Filter(Not(ConsumedP()), collided) + Filter(Not(NotCollidedP(c0)), active))) ==>
      CollidedShape(c0.cy - c0.r, t)
  {
    var edge := c0.cy - c0.r;
    var all := Filter(Not(ConsumedP()), collided) + Filter(Not(NotCollidedP(c0)), active);
    var moved := MapSeq(MoveTail, MapSeq(ShaveP(c0), all));
    forall t | t in moved
      ensures CollidedShape(edge, t)
    {
      var i :| 0 <= i < |moved| && moved[i] == t;
      var x := all[i];
      assert x in all;
      if x in Filter(Not(ConsumedP()), collided) {
        SurvivorTop(edge, x);
      }
      ShaveUpright(c0, x);
      assert t == MoveTail(Shave(c0, x));
    }
  }

  /** A tick keeps the tail geometry. */
  lemma TickKeepsGeometry(env: Env, elapsed: nat, s: State)
    requires BoardFits(env) && TailGeometry(env, s)
    ensures TailGeometry(env, AdvanceTick(env, elapsed, s))
  {
    var c0 := env.targets[0];
    StayingShape(c0, s.activeTails);
    CollidedShapeKept(c0, s.collidedTails, s.activeTails);
  }

  /** A tail created for a played long note is upright and starts at the top of the board. */
  lemma CreateTailShape(env: Env, note: Note, s: State)
    requires BoardFits(env) && TailGeometry(env, s) && IsPlayedLong(note)
    ensures TailGeometry(env, CreateTail(note, s))
  {
    var r := CreateTail(note, s);
    forall t | t in r.activeTails
      ensures ActiveShape(Edge(env), t)
    {
      var i :| 0 <= i < |r.activeTails| && r.activeTails[i] == t;
      if i < |s.activeTails| {
        assert t == s.activeTails[i];
      } else {
        assert -(note.end - note.start) * 140.0 < 0.0;
      }
    }
  }

  /** Every chart event keeps the tail geometry. */
  lemma ReduceKeepsGeometry(env: Env, s: State, e: Event)
    requires BoardFits(env) && TailGeometry(env, s) && FromChart(e)
    ensures TailGeometry(env, ReduceState(env, s, e))
  {
    match e
    case Tick(elapsed) =>
      TickKeepsGeometry(env, elapsed, s);
    case KeyPress(key, pressed) =>
      var r := HandleKeyPress(env, key, pressed, s);
      KeyPressTails(env, key, pressed, s);
      forall t | t in r.collidedTails
        ensures CollidedShape(Edge(env), t)
      {
        var i :| 0 <= i < |r.collidedTails| && r.collidedTails[i] == t;
        assert s.collidedTails[i] in s.collidedTails;
      }
    case CircleCreation(note) =>
    case TailCreation(note) =>
      CreateTailShape(env, note, s);
  }

  /** Along any sequence of chart events, starting from a state with the tail geometry,
      no tail is ever turned upside down: every active and every collided tail has its top
      edge at or above its bottom edge, and shaving never pushes a bottom edge above a top. */
  lemma {:induction false} RunKeepsGeometry(env: Env, s: State, es: seq<Event>)
    requires BoardFits(env) && TailGeometry(env, s)
    requires forall i :: 0 <= i < |es| ==> FromChart(es[i])
    ensures TailGeometry(env, Run(env, s, es))
    decreases |es|
  {
    if es != [] {
      ReduceKeepsGeometry(env, s, es[0]);
      RunKeepsGeometry(env, ReduceState(env, s, es[0]), es[1..]);
    }
  }

  /** From the start of a game, every reachable state keeps consistent counters. */
  lemma ReachableCounters(env: Env, es: seq<Event>)
    ensures Counters(Run(env, InitialState(), es))
  {
    InitialCounters();
    RunKeepsCounters(env, InitialState(), es);
  }

  /** From the start of a game, when the events come from the chart, every reachable state
      has only upright tails. */
  lemma ReachableTails(env: Env, es: seq<Event>)
    requires BoardFits(env)
    requires forall i :: 0 <= i < |es| ==> FromChart(es[i])
    ensures forall t :: t in Run(env, InitialState(), es).collidedTails ==> t.y1 <= t.y2
    ensures forall t :: t in Run(env, InitialState(), es).activeTails ==> t.y1 <= t.y2
  {
    RunKeepsGeometry(env, InitialState(), es);
  }
}
