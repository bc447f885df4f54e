/** What one reduction step does to the state: the tick step's partitions, tail lifecycle,
    shaving and scoring; the key handler's tail holds, hits and misses; and the facts about
    the reducer, its fold and the end of the game. */
module GameProperties {
  import opened GameTypes
  import opened GameState
  import opened Util
  import opened Streams
  import opened Game

  /** The circles in an `exit` collection, in order. */
  function ExitBodies(exit: seq<Exited>): (bs: seq<Body>)
    ensures |bs| <= |exit|
    ensures forall b :: b in bs <==> ExitedBody(b) in exit
    decreases |exit|
  {
    if exit == [] then []
    else (if exit[0].ExitedBody? then [exit[0].body] else []) + ExitBodies(exit[1..])
  }

  /** The tails in an `exit` collection, in order. */
  function ExitTails(exit: seq<Exited>): (ts: seq<Tail>)
    ensures |ts| <= |exit|
    ensures forall t :: t in ts <==> ExitedTail(t) in exit
    decreases |exit|
  {
    if exit == [] then []
    else (if exit[0].ExitedTail? then [exit[0].tail] else []) + ExitTails(exit[1..])
  }

  lemma {:induction false} ExitBodiesOfBodies(bs: seq<Body>)
    ensures ExitBodies(MapSeq((b: Body) => ExitedBody(b), bs)) == bs
    ensures ExitTails(MapSeq((b: Body) => ExitedBody(b), bs)) == []
    decreases |bs|
  {
    if bs != [] {
      ExitBodiesOfBodies(bs[1..]);
      assert MapSeq((b: Body) => ExitedBody(b), bs)[1..] == MapSeq((b: Body) => ExitedBody(b), bs[1..]);
    }
  }

  lemma {:induction false} ExitTailsOfTails(ts: seq<Tail>)
    ensures ExitBodies(MapSeq((t: Tail) => ExitedTail(t), ts)) == []
    ensures ExitTails(MapSeq((t: Tail) => ExitedTail(t), ts)) == ts
    decreases |ts|
  {
    if ts != [] {
      ExitTailsOfTails(ts[1..]);
      assert MapSeq((t: Tail) => ExitedTail(t), ts)[1..] == MapSeq((t: Tail) => ExitedTail(t), ts[1..]);
    }
  }

  lemma {:induction false} ExitAppend(a: seq<Exited>, b: seq<Exited>)
    ensures ExitBodies(a + b) == ExitBodies(a) + ExitBodies(b)
    ensures ExitTails(a + b) == ExitTails(a) + ExitTails(b)
  {
    ExitBodiesAppend(a, b);
    ExitTailsAppend(a, b);
  }

  lemma {:induction false} ExitBodiesAppend(a: seq<Exited>, b: seq<Exited>)
    ensures ExitBodies(a + b) == ExitBodies(a) + ExitBodies(b)
    decreases |a|
  {
    if a == [] {
      assert a + b == b;
    } else {
      ExitBodiesAppend(a[1..], b);
      assert (a + b)[0] == a[0];
      assert (a + b)[1..] == a[1..] + b;
      var head := if a[0].ExitedBody? then [a[0].body] else [];
      assert ExitBodies(a + b) == head + ExitBodies(a[1..] + b);
      assert ExitBodies(a) == head + ExitBodies(a[1..]);
    }
  }

  lemma {:induction false} ExitTailsAppend(a: seq<Exited>, b: seq<Exited>)
    ensures ExitTails(a + b) == ExitTails(a) + ExitTails(b)
    decreases |a|
  {
    if a == [] {
      assert a + b == b;
    } else {
      ExitTailsAppend(a[1..], b);
      assert (a + b)[0] == a[0];
      assert (a + b)[1..] == a[1..] + b;
      var head := if a[0].ExitedTail? then [a[0].tail] else [];
      assert ExitTails(a + b) == head + ExitTails(a[1..] + b);
      assert ExitTails(a) == head + ExitTails(a[1..]);
    }
  }

  /** The exit collection a tick builds: the expired played circles, then the shaved
      collided tails whose head passed the target. */
  function TickExit(c0: Target, s: State): seq<Exited> {
    MapSeq((b: Body) => ExitedBody(b), Filter(UserPlayedP(), Filter(ExpiredP(c0), s.circleObjs)))
    + MapSeq((t: Tail) => ExitedTail(t),
             Filter(HeadPassedP(c0), MapSeq(ShaveP(c0), Filter(Not(ConsumedP()), s.collidedTails)
                                                        + Filter(Not(NotCollidedP(c0)), s.activeTails))))
  }

  /** The circles of an `exit` collection all come before its tails. */
  predicate CirclesFirst(exit: seq<Exited>) {
    forall i, j :: 0 <= i < j < |exit| && exit[i].ExitedTail? ==> exit[j].ExitedTail?
  }

  /** The bodies of a tick's `exit`, and its tails; the circles come first. */
  lemma TickExitContents(env: Env, elapsed: nat, s: State)
    ensures
      var c0 := env.targets[0];
      var r := AdvanceTick(env, elapsed, s);
      && ExitBodies(r.exit) == Filter(UserPlayedP(), Filter(ExpiredP(c0), s.circleObjs))
      && ExitTails(r.exit) ==
         Filter(HeadPassedP(c0), MapSeq(ShaveP(c0), Filter(Not(ConsumedP()), s.collidedTails)
                                                    + Filter(Not(NotCollidedP(c0)), s.activeTails)))
      && CirclesFirst(r.exit)
  {
    var c0 := env.targets[0];
    assert AdvanceTick(env, elapsed, s).exit == TickExit(c0, s);
    TickExitSplit(c0, s);
  }

  lemma TickExitSplit(c0: Target, s: State)
    ensures ExitBodies(TickExit(c0, s)) == Filter(UserPlayedP(), Filter(ExpiredP(c0), s.circleObjs))
    ensures ExitTails(TickExit(c0, s)) ==
         Filter(HeadPassedP(c0), MapSeq(ShaveP(c0), Filter(Not(ConsumedP()), s.collidedTails)
                                                    + Filter(Not(NotCollidedP(c0)), s.activeTails)))
    ensures CirclesFirst(TickExit(c0, s))
  {
    var bs := Filter(UserPlayedP(), Filter(ExpiredP(c0), s.circleObjs));
    var ts := Filter(HeadPassedP(c0), MapSeq(ShaveP(c0), Filter(Not(ConsumedP()), s.collidedTails)
                                                         + Filter(Not(NotCollidedP(c0)), s.activeTails)));
    ExitAppend(MapSeq((b: Body) => ExitedBody(b), bs), MapSeq((t: Tail) => ExitedTail(t), ts));
    ExitBodiesOfBodies(bs);
    ExitTailsOfTails(ts);
    CirclesThenTails(bs, ts);
  }

  lemma CirclesThenTails(bs: seq<Body>, ts: seq<Tail>)
    ensures CirclesFirst(MapSeq((b: Body) => ExitedBody(b), bs) + MapSeq((t: Tail) => ExitedTail(t), ts))
  {
    var exit := MapSeq((b: Body) => ExitedBody(b), bs) + MapSeq((t: Tail) => ExitedTail(t), ts);
    forall i, j | 0 <= i < j < |exit| && exit[i].ExitedTail?
      ensures exit[j].ExitedTail?
    {
      assert i >= |bs|;
    }
  }

  // ---------------------------------------------------------------------------------------
  // Tick: circles.

  /** Body undoing one step of fall. */
  function Lift(b: Body): Body {
    b.(cy := b.cy - Difficulty as real)
  }

  /** The three filters of a tick split the circles with nothing lost or duplicated. */
  lemma CirclePartition(c0: Target, circles: seq<Body>)
    ensures
      var expired := Filter(ExpiredP(c0), circles);
      var played := Filter(UserPlayedP(), expired);
      var background := Filter(BackgroundP(), expired);
      var active := Filter(Not(ExpiredP(c0)), circles);
      && multiset(played) + multiset(background) + multiset(active) == multiset(circles)
      && |played| + |background| + |active| == |circles|
  {
    FilterPartition(ExpiredP(c0), circles);
    FilterSplit(UserPlayedP(), BackgroundP(), Filter(ExpiredP(c0), circles));
  }

  /** Lifting undoes the fall. */
  lemma LiftMoved(bs: seq<Body>)
    ensures MapSeq(Lift, MapSeq(MoveBody, bs)) == bs
  {
  }

  /** On a tick every circle ends up in exactly one place: exit (expired and played),
      bgexit (expired, not played) or still falling, one step lower (not expired). */
  lemma TickCirclePartition(env: Env, elapsed: nat, s: State)
    ensures
      var r := AdvanceTick(env, elapsed, s);
      && multiset(ExitBodies(r.exit)) + multiset(r.bgexit) + multiset(MapSeq(Lift, r.circleObjs))
         == multiset(s.circleObjs)
      && |ExitBodies(r.exit)| + |r.bgexit| + |r.circleObjs| == |s.circleObjs|
  {
    var c0 := env.targets[0];
    TickExitContents(env, elapsed, s);
    CirclePartition(c0, s.circleObjs);
    LiftMoved(Filter(Not(ExpiredP(c0)), s.circleObjs));
  }

  /** Which circles a tick's filters send away: to `exit` the expired circles the user
      plays, to `bgexit` the expired background circles. */
  lemma ExpiredCircles(c0: Target, circles: seq<Body>)
    ensures forall b :: b in Filter(UserPlayedP(), Filter(ExpiredP(c0), circles)) <==>
      b in circles && Expired(c0, b) && b.note.userPlayed
    ensures forall b :: b in Filter(BackgroundP(), Filter(ExpiredP(c0), circles)) <==>
      b in circles && Expired(c0, b) && !b.note.userPlayed
  {
  }

  /** The circles leaving on a tick: those in `exit` are expired and played by the user,
      those in `bgexit` expired background circles. */
  lemma TickCirclesLeaving(env: Env, elapsed: nat, s: State)
    ensures
      var c0 := env.targets[0];
      var r := AdvanceTick(env, elapsed, s);
      && (forall b :: b in ExitBodies(r.exit) <==> b in s.circleObjs && Expired(c0, b) && b.note.userPlayed)
      && (forall b :: b in r.bgexit <==> b in s.circleObjs && Expired(c0, b) && !b.note.userPlayed)
  {
    var c0 := env.targets[0];
    TickExitContents(env, elapsed, s);
    ExpiredCircles(c0, s.circleObjs);
  }

  /** A tick keeps the order of the board: the circles that stay are the unexpired ones in
      their old order, each one step lower, and `bgexit` holds the expired background
      circles in board order. */
  lemma TickCirclesInOrder(env: Env, elapsed: nat, s: State)
    ensures
      var c0 := env.targets[0];
      var r := AdvanceTick(env, elapsed, s);
      && MapSeq(Lift, r.circleObjs) == Filter(Not(ExpiredP(c0)), s.circleObjs)
      && r.bgexit == Filter(BackgroundP(), Filter(ExpiredP(c0), s.circleObjs))
  {
    LiftMoved(Filter(Not(ExpiredP(env.targets[0])), s.circleObjs));
  }

  /** The circles staying on a tick are exactly the unexpired ones, each one step lower. */
  lemma TickCirclesFalling(env: Env, elapsed: nat, s: State)
    ensures
      var c0 := env.targets[0];
      var r := AdvanceTick(env, elapsed, s);
      && (forall b :: b in s.circleObjs && !Expired(c0, b) ==> MoveBody(b) in r.circleObjs)
      && (forall b :: b in r.circleObjs ==> Lift(b) in s.circleObjs && !Expired(c0, Lift(b)))
  {
    var c0 := env.targets[0];
    var r := AdvanceTick(env, elapsed, s);
    var active := Filter(Not(ExpiredP(c0)), s.circleObjs);
    assert r.circleObjs == MapSeq(MoveBody, active);
    forall b | b in s.circleObjs && !Expired(c0, b)
      ensures MoveBody(b) in r.circleObjs
    {
      var i :| 0 <= i < |active| && active[i] == b;
      assert r.circleObjs[i] == MoveBody(b);
    }
    forall b | b in r.circleObjs
      ensures Lift(b) in s.circleObjs && !Expired(c0, Lift(b))
    {
      var i :| 0 <= i < |r.circleObjs| && r.circleObjs[i] == b;
      assert Lift(b) == active[i];
    }
  }

  // ---------------------------------------------------------------------------------------
  // Tick: tails.

  /** The tails a tick keeps collided: the unconsumed collided ones, then the newly
      collided active ones. */
  function Survivors(s: State): seq<Tail> {
    Filter(Not(ConsumedP()), s.collidedTails)
  }

  function Newly(c0: Target, s: State): seq<Tail> {
    Filter(Not(NotCollidedP(c0)), s.activeTails)
  }

  /** No tail is lost or duplicated on a tick: every tail is still active, collided, or
      consumed. */
  lemma TickTailCounts(env: Env, elapsed: nat, s: State)
    ensures
      var r := AdvanceTick(env, elapsed, s);
      |r.activeTails| + |r.collidedTails| + |r.tailexit| == |s.activeTails| + |s.collidedTails|
  {
    var c0 := env.targets[0];
    FilterPartition(NotCollidedP(c0), s.activeTails);
    FilterPartition(ConsumedP(), s.collidedTails);
  }

  /** Tail undoing one step of fall. */
  function LiftTail(t: Tail): Tail {
    t.(y1 := t.y1 - Difficulty as real, y2 := t.y2 - Difficulty as real,
       head := t.head.(cy := t.head.cy - Difficulty as real))
  }

  /** Lifting undoes the fall of tails. */
  lemma LiftMovedTails(ts: seq<Tail>)
    ensures MapSeq(LiftTail, MapSeq(MoveTail, ts)) == ts
  {
  }

  /** The filters of a tick split the active tails into staying and newly collided ones,
      and the collided tails into consumed ones and survivors, with nothing lost or
      duplicated. */
  lemma TailPartition(c0: Target, active: seq<Tail>, collided: seq<Tail>)
    ensures multiset(Filter(NotCollidedP(c0), active)) + multiset(Filter(Not(NotCollidedP(c0)), active))
      == multiset(active)
    ensures multiset(Filter(ConsumedP(), collided)) + multiset(Filter(Not(ConsumedP()), collided))
      == multiset(collided)
  {
    FilterPartition(NotCollidedP(c0), active);
    FilterPartition(ConsumedP(), collided);
  }

  /** On a tick every active tail either stays active, one step lower, or is newly
      collided; every collided tail either leaves through `tailexit` or survives. */
  lemma TickTailPartition(env: Env, elapsed: nat, s: State)
    ensures
      var c0 := env.targets[0];
      var r := AdvanceTick(env, elapsed, s);
      && multiset(MapSeq(LiftTail, r.activeTails)) + multiset(Newly(c0, s)) == multiset(s.activeTails)
      && multiset(r.tailexit) + multiset(Survivors(s)) == multiset(s.collidedTails)
  {
    var c0 := env.targets[0];
    TailPartition(c0, s.activeTails, s.collidedTails);
    LiftMovedTails(Filter(NotCollidedP(c0), s.activeTails));
  }

  /** The collided tails after a tick are the surviving collided tails followed by the
      newly collided ones, in order, each shaved and then moved one step. */
  lemma TickCollidedOrder(env: Env, elapsed: nat, s: State)
    ensures
      var c0 := env.targets[0];
      var r := AdvanceTick(env, elapsed, s);
      var survivors := Survivors(s);
      var newly := Newly(c0, s);
      && |r.collidedTails| == |survivors| + |newly|
      && (forall i :: 0 <= i < |survivors| ==> r.collidedTails[i] == MoveTail(Shave(c0, survivors[i])))
      && (forall i :: 0 <= i < |newly| ==>
            r.collidedTails[|survivors| + i] == MoveTail(Shave(c0, newly[i])))
  {
    var c0 := env.targets[0];
    var survivors := Survivors(s);
    var newly := Newly(c0, s);
    assert forall i :: 0 <= i < |newly| ==> (survivors + newly)[|survivors| + i] == newly[i];
  }

  /** The tails leaving through `tailexit` are exactly the consumed collided tails: wholly
      on screen and shorter than 10. */
  lemma TickTailexit(env: Env, elapsed: nat, s: State)
    ensures
      var r := AdvanceTick(env, elapsed, s);
      forall t :: t in r.tailexit <==> t in s.collidedTails && t.y1 > 0.0 && t.y2 - t.y1 < 10.0
  {
  }

  /** A tail of the second part of a sequence is, shaved and moved, in the shaved and
      moved sequence. */
  lemma ShavedMovedMember(c0: Target, a: seq<Tail>, b: seq<Tail>, t: Tail)
    requires t in b
    ensures MoveTail(Shave(c0, t)) in MapSeq(MoveTail, MapSeq(ShaveP(c0), a + b))
  {
    var i :| 0 <= i < |b| && b[i] == t;
    assert (a + b)[|a| + i] == t;
    assert MapSeq(MoveTail, MapSeq(ShaveP(c0), a + b))[|a| + i] == MoveTail(Shave(c0, t));
  }

  /** Active tails at least 20 units above the target stay active and fall one step; the
      others become collided, shaved and then moved one step. */
  lemma TickActiveTails(env: Env, elapsed: nat, s: State)
    ensures
      var c0 := env.targets[0];
      var r := AdvanceTick(env, elapsed, s);
      && (forall t :: t in s.activeTails && TailNotCollided(c0, t) ==> MoveTail(t) in r.activeTails)
      && (forall t :: t in s.activeTails && !TailNotCollided(c0, t) ==> MoveTail(Shave(c0, t)) in r.collidedTails)
      && (forall t :: t in r.activeTails ==> t.y2 <= c0.cy - c0.r - 20.0 + Difficulty as real)
  {
    var c0 := env.targets[0];
    var r := AdvanceTick(env, elapsed, s);
    var staying := Filter(NotCollidedP(c0), s.activeTails);
    assert r.activeTails == MapSeq(MoveTail, staying);
    forall t | t in s.activeTails && TailNotCollided(c0, t)
      ensures MoveTail(t) in r.activeTails
    {
      var i :| 0 <= i < |staying| && staying[i] == t;
      assert r.activeTails[i] == MoveTail(t);
    }
    forall t | t in s.activeTails && !TailNotCollided(c0, t)
      ensures MoveTail(Shave(c0, t)) in r.collidedTails
    {
      assert t in Newly(c0, s);
      ShavedMovedMember(c0, Survivors(s), Newly(c0, s), t);
    }
    forall t | t in r.activeTails
      ensures t.y2 <= c0.cy - c0.r - 20.0 + Difficulty as real
    {
      var i :| 0 <= i < |r.activeTails| && r.activeTails[i] == t;
      assert staying[i] in staying;
    }
  }

  /** After a tick, every collided tail's bottom edge is at most one step below the
      target's top edge: shaving cut it back to that edge before it fell. */
  lemma TickShavingBound(env: Env, elapsed: nat, s: State)
    ensures
      var c0 := env.targets[0];
      forall t :: t in AdvanceTick(env, elapsed, s).collidedTails ==>
        t.y2 <= c0.cy - c0.r + Difficulty as real
  {
    var c0 := env.targets[0];
    var r := AdvanceTick(env, elapsed, s);
    var updated := MapSeq(ShaveP(c0), Filter(Not(ConsumedP()), s.collidedTails)
                                      + Filter(Not(NotCollidedP(c0)), s.activeTails));
    forall t | t in r.collidedTails
      ensures t.y2 <= c0.cy - c0.r + Difficulty as real
    {
      var i :| 0 <= i < |r.collidedTails| && r.collidedTails[i] == t;
      assert t == MoveTail(updated[i]);
    }
  }

  /** A tail's head entering `exit` on a tick is a collided tail, shaved but not yet moved,
      whose head is past the target; that tail also stays collided (one step lower). */
  lemma TickHeadExits(env: Env, elapsed: nat, s: State)
    ensures
      var c0 := env.targets[0];
      var r := AdvanceTick(env, elapsed, s);
      forall t :: t in ExitTails(r.exit) ==> HeadPassed(c0, t) && MoveTail(t) in r.collidedTails
  {
    var c0 := env.targets[0];
    var r := AdvanceTick(env, elapsed, s);
    TickExitContents(env, elapsed, s);
    var updated := MapSeq(ShaveP(c0), Filter(Not(ConsumedP()), s.collidedTails)
                                      + Filter(Not(NotCollidedP(c0)), s.activeTails));
    forall t | t in ExitTails(r.exit)
      ensures HeadPassed(c0, t) && MoveTail(t) in r.collidedTails
    {
      var i :| 0 <= i < |updated| && updated[i] == t;
      assert r.collidedTails[i] == MoveTail(t);
    }
  }

  // ---------------------------------------------------------------------------------------
  // Tick: score and the scalar fields.

  /** The held-tail bonus adds 0.05 for each pressed tail. */
  lemma {:induction false} HeldBonusCounts(tails: seq<Tail>, acc: real)
    ensures HeldBonus(tails, acc) == acc + 0.05 * |Filter(IsPressedP(), tails)| as real
    decreases |tails|
  {
    if tails != [] {
      HeldBonusCounts(tails[1..], if tails[0].isPressed then acc + 0.05 else acc);
    }
  }

  /** Mapping a function that keeps `p` keeps the number of elements satisfying `p`. */
  lemma {:induction false} FilterMapCount<A(!new)>(p: A -> bool, f: A -> A, xs: seq<A>)
    requires forall x :: p(f(x)) == p(x)
    ensures |Filter(p, MapSeq(f, xs))| == |Filter(p, xs)|
    decreases |xs|
  {
    if xs != [] {
      FilterMapCount(p, f, xs[1..]);
      assert MapSeq(f, xs)[1..] == MapSeq(f, xs[1..]);
    }
  }

  /** A tick sets the time, empties the feedback notes, adds 0.05 for every collided tail
      held after it (so the score never drops on a tick) and leaves the combo, the
      multiplier, the miss count and the end flag alone. */
  lemma TickScalars(env: Env, elapsed: nat, s: State)
    ensures
      var r := AdvanceTick(env, elapsed, s);
      && r.time == elapsed
      && r.randomNotes == []
      && r.score == s.score + 0.05 * |Filter(IsPressedP(), r.collidedTails)| as real
      && r.score >= s.score
      && r.multiplier == s.multiplier && r.missedClicks == s.missedClicks
      && r.consecutiveNotes == s.consecutiveNotes && r.gameEnd == s.gameEnd
  {
    var c0 := env.targets[0];
    var collided := Filter(Not(ConsumedP()), s.collidedTails) + Filter(Not(NotCollidedP(c0)), s.activeTails);
    var updated := MapSeq(ShaveP(c0), collided);
    HeldBonusCounts(updated, 0.0);
    FilterMapCount(IsPressedP(), MoveTail, updated);
  }

  /** A tick replaces the three exit collections and the feedback notes rather than
      adding to them: their old contents play no part in the result. */
  lemma TickReplacesExits(env: Env, elapsed: nat, s: State,
                          exit: seq<Exited>, tailexit: seq<Tail>, bgexit: seq<Body>, randomNotes: seq<Note>)
    ensures AdvanceTick(env, elapsed, s.(exit := exit, tailexit := tailexit, bgexit := bgexit, randomNotes := randomNotes))
         == AdvanceTick(env, elapsed, s)
  {
  }

  // ---------------------------------------------------------------------------------------
  // Collision geometry.

  /** Comparing squares of a magnitude and a non-negative bound compares the values. */
  lemma SquareBelow(d: real, reach: real)
    requires 0.0 <= reach
    ensures d * d <= reach * reach <==> -reach <= d <= reach
  {
    var e := if d < 0.0 then -d else d;
    assert d * d == e * e;
    if e > reach {
      SquareMonotone(reach, e);
    } else if e < reach {
      SquareMonotone(e, reach);
    }
  }

  lemma SquareMonotone(a: real, b: real)
    requires 0.0 <= a < b
    ensures a * a < b * b
  {
    var p := (b - a) * (b + a);
    MulPositive(b - a, b + a);
    assert p == b * b - a * a;
  }

  lemma MulPositive(x: real, y: real)
    requires x > 0.0 && y > 0.0
    ensures x * y > 0.0
  {
  }

  /** For a circle directly above or below a target, collision means the vertical gap
      between the centres is at most the sum of the radii. */
  lemma SameLaneCollision(b: Body, c: Target)
    requires b.cx == c.cx
    ensures DetectCollision(b, c) <==> 0.0 <= b.r + c.r && -(b.r + c.r) <= b.cy - c.cy <= b.r + c.r
  {
    var dy := b.cy - c.cy;
    assert (b.cx - c.cx) * (b.cx - c.cx) == 0.0;
    if 0.0 <= b.r + c.r {
      SquareBelow(dy, b.r + c.r);
    }
  }

  // ---------------------------------------------------------------------------------------
  // Key presses.

  /** The key of a lane and the lane of a key are inverse maps. */
  lemma KeyColumnRoundTrip(k: Key, c: nat)
    ensures ColumnKey(KeyColumn(k)) == Some(k)
    ensures c < 4 ==> KeyColumn(ColumnKey(c).value) == c
  {
    match k
    case KeyH =>
    case KeyJ =>
    case KeyK =>
    case KeyL =>
  }

  /** The hits of a key event. */
  function Hits(env: Env, key: Key, s: State): seq<Body> {
    Filter(HitP(env, KeyColumn(key)), s.circleObjs)
  }

  /** Whether a key event takes the hit branch. */
  predicate HitBranch(env: Env, key: Key, s: State) {
    |s.collidedTails| > 0 || exists b :: b in s.circleObjs && Hit(env, KeyColumn(key), b)
  }

  /** After any key event each collided tail is held exactly when the event presses the key
      of its lane; the list keeps its length and order. */
  lemma KeyPressTails(env: Env, key: Key, pressed: bool, s: State)
    ensures
      var r := HandleKeyPress(env, key, pressed, s);
      && |r.collidedTails| == |s.collidedTails|
      && forall i :: 0 <= i < |s.collidedTails| ==>
           r.collidedTails[i] ==
             s.collidedTails[i].(isPressed := pressed && ColumnKey(s.collidedTails[i].noteKey) == Some(key))
  {
  }

  /** The hit branch is taken exactly when some tail is collided or some circle is hit. */
  lemma HitBranchCondition(env: Env, key: Key, s: State)
    ensures HitBranch(env, key, s) <==> |s.collidedTails| > 0 || |Hits(env, key, s)| > 0
  {
    if !HitBranch(env, key, s) {
      FilterNone(HitP(env, KeyColumn(key)), s.circleObjs);
    }
  }

  /** The hit branch: the hits score at the old multiplier, the combo grows by one per
      event and the multiplier follows it; the counters of misses, the feedback notes, the
      clock, the end flag and the other collections are untouched. */
  lemma KeyPressHitScore(env: Env, key: Key, pressed: bool, s: State)
    requires HitBranch(env, key, s)
    ensures
      var r := HandleKeyPress(env, key, pressed, s);
      && r.score == s.score + |Hits(env, key, s)| as real * s.multiplier
      && r.consecutiveNotes == s.consecutiveNotes + 1
      && r.multiplier == UpdateMultiplier(s.consecutiveNotes + 1)
      && r.missedClicks == s.missedClicks && r.randomNotes == s.randomNotes
      && r.time == s.time && r.gameEnd == s.gameEnd
      && r.activeTails == s.activeTails && r.tailexit == s.tailexit && r.bgexit == s.bgexit
  {
    HitBranchCondition(env, key, s);
  }

  /** A release acts on the circles exactly as a press does: the two differ only in which
      collided tails are held. */
  lemma ReleaseHitsAsPress(env: Env, key: Key, s: State)
    requires HitBranch(env, key, s)
    ensures
      var press := HandleKeyPress(env, key, true, s);
      var release := HandleKeyPress(env, key, false, s);
      release == press.(collidedTails := release.collidedTails)
  {
    HitBranchCondition(env, key, s);
  }

  /** A press over a hittable circle and then its release hit the circle twice: the mark
      the press leaves is not looked at, so the release finds the circle again and the
      combo grows by two. */
  lemma PressThenReleaseHitsTwice(env: Env, key: Key, s: State, i: nat)
    requires i < |s.circleObjs| && Hit(env, KeyColumn(key), s.circleObjs[i])
    ensures
      var afterPress := HandleKeyPress(env, key, true, s);
      var afterRelease := HandleKeyPress(env, key, false, afterPress);
      && s.circleObjs[i].(clicked := true) in Hits(env, key, afterPress)
      && afterRelease.consecutiveNotes == s.consecutiveNotes + 2
  {
    var afterPress := HandleKeyPress(env, key, true, s);
    assert s.circleObjs[i] in s.circleObjs;
    KeyPressHitCircles(env, key, true, s);
    KeyPressHitScore(env, key, true, s);
    var b := afterPress.circleObjs[i];
    assert b == s.circleObjs[i].(clicked := true);
    assert Hit(env, KeyColumn(key), b);
    assert b in afterPress.circleObjs;
    assert HitBranch(env, key, afterPress);
    KeyPressHitScore(env, key, false, afterPress);
  }

  /** The hit branch appends the hits to `exit`, as they were before this event and in
      board order, after its old contents, and appends nothing else. */
  lemma KeyPressHitExit(env: Env, key: Key, pressed: bool, s: State)
    requires HitBranch(env, key, s)
    ensures
      var r := HandleKeyPress(env, key, pressed, s);
      && r.exit[..|s.exit|] == s.exit
      && |r.exit| == |s.exit| + |Hits(env, key, s)|
      && ExitBodies(r.exit) == ExitBodies(s.exit) + Hits(env, key, s)
      && ExitTails(r.exit) == ExitTails(s.exit)
  {
    var hits := Hits(env, key, s);
    HitBranchCondition(env, key, s);
    var r := HandleKeyPress(env, key, pressed, s);
    assert r.exit == s.exit + MapSeq((b: Body) => ExitedBody(b), hits);
    ExitAppend(s.exit, MapSeq((b: Body) => ExitedBody(b), hits));
    ExitBodiesOfBodies(hits);
  }

  /** The hit branch keeps every circle on the board, marking exactly the hit ones clicked. */
  lemma KeyPressHitCircles(env: Env, key: Key, pressed: bool, s: State)
    requires HitBranch(env, key, s)
    ensures
      var r := HandleKeyPress(env, key, pressed, s);
      && |r.circleObjs| == |s.circleObjs|
      && forall i :: 0 <= i < |s.circleObjs| ==>
           r.circleObjs[i] ==
             if Hit(env, KeyColumn(key), s.circleObjs[i]) then s.circleObjs[i].(clicked := true)
             else s.circleObjs[i]
  {
    HitBranchCondition(env, key, s);
  }

  /** The combo grows on a key event exactly when the hit branch is taken. */
  lemma ComboGrowsIffHit(env: Env, key: Key, pressed: bool, s: State)
    requires s.consecutiveNotes >= 0
    ensures HandleKeyPress(env, key, pressed, s).consecutiveNotes == s.consecutiveNotes + 1
            <==> HitBranch(env, key, s)
  {
    if HitBranch(env, key, s) {
      KeyPressHitScore(env, key, pressed, s);
    } else if pressed {
      KeyPressMiss(env, key, s);
    } else {
      KeyReleaseIdle(env, key, s);
    }
  }

  /** A press with nothing to act on is a miss: one more missed click, the combo and the
      multiplier reset, and exactly one feedback note queued; nothing else changes. */
  lemma KeyPressMiss(env: Env, key: Key, s: State)
    requires !HitBranch(env, key, s)
    ensures HandleKeyPress(env, key, true, s) ==
      s.(randomNotes := s.randomNotes + [GenerateRandomNote(s)],
         missedClicks := s.missedClicks + 1,
         consecutiveNotes := 0,
         multiplier := 1.0)
  {
    FilterNone(HitP(env, KeyColumn(key)), s.circleObjs);
  }

  /** A release with nothing to act on leaves the state as it was. */
  lemma KeyReleaseIdle(env: Env, key: Key, s: State)
    requires !HitBranch(env, key, s)
    ensures HandleKeyPress(env, key, false, s) == s
  {
    FilterNone(HitP(env, KeyColumn(key)), s.circleObjs);
  }

  // ---------------------------------------------------------------------------------------
  // The reducer, its fold and the end of the game.

  /** No event changes the end flag. */
  lemma ReduceKeepsGameEnd(env: Env, s: State, e: Event)
    ensures ReduceState(env, s, e).gameEnd == s.gameEnd
  {
  }

  /** Folding over `es + [e]` is folding over `es` and then reducing `e`. */
  lemma {:induction false} RunSnoc(env: Env, s: State, es: seq<Event>, e: Event)
    ensures Run(env, s, es + [e]) == ReduceState(env, Run(env, s, es), e)
    decreases |es|
  {
    if es != [] {
      RunSnoc(env, ReduceState(env, s, es[0]), es[1..], e);
      assert (es + [e])[1..] == es[1..] + [e];
    }
  }

  /** The session ends only in a state whose collections are all empty. */
  lemma {:induction false} PlayEndsEmpty(env: Env, s: State, es: seq<Event>, pending: nat)
    requires !s.gameEnd
    ensures var r := Play(env, s, es, pending); r.gameEnd ==> ExitEmpty(r)
    decreases |es|
  {
    if !(pending == 0 && ExitEmpty(s)) && es != [] {
      ReduceKeepsGameEnd(env, s, es[0]);
      PlayEndsEmpty(env, ReduceState(env, s, es[0]), es[1..], if pending == 0 then 0 else pending - 1);
    }
  }

  /** The session cannot end before the short-note stream has completed. */
  lemma {:induction false} PlayWaitsForNotes(env: Env, s: State, es: seq<Event>, pending: nat)
    requires !s.gameEnd && |es| < pending
    ensures !Play(env, s, es, pending).gameEnd
    decreases |es|
  {
    if es != [] {
      ReduceKeepsGameEnd(env, s, es[0]);
      PlayWaitsForNotes(env, ReduceState(env, s, es[0]), es[1..], pending - 1);
    }
  }

  /** Reducing the first event and folding over the first `j` of the rest is folding over
      the first `j + 1` events. */
  lemma RunPrefixStep(env: Env, s: State, es: seq<Event>, j: nat)
    requires j < |es|
    ensures Run(env, s, es[..j + 1]) == Run(env, ReduceState(env, s, es[0]), es[1..][..j])
  {
    assert es[..j + 1][0] == es[0];
    assert es[..j + 1][1..] == es[1..][..j];
  }

  /** The session is the fold of a prefix of its events: it ends, with the end flag set, at
      the first fold of at least `pending` events whose collections are all empty, or, when
      there is none, it is the fold of all the events. */
  lemma {:induction false} PlayIsRunPrefix(env: Env, s: State, es: seq<Event>, pending: nat)
    requires !s.gameEnd
    ensures var r := Play(env, s, es, pending);
      r.gameEnd ==> (exists k :: && pending <= k <= |es|
                                 && ExitEmpty(Run(env, s, es[..k]))
                                 && (forall j :: pending <= j < k ==> !ExitEmpty(Run(env, s, es[..j])))
                                 && r == Run(env, s, es[..k]).(gameEnd := true))
    ensures var r := Play(env, s, es, pending);
      !r.gameEnd ==> (&& r == Run(env, s, es)
                      && (forall j :: pending <= j <= |es| ==> !ExitEmpty(Run(env, s, es[..j]))))
    decreases |es|
  {
    var r := Play(env, s, es, pending);
    assert es[..0] == [];
    if pending == 0 && ExitEmpty(s) {
      assert r == Run(env, s, es[..0]).(gameEnd := true);
    } else if es == [] {
      assert es[..|es|] == es;
    } else {
      var s' := ReduceState(env, s, es[0]);
      var p' := if pending == 0 then 0 else pending - 1;
      ReduceKeepsGameEnd(env, s, es[0]);
      PlayIsRunPrefix(env, s', es[1..], p');
      assert r == Play(env, s', es[1..], p');
      forall j | p' <= j <= |es[1..]|
        ensures Run(env, s, es[..j + 1]) == Run(env, s', es[1..][..j])
      {
        RunPrefixStep(env, s, es, j);
      }
      if r.gameEnd {
        var k' :| p' <= k' <= |es[1..]| && ExitEmpty(Run(env, s', es[1..][..k']))
          && (forall j :: p' <= j < k' ==> !ExitEmpty(Run(env, s', es[1..][..j])))
          && r == Run(env, s', es[1..][..k']).(gameEnd := true);
        var k := k' + 1;
        forall j | pending <= j < k
          ensures !ExitEmpty(Run(env, s, es[..j]))
        {
          if j > 0 {
            assert Run(env, s, es[..(j - 1) + 1]) == Run(env, s', es[1..][..j - 1]);
          }
        }
        assert Run(env, s, es[..k' + 1]) == Run(env, s', es[1..][..k']);
      } else {
        assert Run(env, s, es) == Run(env, s', es[1..]);
        assert es[1..][..|es[1..]|] == es[1..];
        assert es[..|es|] == es;
        forall j | pending <= j <= |es|
          ensures !ExitEmpty(Run(env, s, es[..j]))
        {
          if j > 0 {
            assert Run(env, s, es[..(j - 1) + 1]) == Run(env, s', es[1..][..j - 1]);
          }
        }
      }
    }
  }

  /** A chart without notes ends the game at once, from the initial state. */
  lemma EmptyChartEndsAtOnce(env: Env, es: seq<Event>)
    ensures Play(env, InitialState(), es, 0) == InitialState().(gameEnd := true)
  {
  }
}
