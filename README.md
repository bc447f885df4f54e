# Guitar-Hero game core in Dafny

This project models the pure core of a browser rhythm game in the style of Guitar Hero. A
chart, given as CSV text, is parsed into notes. Short notes become circles that fall down
one of four lanes. Long notes the user plays become sustained "tails". The player presses H,
J, K or L when a circle overlaps one of the four target circles at the bottom of the board.

The game is a state transducer. `reduceState` folds four kinds of event into an immutable
state record:

- a clock tick;
- a key press or release;
- the creation of a circle;
- the creation of a tail.

The model follows the source file by file. Every core file is written with `filter`/`map`/
`reduce` over immutable records, so the model uses datatypes, functions and lemmas:

| file | module | what it holds |
|---|---|---|
| `types.dfy` | `GameTypes` | records (`Note`, `Body`, `Tail`, `State`), the `Key` type and the constants |
| `util.dfy` | `Util` | `not`, the list combinators, splitting at a separator, chart parsing |
| `state.dfy` | `GameState` | events, the initial state, the lane rule, circle and tail creation, the feedback-note generator, the combo multiplier |
| `observable.dfy` | `Streams` | which chart notes become which creation events, and when; the all-empty and game-over predicates |
| `main.dfy` | `Game` | motion, collision, `tick`, `handleKeyPress`, `reduceState`, the fold of the reducer and the end-of-game rule |
| `main_properties.dfy` | `GameProperties` | what one tick and one key event do to the state |
| `invariants.dfy` | `Invariants` | facts that hold in every reachable state |

The page is a parameter, `Env`. It gives the four target circles and a predicate saying
whether a circle with a given creation time has been drawn. The rxjs streams are replaced
by an explicit sequence of events folded by `Run` (the `scan`) and `Play` (the `scan` cut
off by the final-state rule).

The model follows the code where it is surprising:

- The hit branch of `handleKeyPress` is taken whenever any tail is collided. This happens
  on any key, pressed or released, and whatever the tail's lane. While any tail is collided,
  every key event grows the combo; it scores only for the circles it hits, which may be none
  (`src/main.ts:265-267`).
- Hit circles are not removed, although the comment at `src/main.ts:264` speaks of
  removing the collided circles. They stay on the board marked `clicked`, and the circles as
  they were before the event are appended to `exit`: unmarked on a first hit. Neither the
  hit test nor the source's filter looks at `clicked`, so a circle already hit that still
  overlaps a target is hit again by the next key event of its lane (press or release),
  scores again, and enters `exit` again, this time marked.
- A key release hits circles exactly as a press does: the filter at `src/main.ts:254-262`
  never reads `pressed`. So the release of the press that hit a circle hits it again while
  it still overlaps a target, and the two events grow the combo by two.
- Key and creation events do not clear `exit`, `tailexit` or `bgexit`. Only a tick replaces
  them.
- `exit` receives both circles and tails (`src/main.ts:207`), although it is declared as
  `exit: ReadonlyArray<Body>` (`src/types.ts:41`). The model uses the sum type `Exited`.
- Only the first target circle sets the tick thresholds.
- Game end waits only for the short-note stream to complete.

## Model

| member | source | states |
|---|---|---|
| `Util.Not` | src/util.ts:17 | the composed predicate is the negation of its argument at every point |
| `Util.FilterPartition` | src/main.ts:165-166 | filtering by `p` and by `not(p)` splits a list: the two multisets add up to it, and so do the lengths |
| `Util.FilterAppend` | src/main.ts:180 | filtering a concatenation is concatenating the filtered parts |
| `Util.Split` | src/util.ts:76 | splitting gives at least one piece, and no piece contains the separator |
| `Util.JoinSplit` | src/util.ts:76 | joining the pieces of a split with the separator gives back the text |
| `Util.SplitJoin` | src/util.ts:79 | splitting separator-free pieces joined by the separator gives back exactly those pieces |
| `Util.ParseLine` | src/util.ts:83 | velocity is field 3 divided by 127, so a field value in 0..127 gives a velocity in [0, 1] |
| `Util.ParseLineFields` | src/util.ts:79-87 | fields are positional: the played flag holds iff field 1 is exactly "True"; the instrument is field 2 verbatim; velocity, pitch, start and end come from fields 3 to 6; fields past the sixth are ignored |
| `Util.SplitPieces` | src/util.ts:79 | text splits into two or more pieces iff it holds the separator; text without it is its own single piece |
| `Util.ParseLineMissingInstrument` | src/util.ts:79-82 | a row has no instrument field iff it holds no comma (the empty row after a final newline among them); such a row is played iff it is exactly "True" |
| `Util.ParseCSV` | src/util.ts:75-78 | the chart yields one note per line after the first |
| `Util.ParseCSVLines` | src/util.ts:76-78 | a header followed by lines yields exactly one note per line, in order, each parsed from its line |
| `GameState.Heuristic` | src/state.ts:140-146 | the lane is the pitch modulo 4, below 4, and its colour is green/red/blue/yellow by lane |
| `GameState.CreateCircle` | src/state.ts:156-178 | without an instrument name the state is unchanged; otherwise exactly one circle is appended, at the top of its lane (cy 0, cx 20 + 20 * lane, radius `RADIUS`), stamped with the state's time, carrying the note, not clicked; nothing else changes |
| `GameState.CreateTail` | src/state.ts:188-218 | with no guard, exactly one tail is appended: bottom edge 0; top edge minus the duration times 140 (1000 / 50 * 7); x1, x2 and the head's cx at its lane; head at minus `RADIUS`; `noteKey` its lane; not pressed; nothing else changes |
| `GameState.Hash` | src/state.ts:276-281 | the linear-congruential hash lies in [0, 2^31) |
| `GameState.ScaledHash` | src/state.ts:283-284 | a hash scaled to a positive range is an index in that range |
| `GameState.ScaledHashFloat` | src/state.ts:285-287 | a hash scaled to a non-empty interval [min, max) lies in it |
| `GameState.GenerateRandomNote` | src/state.ts:273-300 | the feedback note is a background note: instrument from the four-entry palette, pitch in [75, 100), end in [0.1, 0.5), start -1, velocity 1 |
| `GameState.RandomNoteDependsOnTimeOnly` | src/state.ts:288-290 | two states with the same time give the same feedback note |
| `GameState.UpdateMultiplier` | src/state.ts:308-310 | the multiplier is 1.0 below ten consecutive hits and at least 1.0 for any non-negative count |
| `GameState.UpdateMultiplierMonotone` | src/state.ts:308-310 | more consecutive hits never give a smaller multiplier |
| `GameState.UpdateMultiplierSteps` | src/state.ts:309 | the multiplier is 1.0 at 0 and 9 hits, 1.2 at 10 and 19, and 1.4 at 20 |
| `Streams.CircleEventsExact` | src/observable.ts:23-29 | every circle event carries a short chart note unchanged, delayed by start * 1000 ms, and every short note has its event, whether played or not |
| `Streams.TailEventsExact` | src/observable.ts:32-39 | every tail event carries a played long chart note unchanged, delayed by start * 1000 ms, and every such note has its event |
| `Streams.EventsOfNote` | src/observable.ts:25-37 | a note yields at most one event: a circle iff short, a tail iff played and long, nothing iff long background |
| `Streams.StreamSizes` | src/observable.ts:23-39 | over a whole chart, circle events plus tail events plus long background notes number exactly the notes |
| `Streams.RowWithoutFieldsAddsNoCircle` | src/state.ts:162-164 | a chart row without a comma has no instrument, so creating its circle leaves the state unchanged |
| `Streams.CircleEvents` | src/observable.ts:23-29 | no contract of its own; `Streams.CircleEventsExact`, `Streams.EventsOfNote` and `Streams.StreamSizes` state what it yields |
| `Streams.TailEvents` | src/observable.ts:32-39 | no contract of its own; `Streams.TailEventsExact`, `Streams.EventsOfNote` and `Streams.StreamSizes` state what it yields |
| `Streams.NotesObs` | src/observable.ts:23 | no contract of its own; the short-note stream of the parsed chart, so `Util.ParseCSVLines` and `Streams.CircleEventsExact` together describe it |
| `Streams.LongNotesObs` | src/observable.ts:32 | no contract of its own; the long-note stream of the parsed chart, so `Util.ParseCSVLines` and `Streams.TailEventsExact` together describe it |
| `Streams.ExitEmpty` | src/observable.ts:49-58 | no contract of its own; `Streams.InitialStateExitEmpty`, `Game.GameComplete` and `GameProperties.PlayEndsEmpty` use it |
| `Streams.GameEnded` | src/observable.ts:61-63 | no contract of its own; `Streams.InitialStateExitEmpty` states it is false at the start, and `GameProperties.PlayIsRunPrefix` and `PlayEndsEmpty` state when it becomes true |
| `Streams.InitialStateExitEmpty` | src/observable.ts:49-58 | the six collections `exitEmpty$` tests are empty in the initial state, no feedback notes are queued, and the end flag is unset |
| `GameState.InitialState` | src/state.ts:47-62 | no contract of its own; `Invariants.InitialCounters` and `Streams.InitialStateExitEmpty` state its values |
| `Game.MoveBody` | src/main.ts:116-122 | a circle falls by `DIFFICULTY` (7), and nothing else about it changes |
| `Game.MoveTail` | src/main.ts:125-136 | a tail's top, bottom and head fall by 7 together, so its length is kept, and nothing else changes |
| `Game.DetectCollision` | src/main.ts:139-147 | no contract of its own; `GameProperties.SameLaneCollision` states what it means for a circle in a target's lane |
| `Game.TailCollisionDistance` | src/main.ts:150-158 | no contract of its own; `Game.Shave` states the cut it drives |
| `Game.Shave` | src/main.ts:182-191 | a tail whose bottom edge reaches the target's top edge is cut back to exactly that edge; any other tail is untouched; only the bottom edge ever changes |
| `Game.KeyColumn` | src/main.ts:220-226 | a key plays one of the four lanes |
| `Game.ColumnKey` | src/main.ts:228-233 | a lane has a key iff it is one of the four |
| `Game.PressTail` | src/main.ts:236-251 | a collided tail is held exactly when the event is a press of its lane's key |
| `Game.AdvanceTick` | src/main.ts:161-216 | no contract of its own; the `GameProperties.Tick*` lemmas, `GameProperties.HeldBonusCounts`, `Invariants.TickKeepsGeometry` and `Invariants.ReduceKeepsCounters` state what a tick does |
| `Game.HandleKeyPress` | src/main.ts:218-298 | no contract of its own; `GameProperties.KeyPressTails`, `HitBranchCondition`, `KeyPressHitScore`, `KeyPressHitExit`, `KeyPressHitCircles`, `ComboGrowsIffHit`, `KeyPressMiss` and `KeyReleaseIdle` state what a key event does |
| `Game.ReduceState` | src/main.ts:307-313 | no contract of its own; `GameProperties.ReduceKeepsGameEnd`, `Invariants.ReduceKeepsCounters` and `Invariants.ReduceKeepsGeometry` state what every event keeps |
| `Game.Run` | src/main.ts:353-356 | no contract of its own; `GameProperties.RunSnoc`, `Invariants.RunKeepsCounters` and `Invariants.RunKeepsGeometry` state what the fold keeps |
| `Game.Play` | src/main.ts:318-338 | no contract of its own; `GameProperties.PlayIsRunPrefix` ties it to `Run`, and `PlayEndsEmpty`, `PlayWaitsForNotes` and `EmptyChartEndsAtOnce` state when and how the session ends |
| `Game.GameComplete` | src/main.ts:324-330 | the final state exists iff the short-note stream has completed and every collection is empty, and it is the current state with only the end flag set |
| `GameProperties.TickExitContents` | src/main.ts:207 | the circles of a tick's `exit` are the expired played circles and its tails are the shaved collided tails whose head passed the target, each in order; every circle comes before every tail |
| `GameProperties.TickCirclePartition` | src/main.ts:164-169 | a tick splits the circles with nothing lost or duplicated: `exit` circles, `bgexit` and the remaining circles (lifted back one step) add up to the old circles as multisets and as counts; `TickCirclesInOrder` adds that the remaining circles and `bgexit` keep board order |
| `GameProperties.TickCirclesLeaving` | src/main.ts:164-169 | a circle is in the tick's `exit` iff it expired (below the first target's centre) and is played; it is in `bgexit` iff it expired and is a background circle |
| `GameProperties.TickCirclesInOrder` | src/main.ts:166-210 | a tick keeps the board's order: lifted back one step, the remaining circles are the unexpired ones in their old order, and `bgexit` holds the expired background circles in board order |
| `GameProperties.TickCirclesFalling` | src/main.ts:210 | every unexpired circle stays, one step lower, and every remaining circle is such a circle; `TickCirclesInOrder` adds that they stay in their old order |
| `GameProperties.TickTailCounts` | src/main.ts:171-180 | the numbers add up on a tick: active, collided and consumed tails after it number the active and collided tails before it |
| `GameProperties.TickTailPartition` | src/main.ts:171-180 | no tail is lost or duplicated on a tick: the remaining active tails (lifted back one step) and the newly collided ones make up the old active tails as a multiset, and the consumed tails and the surviving collided ones make up the old collided tails |
| `GameProperties.TickCollidedOrder` | src/main.ts:180-212 | the collided tails after a tick are the unconsumed collided tails followed by the newly collided ones, in order, each shaved and then moved |
| `GameProperties.TickTailexit` | src/main.ts:177-178 | `tailexit` holds exactly the collided tails wholly on screen and shorter than 10, unmoved |
| `GameProperties.TickActiveTails` | src/main.ts:171-212 | active tails at least 20 above the target stay active and fall one step; each of the others is, shaved and then moved one step, among the collided tails; every remaining active tail has its bottom edge at least 20 less one step above the target's top edge |
| `GameProperties.TickShavingBound` | src/main.ts:182-212 | after a tick every collided tail's bottom edge is at most one step past the target's top edge |
| `GameProperties.TickHeadExits` | src/main.ts:193-194 | a tail entering `exit` has its head past the target and also stays collided, one step lower |
| `Game.HeldBonus` | src/main.ts:196-201 | no contract of its own; `GameProperties.HeldBonusCounts` states its value |
| `GameProperties.HeldBonusCounts` | src/main.ts:196-201 | the held-tail bonus is 0.05 per pressed tail |
| `GameProperties.TickScalars` | src/main.ts:204-215 | a tick sets the time, empties the feedback notes, adds 0.05 per held collided tail (so the score never drops) and leaves the multiplier, the combo, the misses and the end flag alone |
| `GameProperties.TickReplacesExits` | src/main.ts:207-213 | a tick ignores the old `exit`, `tailexit`, `bgexit` and feedback notes: it replaces them |
| `GameProperties.SameLaneCollision` | src/main.ts:139-147 | for a circle straight above or below a target, collision means the centres are at most the sum of the radii apart vertically |
| `GameProperties.KeyColumnRoundTrip` | src/main.ts:220-233 | the key of a key's lane is that key, and the lane of a lane's key is that lane |
| `GameProperties.KeyPressTails` | src/main.ts:236-251 | after any key event each collided tail is held iff the event presses its lane's key; the list keeps its length and order |
| `Game.Hit` | src/main.ts:254-262 | no contract of its own; `GameProperties.HitBranchCondition`, `KeyPressHitScore`, `ReleaseHitsAsPress` and `PressThenReleaseHitsTwice` state how the hits act |
| `GameProperties.HitBranchCondition` | src/main.ts:265-266 | the hit branch is taken iff some tail is collided or some circle is hit (in the key's lane, overlapping a target, drawn, and played) |
| `GameProperties.KeyPressHitScore` | src/main.ts:267-285 | in the hit branch the score grows by the number of hits times the old multiplier; the combo grows by one and the multiplier follows it; misses, feedback notes, time, end flag, active tails, `tailexit` and `bgexit` are kept |
| `GameProperties.ReleaseHitsAsPress` | src/main.ts:254-297 | in the hit branch a release leaves the same state as a press, except for which collided tails are held: it hits, scores and grows the combo alike |
| `GameProperties.PressThenReleaseHitsTwice` | src/main.ts:254-297 | after a press hits a circle, the circle, marked clicked, is among the hits of the release that follows, and the two events grow the combo by two |
| `GameProperties.KeyPressHitExit` | src/main.ts:281 | in the hit branch the hits, as they were before the event, are appended to `exit` in board order after its old contents, and nothing else is appended |
| `GameProperties.KeyPressHitCircles` | src/main.ts:268-273 | in the hit branch every circle stays on the board, and exactly the hit ones are marked clicked |
| `GameProperties.ComboGrowsIffHit` | src/main.ts:265-297 | a key event grows the combo by one iff it takes the hit branch |
| `GameProperties.KeyPressMiss` | src/main.ts:286-293 | a press with nothing to act on adds one miss, resets the combo and the multiplier, queues exactly one feedback note, and changes nothing else |
| `GameProperties.KeyReleaseIdle` | src/main.ts:295-297 | a release with nothing to act on leaves the state unchanged |
| `GameProperties.ReduceKeepsGameEnd` | src/main.ts:307-313 | no event changes the end flag |
| `GameProperties.RunSnoc` | src/main.ts:353-356 | folding over a sequence and one more event is reducing that event after the fold |
| `GameProperties.PlayEndsEmpty` | src/main.ts:324-330 | a session ends only in a state whose collections are all empty |
| `GameProperties.PlayWaitsForNotes` | src/main.ts:318-325 | a session cannot end before the short-note stream has completed |
| `GameProperties.PlayIsRunPrefix` | src/main.ts:318-338 | the session is a fold of a prefix of its events: when it ends, it is the fold of the first `k >= pending` events with the end flag set, where `k` is the first such count whose fold has every collection empty; when it does not end, it is the fold of all the events and no fold of `pending` or more of them has every collection empty |
| `GameProperties.EmptyChartEndsAtOnce` | src/main.ts:324-330 | with no notes pending, the initial state is at once the final state, with the end flag set |
| `Invariants.InitialCounters` | src/state.ts:47-62 | the initial state has score 0, multiplier 1, no combo and no misses, time 0, no feedback notes and the end flag unset; so its counters are consistent |
| `Invariants.ReduceKeepsCounters` | src/main.ts:307-313 | every event keeps the combo and misses non-negative, the multiplier equal to the combo's, and never lowers the score or the misses |
| `Invariants.RunKeepsCounters` | src/main.ts:353-356 | along any sequence of events the counters stay consistent and the score and misses never drop |
| `Invariants.ShaveUpright` | src/main.ts:182-191 | shaving an upright tail whose top is above the target leaves it upright, with its bottom no lower than the target |
| `Invariants.CollidedShapeKept` | src/main.ts:177-212 | after a tick every collided tail is upright, with its bottom at most one step past the target |
| `Invariants.TickKeepsGeometry` | src/main.ts:161-216 | a tick keeps active tails upright and clear of the target, and collided tails upright |
| `Invariants.CreateTailShape` | src/state.ts:194-202 | a tail created for a played long note is upright, with its bottom edge at the top of the board |
| `Invariants.ReduceKeepsGeometry` | src/main.ts:307-313 | every chart event keeps active tails upright and clear of the target, and collided tails upright and at most one step past it |
| `Invariants.RunKeepsGeometry` | src/main.ts:353-356 | along any sequence of chart events no tail is ever turned upside down |
| `Invariants.ReachableCounters` | src/main.ts:353-356 | every state reached from the initial state has consistent counters |
| `Invariants.ReachableTails` | src/main.ts:353-356 | every state reached from the initial state by chart events has only upright tails |

## Left out

- DOM and SVG work is not modelled. This covers reading the target circles, drawing, and
  the view updates. The targets and the "element exists" check (`src/main.ts:256-260`) are
  parameters, in `Env`.
- Audio is not modelled. This covers playing notes, tail attack and release, and the
  `hasAttacked` flag set by the view. It is all a foreign side effect.
- rxjs scheduling is not modelled: timers, `merge`, `delay`, `interval`, `takeUntil` and
  `auditTime`. A stream is the finite sequence of events it emits, and the order of the
  events is an input. The stream-completion signal is the `pending` count of `Game.Play`.
- Chart fetching and page wiring are not modelled: `fetch`, window setup and the reset
  button. `SONG_NAME` (`src/types.ts:13`) is declared but never read; the chart
  is named by the page's input field (`src/main.ts:447-457`).
- `Number()` is the parameter `NumberParser`, an uninterpreted conversion of a field. A
  missing field is `None`. The conversion always yields a number, so NaN is not modelled. In
  the source a missing or non-numeric start or end field gives NaN, both duration tests
  (`src/observable.ts:25` and `:35`) are then false, and the note creates nothing.
- `Streams.EventsOfNote`, `Streams.StreamSizes`: they hold for notes whose start and end
  are numbers; a note whose start or end is NaN in the source yields no event at all,
  where the model classifies it as short or long.
- `Env.rendered` is fixed for the whole session. In the source a circle's element exists
  only from the first render after its creation (renders happen at most every 16 ms), and
  the elements of circles in `exit` are removed at each render and recreated after the next
  tick. So in the source a key event right after a circle's creation, or the next key event
  (press or release) on a circle just hit, may find no element where the model's predicate says there is one.
- IEEE-754 effects are not modelled:
  - `Math.sqrt` is replaced by comparing squared distances, which agrees for a
    non-negative sum of radii.
  - The rounding of 0.05, 0.2 and 0.07 * 200 is not modelled; all arithmetic is exact.
  - `hash` is exact only while 1103515245 * time stays below 2^53 in JavaScript; the model
    is exact for every time.
- `pitch` is a natural number. A negative or fractional pitch makes `heuristic` return an
  undefined lane in JavaScript, and the model does not represent that.
- The `key` field of `Note` is never set by the parser, and the game never reads it.
- The error branch of `reduceState` is not modelled: the event type is closed.
- `CANVAS_HEIGHT` is declared but never used by the core.
- `Util.ParseLine`: its contract states only the velocity bound; the positional reading of
  the fields is stated by `Util.ParseLineFields` for rows whose fields hold no comma.
- `Streams.NotesObs` and `Streams.LongNotesObs`: the order of events from different
  notes is set by their delays, which the model keeps but does not sort.
- `Invariants.RunKeepsGeometry`: the tail geometry is proved only for events that come from
  the chart, and only when the first target's top edge is at least 13 below the top of the
  board.
