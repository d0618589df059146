# happyBirthday: a Dafny model of the greeting card's logic

The card is a single page. Clicking candles puts them out. When the last lit candle goes
out, a celebration starts: a dark page, balloons, fireworks on a canvas, and a synthesized
"Happy Birthday". A reset button stops the celebration and relights every candle. Three
parts of `script.js` are plain sequential logic, and each has its own module here:

- `Candles` (`candles.dfy`) models the candle and celebration state machine.
  - `CandleController` holds each candle's `data-lit` state as a `seq<bool>` and the module-level `celebrationStarted` flag.
  - A ghost log records every call of `startCelebration` and `stopCelebration`.
  - Its methods are proved equal to the value-level functions `Toggled`, `Checked`, `Relit`, `Stopping` and `AfterReset` on a `Cake` value.
  - The lemmas prove the single-shot guard and the reset guarantees for those functions.
  - `Run` replays a visitor's clicks and resets, and `Consistent` is the invariant that every run keeps.
- `Fireworks` (`fireworks.dfy`) models the bookkeeping of the fireworks loop, without the physics.
  - A `Firework` object owns a trail of at most eight past positions, a one-way `exploded` flag and its particles.
  - A particle has only its remaining life and its opacity.
  - `FireworkShow` holds `runFw`, `spawnTimer` and the list of firework objects.
  - `Firework.Update` and `FireworkShow.Tick` are proved against the value-level functions `Updated` and `Advanced`.
  - The lemmas cover the trail bound and its order, the single explosion and its particle count, the pruning of dead particles and of finished fireworks, and the spawn period.
  - For one tick, everything the physics and the random draws would decide is an input, a `Frame`: the position after the move, whether the firework is then within 6 pixels of its target, and the particle lives drawn for an explosion.
- `Notes` (`notes.dfy`) models the note-name parser in `noteToFreq`.
  - `MatchNote` is the anchored pattern `^([A-G](?:#|b)?)(\d)$`.
  - `NoteToFreq` returns the semitone distance from A4, or one of two failures: `Silent` for the `return 0` on a name the pattern rejects, and `Undefined` for the NaN of a name the pattern accepts but the pitch table lacks.

An explosion creates `Math.floor(rand(40, 80))` particles. `rand(40, 80)` is
`Math.random() * 40 + 40` in floating point, and for the largest values `Math.random()`
can return, the sum rounds up to exactly 80. So a burst has 40 to 80 particles, both ends
included. For the same reason, a particle's drawn life `rand(60, 100)` lies in [60, 100].

A firework explodes only on a tick that ends within 6 pixels of its target. Its velocity
is aimed to reach the target in 40 ticks, but gravity adds 0.01 px per tick to the downward
speed after the aim is set. So after tick 40 the rocket is exactly 7.8 px below its target.
After tick 41 it is 8.2 − D/40 px below, where D is the height it climbs. The target lies
in the top 45% of the page, so D is more than 55% of the page height. On a page taller
than about 1015 CSS pixels, the rocket is therefore already more than 6 px above its target
at tick 41, and it never comes back within 6 px while it still moves upward and sideways.
On such pages fireworks typically never explode, are never done, and pile up by one every
14 ticks until the show stops. The model keeps this possibility, since the near-target
test is an input of each tick (`NeverNearNeverDone`).

Two behaviours of the code are easy to miss, and the model keeps both:

- The reset handler calls `stopCelebration` whether or not a celebration is running. The log therefore gains a `Stopped` entry on every reset.
- `stopFireworks` does not reset `spawnTimer`. After a restart, the spawn phase carries on from where it was.

## Model

| member | source | states |
|---|---|---|
| `Candles.CandleController.constructor` | script.js:55 | the page starts with every candle lit, the flag down and no celebration effect |
| `Candles.CandleController.ToggleCandle` | script.js:40-50 | the new state is `Toggled` of the old one |
| `Candles.CandleController.CheckAllOut` | script.js:55-61 | the new state is `Checked` of the old one: a start is recorded only if the flag was down and every candle is out |
| `Candles.CandleController.StartCelebration` | script.js:228-233 | one `Started` effect is logged and nothing else changes |
| `Candles.CandleController.RelightAll` | script.js:53 | toggling each candle with `relight` in turn leaves every candle lit; the flag and the log do not change |
| `Candles.CandleController.StopCelebration` | script.js:236-243 | one `Stopped` effect is logged and the flag is cleared |
| `Candles.CandleController.Reset` | script.js:63-66 | the new state is `AfterReset` of the old one |
| `Candles.AllOut` | script.js:52 | `allCandlesOut`: every candle reads out, vacuously so when there is none |
| `Candles.Checked` | script.js:56-61 | the candles never change; afterwards the flag is up exactly when it was up or every candle is out; a start is logged exactly when the flag goes up |
| `Candles.Toggled` | script.js:40-50 | the toggled candle ends up lit exactly when `relight` is set; the number of candles and every other candle stay the same |
| `Candles.Relit` | script.js:53 | every candle is lit, their number is kept, and the flag and the log stay the same |
| `Candles.AfterReset` | script.js:63-66 | defined as `stopCelebration` then `relightAll`; `ResetRelightsAll` and `ResetKeepsConsistent` state what it guarantees |
| `Candles.Stopping` | script.js:236-243 | `stopCelebration` on the controller's value: one `Stopped` logged and the flag cleared, the candles unchanged |
| `Candles.Initial` | script.js:55 | the page as loaded: every candle lit, the flag down, no celebration effect |
| `Candles.PutOut` | script.js:40-45 | a lit candle goes out and no other candle changes; the celebration is on afterwards exactly when it was on before or this was the last lit candle; a start is logged exactly when the flag was down and this was the last lit candle |
| `Candles.PutOutWhenOut` | script.js:40-50 | putting out a candle that is already out changes nothing |
| `Candles.Relight` | script.js:46-49 | relighting lights that one candle (a lit one stays lit), changes no other candle, and never runs the check |
| `Candles.ResetRelightsAll` | script.js:52-66 | after reset, whatever the state before, every candle is lit and the flag is down; so `allCandlesOut` is false when there is at least one candle; exactly one `Stopped` is logged |
| `Candles.InitialIsConsistent` | script.js:55 | the page as loaded satisfies the controller invariant |
| `Candles.ToggledKeepsConsistent` | script.js:40-61 | toggling either way keeps the invariant: the flag is up exactly when the last effect was a start; two starts always have a stop between them; all candles out (with at least one candle) means the celebration is on |
| `Candles.ResetKeepsConsistent` | script.js:236-243 | reset keeps the same invariant |
| `Candles.Run` | script.js:35-38 | replaying clicks and resets never changes the number of candles |
| `Candles.RunKeepsConsistent` | script.js:35-66 | every sequence of visitor events keeps the invariant, so the celebration never starts twice without a reset between |
| `Candles.StartsOnce` | script.js:55-61 | between resets, any number of candle clicks start the celebration once if they leave every candle out and never otherwise; the flag ends up exactly when every candle is out |
| `Candles.FlagTracksCandles` | script.js:35-66 | from a state with at least one candle where the flag is up exactly when every candle is out, any sequence of clicks and resets ends in such a state again |
| `Candles.FlagTracksCandlesFromLoad` | script.js:35-66 | from the page as loaded, with at least one candle, the flag is up exactly when every candle is out, after any sequence of events |
| `Candles.StaysStarted` | script.js:55-61 | once the flag is up, further clicks neither clear it nor log anything |
| `Fireworks.Spark` | script.js:123-128 | `new Particle`: full opacity and the drawn life |
| `Fireworks.Alive` | script.js:158 | the particle filter's test: life and opacity both positive |
| `Fireworks.Aged` | script.js:130-133 | `Particle.update` on life and opacity: one life less and 0.012 opacity less |
| `Fireworks.AgeAll` | script.js:130-133 | each particle is aged by one tick: one life less, 0.012 opacity less |
| `Fireworks.LiveOnly` | script.js:158 | the kept particles are all alive and there are no more of them than before |
| `Fireworks.LiveOnlyCounts` | script.js:158 | the filter keeps each living particle as often as it occurs and drops every other |
| `Fireworks.PushTrail` | script.js:150 | the pushed position goes last; the trail grows by at most one, and a trail of at most eight positions stays so |
| `Fireworks.PushTrailKeepsRecent` | script.js:150 | pushing a position onto the eight most recent of a history gives the eight most recent of the longer history |
| `Fireworks.TrailIsRecent` | script.js:150 | after any sequence of pushes, the trail holds at most eight positions, and they are the most recent ones in push order |
| `Fireworks.RisingTrail` | script.js:149-151 | while a firework rises, the trail keeps holding the most recent positions of its flight |
| `Fireworks.LaunchedIsGood` | script.js:141-147 | a new firework has no trail and no particles, is unexploded and is not done |
| `Fireworks.Launched` | script.js:141-147 | `new Firework()` at its drawn start: unexploded, no trail, no particles |
| `Fireworks.Burst` | script.js:153-154 | the explosion loop: one fresh particle per drawn life, in draw order |
| `Fireworks.Updated` | script.js:148-160 | `Firework.update` on a state value; `ExplodesOnce`, `RisingTrail`, `PrunesDeadParticles` and `UpdatedKeepsGood` state what it guarantees |
| `Fireworks.IsDone` | script.js:173 | `done()`: exploded and without particles |
| `Fireworks.ExplodesOnce` | script.js:149-155 | `exploded` is true afterwards exactly when it was already true or this tick ended near the target, so it never goes back; an exploded firework stops moving; at the moment of explosion exactly `count` fresh particles appear, with 40 <= count <= 80 |
| `Fireworks.PrunesDeadParticles` | script.js:156-159 | after an exploded firework's update, only living particles remain: each old particle aged by one tick, kept as often as it occurs exactly when it is still alive |
| `Fireworks.UpdatedKeepsGood` | script.js:148-160 | an update keeps the firework invariant: a trail of at most eight positions; no particles before the explosion; at most 80 after it; every particle alive |
| `Fireworks.NeverNearNeverDone` | script.js:148-173 | a firework that never ends a tick near its target never explodes over any number of updates, so it is never done and never pruned |
| `Fireworks.UpdatedAll` | script.js:188 | `fireworks.forEach(fw => fw.update())` on state values: firework i updated with frame i |
| `Fireworks.Spawns` | script.js:186 | `spawnTimer % 14 === 0` |
| `Fireworks.Pending` | script.js:189 | `fireworks.filter(fw => !fw.done())` on state values keeps at most as many fireworks as there were; `PendingKeeps`, `PendingCounts` and `PendingAppend` state which |
| `Fireworks.PendingKeeps` | script.js:189 | the kept fireworks come from the list and none of them is done |
| `Fireworks.PendingCounts` | script.js:173-189 | a firework leaves the list exactly when it is done (`exploded` and no particles); every other firework stays, as often as it occurs |
| `Fireworks.PendingAppend` | script.js:189 | filtering a concatenation filters each part |
| `Fireworks.Advanced` | script.js:185-189 | one tick of `fwLoop` on state values: spawn on every fourteenth tick, update each firework, drop the finished ones; `AdvancedKeepsGood` and `SpawnAppends` state what it guarantees |
| `Fireworks.AdvancedKeepsGood` | script.js:177-190 | after a loop tick, every firework in the list satisfies the invariant and none is done |
| `Fireworks.SpawnAppends` | script.js:185-189 | a tick appends a new firework, updated once, exactly when the incremented timer is a multiple of 14; the old fireworks are updated and filtered just as on a tick without a spawn |
| `Fireworks.LaunchesCount` | script.js:185-186 | among the timer values t+1, ..., t+k there are (t+k)/14 - t/14 multiples of 14. These are the values k running ticks in a row give the timer, starting from t, and by `Spawn` each such tick launches a firework exactly when its value is a multiple of 14 |
| `Fireworks.Unfinished` | script.js:189 | the filter over firework objects keeps only objects that were in the list |
| `Fireworks.UnfinishedStates` | script.js:189 | the object filter does to the fireworks' states what `Pending` does, and keeps the objects distinct |
| `Fireworks.Firework.constructor` | script.js:141-147 | a new firework starts at its drawn position with an empty trail, unexploded, with no particles |
| `Fireworks.Firework.Update` | script.js:148-160 | the new state is `Updated` of the old one; the explosion loop pushes one particle per drawn life |
| `Fireworks.Firework.Done` | script.js:173 | `done()` on the object: `IsDone` of its state |
| `Fireworks.FireworkShow.constructor` | script.js:110 | the show starts stopped, with timer 0 and no fireworks |
| `Fireworks.FireworkShow.Tick` | script.js:177-190 | when stopped, nothing changes; when running, the timer goes up by one and the list becomes `Advanced` of the old one; the show invariant is kept |
| `Fireworks.FireworkShow.Spawn` | script.js:185-186 | the timer goes up by one; a firework is launched exactly when the new timer is a multiple of fourteen, and the old ones stay in place |
| `Fireworks.FireworkShow.Launch` | script.js:186 | a fresh firework at the start position is appended to the list |
| `Fireworks.FireworkShow.UpdateEach` | script.js:188 | every firework in the list is updated with its own frame; the list itself does not change |
| `Fireworks.FireworkShow.Prune` | script.js:189 | the list becomes the not-done fireworks, in order |
| `Fireworks.FireworkShow.Start` | script.js:192 | the show runs and has had its first tick |
| `Fireworks.FireworkShow.Stop` | script.js:193 | the show is stopped and its list is empty; the timer is unchanged |
| `Notes.PitchClass` | script.js:198 | the pitch table: the 17 spellings of the twelve pitch classes, as semitones above C |
| `Notes.DigitValue` | script.js:199 | `parseInt` of one decimal digit is that digit's value: its position in `0123456789`, below 10 |
| `Notes.NoteToFreq` | script.js:197-200 | `noteToFreq` up to the exponent: a tone lies between -57 and 62 semitones from A4 (C0 to B9); `SilentIffNoMatch`, `UndefinedIffMissingPitch` and `ToneDecodes` say when each result comes |
| `Notes.MatchNote` | script.js:199 | a match splits the whole name into a pitch (a letter A-G, then an optional `#` or `b`) and a final digit |
| `Notes.MatchNoteAccepts` | script.js:199 | the parser accepts exactly the language of the pattern: a letter A-G, an optional `#` or `b`, one digit |
| `Notes.SilentIffNoMatch` | script.js:199 | `noteToFreq` returns 0 exactly for the names the pattern rejects |
| `Notes.UndefinedIffMissingPitch` | script.js:198-199 | the result is NaN exactly for accepted names whose pitch is Cb, E#, Fb or B# |
| `Notes.ToneDecodes` | script.js:198-199 | a tone's offset from A4 lies in [-57, 62], and it determines the pitch class `(d + 69) % 12` and the octave `(d + 69) / 12 - 1` of the name |
| `Notes.ConcertPitch` | script.js:198-199 | "A4" is 0 semitones from A4, i.e. 440 Hz |
| `Notes.Enharmonics` | script.js:198 | C#/Db, D#/Eb, F#/Gb, G#/Ab and A#/Bb give the same result in every octave |
| `Notes.SharpOrFlat` | script.js:198-199 | a sharp or flat name in the table is `map[p] + (oct + 1) * 12 - 69` semitones from A4 |
| `Notes.NaturalIsTone` | script.js:198-199 | a natural name (a letter and a digit) always gives a tone |
| `Notes.OctaveUp` | script.js:199 | raising the octave digit by one raises the tone by 12 semitones |
| `Notes.MelodyIsPlayable` | script.js:216-222 | every note of the birthday melody gives a tone, never 0 or NaN |

## Left out

- DOM selection, classes, attributes, event-listener wiring and accessibility attributes (script.js:2-3, 7-14, 35-38, 246-249) are browser plumbing. A candle is its index into the `seq<bool>`. The initial `data-lit` of each candle comes from the HTML and is taken to be lit. The HTML is not part of this model.
- Balloons, the hint timeout, the dark page class, the `<audio>` track and its fallback, WebAudio synthesis, `stopBirthday` and `Math.pow` (script.js:17-32, 69-107, 202-225) are outside effects. Starting and stopping the celebration appear only as `Started`/`Stopped` entries in the ghost log.
- `startCelebration` calls `startFireworks` and `stopCelebration` calls `stopFireworks`. In the model, the candle controller and the fireworks show are separate objects, and that link is the log entry.
- The kinematics of fireworks and particles are floating point driven by `Math.random`: positions, velocities, gravity, friction, `hypot`, the target and the colour (script.js:4, 119-127, 131-132, 142-145, 151-152). A tick's `Frame` supplies the moved position, the near-target test and the drawn lives. A particle keeps only life and opacity.
- `Fireworks.AgeAll`: opacity and life are exact reals. The model does not capture IEEE rounding of `alpha -= 0.012`.
- `spawnTimer` is a JavaScript number. The model takes it as an unbounded `nat` and does not capture the loss of precision beyond 2^53 ticks.
- Particles are values owned by their firework, not objects. The source never shares a particle between fireworks, so no aliasing is lost.
- Canvas drawing, clearing, the fade overlay, `resize` and `cancelAnimationFrame` (script.js:111-117, 134-137, 161-172, 180-183, 193) are rendering. `requestAnimationFrame` scheduling is left out too: one `Tick` call is one animation frame.
- The pitch-to-frequency step `440 * 2^(diff/12)` is floating point. The model stops at the semitone difference.
