/** The fireworks loop with its physics taken out.  A firework rises leaving a trail of
    at most eight past positions; on the first tick that ends within 6 pixels of its
    target it explodes, once, into 40 to 80 particles, and it is dropped from the show
    once it has exploded and its last particle has faded.  One that never comes near its
    target never explodes and stays in the show until the show stops; gravity makes
    that the usual case on tall pages.  The show spawns
    a firework every fourteenth tick while it runs.  Positions, the "near the target"
    test and the random draws are inputs of each tick (a `Frame`); a particle keeps only
    its remaining life and its opacity. */
module Fireworks {

  /** A canvas position; the kinematics that produce them are not modelled. */
  type Pos = (real, real)

  const TrailLength: nat := 8
  const SpawnInterval: nat := 14
  /** `Math.floor(rand(40, 80))` lies in [MinBurst, MaxBurst]: `rand` is
      `Math.random() * 40 + 40` in floating point, and for the largest `Math.random()`
      results the sum rounds up to 80 itself. */
  const MinBurst: nat := 40
  const MaxBurst: nat := 80
  /** `rand(60, 100)` lies in [MinLife, MaxLife], by the same rounding. */
  const MinLife: real := 60.0
  const MaxLife: real := 100.0
  /** What a particle's opacity loses per tick. */
  const Fade: real := 0.012

  datatype Particle = Particle(life: real, alpha: real)

  /** `new Particle(...)`: full opacity and a drawn life. */
  function Spark(life: real): Particle {
    Particle(life, 1.0)
  }

  /** `Particle.update`, as far as life and opacity go. */
  function Aged(p: Particle): Particle {
    Particle(p.life - 1.0, p.alpha - Fade)
  }

  /** The filter kept by `Firework.update`: `p.life > 0 && p.alpha > 0`. */
  predicate Alive(p: Particle) {
    p.life > 0.0 && p.alpha > 0.0
  }

  /** `particles.forEach(p => p.update())` */
  function AgeAll(ps: seq<Particle>): (r: seq<Particle>)
    ensures |r| == |ps| && forall i | 0 <= i < |ps| :: r[i] == Aged(ps[i])
  {
    if ps == [] then [] else [Aged(ps[0])] + AgeAll(ps[1..])
  }

  /** `particles.filter(p => p.life > 0 && p.alpha > 0)`: the living particles, each as
      often as it occurs, and nothing else. */
  function LiveOnly(ps: seq<Particle>): (r: seq<Particle>)
    ensures |r| <= |ps|
    ensures forall i | 0 <= i < |r| :: Alive(r[i])
  {
    if ps == [] then [] else (if Alive(ps[0]) then [ps[0]] else []) + LiveOnly(ps[1..])
  }

  /** The filter keeps every living particle as often as it occurs, and no other. */
  lemma {:induction false} LiveOnlyCounts(ps: seq<Particle>, p: Particle)
    ensures multiset(LiveOnly(ps))[p] == if Alive(p) then multiset(ps)[p] else 0
    decreases |ps|
  {
    if ps != [] {
      LiveOnlyCounts(ps[1..], p);
      assert ps == [ps[0]] + ps[1..];
    }
  }

  /** `trail.push(pos)` followed by `trail.shift()` once it is longer than eight: the new
      position goes last, and a trail of at most eight stays so. */
  function PushTrail(trail: seq<Pos>, p: Pos): (r: seq<Pos>)
    ensures |r| > 0 && r[|r| - 1] == p
    ensures |trail| <= TrailLength ==> |r| <= TrailLength
    ensures |r| <= |trail| + 1
  {
    var t := trail + [p];
    if |t| > TrailLength then t[1..] else t
  }

  /** The last (at most) eight positions of a history, oldest first. */
  function Recent(h: seq<Pos>): (r: seq<Pos>) {
    if |h| <= TrailLength then h else h[|h| - TrailLength..]
  }

  /** The trail left by pushing the positions of h one by one onto an empty trail. */
  function TrailOf(h: seq<Pos>): seq<Pos>
    decreases |h|
  {
    if h == [] then [] else PushTrail(TrailOf(h[..|h| - 1]), h[|h| - 1])
  }

  /** One push keeps "the most recent positions in push order". */
  lemma PushTrailKeepsRecent(h: seq<Pos>, p: Pos)
    ensures PushTrail(Recent(h), p) == Recent(h + [p])
  {
    if |h| >= TrailLength {
      assert (h[|h| - TrailLength..] + [p])[1..] == (h + [p])[|h| + 1 - TrailLength..];
    }
  }

  /** A trail never holds more than eight positions, and they are the eight most recent
      ones in the order they were pushed. */
  lemma {:induction false} TrailIsRecent(h: seq<Pos>)
    ensures TrailOf(h) == Recent(h) && |TrailOf(h)| <= TrailLength
    decreases |h|
  {
    if h != [] {
      var init := h[..|h| - 1];
      TrailIsRecent(init);
      PushTrailKeepsRecent(init, h[|h| - 1]);
      assert init + [h[|h| - 1]] == h;
    }
  }

  /** A firework's state as a value. */
  datatype FireworkState = FireworkState(pos: Pos, trail: seq<Pos>, exploded: bool, particles: seq<Particle>)

  /** What one tick decides for one firework: where it moves to, whether it is then
      within 6 pixels of its target, and the lives drawn for the particles should it
      explode. */
  datatype Frame = Frame(moved: Pos, nearTarget: bool, lives: seq<real>)

  /** The ranges of the random draws. */
  predicate ValidFrame(x: Frame) {
    MinBurst <= |x.lives| <= MaxBurst
    && forall i | 0 <= i < |x.lives| :: MinLife <= x.lives[i] <= MaxLife
  }

  /** `new Firework()` starting at a drawn position. */
  function Launched(start: Pos): FireworkState {
    FireworkState(start, [], false, [])
  }

  /** The particles pushed by the explosion loop, one per drawn life. */
  function Burst(lives: seq<real>): seq<Particle> {
    seq(|lives|, i requires 0 <= i < |lives| => Spark(lives[i]))
  }

  /** `Firework.update` */
  function Updated(f: FireworkState, x: Frame): FireworkState {
    if !f.exploded then
      var risen := f.(trail := PushTrail(f.trail, f.pos), pos := x.moved);
      if x.nearTarget then risen.(exploded := true, particles := risen.particles + Burst(x.lives))
      else risen
    else
      f.(particles := LiveOnly(AgeAll(f.particles)))
  }

  /** `Firework.done` */
  predicate IsDone(f: FireworkState) {
    f.exploded && |f.particles| == 0
  }

  /** What every firework in the show satisfies: a trail of at most eight, no particles
      before the explosion, at most 80 after it, and every particle alive. */
  ghost predicate Good(f: FireworkState) {
    |f.trail| <= TrailLength
    && (!f.exploded ==> f.particles == [])
    && |f.particles| <= MaxBurst
    && forall i | 0 <= i < |f.particles| :: Alive(f.particles[i])
  }

  /** While a firework rises, each update pushes the position it leaves, so a trail made
      of the most recent positions of its flight stays so. */
  lemma {:induction false} RisingTrail(f: FireworkState, x: Frame, h: seq<Pos>)
    requires !f.exploded && f.trail == Recent(h)
    ensures Updated(f, x).trail == Recent(h + [f.pos])
  {
    PushTrailKeepsRecent(h, f.pos);
  }

  lemma LaunchedIsGood(start: Pos)
    ensures Good(Launched(start)) && !IsDone(Launched(start))
  {
  }

  /** `exploded` goes from false to true exactly on a tick that ends near the target, and
      never back; at that moment exactly `count` fresh particles appear, 40 to 80 of them,
      and the firework stops moving. */
  lemma {:induction false} ExplodesOnce(f: FireworkState, x: Frame)
    requires Good(f) && ValidFrame(x)
    ensures var r := Updated(f, x);
      (r.exploded <==> f.exploded || x.nearTarget)
      && (f.exploded ==> r.pos == f.pos && r.trail == f.trail)
      && (!f.exploded && x.nearTarget ==>
            |r.particles| == |x.lives| && MinBurst <= |r.particles| <= MaxBurst
            && forall i | 0 <= i < |r.particles| :: r.particles[i] == Spark(x.lives[i]))
  {
  }

  /** After an exploded firework's update only living particles remain: each particle
      aged by one tick, kept exactly when it is still alive. */
  lemma {:induction false} PrunesDeadParticles(f: FireworkState, x: Frame)
    requires f.exploded
    ensures var r := Updated(f, x);
      (forall i | 0 <= i < |r.particles| :: Alive(r.particles[i]))
      && |r.particles| <= |f.particles|
      && forall p :: multiset(r.particles)[p] == if Alive(p) then multiset(AgeAll(f.particles))[p] else 0
  {
    forall p ensures multiset(Updated(f, x).particles)[p] == if Alive(p) then multiset(AgeAll(f.particles))[p] else 0 {
      LiveOnlyCounts(AgeAll(f.particles), p);
    }
  }

  /** An update keeps a firework good. */
  lemma {:induction false} UpdatedKeepsGood(f: FireworkState, x: Frame)
    requires Good(f) && ValidFrame(x)
    ensures Good(Updated(f, x))
  {
    var r := Updated(f, x);
    if !f.exploded {
      var t := f.trail + [f.pos];
      assert |PushTrail(f.trail, f.pos)| <= TrailLength;
      if x.nearTarget {
        assert r.particles == Burst(x.lives);
        forall i | 0 <= i < |r.particles| ensures Alive(r.particles[i]) {
          assert r.particles[i] == Spark(x.lives[i]);
        }
      }
    }
  }

  /** A firework's updates over consecutive ticks, one frame each. */
  function Flight(f: FireworkState, xs: seq<Frame>): FireworkState
    decreases |xs|
  {
    if xs == [] then f else Flight(Updated(f, xs[0]), xs[1..])
  }

  /** Explosion is the only way to be done: a firework that never ends a tick near its
      target never explodes, so it is never done and never leaves the show. */
  lemma {:induction false} NeverNearNeverDone(f: FireworkState, xs: seq<Frame>)
    requires !f.exploded
    requires forall i | 0 <= i < |xs| :: !xs[i].nearTarget
    ensures !Flight(f, xs).exploded && !IsDone(Flight(f, xs))
    decreases |xs|
  {
    if xs != [] {
      NeverNearNeverDone(Updated(f, xs[0]), xs[1..]);
    }
  }

  /** `fireworks.forEach(fw => fw.update())`, firework i taking frame i. */
  function UpdatedAll(fs: seq<FireworkState>, xs: seq<Frame>): seq<FireworkState>
    requires |xs| >= |fs|
  {
    seq(|fs|, i requires 0 <= i < |fs| => Updated(fs[i], xs[i]))
  }

  /** `fireworks.filter(fw => !fw.done())`: every firework that is not done, in order,
      and none that is. */
  function Pending(fs: seq<FireworkState>): (r: seq<FireworkState>)
    ensures |r| <= |fs|
  {
    if fs == [] then [] else (if IsDone(fs[0]) then [] else [fs[0]]) + Pending(fs[1..])
  }

  /** The kept fireworks come from the list, and none of them is done. */
  lemma PendingKeeps(fs: seq<FireworkState>)
    ensures forall i | 0 <= i < |Pending(fs)| :: !IsDone(Pending(fs)[i]) && Pending(fs)[i] in fs
  {
    var r := Pending(fs);
    forall i | 0 <= i < |r| ensures !IsDone(r[i]) && r[i] in fs {
      PendingCounts(fs, r[i]);
      assert r[i] in multiset(r);
    }
  }

  /** The filter keeps every firework that is not done as often as it occurs, and no
      other: a firework leaves the list exactly when it is done. */
  lemma {:induction false} PendingCounts(fs: seq<FireworkState>, f: FireworkState)
    ensures multiset(Pending(fs))[f] == if IsDone(f) then 0 else multiset(fs)[f]
    decreases |fs|
  {
    if fs != [] {
      var head := if IsDone(fs[0]) then [] else [fs[0]];
      assert fs == [fs[0]] + fs[1..];
      assert multiset(fs) == multiset([fs[0]]) + multiset(fs[1..]);
      assert multiset(Pending(fs)) == multiset(head) + multiset(Pending(fs[1..]));
      PendingCounts(fs[1..], f);
    }
  }

  lemma {:induction false} PendingAppend(a: seq<FireworkState>, b: seq<FireworkState>)
    ensures Pending(a + b) == Pending(a) + Pending(b)
    decreases |a|
  {
    if a == [] {
      assert a + b == b;
    } else {
      var t := a[1..];
      assert a == [a[0]] + t && a + b == [a[0]] + (t + b);
      PendingCons(a[0], t);
      PendingCons(a[0], t + b);
      PendingAppend(t, b);
    }
  }

  /** One step of the filter. */
  lemma PendingCons(x: FireworkState, rest: seq<FireworkState>)
    ensures Pending([x] + rest) == (if IsDone(x) then [] else [x]) + Pending(rest)
  {
    assert ([x] + rest)[1..] == rest;
  }

  /** Does the tick that brings the timer to `timer` spawn a firework? */
  predicate Spawns(timer: nat) {
    timer % SpawnInterval == 0
  }

  /** The fireworks after one tick of `fwLoop` that brought the timer to `timer`: spawn,
      update all, drop the finished ones.  Firework i takes frame i, a new one the frame
      after the last old one. */
  function Advanced(fs: seq<FireworkState>, timer: nat, start: Pos, xs: seq<Frame>): seq<FireworkState>
    requires |xs| > |fs|
  {
    Pending(UpdatedAll(fs + (if Spawns(timer) then [Launched(start)] else []), xs))
  }

  /** A tick keeps every firework good and leaves none that is done. */
  lemma {:induction false} AdvancedKeepsGood(fs: seq<FireworkState>, timer: nat, start: Pos, xs: seq<Frame>)
    requires |xs| > |fs|
    requires forall i | 0 <= i < |fs| :: Good(fs[i])
    requires forall i | 0 <= i < |xs| :: ValidFrame(xs[i])
    ensures var r := Advanced(fs, timer, start, xs);
      forall i | 0 <= i < |r| :: Good(r[i]) && !IsDone(r[i])
  {
    var all := fs + (if Spawns(timer) then [Launched(start)] else []);
    var u := UpdatedAll(all, xs);
    forall i | 0 <= i < |u| ensures Good(u[i]) {
      assert Good(all[i]);
      UpdatedKeepsGood(all[i], xs[i]);
    }
    var r := Pending(u);
    PendingKeeps(u);
    forall i | 0 <= i < |r| ensures Good(r[i]) {
      assert r[i] in u;
    }
  }

  /** The firework list gains one firework exactly on ticks whose timer is a multiple of
      fourteen: the old fireworks are updated and filtered as before, and the new one,
      updated once, is never done yet, so it always goes to the end of the list. */
  lemma {:induction false} SpawnAppends(fs: seq<FireworkState>, timer: nat, start: Pos, xs: seq<Frame>)
    requires |xs| > |fs| && ValidFrame(xs[|fs|])
    ensures Advanced(fs, timer, start, xs)
         == Pending(UpdatedAll(fs, xs)) + (if Spawns(timer) then [Updated(Launched(start), xs[|fs|])] else [])
  {
    var extra := if Spawns(timer) then [Launched(start)] else [];
    var u := UpdatedAll(fs + extra, xs);
    assert u == UpdatedAll(fs, xs) + UpdatedAll(extra, xs[|fs|..]);
    PendingAppend(UpdatedAll(fs, xs), UpdatedAll(extra, xs[|fs|..]));
    if Spawns(timer) {
      var n := Updated(Launched(start), xs[|fs|]);
      assert UpdatedAll(extra, xs[|fs|..]) == [n];
      assert !IsDone(n);
      assert Pending([n]) == [n] + Pending([]);
    }
  }

  /** The number of spawns among the timer values t+1, ..., t+k. */
  function Launches(t: nat, k: nat): nat {
    if k == 0 then 0 else Launches(t, k - 1) + (if Spawns(t + k) then 1 else 0)
  }

  /** Over any k ticks a running show spawns one firework per multiple of fourteen the
      timer passes: from a fresh timer, k / 14 of them. */
  lemma {:induction false} LaunchesCount(t: nat, k: nat)
    ensures Launches(t, k) == (t + k) / SpawnInterval - t / SpawnInterval
  {
    if k > 0 {
      LaunchesCount(t, k - 1);
      var n := t + k;
      assert (n % SpawnInterval == 0) <==> n / SpawnInterval == (n - 1) / SpawnInterval + 1;
    }
  }

  /** The states of a list of firework objects. */
  ghost function StatesOf(fs: seq<Firework>): (r: seq<FireworkState>)
    reads fs
    ensures |r| == |fs| && forall i | 0 <= i < |fs| :: r[i] == fs[i].State()
  {
    if fs == [] then [] else [fs[0].State()] + StatesOf(fs[1..])
  }

  predicate Distinct(fs: seq<Firework>) {
    forall i, j | 0 <= i < j < |fs| :: fs[i] != fs[j]
  }

  /** `fireworks.filter(fw => !fw.done())` on the objects themselves. */
  function Unfinished(fs: seq<Firework>): (r: seq<Firework>)
    reads fs
    ensures forall f | f in r :: f in fs
  {
    if fs == [] then [] else (if fs[0].Done() then [] else [fs[0]]) + Unfinished(fs[1..])
  }

  /** The object filter does to the states what `Pending` does, and keeps the objects
      distinct. */
  lemma {:induction false} UnfinishedStates(fs: seq<Firework>)
    ensures StatesOf(Unfinished(fs)) == Pending(StatesOf(fs))
    ensures Distinct(fs) ==> Distinct(Unfinished(fs))
    decreases |fs|
  {
    if fs != [] {
      var rest := Unfinished(fs[1..]);
      UnfinishedStates(fs[1..]);
      assert StatesOf(fs)[0] == fs[0].State();
      assert StatesOf(fs)[1..] == StatesOf(fs[1..]);
      if !fs[0].Done() {
        assert StatesOf([fs[0]] + rest) == [fs[0].State()] + StatesOf(rest);
      }
      if Distinct(fs) {
        assert Distinct(fs[1..]) by {
          forall i, j | 0 <= i < j < |fs[1..]| ensures fs[1..][i] != fs[1..][j] {
            assert fs[1..][i] == fs[i + 1] && fs[1..][j] == fs[j + 1];
          }
        }
        assert fs[0] !in rest by {
          forall k | 0 <= k < |fs[1..]| ensures fs[1..][k] != fs[0] {
            assert fs[1..][k] == fs[k + 1];
          }
        }
      }
    }
  }

  /** A firework, updated in place by the loop. */
  class Firework {
    var pos: Pos
    var trail: seq<Pos>
    var exploded: bool
    var particles: seq<Particle>

    function State(): FireworkState
      reads this
    {
      FireworkState(pos, trail, exploded, particles)
    }

    /** `new Firework()`, at a drawn starting position. */
    constructor (start: Pos)
      ensures State() == Launched(start)
    {
      pos, trail, exploded, particles := start, [], false, [];
    }

    /** `done()` */
    predicate Done()
      reads this
    {
      IsDone(State())
    }

    /** `update()` for one tick with the frame's movement and draws. */
    method Update(x: Frame)
      modifies this
      ensures State() == Updated(old(State()), x)
    {
      if !exploded {
        trail := trail + [pos];
        if |trail| > TrailLength {
          trail := trail[1..];
        }
        pos := x.moved;
        if x.nearTarget {
          exploded := true;
          var count := |x.lives|;
          for i := 0 to count
            invariant particles == old(particles) + Burst(x.lives[..i])
            invariant pos == x.moved && exploded
            invariant trail == PushTrail(old(trail), old(pos))
          {
            assert Burst(x.lives[..i + 1]) == Burst(x.lives[..i]) + [Spark(x.lives[i])];
            particles := particles + [Spark(x.lives[i])];
          }
          assert x.lives[..count] == x.lives;
        }
      } else {
        particles := LiveOnly(AgeAll(particles));
      }
    }
  }

  /** The show: `runFw`, `spawnTimer` and the `fireworks` list. */
  class FireworkShow {
    var running: bool
    var spawnTimer: nat
    var fireworks: seq<Firework>

    ghost function States(): seq<FireworkState>
      reads this, fireworks
    {
      StatesOf(fireworks)
    }

    /** The fireworks are distinct objects, each good and none done. */
    ghost predicate Valid()
      reads this, fireworks
    {
      Distinct(fireworks)
      && forall i | 0 <= i < |fireworks| :: Good(fireworks[i].State()) && !fireworks[i].Done()
    }

    /** The state the script starts in. */
    constructor ()
      ensures Valid() && !running && spawnTimer == 0 && fireworks == []
    {
      running, spawnTimer, fireworks := false, 0, [];
    }

    lemma GoodStates()
      requires Valid()
      ensures forall i | 0 <= i < |States()| :: Good(States()[i])
    {
      forall i | 0 <= i < |fireworks| ensures Good(States()[i]) {
        assert fireworks[i].State() == States()[i];
      }
    }

    lemma ValidFromStates()
      requires Distinct(fireworks)
      requires forall i | 0 <= i < |States()| :: Good(States()[i]) && !IsDone(States()[i])
      ensures Valid()
    {
      forall i | 0 <= i < |fireworks|
        ensures Good(fireworks[i].State()) && !fireworks[i].Done()
      {
        assert fireworks[i].State() == States()[i];
      }
    }

    /** `fwLoop`, one animation frame: nothing when the show is stopped; otherwise the
        timer advances, a firework is spawned on every fourteenth tick, every firework
        is updated with its own frame, and the finished ones are dropped. */
    method Tick(start: Pos, xs: seq<Frame>)
      requires Valid()
      requires |xs| > |fireworks|
      requires forall i | 0 <= i < |xs| :: ValidFrame(xs[i])
      modifies this, fireworks
      ensures Valid()
      ensures running == old(running)
      ensures !running ==> spawnTimer == old(spawnTimer) && fireworks == old(fireworks)
                           && States() == old(States())
      ensures running ==> spawnTimer == old(spawnTimer) + 1
                          && States() == Advanced(old(States()), spawnTimer, start, xs)
    {
      if !running {
        return;
      }
      ghost var old0 := States();
      GoodStates();
      Spawn(start);
      ghost var spawned := States();
      UpdateEach(xs);
      ghost var updated := States();
      assert updated == UpdatedAll(spawned, xs);
      Prune();
      ghost var after := States();
      assert after == Pending(updated);
      assert after == Advanced(old0, spawnTimer, start, xs);
      AdvancedKeepsGood(old0, spawnTimer, start, xs);
      ValidFromStates();
    }

    /** The timer advances, and on every fourteenth tick a firework is launched. */
    method Spawn(start: Pos)
      requires Distinct(fireworks)
      modifies this
      ensures running == old(running) && spawnTimer == old(spawnTimer) + 1
      ensures Distinct(fireworks)
      ensures |fireworks| >= |old(fireworks)| && fireworks[..|old(fireworks)|] == old(fireworks)
      ensures forall i | |old(fireworks)| <= i < |fireworks| :: fresh(fireworks[i])
      ensures States() == old(States()) + (if Spawns(spawnTimer) then [Launched(start)] else [])
    {
      spawnTimer := spawnTimer + 1;
      if spawnTimer % SpawnInterval == 0 {
        Launch(start);
      }
    }

    /** `fireworks.push(new Firework())` */
    method Launch(start: Pos)
      requires Distinct(fireworks)
      modifies this
      ensures running == old(running) && spawnTimer == old(spawnTimer)
      ensures Distinct(fireworks) && |fireworks| == |old(fireworks)| + 1
      ensures fireworks[..|old(fireworks)|] == old(fireworks) && fresh(fireworks[|old(fireworks)|])
      ensures States() == old(States()) + [Launched(start)]
    {
      var f := new Firework(start);
      fireworks := fireworks + [f];
    }

    /** `fireworks = fireworks.filter(fw => !fw.done())` */
    method Prune()
      requires Distinct(fireworks)
      modifies this
      ensures running == old(running) && spawnTimer == old(spawnTimer)
      ensures Distinct(fireworks)
      ensures States() == Pending(old(States()))
    {
      var fs := fireworks;
      UnfinishedStates(fs);
      var kept := Unfinished(fs);
      fireworks := kept;
    }

    /** `fireworks.forEach(fw => fw.update())`, firework i taking frame i. */
    method UpdateEach(xs: seq<Frame>)
      requires Distinct(fireworks) && |xs| >= |fireworks|
      modifies fireworks
      ensures running == old(running) && spawnTimer == old(spawnTimer) && fireworks == old(fireworks)
      ensures States() == UpdatedAll(old(States()), xs)
    {
      var fs := fireworks;
      ghost var before := StatesOf(fs);
      for i := 0 to |fs|
        invariant forall j | 0 <= j < |fs| :: fs[j].State() == if j < i then Updated(before[j], xs[j]) else before[j]
      {
        assert forall j | 0 <= j < |fs| && j != i :: fs[j] != fs[i];
        fs[i].Update(xs[i]);
      }
      assert StatesOf(fs) == UpdatedAll(before, xs);
    }

    /** `startFireworks`: mark the show running and run its first frame. */
    method Start(start: Pos, xs: seq<Frame>)
      requires Valid()
      requires |xs| > |fireworks|
      requires forall i | 0 <= i < |xs| :: ValidFrame(xs[i])
      modifies this, fireworks
      ensures Valid() && running && spawnTimer == old(spawnTimer) + 1
      ensures States() == Advanced(old(States()), spawnTimer, start, xs)
    {
      running := true;
      Tick(start, xs);
    }

    /** `stopFireworks`: the show stops and its list is emptied; the timer is kept. */
    method Stop()
      modifies this
      ensures Valid() && !running && fireworks == [] && spawnTimer == old(spawnTimer)
    {
      running := false;
      fireworks := [];
    }
  }
}
