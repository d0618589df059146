/** The candle and celebration state machine: each candle is lit or out, putting out
    the last lit one starts the celebration once, and the reset button stops the
    celebration and relights every candle.  A candle's `data-lit` attribute is a `bool`
    (true for "1"); the outside effects of starting and stopping the celebration
    (balloons, fireworks, music, the dark page) are recorded in a ghost log. */
module Candles {

  /** One call of `startCelebration` or of `stopCelebration`. */
  datatype Effect = Started | Stopped

  /** The controller's state as a value: the candles, the `celebrationStarted` flag,
      and every celebration effect so far. */
  datatype Cake = Cake(lit: seq<bool>, started: bool, log: seq<Effect>)

  /** `allCandlesOut`: every candle reads out (vacuously so when there is none). */
  predicate AllOut(lit: seq<bool>) {
    forall i | 0 <= i < |lit| :: !lit[i]
  }

  predicate AllLit(lit: seq<bool>) {
    forall i | 0 <= i < |lit| :: lit[i]
  }

  /** `checkAllOut`: start the celebration if it has not started and every candle is out. */
  function Checked(c: Cake): (r: Cake)
    ensures r.lit == c.lit
    ensures r.started <==> c.started || AllOut(c.lit)
    ensures r.log == c.log + (if r.started && !c.started then [Started] else [])
  {
    if !c.started && AllOut(c.lit) then c.(started := true, log := c.log + [Started]) else c
  }

  /** `toggleCandle(el, relight)` on candle i. */
  function Toggled(c: Cake, i: nat, relight: bool): (r: Cake)
    requires i < |c.lit|
    ensures |r.lit| == |c.lit| && r.lit[i] == relight
    ensures forall j | 0 <= j < |c.lit| && j != i :: r.lit[j] == c.lit[j]
  {
    if c.lit[i] && !relight then Checked(c.(lit := c.lit[i := false]))
    else if !c.lit[i] && relight then c.(lit := c.lit[i := true])
    else c
  }

  /** `relightAll`: `toggleCandle(c, true)` on every candle in turn. */
  function Relit(c: Cake): (r: Cake)
    ensures |r.lit| == |c.lit| && AllLit(r.lit)
    ensures r.started == c.started && r.log == c.log
  {
    c.(lit := seq(|c.lit|, _ => true))
  }

  /** The flag clearing (and the effect) of `stopCelebration`. */
  function Stopping(c: Cake): Cake {
    c.(started := false, log := c.log + [Stopped])
  }

  /** The reset button: `stopCelebration()` then `relightAll()`. */
  function AfterReset(c: Cake): Cake {
    Relit(Stopping(c))
  }

  /** The state the page loads in: every candle lit, nothing started. */
  function Initial(n: nat): Cake {
    Cake(seq(n, _ => true), false, [])
  }

  /** What the single-shot flag guarantees about the log: the flag is up exactly when the
      last effect was a start, and a start is never followed by another start without a
      stop in between.  A celebration is on whenever every candle is out, unless there
      are no candles at all. */
  ghost predicate Consistent(c: Cake) {
    (c.started <==> |c.log| > 0 && c.log[|c.log| - 1] == Started)
    && (forall k | 0 <= k < |c.log| - 1 :: c.log[k] == Started ==> c.log[k + 1] == Stopped)
    && (|c.lit| > 0 && AllOut(c.lit) ==> c.started)
  }

  /** Putting out a lit candle: that candle goes out, no other changes, and the all-out
      check runs, starting the celebration exactly when this was the last lit candle and
      it had not started before. */
  lemma PutOut(c: Cake, i: nat)
    requires i < |c.lit| && c.lit[i]
    ensures var r := Toggled(c, i, false);
      |r.lit| == |c.lit| && !r.lit[i]
      && (forall j | 0 <= j < |c.lit| && j != i :: r.lit[j] == c.lit[j])
      && (r.started <==> c.started || forall j | 0 <= j < |c.lit| && j != i :: !c.lit[j])
      && r.log == c.log + (if !c.started && forall j | 0 <= j < |c.lit| && j != i :: !c.lit[j]
                           then [Started] else [])
  {
    var lit' := c.lit[i := false];
    assert AllOut(lit') <==> forall j | 0 <= j < |c.lit| && j != i :: !c.lit[j] by {
      assert forall j | 0 <= j < |c.lit| && j != i :: lit'[j] == c.lit[j];
    }
  }

  /** Putting out a candle that is already out changes nothing (and runs no check). */
  lemma PutOutWhenOut(c: Cake, i: nat)
    requires i < |c.lit| && !c.lit[i]
    ensures Toggled(c, i, false) == c
  {
  }

  /** Relighting never runs the all-out check: an out candle is lit again, a lit one is
      left alone, and no other candle, the flag or the log change. */
  lemma Relight(c: Cake, i: nat)
    requires i < |c.lit|
    ensures var r := Toggled(c, i, true);
      r.lit == c.lit[i := true] && r.started == c.started && r.log == c.log
  {
  }

  /** After reset every candle is lit and the flag is down, whatever came before; so no
      candle is out as long as there is one. */
  lemma ResetRelightsAll(c: Cake)
    ensures var r := AfterReset(c);
      |r.lit| == |c.lit| && AllLit(r.lit) && !r.started
      && (|c.lit| > 0 ==> !AllOut(r.lit))
      && r.log == c.log + [Stopped]
  {
    var r := AfterReset(c);
    if |c.lit| > 0 {
      assert r.lit[0];
    }
  }

  /** The page as loaded is consistent. */
  lemma {:induction false} InitialIsConsistent(n: nat)
    ensures Consistent(Initial(n))
  {
    if n > 0 {
      assert Initial(n).lit[0];
    }
  }

  /** Toggling a candle, either way, keeps the controller consistent. */
  lemma {:induction false} ToggledKeepsConsistent(c: Cake, i: nat, relight: bool)
    requires Consistent(c) && i < |c.lit|
    ensures Consistent(Toggled(c, i, relight))
  {
    var r := Toggled(c, i, relight);
    if c.lit[i] && !relight {
      var lit' := c.lit[i := false];
      if !c.started && AllOut(lit') {
        assert r.log == c.log + [Started];
        assert forall k | 0 <= k < |c.log| :: r.log[k] == c.log[k];
        assert |c.log| > 0 ==> c.log[|c.log| - 1] == Stopped;
      }
    } else if !c.lit[i] && relight {
      assert r.lit[i];
    }
  }

  /** Reset keeps the controller consistent. */
  lemma {:induction false} ResetKeepsConsistent(c: Cake)
    requires Consistent(c)
    ensures Consistent(AfterReset(c))
  {
    var r := AfterReset(c);
    assert forall k | 0 <= k < |c.log| :: r.log[k] == c.log[k];
    if |r.lit| > 0 {
      assert r.lit[0];
    }
  }

  /** The things a visitor can do: click (or press Enter on) candle i, or press reset. */
  datatype Event = Blow(candle: nat) | ResetPressed

  ghost predicate Possible(lit: seq<bool>, events: seq<Event>) {
    forall k | 0 <= k < |events| :: events[k].Blow? ==> events[k].candle < |lit|
  }

  /** The state after a visitor's events, one handler call each. */
  function Run(c: Cake, events: seq<Event>): (r: Cake)
    requires Possible(c.lit, events)
    ensures |r.lit| == |c.lit|
    decreases |events|
  {
    if events == [] then c
    else
      var c' := match events[0]
        case Blow(i) => Toggled(c, i, false)
        case ResetPressed => AfterReset(c);
      Run(c', events[1..])
  }

  /** The number of times the celebration has been started. */
  function Starts(log: seq<Effect>): nat {
    if log == [] then 0
    else Starts(log[..|log| - 1]) + (if log[|log| - 1] == Started then 1 else 0)
  }

  /** Any sequence of events keeps the controller consistent. */
  lemma {:induction false} RunKeepsConsistent(c: Cake, events: seq<Event>)
    requires Consistent(c) && Possible(c.lit, events)
    ensures Consistent(Run(c, events))
    decreases |events|
  {
    if events != [] {
      var c' := match events[0]
        case Blow(i) => Toggled(c, i, false)
        case ResetPressed => AfterReset(c);
      match events[0] {
        case Blow(i) => ToggledKeepsConsistent(c, i, false);
        case ResetPressed => ResetKeepsConsistent(c);
      }
      assert Possible(c'.lit, events[1..]) by {
        forall k | 0 <= k < |events[1..]| ensures events[1..][k].Blow? ==> events[1..][k].candle < |c'.lit| {
          assert events[1..][k] == events[k + 1];
        }
      }
      RunKeepsConsistent(c', events[1..]);
    }
  }

  /** The single-shot guard: between two presses of reset, candle clicks start the
      celebration once if they leave every candle out and never otherwise, however many
      clicks there are.  From a state where the flag is up exactly when every candle is
      out (which reset produces), the run ends in such a state again. */
  lemma {:induction false} StartsOnce(c: Cake, events: seq<Event>)
    requires Possible(c.lit, events)
    requires forall k | 0 <= k < |events| :: events[k].Blow?
    requires |c.lit| > 0 && (c.started <==> AllOut(c.lit))
    ensures var r := Run(c, events);
      (r.started <==> AllOut(r.lit))
      && Starts(r.log) == Starts(c.log) + (if AllOut(r.lit) && !c.started then 1 else 0)
    decreases |events|
  {
    if events != [] {
      var i := events[0].candle;
      var c' := Toggled(c, i, false);
      assert c'.started <==> AllOut(c'.lit) by {
        if c.started { assert !c.lit[i] || !AllOut(c.lit); }
      }
      assert Starts(c'.log) == Starts(c.log) + (if c'.started && !c.started then 1 else 0) by {
        if c'.log != c.log {
          assert c'.log == c.log + [Started];
          assert c'.log[..|c'.log| - 1] == c.log;
        }
      }
      assert Possible(c'.lit, events[1..]) by {
        forall k | 0 <= k < |events[1..]| ensures events[1..][k].Blow? ==> events[1..][k].candle < |c'.lit| {
          assert events[1..][k] == events[k + 1];
        }
      }
      StartsOnce(c', events[1..]);
      var r := Run(c', events[1..]);
      assert r == Run(c, events);
      assert c'.started ==> r.started by {
        if c'.started { StaysStarted(c', events[1..]); }
      }
    }
  }

  /** Clicks and resets in any order keep the flag up exactly when every candle is out,
      so `StartsOnce` applies at every point of every run. */
  lemma {:induction false} FlagTracksCandles(c: Cake, events: seq<Event>)
    requires Possible(c.lit, events)
    requires |c.lit| > 0 && (c.started <==> AllOut(c.lit))
    ensures var r := Run(c, events); |r.lit| > 0 && (r.started <==> AllOut(r.lit))
    decreases |events|
  {
    if events != [] {
      var c' := match events[0]
        case Blow(i) => Toggled(c, i, false)
        case ResetPressed => AfterReset(c);
      match events[0] {
        case Blow(i) =>
          StartsOnce(c, [events[0]]);
          assert Run(c, [events[0]]) == c';
        case ResetPressed =>
          ResetRelightsAll(c);
      }
      assert Possible(c'.lit, events[1..]) by {
        forall k | 0 <= k < |events[1..]| ensures events[1..][k].Blow? ==> events[1..][k].candle < |c'.lit| {
          assert events[1..][k] == events[k + 1];
        }
      }
      FlagTracksCandles(c', events[1..]);
    }
  }

  /** From the page as loaded, with at least one candle, the flag is up exactly when
      every candle is out after any sequence of events. */
  lemma FlagTracksCandlesFromLoad(n: nat, events: seq<Event>)
    requires n > 0 && Possible(Initial(n).lit, events)
    ensures var r := Run(Initial(n), events); r.started <==> AllOut(r.lit)
  {
    assert Initial(n).lit[0];
    FlagTracksCandles(Initial(n), events);
  }

  /** Without a reset the flag never comes down. */
  lemma {:induction false} StaysStarted(c: Cake, events: seq<Event>)
    requires Possible(c.lit, events)
    requires forall k | 0 <= k < |events| :: events[k].Blow?
    requires c.started
    ensures Run(c, events).started && Run(c, events).log == c.log
    decreases |events|
  {
    if events != [] {
      var c' := Toggled(c, events[0].candle, false);
      assert Possible(c'.lit, events[1..]) by {
        forall k | 0 <= k < |events[1..]| ensures events[1..][k].Blow? ==> events[1..][k].candle < |c'.lit| {
          assert events[1..][k] == events[k + 1];
        }
      }
      StaysStarted(c', events[1..]);
    }
  }

  /** The controller: the candles' `data-lit` states and the module-level
      `celebrationStarted` flag, with the celebration effects as a ghost log. */
  class CandleController {
    var lit: seq<bool>
    var celebrationStarted: bool
    ghost var log: seq<Effect>

    ghost function Model(): Cake
      reads this
    {
      Cake(lit, celebrationStarted, log)
    }

    /** The page as loaded: n candles, all lit. */
    constructor (n: nat)
      ensures Model() == Initial(n)
    {
      lit := seq(n, _ => true);
      celebrationStarted := false;
      log := [];
    }

    /** `startCelebration`: its outside effects are only recorded. */
    method StartCelebration()
      modifies this
      ensures Model() == old(Model()).(log := old(log) + [Started])
    {
      log := log + [Started];
    }

    /** `checkAllOut` */
    method CheckAllOut()
      modifies this
      ensures Model() == Checked(old(Model()))
    {
      if !celebrationStarted && AllOut(lit) {
        celebrationStarted := true;
        StartCelebration();
      }
    }

    /** `toggleCandle(el, relight)` for the candle at index i. */
    method ToggleCandle(i: nat, relight: bool)
      requires i < |lit|
      modifies this
      ensures Model() == Toggled(old(Model()), i, relight)
    {
      var isLit := lit[i];
      if isLit && !relight {
        lit := lit[i := false];
        CheckAllOut();
      } else if !isLit && relight {
        lit := lit[i := true];
      }
    }

    /** `relightAll`: relight the candles one by one. */
    method RelightAll()
      modifies this
      ensures Model() == Relit(old(Model()))
    {
      var i := 0;
      while i < |lit|
        invariant 0 <= i <= |lit| == |old(lit)|
        invariant forall j | 0 <= j < i :: lit[j]
        invariant forall j | i <= j < |lit| :: lit[j] == old(lit)[j]
        invariant celebrationStarted == old(celebrationStarted) && log == old(log)
      {
        ghost var before := Model();
        ToggleCandle(i, true);
        Relight(before, i);
        assert lit == before.lit[i := true];
        i := i + 1;
      }
      assert lit == seq(|lit|, _ => true);
    }

    /** `stopCelebration`: the outside effects are recorded, then the flag is cleared. */
    method StopCelebration()
      modifies this
      ensures Model() == Stopping(old(Model()))
    {
      log := log + [Stopped];
      celebrationStarted := false;
    }

    /** The reset button's click handler. */
    method Reset()
      modifies this
      ensures Model() == AfterReset(old(Model()))
    {
      StopCelebration();
      RelightAll();
    }
  }
}
