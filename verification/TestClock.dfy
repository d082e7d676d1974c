/** The controllable test clock: one-slot timers and tickers that fire when the clock is advanced. */
module TestClock {
  import opened Wrappers

  type Instant = int
  type Interval = int

  // ---- specification ----------------------------------------------------------------------------------

  datatype TimerState = TimerState(deadline: Instant, isActive: bool, channel: Option<Instant>)

  datatype TickerState = TickerState(next: Instant, interval: Interval, isActive: bool, channel: Option<Instant>)

  datatype ClockState = ClockState(now: Instant, isDone: bool, timers: map<Timer, TimerState>, tickers: map<Ticker,
                                   TickerState>)

  /** A send that never blocks: a full slot keeps its older event. */
  function Offered(slot: Option<Instant>, at: Instant): Option<Instant> { if slot.None? then Some(at) else slot }

  function Fired(t: TimerState, now: Instant): TimerState {
    if t.isActive && t.deadline <= now then t.(channel := Offered(t.channel, t.deadline), isActive := false) else t
  }

  function NextTick(next: Instant, interval: Interval, now: Instant): Instant
    requires interval > 0
  {
    if now < next then next else now + (interval - (now - next) % interval)
  }

  function Ticked(t: TickerState, now: Instant): (r: TickerState)
    requires t.interval > 0
    ensures r.isActive == t.isActive && r.interval == t.interval
  {
    if t.isActive && t.next <= now
    then t.(channel := Offered(t.channel, t.next), next := NextTick(t.next, t.interval, now))
    else t
  }

  ghost function FiredAll(timers: map<Timer, TimerState>, now: Instant): map<Timer, TimerState> {
    map t | t in timers :: Fired(timers[t], now)
  }

  ghost predicate Intervals(tickers: map<Ticker, TickerState>) { forall k | k in tickers :: tickers[k].interval > 0 }

  ghost function TickedAll(tickers: map<Ticker, TickerState>, now: Instant): map<Ticker, TickerState>
    requires Intervals(tickers)
  {
    map k | k in tickers :: Ticked(tickers[k], now)
  }

  ghost function Advanced(s: ClockState, duration: Interval): ClockState
    requires Intervals(s.tickers)
  {
    if s.isDone then s
    else ClockState(s.now +
        duration, false, FiredAll(s.timers, s.now + duration), TickedAll(s.tickers, s.now + duration))
  }

  ghost function SilencedTimers(timers: map<Timer, TimerState>): map<Timer, TimerState> {
    map t | t in timers :: timers[t].(isActive := false)
  }

  ghost function SilencedTickers(tickers: map<Ticker, TickerState>): map<Ticker, TickerState> {
    map k | k in tickers :: tickers[k].(isActive := false)
  }

  ghost function Stopped(s: ClockState): ClockState {
    ClockState(s.now, true, SilencedTimers(s.timers), SilencedTickers(s.tickers))
  }

  function TickAt(anchor: Instant, interval: Interval, k: int): Instant { anchor + interval * k }

  ghost predicate InPhase(at: Instant, anchor: Instant, interval: Interval) {
    exists k :: at == TickAt(anchor, interval, k)
  }

  /** The least instant after now that is a whole number of intervals from the anchor; LeastIsLeast says so. */
  ghost predicate LeastAfter(next: Instant, now: Instant, anchor: Instant, interval: Interval) {
    now < next <= now + interval && InPhase(next, anchor, interval)
  }

  // ---- properties of the specification ------------------------------------------------------------------

  lemma {:induction false} NextTickLeast(next: Instant, interval: Interval, now: Instant, anchor: Instant)
    requires interval > 0 && next <= now && InPhase(next, anchor, interval)
    ensures LeastAfter(NextTick(next, interval, now), now, anchor, interval)
  {
    var k :| next == TickAt(anchor, interval, k);
    var r, q := (now - next) % interval, (now - next) / interval;
    assert now - next == interval * q + r;
    assert NextTick(next, interval, now) == TickAt(anchor, interval, k + q + 1);
  }

  lemma {:induction false} TickedLeast(t: TickerState, before: Instant, now: Instant, anchor: Instant)
    requires t.interval > 0 && t.isActive && before <= now && LeastAfter(t.next, before, anchor, t.interval)
    ensures LeastAfter(Ticked(t, now).next, now, anchor, t.interval)
  {
    if t.next <= now {
      NextTickLeast(t.next, t.interval, now, anchor);
    }
  }

  lemma {:induction false} FirstTick(now: Instant, interval: Interval)
    requires interval > 0
    ensures LeastAfter(now + interval, now, now, interval)
  {
    assert now + interval == TickAt(now, interval, 1);
  }

  lemma {:induction false} NotPositive(interval: Interval, d: int)
    requires interval > 0 && interval * d < interval
    ensures interval * d <= 0
  {
    assert interval * (d - 1) < 0;
  }

  /** Nothing in phase lies strictly between now and the least coming tick. */
  lemma {:induction false} LeastIsLeast(next: Instant, now: Instant, anchor: Instant, interval: Interval,
                                        other: Instant)
    requires interval > 0 && LeastAfter(next, now, anchor, interval)
    requires now < other && InPhase(other, anchor, interval)
    ensures next <= other
  {
    var i :| next == TickAt(anchor, interval, i);
    var j :| other == TickAt(anchor, interval, j);
    assert next - other == interval * (i - j);
    NotPositive(interval, i - j);
  }

  lemma {:induction false} LeastUnique(x: Instant, y: Instant, now: Instant, anchor: Instant, interval: Interval)
    requires interval > 0 && LeastAfter(x, now, anchor, interval) && LeastAfter(y, now, anchor, interval)
    ensures x == y
  {
    LeastIsLeast(x, now, anchor, interval, y);
    LeastIsLeast(y, now, anchor, interval, x);
  }

  lemma {:induction false} TickTwice(t: TickerState, first: Instant, second: Instant)
    requires t.interval > 0 && first <= second
    ensures Ticked(t, first).interval > 0 && Ticked(Ticked(t, first), second) == Ticked(t, second)
  {
    if t.isActive && t.next <= first {
      assert t.next == TickAt(t.next, t.interval, 0);
      NextTickLeast(t.next, t.interval, first, t.next);
      NextTickLeast(t.next, t.interval, second, t.next);
      var between := Ticked(t, first);
      if between.next <= second {
        NextTickLeast(between.next, t.interval, second, t.next);
        LeastUnique(NextTick(between.next, t.interval, second), NextTick(t.next, t.interval, second), second, t.next,
            t.interval);
      } else {
        LeastUnique(between.next, NextTick(t.next, t.interval, second), second, t.next, t.interval);
      }
    }
  }

  /** Two advances with no receive in between are one advance by their sum. */
  lemma {:induction false} AdvanceTwice(s: ClockState, a: Interval, b: Interval)
    requires Intervals(s.tickers) && a >= 0 && b >= 0
    ensures Intervals(Advanced(s, a).tickers) && Advanced(Advanced(s, a), b) == Advanced(s, a + b)
  {
    forall k | k in s.tickers && !s.isDone
      ensures Ticked(s.tickers[k], s.now + a).interval > 0
      ensures Ticked(Ticked(s.tickers[k], s.now + a), s.now + a + b) == Ticked(s.tickers[k], s.now + a + b)
    {
      TickTwice(s.tickers[k], s.now + a, s.now + a + b);
    }
  }

  function Sum(durations: seq<Interval>): Interval { if durations == [] then 0 else durations[0] + Sum(durations[1..]) }

  ghost function AdvancedAll(s: ClockState, durations: seq<Interval>): ClockState
    requires Intervals(s.tickers)
    ensures Intervals(AdvancedAll(s, durations).tickers)
    decreases |durations|
  {
    if durations == [] then s else AdvancedAll(Advanced(s, durations[0]), durations[1..])
  }

  /** However a span is cut into advances, the clock ends in the same state. */
  lemma {:induction false} AdvanceInPieces(s: ClockState, durations: seq<Interval>)
    requires Intervals(s.tickers) && durations != [] && forall i | 0 <= i < |durations| :: durations[i] >= 0
    ensures Sum(durations) >= 0 && AdvancedAll(s, durations) == Advanced(s, Sum(durations))
    decreases |durations|
  {
    var rest := durations[1..];
    if rest == [] {
      assert Sum(durations) == durations[0];
      assert AdvancedAll(s, durations) == AdvancedAll(Advanced(s, durations[0]), rest);
    } else {
      AdvanceInPieces(Advanced(s, durations[0]), rest);
      AdvanceTwice(s, durations[0], Sum(rest));
    }
  }

  // ---- the objects --------------------------------------------------------------------------------------

  class Timer {
    const clock: Clock
    var channel: Option<Instant>
    var deadline: Instant
    var isActive: bool

    constructor (clock: Clock, deadline: Instant, isActive: bool)
      ensures this.clock == clock && State() == TimerState(deadline, isActive, None)
    {
      this.clock, this.deadline, this.isActive, this.channel := clock, deadline, isActive, None;
    }

    /** Drains the slot and sets a new deadline. */
    method Arm(deadline: Instant, isActive: bool)
      modifies this
      ensures State() == TimerState(deadline, isActive, None)
    {
      channel, this.deadline, this.isActive := None, deadline, isActive;
    }

    function State(): TimerState
      reads this
    {
      TimerState(deadline, isActive, channel)
    }

    method Stop() returns (wasActive: bool)
      requires clock.Valid() && this in clock.allTimers
      modifies this, clock`timers
      ensures clock.Valid()
      ensures wasActive == old(isActive)
      ensures clock.State() ==
          old(clock.State()).(timers := old(clock.State()).timers[this := old(State()).(isActive := false)])
    {
      hide LeastAfter;
      wasActive := isActive;
      isActive := false;
      clock.timers := clock.timers - {this};
    }

    method Reset(duration: Interval) returns (wasActive: bool)
      requires clock.Valid() && this in clock.allTimers
      modifies this, clock`timers
      ensures clock.Valid()
      ensures wasActive == old(isActive)
      ensures clock.State() == old(clock.State()).(timers :=
        old(clock.State()).timers[this := TimerState(clock.now + duration, !clock.isDone, None)])
    {
      hide LeastAfter;
      wasActive := isActive;
      Arm(clock.now + duration, !clock.isDone);
      if isActive {
        clock.timers := clock.timers + {this};
      }
    }
  }

  class Ticker {
    const clock: Clock
    var channel: Option<Instant>
    var next: Instant
    var interval: Interval
    var isActive: bool
    /** The instant of creation or of the last reset: the ticker's phase. */
    ghost var anchor: Instant

    constructor (clock: Clock, interval: Interval, now: Instant, isActive: bool)
      ensures this.clock == clock && State() == TickerState(now + interval, interval, isActive, None) && anchor == now
    {
      this.clock, this.interval, this.next, this.isActive, this.channel :=
          clock, interval, now + interval, isActive, None;
      anchor := now;
    }

    /** Drains the slot and restarts the phase at now. */
    method Arm(interval: Interval, now: Instant, isActive: bool)
      modifies this
      ensures State() == TickerState(now + interval, interval, isActive, None) && anchor == now
    {
      channel, this.interval, next, this.isActive := None, interval, now + interval, isActive;
      anchor := now;
    }

    function State(): TickerState
      reads this
    {
      TickerState(next, interval, isActive, channel)
    }

    method Stop()
      requires clock.Valid() && this in clock.allTickers
      modifies this, clock`tickers
      ensures clock.Valid() && forall k | k in clock.allTickers :: k.anchor == old(k.anchor)
      ensures clock.State() ==
          old(clock.State()).(tickers := old(clock.State()).tickers[this := old(State()).(isActive := false)])
    {
      hide LeastAfter;
      isActive := false;
      clock.tickers := clock.tickers - {this};
    }

    method Reset(interval: Interval)
      requires clock.Valid() && this in clock.allTickers && interval > 0
      modifies this, clock`tickers
      ensures clock.Valid() && anchor == clock.now
      ensures forall k | k in clock.allTickers && k != this :: k.anchor == old(k.anchor)
      ensures clock.State() == old(clock.State()).(tickers :=
        old(clock.State()).tickers[this := TickerState(clock.now + interval, interval, !clock.isDone, None)])
    {
      hide LeastAfter;
      FirstTick(clock.now, interval);
      Arm(interval, clock.now, !clock.isDone);
      if isActive {
        clock.tickers := clock.tickers + {this};
      }
    }
  }

  class Clock {
    var now: Instant
    var timers: set<Timer>
    var tickers: set<Ticker>
    var isDone: bool
    /** Every timer and ticker ever made by this clock, registered or not. */
    ghost var allTimers: set<Timer>
    ghost var allTickers: set<Ticker>

    /** A timer is registered exactly when it is active. */
    ghost predicate TimersValid()
      reads this`timers, this`allTimers, allTimers
    {
      timers <= allTimers && forall t | t in allTimers :: t.clock == this && (t in timers <==> t.isActive)
    }

    /** A ticker is registered exactly when it is active, and is then due at its least coming tick. */
    ghost predicate TickersValid(at: Instant)
      reads this`tickers, this`allTickers, allTickers
    {
      && tickers <= allTickers
      && (forall k | k in allTickers :: k.clock == this && (k in tickers <==> k.isActive) && k.interval > 0)
      && (forall k | k in tickers :: LeastAfter(k.next, at, k.anchor, k.interval))
    }

    ghost predicate Valid()
      reads this, allTimers, allTickers
    {
      TimersValid() && TickersValid(now) && (isDone ==> timers == {} && tickers == {})
    }

    ghost function TimerStates(): map<Timer, TimerState>
      reads this`allTimers, allTimers
    {
      map t | t in allTimers :: t.State()
    }

    ghost function TickerStates(): map<Ticker, TickerState>
      reads this`allTickers, allTickers
    {
      map k | k in allTickers :: k.State()
    }

    ghost function State(): ClockState
      reads this, allTimers, allTickers
    {
      ClockState(now, isDone, TimerStates(), TickerStates())
    }

    constructor (start: Instant)
      ensures Valid() && State() == ClockState(start, false, map[], map[])
    {
      now, timers, tickers, isDone, allTimers, allTickers := start, {}, {}, false, {}, {};
    }

    method NewTimer(duration: Interval) returns (timer: Timer)
      requires Valid()
      modifies this`timers, this`allTimers
      ensures Valid() && fresh(timer) && allTimers == old(allTimers) + {timer}
      ensures State() ==
          old(State()).(timers := old(State()).timers[timer := TimerState(now + duration, !isDone, None)])
    {
      hide LeastAfter;
      timer := new Timer(this, now + duration, !isDone);
      if timer.isActive {
        timers := timers + {timer};
      }
      allTimers := allTimers + {timer};
    }

    method NewTicker(interval: Interval) returns (ticker: Ticker)
      requires Valid() && interval > 0
      modifies this`tickers, this`allTickers
      ensures Valid() && fresh(ticker) && allTickers == old(allTickers) + {ticker} && ticker.anchor == now
      ensures State() ==
          old(State()).(tickers := old(State()).tickers[ticker := TickerState(now + interval, interval, !isDone, None)])
    {
      hide LeastAfter;
      FirstTick(now, interval);
      ticker := new Ticker(this, interval, now, !isDone);
      if ticker.isActive {
        tickers := tickers + {ticker};
      }
      allTickers := allTickers + {ticker};
    }

    method FireTimers()
      requires TimersValid()
      modifies this`timers, timers
      ensures TimersValid() && TimerStates() == FiredAll(old(TimerStates()), now)
    {
      var pending := timers;
      while pending != {}
        invariant pending <= timers && TimersValid()
        invariant forall t | t in allTimers ::
            t.State() == if t in pending then old(t.State()) else Fired(old(t.State()), now)
      {
        var timer :| timer in pending;
        pending := pending - {timer};
        if timer.isActive && !(now < timer.deadline) {
          if timer.channel.None? {
            timer.channel := Some(timer.deadline);
          }
          timer.isActive := false;
          timers := timers - {timer};
        }
      }
    }

    method TickTickers(ghost before: Instant)
      requires TickersValid(before) && before <= now
      modifies tickers
      ensures TickersValid(now) && TickerStates() == TickedAll(old(TickerStates()), now)
      ensures forall k | k in allTickers :: k.anchor == old(k.anchor)
    {
      hide LeastAfter;
      var pending := tickers;
      while pending != {}
        invariant pending <= tickers
        invariant forall k | k in allTickers :: k.anchor == old(k.anchor)
        invariant forall k | k in allTickers ::
            k.State() == if k in pending then old(k.State()) else Ticked(old(k.State()), now)
      {
        var ticker :| ticker in pending;
        pending := pending - {ticker};
        if ticker.isActive && !(now < ticker.next) {
          if ticker.channel.None? {
            ticker.channel := Some(ticker.next);
          }
          var elapsed := now - ticker.next;
          var remainder := elapsed % ticker.interval;
          ticker.next := now + (ticker.interval - remainder);
        }
      }
      forall k | k in tickers ensures LeastAfter(k.next, now, k.anchor, k.interval) {
        TickedLeast(old(k.State()), before, now, k.anchor);
      }
    }

    method Advance(duration: Interval)
      requires Valid() && duration >= 0
      modifies this`now, this`timers, timers, tickers
      ensures Valid() && allTimers == old(allTimers) && allTickers == old(allTickers)
      ensures State() == Advanced(old(State()), duration)
      ensures forall k | k in allTickers :: k.anchor == old(k.anchor)
    {
      hide LeastAfter, Ticked, Fired, TimerStates, TickerStates;
      if isDone {
        return;
      }
      now := now + duration;
      FireTimers();
      TickTickers(old(now));
    }

    method SilenceTimers()
      requires TimersValid()
      modifies this`timers, timers
      ensures TimersValid() && timers == {} && TimerStates() == SilencedTimers(old(TimerStates()))
    {
      var pending := timers;
      while pending != {}
        invariant pending <= timers == old(timers)
        invariant forall t | t in allTimers ::
            t.State() == if t in pending then old(t.State()) else old(t.State()).(isActive := false)
      {
        var timer :| timer in pending;
        pending := pending - {timer};
        timer.isActive := false;
      }
      timers := {};
    }

    method SilenceTickers()
      requires TickersValid(now)
      modifies this`tickers, tickers
      ensures TickersValid(now) && tickers == {} && TickerStates() == SilencedTickers(old(TickerStates()))
      ensures forall k | k in allTickers :: k.anchor == old(k.anchor)
    {
      hide LeastAfter;
      var pending := tickers;
      while pending != {}
        invariant pending <= tickers == old(tickers)
        invariant forall k | k in allTickers :: k.anchor == old(k.anchor)
        invariant forall k | k in allTickers ::
            k.State() == if k in pending then old(k.State()) else old(k.State()).(isActive := false)
      {
        var ticker :| ticker in pending;
        pending := pending - {ticker};
        ticker.isActive := false;
      }
      tickers := {};
    }

    method StopAll()
      requires Valid()
      modifies this`isDone, this`timers, this`tickers, timers, tickers
      ensures Valid() && isDone && allTimers == old(allTimers) && allTickers == old(allTickers)
      ensures State() == Stopped(old(State()))
      ensures forall k | k in allTickers :: k.anchor == old(k.anchor)
    {
      hide TimerStates, TickerStates, SilencedTimers, SilencedTickers;
      isDone := true;
      SilenceTimers();
      SilenceTickers();
    }
  }
}
