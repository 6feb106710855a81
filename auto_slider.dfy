/**
 * The automatic slider of app.js (`Sliders.setupAuto`): an index over the
 * slides advanced by a repeating interval timer, `(i + 1) % n` on every
 * tick, paused while the pointer is over the slider and restarted by a
 * dot click. Time is a sequence of discrete interval ticks.
 */
module AutoSlider {
  import opened Wrappers
  import opened Marks
  import opened Modular

  /** The default interval of `setupAuto`, in milliseconds. */
  const DefaultInterval: nat := 3000

  /** `nextSlide`: the index after one tick over `slideCount` slides. */
  function Advance(slideCount: nat, index: int): int
    requires slideCount > 0
  {
    (index + 1) % slideCount
  }

  /** The two observable parts of the controller: the index and whether a timer is set. */
  datatype State = State(index: int, running: bool)

  /** The events the slider reacts to: an interval tick, the pointer, a dot. */
  datatype Event = Tick | MouseEnter | MouseLeave | DotClick(dot: nat)

  /** The state right after setup: `showSlide(0); start()`. */
  const Initial: State := State(0, true)

  /** One event: a tick advances only while running; a dot click is stop, show, start. */
  function Step(slideCount: nat, s: State, e: Event): State
    requires slideCount > 0
  {
    match e
    case Tick => if s.running then s.(index := Advance(slideCount, s.index)) else s
    case MouseEnter => s.(running := false)
    case MouseLeave => s.(running := true)
    case DotClick(j) => State(j, true)
  }

  /** The state after a sequence of events. */
  function Run(slideCount: nat, s: State, events: seq<Event>): State
    requires slideCount > 0
    decreases |events|
  {
    if events == [] then s else Run(slideCount, Step(slideCount, s, events[0]), events[1..])
  }

  /** `k` ticks and nothing else. */
  function Ticks(k: nat): (r: seq<Event>)
    ensures |r| == k && forall i :: 0 <= i < k ==> r[i] == Tick
  {
    seq(k, _ => Tick)
  }

  /** While running, `k` ticks from index `i` in range land on `(i + k) % n`. */
  lemma {:induction false} TicksAdvanceModulo(slideCount: nat, i: int, k: nat)
    requires 0 <= i < slideCount
    ensures Run(slideCount, State(i, true), Ticks(k)) == State((i + k) % slideCount, true)
    decreases k
  {
    if k > 0 {
      assert Ticks(k)[1..] == Ticks(k - 1);
      var next := Advance(slideCount, i);
      TicksAdvanceModulo(slideCount, next, k - 1);
      ModAddLeft(i + 1, k - 1, slideCount);
    }
  }

  /** From setup, `k` uninterrupted ticks show slide `k mod n`. */
  lemma {:induction false} TicksFromSetup(slideCount: nat, k: nat)
    requires slideCount > 0
    ensures Run(slideCount, Initial, Ticks(k)) == State(k % slideCount, true)
  {
    TicksAdvanceModulo(slideCount, 0, k);
  }

  /** Three slides, 3000 ms interval, 9000 ms without interaction: back on slide 0. */
  lemma ThreeSlidesNineSeconds()
    ensures Run(3, Initial, Ticks(9000 / DefaultInterval)) == State(0, true)
  {
    TicksFromSetup(3, 3);
  }

  /** The timer control rules: start and stop are idempotent, hover pauses, leave and dot clicks resume. */
  lemma TimerRules(slideCount: nat, s: State, j: nat)
    requires slideCount > 0
    ensures Step(slideCount, Step(slideCount, s, MouseEnter), MouseEnter) == Step(slideCount, s, MouseEnter)
    ensures Step(slideCount, Step(slideCount, s, MouseLeave), MouseLeave) == Step(slideCount, s, MouseLeave)
    ensures !Step(slideCount, s, MouseEnter).running && Step(slideCount, s, MouseEnter).index == s.index
    ensures Step(slideCount, s, MouseLeave).running && Step(slideCount, s, MouseLeave).index == s.index
    ensures Step(slideCount, s, DotClick(j)) == State(j, true)
  {
  }

  /** Pause on hover: while stopped, ticks and further pointer-enters change nothing. */
  lemma {:induction false} PausedStaysPut(slideCount: nat, s: State, events: seq<Event>)
    requires slideCount > 0 && !s.running
    requires forall i :: 0 <= i < |events| ==> events[i] == Tick || events[i] == MouseEnter
    ensures Run(slideCount, s, events) == s
    decreases |events|
  {
    if events != [] {
      PausedStaysPut(slideCount, Step(slideCount, s, events[0]), events[1..]);
    }
  }

  /**
   * The index stays below the larger of the slide and dot counts; a dot
   * click can show an index past the last slide when the markup has more
   * dots than slides, and the next tick wraps it back.
   */
  lemma {:induction false} RunStaysInRange(slideCount: nat, dotCount: nat, s: State, events: seq<Event>)
    requires slideCount > 0
    requires 0 <= s.index < slideCount || 0 <= s.index < dotCount
    requires forall i :: 0 <= i < |events| && events[i].DotClick? ==> events[i].dot < dotCount
    ensures var r := Run(slideCount, s, events);
      0 <= r.index < slideCount || 0 <= r.index < dotCount
    ensures dotCount <= slideCount ==> 0 <= Run(slideCount, s, events).index < slideCount
    decreases |events|
  {
    if events != [] {
      RunStaysInRange(slideCount, dotCount, Step(slideCount, s, events[0]), events[1..]);
    }
  }

  /**
   * One automatic slider. `visible` is the opacity of each slide (1 or 0),
   * `dotActive` the `active` class of each dot; `live` is the set of interval
   * timers the browser runs for this slider and `timerId` the one it remembers.
   */
  class Slider {
    const slideCount: nat
    const dotCount: nat
    const interval: int
    const visible: array<bool>
    const dotActive: array<bool>
    var currentIndex: int
    var timerId: Option<nat>
    var live: set<nat>
    var nextTimerId: nat

    /** At most one timer runs, and it is the one `timerId` holds: no leak, no duplicate. */
    ghost predicate TimerInvariant()
      reads this
    {
      && live == (if timerId.Some? then {timerId.value} else {})
      && nextTimerId > 0
      && forall t :: t in live ==> 0 < t < nextTimerId
    }

    ghost predicate Shown()
      reads this, visible, dotActive
    {
      && visible.Length == slideCount && dotActive.Length == dotCount
      && visible[..] == MarkAt(slideCount, currentIndex)
      && dotActive[..] == MarkAt(dotCount, currentIndex)
    }

    ghost predicate Valid()
      reads this, visible, dotActive
    {
      && slideCount > 0 && visible != dotActive
      && (0 <= currentIndex < slideCount || 0 <= currentIndex < dotCount)
      && Shown() && TimerInvariant()
    }

    /** The abstract state the pure model steps. */
    ghost function Abstract(): State
      reads this
    {
      State(currentIndex, timerId.Some?)
    }

    /** `showSlide(0); start()`. `setupAuto` does not guard against a slider without slides. */
    constructor (slideCount: nat, dotCount: nat, interval: int)
      requires slideCount > 0
      ensures Valid() && fresh(visible) && fresh(dotActive)
      ensures this.slideCount == slideCount && this.dotCount == dotCount && this.interval == interval
      ensures Abstract() == Initial && |live| == 1
    {
      this.slideCount := slideCount;
      this.dotCount := dotCount;
      this.interval := interval;
      visible := new bool[slideCount];
      dotActive := new bool[dotCount];
      currentIndex := 0;
      timerId := None;
      live := {};
      nextTimerId := 1;
      new;
      ShowSlide(0);
      Start();
    }

    /** `showSlide(index)`: records the index, shows only that slide and activates only that dot. */
    method ShowSlide(index: int)
      requires visible.Length == slideCount && dotActive.Length == dotCount && visible != dotActive
      modifies this`currentIndex, visible, dotActive
      ensures currentIndex == index && Shown()
    {
      currentIndex := index;
      var i := 0;
      while i < visible.Length
        invariant 0 <= i <= visible.Length
        invariant forall j :: 0 <= j < i ==> visible[j] == (j == currentIndex)
        modifies visible
      {
        visible[i] := i == currentIndex;
        i := i + 1;
      }
      i := 0;
      while i < dotActive.Length
        invariant 0 <= i <= dotActive.Length
        invariant forall j :: 0 <= j < i ==> dotActive[j] == (j == currentIndex)
        invariant visible[..] == MarkAt(slideCount, currentIndex)
        modifies dotActive
      {
        dotActive[i] := i == currentIndex;
        i := i + 1;
      }
      assert dotActive[..] == MarkAt(dotCount, currentIndex);
    }

    /** `start()`: sets an interval only when none is remembered. */
    method Start()
      requires TimerInvariant()
      modifies this`timerId, this`live, this`nextTimerId
      ensures TimerInvariant() && timerId.Some? && |live| == 1
      ensures old(timerId).Some? ==> timerId == old(timerId) && live == old(live)
      ensures old(timerId).None? ==> timerId == Some(old(nextTimerId)) && live == old(live) + {old(nextTimerId)}
      ensures nextTimerId >= old(nextTimerId)
    {
      if timerId.None? {
        timerId := Some(nextTimerId);
        live := live + {nextTimerId};
        nextTimerId := nextTimerId + 1;
      }
    }

    /** `stop()`: clears the remembered interval (if any) and forgets it. */
    method Stop()
      requires TimerInvariant()
      modifies this`timerId, this`live
      ensures TimerInvariant() && timerId.None? && live == {}
    {
      if timerId.Some? {
        live := live - {timerId.value};
      }
      timerId := None;
    }

    /** The interval fires: `nextSlide()` when a timer is live, nothing otherwise. */
    method Tick()
      requires Valid()
      modifies this, visible, dotActive
      ensures Valid() && Abstract() == Step(slideCount, old(Abstract()), Event.Tick)
      ensures timerId == old(timerId) && live == old(live)
    {
      if live != {} {
        ShowSlide((currentIndex + 1) % slideCount);
      }
    }

    /** Pointer enters the slider: `stop`. */
    method MouseEnter()
      requires Valid()
      modifies this
      ensures Valid() && Abstract() == Step(slideCount, old(Abstract()), Event.MouseEnter)
      ensures live == {}
    {
      Stop();
    }

    /** Pointer leaves the slider: `start`. */
    method MouseLeave()
      requires Valid()
      modifies this
      ensures Valid() && Abstract() == Step(slideCount, old(Abstract()), Event.MouseLeave)
      ensures |live| == 1
      ensures old(timerId).Some? ==> timerId == old(timerId) && live == old(live)
    {
      Start();
    }

    /** A click on dot `j`: `stop(); showSlide(j); start()`, so the interval restarts from zero. */
    method DotClick(j: nat)
      requires Valid() && j < dotCount
      modifies this, visible, dotActive
      ensures Valid() && Abstract() == Step(slideCount, old(Abstract()), Event.DotClick(j))
      ensures |live| == 1 && live !! old(live)
    {
      Stop();
      ShowSlide(j);
      Start();
    }
  }

  /** `setupAuto`: nothing when the root selector matches no element. */
  method Setup(rootFound: bool, slideCount: nat, dotCount: nat, interval: Option<int>)
    returns (s: Slider?)
    requires rootFound ==> slideCount > 0
    ensures s == null <==> !rootFound
    ensures s != null ==> fresh(s) && s.Valid() && s.Abstract() == Initial
    ensures s != null ==> s.interval == interval.GetOr(DefaultInterval)
    ensures s != null ==> s.slideCount == slideCount && s.dotCount == dotCount && |s.live| == 1
  {
    if !rootFound {
      return null;
    }
    s := new Slider(slideCount, dotCount, interval.GetOr(DefaultInterval));
  }
}
