/**
 * The manual slider of app.js (`Sliders.setupManual`): a cursor `current`
 * over `len` slides, moved by the previous/next buttons, the arrow keys and
 * the dots. Out-of-range targets are ignored, so the cursor clamps at both
 * ends, and the boundary button is disabled there.
 */
module ManualSlider {
  import opened Marks

  /** Horizontal offset of the slide strip, in percent (`translateX(-current * 100%)`). */
  function StripOffset(current: int): int {
    -current * 100
  }

  /** The cursor after `goTo(index)`: unchanged unless `0 <= index < len`. */
  function GoToTarget(len: nat, current: int, index: int): int {
    if index < 0 || index >= len then current else index
  }

  /** The user events the slider listens to. */
  datatype Event = PrevClick | NextClick | KeyDown(key: string) | DotClick(dot: nat)

  /**
   * The cursor after one event. The button listeners exist only when the
   * buttons do; a dot exists for every slide and calls `goTo` with its index.
   */
  function Step(len: nat, hasPrev: bool, hasNext: bool, current: int, e: Event): int {
    match e
    case PrevClick => if hasPrev then GoToTarget(len, current, current - 1) else current
    case NextClick => if hasNext then GoToTarget(len, current, current + 1) else current
    case KeyDown(key) =>
      if key == "ArrowLeft" then GoToTarget(len, current, current - 1)
      else if key == "ArrowRight" then GoToTarget(len, current, current + 1)
      else current
    case DotClick(i) => GoToTarget(len, current, i)
  }

  /** The cursor after a sequence of events. */
  function Run(len: nat, hasPrev: bool, hasNext: bool, current: int, events: seq<Event>): int
    decreases |events|
  {
    if events == [] then current
    else Run(len, hasPrev, hasNext, Step(len, hasPrev, hasNext, current, events[0]), events[1..])
  }

  /** `goTo` keeps a cursor in range, and moves it exactly when the target is in range. */
  lemma GoToKeepsRange(len: nat, current: int, index: int)
    requires 0 <= current < len
    ensures 0 <= GoToTarget(len, current, index) < len
    ensures GoToTarget(len, current, index) != current ==> GoToTarget(len, current, index) == index
  {
  }

  /** Each event moves the cursor by at most one slide, except a dot click. */
  lemma StepMovesAtMostOne(len: nat, hasPrev: bool, hasNext: bool, current: int, e: Event)
    requires !e.DotClick?
    ensures -1 <= Step(len, hasPrev, hasNext, current, e) - current <= 1
  {
  }

  /** Starting in range, no sequence of events takes the cursor out of `[0, len-1]`. */
  lemma {:induction false} RunStaysInRange(len: nat, hasPrev: bool, hasNext: bool, current: int, events: seq<Event>)
    requires 0 <= current < len
    ensures 0 <= Run(len, hasPrev, hasNext, current, events) < len
    decreases |events|
  {
    if events != [] {
      var next := Step(len, hasPrev, hasNext, current, events[0]);
      match events[0] {
        case PrevClick => GoToKeepsRange(len, current, current - 1);
        case NextClick => GoToKeepsRange(len, current, current + 1);
        case KeyDown(_) =>
          GoToKeepsRange(len, current, current - 1);
          GoToKeepsRange(len, current, current + 1);
        case DotClick(i) => GoToKeepsRange(len, current, i);
      }
      RunStaysInRange(len, hasPrev, hasNext, next, events[1..]);
    }
  }

  /** Clamping: "previous" on the first slide and "next" on the last leave the cursor in place. */
  lemma ClampsAtEnds(len: nat, hasPrev: bool, hasNext: bool)
    requires len > 0
    ensures Step(len, hasPrev, hasNext, 0, PrevClick) == 0
    ensures Step(len, hasPrev, hasNext, 0, KeyDown("ArrowLeft")) == 0
    ensures Step(len, hasPrev, hasNext, len - 1, NextClick) == len - 1
    ensures Step(len, hasPrev, hasNext, len - 1, KeyDown("ArrowRight")) == len - 1
  {
  }

  /**
   * One manual slider. `dots` holds the `active` class of each dot;
   * `prevDisabled`/`nextDisabled` the `disabled` property of the buttons,
   * meaningful only when the button exists.
   */
  class Slider {
    const len: nat
    const hasPrev: bool
    const hasNext: bool
    const dots: array<bool>
    var current: int
    var offset: int
    var prevDisabled: bool
    var nextDisabled: bool

    /** The view shows `current`: what `update()` establishes. */
    ghost predicate Rendered()
      reads this, dots
    {
      && dots.Length == len
      && offset == StripOffset(current)
      && dots[..] == MarkAt(len, current)
      && (hasPrev ==> prevDisabled == (current == 0))
      && (hasNext ==> nextDisabled == (current == len - 1))
    }

    ghost predicate Valid()
      reads this, dots
    {
      0 <= current < len && Rendered()
    }

    /** Creates the dots and shows slide 0; `setupManual` bails out before this when there is no slide. */
    constructor (len: nat, hasPrev: bool, hasNext: bool)
      requires len > 0
      ensures Valid() && fresh(dots)
      ensures this.len == len && this.hasPrev == hasPrev && this.hasNext == hasNext
      ensures current == 0
    {
      this.len := len;
      this.hasPrev := hasPrev;
      this.hasNext := hasNext;
      dots := new bool[len];
      current := 0;
      new;
      Update();
    }

    /** `update()`: derives the strip offset, the active dot and the button states from `current`. */
    method Update()
      requires dots.Length == len
      modifies this, dots
      ensures current == old(current) && Rendered()
    {
      offset := StripOffset(current);
      var i := 0;
      while i < dots.Length
        invariant 0 <= i <= dots.Length
        invariant forall j :: 0 <= j < i ==> dots[j] == (j == current)
        modifies dots
      {
        dots[i] := i == current;
        i := i + 1;
      }
      assert dots[..] == MarkAt(len, current);
      if hasPrev {
        prevDisabled := current == 0;
      }
      if hasNext {
        nextDisabled := current == len - 1;
      }
    }

    /** `goTo(index)`: ignored when out of range, otherwise moves the cursor and re-renders. */
    method GoTo(index: int)
      requires Valid()
      modifies this, dots
      ensures Valid()
      ensures current == GoToTarget(len, old(current), index)
      ensures index < 0 || index >= len ==> unchanged(this, dots)
    {
      if index < 0 || index >= len {
        return;
      }
      current := index;
      Update();
    }

    /** Dispatches one user event to the listener registered for it. */
    method Handle(e: Event)
      requires Valid()
      modifies this, dots
      ensures Valid()
      ensures current == Step(len, hasPrev, hasNext, old(current), e)
    {
      match e
      case PrevClick =>
        if hasPrev {
          GoTo(current - 1);
        }
      case NextClick =>
        if hasNext {
          GoTo(current + 1);
        }
      case KeyDown(key) =>
        if key == "ArrowLeft" {
          GoTo(current - 1);
        }
        if key == "ArrowRight" {
          GoTo(current + 1);
        }
      case DotClick(i) =>
        GoTo(i);
    }
  }

  /**
   * `setupManual`: no slider when the strip, the dots container or every
   * slide is missing; otherwise a slider showing slide 0.
   */
  method Setup(hasWrapper: bool, len: nat, hasDotsContainer: bool, hasPrev: bool, hasNext: bool)
    returns (s: Slider?)
    ensures s == null <==> !hasWrapper || len == 0 || !hasDotsContainer
    ensures s != null ==> fresh(s) && fresh(s.dots) && s.Valid() && s.current == 0 && s.len == len
    ensures s != null ==> s.hasPrev == hasPrev && s.hasNext == hasNext
  {
    if !hasWrapper || len == 0 || !hasDotsContainer {
      return null;
    }
    s := new Slider(len, hasPrev, hasNext);
  }

  /** Once rendered, prev is disabled iff on the first slide, next iff on the last, and exactly one dot is active. */
  lemma {:induction false} RenderedView(s: Slider)
    requires s.Valid()
    ensures s.hasPrev ==> (s.prevDisabled <==> s.current == 0)
    ensures s.hasNext ==> (s.nextDisabled <==> s.current == s.len - 1)
    ensures CountMarked(s.dots[..]) == 1 && s.dots[s.current]
    ensures forall i :: 0 <= i < s.dots.Length ==> (s.dots[i] <==> i == s.current)
  {
    ExactlyOneMarked(s.len, s.current);
    assert s.dots[..][s.current];
  }
}
