/**
 * The click / double-click detector of the clock window (`DoubleClicker` in
 * src/clock.rs). It watches left-button presses and releases and reports a
 * `Click` when a release follows a press quickly enough, and a `DoubleClick`
 * when such a click also comes soon enough after the previous click.
 *
 * `ClickerState` is the value of a detector and `Recorded` / `Updated` are its
 * transitions; the class `DoubleClicker` holds the same fields and updates them
 * in place, each method proved equal to the transition on its state.
 */
module ClickDetector {
  import opened Wrappers
  import opened WinitEvents

  /** Longest press-to-release time of a click, exclusive. */
  const PressReleaseMillis: nat := 115
  /** Longest click-to-click time of a double click, exclusive. */
  const BetweenClicksMillis: nat := 500
  /** How far before its creation a fresh detector dates its last press. */
  const InitialPressLeadMillis: nat := 50

  datatype ClickEvent = DoubleClick | Click

  datatype ClickerState = ClickerState(
    betweenPressedReleased: nat,
    betweenClicks: nat,
    prevClick: Instant,
    prevPressed: Instant,
    prevReleased: Instant)
  {
    /** `is_click`: the last release came after the last press, and within the threshold. */
    predicate IsClick() {
      if prevPressed < prevReleased then prevPressed + betweenPressedReleased > prevReleased else false
    }

    /** `is_double_click`: the previous click is less than `betweenClicks` before `now`. */
    predicate IsDoubleClick(now: Instant) {
      prevClick + betweenClicks > now
    }

    /** No recorded instant lies after `now` (the clock is monotonic). */
    predicate NotAfter(now: Instant) {
      prevClick <= now && prevPressed <= now && prevReleased <= now
    }
  }

  /** `DoubleClicker::default()`, created at instant `t0`. */
  function Initial(t0: Instant): (s: ClickerState)
    ensures s.betweenPressedReleased == PressReleaseMillis && s.betweenClicks == BetweenClicksMillis
    ensures s.prevPressed < s.prevReleased && s.prevReleased == s.prevClick == t0
    ensures s.NotAfter(t0)
  {
    ClickerState(PressReleaseMillis, BetweenClicksMillis, t0, t0 - InitialPressLeadMillis, t0)
  }

  predicate IsLeftMouse(e: Event) {
    e.Window? && e.windowEvent.MouseInput? && e.windowEvent.button == Left
  }

  function LeftPress(): Event { Window(MouseInput(Left, Pressed)) }
  function LeftRelease(): Event { Window(MouseInput(Left, Released)) }

  /**
   * `handle_event`: a left press or release stamps its instant and is reported
   * as handled; every other event leaves the state alone.
   */
  function Recorded(s: ClickerState, e: Event, now: Instant): (ClickerState, bool)
  {
    match e
    case Window(MouseInput(Left, Pressed)) => (s.(prevPressed := now), true)
    case Window(MouseInput(Left, Released)) => (s.(prevReleased := now), true)
    case _ => (s, false)
  }

  /**
   * `update`: record the event, and when it completes a click classify it
   * against the previous click and make it the new previous click.
   */
  function Updated(s: ClickerState, e: Event, now: Instant): (r: (ClickerState, Option<ClickEvent>))
    ensures r.0.betweenPressedReleased == s.betweenPressedReleased
    ensures r.0.betweenClicks == s.betweenClicks
  {
    var (s1, handled) := Recorded(s, e, now);
    if handled && s1.IsClick() then
      var kind := if s1.IsDoubleClick(now) then DoubleClick else Click;
      (s1.(prevClick := now), Some(kind))
    else
      (s1, None)
  }

  /** A left press never completes a click, whatever came before it. */
  lemma PressNeverClicks(s: ClickerState, now: Instant)
    requires s.NotAfter(now)
    ensures Updated(s, LeftPress(), now) == (s.(prevPressed := now), None)
  {
  }

  /**
   * A left release is a click exactly when the last press came before it and
   * less than the press-release threshold before it.
   */
  lemma ReleaseClicksIff(s: ClickerState, now: Instant)
    ensures Updated(s, LeftRelease(), now).0.prevReleased == now
    ensures Updated(s, LeftRelease(), now).0.prevPressed == s.prevPressed
    ensures Updated(s, LeftRelease(), now).1.Some?
        <==> s.prevPressed < now && now - s.prevPressed < s.betweenPressedReleased
  {
  }

  /**
   * A recognised click is a double click exactly when it comes less than the
   * click-click threshold after the previous click; in both cases it becomes
   * the previous click. Without a click the previous click stays.
   */
  lemma ClickKindAndStamp(s: ClickerState, e: Event, now: Instant)
    ensures var (s', r) := Updated(s, e, now);
      && (r.Some? ==> s'.prevClick == now && (r.value == DoubleClick <==> now < s.prevClick + s.betweenClicks))
      && (r.None? ==> s'.prevClick == s.prevClick)
  {
  }

  /** Anything other than a left-button event yields nothing and changes nothing. */
  lemma OtherEventsInert(s: ClickerState, e: Event, now: Instant)
    requires !IsLeftMouse(e)
    ensures Updated(s, e, now) == (s, None)
  {
  }

  /** The outcomes of a stream of events, each handled at its own instant. */
  function Classify(s: ClickerState, evs: seq<TimedEvent>): (r: (ClickerState, seq<Option<ClickEvent>>))
    ensures |r.1| == |evs|
    decreases |evs|
  {
    if evs == [] then (s, [])
    else
      var (s1, o) := Updated(s, evs[0].event, evs[0].at);
      var (s2, os) := Classify(s1, evs[1..]);
      (s2, [o] + os)
  }

  /** The thresholds of a detector never change, whatever events it sees. */
  lemma {:induction false} ThresholdsFixed(t0: Instant, evs: seq<TimedEvent>)
    ensures Classify(Initial(t0), evs).0.betweenPressedReleased == PressReleaseMillis
    ensures Classify(Initial(t0), evs).0.betweenClicks == BetweenClicksMillis
  {
    ThresholdsKept(Initial(t0), evs);
  }

  lemma {:induction false} ThresholdsKept(s: ClickerState, evs: seq<TimedEvent>)
    ensures Classify(s, evs).0.betweenPressedReleased == s.betweenPressedReleased
    ensures Classify(s, evs).0.betweenClicks == s.betweenClicks
    decreases |evs|
  {
    if evs != [] {
      ThresholdsKept(Updated(s, evs[0].event, evs[0].at).0, evs[1..]);
    }
  }

  /** Events handled in chronological order keep every recorded instant in the past. */
  lemma {:induction false} StaysNotAfter(s: ClickerState, evs: seq<TimedEvent>, now: Instant)
    requires evs != [] ==> s.NotAfter(evs[0].at)
    requires forall i :: 0 <= i < |evs| - 1 ==> evs[i].at <= evs[i + 1].at
    requires s.NotAfter(now) && forall i :: 0 <= i < |evs| ==> evs[i].at <= now
    ensures Classify(s, evs).0.NotAfter(now)
    decreases |evs|
  {
    if evs != [] {
      var s1 := Updated(s, evs[0].event, evs[0].at).0;
      assert s1.NotAfter(evs[0].at);
      StaysNotAfter(s1, evs[1..], now);
    }
  }

  /**
   * A release before any press, on a fresh detector created at `t0`, is taken
   * for a click exactly when it comes less than 65 ms after `t0`, and such a
   * click is always a double click.
   */
  lemma FreshRelease(t0: Instant, now: Instant)
    requires t0 <= now
    ensures Updated(Initial(t0), LeftRelease(), now).1.Some? <==> now < t0 + 65
    ensures now < t0 + 65 ==> Updated(Initial(t0), LeftRelease(), now).1 == Some(DoubleClick)
  {
  }

  /**
   * Two quick clicks 300 ms apart make a click then a double click; the same
   * clicks 600 ms apart make two single clicks.
   */
  lemma TwoClicks(t0: Instant)
    ensures Classify(Initial(t0), QuickClicks(t0 + 1000, 300)).1 == [None, Some(Click), None, Some(DoubleClick)]
    ensures Classify(Initial(t0), QuickClicks(t0 + 1000, 600)).1 == [None, Some(Click), None, Some(Click)]
  {
    QuickClicksOutcome(t0, 300);
    QuickClicksOutcome(t0, 600);
  }

  lemma QuickClicksOutcome(t0: Instant, gap: nat)
    requires 50 <= gap
    ensures Classify(Initial(t0), QuickClicks(t0 + 1000, gap)).1
         == [None, Some(Click), None, Some(if gap < 500 then DoubleClick else Click)]
  {
    var evs := QuickClicks(t0 + 1000, gap);
    var s0 := Initial(t0);
    var s1 := Updated(s0, evs[0].event, evs[0].at).0;
    var s2 := Updated(s1, evs[1].event, evs[1].at).0;
    var s3 := Updated(s2, evs[2].event, evs[2].at).0;
    assert s2.prevClick == t0 + 1050;
    assert Classify(s3, evs[3..]).1 == [Some(if gap < 500 then DoubleClick else Click)];
    assert Classify(s2, evs[2..]).1 == [None, Some(if gap < 500 then DoubleClick else Click)] by {
      assert evs[2..][1..] == evs[3..];
    }
    assert Classify(s1, evs[1..]).1 == [Some(Click), None, Some(if gap < 500 then DoubleClick else Click)] by {
      assert evs[1..][1..] == evs[2..];
    }
  }

  /** Two 50 ms press-release pairs whose releases are `gap` apart, starting at `t`. */
  function QuickClicks(t: Instant, gap: nat): seq<TimedEvent>
  {
    [TimedEvent(t, LeftPress()), TimedEvent(t + 50, LeftRelease()),
     TimedEvent(t + gap, LeftPress()), TimedEvent(t + gap + 50, LeftRelease())]
  }

  /**
   * `DoubleClicker`: the detector as the window thread owns it, a struct whose
   * methods update its three timestamps in place; its thresholds are never written.
   */
  class DoubleClicker {
    var betweenPressedReleased: nat
    var betweenClicks: nat
    var prevClick: Instant
    var prevPressed: Instant
    var prevReleased: Instant

    function State(): ClickerState
      reads this
    {
      ClickerState(betweenPressedReleased, betweenClicks, prevClick, prevPressed, prevReleased)
    }

    /** `DoubleClicker::default()` at instant `t0`. */
    constructor Default(t0: Instant)
      ensures State() == Initial(t0)
    {
      betweenPressedReleased := PressReleaseMillis;
      betweenClicks := BetweenClicksMillis;
      prevClick := t0;
      prevPressed := t0 - InitialPressLeadMillis;
      prevReleased := t0;
    }

    /** `handle_event`: stamps a left press or release with `now`. */
    method HandleEvent(e: Event, now: Instant) returns (handled: bool)
      modifies this`prevPressed, this`prevReleased
      ensures (State(), handled) == Recorded(old(State()), e, now)
    {
      handled := false;
      match e {
        case Window(MouseInput(Left, Pressed)) =>
          prevPressed := now;
          handled := true;
        case Window(MouseInput(Left, Released)) =>
          prevReleased := now;
          handled := true;
        case _ =>
      }
    }

    /** `update`: classifies `e` as a click, a double click or nothing. */
    method Update(e: Event, now: Instant) returns (r: Option<ClickEvent>)
      modifies this`prevPressed, this`prevReleased, this`prevClick
      ensures (State(), r) == Updated(old(State()), e, now)
    {
      var handled := HandleEvent(e, now);
      r := None;
      if handled {
        if State().IsClick() {
          var kind := if State().IsDoubleClick(now) then DoubleClick else Click;
          prevClick := now;
          r := Some(kind);
        }
      }
    }
  }
}
