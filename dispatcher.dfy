/**
 * The window thread's main loop (`main` in src/clock.rs): every pass it sends a
 * `Redraw` heartbeat when more than half a second has gone by, polls the pending
 * window events (running each through the click detector, forwarding its
 * conversion to the worker thread and reacting to close, resize and fullscreen
 * keys), draws only the newest frame the worker has produced, and sleeps out the
 * rest of the 250 ms poll interval.
 *
 * `Iteration` and `RunN` are the loop as values; `MainLoop` is the loop itself
 * over the same locals as the source, proved to compute `RunN`.
 */
module Dispatcher {
  import opened Wrappers
  import opened WinitEvents
  import opened ClickDetector

  /** A `Redraw` goes out when strictly more than this has passed since the last one. */
  const HeartbeatMillis: nat := 500
  /** `POLL_RATE`: the target spacing of the loop's passes. */
  const PollRateMillis: nat := 250

  /**
   * The heartbeat rule: whether to send `Redraw` at `now`, and the new value of
   * `prev`, the instant of the last heartbeat.
   */
  function Heartbeat(prev: Instant, now: Instant): (r: (bool, Instant))
    ensures r.0 <==> now > prev + HeartbeatMillis
    ensures r.1 == if r.0 then now else prev
  {
    if Since(now, prev) > HeartbeatMillis then (true, now) else (false, prev)
  }

  /**
   * The pacing rule: the time to sleep after a pass that measured `elapsed`.
   * The sleep never exceeds the poll interval, and with the measured time it
   * always covers at least one interval.
   */
  function PacingSleep(elapsed: nat): (d: nat)
    ensures d <= PollRateMillis
    ensures elapsed + d >= PollRateMillis
    ensures elapsed >= PollRateMillis ==> d == 0
  {
    if elapsed < PollRateMillis then PollRateMillis - elapsed else 0
  }

  /** A close request, or any keyboard event whose key is Escape, pressed or released. */
  predicate IsCloseEvent(e: Event) {
    match e
    case Window(CloseRequested) => true
    case Window(KeyboardInput(Some(Escape), _)) => true
    case _ => false
  }

  /** Releasing the F key toggles fullscreen. */
  predicate IsFullscreenKey(e: Event) {
    e == Window(KeyboardInput(Some(F), Released))
  }

  /** One pass of the loop as the environment presents it. */
  datatype Pass = Pass(
    now: Instant,               // read at the top of the pass
    events: seq<TimedEvent>,    // what `poll_events` hands over, in order
    arrived: seq<Frame>,        // frames the worker sent since the previous pass
    resumed: Instant)           // read into `last_update` at the bottom of the pass

  /** The loop's locals, the two channel ends it uses, and the window's fullscreen flag. */
  datatype LoopState = LoopState(
    clicker: ClickerState,
    prev: Instant,
    lastUpdate: Instant,
    closed: bool,
    fullscreen: bool,
    sent: seq<Input>,           // everything sent on the event channel so far
    pending: seq<Frame>,        // frames waiting in the render channel
    drawn: seq<Frame>,          // frames drawn so far, in order
    sleeps: seq<nat>)           // the sleep of every finished pass

  /** The state before the first pass, for a window created at `t0`. */
  function Start(t0: Instant): LoopState {
    LoopState(Initial(t0), t0, t0, false, false, [], [], [], [])
  }

  /** The body of the `poll_events` closure, for one event. */
  function HandleWindowEvent(s: LoopState, te: TimedEvent, convert: Event -> Option<Input>): LoopState
  {
    var (c, click) := Updated(s.clicker, te.event, te.at);
    var s1 := s.(
      clicker := c,
      fullscreen := if click == Some(DoubleClick) then !s.fullscreen else s.fullscreen,
      sent := match convert(te.event) case Some(x) => s.sent + [x] case None => s.sent);
    if IsCloseEvent(te.event) then s1.(closed := true)
    else if te.event == Window(Resized) then
      if s1.pending == [] then s1
      else s1.(drawn := s1.drawn + [s1.pending[0]], pending := s1.pending[1..])
    else if IsFullscreenKey(te.event) then s1.(fullscreen := !s1.fullscreen)
    else s1
  }

  /** `poll_events`: the closure applied to every pending event in order. */
  function Poll(s: LoopState, evs: seq<TimedEvent>, convert: Event -> Option<Input>): LoopState
    decreases |evs|
  {
    if evs == [] then s
    else HandleWindowEvent(Poll(s, evs[..|evs| - 1], convert), evs[|evs| - 1], convert)
  }

  /** The top of a pass: the heartbeat, and the frames that reached the render channel. */
  function Beat(s: LoopState, now: Instant, arrived: seq<Frame>): LoopState
  {
    var (send, prev) := Heartbeat(s.prev, now);
    s.(sent := if send then s.sent + [Redraw] else s.sent, prev := prev, pending := s.pending + arrived)
  }

  /**
   * The bottom of a pass: draw the newest waiting frame, empty the render
   * channel, sleep out the poll interval measured from `last_update` to `now`,
   * and take the new `last_update`.
   */
  function Finish(s: LoopState, now: Instant, resumed: Instant): LoopState
  {
    s.(drawn := if s.pending == [] then s.drawn else s.drawn + [s.pending[|s.pending| - 1]],
       pending := [],
       sleeps := s.sleeps + [PacingSleep(Since(now, s.lastUpdate))],
       lastUpdate := resumed)
  }

  /** One pass of `while !closed`. */
  function Iteration(s: LoopState, p: Pass, convert: Event -> Option<Input>): LoopState
  {
    Finish(Poll(Beat(s, p.now, p.arrived), p.events, convert), p.now, p.resumed)
  }

  /** The state after the first `n` passes; passes after the one that closed are not run. */
  function RunN(s0: LoopState, passes: seq<Pass>, n: nat, convert: Event -> Option<Input>): LoopState
    requires n <= |passes|
  {
    if n == 0 then s0
    else
      var s := RunN(s0, passes, n - 1, convert);
      if s.closed then s else Iteration(s, passes[n - 1], convert)
  }

  /**
   * `render_rx.try_iter().last()`: takes every frame waiting in the channel and
   * keeps the newest; the channel is empty afterwards.
   */
  method DrainToLast(queue: seq<Frame>) returns (last: Option<Frame>, rest: seq<Frame>)
    ensures rest == []
    ensures last.None? <==> queue == []
    ensures last.Some? ==> last.value == queue[|queue| - 1]
  {
    last, rest := None, queue;
    while rest != []
      invariant |rest| <= |queue| && rest == queue[|queue| - |rest|..]
      invariant last.None? <==> |rest| == |queue|
      invariant last.Some? ==> last.value == queue[|queue| - |rest| - 1]
      decreases |rest|
    {
      last := Some(rest[0]);
      rest := rest[1..];
    }
  }

  /**
   * The `poll_events` closure for one event: the locals it captures are passed
   * in and handed back.
   */
  method OnEvent(d: DoubleClicker, te: TimedEvent, convert: Event -> Option<Input>,
                 closed: bool, fullscreen: bool, sent: seq<Input>, pending: seq<Frame>, drawn: seq<Frame>)
    returns (closed': bool, fullscreen': bool, sent': seq<Input>, pending': seq<Frame>, drawn': seq<Frame>)
    modifies d`prevPressed, d`prevReleased, d`prevClick
    ensures forall prev, lastUpdate, sleeps ::
      LoopState(d.State(), prev, lastUpdate, closed', fullscreen', sent', pending', drawn', sleeps)
      == HandleWindowEvent(LoopState(old(d.State()), prev, lastUpdate, closed, fullscreen, sent, pending, drawn, sleeps), te, convert)
  {
    closed', fullscreen', sent', pending', drawn' := closed, fullscreen, sent, pending, drawn;
    var click := d.Update(te.event, te.at);
    if click == Some(DoubleClick) {
      fullscreen' := !fullscreen';
    }
    match convert(te.event) {
      case Some(x) => sent' := sent' + [x];
      case None =>
    }
    if IsCloseEvent(te.event) {
      closed' := true;
    } else if te.event == Window(Resized) {
      if pending' != [] {
        drawn' := drawn' + [pending'[0]];
        pending' := pending'[1..];
      }
    } else if IsFullscreenKey(te.event) {
      fullscreen' := !fullscreen';
    }
  }

  /** `poll_events`: the closure run on every pending event in order. */
  method PollEvents(d: DoubleClicker, evs: seq<TimedEvent>, convert: Event -> Option<Input>,
                    closed: bool, fullscreen: bool, sent: seq<Input>, pending: seq<Frame>, drawn: seq<Frame>)
    returns (closed': bool, fullscreen': bool, sent': seq<Input>, pending': seq<Frame>, drawn': seq<Frame>)
    modifies d`prevPressed, d`prevReleased, d`prevClick
    ensures forall prev, lastUpdate, sleeps ::
      LoopState(d.State(), prev, lastUpdate, closed', fullscreen', sent', pending', drawn', sleeps)
      == Poll(LoopState(old(d.State()), prev, lastUpdate, closed, fullscreen, sent, pending, drawn, sleeps), evs, convert)
  {
    closed', fullscreen', sent', pending', drawn' := closed, fullscreen, sent, pending, drawn;
    var j := 0;
    while j < |evs|
      invariant j <= |evs|
      invariant forall prev, lastUpdate, sleeps ::
        LoopState(d.State(), prev, lastUpdate, closed', fullscreen', sent', pending', drawn', sleeps)
        == Poll(LoopState(old(d.State()), prev, lastUpdate, closed, fullscreen, sent, pending, drawn, sleeps), evs[..j], convert)
    {
      closed', fullscreen', sent', pending', drawn' := OnEvent(d, evs[j], convert, closed', fullscreen', sent', pending', drawn');
      assert evs[..j + 1][..j] == evs[..j];
      j := j + 1;
    }
    assert evs[..j] == evs;
  }

  /** One pass of `while !closed`, over the loop's locals. */
  method RunPass(d: DoubleClicker, p: Pass, convert: Event -> Option<Input>,
                 prev: Instant, lastUpdate: Instant, closed: bool, fullscreen: bool,
                 sent: seq<Input>, pending: seq<Frame>, drawn: seq<Frame>, sleeps: seq<nat>)
    returns (prev': Instant, lastUpdate': Instant, closed': bool, fullscreen': bool,
             sent': seq<Input>, pending': seq<Frame>, drawn': seq<Frame>, sleeps': seq<nat>)
    modifies d`prevPressed, d`prevReleased, d`prevClick
    ensures LoopState(d.State(), prev', lastUpdate', closed', fullscreen', sent', pending', drawn', sleeps')
         == Iteration(LoopState(old(d.State()), prev, lastUpdate, closed, fullscreen, sent, pending, drawn, sleeps), p, convert)
  {
    ghost var before := LoopState(d.State(), prev, lastUpdate, closed, fullscreen, sent, pending, drawn, sleeps);
    prev', lastUpdate', sent', pending', drawn', sleeps' := prev, lastUpdate, sent, pending, drawn, sleeps;
    var now := p.now;
    if Since(now, prev') > HeartbeatMillis {
      sent' := sent' + [Redraw];
      prev' := now;
    }
    pending' := pending' + p.arrived;
    ghost var beat := LoopState(d.State(), prev', lastUpdate', closed, fullscreen, sent', pending', drawn', sleeps');
    assert beat == Beat(before, now, p.arrived);
    closed', fullscreen', sent', pending', drawn' :=
      PollEvents(d, p.events, convert, closed, fullscreen, sent', pending', drawn');
    ghost var polled := LoopState(d.State(), prev', lastUpdate', closed', fullscreen', sent', pending', drawn', sleeps');
    assert polled == Poll(beat, p.events, convert);
    var latest;
    latest, pending' := DrainToLast(pending');
    if latest.Some? {
      drawn' := drawn' + [latest.value];
    }
    assert drawn' == Finish(polled, now, p.resumed).drawn;
    var elapsed := Since(now, lastUpdate');
    var sleep := 0;
    if elapsed < PollRateMillis {
      sleep := PollRateMillis - elapsed;
    }
    assert sleep == PacingSleep(Since(now, polled.lastUpdate));
    sleeps' := sleeps' + [sleep];
    lastUpdate' := p.resumed;
    assert LoopState(d.State(), prev', lastUpdate', closed', fullscreen', sent', pending', drawn', sleeps')
        == Finish(polled, now, p.resumed);
  }

  /** The main loop, run over the passes the environment provides (at most `|passes|`). */
  method MainLoop(t0: Instant, passes: seq<Pass>, convert: Event -> Option<Input>)
    returns (final: LoopState, iterations: nat)
    ensures final == RunN(Start(t0), passes, |passes|, convert)
    ensures iterations <= |passes| && final == RunN(Start(t0), passes, iterations, convert)
    ensures iterations < |passes| ==> final.closed
  {
    var d := new DoubleClicker.Default(t0);
    var closed, fullscreen := false, false;
    var prev, lastUpdate := t0, t0;
    var sent: seq<Input>, pending: seq<Frame>, drawn: seq<Frame>, sleeps: seq<nat> := [], [], [], [];
    var i := 0;
    while !closed && i < |passes|
      invariant i <= |passes|
      invariant LoopState(d.State(), prev, lastUpdate, closed, fullscreen, sent, pending, drawn, sleeps)
             == RunN(Start(t0), passes, i, convert)
    {
      prev, lastUpdate, closed, fullscreen, sent, pending, drawn, sleeps :=
        RunPass(d, passes[i], convert, prev, lastUpdate, closed, fullscreen, sent, pending, drawn, sleeps);
      i := i + 1;
    }
    final := LoopState(d.State(), prev, lastUpdate, closed, fullscreen, sent, pending, drawn, sleeps);
    iterations := i;
    ClosedRunStays(Start(t0), passes, i, |passes|, convert);
  }

  /** Once a pass has closed the loop, no later pass changes anything. */
  lemma {:induction false} ClosedRunStays(s0: LoopState, passes: seq<Pass>, k: nat, n: nat, convert: Event -> Option<Input>)
    requires k <= n <= |passes|
    requires RunN(s0, passes, k, convert).closed || k == n
    ensures RunN(s0, passes, n, convert) == RunN(s0, passes, k, convert)
    decreases n - k
  {
    if k < n {
      ClosedRunStays(s0, passes, k, n - 1, convert);
      var s := RunN(s0, passes, n - 1, convert);
      assert s.closed;
      assert RunN(s0, passes, n, convert) == s;
    }
  }

  /** The inputs that `poll_events` forwards for `evs`: every conversion that succeeds, in order. */
  function Forwarded(evs: seq<TimedEvent>, convert: Event -> Option<Input>): seq<Input>
    decreases |evs|
  {
    if evs == [] then []
    else
      var rest := Forwarded(evs[..|evs| - 1], convert);
      match convert(evs[|evs| - 1].event)
      case Some(x) => rest + [x]
      case None => rest
  }

  predicate HasClose(evs: seq<TimedEvent>) {
    exists i :: 0 <= i < |evs| && IsCloseEvent(evs[i].event)
  }

  predicate HasResize(evs: seq<TimedEvent>) {
    exists i :: 0 <= i < |evs| && evs[i].event == Window(Resized)
  }

  /** What handling one event does to the parts of the state the later lemmas follow. */
  lemma HandleWindowEventEffects(s: LoopState, te: TimedEvent, convert: Event -> Option<Input>)
    ensures var s' := HandleWindowEvent(s, te, convert);
      && s'.sent == s.sent + (match convert(te.event) case Some(x) => [x] case None => [])
      && (s'.closed <==> s.closed || IsCloseEvent(te.event))
      && s'.prev == s.prev && s'.lastUpdate == s.lastUpdate && s'.sleeps == s.sleeps
      && (te.event != Window(Resized) ==> s'.pending == s.pending && s'.drawn == s.drawn)
  {
  }

  /**
   * Polling forwards exactly the converted events, in order, close events
   * included; it raises the termination flag exactly when one of them is a
   * close request or an Escape key event; and it never touches the heartbeat
   * or pacing clocks.
   */
  lemma {:induction false} PollForwardsAndCloses(s: LoopState, evs: seq<TimedEvent>, convert: Event -> Option<Input>)
    ensures Poll(s, evs, convert).sent == s.sent + Forwarded(evs, convert)
    ensures Poll(s, evs, convert).closed <==> s.closed || HasClose(evs)
    ensures Poll(s, evs, convert).prev == s.prev && Poll(s, evs, convert).lastUpdate == s.lastUpdate
    ensures Poll(s, evs, convert).sleeps == s.sleeps
    decreases |evs|
  {
    if evs != [] {
      var init, e := evs[..|evs| - 1], evs[|evs| - 1];
      PollForwardsAndCloses(s, init, convert);
      HandleWindowEventEffects(Poll(s, init, convert), e, convert);
      assert HasClose(evs) <==> HasClose(init) || IsCloseEvent(e.event) by {
        assert forall i :: 0 <= i < |init| ==> init[i] == evs[i];
      }
    }
  }

  /** Without a resize, polling neither draws nor takes frames from the render channel. */
  lemma {:induction false} PollKeepsFrames(s: LoopState, evs: seq<TimedEvent>, convert: Event -> Option<Input>)
    requires !HasResize(evs)
    ensures Poll(s, evs, convert).pending == s.pending && Poll(s, evs, convert).drawn == s.drawn
    decreases |evs|
  {
    if evs != [] {
      var init, e := evs[..|evs| - 1], evs[|evs| - 1];
      assert forall i :: 0 <= i < |init| ==> init[i] == evs[i];
      PollKeepsFrames(s, init, convert);
      HandleWindowEventEffects(Poll(s, init, convert), e, convert);
    }
  }

  /**
   * What one pass sends to the worker: a `Redraw` first when strictly more
   * than 500 ms have passed since the last one (and then `prev` becomes `now`),
   * followed by the pass's converted events in order.
   */
  lemma IterationSends(s: LoopState, p: Pass, convert: Event -> Option<Input>)
    ensures Iteration(s, p, convert).sent
         == s.sent + (if Since(p.now, s.prev) > HeartbeatMillis then [Redraw] else []) + Forwarded(p.events, convert)
    ensures Iteration(s, p, convert).prev == if Since(p.now, s.prev) > HeartbeatMillis then p.now else s.prev
  {
    PollForwardsAndCloses(Beat(s, p.now, p.arrived), p.events, convert);
  }

  /**
   * Drain-to-latest: in a pass without a resize, of all the frames waiting in
   * the render channel only the newest is drawn, the rest are dropped, and the
   * channel is empty afterwards.
   */
  lemma IterationDrawsNewest(s: LoopState, p: Pass, convert: Event -> Option<Input>)
    requires !HasResize(p.events)
    ensures var q := s.pending + p.arrived;
      && Iteration(s, p, convert).pending == []
      && Iteration(s, p, convert).drawn == s.drawn + (if q == [] then [] else [q[|q| - 1]])
  {
    PollKeepsFrames(Beat(s, p.now, p.arrived), p.events, convert);
  }

  /**
   * The pass sleeps for what is left of the poll interval after the time from
   * the previous pass's `last_update` to this pass's `now`, and never more than
   * the interval.
   */
  lemma IterationSleeps(s: LoopState, p: Pass, convert: Event -> Option<Input>)
    requires s.lastUpdate <= p.now
    ensures var sl := Iteration(s, p, convert).sleeps;
      && |sl| == |s.sleeps| + 1 && sl[..|s.sleeps|] == s.sleeps
      && sl[|s.sleeps|] <= PollRateMillis
      && (p.now - s.lastUpdate < PollRateMillis ==> sl[|s.sleeps|] == PollRateMillis - (p.now - s.lastUpdate))
      && Iteration(s, p, convert).lastUpdate == p.resumed
  {
    PollForwardsAndCloses(Beat(s, p.now, p.arrived), p.events, convert);
  }

  /** A pass leaves the loop closed exactly when it held a close event. */
  lemma IterationCloses(s: LoopState, p: Pass, convert: Event -> Option<Input>)
    ensures Iteration(s, p, convert).closed <==> s.closed || HasClose(p.events)
  {
    PollForwardsAndCloses(Beat(s, p.now, p.arrived), p.events, convert);
  }

  /** The loop is closed after `n` passes exactly when one of them held a close event. */
  lemma {:induction false} RunClosesAtFirstClose(t0: Instant, passes: seq<Pass>, n: nat, convert: Event -> Option<Input>)
    requires n <= |passes|
    ensures RunN(Start(t0), passes, n, convert).closed <==> exists k :: 0 <= k < n && HasClose(passes[k].events)
  {
    if n > 0 {
      RunClosesAtFirstClose(t0, passes, n - 1, convert);
      var s := RunN(Start(t0), passes, n - 1, convert);
      var s' := RunN(Start(t0), passes, n, convert);
      if s.closed {
        assert s' == s;
        var k :| 0 <= k < n - 1 && HasClose(passes[k].events);
      } else {
        assert s' == Iteration(s, passes[n - 1], convert);
        IterationCloses(s, passes[n - 1], convert);
        assert s'.closed <==> HasClose(passes[n - 1].events);
      }
    }
  }

  /**
   * The pass holding the first close event is the last pass that runs: the
   * loop is still open before it, closed after it, and later passes change nothing.
   */
  lemma LastPassIsFirstClosing(t0: Instant, passes: seq<Pass>, k: nat, n: nat, convert: Event -> Option<Input>)
    requires k < n <= |passes| && HasClose(passes[k].events)
    requires forall j :: 0 <= j < k ==> !HasClose(passes[j].events)
    ensures !RunN(Start(t0), passes, k, convert).closed
    ensures RunN(Start(t0), passes, k + 1, convert).closed
    ensures RunN(Start(t0), passes, n, convert) == RunN(Start(t0), passes, k + 1, convert)
  {
    StillOpen(t0, passes, k, convert);
    RunStep(Start(t0), passes, k + 1, convert);
    IterationCloses(RunN(Start(t0), passes, k, convert), passes[k], convert);
    ClosedRunStays(Start(t0), passes, k + 1, n, convert);
  }

  /**
   * A resize draws the oldest frame waiting in the render channel and takes it
   * out of the channel; with no frame waiting it draws nothing.
   */
  lemma ResizeDrawsOldest(s: LoopState, at: Instant, convert: Event -> Option<Input>)
    ensures var s' := HandleWindowEvent(s, TimedEvent(at, Window(Resized)), convert);
      && (s.pending != [] ==> s'.drawn == s.drawn + [s.pending[0]] && s'.pending == s.pending[1..])
      && (s.pending == [] ==> s'.drawn == s.drawn && s'.pending == [])
      && s'.closed == s.closed
  {
    OtherEventsInert(s.clicker, Window(Resized), at);
  }

  /**
   * Fullscreen flips on an event exactly when the detector reports a double
   * click for it or it is an F key release (no event is both).
   */
  lemma FullscreenToggles(s: LoopState, te: TimedEvent, convert: Event -> Option<Input>)
    ensures HandleWindowEvent(s, te, convert).fullscreen != s.fullscreen
        <==> Updated(s.clicker, te.event, te.at).1 == Some(DoubleClick) || IsFullscreenKey(te.event)
  {
    if IsFullscreenKey(te.event) {
      OtherEventsInert(s.clicker, te.event, te.at);
    }
  }

  /** The instants at which an idle loop sampling the clock at `nows` sends a heartbeat. */
  function HeartbeatTimes(prev: Instant, nows: seq<Instant>): (r: seq<Instant>)
    decreases |nows|
  {
    if nows == [] then []
    else
      var beat := Heartbeat(prev, nows[0]);
      (if beat.0 then [nows[0]] else []) + HeartbeatTimes(beat.1, nows[1..])
  }

  /** Samples in order, each at most `g` after the one before (the first after `from`). */
  predicate Paced(from: Instant, nows: seq<Instant>, g: nat) {
    && (nows != [] ==> from <= nows[0] <= from + g)
    && forall i :: 0 < i < |nows| ==> nows[i - 1] <= nows[i] <= nows[i - 1] + g
  }

  /**
   * Heartbeats are strictly more than 500 ms apart, and when the loop samples
   * the clock at most `g` ms apart they are at most `500 + g` ms apart.
   */
  lemma {:induction false} HeartbeatSpacing(prev: Instant, last: Instant, nows: seq<Instant>, g: nat)
    requires prev <= last <= prev + HeartbeatMillis
    requires Paced(last, nows, g)
    ensures var r := HeartbeatTimes(prev, nows);
      && (r != [] ==> prev + HeartbeatMillis < r[0] <= prev + HeartbeatMillis + g)
      && Spaced(r, g)
    decreases |nows|
  {
    if nows != [] {
      var t, rest := nows[0], nows[1..];
      PacedTail(last, nows, g);
      var r := HeartbeatTimes(prev, nows);
      if Since(t, prev) > HeartbeatMillis {
        var r' := HeartbeatTimes(t, rest);
        HeartbeatSpacing(t, t, rest, g);
        assert r == [t] + r';
        SpacedCons(t, r', g);
      } else {
        HeartbeatSpacing(prev, t, rest, g);
        assert r == HeartbeatTimes(prev, rest);
      }
    }
  }

  predicate Spaced(r: seq<Instant>, g: nat) {
    forall i :: 0 <= i < |r| - 1 ==> r[i] + HeartbeatMillis < r[i + 1] <= r[i] + HeartbeatMillis + g
  }

  lemma SpacedCons(t: Instant, r: seq<Instant>, g: nat)
    requires Spaced(r, g) && (r != [] ==> t + HeartbeatMillis < r[0] <= t + HeartbeatMillis + g)
    ensures Spaced([t] + r, g)
  {
    var r' := [t] + r;
    forall i | 0 < i < |r'| - 1
      ensures r'[i] + HeartbeatMillis < r'[i + 1] <= r'[i] + HeartbeatMillis + g
    {
      assert r'[i] == r[i - 1] && r'[i + 1] == r[i];
    }
  }

  lemma PacedTail(last: Instant, nows: seq<Instant>, g: nat)
    requires nows != [] && Paced(last, nows, g)
    ensures last <= nows[0] <= last + g && Paced(nows[0], nows[1..], g)
  {
    var rest := nows[1..];
    if |nows| > 1 {
      assert rest[0] == nows[1];
    }
    forall i | 0 < i < |rest|
      ensures rest[i - 1] <= rest[i] <= rest[i - 1] + g
    {
      assert rest[i] == nows[i + 1] && rest[i - 1] == nows[i];
    }
  }

  /**
   * The boundary case of the strict rule: clock readings exactly 250 ms apart
   * after a heartbeat at `t` give heartbeats only at `t + 750` and `t + 1500`.
   * The loop's own readings are further apart than that (see `EverySecondPass`).
   */
  lemma IdleTwoSeconds(t: Instant)
    ensures HeartbeatTimes(t, [t + 250, t + 500, t + 750, t + 1000, t + 1250, t + 1500, t + 1750, t + 2000])
         == [t + 750, t + 1500]
  {
    var nows := [t + 250, t + 500, t + 750, t + 1000, t + 1250, t + 1500, t + 1750, t + 2000];
    assert HeartbeatTimes(t + 1500, nows[7..]) == [];
    assert HeartbeatTimes(t + 1500, nows[6..]) == [];
    assert HeartbeatTimes(t + 750, nows[5..]) == [t + 1500];
    assert HeartbeatTimes(t + 750, nows[4..]) == [t + 1500];
    assert HeartbeatTimes(t + 750, nows[3..]) == [t + 1500];
    assert HeartbeatTimes(t, nows[2..]) == [t + 750, t + 1500];
    assert HeartbeatTimes(t, nows[1..]) == [t + 750, t + 1500];
  }

  /** The value `prev` holds after an idle loop sampled the clock at `nows`. */
  function BeatPrev(prev: Instant, nows: seq<Instant>): Instant
    decreases |nows|
  {
    if nows == [] then prev else BeatPrev(Heartbeat(prev, nows[0]).1, nows[1..])
  }

  /** Sampling once more adds that sample to the heartbeats exactly when the heartbeat rule fires. */
  lemma {:induction false} HeartbeatSnoc(prev: Instant, nows: seq<Instant>, x: Instant)
    ensures BeatPrev(prev, nows + [x]) == Heartbeat(BeatPrev(prev, nows), x).1
    ensures HeartbeatTimes(prev, nows + [x])
         == HeartbeatTimes(prev, nows) + (if Heartbeat(BeatPrev(prev, nows), x).0 then [x] else [])
    decreases |nows|
  {
    if nows != [] {
      var beat := Heartbeat(prev, nows[0]);
      assert (nows + [x])[1..] == nows[1..] + [x];
      HeartbeatSnoc(beat.1, nows[1..], x);
    }
  }

  /** The instants at which the passes read the clock. */
  function PassTimes(passes: seq<Pass>): (nows: seq<Instant>)
    ensures |nows| == |passes| && forall i :: 0 <= i < |passes| ==> nows[i] == passes[i].now
  {
    seq(|passes|, i requires 0 <= i < |passes| => passes[i].now)
  }

  /** How many heartbeats a sequence of sent inputs holds. */
  function RedrawCount(sent: seq<Input>): nat
    decreases |sent|
  {
    if sent == [] then 0
    else RedrawCount(sent[..|sent| - 1]) + (if sent[|sent| - 1] == Redraw then 1 else 0)
  }

  lemma {:induction false} RedrawCountAppend(a: seq<Input>, b: seq<Input>)
    ensures RedrawCount(a + b) == RedrawCount(a) + RedrawCount(b)
    decreases |b|
  {
    if b != [] {
      assert (a + b)[..|a + b| - 1] == a + b[..|b| - 1];
      assert (a + b)[|a + b| - 1] == b[|b| - 1];
      RedrawCountAppend(a, b[..|b| - 1]);
    } else {
      assert a + b == a;
    }
  }

  /** Forwarded conversions hold no heartbeat when the conversion never yields one. */
  lemma {:induction false} ForwardedHasNoRedraw(evs: seq<TimedEvent>, convert: Event -> Option<Input>)
    requires forall e :: convert(e) != Some(Redraw)
    ensures RedrawCount(Forwarded(evs, convert)) == 0
    decreases |evs|
  {
    if evs != [] {
      var init := evs[..|evs| - 1];
      ForwardedHasNoRedraw(init, convert);
      match convert(evs[|evs| - 1].event)
      case Some(x) => RedrawCountAppend(Forwarded(init, convert), [x]);
      case None =>
    }
  }

  /**
   * One pass moves `prev` by the heartbeat rule and sends one heartbeat
   * `Redraw` exactly when it fires, besides any `Redraw` the event conversion yields.
   */
  lemma IterationHeartbeat(s: LoopState, p: Pass, convert: Event -> Option<Input>)
    ensures Iteration(s, p, convert).prev == Heartbeat(s.prev, p.now).1
    ensures RedrawCount(Iteration(s, p, convert).sent)
         == RedrawCount(s.sent) + (if Heartbeat(s.prev, p.now).0 then 1 else 0)
            + RedrawCount(Forwarded(p.events, convert))
  {
    IterationSends(s, p, convert);
    var beat: seq<Input> := if Since(p.now, s.prev) > HeartbeatMillis then [Redraw] else [];
    RedrawCountAppend(s.sent, beat);
    RedrawCountAppend(s.sent + beat, Forwarded(p.events, convert));
    assert RedrawCount(beat) == if Heartbeat(s.prev, p.now).0 then 1 else 0 by {
      assert RedrawCount([Redraw]) == RedrawCount([]) + 1;
    }
  }

  /** The `Redraw`s that the event conversion itself yields in the first `n` passes. */
  function ConvertedRedraws(passes: seq<Pass>, n: nat, convert: Event -> Option<Input>): nat
    requires n <= |passes|
  {
    if n == 0 then 0
    else ConvertedRedraws(passes, n - 1, convert) + RedrawCount(Forwarded(passes[n - 1].events, convert))
  }

  /** A conversion that never yields `Redraw` contributes none. */
  lemma {:induction false} NoConvertedRedraws(passes: seq<Pass>, n: nat, convert: Event -> Option<Input>)
    requires n <= |passes|
    requires forall e :: convert(e) != Some(Redraw)
    ensures ConvertedRedraws(passes, n, convert) == 0
  {
    if n > 0 {
      NoConvertedRedraws(passes, n - 1, convert);
      ForwardedHasNoRedraw(passes[n - 1].events, convert);
    }
  }

  /**
   * The loop's heartbeats are the idle heartbeats of its clock readings: while
   * it runs, `prev` follows `BeatPrev` over the passes' `now`, and the `Redraw`s
   * sent are one per instant of `HeartbeatTimes` plus those the event
   * conversion yields (none, when it never yields `Redraw`), so
   * `HeartbeatSpacing` and `EverySecondPass` apply to the loop.
   */
  lemma RunHeartbeats(t0: Instant, passes: seq<Pass>, n: nat, convert: Event -> Option<Input>)
    requires n <= |passes|
    requires forall k :: 0 <= k < n - 1 ==> !HasClose(passes[k].events)
    ensures RunN(Start(t0), passes, n, convert).prev == BeatPrev(t0, PassTimes(passes[..n]))
    ensures RedrawCount(RunN(Start(t0), passes, n, convert).sent)
         == |HeartbeatTimes(t0, PassTimes(passes[..n]))| + ConvertedRedraws(passes, n, convert)
  {
    forall m | 0 <= m < n
      ensures !RunN(Start(t0), passes, m, convert).closed
    {
      StillOpen(t0, passes, m, convert);
    }
    HeartbeatsWhileOpen(Start(t0), passes, n, convert);
  }

  /** `RunHeartbeats` from any state, for passes that all start open. */
  lemma {:induction false} HeartbeatsWhileOpen(s0: LoopState, passes: seq<Pass>, n: nat, convert: Event -> Option<Input>)
    requires n <= |passes|
    requires forall m :: 0 <= m < n ==> !RunN(s0, passes, m, convert).closed
    ensures RunN(s0, passes, n, convert).prev == BeatPrev(s0.prev, PassTimes(passes[..n]))
    ensures RedrawCount(RunN(s0, passes, n, convert).sent)
         == RedrawCount(s0.sent) + |HeartbeatTimes(s0.prev, PassTimes(passes[..n]))| + ConvertedRedraws(passes, n, convert)
  {
    if n == 0 {
      assert PassTimes(passes[..0]) == [];
    } else {
      HeartbeatsWhileOpen(s0, passes, n - 1, convert);
      RunStep(s0, passes, n, convert);
      IterationHeartbeat(RunN(s0, passes, n - 1, convert), passes[n - 1], convert);
      PassTimesStep(passes, n);
      HeartbeatSnoc(s0.prev, PassTimes(passes[..n - 1]), passes[n - 1].now);
    }
  }

  /** Passes without a close event leave the loop open. */
  lemma StillOpen(t0: Instant, passes: seq<Pass>, m: nat, convert: Event -> Option<Input>)
    requires m <= |passes|
    requires forall k :: 0 <= k < m ==> !HasClose(passes[k].events)
    ensures !RunN(Start(t0), passes, m, convert).closed
  {
    RunClosesAtFirstClose(t0, passes, m, convert);
  }

  /** The pass after an open state is one full iteration. */
  lemma RunStep(s0: LoopState, passes: seq<Pass>, n: nat, convert: Event -> Option<Input>)
    requires 0 < n <= |passes| && !RunN(s0, passes, n - 1, convert).closed
    ensures RunN(s0, passes, n, convert) == Iteration(RunN(s0, passes, n - 1, convert), passes[n - 1], convert)
  {
  }

  lemma PassTimesStep(passes: seq<Pass>, n: nat)
    requires 0 < n <= |passes|
    ensures PassTimes(passes[..n]) == PassTimes(passes[..n - 1]) + [passes[n - 1].now]
  {
  }

  /** Every second sample, starting with the second. */
  function EverySecond(nows: seq<Instant>): (r: seq<Instant>)
    ensures |r| == |nows| / 2
    decreases |nows|
  {
    if |nows| < 2 then [] else [nows[1]] + EverySecond(nows[2..])
  }

  /** Samples more than 250 and at most 500 ms apart, the first that far after `from`. */
  predicate GapsAbovePollRate(from: Instant, nows: seq<Instant>) {
    && (nows != [] ==> from + PollRateMillis < nows[0] <= from + HeartbeatMillis)
    && forall i :: 0 < i < |nows| ==> nows[i - 1] + PollRateMillis < nows[i] <= nows[i - 1] + HeartbeatMillis
  }

  /**
   * When the clock readings are more than 250 ms apart, as the loop's are once
   * its work comes on top of the paced sleep, and at most 500 ms apart, the
   * heartbeat fires on every second reading after the last heartbeat: a little
   * more than 500 ms apart, about four in two seconds.
   */
  lemma {:induction false} EverySecondPass(prev: Instant, nows: seq<Instant>)
    requires GapsAbovePollRate(prev, nows)
    ensures HeartbeatTimes(prev, nows) == EverySecond(nows)
    decreases |nows|
  {
    if |nows| == 1 {
      assert HeartbeatTimes(prev, nows) == HeartbeatTimes(prev, nows[1..]);
    } else if |nows| >= 2 {
      var rest := nows[2..];
      assert nows[1..][1..] == rest;
      assert HeartbeatTimes(prev, nows) == HeartbeatTimes(prev, nows[1..]);
      assert HeartbeatTimes(prev, nows[1..]) == [nows[1]] + HeartbeatTimes(nows[1], rest);
      assert GapsAbovePollRate(nows[1], rest) by {
        forall i | 0 < i < |rest|
          ensures rest[i - 1] + PollRateMillis < rest[i] <= rest[i - 1] + HeartbeatMillis
        {
          assert rest[i] == nows[i + 2] && rest[i - 1] == nows[i + 1];
        }
      }
      EverySecondPass(nows[1], rest);
    }
  }

  /** Readings 251 ms apart give heartbeats at every second one, 502 ms apart. */
  lemma FourInTwoSeconds(t: Instant)
    ensures HeartbeatTimes(t, [t + 251, t + 502, t + 753, t + 1004, t + 1255, t + 1506, t + 1757, t + 2008])
         == [t + 502, t + 1004, t + 1506, t + 2008]
  {
    var nows := [t + 251, t + 502, t + 753, t + 1004, t + 1255, t + 1506, t + 1757, t + 2008];
    EverySecondPass(t, nows);
    assert EverySecond(nows[6..]) == [t + 2008];
    assert EverySecond(nows[4..]) == [t + 1506, t + 2008];
    assert EverySecond(nows[2..]) == [t + 1004, t + 1506, t + 2008];
  }
}
