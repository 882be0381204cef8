/**
 * The UI worker thread (`run_conrod` in src/conrod_thread.rs). Each pass of its
 * loop drains every input waiting in the event channel, blocks for one input
 * when there was none, feeds the inputs to the UI in order, rebuilds the GUI
 * once, and sends the UI's frame (when it has a new one) to the window thread,
 * waking it up. It stops when the event channel is closed while it waits, or
 * when sending the frame or the wake-up fails.
 *
 * The thread is modelled as a state machine run one resumption at a time,
 * interleaved with the other thread's actions on the shared channels: `Phase`
 * records whether it is at the top of its loop, blocked in `recv` with the
 * batch collected so far, or finished. The UI is opaque: the model records
 * the inputs it was given and how many times the GUI was rebuilt, and what
 * `draw_if_changed` returns is supplied with each resumption.
 */
module ConrodWorker {
  import opened Wrappers
  import opened WinitEvents

  datatype Phase = AtHead | Waiting(batch: seq<Input>) | Exited

  datatype WorkerState = WorkerState(
    inbox: seq<Input>,         // inputs waiting in the event channel
    senderGone: bool,          // the window thread dropped its sender
    phase: Phase,
    needsUpdate: bool,
    handled: seq<Input>,       // every input given to `ui.handle_event`, in order
    rebuilds: nat,             // calls of `gui::gui`
    rendered: seq<Frame>,      // frames sent on the render channel
    receiverGone: bool,        // the window thread dropped its render receiver
    loopGone: bool,            // the events loop no longer exists, so `wakeup` fails
    wakeups: nat)              // successful `wakeup` calls

  /** The thread just before entering `'conrod: loop`. */
  function Start(): WorkerState {
    WorkerState([], false, AtHead, true, [], 0, [], false, false, 0)
  }

  /**
   * The rest of a pass once its inputs are collected: feed them to the UI,
   * rebuild if any came, and send the frame `draw_if_changed` produced.
   */
  function Applied(w: WorkerState, batch: seq<Input>, frame: Option<Frame>): WorkerState
  {
    var w1 := w.(needsUpdate := batch != [], handled := w.handled + batch,
                 rebuilds := if batch != [] then w.rebuilds + 1 else w.rebuilds);
    match frame
    case None => w1.(phase := AtHead)
    case Some(f) =>
      if w1.receiverGone then w1.(phase := Exited)
      else if w1.loopGone then w1.(rendered := w1.rendered + [f], phase := Exited)
      else w1.(rendered := w1.rendered + [f], wakeups := w1.wakeups + 1, phase := AtHead)
  }

  /** The blocking `recv`: take one input, stop on a closed channel, or keep waiting. */
  function Received(w: WorkerState, batch: seq<Input>, frame: Option<Frame>): WorkerState
  {
    if w.inbox != [] then Applied(w.(inbox := w.inbox[1..]), batch + [w.inbox[0]], frame)
    else if w.senderGone then w.(phase := Exited)
    else w.(phase := Waiting(batch))
  }

  /** The worker runs until it finishes a pass, blocks, or exits. */
  function Stepped(w: WorkerState, frame: Option<Frame>): WorkerState
  {
    match w.phase
    case Exited => w
    case Waiting(batch) => Received(w, batch, frame)
    case AtHead =>
      var batch := w.inbox;
      if batch == [] || !w.needsUpdate then Received(w.(inbox := []), batch, frame)
      else Applied(w.(inbox := []), batch, frame)
  }

  /** What the rest of the program can do meanwhile, or a resumption of the worker. */
  datatype Action =
    | Produce(x: Input)        // the window thread sends an input (ignored once its sender is gone)
    | DropSender
    | DropReceiver
    | DropEventsLoop
    | Work(frame: Option<Frame>)

  function Acted(w: WorkerState, a: Action): WorkerState
  {
    match a
    case Produce(x) => if w.senderGone then w else w.(inbox := w.inbox + [x])
    case DropSender => w.(senderGone := true)
    case DropReceiver => w.(receiverGone := true)
    case DropEventsLoop => w.(loopGone := true)
    case Work(frame) => Stepped(w, frame)
  }

  /** The state after the first `n` actions of a schedule. */
  function RunN(schedule: seq<Action>, n: nat): WorkerState
    requires n <= |schedule|
  {
    if n == 0 then Start() else Acted(RunN(schedule, n - 1), schedule[n - 1])
  }

  /** The inputs the window thread managed to send during the first `n` actions. */
  function Produced(schedule: seq<Action>, n: nat): seq<Input>
    requires n <= |schedule|
  {
    if n == 0 then []
    else
      var gone := RunN(schedule, n - 1).senderGone;
      Produced(schedule, n - 1) + (if schedule[n - 1].Produce? && !gone then [schedule[n - 1].x] else [])
  }

  /**
   * The loop invariant: at the top of the loop `needs_update` is true, and a
   * blocked receive has collected nothing yet and still sees it true.
   */
  predicate Inv(w: WorkerState) {
    && (w.phase.AtHead? ==> w.needsUpdate)
    && (w.phase.Waiting? ==> w.phase.batch == [] && w.needsUpdate)
  }

  /** Every resumption and every other action keeps the invariant. */
  lemma ActedKeepsInv(w: WorkerState, a: Action)
    requires Inv(w)
    ensures Inv(Acted(w, a))
  {
  }

  /** `needs_update` holds at the top of every pass of the loop, in every run. */
  lemma {:induction false} NeedsUpdateAtHead(schedule: seq<Action>, n: nat)
    requires n <= |schedule|
    ensures Inv(RunN(schedule, n))
  {
    if n > 0 {
      NeedsUpdateAtHead(schedule, n - 1);
      ActedKeepsInv(RunN(schedule, n - 1), schedule[n - 1]);
    }
  }

  /**
   * No input is lost, duplicated or reordered: those handed to the UI followed
   * by those still waiting are always exactly those sent, in send order.
   */
  lemma {:induction false} InputsConserved(schedule: seq<Action>, n: nat)
    requires n <= |schedule|
    ensures RunN(schedule, n).handled + RunN(schedule, n).inbox == Produced(schedule, n)
  {
    if n > 0 {
      InputsConserved(schedule, n - 1);
      var w := RunN(schedule, n - 1);
      NeedsUpdateAtHead(schedule, n - 1);
      StepConserves(w, schedule[n - 1]);
    }
  }

  lemma StepConserves(w: WorkerState, a: Action)
    requires Inv(w)
    ensures Acted(w, a).handled + Acted(w, a).inbox
         == w.handled + w.inbox + (if a.Produce? && !w.senderGone then [a.x] else [])
  {
    if a.Work? {
      match w.phase
      case Exited =>
      case AtHead =>
        if w.inbox != [] {
          assert Stepped(w, a.frame).handled == w.handled + w.inbox;
        }
      case Waiting(batch) =>
        if w.inbox != [] {
          assert Stepped(w, a.frame).handled == w.handled + [w.inbox[0]];
          assert [w.inbox[0]] + w.inbox[1..] == w.inbox;
        }
    }
  }

  /**
   * A pass that starts with inputs waiting handles all of them, in order,
   * without blocking; the channel is then empty and the GUI is rebuilt exactly once.
   */
  lemma DrainsAllPending(w: WorkerState, frame: Option<Frame>)
    requires Inv(w) && w.phase.AtHead? && w.inbox != []
    ensures var w' := Stepped(w, frame);
      && w'.handled == w.handled + w.inbox && w'.inbox == []
      && w'.rebuilds == w.rebuilds + 1 && w'.needsUpdate
      && !w'.phase.Waiting?
  {
  }

  /**
   * A pass that finds the channel empty blocks once: on a closed channel the
   * thread ends there, handling nothing and sending nothing; otherwise it waits.
   */
  lemma EmptyChannelBlocks(w: WorkerState, frame: Option<Frame>)
    requires Inv(w) && w.phase.AtHead? && w.inbox == []
    ensures w.senderGone ==> Stepped(w, frame) == w.(phase := Exited)
    ensures !w.senderGone ==> Stepped(w, frame) == w.(phase := Waiting([]))
  {
  }

  /**
   * A blocked receive takes exactly one input, the oldest, and leaves the rest
   * for the next drain; on a closed empty channel the thread ends.
   */
  lemma WaitTakesOne(w: WorkerState, frame: Option<Frame>)
    requires Inv(w) && w.phase.Waiting?
    ensures w.inbox != [] ==>
      Stepped(w, frame).handled == w.handled + [w.inbox[0]] && Stepped(w, frame).inbox == w.inbox[1..]
      && Stepped(w, frame).rebuilds == w.rebuilds + 1
    ensures w.inbox == [] && w.senderGone ==> Stepped(w, frame) == w.(phase := Exited)
    ensures w.inbox == [] && !w.senderGone ==> Stepped(w, frame) == w
  {
  }

  /**
   * A resumption rebuilds at most once, and only when it handled an input;
   * a frame is sent only when `draw_if_changed` returned one, and then it is
   * that frame.
   */
  lemma OneRebuildAndFrameAtMost(w: WorkerState, frame: Option<Frame>)
    ensures var w' := Stepped(w, frame);
      && (w'.rebuilds == w.rebuilds || (w'.rebuilds == w.rebuilds + 1 && |w'.handled| > |w.handled|))
      && (w'.rendered == w.rendered || (frame.Some? && w'.rendered == w.rendered + [frame.value]))
  {
  }

  /**
   * In a pass that gets input, whether drained at the top of the loop or taken
   * by a blocked receive, a failed send ends the thread without attempting the
   * wake-up, and a failed wake-up after a successful send ends it too.
   */
  lemma SendOrWakeupFailureEnds(w: WorkerState, f: Frame)
    requires Inv(w) && !w.phase.Exited? && w.inbox != []
    ensures w.receiverGone ==>
      Stepped(w, Some(f)).phase == Exited && Stepped(w, Some(f)).wakeups == w.wakeups
      && Stepped(w, Some(f)).rendered == w.rendered
    ensures !w.receiverGone && w.loopGone ==>
      Stepped(w, Some(f)).phase == Exited && Stepped(w, Some(f)).rendered == w.rendered + [f]
    ensures !w.receiverGone && !w.loopGone ==>
      Stepped(w, Some(f)).phase == AtHead && Stepped(w, Some(f)).wakeups == w.wakeups + 1
  {
  }

  /** A thread that has ended stays ended, whatever happens. */
  lemma {:induction false} ExitIsFinal(schedule: seq<Action>, k: nat, n: nat)
    requires k <= n <= |schedule| && RunN(schedule, k).phase.Exited?
    ensures RunN(schedule, n).phase.Exited?
    ensures RunN(schedule, n).handled == RunN(schedule, k).handled
    ensures RunN(schedule, n).rendered == RunN(schedule, k).rendered
    decreases n - k
  {
    if k < n {
      ExitIsFinal(schedule, k, n - 1);
      var w := RunN(schedule, n - 1);
      assert RunN(schedule, n) == Acted(w, schedule[n - 1]);
      ExitedStays(w, schedule[n - 1]);
    }
  }

  lemma ExitedStays(w: WorkerState, a: Action)
    requires w.phase.Exited?
    ensures Acted(w, a).phase.Exited? && Acted(w, a).handled == w.handled && Acted(w, a).rendered == w.rendered
  {
  }

  /** The worker thread's channels and locals, updated in place. */
  class ConrodThread {
    var inbox: seq<Input>
    var senderGone: bool
    var phase: Phase
    var needsUpdate: bool
    var handled: seq<Input>
    var rebuilds: nat
    var rendered: seq<Frame>
    var receiverGone: bool
    var loopGone: bool
    var wakeups: nat

    function State(): WorkerState
      reads this
    {
      WorkerState(inbox, senderGone, phase, needsUpdate, handled, rebuilds, rendered, receiverGone, loopGone, wakeups)
    }

    constructor ()
      ensures State() == Start()
    {
      inbox, senderGone, phase, needsUpdate := [], false, AtHead, true;
      handled, rebuilds, rendered := [], 0, [];
      receiverGone, loopGone, wakeups := false, false, 0;
    }

    /** `event_tx.send(x)` on the window thread. */
    method Send(x: Input)
      requires !senderGone
      modifies this`inbox
      ensures inbox == old(inbox) + [x]
    {
      inbox := inbox + [x];
    }

    /** One resumption of the worker thread; `frame` is what `draw_if_changed` gives. */
    method Step(frame: Option<Frame>)
      modifies this
      ensures State() == Stepped(old(State()), frame)
    {
      match phase {
        case Exited =>
        case Waiting(batch) =>
          Receive(batch, frame);
        case AtHead =>
          // drain every input already waiting, without blocking
          var batch := [];
          while inbox != []
            invariant batch + inbox == old(inbox)
            modifies this`inbox
          {
            batch := batch + [inbox[0]];
            inbox := inbox[1..];
          }
          assert State() == old(State()).(inbox := []) && batch == old(inbox);
          if batch == [] || !needsUpdate {
            Receive(batch, frame);
          } else {
            ApplyBatch(batch, frame);
          }
      }
    }

    /** `event_rx.recv()` after collecting `batch`: take one input, stop, or block. */
    method Receive(batch: seq<Input>, frame: Option<Frame>)
      modifies this
      ensures State() == Received(old(State()), batch, frame)
    {
      if inbox != [] {
        var x := inbox[0];
        inbox := inbox[1..];
        ApplyBatch(batch + [x], frame);
      } else if senderGone {
        phase := Exited;
      } else {
        phase := Waiting(batch);
      }
    }

    /** The rest of a pass: handle the inputs, rebuild, send the frame and wake the window thread. */
    method ApplyBatch(batch: seq<Input>, frame: Option<Frame>)
      modifies this
      ensures State() == Applied(old(State()), batch, frame)
    {
      needsUpdate := false;
      for k := 0 to |batch|
        invariant handled == old(handled) + batch[..k]
        invariant needsUpdate == (k > 0)
        modifies this`handled, this`needsUpdate
      {
        handled := handled + [batch[k]];
        needsUpdate := true;
      }
      if needsUpdate {
        rebuilds := rebuilds + 1;
      }
      phase := AtHead;
      if frame.Some? {
        // send the frame, then wake the window thread; either failure ends the thread
        if receiverGone {
          phase := Exited;
        } else {
          rendered := rendered + [frame.value];
          if loopGone {
            phase := Exited;
          } else {
            wakeups := wakeups + 1;
          }
        }
      }
    }
  }

  /** The worker and its environment run through a schedule of actions. */
  method RunConrod(schedule: seq<Action>) returns (final: WorkerState)
    ensures final == RunN(schedule, |schedule|)
    ensures Inv(final)
  {
    var t := new ConrodThread();
    var i := 0;
    while i < |schedule|
      invariant i <= |schedule|
      invariant t.State() == RunN(schedule, i)
    {
      match schedule[i] {
        case Produce(x) =>
          if !t.senderGone {
            t.Send(x);
          }
        case DropSender =>
          t.senderGone := true;
        case DropReceiver =>
          t.receiverGone := true;
        case DropEventsLoop =>
          t.loopGone := true;
        case Work(frame) =>
          t.Step(frame);
      }
      i := i + 1;
    }
    final := t.State();
    NeedsUpdateAtHead(schedule, |schedule|);
  }
}
