# conrod-clock, modelled in Dafny

A model of the clock application's two threads and its telemetry text:

- **ClickDetector** (`click_detector.dfy`). `DoubleClicker` watches left-button presses and releases. It reports a
  `Click` when a release comes less than 115 ms after the press. It reports a `DoubleClick` when that click also
  comes less than 500 ms after the previous click. `ClickerState`, `Recorded` and `Updated` are the detector as
  values. The class `DoubleClicker` keeps the same five fields and updates them in place. Each of its methods is
  proved equal to the matching transition.
- **Dispatcher** (`dispatcher.dfy`). The window thread's `while !closed` loop does the following on each pass:
  - It sends a `Redraw` heartbeat when strictly more than 500 ms have passed since the last one.
  - It polls the pending window events. Each event goes through the click detector, its conversion is forwarded to
    the worker, and the loop reacts to close requests, Escape, resizes, F releases and double clicks.
  - It draws only the newest frame waiting in the render channel.
  - It sleeps out the rest of the 250 ms poll interval.

  `Iteration` and `RunN` are the loop as values. `MainLoop` runs the same locals through `RunPass`, `PollEvents`,
  `OnEvent` and `DrainToLast`, and is proved to compute `RunN`.
- **ConrodWorker** (`conrod_worker.dfy`). `run_conrod` is modelled as a state machine that runs one resumption at a
  time. Its resumptions are interleaved with the other thread's actions on the shared channels: sending, dropping
  the sender, dropping the render receiver, dropping the events loop. The class `ConrodThread` carries the
  collecting loop and the handling loop in place. `RunConrod` runs a whole schedule.
- **GuiText** (`gui_text.dfy`). This covers the `str_line!` integer form: the identifier with underscores turned
  into spaces, `": "`, the decimal value, then the unit. It also covers the card readings with failed queries read
  as 0, memory in whole MiB and power in whole watts. `TelemetryLines` builds the eleven lines in the order the GUI
  sets them.
- **WinitEvents** and **Wrappers** (`events.dfy`, `wrappers.dfy`). These hold the event shapes the clock matches
  on, saturating `duration_since`, and `Option` with `unwrap_or`.

Time is an integer number of milliseconds. The source reads `Instant::now()` several times while handling one
event. The model uses one instant per event, given with the event, and one instant per loop pass (`Pass.now`, and
`Pass.resumed` for the `last_update` read at the bottom of the pass).

What the code does, as proved here, differs in places from what its comments and names suggest:

- A fresh detector dates its last press 50 ms before its creation. So a release within 65 ms of start-up, before
  any press, counts as a click. It is always reported as a double click, which toggles fullscreen
  (`ClickDetector.FreshRelease`).
- Escape closes the window on a key press as well as on a release, because the match ignores the key state. The
  close event is still passed to `convert_event` and forwarded to the worker if that yields an input, before the loop
  stops (`Dispatcher.PollForwardsAndCloses`).
- Pacing measures the time from the previous pass's `last_update` to this pass's `now`, so it does not include the
  current pass's own work (`Dispatcher.IterationSleeps`).
- A resize draws the oldest waiting frame, not the newest (`Dispatcher.ResizeDrawsOldest`).
- In the worker, `needs_update` is true at the top of every pass (`ConrodWorker.NeedsUpdateAtHead`). So the
  `!needs_update` half of the blocking condition never decides anything: the worker blocks exactly when the channel
  was empty.

The heartbeat needs strictly more than 500 ms since the last one. The loop's clock readings come more than 250 ms
apart: the paced sleep only makes up for the short gap between `last_update` and `now`, and each pass's own work
comes on top of it. The model takes this as a hypothesis rather than deriving it. When the gaps lie between 250 ms (exclusive) and 500 ms, the heartbeat fires on every second
pass, a little more than 500 ms apart (`Dispatcher.EverySecondPass`, `Dispatcher.FourInTwoSeconds`). Only readings
exactly 250 ms apart would space heartbeats 750 ms apart (`Dispatcher.IdleTwoSeconds`). `Dispatcher.RunHeartbeats`
ties these heartbeat instants to the loop itself.

## Model

| member | source | states |
|---|---|---|
| WinitEvents.Since | src/clock.rs:86 | `duration_since` is the difference when time moves forward and 0 otherwise |
| Wrappers.UnwrapOr | src/gui.rs:133-135 | `unwrap_or` gives the value of `Some`, and the default for `None` |
| ClickDetector.Initial | src/clock.rs:197-209 | a fresh detector has thresholds 115 ms and 500 ms; its last press comes before its last release, which equals its last click and its creation instant |
| ClickDetector.ClickerState.IsClick | src/clock.rs:259-265 | `is_click`: the last press came before the last release and less than `between_pressed_released` before it; its properties are carried by `ReleaseClicksIff` and `PressNeverClicks` |
| ClickDetector.ClickerState.IsDoubleClick | src/clock.rs:267-269 | `is_double_click`: the previous click is less than `between_clicks` before now; its property is carried by `ClickKindAndStamp` |
| ClickDetector.Updated | src/clock.rs:217-229 | handling an event never changes the two thresholds |
| ClickDetector.PressNeverClicks | src/clock.rs:242-245 | a left press only stamps `prev_pressed` and is never a click, given a monotonic clock |
| ClickDetector.ReleaseClicksIff | src/clock.rs:259-265 | a left release stamps `prev_released`; it is a click iff the last press came before it and less than 115 ms before it |
| ClickDetector.ClickKindAndStamp | src/clock.rs:218-226 | a click is a double click iff it comes less than `between_clicks` after the previous click; a click becomes the new previous click, and with no click the previous click stays |
| ClickDetector.OtherEventsInert | src/clock.rs:231-257 | any event other than a left-button event yields nothing and changes nothing |
| ClickDetector.ThresholdsFixed | src/clock.rs:188-209 | after any event stream the thresholds are still 115 ms and 500 ms |
| ClickDetector.ThresholdsKept | src/clock.rs:188-195 | no event stream changes a detector's thresholds |
| ClickDetector.StaysNotAfter | src/clock.rs:243-247 | events handled in time order never leave a stamp later than the current instant |
| ClickDetector.FreshRelease | src/clock.rs:200-206 | on a fresh detector, a release before any press is a click iff it comes within 65 ms of creation, and then it is a double click |
| ClickDetector.QuickClicksOutcome | src/clock.rs:259-269 | for any `gap` of at least 50 ms (so the four events stay in time order), two 50 ms press-release pairs whose releases are `gap` apart give a click, then a double click if `gap` < 500 and a click otherwise |
| ClickDetector.TwoClicks | src/clock.rs:259-269 | two quick clicks 300 ms apart give Click then DoubleClick; 600 ms apart they give Click then Click |
| ClickDetector.DoubleClicker.Default | src/clock.rs:197-209 | the constructed fields are `Initial(t0)` |
| ClickDetector.DoubleClicker.HandleEvent | src/clock.rs:231-257 | the new fields and the result are the `Recorded` transition of the old fields |
| ClickDetector.DoubleClicker.Update | src/clock.rs:217-229 | the new fields and the reported click are the `Updated` transition of the old fields |
| Dispatcher.Heartbeat | src/clock.rs:85-89 | the heartbeat fires iff more than 500 ms have passed since `prev`, and then `prev` becomes `now`; otherwise `prev` stays |
| Dispatcher.PacingSleep | src/clock.rs:162-165 | the sleep is at most 250 ms; with the measured time it covers at least 250 ms; it is 0 once 250 ms have passed |
| Dispatcher.DrainToLast | src/clock.rs:157-159 | the channel is empty afterwards; the result is None iff nothing was waiting, and otherwise the newest frame |
| Dispatcher.OnEvent | src/clock.rs:92-151 | the closure's effect on the captured locals and on the detector is `HandleWindowEvent` |
| Dispatcher.PollEvents | src/clock.rs:92-154 | polling a batch of events has the effect of `Poll`, applying `HandleWindowEvent` to each event in order |
| Dispatcher.RunPass | src/clock.rs:84-167 | one pass over the loop's locals computes `Iteration` |
| Dispatcher.MainLoop | src/clock.rs:76-168 | the loop's final state is `RunN` over all passes; fewer passes run only when the loop closed |
| Dispatcher.ClosedRunStays | src/clock.rs:83 | once closed, no further pass changes the state |
| Dispatcher.HandleWindowEventEffects | src/clock.rs:103-150 | one event appends exactly its conversion to what was sent; it closes the loop iff it is a close event; only a resize touches the frames |
| Dispatcher.PollForwardsAndCloses | src/clock.rs:109-129 | polling forwards exactly the converted events in order, close events included; it closes iff some event is a close request or Escape; it leaves both clocks alone |
| Dispatcher.PollKeepsFrames | src/clock.rs:130-136 | without a resize, polling neither draws a frame nor takes one from the render channel |
| Dispatcher.IterationSends | src/clock.rs:84-112 | a pass sends `Redraw` first iff more than 500 ms have passed since `prev`, and then moves `prev` to `now`; the pass's converted events follow in order |
| Dispatcher.IterationDrawsNewest | src/clock.rs:156-159 | without a resize, a pass draws only the newest waiting frame, if any, and empties the render channel |
| Dispatcher.IterationSleeps | src/clock.rs:161-167 | a pass sleeps 250 ms minus the time from `last_update` to `now`, never more than 250 ms, and then sets `last_update` |
| Dispatcher.IterationCloses | src/clock.rs:114-129 | a pass leaves the loop closed iff it was closed or the pass held a close event |
| Dispatcher.RunClosesAtFirstClose | src/clock.rs:83-129 | after `n` passes the loop is closed iff one of them held a close event |
| Dispatcher.LastPassIsFirstClosing | src/clock.rs:83-129 | the pass with the first close event is the last one that runs: open before it, closed after it, and nothing changes later |
| Dispatcher.ResizeDrawsOldest | src/clock.rs:132-136 | a resize with frames waiting draws the oldest one and takes it out of the render channel; with none waiting it draws nothing (the source would block there instead) |
| Dispatcher.FullscreenToggles | src/clock.rs:93-145 | fullscreen flips on an event iff the detector reports a double click for it or it is an F release |
| Dispatcher.HeartbeatSpacing | src/clock.rs:84-89 | heartbeats are more than 500 ms apart; when the clock is sampled at most `g` apart, they are at most 500 + `g` ms apart |
| Dispatcher.IdleTwoSeconds | src/clock.rs:84-89 | the boundary case of the strict rule: readings exactly 250 ms apart after a heartbeat give heartbeats only at +750 and +1500 |
| Dispatcher.EverySecondPass | src/clock.rs:84-89 | when the clock readings are more than 250 and at most 500 ms apart, the heartbeat fires exactly on every second reading after the last heartbeat |
| Dispatcher.FourInTwoSeconds | src/clock.rs:84-89 | readings 251 ms apart over two seconds give four heartbeats, 502 ms apart |
| Dispatcher.IterationHeartbeat | src/clock.rs:84-112 | one pass moves `prev` by the heartbeat rule; the `Redraw`s it sends are one iff the rule fires, plus those the event conversion yields |
| Dispatcher.RunHeartbeats | src/clock.rs:83-112 | while the loop runs, `prev` follows the heartbeat rule over the passes' clock readings, and the `Redraw`s sent number the `HeartbeatTimes` of those readings plus those the event conversion yields, so `HeartbeatSpacing` and `EverySecondPass` describe the loop's heartbeats |
| Dispatcher.HeartbeatsWhileOpen | src/clock.rs:83-112 | from any state, over passes that all start with the loop open, `prev` follows the heartbeat rule and the `Redraw`s sent grow by one per heartbeat instant plus those the conversion yields |
| Dispatcher.NoConvertedRedraws | src/clock.rs:110-111 | when the event conversion never yields `Redraw`, it contributes none of the `Redraw`s sent |
| ConrodWorker.Acted | src/conrod_thread.rs:34-70 | one step of the interleaving: the window thread sends, drops a channel end, or the worker resumes; its properties are carried by `ActedKeepsInv`, `StepConserves` and `ExitedStays` |
| ConrodWorker.ActedKeepsInv | src/conrod_thread.rs:33-56 | every action keeps the loop invariant: `needs_update` holds at the top of the loop and while blocked with nothing collected |
| ConrodWorker.NeedsUpdateAtHead | src/conrod_thread.rs:33-56 | the loop invariant holds after every schedule prefix |
| ConrodWorker.StepConserves | src/conrod_thread.rs:36-56 | an action moves inputs from the channel to the UI without loss or reordering; it adds only an input actually sent |
| ConrodWorker.InputsConserved | src/conrod_thread.rs:36-56 | the inputs handled by the UI, followed by those still waiting, are exactly the inputs sent, in send order |
| ConrodWorker.DrainsAllPending | src/conrod_thread.rs:36-61 | a pass that finds inputs waiting handles all of them in order without blocking, and rebuilds once |
| ConrodWorker.EmptyChannelBlocks | src/conrod_thread.rs:42-48 | a pass that finds the channel empty blocks; on a closed channel it ends without handling or sending anything |
| ConrodWorker.WaitTakesOne | src/conrod_thread.rs:43-47 | a blocked receive takes exactly the oldest input and leaves the rest; on a closed empty channel the thread ends |
| ConrodWorker.OneRebuildAndFrameAtMost | src/conrod_thread.rs:58-69 | a resumption rebuilds at most once, and only after handling input; it sends at most the one frame that was drawn |
| ConrodWorker.SendOrWakeupFailureEnds | src/conrod_thread.rs:43-69 | in any pass that gets input, whether it was waiting at the top of the loop or taken by a blocked receive, a failed send ends the thread without a wake-up; a failed wake-up after a send ends it too; otherwise the thread wakes the window and goes on |
| ConrodWorker.ExitIsFinal | src/conrod_thread.rs:34-70 | after the loop is left, nothing more is handled or sent |
| ConrodWorker.ExitedStays | src/conrod_thread.rs:46 | an ended thread ignores every later action |
| ConrodWorker.ConrodThread.constructor | src/conrod_thread.rs:33 | the fresh thread is at the top of its loop with `needs_update` set |
| ConrodWorker.ConrodThread.Send | src/clock.rs:111 | sending appends the input to the channel |
| ConrodWorker.ConrodThread.Step | src/conrod_thread.rs:34-70 | one resumption in place computes `Stepped` |
| ConrodWorker.ConrodThread.Receive | src/conrod_thread.rs:43-48 | the blocking receive in place computes `Received` |
| ConrodWorker.ConrodThread.ApplyBatch | src/conrod_thread.rs:50-69 | handling, rebuilding and sending in place computes `Applied` |
| ConrodWorker.RunConrod | src/conrod_thread.rs:5-70 | running a schedule gives `RunN` and keeps the loop invariant |
| GuiText.Split | src/gui.rs:95 | `split` gives at least one piece, and no piece contains the separator |
| GuiText.Replace | src/gui.rs:95 | each character equal to `from` becomes `to`; every other character stays |
| GuiText.Label | src/gui.rs:95 | `split('_')` followed by `join(" ")` replaces each underscore with a space and keeps the length |
| GuiText.JoinSplitReplaces | src/gui.rs:95 | splitting at one character and joining with another is character replacement |
| GuiText.Join | src/gui.rs:95 | `join`: the pieces with the glue between them; its properties are carried by `JoinSplitReplaces` and `SplitJoinRoundTrip` |
| GuiText.SplitJoinRoundTrip | src/gui.rs:95 | joining the pieces with the separator gives the string back |
| GuiText.Decimal | src/gui.rs:95 | `{}` on an integer prints only digits, with no leading zero |
| GuiText.DecimalRoundTrip | src/gui.rs:95 | the printed digits read back as the value |
| GuiText.DecimalWidth | src/gui.rs:94-95 | a value below 10^w prints in at most w digits |
| GuiText.StrLine | src/gui.rs:93-99 | `str_line!($k, $u)`: the plain form is used iff the value is below 100000; otherwise the line keeps the spaced label, the value and the unit for scientific notation; the plain text is described by `StrLineShape` |
| GuiText.StrLineShape | src/gui.rs:93-99 | the plain form is used iff the value is below 100000; it is the spaced identifier, `": "`, at most five digits that read back as the value, then the unit |
| GuiText.ZeroLine | src/gui.rs:94-95 | a zero value prints as `<label>: 0<unit>` |
| GuiText.Mebibytes | src/gui.rs:161-163 | memory is shown in whole MiB, rounded down |
| GuiText.Watts | src/gui.rs:171 | power is shown in whole watts, rounded down from milliwatts |
| GuiText.Fields | src/gui.rs:173-219 | there are eleven lines, with the identifiers and units in the order the GUI sets them |
| GuiText.Shown | src/gui.rs:173-219 | one `str_line!` line per field, in order; with `Fields` and `StrLineShape` this gives each line's text |
| GuiText.AllFailedShowZero | src/gui.rs:133-171 | when every query fails, every line shows 0 |
| GuiText.FieldsFromReadings | src/gui.rs:133-171 | each line shows its own reading, converted to MiB or W where needed; a failed query shows 0 and leaves the other lines alone |
| GuiText.TelemetryLines | src/gui.rs:133-219 | the `str_line!` lines are exactly `Shown(Fields(card))`: the readings, with failed queries read as 0 and converted, each formatted in order |

## Left out

- Rendering is not modelled: widgets, theme, fonts, glyph cache, `draw`, the `Clock` face text and window creation. Frames are opaque numbered values.
- GuiText.StrLine: values of 100000 and more are printed with `{:.4e}` from an `f64`. The model keeps those lines as `Scientific(label, value, unit)` without their text, because floating-point formatting is outside the model.
- The one-argument `str_line!($k)` form is never used by `gui`, so it is not modelled.
- The NVML library is not modelled. Each query result is given as an `Option` (`Readings`), where `None` is an error. NVML's integer widths are unbounded here; the divisions by 1024² and 1000 are the only arithmetic.
- `convert_event` (from the conrod winit backend) is a function parameter, because its code is not part of this model.
- Threads and channels are sequences, and the interleaving of the two threads is a schedule of actions (`ConrodWorker.Action`). The window thread's pass sees the frames that arrived since the previous pass as `Pass.arrived`.
- The gaps between the passes' clock readings are inputs. That each gap exceeds 250 ms, because the pass's work adds to the paced sleep, is stated as the hypothesis of `Dispatcher.EverySecondPass` and not derived, since neither the work's duration nor the sleep's accuracy is modelled.
- `std::thread::sleep` is recorded as the requested duration (`LoopState.sleeps`). Clock readings are inputs (`Pass.now`, `Pass.resumed`, `TimedEvent.at`).
- Dispatcher.HandleWindowEvent: on a resize with no frame waiting, the source blocks in `render_rx.iter().next()` until the worker sends one. The model draws nothing and goes on.
- Panics are not modelled: `unwrap` on `event_tx.send` when the worker has ended, `checked_sub(..).unwrap()` in `DoubleClicker::default` (instants are unbounded integers), and the `unwrap`s during set-up.
- ConrodWorker.Acted: an input produced after the sender was dropped is ignored. The source cannot produce one.
- Fullscreen is a flag. Querying and switching the monitor is not modelled.
- `Event::Awakened` returns from the closure early, which has no effect on the state; the model treats it like any other unmatched event.
