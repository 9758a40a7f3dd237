/** The ProgressBars example: a dialog whose Start button runs a pausable
    piece of work. The work is a loop that pumps the message queue and then
    advances two progress bars (a normal and a smooth one) by one step,
    until the state is no longer `Working`. While the queue is pumped the
    user may press the button again (pause) or close the dialog (abort,
    after a confirmation). The message box's answer and the pumped event are
    inputs here: one event is delivered per pump. */
module ProgressBars {

  datatype State = WaitingToWork | Working | Paused | WorkDone | Aborting

  /** The range both progress bars are given at construction. */
  const Minimum: int := 0
  const Maximum: int := 100

  /** The dialog: its state, the values of the two advancing bars, the
      marquee speed of the third bar (0 = stopped), the Start button's text
      and whether the dialog is shown. */
  datatype Frame = Frame(state: State, bar1: int, bar2: int, marquee: int,
                         startText: string, visible: bool)

  /** What the message pump delivers before a work step. */
  datatype PumpEvent = NoEvent | StartPressed | CloseRequested(userSaysYes: bool)

  /** The close handler's effect: the new dialog state, and whether the close
      event was cancelled (the dialog stays open). */
  datatype CloseOutcome = CloseOutcome(frame: Frame, cancelled: bool)

  /** Both bars inside their range and in lockstep. */
  predicate Valid(f: Frame) {
    Minimum <= f.bar1 <= Maximum && f.bar1 == f.bar2
  }

  /** What holds whenever no handler is running: the work loop is not active,
      a dialog waiting to work has empty bars, a finished one has full bars
      and offers a restart, and an aborted one is hidden. */
  predicate AtRest(f: Frame) {
    && Valid(f)
    && f.state != Working
    && (f.state == WaitingToWork ==> f.bar1 == Minimum && f.startText == "Start")
    && (f.state == Paused ==> f.startText == "Continue")
    && (f.state == WorkDone ==> f.bar1 == Maximum && f.startText == "Restart")
    && (f.state == Aborting ==> !f.visible)
  }

  /** The dialog as constructed and shown. */
  function Init(): (f: Frame)
    ensures AtRest(f) && f.state == WaitingToWork && f.startText == "Start" && f.visible
  {
    Frame(WaitingToWork, Minimum, Minimum, 0, "Start", true)
  }

  /** Start pressed while working: pause, and offer to continue. */
  function Pause(f: Frame): (r: Frame)
    requires f.state == Working
    ensures r.state == Paused && r.startText == "Continue"
    ensures r.bar1 == f.bar1 && r.bar2 == f.bar2 && r.visible == f.visible && r.marquee == f.marquee
  {
    f.(state := Paused, startText := "Continue")
  }

  /** Restart pressed after the work is done: empty bars, stop the marquee,
      and wait for Start again. */
  function Restart(f: Frame): (r: Frame)
    requires f.state == WorkDone
    ensures r.state == WaitingToWork && r.startText == "Start"
    ensures r.bar1 == Minimum && r.bar2 == Minimum && r.marquee == 0
    ensures r.visible == f.visible
  {
    f.(state := WaitingToWork, bar1 := Minimum, bar2 := Minimum, marquee := 0,
       startText := "Start")
  }

  /** The close handler. While working, the close is always cancelled and the
      work is aborted when the user confirms. While paused, the close goes
      through only when the user confirms. Otherwise it always goes through.
      The answer is only asked for while working or paused. */
  function OnClose(f: Frame, userSaysYes: bool): (r: CloseOutcome)
    ensures f.state == Working ==> r.cancelled
    ensures f.state == Working ==> (r.frame.state == Aborting <==> userSaysYes)
    ensures f.state == Paused ==> (r.cancelled <==> !userSaysYes)
    ensures f.state != Working && f.state != Paused ==> !r.cancelled
    ensures r.frame == f || (f.state == Working && userSaysYes && r.frame == f.(state := Aborting))
  {
    match f.state
    case Working =>
      CloseOutcome(if userSaysYes then f.(state := Aborting) else f, true)
    case Paused => CloseOutcome(f, !userSaysYes)
    case _ => CloseOutcome(f, false)
  }

  /** The effect of one pumped event on a working dialog: a button press is
      the nested Start handler, which pauses; a close request is the close
      handler (its cancellation matters only to the window system). */
  function Pump(f: Frame, ev: PumpEvent): (r: Frame)
    requires f.state == Working
    ensures r.state == Working || r.state == Paused || r.state == Aborting
    ensures r.state == Paused <==> ev == StartPressed
    ensures r.state == Aborting <==> ev == CloseRequested(true)
    ensures r.state == Paused ==> r.startText == "Continue"
    ensures r.state != Paused ==> r.startText == f.startText
    ensures r.bar1 == f.bar1 && r.bar2 == f.bar2 && r.visible == f.visible && r.marquee == f.marquee
  {
    match ev
    case NoEvent => f
    case StartPressed => Pause(f)
    case CloseRequested(yes) => OnClose(f, yes).frame
  }

  /** One turn of the work loop as written: pump, then either declare the work
      done (when the first bar is full) or advance both bars. The work-done
      test runs whatever state the pump left behind. */
  function Iteration(f: Frame, ev: PumpEvent): (r: Frame)
    requires f.state == Working && Valid(f)
    ensures Valid(r) && r.visible == f.visible && r.marquee == f.marquee
    ensures f.bar1 == Maximum ==> r.state == WorkDone && r.startText == "Restart" && r.bar1 == f.bar1
    ensures f.bar1 < Maximum ==> r.bar1 == f.bar1 + 1 && r.state == Pump(f, ev).state
    ensures f.bar1 < Maximum ==> r.startText == Pump(f, ev).startText
  {
    var g := Pump(f, ev);
    if g.bar1 == Maximum then g.(state := WorkDone, startText := "Restart")
    else g.(bar1 := g.bar1 + 1, bar2 := g.bar2 + 1)
  }

  /** The event the pump delivers first; nothing once the inputs run out. */
  function Next(events: seq<PumpEvent>): PumpEvent {
    if |events| == 0 then NoEvent else events[0]
  }

  function Rest(events: seq<PumpEvent>): seq<PumpEvent> {
    if |events| == 0 then [] else events[1..]
  }

  /** The work loop as written, run until the state is no longer `Working`,
      consuming one event per turn. */
  function RunLoop(f: Frame, events: seq<PumpEvent>): (r: Frame)
    requires f.state == Working && Valid(f)
    ensures Valid(r) && r.state != Working && r.bar1 >= f.bar1
    ensures r.state == Paused || r.state == WorkDone || r.state == Aborting
    ensures r.state == WorkDone ==> r.bar1 == Maximum && r.startText == "Restart"
    ensures r.state == Paused ==> StartPressed in events
    ensures r.state == Aborting ==> CloseRequested(true) in events
    ensures (forall i :: 0 <= i < |events| ==> events[i] == NoEvent) ==> r.state == WorkDone
    ensures r.state == Paused ==> r.startText == "Continue"
    ensures r.state == Aborting ==> r.startText == f.startText
    ensures r.visible == f.visible && r.marquee == f.marquee
    decreases Maximum - f.bar1
  {
    var g := Iteration(f, Next(events));
    if g.state == Working then RunLoop(g, Rest(events)) else g
  }

  /** The Start button's handler as written. From WaitingToWork or Paused it
      runs the work loop with the marquee spinning and hides the dialog when
      the loop ended by an abort; from Working it pauses; from WorkDone it
      restarts. It is never called while aborting (ProgressBars.cpp asserts
      this case impossible). */
  function OnStart(f: Frame, events: seq<PumpEvent>): (r: Frame)
    requires Valid(f) && f.state != Aborting
    ensures Valid(r) && r.state != Working
    ensures f.state == WaitingToWork || f.state == Paused ==>
              && r.bar1 >= f.bar1
              && r.marquee == 0
              && r.visible == (f.visible && r.state != Aborting)
              && (r.state == Paused || r.state == WorkDone || r.state == Aborting)
              && (r.state == Paused ==> r.startText == "Continue")
              && (r.state == Aborting ==> r.startText == "Pause")
    ensures f.state == Working ==> r == Pause(f)
    ensures f.state == WorkDone ==> r == Restart(f)
    ensures AtRest(f) ==> AtRest(r)
  {
    if f.state == WorkDone then Restart(f)
    else if f.state == Working then Pause(f)
    else
      var g := RunLoop(f.(state := Working, startText := "Pause", marquee := 100), events);
      var h := if g.state == Aborting then g.(visible := false) else g;
      h.(marquee := 0)
  }

  /** Closing a dialog at rest keeps it at rest (the frame is unchanged). */
  lemma OnCloseAtRest(f: Frame, userSaysYes: bool)
    requires AtRest(f)
    ensures OnClose(f, userSaysYes).frame == f
    ensures f.state == Paused ==> (OnClose(f, userSaysYes).cancelled <==> !userSaysYes)
  {
  }

  /** Started and left alone, the work runs to completion: both bars full and
      the button offering a restart. */
  lemma {:induction false} UndisturbedWorkCompletes(f: Frame)
    requires AtRest(f) && (f.state == WaitingToWork || f.state == Paused)
    ensures OnStart(f, []).state == WorkDone
    ensures OnStart(f, []).bar1 == Maximum && OnStart(f, []).bar2 == Maximum
    ensures OnStart(f, []).startText == "Restart"
  {
  }

  // The work-done test after the pump overrides a confirmed close: when the
  // bars are full at the moment the user confirms, the loop reports WorkDone,
  // the dialog is not hidden, and the close was cancelled.

  /** As written: a confirmed close pumped with full bars is lost. */
  lemma ConfirmedCloseLostWhenFull()
    ensures var f := Frame(Paused, Maximum, Maximum, 0, "Continue", true);
            && OnStart(f, [CloseRequested(true)]).state == WorkDone
            && OnStart(f, [CloseRequested(true)]).visible
            && OnClose(f.(state := Working), true).cancelled
  {
    var f := Frame(Paused, Maximum, Maximum, 0, "Continue", true);
    var w := f.(state := Working, startText := "Pause", marquee := 100);
    assert Iteration(w, CloseRequested(true)).state == WorkDone;
  }

  /** The loop turn as evidently intended: a close the user confirmed during
      the pump ends the work at once; every other turn is the written one. */
  function IterationIntended(f: Frame, ev: PumpEvent): (r: Frame)
    requires f.state == Working && Valid(f)
    ensures Valid(r) && r.visible == f.visible && r.marquee == f.marquee
    ensures ev == CloseRequested(true) ==> r.state == Aborting && r.bar1 == f.bar1
    ensures ev == CloseRequested(true) ==> r.startText == f.startText
    ensures ev != CloseRequested(true) ==> r == Iteration(f, ev)
  {
    var g := Pump(f, ev);
    if g.state == Aborting then g
    else if g.bar1 == Maximum then g.(state := WorkDone, startText := "Restart")
    else g.(bar1 := g.bar1 + 1, bar2 := g.bar2 + 1)
  }

  function RunLoopIntended(f: Frame, events: seq<PumpEvent>): (r: Frame)
    requires f.state == Working && Valid(f)
    ensures Valid(r) && r.state != Working && r.bar1 >= f.bar1
    ensures r.state == Paused || r.state == WorkDone || r.state == Aborting
    ensures r.state == WorkDone ==> r.bar1 == Maximum && r.startText == "Restart"
    ensures r.state == Paused ==> StartPressed in events
    ensures r.state == Aborting ==> CloseRequested(true) in events
    ensures Next(events) == CloseRequested(true) ==> r.state == Aborting
    ensures r.state == Paused ==> r.startText == "Continue"
    ensures r.state == Aborting ==> r.startText == f.startText
    ensures r.visible == f.visible && r.marquee == f.marquee
    decreases Maximum - f.bar1
  {
    var g := IterationIntended(f, Next(events));
    if g.state == Working then RunLoopIntended(g, Rest(events)) else g
  }

  /** The Start handler with the intended loop turn. */
  function OnStartIntended(f: Frame, events: seq<PumpEvent>): (r: Frame)
    requires Valid(f) && f.state != Aborting
    ensures Valid(r) && r.state != Working
    ensures r.state == Paused ==> r.startText == "Continue"
    ensures f.state == Working ==> r == Pause(f)
    ensures f.state == WorkDone ==> r == Restart(f)
    ensures AtRest(f) ==> AtRest(r)
  {
    if f.state == WorkDone then Restart(f)
    else if f.state == Working then Pause(f)
    else
      var g := RunLoopIntended(f.(state := Working, startText := "Pause", marquee := 100), events);
      var h := if g.state == Aborting then g.(visible := false) else g;
      h.(marquee := 0)
  }

  /** Intended: a close the user confirms during the work always aborts it
      and hides the dialog, however full the bars are. */
  lemma ConfirmedCloseHides(f: Frame, later: seq<PumpEvent>)
    requires Valid(f) && (f.state == WaitingToWork || f.state == Paused)
    ensures OnStartIntended(f, [CloseRequested(true)] + later).state == Aborting
    ensures !OnStartIntended(f, [CloseRequested(true)] + later).visible
  {
    assert Next([CloseRequested(true)] + later) == CloseRequested(true);
  }
}
