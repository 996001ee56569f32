/** The order in which main and the telemetry goroutine shut down: a run that finishes pushes telemetry once more. */
module LastRound {
  import opened Pipeline
  import opened Shutdown

  /** The step is one of the closing handshake between main and the telemetry goroutine. */
  predicate Closes(step: ControlStep) {
    step.CloseRing? || step.QuitTelemetry? || step.TelemetryLastPushed? || step.TelemetryDone?
  }

  ghost function ClosingStep(a: Action): seq<ControlStep> {
    if a.ByControl? && Closes(a.controlStep) then [a.controlStep] else []
  }

  /** The closing steps of the run, in order and with repetitions. */
  ghost function ClosingSteps(run: seq<Action>): seq<ControlStep> {
    if run == [] then [] else ClosingSteps(run[..|run| - 1]) + ClosingStep(run[|run| - 1])
  }

  /** The closing steps that lead to where main and the telemetry goroutine stand. */
  ghost function StepsSoFar(main: Main, telemetry: Telemetry): seq<ControlStep> {
    match main
    case Waiting(_) => []
    case Quitting => [CloseRing]
    case Finished => [CloseRing, QuitTelemetry, TelemetryLastPushed, TelemetryDone]
    case _ => if telemetry.Announcing? then [CloseRing, QuitTelemetry, TelemetryLastPushed] else [CloseRing, QuitTelemetry]
  }

  lemma ControlCloses(c: Config, s: State, step: ControlStep)
    requires InStep(s) && ControlEnabled(c, s, step)
    ensures var t := ControlApply(c, s, step);
      StepsSoFar(t.front.main, t.telemetry) == StepsSoFar(s.front.main, s.telemetry) + ClosingStep(ByControl(step))
  {
    match step
    case CloseRing =>
    case QuitTelemetry =>
    case TelemetryLastPushed =>
    case TelemetryDone =>
    case _ =>
  }

  lemma OthersDoNotClose(c: Config, s: State, a: Action)
    requires Orderly(c, s) && Enabled(c, s, a) && !a.ByControl?
    ensures var t := Apply(c, s, a); StepsSoFar(t.front.main, t.telemetry) == StepsSoFar(s.front.main, s.telemetry)
  {
    match a
    case ByReceiver(i, step) => ClosingOfMove(c, s.front, s.receivers[i], step);
    case ByProcessor(step) =>
    case ByPoller(_, _) =>
  }

  lemma {:induction false} ClosingStepsSoFar(c: Config, run: seq<Action>)
    requires After(c, Init(c), run).Some?
    ensures var s := After(c, Init(c), run).value;
      Orderly(c, s) && ClosingSteps(run) == StepsSoFar(s.front.main, s.telemetry)
  {
    if run == [] {
      InitiallyOrderly(c);
    } else {
      var shorter, t, a := LastStep(c, Init(c), run);
      ClosingStepsSoFar(c, shorter);
      StepKeepsOrderly(c, t, a);
      assert run[..|run| - 1] == shorter;
      if a.ByControl? {
        ControlCloses(c, t, a.controlStep);
      } else {
        OthersDoNotClose(c, t, a);
      }
    }
  }

  /**
   A run finishes only after the ring is closed, the telemetry goroutine is told to quit, it has pushed
   its records one last time, and has said that it is done: each once, in this order.
   */
  lemma LastRoundIsPushed(c: Config, run: seq<Action>)
    requires After(c, Init(c), run).Some? && After(c, Init(c), run).value.front.main.Finished?
    ensures ClosingSteps(run) == [CloseRing, QuitTelemetry, TelemetryLastPushed, TelemetryDone]
  {
    ClosingStepsSoFar(c, run);
  }
}
