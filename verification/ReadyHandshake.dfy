/**
 The READY line (firmware/nrf54l15/src/spi_bridge.c:40-47 and 80-104,
 firmware/esp32c5/main/bridge_spi.c:137-170). The receiver raises it after arming and its
 completion callback lowers it; the controller looks at it and clocks a transfer later.
 */
module ReadyHandshake {

  // `spi_thread`: preparing, armed but READY not raised yet, READY raised.
  datatype SpiThread = Preparing | Arming | Waiting

  // `bridge_task`: at the outer poll, about to clock a transfer, looking for READY low, then for it high.
  datatype LinkTask = Polling | Clocking(drained: nat) | AwaitingLow(drained: nat) | AwaitingHigh(drained: nat)

  // `armed`: the peripheral can take a transfer. `completed`: one is over, its callback not run.
  // The last line is history: whether each transfer found the peripheral armed, and
  // whether a poll ever took READY of a transfer already over for a new one.
  datatype Link = Link(
    thread: SpiThread, armed: bool, completed: bool, done: bool, ready: bool, task: LinkTask,
    transfers: seq<bool>, misread: bool)

  datatype Step =
    | Arm
    | Raise
    | Callback
    | Resume
    | Poll
    | Clock(more: bool)
    | SeeLow
    | SeeHigh
    | GiveUp

  const DRAIN_LIMIT: nat := 8

  function Booted(): Link {
    Link(Preparing, false, false, false, false, Polling, [], false)
  }

  // A transfer the peripheral was not armed for brings nothing that decodes, so no more is pending.
  function AfterClock(k: Link, more: bool): LinkTask
    requires k.task.Clocking?
  {
    if k.armed && more then AwaitingLow(k.task.drained + 1) else Polling
  }

  function Take(k: Link, e: Step): Link {
    match e
    case Arm => if k.thread.Preparing? then k.(thread := Arming, armed := true) else k
    case Raise => if k.thread.Arming? then k.(thread := Waiting, ready := true) else k
    case Callback => if k.completed then k.(completed := false, ready := false, done := true) else k
    case Resume => if k.thread.Waiting? && k.done then k.(thread := Preparing, done := false) else k
    case Poll =>
      if k.task.Polling? && k.ready then k.(task := Clocking(0), misread := k.misread || k.completed) else k
    case Clock(more) =>
      if k.task.Clocking?
      then k.(task := AfterClock(k, more), armed := false, completed := k.completed || k.armed,
              transfers := k.transfers + [k.armed])
      else k
    case SeeLow => if k.task.AwaitingLow? && !k.ready then k.(task := AwaitingHigh(k.task.drained)) else k
    case SeeHigh =>
      if k.task.AwaitingHigh? && k.ready
      then k.(task := if k.task.drained < DRAIN_LIMIT then Clocking(k.task.drained) else Polling) else k
    case GiveUp => if k.task.AwaitingLow? || k.task.AwaitingHigh? then k.(task := Polling) else k
  }

  function Run(steps: seq<Step>): Link {
    if steps == [] then Booted() else Take(Run(steps[..|steps| - 1]), steps[|steps| - 1])
  }

  // The phases of a transfer exclude each other, and a drain has at most eight transfers.
  predicate Phases(k: Link) {
    && !(k.armed && k.completed) && !(k.armed && k.done) && !(k.completed && k.done)
    && (k.thread.Preparing? ==> !k.armed && !k.completed && !k.done)
    && (!k.thread.Preparing? ==> k.armed || k.completed || k.done)
    && (k.task.Clocking? ==> k.task.drained < DRAIN_LIMIT)
  }

  // Unless a poll misread READY, it is high exactly from the raise to the callback, and the
  // controller clocks and looks for the next raise only in the right phase.
  predicate InStep(k: Link) {
    && (k.ready <==> k.thread.Waiting? && !k.done)
    && (k.thread.Arming? ==> k.armed)
    && (k.task.Clocking? ==> k.ready && k.armed)
    && (k.task.AwaitingHigh? && k.ready ==> k.armed)
    && (forall i :: 0 <= i < |k.transfers| ==> k.transfers[i])
  }

  lemma {:induction false} RunInStep(steps: seq<Step>)
    ensures Phases(Run(steps)) && (!Run(steps).misread ==> InStep(Run(steps)))
    decreases |steps|
  {
    if steps != [] {
      RunInStep(steps[..|steps| - 1]);
      StepPhases(Run(steps[..|steps| - 1]), steps[|steps| - 1]);
      if !Run(steps).misread {
        StepInStep(Run(steps[..|steps| - 1]), steps[|steps| - 1]);
      }
      hide Take, Phases, InStep;
    }
  }

  lemma StepPhases(k: Link, e: Step)
    requires Phases(k)
    ensures Phases(Take(k, e)) && (k.misread ==> Take(k, e).misread)
  {
  }

  lemma StepInStep(k: Link, e: Step)
    requires Phases(k) && InStep(k) && !Take(k, e).misread
    ensures InStep(Take(k, e))
  {
  }


  /**
   If no poll takes READY for new before the callback of the last transfer has run, every
   transfer, the first of a drain and each later one, finds a freshly armed peripheral.
   */
  lemma TransfersAreFresh(steps: seq<Step>, i: nat)
    requires !Run(steps).misread && i < |Run(steps).transfers|
    ensures Run(steps).transfers[i]
  {
    RunInStep(steps);
  }

  /** The condition is needed: a poll before the callback can clock a peripheral that is not armed. */
  lemma MisreadClocksStale(steps: seq<Step>)
    requires Run(steps).task.Polling? && Run(steps).ready && Run(steps).completed
    ensures
      var k := Run(steps + [Poll, Clock(true)]);
      k.misread && |k.transfers| == |Run(steps).transfers| + 1 && !k.transfers[|k.transfers| - 1]
  {
    RunInStep(steps);
    var polled, clocked := steps + [Poll], steps + [Poll, Clock(true)];
    assert polled[..|polled| - 1] == steps && clocked[..|clocked| - 1] == polled;
  }

  // And such a poll can happen: the transfer is over and its callback has not run.
  lemma MisreadHappens() returns (steps: seq<Step>)
    ensures Run(steps).task.Polling? && Run(steps).ready && Run(steps).completed
  {
    steps := [Arm, Raise, Poll, Clock(false)];
    assert steps[..3] == [Arm, Raise, Poll] && steps[..3][..2] == [Arm, Raise] && steps[..3][..2][..1] == [Arm];
    assert [Arm][..0] == [];
    assert Run([Arm]) == Take(Booted(), Arm);
    assert Run([Arm, Raise]) == Take(Run([Arm]), Raise);
    assert Run([Arm, Raise, Poll]) == Take(Run([Arm, Raise]), Poll);
  }
}
