/**
 * The command queue of the ATRAC3plus decoder and its end. The decoder waits on a condition variable
 * for a command and stops when a flag is cleared. Closing clears the flag, sends a close command if the
 * queue is empty, gives the output back, and waits for the decoder to exit. Two of the signals are sent
 * after the mutex has been returned.
 *
 * A state is changed by one atomic step of one thread at a time: the decoder, any number of threads
 * that send commands, one that gives the output back, one that closes. `underflow` records that a
 * command was popped from the empty queue.
 */
module AtracxClose {
  const COMMANDS := 4

  datatype Cmd = StartSeq | EndSeq | DecodeAu | Close

  datatype Worker =
    | Top                     // wants the mutex of the queue
    | AtQueue                 // has it
    | QueueAsleep
    | QueueAwake              // has the mutex of the queue again
    | Popped(cmd: Cmd)        // looks at the flag
    | Executing(cmd: Cmd)
    | AtOutput                // has the mutex of the output
    | OutputAsleep
    | OutputAwake             // wants the mutex of the output again
    | OutputFree              // has it, and looks at the flag again
    | Decoding                // still has it
    | Exited
  {
    predicate HoldsQueue() {
      AtQueue? || QueueAwake?
    }

    predicate HoldsOutput() {
      AtOutput? || OutputFree? || Decoding?
    }
  }

  /** `Sent(signal)` is whether the close command was sent and its signal was not. */
  datatype Closer = NotClosing | Stopped | Sent(signal: bool) | OutputCleared | Joining

  /** `unsignalled` counts commands whose signal has not been sent. */
  datatype State = State(queue: seq<Cmd>, unsignalled: nat, worker: Worker, runThread: bool, closer: Closer,
                         outputLocked: bool, decoded: nat, underflow: bool)

  datatype Step = WorkerStep | SendStep(cmd: Cmd) | SignalStep | GiveBackStep | CloseStep

  ghost function Work(s: State): State {
    match s.worker
    case Top => s.(worker := AtQueue)
    case AtQueue =>
      if s.queue == [] then s.(worker := QueueAsleep) else s.(queue := s.queue[1..], worker := Popped(s.queue[0]))
    case QueueAsleep => s
    case QueueAwake => s.(worker := Top)
    case Popped(cmd) => s.(worker := if s.runThread then Executing(cmd) else Exited)
    case Executing(cmd) =>
      if cmd == DecodeAu then s.(worker := AtOutput)
      // An unknown command is fatal; a close command never gets here
      else if cmd == Close then s.(underflow := true)
      else s.(worker := Top)
    case AtOutput => s.(worker := if s.outputLocked then OutputAsleep else OutputFree)
    case OutputAsleep => s
    case OutputAwake => s.(worker := AtOutput)
    case OutputFree => s.(worker := if s.runThread then Decoding else Exited)
    case Decoding =>
      s.(outputLocked := true, worker := Top, decoded := if s.runThread then s.decoded else s.decoded + 1)
    case Exited => s
  }

  /** Needs the mutex of the queue. */
  ghost function Send(s: State, cmd: Cmd): State {
    if s.closer.NotClosing? && !s.worker.HoldsQueue() && |s.queue| < COMMANDS && cmd != Close
    then s.(queue := s.queue + [cmd], unsignalled := s.unsignalled + 1) else s
  }

  ghost function WakeQueue(s: State): State {
    s.(worker := if s.worker.QueueAsleep? then QueueAwake else s.worker)
  }

  ghost function Signal(s: State): State {
    if s.unsignalled > 0 then WakeQueue(s).(unsignalled := s.unsignalled - 1) else s
  }

  ghost function WakeOutput(s: State): State {
    s.(worker := if s.worker.OutputAsleep? then OutputAwake else s.worker)
  }

  /** Signals before it returns the mutex of the output. */
  ghost function GiveBack(s: State): State {
    if s.worker.HoldsOutput() then s else WakeOutput(s).(outputLocked := false)
  }

  ghost function CloseOn(s: State): State {
    match s.closer
    case NotClosing => s.(runThread := false, closer := Stopped)
    case Stopped =>
      if s.worker.HoldsQueue() then s
      else if s.queue != [] then s.(closer := Sent(false))
      else s.(queue := [Close], closer := Sent(true))
    case Sent(signal) =>
      if signal then WakeQueue(s).(closer := Sent(false))
      else if s.worker.HoldsOutput() then s
      else s.(outputLocked := false, closer := OutputCleared)
    case OutputCleared => WakeOutput(s).(closer := Joining)
    case Joining => s
  }

  ghost function After(s: State, step: Step): State {
    match step
    case WorkerStep => Work(s)
    case SendStep(cmd) => Send(s, cmd)
    case SignalStep => Signal(s)
    case GiveBackStep => GiveBack(s)
    case CloseStep => CloseOn(s)
  }

  /** Signals on their way to a decoder that waits for a command. */
  ghost function SignalsComing(s: State): nat {
    s.unsignalled + if s.closer == Sent(true) then 1 else 0
  }

  ghost predicate Ok(s: State) {
    && !s.underflow
    && (s.runThread <==> s.closer.NotClosing?)
    // A decoder that sleeps is going to be woken up for every command
    && (s.worker.QueueAsleep? ==> |s.queue| <= SignalsComing(s))
    && (s.worker.OutputAsleep? ==> s.outputLocked || s.closer.OutputCleared?)
    && (s.worker.OutputFree? || s.worker.Decoding? ==> !s.outputLocked)
    && (s.runThread ==> !s.worker.Exited? && s.decoded == 0)
    && (s.closer.NotClosing? || s.closer.Stopped? ==> Close !in s.queue && s.worker != Popped(Close))
    && s.worker != Executing(Close)
    && (!s.runThread ==> s.decoded + (if s.worker.Decoding? then 1 else 0) <= 1)
    // What the decoder does next, after closing has sent its command
    && (s.closer.Sent? || s.closer.OutputCleared? || s.closer.Joining? ==>
          s.queue != [] || s.worker.Popped? || s.worker.Exited?)
    && (s.closer.OutputCleared? || s.closer.Joining? ==> !s.outputLocked && !s.worker.Decoding?)
    && (s.decoded > 0 ==>
          !s.worker.Executing? && !s.worker.HoldsOutput() && !s.worker.OutputAsleep? && !s.worker.OutputAwake?)
  }

  lemma WorkOk(s: State)
    requires Ok(s)
    ensures Ok(Work(s))
  {
  }

  lemma CommandOk(s: State, cmd: Cmd)
    requires Ok(s)
    ensures Ok(Send(s, cmd)) && Ok(Signal(s)) && Ok(GiveBack(s))
  {
  }

  lemma CloseOk(s: State)
    requires Ok(s)
    ensures Ok(CloseOn(s))
  {
  }

  lemma AfterOk(s: State, step: Step)
    requires Ok(s)
    ensures Ok(After(s, step))
  {
    hide Ok, Work, Send, Signal, GiveBack, CloseOn;
    WorkOk(s);
    CommandOk(s, if step.SendStep? then step.cmd else StartSeq);
    CloseOk(s);
  }

  ghost function Start(): State {
    State([], 0, Top, true, NotClosing, false, 0, false)
  }

  /** Any interleaving of steps. */
  ghost function Run(s: State, steps: seq<Step>): State {
    if steps == [] then s else After(Run(s, steps[..|steps| - 1]), steps[|steps| - 1])
  }

  lemma {:induction false} RunOk(s: State, steps: seq<Step>)
    requires Ok(s)
    ensures Ok(Run(s, steps))
  {
    hide After, Ok;
    if steps != [] {
      RunOk(s, steps[..|steps| - 1]);
      AfterOk(Run(s, steps[..|steps| - 1]), steps[|steps| - 1]);
    }
  }

  /** In every run no wakeup is lost although signals are sent without a mutex, and closing stops the decoder. */
  lemma QueueIsSafe(steps: seq<Step>)
    ensures var s := Run(Start(), steps);
      && !s.underflow
      && (s.worker.QueueAsleep? && s.queue != [] ==> SignalsComing(s) > 0)
      && (s.worker.OutputAsleep? && !s.outputLocked ==> s.closer.OutputCleared?)
      // Once the flag is cleared, at most the access unit being decoded is decoded
      && (!s.runThread ==> s.decoded <= 1)
      // Once closing has given the output back, it stays so
      && (s.closer.OutputCleared? || s.closer.Joining? ==> !s.outputLocked)
      && (s.worker.Exited? ==> !s.runThread)
  {
    RunOk(Start(), steps);
  }

  /** How many steps the decoder is away from its end while closing waits for it. */
  ghost function Rank(worker: Worker): nat {
    match worker
    case Exited => 0
    case Popped(_) => 1
    case OutputFree => 1
    case AtQueue => 2
    case AtOutput => 2
    case Top => 3
    case OutputAwake => 3
    case QueueAwake => 4
    case Executing(_) => 4
    case Decoding => 4
    case QueueAsleep => 5
    case OutputAsleep => 5
  }

  ghost function WorkerSteps(steps: seq<Step>): nat {
    if steps == [] then 0
    else WorkerSteps(steps[..|steps| - 1]) + if steps[|steps| - 1].WorkerStep? then 1 else 0
  }

  /** Those after the first signal. */
  ghost function StepsSinceSignal(steps: seq<Step>): nat {
    if steps == [] then 0
    else
      var before := steps[..|steps| - 1];
      StepsSinceSignal(before) + if steps[|steps| - 1].WorkerStep? && SignalStep in before then 1 else 0
  }

  lemma CloserStays(s: State, step: Step)
    requires Ok(s) && s.closer.Joining?
    ensures var t := After(s, step);
      && t.closer.Joining?
      && if s.worker.QueueAsleep?
         then t.worker == (if step.SignalStep? then QueueAwake else QueueAsleep)
         else Rank(t.worker) + (if step.WorkerStep? && !t.worker.Exited? then 1 else 0) <= Rank(s.worker) < 5
  {
  }

  /** While closing waits for the decoder, a decoder that sleeps is about to be woken up. */
  lemma SignalMissing(s: State)
    requires Ok(s) && s.closer.Joining? && s.worker.QueueAsleep?
    ensures s.queue != [] && s.unsignalled > 0
  {
  }

  /**
   * Closing cannot deadlock: once it waits for the decoder, whatever the other threads do, four steps of
   * the decoder are enough for it to exit. If a command was sent to a decoder that slept, and the signal
   * was not, it sleeps until then, and four steps after that are enough.
   */
  lemma {:induction false} CloseTerminates(s: State, steps: seq<Step>)
    requires Ok(s) && s.closer.Joining?
    ensures var t, asleep := Run(s, steps), s.worker.QueueAsleep?;
      && t.closer.Joining?
      && (asleep && SignalStep !in steps ==> t.worker.QueueAsleep? && t.unsignalled > 0)
      && ((if asleep then StepsSinceSignal(steps) else WorkerSteps(steps)) >= 4 ==>
            t.worker.Exited? && !t.worker.HoldsOutput() && !t.worker.HoldsQueue())
  {
    hide After, Ok;
    Countdown(s, steps);
    RunOk(s, steps);
    if Run(s, steps).worker.QueueAsleep? { SignalMissing(Run(s, steps)); }
  }

  lemma {:induction false} Countdown(s: State, steps: seq<Step>)
    requires Ok(s) && s.closer.Joining?
    ensures var t, asleep := Run(s, steps), s.worker.QueueAsleep?;
      && t.closer.Joining?
      && if asleep && SignalStep !in steps then t.worker.QueueAsleep? && StepsSinceSignal(steps) == 0
         else
           && !t.worker.QueueAsleep?
           && (t.worker.Exited? ||
               Rank(t.worker) + (if asleep then StepsSinceSignal(steps) else WorkerSteps(steps)) <= 4)
  {
    hide After, Ok;
    if steps != [] {
      var before, step := steps[..|steps| - 1], steps[|steps| - 1];
      assert steps == before + [step];
      Countdown(s, before);
      RunOk(s, before);
      CloserStays(Run(s, before), step);
    } else if !s.worker.QueueAsleep? {
      CloserStays(s, GiveBackStep);
    }
  }

  ghost predicate Reachable(s: State) {
    exists steps: seq<Step> :: s == Run(Start(), steps)
  }

  lemma {:induction false} Reach(s: State, step: Step) returns (t: State)
    requires Reachable(s)
    ensures Reachable(t) && t == After(s, step)
  {
    var steps: seq<Step> :| s == Run(Start(), steps);
    var more := steps + [step];
    assert more[..|more| - 1] == steps;
    t := After(s, step);
    assert t == Run(Start(), more);
  }

  /** There is a run in which closing waits for a decoder that sleeps and has not been signalled. */
  lemma {:induction false} JoinsASleeper() returns (s: State)
    ensures Reachable(s) && s.closer.Joining? && s.worker.QueueAsleep? && s.unsignalled == 1
  {
    s := Start();
    assert Run(Start(), []) == s;
    hide Reachable;
    s := Reach(s, WorkerStep);
    s := Reach(s, WorkerStep);
    s := Reach(s, SendStep(DecodeAu));
    s := Reach(s, CloseStep);
    s := Reach(s, CloseStep);
    s := Reach(s, CloseStep);
    s := Reach(s, CloseStep);
  }
}
