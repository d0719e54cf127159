/**
 * The command queue of the LPCM decoder and its end. A semaphore counts the commands. The decoder
 * acquires it, waits until its last output has been given back, pops a command and executes it. Closing
 * turns every command in the queue into a close command, or adds one if there is none, gives the output
 * back, and waits for the decoder to exit.
 *
 * A state is changed by one atomic step of one thread at a time: the decoder, one that sends commands
 * or closes, one that gives the output back. `underflow` records that the semaphore or the queue was
 * taken from while empty.
 */
module LpcmClose {
  const COMMANDS := 4

  datatype Cmd = StartSeq | EndSeq | DecodeAu | Close

  datatype Worker =
    | AtSemaphore
    | SemaphoreAsleep
    | SemaphoreAwake      // does not look at the semaphore again
    | Acquired            // wants the mutex of the output
    | AtOutput            // has it
    | OutputAsleep
    | OutputAwake         // wants the mutex of the output again
    | OutputFree          // has it, and the output has been given back
    | Executing(cmd: Cmd) // still has it
    | Exited
  {
    predicate HoldsOutput() {
      AtOutput? || OutputFree? || Executing?
    }

    /** Has acquired the semaphore, but not popped the command. */
    predicate HasTicket() {
      Acquired? || AtOutput? || OutputAsleep? || OutputAwake? || OutputFree?
    }
  }

  datatype Sender = Quiet | Emplaced

  datatype Closer = NotClosing | Marked(post: bool) | Posted | OutputReleased

  /** `decoded` counts the access units decoded since closing began. */
  datatype State = State(queue: seq<Cmd>, value: nat, worker: Worker, sender: Sender, closer: Closer,
                         outputLocked: bool, decoded: nat, underflow: bool)

  datatype Step = WorkerStep | SendStep(cmd: Cmd) | PostStep | GiveBackStep | CloseStep

  ghost function Work(s: State): State {
    match s.worker
    case AtSemaphore =>
      if s.value == 0 then s.(worker := SemaphoreAsleep) else s.(value := s.value - 1, worker := Acquired)
    case SemaphoreAsleep => s
    case SemaphoreAwake =>
      if s.value == 0 then s.(underflow := true) else s.(value := s.value - 1, worker := Acquired)
    case Acquired => s.(worker := AtOutput)
    case AtOutput => s.(worker := if s.outputLocked then OutputAsleep else OutputFree)
    case OutputAsleep => s
    case OutputAwake => s.(worker := AtOutput)
    case OutputFree =>
      if s.queue == [] then s.(underflow := true) else s.(queue := s.queue[1..], worker := Executing(s.queue[0]))
    case Executing(cmd) =>
      if cmd == Close then s.(worker := Exited)
      else if cmd == DecodeAu then
        s.(outputLocked := true, worker := AtSemaphore,
           decoded := if s.closer.NotClosing? then s.decoded else s.decoded + 1)
      else s.(worker := AtSemaphore)
    case Exited => s
  }

  ghost function Release(s: State): State {
    s.(value := s.value + 1, worker := if s.worker.SemaphoreAsleep? then SemaphoreAwake else s.worker)
  }

  /** No command is sent after closing has begun. */
  ghost function Send(s: State, cmd: Cmd): State {
    if s.sender.Quiet? && s.closer.NotClosing? && |s.queue| < COMMANDS && cmd != Close
    then s.(queue := s.queue + [cmd], sender := Emplaced) else s
  }

  ghost function Post(s: State): State {
    if s.sender.Emplaced? then Release(s).(sender := Quiet) else s
  }

  ghost function GiveBack(s: State): State {
    if s.worker.HoldsOutput() then s
    else s.(outputLocked := false, worker := if s.worker.OutputAsleep? then OutputAwake else s.worker)
  }

  ghost function AllClose(n: nat): seq<Cmd> {
    seq(n, _ => Close)
  }

  ghost function CloseOn(s: State): State {
    match s.closer
    case NotClosing =>
      if !s.sender.Quiet? then s
      else s.(queue := AllClose(if s.queue == [] then 1 else |s.queue|), closer := Marked(s.queue == []))
    case Marked(post) => (if post then Release(s) else s).(closer := Posted)
    case Posted => if s.worker.HoldsOutput() then s else GiveBack(s).(closer := OutputReleased)
    case OutputReleased => s
  }

  ghost function After(s: State, step: Step): State {
    match step
    case WorkerStep => Work(s)
    case SendStep(cmd) => Send(s, cmd)
    case PostStep => Post(s)
    case GiveBackStep => GiveBack(s)
    case CloseStep => CloseOn(s)
  }

  ghost predicate Ok(s: State) {
    && !s.underflow
    // The semaphore counts the commands in the queue
    && s.value + (if s.worker.HasTicket() then 1 else 0) + (if s.sender.Emplaced? then 1 else 0)
       + (if s.closer == Marked(true) then 1 else 0) == |s.queue|
    && (s.worker.SemaphoreAsleep? ==> s.value == 0) && (s.worker.SemaphoreAwake? ==> s.value > 0)
    && (s.worker.OutputFree? ==> !s.outputLocked) && (s.worker.OutputAsleep? ==> s.outputLocked)
    && (s.closer.NotClosing? ==>
          !s.worker.Exited? && Close !in s.queue && s.worker != Executing(Close) && s.decoded == 0)
    && (!s.closer.NotClosing? ==>
          && s.sender.Quiet?
          && (forall i | 0 <= i < |s.queue| :: s.queue[i] == Close)
          // There is a close command, or it has been popped
          && (s.queue != [] || s.worker == Executing(Close) || s.worker.Exited?)
          && s.decoded + (if s.worker == Executing(DecodeAu) then 1 else 0) <= 1)
    && (s.closer.OutputReleased? ==> !s.outputLocked && (s.worker.Executing? ==> s.worker.cmd == Close))
  }

  lemma WorkOk(s: State)
    requires Ok(s)
    ensures Ok(Work(s))
  {
  }

  lemma CommandOk(s: State, cmd: Cmd)
    requires Ok(s)
    ensures Ok(Send(s, cmd)) && Ok(Post(s)) && Ok(GiveBack(s))
  {
  }

  lemma CloseOk(s: State)
    requires Ok(s)
    ensures Ok(CloseOn(s))
  {
  }

  lemma AfterOk(s: State, step: Step)
    requires Ok(s)
    ensures Ok(After(s, step))
  {
    hide Ok, Work, Send, Post, GiveBack, CloseOn;
    WorkOk(s);
    CommandOk(s, if step.SendStep? then step.cmd else StartSeq);
    CloseOk(s);
  }

  ghost function Start(): State {
    State([], 0, AtSemaphore, Quiet, NotClosing, false, 0, false)
  }

  /** Any interleaving of steps. */
  ghost function Run(s: State, steps: seq<Step>): State {
    if steps == [] then s else After(Run(s, steps[..|steps| - 1]), steps[|steps| - 1])
  }

  lemma {:induction false} RunOk(s: State, steps: seq<Step>)
    requires Ok(s)
    ensures Ok(Run(s, steps))
  {
    hide After, Ok;
    if steps != [] {
      RunOk(s, steps[..|steps| - 1]);
      AfterOk(Run(s, steps[..|steps| - 1]), steps[|steps| - 1]);
    }
  }

  /**
   * In every run neither the semaphore nor the queue underflows. The semaphore counts the commands in the
   * queue, except for one that the decoder has acquired but not popped, and one that was put into the
   * queue by a sender or by closing and not yet counted.
   */
  lemma QueueIsSafe(steps: seq<Step>)
    ensures var s := Run(Start(), steps);
      && !s.underflow
      && |s.queue| == s.value + (if s.worker.HasTicket() then 1 else 0)
                      + (if s.sender.Emplaced? || s.closer == Marked(true) then 1 else 0)
      && (s.worker.OutputFree? ==> s.queue != [])
      // Once closing has begun, at most the access unit already popped is decoded
      && s.decoded <= 1
      // Once closing has given the output back, it stays so
      && (s.closer.OutputReleased? ==> !s.outputLocked)
  {
    RunOk(Start(), steps);
  }

  /** Closing does not have to wait long for the mutex of the output. */
  lemma OutputMutexComesFree(s: State)
    requires Ok(s) && s.worker.HoldsOutput()
    ensures || !Work(s).worker.HoldsOutput()
            || !Work(Work(s)).worker.HoldsOutput()
            || !Work(Work(Work(s))).worker.HoldsOutput()
  {
  }

  /** How many steps the decoder is away from its end once closing has given the output back. */
  ghost function Rank(worker: Worker): nat {
    match worker
    case Exited => 0
    case Executing(_) => 1
    case OutputFree => 2
    case AtOutput => 3
    case OutputAwake => 4
    case OutputAsleep => 5
    case Acquired => 5
    case SemaphoreAwake => 6
    case SemaphoreAsleep => 7
    case AtSemaphore => 7
  }

  ghost function WorkerSteps(steps: seq<Step>): nat {
    if steps == [] then 0
    else WorkerSteps(steps[..|steps| - 1]) + if steps[|steps| - 1].WorkerStep? then 1 else 0
  }

  lemma CloserStays(s: State, step: Step)
    requires Ok(s) && s.closer.OutputReleased?
    ensures After(s, step).closer.OutputReleased?
    ensures Rank(After(s, step).worker) <= Rank(s.worker)
    ensures step.WorkerStep? && !s.worker.Exited? ==> Rank(After(s, step).worker) < Rank(s.worker)
  {
  }

  /**
   * Closing cannot deadlock: from when it has given the output back, whatever the other threads do,
   * seven steps of the decoder are enough for it to exit, and none of them has to wait.
   */
  lemma {:induction false} CloseTerminates(s: State, steps: seq<Step>)
    requires Ok(s) && s.closer.OutputReleased?
    ensures var t := Run(s, steps);
      && t.closer.OutputReleased?
      && Rank(t.worker) + (if t.worker.Exited? then 0 else WorkerSteps(steps)) <= Rank(s.worker)
      && (WorkerSteps(steps) >= 7 ==> t.worker.Exited? && !t.worker.HoldsOutput())
  {
    hide After, Ok;
    if steps != [] {
      var before, step := steps[..|steps| - 1], steps[|steps| - 1];
      CloseTerminates(s, before);
      RunOk(s, before);
      CloserStays(Run(s, before), step);
    }
  }
}
