/**
 * Commands to the SPU thread. A caller takes the mutex, puts its command into a queue of one, waits
 * for the reply in another queue of one, updates the table of the PPU side, and leaves. The SPU thread
 * takes the command, replies at once, and only then executes it, while the next caller may already be
 * at work. When the event queue is too full the SPU thread stops until a command arrives; the thread
 * that empties the event queue sends one. Only a flush does not stop: it tries to report its end again
 * and again, and takes no command meanwhile.
 *
 * A state is changed by one atomic step of one thread at a time. `failed` records that one of the
 * checks in the code that must never fail did.
 */
module CommandProtocol {
  import opened Bytes
  import opened StreamTables

  const MAX_ES := 64
  const EVENT_QUEUE_SIZE := 132

  type ThreadId = nat

  /** The thread that processes the events. */
  const DEMUX_THREAD: ThreadId := 0

  datatype Command =
    | EnableEs(es: Es)
    | DisableEs(slot: nat, ids: Ids)
    | SetStream | ReleaseAu(slot: nat, ids: Ids) | FlushEs(ids: Ids) | ResetStream | ResetEs(ids: Ids) | Resume
  {
    function Type(): nat {
      match this
      case EnableEs(_) => 0
      case DisableEs(_, _) => 2
      case SetStream => 4
      case ReleaseAu(_, _) => 6
      case FlushEs(_) => 8
      case ResetStream => 12
      case ResetEs(_) => 14
      case Resume => 16
    }
  }

  /** The holder of the mutex and how far it is. */
  datatype Caller =
    | Nobody
    | Entered(t: ThreadId, cmd: Command)
    | Waiting(t: ThreadId, cmd: Command)
    | Woken(t: ThreadId, cmd: Command)
    | Answered(t: ThreadId, cmd: Command)
    | Leaving(t: ThreadId)

  datatype Spu =
    | Looping                  // looks for a command
    | Sleeping                 // waits for a command
    | Roused                   // has been told that there is one
    | Taken(cmd: Command)      // has it
    | Replied(cmd: Command)    // has replied, and executes it
    | Working                  // demultiplexes
    | Sending                  // found the event queue not too full
    | Refused                  // found the event queue too full
    | Flushing(au: bool)       // is going to report an access unit, if there is one, and the end of the flush
    | FlushSending(au: bool)   // found the event queue not too full for that

  datatype Event = AuFound(ids: Ids, id: nat) | FlushDone | DemuxDone | ProgEnd

  /** How far the thread that processes the events is. */
  datatype Consumer =
    | Locking                       // wants the mutex, to look whether it has to wait for a release
    | Asleep                        // waits for one
    | Awake                         // wants the mutex again
    | Peeking                       // waits for an event
    | Starting                      // has found the end of the stream; wants the mutex
    | Rechecking                    // wants the mutex, to look for a reset once more
    | Marking                       // a reset was requested; wants the mutex, to mark all streams
    | Unmarking                     // a reset is over; wants the mutex, to unmark all streams
    | Finishing                     // has reported the end of the stream; wants the mutex
    | Deciding                      // wants the mutex, to look up the stream of the event
    | Resetting(slot: nat)          // has the mutex, and sends a command because of a mark
    | Calling(slot: nat, id: nat)   // is in the callback of the stream
    | Done                          // is done with the event
    | JustPopped
    | Resuming                      // wants the mutex to send the command that resumes the SPU thread, or has it
  {
    predicate WantsMutex() {
      || Locking? || Awake? || Starting? || Rechecking? || Marking? || Unmarking? || Finishing? || Deciding?
      || Resuming?
    }

    /** Has seen the event at the head of the queue. */
    predicate HasEvent() {
      || Starting? || Rechecking? || Marking? || Unmarking? || Finishing? || Deciding? || Resetting? || Calling?
      || Done?
    }
  }

  /**
   * What the thread remembers: the streams whose callbacks had no room, the streams of which something was
   * released, whether a reset is requested, begins or is under way, and the streams marked by it.
   */
  datatype Flags = Flags(full: set<nat>, released: set<nat>, resetRequested: bool, resetStarted: bool,
                         resetInProgress: bool, marked: set<nat>)
  {
    predicate MustSleep() {
      full != {} && full * released == {} && !resetRequested
    }

    function Noted(): Flags {
      this.(resetStarted := resetRequested, resetRequested := false, released := {})
    }
  }

  const NO_FLAGS := Flags({}, {}, false, false, false, {})

  datatype Sequence = Dormant | Running | Ending

  /** The slot of the stream for which an access unit was found, if it is still the same stream. */
  ghost function EventSlot(slots: Slots, event: Event): (r: Option<nat>)
    ensures r.Some? ==> event.AuFound? && r.value < |slots|
  {
    if !event.AuFound? then None
    else
      var r := FindEs(slots, event.ids);
      if r.Some? && slots[r.value].value.id == event.id then r else None
  }

  ghost function OpenSlots(slots: Slots): set<nat> {
    set i: nat | i < |slots| && slots[i].Some?
  }

  /** The event queue and the thread that processes it. */
  datatype EventSide = EventSide(queue: seq<Event>, consumer: Consumer, flags: Flags, sequence: Sequence)
  {
    ghost function To(consumer: Consumer): EventSide {
      this.(consumer := consumer)
    }

    /** Looks whether something was released, and whether a reset is requested. */
    ghost function Lock(): EventSide {
      if flags.MustSleep() then To(Asleep) else To(Peeking).(flags := flags.Noted())
    }

    /** The event itself, after all that a reset needs. */
    ghost function Process(): EventSide
      requires queue != []
    {
      match queue[0]
      case AuFound(_, _) => To(Deciding)
      case FlushDone => To(Deciding)
      case ProgEnd => To(Done)
      case DemuxDone =>
        if flags.resetInProgress then To(Unmarking).(flags := flags.(resetInProgress := false)) else To(Finishing)
    }

    ghost function BeginReset(): EventSide
      requires queue != []
    {
      if flags.resetStarted then To(Marking).(flags := flags.(resetInProgress := true)) else Process()
    }

    ghost function Peek(): EventSide {
      if queue == [] then this else if queue[0].DemuxDone? then To(Starting) else BeginReset()
    }

    ghost function StartDone(): EventSide
      requires queue != []
    {
      var next := this.(sequence := Ending);
      if flags.resetStarted then next.BeginReset() else next.To(Rechecking)
    }

    ghost function Recheck(): EventSide
      requires queue != []
    {
      this.(flags := flags.Noted()).BeginReset()
    }

    ghost function Mark(slots: Slots): EventSide
      requires queue != []
    {
      this.(flags := flags.(marked := OpenSlots(slots))).Process()
    }

    ghost function Unmark(): EventSide {
      To(Finishing).(flags := flags.(marked := {}))
    }

    ghost function FinishDone(): EventSide {
      To(Done).(sequence := if sequence.Ending? then Dormant else sequence)
    }

    /** During a reset the first access unit of each stream makes the thread send a command. */
    ghost predicate MustReset(slots: Slots)
      requires queue != []
    {
      var slot := EventSlot(slots, queue[0]);
      slot.Some? && flags.resetInProgress && slot.value in flags.marked
    }

    /** Events of streams that are not enabled any more are dropped, and during a reset all with access units. */
    ghost function Decide(slots: Slots): EventSide
      requires queue != []
    {
      var slot := EventSlot(slots, queue[0]);
      if MustReset(slots) then To(Resetting(slot.value))
      else if slot.None? || flags.resetInProgress then To(Done)
      else To(Calling(slot.value, queue[0].id))
    }

    /** If the application has no room, the event stays in the queue. The number of a disabled stream is 0. */
    ghost function Call(slots: Slots, accepted: bool): EventSide
      requires consumer.Calling?
    {
      var slot := consumer.slot;
      var same := slot < |slots| && slots[slot].Some? && slots[slot].value.id == consumer.id;
      if accepted then To(Done) else To(Locking).(flags := flags.(full := flags.full + {if same then slot else 0}))
    }

    ghost function Pop(): EventSide
      requires queue != []
    {
      To(JustPopped).(queue := queue[1..])
    }

    ghost function Check(): EventSide {
      To(if |queue| == 2 then Resuming else Locking).(flags := flags.(full := {}))
    }

    ghost function Next(slots: Slots, accepted: bool): EventSide
      requires consumer.HasEvent() ==> queue != []
    {
      match consumer
      case Locking => Lock()
      case Asleep => this
      case Awake => Lock()
      case Peeking => Peek()
      case Starting => StartDone()
      case Rechecking => Recheck()
      case Marking => Mark(slots)
      case Unmarking => Unmark()
      case Finishing => FinishDone()
      case Deciding => Decide(slots)
      case Resetting(_) => this
      case Calling(_, _) => Call(slots, accepted)
      case Done => Pop()
      case JustPopped => Check()
      case Resuming => this
    }

    /** A command was answered; the condition variable is signalled if the thread may wait for this. */
    ghost function Answered(slots: Slots, cmd: Command): EventSide {
      match cmd
      case EnableEs(_) =>
        if Count(slots) < |slots| then this.(flags := flags.(marked := flags.marked - {FirstFree(slots)})) else this
      case DisableEs(slot, _) => Signalled().(flags := flags.(released := flags.released + {slot}))
      case ReleaseAu(slot, _) => Signalled().(flags := flags.(released := flags.released + {slot}))
      case ResetStream => Signalled().(flags := flags.(resetRequested := true))
      case SetStream => this.(sequence := Running)
      case _ => this
    }

    ghost function Signalled(): EventSide {
      To(if consumer.Asleep? then Awake else consumer)
    }

    /** The command of the thread itself was answered. */
    ghost function Resumed(): EventSide {
      match consumer
      case Resuming => To(Locking)
      case Resetting(slot) => To(Done).(flags := flags.(marked := flags.marked - {slot}))
      case _ => this
    }

    /** The thread is where the event at the head of the queue and the reset lead. */
    ghost predicate Ok() {
      && (consumer.HasEvent() ==> queue != [])
      && (consumer.Starting? || consumer.Rechecking? || consumer.Unmarking? || consumer.Finishing? ==>
            queue[0].DemuxDone?)
      && (consumer.Deciding? ==> queue[0].AuFound? || queue[0].FlushDone?)
      && (consumer.Resetting? || consumer.Calling? ==> queue[0].AuFound?)
      && (consumer.Calling? || consumer.Unmarking? || consumer.Finishing? ==> !flags.resetInProgress)
      && (consumer.Marking? || consumer.Resetting? ==> flags.resetInProgress)
      && (consumer.Done? && queue[0].DemuxDone? ==> !flags.resetInProgress)
    }

    /** Two events are left, so the resume command is going to be sent. */
    ghost predicate NearlyEmpty() {
      consumer.Resuming? || (consumer.JustPopped? && |queue| == 2)
    }

    lemma NextOk(slots: Slots, accepted: bool)
      requires Ok()
      ensures var next := Next(slots, accepted);
        && next.Ok() && (next.consumer.Resuming? ==> NearlyEmpty())
        && (NearlyEmpty() ==> next.NearlyEmpty())
        && (consumer.Done? ==> next.queue == queue[1..] && next.consumer.JustPopped?)
        && (!consumer.Done? ==> next.queue == queue) && (consumer.Resetting? ==> next == this)
        && (next.consumer.Resetting? <==> consumer.Resetting? || (consumer.Deciding? && MustReset(slots)))
    {
      hide EventSlot, OpenSlots;
    }

    lemma AnsweredOk(slots: Slots, cmd: Command)
      requires Ok()
      ensures var next := Answered(slots, cmd);
        && next.Ok() && next.queue == queue
        && (next.consumer == consumer || (consumer.Asleep? && next.consumer.Awake?))
    {
    }
  }

  /** What the SPU thread replies, and to which command, counted from the first one. */
  datatype Answer = Answer(value: nat, to: nat)

  /**
   * `issued` and `served` count commands and replies. `info` is whether the queue of stream infos, of one, is
   * full, `newStream` whether the SPU thread has been told to take one from it.
   */
  datatype State = State(
    caller: Caller, cmds: seq<Command>, replies: seq<Answer>, spu: Spu, issued: nat, served: nat,
    slots: Slots, enabled: nat, nextId: nat, info: bool, ev: EventSide,
    table: map<Channel, nat>, maxEvents: nat, newStream: bool, waiting: bool,
    failed: bool)

  datatype Step =
    | EnterStep(t: ThreadId, cmd: Command) | SendStep | WakeStep | TakeReplyStep | UpdateStep | LeaveStep
    | EventStep(accepted: bool)
    | LookStep(work: bool) | RouseStep | TakeCommandStep | ReplyStep | ExecuteStep | TakeStreamStep
    | TrySendStep | PushStep(event: Event) | GiveUpStep(wait: bool) | LoopStep
    | TryFlushStep(found: bool) | PushFlushStep(ids: Ids, id: nat)

  // What a command does to the tables

  ghost function PpuAfter(slots: Slots, cmd: Command): Slots {
    match cmd
    case EnableEs(es) => if Count(slots) < |slots| then slots[FirstFree(slots) := Some(es)] else slots
    case DisableEs(slot, _) => if slot < |slots| then slots[slot := None] else slots
    case _ => slots
  }

  ghost function SpuAfter(table: map<Channel, nat>, cmd: Command): map<Channel, nat> {
    match cmd
    case EnableEs(es) =>
      if !es.ids.Known() || es.ids.Where() in table then table else table[es.ids.Where() := es.id]
    case DisableEs(_, ids) =>
      if !ids.Known() then table else table - {ids.Where()}
    case _ => table
  }

  ghost function MaxEventsAfter(maxEvents: nat, cmd: Command): int {
    match cmd
    case EnableEs(_) => maxEvents + 2
    case DisableEs(_, _) => maxEvents - 2
    case _ => maxEvents
  }

  // The steps

  /** Stream ids have 8 bits, and no stale handle of a stream is used after the stream was disabled. */
  ghost predicate Sound(slots: Slots, cmd: Command) {
    match cmd
    case EnableEs(es) => es.ids.Known() && es.ids.Is8Bit()
    case DisableEs(slot, ids) =>
      FindEs(slots, ids).Some? ==> slot < |slots| && slots[slot].Some? && slots[slot].value.ids == ids
    case ReleaseAu(slot, ids) => slot < |slots| && slots[slot].Some? && slots[slot].value.ids == ids
    case _ => true
  }

  /** The thread that processes the events sends commands by itself. */
  ghost predicate MayEnter(s: State, t: ThreadId, cmd: Command) {
    s.caller.Nobody? && t != DEMUX_THREAD && !cmd.Resume? && Sound(s.slots, cmd)
  }

  /** The caller leaves without sending the command. */
  ghost predicate Rejected(s: State, cmd: Command) {
    match cmd
    case EnableEs(es) => s.enabled == MAX_ES || FindEs(s.slots, es.ids).Some?
    case DisableEs(_, ids) => FindEs(s.slots, ids).None?
    case SetStream => s.info
    case ResetStream => !s.ev.sequence.Running?
    case _ => false
  }

  ghost function Numbered(s: State, cmd: Command): Command {
    if cmd.EnableEs? then EnableEs(cmd.es.(id := s.nextId)) else cmd
  }

  ghost function Enter(s: State, t: ThreadId, cmd: Command): State {
    if MayEnter(s, t, cmd) then s.(caller := Entered(t, cmd)) else s
  }

  ghost function Send(s: State): State {
    if !s.caller.Entered? then s
    else if Rejected(s, s.caller.cmd) then s.(caller := Leaving(s.caller.t))
    else if |s.cmds| >= 1 then s.(failed := true)
    else
      var cmd := Numbered(s, s.caller.cmd);
      s.(cmds := [cmd], caller := Waiting(s.caller.t, cmd), issued := s.issued + 1, info := s.info || cmd.SetStream?)
  }

  ghost function Wake(s: State): State {
    if s.caller.Waiting? && s.replies != [] then s.(caller := Woken(s.caller.t, s.caller.cmd)) else s
  }

  ghost function TakeReply(s: State): State {
    if !s.caller.Woken? then s
    else if s.replies == [] || (!s.caller.cmd.Resume? && s.replies[0].value != s.caller.cmd.Type() + 1)
    then s.(failed := true)
    else s.(replies := s.replies[1..], caller := Answered(s.caller.t, s.caller.cmd))
  }

  ghost predicate CanUpdate(s: State)
    requires s.caller.Answered?
  {
    && (s.caller.cmd.EnableEs? ==> Count(s.slots) < |s.slots|)
    && (s.caller.cmd.DisableEs? ==> s.enabled > 0)
  }

  ghost function UpdateTable(s: State): State
    requires s.caller.Answered? && CanUpdate(s)
  {
    var cmd, left := s.caller.cmd, s.(caller := Leaving(s.caller.t), slots := PpuAfter(s.slots, s.caller.cmd));
    match cmd
    case EnableEs(_) => left.(enabled := s.enabled + 1, nextId := s.nextId + 1)
    case DisableEs(_, _) => left.(enabled := s.enabled - 1)
    case _ => left
  }

  ghost function Update(s: State): State {
    if !s.caller.Answered? then s
    else if !CanUpdate(s) then s.(failed := true)
    else UpdateTable(s).(ev := s.ev.Answered(s.slots, s.caller.cmd))
  }

  ghost function Leave(s: State): State {
    if !s.caller.Leaving? then s
    else s.(caller := Nobody, ev := if s.caller.t == DEMUX_THREAD then s.ev.Resumed() else s.ev)
  }

  // The thread that processes the events

  /** `accepted` is the answer of the application, if its callback is called: whether it has room. */
  ghost function Consume(s: State, accepted: bool): State {
    if s.ev.consumer.WantsMutex() && !s.caller.Nobody? then s
    else if s.ev.consumer.HasEvent() && s.ev.queue == [] then s.(failed := true)
    else if s.ev.consumer.Resuming? then s.(caller := Entered(DEMUX_THREAD, Resume))
    else if s.ev.consumer.Deciding? && s.ev.MustReset(s.slots) then
      s.(ev := s.ev.Next(s.slots, accepted), caller := Entered(DEMUX_THREAD, ResetEs(s.ev.queue[0].ids)))
    else s.(ev := s.ev.Next(s.slots, accepted))
  }

  // The SPU thread

  ghost function Look(s: State, work: bool): State {
    if !s.spu.Looping? then s
    else if s.cmds != [] then s.(spu := Taken(s.cmds[0]), cmds := s.cmds[1..])
    else s.(spu := if work && !s.waiting then Working else Sleeping)
  }

  ghost function Rouse(s: State): State {
    if s.spu.Sleeping? && s.cmds != [] then s.(spu := Roused) else s
  }

  ghost function TakeCommand(s: State): State {
    if !s.spu.Roused? then s
    else if s.cmds == [] then s.(failed := true)
    else s.(spu := Taken(s.cmds[0]), cmds := s.cmds[1..])
  }

  ghost function Reply(s: State): State {
    if !s.spu.Taken? then s
    else if |s.replies| >= 1 then s.(failed := true)
    else
      s.(waiting := false, replies := [Answer(s.spu.cmd.Type() + 1, s.served)], served := s.served + 1,
         spu := Replied(s.spu.cmd))
  }

  /** The limit on events is a number of 8 bits. */
  ghost function Execute(s: State): State {
    if !s.spu.Replied? then s
    else
      var n := MaxEventsAfter(s.maxEvents, s.spu.cmd);
      if n < 0 || n > 255 then s.(failed := true)
      else
        s.(table := SpuAfter(s.table, s.spu.cmd), maxEvents := n, newStream := s.newStream || s.spu.cmd.SetStream?,
           spu := AfterCommand(s.table, s.spu.cmd))
  }

  ghost function AfterCommand(table: map<Channel, nat>, cmd: Command): Spu {
    if cmd.FlushEs? && cmd.ids.Known() && cmd.ids.Where() in table then Flushing(true) else Working
  }

  /** The stream before has been consumed. */
  ghost function TakeStream(s: State): State {
    if !s.spu.Working? || !s.newStream then s
    else if !s.info then s.(failed := true)
    else s.(newStream := false, info := false)
  }

  /** The access unit, if there is one, is not reported if there is no room; the end is, as soon as there is. */
  ghost function TryFlush(s: State, found: bool): State {
    if !s.spu.Flushing? then s
    else if s.spu.au && !found then s.(spu := Flushing(false))
    else if |s.ev.queue| >= s.maxEvents then s.(spu := Flushing(false), waiting := s.waiting || s.spu.au)
    else s.(spu := FlushSending(s.spu.au))
  }

  ghost function PushFlush(s: State, ids: Ids, id: nat): State {
    if !s.spu.FlushSending? then s
    else if |s.ev.queue| >= EVENT_QUEUE_SIZE then s.(failed := true)
    else if s.spu.au then
      s.(ev := s.ev.(queue := s.ev.queue + [AuFound(ids, id)]), spu := Flushing(false), waiting := false)
    else s.(ev := s.ev.(queue := s.ev.queue + [FlushDone]), spu := Working)
  }

  ghost function TrySend(s: State): State {
    if s.spu.Working? then s.(spu := if |s.ev.queue| >= s.maxEvents then Refused else Sending) else s
  }

  ghost function Push(s: State, event: Event): State {
    if !s.spu.Sending? then s
    else if |s.ev.queue| >= EVENT_QUEUE_SIZE then s.(failed := true)
    else s.(ev := s.ev.(queue := s.ev.queue + [event]), spu := Working, waiting := false)
  }

  ghost function GiveUp(s: State, wait: bool): State {
    if s.spu.Refused? then s.(waiting := s.waiting || wait, spu := Looping) else s
  }

  ghost function Loop(s: State): State {
    if s.spu.Working? then s.(spu := Looping) else s
  }

  ghost function After(s: State, step: Step): State {
    match step
    case EnterStep(t, cmd) => Enter(s, t, cmd)
    case SendStep => Send(s)
    case WakeStep => Wake(s)
    case TakeReplyStep => TakeReply(s)
    case UpdateStep => Update(s)
    case LeaveStep => Leave(s)
    case EventStep(accepted) => Consume(s, accepted)
    case LookStep(work) => Look(s, work)
    case RouseStep => Rouse(s)
    case TakeCommandStep => TakeCommand(s)
    case ReplyStep => Reply(s)
    case ExecuteStep => Execute(s)
    case TakeStreamStep => TakeStream(s)
    case TrySendStep => TrySend(s)
    case PushStep(event) => Push(s, event)
    case GiveUpStep(wait) => GiveUp(s, wait)
    case LoopStep => Loop(s)
    case TryFlushStep(found) => TryFlush(s, found)
    case PushFlushStep(ids, id) => PushFlush(s, ids, id)
  }

  // What commands do to tables that agree

  ghost predicate Fit(slots: Slots) {
    |slots| == MAX_ES && AllKnown(slots) && All8Bit(slots) && Distinct(slots)
  }

  /** The caller's checks have passed. */
  ghost predicate Accepted(slots: Slots, cmd: Command)
    requires Fit(slots)
  {
    match cmd
    case EnableEs(es) => Count(slots) < MAX_ES && es.ids.Known() && es.ids.Is8Bit() && es.ids.Where() !in Open(slots)
    case DisableEs(slot, ids) => slot < |slots| && slots[slot].Some? && slots[slot].value.ids == ids
    case _ => true
  }

  /** The command does what it says on the SPU side. */
  ghost predicate Effective(table: map<Channel, nat>, cmd: Command) {
    match cmd
    case EnableEs(es) => es.ids.Known() && es.ids.Where() !in table
    case DisableEs(_, ids) => ids.Known() && ids.Where() in table
    case _ => true
  }

  ghost function Change(cmd: Command): int {
    if cmd.EnableEs? then 1 else if cmd.DisableEs? then -1 else 0
  }

  lemma EffectiveSize(table: map<Channel, nat>, cmd: Command)
    requires Effective(table, cmd)
    ensures |SpuAfter(table, cmd)| == |table| + Change(cmd)
  {
    hide ChannelOf;
    if cmd.DisableEs? {
      var c := cmd.ids.Where();
      assert table == (table - {c})[c := table[c]];
    }
  }

  lemma AcceptedAfter(slots: Slots, cmd: Command)
    requires Fit(slots) && Accepted(slots, cmd)
    ensures Effective(Open(slots), cmd)
    ensures Fit(PpuAfter(slots, cmd)) && Open(PpuAfter(slots, cmd)) == SpuAfter(Open(slots), cmd)
    ensures Count(PpuAfter(slots, cmd)) == Count(slots) + Change(cmd)
    ensures cmd.EnableEs? ==> Count(slots) < |slots|
    ensures !cmd.EnableEs? && !cmd.DisableEs? ==> PpuAfter(slots, cmd) == slots
  {
    hide ChannelOf, Open, Count, FirstFree;
    match cmd
    case EnableEs(es) =>
      OpenEnable(slots, FirstFree(slots), es);
      DistinctEnable(slots, FirstFree(slots), es);
    case DisableEs(slot, ids) =>
      OpenDisable(slots, slot);
      OpenIff(slots, ids.Where());
    case _ =>
  }

  lemma FitSize(slots: Slots)
    requires Fit(slots)
    ensures |Open(slots)| <= MAX_ES
  {
    OpenSize(slots);
  }

  lemma NotRejected(s: State, cmd: Command)
    requires Fit(s.slots) && s.enabled == Count(s.slots) && Sound(s.slots, cmd) && !Rejected(s, cmd)
    ensures Accepted(s.slots, Numbered(s, cmd))
  {
    hide ChannelOf, Open, FirstFree;
    if cmd.EnableEs? {
      FindIffOpen(s.slots, cmd.es.ids);
    }
  }

  // The invariant

  /** The command that is not executed yet nor being executed. */
  ghost function Pending(cmds: seq<Command>, spu: Spu): Option<Command> {
    if cmds != [] then Some(cmds[0]) else if spu.Taken? then Some(spu.cmd) else None
  }

  ghost predicate InProgress(s: State) {
    s.caller.Waiting? || s.caller.Woken? || s.caller.Answered?
  }

  /** The table of the PPU side once the holder of the mutex has left. */
  ghost function Coming(s: State): Slots {
    if InProgress(s) then PpuAfter(s.slots, s.caller.cmd) else s.slots
  }

  /** The table of the SPU side once it has executed what it has acknowledged. */
  ghost function Acknowledged(s: State): map<Channel, nat> {
    if s.spu.Replied? then SpuAfter(s.table, s.spu.cmd) else s.table
  }

  ghost predicate TablesOk(s: State) {
    && Fit(s.slots) && s.enabled == Count(s.slots)
    && (s.caller.Entered? ==> Sound(s.slots, s.caller.cmd))
    && (InProgress(s) ==> Accepted(s.slots, s.caller.cmd) && Fit(Coming(s)))
  }

  /** At most one command or reply is outstanding, and it is that of the holder of the mutex. */
  ghost predicate HandshakeOk(s: State) {
    && |s.cmds| + |s.replies| + (if s.spu.Taken? then 1 else 0)
       == (if s.caller.Waiting? || s.caller.Woken? then 1 else 0)
    && (s.cmds != [] ==> s.cmds[0] == s.caller.cmd)
    && (s.spu.Taken? ==> s.spu.cmd == s.caller.cmd)
    && s.issued == s.served + (if Pending(s.cmds, s.spu).Some? then 1 else 0)
    && (s.replies != [] ==> s.replies[0].value == s.caller.cmd.Type() + 1 && s.replies[0].to + 1 == s.issued)
    && (s.caller.Woken? ==> s.replies != [])
    && (s.spu.Roused? ==> s.cmds != [])
  }

  ghost predicate EffectsOk(s: State)
    requires TablesOk(s)
  {
    && Acknowledged(s) == Open(if Pending(s.cmds, s.spu).Some? then s.slots else Coming(s))
    && (s.spu.Replied? ==> Effective(s.table, s.spu.cmd))
    && |s.table| <= MAX_ES && s.maxEvents == 4 + 2 * |s.table|
    && |s.ev.queue| <= EVENT_QUEUE_SIZE && (s.spu.Sending? || s.spu.FlushSending? ==> |s.ev.queue| < EVENT_QUEUE_SIZE)
  }

  /** The thread that processes the events is going to send a command. */
  ghost predicate ResumeComing(s: State) {
    && s.ev.NearlyEmpty()
    && !(s.ev.consumer.Resuming? && (InProgress(s) || s.caller.Leaving?) && s.caller.t == DEMUX_THREAD)
  }

  ghost predicate ThrottleOk(s: State) {
    && (s.waiting || s.spu.Refused? ==> |s.ev.queue| > 2 || Pending(s.cmds, s.spu).Some? || ResumeComing(s))
    && (!s.caller.Nobody? && s.caller.t == DEMUX_THREAD ==>
          if s.ev.consumer.Resuming? then s.caller.Leaving? || s.caller.cmd.Resume?
          else s.ev.consumer.Resetting? && (s.caller.Leaving? || s.caller.cmd.ResetEs?))
    && (s.ev.consumer.Resetting? ==> !s.caller.Nobody? && s.caller.t == DEMUX_THREAD)
  }

  ghost function OneIf(b: bool): nat {
    if b then 1 else 0
  }

  /** There is a stream info exactly while the SPU thread is told, or has been told, to take it. */
  ghost predicate InfoOk(s: State) {
    OneIf(s.info) == ToldToTake(s.cmds, s.spu) + OneIf(s.newStream)
  }

  ghost function ToldToTake(cmds: seq<Command>, spu: Spu): nat {
    OneIf(cmds != [] && cmds[0].SetStream?) + OneIf((spu.Taken? || spu.Replied?) && spu.cmd.SetStream?)
  }

  ghost predicate Ok(s: State) {
    !s.failed && TablesOk(s) && HandshakeOk(s) && EffectsOk(s) && ThrottleOk(s) && s.ev.Ok() && InfoOk(s)
  }

  lemma EnterOk(s: State, t: ThreadId, cmd: Command)
    requires Ok(s)
    ensures Ok(Enter(s, t, cmd))
  {
    hide ChannelOf, Open, Count, FindEs, FirstFree, Fit, Accepted, Effective, Sound, SpuAfter, PpuAfter,
      EventSide.Ok, EventSide.NearlyEmpty;
  }

  lemma SendOk(s: State)
    requires Ok(s)
    ensures Ok(Send(s))
  {
    hide ChannelOf, Open, Count, FindEs, FirstFree, Fit, Accepted, Effective, Sound, SpuAfter, PpuAfter,
      EventSide.Ok, EventSide.NearlyEmpty;
    if s.caller.Entered? && !Rejected(s, s.caller.cmd) {
      NotRejected(s, s.caller.cmd);
      AcceptedAfter(s.slots, Numbered(s, s.caller.cmd));
    }
  }

  lemma WakeOk(s: State)
    requires Ok(s)
    ensures Ok(Wake(s))
  {
    hide ChannelOf, Open, Count, FindEs, FirstFree, Fit, Accepted, Effective, Sound, SpuAfter, PpuAfter,
      EventSide.Ok, EventSide.NearlyEmpty;
  }

  lemma TakeReplyOk(s: State)
    requires Ok(s)
    ensures Ok(TakeReply(s))
  {
    hide ChannelOf, Open, Count, FindEs, FirstFree, Fit, Accepted, Effective, Sound, SpuAfter, PpuAfter,
      EventSide.Ok, EventSide.NearlyEmpty;
  }

  /** What only concerns the event queue and the thread that processes it. */
  lemma EventSideOk(s: State, ev: EventSide)
    requires Ok(s) && ev.Ok() && |ev.queue| <= |s.ev.queue|
    requires ThrottleOk(s.(ev := ev))
    ensures Ok(s.(ev := ev))
  {
    hide ChannelOf, Open, Count, FindEs, FirstFree, Fit, Accepted, Effective, Sound, SpuAfter, PpuAfter, ThrottleOk,
      EventSide.Ok;
  }

  lemma UpdateTableOk(s: State)
    requires Ok(s) && s.caller.Answered?
    ensures CanUpdate(s) && Ok(UpdateTable(s)) && UpdateTable(s).caller.Leaving? && UpdateTable(s).ev == s.ev
  {
    hide ChannelOf, Open, Count, FindEs, FirstFree, Fit, Accepted, Effective, Sound, SpuAfter, PpuAfter,
      EventSide.Ok, EventSide.NearlyEmpty;
    AcceptedAfter(s.slots, s.caller.cmd);
  }

  lemma UpdateOk(s: State)
    requires Ok(s)
    ensures Ok(Update(s))
  {
    hide TablesOk, HandshakeOk, EffectsOk, InfoOk, Pending, UpdateTable, CanUpdate, EventSide.Ok, EventSide.Answered;
    if s.caller.Answered? {
      UpdateTableOk(s);
      s.ev.AnsweredOk(s.slots, s.caller.cmd);
      EventSideOk(UpdateTable(s), s.ev.Answered(s.slots, s.caller.cmd));
    }
  }

  lemma LeftOk(s: State, ev: EventSide)
    requires Ok(s) && s.caller.Leaving? && ev.Ok() && ev.queue == s.ev.queue
    requires ThrottleOk(s.(caller := Nobody, ev := ev))
    ensures Ok(s.(caller := Nobody, ev := ev))
  {
    hide ChannelOf, Open, Count, FindEs, FirstFree, Fit, Accepted, Effective, Sound, SpuAfter, PpuAfter, ThrottleOk,
      EventSide.Ok;
  }

  lemma LeaveOk(s: State)
    requires Ok(s)
    ensures Ok(Leave(s))
  {
    hide TablesOk, HandshakeOk, EffectsOk, InfoOk, Pending;
    if s.caller.Leaving? {
      LeftOk(s, Leave(s).ev);
    }
  }

  /** The thread takes the mutex to send a command itself. */
  lemma OwnCommandOk(s: State, ev: EventSide, cmd: Command)
    requires Ok(s) && s.caller.Nobody? && ev.Ok() && ev.queue == s.ev.queue
    requires (ev == s.ev && ev.consumer.Resuming? && cmd.Resume?) ||
             (s.ev.consumer.Deciding? && ev.consumer.Resetting? && cmd.ResetEs?)
    ensures Ok(s.(ev := ev, caller := Entered(DEMUX_THREAD, cmd)))
  {
    hide ChannelOf, Open, Count, FindEs, FirstFree, Fit, Accepted, Effective, SpuAfter, PpuAfter, EventSide.Ok;
  }

  lemma NextThrottle(s: State, accepted: bool)
    requires Ok(s) && !s.ev.consumer.Resuming? && (s.ev.consumer.HasEvent() ==> s.ev.queue != [])
    requires s.ev.consumer.Deciding? ==> !s.ev.MustReset(s.slots)
    ensures ThrottleOk(s.(ev := s.ev.Next(s.slots, accepted)))
  {
    hide TablesOk, HandshakeOk, EffectsOk, InfoOk, Pending, EventSide.Ok, EventSide.Next, EventSide.MustReset;
    s.ev.NextOk(s.slots, accepted);
  }

  /** The queue is never empty when an event is popped. */
  lemma ConsumeOk(s: State, accepted: bool)
    requires Ok(s)
    ensures Ok(Consume(s, accepted))
  {
    hide TablesOk, HandshakeOk, EffectsOk, InfoOk, ThrottleOk, EventSide.Next, EventSide.MustReset;
    if s.ev.consumer.WantsMutex() && !s.caller.Nobody? {
      return;
    }
    s.ev.NextOk(s.slots, accepted);
    if s.ev.consumer.Resuming? {
      OwnCommandOk(s, s.ev, Resume);
    } else if s.ev.consumer.Deciding? && s.ev.MustReset(s.slots) {
      OwnCommandOk(s, s.ev.Next(s.slots, accepted), ResetEs(s.ev.queue[0].ids));
    } else {
      NextThrottle(s, accepted);
      EventSideOk(s, s.ev.Next(s.slots, accepted));
    }
  }

  lemma LookOk(s: State, work: bool)
    requires Ok(s)
    ensures Ok(Look(s, work))
  {
    hide ChannelOf, Open, Count, FindEs, FirstFree, Fit, Accepted, Effective, Sound, SpuAfter, PpuAfter,
      EventSide.Ok, EventSide.NearlyEmpty;
  }

  lemma RouseOk(s: State)
    requires Ok(s)
    ensures Ok(Rouse(s))
  {
    hide ChannelOf, Open, Count, FindEs, FirstFree, Fit, Accepted, Effective, Sound, SpuAfter, PpuAfter,
      EventSide.Ok, EventSide.NearlyEmpty;
  }

  lemma TakeCommandOk(s: State)
    requires Ok(s)
    ensures Ok(TakeCommand(s))
  {
    hide ChannelOf, Open, Count, FindEs, FirstFree, Fit, Accepted, Effective, Sound, SpuAfter, PpuAfter,
      EventSide.Ok, EventSide.NearlyEmpty;
  }

  lemma ReplyOk(s: State)
    requires Ok(s)
    ensures Ok(Reply(s))
  {
    hide ChannelOf, Open, Count, FindEs, FirstFree, Fit, Accepted, Effective, Sound, SpuAfter, PpuAfter,
      EventSide.Ok, EventSide.NearlyEmpty;
    if s.spu.Taken? {
      AcceptedAfter(s.slots, s.caller.cmd);
    }
  }

  /** The rest of the state does not depend on how far the SPU thread is with a flush. */
  lemma FlushStateOk(s: State, spu: Spu, waiting: bool)
    requires Ok(s) && (s.spu.Working? || s.spu.Flushing?)
    requires waiting ==> s.waiting || |s.ev.queue| >= s.maxEvents
    requires spu.Working? || spu.Flushing? || (spu.FlushSending? && |s.ev.queue| < s.maxEvents)
    ensures Ok(s.(spu := spu, waiting := waiting))
  {
    hide ChannelOf, Open, Count, FindEs, FirstFree, Fit, Accepted, Effective, Sound, SpuAfter, PpuAfter,
      EventSide.Ok, EventSide.NearlyEmpty;
  }

  ghost function Executed(s: State): State
    requires s.spu.Replied? && MaxEventsAfter(s.maxEvents, s.spu.cmd) >= 0
  {
    s.(table := SpuAfter(s.table, s.spu.cmd), maxEvents := MaxEventsAfter(s.maxEvents, s.spu.cmd),
       newStream := s.newStream || s.spu.cmd.SetStream?, spu := Working)
  }

  lemma ExecutedOk(s: State)
    requires Ok(s) && s.spu.Replied?
    ensures 0 <= MaxEventsAfter(s.maxEvents, s.spu.cmd) <= 255 && Ok(Executed(s))
  {
    hide ChannelOf, Open, Count, FindEs, FirstFree, Fit, Accepted, Effective, Sound, SpuAfter, PpuAfter,
      EventSide.Ok, EventSide.NearlyEmpty;
    EffectiveSize(s.table, s.spu.cmd);
    FitSize(if Pending(s.cmds, s.spu).Some? then s.slots else Coming(s));
  }

  lemma ExecuteOk(s: State)
    requires Ok(s)
    ensures Ok(Execute(s))
  {
    hide Ok, ChannelOf, SpuAfter, MaxEventsAfter;
    if s.spu.Replied? {
      ExecutedOk(s);
      FlushStateOk(Executed(s), AfterCommand(s.table, s.spu.cmd), s.waiting);
    }
  }

  lemma TrySendOk(s: State)
    requires Ok(s)
    ensures Ok(TrySend(s))
  {
    hide ChannelOf, Open, Count, FindEs, FirstFree, Fit, Accepted, Effective, Sound, SpuAfter, PpuAfter,
      EventSide.Ok, EventSide.NearlyEmpty;
  }

  /** One more event, for which there is room. */
  lemma MoreEventsOk(s: State, event: Event, spu: Spu, waiting: bool)
    requires Ok(s) && (s.spu.Sending? || s.spu.FlushSending?)
    requires (spu.Working? || spu.Flushing?) && (waiting ==> s.waiting)
    ensures |s.ev.queue| < EVENT_QUEUE_SIZE
    ensures Ok(s.(ev := s.ev.(queue := s.ev.queue + [event]), spu := spu, waiting := waiting))
  {
    hide ChannelOf, Open, Count, FindEs, FirstFree, Fit, Accepted, Effective, Sound, SpuAfter, PpuAfter;
    assert s.ev.queue != [] ==> (s.ev.queue + [event])[0] == s.ev.queue[0];
  }

  lemma PushOk(s: State, event: Event)
    requires Ok(s)
    ensures Ok(Push(s, event))
  {
    hide Ok;
    if s.spu.Sending? {
      MoreEventsOk(s, event, Working, false);
    }
  }

  lemma TryFlushOk(s: State, found: bool)
    requires Ok(s)
    ensures Ok(TryFlush(s, found))
  {
    hide Ok;
    if s.spu.Flushing? {
      FlushStateOk(s, TryFlush(s, found).spu, TryFlush(s, found).waiting);
    }
  }

  lemma PushFlushOk(s: State, ids: Ids, id: nat)
    requires Ok(s)
    ensures Ok(PushFlush(s, ids, id))
  {
    hide Ok;
    if s.spu.FlushSending? {
      MoreEventsOk(s, AuFound(ids, id), Flushing(false), false);
      MoreEventsOk(s, FlushDone, Working, s.waiting);
    }
  }

  lemma TakeStreamOk(s: State)
    requires Ok(s)
    ensures Ok(TakeStream(s))
  {
    hide ChannelOf, Open, Count, FindEs, FirstFree, Fit, Accepted, Effective, Sound, SpuAfter, PpuAfter,
      EventSide.Ok, EventSide.NearlyEmpty;
  }

  lemma LoopOk(s: State)
    requires Ok(s)
    ensures Ok(Loop(s))
  {
    hide ChannelOf, Open, Count, FindEs, FirstFree, Fit, Accepted, Effective, Sound, SpuAfter, PpuAfter,
      EventSide.Ok, EventSide.NearlyEmpty;
  }

  lemma GiveUpOk(s: State, wait: bool)
    requires Ok(s)
    ensures Ok(GiveUp(s, wait))
  {
    hide ChannelOf, Open, Count, FindEs, FirstFree, Fit, Accepted, Effective, Sound, SpuAfter, PpuAfter,
      EventSide.Ok, EventSide.NearlyEmpty;
  }

  lemma AfterOk(s: State, step: Step)
    requires Ok(s)
    ensures Ok(After(s, step))
  {
    hide Ok, Enter, Send, Wake, TakeReply, Update, Leave, Consume, Look, Rouse, TakeCommand, Reply, Execute,
      TakeStream, TrySend, Push, GiveUp, Loop, TryFlush, PushFlush;
    match step
    case EnterStep(t, cmd) => EnterOk(s, t, cmd);
    case SendStep => SendOk(s);
    case WakeStep => WakeOk(s);
    case TakeReplyStep => TakeReplyOk(s);
    case UpdateStep => UpdateOk(s);
    case LeaveStep => LeaveOk(s);
    case EventStep(accepted) => ConsumeOk(s, accepted);
    case LookStep(work) => LookOk(s, work);
    case RouseStep => RouseOk(s);
    case TakeCommandStep => TakeCommandOk(s);
    case ReplyStep => ReplyOk(s);
    case ExecuteStep => ExecuteOk(s);
    case TakeStreamStep => TakeStreamOk(s);
    case TrySendStep => TrySendOk(s);
    case PushStep(event) => PushOk(s, event);
    case GiveUpStep(wait) => GiveUpOk(s, wait);
    case LoopStep => LoopOk(s);
    case TryFlushStep(found) => TryFlushOk(s, found);
    case PushFlushStep(ids, id) => PushFlushOk(s, ids, id);
  }

  ghost function Start(): State {
    State(Nobody, [], [], Looping, 0, 0, seq(MAX_ES, _ => None), 0, 0, false,
          EventSide([], Locking, NO_FLAGS, Dormant), map[], 4, false, false, false)
  }

  lemma {:induction false} NothingOpen(slots: Slots)
    requires forall i | 0 <= i < |slots| :: slots[i].None?
    ensures AllKnown(slots) && All8Bit(slots) && Distinct(slots) && Open(slots) == map[] && Count(slots) == 0
  {
    if slots != [] {
      NothingOpen(slots[..|slots| - 1]);
    }
  }

  /** Any interleaving of steps. */
  ghost function Run(steps: seq<Step>): State {
    if steps == [] then Start() else After(Run(steps[..|steps| - 1]), steps[|steps| - 1])
  }

  lemma {:induction false} RunOk(steps: seq<Step>)
    ensures Ok(Run(steps))
  {
    hide After, Ok;
    if steps == [] {
      StartOk();
    } else {
      RunOk(steps[..|steps| - 1]);
      AfterOk(Run(steps[..|steps| - 1]), steps[|steps| - 1]);
    }
  }

  lemma StartOk()
    ensures Ok(Start())
  {
    hide Open, Count, Distinct, AllKnown, All8Bit;
    NothingOpen(Start().slots);
  }

  /** No check fails in any run, and a caller that wakes up finds the reply to its own command. */
  lemma ProtocolIsSafe(steps: seq<Step>)
    ensures var s := Run(steps);
      && !s.failed
      && |s.cmds| + |s.replies| <= 1
      && (s.caller.Woken? ==>
            |s.replies| == 1 && s.replies[0].value == s.caller.cmd.Type() + 1 && s.replies[0].to == s.issued - 1)
  {
    hide Run, TablesOk, EffectsOk, ThrottleOk;
    RunOk(steps);
  }

  /**
   * In every run: when nobody is sending a command, the table of the SPU side is that of the PPU side,
   * except for the one command that has been acknowledged but not executed.
   */
  lemma TablesAgree(steps: seq<Step>)
    ensures var s := Run(steps);
      && |s.slots| == MAX_ES && AllKnown(s.slots) && Distinct(s.slots)
      && s.enabled == Count(s.slots) <= MAX_ES
      && s.maxEvents == 4 + 2 * |s.table| && |s.ev.queue| <= EVENT_QUEUE_SIZE && |s.table| <= MAX_ES
      && (s.caller.Nobody? ==> (if s.spu.Replied? then SpuAfter(s.table, s.spu.cmd) else s.table) == Open(s.slots))
  {
    hide Run, Open, Count, Distinct, AllKnown, All8Bit, ThrottleOk, SpuAfter;
    RunOk(steps);
  }

  /**
   * In every run: the SPU thread sleeps because of too many events only while there are some, or a command
   * is on its way.
   */
  lemma NeverStuck(steps: seq<Step>)
    ensures var s := Run(steps);
      s.spu.Sleeping? && s.waiting ==> |s.ev.queue| > 2 || s.cmds != [] || ResumeComing(s)
  {
    hide Run, TablesOk, HandshakeOk, EffectsOk, ResumeComing;
    RunOk(steps);
  }
}
