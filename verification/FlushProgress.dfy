/**
 * The end of a flush. The SPU thread reports it to the event queue and tries again until there is room,
 * without looking for commands. Meanwhile the thread that empties the event queue may itself wait for the
 * SPU thread: for an answer, for the mutex while its holder waits for an answer, or for a release, which
 * takes an answer, too.
 */
module FlushProgress {
  import opened Bytes
  import opened StreamTables
  import opened CommandProtocol

  // When the thread that empties the event queue gets stuck

  /** Because of a mark on its stream, the event makes the thread send a command. */
  ghost predicate IsMarked(slots: Slots, event: Event, marks: set<nat>) {
    EventSlot(slots, event).Some? && EventSlot(slots, event).value in marks
  }

  /** So does one of the first `n` events. The end of a stream is the end of a reset, and of its marks. */
  ghost predicate SomeMarked(slots: Slots, events: seq<Event>, n: nat, marks: set<nat>)
    decreases n
  {
    && n > 0 && events != [] && !events[0].DemuxDone?
    && (IsMarked(slots, events[0], marks) || SomeMarked(slots, events[1..], n - 1, marks))
  }

  /** The thread has not looked at the flags since the last event. */
  ghost predicate BeforeLock(ev: EventSide) {
    ev.consumer.Locking? || ev.consumer.Awake? || ev.consumer.JustPopped?
  }

  /** The event at the head of the queue has still to be looked up. */
  ghost predicate Undecided(ev: EventSide) {
    BeforeLock(ev) || ev.consumer.Peeking? || ev.consumer.Marking? || ev.consumer.Deciding?
  }

  /** The marks when the event at the head is looked up: all streams if a reset begins, later those left of it. */
  ghost function MarksNow(ev: EventSide, slots: Slots): set<nat> {
    if || (BeforeLock(ev) && ev.flags.resetRequested)
       || ((ev.consumer.Peeking? || ev.consumer.Starting?) && ev.flags.resetStarted)
       || ev.consumer.Marking?
    then OpenSlots(slots)
    else if ev.flags.resetInProgress then ev.flags.marked else {}
  }

  ghost predicate AtEnd(ev: EventSide) {
    ev.queue != [] && ev.queue[0].DemuxDone?
  }

  /** A reset has been requested that begins only with the next event. */
  ghost predicate ResetNext(ev: EventSide) {
    && ev.flags.resetRequested && !BeforeLock(ev) && !ev.consumer.Rechecking?
    && !((ev.consumer.Peeking? || ev.consumer.Starting?) && AtEnd(ev) && !ev.flags.resetStarted)
  }

  /** The marks when the next events are looked up. */
  ghost function MarksNext(ev: EventSide, slots: Slots): set<nat> {
    if ResetNext(ev) then OpenSlots(slots) else if AtEnd(ev) then {} else MarksNow(ev, slots)
  }

  /** It waits, or is going to wait, for a release, or is going to send the resume command. */
  ghost predicate Waits(ev: EventSide) {
    || ev.consumer.Asleep? || ev.consumer.Resuming? || ev.consumer.Resetting?
    || ((ev.consumer.Locking? || ev.consumer.Awake?) && ev.flags.MustSleep())
  }

  /**
   * The thread gets stuck before fewer than `limit` events are left, even if nobody else takes the mutex and the
   * application accepts everything: it waits, or one of the events it has to pop makes it send a command.
   */
  ghost predicate GetsStuck(ev: EventSide, slots: Slots, limit: nat)
    requires |ev.queue| >= limit > 0
  {
    || Waits(ev)
    || (Undecided(ev) && IsMarked(slots, ev.queue[0], MarksNow(ev, slots)))
    || SomeMarked(slots, ev.queue[1..], |ev.queue| - limit, MarksNext(ev, slots))
  }

  lemma {:induction false} NoneMarked(slots: Slots, events: seq<Event>, n: nat)
    ensures !SomeMarked(slots, events, n, {})
    decreases n
  {
    hide EventSlot;
    if n > 0 && events != [] {
      NoneMarked(slots, events[1..], n - 1);
    }
  }

  /** A step does not change that, unless the application has no room; and not even then the thread gets free. */
  ghost predicate SameFate(ev: EventSide, next: EventSide, slots: Slots, limit: nat, accepted: bool)
    requires |ev.queue| >= limit > 0
  {
    if |next.queue| < limit then !GetsStuck(ev, slots, limit)
    else
      && (GetsStuck(ev, slots, limit) ==> GetsStuck(next, slots, limit))
      && (accepted && GetsStuck(next, slots, limit) ==> GetsStuck(ev, slots, limit))
  }

  lemma PopFate(ev: EventSide, slots: Slots, limit: nat)
    requires ev.Ok() && |ev.queue| >= limit >= 4 && ev.consumer.Done?
    ensures SameFate(ev, ev.Pop(), slots, limit, true)
  {
    hide OpenSlots, EventSlot;
    var rest, n := ev.queue[1..], |ev.queue| - limit;
    if n > 0 {
      NoneMarked(slots, rest[1..], n - 1);
    }
  }

  lemma EndFate(ev: EventSide, slots: Slots, limit: nat, accepted: bool)
    requires ev.Ok() && |ev.queue| >= limit >= 4
    requires ev.consumer.Starting? || ev.consumer.Rechecking? || ev.consumer.Unmarking? || ev.consumer.Finishing?
    ensures SameFate(ev, ev.Next(slots, accepted), slots, limit, accepted)
  {
    hide OpenSlots, SomeMarked, FindEs;
  }

  lemma StepFate(ev: EventSide, slots: Slots, limit: nat, accepted: bool)
    requires ev.Ok() && |ev.queue| >= limit >= 4 && !(ev.consumer.Deciding? && ev.MustReset(slots))
    ensures SameFate(ev, ev.Next(slots, accepted), slots, limit, accepted)
  {
    hide OpenSlots, SomeMarked, FindEs;
    if ev.consumer.Starting? || ev.consumer.Rechecking? || ev.consumer.Unmarking? || ev.consumer.Finishing? {
      EndFate(ev, slots, limit, accepted);
    } else if ev.consumer.Done? {
      PopFate(ev, slots, limit);
    }
  }

  /** One more event can be popped without the mutex, and that is enough. */
  ghost predicate OneIsEnough(ev: EventSide, limit: nat) {
    && |ev.queue| == limit
    && (|| ev.consumer.Done? || ev.consumer.Calling?
        || (ev.consumer.Peeking? && ev.queue != [] && ev.queue[0].ProgEnd? && !ev.flags.resetStarted))
  }

  lemma BlockedFate(ev: EventSide, slots: Slots, limit: nat, accepted: bool)
    requires ev.Ok() && |ev.queue| >= limit >= 4 && !ev.consumer.WantsMutex()
    ensures ev.Next(slots, accepted).sequence == ev.sequence
    ensures !OneIsEnough(ev, limit) ==>
      var next := ev.Next(slots, accepted); |next.queue| >= limit && !OneIsEnough(next, limit)
  {
  }

  /** If one event is enough, the thread does not get stuck. */
  lemma EnoughIsFree(ev: EventSide, slots: Slots, limit: nat)
    requires |ev.queue| >= limit > 0 && OneIsEnough(ev, limit)
    ensures !GetsStuck(ev, slots, limit)
  {
  }

  // Deadlocks

  /** The holder of the mutex keeps it until the SPU thread answers a command, which it has not taken. */
  ghost predicate Blocking(s: State) {
    || (s.caller.Entered? && !Rejected(s, s.caller.cmd))
    || (s.caller.Waiting? && s.cmds != [])
  }

  /** The flush waits for room, and who would make room waits, or is going to wait, for the SPU thread. */
  ghost predicate Deadlock(s: State) {
    && s.spu == Flushing(false) && |s.ev.queue| >= s.maxEvents > 0
    && if Blocking(s) then !OneIsEnough(s.ev, s.maxEvents) else GetsStuck(s.ev, s.slots, s.maxEvents)
  }

  /** The SPU thread has acknowledged a flush and not finished it. */
  ghost predicate InFlush(spu: Spu) {
    (spu.Replied? && spu.cmd.FlushEs?) || spu.Flushing? || spu.FlushSending?
  }

  /**
   * During a flush the only caller that has been answered is the one that asked for the flush, and this is not
   * the thread that processes the events.
   */
  ghost predicate OnlyFlushAnswered(s: State) {
    FlushAnswered(s.spu, s.caller, s.cmds)
  }

  ghost predicate FlushAnswered(spu: Spu, caller: Caller, cmds: seq<Command>) {
    InFlush(spu) ==>
      && ((caller.Waiting? || caller.Woken? || caller.Answered?) && cmds == [] ==> caller.cmd.FlushEs?)
      && (!caller.Nobody? && caller.t == DEMUX_THREAD ==> caller.Entered? || cmds != [])
  }

  lemma CallerAnswered(s: State, step: Step)
    requires Ok(s) && OnlyFlushAnswered(s)
    requires step.SendStep? || step.WakeStep? || step.TakeReplyStep? || step.UpdateStep? || step.LeaveStep?
    ensures OnlyFlushAnswered(After(s, step))
  {
    hide TablesOk, EffectsOk, InfoOk, EventSide.Ok, EventSide.Answered, FindEs, Count, PpuAfter, CanUpdate;
  }

  lemma SpuAnswered(s: State, step: Step)
    requires Ok(s) && OnlyFlushAnswered(s)
    requires step.LookStep? || step.RouseStep? || step.TakeCommandStep? || step.ReplyStep? || step.ExecuteStep?
    ensures OnlyFlushAnswered(After(s, step))
  {
    hide TablesOk, EffectsOk, InfoOk, EventSide.Ok, SpuAfter, MaxEventsAfter;
  }

  lemma SameCaller(before: Spu, after: Spu, caller: Caller, cmds: seq<Command>)
    requires FlushAnswered(before, caller, cmds) && (InFlush(after) ==> InFlush(before))
    ensures FlushAnswered(after, caller, cmds)
  {
  }

  lemma WorkAnswered(s: State, event: Event)
    requires OnlyFlushAnswered(s)
    ensures OnlyFlushAnswered(TakeStream(s)) && OnlyFlushAnswered(Push(s, event))
  {
    hide FlushAnswered;
    SameCaller(s.spu, Push(s, event).spu, s.caller, s.cmds);
  }

  lemma LoopAnswered(s: State, wait: bool)
    requires OnlyFlushAnswered(s)
    ensures OnlyFlushAnswered(TrySend(s)) && OnlyFlushAnswered(GiveUp(s, wait)) && OnlyFlushAnswered(Loop(s))
  {
    hide FlushAnswered;
    SameCaller(s.spu, TrySend(s).spu, s.caller, s.cmds);
    SameCaller(s.spu, GiveUp(s, wait).spu, s.caller, s.cmds);
    SameCaller(s.spu, Loop(s).spu, s.caller, s.cmds);
  }

  lemma FlushingAnswered(s: State, found: bool, ids: Ids, id: nat)
    requires OnlyFlushAnswered(s)
    ensures OnlyFlushAnswered(TryFlush(s, found)) && OnlyFlushAnswered(PushFlush(s, ids, id))
  {
    hide FlushAnswered;
    SameCaller(s.spu, TryFlush(s, found).spu, s.caller, s.cmds);
    SameCaller(s.spu, PushFlush(s, ids, id).spu, s.caller, s.cmds);
  }

  lemma EnterAnswered(s: State, t: ThreadId, cmd: Command)
    requires OnlyFlushAnswered(s)
    ensures OnlyFlushAnswered(Enter(s, t, cmd))
  {
    hide Sound;
  }

  lemma EventAnswered(s: State, accepted: bool)
    requires OnlyFlushAnswered(s)
    ensures OnlyFlushAnswered(Consume(s, accepted))
  {
    hide EventSide.Next, EventSide.MustReset;
  }

  lemma OnlyFlushAnsweredAfter(s: State, step: Step)
    requires Ok(s) && OnlyFlushAnswered(s)
    ensures OnlyFlushAnswered(After(s, step))
  {
    hide Ok, OnlyFlushAnswered, Enter, Send, Wake, TakeReply, Update, Leave, Consume, Look, Rouse, TakeCommand, Reply,
      Execute, TakeStream, TrySend, Push, GiveUp, Loop, TryFlush, PushFlush;
    match step
    case EnterStep(t, cmd) => EnterAnswered(s, t, cmd);
    case EventStep(accepted) => EventAnswered(s, accepted);
    case SendStep => CallerAnswered(s, step);
    case WakeStep => CallerAnswered(s, step);
    case TakeReplyStep => CallerAnswered(s, step);
    case UpdateStep => CallerAnswered(s, step);
    case LeaveStep => CallerAnswered(s, step);
    case LookStep(_) => SpuAnswered(s, step);
    case RouseStep => SpuAnswered(s, step);
    case TakeCommandStep => SpuAnswered(s, step);
    case ReplyStep => SpuAnswered(s, step);
    case ExecuteStep => SpuAnswered(s, step);
    case TakeStreamStep => WorkAnswered(s, ProgEnd);
    case TrySendStep => LoopAnswered(s, false);
    case PushStep(event) => WorkAnswered(s, event);
    case GiveUpStep(wait) => LoopAnswered(s, wait);
    case LoopStep => LoopAnswered(s, false);
    case TryFlushStep(found) => FlushingAnswered(s, found, VIDEO, 0);
    case PushFlushStep(ids, id) => FlushingAnswered(s, false, ids, id);
  }

  lemma {:induction false} RunFlush(steps: seq<Step>)
    ensures Ok(Run(steps)) && OnlyFlushAnswered(Run(steps))
  {
    hide Ok, After, OnlyFlushAnswered;
    RunOk(steps);
    if steps == [] {
      assert OnlyFlushAnswered(Start()) by { NoFlush(); }
    } else {
      var before := steps[..|steps| - 1];
      RunFlush(before);
      OnlyFlushAnsweredAfter(Run(before), steps[|steps| - 1]);
    }
  }

  lemma NoFlush()
    ensures OnlyFlushAnswered(Start())
  {
  }

  /** What matters of the invariants during a flush. */
  lemma Facts(s: State)
    requires Ok(s) && OnlyFlushAnswered(s) && s.spu == Flushing(false)
    ensures s.ev.Ok() && s.maxEvents >= 4
    ensures s.caller.Entered? ==> s.cmds == []
    ensures s.caller.Waiting? ==> (s.cmds == [] <==> s.replies != [])
    ensures s.caller.Woken? ==> s.cmds == [] && s.replies != [] && s.replies[0].value == s.caller.cmd.Type() + 1
    ensures s.caller.Answered? ==> s.caller.cmd.FlushEs?
    ensures s.caller.Waiting? && s.cmds == [] ==> s.caller.cmd.FlushEs?
    ensures s.caller.Woken? ==> s.caller.cmd.FlushEs?
    ensures !s.caller.Nobody? && s.caller.t == DEMUX_THREAD ==> s.ev.consumer.Resuming? || s.ev.consumer.Resetting?
    ensures !s.caller.Nobody? && s.caller.t == DEMUX_THREAD ==> Blocking(s)
  {
    hide TablesOk, InfoOk, EventSide.Ok;
    assert s.maxEvents >= 4;
  }

  // A deadlock is for good

  lemma SameRejected(s: State, ev: EventSide, cmd: Command)
    requires ev.sequence == s.ev.sequence
    ensures Rejected(s.(ev := ev), cmd) == Rejected(s, cmd)
  {
    hide FindEs;
  }

  lemma EventStays(s: State, accepted: bool)
    requires Ok(s) && OnlyFlushAnswered(s) && Deadlock(s)
    ensures Deadlock(Consume(s, accepted))
  {
    hide Ok, OnlyFlushAnswered, GetsStuck, OneIsEnough, EventSide.Next, EventSide.MustReset, Rejected;
    Facts(s);
    var next := s.ev.Next(s.slots, accepted);
    if s.ev.consumer.WantsMutex() && !s.caller.Nobody? {
    } else if s.ev.consumer.Resuming? || (s.ev.consumer.Deciding? && s.ev.MustReset(s.slots)) {
      OwnCommandBlocks(s, accepted);
    } else {
      StepFate(s.ev, s.slots, s.maxEvents, accepted);
      if !s.caller.Nobody? {
        BlockedFate(s.ev, s.slots, s.maxEvents, accepted);
        if s.caller.Entered? { SameRejected(s, next, s.caller.cmd); }
      }
    }
  }

  /** The thread itself waits for the SPU thread now. */
  lemma OwnCommandBlocks(s: State, accepted: bool)
    requires s.caller.Nobody? && s.spu == Flushing(false) && |s.ev.queue| >= s.maxEvents > 0
    requires s.ev.consumer.Resuming? || (s.ev.consumer.Deciding? && s.ev.MustReset(s.slots))
    ensures Deadlock(Consume(s, accepted))
  {
    hide GetsStuck, EventSlot;
  }

  lemma CallerStays(s: State, step: Step)
    requires Ok(s) && OnlyFlushAnswered(s) && Deadlock(s)
    requires step.EnterStep? || step.SendStep? || step.WakeStep? || step.TakeReplyStep? || step.UpdateStep?
      || step.LeaveStep?
    ensures Deadlock(After(s, step)) && After(s, step).served == s.served
  {
    hide Ok, OnlyFlushAnswered, GetsStuck, OneIsEnough, Sound, FindEs;
    Facts(s);
    if step.EnterStep? && OneIsEnough(s.ev, s.maxEvents) { EnoughIsFree(s.ev, s.slots, s.maxEvents); }
  }

  lemma DeadlockStays(s: State, step: Step)
    requires Ok(s) && OnlyFlushAnswered(s) && Deadlock(s)
    ensures Deadlock(After(s, step)) && After(s, step).served == s.served
  {
    hide Ok, OnlyFlushAnswered, GetsStuck, OneIsEnough, Enter, Send, Wake, TakeReply, Update, Leave, EventSide.Next,
      EventSide.MustReset, Rejected;
    if step.EventStep? {
      EventStays(s, step.accepted);
    } else if step.EnterStep? || step.SendStep? || step.WakeStep? || step.TakeReplyStep? || step.UpdateStep? ||
      step.LeaveStep? {
      CallerStays(s, step);
    }
  }

  ghost function From(s: State, steps: seq<Step>): State
    decreases |steps|
  {
    if steps == [] then s else From(After(s, steps[0]), steps[1..])
  }

  /** Whatever happens, the flush does not end and no command is answered. */
  lemma {:induction false} DeadlockForever(s: State, steps: seq<Step>)
    requires Ok(s) && OnlyFlushAnswered(s) && Deadlock(s)
    ensures Deadlock(From(s, steps)) && From(s, steps).served == s.served
    decreases |steps|
  {
    hide Ok, OnlyFlushAnswered, Deadlock, After;
    if steps != [] {
      AfterOk(s, steps[0]);
      OnlyFlushAnsweredAfter(s, steps[0]);
      DeadlockStays(s, steps[0]);
      DeadlockForever(After(s, steps[0]), steps[1..]);
    }
  }

  // Without one, the flush can end

  ghost function CallerRank(caller: Caller): nat {
    match caller
    case Nobody => 0
    case Leaving(_) => 1
    case Answered(_, _) => 2
    case Woken(_, _) => 3
    case Waiting(_, _) => 4
    case Entered(_, _) => 5
  }

  ghost function ConsumerRank(consumer: Consumer): nat {
    match consumer
    case JustPopped => 11
    case Locking => 10
    case Awake => 10
    case Peeking => 9
    case Starting => 8
    case Rechecking => 7
    case Marking => 6
    case Unmarking => 5
    case Finishing => 4
    case Deciding => 3
    case Calling(_, _) => 2
    case Done => 1
    case _ => 0
  }

  /** The thread that processes the events goes on if it can, else the holder of the mutex. */
  ghost function Choice(s: State): Step {
    if |s.ev.queue| < s.maxEvents then TryFlushStep(true)
    else if !s.ev.consumer.WantsMutex() || s.caller.Nobody? then EventStep(true)
    else
      match s.caller
      case Entered(_, _) => SendStep
      case Waiting(_, _) => WakeStep
      case Woken(_, _) => TakeReplyStep
      case Answered(_, _) => UpdateStep
      case _ => LeaveStep
  }

  /** The flush goes on, there is no deadlock, and something has come closer to its end. */
  ghost predicate Better(t: State, s: State) {
    && t.spu == Flushing(false) && !Deadlock(t)
    && (|| |t.ev.queue| < |s.ev.queue|
        || (|t.ev.queue| == |s.ev.queue| && CallerRank(t.caller) < CallerRank(s.caller))
        || (|t.ev.queue| == |s.ev.queue| && t.caller == s.caller &&
            ConsumerRank(t.ev.consumer) < ConsumerRank(s.ev.consumer)))
  }

  /** A thread that does not get stuck goes on to pop. */
  lemma NextRank(ev: EventSide, slots: Slots, limit: nat)
    requires ev.Ok() && |ev.queue| >= limit >= 4 && (!GetsStuck(ev, slots, limit) || OneIsEnough(ev, limit))
    ensures !ev.consumer.Resuming? && !(ev.consumer.Deciding? && ev.MustReset(slots))
    ensures var next := ev.Next(slots, true);
      if ev.consumer.Done? then |next.queue| < |ev.queue|
      else next.queue == ev.queue && ConsumerRank(next.consumer) < ConsumerRank(ev.consumer)
  {
    hide SomeMarked, OpenSlots, FindEs;
  }

  lemma EnoughStays(ev: EventSide, slots: Slots, limit: nat)
    requires ev.Ok() && limit >= 4 && OneIsEnough(ev, limit)
    ensures !ev.consumer.WantsMutex()
    ensures var next := ev.Next(slots, true); |next.queue| < limit || OneIsEnough(next, limit)
  {
  }

  lemma ThreadIsBetter(s: State)
    requires Ok(s) && OnlyFlushAnswered(s) && s.spu == Flushing(false) && !Deadlock(s) && |s.ev.queue| >= s.maxEvents
    requires !s.ev.consumer.WantsMutex() || s.caller.Nobody?
    ensures Better(After(s, EventStep(true)), s)
  {
    hide Ok, OnlyFlushAnswered, GetsStuck, OneIsEnough, EventSide.Next, EventSide.MustReset, Rejected, ConsumerRank;
    Facts(s);
    var next := s.ev.Next(s.slots, true);
    NextRank(s.ev, s.slots, s.maxEvents);
    StepFate(s.ev, s.slots, s.maxEvents, true);
    if !s.caller.Nobody? {
      BlockedFate(s.ev, s.slots, s.maxEvents, true);
      if s.caller.Entered? { SameRejected(s, next, s.caller.cmd); }
    }
    if OneIsEnough(s.ev, s.maxEvents) {
      EnoughStays(s.ev, s.slots, s.maxEvents);
    }
  }

  lemma CallerIsBetter(s: State)
    requires Ok(s) && OnlyFlushAnswered(s) && s.spu == Flushing(false) && !Deadlock(s) && |s.ev.queue| >= s.maxEvents
    requires s.ev.consumer.WantsMutex() && !s.caller.Nobody?
    ensures Better(After(s, Choice(s)), s)
  {
    hide Ok, OnlyFlushAnswered, GetsStuck, OneIsEnough, EventSide.Next, FindEs;
    Facts(s);
    if OneIsEnough(s.ev, s.maxEvents) {
      EnoughStays(s.ev, s.slots, s.maxEvents);
    }
  }

  lemma {:induction false} CanEnd(s: State) returns (steps: seq<Step>)
    requires Ok(s) && OnlyFlushAnswered(s) && s.spu == Flushing(false) && !Deadlock(s)
    ensures From(s, steps).spu.FlushSending?
    decreases |s.ev.queue|, CallerRank(s.caller), ConsumerRank(s.ev.consumer)
  {
    hide Ok, OnlyFlushAnswered, Deadlock;
    var t := After(s, Choice(s));
    if |s.ev.queue| < s.maxEvents {
      steps := [Choice(s)];
      assert steps[1..] == [];
      assert From(t, []) == t;
    } else {
      hide After;
      if !s.ev.consumer.WantsMutex() || s.caller.Nobody? { ThreadIsBetter(s); } else { CallerIsBetter(s); }
      AfterOk(s, Choice(s));
      OnlyFlushAnsweredAfter(s, Choice(s));
      var more := CanEnd(t);
      steps := [Choice(s)] + more;
      assert steps[1..] == more;
    }
  }

  /**
   * In every run: a flush that tries to report its end can get to do so if and only if there is no deadlock. It can
   * if the threads take turns so and the application has room.
   */
  lemma {:induction false} FlushEndsExactly(run: seq<Step>)
    requires Run(run).spu == Flushing(false)
    ensures (exists steps: seq<Step> :: From(Run(run), steps).spu.FlushSending?) <==> !Deadlock(Run(run))
  {
    hide Ok, OnlyFlushAnswered;
    var s := Run(run);
    RunFlush(run);
    if Deadlock(s) {
      forall steps: seq<Step> ensures !From(s, steps).spu.FlushSending? {
        DeadlockForever(s, steps);
      }
    } else {
      var steps := CanEnd(s);
    }
  }

  /** If the application has no room for an access unit and nothing was released, that is a deadlock. */
  lemma NoRoomIsDeadlock(s: State)
    requires Ok(s) && OnlyFlushAnswered(s) && s.spu == Flushing(false) && |s.ev.queue| >= s.maxEvents
    requires s.ev.consumer.Calling? && s.ev.flags.released == {} && !s.ev.flags.resetRequested
    ensures Deadlock(After(s, EventStep(false)))
  {
    hide Ok, OnlyFlushAnswered, SomeMarked, FindEs, OpenSlots;
    Facts(s);
  }

  // Runs that end in a deadlock

  ghost predicate Reachable(s: State) {
    exists steps: seq<Step> :: s == Run(steps)
  }

  lemma {:induction false} Reach(s: State, step: Step) returns (t: State)
    requires Reachable(s)
    ensures t == After(s, step) && Reachable(t)
  {
    hide After;
    var steps: seq<Step> :| s == Run(steps);
    var more := steps + [step];
    assert more[..|more| - 1] == steps;
    t := After(s, step);
    assert t == Run(more);
  }

  lemma AtStart()
    ensures Reachable(Start())
  {
    assert Run([]) == Start();
  }

  const VIDEO := Ids(0xe0, 0)
  const VIDEO_AU := AuFound(VIDEO, 0)

  /** The only stream is the first one. */
  ghost predicate OnlyVideo(slots: Slots) {
    (exists i :: 0 <= i < |slots| && slots[i].Some?) &&
    forall i | 0 <= i < |slots| && slots[i].Some? :: slots[i].value == Es(VIDEO, 0)
  }

  lemma VideoSlot(slots: Slots)
    requires OnlyVideo(slots)
    ensures EventSlot(slots, VIDEO_AU).Some? && EventSlot(slots, VIDEO_AU).value in OpenSlots(slots)
  {
    var i :| 0 <= i < |slots| && slots[i].Some?;
    assert VIDEO.Finds(slots[i].value.ids);
  }

  /** The stream is enabled, the SPU thread demultiplexes, and nobody has the mutex. */
  ghost predicate Demultiplexing(s: State) {
    && Reachable(s) && s.caller.Nobody? && s.cmds == [] && s.replies == [] && s.spu.Working?
    && VIDEO.Known() && VIDEO.Where() in s.table && s.maxEvents == 6 && OnlyVideo(s.slots)
  }

  /** Thread 1 sends a command, which the SPU thread takes. */
  lemma {:induction false} CommandSent(s: State, cmd: Command) returns (t: State)
    requires Reachable(s) && s.caller.Nobody? && s.spu.Looping? && s.cmds == [] && s.replies == []
    requires Sound(s.slots, cmd) && !cmd.Resume? && !Rejected(s, cmd)
    ensures Reachable(t)
    ensures var sent := Numbered(s, cmd);
      t == s.(caller := Waiting(1, sent), spu := Taken(sent), issued := s.issued + 1, info := s.info || cmd.SetStream?)
  {
    hide Reachable, Sound, FindEs;
    t := Reach(s, EnterStep(1, cmd));
    t := Reach(t, SendStep);
    t := Reach(t, LookStep(true));
  }

  lemma {:induction false} CommandAnswered(s: State, cmd: Command) returns (t: State)
    requires Reachable(s) && s.caller == Waiting(1, cmd) && s.spu == Taken(cmd) && s.cmds == [] && s.replies == []
    ensures Reachable(t)
    ensures t == s.(caller := Caller.Answered(1, cmd), spu := Replied(cmd), waiting := false, served := s.served + 1)
  {
    hide Reachable;
    t := Reach(s, ReplyStep);
    t := Reach(t, WakeStep);
    t := Reach(t, TakeReplyStep);
  }

  lemma {:induction false} CommandDone(s: State, cmd: Command) returns (t: State)
    requires Reachable(s) && s.caller == Caller.Answered(1, cmd) && CanUpdate(s)
    ensures Reachable(t) && t == UpdateTable(s).(caller := Nobody, ev := s.ev.Answered(s.slots, cmd))
  {
    hide Reachable, CanUpdate, PpuAfter, EventSide.Answered;
    t := Reach(s, UpdateStep);
    t := Reach(t, LeaveStep);
  }

  /** One of the commands that do not change the tables. */
  lemma {:induction false} CommandServed(s: State, cmd: Command) returns (t: State)
    requires Demultiplexing(s) && !Rejected(s, cmd)
    requires cmd.SetStream? || cmd.ResetStream? || cmd.FlushEs?
    ensures Reachable(t) && t.spu == AfterCommand(s.table, cmd) && t.ev == s.ev.Answered(s.slots, cmd)
    ensures t.caller.Nobody? && t.cmds == [] && t.replies == [] && t.slots == s.slots && t.table == s.table
    ensures t.maxEvents == s.maxEvents
  {
    hide Reachable, OnlyVideo, ChannelOf, AfterCommand, EventSide.Answered, Rejected;
    t := Reach(s, LoopStep);
    assert !Rejected(t, cmd) by { StillAccepted(s, cmd); }
    t := CommandSent(t, cmd);
    t := CommandAnswered(t, cmd);
    t := CommandDone(t, cmd);
    t := Reach(t, ExecuteStep);
  }

  lemma StillAccepted(s: State, cmd: Command)
    requires !Rejected(s, cmd)
    ensures !Rejected(s.(spu := Looping), cmd)
  {
  }

  lemma {:induction false} VideoEnabled() returns (s: State)
    ensures Demultiplexing(s) && s.ev == EventSide([], Locking, NO_FLAGS, Dormant) && !s.info
  {
    hide Reachable;
    s := Start();
    AtStart();
    var cmd := EnableEs(Es(VIDEO, 0));
    assert Count(s.slots) == 0 by { NothingOpen(s.slots); }
    s := CommandSent(s, cmd);
    s := CommandAnswered(s, cmd);
    s := CommandDone(s, cmd);
    s := Reach(s, ExecuteStep);
    assert s.slots == Start().slots[FirstFree(Start().slots) := Some(Es(VIDEO, 0))];
    FirstVideo(Start().slots, FirstFree(Start().slots));
  }

  lemma FirstVideo(slots: Slots, i: nat)
    requires i < |slots| && forall j | 0 <= j < |slots| :: slots[j].None?
    ensures OnlyVideo(slots[i := Some(Es(VIDEO, 0))])
  {
    assert slots[i := Some(Es(VIDEO, 0))][i].Some?;
  }

  lemma {:induction false} OneEvent(s: State) returns (t: State)
    requires Demultiplexing(s) && |s.ev.queue| < 6
    ensures Demultiplexing(t) && t.ev == s.ev.(queue := s.ev.queue + [VIDEO_AU])
  {
    hide Reachable, ChannelOf, OnlyVideo;
    t := Reach(s, TrySendStep);
    t := Reach(t, PushStep(VIDEO_AU));
  }

  /** Access units are found until the event queue is full. */
  lemma {:induction false} Filled(s: State) returns (t: State)
    requires Demultiplexing(s) && |s.ev.queue| <= 6
    ensures Demultiplexing(t) && |t.ev.queue| == 6 && t.ev == s.ev.(queue := t.ev.queue) && s.ev.queue <= t.ev.queue
    ensures s.ev.queue == [] ==> t.ev.queue[0] == VIDEO_AU
    decreases 6 - |s.ev.queue|
  {
    hide Demultiplexing;
    t := s;
    if |s.ev.queue| < 6 {
      t := OneEvent(s);
      t := Filled(t);
    }
  }

  /** Then the stream is flushed. */
  lemma {:induction false} Flushed(s: State) returns (t: State)
    requires Demultiplexing(s) && |s.ev.queue| == 6
    ensures Reachable(t) && t.spu == Flushing(false) && t.ev == s.ev && t.caller.Nobody? && t.maxEvents == 6
    ensures t.slots == s.slots && t.cmds == []
  {
    hide Reachable, OnlyVideo, ChannelOf;
    t := CommandServed(s, FlushEs(VIDEO));
    t := Reach(t, TryFlushStep(false));
  }

  lemma {:induction false} EventStepped(s: State, accepted: bool) returns (t: State)
    requires Demultiplexing(s) && !s.ev.consumer.Resuming? && (s.ev.consumer.HasEvent() ==> s.ev.queue != [])
    requires s.ev.consumer.Deciding? ==> !s.ev.flags.resetInProgress
    ensures Demultiplexing(t) && t.ev == s.ev.Next(s.slots, accepted) && t.slots == s.slots
  {
    hide Reachable, OnlyVideo, ChannelOf, EventSide.Next;
    t := Reach(s, EventStep(accepted));
  }

  /** The first access unit gets to the application. */
  lemma {:induction false} Called(s: State) returns (t: State)
    requires Demultiplexing(s) && s.ev.queue != [] && s.ev.queue[0] == VIDEO_AU
    requires s.ev.consumer.Locking? && s.ev.flags == NO_FLAGS
    ensures Demultiplexing(t) && t.ev.consumer.Calling? && t.ev == s.ev.(consumer := t.ev.consumer)
  {
    hide Demultiplexing, EventSlot;
    t := EventStepped(s, true);
    t := EventStepped(t, true);
    assert EventSlot(t.slots, VIDEO_AU).Some? by { InVideo(t); }
    t := EventStepped(t, true);
  }

  /** The application has no room for the first access unit; then the thread sleeps for a release for good. */
  lemma {:induction false} CanDeadlockAsleep() returns (s: State)
    ensures Reachable(s) && Deadlock(s) && s.ev.consumer.Asleep?
  {
    hide Reachable, Demultiplexing, EventSlot;
    s := VideoEnabled();
    s := OneEvent(s);
    s := Called(s);
    s := EventStepped(s, false);
    s := EventStepped(s, false);
    s := Filled(s);
    s := Flushed(s);
  }

  lemma InVideo(s: State)
    requires Demultiplexing(s)
    ensures EventSlot(s.slots, VIDEO_AU).Some? && EventSlot(s.slots, VIDEO_AU).value in OpenSlots(s.slots)
  {
    VideoSlot(s.slots);
  }

  /** The event at the head needs the mutex, and its holder waits for the SPU thread. */
  lemma {:induction false} CanDeadlockPeeking() returns (s: State)
    ensures Reachable(s) && Deadlock(s) && s.ev.consumer.Peeking? && |s.ev.queue| == s.maxEvents
  {
    hide Reachable, Demultiplexing;
    s := VideoEnabled();
    s := EventStepped(s, true);
    s := Filled(s);
    s := Flushed(s);
    s := Blocked(s);
  }

  /** Another command is sent. */
  lemma {:induction false} Blocked(s: State) returns (t: State)
    requires Reachable(s) && s.caller.Nobody? && s.cmds == []
    ensures Reachable(t) && t.caller.Waiting? && t.cmds != []
    ensures t.spu == s.spu && t.ev == s.ev && t.maxEvents == s.maxEvents
  {
    hide Reachable;
    t := Reach(s, EnterStep(1, FlushEs(VIDEO)));
    t := Reach(t, SendStep);
  }

  /** A reset was requested, so the event at the head makes the thread send a command. */
  lemma {:induction false} CanDeadlockResetting() returns (s: State)
    ensures Reachable(s) && Deadlock(s) && s.caller.Nobody? && s.ev.flags.resetRequested
  {
    hide Reachable, OnlyVideo, ChannelOf, EventSlot, OpenSlots, SomeMarked;
    s := VideoEnabled();
    s := CommandServed(s, SetStream);
    s := Filled(s);
    s := CommandServed(s, ResetStream);
    InVideo(s);
    s := Flushed(s);
  }

  /** Two events are left; before the resume command is sent the event queue fills up again and a flush begins. */
  lemma {:induction false} CanDeadlockResuming() returns (s: State)
    ensures Reachable(s) && Deadlock(s) && s.caller.Nobody? && s.ev.consumer.Resuming?
  {
    hide Reachable, Demultiplexing, EventSlot;
    s := VideoEnabled();
    s := OneEvent(s);
    s := OneEvent(s);
    s := OneEvent(s);
    s := Called(s);
    s := EventStepped(s, true);
    s := EventStepped(s, true);
    s := EventStepped(s, true);
    s := Filled(s);
    s := Flushed(s);
  }
}
