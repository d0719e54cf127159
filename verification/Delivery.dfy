/**
 * The thread that passes events on to the application. When the application has no room for an access
 * unit, the thread remembers the number of its stream and sleeps until an access unit of that stream is
 * released, the stream is disabled, or a reset of the demultiplexer is requested.
 *
 * Threads of the application release access units and disable streams at any time. Each holds the
 * mutex of the stream from beginning to end, so that the callback of the same stream has to wait, and
 * the mutex of the demultiplexer while it sets a bit and signals the condition variable.
 *
 * A state is changed by one atomic step of one thread at a time.
 */
module Delivery {
  type StreamId = nat

  /** What a thread of the application, which holds the mutex of the stream, is doing. */
  datatype Busy =
    | Quiet
    | Started(disabling: bool)   // does not have the mutex of the demultiplexer yet
    | Locked(disabling: bool)    // has it
    | Marked(disabling: bool)    // has set the bit, but not signalled yet

  /** `live` access units are in the ring of the stream, `freed` have been released. A disabled stream has number 0. */
  datatype Stream = Stream(number: nat, enabled: bool, live: nat, freed: nat, busy: Busy)

  datatype Event = AuFound(id: StreamId) | DemuxDone | OtherEvent

  datatype Fate = Accepted | DroppedDisabled | DroppedReset | Notified

  /** What became of an event, and whether at that time its stream was enabled and a reset under way. */
  datatype Handled = Handled(event: Event, fate: Fate, enabled: bool, resetting: bool)
  {
    /** Only events of disabled streams, and during a reset, are dropped. */
    ghost predicate Right() {
      match event
      case AuFound(_) =>
        && fate != Notified
        && (fate == DroppedDisabled ==> !enabled)
        && (fate == DroppedReset ==> enabled && resetting)
        && (fate == Accepted ==> !resetting)
      case _ => fate == Notified
    }
  }

  datatype Mutex = Free | HeldByThread | HeldByUser(id: StreamId) | HeldByReset(marked: bool)

  datatype Thread =
    | Top                      // wants the mutex
    | Checking                 // has it
    | Asleep                   // waits for the condition variable
    | Awakened                 // wants the mutex again
    | Peeking                  // waits for an event
    | Looking                  // has one
    | Decided(id: StreamId)    // has returned the mutex, and is going to read the callback of the stream
    | Calling(id: StreamId)    // is in the callback
    | CalledNull(id: StreamId) // has called a callback that had been cleared
    | Refused(id: StreamId)    // the callback had no room
    | Popping                  // is done with the event

  /**
   * `full` and `released` are the sets of bits. `refusedNumber` is the number of the stream at the time
   * its callback had no room, `raced` records that the thread then read another one.
   */
  datatype State = State(
    capacity: nat, streams: map<StreamId, Stream>, mutex: Mutex,
    released: set<nat>, resetRequested: bool,
    thread: Thread, full: set<nat>, resetStarted: bool, resetInProgress: bool,
    queue: seq<Event>, sent: seq<Event>, handled: seq<Handled>,
    refusedNumber: nat, raced: bool)
  {
    predicate IsEnabled(id: StreamId) {
      id in streams && streams[id].enabled
    }

    ghost function With(id: StreamId, stream: Stream): State {
      this.(streams := streams[id := stream])
    }

    ghost function Outcome(fate: Fate): Handled
      requires queue != []
    {
      Handled(queue[0], fate, queue[0].AuFound? && IsEnabled(queue[0].id), resetInProgress)
    }

    ghost function Handle(fate: Fate): State
      requires queue != []
    {
      this.(handled := handled + [Outcome(fate)], thread := Popping)
    }
  }

  datatype Step =
    | ThreadStep
    | PushStep(event: Event)
    | EnableStep(id: StreamId, number: nat)
    | BeginStep(id: StreamId, disabling: bool)
    | LockStep(id: StreamId) | MarkStep(id: StreamId) | SignalStep(id: StreamId)
    | ResetLockStep | ResetMarkStep | ResetSignalStep

  // The steps of the thread

  /** Takes the mutex. */
  ghost function Lock(s: State): State {
    if !s.mutex.Free? then s
    else s.(mutex := HeldByThread, thread := Checking, resetStarted := !s.thread.Top? && s.resetStarted)
  }

  /** Goes to sleep, or takes note of everything that was signalled and goes on. */
  ghost function Check(s: State): State {
    if s.full != {} && s.full * s.released == {} && !s.resetRequested then s.(mutex := Free, thread := Asleep)
    else s.(mutex := Free, thread := Peeking, resetStarted := s.resetRequested, resetRequested := false, released := {})
  }

  /** A reset is looked for once more before the end of the stream is reported. */
  ghost function Peek(s: State): State {
    if s.queue == [] then s
    else if s.queue[0].DemuxDone? && !s.resetStarted then
      if s.mutex.Free?
      then s.(thread := Looking, resetStarted := s.resetRequested, resetRequested := false, released := {},
              resetInProgress := s.resetInProgress || s.resetRequested)
      else s
    else s.(thread := Looking, resetInProgress := s.resetInProgress || s.resetStarted)
  }

  /** Decides about the event, with the mutex. */
  ghost function Decide(s: State): State
    requires s.queue != []
  {
    match s.queue[0]
    case DemuxDone => s.(resetInProgress := false).Handle(Notified)
    case OtherEvent => s.Handle(Notified)
    case AuFound(id) =>
      if !s.mutex.Free? then s
      else if !s.IsEnabled(id) then s.Handle(DroppedDisabled)
      else if s.resetInProgress then s.Handle(DroppedReset)
      else s.(thread := Decided(id))
  }

  /** Reads the callback, without a mutex. Disabling a stream clears it, together with its number. */
  ghost function ReadCallback(s: State, id: StreamId): State
    requires id in s.streams
  {
    s.(thread := if s.streams[id].enabled then Calling(id) else CalledNull(id))
  }

  /** The callback waits for the mutex of the stream. */
  ghost function Call(s: State, id: StreamId): State
    requires s.queue != [] && id in s.streams
  {
    var stream := s.streams[id];
    if !stream.busy.Quiet? then s
    else if !stream.enabled then s.Handle(Accepted)
    else if stream.live >= s.capacity then s.(thread := Refused(id), refusedNumber := stream.number)
    else s.With(id, stream.(live := stream.live + 1)).Handle(Accepted)
  }

  /** Reads the number of the stream, without a mutex. */
  ghost function Remember(s: State, id: StreamId): State
    requires id in s.streams
  {
    s.(thread := Top, full := s.full + {s.streams[id].number}, raced := s.streams[id].number != s.refusedNumber)
  }

  ghost function Pop(s: State): State
    requires s.queue != []
  {
    s.(thread := Top, queue := s.queue[1..], full := {}, raced := false)
  }

  // The steps of the application

  ghost function Begin(s: State, id: StreamId, disabling: bool): State {
    if s.IsEnabled(id) && s.streams[id].busy.Quiet? && (disabling || s.streams[id].live > 0) then
      var stream := s.streams[id];
      if disabling then s.With(id, stream.(busy := Started(true)))
      else s.With(id, stream.(busy := Started(false), live := stream.live - 1, freed := stream.freed + 1))
    else s
  }

  ghost function UserLock(s: State, id: StreamId): State {
    if id in s.streams && s.streams[id].busy.Started? && s.mutex.Free?
    then s.With(id, s.streams[id].(busy := Locked(s.streams[id].busy.disabling))).(mutex := HeldByUser(id)) else s
  }

  ghost function UserMark(s: State, id: StreamId): State {
    if id in s.streams && s.streams[id].busy.Locked? then
      var stream := s.streams[id];
      var marked := stream.(busy := Marked(stream.busy.disabling));
      s.With(id, if stream.busy.disabling then marked.(enabled := false, number := 0) else marked)
       .(released := s.released + {stream.number})
    else s
  }

  /** Signals, and returns both mutexes. */
  ghost function UserSignal(s: State, id: StreamId): State {
    if id in s.streams && s.streams[id].busy.Marked?
    then
      s.With(id, s.streams[id].(busy := Quiet))
       .(mutex := Free, thread := if s.thread.Asleep? then Awakened else s.thread)
    else s
  }

  ghost function Enable(s: State, id: StreamId, number: nat): State {
    if && id !in s.streams && s.mutex.Free?
       && (forall i | i in s.streams :: s.streams[i].enabled ==> s.streams[i].number != number)
    then s.With(id, Stream(number, true, 0, 0, Quiet)) else s
  }

  ghost function ResetLock(s: State): State {
    if s.mutex.Free? then s.(mutex := HeldByReset(false)) else s
  }

  ghost function ResetMark(s: State): State {
    if s.mutex == HeldByReset(false) then s.(mutex := HeldByReset(true), resetRequested := true) else s
  }

  ghost function ResetSignal(s: State): State {
    if s.mutex == HeldByReset(true)
    then s.(mutex := Free, thread := if s.thread.Asleep? then Awakened else s.thread) else s
  }

  ghost function Push(s: State, event: Event): State {
    s.(queue := s.queue + [event], sent := s.sent + [event])
  }

  ghost function ThreadAfter(s: State): State
    requires ShapeOk(s)
  {
    match s.thread
    case Top => Lock(s)
    case Checking => Check(s)
    case Asleep => s
    case Awakened => Lock(s)
    case Peeking => Peek(s)
    case Looking => Decide(s)
    case Decided(id) => ReadCallback(s, id)
    case Calling(id) => Call(s, id)
    case CalledNull(_) => s
    case Refused(id) => Remember(s, id)
    case Popping => Pop(s)
  }

  ghost function After(s: State, step: Step): State
    requires ShapeOk(s)
  {
    match step
    case ThreadStep => ThreadAfter(s)
    case PushStep(event) => Push(s, event)
    case EnableStep(id, number) => Enable(s, id, number)
    case BeginStep(id, disabling) => Begin(s, id, disabling)
    case LockStep(id) => UserLock(s, id)
    case MarkStep(id) => UserMark(s, id)
    case SignalStep(id) => UserSignal(s, id)
    case ResetLockStep => ResetLock(s)
    case ResetMarkStep => ResetMark(s)
    case ResetSignalStep => ResetSignal(s)
  }

  // The invariant

  ghost function EventsOf(handled: seq<Handled>): seq<Event> {
    seq(|handled|, i requires 0 <= i < |handled| => handled[i].event)
  }

  /** Every event sent was handled once, and rightly, or is in the queue, in the order of sending. */
  ghost predicate LogOk(s: State)
    requires s.thread.Popping? ==> s.queue != []
  {
    && (forall i | 0 <= i < |s.handled| :: s.handled[i].Right())
    && EventsOf(s.handled) + (if s.thread.Popping? then s.queue[1..] else s.queue) == s.sent
  }

  ghost predicate Stores(h: Handled, id: StreamId) {
    h.event == AuFound(id) && h.fate == Accepted
  }

  ghost function AcceptedOf(handled: seq<Handled>, id: StreamId): nat {
    if handled == [] then 0
    else
      var n := |handled| - 1;
      AcceptedOf(handled[..n], id) + if Stores(handled[n], id) then 1 else 0
  }

  lemma AcceptedOfMore(handled: seq<Handled>, h: Handled, id: StreamId)
    ensures AcceptedOf(handled + [h], id) == AcceptedOf(handled, id) + if Stores(h, id) then 1 else 0
  {
    assert (handled + [h])[..|handled|] == handled;
  }

  /** The access units accepted for an enabled stream are in its ring or have been released. */
  ghost predicate StoreOk(s: State) {
    && (forall id | id !in s.streams :: AcceptedOf(s.handled, id) == 0)
    && (forall id | id in s.streams :: s.streams[id].enabled ==>
          AcceptedOf(s.handled, id) == s.streams[id].live + s.streams[id].freed)
  }

  ghost predicate AtAuFound(s: State) {
    s.queue != [] && s.queue[0].AuFound? && s.queue[0].id in s.streams
  }

  ghost predicate ShapeOk(s: State) {
    && (s.thread.Looking? || s.thread.Popping? ==> s.queue != [])
    && (s.thread.Decided? || s.thread.Calling? || s.thread.CalledNull? || s.thread.Refused? ==>
          AtAuFound(s) && s.queue[0].id == s.thread.id)
    && (s.thread.Decided? || s.thread.Calling? ==> !s.resetInProgress)
    && (s.thread.CalledNull? ==> !s.streams[s.thread.id].enabled)
    && (s.full != {} ==> AtAuFound(s))
    && (s.mutex.HeldByThread? <==> s.thread.Checking?)
  }

  /** Who holds the mutex of the demultiplexer. */
  ghost predicate MutexOk(s: State) {
    && (forall id | id in s.streams ::
          s.streams[id].busy.Locked? || s.streams[id].busy.Marked? ==> s.mutex == HeldByUser(id))
    && (s.mutex.HeldByUser? ==>
          && s.mutex.id in s.streams
          && (s.streams[s.mutex.id].busy.Locked? || s.streams[s.mutex.id].busy.Marked?))
  }

  /** A signal is going to be sent by the holder of the mutex. */
  ghost predicate SignalComing(s: State) {
    || (s.mutex.HeldByUser? && s.mutex.id in s.streams && s.streams[s.mutex.id].busy.Marked?)
    || s.mutex == HeldByReset(true)
  }

  ghost predicate WakeOk(s: State) {
    s.thread.Asleep? ==> s.full != {} && ((s.full * s.released == {} && !s.resetRequested) || SignalComing(s))
  }

  /** The thread has been refused and not looked at the event again. */
  ghost predicate Waiting(s: State) {
    || s.thread.Refused?
    || (s.full != {} && (s.thread.Top? || s.thread.Checking? || s.thread.Asleep? || s.thread.Awakened?))
  }

  /** The ring of the stream is still full, or the bit is going to be set, or it has been set. */
  ghost predicate ReasonOk(s: State)
    requires ShapeOk(s)
  {
    Waiting(s) ==>
      var stream := s.streams[s.queue[0].id];
      || (stream.enabled && stream.number == s.refusedNumber && stream.busy.Quiet? && stream.live >= s.capacity)
      || (stream.enabled && stream.number == s.refusedNumber && (stream.busy.Started? || stream.busy.Locked?))
      || s.refusedNumber in s.released
  }

  /** The thread waits for the right bit, unless the stream was disabled before its number was read. */
  ghost predicate NumberOk(s: State)
    requires ShapeOk(s)
  {
    Waiting(s) ==>
      var stream := s.streams[s.queue[0].id];
      && (stream.enabled ==> stream.number == s.refusedNumber)
      && (!stream.enabled ==> stream.number == 0)
      && (!s.thread.Refused? ==>
            if s.raced then !stream.enabled && s.refusedNumber != 0 && 0 in s.full else s.refusedNumber in s.full)
  }

  ghost predicate Ok(s: State) {
    ShapeOk(s) && LogOk(s) && StoreOk(s) && MutexOk(s) && WakeOk(s) && ReasonOk(s) && NumberOk(s)
  }

  lemma EventsOfMore(handled: seq<Handled>, h: Handled, rest: seq<Event>)
    requires rest != [] && rest[0] == h.event
    ensures EventsOf(handled + [h]) + rest[1..] == EventsOf(handled) + rest
  {
    assert rest == [rest[0]] + rest[1..];
  }

  lemma EventsOfPush(handled: seq<Handled>, rest: seq<Event>, event: Event)
    ensures EventsOf(handled) + (rest + [event]) == EventsOf(handled) + rest + [event]
    ensures rest != [] ==> (rest + [event])[1..] == rest[1..] + [event]
  {
  }

  lemma HandleOk(s: State, fate: Fate)
    requires ShapeOk(s) && LogOk(s) && MutexOk(s) && (s.thread.Looking? || s.thread.Calling?)
    requires StoreOk(s.Handle(fate)) && s.Outcome(fate).Right()
    ensures Ok(s.Handle(fate))
  {
    hide EventsOf, AcceptedOf, StoreOk, Handled.Right;
    EventsOfMore(s.handled, s.Outcome(fate), s.queue);
  }

  lemma NotStored(s: State, fate: Fate)
    requires StoreOk(s) && s.queue != []
    requires s.queue[0].AuFound? && fate == Accepted ==> s.queue[0].id in s.streams && !s.streams[s.queue[0].id].enabled
    ensures StoreOk(s.Handle(fate))
  {
    hide AcceptedOf;
    var h := s.Outcome(fate);
    forall id ensures AcceptedOf(s.handled + [h], id) == AcceptedOf(s.handled, id) + if Stores(h, id) then 1 else 0 {
      AcceptedOfMore(s.handled, h, id);
    }
  }

  lemma LockOk(s: State)
    requires Ok(s) && (s.thread.Top? || s.thread.Awakened?)
    ensures Ok(Lock(s))
  {
    hide EventsOf, AcceptedOf;
  }

  lemma CheckOk(s: State)
    requires Ok(s) && s.thread.Checking?
    ensures Ok(Check(s))
  {
    hide EventsOf, AcceptedOf;
  }

  lemma PeekOk(s: State)
    requires Ok(s) && s.thread.Peeking?
    ensures Ok(Peek(s))
  {
    hide EventsOf, AcceptedOf;
  }

  lemma DecideOk(s: State)
    requires Ok(s) && s.thread.Looking?
    ensures Ok(Decide(s))
  {
    hide EventsOf, AcceptedOf, LogOk, MutexOk, StoreOk;
    match s.queue[0]
    case DemuxDone =>
      Unrelated(s);
      NotStored(s.(resetInProgress := false), Notified);
      HandleOk(s.(resetInProgress := false), Notified);
    case OtherEvent =>
      NotStored(s, Notified);
      HandleOk(s, Notified);
    case AuFound(id) =>
      if !s.IsEnabled(id) {
        NotStored(s, DroppedDisabled);
        HandleOk(s, DroppedDisabled);
      } else if s.resetInProgress {
        NotStored(s, DroppedReset);
        HandleOk(s, DroppedReset);
      } else {
        DecidedOk(s, id);
      }
  }

  lemma Unrelated(s: State)
    requires ShapeOk(s) && LogOk(s) && MutexOk(s) && StoreOk(s)
    ensures var t := s.(resetInProgress := false); LogOk(t) && MutexOk(t) && StoreOk(t)
  {
    hide EventsOf, AcceptedOf;
  }

  lemma DecidedOk(s: State, id: StreamId)
    requires Ok(s) && s.thread.Looking? && s.queue[0] == AuFound(id) && id in s.streams && !s.resetInProgress
    ensures Ok(s.(thread := Decided(id)))
  {
    hide EventsOf, AcceptedOf;
  }

  lemma ReadCallbackOk(s: State, id: StreamId)
    requires Ok(s) && s.thread == Decided(id)
    ensures Ok(ReadCallback(s, id))
  {
    hide EventsOf, AcceptedOf;
  }

  lemma Stored(s: State, id: StreamId)
    requires Ok(s) && s.thread == Calling(id)
    ensures var t := s.With(id, s.streams[id].(live := s.streams[id].live + 1));
      ShapeOk(t) && LogOk(t) && MutexOk(t) && StoreOk(t.Handle(Accepted))
  {
    hide EventsOf, AcceptedOf;
    var h := s.Outcome(Accepted);
    forall i ensures AcceptedOf(s.handled + [h], i) == AcceptedOf(s.handled, i) + if i == id then 1 else 0 {
      AcceptedOfMore(s.handled, h, i);
    }
  }

  lemma RefusedOk(s: State, id: StreamId)
    requires Ok(s) && s.thread == Calling(id)
    requires var stream := s.streams[id]; stream.busy.Quiet? && stream.enabled && stream.live >= s.capacity
    ensures Ok(s.(thread := Refused(id), refusedNumber := s.streams[id].number))
  {
    hide EventsOf, AcceptedOf;
  }

  lemma CallOk(s: State, id: StreamId)
    requires Ok(s) && s.thread == Calling(id)
    ensures Ok(Call(s, id))
  {
    hide Ok, LogOk, StoreOk, MutexOk, WakeOk, ReasonOk, NumberOk;
    Parts(s);
    var stream := s.streams[id];
    if !stream.busy.Quiet? {
    } else if !stream.enabled {
      NotStored(s, Accepted);
      HandleOk(s, Accepted);
    } else if stream.live >= s.capacity {
      RefusedOk(s, id);
    } else {
      Stored(s, id);
      HandleOk(s.With(id, stream.(live := stream.live + 1)), Accepted);
    }
  }

  lemma Parts(s: State)
    requires Ok(s)
    ensures ShapeOk(s) && LogOk(s) && StoreOk(s) && MutexOk(s)
  {
  }

  lemma RememberOk(s: State, id: StreamId)
    requires Ok(s) && s.thread == Refused(id)
    ensures Ok(Remember(s, id))
  {
    hide EventsOf, AcceptedOf;
  }

  lemma PopOk(s: State)
    requires Ok(s) && s.thread.Popping?
    ensures Ok(Pop(s))
  {
    hide EventsOf, AcceptedOf;
  }

  lemma BeginOk(s: State, id: StreamId, disabling: bool)
    requires Ok(s)
    ensures Ok(Begin(s, id, disabling))
  {
    hide EventsOf, AcceptedOf;
  }

  lemma UserLockOk(s: State, id: StreamId)
    requires Ok(s)
    ensures Ok(UserLock(s, id))
  {
    hide EventsOf, AcceptedOf;
  }

  lemma UserMarkOk(s: State, id: StreamId)
    requires Ok(s)
    ensures Ok(UserMark(s, id))
  {
    hide EventsOf, AcceptedOf;
  }

  lemma UserSignalOk(s: State, id: StreamId)
    requires Ok(s)
    ensures Ok(UserSignal(s, id))
  {
    hide EventsOf, AcceptedOf;
  }

  lemma EnableOk(s: State, id: StreamId, number: nat)
    requires Ok(s)
    ensures Ok(Enable(s, id, number))
  {
    hide EventsOf, AcceptedOf;
  }

  lemma ResetLockOk(s: State)
    requires Ok(s)
    ensures Ok(ResetLock(s))
  {
    hide EventsOf, AcceptedOf;
  }

  lemma ResetMarkOk(s: State)
    requires Ok(s)
    ensures Ok(ResetMark(s))
  {
    hide EventsOf, AcceptedOf;
  }

  lemma ResetSignalOk(s: State)
    requires Ok(s)
    ensures Ok(ResetSignal(s))
  {
    hide EventsOf, AcceptedOf;
  }

  lemma PushOk(s: State, event: Event)
    requires Ok(s)
    ensures Ok(Push(s, event))
  {
    hide EventsOf, AcceptedOf;
    EventsOfPush(s.handled, if s.thread.Popping? then s.queue[1..] else s.queue, event);
    EventsOfPush(s.handled, s.queue, event);
  }

  lemma AfterOk(s: State, step: Step)
    requires Ok(s)
    ensures Ok(After(s, step))
  {
    hide LogOk, StoreOk, MutexOk, WakeOk, ReasonOk, NumberOk,
      Lock, Check, Peek, Decide, ReadCallback, Call, Remember, Pop,
      Begin, UserLock, UserMark, UserSignal, Enable, ResetLock, ResetMark, ResetSignal, Push;
    match step
    case ThreadStep =>
      match s.thread {
        case Top => LockOk(s);
        case Checking => CheckOk(s);
        case Asleep =>
        case Awakened => LockOk(s);
        case Peeking => PeekOk(s);
        case Looking => DecideOk(s);
        case Decided(id) => ReadCallbackOk(s, id);
        case Calling(id) => CallOk(s, id);
        case CalledNull(_) =>
        case Refused(id) => RememberOk(s, id);
        case Popping => PopOk(s);
      }
    case PushStep(event) => PushOk(s, event);
    case EnableStep(id, number) => EnableOk(s, id, number);
    case BeginStep(id, disabling) => BeginOk(s, id, disabling);
    case LockStep(id) => UserLockOk(s, id);
    case MarkStep(id) => UserMarkOk(s, id);
    case SignalStep(id) => UserSignalOk(s, id);
    case ResetLockStep => ResetLockOk(s);
    case ResetMarkStep => ResetMarkOk(s);
    case ResetSignalStep => ResetSignalOk(s);
  }

  ghost function Start(capacity: nat): State {
    State(capacity, map[], Free, {}, false, Top, {}, false, false, [], [], [], 0, false)
  }

  /** Any interleaving of steps. */
  ghost function Run(capacity: nat, steps: seq<Step>): (s: State)
    ensures Ok(s)
  {
    if steps == [] then Start(capacity)
    else
      var before, step := Run(capacity, steps[..|steps| - 1]), steps[|steps| - 1];
      assert Ok(After(before, step)) by { AfterOk(before, step); }
      After(before, step)
  }

  /**
   * In every run each event is handled at most once, in the order of sending, and none is dropped without a
   * reason. Those not handled are in the queue. The thread comes to a halt at the first of them if the stream
   * was disabled and its callback cleared at the wrong time, which is the subject of `CalledNullExactly`.
   */
  lemma ExactlyOnce(capacity: nat, steps: seq<Step>)
    ensures var s := Run(capacity, steps);
      && s.sent == EventsOf(s.handled) + (if s.thread.Popping? && s.queue != [] then s.queue[1..] else s.queue)
      && (forall i | 0 <= i < |s.handled| :: s.handled[i].Right())
      && (s.thread.CalledNull? ==> s.queue != [] && s.queue[0] == AuFound(s.thread.id) && !s.IsEnabled(s.thread.id))
  {
    hide Run, EventsOf, StoreOk, MutexOk;
  }

  /** In every run the access units accepted for an enabled stream are those in its ring and those released. */
  lemma NothingLost(capacity: nat, steps: seq<Step>, id: StreamId)
    ensures var s := Run(capacity, steps);
      s.IsEnabled(id) ==> AcceptedOf(s.handled, id) == s.streams[id].live + s.streams[id].freed
  {
    hide Run, AcceptedOf;
    Parts(Run(capacity, steps));
  }

  /**
   * In every run, while the thread sleeps: no bit that it waits for is set and no reset is requested, or a
   * signal is coming.
   */
  lemma NoLostWakeup(capacity: nat, steps: seq<Step>)
    ensures var s := Run(capacity, steps);
      s.thread.Asleep? && !SignalComing(s) ==> s.full * s.released == {} && !s.resetRequested
  {
    hide Run, SignalComing, StoreOk, MutexOk, LogOk;
  }

  /**
   * In every run, while the thread sleeps and no signal is coming: the ring of the stream it waits for
   * is still full, or an access unit is being released or the stream disabled and the bit that the
   * thread waits for is going to be set. The exception is a stream that was disabled after its callback
   * had no room and before its number, not 0 then, was read.
   */
  lemma SleepsOnlyWhileFull(capacity: nat, steps: seq<Step>)
    ensures var s := Run(capacity, steps);
      s.thread.Asleep? && !SignalComing(s) ==>
        && AtAuFound(s)
        && var stream := s.streams[s.queue[0].id];
           if s.raced then !stream.enabled && s.refusedNumber != 0
           else
             && stream.enabled && stream.number in s.full
             && (if stream.busy.Quiet? then stream.live >= s.capacity else stream.busy.Started? || stream.busy.Locked?)
  {
    hide Run, SignalComing, LogOk, StoreOk, MutexOk;
    var s := Run(capacity, steps);
    if s.refusedNumber in s.full && s.refusedNumber in s.released {
      assert s.refusedNumber in s.full * s.released;
    }
  }

  // Where the code fails

  /** Steps, one after the other. */
  ghost function Meanwhile(s: State, others: seq<Step>): (t: State)
    requires Ok(s)
    ensures Ok(t)
    decreases |others|
  {
    if others == [] then s
    else
      var before, step := Meanwhile(s, others[..|others| - 1]), others[|others| - 1];
      assert Ok(After(before, step)) by { AfterOk(before, step); }
      After(before, step)
  }

  ghost predicate IsDisabling(s: State, step: Step, id: StreamId) {
    step == MarkStep(id) && id in s.streams && s.streams[id].busy == Locked(true)
  }

  /** One of the steps disables the stream. */
  ghost predicate Disables(s: State, others: seq<Step>, id: StreamId)
    requires Ok(s)
    decreases |others|
  {
    others != [] &&
    var n := |others| - 1;
    Disables(s, others[..n], id) || IsDisabling(Meanwhile(s, others[..n]), others[n], id)
  }

  /** The thread is going to read something of the stream without a mutex. */
  ghost predicate AboutToRead(s: State, id: StreamId) {
    (s.thread == Decided(id) || s.thread == Refused(id)) && id in s.streams
  }

  /** The thread is where it was, and the stream is enabled if it was and has not been disabled. */
  ghost predicate StillReading(s: State, t: State, id: StreamId, disabled: bool)
    requires AboutToRead(s, id)
  {
    && t.thread == s.thread && t.refusedNumber == s.refusedNumber && AboutToRead(t, id)
    && (t.streams[id].enabled <==> s.streams[id].enabled && !disabled)
  }

  lemma BeginStill(s: State, i: StreamId, disabling: bool, id: StreamId)
    requires AboutToRead(s, id)
    ensures StillReading(s, Begin(s, i, disabling), id, false)
  {
  }

  lemma UserLockStill(s: State, i: StreamId, id: StreamId)
    requires AboutToRead(s, id)
    ensures StillReading(s, UserLock(s, i), id, false)
  {
  }

  lemma UserMarkStill(s: State, i: StreamId, id: StreamId)
    requires AboutToRead(s, id)
    ensures StillReading(s, UserMark(s, i), id, IsDisabling(s, MarkStep(i), id))
  {
  }

  lemma UserSignalStill(s: State, i: StreamId, id: StreamId)
    requires AboutToRead(s, id)
    ensures StillReading(s, UserSignal(s, i), id, false)
  {
  }

  /** No step of another thread moves the thread on, or enables the stream again. */
  lemma OtherStep(s: State, step: Step, id: StreamId)
    requires ShapeOk(s) && AboutToRead(s, id) && !step.ThreadStep?
    ensures StillReading(s, After(s, step), id, IsDisabling(s, step, id))
  {
    hide ShapeOk, Begin, UserLock, UserMark, UserSignal;
    match step
    case BeginStep(i, disabling) => BeginStill(s, i, disabling, id);
    case LockStep(i) => UserLockStill(s, i, id);
    case MarkStep(i) => UserMarkStill(s, i, id);
    case SignalStep(i) => UserSignalStill(s, i, id);
    case _ =>
  }

  lemma {:induction false} MeanwhileReads(s: State, id: StreamId, others: seq<Step>)
    requires Ok(s) && AboutToRead(s, id) && s.streams[id].enabled
    requires forall i | 0 <= i < |others| :: !others[i].ThreadStep?
    ensures StillReading(s, Meanwhile(s, others), id, Disables(s, others, id))
    decreases |others|
  {
    hide Ok, ShapeOk, After, IsDisabling;
    if others != [] {
      var n := |others| - 1;
      MeanwhileReads(s, id, others[..n]);
      Parts(Meanwhile(s, others[..n]));
      OtherStep(Meanwhile(s, others[..n]), others[n], id);
    }
  }

  /**
   * For every event that the thread decides to pass on, and whatever the other threads do before it reads
   * the callback: it calls a cleared callback if and only if the stream is disabled in between.
   */
  lemma CalledNullExactly(s: State, id: StreamId, others: seq<Step>)
    requires Ok(s) && s.thread.Looking? && s.queue[0] == AuFound(id)
    requires s.mutex.Free? && s.IsEnabled(id) && !s.resetInProgress
    requires forall i | 0 <= i < |others| :: !others[i].ThreadStep?
    ensures Ok(Decide(s)) && Decide(s).thread == Decided(id)
    ensures var t := Meanwhile(Decide(s), others);
      && t.thread == Decided(id) && id in t.streams
      && (ReadCallback(t, id).thread.CalledNull? <==> Disables(Decide(s), others, id))
  {
    DecideOk(s);
    MeanwhileReads(Decide(s), id, others);
  }

  lemma CalledNullStays(s: State, step: Step)
    requires ShapeOk(s) && s.thread.CalledNull?
    ensures After(s, step).thread == s.thread && After(s, step).handled == s.handled
  {
  }

  /** After that the thread handles nothing any more, whatever happens. */
  lemma {:induction false} CalledNullForever(s: State, steps: seq<Step>)
    requires Ok(s) && s.thread.CalledNull?
    ensures Meanwhile(s, steps).thread == s.thread && Meanwhile(s, steps).handled == s.handled
    decreases |steps|
  {
    hide Ok, ShapeOk, After;
    if steps != [] {
      var n := |steps| - 1;
      CalledNullForever(s, steps[..n]);
      Parts(Meanwhile(s, steps[..n]));
      CalledNullStays(Meanwhile(s, steps[..n]), steps[n]);
    }
  }

  /**
   * For every event that the callback has no room for, and whatever the other threads do before the thread
   * reads the number of the stream: it waits for the wrong bit if and only if the stream, whose number was
   * not 0, is disabled in between.
   */
  lemma RacedExactly(s: State, id: StreamId, others: seq<Step>)
    requires Ok(s) && s.thread == Calling(id) && s.streams[id].busy.Quiet?
    requires s.streams[id].enabled && s.streams[id].live >= s.capacity
    requires forall i | 0 <= i < |others| :: !others[i].ThreadStep?
    ensures Ok(Call(s, id)) && Call(s, id).thread == Refused(id)
    ensures var t := Meanwhile(Call(s, id), others);
      && t.thread == Refused(id) && id in t.streams
      && (Remember(t, id).raced <==> s.streams[id].number != 0 && Disables(Call(s, id), others, id))
  {
    hide LogOk, StoreOk, MutexOk, WakeOk, ReasonOk, NumberOk, Meanwhile, Disables;
    CallOk(s, id);
    MeanwhileReads(Call(s, id), id, others);
    NumberFacts(Meanwhile(Call(s, id), others), id);
  }

  lemma NumberFacts(s: State, id: StreamId)
    requires Ok(s) && s.thread == Refused(id)
    ensures s.streams[id].number == if s.streams[id].enabled then s.refusedNumber else 0
  {
  }

  /** Wherever a callback has just had no room, disabling the stream makes the thread sleep for bit 0. */
  lemma DisabledTooEarly(s: State, id: StreamId)
    requires Ok(s) && s.thread == Refused(id) && s.full == {} && s.mutex.Free? && !s.resetRequested && 0 !in s.released
    requires s.streams[id].enabled && s.streams[id].busy.Quiet? && s.streams[id].number != 0
    ensures var t := Remember(UserSignal(UserMark(UserLock(Begin(s, id, true), id), id), id), id);
      && t.raced && !t.streams[id].enabled && t.queue == s.queue
      && Check(Lock(t)).thread.Asleep? && Check(Lock(t)).full == {0}
  {
    var s1 := Begin(s, id, true);
    assert s1.streams[id].busy == Started(true);
    var s2 := UserLock(s1, id);
    assert s2.streams[id].busy == Locked(true);
    var s3 := UserMark(s2, id);
    assert s3.streams[id] == Stream(0, false, s.streams[id].live, s.streams[id].freed, Marked(true));
    var s4 := UserSignal(s3, id);
    var t := Remember(s4, id);
    assert t.full == {0} && t.released == s.released + {s.streams[id].number};
    assert t.full * t.released == {};
  }

  // Runs that get there

  ghost predicate Reachable(s: State) {
    exists capacity: nat, steps: seq<Step> :: s == Run(capacity, steps)
  }

  lemma {:induction false} Reach(s: State, step: Step) returns (t: State)
    requires Reachable(s)
    ensures ShapeOk(s) && t == After(s, step) && Reachable(t)
  {
    hide LogOk, StoreOk, MutexOk, WakeOk, ReasonOk, NumberOk, ShapeOk, After;
    var capacity: nat, steps: seq<Step> :| s == Run(capacity, steps);
    var more := steps + [step];
    assert more[..|more| - 1] == steps;
    t := After(s, step);
    assert t == Run(capacity, more);
  }

  /** Nothing is going on, and `live` access units are in the ring of the stream `id`, with number 1. */
  ghost predicate Idle(s: State, id: StreamId, live: nat) {
    && s.thread.Peeking? && s.queue == [] && s.full == {} && s.mutex.Free? && s.released == {}
    && !s.resetRequested && !s.resetStarted && !s.resetInProgress
    && id in s.streams && s.streams[id] == Stream(1, true, live, 0, Quiet)
  }

  lemma {:induction false} StartIdle(capacity: nat) returns (s: State)
    ensures Reachable(s) && s.capacity == capacity && Idle(s, 1, 0)
  {
    hide Run, ShapeOk, Ok, Reachable;
    s := Start(capacity);
    assert Reachable(s) by { AtStart(capacity); }
    s := Reach(s, EnableStep(0, 0));
    s := Reach(s, EnableStep(1, 1));
    s := Reach(s, ThreadStep);
    s := Reach(s, ThreadStep);
  }

  lemma AtStart(capacity: nat)
    ensures Reachable(Start(capacity))
  {
    assert Run(capacity, []) == Start(capacity);
  }

  /** An event arrives, and the thread decides to pass it on. */
  lemma {:induction false} Decides(s: State, id: StreamId, live: nat) returns (t: State)
    requires Reachable(s) && Idle(s, id, live)
    ensures Reachable(t) && t == s.(queue := [AuFound(id)], sent := t.sent, thread := Decided(id))
  {
    hide Run, ShapeOk, Ok, Reachable;
    t := Reach(s, PushStep(AuFound(id)));
    t := Reach(t, ThreadStep);
    t := Reach(t, ThreadStep);
  }

  /** It is passed on, and stored if there is room. */
  lemma {:induction false} OneMore(s: State, id: StreamId, live: nat) returns (t: State)
    requires Reachable(s) && Idle(s, id, live) && live < s.capacity
    ensures Reachable(t) && t.capacity == s.capacity && Idle(t, id, live + 1)
  {
    hide Run, ShapeOk, Ok, Reachable;
    t := Decides(s, id, live);
    t := Reach(t, ThreadStep);
    t := Reach(t, ThreadStep);
    t := Reach(t, ThreadStep);
    t := Reach(t, ThreadStep);
    t := Reach(t, ThreadStep);
  }

  lemma {:induction false} Filled(capacity: nat, live: nat) returns (s: State)
    requires live <= capacity
    ensures Reachable(s) && s.capacity == capacity && Idle(s, 1, live)
  {
    hide Reachable, Idle;
    if live == 0 {
      s := StartIdle(capacity);
    } else {
      s := Filled(capacity, live - 1);
      s := OneMore(s, 1, live - 1);
    }
  }

  /** The stream is disabled while the thread is about to read. */
  lemma {:induction false} Disable(s: State, id: StreamId) returns (t: State)
    requires Reachable(s) && AboutToRead(s, id) && s.mutex.Free? && s.streams[id].enabled && s.streams[id].busy.Quiet?
    ensures Reachable(t)
    ensures var stream := s.streams[id].(number := 0, enabled := false);
      t == s.(streams := s.streams[id := stream], released := s.released + {s.streams[id].number})
  {
    hide Run, ShapeOk, Ok, Reachable;
    t := Reach(s, BeginStep(id, true));
    t := Reach(t, LockStep(id));
    t := Reach(t, MarkStep(id));
    t := Reach(t, SignalStep(id));
    assert t.streams == s.streams[id := s.streams[id].(number := 0, enabled := false)];
  }

  /** There is a run in which the thread calls a cleared callback. */
  lemma {:induction false} CanCallNull(capacity: nat) returns (s: State)
    ensures Reachable(s) && s.thread.CalledNull?
  {
    hide Run, ShapeOk, Ok, Reachable;
    s := StartIdle(capacity);
    s := Decides(s, 1, 0);
    s := Disable(s, 1);
    s := Reach(s, ThreadStep);
  }

  /**
   * For every capacity there is a run in which the thread sleeps, without any signal coming, although its
   * event could be dropped: the stream is disabled, and its bit is set.
   */
  lemma {:induction false} CanSleepOnDisabled(capacity: nat) returns (s: State)
    ensures Reachable(s) && s.capacity == capacity && s.thread.Asleep? && !SignalComing(s)
    ensures s.queue == [AuFound(1)] && !s.IsEnabled(1) && s.full == {0} && s.released == {1}
  {
    hide Run, ShapeOk, Ok, Reachable;
    s := Filled(capacity, capacity);
    s := Decides(s, 1, capacity);
    s := Reach(s, ThreadStep);
    s := Reach(s, ThreadStep);
    s := Disable(s, 1);
    s := Reach(s, ThreadStep);
    s := Reach(s, ThreadStep);
    s := Reach(s, ThreadStep);
  }
}
