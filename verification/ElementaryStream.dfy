/**
 * Processing of packet data: a machine with four states that can be refused when the output queue is
 * full, when the event queue is full, or when there is no room for the next access unit, and that
 * goes on where it was refused when it is entered again.
 *
 * `Stage` is a snapshot of the machine. Its `Outcome` is what the stream will look like once the
 * current packet is used up; no step and no refusal changes it.
 */
module ElementaryStreams {
  import opened Bytes
  import opened OutputQueues
  import opened Parsers
  import opened Packets

  datatype State = Initial | PushingAuQueue | NotifyingAuFound | PreparingForNextAu

  /**
   * `SectionLeft` and `EmptyAu` end the model: the parser has left the section it was given, or an access
   * unit without bytes is to be reported, which needs a frame that does not have the size in its header.
   */
  datatype Result = Consumed | QueueFull | EventRefused | AuTooLarge | SectionLeft | EmptyAu

  ghost function BytesOf(units: seq<Unit>): seq<seq<byte>> {
    seq(|units|, i requires 0 <= i < |units| => units[i].bytes)
  }

  lemma BytesOfSnoc(units: seq<Unit>, u: Unit)
    ensures BytesOf(units + [u]) == BytesOf(units) + [u.bytes]
  {
  }

  /**
   * `packet` is the current packet (empty if there is none), `stream` what is left of it, `chunk` the
   * bytes cut out but not pushed yet, `announced` the access units reported so far.
   */
  datatype Stage = Stage(state: State, au: AccessUnit, chunk: seq<byte>, cache: seq<byte>,
                         packet: seq<byte>, stream: seq<byte>, partial: seq<byte>, announced: seq<Unit>, restarts: nat)
  {
    /** The current access unit has been reported, and still is the current one. */
    ghost predicate Sealed() {
      state == PreparingForNextAu && au.state == Complete
    }

    /** A unit in progress is not empty. */
    ghost predicate Begun() {
      au.state != NoAu && au.state != OutOfSection ==> au.accumulatedSize > 0
    }

    ghost function Done(): seq<seq<byte>> {
      BytesOf(announced)
    }

    ghost function Now(): Es {
      Es(au, cache, partial + chunk, Done(), restarts)
    }

    ghost predicate Ok(codec: Codec) {
      && au.Ok() && |cache| <= 3 && |stream| <= |packet|
      && (state != PushingAuQueue ==> chunk == [])
      && (codec.Avc? ==> au.sizeInfoOffset == 0 && au.state != SizeMismatch && au.state != OutOfSection)
      && (state == Initial ==> au.state != Complete && au.state != OutOfSection)
      && (state in {NotifyingAuFound, PreparingForNextAu} ==> au.state != SizeMismatch && au.state != OutOfSection)
      && (state != Initial && au.state in {NoAu, Incomplete, Commenced, OutOfSection} ==> stream == [])
      && (state != Initial && au.state == SizeMismatch ==> packet != [])
      && if Sealed() then partial == [] && announced != [] && |announced[|announced| - 1].bytes| == au.accumulatedSize
         // The bytes of the current unit in the queue are all that was cut out but not those still to be pushed
         else |partial| + |chunk| == au.accumulatedSize
    }

    /** The stream once the current packet is used up. */
    ghost function Outcome(codec: Codec): Es
      requires Ok(codec)
    {
      if state == Initial then Run(codec, packet, stream, Now())
      else if Sealed() then Run(codec, packet, stream, Es(NO_AU, cache, [], Done(), restarts))
      else Settle(codec, packet, stream, Now())
    }

    // The steps of the machine

    ghost function Parsed(p: Parsed): Stage
      requires p.consumed <= |stream|
    {
      this.(state := PushingAuQueue, au := p.au.(accumulatedSize := p.au.accumulatedSize + |p.Chunk()|),
            chunk := p.Chunk(), cache := p.cache, stream := stream[p.consumed..])
    }

    lemma ParsedOk(codec: Codec)
      requires Ok(codec) && state == Initial && stream != []
      ensures var p := Parse(codec, au, cache, stream);
        && p.consumed <= |stream| && Parsed(p).Ok(codec) && Parsed(p).Outcome(codec) == Outcome(codec)
        && Parsed(p).Before(this) && (Begun() ==> Parsed(p).Begun())
    {
      hide Parse;
      assert partial + [] == partial;
      ParseFacts(codec, Now(), stream);
      var p := Parse(codec, au, cache, stream);
      assert Took(Now(), p) == Parsed(p).Now();
    }

    /** The chunk is in the queue. */
    ghost function Pushed(): Stage {
      this.(partial := partial + chunk, chunk := [])
    }

    lemma PushedOk(codec: Codec)
      requires Ok(codec) && state == PushingAuQueue
      ensures Pushed().Ok(codec) && Pushed().Outcome(codec) == Outcome(codec)
      ensures au.state != SizeMismatch && au.state != OutOfSection ==>
                Pushed().(state := NotifyingAuFound).Ok(codec)
                && Pushed().(state := NotifyingAuFound).Outcome(codec) == Outcome(codec)
    {
      assert partial + chunk + [] == partial + chunk;
    }

    /** The current access unit does not have the size in its header: start over, one byte further on. */
    ghost function StartedOver(): Stage
      requires packet != []
    {
      this.(state := Initial, packet := packet[1..], stream := packet[1..], partial := [],
            au := au.(accumulatedSize := 0),
            restarts := restarts + 1)
    }

    lemma StartedOverOk(codec: Codec)
      requires Ok(codec) && state == PushingAuQueue && chunk == [] && au.state == SizeMismatch && packet != []
      ensures StartedOver().Ok(codec) && StartedOver().Outcome(codec) == Outcome(codec)
    {
      assert [] + chunk == [];
    }

    /** The current access unit has been reported. */
    ghost function Announced(addr: nat): Stage {
      this.(state := PreparingForNextAu, partial := [], announced := announced + [Unit(addr, partial)])
    }

    lemma AnnouncedOk(codec: Codec, addr: nat)
      requires Ok(codec) && state == NotifyingAuFound && au.state == Complete
      ensures Announced(addr).Ok(codec) && Announced(addr).Outcome(codec) == Outcome(codec)
    {
      BytesOfSnoc(announced, Unit(addr, partial));
      assert partial + chunk == partial;
    }

    lemma NotAnnouncedOk(codec: Codec)
      requires Ok(codec) && state == NotifyingAuFound && au.state != Complete
      ensures this.(state := PreparingForNextAu).Ok(codec)
      ensures this.(state := PreparingForNextAu).Outcome(codec) == Outcome(codec)
    {
    }

    /** There is room for the next access unit. */
    ghost function Prepared(): Stage {
      if au.state == Complete then this.(state := Initial, au := NO_AU) else this.(state := Initial)
    }

    lemma PreparedOk(codec: Codec)
      requires Ok(codec) && state == PreparingForNextAu
      ensures Prepared().Ok(codec) && Prepared().Outcome(codec) == Outcome(codec)
      ensures Prepared().Before(this)
    {
      assert [] + chunk == [];
    }

    /** The current access unit and the rest of the packet are given up. */
    ghost function Discarded(): Stage {
      Stage(Initial, NO_AU, [], [], [], [], [], announced, restarts)
    }

    lemma DiscardedOk(codec: Codec)
      ensures Discarded().Ok(codec) && Discarded().Outcome(codec) == Es(NO_AU, [], [], Done(), restarts)
    {
      assert [] + Discarded().chunk == [];
    }

    /** How much of the current access unit is in the queue. */
    lemma InQueue(codec: Codec)
      requires Ok(codec) && !Sealed()
      ensures |partial| == au.accumulatedSize - |chunk|
    {
    }

    lemma NothingLeft(codec: Codec)
      requires Ok(codec) && state == NotifyingAuFound
      ensures chunk == []
    {
    }

    /** What is larger than all units of the outcome will not be one of them. */
    lemma {:induction false} LargeUnit(codec: Codec, max: nat)
      requires Ok(codec) && state == PushingAuQueue && au.accumulatedSize > max
      ensures !Fits(Outcome(codec), max) || Outcome(codec).restarts > restarts
    {
      SettleKeeps(codec, packet, stream, Now());
      assert au.state == Complete ==> (Done() + [Now().cur])[|Done()|] == Now().cur;
    }

    lemma {:induction false} RestartsKept(codec: Codec)
      requires Ok(codec)
      ensures restarts <= Outcome(codec).restarts
      ensures au.state == OutOfSection ==> Outcome(codec).au.state == OutOfSection
    {
      if state == Initial {
        RunKeeps(codec, packet, stream, Now());
      } else if Sealed() {
        RunKeeps(codec, packet, stream, Es(NO_AU, cache, [], Done(), restarts));
      } else {
        SettleKeeps(codec, packet, stream, Now());
      }
    }

    lemma {:induction false} MoreToReport(codec: Codec)
      requires Ok(codec)
      ensures |announced| <= |Outcome(codec).done|
    {
      if state == Initial {
        RunKeeps(codec, packet, stream, Now());
      } else if Sealed() {
        RunKeeps(codec, packet, stream, Es(NO_AU, cache, [], Done(), restarts));
      } else {
        SettleKeeps(codec, packet, stream, Now());
      }
    }

    // Progress

    ghost function Left(): nat {
      if stream == [] then 0 else 1 + |cache| + |stream|
    }

    ghost function Turn(): nat {
      if state != Initial then 1 else if stream == [] || au.state == NoAu then 0 else 2
    }

    /** Closer to the end of the packet. */
    ghost predicate Before(that: Stage) {
      || |packet| < |that.packet|
      || (|packet| == |that.packet| && Left() < that.Left())
      || (|packet| == |that.packet| && Left() == that.Left() && Turn() < that.Turn())
    }
  }

  /**
   * The queue holds the reported access units that have not been released, where they were reported
   * to be, and each of them started with room for a unit of the maximum size.
   */
  ghost predicate Logged(units: seq<Unit>, events: seq<Span>, announced: seq<Unit>,
      released: nat, auMaxSize: nat, length: nat)
  {
    && released <= |announced| == |events|
    && units == announced[released..]
    && (forall i | 0 <= i < |events| :: events[i] == Span(announced[i].addr, |announced[i].bytes|))
    && (forall i | released <= i < |announced| :: announced[i].addr + auMaxSize <= length)
  }

  lemma LoggedMore(units: seq<Unit>, events: seq<Span>, announced: seq<Unit>,
      released: nat, auMaxSize: nat, length: nat, u: Unit)
    requires Logged(units, events, announced, released, auMaxSize, length) && u.addr + auMaxSize <= length
    ensures Logged(units + [u], events + [Span(u.addr, |u.bytes|)], announced + [u], released, auMaxSize, length)
    ensures released <= |announced|
  {
    assert (announced + [u])[released..] == announced[released..] + [u];
  }

  lemma LoggedLess(units: seq<Unit>, events: seq<Span>, announced: seq<Unit>,
      released: nat, auMaxSize: nat, length: nat)
    requires Logged(units, events, announced, released, auMaxSize, length) && released < |events|
    ensures units != [] && events[released].size == |units[0].bytes| && |announced| == |events|
    ensures Logged(units[1..], events, announced, released + 1, auMaxSize, length)
  {
    assert announced[released..][1..] == announced[released + 1..];
  }

  lemma LoggedRoom(units: seq<Unit>, events: seq<Span>, announced: seq<Unit>,
      released: nat, auMaxSize: nat, length: nat)
    requires Logged(units, events, announced, released, auMaxSize, length)
    ensures units != [] ==> units[0].addr + auMaxSize <= length && released < |events|
    ensures released <= |announced| == |events|
    ensures released < |announced| ==> units != [] && units[|units| - 1] == announced[|announced| - 1]
  {
  }

  class ElementaryStream {
    const codec: Codec
    const auMaxSize: nat
    const auQueue: OutputQueue

    var state: State
    var au: AccessUnit
    var chunkCached: seq<byte>
    var chunkData: seq<byte>
    var cache: seq<byte>
    var packet: Option<seq<byte>>
    var stream: seq<byte>

    var events: seq<Span>           // what was reported so far: address and size of access units
    var released: nat               // how many of them have been released
    ghost var announced: seq<Unit>  // the access units reported
    ghost var restarts: nat         // how often a frame did not have the size in its header

    ghost function Snapshot(): Stage
      reads this, auQueue
    {
      Stage(state, au, chunkCached + chunkData, cache, if packet.Some? then packet.value else [], stream,
            auQueue.ring.partial, announced, restarts)
    }

    ghost predicate Valid()
      reads this, auQueue, auQueue.buffer
    {
      && auQueue.Valid()
      && Snapshot().Ok(codec)
      && (packet.None? ==> state == Initial && stream == [])
      && auMaxSize <= auQueue.buffer.Length
      && (restarts == 0 ==> Snapshot().Begun())
      && Logged(auQueue.ring.Units(), events, announced, released, auMaxSize, auQueue.buffer.Length)
      && if Snapshot().Sealed() then released < |announced| && announced[|announced| - 1].End() == auQueue.back
         // A whole access unit of the maximum size fits behind the start of the current one
         else auQueue.ring.Start() + auMaxSize <= auQueue.buffer.Length
    }

    /** What the stream will look like once the current packet is used up. */
    ghost function Outcome(): Es
      requires Valid()
      reads this, auQueue, auQueue.buffer
    {
      Snapshot().Outcome(codec)
    }

    constructor (codec: Codec, auMaxSize: nat, buffer: array<byte>)
      requires auMaxSize <= buffer.Length
      ensures Valid() && Outcome() == EMPTY && packet.None? && state == Initial && announced == [] && restarts == 0
      ensures fresh(auQueue) && auQueue.buffer == buffer
      ensures this.codec == codec && this.auMaxSize == auMaxSize
    {
      this.codec, this.auMaxSize := codec, auMaxSize;
      auQueue := new OutputQueue(buffer);
      state, au, chunkCached, chunkData, cache, packet, stream := Initial, NO_AU, [], [], [], None, [];
      events, released, announced, restarts := [], 0, [], 0;
      new;
      hide Run, Settle, Stage.Ok, Stage.Outcome, Ring.Ok;
      Snapshot().DiscardedOk(codec);
      assert Snapshot() == Snapshot().Discarded();
    }

    method SetPacket(data: seq<byte>)
      requires Valid() && packet.None?
      modifies this
      ensures Valid() && packet == Some(data) && state == Initial
      ensures Outcome() == Run(codec, data, data, old(Outcome()))
      ensures announced == old(announced) && released == old(released) && restarts == old(restarts)
    {
      packet := Some(data);
      stream := data;
      assert Snapshot().Now() == old(Outcome());
    }

    /** Nothing about access units already reported changes, except that more are reported. */
    twostate predicate Continues()
      reads this, auQueue, auQueue.buffer
    {
      && old(Valid()) && Valid() && Outcome() == old(Outcome())
      && old(announced) <= announced && released == old(released) && old(restarts) <= restarts
    }

    method EndPacket()
      requires Valid() && state == Initial && stream == []
      modifies this
      ensures Continues() && packet.None? && state == Initial
        && announced == old(announced) && restarts == old(restarts)
      ensures events == old(events)
      ensures Snapshot().Now() == Outcome()
    {
      hide Tiles, Logged;
      packet := None;
    }

    /** What the parsers rely on. */
    lemma ParseReady()
      requires Valid() && state == Initial && stream != []
      ensures |cache| <= 3 && !Snapshot().Sealed() && (codec.Avc? ==> au.sizeInfoOffset == 0)
    {
    }

    method ParseStream()
      requires Valid() && state == Initial && packet.Some? && stream != []
      modifies this
      ensures Continues() && announced == old(announced) && packet == old(packet)
      ensures state == PushingAuQueue && Snapshot().Before(old(Snapshot())) && restarts == old(restarts)
      ensures events == old(events)
    {
      hide Run, Settle, Tiles, Parse, Logged, Ring.Ok, Stage.Outcome, Stage.Ok;
      ghost var before := Snapshot();
      ParseReady();
      before.ParsedOk(codec);
      var p;
      if codec.Avc? {
        p := ParseAvc(au, cache, stream);
      } else {
        p := ParseAudio(codec, au, cache, stream);
      }
      stream := stream[p.consumed..];
      au := p.au.(accumulatedSize := p.au.accumulatedSize + |p.data| + |p.cached|);
      chunkCached, chunkData, cache := p.cached, p.data, p.cache;
      state := PushingAuQueue;
      assert Snapshot() == before.Parsed(p);
    }

    /** Pushes the chunk into the queue and goes on, unless the current unit does not have the size in its header. */
    method PushChunk() returns (r: PushResult)
      requires Valid() && state == PushingAuQueue
      modifies this, auQueue, auQueue.buffer
      ensures Continues() && announced == old(announced) && packet == old(packet) && restarts == old(restarts)
      ensures events == old(events)
      ensures r == Pushed ==>
                Snapshot() == if au.state in {SizeMismatch, OutOfSection} then old(Snapshot()).Pushed()
                              else old(Snapshot()).Pushed().(state := NotifyingAuFound)
      ensures r != Pushed ==> Snapshot() == old(Snapshot())
      // Only an access unit that is larger than the declared maximum is fatal
      ensures r == TooLarge ==> au.accumulatedSize > auMaxSize
      ensures r == Full ==> auQueue.wrapPos != 0
    {
      hide Run, Settle, Tiles, Logged, Ring.Ok, Stage.Outcome, Stage.Ok;
      ghost var before := Snapshot();
      before.PushedOk(codec);
      before.InQueue(codec);
      r := Pushed;
      if chunkData != [] || chunkCached != [] {
        r := auQueue.Push(chunkCached, chunkData);
        if r != Pushed {
          return;
        }
        chunkData, chunkCached := [], [];
      }
      assert chunkCached + chunkData == [];
      assert auQueue.ring.partial == before.partial + before.chunk;
      if au.state != SizeMismatch && au.state != OutOfSection {
        state := NotifyingAuFound;
      }
    }

    /** Takes the whole current access unit out of the queue and starts over, one byte further on in the packet. */
    method StartOver()
      requires Valid() && state == PushingAuQueue && chunkData == [] && chunkCached == []
      requires au.state == SizeMismatch && packet.Some?
      modifies this, auQueue
      ensures Continues() && announced == old(announced) && packet.Some? && events == old(events)
      ensures state == Initial && Snapshot().Before(old(Snapshot()))
      ensures auQueue.ring.Units() == old(auQueue.ring.Units()) && auQueue.ring.partial == []
    {
      hide Run, Settle, Tiles, Logged;
      ghost var before := Snapshot();
      assert packet.value != [];
      before.StartedOverOk(codec);
      packet := Some(packet.value[1..]);
      stream := packet.value;
      auQueue.PopBack(au.accumulatedSize);
      au := au.(accumulatedSize := 0);
      state := Initial;
      restarts := restarts + 1;
      assert Snapshot() == before.StartedOver();
    }

    /** Where the current access unit lies, and what the log says with it. */
    lemma Announcing(unit: Unit)
      requires Valid() && state == NotifyingAuFound && au.state == Complete && au.accumulatedSize > 0
      requires |auQueue.ring.partial| <= auQueue.ring.back && unit == Unit(auQueue.ring.Start(), auQueue.ring.partial)
      ensures auQueue.ring.partial != [] && |unit.bytes| == au.accumulatedSize <= auQueue.back
      ensures unit.addr == auQueue.back - au.accumulatedSize && unit.End() == auQueue.back && released <= |announced|
      ensures Logged(auQueue.ring.Units() + [unit], events + [Span(unit.addr, au.accumulatedSize)], announced + [unit],
                     released, auMaxSize, auQueue.buffer.Length)
    {
      hide Run, Settle, Tiles, Logged, Ring.Ok, Ring.Units, Stage.Outcome, Stage.Ok;
      Snapshot().NothingLeft(codec);
      Snapshot().InQueue(codec);
      LoggedMore(auQueue.ring.Units(), events, announced, released, auMaxSize, auQueue.buffer.Length, unit);
    }

    /** The event with the current access unit, `{back - size, size}`, is in the event queue. */
    method Announce()
      requires Valid() && state == NotifyingAuFound && au.state == Complete && au.accumulatedSize > 0
      modifies this, auQueue
      ensures Continues() && packet == old(packet) && restarts == old(restarts)
      ensures au.accumulatedSize <= auQueue.back
        && Snapshot() == old(Snapshot()).Announced(auQueue.back - au.accumulatedSize)
      ensures auQueue.back == old(auQueue.back) && |events| == old(|events|) + 1
    {
      hide Run, Settle, Tiles, Logged, Ring.Ok, Ring.Units, Stage.Outcome, Stage.Ok;
      ghost var before := Snapshot();
      auQueue.ring.PartialFits();
      ghost var unit := Unit(auQueue.ring.Start(), auQueue.ring.partial);
      Announcing(unit);
      before.AnnouncedOk(codec, unit.addr);
      auQueue.ring.SealOk();
      auQueue.Seal();
      announced := announced + [unit];
      events := events + [Span(auQueue.back - au.accumulatedSize, au.accumulatedSize)];
      state := PreparingForNextAu;
      assert Snapshot() == before.Announced(unit.addr);
    }

    /** Reports a complete access unit; the event queue may have no room for it. */
    method NotifyAuFound(accepted: bool) returns (ok: bool)
      requires Valid() && state == NotifyingAuFound && (au.state == Complete ==> au.accumulatedSize > 0)
      modifies this, auQueue
      ensures Continues() && packet == old(packet) && restarts == old(restarts)
      ensures ok <==> old(au.state) != Complete || accepted
      ensures |events| == old(|events|) + if ok && old(au.state) == Complete then 1 else 0
      ensures !ok ==> Snapshot() == old(Snapshot())
      ensures ok && old(au.state) == Complete ==>
                au.accumulatedSize <= auQueue.back
                && Snapshot() == old(Snapshot()).Announced(auQueue.back - au.accumulatedSize)
      ensures ok && old(au.state) != Complete ==> Snapshot() == old(Snapshot()).(state := PreparingForNextAu)
    {
      hide Run, Settle, Tiles, Logged;
      if au.state == Complete {
        if !accepted {
          return false;
        }
        Announce();
      } else {
        Snapshot().NotAnnouncedOk(codec);
        state := PreparingForNextAu;
      }
      return true;
    }

    /** Makes room for the next access unit. There always is room, so this is never refused. */
    method PrepareNextAu()
      requires Valid() && state == PreparingForNextAu
      modifies this, auQueue
      ensures Continues() && announced == old(announced) && packet == old(packet) && restarts == old(restarts)
      ensures events == old(events)
      ensures state == Initial && Snapshot().Before(old(Snapshot()))
    {
      hide Run, Settle, Tiles, Logged, Stage.Outcome;
      ghost var before := Snapshot();
      before.PreparedOk(codec);
      if au.state == Complete {
        auQueue.ring.FrontIsOldest();
        LoggedRoom(auQueue.ring.Units(), events, announced, released, auMaxSize, auQueue.buffer.Length);
        var ok := auQueue.PrepareNextAu(auMaxSize);
        assert ok;
        au := NO_AU;
      }
      state := Initial;
    }

    /** What the results of processing say about the stream. */
    ghost predicate Explains(r: Result)
      requires Valid()
      reads this, auQueue, auQueue.buffer
    {
      && (r == QueueFull ==> released < |events|)
      && (r == AuTooLarge ==> !Fits(Outcome(), auMaxSize) || Outcome().restarts > 0)
      && (r == SectionLeft ==> Outcome().au.state == OutOfSection)
      && (r == EmptyAu ==> Outcome().restarts > 0)
    }

    /** The states from pushing on. No event is accepted once `limit` have been. */
    method Deliver(limit: nat) returns (r: Option<Result>)
      requires Valid() && packet.Some? && state in {PushingAuQueue, NotifyingAuFound}
      modifies this, auQueue, auQueue.buffer
      ensures Continues() && packet.Some?
      ensures r.None? ==> state == Initial && Snapshot().Before(old(Snapshot()))
      ensures r != Some(Consumed) && state != PreparingForNextAu
      ensures r.Some? ==> Explains(r.value) && (r.value == EventRefused ==> |events| >= limit)
      ensures |events| <= (if old(|events|) < limit then limit else old(|events|))
    {
      hide Run, Settle, Tiles, Valid, Outcome, Fits, Stage.Ok, Stage.Outcome, Stage.Sealed;
      if state == PushingAuQueue {
        var pushed := PushChunk();
        if pushed != Pushed {
          Refusal(pushed);
          return Some(if pushed == TooLarge then AuTooLarge else QueueFull);
        }
        if au.state == OutOfSection {
          Ending();
          return Some(SectionLeft);
        }
        if au.state == SizeMismatch {
          StartOver();
          Counted();
          return None;
        }
      }
      if state == NotifyingAuFound {
        if au.state == Complete && au.accumulatedSize == 0 {
          EmptyMeansRestarted();
          Ending();
          return Some(EmptyAu);
        }
        // Whether the event queue has room is up to the other thread
        var ok := NotifyAuFound(|events| < limit);
        Counted();
        if !ok {
          return Some(EventRefused);
        }
      }
      PrepareNextAu();
      Counted();
      return None;
    }

    lemma Refusal(pushed: PushResult)
      requires Valid() && state == PushingAuQueue && pushed != Pushed
      requires pushed == TooLarge ==> au.accumulatedSize > auMaxSize
      requires pushed == Full ==> auQueue.wrapPos != 0
      ensures Explains(if pushed == TooLarge then AuTooLarge else QueueFull)
    {
      hide Run, Settle, Tiles, Logged, Fits, Stage.Ok, Stage.Outcome;
      if pushed == TooLarge {
        Snapshot().LargeUnit(codec, auMaxSize);
      } else {
        // A queue that has wrapped around holds units to be released
        LoggedRoom(auQueue.ring.Units(), events, announced, released, auMaxSize, auQueue.buffer.Length);
        auQueue.ring.FrontIsOldest();
      }
    }

    lemma Ending()
      requires Valid()
      ensures au.state == OutOfSection ==> Explains(SectionLeft)
      ensures restarts > 0 ==> Explains(EmptyAu)
    {
      hide Run, Settle, Tiles, Logged, Fits, Stage.Ok, Stage.Outcome;
      Snapshot().RestartsKept(codec);
    }

    lemma Counted()
      requires Valid()
      ensures |events| == |announced| <= |Outcome().done|
    {
      hide Run, Settle, Tiles, Stage.Ok, Stage.Outcome;
      Snapshot().MoreToReport(codec);
    }

    lemma EmptyMeansRestarted()
      requires Valid() && au.state == Complete && au.accumulatedSize == 0
      ensures restarts > 0
    {
    }

    /**
     * Processes the current packet. Whatever refusals it meets, the outcome is the same; access units
     * are reported in order, each once, and it goes on where it was refused. The event queue has room for
     * `room` events while this goes on.
     */
    method ProcessPesPacketData(room: nat) returns (r: Result)
      requires Valid() && packet.Some? && state != PreparingForNextAu
      modifies this, auQueue, auQueue.buffer
      ensures Continues() && state != PreparingForNextAu
      ensures r == Consumed <==> packet.None?
      ensures r == Consumed ==> state == Initial && Snapshot().Now() == Outcome()
      ensures Explains(r) && (r == EventRefused ==> |events| == old(|events|) + room)
    {
      hide Run, Settle, Tiles, Valid, Outcome, Explains, Stage.Ok, Stage.Outcome, Stage.Sealed;
      var limit := |events| + room;
      while true
        invariant Continues() && packet.Some? && state != PreparingForNextAu && |events| <= limit
        decreases |Snapshot().packet|, Snapshot().Left(), Snapshot().Turn()
      {
        if state == Initial {
          if stream == [] {
            EndPacket();
            Fine();
            return Consumed;
          }
          ParseStream();
        }
        var refused := Deliver(limit);
        if refused.Some? {
          return refused.value;
        }
      }
    }

    lemma Fine()
      requires Valid()
      ensures Explains(Consumed)
    {
    }

    /** Releases the oldest reported access unit. */
    method ReleaseAu(size: nat)
      requires Valid() && state != PreparingForNextAu
      requires released < |events| && size == events[released].size
      modifies this, auQueue
      ensures Valid() && Outcome() == old(Outcome()) && Snapshot() == old(Snapshot())
      ensures released == old(released) + 1 && events == old(events)
        && packet == old(packet) && restarts == old(restarts)
    {
      hide Run, Settle, Tiles, Logged;
      LoggedLess(auQueue.ring.Units(), events, announced, released, auMaxSize, auQueue.buffer.Length);
      auQueue.ring.TailOk();
      auQueue.PopFront(size);
      released := released + 1;
    }

    /** Gives up the current access unit: its bytes leave the queue, all reported units stay. */
    method DiscardAccessUnit()
      requires Valid() && state != PreparingForNextAu
      modifies this, auQueue
      ensures Valid() && packet.None? && state == Initial
      ensures auQueue.ring.Units() == old(auQueue.ring.Units()) && auQueue.ring.partial == []
      ensures Outcome() == Es(NO_AU, [], [], old(Snapshot().Done()), restarts)
      ensures announced == old(announced) && released == old(released) && restarts == old(restarts)
    {
      hide Run, Settle, Tiles, Logged, Ring.Ok, Stage.Outcome, Stage.Ok;
      ghost var before := Snapshot();
      before.InQueue(codec);
      before.DiscardedOk(codec);
      auQueue.PopBack(au.accumulatedSize - |chunkData| - |chunkCached|);
      state, packet, stream := Initial, None, [];
      chunkData, chunkCached := [], [];
      au := NO_AU;
      cache := [];
      assert Snapshot() == before.Discarded();
    }
  }

  /**
   * Demultiplexes a sequence of packets. Between two attempts any number of access units may be
   * released; after `patience` refusals of a packet it is given up.
   */
  method Demux(es: ElementaryStream, packets: seq<seq<byte>>, patience: nat) returns (finished: bool)
    requires es.Valid() && es.packet.None? && es.state == Initial && es.Outcome() == EMPTY && es.announced == []
    modifies es, es.auQueue, es.auQueue.buffer
    ensures es.Valid()
    // The access units reported are those of the stream, whatever was refused on the way
    ensures finished ==> BytesOf(es.announced) == RunAll(es.codec, packets).done
  {
    hide Run, Settle, RunAll, ElementaryStream.Valid, ElementaryStream.Outcome;
    RunAllSteps(es.codec, packets, 0);
    for n := 0 to |packets|
      invariant es.Valid() && es.packet.None? && es.state == Initial && es.Outcome() == RunAll(es.codec, packets[..n])
      invariant BytesOf(es.announced) == es.Outcome().done
    {
      RunAllSteps(es.codec, packets, n + 1);
      var consumed := Feed(es, packets[n], patience);
      if !consumed {
        return false;
      }
    }
    assert packets[..|packets|] == packets;
    return true;
  }

  /** Processes one packet, in as many attempts as it takes. */
  method Feed(es: ElementaryStream, packet: seq<byte>, patience: nat) returns (consumed: bool)
    requires es.Valid() && es.packet.None? && es.state == Initial
    modifies es, es.auQueue, es.auQueue.buffer
    ensures es.Valid() && es.Outcome() == Run(es.codec, packet, packet, old(es.Outcome()))
    ensures consumed ==> es.packet.None? && es.state == Initial && BytesOf(es.announced) == es.Outcome().done
  {
    hide Run, Settle, ElementaryStream.Valid, ElementaryStream.Outcome, ElementaryStream.Explains,
      Stage.Ok, Stage.Outcome;
    es.SetPacket(packet);
    ghost var outcome := es.Outcome();
    var r, attempts := QueueFull, 0;
    while r != Consumed && attempts < patience
      invariant es.Valid() && es.state != PreparingForNextAu && (r == Consumed <==> es.packet.None?)
      invariant es.Outcome() == outcome
      invariant r == Consumed ==> es.state == Initial && es.Snapshot().Now() == es.Outcome()
      decreases patience - attempts
    {
      var room: nat := *;
      r := es.ProcessPesPacketData(room);
      ReleaseSome(es);
      attempts := attempts + 1;
    }
    return r == Consumed;
  }

  /** The consumer releases as many of the reported access units as it likes, oldest first. */
  method ReleaseSome(es: ElementaryStream)
    requires es.Valid() && es.state != PreparingForNextAu
    modifies es, es.auQueue
    ensures es.Valid() && es.Snapshot() == old(es.Snapshot()) && es.Outcome() == old(es.Outcome())
    ensures es.packet == old(es.packet)
  {
    var more: bool := *;
    while more && es.released < |es.events|
      invariant es.Valid() && es.Snapshot() == old(es.Snapshot()) && es.Outcome() == old(es.Outcome())
      invariant es.packet == old(es.packet)
      decreases |es.events| - es.released
    {
      es.ReleaseAu(es.events[es.released].size);
      more := *;
    }
  }

  /** The consumer releases all of the reported access units. */
  method ReleaseAll(es: ElementaryStream)
    requires es.Valid() && es.state != PreparingForNextAu
    modifies es, es.auQueue
    ensures es.Valid() && es.Snapshot() == old(es.Snapshot()) && es.Outcome() == old(es.Outcome())
    ensures es.packet == old(es.packet) && es.events == old(es.events) && es.released == |es.events|
  {
    hide Run, Settle, ElementaryStream.Outcome, Stage.Ok, Stage.Outcome;
    while es.released < |es.events|
      invariant es.Valid() && es.Snapshot() == old(es.Snapshot()) && es.Outcome() == old(es.Outcome())
      invariant es.packet == old(es.packet) && es.events == old(es.events)
      decreases |es.events| - es.released
    {
      es.ReleaseAu(es.events[es.released].size);
    }
    es.Counted();
  }

  /**
   * Every refusal can be cured: if the consumer releases everything before each attempt, and the event
   * queue has room for at least one event, the packet is consumed in the end, unless the stream is at fault.
   */
  method FeedReady(es: ElementaryStream, packet: seq<byte>) returns (r: Result)
    requires es.Valid() && es.packet.None? && es.state == Initial
    modifies es, es.auQueue, es.auQueue.buffer
    ensures es.Valid() && es.Outcome() == Run(es.codec, packet, packet, old(es.Outcome()))
    ensures r == Consumed ==> es.packet.None? && es.state == Initial && BytesOf(es.announced) == es.Outcome().done
    ensures r != QueueFull && r != EventRefused && es.Explains(r)
  {
    hide Run, Settle, ElementaryStream.Valid, ElementaryStream.Outcome, Stage.Ok, Stage.Outcome;
    es.SetPacket(packet);
    ghost var outcome := es.Outcome();
    es.Counted();
    while true
      invariant es.Valid() && es.state != PreparingForNextAu && es.packet.Some? && es.Outcome() == outcome
      invariant |es.events| <= |outcome.done|
      decreases |outcome.done| - |es.events|
    {
      ReleaseAll(es);
      var room: nat := *;
      r := es.ProcessPesPacketData(if room > 0 then room else 1);
      es.Counted();
      if r != QueueFull && r != EventRefused {
        return;
      }
    }
  }

  /**
   * So a whole stream is demultiplexed if all its units are within the declared maximum, all frames have
   * the size in their header, and no packet is too short for the parser.
   */
  method DemuxReady(es: ElementaryStream, packets: seq<seq<byte>>) returns (r: Result)
    requires es.Valid() && es.packet.None? && es.state == Initial && es.Outcome() == EMPTY && es.announced == []
    modifies es, es.auQueue, es.auQueue.buffer
    ensures es.Valid()
    ensures r == Consumed ==> BytesOf(es.announced) == RunAll(es.codec, packets).done
    ensures Sane(RunAll(es.codec, packets), es.auMaxSize) ==> r == Consumed
  {
    hide Run, Settle, RunAll, Fits, ElementaryStream.Valid, ElementaryStream.Outcome, Stage.Ok, Stage.Outcome;
    RunAllSteps(es.codec, packets, 0);
    for n := 0 to |packets|
      invariant es.Valid() && es.packet.None? && es.state == Initial && es.Outcome() == RunAll(es.codec, packets[..n])
      invariant BytesOf(es.announced) == es.Outcome().done
    {
      RunAllSteps(es.codec, packets, n + 1);
      r := FeedReady(es, packets[n]);
      if r != Consumed {
        if Sane(RunAll(es.codec, packets), es.auMaxSize) {
          SaneBefore(es.codec, packets, n + 1, es.auMaxSize);
        }
        return;
      }
    }
    assert packets[..|packets|] == packets;
    return Consumed;
  }
}
