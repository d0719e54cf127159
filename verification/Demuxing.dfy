/**
 * A whole elementary stream, from packets to access units in the output queue: what the event queue
 * reports is where the access units of the stream lie, no matter how the stream was cut into packets and
 * how often the machine that processes them was refused.
 */
module Demuxing {
  import opened Bytes
  import opened OutputQueues
  import opened Parsers
  import opened Packets
  import opened Framing
  import opened AudioFraming
  import opened ElementaryStreams

  /** An access unit that was reported and not released lies where it was reported to be. */
  lemma WhereReported(es: ElementaryStream, i: nat)
    requires es.Valid() && es.released <= i < |es.events|
    ensures i < |es.announced|
    ensures var span := es.events[i];
      && 0 < span.size && span.addr + span.size <= es.auQueue.buffer.Length
      && es.auQueue.buffer[span.addr..span.addr + span.size] == BytesOf(es.announced)[i]
  {
    hide Tiles, Ring.Ok, Stage.Ok;
    var ring := es.auQueue.ring;
    assert ring.Units() == es.announced[es.released..];
    ring.Contiguous(i - es.released);
    assert es.auQueue.buffer[..] == ring.mem;
  }

  /**
   * AVC: the access units are the pieces of the stream between delimiters. All of them are reported, if no
   * delimiter is spread over three packets, no unit is larger than declared and refusals are cured.
   */
  method DemuxAvc(es: ElementaryStream, packets: seq<seq<byte>>, ghost units: seq<seq<byte>>, ghost rest: seq<byte>)
    requires es.Valid() && es.packet.None? && es.state == Initial && es.Outcome() == EMPTY && es.announced == []
    requires es.codec == Avc && NonEmpty(packets) && NoneHidden(packets)
    requires IsSplit(Flatten(packets), units, rest)
    requires (forall i | 0 <= i < |units| :: |units[i]| <= es.auMaxSize) && |rest| <= es.auMaxSize
    modifies es, es.auQueue, es.auQueue.buffer
    ensures es.Valid() && BytesOf(es.announced) == units
  {
    hide RunAll, NoneHidden, ElementaryStream.Valid, ElementaryStream.Outcome;
    StartsWithDelimiter(Flatten(packets), units, rest);
    NoRestarts(packets);
    ghost var end := RunAll(Avc, packets);
    SplitUnique(Flatten(packets), units, rest, end.done, end.cur + end.cache);
    var r := DemuxReady(es, packets);
  }

  lemma StartsWithDelimiter(s: seq<byte>, units: seq<seq<byte>>, rest: seq<byte>)
    requires IsSplit(s, units, rest)
    ensures DelimiterAt(s, 0)
  {
    hide DelimiterAt;
    assert units[..0] == [];
    assert 0 in Starts(units);
  }

  /**
   * AC-3 and ATRAC3plus: the access units are the frames, except for the last one, which may go on. All
   * are reported, if no packet strays and refusals are cured.
   */
  method DemuxAudio(es: ElementaryStream, packets: seq<seq<byte>>, ghost frames: seq<seq<byte>>)
    requires es.Valid() && es.packet.None? && es.state == Initial && es.Outcome() == EMPTY && es.announced == []
    requires frames != [] && AreFrames(es.codec, frames) && Flatten(packets) == Flatten(frames)
    requires !StraysBefore(es.codec, frames, packets, |packets|)
    requires forall i | 0 <= i < |frames| :: |frames[i]| <= es.auMaxSize
    modifies es, es.auQueue, es.auQueue.buffer
    ensures es.Valid() && BytesOf(es.announced) == frames[..|frames| - 1]
  {
    hide RunAll, StraysBefore, ElementaryStream.Valid, ElementaryStream.Outcome;
    FramesComeOut(es.codec, frames, packets);
    ghost var n := |frames| - 1;
    assert |frames[n]| <= es.auMaxSize;
    var r := DemuxReady(es, packets);
  }

  /** Packets of four bytes or more do not stray. */
  lemma LongPacketsDoNotStray(codec: Codec, frames: seq<seq<byte>>, packets: seq<seq<byte>>)
    requires forall i | 0 <= i < |packets| :: |packets[i]| >= 4
    ensures !StraysBefore(codec, frames, packets, |packets|)
  {
    hide LiesIn;
  }
}
