/**
 * What becomes of a whole packet: the parser is called until the packet is used up, each chunk is
 * appended to the current access unit, and a completed unit makes room for the next one.
 */
module Packets {
  import opened Bytes
  import opened Parsers

  /**
   * The state of a stream between two parser calls: `cur` are the bytes of the unit in progress, `restarts`
   * counts the frames that did not have the size in their header.
   */
  datatype Es = Es(au: AccessUnit, cache: seq<byte>, cur: seq<byte>, done: seq<seq<byte>>, restarts: nat) {
    predicate Ok(codec: Codec) {
      && au.Ok()
      && |cache| <= 3
      && |cur| == au.accumulatedSize
      && au.state != Complete
      && (codec.Avc? ==> au.sizeInfoOffset == 0 && au.state != SizeMismatch && au.state != OutOfSection)
    }

    function Start(stream: seq<byte>): (k: Cursor)
      ensures k.Ok()
    {
      StartCursor(au, cache, stream)
    }
  }

  const EMPTY := Es(NO_AU, [], [], [], 0)

  lemma AdvanceFacts(codec: Codec, k: Cursor)
    requires k.Ok() && !k.AtEnd() && (k.au.state == NoAu ==> k.au.sizeInfoOffset == 0)
    ensures k.Pos() < |k.cache + k.stream|
    ensures var r := Advance(codec, k);
      && r.Ok() && r.cache == k.cache && r.stream == k.stream && r.au.accumulatedSize == k.au.accumulatedSize
      && r.Pos() == (if r.au.Stopped() then k.Pos() else k.Pos() + 1)
      && (r.au.Stopped() ==> k.au.state != NoAu)
      && r.cacheIdx >= k.cacheIdx && (k.au.state != NoAu ==> r.streamIt - r.begin >= k.streamIt - k.begin)
      && (k.au.state == NoAu && r.au.state != NoAu ==> r.cacheIdx + r.streamIt - r.begin > 0)
      && (k.au.state != NoAu ==> r.au.state != NoAu) && (k.au.state != OutOfSection ==> r.au.state != OutOfSection)
      && (r.au.state == NoAu ==> r.au == k.au)
      && (codec.Avc? && k.au.sizeInfoOffset == 0 ==> r.au.sizeInfoOffset == 0 && r.au.state != SizeMismatch)
  {
    hide Window, Sync, AuSize;
  }

  lemma {:induction false} ScanFacts(codec: Codec, k: Cursor)
    requires k.Ok() && (k.au.state == NoAu ==> k.au.sizeInfoOffset == 0)
    ensures var r := Scan(codec, k);
      && k.Pos() <= r.Pos()
      && r.au.accumulatedSize == k.au.accumulatedSize
      && r.AtEnd()
      && (k.Pos() <= k.Limit() ==> r.Pos() <= k.Limit())
      && (r.au.Stopped() && !k.au.Stopped() ==> r.Pos() < k.Limit())
      && (k.au.state == NoAu && r.au.state != NoAu ==> k.Pos() < r.Pos())
      && (k.au.state != NoAu ==> r.au.state != NoAu) && (k.au.state != OutOfSection ==> r.au.state != OutOfSection)
      && r.cacheIdx >= k.cacheIdx && (k.au.state != NoAu ==> r.streamIt - r.begin >= k.streamIt - k.begin)
      && (k.au.state == NoAu && r.au.state != NoAu ==> r.cacheIdx + r.streamIt - r.begin > 0)
      && (r.au.state == NoAu ==> r.au == k.au)
      && (codec.Avc? && k.au.sizeInfoOffset == 0 && k.au.state != SizeMismatch ==>
            r.au.sizeInfoOffset == 0 && r.au.state != SizeMismatch)
    decreases |k.cache + k.stream| - k.Pos(), if k.au.Stopped() then 0 else 1
  {
    hide Window, Visit, Advance;
    if !k.AtEnd() {
      AdvanceFacts(codec, k);
      ScanFacts(codec, Advance(codec, k));
    }
  }

  lemma {:induction false} PiecesFacts(k: Cursor)
    requires k.Ok()
    ensures var p := Pieces(k);
      && p.au == k.au
      && p.consumed == (if k.au.state == Complete then k.streamIt else |k.stream|)
      && |p.cache| == |k.cache| - k.cacheIdx + (if k.au.Stopped() then 0 else |k.stream| - k.streamIt)
      && (k.au.state == NoAu ==> p.cached == [] && p.data == [])
      && (k.au.state != NoAu ==> |p.cached| + |p.data| == k.cacheIdx + k.streamIt - k.begin)
  {
    hide Slice;
  }

  lemma JumpFacts(codec: Codec, k: Cursor)
    requires k.Ok() && !Leaves(codec, k)
    requires |k.stream| < 4 ==> k.streamIt == k.begin == 0 && (k.au.Stopped() || k.cacheIdx == |k.cache|)
    ensures var j := Jump(codec, k);
      && j.Ok() && j.au == k.au && j.cache == k.cache && j.stream == k.stream
      && j.cacheIdx == k.cacheIdx && j.begin == k.begin
      && j.streamIt >= k.streamIt && (k.au.Stopped() || k.au.state == NoAu || |k.stream| >= 4 || codec.Avc? ==> j == k)
  {
  }

  /** A parser call uses up the section or completes a unit, and always gets closer to the end. */
  lemma {:induction false} ParseFacts(codec: Codec, es: Es, stream: seq<byte>)
    requires es.Ok(codec) && es.au.state != OutOfSection
    ensures var p := Parse(codec, es.au, es.cache, stream);
      && p.consumed <= |stream| && |p.cache| <= 3
      && (p.au.state != Complete ==> p.consumed == |stream|)
      && p.au.accumulatedSize == es.au.accumulatedSize
      && |p.cache| + |stream| - p.consumed <= |es.cache| + |stream|
      && (p.au.state == Complete && es.au.state == NoAu ==> |p.cache| + |stream| - p.consumed < |es.cache| + |stream|)
      && (p.au.state == NoAu ==> p.au == NO_AU && p.cached == [] && p.data == [])
      && (p.au.state == OutOfSection ==> !codec.Avc? && p.cached == [] && p.data == [])
      && (p.au.state != NoAu && p.au.state != OutOfSection && es.au.state == NoAu ==> |p.cached| + |p.data| > 0)
      && (codec.Avc? ==> p.au.sizeInfoOffset == 0 && p.au.state != SizeMismatch)
  {
    hide Scan, Pieces;
    var k := Scan(codec, es.Start(stream));
    ScanFacts(codec, es.Start(stream));
    if |stream| < 4 {
      ScanShort(codec, es.Start(stream));
    }
    if !Leaves(codec, k) {
      JumpFacts(codec, k);
      PiecesFacts(Jump(codec, k));
    }
  }

  /** The state after a parser call and the appending of its chunk. */
  function Took(es: Es, p: Parsed): Es {
    Es(p.au.(accumulatedSize := p.au.accumulatedSize + |p.Chunk()|), p.cache, es.cur + p.Chunk(), es.done, es.restarts)
  }

  /** After a call the rest of the packet can be settled, and that comes closer to the end. */
  lemma {:induction false} TookFacts(codec: Codec, es: Es, stream: seq<byte>)
    requires es.Ok(codec) && es.au.state != OutOfSection
    ensures var p := Parse(codec, es.au, es.cache, stream); var t := Took(es, p);
      && p.consumed <= |stream| && t.(au := t.au.(state := Incomplete)).Ok(codec) && t.au.Ok()
      && (t.au.state == SizeMismatch || t.au.state == OutOfSection ==> !codec.Avc?)
      && (t.au.state != Complete ==> p.consumed == |stream|)
      && |t.cache| + |stream| - p.consumed <= |es.cache| + |stream|
      && (t.au.state == Complete && es.au.state == NoAu ==> |t.cache| + |stream| - p.consumed < |es.cache| + |stream|)
  {
    hide Parse;
    ParseFacts(codec, es, stream);
  }

  /** The rest of the packet, `stream`, after a parser call that left the state `es`. */
  function Settle(codec: Codec, packet: seq<byte>, stream: seq<byte>, es: Es): (r: Es)
    requires |stream| <= |packet| && es.(au := es.au.(state := Incomplete)).Ok(codec) && es.au.Ok()
    requires es.au.state == SizeMismatch ==> !codec.Avc?
    requires es.au.state in {NoAu, Incomplete, Commenced, OutOfSection} ==> stream == []
    requires es.au.state == OutOfSection ==> !codec.Avc?
    ensures r.Ok(codec)
    decreases |packet|, if stream == [] then 0 else 1 + |es.cache| + |stream|, if es.au.state == Complete then 1 else 2
  {
    match es.au.state
    case Complete => Run(codec, packet, stream, Es(NO_AU, es.cache, [], es.done + [es.cur], es.restarts))
    case SizeMismatch =>
      // Start over with one byte less of the packet, without the current access unit
      if packet == [] then es else
      Run(codec, packet[1..], packet[1..], Es(es.au.(accumulatedSize := 0), es.cache, [], es.done, es.restarts + 1))
    case _ => es
  }

  /**
   * Processes `stream`, what is left of `packet`. Nothing is said about what follows once the parser has
   * left its section.
   */
  function Run(codec: Codec, packet: seq<byte>, stream: seq<byte>, es: Es): (r: Es)
    requires |stream| <= |packet| && es.Ok(codec)
    ensures r.Ok(codec)
    decreases |packet|, if stream == [] then 0 else 1 + |es.cache| + |stream|, if es.au.state == NoAu then 0 else 2
  {
    if stream == [] || es.au.state == OutOfSection then es else
    TookFacts(codec, es, stream);
    var p := Parse(codec, es.au, es.cache, stream);
    Settle(codec, packet, stream[p.consumed..], Took(es, p))
  }

  /** The state in which the next call starts after a call that completed a unit. */
  function Restart(es: Es, k: Cursor): (r: Es)
    requires k.Ok() && |k.cache| <= 3
    ensures r.Ok(Avc) && r.Ok(Ac3) && r.Ok(Atracx)
  {
    Es(NO_AU, k.cache[k.cacheIdx..], [], es.done + [es.cur + k.Chunk()], es.restarts)
  }

  /** A call that completes a unit leaves the rest of the packet to a fresh start. */
  lemma {:induction false} RunComplete(codec: Codec, packet: seq<byte>, stream: seq<byte>, es: Es, k: Cursor)
    requires |stream| <= |packet| && es.Ok(codec) && es.au.state != OutOfSection && stream != []
    requires k == Scan(codec, es.Start(stream)) && k.au.state == Complete
    ensures Run(codec, packet, stream, es) ==
            Run(codec, packet, stream[k.streamIt..], Restart(es, k))
  {
    hide Scan, Slice;
    NoJump(codec, k);
    ParseFacts(codec, es, stream);
  }

  /** A call that completes nothing uses up the packet, or leaves it. */
  lemma {:induction false} RunOpen(codec: Codec, packet: seq<byte>, stream: seq<byte>, es: Es, k: Cursor)
    requires |stream| <= |packet| && es.Ok(codec) && es.au.state != OutOfSection && stream != []
    requires k == Scan(codec, es.Start(stream)) && !k.au.Stopped()
    ensures var r, j := Run(codec, packet, stream, es), Jump(codec, k);
      && r.done == es.done && r.restarts == es.restarts && r.Ok(codec)
      && (Leaves(codec, k) ==> r.au.state == OutOfSection)
      && (!Leaves(codec, k) ==>
            && j.Ok() && r.cache == es.cache[j.cacheIdx..] + stream[j.streamIt..]
            && r.au.state == k.au.state && r.au.sizeInfoOffset == k.au.sizeInfoOffset
            && r.au.parsedSize == k.au.parsedSize
            && (k.au.state != NoAu ==> r.cur == es.cur + j.Chunk()))
  {
    hide Scan, Slice;
    ParseFacts(codec, es, stream);
    if !Leaves(codec, k) {
      JumpOk(codec, es.au, es.cache, stream);
    }
  }

  /** What has been completed stays, and a restart is never forgotten. */
  lemma {:induction false} RunKeeps(codec: Codec, packet: seq<byte>, stream: seq<byte>, es: Es)
    requires |stream| <= |packet| && es.Ok(codec)
    ensures var r := Run(codec, packet, stream, es); es.done <= r.done && es.restarts <= r.restarts
    decreases |packet|, if stream == [] then 0 else 1 + |es.cache| + |stream|, if es.au.state == NoAu then 0 else 2
  {
    hide Parse;
    if stream != [] && es.au.state != OutOfSection {
      ParseFacts(codec, es, stream);
      var p := Parse(codec, es.au, es.cache, stream);
      SettleKeeps(codec, packet, stream[p.consumed..], Took(es, p));
    }
  }

  lemma {:induction false} SettleKeeps(codec: Codec, packet: seq<byte>, stream: seq<byte>, es: Es)
    requires |stream| <= |packet| && es.(au := es.au.(state := Incomplete)).Ok(codec) && es.au.Ok()
    requires es.au.state == SizeMismatch || es.au.state == OutOfSection ==> !codec.Avc?
    requires es.au.state in {NoAu, Incomplete, Commenced, OutOfSection} ==> stream == []
    ensures var r := Settle(codec, packet, stream, es);
      && es.done <= r.done && es.restarts <= r.restarts
      && (es.au.state == SizeMismatch && packet != [] ==> es.restarts < r.restarts)
      && (es.au.state == Complete ==> es.done + [es.cur] <= r.done)
      && (es.au.state != Complete && es.au.state != SizeMismatch ==> r == es)
    decreases |packet|, if stream == [] then 0 else 1 + |es.cache| + |stream|, if es.au.state == Complete then 1 else 2
  {
    if es.au.state == Complete {
      RunKeeps(codec, packet, stream, Es(NO_AU, es.cache, [], es.done + [es.cur], es.restarts));
    } else if es.au.state == SizeMismatch && packet != [] {
      RunKeeps(codec, packet[1..], packet[1..],
        Es(es.au.(accumulatedSize := 0), es.cache, [], es.done, es.restarts + 1));
    }
  }

  /** One packet after the other, from a fresh stream on. */
  function RunAll(codec: Codec, packets: seq<seq<byte>>): (r: Es)
    ensures r.Ok(codec)
  {
    if packets == [] then EMPTY else
    var last := packets[|packets| - 1];
    Run(codec, last, last, RunAll(codec, packets[..|packets| - 1]))
  }

  lemma {:induction false} RunAllSteps(codec: Codec, packets: seq<seq<byte>>, k: nat)
    requires k <= |packets|
    ensures k == 0 ==> RunAll(codec, packets[..k]) == EMPTY
    ensures k > 0 ==>
              RunAll(codec, packets[..k]) == Run(codec, packets[k - 1], packets[k - 1], RunAll(codec, packets[..k - 1]))
  {
    hide Run;
    if k > 0 {
      assert packets[..k][..k - 1] == packets[..k - 1];
    }
  }

  /** All units, and the one in progress, have at most `max` bytes. */
  ghost predicate Fits(es: Es, max: nat) {
    (forall i | 0 <= i < |es.done| :: |es.done[i]| <= max) && |es.cur| <= max
  }

  /** A unit in progress becomes part of the next unit, unless a frame does not have the size in its header. */
  lemma {:induction false} CurGrows(codec: Codec, packet: seq<byte>, stream: seq<byte>, es: Es)
    requires |stream| <= |packet| && es.Ok(codec)
    ensures var r := Run(codec, packet, stream, es);
      r.restarts == es.restarts ==> |es.done| <= |r.done| && es.cur <= (r.done + [r.cur])[|es.done|]
  {
    hide Parse;
    if stream != [] && es.au.state != OutOfSection {
      ParseFacts(codec, es, stream);
      var p := Parse(codec, es.au, es.cache, stream);
      var took := Took(es, p);
      SettleKeeps(codec, packet, stream[p.consumed..], took);
      assert took.au.state == Complete ==> (took.done + [took.cur])[|es.done|] == took.cur;
    }
  }

  /** The stream is one that the demultiplexer is made for. */
  ghost predicate Sane(es: Es, max: nat) {
    Fits(es, max) && es.restarts == 0 && es.au.state != OutOfSection
  }

  lemma {:induction false} SaneRun(codec: Codec, p: seq<byte>, es: Es, max: nat)
    requires es.Ok(codec) && Sane(Run(codec, p, p, es), max)
    ensures Sane(es, max)
  {
    hide Run;
    RunKeeps(codec, p, p, es);
    CurGrows(codec, p, p, es);
    RunStaysOut(codec, p, es);
    var r := Run(codec, p, p, es);
    forall i | 0 <= i < |es.done| ensures |es.done[i]| <= max { assert es.done[i] == r.done[i]; }
    assert |(r.done + [r.cur])[|es.done|]| <= max;
  }

  lemma {:induction false} RunStaysOut(codec: Codec, p: seq<byte>, es: Es)
    requires es.Ok(codec)
    ensures es.au.state == OutOfSection ==> Run(codec, p, p, es) == es
  {
  }

  lemma {:induction false} SaneBefore(codec: Codec, packets: seq<seq<byte>>, n: nat, max: nat)
    requires n <= |packets| && Sane(RunAll(codec, packets), max)
    ensures Sane(RunAll(codec, packets[..n]), max)
    decreases |packets| - n
  {
    hide Run, Sane;
    if n == |packets| {
      assert packets[..n] == packets;
    } else {
      SaneBefore(codec, packets, n + 1, max);
      RunAllSteps(codec, packets, n + 1);
      SaneRun(codec, packets[n], RunAll(codec, packets[..n]), max);
    }
  }
}
