/**
 * The parsers as an automaton that is shown one position of the stream after the other.
 *
 * `Track` consumes a byte at a time, looking at the few bytes behind it. `RunTracks` shows that the
 * calls made for a packet, with their carried-over bytes, restarts and skips, add up to the
 * automaton walking once over the bytes kept from before and the bytes of the packet.
 */
module Tracking {
  import opened Bytes
  import opened Parsers
  import opened Packets

  /** `cur` are the bytes of the access unit in progress; without one, bytes kept for the next. */
  datatype Track = Track(done: seq<seq<byte>>, inAu: bool, cur: seq<byte>, offset: nat, size: nat, broken: bool)

  const START := Track([], false, [], 0, 0, false)

  function Step(codec: Codec, t: Track, window: seq<byte>, kept: bool): (t': Track)
    requires window != []
  {
    if t.broken then t else
    match Visit(codec, t.inAu, t.offset, t.size, |t.cur|, window)
    case Pass(offset, size) =>
      // Before the first access unit, bytes of the packet are dropped but kept bytes are not
      t.(cur := if t.inAu || kept then t.cur + [window[0]] else t.cur, offset := offset, size := size)
    case Begin => t.(inAu := true, cur := t.cur + [window[0]], offset := SizeInfoOffset(codec))
    case Cut => Track(t.done + [t.cur], true, [window[0]], SizeInfoOffset(codec), 0, false)
    case Mismatch => t.(broken := true)
  }

  /** The automaton walks from position i of w up to position hi; the first `kept` bytes were carried over. */
  function Walk(codec: Codec, t: Track, w: seq<byte>, kept: nat, i: nat, hi: nat): (t': Track)
    requires hi <= |w|
    decreases hi - i
  {
    if i >= hi then t else Walk(codec, Step(codec, t, Window(w, i), i < kept), w, kept, i + 1, hi)
  }

  lemma {:induction false} WalkSplit(codec: Codec, t: Track, w: seq<byte>, kept: nat, i: nat, mid: nat, hi: nat)
    requires i <= mid <= hi <= |w|
    ensures Walk(codec, t, w, kept, i, hi) == Walk(codec, Walk(codec, t, w, kept, i, mid), w, kept, mid, hi)
    decreases mid - i
  {
    hide Step, Window;
    if i < mid {
      WalkSplit(codec, Step(codec, t, Window(w, i), i < kept), w, kept, i + 1, mid, hi);
    }
  }

  lemma {:induction false} WalkShift(codec: Codec, t: Track, w: seq<byte>, kept: nat, q: nat,
           v: seq<byte>, kept': nat, i: nat, hi: nat)
    requires q + hi <= |w| && v == w[q..] && kept' == (if q < kept then kept - q else 0)
    ensures Walk(codec, t, v, kept', i, hi) == Walk(codec, t, w, kept, q + i, q + hi)
    decreases hi - i
  {
    hide Step;
    if i < hi {
      assert Window(v, i) == Window(w, q + i);
      WalkShift(codec, Step(codec, t, Window(v, i), i < kept'), w, kept, q, v, kept', i + 1, hi);
    }
  }

  lemma {:induction false} BrokenStays(codec: Codec, t: Track, w: seq<byte>, kept: nat, i: nat, hi: nat)
    requires hi <= |w| && t.broken
    ensures Walk(codec, t, w, kept, i, hi) == t
    decreases hi - i
  {
    if i < hi {
      BrokenStays(codec, t, w, kept, i + 1, hi);
    }
  }

  /** The cursor of a parser call and the automaton have seen the same: `pre` was cut out by earlier calls. */
  ghost predicate InStep(pre: seq<byte>, k: Cursor, t: Track) {
    && k.Ok() && k.au.accumulatedSize == |pre|
    && !t.broken && t.inAu == (k.au.state != NoAu) && t.offset == k.au.sizeInfoOffset && t.size == k.au.parsedSize
    && if t.inAu then t.cur == pre + k.Chunk() else t.cur == k.cache[..k.cacheIdx] && t.offset == 0 && pre == []
  }

  function StepAt(codec: Codec, k: Cursor, t: Track): Track
    requires k.Pos() < |k.cache + k.stream|
  {
    Step(codec, t, k.Look(), k.Pos() < |k.cache|)
  }

  /** One position that neither completes nor breaks off. */
  lemma {:induction false} InStepNext(codec: Codec, pre: seq<byte>, k: Cursor, t: Track)
    requires InStep(pre, k, t) && !k.AtEnd() && !Advance(codec, k).au.Stopped()
    ensures InStep(pre, Advance(codec, k), StepAt(codec, k, t))
    ensures Advance(codec, k).Pos() == k.Pos() + 1
    ensures StepAt(codec, k, t).done == t.done
  {
    hide Sync, AuSize, Slice, Window;
    if k.cacheIdx < |k.cache| {
      NextInCache(codec, pre, k, t);
    } else {
      NextInStream(codec, pre, k, t);
    }
  }

  lemma {:induction false} NextInCache(codec: Codec, pre: seq<byte>, k: Cursor, t: Track)
    requires InStep(pre, k, t) && !k.AtEnd() && !Advance(codec, k).au.Stopped() && k.cacheIdx < |k.cache|
    ensures InStep(pre, Advance(codec, k), StepAt(codec, k, t))
  {
    hide Sync, AuSize, Slice, Window;
    var i, empty := k.cacheIdx, Slice(k.stream, 0, 0);
    var b := k.cache[i];
    assert k.Look()[0] == b;
    assert pre + (k.cache[..i] + empty) + [b] == pre + (k.cache[..i + 1] + empty);
    assert k.cache[..i] + [b] == k.cache[..i + 1];
    assert [] + (k.cache[..i + 1] + empty) == k.cache[..i + 1];
  }

  lemma {:induction false} NextInStream(codec: Codec, pre: seq<byte>, k: Cursor, t: Track)
    requires InStep(pre, k, t) && !k.AtEnd() && !Advance(codec, k).au.Stopped() && k.cacheIdx == |k.cache|
    ensures InStep(pre, Advance(codec, k), StepAt(codec, k, t))
  {
    hide Sync, AuSize, Slice, Window;
    var c, s, i := k.cache[..k.cacheIdx], k.stream, k.streamIt;
    assert k.Look()[0] == s[i];
    AppendToSlice(s, k.begin, i);
    AppendToSlice(s, i, i);
    assert pre + (c + Slice(s, k.begin, i)) + [s[i]] == pre + (c + (Slice(s, k.begin, i) + [s[i]]));
    assert [] + (c + [s[i]]) == c + [s[i]];
  }

  lemma AppendToSlice(s: seq<byte>, lo: nat, hi: nat)
    requires lo <= hi < |s|
    ensures Slice(s, lo, hi + 1) == Slice(s, lo, hi) + [s[hi]]
    ensures lo == hi ==> Slice(s, lo, hi + 1) == [s[hi]]
  {
  }

  /** One position that completes the access unit or breaks off. */
  lemma {:induction false} InStepStop(codec: Codec, pre: seq<byte>, k: Cursor, t: Track)
    requires InStep(pre, k, t) && !k.AtEnd() && Advance(codec, k).au.Stopped()
    ensures var k' := Advance(codec, k);
      && k'.Pos() == k.Pos() && InStep(pre, k', t)
      && (k'.au.state == Complete ==> Visit(codec, true, t.offset, t.size, |t.cur|, k.Look()) == Cut)
      && (k'.au.state == SizeMismatch ==> StepAt(codec, k, t).broken)
  {
    hide Window, Sync, AuSize, Slice;
  }

  /** A whole parser call, up to where it stops or runs out of positions. */
  lemma {:induction false} ScanTracks(codec: Codec, pre: seq<byte>, k: Cursor, t: Track)
    requires InStep(pre, k, t) && !k.au.Stopped() && k.Pos() <= k.Limit()
    ensures var w, kept, limit, r := k.cache + k.stream, |k.cache|, k.Limit(), Scan(codec, k);
      && k.Pos() <= r.Pos() <= limit && r.AtEnd()
      && (r.au.state == SizeMismatch ==> Walk(codec, t, w, kept, k.Pos(), limit).broken)
      && (r.au.state != SizeMismatch ==>
            var t' := Walk(codec, t, w, kept, k.Pos(), r.Pos());
            && InStep(pre, r, t') && t'.done == t.done
            && (r.au.state == Complete ==>
                  r.Pos() < limit && Visit(codec, true, t'.offset, t'.size, |t'.cur|, Window(w, r.Pos())) == Cut))
    decreases |k.cache + k.stream| - k.Pos()
  {
    hide Window, Visit, Advance, Step, Slice;
    if k.Pos() < k.Limit() {
      ScanStep(codec, k);
      var k', t' := Advance(codec, k), StepAt(codec, k, t);
      if k'.au.Stopped() {
        InStepStop(codec, pre, k, t);
        if k'.au.state == SizeMismatch {
          BrokenStays(codec, t', k.cache + k.stream, |k.cache|, k.Pos() + 1, k.Limit());
        }
      } else {
        InStepNext(codec, pre, k, t);
        ScanTracks(codec, pre, k', t');
      }
    }
  }

  /** What the state of a stream means to the automaton. */
  function TrackOf(es: Es): Track {
    Track(es.done, es.au.state != NoAu, es.cur, es.au.sizeInfoOffset, es.au.parsedSize, false)
  }

  ghost predicate Matches(es: Es, t: Track) {
    && es.done == t.done
    && (es.au.state != NoAu <==> t.inAu)
    && (t.inAu ==> es.cur == t.cur && es.au.sizeInfoOffset == t.offset && es.au.parsedSize == t.size)
  }

  /** Cutting in one step is completing, and then beginning anew at the same position. */
  lemma CutIsRestart(codec: Codec, t: Track, window: seq<byte>, kept: bool)
    requires window != [] && !t.broken && t.inAu && Visit(codec, true, t.offset, t.size, |t.cur|, window) == Cut
    ensures Step(codec, t, window, kept) == Step(codec, Track(t.done + [t.cur], false, [], 0, 0, false), window, kept)
  {
    hide Sync, AuSize;
  }

  lemma {:induction false} RestartWalk(codec: Codec, t: Track, w: seq<byte>, kept: nat, q: nat,
           v: seq<byte>, kept': nat, hi: nat)
    requires q < hi <= |w| && v == w[q..] && kept' == (if q < kept then kept - q else 0)
    requires !t.broken && t.inAu && Visit(codec, true, t.offset, t.size, |t.cur|, Window(w, q)) == Cut
    ensures Walk(codec, t, w, kept, q, hi) ==
            Walk(codec, Track(t.done + [t.cur], false, [], 0, 0, false), v, kept', 0, hi - q)
  {
    hide Step, Visit, Window;
    CutIsRestart(codec, t, Window(w, q), q < kept);
    WalkShift(codec, Track(t.done + [t.cur], false, [], 0, 0, false), w, kept, q, v, kept', 0, hi - q);
  }

  /** Where the next call continues after a unit was completed: nothing is lost or seen twice. */
  lemma Resume(k: Cursor, k': Cursor)
    requires k.Ok() && k.Pos() < k.Limit() && k.stream != []
    requires k'.cache == k.cache[k.cacheIdx..] && k'.stream == k.stream[k.streamIt..]
    ensures k'.cache + k'.stream == (k.cache + k.stream)[k.Pos()..]
    ensures |k'.cache| == if k.Pos() < |k.cache| then |k.cache| - k.Pos() else 0
    ensures k'.Limit() == k.Limit() - k.Pos() && k'.stream != []
  {
  }

  lemma DropDrop(w: seq<byte>, q: nat, limit: nat)
    requires q <= limit <= |w|
    ensures w[q..][limit - q..] == w[limit..]
  {
  }

  lemma InStepStart(es: Es, stream: seq<byte>)
    requires |es.cur| == es.au.accumulatedSize && es.au.Ok()
    ensures InStep(es.cur, es.Start(stream), TrackOf(es))
  {
    assert es.cur + es.Start(stream).Chunk() == es.cur;
  }

  /** The automaton walks over the kept bytes and a packet. */
  function WalkPacket(codec: Codec, es: Es, stream: seq<byte>): Track {
    Walk(codec, TrackOf(es), es.cache + stream, |es.cache|, 0, es.Start(stream).Limit())
  }

  /** A call that completes a unit: what is left is a shorter walk, from the state in which the next call starts. */
  lemma {:induction false} WalkComplete(codec: Codec, es: Es, stream: seq<byte>, k: Cursor)
    requires es.Ok(codec) && stream != [] && k == Scan(codec, es.Start(stream)) && k.au.state == Complete
    ensures var es', stream' := Restart(es, k), stream[k.streamIt..];
      && stream' != [] && es'.Ok(codec)
      && WalkPacket(codec, es, stream) == WalkPacket(codec, es', stream')
      && (es'.cache + stream')[es'.Start(stream').Limit()..] == (es.cache + stream)[es.Start(stream).Limit()..]
      && |es'.cache| + |stream'| <= |es.cache| + |stream|
      && (es.au.state == NoAu ==> |es'.cache| + |stream'| < |es.cache| + |stream|)
  {
    hide Scan, Visit, Step, Window, Walk, Slice;
    var k0 := es.Start(stream);
    var w, kept, limit, t := es.cache + stream, |es.cache|, k0.Limit(), TrackOf(es);
    InStepStart(es, stream);
    ScanTracks(codec, es.cur, k0, t);
    ScanFacts(codec, k0);
    var q := k.Pos();
    var t' := Walk(codec, t, w, kept, 0, q);
    WalkSplit(codec, t, w, kept, 0, q, limit);
    var es', stream' := Restart(es, k), stream[k.streamIt..];
    Resume(k, es'.Start(stream'));
    RestartWalk(codec, t', w, kept, q, w[q..], |es'.cache|, limit);
    DropDrop(w, q, limit);
  }

  /**
   * How far the walk of the parser goes on behind the last position it looks at: over all the bytes that
   * are missing from a frame whose size is known, if the packet is too short to be searched.
   */
  function Lacks(codec: Codec, t: Track, stream: seq<byte>): (m: nat) {
    if |stream| >= 4 || codec.Avc? || !t.inAu || t.offset != 0 || |t.cur| >= t.size then 0 else t.size - |t.cur|
  }

  /** Bytes are appended unseen. */
  function Leap(t: Track, bytes: seq<byte>): Track {
    t.(cur := t.cur + bytes)
  }

  /** A call that completes nothing reaches the end of the walk, and jumps from there. */
  lemma {:induction false} WalkOpen(codec: Codec, es: Es, stream: seq<byte>, k: Cursor)
    requires es.Ok(codec) && stream != [] && k == Scan(codec, es.Start(stream)) && k.au.state != Complete
    requires !WalkPacket(codec, es, stream).broken
    ensures !k.au.Stopped() && k.Ok() && k.cacheIdx == |k.cache|
    ensures k.Pos() == k.Limit() == es.Start(stream).Limit()
    ensures InStep(es.cur, k, WalkPacket(codec, es, stream)) && WalkPacket(codec, es, stream).done == es.done
  {
    hide Scan, Visit, Step, Window, Walk, Slice;
    InStepStart(es, stream);
    ScanTracks(codec, es.cur, es.Start(stream), TrackOf(es));
  }

  lemma {:induction false} JumpIsLeap(codec: Codec, pre: seq<byte>, k: Cursor, t: Track)
    requires InStep(pre, k, t) && !k.au.Stopped() && k.cacheIdx == |k.cache| && k.Pos() == k.Limit()
    requires |k.stream| < 4 ==> k.streamIt == k.begin == 0
    ensures Missing(codec, k) == Lacks(codec, t, k.stream)
    ensures var m, w, limit, j := Missing(codec, k), k.cache + k.stream, k.Limit(), Jump(codec, k);
      m <= |k.stream| ==>
        && j.Ok() && limit + m <= |w|
        && k.cache[j.cacheIdx..] + k.stream[j.streamIt..] == From(w, limit + m)
        && (t.inAu ==> pre + j.Chunk() == t.cur + Slice(w, limit, limit + m))
  {
    hide Slice, From;
    var m, w, limit := Missing(codec, k), k.cache + k.stream, k.Limit();
    if m <= |k.stream| {
      Rest(k.cache, k.stream, k.streamIt + m);
      if m == 0 {
        NoSlice(t.cur, w, limit);
      } else {
        ShortChunk(pre, k.cache, k.stream, m);
      }
    }
  }

  lemma Rest(cache: seq<byte>, stream: seq<byte>, i: nat)
    requires i <= |stream|
    ensures cache[|cache|..] + stream[i..] == From(cache + stream, |cache| + i)
  {
  }

  lemma NoSlice(a: seq<byte>, w: seq<byte>, i: nat)
    requires i <= |w|
    ensures a + Slice(w, i, i) == a
  {
  }

  lemma ShortChunk(pre: seq<byte>, cache: seq<byte>, stream: seq<byte>, m: nat)
    requires m <= |stream|
    ensures pre + (cache[..|cache|] + Slice(stream, 0, m)) ==
            pre + (cache[..|cache|] + Slice(stream, 0, 0)) + Slice(cache + stream, |cache|, |cache| + m)
  {
  }

  lemma SameLack(codec: Codec, t: Track, stream: seq<byte>, stream': seq<byte>)
    requires if |stream| < 4 then stream' == stream else |stream'| >= 4
    ensures Lacks(codec, t, stream') == Lacks(codec, t, stream) && (|stream| >= 4 ==> Lacks(codec, t, stream) == 0)
  {
  }

  lemma SameTail(a: seq<byte>, i: nat, b: seq<byte>, j: nat, m: nat)
    requires i <= |a| && j <= |b| && a[i..] == b[j..]
    ensures i + m <= |a| <==> j + m <= |b|
    ensures i + m <= |a| ==> Slice(a, i, i + m) == Slice(b, j, j + m) && From(a, i + m) == From(b, j + m)
  {
    assert |a[i..]| == |b[j..]|;
    if i + m <= |a| {
      assert a[i..i + m] == a[i..][..m] && b[j..j + m] == b[j..][..m];
      DropDrop(a, i, i + m);
      DropDrop(b, j, j + m);
    }
  }

  /** A completed unit leaves a section of four bytes or more, or the whole section. */
  lemma {:induction false} EnoughLeft(codec: Codec, es: Es, stream: seq<byte>, k: Cursor)
    requires es.Ok(codec) && stream != [] && k == Scan(codec, es.Start(stream)) && k.au.state == Complete
    ensures if |stream| < 4 then stream[k.streamIt..] == stream else |stream[k.streamIt..]| >= 4
  {
    hide Scan;
    ScanFacts(codec, es.Start(stream));
    if |stream| < 4 { ScanShort(codec, es.Start(stream)); }
  }

  /** `r` is where the walk over a packet, `t`, and the jump at its end lead. */
  ghost predicate Landed(codec: Codec, es: Es, stream: seq<byte>, t: Track, r: Es) {
    var w, limit, m := es.cache + stream, es.Start(stream).Limit(), Lacks(codec, t, stream);
    if m > |stream| then r.au.state == OutOfSection
    else
      && limit + m <= |w| && Matches(r, Leap(t, Slice(w, limit, limit + m)))
      && r.cache == From(w, limit + m) && r.Ok(codec) && r.au.state != SizeMismatch && r.au.state != OutOfSection
      && r.restarts == es.restarts
  }

  lemma {:induction false} LandedLater(codec: Codec, es: Es, stream: seq<byte>,
           es': Es, stream': seq<byte>, t: Track, r: Es)
    requires Landed(codec, es', stream', t, r) && es'.restarts == es.restarts
      && (if |stream| < 4 then stream' == stream else |stream'| >= 4)
    requires es'.Start(stream').Limit() <= |es'.cache + stream'| && es.Start(stream).Limit() <= |es.cache + stream|
    requires (es'.cache + stream')[es'.Start(stream').Limit()..] == (es.cache + stream)[es.Start(stream).Limit()..]
    ensures Landed(codec, es, stream, t, r)
  {
    hide Lacks, Leap, Matches, Slice, From;
    SameLack(codec, t, stream, stream');
    SameTail(es'.cache + stream', es'.Start(stream').Limit(),
             es.cache + stream, es.Start(stream).Limit(), Lacks(codec, t, stream));
  }

  lemma {:induction false} LandedNow(codec: Codec, packet: seq<byte>, stream: seq<byte>, es: Es, k: Cursor, t: Track)
    requires |stream| <= |packet| && es.Ok(codec) && es.au.state != OutOfSection && stream != []
    requires k == Scan(codec, es.Start(stream)) && !k.au.Stopped() && k.cacheIdx == |k.cache|
    requires k.Pos() == k.Limit() == es.Start(stream).Limit() && InStep(es.cur, k, t) && t.done == es.done
    ensures Landed(codec, es, stream, t, Run(codec, packet, stream, es))
  {
    hide Scan, Slice, From, Run, Missing, Lacks, Jump, Cursor.Chunk, Cursor.Ok;
    ScanFacts(codec, es.Start(stream));
    if |stream| < 4 { ScanShort(codec, es.Start(stream)); }
    JumpIsLeap(codec, es.cur, k, t);
    RunOpen(codec, packet, stream, es, k);
  }

  /** All parser calls for a packet together are one walk of the automaton, and the jump at its end. */
  lemma {:induction false} RunTracks(codec: Codec, packet: seq<byte>, stream: seq<byte>, es: Es)
    requires |stream| <= |packet| && es.Ok(codec) && es.au.state != OutOfSection && stream != []
    requires !WalkPacket(codec, es, stream).broken
    ensures Landed(codec, es, stream, WalkPacket(codec, es, stream), Run(codec, packet, stream, es))
    decreases |es.cache| + |stream|, if es.au.state == NoAu then 0 else 1
  {
    hide Scan, WalkPacket, Slice, Run, Landed;
    var k, t := Scan(codec, es.Start(stream)), WalkPacket(codec, es, stream);
    if k.au.state == Complete {
      RunComplete(codec, packet, stream, es, k);
      WalkComplete(codec, es, stream, k);
      EnoughLeft(codec, es, stream, k);
      RunTracks(codec, packet, stream[k.streamIt..], Restart(es, k));
      LandedLater(codec, es, stream, Restart(es, k), stream[k.streamIt..], t, Run(codec, packet, stream, es));
    } else {
      WalkOpen(codec, es, stream, k);
      LandedNow(codec, packet, stream, es, k, t);
    }
  }
}
