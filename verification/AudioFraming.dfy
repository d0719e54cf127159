/** Audio frames come out of the demuxer as they went in, however the stream is cut into packets. */
module AudioFraming {
  import opened Bytes
  import opened Parsers
  import opened Packets
  import opened Tracking
  import opened Framing

  /** A frame starts with the sync word and its header holds its own size. */
  ghost predicate IsFrame(codec: Codec, f: seq<byte>) {
    && !codec.Avc? && |f| >= 8
    && SyncWord(codec) <= f
    && AuSize(codec, f[SizeInfoOffset(codec)], f[SizeInfoOffset(codec) + 1]) == |f|
  }

  /** The automaton after j bytes of a frame. */
  ghost function InFrame(codec: Codec, done: seq<seq<byte>>, f: seq<byte>, j: nat): Track
    requires 1 <= j <= |f|
  {
    var field := SizeInfoOffset(codec);
    if j <= field then Track(done, true, f[..j], field + 1 - j, 0, false) else Track(done, true, f[..j], 0, |f|, false)
  }

  /** Inside a frame nothing cuts, not even a sync word, and the size is read from the header. */
  lemma InFrameStep(codec: Codec, done: seq<seq<byte>>, f: seq<byte>, j: nat, window: seq<byte>, kept: bool)
    requires IsFrame(codec, f) && 1 <= j < |f|
    requires window != [] && window[0] == f[j] && (j + 1 < |f| ==> |window| >= 2 && window[1] == f[j + 1])
    ensures Step(codec, InFrame(codec, done, f, j), window, kept) == InFrame(codec, done, f, j + 1)
  {
    hide Sync, AuSize;
    assert f[..j] + [f[j]] == f[..j + 1];
  }

  /** The sync word of the next frame cuts right behind the last byte of this one. */
  lemma NextFrame(codec: Codec, done: seq<seq<byte>>, f: seq<byte>, g: seq<byte>, window: seq<byte>, kept: bool)
    requires IsFrame(codec, f) && IsFrame(codec, g)
    requires Sync(codec, window) && window[0] == g[0]
    ensures Step(codec, InFrame(codec, done, f, |f|), window, kept) == InFrame(codec, done + [f], g, 1)
  {
    hide AuSize;
    assert f[..|f|] == f && g[..1] == [g[0]];
  }

  lemma FirstFrame(codec: Codec, g: seq<byte>, window: seq<byte>, kept: bool)
    requires IsFrame(codec, g) && Sync(codec, window) && window[0] == g[0]
    ensures Step(codec, START, window, kept) == InFrame(codec, [], g, 1)
  {
    hide AuSize;
    assert [] + [g[0]] == g[..1];
  }

  /** The automaton after the first n bytes of a whole stream. */
  ghost function After(codec: Codec, s: seq<byte>, n: nat): Track
    requires n <= |s|
  {
    Walk(codec, START, s, 0, 0, n)
  }

  lemma AfterNext(codec: Codec, s: seq<byte>, n: nat)
    requires n < |s|
    ensures After(codec, s, n + 1) == Step(codec, After(codec, s, n), Window(s, n), false)
  {
    hide Step, Window;
    WalkSplit(codec, START, s, 0, 0, n, n + 1);
    var t := After(codec, s, n);
    assert Walk(codec, t, s, 0, n, n + 1) == Walk(codec, Step(codec, t, Window(s, n), false), s, 0, n + 1, n + 1);
  }

  ghost predicate AreFrames(codec: Codec, frames: seq<seq<byte>>) {
    forall i | 0 <= i < |frames| :: IsFrame(codec, frames[i])
  }

  /** Byte j of frame i in the stream of all frames. */
  lemma FrameByte(frames: seq<seq<byte>>, i: nat, j: nat)
    requires i < |frames| && j < |frames[i]|
    ensures Off(frames, i) + j < |Flatten(frames)| && Flatten(frames)[Off(frames, i) + j] == frames[i][j]
  {
    OffStep(frames, i);
    OffMono(frames, i + 1, |frames|);
    assert frames[..|frames|] == frames;
    var s := Flatten(frames);
    assert s[..Off(frames, i + 1)] == Flatten(frames[..i]) + frames[i];
  }

  lemma FrameWindow(codec: Codec, frames: seq<seq<byte>>, i: nat, j: nat)
    requires AreFrames(codec, frames) && i < |frames| && j < |frames[i]|
    ensures Off(frames, i) + j < |Flatten(frames)|
    ensures var window := Window(Flatten(frames), Off(frames, i) + j);
      && window != [] && window[0] == frames[i][j]
      && (j + 1 < |frames[i]| ==> |window| >= 2 && window[1] == frames[i][j + 1])
      && (j == 0 ==> Sync(codec, window))
  {
    hide Flatten, AuSize;
    FrameByte(frames, i, j);
    var n := Off(frames, i) + j;
    var s := Flatten(frames);
    var window := Window(s, n);
    assert window[0] == s[n];
    if j + 1 < |frames[i]| {
      FrameByte(frames, i, j + 1);
      assert window[1] == s[n + 1];
    }
    if j == 0 {
      assert |SyncWord(codec)| == 2;
      assert window[..2] == frames[i][..2] == SyncWord(codec);
    }
  }

  /** Walking over the stream of all frames, the automaton is always in the frame it should be in. */
  lemma {:induction false} AfterFrames(codec: Codec, frames: seq<seq<byte>>, i: nat, j: nat)
    requires AreFrames(codec, frames) && i < |frames| && 1 <= j <= |frames[i]|
    ensures Off(frames, i) + j <= |Flatten(frames)|
    ensures After(codec, Flatten(frames), Off(frames, i) + j) == InFrame(codec, frames[..i], frames[i], j)
    decreases i, j
  {
    hide Flatten, Step, Window, IsFrame, Walk;
    assert IsFrame(codec, frames[i]);
    var s, n := Flatten(frames), Off(frames, i) + j - 1;
    FrameWindow(codec, frames, i, j - 1);
    AfterNext(codec, s, n);
    if j > 1 {
      AfterFrames(codec, frames, i, j - 1);
      InFrameStep(codec, frames[..i], frames[i], j - 1, Window(s, n), false);
    } else if i > 0 {
      OffStep(frames, i - 1);
      assert IsFrame(codec, frames[i - 1]);
      AfterFrames(codec, frames, i - 1, |frames[i - 1]|) by {
        assert |frames[i - 1]| >= 1 by {
          FrameSize(codec, frames[i - 1]);
        }
      }
      NextFrame(codec, frames[..i - 1], frames[i - 1], frames[i], Window(s, n), false);
      assert frames[..i] == frames[..i - 1] + [frames[i - 1]];
    } else {
      assert frames[..0] == [];
      FirstFrame(codec, frames[0], Window(s, n), false);
      AfterNothing(codec, s);
      EmptyOff(frames);
    }
  }

  lemma FrameSize(codec: Codec, f: seq<byte>)
    requires IsFrame(codec, f)
    ensures |f| >= 8 && !codec.Avc?
  {
  }

  lemma AfterNothing(codec: Codec, s: seq<byte>)
    ensures After(codec, s, 0) == START
  {
  }

  lemma EmptyOff(frames: seq<seq<byte>>)
    ensures Off(frames, 0) == 0
  {
    assert frames[..0] == [];
  }

  /** Inside an access unit, or at its very start, it does not matter whether a byte was carried over. */
  lemma StepIgnoresKept(codec: Codec, t: Track, window: seq<byte>, kept: bool)
    requires window != [] && (t.inAu || (t.offset == 0 && Sync(codec, window)))
    ensures Step(codec, t, window, kept) == Step(codec, t, window, false)
    ensures !t.broken ==> Step(codec, t, window, false).inAu
    ensures t.broken ==> Step(codec, t, window, false) == t
  {
    hide AuSize, Sync;
  }

  /** The parsers for audio look at two bytes only. */
  ghost predicate Alike(a: seq<byte>, b: seq<byte>) {
    |a| >= 2 && |b| >= 2 && a[0] == b[0] && a[1] == b[1]
  }

  lemma StepAlike(codec: Codec, t: Track, a: seq<byte>, b: seq<byte>, kept: bool)
    requires !codec.Avc? && Alike(a, b)
    ensures Step(codec, t, a, kept) == Step(codec, t, b, kept) && (Sync(codec, a) <==> Sync(codec, b))
  {
    hide AuSize;
    assert |SyncWord(codec)| == 2;
  }

  /** A walk over the bytes at hand is a stretch of the walk over the whole stream. */
  lemma {:induction false} WalkGlue(codec: Codec, t: Track, w: seq<byte>, kept: nat,
           s: seq<byte>, h: nat, i: nat, hi: nat)
    requires !codec.Avc? && i <= hi <= |w| && h + hi <= |s|
    requires forall j: nat | i <= j < hi :: Alike(Window(w, j), Window(s, h + j))
    requires t.inAu || (i < hi && t.offset == 0 && Sync(codec, Window(s, h + i)))
    requires !t.broken
    ensures Walk(codec, t, w, kept, i, hi) == Walk(codec, t, s, 0, h + i, h + hi)
    ensures Walk(codec, t, w, kept, i, hi).inAu
    decreases hi - i
  {
    hide Step, Window, Sync;
    if i < hi {
      StepAlike(codec, t, Window(w, i), Window(s, h + i), i < kept);
      StepIgnoresKept(codec, t, Window(s, h + i), i < kept);
      var t' := Step(codec, t, Window(s, h + i), false);
      if t'.broken {
        BrokenStays(codec, t', w, kept, i + 1, hi);
        BrokenStays(codec, t', s, 0, h + i + 1, h + hi);
        StepKeepsInAu(codec, t, Window(s, h + i));
      } else {
        WalkGlue(codec, t', w, kept, s, h, i + 1, hi);
      }
    }
  }

  lemma StepKeepsInAu(codec: Codec, t: Track, window: seq<byte>)
    requires window != [] && !t.broken && (t.inAu || (t.offset == 0 && Sync(codec, window)))
    ensures Step(codec, t, window, false).inAu
  {
    hide AuSize, Sync;
  }

  /** Over bytes that are missing from a frame of known size the automaton goes without looking. */
  lemma {:induction false} LeapAfter(codec: Codec, s: seq<byte>, n: nat, m: nat)
    requires !codec.Avc? && n + m <= |s|
    requires var t := After(codec, s, n); !t.broken && t.inAu && t.offset == 0 && |t.cur| + m <= t.size
    ensures After(codec, s, n + m) == Leap(After(codec, s, n), Slice(s, n, n + m))
    decreases m
  {
    hide Walk, Window, Sync;
    if m == 0 {
      NoSlice(After(codec, s, n).cur, s, n);
    } else {
      LeapAfter(codec, s, n, m - 1);
      AfterNext(codec, s, n + m - 1);
      AppendToSlice(s, n, n + m - 1);
    }
  }

  /** No prefix of the stream is refused. */
  ghost predicate Sound(codec: Codec, s: seq<byte>) {
    && !codec.Avc? && |s| >= 4 && Sync(codec, Window(s, 0))
    && forall n: nat | n <= |s| :: !After(codec, s, n).broken
  }

  /** The windows over kept bytes and packet look like those over the whole stream, as long as they have two bytes. */
  lemma WindowsAlike(prefix: seq<byte>, s: seq<byte>, h: nat, j: nat)
    requires prefix <= s && h + j + 2 <= |prefix|
    ensures Alike(Window(prefix[h..], j), Window(s, h + j))
  {
    assert forall i | 0 <= i < |prefix| :: prefix[i] == s[i];
  }

  /** Where the bytes kept and the bytes of packet k lie in the whole stream. */
  lemma PacketGeometry(packets: seq<seq<byte>>, k: nat, es: Es)
    requires k < |packets| && packets[k] != [] && |es.cache| <= 3 && |es.cache| <= Off(packets, k)
    requires es.cache == From(Flatten(packets[..k]), Off(packets, k) - |es.cache|)
    ensures var w, h, limit := es.cache + packets[k], Off(packets, k) - |es.cache|, es.Start(packets[k]).Limit();
      && limit <= |w| && h + |w| == Off(packets, k + 1) <= |Flatten(packets)|
      && (|packets[k]| < 4 ==> h + limit == Off(packets, k))
      && (forall j: nat | j < limit :: Alike(Window(w, j), Window(Flatten(packets), h + j)))
      && w == From(Flatten(packets[..k + 1]), h)
  {
    hide Flatten, Window;
    OffStep(packets, k);
    WholeFlatten(packets, k + 1);
    OffMono(packets, k + 1, |packets|);
    assert packets[..|packets|] == packets;
    var w, h, limit, prefix := es.cache + packets[k], Off(packets, k) - |es.cache|,
      es.Start(packets[k]).Limit(), Flatten(packets[..k + 1]);
    DropAcross(Flatten(packets[..k]), packets[k], h);
    forall j: nat | j < limit ensures Alike(Window(w, j), Window(Flatten(packets), h + j)) {
      WindowsAlike(prefix, Flatten(packets), h, j);
    }
  }

  lemma Tails(w: seq<byte>, prefix: seq<byte>, s: seq<byte>, h: nat, x: nat, y: nat)
    requires h <= |prefix| && w == From(prefix, h) && prefix <= s && x <= y <= |w|
    ensures From(w, y) == From(prefix, h + y) && Slice(w, x, y) == Slice(s, h + x, h + y)
  {
    assert forall i | 0 <= i < |prefix| :: prefix[i] == s[i];
  }

  /** The state after the packets before packet k is the state of the automaton after all but the bytes kept. */
  ghost predicate UpTo(codec: Codec, packets: seq<seq<byte>>, k: nat, es: Es)
    requires k <= |packets|
  {
    var h := Off(packets, k) - |es.cache|;
    && es.Ok(codec) && es.au.state != SizeMismatch && es.au.state != OutOfSection && es.restarts == 0
    && 0 <= h <= |Flatten(packets)| && TrackOf(es) == After(codec, Flatten(packets), h)
    && es.cache == From(Flatten(packets[..k]), h)
    && (h > 0 ==> es.au.state != NoAu)
  }

  /** The walk for one more packet continues the walk over the whole stream. */
  lemma {:induction false} OneWalk(codec: Codec, packets: seq<seq<byte>>, k: nat, es: Es)
    requires k < |packets| && packets[k] != [] && Sound(codec, Flatten(packets)) && UpTo(codec, packets, k, es)
    ensures var n := Off(packets, k) - |es.cache| + es.Start(packets[k]).Limit();
      && n <= |Flatten(packets)| && WalkPacket(codec, es, packets[k]) == After(codec, Flatten(packets), n)
      && !After(codec, Flatten(packets), n).broken
      && (n > 0 ==> After(codec, Flatten(packets), n).inAu)
      && (n == 0 ==> After(codec, Flatten(packets), n) == START)
  {
    hide Walk, Window, Sync, Flatten, Step;
    var s, p, h := Flatten(packets), packets[k], Off(packets, k) - |es.cache|;
    PacketGeometry(packets, k, es);
    var w, limit := es.cache + p, es.Start(p).Limit();
    AfterNothing(codec, s);
    WalkSplit(codec, START, s, 0, 0, h, h + limit);
    if limit > 0 {
      WalkGlue(codec, TrackOf(es), w, |es.cache|, s, h, 0, limit);
    } else {
      NoWalk(codec, TrackOf(es), w, |es.cache|);
    }
    assert !After(codec, s, h + limit).broken;
  }

  /** One more packet. */
  lemma {:induction false} OnePacket(codec: Codec, packets: seq<seq<byte>>, k: nat, es: Es)
    requires k < |packets| && packets[k] != [] && Sound(codec, Flatten(packets)) && UpTo(codec, packets, k, es)
    ensures var s, p, r := Flatten(packets), packets[k], Run(codec, packets[k], packets[k], es);
      var n := Off(packets, k) - |es.cache| + es.Start(p).Limit();
      && n <= |s|
      && if Lacks(codec, After(codec, s, n), p) > |p|
         then r.au.state == OutOfSection
         else UpTo(codec, packets, k + 1, r)
  {
    hide Run, Walk, WalkPacket, After, Flatten, Sound, From, Slice, Lacks;
    var s, p := Flatten(packets), packets[k];
    var r, w, h, limit := Run(codec, p, p, es), es.cache + p, Off(packets, k) - |es.cache|, es.Start(p).Limit();
    OneWalk(codec, packets, k, es);
    PacketGeometry(packets, k, es);
    RunTracks(codec, p, p, es);
    var t := After(codec, s, h + limit);
    var m := Lacks(codec, t, p);
    if m <= |p| {
      Prefixed(packets, k + 1);
      Tails(w, Flatten(packets[..k + 1]), s, h, limit, limit + m);
      assert After(codec, s, h + limit + m) == Leap(t, Slice(s, h + limit, h + limit + m)) by {
        if m == 0 { NoSlice(t.cur, s, h + limit); } else { LacksFacts(codec, t, p); LeapAfter(codec, s, h + limit, m); }
      }
      LacksFacts(codec, t, p);
      LandedState(codec, r, Leap(t, Slice(s, h + limit, h + limit + m)));
    }
  }

  lemma LacksFacts(codec: Codec, t: Track, p: seq<byte>)
    ensures Lacks(codec, t, p) > 0 ==> !codec.Avc? && t.inAu && t.offset == 0 && |t.cur| + Lacks(codec, t, p) <= t.size
  {
  }

  lemma Prefixed(packets: seq<seq<byte>>, k: nat)
    requires k <= |packets|
    ensures Flatten(packets[..k]) <= Flatten(packets)
  {
    OffMono(packets, k, |packets|);
    assert packets[..|packets|] == packets;
  }

  lemma LandedState(codec: Codec, r: Es, t: Track)
    requires r.Ok(codec) && Matches(r, t) && !t.broken && (t.inAu || t == START)
    ensures TrackOf(r) == t && (t.inAu ==> r.au.state != NoAu)
  {
  }

  lemma NoWalk(codec: Codec, t: Track, w: seq<byte>, kept: nat)
    ensures Walk(codec, t, w, kept, 0, 0) == t
  {
  }

  lemma NoPackets(codec: Codec, packets: seq<seq<byte>>)
    ensures UpTo(codec, packets, 0, EMPTY)
  {
    hide Walk;
    AfterNothing(codec, Flatten(packets));
    EmptyOff(packets);
  }

  // Packets that the parser leaves

  /**
   * Packet k has less than four bytes, and lies in a frame: behind the first byte of its size field, and
   * with bytes of the frame left behind it.
   */
  ghost predicate Strays(codec: Codec, frames: seq<seq<byte>>, packets: seq<seq<byte>>, k: nat)
    requires k < |packets|
  {
    0 < |packets[k]| < 4 && LiesIn(codec, frames, Off(packets, k), Off(packets, k + 1))
  }

  ghost predicate LiesIn(codec: Codec, frames: seq<seq<byte>>, lo: nat, hi: nat) {
    exists i: nat :: Inside(codec, frames, i, lo, hi)
  }

  ghost predicate Inside(codec: Codec, frames: seq<seq<byte>>, i: nat, lo: nat, hi: nat) {
    i < |frames| && Off(frames, i) + SizeInfoOffset(codec) < lo && hi < Off(frames, i + 1)
  }

  /** That is exactly when the parser jumps out of it. */
  lemma {:induction false} LacksIffStrays(codec: Codec, frames: seq<seq<byte>>, packets: seq<seq<byte>>, k: nat)
    requires AreFrames(codec, frames) && !codec.Avc?
      && k < |packets| && 0 < |packets[k]| < 4 && Flatten(packets) == Flatten(frames)
    ensures Off(packets, k) <= |Flatten(frames)|
    ensures Lacks(codec, After(codec, Flatten(frames), Off(packets, k)), packets[k]) > |packets[k]| <==>
            Strays(codec, frames, packets, k)
  {
    hide Flatten, Walk, AuSize, IsFrame, Off;
    var n, end, s := Off(packets, k), Off(packets, k + 1), Flatten(frames);
    PacketEnd(packets, k);
    if n == 0 {
      AfterNothing(codec, s);
    } else {
      var i, j := FrameOf(codec, frames, n);
      AfterFrames(codec, frames, i, j);
      FrameEnd(frames, i);
      var t := InFrame(codec, frames[..i], frames[i], j);
      assert Lacks(codec, t, packets[k]) > |packets[k]| <==> Inside(codec, frames, i, n, end);
      forall i': nat | Inside(codec, frames, i', n, end) ensures i' == i {
        OneFrame(frames, i, i', n);
      }
    }
  }

  lemma PacketEnd(packets: seq<seq<byte>>, k: nat)
    requires k < |packets|
    ensures Off(packets, k + 1) == Off(packets, k) + |packets[k]| && Off(packets, k) <= |Flatten(packets)|
  {
    OffStep(packets, k);
    WholeFlatten(packets, k);
  }

  lemma FrameEnd(frames: seq<seq<byte>>, i: nat)
    requires i < |frames|
    ensures Off(frames, i + 1) == Off(frames, i) + |frames[i]|
  {
    OffStep(frames, i);
  }

  lemma OneFrame(frames: seq<seq<byte>>, i: nat, j: nat, n: nat)
    requires i < |frames| && j < |frames|
      && Off(frames, i) < n <= Off(frames, i + 1) && Off(frames, j) < n < Off(frames, j + 1)
    ensures i == j
  {
    if i < j { OffMono(frames, i + 1, j); }
    if j < i { OffMono(frames, j + 1, i); }
  }

  ghost predicate StraysBefore(codec: Codec, frames: seq<seq<byte>>, packets: seq<seq<byte>>, n: nat)
    requires n <= |packets|
  {
    exists k: nat :: k < n && Strays(codec, frames, packets, k)
  }

  /**
   * After the first n packets the parser has left one of them, or is where the automaton is that reads the
   * stream without packets.
   */
  lemma {:induction false} AllPackets(codec: Codec, frames: seq<seq<byte>>, packets: seq<seq<byte>>, n: nat)
    requires frames != [] && AreFrames(codec, frames) && n <= |packets| && Flatten(packets) == Flatten(frames)
    ensures StraysBefore(codec, frames, packets, n) ==> RunAll(codec, packets[..n]).au.state == OutOfSection
    ensures !StraysBefore(codec, frames, packets, n) ==> UpTo(codec, packets, n, RunAll(codec, packets[..n]))
    decreases n
  {
    hide Run, RunAll, UpTo, Flatten, Strays;
    RunAllSteps(codec, packets, n);
    if n == 0 {
      NoPackets(codec, packets);
    } else {
      AllPackets(codec, frames, packets, n - 1);
      assert StraysBefore(codec, frames, packets, n) <==>
             StraysBefore(codec, frames, packets, n - 1) || Strays(codec, frames, packets, n - 1);
      if !StraysBefore(codec, frames, packets, n - 1) {
        NextPacket(codec, frames, packets, n - 1, RunAll(codec, packets[..n - 1]));
      } else {
        RunStaysOut(codec, packets[n - 1], RunAll(codec, packets[..n - 1]));
      }
    }
  }

  lemma {:induction false} NextPacket(codec: Codec, frames: seq<seq<byte>>, packets: seq<seq<byte>>, k: nat, es: Es)
    requires frames != [] && AreFrames(codec, frames) && k < |packets| && Flatten(packets) == Flatten(frames)
    requires UpTo(codec, packets, k, es)
    ensures var r := Run(codec, packets[k], packets[k], es);
      if Strays(codec, frames, packets, k) then r.au.state == OutOfSection else UpTo(codec, packets, k + 1, r)
  {
    hide Run, Flatten, After, Lacks, From, Strays, IsFrame;
    var p := packets[k];
    FrameSize(codec, frames[0]) by { assert IsFrame(codec, frames[0]); }
    if p == [] {
      EmptyPacket(codec, frames, packets, k, es);
    } else {
      FramesAreSound(codec, frames);
      OnePacket(codec, packets, k, es);
      PacketGeometry(packets, k, es);
      if |p| < 4 {
        LacksIffStrays(codec, frames, packets, k);
      } else {
        LongPacket(codec, frames, packets, k,
          After(codec, Flatten(packets), Off(packets, k) - |es.cache| + es.Start(p).Limit()));
      }
    }
  }

  lemma LongPacket(codec: Codec, frames: seq<seq<byte>>, packets: seq<seq<byte>>, k: nat, t: Track)
    requires k < |packets| && |packets[k]| >= 4
    ensures Lacks(codec, t, packets[k]) == 0 && !Strays(codec, frames, packets, k)
  {
  }

  lemma {:induction false} EmptyPacket(codec: Codec, frames: seq<seq<byte>>, packets: seq<seq<byte>>, k: nat, es: Es)
    requires k < |packets| && packets[k] == [] && UpTo(codec, packets, k, es)
    ensures !Strays(codec, frames, packets, k)
      && Run(codec, packets[k], packets[k], es) == es && UpTo(codec, packets, k + 1, es)
  {
    hide After, Flatten, From;
    OffStep(packets, k);
    assert Flatten(packets[..k]) + [] == Flatten(packets[..k]);
  }

  /**
   * Frames put in, frames taken out: for every cut of the stream into packets, the parser leaves a packet
   * exactly if one strays; if none does, all frames but the last are delivered, in order, and the last one
   * is pending.
   */
  lemma {:induction false} FramesComeOut(codec: Codec, frames: seq<seq<byte>>, packets: seq<seq<byte>>)
    requires frames != [] && AreFrames(codec, frames) && Flatten(packets) == Flatten(frames)
    ensures var es, n := RunAll(codec, packets), |frames| - 1;
      && (es.au.state == OutOfSection <==> StraysBefore(codec, frames, packets, |packets|))
      && (es.au.state != OutOfSection ==>
            && es.done == frames[..n]
            && es.cur + es.cache == frames[n]
            && es.au.state in {Incomplete, Commenced}
            && es.au.parsedSize == |frames[n]|
            && es.restarts == 0)
  {
    hide Walk, Step, AuSize, Flatten, RunAll, Window, Sync, From;
    var s, n, k, es := Flatten(frames), |frames| - 1, |packets|, RunAll(codec, packets);
    AllPackets(codec, frames, packets, k);
    assert packets[..k] == packets;
    if !StraysBefore(codec, frames, packets, k) {
      OffStep(frames, n);
      assert frames[..n + 1] == frames;
      FrameSize(codec, frames[n]);
      AfterFrames(codec, frames, n, |frames[n]| - |es.cache|);
      LastFew(Flatten(frames[..n]), frames[n], |es.cache|);
    }
  }

  lemma LastFew(before: seq<byte>, last: seq<byte>, m: nat)
    requires |last| >= m
    ensures last[..|last| - m] + From(before + last, |before + last| - m) == last
  {
  }

  /** A stream of frames never makes the parser see a size mismatch. */
  lemma {:induction false} FramesAreSound(codec: Codec, frames: seq<seq<byte>>)
    requires frames != [] && AreFrames(codec, frames)
    ensures Sound(codec, Flatten(frames))
  {
    hide Flatten, Walk, Step, AuSize, Window;
    var s := Flatten(frames);
    FrameByte(frames, 0, 7);
    EmptyOff(frames);
    FrameWindow(codec, frames, 0, 0);
    forall n: nat | n <= |s| ensures !After(codec, s, n).broken {
      if n == 0 {
        AfterNothing(codec, s);
      } else {
        var i, j := FrameOf(codec, frames, n);
        AfterFrames(codec, frames, i, j);
      }
    }
  }

  /** The frame that ends at n, or that n lies in. */
  lemma FrameOf(codec: Codec, frames: seq<seq<byte>>, n: nat) returns (i: nat, j: nat)
    requires AreFrames(codec, frames) && 0 < n <= |Flatten(frames)|
    ensures i < |frames| && 1 <= j <= |frames[i]| && n == Off(frames, i) + j
  {
    EmptyOff(frames);
    assert frames[..|frames|] == frames;
    i := 0;
    while Off(frames, i + 1) < n
      invariant i < |frames| && Off(frames, i) < n
      decreases |frames| - i
    {
      i := i + 1;
    }
    OffStep(frames, i);
    j := n - Off(frames, i);
  }

  /** A packet of three bytes within a frame: the parser leaves it. */
  lemma ShortPacketStrays()
    ensures var frame: seq<byte> := [0x0f, 0xd0, 0, 0] + seq(12, _ => 0);
      && AreFrames(Atracx, [frame])
      && RunAll(Atracx, [frame[..5], frame[5..8], frame[8..]]).au.state == OutOfSection
  {
    hide RunAll;
    var frame: seq<byte> := [0x0f, 0xd0, 0, 0] + seq(12, _ => 0);
    var frames, packets := [frame], [frame[..5], frame[5..8], frame[8..]];
    assert IsFrame(Atracx, frame);
    assert packets[..0] == [] && frames[..0] == [] && frames[..1] == frames;
    OffStep(packets, 0);
    OffStep(packets, 1);
    OffStep(frames, 0);
    assert Flatten(packets) == frame == Flatten(frames) by { ThreePieces(frame); }
    assert Inside(Atracx, frames, 0, 5, 8);
    assert Strays(Atracx, frames, packets, 1);
    FramesComeOut(Atracx, frames, packets);
  }

  lemma ThreePieces(s: seq<byte>)
    requires |s| >= 8
    ensures Flatten([s[..5], s[5..8], s[8..]]) == s == Flatten([s])
  {
    assert Flatten([s[8..]]) == s[8..] && Flatten([s[5..8], s[8..]]) == s[5..];
    var p := [s[..5], s[5..8], s[8..]];
    assert p[1..] == [s[5..8], s[8..]] && p[1..][1..] == [s[8..]];
  }
}
