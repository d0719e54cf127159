/**
 * Reordering of the channels of decoded LPCM audio, in place. Samples come in frames of `In` channels
 * and leave in frames of `Out`; where a channel is only padding, the output moves forward and overwrites
 * input that has been read. Vectors of four samples are loaded and stored, so that a store may write
 * beyond its frame; the next store then overwrites that.
 */
module ChannelReorder {

  datatype Layout = Mono | Ch30 | Ch21 | Ch31 | Ch32 | Ch32Lfe | Ch34 | Ch34Lfe
  {
    function In(): (r: nat)
      ensures r > 0
    {
      match this
      case Mono => 2
      case Ch30 => 4
      case Ch21 => 4
      case Ch31 => 4
      case Ch32 => 6
      case Ch32Lfe => 6
      case Ch34 => 8
      case Ch34Lfe => 8
    }

    /** Which channel of the input each channel of the output is. */
    function Order(): seq<nat> {
      match this
      case Mono => [0]
      case Ch30 => [0, 2, 1]
      case Ch21 => [0, 1, 2]
      case Ch31 => [0, 2, 1, 3]
      case Ch32 => [0, 2, 1, 3, 4]
      case Ch32Lfe => [0, 2, 1, 3, 4, 5]
      case Ch34 => [0, 2, 1, 3, 6, 4, 5]
      case Ch34Lfe => [0, 1, 2, 7, 3, 6, 4, 5]
    }
  }

  /** The samples of `now` from `o` on are those of `was` from `i` on, reordered. */
  ghost predicate FrameAt<T>(order: seq<nat>, now: seq<T>, was: seq<T>, o: nat, i: nat) {
    forall c | 0 <= c < |order| :: o + c < |now| && i + order[c] < |was| && now[o + c] == was[i + order[c]]
  }

  /** Where frame `k` starts. */
  ghost function Offset(channels: nat, k: nat): nat {
    channels * k
  }

  lemma OffsetNext(channels: nat, k: nat)
    ensures Offset(channels, 0) == 0 && Offset(channels, k + 1) == Offset(channels, k) + channels
  {
  }

  /** Frame `k` of the output is frame `k` of the input, reordered. */
  ghost predicate FrameOk<T>(layout: Layout, now: seq<T>, was: seq<T>, k: nat) {
    FrameAt(layout.Order(), now, was, Offset(|layout.Order()|, k), Offset(layout.In(), k))
  }

  /** The first `n` frames are done, and nothing from `rest` on has been changed. */
  ghost predicate Done<T>(layout: Layout, now: seq<T>, was: seq<T>, n: nat, rest: nat) {
    && |now| == |was|
    && (forall k: nat | k < n :: FrameOk(layout, now, was, k))
    && (forall p | rest <= p < |was| :: now[p] == was[p])
  }

  /** One round of a loop: writes frame `k` of the output, and nothing of the input that is still needed. */
  ghost predicate Round<T>(layout: Layout, now: seq<T>, next: seq<T>, k: nat) {
    var o, i := Offset(|layout.Order()|, k), Offset(layout.In(), k);
    && |next| == |now| && o <= |now| && i + layout.In() <= |now|
    && (forall p | 0 <= p < o :: next[p] == now[p])
    && (forall p | i + layout.In() <= p < |now| :: next[p] == now[p])
    && FrameAt(layout.Order(), next, now, o, i)
  }

  lemma FrameKept<T>(order: seq<nat>, now: seq<T>, next: seq<T>, was: seq<T>, o: nat, i: nat, limit: nat)
    requires FrameAt(order, now, was, o, i) && o + |order| <= limit <= |now| && |next| == |now|
    requires forall p | 0 <= p < limit :: next[p] == now[p]
    ensures FrameAt(order, next, was, o, i)
  {
  }

  lemma FrameWritten<T>(order: seq<nat>, now: seq<T>, next: seq<T>, was: seq<T>, o: nat, i: nat)
    requires FrameAt(order, next, now, o, i) && |was| == |now|
    requires forall p | i <= p < |was| :: now[p] == was[p]
    ensures FrameAt(order, next, was, o, i)
  {
  }

  lemma Times(x: nat, j: nat, k: nat)
    requires j < k
    ensures x * j + x <= x * k
  {
    assert x * (j + 1) == x * j + x;
  }

  lemma RoundOk<T>(layout: Layout, was: seq<T>, now: seq<T>, next: seq<T>, k: nat)
    requires Done(layout, now, was, k, Offset(layout.In(), k)) && Round(layout, now, next, k)
    ensures Done(layout, next, was, k + 1, Offset(layout.In(), k) + layout.In())
  {
    hide Layout.Order, Layout.In, FrameAt;
    var order := layout.Order();
    forall j: nat | j < k + 1 ensures FrameOk(layout, next, was, j) {
      if j < k {
        assert FrameOk(layout, now, was, j);
        Times(|order|, j, k);
        FrameKept(order, now, next, was, Offset(|order|, j), Offset(layout.In(), j), Offset(|order|, k));
      } else {
        FrameWritten(order, now, next, was, Offset(|order|, k), Offset(layout.In(), k));
      }
    }
  }

  /** The sequence with four samples stored at `at`. */
  ghost function Stored<T>(s: seq<T>, at: nat, x0: T, x1: T, x2: T, x3: T): seq<T>
    requires at + 4 <= |s|
  {
    s[at := x0][at + 1 := x1][at + 2 := x2][at + 3 := x3]
  }

  method Store4<T>(a: array<T>, at: nat, x0: T, x1: T, x2: T, x3: T)
    requires at + 4 <= a.Length
    modifies a
    ensures a[..] == Stored(old(a[..]), at, x0, x1, x2, x3)
  {
    a[at], a[at + 1], a[at + 2], a[at + 3] := x0, x1, x2, x3;
  }

  /** What the body of the loop for a layout does, from the samples at `i` to those at `o`. */
  ghost function Body<T>(layout: Layout, s: seq<T>, o: nat, i: nat): (r: seq<T>)
    requires o <= i && i + layout.In() <= |s| && !layout.Mono?
    ensures |r| == |s|
  {
    match layout
    case Ch30 => Stored(s, o, s[i], s[i + 2], s[i + 1], s[i + 3])
    case Ch21 => Stored(s, o, s[i], s[i + 1], s[i + 2], s[i + 3])
    case Ch31 => s[o + 1 := s[i + 2]][o + 2 := s[i + 1]]
    case Ch32Lfe => s[o + 1 := s[i + 2]][o + 2 := s[i + 1]]
    case Ch32 =>
      var t := Stored(s, o, s[i], s[i + 2], s[i + 1], s[i + 3]);
      t[o + 4 := t[i + 4]]
    case Ch34 =>
      Stored(Stored(s, o, s[i], s[i + 2], s[i + 1], s[i + 3]), o + 4, s[i + 6], s[i + 4], s[i + 5], s[i + 7])
    case Ch34Lfe =>
      var t := Stored(s, i + 4, s[i + 7], s[i + 6], s[i + 4], s[i + 5]);
      t[i + 3 := t[i + 4]][i + 4 := t[i + 3]]
  }

  /** Layouts without a dummy channel stay where they are. */
  ghost predicate Place(layout: Layout, o: nat, i: nat) {
    if |layout.Order()| == layout.In() then o == i else o <= i
  }

  /** The body only writes from `o` to the end of the frame at `i`. */
  lemma BodyFrame<T>(layout: Layout, s: seq<T>, o: nat, i: nat)
    requires Place(layout, o, i) && i + layout.In() <= |s| && !layout.Mono?
    ensures forall p | 0 <= p < o || i + layout.In() <= p < |s| :: Body(layout, s, o, i)[p] == s[p]
  {
  }

  lemma BodyOrder<T>(layout: Layout, s: seq<T>, o: nat, i: nat)
    requires Place(layout, o, i) && i + layout.In() <= |s| && !layout.Mono?
    ensures FrameAt(layout.Order(), Body(layout, s, o, i), s, o, i)
  {
    if layout.Ch34? {
      BodyOrder34(s, o, i);
    } else if layout.Ch34Lfe? {
      BodyOrder34Lfe(s, i);
    } else {
      hide Place;
    }
  }

  lemma BodyOrder34<T>(s: seq<T>, o: nat, i: nat)
    requires o <= i && i + 8 <= |s|
    ensures FrameAt(Ch34.Order(), Body(Ch34, s, o, i), s, o, i)
  {
  }

  lemma BodyOrder34Lfe<T>(s: seq<T>, i: nat)
    requires i + 8 <= |s|
    ensures FrameAt(Ch34Lfe.Order(), Body(Ch34Lfe, s, i, i), s, i, i)
  {
  }

  method ReorderFrame<T>(a: array<T>, layout: Layout, o: nat, i: nat)
    requires Place(layout, o, i) && i + layout.In() <= a.Length && !layout.Mono?
    modifies a
    ensures a[..] == Body(layout, old(a[..]), o, i)
  {
    hide FrameAt;
    match layout
    case Ch30 =>
      Store4(a, o, a[i], a[i + 2], a[i + 1], a[i + 3]);
    case Ch21 =>
      Store4(a, o, a[i], a[i + 1], a[i + 2], a[i + 3]);
    case Ch31 =>
      a[i + 1], a[i + 2] := a[i + 2], a[i + 1];
    case Ch32Lfe =>
      a[i + 1], a[i + 2] := a[i + 2], a[i + 1];
    case Ch32 =>
      Store4(a, o, a[i], a[i + 2], a[i + 1], a[i + 3]);
      // Read after the store
      a[o + 4] := a[i + 4];
    case Ch34 =>
      // Both vectors are loaded before either is stored
      var y0, y1, y2, y3 := a[i + 6], a[i + 4], a[i + 5], a[i + 7];
      Store4(a, o, a[i], a[i + 2], a[i + 1], a[i + 3]);
      Store4(a, o + 4, y0, y1, y2, y3);
    case Ch34Lfe =>
      Store4(a, i + 4, a[i + 7], a[i + 6], a[i + 4], a[i + 5]);
      a[i + 3], a[i + 4] := a[i + 4], a[i + 3];
  }

  /** Rounds of a loop over `samples` samples in steps of `channels`. */
  ghost function Rounds(samples: nat, channels: nat): (r: nat)
    requires channels > 0
  {
    (samples + channels - 1) / channels
  }

  lemma MoreRounds(samples: nat, channels: nat, k: nat)
    requires channels > 0
    ensures Offset(channels, k) < samples <==> k < Rounds(samples, channels)
    ensures k < Rounds(samples, channels) ==>
              Offset(channels, k) + channels <= Offset(channels, Rounds(samples, channels))
  {
    var n := Rounds(samples, channels);
    assert samples + channels - 1 == channels * n + (samples + channels - 1) % channels;
    if k < n {
      Times(channels, k, n);
    } else {
      assert channels * k >= channels * n;
    }
  }

  lemma BodyRound<T>(layout: Layout, was: seq<T>, now: seq<T>, k: nat)
    requires Done(layout, now, was, k, Offset(layout.In(), k))
      && Offset(layout.In(), k) + layout.In() <= |now| && !layout.Mono?
    ensures Place(layout, Offset(|layout.Order()|, k), Offset(layout.In(), k))
    ensures Offset(|layout.Order()|, k) <= Offset(layout.In(), k)
    ensures Done(layout, Body(layout, now, Offset(|layout.Order()|, k), Offset(layout.In(), k)),
                 was, k + 1, Offset(layout.In(), k + 1))
  {
    hide FrameAt, Body, Layout.In, Layout.Order;
    var o, i := Offset(|layout.Order()|, k), Offset(layout.In(), k);
    Placed(layout, k);
    BodyFrame(layout, now, o, i);
    BodyOrder(layout, now, o, i);
    RoundOk(layout, was, now, Body(layout, now, o, i), k);
    OffsetNext(layout.In(), k);
  }

  lemma Placed(layout: Layout, k: nat)
    ensures Place(layout, Offset(|layout.Order()|, k), Offset(layout.In(), k))
    ensures Offset(|layout.Order()|, k) <= Offset(layout.In(), k)
  {
    assert |layout.Order()| <= layout.In();
  }

  /**
   * For every number of samples and each layout: frame by frame the output is the input in the documented
   * order without the dummy channel. The buffer has room for a whole last frame.
   */
  method Reorder<T>(a: array<T>, sampleNum: nat, layout: Layout)
    requires !layout.Mono? && layout.In() * Rounds(sampleNum, layout.In()) <= a.Length
    modifies a
    ensures Done(layout, a[..], old(a[..]),
                 Rounds(sampleNum, layout.In()), layout.In() * Rounds(sampleNum, layout.In()))
  {
    hide FrameAt, Body, Rounds, Done, Layout.In, Layout.Order, Offset, Place;
    ghost var n, was := Rounds(sampleNum, layout.In()), a[..];
    WholeFrames(layout, n);
    var input, output := 0, 0;
    ghost var k := 0;
    NothingDone(layout, was);
    while input < sampleNum
      invariant k <= n && input == Offset(layout.In(), k) && output == Offset(|layout.Order()|, k)
      invariant Done(layout, a[..], was, k, input)
      decreases n - k
    {
      MoreRounds(sampleNum, layout.In(), k);
      BodyRound(layout, was, a[..], k);
      ReorderFrame(a, layout, output, input);
      OffsetNext(layout.In(), k);
      OffsetNext(|layout.Order()|, k);
      input, output, k := input + layout.In(), output + |layout.Order()|, k + 1;
    }
    MoreRounds(sampleNum, layout.In(), k);
  }

  lemma WholeFrames(layout: Layout, n: nat)
    ensures Offset(layout.In(), n) == layout.In() * n && layout.In() > 0
  {
  }

  lemma NothingDone<T>(layout: Layout, s: seq<T>)
    ensures Done(layout, s, s, 0, 0) && Offset(layout.In(), 0) == Offset(|layout.Order()|, 0) == 0
  {
  }

  lemma MonoFrame<T>(now: seq<T>, was: seq<T>, k: nat)
    ensures FrameOk(Mono, now, was, k) <==> k < |now| && 2 * k < |was| && now[k] == was[2 * k]
  {
    if FrameOk(Mono, now, was, k) {
      assert k + 0 < |now| && 2 * k + Mono.Order()[0] < |was| && now[k + 0] == was[2 * k + Mono.Order()[0]];
    }
  }

  /** Frames `i` to `i + 3` of a mono stream, each of one sample and one that is padding. */
  lemma MonoRound<T>(was: seq<T>, now: seq<T>, i: nat)
    requires Done(Mono, now, was, i, 2 * i) && 2 * i + 8 <= |now|
    ensures Done(Mono, Stored(now, i, now[2 * i], now[2 * i + 2], now[2 * i + 4], now[2 * i + 6]),
                 was, i + 4, 2 * i + 8)
  {
    hide FrameOk;
    var next := Stored(now, i, now[2 * i], now[2 * i + 2], now[2 * i + 4], now[2 * i + 6]);
    forall k: nat | k < i + 4 ensures FrameOk(Mono, next, was, k) {
      MonoFrame(next, was, k);
      if k < i {
        assert FrameOk(Mono, now, was, k);
        MonoFrame(now, was, k);
      } else {
        assert next[k] == now[2 * k];
      }
    }
  }

  /** Every other sample is padding. */
  method ReorderMono<T>(a: array<T>, sampleNum: nat)
    requires 8 * Rounds(sampleNum / 2, 4) <= a.Length
    modifies a
    ensures Done(Mono, a[..], old(a[..]), sampleNum / 2, 8 * Rounds(sampleNum / 2, 4))
  {
    hide Stored, FrameOk;
    var i := 0;
    while i < sampleNum / 2
      invariant i % 4 == 0 && 2 * i <= 8 * Rounds(sampleNum / 2, 4)
      invariant Done(Mono, a[..], old(a[..]), i, 2 * i)
    {
      MonoRound(old(a[..]), a[..], i);
      Store4(a, i, a[2 * i], a[2 * i + 2], a[2 * i + 4], a[2 * i + 6]);
      i := i + 4;
    }
  }
}
