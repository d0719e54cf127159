/**
 * What the parsers deliver for a whole stream, however it is cut into packets: AVC access units are
 * the pieces between delimiters, audio access units are the frames that were put in.
 */
module Framing {
  import opened Bytes
  import opened Parsers
  import opened Packets
  import opened Tracking

  predicate DelimiterAt(s: seq<byte>, n: nat) {
    n + 4 <= |s| && Sync(Avc, s[n..n + 4])
  }

  /** Where the units start, and what follows them. */
  ghost function Starts(units: seq<seq<byte>>): set<nat> {
    set j: nat | j <= |units| :: |Flatten(units[..j])|
  }

  lemma StartsSnoc(units: seq<seq<byte>>, last: seq<byte>)
    ensures Starts(units + [last]) == Starts(units) + {|Flatten(units + [last])|}
    ensures |Flatten(units)| in Starts(units) && 0 in Starts(units)
    ensures forall m | m in Starts(units) :: m <= |Flatten(units)|
  {
    var all := units + [last];
    assert all[..|all|] == all && units[..|units|] == units && units[..0] == [];
    forall j: nat | j <= |units| ensures all[..j] == units[..j] {}
    forall j: nat | j <= |units| ensures |Flatten(units[..j])| <= |Flatten(units)| {
      assert units == units[..j] + units[j..];
      FlattenConcat(units[..j], units[j..]);
    }
    forall m | m in Starts(units) ensures m in Starts(all) {
      var j: nat :| j <= |units| && m == |Flatten(units[..j])|;
      assert m == |Flatten(all[..j])|;
    }
    forall m | m in Starts(all) ensures m in Starts(units) + {|Flatten(all)|} {
      var j: nat :| j <= |all| && m == |Flatten(all[..j])|;
      if j <= |units| {
        assert m == |Flatten(units[..j])|;
      }
    }
  }

  /** The stream cut exactly at its delimiters: it starts with one, and so does every unit and the rest. */
  ghost predicate IsSplit(s: seq<byte>, units: seq<seq<byte>>, rest: seq<byte>) {
    && Flatten(units) + rest == s
    && (forall i | 0 <= i < |units| :: units[i] != [])
    && forall m: nat :: m in Starts(units) <==> DelimiterAt(s, m)
  }

  /** Where packet k starts. */
  function Off(packets: seq<seq<byte>>, k: nat): nat
    requires k <= |packets|
  {
    |Flatten(packets[..k])|
  }

  /** How many bytes are kept when packet k comes in. */
  function Kept(packets: seq<seq<byte>>, k: nat): nat
    requires k <= |packets|
  {
    if k == 0 then 0 else if |packets[k - 1]| < 3 then |packets[k - 1]| else 3
  }

  ghost predicate NonEmpty(packets: seq<seq<byte>>) {
    forall i | 0 <= i < |packets| :: packets[i] != []
  }

  /** Four bytes from n on lie in packet k, or in packet k and the one before it. */
  predicate Within(packets: seq<seq<byte>>, k: nat, n: nat)
    requires k < |packets|
  {
    (k == 0 || Off(packets, k - 1) <= n) && n + 4 <= Off(packets, k + 1)
  }

  /** The delimiter at n lies in one packet or in two consecutive ones. */
  ghost predicate Seen(packets: seq<seq<byte>>, n: nat) {
    DelimiterAt(Flatten(packets), n) && exists k: nat | k < |packets| :: Within(packets, k, n)
  }

  lemma OffStep(packets: seq<seq<byte>>, k: nat)
    requires k < |packets|
    ensures Off(packets, k + 1) == Off(packets, k) + |packets[k]|
    ensures Flatten(packets[..k + 1]) == Flatten(packets[..k]) + packets[k]
  {
    assert packets[..k + 1] == packets[..k] + [packets[k]];
    FlattenSnoc(packets[..k], packets[k]);
  }

  lemma {:induction false} OffMono(packets: seq<seq<byte>>, i: nat, j: nat)
    requires i <= j <= |packets|
    ensures Flatten(packets[..i]) <= Flatten(packets[..j])
    ensures Off(packets, i) <= Off(packets, j)
    decreases j - i
  {
    if i < j {
      OffMono(packets, i, j - 1);
      OffStep(packets, j - 1);
    }
  }

  /** A delimiter that is looked for while packet k is processed is found exactly if it is seen. */
  lemma {:induction false} SeenAtPacket(packets: seq<seq<byte>>, k: nat, n: nat)
    requires NonEmpty(packets) && k < |packets|
    requires Off(packets, k) - Kept(packets, k) <= n < Off(packets, k + 1) - Kept(packets, k + 1)
    ensures Seen(packets, n) <==> n + 4 <= Off(packets, k + 1) && DelimiterAt(Flatten(packets), n)
  {
    hide Off, DelimiterAt, Flatten;
    OffStep(packets, k);
    if k > 0 {
      OffStep(packets, k - 1);
    }
    if Seen(packets, n) {
      var k': nat :| k' < |packets| && Within(packets, k', n);
      if k' <= k {
        OffMono(packets, k' + 1, k + 1);
      } else if k' > k + 1 {
        OffMono(packets, k + 1, k' - 1);
      }
    }
    if n + 4 <= Off(packets, k + 1) {
      assert Within(packets, k, n);
    }
  }

  /** The automaton has walked over the first n bytes and cut them at the delimiters it saw. */
  ghost predicate AvcInv(packets: seq<seq<byte>>, t: Track, n: nat) {
    && n <= |Flatten(packets)|
    && !t.broken && t.offset == 0
    && Flatten(t.done) + t.cur == Flatten(packets)[..n]
    && NonEmpty(t.done)
    && if n == 0 then !t.inAu && t.done == [] else
         t.inAu && t.cur != [] && forall m: nat :: m in Starts(t.done) <==> m < n && Seen(packets, m)
  }

  lemma AvcInvStep(packets: seq<seq<byte>>, t: Track, n: nat, window: seq<byte>, kept: bool)
    requires AvcInv(packets, t, n) && n < |Flatten(packets)|
    requires window != [] && window[0] == Flatten(packets)[n]
    requires Sync(Avc, window) <==> Seen(packets, n)
    requires n == 0 ==> Seen(packets, 0)
    ensures AvcInv(packets, Step(Avc, t, window, kept), n + 1)
  {
    hide Sync, AuSize, Seen, Starts, Flatten;
    var s, b := Flatten(packets), window[0];
    assert s[..n + 1] == s[..n] + [b];
    StartsSnoc(t.done, t.cur);
    FlattenSnoc(t.done, t.cur);
    ConcatAssoc(Flatten(t.done), t.cur, [b]);
    if n == 0 {
      StartsOfNone();
    }
  }

  lemma StartsOfNone()
    ensures Starts([]) == {0} && Flatten<byte>([]) == []
  {
    assert 0 in Starts([]) by {
      var none: seq<seq<byte>> := [];
      assert |none[..0]| == 0;
    }
  }

  lemma {:induction false} AvcWalk(packets: seq<seq<byte>>, t: Track, w: seq<byte>, kept: nat, h: nat, i: nat, hi: nat)
    requires i <= hi <= |w| && h + |w| <= |Flatten(packets)|
    requires AvcInv(packets, t, h + i)
    requires forall j: nat | j < hi ::
      w[j] == Flatten(packets)[h + j] && (Sync(Avc, Window(w, j)) <==> Seen(packets, h + j))
    requires h == 0 && i == 0 < hi ==> Seen(packets, 0)
    ensures AvcInv(packets, Walk(Avc, t, w, kept, i, hi), h + hi)
    decreases hi - i
  {
    hide Step, Window, Sync, Seen, AvcInv, Flatten;
    if i < hi {
      AvcInvStep(packets, t, h + i, Window(w, i), i < kept);
      AvcWalk(packets, Step(Avc, t, Window(w, i), i < kept), w, kept, h, i + 1, hi);
    }
  }

  /** What is looked at while packet k is processed shows exactly the delimiters that are seen. */
  lemma WindowShowsSeen(packets: seq<seq<byte>>, k: nat, h: nat, w: seq<byte>, j: nat)
    requires NonEmpty(packets) && k < |packets|
    requires h + Kept(packets, k) == Off(packets, k) && h + j < Off(packets, k + 1) - Kept(packets, k + 1)
    requires w == Flatten(packets[..k + 1])[h..]
    ensures h + |w| <= |Flatten(packets)| && w[j] == Flatten(packets)[h + j]
    ensures Sync(Avc, Window(w, j)) <==> Seen(packets, h + j)
  {
    hide Flatten, Window, Sync, DelimiterAt;
    OffMono(packets, k + 1, |packets|);
    assert packets[..|packets|] == packets;
    SeenAtPacket(packets, k, h + j);
    WindowInPrefix(Flatten(packets[..k + 1]), Flatten(packets), h, j);
  }

  lemma WindowInPrefix(prefix: seq<byte>, s: seq<byte>, h: nat, j: nat)
    requires prefix <= s && h + j < |prefix|
    ensures prefix[h..][j] == s[h + j]
    ensures Sync(Avc, Window(prefix[h..], j)) <==> h + j + 4 <= |prefix| && DelimiterAt(s, h + j)
  {
    var w := prefix[h..];
    if j + 4 <= |w| {
      assert forall i | 0 <= i < |prefix| :: prefix[i] == s[i];
      assert Window(w, j) == s[h + j..h + j + 4];
    } else {
      assert |Window(w, j)| < 4;
    }
  }

  /** The state after the packets before packet k. */
  ghost predicate AvcUpTo(packets: seq<seq<byte>>, k: nat, es: Es)
    requires k <= |packets|
  {
    var h := Off(packets, k) - Kept(packets, k);
    h >= 0 && es.Ok(Avc) && es.restarts == 0 && AvcInv(packets, TrackOf(es), h)
    && es.cache == From(Flatten(packets[..k]), h)
  }

  lemma {:induction false} AvcNothing(packets: seq<seq<byte>>)
    requires NonEmpty(packets) && Seen(packets, 0)
    ensures AvcUpTo(packets, 0, EMPTY)
  {
    hide Seen;
    StartsOfNone();
  }

  lemma {:induction false} AvcPackets(packets: seq<seq<byte>>, k: nat)
    requires NonEmpty(packets) && Seen(packets, 0) && k <= |packets|
    ensures AvcUpTo(packets, k, RunAll(Avc, packets[..k]))
    decreases k
  {
    hide Run, RunAll, Seen, AvcUpTo;
    RunAllSteps(Avc, packets, k);
    if k == 0 {
      AvcNothing(packets);
    } else {
      AvcPackets(packets, k - 1);
      AvcPacket(packets, k - 1, RunAll(Avc, packets[..k - 1]));
    }
  }

  /** The walk for packet k cuts at what is seen. */
  lemma AvcOneWalk(packets: seq<seq<byte>>, k: nat, es: Es, h: nat)
    requires NonEmpty(packets) && Seen(packets, 0) && k < |packets| && AvcUpTo(packets, k, es)
    requires h == Off(packets, k) - Kept(packets, k)
    ensures var p := packets[k];
      var limit := es.Start(p).Limit();
      && h + limit == Off(packets, k + 1) - Kept(packets, k + 1)
      && From(es.cache + p, limit) == From(Flatten(packets[..k + 1]), h + limit)
      && AvcInv(packets, WalkPacket(Avc, es, p), h + limit)
  {
    hide Walk, Seen, Window, Sync, Flatten, AvcInv;
    OffStep(packets, k);
    var p, s := packets[k], Flatten(packets[..k + 1]);
    var w, limit := es.cache + p, es.Start(p).Limit();
    DropAcross(Flatten(packets[..k]), p, h);
    assert w == s[h..];
    WholeFlatten(packets, k + 1);
    forall j: nat | j < limit
      ensures w[j] == Flatten(packets)[h + j] && (Sync(Avc, Window(w, j)) <==> Seen(packets, h + j))
    {
      WindowShowsSeen(packets, k, h, w, j);
    }
    AvcWalk(packets, TrackOf(es), w, |es.cache|, h, 0, limit);
    DropDrop(s, h, h + limit);
  }

  /** One more packet. */
  lemma AvcPacket(packets: seq<seq<byte>>, k: nat, es: Es)
    requires NonEmpty(packets) && Seen(packets, 0) && k < |packets| && AvcUpTo(packets, k, es)
    ensures AvcUpTo(packets, k + 1, Run(Avc, packets[k], packets[k], es))
  {
    hide Run, WalkPacket, Seen, Flatten, Starts, From;
    AvcOneWalk(packets, k, es, Off(packets, k) - Kept(packets, k));
    RunMatches(Avc, packets[k], es);
  }

  /** A packet that is not jumped in, in terms of the state it leaves. */
  lemma {:induction false} RunMatches(codec: Codec, p: seq<byte>, es: Es)
    requires es.Ok(codec) && es.au.state != OutOfSection && p != [] && !WalkPacket(codec, es, p).broken
    requires Lacks(codec, WalkPacket(codec, es, p), p) == 0
    ensures var r, t := Run(codec, p, p, es), WalkPacket(codec, es, p);
      && r.cache == From(es.cache + p, es.Start(p).Limit())
      && r.Ok(codec) && r.au.state != SizeMismatch && r.au.state != OutOfSection && r.restarts == es.restarts
      && r.done == t.done && (r.au.state != NoAu <==> t.inAu)
      && (t.inAu ==> TrackOf(r) == t) && (!t.inAu ==> TrackOf(r) == Track(t.done, false, [], 0, 0, false))
  {
    hide Run, WalkPacket, Lacks, From, Slice;
    RunTracks(codec, p, p, es);
    NoSlice(WalkPacket(codec, es, p).cur, es.cache + p, es.Start(p).Limit());
  }

  lemma WholeFlatten(packets: seq<seq<byte>>, k: nat)
    requires k <= |packets|
    ensures Off(packets, k) <= |Flatten(packets)|
  {
    OffMono(packets, k, |packets|);
    assert packets[..|packets|] == packets;
  }

  // A first delimiter that is not found

  /** All bytes that a stream has put out or kept. */
  ghost function Holding(es: Es): nat {
    |Flatten(es.done)| + |es.cur| + |es.cache|
  }

  lemma {:induction false} RunBytes(packet: seq<byte>, stream: seq<byte>, es: Es)
    requires |stream| <= |packet| && es.Ok(Avc)
    ensures Holding(Run(Avc, packet, stream, es)) <= Holding(es) + |stream|
    decreases |es.cache| + |stream|, if es.au.state == NoAu then 0 else 1
  {
    hide Scan, Run, Slice, Flatten;
    if stream == [] {
      RunNothing(packet, es);
    } else {
      var k := Scan(Avc, es.Start(stream));
      ScanFacts(Avc, es.Start(stream));
      NoJump(Avc, k);
      if k.au.state == Complete {
        RunComplete(Avc, packet, stream, es, k);
        FlattenSnoc(es.done, es.cur + k.Chunk());
        RunBytes(packet, stream[k.streamIt..], Restart(es, k));
      } else {
        RunOpen(Avc, packet, stream, es, k);
        if k.au.state == NoAu { NoAuNoBytes(Run(Avc, packet, stream, es)); }
      }
    }
  }

  lemma {:induction false} RunNothing(packet: seq<byte>, es: Es)
    requires es.Ok(Avc)
    ensures Run(Avc, packet, [], es) == es
  {
  }

  lemma NoAuNoBytes(es: Es)
    requires es.Ok(Avc) && es.au.state == NoAu
    ensures es.cur == []
  {
  }

  /** With fewer than four bytes at hand no delimiter is found. */
  lemma {:induction false} ScanQuiet(k: Cursor)
    requires k.Ok() && k.au == NO_AU && |k.cache + k.stream| < 4
    ensures Scan(Avc, k).au == NO_AU
    decreases |k.cache + k.stream| - k.Pos()
  {
    if !k.AtEnd() {
      ScanQuiet(Advance(Avc, k));
    }
  }

  /** Then the bytes kept before are given up. */
  lemma {:induction false} Unseen(p: seq<byte>, es: Es)
    requires es.Ok(Avc) && es.au == NO_AU && p != [] && |es.cache| + |p| < 4
    ensures var r := Run(Avc, p, p, es); r.Ok(Avc) && r.au == NO_AU && r.cache == p && r.done == es.done
  {
    hide Scan, Run;
    var k := Scan(Avc, es.Start(p));
    ScanQuiet(es.Start(p));
    ScanShort(Avc, es.Start(p));
    NoJump(Avc, k);
    RunOpen(Avc, p, p, es, k);
  }

  /** If the first delimiter is spread over three packets, the first packet is given up. */
  lemma {:induction false} FirstPacketLost(packets: seq<seq<byte>>, n: nat)
    requires NonEmpty(packets) && DelimiterAt(Flatten(packets), 0) && !Seen(packets, 0) && 2 <= n <= |packets|
    ensures Holding(RunAll(Avc, packets[..n])) + |packets[0]| <= Off(packets, n)
    decreases n
  {
    hide Run, RunAll, Flatten;
    RunAllSteps(Avc, packets, n);
    OffStep(packets, n - 1);
    if n == 2 {
      FewBytes(packets);
      RunAllSteps(Avc, packets, 1);
      RunAllSteps(Avc, packets, 0);
      Unseen(packets[0], EMPTY);
      Unseen(packets[1], RunAll(Avc, packets[..1]));
      NoAuNoBytes(RunAll(Avc, packets[..2]));
      NoUnits();
    } else {
      FirstPacketLost(packets, n - 1);
      RunBytes(packets[n - 1], packets[n - 1], RunAll(Avc, packets[..n - 1]));
    }
  }

  lemma NoUnits()
    ensures Flatten<byte>([]) == []
  {
  }

  lemma FewBytes(packets: seq<seq<byte>>)
    requires NonEmpty(packets) && DelimiterAt(Flatten(packets), 0) && !Seen(packets, 0)
    ensures |packets| >= 2 && |packets[0]| + |packets[1]| < 4 && Off(packets, 2) == |packets[0]| + |packets[1]|
  {
    assert packets[..0] == [] && packets[..|packets|] == packets;
    assert packets != [] by { NoUnits(); }
    OffStep(packets, 0);
    assert !Within(packets, 0, 0);
    if |packets| >= 2 {
      OffStep(packets, 1);
      assert !Within(packets, 1, 0);
    }
  }

  /**
   * For every cut of a stream into packets: the access units and the pending bytes are the stream,
   * cut exactly at the delimiters that lie within two consecutive packets, unless the first one does not.
   * Then bytes are lost.
   */
  lemma {:induction false} AvcSplitsAtSeen(packets: seq<seq<byte>>)
    requires NonEmpty(packets) && DelimiterAt(Flatten(packets), 0)
    ensures var es := RunAll(Avc, packets);
      if Seen(packets, 0) then
        && es.restarts == 0 && Flatten(es.done) + (es.cur + es.cache) == Flatten(packets)
        && NonEmpty(es.done)
        && forall m: nat :: m in Starts(es.done) <==> Seen(packets, m)
      else |Flatten(es.done) + (es.cur + es.cache)| < |Flatten(packets)|
  {
    hide Starts, RunAll, Within, Sync, From;
    var es, n := RunAll(Avc, packets), |packets|;
    assert packets[..n] == packets;
    if Seen(packets, 0) {
      AvcPackets(packets, n);
      var s, h := Flatten(packets), Off(packets, n) - Kept(packets, n);
      JoinFrom(s, h);
      ConcatAssoc(Flatten(es.done), es.cur, es.cache);
    } else {
      FewBytes(packets);
      FirstPacketLost(packets, n);
    }
  }

  lemma JoinFrom(s: seq<byte>, n: nat)
    requires n <= |s|
    ensures s[..n] + From(s, n) == s
  {
  }

  /** No delimiter is spread over more than two packets. */
  ghost predicate NoneHidden(packets: seq<seq<byte>>) {
    forall m: nat | DelimiterAt(Flatten(packets), m) :: exists k: nat | k < |packets| :: Within(packets, k, m)
  }

  /** So the units are right exactly if no delimiter is spread over more than two packets. */
  lemma {:induction false} AvcSplitExact(packets: seq<seq<byte>>)
    requires NonEmpty(packets) && DelimiterAt(Flatten(packets), 0)
    ensures var es := RunAll(Avc, packets);
      IsSplit(Flatten(packets), es.done, es.cur + es.cache) <==> NoneHidden(packets)
  {
    hide Starts, RunAll, Within, DelimiterAt, Flatten;
    AvcSplitsAtSeen(packets);
    var s, es := Flatten(packets), RunAll(Avc, packets);
    if IsSplit(s, es.done, es.cur + es.cache) {
      forall m: nat | DelimiterAt(s, m) ensures exists k: nat | k < |packets| :: Within(packets, k, m) {
        assert m in Starts(es.done);
        assert Seen(packets, m);
      }
    }
    if forall m: nat | DelimiterAt(s, m) :: exists k: nat | k < |packets| :: Within(packets, k, m) {
      forall m: nat ensures m in Starts(es.done) <==> DelimiterAt(s, m) {
        assert m in Starts(es.done) <==> Seen(packets, m);
      }
    }
  }

  lemma LongPacketsHideNone(packets: seq<seq<byte>>)
    requires forall i | 0 <= i < |packets| :: |packets[i]| >= 3
    ensures NoneHidden(packets)
  {
    hide Sync;
    forall m: nat | DelimiterAt(Flatten(packets), m) ensures exists k: nat | k < |packets| :: Within(packets, k, m) {
      var k := PacketOf(packets, m);
      assert Within(packets, k, m);
    }
  }

  /** Packets of at least three bytes hide no delimiter: the result does not depend on the cut. */
  lemma AvcIndependentOfPackets(packets: seq<seq<byte>>)
    requires forall i | 0 <= i < |packets| :: |packets[i]| >= 3
    requires DelimiterAt(Flatten(packets), 0)
    ensures var es := RunAll(Avc, packets);
      IsSplit(Flatten(packets), es.done, es.cur + es.cache) && es.restarts == 0
  {
    LongPacketsHideNone(packets);
    NoRestarts(packets);
  }

  lemma {:induction false} NoRestarts(packets: seq<seq<byte>>)
    requires NonEmpty(packets) && DelimiterAt(Flatten(packets), 0) && NoneHidden(packets)
    ensures var es := RunAll(Avc, packets);
      IsSplit(Flatten(packets), es.done, es.cur + es.cache) && es.restarts == 0
  {
    hide RunAll, IsSplit, Sync, Within, Flatten;
    AvcSplitExact(packets);
    AvcSplitsAtSeen(packets);
  }

  /** The packet at which a delimiter becomes visible. */
  lemma {:induction false} PacketOf(packets: seq<seq<byte>>, m: nat) returns (k: nat)
    requires forall i | 0 <= i < |packets| :: |packets[i]| >= 3
    requires m + 4 <= |Flatten(packets)|
    ensures k < |packets| && Within(packets, k, m)
  {
    assert packets[..|packets|] == packets && packets[..0] == [];
    k := 0;
    while Off(packets, k + 1) < m + 4
      invariant k < |packets| && (k == 0 || Off(packets, k) < m + 4)
      decreases |packets| - k
    {
      k := k + 1;
    }
    if k > 0 {
      OffStep(packets, k - 1);
    }
  }

  /** A delimiter spread over three packets is not found. */
  lemma HiddenDelimiter()
    ensures var packets: seq<seq<byte>> := [[0, 0, 1, 9, 0], [0], [1, 9]];
      && NonEmpty(packets) && DelimiterAt(Flatten(packets), 0) && DelimiterAt(Flatten(packets), 4) && !Seen(packets, 4)
      && var es := RunAll(Avc, packets); !IsSplit(Flatten(packets), es.done, es.cur + es.cache)
  {
    hide RunAll, IsSplit;
    var packets: seq<seq<byte>> := [[0, 0, 1, 9, 0], [0], [1, 9]];
    assert packets[..0] == [] && packets[..1] == [packets[0]]
        && packets[..2] == [packets[0], packets[1]] && packets[..3] == packets;
    OffStep(packets, 0);
    OffStep(packets, 1);
    OffStep(packets, 2);
    assert Flatten(packets) == [0, 0, 1, 9, 0, 0, 1, 9];
    AvcSplitExact(packets);
  }

  /** There is only one way to cut a stream at its delimiters. */
  lemma {:induction false} SplitUnique(s: seq<byte>, a: seq<seq<byte>>, r: seq<byte>, b: seq<seq<byte>>, q: seq<byte>)
    requires IsSplit(s, a, r) && IsSplit(s, b, q)
    ensures a == b && r == q
    decreases |a|
  {
    if a == [] || b == [] {
      StartsOfNone();
      if a != [] {
        FirstCut(s, a, r);
        assert false;
      }
      if b != [] {
        FirstCut(s, b, q);
        assert false;
      }
      assert [] + r == r && [] + q == q;
    } else {
      FirstCut(s, a, r);
      FirstCut(s, b, q);
      assert |a[0]| == |b[0]|;
      assert a[0] == s[..|a[0]|] == b[0];
      SplitUnique(s[|a[0]|..], a[1..], r, b[1..], q);
    }
  }

  /** The first unit ends at the first delimiter behind the start; the rest is cut like the whole. */
  lemma FirstCut(s: seq<byte>, a: seq<seq<byte>>, r: seq<byte>)
    requires IsSplit(s, a, r) && a != []
    ensures 0 < |a[0]| <= |s| && a[0] == s[..|a[0]|] && DelimiterAt(s, |a[0]|)
    ensures |a[0]| in Starts(a) && forall m: nat | 0 < m < |a[0]| :: !DelimiterAt(s, m)
    ensures IsSplit(s[|a[0]|..], a[1..], r)
  {
    hide DelimiterAt, Starts;
    var n := |a[0]|;
    StartsCons(a);
    StartsSnoc(a[1..], []);
    assert n in Starts(a);
    ConcatAssoc(a[0], Flatten(a[1..]), r);
    DropPrefix(a[0], Flatten(a[1..]) + r);
    forall m: nat ensures m in Starts(a[1..]) <==> DelimiterAt(s[n..], m) {
      assert m in Starts(a[1..]) <==> n + m in Starts(a);
      DelimiterShift(s, n, m);
    }
  }

  lemma DropPrefix(a: seq<byte>, b: seq<byte>)
    ensures (a + b)[..|a|] == a && (a + b)[|a|..] == b
  {
  }

  lemma DelimiterShift(s: seq<byte>, n: nat, m: nat)
    requires n <= |s|
    ensures DelimiterAt(s[n..], m) <==> DelimiterAt(s, n + m)
  {
    if n + m + 4 <= |s| {
      assert s[n..][m..m + 4] == s[n + m..n + m + 4];
    }
  }

  lemma StartsCons(a: seq<seq<byte>>)
    requires a != []
    ensures forall m: nat :: m in Starts(a) <==> m == 0 || (m >= |a[0]| && m - |a[0]| in Starts(a[1..]))
  {
    forall j: nat | j < |a| ensures |Flatten(a[..j + 1])| == |a[0]| + |Flatten(a[1..][..j])| {
      assert a[..j + 1][1..] == a[1..][..j];
    }
    forall m: nat ensures m in Starts(a) <==> m == 0 || (m >= |a[0]| && m - |a[0]| in Starts(a[1..])) {
      StartsSnoc(a, []);
      if m in Starts(a) {
        var j: nat :| j <= |a| && m == |Flatten(a[..j])|;
        if j > 0 {
          assert m - |a[0]| == |Flatten(a[1..][..j - 1])|;
        }
      }
      if m >= |a[0]| && m - |a[0]| in Starts(a[1..]) {
        var j: nat :| j <= |a[1..]| && m - |a[0]| == |Flatten(a[1..][..j])|;
        assert m == |Flatten(a[..j + 1])|;
      }
    }
  }
}
