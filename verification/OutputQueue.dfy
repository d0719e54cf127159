/**
 * The access-unit byte ring of the PAMF demuxer.
 *
 * Pointers are indices into `buffer`; `wrapPos == 0` means that the back pointer has not wrapped
 * around. The ring itself only knows which bytes are in use. What it stands for is a FIFO of whole
 * access units, followed by the prefix of the one that is being cut out of the stream. `Ring` is
 * that reading of the pointers and bytes; the class keeps one up to date beside its fields.
 */
module OutputQueues {
  import opened Bytes

  datatype PushResult = Pushed | Full | TooLarge

  // Slack that a push keeps below the front pointer while the queue is wrapped
  const PUSH_SLACK: nat := 0x10

  /** A whole access unit and the address it is stored at. */
  datatype Unit = Unit(addr: nat, bytes: seq<byte>) {
    function End(): nat { addr + |bytes| }
  }

  /** The units cover [lo, hi) of the buffer contents s without gaps, in order. */
  ghost predicate Tiles(s: seq<byte>, units: seq<Unit>, lo: nat, hi: nat)
    decreases |units|
  {
    if units == [] then
      lo == hi <= |s|
    else
      && units[0].addr == lo < units[0].End() <= hi <= |s|
      && s[lo..units[0].End()] == units[0].bytes
      && Tiles(s, units[1..], units[0].End(), hi)
  }

  /** A prefix of the units covers the buffer up to the unit behind it. */
  lemma {:induction false} TilesTake(s: seq<byte>, units: seq<Unit>, lo: nat, hi: nat, n: nat)
    requires Tiles(s, units, lo, hi) && n < |units|
    ensures lo <= units[n].addr < units[n].End() <= hi <= |s|
    ensures s[units[n].addr..units[n].End()] == units[n].bytes
    ensures Tiles(s, units[..n], lo, units[n].addr)
    ensures n > 0 ==> lo < units[n].addr
    ensures n == |units| - 1 ==> units[n].End() == hi
    decreases n
  {
    if n > 0 {
      TilesTake(s, units[1..], units[0].End(), hi, n - 1);
      assert units[..n][1..] == units[1..][..n - 1];
    }
  }

  lemma {:induction false} TilesSnoc(s: seq<byte>, units: seq<Unit>, lo: nat, hi: nat, bytes: seq<byte>)
    requires Tiles(s, units, lo, hi) && bytes != [] && hi + |bytes| <= |s| && s[hi..hi + |bytes|] == bytes
    ensures Tiles(s, units + [Unit(hi, bytes)], lo, hi + |bytes|)
    decreases |units|
  {
    var all := units + [Unit(hi, bytes)];
    if units == [] {
      assert Tiles(s, all[1..], hi + |bytes|, hi + |bytes|);
    } else {
      TilesSnoc(s, units[1..], units[0].End(), hi, bytes);
      assert all[1..] == units[1..] + [Unit(hi, bytes)];
    }
  }

  /** Only the bytes of the covered region matter. */
  lemma {:induction false} TilesFrame(s: seq<byte>, t: seq<byte>, units: seq<Unit>, lo: nat, hi: nat)
    requires Tiles(s, units, lo, hi) && |s| == |t|
    requires forall i | lo <= i < hi :: s[i] == t[i]
    ensures Tiles(t, units, lo, hi)
    decreases |units|
  {
    if units != [] {
      assert t[lo..units[0].End()] == s[lo..units[0].End()];
      TilesFrame(s, t, units[1..], units[0].End(), hi);
    }
  }

  ghost function Contents(units: seq<Unit>): (r: seq<byte>) {
    if units == [] then [] else units[0].bytes + Contents(units[1..])
  }

  lemma {:induction false} TiledContents(s: seq<byte>, units: seq<Unit>, lo: nat, hi: nat)
    requires Tiles(s, units, lo, hi)
    ensures lo <= hi <= |s|
    ensures s[lo..hi] == Contents(units)
    decreases |units|
  {
    if units != [] {
      var mid := units[0].End();
      TiledContents(s, units[1..], mid, hi);
      assert s[lo..hi] == s[lo..mid] + s[mid..hi];
    }
  }

  lemma {:induction false} ContentsConcat(a: seq<Unit>, b: seq<Unit>)
    ensures Contents(a + b) == Contents(a) + Contents(b)
  {
    if a == [] {
      assert a + b == b;
    } else {
      assert (a + b)[0] == a[0] && (a + b)[1..] == a[1..] + b;
      ContentsConcat(a[1..], b);
      ConcatAssoc(a[0].bytes, Contents(a[1..]), Contents(b));
    }
  }

  function Splice(s: seq<byte>, at: nat, bytes: seq<byte>): (t: seq<byte>)
    requires at + |bytes| <= |s|
  {
    s[..at] + bytes + s[at + |bytes|..]
  }

  lemma SpliceTwice(s: seq<byte>, at: nat, a: seq<byte>, b: seq<byte>)
    requires at + |a| + |b| <= |s|
    ensures Splice(Splice(s, at, a), at + |a|, b) == Splice(s, at, a + b)
  {
    assert Splice(s, at, a)[..at + |a|] == s[..at] + a;
    assert Splice(s, at, a)[at + |a| + |b|..] == s[at + |a| + |b|..];
  }

  /**
   * The bytes and pointers of an output queue, read as a FIFO: `older` are the complete access
   * units from the front pointer on, `newer` those stored from the buffer start on while wrapped,
   * `partial` the bytes of the unit that is still being pushed.
   */
  datatype Ring = Ring(mem: seq<byte>, front: nat, back: nat, wrapPos: nat,
                       older: seq<Unit>, newer: seq<Unit>, partial: seq<byte>)
  {
    ghost predicate Ok() {
      && |partial| <= back <= |mem|
      && mem[Start()..back] == partial
      && if wrapPos == 0 then
           newer == [] && Tiles(mem, older, front, Start())
         else
           && front < wrapPos
           && (back == 0 || back < front)
           && Tiles(mem, older, front, wrapPos)
           && Tiles(mem, newer, 0, Start())
    }

    lemma PartialFits()
      requires Ok()
      ensures |partial| <= back <= |mem|
    {
    }

    /** Where the unfinished access unit starts. */
    ghost function Start(): nat
      requires |partial| <= back
    {
      back - |partial|
    }

    /** The queued access units, oldest first. */
    ghost function Units(): (units: seq<Unit>) {
      older + newer
    }

    ghost function Free(): int {
      if wrapPos == 0 then |mem| - back else front - back - PUSH_SLACK
    }

    /** The chunk behind the bytes of the unfinished unit. */
    ghost function Push(chunk: seq<byte>): Ring {
      if back + |chunk| > |mem| then this
      else this.(mem := Splice(mem, back, chunk), back := back + |chunk|, partial := partial + chunk)
    }

    /** A push that fits writes over no queued byte: all units stay where they are. */
    lemma PushOk(chunk: seq<byte>)
      requires Ok() && |chunk| <= Free()
      ensures back + |chunk| <= |mem| && Push(chunk).Ok()
    {
      if wrapPos != 0 {
        TiledContents(mem, older, front, wrapPos);
      }
      var t := Splice(mem, back, chunk);
      assert t[Start()..back + |chunk|] == mem[Start()..back] + chunk;
      if wrapPos == 0 {
        TilesFrame(mem, t, older, front, Start());
      } else {
        TilesFrame(mem, t, older, front, wrapPos);
        TilesFrame(mem, t, newer, 0, Start());
      }
    }

    /** The unfinished unit without its last bytes. */
    ghost function Trim(size: nat): Ring
      requires size <= |partial| && size <= back
    {
      this.(back := back - size, partial := partial[..|partial| - size])
    }

    lemma TrimOk(size: nat)
      requires Ok() && size <= |partial|
      ensures Trim(size).Ok()
    {
      var n := |partial| - size;
      assert mem[Start()..back][..n] == mem[Start()..back - size];
    }

    /** The unfinished access unit becomes an entry of the FIFO. */
    ghost function Seal(): Ring
      requires |partial| <= back
    {
      if wrapPos == 0 then this.(older := older + [Unit(Start(), partial)], partial := [])
      else this.(newer := newer + [Unit(Start(), partial)], partial := [])
    }

    lemma SealOk()
      requires Ok() && partial != []
      ensures Seal().Ok()
      ensures Seal().Units() == Units() + [Unit(Start(), partial)]
    {
      if wrapPos == 0 {
        TilesSnoc(mem, older, front, Start(), partial);
      } else {
        TilesSnoc(mem, newer, 0, Start(), partial);
      }
    }

    /** Without the oldest unit; the queue unwraps when the last unit before the wrap position goes. */
    ghost function Tail(): Ring
      requires Units() != []
    {
      if wrapPos != 0 && |older| <= 1 then Ring(mem, 0, back, 0, newer, [], partial)
      else if older == [] then this
      else this.(front := front + |older[0].bytes|, older := older[1..])
    }

    lemma TailOk()
      requires Ok() && Units() != []
      ensures older != [] && Tail().Ok() && Tail().Units() == Units()[1..]
      // The pointer arithmetic of a release decides this correctly, and its checks hold
      ensures front + |older[0].bytes| <= |mem|
      ensures wrapPos != 0 ==> (|older| <= 1 <==> front + |older[0].bytes| >= wrapPos)
      ensures wrapPos != 0 ==> front + |older[0].bytes| <= wrapPos
    {
      if wrapPos != 0 && |older| > 1 {
        TilesTake(mem, older, front, wrapPos, 1);
      }
      TiledContents(mem, older[1..], older[0].End(), if wrapPos == 0 then Start() else wrapPos);
    }

    /** Without unit i and everything behind it. */
    ghost function Take(i: nat): Ring
      requires i < |Units()|
    {
      if |older| <= i then this.(back := Units()[i].addr, newer := newer[..i - |older|], partial := [])
      else Ring(mem, front, Units()[i].addr, 0, older[..i], [], [])
    }

    /**
     * The address of the unit to withdraw tells on which side of the wrap it lies, except when the
     * back pointer sits at the buffer start and the unit starts there too.
     */
    lemma TakeOk(i: nat)
      requires Ok() && i < |Units()|
      ensures Take(i).Ok() && Take(i).Units() == Units()[..i] && Take(i).partial == []
      ensures |older| <= i ==> wrapPos != 0 && Units()[i].addr < back
      ensures i < |older| ==> wrapPos == 0 || back < Units()[i].addr || Units()[i].addr == back == 0 == i
      ensures wrapPos == 0 ==> Units()[i].addr < back
      ensures back == 0 ==> newer == [] && partial == []
    {
      if |older| <= i {
        TilesTake(mem, newer, 0, Start(), i - |older|);
      } else {
        TilesTake(mem, older, front, if wrapPos == 0 then Start() else wrapPos, i);
      }
    }

    /** Taking off the last unit while nothing is stored behind it only moves the back pointer. */
    lemma TakeLast()
      requires Ok() && partial == [] && Units() != [] && Units()[|Units()| - 1].End() == back
      ensures var r := Take(|Units()| - 1);
        r.wrapPos == wrapPos && r.front == front && r.back == back - |Units()[|Units()| - 1].bytes|
    {
      var n := |Units()| - 1;
      if n < |older| {
        TilesTake(mem, older, front, if wrapPos == 0 then Start() else wrapPos, n);
      }
    }

    /** The oldest unit starts at the front pointer, and while wrapped everything newer lies below it. */
    lemma FrontIsOldest()
      requires Ok()
      ensures Units() != [] ==> Units()[0].addr == front
      ensures wrapPos != 0 ==> Units() != [] && (back == 0 || back < front)
    {
    }

    ghost function Wrap(): Ring {
      this.(wrapPos := back, back := 0)
    }

    /** Wrapping the back pointer keeps the FIFO exactly when it is not empty (or nothing moved). */
    lemma WrapOk()
      requires Ok() && partial == [] && wrapPos == 0
      ensures Wrap().Ok() <==> front < back || back == 0
      ensures front < back <==> Units() != []
    {
      TiledContents(mem, older, front, back);
    }

    lemma WrapExact()
      requires Ok() && partial == [] && wrapPos == 0
      ensures Wrap().Ok() <==> back == 0 || Units() != []
    {
      hide Ok, Units;
      WrapOk();
    }

    /** Every queued unit is one contiguous span of the buffer that holds its bytes. */
    lemma Contiguous(i: nat)
      requires Ok() && i < |Units()|
      ensures Units()[i].addr < Units()[i].End() <= |mem|
      ensures mem[Units()[i].addr..Units()[i].End()] == Units()[i].bytes
    {
      if i < |older| {
        TilesTake(mem, older, front, if wrapPos == 0 then Start() else wrapPos, i);
      } else {
        TilesTake(mem, newer, 0, Start(), i - |older|);
      }
    }

    /** The bytes in use are the queued units and the unfinished one, in FIFO order, and nothing else. */
    lemma ContentsInOrder()
      requires Ok()
      ensures Used() == Contents(Units()) + partial
    {
      if wrapPos == 0 {
        TiledContents(mem, older, front, Start());
        assert Units() == older;
        JoinSlices(mem, front, Start(), back);
      } else {
        TiledContents(mem, older, front, wrapPos);
        TiledContents(mem, newer, 0, Start());
        JoinSlices(mem, 0, Start(), back);
        ContentsConcat(older, newer);
        ConcatAssoc(Contents(older), Contents(newer), partial);
      }
    }

    /** The bytes in use: from the front pointer to the back pointer, around the wrap position if wrapped. */
    ghost function Used(): seq<byte>
      requires Ok()
    {
      TiledContents(mem, older, front, if wrapPos == 0 then Start() else wrapPos);
      if wrapPos == 0 then mem[front..back] else mem[front..wrapPos] + mem[0..back]
    }
  }

  /** The checks that a release makes on its pointer arithmetic. */
  predicate PopFrontChecks(front: nat, wrapPos: nat, length: nat, size: nat) {
    front + size <= length && (wrapPos != 0 && wrapPos <= front + size ==> wrapPos == front + size)
  }

  /** Wrapping an empty queue makes every later release fail its checks. */
  lemma EmptyWrapBreaks(r: Ring, size: nat)
    requires r.Ok() && r.partial == [] && r.wrapPos == 0 && r.back != 0 && r.Units() == [] && size > 0
    ensures !PopFrontChecks(r.Wrap().front, r.Wrap().wrapPos, |r.mem|, size)
  {
    r.WrapOk();
  }

  class OutputQueue {
    const buffer: array<byte>
    var front: nat
    var back: nat
    var wrapPos: nat
    ghost var ring: Ring

    ghost predicate Valid()
      reads this, buffer
    {
      && ring.mem == buffer[..]
      && ring.front == front && ring.back == back && ring.wrapPos == wrapPos
      && ring.Ok()
    }

    constructor (buffer: array<byte>)
      ensures this.buffer == buffer
      ensures Valid() && ring == Ring(buffer[..], 0, 0, 0, [], [], [])
    {
      this.buffer := buffer;
      front, back, wrapPos := 0, 0, 0;
      ring := Ring(buffer[..], 0, 0, 0, [], [], []);
    }

    method Clear()
      modifies this
      ensures Valid() && ring == Ring(buffer[..], 0, 0, 0, [], [], [])
    {
      front, back, wrapPos := 0, 0, 0;
      ring := Ring(buffer[..], 0, 0, 0, [], [], []);
    }

    /** Removes bytes of the access unit that is being pushed, or the whole last unit if there is none. */
    method PopBack(size: nat)
      requires Valid()
      requires size <= |ring.partial| ||
               (ring.partial == [] && ring.Units() != [] && var last := ring.Units()[|ring.Units()| - 1];
                last.End() == back && size == |last.bytes|)
      modifies this
      ensures Valid()
      ensures ring == if size <= |old(ring).partial|
                      then old(ring).Trim(size)
                      else old(ring).Take(|old(ring).Units()| - 1)
    {
      hide Tiles;
      if size <= |ring.partial| {
        ring.TrimOk(size);
        ring := ring.Trim(size);
      } else {
        ring.TakeOk(|ring.Units()| - 1);
        ring.TakeLast();
        ring := ring.Take(|ring.Units()| - 1);
      }
      back := back - size;
    }

    /**
     * Withdraws the access unit at `addr` and everything behind it. The one case in which it does
     * not: nothing was pushed since the back pointer wrapped, and the unit starts at the buffer
     * start as well. Then the queue stays as it was.
     */
    method PopBackAddr(addr: nat, ghost i: nat)
      requires Valid() && i < |ring.Units()| && addr == ring.Units()[i].addr
      modifies this
      ensures Valid()
      ensures ring == if old(wrapPos) != 0 && old(back) == 0 == addr then old(ring) else old(ring).Take(i)
    {
      hide Tiles;
      ring.TakeOk(i);
      if !(wrapPos != 0 && back == 0 == addr) {
        ring := ring.Take(i);
      }
      if addr > back {
        wrapPos := 0;
      }
      back := addr;
    }

    /** Releases the oldest access unit. */
    method PopFront(size: nat)
      requires Valid() && ring.Units() != [] && size == |ring.Units()[0].bytes|
      modifies this
      ensures Valid() && ring == old(ring).Tail()
      ensures PopFrontChecks(old(front), old(wrapPos), buffer.Length, size)
    {
      hide Tiles;
      ring.TailOk();
      ring := ring.Tail();
      front := front + size;
      if wrapPos != 0 && wrapPos <= front {
        assert wrapPos == front;
        front := 0;
        wrapPos := 0;
      }
    }

    /** Appends a chunk to the access unit that is being cut out, if there is space. */
    method Push(cached: seq<byte>, data: seq<byte>) returns (r: PushResult)
      requires Valid()
      modifies this, buffer
      ensures Valid()
      ensures r == Pushed <==> |cached + data| <= old(ring).Free()
      ensures r == TooLarge ==> wrapPos == 0
      ensures r == Full ==> wrapPos != 0
      ensures if r == Pushed then ring == old(ring).Push(cached + data) else ring == old(ring)
      ensures r == Pushed ==>
                ring.partial == old(ring).partial + (cached + data) && ring.back == old(back) + |cached + data|
    {
      hide Tiles;
      if wrapPos == 0 {
        if |data| + |cached| > buffer.Length - back {
          return TooLarge;
        }
      } else if |data| + |cached| + PUSH_SLACK > front - back {
        return Full;
      }
      PushUnchecked(cached, data);
      return Pushed;
    }

    method PushUnchecked(cached: seq<byte>, data: seq<byte>)
      requires Valid() && |cached + data| <= ring.Free()
      modifies this, buffer
      ensures Valid()
      ensures ring == old(ring).Push(cached + data)
      ensures ring.partial == old(ring).partial + (cached + data) && ring.back == old(back) + |cached + data|
    {
      hide Tiles, Splice;
      ring.PushOk(cached + data);
      SpliceTwice(ring.mem, back, cached, data);
      ring := ring.Push(cached + data);
      CopyTo(back, cached);
      CopyTo(back + |cached|, data);
      back := back + |data| + |cached|;
    }

    method CopyTo(at: nat, bytes: seq<byte>)
      requires at + |bytes| <= buffer.Length
      modifies buffer
      ensures buffer[..] == Splice(old(buffer[..]), at, bytes)
    {
      for i := 0 to |bytes|
        invariant forall j | 0 <= j < buffer.Length ::
          buffer[j] == if at <= j < at + i then bytes[j - at] else old(buffer[j])
      {
        buffer[at + i] := bytes[i];
      }
    }

    /** The access unit in progress is complete: from here on it is an entry of the FIFO. */
    ghost method Seal()
      requires Valid() && ring.partial != []
      modifies this
      ensures Valid() && ring == old(ring).Seal()
      ensures front == old(front) && back == old(back) && wrapPos == old(wrapPos)
    {
      ring.SealOk();
      ring := ring.Seal();
    }

    /**
     * Makes sure that a whole access unit of the maximum size fits behind the back pointer.
     *
     * Wrapping an empty queue loses it: the front pointer then sits on the wrap position with no
     * unit left whose release would unwrap the queue. Exactly then the FIFO is not preserved.
     */
    method PrepareNextAu(auMaxSize: nat) returns (ok: bool)
      requires Valid() && ring.partial == []
      modifies this
      ensures ok <==> buffer.Length - old(back) >= auMaxSize || old(wrapPos) == 0
      ensures ring == if ok && buffer.Length - old(back) < auMaxSize then old(ring).Wrap() else old(ring)
      ensures Valid() <==> !(ok && buffer.Length - old(back) < auMaxSize && old(back) != 0 && old(ring).Units() == [])
    {
      hide Tiles, Ring.Ok, Ring.Units;
      if buffer.Length - back < auMaxSize {
        if wrapPos != 0 {
          return false;
        }
        ring.WrapExact();
        ring := ring.Wrap();
        wrapPos := back;
        back := 0;
      }
      return true;
    }
  }
}
