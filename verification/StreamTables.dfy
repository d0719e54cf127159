/**
 * The two tables of enabled elementary streams. The PPU side has a table of slots that it searches by
 * stream id; the SPU side has one entry for each type and channel. A stream id determines the type and
 * channel, but not the other way round unless ids have no more than 8 bits.
 */
module StreamTables {
  import opened Bytes

  datatype StreamType = Video | Lpcm | Ac3 | Atracx | UserData

  datatype Channel = Channel(kind: StreamType, number: bv16)

  function ChannelOf(streamId: bv16, privateId: bv16): Option<Channel> {
    if streamId & 0xf0 == 0xe0 then Some(Channel(Video, streamId & 0x0f))
    else if streamId & 0xff != 0xbd then None
    else if privateId & 0xf0 == 0x40 then Some(Channel(Lpcm, privateId & 0x0f))
    else if privateId & 0xf0 == 0x30 then Some(Channel(Ac3, privateId & 0x0f))
    else if privateId & 0xf0 == 0x00 then Some(Channel(Atracx, privateId & 0x0f))
    else if privateId & 0xf0 == 0x20 then Some(Channel(UserData, privateId & 0x0f))
    else None
  }

  datatype Ids = Ids(stream: bv16, private: bv16)
  {
    predicate Known() {
      ChannelOf(stream, private).Some?
    }

    function Where(): Channel
      requires Known()
    {
      ChannelOf(stream, private).value
    }

    predicate Is8Bit() {
      stream < 0x100 && private < 0x100
    }

    /** The ids of the same channel agree in the bits that do not matter for the channel. */
    predicate SameUpper(other: Ids)
      requires Known()
    {
      Upper(stream) == Upper(other.stream) && (Where().kind == Video || Upper(private) == Upper(other.private))
    }

    /** How the PPU side compares ids: the private id does not matter for video. */
    predicate Finds(other: Ids) {
      && other.stream == stream
      && ((Known() && Where().kind == Video) || other.private == private)
    }
  }

  function Upper(x: bv16): bv16 {
    x & 0xff00
  }

  function Lower(x: bv16): bv16 {
    x & 0xff
  }

  function LowByte(kind: StreamType): bv16 {
    match kind
    case Video => 0xe0
    case Lpcm => 0x40
    case Ac3 => 0x30
    case Atracx => 0x00
    case UserData => 0x20
  }

  lemma LowBytes(a: Ids)
    requires a.Known()
    ensures a.Where().kind == Video ==> Lower(a.stream) == 0xe0 | a.Where().number
    ensures a.Where().kind != Video ==>
              Lower(a.stream) == 0xbd && Lower(a.private) == LowByte(a.Where().kind) | a.Where().number
  {
  }

  lemma Halves(x: bv16, y: bv16)
    ensures x == y <==> Upper(x) == Upper(y) && Lower(x) == Lower(y)
  {
  }

  /** Ids for the same channel are told apart exactly if they differ in their upper halves. */
  lemma FindsExactly(a: Ids, b: Ids)
    requires a.Known() && b.Known() && a.Where() == b.Where()
    ensures a.Finds(b) <==> a.SameUpper(b)
  {
    hide ChannelOf, LowByte, Upper, Lower;
    LowBytes(a);
    LowBytes(b);
    Halves(a.stream, b.stream);
    Halves(a.private, b.private);
  }

  lemma NarrowIds(a: Ids, b: Ids)
    requires a.Is8Bit() && b.Is8Bit() && a.Known()
    ensures a.SameUpper(b)
  {
  }

  lemma FoundSameChannel(a: Ids, b: Ids)
    requires a.Known() && b.Known() && a.Finds(b)
    ensures a.Where() == b.Where()
  {
  }

  datatype Es = Es(ids: Ids, id: nat)

  type Slots = seq<Option<Es>>

  ghost predicate AllKnown(slots: Slots) {
    forall i | 0 <= i < |slots| && slots[i].Some? :: slots[i].value.ids.Known()
  }

  ghost predicate All8Bit(slots: Slots) {
    forall i | 0 <= i < |slots| && slots[i].Some? :: slots[i].value.ids.Is8Bit()
  }

  ghost predicate Distinct(slots: Slots)
    requires AllKnown(slots)
  {
    forall i, j | 0 <= i < j < |slots| && slots[i].Some? && slots[j].Some? ::
      slots[i].value.ids.Where() != slots[j].value.ids.Where()
  }

  /** The search goes from the last slot to the first. */
  function FindEs(slots: Slots, ids: Ids): (r: Option<nat>)
    ensures r.Some? ==> r.value < |slots| && slots[r.value].Some? && ids.Finds(slots[r.value].value.ids)
    ensures r.None? ==> forall i | 0 <= i < |slots| && slots[i].Some? :: !ids.Finds(slots[i].value.ids)
  {
    if slots == [] then None
    else
      var last := |slots| - 1;
      if slots[last].Some? && ids.Finds(slots[last].value.ids) then Some(last) else FindEs(slots[..last], ids)
  }

  function Count(slots: Slots): (n: nat)
    ensures n <= |slots|
  {
    if slots == [] then 0 else Count(slots[..|slots| - 1]) + if slots[|slots| - 1].Some? then 1 else 0
  }

  lemma {:induction false} CountAll(slots: Slots)
    requires forall i | 0 <= i < |slots| :: slots[i].Some?
    ensures Count(slots) == |slots|
  {
    if slots != [] {
      CountAll(slots[..|slots| - 1]);
    }
  }

  lemma {:induction false} CountPrefix(slots: Slots, n: nat)
    requires n <= |slots|
    ensures Count(slots[..n]) <= Count(slots)
  {
    if n < |slots| {
      CountPrefix(slots[..|slots| - 1], n);
      assert slots[..|slots| - 1][..n] == slots[..n];
    } else {
      assert slots[..n] == slots;
    }
  }

  lemma SomeFree(slots: Slots, r: nat)
    requires Count(slots) < |slots| && r <= |slots| && forall i | 0 <= i < r :: slots[i].Some?
    ensures r <= Count(slots)
  {
    CountAll(slots[..r]);
    CountPrefix(slots, r);
  }

  ghost predicate IsFirstFree(slots: Slots, r: nat) {
    r < |slots| && slots[r].None? && forall i | 0 <= i < r :: slots[i].Some?
  }

  lemma FirstFreeUnique(slots: Slots, a: nat, b: nat)
    requires IsFirstFree(slots, a) && IsFirstFree(slots, b)
    ensures a == b
  {
  }

  ghost function FirstFree(slots: Slots): (r: nat)
    requires Count(slots) < |slots|
    ensures IsFirstFree(slots, r) && r <= Count(slots)
  {
    var r := FreeFrom(slots, 0);
    assert r <= Count(slots) by { SomeFree(slots, r); }
    r
  }

  ghost function FreeFrom(slots: Slots, r: nat): (f: nat)
    requires Count(slots) < |slots| && r < |slots| && forall i | 0 <= i < r :: slots[i].Some?
    ensures IsFirstFree(slots, f)
    decreases |slots| - r
  {
    if slots[r].None? then r
    else
      assert r + 1 < |slots| by { SomeFree(slots, r + 1); }
      FreeFrom(slots, r + 1)
  }

  /** Finds the first free slot. While not all slots are used it does not leave the table. */
  method FindFree(slots: Slots) returns (r: nat)
    requires Count(slots) < |slots|
    ensures IsFirstFree(slots, r) && r == FirstFree(slots) <= Count(slots)
  {
    r := 0;
    while slots[r].Some?
      invariant r < |slots| && forall i | 0 <= i < r :: slots[i].Some?
      decreases |slots| - r
    {
      SomeFree(slots, r + 1);
      r := r + 1;
    }
    FirstFreeUnique(slots, r, FirstFree(slots));
  }

  /** The table of the SPU side that goes with a table of slots. */
  ghost function Open(slots: Slots): map<Channel, nat>
    requires AllKnown(slots)
  {
    if slots == [] then map[]
    else
      var rest, last := Open(slots[..|slots| - 1]), slots[|slots| - 1];
      if last.None? then rest else rest[last.value.ids.Where() := last.value.id]
  }

  lemma {:induction false} OpenIff(slots: Slots, c: Channel)
    requires AllKnown(slots)
    ensures c in Open(slots) <==> exists i | 0 <= i < |slots| && slots[i].Some? :: slots[i].value.ids.Where() == c
  {
    if slots != [] {
      var n := |slots| - 1;
      OpenIff(slots[..n], c);
      if c in Open(slots[..n]) {
        var i :| 0 <= i < n && slots[..n][i].Some? && slots[..n][i].value.ids.Where() == c;
        assert slots[i].Some?;
      }
      forall i | 0 <= i < n && slots[i].Some? && slots[i].value.ids.Where() == c ensures c in Open(slots) {
        assert slots[..n][i] == slots[i];
      }
    }
  }

  /** A slot has ids of the same channel that agree in their upper halves. */
  ghost predicate HasTwin(slots: Slots, ids: Ids)
    requires AllKnown(slots) && ids.Known()
  {
    exists i | 0 <= i < |slots| && slots[i].Some? ::
      slots[i].value.ids.Where() == ids.Where() && ids.SameUpper(slots[i].value.ids)
  }

  /**
   * The PPU side finds a stream exactly if a slot has a twin of the ids. So it agrees with the SPU side exactly
   * if the channel is not enabled or there is a twin, and always as long as ids have no more than 8 bits.
   */
  lemma FindIffOpen(slots: Slots, ids: Ids)
    requires AllKnown(slots) && ids.Known()
    ensures FindEs(slots, ids).Some? <==> HasTwin(slots, ids)
    ensures (FindEs(slots, ids).Some? <==> ids.Where() in Open(slots)) <==>
            (ids.Where() !in Open(slots) || HasTwin(slots, ids))
    ensures All8Bit(slots) && ids.Is8Bit() ==> (FindEs(slots, ids).Some? <==> ids.Where() in Open(slots))
  {
    hide ChannelOf, Open, Upper, Lower, Ids.SameUpper, Ids.Finds;
    OpenIff(slots, ids.Where());
    forall i | 0 <= i < |slots| && slots[i].Some?
      ensures ids.Finds(slots[i].value.ids) <==>
              slots[i].value.ids.Where() == ids.Where() && ids.SameUpper(slots[i].value.ids)
      ensures ids.Is8Bit() && slots[i].value.ids.Is8Bit() ==> ids.SameUpper(slots[i].value.ids)
    {
      var other := slots[i].value.ids;
      if ids.Finds(other) { FoundSameChannel(ids, other); }
      if other.Where() == ids.Where() { FindsExactly(ids, other); }
      if ids.Is8Bit() && other.Is8Bit() { NarrowIds(ids, other); }
    }
  }

  /** Not so with wider ids: the PPU side takes a stream for disabled that is enabled on the SPU side. */
  lemma WideIdsDisagree()
    ensures var slots, ids := [Some(Es(Ids(0xe0, 0), 0))], Ids(0x1e0, 0);
      FindEs(slots, ids).None? && ids.Known() && ids.Where() == slots[0].value.ids.Where()
  {
    var slots: Slots, ids := [Some(Es(Ids(0xe0, 0), 0))], Ids(0x1e0, 0);
    assert slots[..0] == [];
    assert FindEs([], ids).None?;
  }

  lemma {:induction false} OpenEnable(slots: Slots, i: nat, es: Es)
    requires AllKnown(slots) && i < |slots| && slots[i].None?
    requires es.ids.Known() && es.ids.Where() !in Open(slots)
    ensures AllKnown(slots[i := Some(es)])
    ensures Open(slots[i := Some(es)]) == Open(slots)[es.ids.Where() := es.id]
    ensures Count(slots[i := Some(es)]) == Count(slots) + 1
  {
    hide ChannelOf;
    var n := |slots| - 1;
    if i == n {
      assert slots[i := Some(es)][..n] == slots[..n];
    } else {
      OpenEnable(slots[..n], i, es);
      assert slots[i := Some(es)][..n] == slots[..n][i := Some(es)];
    }
  }

  lemma {:induction false} OpenDisable(slots: Slots, i: nat)
    requires AllKnown(slots) && Distinct(slots) && i < |slots| && slots[i].Some?
    ensures AllKnown(slots[i := None])
    ensures Open(slots[i := None]) == Open(slots) - {slots[i].value.ids.Where()}
    ensures Count(slots[i := None]) == Count(slots) - 1
  {
    hide ChannelOf;
    var n, c := |slots| - 1, slots[i].value.ids.Where();
    if i == n {
      assert slots[i := None][..n] == slots[..n];
      OpenIff(slots[..n], c);
      assert c !in Open(slots[..n]);
    } else {
      OpenDisable(slots[..n], i);
      assert slots[i := None][..n] == slots[..n][i := None];
      if slots[n].Some? {
        assert slots[n].value.ids.Where() != c;
      }
    }
  }

  lemma {:induction false} OpenSize(slots: Slots)
    requires AllKnown(slots) && Distinct(slots)
    ensures |Open(slots)| == Count(slots)
  {
    hide ChannelOf;
    if slots != [] {
      var n := |slots| - 1;
      OpenSize(slots[..n]);
      if slots[n].Some? {
        OpenIff(slots[..n], slots[n].value.ids.Where());
      }
    }
  }

  lemma DistinctEnable(slots: Slots, i: nat, es: Es)
    requires AllKnown(slots) && Distinct(slots) && i < |slots|
    requires es.ids.Known() && es.ids.Where() !in Open(slots)
    ensures AllKnown(slots[i := Some(es)]) && Distinct(slots[i := Some(es)])
  {
    hide ChannelOf, Open;
    OpenIff(slots, es.ids.Where());
  }
}
