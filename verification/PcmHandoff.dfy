/**
 * Decoded audio on its way from the LPCM decoder to the application. There is one output buffer. The
 * decoder fills it, links the frame of the access unit into a list and puts it into a queue; the
 * application takes it from the queue, copies the buffer, gives the buffer back, and only then unlinks
 * the frame, while the decoder may already link the next one.
 *
 * The list is linked by index. Unlinking its head leaves the new head with the index of a frame that
 * has left the list, and writes through such an index. A frame that has left the list is first marked as
 * not in use, and then its indices are cleared, without a mutex; by then it may be in the list again.
 *
 * A state is changed by one atomic step of one thread at a time: one thread that requests decoding, one
 * that takes the output, and the decoder. `failed` records that an operation reported a fatal error.
 */
module PcmHandoff {
  import opened Bytes

  /** An access unit; what the decoder makes of it is not modelled. */
  type Au = nat

  type Handle = nat

  datatype Frame = Frame(inUse: bool, au: Au, next: int, prev: int)

  datatype Item = Item(handle: Handle, au: Au)

  /** The linked frames. */
  datatype Links = Links(frames: seq<Frame>, head: int, tail: int)
  {
    predicate InUse(h: Handle) {
      h < |frames| && frames[h].inUse
    }

    function With(h: Handle, frame: Frame): Links
      requires h < |frames|
    {
      this.(frames := frames[h := frame])
    }

    /** Appends a frame to the list: first the frame gets its successor, itself. */
    function LinkNext(h: Handle): Option<Links> {
      if !InUse(h) || (tail == -1) != (head == -1) || !(-1 <= tail < |frames|) then None
      else Some(With(h, frames[h].(next := h)))
    }

    /** Then its predecessor, and the list its end. */
    function LinkPrev(h: Handle): Links
      requires h < |frames| && -1 <= tail < |frames|
    {
      if tail == -1 then With(h, frames[h].(prev := h)).(head := h, tail := h)
      else
        var linked := With(h, frames[h].(prev := tail));
        linked.With(tail, linked.frames[tail].(next := h)).(tail := h)
    }

    /** Takes a frame out of the list. An index out of range counts as a failure, too. */
    function Unlink(h: Handle): Option<Links> {
      if !InUse(h) || head == -1 || tail == -1 then None
      else
        var next, prev := frames[h].next, frames[h].prev;
        if head == tail then
          if h != tail then None else Some(With(h, frames[h].(next := -1, prev := -1)).(head := -1, tail := -1))
        else if !(0 <= next < |frames| && 0 <= prev < |frames|) then None
        else if h == head then Some(With(prev, frames[prev].(next := next)).(head := next))
        else if h == tail then Some(With(next, frames[next].(prev := prev)).(tail := prev))
        else
          var bypassed := With(next, frames[next].(prev := prev));
          Some(bypassed.With(prev, bypassed.frames[prev].(next := next)))
    }

    /** A frame that is not used any more. */
    function Release(h: Handle): Links
      requires h < |frames|
    {
      With(h, frames[h].(inUse := false))
    }

    function ClearNext(h: Handle): Links
      requires h < |frames|
    {
      With(h, frames[h].(next := -1))
    }

    function ClearPrev(h: Handle): Links
      requires h < |frames|
    {
      With(h, frames[h].(prev := -1))
    }

    /**
     * The frames `list` are linked in this order. What the first one has for its predecessor does not
     * matter, nor, if it is the only one, for its successor.
     */
    ghost predicate Lists(list: seq<Handle>) {
      && NoDuplicates(list)
      && (forall i | 0 <= i < |list| :: NodeOk(frames, list, i))
      && if list == [] then head == tail == -1 else head == list[0] && tail == list[|list| - 1]
    }

    ghost predicate SameUse(that: Links) {
      && |that.frames| == |frames|
      && forall i | 0 <= i < |frames| :: that.frames[i].inUse == frames[i].inUse && that.frames[i].au == frames[i].au
    }

    lemma LinkNextOk(list: seq<Handle>, h: Handle)
      requires Lists(list) && h !in list && InUse(h)
      ensures LinkNext(h).Some? && LinkNext(h).value.Lists(list) && SameUse(LinkNext(h).value)
      ensures LinkNext(h).value.frames[h].next == h
    {
      if list != [] { assert NodeOk(frames, list, |list| - 1); }
      FrameOk(list, h, frames[h].(next := h));
    }

    /** If the frame still has itself for its successor, or the list is empty. */
    lemma LinkOk(list: seq<Handle>, h: Handle)
      requires Lists(list) && h !in list && InUse(h) && (list == [] || frames[h].next == h)
      ensures -1 <= tail < |frames| && LinkPrev(h).Lists(list + [h]) && SameUse(LinkPrev(h))
      ensures forall hit :: HitOk(this, list, hit) ==> HitOk(LinkPrev(h), list + [h], hit)
    {
      var n := |list|;
      if n > 0 { assert NodeOk(frames, list, n - 1); }
      var l := LinkPrev(h);
      forall i | 0 <= i < n + 1 ensures NodeOk(l.frames, list + [h], i) {
        if i < n {
          assert NodeOk(frames, list, i) && list[i] in list;
          if i < n - 1 { assert list[i] != list[n - 1] && list[i + 1] in list; }
        }
      }
    }

    lemma UnlinkSucceeds(list: seq<Handle>)
      requires Lists(list) && list != []
      ensures list[0] < |frames|
      ensures Unlink(list[0]).Some? <==> |list| == 1 || 0 <= frames[list[0]].prev < |frames|
      ensures Unlink(list[0]).Some? ==>
        var l := Unlink(list[0]).value; var p := frames[list[0]].prev;
        && SameUse(l)
        && if |list| == 1 then l.head == l.tail == -1
           else
             && l.head == list[1] && l.tail == tail
             && 0 <= p < |frames| && l.frames == frames[p := frames[p].(next := list[1])]
    {
      assert NodeOk(frames, list, 0);
      if |list| > 1 { assert NodeOk(frames, list, 1) && list[0] != list[|list| - 1]; }
    }

    /**
     * Taking out the oldest frame of a list succeeds exactly if it is the only one or its `prev` is the index of
     * a frame. Then the rest stays a list exactly if there is at most one frame left or that is not one of them.
     */
    lemma UnlinkOk(list: seq<Handle>)
      requires Lists(list) && list != []
      ensures list[0] < |frames|
      ensures Unlink(list[0]).Some? <==> |list| == 1 || 0 <= frames[list[0]].prev < |frames|
      ensures Unlink(list[0]).Some? ==>
        && SameUse(Unlink(list[0]).value)
        && (Unlink(list[0]).value.Lists(list[1..]) <==> |list| <= 2 || frames[list[0]].prev !in list[1..])
        && HitOk(Unlink(list[0]).value, list[1..], false)
    {
      hide Unlink;
      UnlinkSucceeds(list);
      assert NodeOk(frames, list, 0);
      if Unlink(list[0]).Some? {
        var rest, p, l := list[1..], frames[list[0]].prev, Unlink(list[0]).value;
        if |list| > 1 { assert NodeOk(frames, list, 1); }
        if |list| > 2 && p in rest {
          var i :| 0 <= i < |rest| && rest[i] == p;
          assert !NodeOk(l.frames, rest, i);
        } else {
          forall i | 0 <= i < |rest| ensures NodeOk(l.frames, rest, i) {
            assert NodeOk(frames, list, i + 1) && rest[i] == list[i + 1];
          }
        }
      }
    }

    /** Clearing an index of a frame does no harm to a list without it, nor if it is the only one. */
    lemma ClearOk(list: seq<Handle>, h: Handle)
      requires Lists(list) && h < |frames| && (h !in list || |list| == 1)
      ensures ClearNext(h).Lists(list) && ClearPrev(h).Lists(list)
    {
      if h !in list {
        FrameOk(list, h, frames[h].(next := -1));
        FrameOk(list, h, frames[h].(prev := -1));
      } else {
        assert NodeOk(frames, list, 0);
      }
    }

    lemma FrameOk(list: seq<Handle>, h: Handle, frame: Frame)
      requires Lists(list) && h < |frames| && h !in list
      ensures With(h, frame).Lists(list)
    {
      forall i | 0 <= i < |list| ensures NodeOk(With(h, frame).frames, list, i) {
        assert NodeOk(frames, list, i) && list[i] in list;
      }
    }
  }

  ghost predicate NoDuplicates(list: seq<Handle>) {
    forall i, j | 0 <= i < j < |list| :: list[i] != list[j]
  }

  /** Frame `i` of the list is linked to its neighbours; the last one of several is linked to itself. */
  ghost predicate NodeOk(frames: seq<Frame>, list: seq<Handle>, i: nat)
    requires i < |list|
  {
    && list[i] < |frames| && frames[list[i]].inUse
    && (i < |list| - 1 ==> frames[list[i]].next == list[i + 1])
    && (i > 0 ==> frames[list[i]].prev == list[i - 1])
    && (0 < i == |list| - 1 ==> frames[list[i]].next == list[i])
  }

  /** Three linked frames of which the first has a stale index: taking it out cuts the list. */
  lemma StaleIndexCuts()
    ensures var frames := [Frame(true, 0, 1, 1), Frame(true, 0, 2, 0), Frame(true, 0, 2, 1)];
      var l := Links(frames, 0, 2);
      l.Lists([0, 1, 2]) && l.Unlink(0).Some? && !l.Unlink(0).value.Lists([1, 2])
  {
    var frames := [Frame(true, 0, 1, 1), Frame(true, 0, 2, 0), Frame(true, 0, 2, 1)];
    var l, list: seq<Handle> := Links(frames, 0, 2), [0, 1, 2];
    assert l.Lists(list);
    l.UnlinkOk(list);
    assert list[1..] == [1, 2];
  }

  // The threads

  const COMMANDS := 4
  const ENTRIES := 4

  datatype Requester = Resting | HasFrame(item: Item)

  datatype Worker =
    | Fetching                // waits for a command, and for the output to be given back
    | Decoding(item: Item)    // has the mutex of the output and fills it
    | Announcing(item: Item)  // has marked the output as locked
    | Linking(item: Item)     // has the mutex of the list, and has given the frame its successor
    | Linked(item: Item)      // has linked the frame

  datatype Consumer =
    | Outside
    | Took(entry: nat)                      // has taken an entry from the queue
    | Copied(handle: Handle, data: Item)    // has copied the output
    | Freed(handle: Handle, data: Item)     // has given the output back
    | Unlinked(handle: Handle, data: Item)
    | Released(handle: Handle)              // has marked the frame as not in use
    | NextCleared(handle: Handle)           // has cleared its successor, and is going to clear its predecessor

  /** An entry of the output queue keeps the frame it was for when it is taken. */
  datatype Entry = Entry(filled: bool, handle: Handle)

  /**
   * `output` is what the buffer holds, if it is not being filled. `pushed` and `popped` count entries
   * of the output queue, a ring. `requested` are the commands sent, `delivered` the handles that were
   * passed to the application, each with what was copied for it. `hit` is whether the predecessor of the
   * first frame in the list was cleared after it had been linked.
   */
  datatype State = State(
    links: Links, requester: Requester, cmds: seq<Item>, worker: Worker, consumer: Consumer,
    output: Option<Item>, locked: bool,
    entries: seq<Entry>, pushed: nat, popped: nat,
    requested: seq<Item>, delivered: seq<Item>, hit: bool, failed: bool)

  // The steps

  /** Takes a frame that is not in use. The frames before it were in use when they were looked at. */
  ghost function Request(s: State, h: Handle, au: Au): State {
    if s.requester.Resting? && h < |s.links.frames| && !s.links.InUse(h)
    then
      s.(links := s.links.With(h, s.links.frames[h].(inUse := true, au := au)), requester := HasFrame(Item(h, au)))
    else s
  }

  /**
   * Sends the command. That is refused if the decoder does not know the format the access unit claims to
   * have, and if the command queue is full, but the frame stays in use.
   */
  ghost function Send(s: State, known: bool): State {
    if !s.requester.HasFrame? then s
    else if !known || |s.cmds| >= COMMANDS then s.(requester := Resting)
    else s.(requester := Resting, cmds := s.cmds + [s.requester.item], requested := s.requested + [s.requester.item])
  }

  ghost function Fetch(s: State): State {
    if s.worker.Fetching? && s.cmds != [] && !s.locked
    then s.(worker := Decoding(s.cmds[0]), cmds := s.cmds[1..], output := None) else s
  }

  ghost function Decode(s: State): State {
    if s.worker.Decoding?
    then s.(worker := Announcing(s.worker.item), output := Some(s.worker.item), locked := true) else s
  }

  ghost function LinkFrame(s: State): State {
    if !s.worker.Announcing? then s
    else
      var l := s.links.LinkNext(s.worker.item.handle);
      if l.None? then s.(failed := true) else s.(links := l.value, worker := Linking(s.worker.item))
  }

  ghost function EndLink(s: State): State {
    if !s.worker.Linking? then s
    else if s.worker.item.handle >= |s.links.frames| || !(-1 <= s.links.tail < |s.links.frames|) then s.(failed := true)
    else s.(links := s.links.LinkPrev(s.worker.item.handle), worker := Linked(s.worker.item))
  }

  ghost function Push(s: State): State
    requires |s.entries| == ENTRIES
  {
    if !s.worker.Linked? then s
    else if s.entries[s.pushed % ENTRIES].filled then s.(failed := true)
    else
      s.(entries := s.entries[s.pushed % ENTRIES := Entry(true, s.worker.item.handle)],
         pushed := s.pushed + 1, worker := Fetching)
  }

  ghost function Take(s: State): State
    requires |s.entries| == ENTRIES
  {
    var front := s.popped % ENTRIES;
    if !s.consumer.Outside? || !s.entries[front].filled then s
    else
      s.(entries := s.entries[front := s.entries[front].(filled := false)],
         popped := s.popped + 1, consumer := Took(front))
  }

  /** Reads the entry after it was taken, then copies whatever the output buffer holds. */
  ghost function Copy(s: State): State
    requires s.consumer.Took? ==> s.consumer.entry < |s.entries|
  {
    if !s.consumer.Took? then s
    else
      var h := s.entries[s.consumer.entry].handle;
      if !s.links.InUse(h) || s.output.None? then s.(failed := true) else s.(consumer := Copied(h, s.output.value))
  }

  /** Needs the mutex of the output. */
  ghost function GiveBack(s: State): State {
    if s.consumer.Copied? && !s.worker.Decoding?
    then s.(consumer := Freed(s.consumer.handle, s.consumer.data), locked := false) else s
  }

  /** Needs the mutex of the list. */
  ghost function UnlinkFrame(s: State): State {
    if !s.consumer.Freed? || s.worker.Linking? then s
    else
      var l := s.links.Unlink(s.consumer.handle);
      if l.None? then s.(failed := true)
      else s.(links := l.value, consumer := Unlinked(s.consumer.handle, s.consumer.data), hit := false)
  }

  /** The first of the stores that give a frame back, none of which needs a mutex. */
  ghost function Release(s: State): State {
    if !s.consumer.Unlinked? then s
    else if s.consumer.handle >= |s.links.frames| then s.(failed := true)
    else s.(links := s.links.Release(s.consumer.handle), consumer := Released(s.consumer.handle),
            delivered := s.delivered + [Item(s.consumer.handle, s.consumer.data.au)])
  }

  ghost function ClearNext(s: State): State {
    if !s.consumer.Released? then s
    else if s.consumer.handle >= |s.links.frames| then s.(failed := true)
    else s.(links := s.links.ClearNext(s.consumer.handle), consumer := NextCleared(s.consumer.handle))
  }

  /** By now the frame may be in the list again. */
  ghost function ClearPrev(s: State): State {
    if !s.consumer.NextCleared? then s
    else if s.consumer.handle >= |s.links.frames| then s.(failed := true)
    else s.(links := s.links.ClearPrev(s.consumer.handle), consumer := Outside,
            hit := s.hit || s.consumer.handle in Listed(s))
  }

  datatype Step =
    | RequestStep(h: Handle, au: Au) | SendStep(known: bool)
    | FetchStep | DecodeStep | LinkStep | EndLinkStep | PushStep
    | TakeStep | CopyStep | GiveBackStep | UnlinkStep | ReleaseStep | ClearNextStep | ClearPrevStep

  // The invariant

  /** What the application is done with except for the frame. */
  ghost function Leaving(s: State): seq<Item> {
    if s.consumer.Freed? || s.consumer.Unlinked? then [Item(s.consumer.handle, s.consumer.data.au)] else []
  }

  /** What the output buffer is locked for. */
  ghost function Current(s: State): seq<Item> {
    if s.locked && s.output.Some? then [s.output.value] else []
  }

  ghost function InDecoder(s: State): seq<Item> {
    if s.worker.Decoding? then [s.worker.item] else []
  }

  /** Everything that was requested and is not delivered, oldest first. */
  ghost function InFlight(s: State): seq<Item> {
    Leaving(s) + Current(s) + InDecoder(s) + s.cmds
  }

  ghost function Owned(s: State): seq<Item> {
    InFlight(s) + if s.requester.HasFrame? then [s.requester.item] else []
  }

  ghost predicate Apart(items: seq<Item>) {
    forall i, j | 0 <= i < j < |items| :: items[i].handle != items[j].handle
  }

  ghost predicate AllInUse(links: Links, items: seq<Item>) {
    forall i | 0 <= i < |items| :: links.InUse(items[i].handle) && links.frames[items[i].handle].au == items[i].au
  }

  /** The frames in the list. */
  ghost function Listed(s: State): seq<Handle> {
    (if s.consumer.Freed? then [s.consumer.handle] else [])
    + (if s.locked && s.output.Some? && !s.worker.Announcing? && !s.worker.Linking?
       then [s.output.value.handle] else [])
  }

  /**
   * The output is locked from decoding until it is given back; in between, it is with one of the threads
   * or in the queue.
   */
  ghost predicate OutputOk(s: State) {
    && (s.locked ==> s.output.Some?)
    && (s.worker.Decoding? ==> !s.locked && s.output.None?)
    && (s.worker.Announcing? || s.worker.Linking? || s.worker.Linked? ==> s.locked && s.output == Some(s.worker.item))
    && (s.consumer.Took? ==>
          && s.locked && s.consumer.entry < |s.entries|
          && s.entries[s.consumer.entry].handle == s.output.value.handle)
    && (s.consumer.Copied? ==> s.locked && s.output == Some(s.consumer.data))
    && (s.consumer.Copied? || s.consumer.Freed? || s.consumer.Unlinked? ==> s.consumer.handle == s.consumer.data.handle)
  }

  ghost predicate QueueOk(s: State)
    requires OutputOk(s)
  {
    && |s.entries| == ENTRIES
    && (forall i | 0 <= i < ENTRIES :: s.entries[i].filled <==> s.pushed == s.popped + 1 && i == s.popped % ENTRIES)
    && s.pushed == s.popped
       + (if s.locked && s.worker.Fetching? && !s.consumer.Took? && !s.consumer.Copied? then 1 else 0)
    && (s.pushed == s.popped + 1 ==> s.entries[s.popped % ENTRIES].handle == s.output.value.handle)
    && (s.consumer.Took? || s.consumer.Copied? ==> s.worker.Fetching?)
  }

  /** The first frame in the list has the index of a frame for its predecessor, unless that was cleared. */
  ghost predicate HitOk(links: Links, list: seq<Handle>, hit: bool) {
    if list == [] then !hit
    else
      && list[0] < |links.frames|
      && if hit then links.frames[list[0]].prev == -1 else 0 <= links.frames[list[0]].prev < |links.frames|
  }

  ghost predicate StoresOk(s: State) {
    && HitOk(s.links, Listed(s), s.hit)
    && (s.worker.Linking? && s.consumer.Freed? ==>
          s.worker.item.handle < |s.links.frames| && s.links.frames[s.worker.item.handle].next == s.worker.item.handle)
    && (s.consumer.Released? || s.consumer.NextCleared? ==> s.consumer.handle < |s.links.frames|)
  }

  ghost predicate Ok(s: State) {
    && OutputOk(s) && QueueOk(s)
    && s.links.Lists(Listed(s)) && StoresOk(s)
    && Apart(Owned(s)) && AllInUse(s.links, Owned(s))
    && s.delivered + InFlight(s) == s.requested
  }

  /** A frame that is in use although nobody is going to do anything with it. */
  ghost predicate Lost(s: State, h: Handle) {
    s.links.InUse(h) && Unowned(Owned(s), h)
  }

  ghost predicate Unowned(items: seq<Item>, h: Handle) {
    forall i | 0 <= i < |items| :: items[i].handle != h
  }

  ghost predicate Keeps(s: State, t: State) {
    |t.links.frames| == |s.links.frames| && forall h | Lost(s, h) :: Lost(t, h)
  }

  lemma SameUseKeeps(a: Links, b: Links, items: seq<Item>)
    requires AllInUse(a, items) && a.SameUse(b)
    ensures AllInUse(b, items)
    ensures |b.frames| == |a.frames| && forall h | a.InUse(h) :: b.InUse(h)
  {
  }

  lemma NewFrame(links: Links, owned: seq<Item>, h: Handle, au: Au)
    requires AllInUse(links, owned) && Apart(owned) && h < |links.frames| && !links.InUse(h)
    ensures AllInUse(links.With(h, links.frames[h].(inUse := true, au := au)), owned + [Item(h, au)])
    ensures Apart(owned + [Item(h, au)])
  {
    forall i | 0 <= i < |owned| ensures owned[i].handle != h { assert links.InUse(owned[i].handle); }
  }

  lemma NewFrameKeeps(links: Links, owned: seq<Item>, h: Handle, au: Au)
    requires h < |links.frames| && !links.InUse(h)
    ensures var t := links.With(h, links.frames[h].(inUse := true, au := au));
      |t.frames| == |links.frames| &&
      forall x | links.InUse(x) && Unowned(owned, x) :: t.InUse(x) && Unowned(owned + [Item(h, au)], x)
  {
  }

  lemma RequestOk(s: State, h: Handle, au: Au)
    requires Ok(s)
    ensures Ok(Request(s, h, au)) && Keeps(s, Request(s, h, au)) && Request(s, h, au).failed == s.failed
  {
    hide OutputOk, QueueOk, Links.Lists, Apart, AllInUse, Unowned, Leaving, Current, InDecoder;
    var t := Request(s, h, au);
    if t != s {
      SameParts(s, t);
      assert Owned(t) == Owned(s) + [Item(h, au)] && Listed(t) == Listed(s) && InFlight(t) == InFlight(s);
      NewFrame(s.links, Owned(s), h, au);
      NewFrameKeeps(s.links, Owned(s), h, au);
      ListedInUse(s);
      s.links.FrameOk(Listed(s), h, t.links.frames[h]);
      SameOutput(s, t);
    }
  }

  /** The output and its queue do not depend on the rest. */
  lemma SameOutput(s: State, t: State)
    requires OutputOk(s) && QueueOk(s)
    requires s.worker == t.worker && s.consumer == t.consumer && s.output == t.output && s.locked == t.locked
    requires s.entries == t.entries && s.pushed == t.pushed && s.popped == t.popped
    ensures OutputOk(t) && QueueOk(t)
  {
  }

  lemma ListedInUse(s: State)
    requires s.links.Lists(Listed(s))
    ensures forall i | 0 <= i < |Listed(s)| :: s.links.InUse(Listed(s)[i])
  {
    forall i | 0 <= i < |Listed(s)| ensures s.links.InUse(Listed(s)[i]) {
      assert NodeOk(s.links.frames, Listed(s), i);
    }
  }

  lemma Prefix(links: Links, owned: seq<Item>, n: nat)
    requires AllInUse(links, owned) && Apart(owned) && n <= |owned|
    ensures AllInUse(links, owned[..n]) && Apart(owned[..n])
  {
  }

  lemma SendOk(s: State, known: bool)
    requires Ok(s)
    ensures Ok(Send(s, known)) && Keeps(s, Send(s, known)) && Send(s, known).failed == s.failed
  {
    hide OutputOk, QueueOk, Links.Lists, Apart, AllInUse, Leaving, Current, InDecoder;
    if s.requester.HasFrame? {
      var t, item := Send(s, known), s.requester.item;
      SameOutput(s, t);
      SameParts(s, t);
      if !known || |s.cmds| >= COMMANDS {
        Prefix(s.links, Owned(s), |InFlight(s)|);
        assert Owned(t) == InFlight(s) == Owned(s)[..|InFlight(s)|];
      } else {
        assert InFlight(t) == InFlight(s) + [item];
        assert Owned(t) == InFlight(t) == Owned(s);
        assert s.delivered + (InFlight(s) + [item]) == s.delivered + InFlight(s) + [item];
      }
    }
  }

  lemma SameParts(s: State, t: State)
    requires s.worker == t.worker && s.consumer == t.consumer && s.output == t.output && s.locked == t.locked
    ensures Leaving(t) == Leaving(s) && Current(t) == Current(s) && InDecoder(t) == InDecoder(s)
  {
  }

  lemma FetchOk(s: State)
    requires Ok(s)
    ensures Ok(Fetch(s)) && Keeps(s, Fetch(s)) && Fetch(s).failed == s.failed
  {
    hide Links.Lists, Apart, AllInUse, Unowned;
    var t := Fetch(s);
    if t != s {
      assert s.cmds == [s.cmds[0]] + s.cmds[1..];
      assert InFlight(t) == InFlight(s) && Owned(t) == Owned(s) && Listed(t) == Listed(s);
    }
  }

  lemma Decoded(left: seq<Item>, item: Item, right: seq<Item>)
    ensures left + [] + [item] + right == left + [item] + [] + right
  {
  }

  lemma DecodeOk(s: State)
    requires Ok(s)
    ensures Ok(Decode(s)) && Keeps(s, Decode(s)) && Decode(s).failed == s.failed
  {
    hide Links.Lists, Apart, AllInUse, Unowned;
    if s.worker.Decoding? {
      Decoded(Leaving(s), s.worker.item, s.cmds);
      assert InFlight(Decode(s)) == InFlight(s);
    }
  }

  lemma LinkFrameOk(s: State)
    requires Ok(s)
    ensures Ok(LinkFrame(s)) && Keeps(s, LinkFrame(s)) && LinkFrame(s).failed == s.failed
  {
    hide Links.Lists, Links.SameUse;
    if s.worker.Announcing? {
      var h := s.worker.item.handle;
      OwnedCurrent(s);
      s.links.LinkNextOk(Listed(s), h);
      var t := LinkFrame(s);
      assert Listed(t) == Listed(s) && Owned(t) == Owned(s);
      SameUseKeeps(s.links, t.links, Owned(s));
    }
  }

  lemma EndLinkOk(s: State)
    requires Ok(s)
    ensures Ok(EndLink(s)) && Keeps(s, EndLink(s)) && EndLink(s).failed == s.failed
  {
    hide Links.Lists, Links.LinkPrev, Links.SameUse;
    if s.worker.Linking? {
      var h := s.worker.item.handle;
      OwnedCurrent(s);
      s.links.LinkOk(Listed(s), h);
      var t := EndLink(s);
      assert Listed(t) == Listed(s) + [h] && Owned(t) == Owned(s);
      SameUseKeeps(s.links, t.links, Owned(s));
    }
  }

  /** The frame for which the output is locked is in use, and is not the one being unlinked. */
  lemma OwnedCurrent(s: State)
    requires Apart(Owned(s)) && AllInUse(s.links, Owned(s)) && Current(s) != []
    ensures var h := s.output.value.handle;
      && s.links.InUse(h) && s.links.frames[h].au == s.output.value.au
      && (Leaving(s) != [] ==> h != s.consumer.handle)
  {
    assert Owned(s)[|Leaving(s)|] == s.output.value;
    if Leaving(s) != [] { assert Owned(s)[0] == Leaving(s)[0]; }
  }

  lemma PushOk(s: State)
    requires Ok(s)
    ensures Ok(Push(s)) && Keeps(s, Push(s)) && Push(s).failed == s.failed
  {
    hide Links.Lists, Apart, AllInUse, Unowned;
    assert Owned(Push(s)) == Owned(s) && Listed(Push(s)) == Listed(s);
  }

  lemma TakeOk(s: State)
    requires Ok(s)
    ensures Ok(Take(s)) && Keeps(s, Take(s)) && Take(s).failed == s.failed
  {
    hide Links.Lists, Apart, AllInUse, Unowned;
    assert Owned(Take(s)) == Owned(s) && Listed(Take(s)) == Listed(s);
  }

  lemma CopyOk(s: State)
    requires Ok(s)
    ensures Ok(Copy(s)) && Keeps(s, Copy(s)) && Copy(s).failed == s.failed
  {
    hide Links.Lists, Apart, AllInUse, Unowned;
    if s.consumer.Took? {
      OwnedCurrent(s);
      assert Owned(Copy(s)) == Owned(s) && Listed(Copy(s)) == Listed(s);
    }
  }

  lemma GiveBackOk(s: State)
    requires Ok(s)
    ensures Ok(GiveBack(s)) && Keeps(s, GiveBack(s)) && GiveBack(s).failed == s.failed
  {
    hide Links.Lists, Apart, AllInUse, Unowned;
    assert Owned(GiveBack(s)) == Owned(s) && Listed(GiveBack(s)) == Listed(s);
  }

  /**
   * Unlinking fails: another frame has been linked behind the first one, and the predecessor of the first one was
   * cleared after it had been linked.
   */
  ghost predicate Breaks(s: State) {
    s.consumer.Freed? && !s.worker.Linking? && s.hit && |Listed(s)| == 2
  }

  lemma UnlinkFrameOk(s: State)
    requires Ok(s)
    ensures Ok(UnlinkFrame(s)) && Keeps(s, UnlinkFrame(s)) && (UnlinkFrame(s).failed <==> s.failed || Breaks(s))
  {
    hide Links.Lists, Links.Unlink, Links.SameUse;
    if s.consumer.Freed? && !s.worker.Linking? {
      s.links.UnlinkOk(Listed(s));
      var t := UnlinkFrame(s);
      if !Breaks(s) {
        assert Listed(t) == Listed(s)[1..] && Owned(t) == Owned(s);
        SameUseKeeps(s.links, t.links, Owned(s));
      } else {
        assert Listed(t) == Listed(s) && Owned(t) == Owned(s);
      }
    }
  }

  lemma OldestDone(links: Links, owned: seq<Item>)
    requires AllInUse(links, owned) && Apart(owned) && owned != []
    ensures owned[0].handle < |links.frames|
    ensures AllInUse(links.Release(owned[0].handle), owned[1..]) && Apart(owned[1..])
    ensures |links.Release(owned[0].handle).frames| == |links.frames|
    ensures forall h | links.InUse(h) && Unowned(owned, h) ::
      links.Release(owned[0].handle).InUse(h) && Unowned(owned[1..], h)
  {
    assert forall h | Unowned(owned, h) :: owned[0].handle != h;
  }

  /** What was delivered is the oldest of what was in flight. */
  lemma ReleaseParts(s: State)
    requires s.consumer.Unlinked? && s.consumer.handle < |s.links.frames|
    ensures var t, first := Release(s), Item(s.consumer.handle, s.consumer.data.au);
      && Owned(s) != [] && Owned(s)[0] == first && Owned(t) == Owned(s)[1..]
      && InFlight(s) == [first] + InFlight(t) && Listed(t) == Listed(s)
  {
    hide Current, InDecoder, Links.Release;
    var t, first := Release(s), Item(s.consumer.handle, s.consumer.data.au);
    var waiting := if s.requester.HasFrame? then [s.requester.item] else [];
    WithoutFirst(first, Current(s), InDecoder(s), s.cmds, waiting);
    assert Current(t) == Current(s) && InDecoder(t) == InDecoder(s) by { SameMiddle(s, t); }
  }

  lemma UnlinkedApart(s: State)
    requires Ok(s) && s.consumer.Unlinked?
    ensures s.consumer.handle < |s.links.frames| && s.consumer.handle !in Listed(s)
  {
    hide Links.Lists, QueueOk;
    assert Owned(s)[0] == Leaving(s)[0];
    if Current(s) != [] { OwnedCurrent(s); } else { NothingListed(s); }
  }

  lemma ReleaseOk(s: State)
    requires Ok(s)
    ensures Ok(Release(s)) && Keeps(s, Release(s)) && Release(s).failed == s.failed
  {
    hide Links.Lists, Links.Release, Apart, AllInUse, Unowned, QueueOk, Owned, InFlight, Listed, HitOk;
    if s.consumer.Unlinked? {
      var h := s.consumer.handle;
      var first, t := Item(h, s.consumer.data.au), Release(s);
      UnlinkedApart(s);
      ReleaseParts(s);
      OldestDone(s.links, Owned(s));
      assert s.delivered + ([first] + InFlight(t)) == s.delivered + [first] + InFlight(t);
      ReleaseKeeps(s.links, Listed(s), h, s.hit);
      assert QueueOk(t) by { QueueDone(s, t); }
    }
  }

  lemma ClearNextOk(s: State)
    requires Ok(s)
    ensures Ok(ClearNext(s)) && Keeps(s, ClearNext(s)) && ClearNext(s).failed == s.failed
  {
    hide Links.Lists, Apart, AllInUse, QueueOk, Unowned;
    if s.consumer.Released? {
      var t := ClearNext(s);
      s.links.ClearOk(Listed(s), s.consumer.handle);
      assert Listed(t) == Listed(s) && Owned(t) == Owned(s);
      SameUseKeeps(s.links, t.links, Owned(s));
      assert QueueOk(t) by { QueueDone(s, t); }
    }
  }

  lemma ClearPrevOk(s: State)
    requires Ok(s)
    ensures Ok(ClearPrev(s)) && Keeps(s, ClearPrev(s)) && ClearPrev(s).failed == s.failed
  {
    hide Links.Lists, Apart, AllInUse, QueueOk, Unowned;
    if s.consumer.NextCleared? {
      var t := ClearPrev(s);
      s.links.ClearOk(Listed(s), s.consumer.handle);
      assert Listed(t) == Listed(s) && Owned(t) == Owned(s);
      SameUseKeeps(s.links, t.links, Owned(s));
      assert QueueOk(t) by { QueueDone(s, t); }
    }
  }

  lemma NothingListed(s: State)
    requires Current(s) == [] && s.consumer.Unlinked?
    ensures Listed(s) == []
  {
  }

  lemma SameMiddle(s: State, t: State)
    requires s.worker == t.worker && s.output == t.output && s.locked == t.locked
    ensures Current(t) == Current(s) && InDecoder(t) == InDecoder(s)
  {
  }

  lemma WithoutFirst(first: Item, b: seq<Item>, c: seq<Item>, d: seq<Item>, e: seq<Item>)
    ensures [first] + b + c + d == [first] + ([] + b + c + d)
    ensures ([first] + b + c + d + e)[0] == first && ([first] + b + c + d + e)[1..] == [] + b + c + d + e
  {
  }

  lemma ReleaseKeeps(links: Links, list: seq<Handle>, h: Handle, hit: bool)
    requires links.Lists(list) && h < |links.frames| && h !in list && HitOk(links, list, hit)
    ensures links.Release(h).Lists(list) && HitOk(links.Release(h), list, hit)
  {
    links.FrameOk(list, h, links.frames[h].(inUse := false));
  }

  /** The entry has been copied before. */
  lemma QueueDone(s: State, t: State)
    requires OutputOk(s) && QueueOk(s) && OutputOk(t)
    requires !s.consumer.Took? && !s.consumer.Copied? && !t.consumer.Took? && !t.consumer.Copied?
    requires s.worker == t.worker && s.output == t.output && s.locked == t.locked
    requires s.entries == t.entries && s.pushed == t.pushed && s.popped == t.popped
    ensures QueueOk(t)
  {
  }

  // Runs

  /** After a failure nothing is modelled any more. */
  ghost function After(s: State, step: Step): State
    requires Ok(s)
  {
    if s.failed then s
    else
      match step
      case RequestStep(h, au) => Request(s, h, au)
      case SendStep(known) => Send(s, known)
      case FetchStep => Fetch(s)
      case DecodeStep => Decode(s)
      case LinkStep => LinkFrame(s)
      case EndLinkStep => EndLink(s)
      case PushStep => Push(s)
      case TakeStep => Take(s)
      case CopyStep => Copy(s)
      case GiveBackStep => GiveBack(s)
      case UnlinkStep => UnlinkFrame(s)
      case ReleaseStep => Release(s)
      case ClearNextStep => ClearNext(s)
      case ClearPrevStep => ClearPrev(s)
  }

  lemma AfterOk(s: State, step: Step)
    requires Ok(s)
    ensures Ok(After(s, step)) && Keeps(s, After(s, step))
    ensures After(s, step).failed <==> s.failed || (step.UnlinkStep? && Breaks(s))
  {
    hide Ok, Request, Send, Fetch, Decode, LinkFrame, EndLink, Push, Take, Copy, GiveBack, UnlinkFrame, Release,
      ClearNext, ClearPrev, Breaks, Lost;
    if s.failed {
      return;
    }
    match step
    case RequestStep(h, au) => RequestOk(s, h, au);
    case SendStep(known) => SendOk(s, known);
    case FetchStep => FetchOk(s);
    case DecodeStep => DecodeOk(s);
    case LinkStep => LinkFrameOk(s);
    case EndLinkStep => EndLinkOk(s);
    case PushStep => PushOk(s);
    case TakeStep => TakeOk(s);
    case CopyStep => CopyOk(s);
    case GiveBackStep => GiveBackOk(s);
    case UnlinkStep => UnlinkFrameOk(s);
    case ReleaseStep => ReleaseOk(s);
    case ClearNextStep => ClearNextOk(s);
    case ClearPrevStep => ClearPrevOk(s);
  }

  ghost function Start(n: nat): State {
    State(Links(seq(n, _ => Frame(false, 0, -1, -1)), -1, -1), Resting, [], Fetching, Outside, None, false,
          seq(ENTRIES, _ => Entry(false, 0)), 0, 0, [], [], false, false)
  }

  lemma StartOk(n: nat)
    ensures Ok(Start(n))
  {
    hide Links.Unlink;
    var s := Start(n);
    assert Owned(s) == [] && Listed(s) == [];
  }

  /** Any interleaving of steps, with `n` frames. */
  ghost function Run(n: nat, steps: seq<Step>): (s: State)
    ensures Ok(s)
  {
    if steps == [] then StartOk(n); Start(n)
    else
      var before, step := Run(n, steps[..|steps| - 1]), steps[|steps| - 1];
      assert Ok(After(before, step)) by { AfterOk(before, step); }
      After(before, step)
  }

  /** The steps up to some point lead to a state in which unlinking fails, and the next one is that. */
  ghost predicate BreaksAt(n: nat, steps: seq<Step>, k: nat)
    requires k < |steps|
  {
    steps[k].UnlinkStep? && Breaks(Run(n, steps[..k]))
  }

  lemma {:induction false} FailsExactly(n: nat, steps: seq<Step>)
    ensures Run(n, steps).failed <==> exists k: nat :: k < |steps| && BreaksAt(n, steps, k)
    decreases |steps|
  {
    hide Ok, Breaks, After;
    if steps != [] {
      var last := |steps| - 1;
      var before := steps[..last];
      FailsExactly(n, before);
      AfterOk(Run(n, before), steps[last]);
      if Run(n, steps).failed {
        if Run(n, before).failed {
          var k: nat :| k < |before| && BreaksAt(n, before, k);
          assert before[..k] == steps[..k];
          assert BreaksAt(n, steps, k);
        } else {
          assert BreaksAt(n, steps, last);
        }
      } else {
        forall k: nat | k < |steps| ensures !BreaksAt(n, steps, k) {
          if k < last {
            assert before[..k] == steps[..k];
            assert !BreaksAt(n, before, k);
          }
        }
      }
    }
  }

  /**
   * In every run: an operation fails if and only if a frame is unlinked behind which another one has been linked and
   * whose predecessor was cleared when it was in the list again; what was delivered for a handle is the output
   * decoded from its access unit, in the order in which decoding was requested; at most two frames are linked, and
   * the list has them in the order of delivery.
   */
  lemma HandoffIsCorrect(n: nat, steps: seq<Step>)
    ensures Run(n, steps).failed <==> exists k: nat :: k < |steps| && BreaksAt(n, steps, k)
    ensures var s := Run(n, steps);
      && s.delivered <= s.requested
      && |Listed(s)| <= 2 && s.links.Lists(Listed(s)) && HitOk(s.links, Listed(s), s.hit)
      && var d := |s.delivered| + if s.consumer.Unlinked? then 1 else 0;
         forall i | 0 <= i < |Listed(s)| :: d + i < |s.requested| && Listed(s)[i] == s.requested[d + i].handle
  {
    hide Run, Apart, AllInUse, QueueOk, Links.Lists, HitOk, BreaksAt;
    FailsExactly(n, steps);
    var s := Run(n, steps);
    var d := |s.delivered| + if s.consumer.Unlinked? then 1 else 0;
    forall i | 0 <= i < |Listed(s)| ensures d + i < |s.requested| && Listed(s)[i] == s.requested[d + i].handle {
      assert s.requested[d + i] == InFlight(s)[d - |s.delivered| + i];
    }
  }

  /** The frame taken for a command is lost if and only if the format is unknown or the command queue full. */
  lemma RefusedFrameIsLost(s: State, known: bool)
    requires Ok(s) && s.requester.HasFrame?
    ensures Lost(Send(s, known), s.requester.item.handle) <==> !known || |s.cmds| >= COMMANDS
  {
    hide Links.Lists, QueueOk, OutputOk;
    var t, owned := Send(s, known), Owned(s);
    assert owned[|owned| - 1] == s.requester.item && InFlight(s) == owned[..|owned| - 1];
    if !known || |s.cmds| >= COMMANDS {
      assert Owned(t) == InFlight(s) + [] == InFlight(s);
    } else {
      assert Owned(t)[|Owned(t)| - 1] == s.requester.item;
    }
  }

  /** A lost frame stays lost, whatever happens. */
  lemma {:induction false} LostForever(s: State, h: Handle, steps: seq<Step>)
    requires Ok(s) && Lost(s, h)
    ensures Ok(Afterwards(s, steps)) && Lost(Afterwards(s, steps), h)
  {
    hide Ok, Lost, After;
    if steps != [] {
      LostForever(s, h, steps[..|steps| - 1]);
      AfterOk(Afterwards(s, steps[..|steps| - 1]), steps[|steps| - 1]);
    }
  }

  ghost function Afterwards(s: State, steps: seq<Step>): (t: State)
    requires Ok(s)
    ensures Ok(t)
  {
    if steps == [] then s
    else
      var before, step := Afterwards(s, steps[..|steps| - 1]), steps[|steps| - 1];
      assert Ok(After(before, step)) by { AfterOk(before, step); }
      After(before, step)
  }

  // Runs that lose frames

  ghost predicate Reachable(s: State, n: nat) {
    exists steps: seq<Step> :: s == Run(n, steps)
  }

  lemma {:induction false} Reach(s: State, n: nat, step: Step) returns (t: State)
    requires Reachable(s, n)
    ensures Ok(s) && t == After(s, step) && Reachable(t, n) && Ok(t) && Keeps(s, t)
    ensures t.failed <==> s.failed || (step.UnlinkStep? && Breaks(s))
  {
    hide Ok, After, Keeps;
    var steps: seq<Step> :| s == Run(n, steps);
    var more := steps + [step];
    assert more[..|more| - 1] == steps;
    AfterOk(s, step);
    t := After(s, step);
    assert t == Run(n, more);
  }

  /** Only requests have been made: the first `lost` frames are lost, the next ones are in the command queue. */
  ghost predicate OnlyRequests(s: State, n: nat, lost: nat) {
    && Reachable(s, n) && !s.failed && |s.links.frames| == n && lost + |s.cmds| <= n
    && s.requester.Resting? && s.worker.Fetching?
    && (forall h: nat | h < lost :: Lost(s, h))
    && (forall h | 0 <= h < n :: s.links.frames[h].inUse <==> h < lost + |s.cmds|)
  }

  /** One more request. */
  lemma {:induction false} OneMore(s: State, n: nat, lost: nat, known: bool) returns (t: State)
    requires OnlyRequests(s, n, lost) && lost + |s.cmds| < n
    ensures Reachable(t, n) && !t.failed && |t.links.frames| == n && t.requester.Resting? && t.worker.Fetching?
    ensures var h := lost + |s.cmds|;
      && (Lost(t, h) <==> !known || |s.cmds| >= COMMANDS)
      && (forall i: nat | i < lost :: Lost(t, i))
      && (forall i | 0 <= i < n :: t.links.frames[i].inUse <==> i <= h)
      && |t.cmds| == |s.cmds| + if !known || |s.cmds| >= COMMANDS then 0 else 1
  {
    hide Ok, Reachable, Lost;
    var h := lost + |s.cmds|;
    var u := Reach(s, n, RequestStep(h, 0));
    assert u.links == s.links.With(h, s.links.frames[h].(inUse := true, au := 0));
    RefusedFrameIsLost(u, known);
    t := Reach(u, n, SendStep(known));
    assert t.links == u.links;
  }

  lemma AtStart(n: nat)
    ensures OnlyRequests(Start(n), n, 0)
  {
    assert Run(n, []) == Start(n);
  }

  lemma {:induction false} LoseOne(s: State, n: nat, lost: nat) returns (t: State)
    requires OnlyRequests(s, n, lost) && s.cmds == [] && lost < n
    ensures OnlyRequests(t, n, lost + 1) && t.cmds == []
  {
    hide Reachable, Lost;
    t := OneMore(s, n, lost, false);
  }

  lemma {:induction false} SendOne(s: State, n: nat) returns (t: State)
    requires OnlyRequests(s, n, 0) && |s.cmds| < COMMANDS && |s.cmds| < n
    ensures OnlyRequests(t, n, 0) && |t.cmds| == |s.cmds| + 1
  {
    hide Reachable, Lost;
    t := OneMore(s, n, 0, true);
  }

  /** However many frames there are, a run can lose all of them. By `LostForever` they are then lost for good. */
  lemma {:induction false} AllCanBeLost(n: nat, lost: nat) returns (s: State)
    requires lost <= n
    ensures s.cmds == [] && OnlyRequests(s, n, lost)
  {
    hide OnlyRequests;
    if lost == 0 {
      AtStart(n);
      s := Start(n);
    } else {
      s := AllCanBeLost(n, lost - 1);
      s := LoseOne(s, n, lost - 1);
    }
  }

  lemma {:induction false} QueueCanFill(n: nat, sent: nat) returns (s: State)
    requires sent <= n && sent <= COMMANDS
    ensures |s.cmds| == sent && OnlyRequests(s, n, 0)
  {
    hide OnlyRequests;
    if sent == 0 {
      AtStart(n);
      s := Start(n);
    } else {
      s := QueueCanFill(n, sent - 1);
      s := SendOne(s, n);
    }
  }

  /** With more frames than commands, a run can lose a frame to a full command queue. */
  lemma {:induction false} FullQueueLoses(n: nat) returns (s: State)
    requires n > COMMANDS
    ensures Reachable(s, n) && Lost(s, COMMANDS) && |s.cmds| == COMMANDS
  {
    s := QueueCanFill(n, COMMANDS);
    s := OneMore(s, n, 0, true);
  }

  // A run that fails

  /** An access unit is decoded into frame `h`, and the frame is linked. */
  lemma {:induction false} DecodesInto(s: State, n: nat, h: Handle) returns (t: State)
    requires Reachable(s, n) && Ok(s) && !s.failed && s.requester.Resting? && s.cmds == []
    requires s.worker.Fetching? && !s.locked
    requires h < |s.links.frames| && !s.links.InUse(h)
    ensures Reachable(t, n) && Ok(t) && !t.failed && t.requester.Resting? && t.cmds == []
    ensures t.worker == Linked(Item(h, 0)) && t.locked && t.output == Some(Item(h, 0))
    ensures t.consumer == s.consumer && t.hit == s.hit && |t.links.frames| == |s.links.frames|
    ensures forall i | 0 <= i < |s.links.frames| && i != h :: t.links.frames[i].inUse == s.links.frames[i].inUse
  {
    hide Ok, Reachable, Lost, Breaks;
    t := Reach(s, n, RequestStep(h, 0));
    t := Reach(t, n, SendStep(true));
    t := Reach(t, n, FetchStep);
    t := Reach(t, n, DecodeStep);
    t := LinksFrame(t, n);
  }

  lemma {:induction false} LinksFrame(s: State, n: nat) returns (t: State)
    requires Reachable(s, n) && !s.failed && s.worker.Announcing?
    ensures Reachable(t, n) && Ok(t) && !t.failed && |t.links.frames| == |s.links.frames|
    ensures t == s.(links := t.links, worker := Linked(s.worker.item))
    ensures forall i | 0 <= i < |s.links.frames| :: t.links.frames[i].inUse == s.links.frames[i].inUse
  {
    hide Ok, Reachable, Lost, Breaks;
    t := Reach(s, n, LinkStep);
    t := Reach(t, n, EndLinkStep);
  }

  /** The application takes the output. */
  lemma {:induction false} Taken(s: State, n: nat) returns (t: State)
    requires Reachable(s, n) && Ok(s) && !s.failed && s.worker.Linked? && s.consumer.Outside?
    ensures Reachable(t, n) && Ok(t) && !t.failed && t.worker.Fetching? && t.consumer.Took?
    ensures t.links == s.links && t.requester == s.requester && t.cmds == s.cmds && t.hit == s.hit
    ensures t.output == Some(s.worker.item)
  {
    hide Reachable, Lost, Breaks, Links.Lists, Apart, AllInUse, StoresOk, Owned, InFlight;
    t := Reach(s, n, PushStep);
    t := Reach(t, n, TakeStep);
  }

  /** Then it copies it and gives it back. */
  lemma {:induction false} GivenBack(s: State, n: nat) returns (t: State)
    requires Reachable(s, n) && Ok(s) && !s.failed && s.worker.Linked? && s.consumer.Outside?
    ensures Reachable(t, n) && Ok(t) && !t.failed && t.worker.Fetching? && !t.locked
    ensures t.consumer == Freed(s.worker.item.handle, s.worker.item)
    ensures t.links == s.links && t.requester == s.requester && t.cmds == s.cmds && t.hit == s.hit
  {
    hide Reachable, Lost, Breaks, Links.Lists, Apart, AllInUse, StoresOk, QueueOk, Owned, InFlight;
    t := Taken(s, n);
    t := Reach(t, n, CopyStep);
    t := Reach(t, n, GiveBackStep);
  }

  /** The frame leaves the list and is marked as not in use. */
  lemma {:induction false} GivenUp(s: State, n: nat) returns (t: State)
    requires Reachable(s, n) && Ok(s) && !s.failed && s.consumer.Freed? && s.worker.Fetching? && !s.locked && !s.hit
    ensures Reachable(t, n) && Ok(t) && !t.failed && t.consumer == Released(s.consumer.handle) && !t.hit
    ensures t.worker == s.worker && t.requester == s.requester && t.cmds == s.cmds && !t.locked
    ensures |t.links.frames| == |s.links.frames| && s.consumer.handle < |t.links.frames|
    ensures !t.links.InUse(s.consumer.handle)
    ensures forall i | 0 <= i < |s.links.frames| && s.links.frames[i].inUse == false :: !t.links.frames[i].inUse
  {
    hide Ok, Reachable, Lost;
    t := Reach(s, n, UnlinkStep);
    t := Reach(t, n, ReleaseStep);
  }

  lemma BeforeRequests(n: nat)
    ensures Reachable(Start(n), n) && Ok(Start(n))
  {
    StartOk(n);
    assert Run(n, []) == Start(n);
  }

  /**
   * A frame is marked as not in use and at once taken, decoded into and linked again; then its indices are
   * cleared. When the next frame has been linked behind it, unlinking it fails.
   */
  lemma {:induction false} ReuseCanFail(n: nat) returns (s: State)
    requires n > 1
    ensures Reachable(s, n) && s.failed
  {
    hide Ok, Reachable, Lost;
    BeforeRequests(n);
    s := Start(n);
    s := DecodesInto(s, n, 0);
    s := GivenBack(s, n);
    s := GivenUp(s, n);
    s := DecodesInto(s, n, 0);
    s := Reach(s, n, ClearNextStep);
    s := Reach(s, n, ClearPrevStep);
    s := GivenBack(s, n);
    s := DecodesInto(s, n, 1);
    s := Reach(s, n, UnlinkStep);
  }
}
