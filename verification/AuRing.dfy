/**
 * The ring of access units between the demultiplexer and the application. A slot is free, or holds an
 * access unit the application has not read yet, or one it has read but not released.
 *
 * The producer reserves a slot in one critical section, fills it outside of any, and commits it in a
 * second one. Every method here is one atomic step; the application may take any steps in between.
 */
module AuRing {
  import opened Bytes

  datatype Au = Au(addr: nat, size: nat, maxSize: nat, specific: seq<byte>)
  {
    /** What a reset leaves of an access unit. */
    function Cleared(): Au {
      this.(addr := 0, maxSize := 0)
    }
  }

  const NO_AU := Au(0, 0, 0, [])

  /** How far the producer is, and which slot it was given. */
  datatype Production = Idle | Reserved(slot: nat, au: Au) | Written(slot: nat, au: Au)

  /** Whether the ring was reset after the slot was reserved. */
  datatype Interference = Undisturbed | ResetBeforeWrite | ResetAfterWrite

  datatype Notified = Accepted | Full | Disabled

  /** The address and size passed to the core, and what it answered. */
  datatype CoreCall = CoreCall(addr: nat, size: nat, ok: bool)

  /** The slot `i` places after `start` in a ring of `n`. */
  function At(start: nat, i: nat, n: nat): (r: nat)
    requires start < n && i <= n
    ensures r < n
  {
    if start + i < n then start + i else start + i - n
  }

  /** The next slot. */
  function Succ(x: nat, n: nat): (r: nat)
    requires x < n
    ensures r < n
  {
    (x + 1) % n
  }

  lemma ModStep(x: nat, n: nat)
    requires n <= x < 2 * n
    ensures x % n == x - n
  {
    assert x == 1 * n + (x - n);
    assert x / n == 1;
  }

  lemma AtIsMod(start: nat, i: nat, n: nat)
    requires start < n && i <= n
    ensures At(start, i, n) == (start + i) % n
  {
    if start + i >= n {
      ModStep(start + i, n);
    }
  }

  lemma NextSlot(start: nat, i: nat, n: nat)
    requires start < n && i < n
    ensures Succ(At(start, i, n), n) == At(start, i + 1, n)
  {
    AtIsMod(At(start, i, n), 1, n);
  }

  lemma FrontIsMod(start: nat, live: nat, size: nat, n: nat)
    requires start < n && size <= live <= n
    ensures At(start, live - size, n) == (At(start, live, n) - size) % n
  {
    var x := At(start, live, n) - size;
    if x < 0 {
      AtIsMod(0, x + n, n);
      ModShift(x, n);
    } else {
      AtIsMod(0, x, n);
    }
  }

  lemma ModShift(x: int, n: nat)
    requires 0 <= x + n && x < 0
    ensures x % n == x + n
  {
    assert x == (-1) * n + (x + n);
  }

  // The log of committed access units, oldest first. A ring with `live` slots in use holds its last ones.

  /** The `live` slots from `first` on hold the last access units of the log, in order. */
  ghost predicate Holds(slots: seq<Au>, first: nat, live: nat, log: seq<Au>) {
    && first < |slots| && live <= |slots| && live <= |log|
    && forall i: nat | i < live :: slots[At(first, i, |slots|)] == log[|log| - live + i]
  }

  lemma HoldsMore(slots: seq<Au>, first: nat, live: nat, log: seq<Au>)
    requires Holds(slots, first, live, log) && live < |slots|
    ensures Holds(slots, first, live + 1, log + [slots[At(first, live, |slots|)]])
  {
  }

  lemma HoldsLess(slots: seq<Au>, first: nat, live: nat, log: seq<Au>)
    requires Holds(slots, first, live, log) && live > 0
    ensures slots[first] == log[|log| - live]
    ensures Holds(slots, At(first, 1, |slots|), live - 1, log)
  {
    var n, next := |slots|, At(first, 1, |slots|);
    assert slots[At(first, 0, n)] == log[|log| - live + 0];
    forall i: nat | i < live - 1 ensures slots[At(next, i, n)] == log[|log| - (live - 1) + i] {
      assert At(next, i, n) == At(first, i + 1, n);
      assert slots[At(first, i + 1, n)] == log[|log| - live + (i + 1)];
    }
  }

  /** Filling the slot behind the last one in use leaves those in use alone. */
  lemma HoldsFrame(slots: seq<Au>, first: nat, live: nat, log: seq<Au>, slot: nat, au: Au)
    requires Holds(slots, first, live, log) && live < |slots| && slot < |slots|
    requires live == 0 || slot == At(first, live, |slots|)
    ensures Holds(slots[slot := au], first, live, log)
  {
    forall i: nat | i < live ensures At(first, i, |slots|) != slot {
    }
  }

  lemma HoldsUnread(slots: seq<Au>, first: nat, live: nat, log: seq<Au>, size: nat)
    requires Holds(slots, first, live, log) && 0 < size <= live
    ensures slots[At(first, live - size, |slots|)] == log[|log| - size]
  {
  }

  /** The bytes of the access units `from` to `to` of the log. */
  ghost function Total(log: seq<Au>, from: nat, to: nat): nat
    requires from <= to <= |log|
  {
    if from == to then 0 else Total(log, from, to - 1) + log[to - 1].size
  }

  lemma {:induction false} TotalFrame(log: seq<Au>, au: Au, from: nat, to: nat)
    requires from <= to <= |log|
    ensures Total(log + [au], from, to) == Total(log, from, to)
  {
    if from < to {
      TotalFrame(log, au, from, to - 1);
    }
  }

  lemma {:induction false} TotalSplit(log: seq<Au>, from: nat, mid: nat, to: nat)
    requires from <= mid <= to <= |log|
    ensures Total(log, from, to) == Total(log, from, mid) + Total(log, mid, to)
  {
    if mid < to {
      TotalSplit(log, from, mid, to - 1);
    }
  }

  /** The counters and indices of the ring. */
  datatype Indices = Indices(allocatedSize: nat, size: nat, front: nat, back: nat, allocatedBack: nat)

  /** What has to be passed to the core again. */
  datatype Errors = Errors(memSize: nat, count: nat, memAddr: nat)

  /**
   * What happened so far: every access unit ever committed, the length of this log at the last reset,
   * how many of its access units the core was told to release, with how many bytes since the last
   * reset, and whether a slot was reserved for a flush since then.
   */
  datatype History = History(log: seq<Au>, resetAt: nat, reported: nat, reportedBytes: nat,
                             interference: Interference, flushed: bool)

  const EMPTY_RING := Indices(0, 0, 0, 0, 0)

  datatype Ring = Ring(slots: seq<Au>, q: Indices, errors: Errors, enabled: bool, flushing: bool,
                       production: Production, h: History)
  {
    /** The access units from here on are in the ring. */
    ghost function Oldest(): int {
      |h.log| - q.allocatedSize
    }

    /** The next access unit to be read. */
    ghost function Next(): int {
      |h.log| - q.size
    }

    ghost predicate Ok() {
      && Ringed() && Accounted() && Producing()
      && (!h.flushed ==> q.allocatedSize + (if production.Idle? then 0 else 1) < |slots|)
    }

    lemma Bounds()
      requires Ok()
      ensures Ringed() && Producing() && q.size <= q.allocatedSize <= |h.log| && q.front < |slots| && q.back < |slots|
      ensures q.allocatedBack < |slots|
    {
    }

    ghost predicate Ringed() {
      && q.size <= q.allocatedSize <= |slots| && q.allocatedBack < |slots|
      && Holds(slots, q.allocatedBack, q.allocatedSize, h.log)
      && q.back == At(q.allocatedBack, q.allocatedSize, |slots|)
      && q.front == At(q.allocatedBack, q.allocatedSize - q.size, |slots|)
    }

    lemma IndicesAreModular()
      requires Ok()
      ensures q.size <= q.allocatedSize <= |slots| && |slots| > 0
      ensures q.back == (q.allocatedBack + q.allocatedSize) % |slots| && q.front == (q.back - q.size) % |slots|
    {
      hide Holds, At, Total;
      AtIsMod(q.allocatedBack, q.allocatedSize, |slots|);
      FrontIsMod(q.allocatedBack, q.allocatedSize, q.size, |slots|);
    }

    /** Refused calls accumulate: the address of the oldest unreported access unit, the bytes of all of them. */
    ghost predicate Accounted() {
      && h.resetAt <= h.reported <= Oldest()
      && errors.memSize == Total(h.log, h.reported, Oldest())
      && h.reportedBytes == Total(h.log, h.resetAt, h.reported)
      && (errors.count == 0 <==> h.reported == Oldest())
      && (errors.count > 0 ==> errors.memAddr == h.log[h.reported].addr)
    }

    ghost predicate Producing() {
      production.Idle? || (
        && production.slot < |slots| && q.allocatedSize < |slots|
        && if h.interference.Undisturbed? then
             production.slot == q.back && (production.Written? ==> slots[q.back] == production.au)
           else
             && q.allocatedSize == 0 && q.back == 0
             && (production.Reserved? ==> h.interference.ResetBeforeWrite?)
             && if production.Written? && h.interference.ResetBeforeWrite? && production.slot == 0
                then slots[0] == production.au else slots[0].addr == 0
      )
    }

    /** The producer takes the slot behind the last one in use. */
    ghost function Reserve(au: Au): Ring {
      this.(production := Reserved(q.back, au),
            h := h.(interference := Undisturbed, flushed := h.flushed || flushing))
    }

    /** One slot is kept for the access unit that a flush produces. */
    predicate Full() {
      q.allocatedSize >= |slots| - (if flushing then 0 else 1)
    }

    lemma ReserveOk(au: Au)
      requires Ok() && production.Idle? && !Full()
      ensures Reserve(au).Ok()
    {
    }

    /**
     * An access unit of a flush is refused if and only if all slots are in use, which takes an earlier one
     * that was accepted: the first one is never refused.
     */
    lemma FlushHasRoom()
      requires Ok() && flushing
      ensures Full() <==> q.allocatedSize == |slots|
      ensures Full() ==> h.flushed
    {
    }

    ghost function Write(): Ring
      requires production.Reserved? && production.slot < |slots|
    {
      this.(slots := slots[production.slot := production.au], production := Written(production.slot, production.au))
    }

    lemma WriteOk()
      requires Ok() && production.Reserved?
      ensures Write().Ok()
    {
      HoldsFrame(slots, q.allocatedBack, q.allocatedSize, h.log, production.slot, production.au);
    }

    ghost function Commit(): Ring
      requires q.back < |slots|
    {
      this.(q := q.(back := Succ(q.back, |slots|), allocatedSize := q.allocatedSize + 1, size := q.size + 1),
            production := Idle, h := h.(log := h.log + [slots[q.back]]))
    }

    /**
     * What gets committed is what was written, unless the ring was reset since the slot was reserved;
     * then it is only if slot 0 was reserved and was written after the reset.
     */
    lemma CommitOk()
      requires Ok() && production.Written?
      ensures Commit().Ok() && Commit().Oldest() == Oldest() && Commit().Next() == Next()
      ensures h.interference.Undisturbed? ==> slots[q.back] == production.au
      ensures production.au.addr != 0 ==>
                (slots[q.back] == production.au <==>
                 h.interference.Undisturbed? || (h.interference.ResetBeforeWrite? && production.slot == 0))
    {
      hide Holds, Total, Succ;
      HoldsMore(slots, q.allocatedBack, q.allocatedSize, h.log);
      TotalFrame(h.log, slots[q.back], h.reported, Oldest());
      TotalFrame(h.log, slots[q.back], h.resetAt, h.reported);
      NextSlot(q.allocatedBack, q.allocatedSize, |slots|);
    }

    ghost function Read(): Ring
      requires q.front < |slots|
    {
      if q.size > 0 then this.(q := q.(front := Succ(q.front, |slots|), size := q.size - 1)) else this
    }

    /** Access units are read in the order of production. */
    lemma ReadOk()
      requires Ok()
      ensures Read().Ok() && Read().Oldest() == Oldest()
      ensures q.size > 0 ==> Next() < |h.log| && slots[q.front] == h.log[Next()] && Read().Next() == Next() + 1
      ensures q.size == 0 ==> Next() == |h.log|
    {
      hide Holds, Total, Succ;
      if q.size > 0 {
        HoldsUnread(slots, q.allocatedBack, q.allocatedSize, h.log, q.size);
        NextSlot(q.allocatedBack, q.allocatedSize - q.size, |slots|);
      }
    }

    /** The oldest access unit leaves the ring, even if it was not read. */
    ghost function Retire(): Ring
      requires q.allocatedBack < |slots| && q.front < |slots| && q.allocatedSize > 0
    {
      var au := slots[q.allocatedBack];
      var n := |slots|;
      var r := q.(allocatedBack := Succ(q.allocatedBack, n), allocatedSize := q.allocatedSize - 1);
      this.(q := if r.allocatedSize < r.size then r.(front := Succ(r.front, n), size := r.size - 1) else r,
            errors := errors.(memSize := errors.memSize + au.size))
    }

    /** The address to be passed to the core. */
    ghost function Address(): nat
      requires q.allocatedBack < |slots|
    {
      if q.allocatedSize > 0 && errors.count == 0 then slots[q.allocatedBack].addr else errors.memAddr
    }

    lemma RetireOk()
      requires Ok() && q.allocatedSize > 0
      ensures var r := Retire();
        && r.Ringed() && r.Producing() && r.Oldest() == Oldest() + 1
        && r.Next() == (if Next() == Oldest() then Next() + 1 else Next())
        && r.errors.memSize == Total(h.log, h.reported, r.Oldest()) && Address() == h.log[h.reported].addr
    {
      hide Holds, Succ;
      HoldsLess(slots, q.allocatedBack, q.allocatedSize, h.log);
      NextSlot(q.allocatedBack, 0, |slots|);
    }

    /** The core takes note, or refuses. */
    ghost function Tell(addr: nat, accepted: bool): Ring
      requires q.allocatedSize <= |h.log|
    {
      if accepted then
        this.(errors := errors.(count := 0, memSize := 0),
              h := h.(reported := Oldest(), reportedBytes := h.reportedBytes + errors.memSize))
      else
        this.(errors := errors.(count := errors.count + 1,
             memAddr := if errors.count == 0 then addr else errors.memAddr))
    }

    lemma TellOk(addr: nat, accepted: bool)
      requires Ringed() && Producing() && h.resetAt <= h.reported < Oldest()
      requires !h.flushed ==> q.allocatedSize + (if production.Idle? then 0 else 1) < |slots|
      requires errors.memSize == Total(h.log, h.reported, Oldest()) && addr == h.log[h.reported].addr
      requires errors.count > 0 ==> errors.memAddr == addr
      requires h.reportedBytes == Total(h.log, h.resetAt, h.reported)
      ensures Tell(addr, accepted).Ok()
    {
      hide Holds, At;
      TotalSplit(h.log, h.resetAt, h.reported, Oldest());
    }

    /** There is an access unit in the ring, or one that the core has not been told about. */
    predicate CanRelease() {
      q.allocatedSize >= 1 || errors.count != 0
    }

    ghost function Release(accepted: bool): Ring
      requires Ringed()
    {
      if !CanRelease() then this
      else (if q.allocatedSize < 1 then this else Retire()).Tell(Address(), accepted)
    }

    ghost function ReleaseCall(accepted: bool): CoreCall
      requires Ringed()
    {
      CoreCall(Address(), if q.allocatedSize < 1 then errors.memSize else Retire().errors.memSize, accepted)
    }

    /** Each call carries the address of the oldest unreported access unit and the bytes of all retired since. */
    lemma ReleaseOk(accepted: bool)
      requires Ok()
      ensures var r, call := Release(accepted), ReleaseCall(accepted);
        && r.Ok()
        && r.Oldest() == (if q.allocatedSize == 0 then Oldest() else Oldest() + 1)
        && r.Next() == (if Next() < r.Oldest() then r.Oldest() else Next())
        && (CanRelease() <==> h.reported < r.Oldest())
        && (CanRelease() ==> call == CoreCall(h.log[h.reported].addr, Total(h.log, h.reported, r.Oldest()), accepted))
        && r.h.reported == (if CanRelease() && accepted then r.Oldest() else h.reported)
        && r.h.reportedBytes == h.reportedBytes + (if CanRelease() && accepted then call.size else 0)
    {
      hide Holds, At, Succ, Total;
      if q.allocatedSize > 0 {
        RetireOk();
        Retire().TellOk(Address(), accepted);
      } else if CanRelease() {
        TellOk(Address(), accepted);
      }
    }

    lemma FlagsOk(enabled: bool, flushing: bool)
      requires Ok()
      ensures this.(enabled := enabled, flushing := flushing).Ok()
    {
    }

    /** The stream was disabled before the slot was committed. */
    lemma DropOk()
      requires Ok()
      ensures this.(production := Idle).Ok()
    {
    }

    ghost function Reset(): Ring {
      this.(slots := seq(|slots|, i requires 0 <= i < |slots| => slots[i].Cleared()), q := EMPTY_RING,
            errors := errors.(memSize := 0, count := 0),
            h := History(h.log, |h.log|, |h.log|, 0, if production.Written? then ResetAfterWrite else ResetBeforeWrite,
                         h.flushed && !production.Idle?))
    }

    lemma ResetOk()
      requires Ok()
      ensures Reset().Ok() && Reset().Oldest() == Reset().Next() == |h.log|
    {
    }
  }

  // Runs

  datatype Op =
    | NotifyReserve(au: Au) | NotifyWrite | NotifyCommit
    | GetAu | ReleaseAu(coreAccepts: bool) | ResetEs | FlushStarts | FlushEnds | DisableEs

  /** Each of `got` is the one at its place of the log; the places are increasing, and before `end`. */
  ghost predicate InOrder(got: seq<Au>, at: seq<nat>, log: seq<Au>, end: int) {
    && |got| == |at| && end <= |log|
    && (forall i | 0 <= i < |at| :: at[i] < end && got[i] == log[at[i]])
    && (forall i, j | 0 <= i < j < |at| :: at[i] < at[j])
  }

  lemma InOrderMore(got: seq<Au>, at: seq<nat>, log: seq<Au>, end: nat)
    requires InOrder(got, at, log, end) && end < |log|
    ensures InOrder(got + [log[end]], at + [end], log, end + 1)
  {
  }

  lemma InOrderLater(got: seq<Au>, at: seq<nat>, log: seq<Au>, end: int, more: seq<Au>, later: int)
    requires InOrder(got, at, log, end) && end <= later <= |log + more|
    ensures InOrder(got, at, log + more, later)
    ensures log + [] == log
  {
  }

  /** The bytes in calls that the core accepted. */
  ghost function Successful(calls: seq<CoreCall>): nat {
    if calls == [] then 0
    else Successful(calls[..|calls| - 1]) + if calls[|calls| - 1].ok then calls[|calls| - 1].size else 0
  }

  lemma NoCalls()
    ensures Successful([]) == 0
  {
  }

  lemma SuccessfulMore(calls: seq<CoreCall>, call: CoreCall)
    ensures Successful(calls + [call]) == Successful(calls) + if call.ok then call.size else 0
  {
    assert (calls + [call])[..|calls|] == calls;
  }

  /**
   * What can be seen of a run: the access units the producer delivered, those the application read
   * and at which places of the log, the calls to the core since the last reset, and whether a reset
   * hit a reserved slot.
   */
  datatype Run = Run(ring: Ring, sent: seq<Au>, got: seq<Au>, at: seq<nat>, calls: seq<CoreCall>, disturbed: bool)
  {
    ghost predicate Ok() {
      && ring.Ok()
      // The access units read are those committed, in that order, each at most once
      && InOrder(got, at, ring.h.log, ring.Next())
      // Those committed are those produced
      && (!disturbed ==> ring.h.log == sent && (!ring.production.Idle? ==> ring.h.interference.Undisturbed?))
      // Nothing is released twice or forgotten
      && ring.h.reportedBytes == Successful(calls)
    }

    ghost function After(op: Op): Run
      requires ring.Ringed() && ring.Producing()
    {
      match op
      case NotifyReserve(au) =>
        if ring.production.Idle? && ring.enabled && !ring.Full() then this.(ring := ring.Reserve(au)) else this
      case NotifyWrite =>
        if ring.production.Reserved? then this.(ring := ring.Write()) else this
      case NotifyCommit =>
        if !ring.production.Written? then this
        else if !ring.enabled then this.(ring := ring.(production := Idle))
        else this.(ring := ring.Commit(), sent := sent + [ring.production.au])
      case GetAu =>
        if ring.q.size == 0 then this
        else this.(ring := ring.Read(), got := got + [ring.slots[ring.q.front]], at := at + [ring.Next()])
      case ReleaseAu(accepts) =>
        if ring.CanRelease()
        then this.(ring := ring.Release(accepts), calls := calls + [ring.ReleaseCall(accepts)])
        else this
      case ResetEs => this.(ring := ring.Reset(), calls := [], disturbed := disturbed || !ring.production.Idle?)
      case FlushStarts => this.(ring := ring.(flushing := true))
      case FlushEnds => this.(ring := ring.(flushing := false))
      case DisableEs => this.(ring := ring.(enabled := false))
    }

    lemma ProducerOk(op: Op)
      requires Ok() && (op.NotifyReserve? || op.NotifyWrite? || op.NotifyCommit?)
      ensures After(op).Ok() && |After(op).ring.slots| == |ring.slots|
    {
      hide Holds, At, Succ, Total, Ring.Full, Ring.CanRelease, Ring.Ringed, Ring.Accounted, Ring.Producing, Ring.Ok,
        InOrder, Successful;
      ring.Bounds();
      if op.NotifyReserve? {
        if ring.production.Idle? && ring.enabled && !ring.Full() { ring.ReserveOk(op.au); }
      } else if op.NotifyWrite? {
        if ring.production.Reserved? { ring.WriteOk(); }
      } else if ring.production.Written? {
        ring.CommitOk();
        ring.DropOk();
        InOrderLater(got, at, ring.h.log, ring.Next(), [ring.slots[ring.q.back]], ring.Next());
      }
    }

    lemma ReleasesOk(accepts: bool)
      requires Ok()
      ensures var op := ReleaseAu(accepts); After(op).Ok() && |After(op).ring.slots| == |ring.slots|
    {
      hide Holds, At, Succ, Total, Ring.Full, Ring.CanRelease, Ring.Ringed, Ring.Accounted, Ring.Producing, Ring.Ok,
        InOrder, Successful;
      ring.Bounds();
      ring.ReleaseOk(accepts);
      SuccessfulMore(calls, ring.ReleaseCall(accepts));
      InOrderLater(got, at, ring.h.log, ring.Next(), [], ring.Release(accepts).Next());
    }

    lemma ApplicationOk(op: Op)
      requires Ok() && !op.NotifyReserve? && !op.NotifyWrite? && !op.NotifyCommit?
      ensures After(op).Ok() && |After(op).ring.slots| == |ring.slots|
    {
      hide Holds, At, Succ, Total, Ring.Full, Ring.CanRelease, Ring.Ringed, Ring.Accounted, Ring.Producing, Ring.Ok,
        Ring.Release, Ring.ReleaseCall, InOrder, Successful;
      ring.Bounds();
      match op
      case GetAu =>
        ring.ReadOk();
        if ring.q.size > 0 { InOrderMore(got, at, ring.h.log, ring.Next()); }
      case ReleaseAu(accepts) => ReleasesOk(accepts);
      case ResetEs =>
        ring.ResetOk();
        NoCalls();
        InOrderLater(got, at, ring.h.log, ring.Next(), [], ring.Reset().Next());
      case FlushStarts => ring.FlagsOk(ring.enabled, true);
      case FlushEnds => ring.FlagsOk(ring.enabled, false);
      case DisableEs => ring.FlagsOk(false, ring.flushing);
    }

    lemma AfterOk(op: Op)
      requires Ok()
      ensures After(op).Ok() && |After(op).ring.slots| == |ring.slots|
    {
      if op.NotifyReserve? || op.NotifyWrite? || op.NotifyCommit? {
        ProducerOk(op);
      } else {
        ApplicationOk(op);
      }
    }
  }

  ghost function Start(n: nat): Run {
    Run(Ring(seq(n, _ => NO_AU), EMPTY_RING, Errors(0, 0, 0), true, false, Idle,
             History([], 0, 0, 0, Undisturbed, false)),
        [], [], [], [], false)
  }

  /** A run from an empty ring of `n` slots. */
  ghost function After(n: nat, ops: seq<Op>): (r: Run)
    requires n > 0
    ensures r.Ok() && |r.ring.slots| == n
  {
    if ops == [] then Start(n)
    else
      var before, op := After(n, ops[..|ops| - 1]), ops[|ops| - 1];
      assert before.After(op).Ok() && |before.After(op).ring.slots| == |before.ring.slots| by { before.AfterOk(op); }
      before.After(op)
  }

  /** In every run, with any number of steps of the application between those of the producer. */
  lemma AnyRun(n: nat, ops: seq<Op>)
    requires n > 0
    ensures var run := After(n, ops); var ring, q, log := run.ring, run.ring.q, run.ring.h.log;
      && 0 <= q.size <= q.allocatedSize <= n
      && q.back == (q.allocatedBack + q.allocatedSize) % n
      && q.front == (q.back - q.size) % n
      // The slots in use hold the access units produced last
      && Holds(ring.slots, q.allocatedBack, q.allocatedSize, log)
      && (!run.disturbed ==> log == run.sent)
      // Those read were produced, in the order of production
      && InOrder(run.got, run.at, log, |log| - q.size)
      // Everything retired since the last reset was reported, or is going to be
      && ring.h.resetAt <= |log| - q.allocatedSize
      && Successful(run.calls) + ring.errors.memSize == Total(log, ring.h.resetAt, |log| - q.allocatedSize)
  {
    hide After, Holds, At, InOrder, Successful, Total, Ring.Producing;
    var ring := After(n, ops).ring;
    ring.IndicesAreModular();
    TotalSplit(ring.h.log, ring.h.resetAt, ring.h.reported, ring.Oldest());
  }

  ghost predicate Reachable(run: Run, n: nat) {
    n > 0 && exists ops: seq<Op> :: run == After(n, ops)
  }

  lemma {:induction false} Reach(run: Run, n: nat, op: Op) returns (next: Run)
    requires Reachable(run, n)
    ensures run.Ok() && next == run.After(op) && Reachable(next, n)
    ensures next.Ok() && |next.ring.slots| == n
  {
    hide Run.Ok;
    var ops: seq<Op> :| run == After(n, ops);
    var more := ops + [op];
    assert more[..|more| - 1] == ops;
    next := After(n, more);
  }

  /** The ring has `live` slots in use and no one is producing. */
  ghost predicate AtRest(run: Run, n: nat, live: nat) {
    && Reachable(run, n) && run.Ok() && |run.ring.slots| == n
    && run.ring.enabled && run.ring.production.Idle? && run.ring.q.allocatedSize == live
  }

  lemma {:induction false} OneMore(run: Run, n: nat, live: nat, au: Au) returns (next: Run)
    requires AtRest(run, n, live) && !run.ring.Full()
    ensures AtRest(next, n, live + 1) && next.ring.flushing == run.ring.flushing && next.calls == run.calls
  {
    hide Reachable, Run.Ok;
    next := Reach(run, n, NotifyReserve(au));
    next := Reach(next, n, NotifyWrite);
    next := Reach(next, n, NotifyCommit);
  }

  lemma AtStart(n: nat)
    requires n > 0
    ensures AtRest(Start(n), n, 0)
  {
    assert After(n, []) == Start(n);
  }

  lemma {:induction false} Filled(n: nat, live: nat, au: Au) returns (run: Run)
    requires live < n
    ensures AtRest(run, n, live) && !run.ring.flushing && run.calls == []
  {
    hide Reachable, Run.Ok;
    if live == 0 {
      AtStart(n);
      run := Start(n);
    } else {
      run := Filled(n, live - 1, au);
      run := OneMore(run, n, live - 1, au);
    }
  }

  /** However many slots there are, there is a run in which the second of two flushes is refused. */
  lemma {:induction false} SecondFlushRefused(n: nat, au: Au) returns (run: Run)
    requires n > 0
    ensures Reachable(run, n) && run.ring.flushing && run.ring.enabled && run.ring.production.Idle? && run.calls == []
    ensures run.ring.Full() && run.ring.h.flushed && run.After(NotifyReserve(au)) == run
  {
    hide Reachable, Run.Ok;
    run := Filled(n, n - 1, au);
    run := Reach(run, n, FlushStarts);
    run := OneMore(run, n, n - 1, au);
    run := Reach(run, n, FlushEnds);
    run := Reach(run, n, FlushStarts);
    assert run.ring.Ok() by { RingOk(run); }
    run.ring.FlushHasRoom();
  }

  lemma RingOk(run: Run)
    requires run.Ok()
    ensures run.ring.Ok()
  {
  }

  /** A reset after the slot was written and before it is committed always loses the access unit. */
  lemma ResetDuringProduction(run: Run)
    requires run.Ok() && run.ring.enabled && run.ring.production.Written? && run.ring.production.au.addr != 0
    ensures run.After(ResetEs).Ok()
    ensures var after := run.After(ResetEs).After(NotifyCommit);
      var au, log := run.ring.production.au, after.ring.h.log;
      && after.Ok() && after.sent == run.sent + [au]
      && |log| == |run.ring.h.log| + 1 && log[|log| - 1] != au
  {
    hide Holds, At, Succ, Total, InOrder, Successful;
    run.AfterOk(ResetEs);
    run.ring.Reset().CommitOk();
    run.After(ResetEs).AfterOk(NotifyCommit);
  }

  /** That can happen. */
  lemma ProductionCanBeReset(au: Au)
    ensures var run := After(2, [NotifyReserve(au), NotifyWrite]);
      run.ring.enabled && run.ring.production == Written(0, au)
  {
    var ops := [NotifyReserve(au), NotifyWrite];
    assert ops[..1] == [NotifyReserve(au)] && ops[..1][..0] == [];
    assert After(2, ops[..1]).ring.production == Reserved(0, au) && After(2, ops[..1]).ring.enabled;
  }

  /** The context of an elementary stream. The history is not part of it. */
  class AuQueue {
    const slots: array<Au>
    var auQueue: Indices
    var errors: Errors
    var isEnabled: bool
    var flushStarted: bool

    /** What the producer thread remembers between its two critical sections. */
    var production: Production

    ghost var history: History

    ghost function View(): Ring
      reads this, slots
    {
      Ring(slots[..], auQueue, errors, isEnabled, flushStarted, production, history)
    }

    ghost predicate Valid()
      reads this, slots
    {
      View().Ok()
    }

    constructor (maxSize: nat)
      requires maxSize > 0
      ensures Valid() && View() == Start(maxSize).ring
    {
      slots := new Au[maxSize](_ => NO_AU);
      auQueue, errors, isEnabled, flushStarted, production := EMPTY_RING, Errors(0, 0, 0), true, false, Idle;
      history := History([], 0, 0, 0, Undisturbed, false);
      new;
      assert slots[..] == seq(maxSize, _ => NO_AU);
      assert After(maxSize, []) == Start(maxSize);
    }

    method NotifyReserve(au: Au) returns (r: Notified)
      requires Valid() && production.Idle?
      modifies this
      ensures Valid()
      ensures r == if !isEnabled then Disabled else if old(View()).Full() then Full else Accepted
      ensures View() == if r == Accepted then old(View()).Reserve(au) else old(View())
    {
      if !isEnabled || auQueue.allocatedSize >= slots.Length - (if flushStarted then 0 else 1) {
        return if !isEnabled then Disabled else Full;
      }
      View().ReserveOk(au);
      production := Reserved(auQueue.back, au);
      history := history.(interference := Undisturbed, flushed := history.flushed || flushStarted);
      return Accepted;
    }

    method NotifyWrite()
      requires Valid() && production.Reserved?
      modifies this`production, slots
      ensures Valid() && View() == old(View()).Write()
    {
      hide Holds, Total, At;
      View().WriteOk();
      slots[production.slot] := production.au;
      production := Written(production.slot, production.au);
      assert View() == old(View()).Write();
    }

    method NotifyCommit() returns (r: Notified)
      requires Valid() && production.Written?
      modifies this
      ensures Valid() && r == if isEnabled then Accepted else Disabled
      ensures View() == if r == Accepted then old(View()).Commit() else old(View()).(production := Idle)
    {
      hide Holds, Total, At, Succ;
      View().DropOk();
      View().CommitOk();
      if !isEnabled {
        production := Idle;
        return Disabled;
      }
      history := history.(log := history.log + [slots[auQueue.back]]);
      auQueue := auQueue.(back := Succ(auQueue.back, slots.Length), allocatedSize := auQueue.allocatedSize + 1,
      size := auQueue.size + 1);
      production := Idle;
      return Accepted;
    }

    /** Reads the oldest unread access unit, and if it is not only a peek goes on to the next one. */
    method PopAu(peek: bool) returns (r: Option<Au>)
      requires Valid()
      modifies this`auQueue
      ensures Valid() && View() == if peek then old(View()) else old(View()).Read()
      ensures var next := old(View()).Next(); r == if next < |history.log| then Some(history.log[next]) else None
    {
      hide Holds, Total, At, Succ;
      View().ReadOk();
      if auQueue.size <= 0 {
        return None;
      }
      r := Some(slots[auQueue.front]);
      if !peek {
        auQueue := auQueue.(front := Succ(auQueue.front, slots.Length), size := auQueue.size - 1);
      }
    }

    method ReleaseAu(coreAccepts: bool) returns (r: Option<CoreCall>)
      requires Valid()
      modifies this
      ensures Valid() && View() == old(View()).Release(coreAccepts)
      ensures r == if old(View()).CanRelease() then Some(old(View()).ReleaseCall(coreAccepts)) else None
    {
      hide Holds, Total, At, Succ, Ring.Ok, Ring.Ringed;
      View().Bounds();
      View().ReleaseOk(coreAccepts);
      var memAddr, memSize;
      if auQueue.allocatedSize < 1 {
        if errors.count == 0 {
          return None;
        }
        memAddr, memSize := errors.memAddr, errors.memSize;
      } else {
        var au := slots[auQueue.allocatedBack];
        memSize := errors.memSize + au.size;
        errors := errors.(memSize := memSize);
        memAddr := if errors.count == 0 then au.addr else errors.memAddr;
        auQueue := auQueue.(allocatedBack := Succ(auQueue.allocatedBack, slots.Length),
                            allocatedSize := auQueue.allocatedSize - 1);
        if auQueue.allocatedSize < auQueue.size {
          auQueue := auQueue.(front := Succ(auQueue.front, slots.Length), size := auQueue.size - 1);
        }
      }
      if !coreAccepts {
        errors := errors.(count := errors.count + 1, memAddr := if errors.count == 0 then memAddr else errors.memAddr);
        return Some(CoreCall(memAddr, memSize, false));
      }
      history := history.(reported := |history.log| - auQueue.allocatedSize,
                          reportedBytes := history.reportedBytes + memSize);
      errors := errors.(count := 0, memSize := 0);
      return Some(CoreCall(memAddr, memSize, true));
    }

    method ResetEs()
      requires Valid()
      modifies this, slots
      ensures Valid() && View() == old(View()).Reset()
    {
      hide Holds, Total, At, Succ, Ring.Ok;
      View().ResetOk();
      for i := 0 to slots.Length
        modifies slots
        invariant forall k | 0 <= k < i :: slots[k] == old(slots[k]).Cleared()
        invariant forall k | i <= k < slots.Length :: slots[k] == old(slots[k])
      {
        slots[i] := slots[i].Cleared();
      }
      errors := errors.(memSize := 0, count := 0);
      auQueue := EMPTY_RING;
      history := History(history.log, |history.log|, |history.log|, 0,
      if production.Written? then ResetAfterWrite else ResetBeforeWrite, history.flushed && !production.Idle?);
      assert View() == old(View()).Reset();
    }
  }
}
