/**
 * The offset tables that map pages of 1 MB of main memory to pages of the IO space of the graphics
 * processor and back, and the table of the sizes of the blocks that were mapped together.
 */
module IoMap {
  import opened Bytes

  const PAGE := 0x100000
  const EA_PAGES := 0xC00
  const IO_PAGES := 512

  /** An entry without a mapping. */
  const FREE := 0xFFFF

  /** `io` by pages of main memory, `ea` by pages of the IO space, `size` by first pages of blocks. */
  datatype Tables = Tables(io: seq<nat>, ea: seq<nat>, size: seq<nat>)
  {
    ghost predicate Shaped() {
      |io| == |size| == EA_PAGES && |ea| == IO_PAGES
    }

    /** The two tables are inverse partial maps. */
    ghost predicate Inverse()
      requires Shaped()
    {
      && (forall a | 0 <= a < EA_PAGES :: io[a] != FREE ==> io[a] < IO_PAGES && ea[io[a]] == a)
      && (forall b | 0 <= b < IO_PAGES :: ea[b] != FREE ==> ea[b] < EA_PAGES && io[ea[b]] == b)
    }

    ghost predicate InBlock(base: nat, a: nat)
      requires Shaped()
    {
      base < EA_PAGES && base <= a < base + size[base]
    }

    /** A block is mapped as a whole, and no other block starts in it. */
    ghost predicate BlockOk(base: nat)
      requires Shaped() && base < EA_PAGES
    {
      && base + size[base] <= EA_PAGES
      && (forall a | base <= a < base + size[base] :: io[a] != FREE && io[a] == io[base] + (a - base))
      && (forall a | base < a < base + size[base] :: size[a] == 0)
    }

    ghost predicate Ok() {
      && Shaped() && Inverse()
      && (forall base: nat | base < EA_PAGES :: BlockOk(base))
      && (forall a: nat | a < EA_PAGES && io[a] != FREE :: exists base: nat :: InBlock(base, a))
    }

    ghost function Map(a: nat, b: nat, n: nat): Tables
      requires Shaped() && a + n <= EA_PAGES && b + n <= IO_PAGES && n > 0
    {
      Tables(seq(EA_PAGES, k requires 0 <= k < EA_PAGES => if a <= k < a + n then b + (k - a) else io[k]),
             seq(IO_PAGES, k requires 0 <= k < IO_PAGES => if b <= k < b + n then a + (k - b) else ea[k]),
             size[a := n])
    }

    /** No page outside of a new block is mapped to a page inside of it. */
    ghost predicate Apart(a: nat, b: nat, n: nat)
      requires Shaped() && a + n <= EA_PAGES && b + n <= IO_PAGES
    {
      && (forall k | a <= k < a + n :: io[k] == FREE || b <= io[k] < b + n)
      && (forall k | b <= k < b + n :: ea[k] == FREE || a <= ea[k] < a + n)
    }

    /** Mapping keeps the tables inverse exactly if no page outside of the block was mapped to a page inside. */
    lemma MapInverse(a: nat, b: nat, n: nat)
      requires Shaped() && Inverse() && a + n <= EA_PAGES && b + n <= IO_PAGES && n > 0
      ensures Map(a, b, n).Shaped() && (Map(a, b, n).Inverse() <==> Apart(a, b, n))
    {
      var t := Map(a, b, n);
      if Apart(a, b, n) {
        forall k | 0 <= k < EA_PAGES && t.io[k] != FREE ensures t.io[k] < IO_PAGES && t.ea[t.io[k]] == k {
          if !(a <= k < a + n) { assert io[k] < IO_PAGES && ea[io[k]] == k; }
        }
        forall k | 0 <= k < IO_PAGES && t.ea[k] != FREE ensures t.ea[k] < EA_PAGES && t.io[t.ea[k]] == k {
          if !(b <= k < b + n) { assert ea[k] < EA_PAGES && io[ea[k]] == k; }
        }
      }
      if t.Inverse() {
        forall k | a <= k < a + n && io[k] != FREE ensures b <= io[k] < b + n {
          assert ea[io[k]] == k && t.io[t.ea[io[k]]] == io[k];
        }
        forall k | b <= k < b + n && ea[k] != FREE ensures a <= ea[k] < a + n {
          assert io[ea[k]] == k && t.ea[t.io[ea[k]]] == ea[k];
        }
      }
    }

    /** Only the first pages of the IO space are mapped. */
    ghost predicate Below(pages: nat)
      requires Shaped()
    {
      forall b | pages <= b < IO_PAGES :: ea[b] == FREE
    }

    /** Mapping free pages to free pages. */
    lemma MapOk(a: nat, b: nat, n: nat)
      requires Ok() && a + n <= EA_PAGES && b + n <= IO_PAGES && n > 0
      requires (forall k | a <= k < a + n :: io[k] == FREE) && (forall k | b <= k < b + n :: ea[k] == FREE)
      ensures Map(a, b, n).Ok()
    {
      var t := Map(a, b, n);
      MapInverse(a, b, n);
      forall base: nat | base < EA_PAGES ensures t.BlockOk(base) {
        assert BlockOk(base);
        if base == a {
          forall k: nat | a <= k < a + n ensures size[k] == 0 {
            assert io[k] == FREE && BlockOk(k);
          }
        } else if size[base] != 0 && base < a {
          assert io[a] == FREE;
        }
      }
      forall k: nat | k < EA_PAGES && t.io[k] != FREE ensures exists base: nat :: t.InBlock(base, k) {
        if a <= k < a + n {
          assert t.InBlock(a, k);
        } else {
          var base: nat :| InBlock(base, k);
          assert BlockOk(base);
          assert base != a by { assert io[a] == FREE && io[base] != FREE; }
          assert t.InBlock(base, k);
        }
      }
    }

    ghost function Unmap(a: nat): Tables
      requires Shaped() && a < EA_PAGES && a + size[a] <= EA_PAGES && io[a] + size[a] <= IO_PAGES
    {
      var b, n := io[a], size[a];
      Tables(seq(EA_PAGES, k requires 0 <= k < EA_PAGES => if a <= k < a + n then FREE else io[k]),
             seq(IO_PAGES, k requires 0 <= k < IO_PAGES => if b <= k < b + n then FREE else ea[k]),
             size[a := 0])
    }

    lemma BlockFits(a: nat)
      requires Ok() && a < EA_PAGES && size[a] != 0
      ensures a + size[a] <= EA_PAGES && io[a] != FREE && io[a] + size[a] <= IO_PAGES
      ensures forall k | io[a] <= k < io[a] + size[a] :: ea[k] == a + (k - io[a])
    {
      assert BlockOk(a);
      var last := a + size[a] - 1;
      assert io[last] == io[a] + (last - a);
      forall k | io[a] <= k < io[a] + size[a] ensures ea[k] == a + (k - io[a]) {
        var page := a + (k - io[a]);
        assert io[page] == k;
      }
    }

    lemma UnmapOk(a: nat)
      requires Ok() && a < EA_PAGES && size[a] != 0
      ensures a + size[a] <= EA_PAGES && io[a] + size[a] <= IO_PAGES
      ensures Unmap(a).Ok()
    {
      BlockFits(a);
      var t, b, n := Unmap(a), io[a], size[a];
      assert BlockOk(a);
      forall base: nat | base < EA_PAGES ensures t.BlockOk(base) {
        assert BlockOk(base);
        if base < a && size[base] != 0 { assert base + size[base] <= a; }
      }
      forall k: nat | k < EA_PAGES && t.io[k] != FREE ensures exists base: nat :: t.InBlock(base, k) {
        var base: nat :| InBlock(base, k);
        assert base != a;
        assert t.InBlock(base, k);
      }
    }
  }

  // Translation of addresses

  const WORD := 0x1_0000_0000

  /** The upper 12 bits of an address, as a 32-bit number. */
  function Upper(page: nat): (r: nat) {
    page * PAGE % WORD
  }

  /** `OutsideTable` is an access to the table outside of it. */
  datatype Offset = Offset(value: nat) | NotMapped | OutsideTable

  predicate IsLocal(localAddr: nat, localSize: nat, address: nat) {
    (address + WORD - localAddr) % WORD < localSize
  }

  function AddressToOffset(t: Tables, localAddr: nat, localSize: nat, mainSize: nat, address: nat): Offset
    requires |t.io| == EA_PAGES && address < WORD && localAddr < WORD
  {
    if IsLocal(localAddr, localSize, address) then Offset((address + WORD - localAddr) % WORD)
    else if address / PAGE >= EA_PAGES then OutsideTable
    else
      var page := t.io[address / PAGE];
      if Upper(page) < mainSize then Offset(Upper(page) + address % PAGE) else NotMapped
  }

  /** 0 is a failure. */
  function IoOffsetToAddress(t: Tables, offset: nat): nat
    requires |t.ea| == IO_PAGES
  {
    if offset >= IO_PAGES * PAGE then 0
    else
      var page := t.ea[offset / PAGE];
      if page > 0xBFF then 0 else page * PAGE + offset % PAGE
  }

  lemma UpperOfPage(page: nat)
    ensures page < IO_PAGES ==> Upper(page) == page * PAGE < IO_PAGES * PAGE
    ensures Upper(FREE) == 0xFFF00000
  {
  }

  lemma PageAndRest(page: nat, rest: nat)
    requires rest < PAGE
    ensures (page * PAGE + rest) / PAGE == page && (page * PAGE + rest) % PAGE == rest
  {
  }

  /**
   * An address that is not in local memory has an offset exactly if it is in main memory and its page is mapped,
   * and its offset leads back to it; the table is left exactly if it is not in main memory.
   */
  lemma AddressRoundTrip(t: Tables, localAddr: nat, localSize: nat, mainSize: nat, address: nat)
    requires t.Ok() && localAddr < WORD
    requires mainSize <= IO_PAGES * PAGE && mainSize % PAGE == 0 && t.Below(mainSize / PAGE)
    requires address < WORD && !IsLocal(localAddr, localSize, address)
    ensures var offset := AddressToOffset(t, localAddr, localSize, mainSize, address);
      && (offset.OutsideTable? <==> address >= EA_PAGES * PAGE)
      && (offset.Offset? <==> address < EA_PAGES * PAGE && t.io[address / PAGE] != FREE)
      && (offset.Offset? ==> offset.value < mainSize && IoOffsetToAddress(t, offset.value) == address)
  {
    hide Upper;
    var a, rest := address / PAGE, address % PAGE;
    if a >= EA_PAGES {
      return;
    }
    var b := t.io[a];
    UpperOfPage(b);
    if b != FREE {
      assert t.ea[b] == a;
      PageAndRest(b, rest);
    }
  }

  /**
   * An offset leads to an address exactly if its page is mapped, unless the address is 0; the address leads
   * back to it.
   */
  lemma OffsetRoundTrip(t: Tables, localAddr: nat, localSize: nat, mainSize: nat, offset: nat)
    requires t.Ok() && localAddr < WORD
    requires mainSize <= IO_PAGES * PAGE && mainSize % PAGE == 0 && t.Below(mainSize / PAGE)
    requires offset < IO_PAGES * PAGE
    ensures var address := IoOffsetToAddress(t, offset);
      && address < EA_PAGES * PAGE
      && (address != 0 <==> t.ea[offset / PAGE] != FREE && !(t.ea[offset / PAGE] == 0 && offset % PAGE == 0))
      && (address != 0 && !IsLocal(localAddr, localSize, address) ==>
            AddressToOffset(t, localAddr, localSize, mainSize, address) == Offset(offset))
  {
    hide Upper;
    var b, rest := offset / PAGE, offset % PAGE;
    var a := t.ea[b];
    if a != FREE {
      assert t.io[a] == b;
      PageAndRest(a, rest);
      UpperOfPage(b);
    }
  }

  // First fit

  ghost predicate Unused(ea: seq<nat>, from: nat, to: nat)
    requires to <= |ea|
  {
    forall k | from <= k < to :: ea[k] > 0xBFF
  }

  ghost predicate Fits(ea: seq<nat>, start: nat, n: nat) {
    start + n <= |ea| && Unused(ea, start, start + n)
  }

  ghost predicate NoFit(ea: seq<nat>, end: nat, n: nat) {
    forall s: nat | s < end :: !Fits(ea, s, n)
  }

  datatype Search = Found(start: nat) | NotFound | LeftTable

  /**
   * The first of the starts below `end` with enough unused pages. The search looks beyond the end of the
   * table exactly if there is none, but all pages from some start below `end` on are unused.
   */
  method FirstFit(ea: array<nat>, end: nat, n: nat) returns (r: Search)
    requires ea.Length == IO_PAGES && end <= IO_PAGES && n > 0
    ensures r.Found? ==> r.start < end && Fits(ea[..], r.start, n) && NoFit(ea[..], r.start, n)
    ensures !r.Found? ==> NoFit(ea[..], end, n)
    ensures r.LeftTable? <==> !r.Found? && exists s: nat :: s < end && Unused(ea[..], s, IO_PAGES)
  {
    var io, count := 0, 1;
    while io < end
      invariant count >= 1 && io + count - 1 <= IO_PAGES && count <= n
      invariant io < end ==> Unused(ea[..], io, io + count - 1)
      invariant io >= end ==> count == 1
      // Every run of unused pages that starts before `io` ends before it
      invariant forall s: nat | s < io :: !Fits(ea[..], s, n) && !Unused(ea[..], s, IO_PAGES)
      decreases IO_PAGES - io - count
    {
      if io + count - 1 >= IO_PAGES {
        return LeftTable;
      }
      if ea[io + count - 1] > 0xBFF {
        if count >= n {
          return Found(io);
        }
      } else {
        io := io + count;
        count := 0;
      }
      count := count + 1;
    }
    return NotFound;
  }

  ghost function NothingMapped(): Tables {
    Tables(seq(EA_PAGES, _ => FREE), seq(IO_PAGES, _ => FREE), seq(EA_PAGES, _ => 0))
  }

  /**
   * The search leaves the table, for example, when all pages of the IO space but the last have been mapped
   * and two are asked for.
   */
  lemma SearchCanLeave()
    ensures var t := NothingMapped().Map(0, 0, IO_PAGES - 1);
      t.Ok() && NoFit(t.ea, IO_PAGES, 2) && Unused(t.ea, IO_PAGES - 1, IO_PAGES)
  {
    var t := NothingMapped().Map(0, 0, IO_PAGES - 1);
    assert NothingMapped().Ok();
    NothingMapped().MapOk(0, 0, IO_PAGES - 1);
    forall s: nat | s < IO_PAGES ensures !Fits(t.ea, s, 2) {
      if s < IO_PAGES - 1 { assert t.ea[s] == s; }
    }
  }

  /** Mapping an IO page that is mapped already makes two pages of main memory share it. */
  lemma RemappingBreaks()
    ensures var t := NothingMapped().Map(0, 0, 1); t.Ok() && t.Map(1, 0, 1).Shaped() && !t.Map(1, 0, 1).Inverse()
  {
    var t := NothingMapped().Map(0, 0, 1);
    assert NothingMapped().Ok();
    NothingMapped().MapOk(0, 0, 1);
    t.MapInverse(1, 0, 1);
    assert t.ea[0] == 0;
  }

  // The operations

  /** `LeftTables` is an access to a table outside of it, which ends the model. */
  datatype Status = Ok | Failure | NoIoPageTable | LeftTables

  class OffsetTables {
    const ioAddress: array<nat>
    const eaAddress: array<nat>
    const ioMapTable: array<nat>
    const mainPages: nat      // pages of IO space
    var reservedPages: nat

    ghost function View(): Tables
      reads ioAddress, eaAddress, ioMapTable
    {
      Tables(ioAddress[..], eaAddress[..], ioMapTable[..])
    }

    ghost predicate Valid()
      reads this, ioAddress, eaAddress, ioMapTable
    {
      && ioAddress != eaAddress && ioAddress != ioMapTable && eaAddress != ioMapTable
      && View().Ok() && mainPages <= IO_PAGES && reservedPages <= mainPages && View().Below(mainPages)
    }

    constructor (mainPages: nat)
      requires mainPages <= IO_PAGES
      ensures Valid() && this.mainPages == mainPages && reservedPages == 0
      ensures forall a | 0 <= a < EA_PAGES :: View().io[a] == FREE
      ensures fresh(ioAddress) && fresh(eaAddress) && fresh(ioMapTable)
    {
      ioAddress := new nat[EA_PAGES](_ => FREE);
      eaAddress := new nat[IO_PAGES](_ => FREE);
      ioMapTable := new nat[EA_PAGES](_ => 0);
      this.mainPages, reservedPages := mainPages, 0;
    }

    /** The pages of main memory and of the IO space are not mapped. */
    ghost predicate Unmapped(a: nat, b: nat, n: nat)
      reads this, ioAddress, eaAddress, ioMapTable
      requires Valid() && a + n <= EA_PAGES && b + n <= IO_PAGES
    {
      (forall k | a <= k < a + n :: View().io[k] == FREE) && (forall k | b <= k < b + n :: View().ea[k] == FREE)
    }

    /**
     * `accepted` is whether the kernel finds memory at all of the addresses. Pages that are mapped already
     * are mapped anew; the tables stay in order if there are none, and stay inverse exactly if no page
     * outside of the new block was mapped to a page inside.
     */
    method MapEaIoAddress(ea: nat, io: nat, size: nat, accepted: bool) returns (r: Status)
      requires Valid() && (accepted ==> ea + size <= EA_PAGES * PAGE)
      modifies ioAddress, eaAddress, ioMapTable
      ensures r != NoIoPageTable && r != LeftTables
      ensures r == Ok <==>
              && size != 0 && ea % PAGE == 0 && io % PAGE == 0 && size % PAGE == 0
              && accepted && io + size <= mainPages * PAGE
      ensures r != Ok ==> View() == old(View()) && Valid()
      ensures r == Ok ==>
                var a, b, n := ea / PAGE, io / PAGE, size / PAGE;
                && View() == old(View()).Map(a, b, n)
                && (View().Inverse() <==> old(View()).Apart(a, b, n))
                && (old(Unmapped(a, b, n)) ==> Valid())
    {
      if size == 0 || ea % PAGE != 0 || io % PAGE != 0 || size % PAGE != 0 {
        return Failure;
      }
      if io + size > mainPages * PAGE || !accepted {
        return Failure;
      }
      var a, b, n := ea / PAGE, io / PAGE, size / PAGE;
      View().MapInverse(a, b, n);
      if Unmapped(a, b, n) {
        View().MapOk(a, b, n);
      }
      Fill(a, b, n);
      return Ok;
    }

    method Fill(a: nat, b: nat, n: nat)
      requires ioAddress != eaAddress && ioAddress != ioMapTable && eaAddress != ioMapTable
      requires View().Shaped() && a + n <= EA_PAGES && b + n <= IO_PAGES && n > 0
      modifies ioAddress, eaAddress, ioMapTable
      ensures View() == old(View()).Map(a, b, n)
    {
      for i := 0 to n
        modifies ioAddress, eaAddress
        invariant forall k | 0 <= k < EA_PAGES ::
          ioAddress[k] == if a <= k < a + i then b + (k - a) else old(ioAddress[k])
        invariant forall k | 0 <= k < IO_PAGES ::
          eaAddress[k] == if b <= k < b + i then a + (k - b) else old(eaAddress[k])
      {
        ioAddress[a + i] := b + i;
        eaAddress[b + i] := a + i;
      }
      ioMapTable[a] := n;
    }

    /**
     * Unmaps the whole block, if `io` is in the first page of one. Does not look whether it is mapped at all.
     * `accepted` is the answer of the kernel.
     */
    method UnmapIoAddress(io: nat, accepted: bool) returns (r: Status)
      requires Valid()
      modifies ioAddress, eaAddress, ioMapTable
      ensures Valid() && r != NoIoPageTable
      ensures r == LeftTables <==> io / PAGE >= IO_PAGES || old(View()).ea[io / PAGE] == FREE
      ensures r != Ok ==> View() == old(View())
      ensures r == Ok || r == Failure ==>
        var a := old(View()).ea[io / PAGE];
        && a < EA_PAGES
        && (r == Ok <==> old(View()).size[a] != 0 && accepted)
        && (r == Ok ==>
              && a + old(View()).size[a] <= EA_PAGES && old(View()).io[a] + old(View()).size[a] <= IO_PAGES
              && View() == old(View()).Unmap(a))
    {
      var b := io / PAGE;
      if b >= IO_PAGES {
        return LeftTables;
      }
      var a := eaAddress[b];
      assert View().ea[b] == a;
      if a >= EA_PAGES {
        return LeftTables;
      }
      assert View().io[a] == b;
      var n := ioMapTable[a];
      if n == 0 || !accepted {
        return Failure;
      }
      View().BlockFits(a);
      View().UnmapOk(a);
      Clear(a, b, n);
      return Ok;
    }

    method Clear(a: nat, b: nat, n: nat)
      requires ioAddress != eaAddress && ioAddress != ioMapTable && eaAddress != ioMapTable
      requires View().Shaped() && a + n <= EA_PAGES && b + n <= IO_PAGES && n > 0
      requires View().io[a] == b && View().size[a] == n
      modifies ioAddress, eaAddress, ioMapTable
      ensures View() == old(View()).Unmap(a)
    {
      for i := 0 to n
        modifies ioAddress, eaAddress
        invariant forall k | 0 <= k < EA_PAGES :: ioAddress[k] == if a <= k < a + i then FREE else old(ioAddress[k])
        invariant forall k | 0 <= k < IO_PAGES :: eaAddress[k] == if b <= k < b + i then FREE else old(eaAddress[k])
      {
        ioAddress[a + i] := FREE;
        eaAddress[b + i] := FREE;
      }
      ioMapTable[a] := 0;
    }

    /** Unmaps the block that starts with the page of `ea`. Fails within a block, and where nothing is mapped. */
    method UnmapEaIoAddress(ea: nat, accepted: bool) returns (r: Status)
      requires Valid() && ea < WORD
      modifies ioAddress, eaAddress, ioMapTable
      ensures Valid() && r != NoIoPageTable && r != LeftTables
      ensures r == Ok <==> ea / PAGE < EA_PAGES && old(View()).size[ea / PAGE] != 0 && accepted
      ensures r != Ok ==> View() == old(View())
      ensures r == Ok ==>
                var a := ea / PAGE;
                && a + old(View()).size[a] <= EA_PAGES && old(View()).io[a] + old(View()).size[a] <= IO_PAGES
                && View() == old(View()).Unmap(a)
    {
      hide Upper;
      var a := ea / PAGE;
      if a > 0xBFF {
        return Failure;
      }
      ghost var t := View();
      if t.size[a] != 0 {
        t.BlockFits(a);
      }
      UpperOfPage(ioAddress[a]);
      assert t.io[a] == ioAddress[a] && (t.io[a] != FREE ==> t.ea[t.io[a]] == a);
      var io := Upper(ioAddress[a]);
      if io < mainPages * PAGE {
        r := UnmapIoAddress(io, accepted);
      } else {
        r := Failure;
      }
    }

    /** Finds a place in the IO space itself. */
    method MapMainMemory(ea: nat, size: nat, accepted: bool) returns (r: Status, offset: nat)
      requires Valid() && (accepted ==> ea + size <= EA_PAGES * PAGE)
      modifies ioAddress, eaAddress, ioMapTable
      ensures r == NoIoPageTable || r == LeftTables <==>
              && size != 0 && ea % PAGE == 0 && size % PAGE == 0
              && NoFit(old(View()).ea, mainPages - reservedPages, size / PAGE)
      ensures r == LeftTables <==>
              && size != 0 && ea % PAGE == 0 && size % PAGE == 0
              && NoFit(old(View()).ea, mainPages - reservedPages, size / PAGE)
              && exists s: nat :: s < mainPages - reservedPages && Unused(old(View()).ea, s, IO_PAGES)
      ensures r != Ok ==> View() == old(View()) && Valid()
      ensures r == Ok ==>
                var a, b, n := ea / PAGE, offset / PAGE, size / PAGE;
                && offset % PAGE == 0 && b < mainPages - reservedPages
                && b + n <= mainPages && a + n <= EA_PAGES && n > 0
                // The block was free, and there was none before it
                && Fits(old(View()).ea, b, n) && NoFit(old(View()).ea, b, n)
                && View() == old(View()).Map(a, b, n)
                && ((forall k | a <= k < a + n :: old(View()).io[k] == FREE) ==> Valid())
    {
      r, offset := Failure, 0;
      if size == 0 || ea % PAGE != 0 || size % PAGE != 0 {
        return;
      }
      var found := FirstFit(eaAddress, mainPages - reservedPages, size / PAGE);
      if found.Found? {
        offset := found.start * PAGE;
        UnusedIsFree(View(), found.start, found.start + size / PAGE);
        r := MapEaIoAddress(ea, offset, size, accepted);
      } else {
        r := if found.LeftTable? then LeftTables else NoIoPageTable;
      }
    }
  }

  lemma UnusedIsFree(t: Tables, from: nat, to: nat)
    requires t.Ok() && to <= IO_PAGES && Unused(t.ea, from, to)
    ensures forall k | from <= k < to :: t.ea[k] == FREE
  {
    forall k | from <= k < to ensures t.ea[k] == FREE {
      assert t.ea[k] > 0xBFF;
    }
  }

  /** Unmapping undoes mapping. */
  lemma UnmapUndoesMap(t: Tables, a: nat, b: nat, n: nat)
    requires t.Ok() && a + n <= EA_PAGES && b + n <= IO_PAGES && n > 0
    requires (forall k | a <= k < a + n :: t.io[k] == FREE) && (forall k | b <= k < b + n :: t.ea[k] == FREE)
    ensures t.Map(a, b, n).Unmap(a) == t
  {
    assert t.BlockOk(a) && t.io[a] == FREE;
    var u := t.Map(a, b, n).Unmap(a);
    assert u.io == t.io && u.ea == t.ea && u.size == t.size;
  }
}
