/**
  The list of virtual mappings of an address space: insertion, lookup,
  splitting, protection and unmapping.  A mapping is a run of pages with one
  set of flags; `PageInfo` is what a single page sees of its mapping.
 */
module VmapList {
  import opened Basics
  import opened Rounding

  const KERNEL_START: nat := 0xFFFF_8000_0000_0000

  datatype Flags = Flags(read: bool, write: bool, exec: bool, user: bool)

  datatype Content = Unknown | Heap | Stack | File | Mmap | Dma

  datatype Sharing = Private | Shared

  /** The fault handler of a mapping: zero-on-demand or file-backed. */
  datatype Handler = ZeroOnDemand | FileBacked

  /** `vmap_t`, without its lock and statistics. */
  datatype Vmap = Vmap(vaddr: nat, npages: nat, flags: Flags, io: Option<nat>, ioOffset: nat,
                       content: Content, sharing: Sharing, handler: Option<Handler>)
  {
    function End(): nat { vaddr + npages * PAGE }

    predicate Contains(a: nat) { vaddr <= a < End() }
  }

  /** What one page sees of the mapping it belongs to. */
  datatype PageInfo = PageInfo(flags: Flags, content: Content, sharing: Sharing, handler: Option<Handler>,
                               io: Option<nat>, fileOffset: Option<nat>)

  function InfoOf(v: Vmap, a: nat): PageInfo
    requires v.Contains(a)
  {
    PageInfo(v.flags, v.content, v.sharing, v.handler, v.io,
             if v.io.Some? then Some(v.ioOffset + (a - v.vaddr)) else None)
  }

  /** Mappings are non-empty, page-aligned, sorted and pairwise disjoint. */
  ghost predicate WellFormed(maps: seq<Vmap>) {
    && (forall i :: 0 <= i < |maps| ==> maps[i].npages > 0 && maps[i].vaddr % PAGE == 0)
    && (forall i, j :: 0 <= i < j < |maps| ==> maps[i].End() <= maps[j].vaddr)
  }

  /** The first mapping from index `k` on that contains `a`. */
  function FindFrom(maps: seq<Vmap>, a: nat, k: nat): (r: Option<nat>)
    ensures r.Some? ==> k <= r.value < |maps| && maps[r.value].Contains(a)
    ensures r.None? ==> forall i :: k <= i < |maps| ==> !maps[i].Contains(a)
    decreases |maps| - k
  {
    if k >= |maps| then None
    else if maps[k].Contains(a) then Some(k)
    else FindFrom(maps, a, k + 1)
  }

  function Find(maps: seq<Vmap>, a: nat): (r: Option<nat>)
    ensures r.Some? ==> r.value < |maps| && maps[r.value].Contains(a)
    ensures r.None? ==> forall i :: 0 <= i < |maps| ==> !maps[i].Contains(a)
  {
    FindFrom(maps, a, 0)
  }

  function InfoAt(maps: seq<Vmap>, a: nat): Option<PageInfo> {
    var r := Find(maps, a);
    if r.Some? then Some(InfoOf(maps[r.value], a)) else None
  }

  lemma FindIs(maps: seq<Vmap>, a: nat, k: nat)
    requires WellFormed(maps) && k < |maps| && maps[k].Contains(a)
    ensures Find(maps, a) == Some(k)
  {
  }

  // ---------------------------------------------------------------- insertion

  /** Where `do_attach_vmap` puts a mapping: before the first one that starts later. */
  function Slot(maps: seq<Vmap>, start: nat, k: nat): (r: nat)
    requires k <= |maps|
    ensures k <= r <= |maps|
    ensures forall i :: k <= i < r ==> maps[i].vaddr <= start
    ensures r < |maps| ==> maps[r].vaddr > start
    decreases |maps| - k
  {
    if k == |maps| then k
    else if maps[k].vaddr > start then k
    else Slot(maps, start, k + 1)
  }

  function Inserted(maps: seq<Vmap>, v: Vmap): seq<Vmap> {
    var p := Slot(maps, v.vaddr, 0);
    maps[..p] + [v] + maps[p..]
  }

  ghost predicate FreeFor(maps: seq<Vmap>, v: Vmap) {
    forall i :: 0 <= i < |maps| ==> maps[i].End() <= v.vaddr || v.End() <= maps[i].vaddr
  }

  lemma InsertedIndex(maps: seq<Vmap>, v: Vmap)
    ensures var p := Slot(maps, v.vaddr, 0); var m := Inserted(maps, v);
            && |m| == |maps| + 1 && m[p] == v
            && (forall i :: 0 <= i < p ==> m[i] == maps[i])
            && (forall i :: p < i < |m| ==> m[i] == maps[i - 1])
  {
  }

  /** Attaching a mapping that overlaps nothing keeps the list well formed. */
  lemma InsertedWellFormed(maps: seq<Vmap>, v: Vmap)
    requires WellFormed(maps) && FreeFor(maps, v)
    requires v.npages > 0 && v.vaddr % PAGE == 0
    ensures WellFormed(Inserted(maps, v))
  {
  }

  /** The new mapping's pages appear, and no other page changes. */
  lemma InsertedInfo(maps: seq<Vmap>, v: Vmap, a: nat)
    requires WellFormed(maps) && FreeFor(maps, v)
    requires v.npages > 0 && v.vaddr % PAGE == 0
    ensures InfoAt(Inserted(maps, v), a) == if v.Contains(a) then Some(InfoOf(v, a)) else InfoAt(maps, a)
  {
    hide WellFormed, FreeFor, Inserted, Slot;
    var p := Slot(maps, v.vaddr, 0);
    var m := Inserted(maps, v);
    InsertedIndex(maps, v);
    InsertedWellFormed(maps, v);
    if v.Contains(a) {
      FindIs(m, a, p);
    } else if Find(maps, a).Some? {
      var k := Find(maps, a).value;
      FindIs(m, a, if k < p then k else k + 1);
    } else {
      forall k | 0 <= k < |m| ensures !m[k].Contains(a) {
        assert m[k] == if k < p then maps[k] else if k == p then v else maps[k - 1];
      }
    }
  }

  // ---------------------------------------------------------------- splitting

  function FirstPart(v: Vmap, n: nat): Vmap { v.(npages := n) }

  function SecondPart(v: Vmap, n: nat): Vmap
    requires n <= v.npages
  {
    v.(vaddr := v.vaddr + n * PAGE, npages := v.npages - n,
       ioOffset := if v.io.Some? then v.ioOffset + n * PAGE else v.ioOffset)
  }

  /** The list with mapping `i` cut after its first `n` pages. */
  function SplitAt(maps: seq<Vmap>, i: nat, n: nat): seq<Vmap>
    requires i < |maps| && n <= maps[i].npages
  {
    maps[..i] + [FirstPart(maps[i], n), SecondPart(maps[i], n)] + maps[i + 1..]
  }

  lemma SplitIndex(maps: seq<Vmap>, i: nat, n: nat)
    requires i < |maps| && n <= maps[i].npages
    ensures var m := SplitAt(maps, i, n);
            && |m| == |maps| + 1
            && m[i] == FirstPart(maps[i], n) && m[i + 1] == SecondPart(maps[i], n)
            && (forall k :: 0 <= k < i ==> m[k] == maps[k])
            && (forall k :: i + 1 < k < |m| ==> m[k] == maps[k - 1])
  {
  }

  lemma Aligned(maps: seq<Vmap>, i: nat)
    requires WellFormed(maps) && i < |maps|
    ensures maps[i].npages > 0 && maps[i].vaddr % PAGE == 0
  {
  }

  lemma SplitWellFormed(maps: seq<Vmap>, i: nat, n: nat)
    requires WellFormed(maps) && i < |maps| && 0 < n < maps[i].npages
    ensures WellFormed(SplitAt(maps, i, n))
  {
    var m := SplitAt(maps, i, n);
    SplitIndex(maps, i, n);
    assert m[i].End() == m[i + 1].vaddr && m[i + 1].End() == maps[i].End();
    forall j, k | 0 <= j < k < |m| ensures m[j].End() <= m[k].vaddr { SplitOrder(maps, i, n, j, k); }
  }

  lemma SplitOrder(maps: seq<Vmap>, i: nat, n: nat, j: nat, k: nat)
    requires WellFormed(maps) && i < |maps| && 0 < n < maps[i].npages && j < k < |SplitAt(maps, i, n)|
    ensures var m := SplitAt(maps, i, n); m[j].End() <= m[k].vaddr
  {
    SplitIndex(maps, i, n);
    var j' := if j <= i then j else j - 1;
    var k' := if k <= i then k else k - 1;
    assert j' < k' ==> maps[j'].End() <= maps[k'].vaddr;
  }

  /** Splitting is invisible to every page: flags, type, handler and file offset stay. */
  lemma SplitInfo(maps: seq<Vmap>, i: nat, n: nat, a: nat)
    requires WellFormed(maps) && i < |maps| && 0 < n < maps[i].npages
    ensures InfoAt(SplitAt(maps, i, n), a) == InfoAt(maps, a)
  {
    hide WellFormed, SplitAt;
    SplitWellFormed(maps, i, n);
    if Find(maps, a).Some? { SplitFound(maps, i, n, a); } else { SplitMissed(maps, i, n, a); }
  }

  lemma SplitFound(maps: seq<Vmap>, i: nat, n: nat, a: nat)
    requires WellFormed(maps) && i < |maps| && 0 < n < maps[i].npages && WellFormed(SplitAt(maps, i, n))
    requires Find(maps, a).Some?
    ensures InfoAt(SplitAt(maps, i, n), a) == InfoAt(maps, a)
  {
    hide WellFormed;
    var m, k := SplitAt(maps, i, n), Find(maps, a).value;
    SplitIndex(maps, i, n);
    FindIs(m, a, if k < i then k else if k > i then k + 1 else if a < m[i].End() then i else i + 1);
  }

  lemma SplitMissed(maps: seq<Vmap>, i: nat, n: nat, a: nat)
    requires i < |maps| && 0 < n < maps[i].npages && Find(maps, a).None?
    ensures InfoAt(SplitAt(maps, i, n), a) == InfoAt(maps, a)
  {
    var m := SplitAt(maps, i, n);
    SplitIndex(maps, i, n);
    forall k | 0 <= k < |m| ensures !m[k].Contains(a) {
      assert !maps[if k <= i then k else k - 1].Contains(a);
    }
  }

  /** The mapping that starts the second half of a split is attached right behind the first. */
  lemma SplitIsInsertion(maps: seq<Vmap>, i: nat, n: nat)
    requires WellFormed(maps) && i < |maps| && 0 < n < maps[i].npages
    ensures Inserted(maps[i := FirstPart(maps[i], n)], SecondPart(maps[i], n)) == SplitAt(maps, i, n)
    ensures Slot(maps[i := FirstPart(maps[i], n)], SecondPart(maps[i], n).vaddr, 0) == i + 1
  {
    var shrunk := maps[i := FirstPart(maps[i], n)];
    var v := SecondPart(maps[i], n);
    forall k | 0 <= k <= i ensures shrunk[k].vaddr <= v.vaddr {
      assert k < i ==> maps[k].End() <= maps[i].vaddr;
    }
    if i + 1 < |maps| {
      assert maps[i].End() <= maps[i + 1].vaddr;
      assert shrunk[i + 1].vaddr > v.vaddr;
    }
    assert Slot(shrunk, v.vaddr, 0) == i + 1;
    assert shrunk[..i + 1] == maps[..i] + [FirstPart(maps[i], n)];
    assert shrunk[i + 1..] == maps[i + 1..];
  }

  /** Replacing a mapping by one at the same place changes only its own pages. */
  lemma ReplacedInfo(maps: seq<Vmap>, i: nat, v: Vmap, a: nat)
    requires WellFormed(maps) && i < |maps| && v.vaddr == maps[i].vaddr && v.npages == maps[i].npages
    ensures WellFormed(maps[i := v])
    ensures InfoAt(maps[i := v], a) == if v.Contains(a) then Some(InfoOf(v, a)) else InfoAt(maps, a)
  {
    var m := maps[i := v];
    if v.Contains(a) {
      FindIs(m, a, i);
    } else if Find(maps, a).Some? {
      FindIs(m, a, Find(maps, a).value);
    }
  }

  function Removed(maps: seq<Vmap>, i: nat): seq<Vmap>
    requires i < |maps|
  {
    maps[..i] + maps[i + 1..]
  }

  lemma RemovedWellFormed(maps: seq<Vmap>, i: nat)
    requires WellFormed(maps) && i < |maps|
    ensures WellFormed(Removed(maps, i))
    ensures forall k :: 0 <= k < |Removed(maps, i)| ==>
              Removed(maps, i)[k] == if k < i then maps[k] else maps[k + 1]
  {
  }

  /** Removing a mapping unmaps exactly its pages. */
  lemma RemovedInfo(maps: seq<Vmap>, i: nat, a: nat)
    requires WellFormed(maps) && i < |maps|
    ensures InfoAt(Removed(maps, i), a) == if maps[i].Contains(a) then None else InfoAt(maps, a)
  {
    var m := Removed(maps, i);
    RemovedWellFormed(maps, i);
    if Find(maps, a).Some? && Find(maps, a).value != i {
      var k := Find(maps, a).value;
      assert if k < i then maps[k].End() <= maps[i].vaddr else maps[i].End() <= maps[k].vaddr;
      FindIs(m, a, if k < i then k else k - 1);
    } else {
      forall k | 0 <= k < |m| ensures !m[k].Contains(a) {
        var k' := if k < i then k else k + 1;
        assert if k' < i then maps[k'].End() <= maps[i].vaddr else maps[i].End() <= maps[k'].vaddr;
      }
    }
  }

  // ---------------------------------------------------------------- the address space

  /** The access state of the I/O object behind a file mapping. */
  datatype IoState = IoState(closed: bool, mmapable: bool, readable: bool, writable: bool)

  /** `io_mmap_perm_check` */
  predicate PermCheck(io: IoState, perm: Flags, isPrivate: bool) {
    && !io.closed && io.mmapable && io.readable
    && (perm.write ==> isPrivate || io.writable)
  }

  /** A kernel assertion that fails, or a null dereference, is a panic. */
  datatype Outcome = Done | Refused | Panic

  /** The page ranges of a mapping for which `vmap_split_for_range` does not panic. */
  predicate RangeSplits(v: Vmap, start: nat, end: nat) {
    start < end <= v.npages
  }

  /** The pages of the part it returns. */
  function ReturnedRange(v: Vmap, start: nat, end: nat): (nat, nat) {
    if start == 0 && end < v.npages then (end, v.npages) else (start, end)
  }

  lemma AlignedBelow(v: Vmap, addr: nat, size: nat)
    requires v.vaddr % PAGE == 0 && v.vaddr <= addr
    ensures v.vaddr <= AlignDownToPage(addr) <= AlignUpToPage(addr + size)
  {
  }

  /** Page numbers, relative to the mapping, of the range given to `munmap`. */
  function RequestedRange(v: Vmap, addr: nat, size: nat): (nat, nat)
    requires v.vaddr % PAGE == 0 && v.vaddr <= addr
  {
    AlignedBelow(v, addr, size);
    ((AlignDownToPage(addr) - v.vaddr) / PAGE, (AlignUpToPage(addr + size) - v.vaddr) / PAGE)
  }

  ghost function MunmapOutcome(maps: seq<Vmap>, addr: nat, size: nat): Outcome
    requires WellFormed(maps)
  {
    var f := Find(maps, addr);
    if f.None? then Refused
    else
      var (start, end) := RequestedRange(maps[f.value], addr, size);
      if RangeSplits(maps[f.value], start, end) then Done else Panic
  }

  /** Address `a` lies in the part of the mapping that `munmap` destroys. */
  ghost predicate Removes(maps: seq<Vmap>, addr: nat, size: nat, a: nat)
    requires WellFormed(maps)
  {
    var f := Find(maps, addr);
    && f.Some?
    && var v := maps[f.value];
       var (start, end) := RequestedRange(v, addr, size);
       var (from, to) := ReturnedRange(v, start, end);
       v.vaddr + from * PAGE <= a < v.vaddr + to * PAGE
  }

  /** Address `a` lies in a page touched by the range given to `munmap`. */
  predicate Requested(addr: nat, size: nat, a: nat) {
    AlignDownToPage(addr) <= a < AlignUpToPage(addr + size)
  }

  /** The range starts where its mapping starts, and ends before it. */
  ghost predicate ProperPrefix(maps: seq<Vmap>, addr: nat, size: nat) {
    var f := Find(maps, addr);
    f.Some? && AlignDownToPage(addr) == maps[f.value].vaddr && AlignUpToPage(addr + size) < maps[f.value].End()
  }

  /** The pages of the range are those of a mapping. */
  ghost predicate WholeMapping(maps: seq<Vmap>, addr: nat, size: nat) {
    var f := Find(maps, addr);
    f.Some? && AlignDownToPage(addr) == maps[f.value].vaddr && AlignUpToPage(addr + size) == maps[f.value].End()
  }

  /**
    A successful `munmap` removes exactly the requested pages if and only if the
    range is not a proper prefix of its mapping.
   */
  lemma MunmapExactness(maps: seq<Vmap>, addr: nat, size: nat)
    requires WellFormed(maps) && MunmapOutcome(maps, addr, size).Done?
    ensures (forall a :: Removes(maps, addr, size, a) <==> Requested(addr, size, a))
            <==> !ProperPrefix(maps, addr, size)
  {
    var v := maps[Find(maps, addr).value];
    var (start, end) := RequestedRange(v, addr, size);
    assert v.vaddr + start * PAGE == AlignDownToPage(addr) && v.vaddr + end * PAGE == AlignUpToPage(addr + size);
    if ProperPrefix(maps, addr, size) {
      assert start == 0 && end < v.npages;
      assert Requested(addr, size, v.vaddr) && !Removes(maps, addr, size, v.vaddr);
    }
  }

  /** `munmap` finds the mapping of its address or fails, and panics for a range that is empty or leaves the mapping. */
  lemma MunmapLaw(maps: seq<Vmap>, addr: nat, size: nat)
    requires WellFormed(maps)
    ensures MunmapOutcome(maps, addr, size).Refused? <==> forall v :: v in maps ==> !v.Contains(addr)
    ensures MunmapOutcome(maps, addr, size).Done? <==>
              exists v :: v in maps && v.Contains(addr) && AlignDownToPage(addr) < AlignUpToPage(addr + size) <= v.End()
  {
    var f := Find(maps, addr);
    if f.Some? {
      var v := maps[f.value];
      var (start, end) := RequestedRange(v, addr, size);
      assert v.vaddr + start * PAGE == AlignDownToPage(addr) && v.vaddr + end * PAGE == AlignUpToPage(addr + size);
      forall k | 0 <= k < |maps| && maps[k].Contains(addr) ensures k == f.value { FindIs(maps, addr, k); }
    }
  }

  /** What it removes of mapping `v`: the range, or all that lies behind the range. */
  lemma MunmapRemoves(maps: seq<Vmap>, addr: nat, size: nat, v: Vmap, a: nat)
    requires WellFormed(maps) && MunmapOutcome(maps, addr, size).Done? && v in maps && v.Contains(addr)
    ensures Removes(maps, addr, size, a) <==>
              if AlignDownToPage(addr) == v.vaddr && AlignUpToPage(addr + size) < v.End()
              then AlignUpToPage(addr + size) <= a < v.End()
              else AlignDownToPage(addr) <= a < AlignUpToPage(addr + size)
  {
    var k :| 0 <= k < |maps| && maps[k] == v;
    FindIs(maps, addr, k);
    var (start, end) := RequestedRange(v, addr, size);
    assert v.vaddr + start * PAGE == AlignDownToPage(addr) && v.vaddr + end * PAGE == AlignUpToPage(addr + size);
  }

  /** A two-page mapping of which the first page is to go loses the second instead. */
  lemma MunmapPrefixExample()
    ensures var v := Vmap(0x1000, 2, Flags(true, true, false, true), None, 0, Mmap, Private, Some(ZeroOnDemand));
            && WellFormed([v]) && MunmapOutcome([v], 0x1000, 0x1000).Done?
            && !Removes([v], 0x1000, 0x1000, 0x1000) && Removes([v], 0x1000, 0x1000, 0x2000)
  {
  }

  ghost function ProtectOutcome(ios: map<nat, IoState>, maps: seq<Vmap>, addr: nat, size: nat, perm: Flags): Outcome
    requires forall i :: 0 <= i < |maps| && maps[i].io.Some? ==> maps[i].io.value in ios
  {
    var f := Find(maps, addr);
    if addr % PAGE != 0 || f.None? || AlignUpToPage(size) == 0 then Panic
    else
      var v := maps[f.value];
      if v.io.Some? && !PermCheck(ios[v.io.value], perm, v.sharing.Private?) then Refused else Done
  }

  /** Address `a` lies in the requested range and in the mapping where the range starts. */
  ghost predicate Protects(maps: seq<Vmap>, addr: nat, size: nat, a: nat) {
    && Find(maps, addr).Some?
    && addr <= a < addr + AlignUpToPage(size) && maps[Find(maps, addr).value].Contains(a)
  }

  /**
    `vm_protect` panics where nothing is mapped, refuses what the file behind the
    mapping does not admit, and changes the rest of the mapping up to the size.
   */
  lemma ProtectLaw(ios: map<nat, IoState>, maps: seq<Vmap>, addr: nat, size: nat, perm: Flags, v: Vmap, a: nat)
    requires WellFormed(maps) && v in maps && v.Contains(addr)
    requires forall i :: 0 <= i < |maps| && maps[i].io.Some? ==> maps[i].io.value in ios
    ensures ProtectOutcome(ios, maps, addr, size, perm).Panic? <==> addr % PAGE != 0 || size == 0
    ensures addr % PAGE == 0 && size > 0 ==>
              (ProtectOutcome(ios, maps, addr, size, perm).Refused? <==>
                 && v.io.Some?
                 && var io := ios[v.io.value];
                    io.closed || !io.mmapable || !io.readable || (perm.write && v.sharing.Shared? && !io.writable))
    ensures Protects(maps, addr, size, a) <==> addr <= a < addr + AlignUpToPage(size) && a < v.End()
  {
    var k :| 0 <= k < |maps| && maps[k] == v;
    FindIs(maps, addr, k);
  }

  lemma ProtectedAreMapped(maps: seq<Vmap>, addr: nat, size: nat)
    requires WellFormed(maps)
    ensures forall a: nat :: Protects(maps, addr, size, a) ==> InfoAt(maps, a).Some?
  {
  }

  /** Changing the flags of the part carved out changes exactly the requested pages. */
  lemma ProtectedInfo(before: seq<Vmap>, between: seq<Vmap>, i: nat, addr: nat, size: nat, flags: Flags, a: nat)
    requires WellFormed(before) && WellFormed(between) && i < |between| && Find(before, addr).Some?
    requires var v := before[Find(before, addr).value]; var end := addr + AlignUpToPage(size);
             between[i].vaddr == addr && between[i].End() == if end < v.End() then end else v.End()
    requires InfoAt(between, a) == InfoAt(before, a)
    ensures WellFormed(between[i := between[i].(flags := flags)])
    ensures Protects(before, addr, size, a) ==> InfoAt(before, a).Some?
    ensures InfoAt(between[i := between[i].(flags := flags)], a) ==
              if Protects(before, addr, size, a) then Some(InfoAt(before, a).value.(flags := flags))
              else InfoAt(before, a)
  {
    var v, w := before[Find(before, addr).value], between[i].(flags := flags);
    ReplacedInfo(between, i, w, a);
    if w.Contains(a) { FindIs(between, a, i); }
    assert w.Contains(a) <==> Protects(before, addr, size, a);
  }

  /** Some mapping overlaps the `size` bytes from `a` on. */
  ghost predicate Taken(maps: seq<Vmap>, a: int, size: nat) {
    exists i :: 0 <= i < |maps| && maps[i].vaddr < a + size && a < maps[i].End()
  }

  /** No place from `lo` up to, but not including, `hi` is free. */
  ghost predicate AllTaken(maps: seq<Vmap>, lo: nat, hi: int, size: nat) {
    forall a :: lo <= a < hi ==> Taken(maps, a, size)
  }

  /** What a search for room finds; a base outside the user half trips an assertion. */
  datatype Place = At(addr: nat) | Full | BadBase

  class AddressSpace {
    var mmaps: seq<Vmap>

    ghost predicate Valid()
      reads this
    {
      WellFormed(mmaps)
    }

    constructor ()
      ensures Valid() && mmaps == []
    {
      mmaps := [];
    }

    /** `do_attach_vmap`: insert before the first mapping with a higher address. */
    method Attach(v: Vmap) returns (at: nat)
      modifies this
      ensures at == Slot(old(mmaps), v.vaddr, 0)
      ensures mmaps == Inserted(old(mmaps), v)
    {
      var k := 0;
      while k < |mmaps|
        invariant k <= |mmaps|
        invariant Slot(mmaps, v.vaddr, 0) == Slot(mmaps, v.vaddr, k)
      {
        if mmaps[k].vaddr > v.vaddr {
          mmaps := mmaps[..k] + [v] + mmaps[k..];
          return k;
        }
        k := k + 1;
      }
      mmaps := mmaps[..k] + [v] + mmaps[k..];
      return k;
    }

    /** `vmap_obtain` */
    method Obtain(a: nat) returns (r: Option<nat>)
      ensures r == Find(mmaps, a)
    {
      var k := 0;
      while k < |mmaps|
        invariant k <= |mmaps|
        invariant Find(mmaps, a) == FindFrom(mmaps, a, k)
      {
        if mmaps[k].Contains(a) { return Some(k); }
        k := k + 1;
      }
      return None;
    }

    /**
      `mm_get_free_vaddr_locked`: the lowest free place at or above `base`.  The
      search relies on the list being sorted: it never looks back.
     */
    method GetFree(npages: nat, base: nat, exact: bool) returns (r: Place)
      requires Valid()
      ensures r.BadBase? <==> base >= KERNEL_START
      ensures r.At? ==> base <= r.addr && !Taken(mmaps, r.addr, npages * PAGE) && (r.addr == base || r.addr % PAGE == 0)
      ensures exact && !r.BadBase? ==> r == if Taken(mmaps, base, npages * PAGE) then Full else At(base)
      ensures r.At? && !exact ==> r.addr + npages * PAGE <= KERNEL_START
      ensures r.At? && !exact ==> AllTaken(mmaps, base, r.addr, npages * PAGE)
      ensures r.Full? && !exact ==> AllTaken(mmaps, base, KERNEL_START - npages * PAGE + 1, npages * PAGE)
    {
      if base >= KERNEL_START { return BadBase; }
      var size := npages * PAGE;
      var k := 0;
      if exact {
        while k < |mmaps|
          invariant k <= |mmaps|
          invariant forall i :: 0 <= i < k ==> mmaps[i].End() <= base || base + size <= mmaps[i].vaddr
        {
          if mmaps[k].vaddr < base + size && mmaps[k].End() > base { return Full; }
          k := k + 1;
        }
        return At(base);
      }
      var retry := base;
      while k < |mmaps|
        invariant k <= |mmaps| && (retry == base || retry % PAGE == 0) && base <= retry
        invariant forall i :: 0 <= i < k ==> mmaps[i].End() <= retry
        invariant AllTaken(mmaps, base, retry, size)
      {
        if retry + size > KERNEL_START { return Full; }
        if mmaps[k].vaddr < retry + size && mmaps[k].End() > retry {
          forall a | retry <= a < mmaps[k].End() ensures Taken(mmaps, a, size) {
            assert mmaps[k].vaddr < a + size && a < mmaps[k].End();
          }
          retry := mmaps[k].End();
        }
        if retry + size <= mmaps[k].vaddr {
          forall i | 0 <= i < |mmaps| ensures mmaps[i].End() <= retry || retry + size <= mmaps[i].vaddr {
            if i > k { assert mmaps[k].End() <= mmaps[i].vaddr; }
          }
          return At(retry);
        }
        k := k + 1;
      }
      if retry + size <= KERNEL_START { return At(retry); }
      return Full;
    }

    /** `vmap_split`: a mapping and the new one behind it. */
    method Split(i: nat, n: nat) returns (second: nat)
      requires Valid() && i < |mmaps| && 0 < n < mmaps[i].npages
      modifies this
      ensures Valid() && second == i + 1
      ensures mmaps == SplitAt(old(mmaps), i, n)
      ensures forall a :: InfoAt(mmaps, a) == InfoAt(old(mmaps), a)
    {
      SplitWellFormed(mmaps, i, n);
      SplitIsInsertion(mmaps, i, n);
      ghost var before := mmaps;
      var v := SecondPart(mmaps[i], n);
      mmaps := mmaps[i := FirstPart(mmaps[i], n)];
      second := Attach(v);
      forall a ensures InfoAt(mmaps, a) == InfoAt(before, a) { SplitInfo(before, i, n, a); }
    }

    /**
      `vmap_split_for_range`, as it stands: for a range at the start of the
      mapping it hands back the part BEHIND the range.
     */
    method SplitForRange(i: nat, start: nat, end: nat) returns (r: Option<nat>)
      requires Valid() && i < |mmaps|
      modifies this
      ensures Valid() && forall a :: InfoAt(mmaps, a) == InfoAt(old(mmaps), a)
      ensures r.Some? <==> RangeSplits(old(mmaps)[i], start, end)
      ensures r.Some? ==>
                var v := old(mmaps)[i]; var (from, to) := ReturnedRange(v, start, end);
                && r.value < |mmaps|
                && mmaps[r.value].vaddr == v.vaddr + from * PAGE && mmaps[r.value].End() == v.vaddr + to * PAGE
                && (r.value == i <==> start == 0 && end == v.npages)
    {
      if start == 0 && end == mmaps[i].npages { return Some(i); }
      if start == 0 {
        if !(0 < end < mmaps[i].npages) { return None; }
        var j := Split(i, end);
        SplitIndex(old(mmaps), i, end);
        return Some(j);
      }
      if end == mmaps[i].npages {
        if !(start < mmaps[i].npages) { return None; }
        var j := Split(i, start);
        SplitIndex(old(mmaps), i, start);
        return Some(j);
      }
      var n := mmaps[i].npages;
      if !(start < n) { return None; }
      var j := Split(i, start);
      SplitIndex(old(mmaps), i, start);
      if !(start < end < n) { return None; }
      ghost var between := mmaps;
      var _ := Split(j, end - start);
      SplitIndex(between, j, end - start);
      return Some(j);
    }

    /** `vmap_destroy`, as far as the list is concerned. */
    method Destroy(i: nat)
      requires Valid() && i < |mmaps|
      modifies this
      ensures Valid() && mmaps == Removed(old(mmaps), i)
      ensures forall a :: InfoAt(mmaps, a) == if old(mmaps)[i].Contains(a) then None else InfoAt(old(mmaps), a)
    {
      ghost var before := mmaps;
      RemovedWellFormed(mmaps, i);
      mmaps := Removed(mmaps, i);
      forall a ensures InfoAt(mmaps, a) == if before[i].Contains(a) then None else InfoAt(before, a) {
        RemovedInfo(before, i, a);
      }
    }

    /** The first half of `munmap`: the part that will be destroyed is split off. */
    method Isolate(addr: nat, size: nat) returns (r: Outcome, i: nat, whole: bool)
      requires Valid()
      modifies this
      ensures Valid() && r == MunmapOutcome(old(mmaps), addr, size)
      ensures forall a :: InfoAt(mmaps, a) == InfoAt(old(mmaps), a)
      ensures r.Done? ==> i < |mmaps| && forall a: nat :: mmaps[i].Contains(a) <==> Removes(old(mmaps), addr, size, a)
      ensures whole <==> r.Done? && WholeMapping(old(mmaps), addr, size)
    {
      i := 0;
      var found := Obtain(addr);
      if found.None? { return Refused, i, false; }
      var v := mmaps[found.value];
      assert v.vaddr <= AlignDownToPage(addr);
      var start := (AlignDownToPage(addr) - v.vaddr) / PAGE;
      assert AlignUpToPage(addr + size) >= AlignDownToPage(addr);
      var end := (AlignUpToPage(addr + size) - v.vaddr) / PAGE;
      var part := SplitForRange(found.value, start, end);
      if part.None? { return Panic, i, false; }
      return Done, part.value, part.value == found.value;
    }

    /**
      `munmap`: what it really removes is described by `ReturnedRange`.  At the end
      the lock of the mapping that was found is released; `late` says that this
      mapping is the one that was destroyed, and has been freed.
     */
    method Munmap(addr: nat, size: nat) returns (r: Outcome, late: bool)
      requires Valid()
      modifies this
      ensures Valid()
      ensures r == MunmapOutcome(old(mmaps), addr, size)
      ensures forall a :: InfoAt(mmaps, a)
                == if r.Done? && Removes(old(mmaps), addr, size, a) then None else InfoAt(old(mmaps), a)
      ensures late <==> r.Done? && WholeMapping(old(mmaps), addr, size)
    {
      hide InfoAt, Removes, WellFormed;
      var i;
      r, i, late := Isolate(addr, size);
      if r.Done? { Destroy(i); }
    }

    /** `vm_protect` */
    method Protect(ios: map<nat, IoState>, addr: nat, size: nat, perm: Flags) returns (r: Outcome)
      requires Valid()
      requires forall i :: 0 <= i < |mmaps| && mmaps[i].io.Some? ==> mmaps[i].io.value in ios
      modifies this
      ensures Valid()
      ensures r == ProtectOutcome(ios, old(mmaps), addr, size, perm)
      ensures forall a :: InfoAt(mmaps, a) ==
                if r.Done? && Protects(old(mmaps), addr, size, a)
                then Some(InfoAt(old(mmaps), a).value.(flags := perm.(user := true)))
                else InfoAt(old(mmaps), a)
    {
      hide InfoAt, Protects, WellFormed;
      if addr % PAGE != 0 { return Panic; }
      var found := Obtain(addr);
      if found.None? { return Panic; }
      var v := mmaps[found.value];
      var part := Carve(found.value, addr, AlignUpToPage(size) / PAGE);
      if part.None? { return Panic; }
      var i := part.value;
      if mmaps[i].io.Some? && !PermCheck(ios[mmaps[i].io.value], perm, mmaps[i].sharing.Private?) {
        return Refused;
      }
      ghost var between := mmaps;
      ProtectedAreMapped(old(mmaps), addr, size);
      mmaps := mmaps[i := mmaps[i].(flags := perm.(user := true))];
      ProtectedInfo(old(mmaps), between, i, addr, size, perm.(user := true), 0);
      forall a: nat
        ensures InfoAt(mmaps, a) ==
                if Protects(old(mmaps), addr, size, a)
                then Some(InfoAt(old(mmaps), a).value.(flags := perm.(user := true)))
                else InfoAt(old(mmaps), a)
      {
        ProtectedInfo(old(mmaps), between, i, addr, size, perm.(user := true), a);
      }
      return Done;
    }

    /** The two splits of `vm_protect`: isolate up to `count` pages from `addr` on. */
    method Carve(i: nat, addr: nat, count: nat) returns (r: Option<nat>)
      requires Valid() && i < |mmaps| && addr % PAGE == 0 && mmaps[i].Contains(addr)
      modifies this
      ensures Valid() && forall a :: InfoAt(mmaps, a) == InfoAt(old(mmaps), a)
      ensures r.None? <==> count == 0
      ensures r.Some? ==>
                var v := old(mmaps)[i];
                && r.value < |mmaps| && mmaps[r.value].vaddr == addr
                && mmaps[r.value].End() == (if addr + count * PAGE < v.End() then addr + count * PAGE else v.End())
                && mmaps[r.value].io == v.io && mmaps[r.value].sharing == v.sharing
    {
      hide InfoAt, SplitAt, WellFormed;
      Aligned(mmaps, i);
      var k := i;
      var skip := (addr - mmaps[i].vaddr) / PAGE;
      if skip > 0 {
        // cut off what lies before `addr`
        k := Split(i, skip);
        SplitIndex(old(mmaps), i, skip);
      }
      if count < mmaps[k].npages {
        if count == 0 { return None; }
        // cut off what lies behind the range
        ghost var between := mmaps;
        var _ := Split(k, count);
        SplitIndex(between, k, count);
      }
      return Some(k);
    }
  }
}
