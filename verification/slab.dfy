/**
  The slab allocator: free lists threaded through the free slots of carved
  pages, and page runs for large blocks.

  Memory holds bytes and pointers; a stored pointer or length occupies eight
  cells, its fragments.  The allocator refines a map from block addresses to
  block contents.
 */
module Slab {
  import opened Basics
  import opened Rounding

  datatype Cell = Byte(b: nat) | Fragment(v: nat, k: nat)

  type Memory = nat -> Cell

  // ---------------------------------------------------------------- the geometry of a page

  /** Where the first slot of a page starts: the rounded size of the page header. */
  function Offset(s: nat): nat
    requires s > 0
  {
    AlignUp(8, s)
  }

  /** Links are pointer-sized, so slots are a multiple of eight bytes apart. */
  function Stride(s: nat): nat { s / 8 * 8 }

  /** The number of the last slot. */
  function LastSlot(s: nat): int
    requires s > 0
  {
    (PAGE - Offset(s)) / s - 1
  }

  /** Bytes an unused slot needs: at least a link. */
  function Foot(s: nat): nat { if s < 8 then 8 else s }

  lemma OffsetIs(s: nat)
    requires s > 0
    ensures Offset(s) == 8 * LowBit((s - 1) / 8 + 1) && 8 <= Offset(s) <= s + 7
  {
    var q := (s - 1) / 8;
    var r := (s - 1) % 8;
    assert s - 1 == 8 * q + r && 8 + (s - 1) == 8 * (q + 1) + r;
    AndNotHigh(q + 1, q, r);
    AndNotPrevious(q + 1);
  }

  /** One whole slot fits behind the header. */
  predicate Fits(s: nat) { s > 0 && Offset(s) + Foot(s) <= PAGE }

  /** A page yields one slot. */
  predicate Single(s: nat)
    requires s > 0
  {
    s < 8 || LastSlot(s) == 0
  }

  /** The entry sizes for which the allocator works. */
  predicate Regular(s: nat) { Fits(s) && (s % 8 == 0 || Single(s)) }

  /** Slots `j` and `k` of a page share a byte. */
  predicate Overlap(s: nat, j: nat, k: nat) {
    j * Stride(s) < k * Stride(s) + Foot(s) && k * Stride(s) < j * Stride(s) + Foot(s)
  }

  /** Distinct links lead to slots that do not overlap. */
  ghost predicate CarvesCleanly(s: nat)
    requires Fits(s)
  {
    forall j: nat, k: nat :: j <= LastSlot(s) && k <= LastSlot(s) && j * Stride(s) != k * Stride(s) ==>
          !Overlap(s, j, k)
  }

  /**
    Carving a page gives disjoint slots exactly for sizes that are a multiple of
    the pointer size, for sizes below it (which yield one slot a page), and for
    sizes of which only one slot fits.
   */
  lemma CarvesCleanlyWhen(s: nat)
    requires Fits(s)
    ensures CarvesCleanly(s) <==> Regular(s)
  {
    hide Offset;
    if s % 8 == 0 {
      forall j: nat, k: nat | j * Stride(s) != k * Stride(s) ensures !Overlap(s, j, k) { MultiplesClean(s, j, k); }
    } else if !Single(s) {
      assert 0 < Stride(s) < s;
      assert Overlap(s, 0, 1);
    }
  }

  lemma MultiplesClean(s: nat, j: nat, k: nat)
    requires s % 8 == 0 && s > 0 && j * Stride(s) != k * Stride(s)
    ensures !Overlap(s, j, k)
  {
    assert Stride(s) == s;
    Distribute(k, j, s);
    if j < k { AtLeastOnce(k - j, s); } else { Distribute(j, k, s); AtLeastOnce(j - k, s); }
  }

  /** A twelve-byte slab is carved into overlapping slots. */
  lemma TwelveByteSlotsOverlap()
    ensures Fits(12) && !CarvesCleanly(12)
  {
    OffsetIs(12);
    assert Offset(12) == 16 by { assert LowBit(2) == 2; }
    CarvesCleanlyWhen(12);
  }

  /** A slot of a page starts `o` bytes into it. */
  predicate InSlots(s: nat, o: nat)
    requires s > 0
  {
    o >= Offset(s) && o + Foot(s) <= PAGE && (if Single(s) then o == Offset(s) else (o - Offset(s)) % s == 0)
  }

  lemma SlotInside(s: nat, a: nat)
    requires Regular(s) && InSlots(s, a % PAGE)
    ensures a % PAGE >= 8 && a % PAGE + Foot(s) <= PAGE
  {
    OffsetIs(s);
  }

  lemma MultiplesApart(x: nat, y: nat, s: nat)
    requires s > 0 && x % s == 0 && y % s == 0 && x < y
    ensures x + s <= y
  {
    var k := y / s - x / s;
    assert k * s == y - x by { Distribute(y / s, x / s, s); }
    assert k >= 1 by { assert k <= 0 ==> k * s <= 0; }
    AtLeastOnce(k, s);
  }

  /** Distinct slots of equal size do not overlap. */
  lemma SlotsApart(s: nat, a: nat, b: nat)
    requires Regular(s) && InSlots(s, a % PAGE) && InSlots(s, b % PAGE) && a != b
    ensures a + Foot(s) <= b || b + Foot(s) <= a
  {
    SlotInside(s, a);
    SlotInside(s, b);
    if a / PAGE == b / PAGE && !Single(s) {
      var x, y := a % PAGE - Offset(s), b % PAGE - Offset(s);
      if x < y { MultiplesApart(x, y, s); } else { MultiplesApart(y, x, s); }
    }
  }

  // ---------------------------------------------------------------- memory

  ghost predicate HoldsWord(mem: Memory, a: nat, v: nat) {
    forall j: nat :: a <= j < a + 8 ==> mem(j) == Fragment(v, j - a)
  }

  function ReadWord(mem: Memory, a: nat): nat {
    if mem(a).Fragment? then mem(a).v else 0
  }

  function PutWord(mem: Memory, a: nat, v: nat): Memory {
    (x: nat) => if a <= x < a + 8 then Fragment(v, x - a) else mem(x)
  }

  function Zeroed(mem: Memory, a: nat, n: nat): Memory {
    (x: nat) => if a <= x < a + n then Byte(0) else mem(x)
  }

  function Copied(mem: Memory, to: nat, from: nat, n: nat): Memory {
    (x: nat) => if to <= x < to + n then mem(from + (x - to)) else mem(x)
  }

  function Poked(mem: Memory, a: nat, c: Cell): Memory {
    (x: nat) => if x == a then c else mem(x)
  }

  /** Only the given range may differ. */
  ghost predicate OnlyWithin(m: Memory, n: Memory, lo: nat, len: nat) {
    forall x: nat :: x < lo || lo + len <= x ==> m(x) == n(x)
  }

  function DataOf(mem: Memory, a: nat, n: nat): seq<Cell> {
    seq(n, (j: nat) => mem(a + j))
  }

  // ---------------------------------------------------------------- the state

  datatype SlabInfo = SlabInfo(entSize: nat, firstFree: nat, nobjs: int)

  /** What a used page is for: slots of a slab, or the block at the given address. */
  datatype Role = SlabPage(id: nat) | BlockPage(block: nat)

  /** Who answers for a live block. */
  datatype Owner = OfSlab(id: nat) | OfPages(pages: nat, size: nat)

  ghost predicate IsSlot(roles: map<nat, Role>, s: nat, id: nat, a: nat)
    requires s > 0
  {
    a / PAGE in roles && roles[a / PAGE] == SlabPage(id) && InSlots(s, a % PAGE)
  }

  function Link(list: seq<nat>, k: nat): nat { if k < |list| then list[k] else 0 }

  /** The free list runs through memory and ends in a null link. */
  ghost predicate FreeList(mem: Memory, first: nat, list: seq<nat>) {
    && first == Link(list, 0)
    && (forall k :: 0 <= k < |list| ==> HoldsWord(mem, list[k], Link(list, k + 1)))
  }

  ghost function LiveOf(objs: map<nat, Owner>, id: nat): set<nat> {
    set a | a in objs && objs[a] == OfSlab(id)
  }

  /** Free and live slots are all the carved slots, and no slot is both. */
  ghost predicate Partition(s: nat, id: nat, list: seq<nat>, objs: map<nat, Owner>, roles: map<nat, Role>)
    requires s > 0
  {
    && (forall a :: IsSlot(roles, s, id, a) <==> a in list || a in LiveOf(objs, id))
    && (forall a :: a in list ==> a !in LiveOf(objs, id))
  }

  ghost predicate SlabOk(mem: Memory, s: SlabInfo, id: nat, list: seq<nat>, objs: map<nat, Owner>,
                         roles: map<nat, Role>) {
    && Regular(s.entSize)
    && FreeList(mem, s.firstFree, list) && NoRepeats(list)
    && Partition(s.entSize, id, list, objs, roles)
    && s.nobjs == |LiveOf(objs, id)|
  }

  ghost predicate PageOk(mem: Memory, slabs: nat, objs: map<nat, Owner>, p: nat, r: Role) {
    p > 0 && match r
             case SlabPage(id) => id < slabs && HoldsWord(mem, p * PAGE, id)
             case BlockPage(b) => b in objs && objs[b].OfPages?
  }

  /** A large block: a page with its sizes, then the pages of the block. */
  ghost predicate BlockOk(mem: Memory, slabs: nat, roles: map<nat, Role>, a: nat, o: Owner) {
    match o
    case OfSlab(id) => id < slabs
    case OfPages(pages, size) =>
      && a % PAGE == 0 && a / PAGE > 1 && 0 < pages && size <= pages * PAGE
      && HoldsWord(mem, a - PAGE, pages) && HoldsWord(mem, a - PAGE + 8, size)
      && forall p :: a / PAGE - 1 <= p < a / PAGE + pages <==> p in roles && roles[p] == BlockPage(a)
  }

  ghost predicate Inv(mem: Memory, slabs: seq<SlabInfo>, lists: seq<seq<nat>>, objs: map<nat, Owner>,
                      roles: map<nat, Role>) {
    && |lists| == |slabs|
    && (forall i :: 0 <= i < |slabs| ==> SlabOk(mem, slabs[i], i, lists[i], objs, roles))
    && (forall p :: p in roles ==> PageOk(mem, |slabs|, objs, p, roles[p]))
    && (forall a :: a in objs ==> BlockOk(mem, |slabs|, roles, a, objs[a]))
  }

  function Capacity(slabs: seq<SlabInfo>, o: Owner): nat {
    match o
    case OfSlab(id) => if id < |slabs| then slabs[id].entSize else 0
    case OfPages(pages, _) => pages * PAGE
  }

  /** The blocks and their contents. */
  ghost function Blocks(mem: Memory, slabs: seq<SlabInfo>, objs: map<nat, Owner>): map<nat, seq<Cell>> {
    map a | a in objs :: DataOf(mem, a, Capacity(slabs, objs[a]))
  }

  // ---------------------------------------------------------------- what a write leaves alone

  ghost predicate Apart(a: nat, n: nat, b: nat, m: nat) { a + n <= b || b + m <= a }

  lemma WordStays(m: Memory, n: Memory, lo: nat, len: nat, a: nat, v: nat)
    requires OnlyWithin(m, n, lo, len) && Apart(lo, len, a, 8) && HoldsWord(m, a, v)
    ensures HoldsWord(n, a, v)
  {
  }

  lemma ListStays(m: Memory, n: Memory, lo: nat, len: nat, first: nat, list: seq<nat>)
    requires OnlyWithin(m, n, lo, len) && FreeList(m, first, list)
    requires forall a :: a in list ==> Apart(lo, len, a, 8)
    ensures FreeList(n, first, list)
  {
    forall k | 0 <= k < |list| ensures HoldsWord(n, list[k], Link(list, k + 1)) {
      assert list[k] in list;
      WordStays(m, n, lo, len, list[k], Link(list, k + 1));
    }
  }

  /** The range lies in one page. */
  ghost predicate OnPage(p: nat, lo: nat, len: nat) { p * PAGE <= lo && lo + len <= (p + 1) * PAGE }

  lemma PagesApart(p: nat, lo: nat, len: nat, q: nat, b: nat, m: nat)
    requires p != q && OnPage(p, lo, len) && OnPage(q, b, m)
    ensures Apart(lo, len, b, m)
  {
  }

  lemma SlotOnPage(s: nat, a: nat)
    requires Regular(s) && InSlots(s, a % PAGE)
    ensures OnPage(a / PAGE, a, Foot(s)) && a >= a / PAGE * PAGE + 8
  {
    SlotInside(s, a);
  }

  /** Words outside slots: page headers and block sizes. */
  ghost predicate WordsStay(roles: map<nat, Role>, objs: map<nat, Owner>, lo: nat, len: nat) {
    && (forall p :: p in roles && roles[p].SlabPage? ==> Apart(lo, len, p * PAGE, 8))
    && (forall a :: a in objs && objs[a].OfPages? && a >= PAGE ==> Apart(lo, len, a - PAGE, 16))
  }

  /** A write into a slot disturbs no header and no block size. */
  lemma SlotWordsStay(mem: Memory, slabs: seq<SlabInfo>, lists: seq<seq<nat>>, objs: map<nat, Owner>,
                      roles: map<nat, Role>, i: nat, a: nat)
    requires Inv(mem, slabs, lists, objs, roles) && i < |slabs| && Regular(slabs[i].entSize) &&
             IsSlot(roles, slabs[i].entSize, i, a)
    ensures WordsStay(roles, objs, a, Foot(slabs[i].entSize))
  {
    hide Regular, InSlots, HoldsWord;
    var s := slabs[i].entSize;
    SlotOnPage(s, a);
    forall p | p in roles && roles[p].SlabPage? ensures Apart(a, Foot(s), p * PAGE, 8) {
      if p != a / PAGE { PagesApart(a / PAGE, a, Foot(s), p, p * PAGE, 8); }
    }
    forall b | b in objs && objs[b].OfPages? && b >= PAGE ensures Apart(a, Foot(s), b - PAGE, 16) {
      assert BlockOk(mem, |slabs|, roles, b, objs[b]);
      assert b / PAGE - 1 in roles && roles[b / PAGE - 1] == BlockPage(b);
      PagesApart(a / PAGE, a, Foot(s), b / PAGE - 1, b - PAGE, 16);
    }
  }

  /** A write into a slot disturbs no other slot. */
  lemma OtherSlotsApart(mem: Memory, slabs: seq<SlabInfo>, lists: seq<seq<nat>>, objs: map<nat, Owner>,
                        roles: map<nat, Role>, i: nat, a: nat, j: nat, b: nat)
    requires Inv(mem, slabs, lists, objs, roles) && i < |slabs| && j < |slabs|
    requires Regular(slabs[i].entSize) && IsSlot(roles, slabs[i].entSize, i, a)
    requires Regular(slabs[j].entSize) && IsSlot(roles, slabs[j].entSize, j, b) && a != b
    ensures Apart(a, Foot(slabs[i].entSize), b, Foot(slabs[j].entSize))
  {
    if a / PAGE == b / PAGE {
      SlotsApart(slabs[i].entSize, a, b);
    } else {
      SlotOnPage(slabs[i].entSize, a);
      SlotOnPage(slabs[j].entSize, b);
      PagesApart(a / PAGE, a, Foot(slabs[i].entSize), b / PAGE, b, Foot(slabs[j].entSize));
    }
  }

  lemma PagesOkStay(m: Memory, n: Memory, slabs: seq<SlabInfo>, lists: seq<seq<nat>>, objs: map<nat, Owner>,
                    roles: map<nat, Role>, lo: nat, len: nat)
    requires Inv(m, slabs, lists, objs, roles) && OnlyWithin(m, n, lo, len) && WordsStay(roles, objs, lo, len)
    ensures forall p :: p in roles ==> PageOk(n, |slabs|, objs, p, roles[p])
    ensures forall a :: a in objs ==> BlockOk(n, |slabs|, roles, a, objs[a])
  {
  }

  /** The slabs other than `i` stay in order when only slot `a` of slab `i` is written. */
  lemma OtherSlabStays(m: Memory, n: Memory, slabs: seq<SlabInfo>, lists: seq<seq<nat>>, objs: map<nat, Owner>,
                       roles: map<nat, Role>, i: nat, a: nat, j: nat)
    requires Inv(m, slabs, lists, objs, roles) && i < |slabs| && j < |slabs| && j != i
    requires Regular(slabs[i].entSize) && IsSlot(roles, slabs[i].entSize, i, a)
    requires OnlyWithin(m, n, a, Foot(slabs[i].entSize))
    ensures SlabOk(n, slabs[j], j, lists[j], objs, roles)
  {
    assert SlabOk(m, slabs[j], j, lists[j], objs, roles);
    forall b | b in lists[j] ensures Apart(a, Foot(slabs[i].entSize), b, 8) {
      assert IsSlot(roles, slabs[j].entSize, j, b);
      OtherSlotsApart(m, slabs, lists, objs, roles, i, a, j, b);
    }
    ListStays(m, n, a, Foot(slabs[i].entSize), slabs[j].firstFree, lists[j]);
  }

  // ---------------------------------------------------------------- taking and returning a slot

  ghost function Popped(lists: seq<seq<nat>>, i: nat): seq<seq<nat>>
    requires i < |lists| && lists[i] != []
  {
    lists[i := lists[i][1..]]
  }

  function Taken(s: SlabInfo, next: nat): SlabInfo { s.(firstFree := next, nobjs := s.nobjs + 1) }

  function Returned(s: SlabInfo, a: nat): SlabInfo { s.(firstFree := a, nobjs := s.nobjs - 1) }

  lemma LiveAdded(objs: map<nat, Owner>, a: nat, i: nat, j: nat)
    requires a !in objs
    ensures LiveOf(objs[a := OfSlab(i)], j) == LiveOf(objs, j) + (if i == j then {a} else {})
    ensures |LiveOf(objs[a := OfSlab(i)], j)| == |LiveOf(objs, j)| + (if i == j then 1 else 0)
  {
  }

  lemma LiveRemoved(objs: map<nat, Owner>, a: nat, j: nat)
    requires a in objs
    ensures LiveOf(objs - {a}, j) == LiveOf(objs, j) - {a}
    ensures |LiveOf(objs - {a}, j)| == |LiveOf(objs, j)| - (if objs[a] == OfSlab(j) then 1 else 0)
  {
  }

  /** Live blocks are carved slots or whole pages. */
  lemma WhereBlocksAre(mem: Memory, slabs: seq<SlabInfo>, lists: seq<seq<nat>>, objs: map<nat, Owner>,
                       roles: map<nat, Role>, a: nat)
    requires Inv(mem, slabs, lists, objs, roles) && a in objs
    ensures objs[a].OfPages? ==> a % PAGE == 0 && a > 0
    ensures objs[a].OfSlab? ==> objs[a].id < |slabs| && Regular(slabs[objs[a].id].entSize)
                                && IsSlot(roles, slabs[objs[a].id].entSize, objs[a].id, a) && a % PAGE >= 8
  {
    assert BlockOk(mem, |slabs|, roles, a, objs[a]);
    if objs[a].OfSlab? {
      var j := objs[a].id;
      assert SlabOk(mem, slabs[j], j, lists[j], objs, roles);
      assert a in LiveOf(objs, j);
      SlotInside(slabs[j].entSize, a);
    }
  }

  /** A free slot is not a live block. */
  lemma FreeIsDead(mem: Memory, slabs: seq<SlabInfo>, lists: seq<seq<nat>>, objs: map<nat, Owner>,
                   roles: map<nat, Role>, i: nat, a: nat)
    requires Inv(mem, slabs, lists, objs, roles) && i < |slabs| && a in lists[i]
    ensures a !in objs && Regular(slabs[i].entSize) && IsSlot(roles, slabs[i].entSize, i, a) && a > 0
  {
    assert SlabOk(mem, slabs[i], i, lists[i], objs, roles);
    assert IsSlot(roles, slabs[i].entSize, i, a) && a !in LiveOf(objs, i);
    SlotInside(slabs[i].entSize, a);
    forall b | b in objs ensures b != a { WhereBlocksAre(mem, slabs, lists, objs, roles, b); }
  }

  lemma SlabGainsObject(m: Memory, s: SlabInfo, j: nat, list: seq<nat>, objs: map<nat, Owner>, roles: map<nat, Role>,
                        i: nat, a: nat)
    requires SlabOk(m, s, j, list, objs, roles) && a !in objs && i != j
    ensures SlabOk(m, s, j, list, objs[a := OfSlab(i)], roles)
  {
    LiveAdded(objs, a, i, j);
  }

  lemma SlabLosesObject(m: Memory, s: SlabInfo, j: nat, list: seq<nat>, objs: map<nat, Owner>, roles: map<nat, Role>,
                        a: nat)
    requires SlabOk(m, s, j, list, objs, roles) && a in objs && objs[a] != OfSlab(j)
    ensures SlabOk(m, s, j, list, objs - {a}, roles)
  {
    LiveRemoved(objs, a, j);
  }

  lemma ListPops(m: Memory, n: Memory, s: nat, i: nat, list: seq<nat>, objs: map<nat, Owner>, roles: map<nat, Role>)
    requires Regular(s) && FreeList(m, Link(list, 0), list) && NoRepeats(list) && list != []
    requires Partition(s, i, list, objs, roles) && OnlyWithin(m, n, list[0], Foot(s))
    ensures FreeList(n, ReadWord(m, list[0]), list[1..]) && NoRepeats(list[1..])
  {
    var a := list[0];
    var rest := list[1..];
    assert HoldsWord(m, a, Link(list, 1));
    assert m(a) == Fragment(Link(list, 1), 0);
    forall k | 0 <= k < |rest| ensures HoldsWord(n, rest[k], Link(rest, k + 1)) {
      assert rest[k] == list[k + 1] && rest[k] in list && a in list && rest[k] != a;
      assert IsSlot(roles, s, i, rest[k]) && IsSlot(roles, s, i, a);
      SlotsApart(s, a, rest[k]);
      WordStays(m, n, a, Foot(s), rest[k], Link(list, k + 2));
    }
  }

  lemma FirstTaken(m: Memory, n: Memory, s: SlabInfo, i: nat, list: seq<nat>, objs: map<nat, Owner>,
                   roles: map<nat, Role>)
    requires SlabOk(m, s, i, list, objs, roles) && list != [] && list[0] !in objs
    requires OnlyWithin(m, n, list[0], Foot(s.entSize))
    ensures SlabOk(n, Taken(s, ReadWord(m, list[0])), i, list[1..], objs[list[0] := OfSlab(i)], roles)
  {
    hide FreeList, Regular, OnlyWithin, IsSlot;
    var a := list[0];
    assert s.firstFree == Link(list, 0) by { FirstIs(m, s.firstFree, list); }
    ListPops(m, n, s.entSize, i, list, objs, roles);
    LiveAdded(objs, a, i, i);
    hide LiveOf;
    assert a !in list[1..];
    assert forall b :: b in list <==> b == a || b in list[1..];
  }

  lemma FirstIs(m: Memory, first: nat, list: seq<nat>)
    requires FreeList(m, first, list)
    ensures first == Link(list, 0)
  {
  }

  lemma ListPushes(m: Memory, s: nat, i: nat, list: seq<nat>, objs: map<nat, Owner>, roles: map<nat, Role>, a: nat)
    requires Regular(s) && FreeList(m, Link(list, 0), list) && NoRepeats(list)
    requires Partition(s, i, list, objs, roles) && a in LiveOf(objs, i)
    ensures FreeList(PutWord(m, a, Link(list, 0)), a, [a] + list) && NoRepeats([a] + list)
  {
    hide InSlots, LiveOf, Offset, Single;
    var n := PutWord(m, a, Link(list, 0));
    var longer := [a] + list;
    assert IsSlot(roles, s, i, a);
    assert a !in list;
    forall b | b in list ensures Apart(a, 8, b, 8) {
      assert IsSlot(roles, s, i, b);
      SlotsApart(s, a, b);
    }
    ListStays(m, n, a, 8, Link(list, 0), list);
    forall k | 0 <= k < |longer| ensures HoldsWord(n, longer[k], Link(longer, k + 1)) {
      if k > 0 { assert longer[k] == list[k - 1] && Link(longer, k + 1) == Link(list, k); }
    }
    PushNoRepeats(a, list);
  }

  lemma PushNoRepeats(a: nat, list: seq<nat>)
    requires NoRepeats(list) && a !in list
    ensures NoRepeats([a] + list)
  {
    var longer := [a] + list;
    forall j, k | 0 <= j < k < |longer| ensures longer[j] != longer[k] {
      assert longer[k] == list[k - 1] && longer[k] in list;
    }
  }

  lemma SlotReturned(m: Memory, s: SlabInfo, i: nat, list: seq<nat>, objs: map<nat, Owner>, roles: map<nat, Role>,
                     a: nat)
    requires SlabOk(m, s, i, list, objs, roles) && a in objs && objs[a] == OfSlab(i)
    ensures SlabOk(PutWord(m, a, s.firstFree), Returned(s, a), i, [a] + list, objs - {a}, roles)
  {
    hide FreeList, Regular, IsSlot;
    assert s.firstFree == Link(list, 0) by { FirstIs(m, s.firstFree, list); }
    ListPushes(m, s.entSize, i, list, objs, roles, a);
    LiveRemoved(objs, a, i);
    assert forall b :: b in [a] + list <==> b == a || b in list;
  }

  lemma TakeKeeps(m: Memory, n: Memory, slabs: seq<SlabInfo>, lists: seq<seq<nat>>, objs: map<nat, Owner>,
                  roles: map<nat, Role>, i: nat)
    requires Inv(m, slabs, lists, objs, roles) && i < |slabs| && lists[i] != []
    requires OnlyWithin(m, n, lists[i][0], Foot(slabs[i].entSize))
    ensures var a := lists[i][0];
            Inv(n, slabs[i := Taken(slabs[i], ReadWord(m, a))], Popped(lists, i), objs[a := OfSlab(i)], roles)
  {
    hide Regular, InSlots, FreeList, HoldsWord, OnlyWithin;
    var a := lists[i][0];
    var objs' := objs[a := OfSlab(i)];
    var slabs' := slabs[i := Taken(slabs[i], ReadWord(m, a))];
    FreeIsDead(m, slabs, lists, objs, roles, i, a);
    assert SlabOk(m, slabs[i], i, lists[i], objs, roles);
    FirstTaken(m, n, slabs[i], i, lists[i], objs, roles);
    forall j | 0 <= j < |slabs| && j != i ensures SlabOk(n, slabs'[j], j, Popped(lists, i)[j], objs', roles) {
      OtherSlabStays(m, n, slabs, lists, objs, roles, i, a, j);
      SlabGainsObject(n, slabs[j], j, lists[j], objs, roles, i, a);
    }
    SlotWordsStay(m, slabs, lists, objs, roles, i, a);
    PagesOkStay(m, n, slabs, lists, objs, roles, a, Foot(slabs[i].entSize));
  }

  lemma FootAtLeast(s: nat)
    ensures Foot(s) >= 8
  {
  }

  lemma ReturnKeeps(m: Memory, slabs: seq<SlabInfo>, lists: seq<seq<nat>>, objs: map<nat, Owner>,
                    roles: map<nat, Role>, i: nat, a: nat)
    requires Inv(m, slabs, lists, objs, roles) && i < |slabs| && a in objs && objs[a] == OfSlab(i)
    ensures Inv(PutWord(m, a, slabs[i].firstFree), slabs[i := Returned(slabs[i], a)], lists[i := [a] + lists[i]],
            objs - {a}, roles)
  {
    hide Regular, IsSlot, Partition, FreeList, HoldsWord, LiveOf;
    var n := PutWord(m, a, slabs[i].firstFree);
    assert SlabOk(m, slabs[i], i, lists[i], objs, roles);
    WhereBlocksAre(m, slabs, lists, objs, roles, a);
    FootAtLeast(slabs[i].entSize);
    SlotReturned(m, slabs[i], i, lists[i], objs, roles, a);
    forall j | 0 <= j < |slabs| && j != i ensures SlabOk(n, slabs[j], j, lists[j], objs - {a}, roles) {
      OtherSlabStays(m, n, slabs, lists, objs, roles, i, a, j);
      SlabLosesObject(n, slabs[j], j, lists[j], objs, roles, a);
    }
    SlotWordsStay(m, slabs, lists, objs, roles, i, a);
    PagesOkStay(m, n, slabs, lists, objs, roles, a, Foot(slabs[i].entSize));
  }

  // ---------------------------------------------------------------- carving a page

  function SlotCount(s: nat): nat
    requires Fits(s)
  {
    if Single(s) then 1 else (PAGE - Offset(s)) / s
  }

  function SlotAt(s: nat, p: nat, k: nat): nat
    requires s > 0
  {
    p * PAGE + Offset(s) + k * Stride(s)
  }

  /** The slots of page `p`, in the order they are linked. */
  ghost function SlotList(s: nat, p: nat): seq<nat>
    requires Fits(s)
  {
    seq(SlotCount(s), (k: nat) => SlotAt(s, p, k))
  }

  lemma DivideBound(n: nat, s: nat, k: nat)
    requires s > 0
    ensures k < n / s <==> k * s + s <= n
  {
    var q := n / s;
    assert q * s <= n < q * s + s;
    if k < q { Distribute(q, k, s); AtLeastOnce(q - k, s); }
    else if k > q { Distribute(k, q, s); AtLeastOnce(k - q, s); }
  }

  lemma SlotAtInside(s: nat, p: nat, k: nat)
    requires Regular(s) && k < SlotCount(s)
    ensures SlotAt(s, p, k) / PAGE == p && InSlots(s, SlotAt(s, p, k) % PAGE)
  {
    hide Offset;
    OffsetIs(s);
    var o := Offset(s) + k * Stride(s);
    if !Single(s) {
      DivideBound(PAGE - Offset(s), s, k);
      assert Stride(s) == s;
      Quotient(k * s, s, k, 0);
    }
    Quotient(SlotAt(s, p, k), PAGE, p, o);
  }

  lemma ExactQuotient(d: nat, s: nat) returns (k: nat)
    requires s > 0 && d % s == 0
    ensures k * s == d
  {
    k := d / s;
  }

  lemma SlotHasNumber(s: nat, p: nat, a: nat)
    requires Regular(s) && a / PAGE == p && InSlots(s, a % PAGE)
    ensures a in SlotList(s, p)
  {
    hide Offset;
    if Single(s) {
      assert SlotList(s, p)[0] == a;
    } else {
      var k := ExactQuotient(a % PAGE - Offset(s), s);
      DivideBound(PAGE - Offset(s), s, k);
      assert Stride(s) == s;
      assert SlotList(s, p)[k] == SlotAt(s, p, k) == a;
    }
  }

  lemma SlotListCovers(s: nat, p: nat)
    requires Regular(s)
    ensures forall a :: a in SlotList(s, p) <==> a / PAGE == p && InSlots(s, a % PAGE)
    ensures NoRepeats(SlotList(s, p))
  {
    var list := SlotList(s, p);
    forall a: nat ensures a in list <==> a / PAGE == p && InSlots(s, a % PAGE) {
      if a in list {
        var k :| 0 <= k < |list| && list[k] == a;
        SlotAtInside(s, p, k);
      }
      if a / PAGE == p && InSlots(s, a % PAGE) { SlotHasNumber(s, p, a); }
    }
    forall j, k | 0 <= j < k < |list| ensures list[j] != list[k] {
      assert Stride(s) == s;
      Distribute(k, j, s);
      AtLeastOnce(k - j, s);
    }
  }

  /** All links of a carved page are in place. */
  ghost predicate Carved(m: Memory, n: Memory, s: nat, id: nat, p: nat)
    requires Fits(s)
  {
    && OnlyWithin(m, n, p * PAGE, PAGE)
    && HoldsWord(n, p * PAGE, id)
    && FreeList(n, SlotAt(s, p, 0), SlotList(s, p))
  }

  /** Nothing in use lies on a page that has no role. */
  lemma FreshPageUnused(mem: Memory, slabs: seq<SlabInfo>, lists: seq<seq<nat>>, objs: map<nat, Owner>,
                        roles: map<nat, Role>, p: nat, len: nat)
    requires Inv(mem, slabs, lists, objs, roles)
    requires forall q :: p <= q < p + len ==> q !in roles
    ensures WordsStay(roles, objs, p * PAGE, len * PAGE)
    ensures forall j, a :: 0 <= j < |slabs| && a in lists[j] ==> Apart(p * PAGE, len * PAGE, a, 8)
  {
    forall b | b in objs && objs[b].OfPages? && b >= PAGE ensures Apart(p * PAGE, len * PAGE, b - PAGE, 16) {
      assert BlockOk(mem, |slabs|, roles, b, objs[b]);
      assert b / PAGE - 1 in roles;
    }
    forall j, a | 0 <= j < |slabs| && a in lists[j] ensures Apart(p * PAGE, len * PAGE, a, 8) {
      FreeIsDead(mem, slabs, lists, objs, roles, j, a);
      SlotOnPage(slabs[j].entSize, a);
    }
  }

  lemma SlabGainsPage(m: Memory, n: Memory, s: SlabInfo, i: nat, objs: map<nat, Owner>, roles: map<nat, Role>, p: nat)
    requires SlabOk(m, s, i, [], objs, roles) && p !in roles
    requires Fits(s.entSize) && Carved(m, n, s.entSize, i, p)
    ensures SlabOk(n, s.(firstFree := SlotAt(s.entSize, p, 0)), i, SlotList(s.entSize, p), objs,
            roles[p := SlabPage(i)])
  {
    hide FreeList, Regular, InSlots, SlotList, LiveOf;
    SlotListCovers(s.entSize, p);
    forall a: nat
      ensures IsSlot(roles[p := SlabPage(i)], s.entSize, i, a) <==> a in SlotList(s.entSize, p) || a in LiveOf(objs, i)
    {
      assert IsSlot(roles, s.entSize, i, a) <==> a in LiveOf(objs, i);
    }
    forall a | a in SlotList(s.entSize, p) ensures a !in LiveOf(objs, i) {
      assert !IsSlot(roles, s.entSize, i, a);
    }
  }

  lemma OtherSlabKeepsPages(m: Memory, s: SlabInfo, j: nat, list: seq<nat>, objs: map<nat, Owner>,
                            roles: map<nat, Role>, more: map<nat, Role>)
    requires SlabOk(m, s, j, list, objs, roles)
    requires forall p :: p in more <==> (p in roles || (p in more && more[p] != SlabPage(j)))
    requires forall p :: p in roles ==> p in more && (roles[p] == SlabPage(j) <==> more[p] == SlabPage(j))
    ensures SlabOk(m, s, j, list, objs, more)
  {
  }

  lemma CarveKeeps(m: Memory, n: Memory, slabs: seq<SlabInfo>, lists: seq<seq<nat>>, objs: map<nat, Owner>,
                   roles: map<nat, Role>, i: nat, p: nat)
    requires Inv(m, slabs, lists, objs, roles) && i < |slabs| && lists[i] == [] && p !in roles && p > 0
    requires Fits(slabs[i].entSize) && Carved(m, n, slabs[i].entSize, i, p)
    ensures Inv(n, slabs[i := slabs[i].(firstFree := SlotAt(slabs[i].entSize, p, 0))],
                lists[i := SlotList(slabs[i].entSize, p)], objs, roles[p := SlabPage(i)])
  {
    hide FreeList, Regular, SlotList, Partition, LiveOf;
    var more := roles[p := SlabPage(i)];
    FreshPageUnused(m, slabs, lists, objs, roles, p, 1);
    assert SlabOk(m, slabs[i], i, [], objs, roles);
    SlabGainsPage(m, n, slabs[i], i, objs, roles, p);
    forall j | 0 <= j < |slabs| && j != i ensures SlabOk(n, slabs[j], j, lists[j], objs, more) {
      assert SlabOk(m, slabs[j], j, lists[j], objs, roles);
      ListStays(m, n, p * PAGE, PAGE, slabs[j].firstFree, lists[j]);
      OtherSlabKeepsPages(n, slabs[j], j, lists[j], objs, roles, more);
    }
    PagesOkStay(m, n, slabs, lists, objs, roles, p * PAGE, PAGE);
    forall a | a in objs ensures BlockOk(n, |slabs|, more, a, objs[a]) {
      assert BlockOk(n, |slabs|, roles, a, objs[a]);
    }
  }

  /** A new slab owns nothing yet. */
  lemma RegisterKeeps(m: Memory, slabs: seq<SlabInfo>, lists: seq<seq<nat>>, objs: map<nat, Owner>,
                      roles: map<nat, Role>, s: nat)
    requires Inv(m, slabs, lists, objs, roles) && Regular(s)
    ensures Inv(m, slabs + [SlabInfo(s, 0, 0)], lists + [[]], objs, roles)
  {
  }

  // ---------------------------------------------------------------- large blocks

  /** The pages of the large block at `a`, its size page included. */
  function BlockRoles(a: nat, pages: nat): map<nat, Role> {
    var run := PageRun(if a < PAGE then 0 else a / PAGE - 1, pages + 1);
    map p | p in run :: BlockPage(a)
  }

  /** `n` pages from page `b` on. */
  function PageRun(b: nat, n: nat): (r: set<nat>)
    ensures forall p :: p in r <==> b <= p < b + n
  {
    if n == 0 then {} else PageRun(b, n - 1) + {b + n - 1}
  }

  lemma SlabKeepsMem(m: Memory, n: Memory, s: SlabInfo, j: nat, list: seq<nat>, objs: map<nat, Owner>,
                     roles: map<nat, Role>, lo: nat, len: nat)
    requires SlabOk(m, s, j, list, objs, roles) && OnlyWithin(m, n, lo, len)
    requires forall a :: a in list ==> Apart(lo, len, a, 8)
    ensures SlabOk(n, s, j, list, objs, roles)
  {
    ListStays(m, n, lo, len, s.firstFree, list);
  }

  lemma SlabIgnoresBlock(m: Memory, s: SlabInfo, j: nat, list: seq<nat>, objs: map<nat, Owner>,
                         roles: map<nat, Role>, a: nat, o: Owner)
    requires SlabOk(m, s, j, list, objs, roles) && o.OfPages? && (a in objs ==> objs[a].OfPages?)
    ensures SlabOk(m, s, j, list, objs[a := o], roles)
  {
    assert LiveOf(objs[a := o], j) == LiveOf(objs, j);
  }

  lemma FreshBlockIsNew(m: Memory, slabs: seq<SlabInfo>, lists: seq<seq<nat>>, objs: map<nat, Owner>,
                        roles: map<nat, Role>, a: nat)
    requires Inv(m, slabs, lists, objs, roles) && a % PAGE == 0 && a / PAGE !in roles
    ensures a !in objs
  {
    forall b | b in objs ensures b != a {
      WhereBlocksAre(m, slabs, lists, objs, roles, b);
      assert BlockOk(m, |slabs|, roles, b, objs[b]);
    }
  }

  lemma BlockKeeps(m: Memory, n: Memory, slabs: seq<SlabInfo>, lists: seq<seq<nat>>, objs: map<nat, Owner>,
                   roles: map<nat, Role>, b: nat, pages: nat, size: nat)
    requires Inv(m, slabs, lists, objs, roles) && b > 0 && 0 < pages && size <= pages * PAGE
    requires forall q :: b <= q < b + pages + 1 ==> q !in roles
    requires OnlyWithin(m, n, b * PAGE, PAGE) && HoldsWord(n, b * PAGE, pages) && HoldsWord(n, b * PAGE + 8, size)
    ensures var a := (b + 1) * PAGE;
            a !in objs && Inv(n, slabs, lists, objs[a := OfPages(pages, size)], roles + BlockRoles(a, pages))
  {
    hide SlabOk;
    var a := (b + 1) * PAGE;
    var o := OfPages(pages, size);
    var more := roles + BlockRoles(a, pages);
    assert a / PAGE == b + 1;
    FreshBlockIsNew(m, slabs, lists, objs, roles, a);
    FreshPageUnused(m, slabs, lists, objs, roles, b, 1);
    forall j | 0 <= j < |slabs| ensures SlabOk(n, slabs[j], j, lists[j], objs[a := o], more) {
      assert SlabOk(m, slabs[j], j, lists[j], objs, roles);
      SlabKeepsMem(m, n, slabs[j], j, lists[j], objs, roles, b * PAGE, PAGE);
      SlabIgnoresBlock(n, slabs[j], j, lists[j], objs, roles, a, o);
      OtherSlabKeepsPages(n, slabs[j], j, lists[j], objs[a := o], roles, more);
    }
    PagesOkStay(m, n, slabs, lists, objs, roles, b * PAGE, PAGE);
    forall p | p in more ensures PageOk(n, |slabs|, objs[a := o], p, more[p]) {
      if p in roles { assert PageOk(n, |slabs|, objs, p, roles[p]); }
    }
    var after := objs[a := o];
    forall c | c in after ensures BlockOk(n, |slabs|, more, c, after[c]) {
      if c != a { assert BlockOk(n, |slabs|, roles, c, objs[c]); }
      else { RolesOfNewBlock(roles, objs, a, pages); NoPageOf(m, slabs, lists, objs, roles, a); }
    }
  }

  lemma NoPageOf(m: Memory, slabs: seq<SlabInfo>, lists: seq<seq<nat>>, objs: map<nat, Owner>, roles: map<nat, Role>,
                 a: nat)
    requires Inv(m, slabs, lists, objs, roles) && a !in objs
    ensures forall p :: p in roles ==> roles[p] != BlockPage(a)
  {
  }

  lemma RolesOfNewBlock(roles: map<nat, Role>, objs: map<nat, Owner>, a: nat, pages: nat)
    ensures forall p :: p in roles + BlockRoles(a, pages) && p !in BlockRoles(a, pages) ==>
              p in roles && (roles + BlockRoles(a, pages))[p] == roles[p]
  {
  }

  lemma UnblockKeeps(m: Memory, slabs: seq<SlabInfo>, lists: seq<seq<nat>>, objs: map<nat, Owner>,
                     roles: map<nat, Role>, a: nat)
    requires Inv(m, slabs, lists, objs, roles) && a in objs && objs[a].OfPages?
    ensures Inv(m, slabs, lists, objs - {a}, roles - BlockRoles(a, objs[a].pages).Keys)
  {
    var gone := BlockRoles(a, objs[a].pages).Keys;
    var less := roles - gone;
    assert BlockOk(m, |slabs|, roles, a, objs[a]);
    assert forall p :: p in gone <==> p in roles && roles[p] == BlockPage(a);
    forall j | 0 <= j < |slabs| ensures SlabOk(m, slabs[j], j, lists[j], objs - {a}, less) {
      assert SlabOk(m, slabs[j], j, lists[j], objs, roles);
      SlabLosesObject(m, slabs[j], j, lists[j], objs, roles, a);
      SlabLosesPages(m, slabs[j], j, lists[j], objs - {a}, roles, gone);
    }
    forall p | p in less ensures PageOk(m, |slabs|, objs - {a}, p, less[p]) {
      assert PageOk(m, |slabs|, objs, p, roles[p]);
    }
    var rest := objs - {a};
    forall c | c in rest ensures BlockOk(m, |slabs|, less, c, rest[c]) {
      assert BlockOk(m, |slabs|, roles, c, objs[c]);
    }
  }

  lemma SlabLosesPages(m: Memory, s: SlabInfo, j: nat, list: seq<nat>, objs: map<nat, Owner>, roles: map<nat, Role>,
                       gone: set<nat>)
    requires SlabOk(m, s, j, list, objs, roles)
    requires forall p :: p in gone && p in roles ==> roles[p] != SlabPage(j)
    ensures SlabOk(m, s, j, list, objs, roles - gone)
  {
  }

  // ---------------------------------------------------------------- blocks do not overlap

  /** Bytes reserved for a block. */
  function Extent(slabs: seq<SlabInfo>, o: Owner): nat {
    if o.OfSlab? && o.id < |slabs| then Foot(slabs[o.id].entSize) else Capacity(slabs, o)
  }

  lemma BlockPagesHaveRole(mem: Memory, slabs: seq<SlabInfo>, lists: seq<seq<nat>>, objs: map<nat, Owner>,
                           roles: map<nat, Role>, a: nat, q: nat)
    requires Inv(mem, slabs, lists, objs, roles) && a in objs && objs[a].OfPages?
    requires q in roles && roles[q] != BlockPage(a)
    ensures a % PAGE == 0 && (q * PAGE + PAGE <= a - PAGE || a + objs[a].pages * PAGE <= q * PAGE)
  {
  }

  /** Any two live blocks are disjoint. */
  lemma LiveBlocksApart(mem: Memory, slabs: seq<SlabInfo>, lists: seq<seq<nat>>, objs: map<nat, Owner>,
                        roles: map<nat, Role>, a: nat, b: nat)
    requires Inv(mem, slabs, lists, objs, roles) && a in objs && b in objs && a != b
    ensures Apart(a, Extent(slabs, objs[a]), b, Extent(slabs, objs[b]))
  {
    WhereBlocksAre(mem, slabs, lists, objs, roles, a);
    WhereBlocksAre(mem, slabs, lists, objs, roles, b);
    if objs[a].OfSlab? && objs[b].OfSlab? {
      OtherSlotsApart(mem, slabs, lists, objs, roles, objs[a].id, a, objs[b].id, b);
    } else if objs[a].OfSlab? {
      SlotOnPage(slabs[objs[a].id].entSize, a);
      BlockPagesHaveRole(mem, slabs, lists, objs, roles, b, a / PAGE);
    } else if objs[b].OfSlab? {
      SlotOnPage(slabs[objs[b].id].entSize, b);
      BlockPagesHaveRole(mem, slabs, lists, objs, roles, a, b / PAGE);
    } else {
      PageBlocksApart(mem, slabs, lists, objs, roles, a, b);
    }
  }

  lemma PageBlocksApart(mem: Memory, slabs: seq<SlabInfo>, lists: seq<seq<nat>>, objs: map<nat, Owner>,
                        roles: map<nat, Role>, a: nat, b: nat)
    requires Inv(mem, slabs, lists, objs, roles) && a in objs && b in objs && a != b
    requires objs[a].OfPages? && objs[b].OfPages?
    ensures Apart(a, objs[a].pages * PAGE, b, objs[b].pages * PAGE) &&
            Apart(a, objs[a].pages * PAGE, b - PAGE, PAGE) && b >= PAGE
  {
    assert BlockOk(mem, |slabs|, roles, a, objs[a]);
    assert BlockOk(mem, |slabs|, roles, b, objs[b]);
    BlockPagesHaveRole(mem, slabs, lists, objs, roles, a, b / PAGE);
    BlockPagesHaveRole(mem, slabs, lists, objs, roles, b, a / PAGE);
    BlockPagesHaveRole(mem, slabs, lists, objs, roles, a, b / PAGE - 1);
  }

  /** The contents of a block survive writes elsewhere. */
  lemma DataStays(m: Memory, n: Memory, lo: nat, len: nat, a: nat, c: nat)
    requires OnlyWithin(m, n, lo, len) && Apart(lo, len, a, c)
    ensures DataOf(n, a, c) == DataOf(m, a, c)
  {
  }

  /** Writing inside the data of a live block keeps the allocator in order. */
  lemma DataWriteKeeps(m: Memory, n: Memory, slabs: seq<SlabInfo>, lists: seq<seq<nat>>, objs: map<nat, Owner>,
                       roles: map<nat, Role>, a: nat)
    requires Inv(m, slabs, lists, objs, roles) && a in objs && OnlyWithin(m, n, a, Extent(slabs, objs[a]))
    ensures Inv(n, slabs, lists, objs, roles)
  {
    var len := Extent(slabs, objs[a]);
    WhereBlocksAre(m, slabs, lists, objs, roles, a);
    forall j, b | 0 <= j < |slabs| && b in lists[j] ensures Apart(a, len, b, 8) {
      FreeIsDead(m, slabs, lists, objs, roles, j, b);
      if objs[a].OfSlab? {
        OtherSlotsApart(m, slabs, lists, objs, roles, objs[a].id, a, j, b);
      } else {
        SlotOnPage(slabs[j].entSize, b);
        BlockPagesHaveRole(m, slabs, lists, objs, roles, a, b / PAGE);
      }
    }
    forall j | 0 <= j < |slabs| ensures SlabOk(n, slabs[j], j, lists[j], objs, roles) {
      assert SlabOk(m, slabs[j], j, lists[j], objs, roles);
      SlabKeepsMem(m, n, slabs[j], j, lists[j], objs, roles, a, len);
    }
    if objs[a].OfSlab? {
      SlotWordsStay(m, slabs, lists, objs, roles, objs[a].id, a);
    } else {
      BlockWordsStay(m, slabs, lists, objs, roles, a);
    }
    PagesOkStay(m, n, slabs, lists, objs, roles, a, len);
  }

  lemma BlockWordsStay(m: Memory, slabs: seq<SlabInfo>, lists: seq<seq<nat>>, objs: map<nat, Owner>,
                       roles: map<nat, Role>, a: nat)
    requires Inv(m, slabs, lists, objs, roles) && a in objs && objs[a].OfPages?
    ensures WordsStay(roles, objs, a, objs[a].pages * PAGE)
  {
    forall p | p in roles && roles[p].SlabPage? ensures Apart(a, objs[a].pages * PAGE, p * PAGE, 8) {
      BlockPagesHaveRole(m, slabs, lists, objs, roles, a, p);
    }
    forall b | b in objs && objs[b].OfPages? && b >= PAGE ensures Apart(a, objs[a].pages * PAGE, b - PAGE, 16) {
      if a != b { PageBlocksApart(m, slabs, lists, objs, roles, a, b); }
    }
  }

  /** A large block may change its recorded size within its pages. */
  lemma ResizeKeeps(m: Memory, slabs: seq<SlabInfo>, lists: seq<seq<nat>>, objs: map<nat, Owner>,
                    roles: map<nat, Role>, a: nat, size: nat)
    requires Inv(m, slabs, lists, objs, roles) && a in objs && objs[a].OfPages? && size <= objs[a].pages * PAGE
    ensures a >= PAGE
    ensures Inv(PutWord(m, a - PAGE + 8, size), slabs, lists, objs[a := OfPages(objs[a].pages, size)], roles)
  {
    assert BlockOk(m, |slabs|, roles, a, objs[a]);
    var n := PutWord(m, a - PAGE + 8, size);
    var o := OfPages(objs[a].pages, size);
    forall j | 0 <= j < |slabs| ensures SlabOk(n, slabs[j], j, lists[j], objs[a := o], roles) {
      assert SlabOk(m, slabs[j], j, lists[j], objs, roles);
      forall b | b in lists[j] ensures Apart(a - PAGE + 8, 8, b, 8) {
        FreeIsDead(m, slabs, lists, objs, roles, j, b);
        SlotOnPage(slabs[j].entSize, b);
        BlockPagesHaveRole(m, slabs, lists, objs, roles, a, b / PAGE);
      }
      SlabKeepsMem(m, n, slabs[j], j, lists[j], objs, roles, a - PAGE + 8, 8);
      SlabIgnoresBlock(n, slabs[j], j, lists[j], objs, roles, a, o);
    }
    forall p | p in roles ensures PageOk(n, |slabs|, objs[a := o], p, roles[p]) {
      assert PageOk(m, |slabs|, objs, p, roles[p]);
      if roles[p].SlabPage? {
        BlockPagesHaveRole(m, slabs, lists, objs, roles, a, p);
        WordStays(m, n, a - PAGE + 8, 8, p * PAGE, roles[p].id);
      }
    }
    var after := objs[a := o];
    forall c | c in after ensures BlockOk(n, |slabs|, roles, c, after[c]) {
      assert BlockOk(m, |slabs|, roles, c, objs[c]);
      if objs[c].OfPages? && c != a {
        BlockPagesHaveRole(m, slabs, lists, objs, roles, a, c / PAGE - 1);
        WordStays(m, n, a - PAGE + 8, 8, c - PAGE, objs[c].pages);
        WordStays(m, n, a - PAGE + 8, 8, c - PAGE + 8, objs[c].size);
      }
    }
  }

  // ---------------------------------------------------------------- contents of the blocks

  lemma BlocksAfterTake(m: Memory, n: Memory, slabs: seq<SlabInfo>, lists: seq<seq<nat>>, objs: map<nat, Owner>,
                        roles: map<nat, Role>, i: nat)
    requires Inv(m, slabs, lists, objs, roles) && i < |slabs| && lists[i] != []
    requires OnlyWithin(m, n, lists[i][0], Foot(slabs[i].entSize))
    ensures var a := lists[i][0];
            Blocks(n, slabs[i := Taken(slabs[i], ReadWord(m, a))], objs[a := OfSlab(i)])
            == Blocks(m, slabs, objs)[a := DataOf(n, a, slabs[i].entSize)]
  {
    hide Inv, Regular, IsSlot, OnlyWithin, DataOf, ReadWord, Apart;
    Lengths(m, slabs, lists, objs, roles);
    var a := lists[i][0];
    TakeKeeps(m, n, slabs, lists, objs, roles, i);
    FreeIsDead(m, slabs, lists, objs, roles, i, a);
    var slabs' := slabs[i := Taken(slabs[i], ReadWord(m, a))];
    var objs' := objs[a := OfSlab(i)];
    forall c | c in objs ensures DataOf(n, c, Capacity(slabs', objs'[c])) == DataOf(m, c, Capacity(slabs, objs[c])) {
      LiveBlocksApart(n, slabs', Popped(lists, i), objs', roles, a, c);
      DataStays(m, n, a, Foot(slabs[i].entSize), c, Capacity(slabs, objs[c]));
    }
  }

  lemma BlocksAfterReturn(m: Memory, slabs: seq<SlabInfo>, lists: seq<seq<nat>>, objs: map<nat, Owner>,
                          roles: map<nat, Role>, i: nat, a: nat)
    requires Inv(m, slabs, lists, objs, roles) && i < |slabs| && a in objs && objs[a] == OfSlab(i)
    ensures Blocks(PutWord(m, a, slabs[i].firstFree), slabs[i := Returned(slabs[i], a)], objs - {a})
         == Blocks(m, slabs, objs) - {a}
  {
    hide Inv, Regular, IsSlot;
    var n := PutWord(m, a, slabs[i].firstFree);
    var rest := objs - {a};
    forall c | c in rest ensures DataOf(n, c, Capacity(slabs, objs[c])) == DataOf(m, c, Capacity(slabs, objs[c])) {
      LiveBlocksApart(m, slabs, lists, objs, roles, a, c);
      DataStays(m, n, a, 8, c, Capacity(slabs, objs[c]));
    }
  }

  /** The contents of all blocks stay when only memory outside of them changes. */
  lemma BlocksStay(m: Memory, n: Memory, slabs: seq<SlabInfo>, more: seq<SlabInfo>, objs: map<nat, Owner>, lo: nat,
                   len: nat)
    requires OnlyWithin(m, n, lo, len)
    requires forall c :: c in objs ==> Apart(lo, len, c, Capacity(slabs, objs[c]))
    requires forall c :: c in objs ==> Capacity(slabs, objs[c]) == Capacity(more, objs[c])
    ensures Blocks(n, more, objs) == Blocks(m, slabs, objs)
  {
    forall c | c in objs ensures DataOf(n, c, Capacity(more, objs[c])) == DataOf(m, c, Capacity(slabs, objs[c])) {
      DataStays(m, n, lo, len, c, Capacity(slabs, objs[c]));
    }
  }

  /** No block lies on pages that have no role. */
  lemma FreshPagesHoldNoBlock(m: Memory, slabs: seq<SlabInfo>, lists: seq<seq<nat>>, objs: map<nat, Owner>,
                              roles: map<nat, Role>, p: nat, len: nat, c: nat)
    requires Inv(m, slabs, lists, objs, roles) && c in objs && len > 0
    requires forall q :: p <= q < p + len ==> q !in roles
    ensures Apart(p * PAGE, len * PAGE, c, Capacity(slabs, objs[c]))
  {
    WhereBlocksAre(m, slabs, lists, objs, roles, c);
    assert BlockOk(m, |slabs|, roles, c, objs[c]);
    if objs[c].OfSlab? {
      SlotOnPage(slabs[objs[c].id].entSize, c);
      var q := c / PAGE;
      assert q in roles && (q < p || q >= p + len);
      if q < p { assert (q + 1) * PAGE <= p * PAGE; } else { assert (p + len) * PAGE <= q * PAGE; }
    } else {
      var first, pages := c / PAGE, objs[c].pages;
      assert first in roles && c == first * PAGE;
      assert p !in roles;
      if first < p {
        assert p >= first + pages;
        assert p * PAGE >= first * PAGE + pages * PAGE;
      } else {
        assert first >= p + len;
      }
    }
  }

  // ---------------------------------------------------------------- the allocator

  const SLAB_T: nat := 56

  const BUILTIN_SIZES: seq<nat> := [4, 8, 16, 24, 32, 48, 64, 96, 128, 256, 384, 512, 1024]

  lemma SmallSizesRegular(s: nat)
    requires 0 < s <= 2000 && (s % 8 == 0 || s < 8)
    ensures Regular(s)
  {
    OffsetIs(s);
  }

  predicate IsFree(used: set<nat>, b: nat, n: nat) { PageRun(b, n) !! used }

  /** There is no run of `n` unused pages. */
  ghost predicate NoRun(frames: nat, used: set<nat>, n: nat) {
    forall first :: 0 < first <= frames ==> !IsFree(used, first, n)
  }

  /**
    What an allocation returns.  When no page is left, `slab_impl_new_page` returns
    the address of the null frame, which is not zero: the source takes it for
    memory, and its writes and result are `Wild`.
   */
  datatype Block = At(value: nat) | Wild

  /** The pages needed when a block of this size has to come from fresh memory. */
  function PagesFor(size: nat): nat { if size <= 1024 then 1 else AlignUpToPage(size) / PAGE + 1 }

  class Allocator {
    const frames: nat
    var mem: Memory
    var slabs: seq<SlabInfo>
    var used: set<nat>
    ghost var lists: seq<seq<nat>>
    ghost var objs: map<nat, Owner>
    ghost var roles: map<nat, Role>

    ghost predicate Valid()
      reads this
    {
      Inv(mem, slabs, lists, objs, roles) && used == roles.Keys
    }

    /** The blocks handed out, with their contents. */
    ghost function Heap(): map<nat, seq<Cell>>
      reads this
    {
      Blocks(mem, slabs, objs)
    }

    ghost predicate SameSizes(was: seq<SlabInfo>)
      reads this
    {
      |was| <= |slabs| && forall i :: 0 <= i < |was| ==> was[i].entSize == slabs[i].entSize
    }

    constructor (frames: nat, mem: Memory)
      ensures Valid() && slabs == [] && Heap() == map[]
    {
      this.frames := frames;
      this.mem := mem;
      slabs, used := [], {};
      lists, objs, roles := [], map[], map[];
    }

    /** `mm_get_free_pages`: a run of unused pages, if there is one. */
    method FindPages(n: nat) returns (b: Option<nat>)
      ensures b.None? <==> NoRun(frames, used, n)
      ensures b.Some? ==> b.value > 0 && forall q :: b.value <= q < b.value + n ==> q !in used
    {
      if first :| 0 < first <= frames && IsFree(used, first, n) {
        return Some(first);
      }
      return None;
    }

    /**
      `slab_allocate_mem`: carve a page into linked slots.  When there is no page,
      the source does not notice: it carves whatever lies where the null frame maps.
     */
    method AllocateMem(i: nat) returns (ok: bool)
      requires Valid() && i < |slabs| && slabs[i].firstFree == 0
      modifies this
      ensures !ok <==> NoRun(frames, old(used), 1)
      ensures Valid() && Heap() == old(Heap()) && objs == old(objs) && SameSizes(old(slabs)) && |slabs| == |old(slabs)|
      ensures old(used) <= used
      ensures ok ==> slabs[i].firstFree != 0
    {
      hide Inv, Blocks, Regular, Offset, OnlyWithin, Carved, SlotList;
      var page := FindPages(1);
      if page.None? { return false; }
      var p := page.value;
      assert p !in used;
      EmptyWhenNull(mem, slabs, lists, objs, roles, i);
      var s := slabs[i].entSize;
      ghost var m, was := mem, slabs;
      mem := CarvedMemory(mem, s, i, p);
      Lengths(m, slabs, lists, objs, roles);
      FirstSlot(s, p);
      CarveKeeps(m, mem, slabs, lists, objs, roles, i, p);
      slabs := slabs[i := slabs[i].(firstFree := p * PAGE + Offset(s))];
      BlocksAfterCarve(m, mem, was, slabs, lists, objs, roles, i, p);
      lists := lists[i := SlotList(s, p)];
      roles := roles[p := SlabPage(i)];
      used := used + {p};
      return true;
    }

    /** The loop that writes the header and the links of a page. */
    method CarvedMemory(m: Memory, s: nat, id: nat, p: nat) returns (n: Memory)
      requires Regular(s)
      ensures Carved(m, n, s, id, p)
    {
      hide Regular, Linked, SlotAt, Offset, PutWord, Carved;
      LastSlotExists(s);
      n := PutWord(m, p * PAGE, id);
      HeaderWritten(m, s, id, p);
      var first := p * PAGE + Offset(s);
      var last := (PAGE - Offset(s)) / s - 1;
      var fact := s / 8;
      var k := 0;
      while k < last
        invariant 0 <= k <= last && Linked(m, n, s, id, p, k)
      {
        LinkAddress(s, p, k, fact);
        LinkAddress(s, p, k + 1, fact);
        LinkStep(m, n, s, id, p, k, SlotAt(s, p, k + 1));
        n := PutWord(n, first + k * fact * 8, first + (k + 1) * fact * 8);
        k := k + 1;
      }
      LinkAddress(s, p, k, fact);
      LinkStep(m, n, s, id, p, k, 0);
      n := PutWord(n, first + k * fact * 8, 0);
      AllLinked(m, n, s, id, p, k);
    }

    /** `slab_init_one`, then `slab_allocate_mem` */
    method Register(size: nat) returns (ok: bool)
      requires Valid() && Regular(size)
      modifies this
      ensures !ok <==> NoRun(frames, old(used), 1)
      ensures Valid() && Heap() == old(Heap()) && objs == old(objs) && old(used) <= used
      ensures |slabs| == |old(slabs)| + 1 && SameSizes(old(slabs)) && slabs[|old(slabs)|].entSize == size
    {
      hide Regular;
      ghost var was := slabs;
      RegisterKeeps(mem, slabs, lists, objs, roles, size);
      slabs := slabs + [SlabInfo(size, 0, 0)];
      lists := lists + [[]];
      forall c | c in objs ensures Capacity(slabs, objs[c]) == Capacity(was, objs[c]) {
        assert BlockOk(mem, |was|, roles, c, objs[c]);
      }
      assert Heap() == old(Heap());
      ok := AllocateMem(|slabs| - 1);
    }

    /** The slabs every system has. */
    ghost predicate Ready()
      reads this
    {
      |slabs| > |BUILTIN_SIZES| && slabs[0].entSize == SLAB_T
      && forall i :: 0 < i <= |BUILTIN_SIZES| ==> slabs[i].entSize == BUILTIN_SIZES[i - 1]
    }

    /** `slab_init` */
    method Init() returns (ok: bool)
      requires Valid() && slabs == [] && Heap() == map[]
      modifies this
      ensures Valid() && Ready() && Heap() == map[]
    {
      hide Inv, Blocks, Regular;
      SmallSizesRegular(SLAB_T);
      ok := Register(SLAB_T);
      var k := 0;
      while k < |BUILTIN_SIZES|
        invariant k <= |BUILTIN_SIZES| && Valid() && Heap() == map[]
        invariant |slabs| == k + 1 && slabs[0].entSize == SLAB_T
        invariant forall j :: 0 < j <= k ==> slabs[j].entSize == BUILTIN_SIZES[j - 1]
      {
        SmallSizesRegular(BUILTIN_SIZES[k]);
        var more := Register(BUILTIN_SIZES[k]);
        ok := ok && more;
        k := k + 1;
      }
    }

    /** `kmemcache_alloc` */
    method TakeSlot(i: nat) returns (r: Block)
      requires Valid() && i < |slabs|
      modifies this
      ensures r.Wild? <==> old(slabs)[i].firstFree == 0 && NoRun(frames, old(used), 1)
      ensures Valid() && SameSizes(old(slabs)) && |slabs| == |old(slabs)| && old(used) <= used
      ensures r.Wild? ==> Heap() == old(Heap()) && objs == old(objs)
      ensures r.At? ==> r.value > 0 && r.value !in old(objs) && objs == old(objs)[r.value := OfSlab(i)]
                          && Heap() == old(Heap())[r.value := Zeros(slabs[i].entSize)]
    {
      hide Inv, Blocks, Regular, IsSlot, ReadWord, Popped, OnlyWithin, DataOf, Zeros;
      if slabs[i].firstFree == 0 {
        var ok := AllocateMem(i);
        if !ok { return Wild; }
      }
      EmptyWhenNull(mem, slabs, lists, objs, roles, i);
      Lengths(mem, slabs, lists, objs, roles);
      var a := slabs[i].firstFree;
      var next := ReadWord(mem, a);
      ghost var m := mem;
      mem := Zeroed(mem, a, slabs[i].entSize);
      ZeroedWithin(m, a, slabs[i].entSize);
      FreeIsDead(m, slabs, lists, objs, roles, i, a);
      TakeKeeps(m, mem, slabs, lists, objs, roles, i);
      BlocksAfterTake(m, mem, slabs, lists, objs, roles, i);
      slabs := slabs[i := Taken(slabs[i], next)];
      lists := Popped(lists, i);
      objs := objs[a := OfSlab(i)];
      return At(a);
    }

    /** `kmemcache_free` */
    method ReturnSlot(i: nat, a: nat)
      requires Valid() && i < |slabs| && a in objs && objs[a] == OfSlab(i)
      modifies this
      ensures Valid() && SameSizes(old(slabs)) && |slabs| == |old(slabs)|
      ensures objs == old(objs) - {a} && Heap() == old(Heap()) - {a}
    {
      hide Inv, Blocks;
      Lengths(mem, slabs, lists, objs, roles);
      ReturnKeeps(mem, slabs, lists, objs, roles, i, a);
      BlocksAfterReturn(mem, slabs, lists, objs, roles, i, a);
      mem := PutWord(mem, a, slabs[i].firstFree);
      slabs := slabs[i := Returned(slabs[i], a)];
      lists := lists[i := [a] + lists[i]];
      objs := objs - {a};
    }

    /** `slab_for`: the smallest builtin slab that is large enough. */
    method SlabFor(size: nat) returns (r: Option<nat>)
      requires Ready()
      ensures r.Some? ==> 0 < r.value <= |BUILTIN_SIZES| && slabs[r.value].entSize >= size
                          && forall k :: 0 < k < r.value ==> slabs[k].entSize < size
      ensures r.None? <==> size > 1024
    {
      var k := 1;
      while k <= |BUILTIN_SIZES|
        invariant 0 < k <= |BUILTIN_SIZES| + 1
        invariant forall j :: 0 < j < k ==> slabs[j].entSize < size
      {
        if slabs[k].entSize >= size {
          assert BUILTIN_SIZES[k - 1] <= 1024;
          return Some(k);
        }
        k := k + 1;
      }
      assert slabs[13].entSize == BUILTIN_SIZES[12];
      return None;
    }

    /** The slab for blocks of this size has no free slot and there is no page, or there is no run of pages. */
    ghost predicate Starved(size: nat)
      requires Ready()
      reads this
    {
      if size > 1024 then NoRun(frames, used, PagesFor(size))
      else NoRun(frames, used, 1) && forall i: nat :: BestSlab(i, size) ==> slabs[i].firstFree == 0
    }

    ghost predicate BestSlab(i: nat, size: nat)
      requires Ready()
      reads this
    {
      && 0 < i <= |BUILTIN_SIZES| && slabs[i].entSize >= size
      && forall k :: 0 < k < i ==> slabs[k].entSize < size
    }

    /** The block does not fit where it is. */
    ghost predicate Moves(a: nat, size: nat)
      requires Ready() && (a in objs && objs[a].OfSlab? ==> objs[a].id < |slabs|)
      reads this
    {
      a in objs ==>
        match objs[a]
        case OfSlab(id) => size > slabs[id].entSize
        case OfPages(_, was) => AlignUpToPage(was) != AlignUpToPage(size)
    }

    /** `slab_alloc` */
    method Alloc(size: nat) returns (r: Block)
      requires Valid() && Ready()
      modifies this
      ensures r.Wild? <==> old(Starved(size))
      ensures Valid() && Ready() && SameSizes(old(slabs)) && |slabs| == |old(slabs)|
      ensures r.Wild? ==> Heap() == old(Heap()) && objs == old(objs)
      ensures r.At? ==>
                r.value > 0 && r.value !in old(objs) && r.value in objs && objs == old(objs)[r.value := objs[r.value]]
                          && UserSize(slabs, objs[r.value]) >= size && Heap() == old(Heap())[r.value := Heap()[r.value]]
                          && (size <= 1024 ==> Heap()[r.value] == Zeros(|Heap()[r.value]|))
    {
      hide Inv, Blocks, NoRun, AlignUpToPage;
      var i := SlabFor(size);
      if i.Some? {
        forall j: nat | BestSlab(j, size) ensures j == i.value { }
        r := TakeSlot(i.value);
        return;
      }
      r := AllocPages(size);
    }

    /** The page path of `slab_alloc`. */
    method AllocPages(size: nat) returns (r: Block)
      requires Valid() && size > 0
      modifies this
      ensures r.Wild? <==> NoRun(frames, old(used), AlignUpToPage(size) / PAGE + 1)
      ensures Valid() && slabs == old(slabs)
      ensures r.Wild? ==> Heap() == old(Heap()) && objs == old(objs)
      ensures r.At? ==>
                r.value > 0 && r.value !in old(objs) && r.value in objs && objs == old(objs)[r.value := objs[r.value]]
                          && objs[r.value].OfPages? && objs[r.value].size == size
                          && Heap() == old(Heap())[r.value := Heap()[r.value]]
    {
      hide Inv, AlignUpToPage, OnlyWithin, HoldsWord, SizePage, Blocks, NoRun;
      PagesEnough(size);
      var pages := AlignUpToPage(size) / PAGE;
      var run := FindPages(pages + 1);
      if run.None? { return Wild; }
      var b := run.value;
      var a := (b + 1) * PAGE;
      ghost var m := mem;
      mem := SizePage(mem, b, pages, size);
      SizesWritten(m, b, pages, size);
      assert forall q :: b <= q < b + pages + 1 ==> q !in roles;
      BlockKeeps(m, mem, slabs, lists, objs, roles, b, pages, size);
      BlocksAfterBlock(m, mem, slabs, lists, objs, roles, b, OfPages(pages, size));
      objs := objs[a := OfPages(pages, size)];
      roles := roles + BlockRoles(a, pages);
      used := used + PageRun(b, pages + 1);
      return At(a);
    }

    /** `slab_free` */
    method Free(a: nat)
      requires Valid() && (a == 0 || a in objs)
      modifies this
      ensures Valid() && SameSizes(old(slabs)) && |slabs| == |old(slabs)|
      ensures objs == old(objs) - {a} && Heap() == old(Heap()) - {a}
    {
      NullIsNoBlock(mem, slabs, lists, objs, roles);
      if a == 0 {
        assert objs - {a} == objs && Heap() - {a} == Heap();
        return;
      }
      OwnerFromMemory(mem, slabs, lists, objs, roles, a);
      if a % PAGE == 0 {
        var pages := ReadWord(mem, a - PAGE);
        UnblockKeeps(mem, slabs, lists, objs, roles, a);
        used := used - PageRun(a / PAGE - 1, pages + 1);
        roles := roles - BlockRoles(a, pages).Keys;
        objs := objs - {a};
        return;
      }
      var id := ReadWord(mem, AlignDownToPage(a));
      ReturnSlot(id, a);
    }

    /** `slab_realloc` */
    method Realloc(a: nat, size: nat) returns (r: Block)
      requires Valid() && Ready() && (a == 0 || a in objs)
      modifies this
      ensures r.Wild? <==> old(Moves(a, size) && Starved(size))
      ensures Valid() && Ready() && SameSizes(old(slabs)) && |slabs| == |old(slabs)|
      ensures r.Wild? ==> Heap() == old(Heap()) && objs == old(objs)
      ensures r.At? ==> r.value in objs && UserSize(slabs, objs[r.value]) >= size
      ensures r.At? ==>
                Resized(old(Heap()), Heap(), a, r.value,
                        if a == 0 then 0 else Min(UserSize(old(slabs), old(objs)[a]), size))
      ensures a != 0 && !old(Moves(a, size)) ==> r == At(a)
    {
      hide Inv, Blocks, ReadWord;
      NullIsNoBlock(mem, slabs, lists, objs, roles);
      BlockKeys(mem, slabs, objs);
      if a == 0 {
        r := Alloc(size);
        assert old(Heap()) - {a} == old(Heap());
        return;
      }
      OwnerFromMemory(mem, slabs, lists, objs, roles, a);
      UserSizeFits(mem, slabs, lists, objs, roles, a);
      BlockAt(mem, slabs, objs, a);
      if a % PAGE == 0 {
        r := ReallocPages(a, size);
        return;
      }
      var id := ReadWord(mem, AlignDownToPage(a));
      if size > slabs[id].entSize {
        r := Move(a, size, slabs[id].entSize);
        return;
      }
      ResizedInPlace(Heap(), a, size);
      return At(a);
    }

    /** The new size needs as many pages as the old one. */
    method ResizeInPlace(a: nat, size: nat)
      requires Valid() && a in objs && objs[a].OfPages? && size <= objs[a].pages * PAGE && a >= PAGE
      modifies this
      ensures Valid() && slabs == old(slabs) && Heap() == old(Heap())
      ensures objs == old(objs)[a := OfPages(old(objs)[a].pages, size)]
    {
      hide Inv, Blocks, PutWord;
      ResizeKeeps(mem, slabs, lists, objs, roles, a, size);
      BlocksAfterResize(mem, slabs, lists, objs, roles, a, size);
      mem := PutWord(mem, a - PAGE + 8, size);
      objs := objs[a := OfPages(objs[a].pages, size)];
    }

    /** The page path of `slab_realloc`. */
    method ReallocPages(a: nat, size: nat) returns (r: Block)
      requires Valid() && Ready() && a in objs && objs[a].OfPages?
      modifies this
      ensures r.Wild? <==> old(Moves(a, size) && Starved(size))
      ensures Valid() && Ready() && SameSizes(old(slabs)) && |slabs| == |old(slabs)|
      ensures r.Wild? ==> Heap() == old(Heap()) && objs == old(objs)
      ensures r.At? ==> r.value in objs && UserSize(slabs, objs[r.value]) >= size
      ensures r.At? ==> Resized(old(Heap()), Heap(), a, r.value, Min(old(objs)[a].size, size))
      ensures !old(Moves(a, size)) ==> r == At(a)
    {
      hide Inv, Blocks, AlignUpToPage, ReadWord, Resized;
      OwnerFromMemory(mem, slabs, lists, objs, roles, a);
      UserSizeFits(mem, slabs, lists, objs, roles, a);
      BlockAt(mem, slabs, objs, a);
      WhereBlocksAre(mem, slabs, lists, objs, roles, a);
      var was := ReadWord(mem, a - PAGE + 8);
      if AlignUpToPage(was) == AlignUpToPage(size) {
        SamePages(was, size, objs[a].pages);
        ResizedInPlace(Heap(), a, Min(was, size));
        ResizeInPlace(a, size);
        return At(a);
      }
      r := Move(a, size, Min(was, size));
    }

    /** Allocate, copy the first `n` bytes, and free the old block. */
    method Move(a: nat, size: nat, n: nat) returns (r: Block)
      requires Valid() && Ready() && a in objs && n <= size && n <= UserSize(slabs, objs[a])
      modifies this
      ensures r.Wild? <==> old(Starved(size))
      ensures Valid() && Ready() && SameSizes(old(slabs)) && |slabs| == |old(slabs)|
      ensures r.Wild? ==> Heap() == old(Heap()) && objs == old(objs)
      ensures r.At? ==> r.value in objs && UserSize(slabs, objs[r.value]) >= size
      ensures r.At? ==> Resized(old(Heap()), Heap(), a, r.value, n)
    {
      hide Inv, Blocks;
      BlockKeys(mem, slabs, objs);
      UserSizeFits(mem, slabs, lists, objs, roles, a);
      BlockAt(mem, slabs, objs, a);
      r := Alloc(size);
      if r.Wild? { return; }
      var b := r.value;
      CopyInto(a, b, n);
      Free(a);
    }

    /** `memcpy` from one block into another. */
    method CopyInto(a: nat, b: nat, n: nat)
      requires Valid() && a in objs && b in objs && a != b && n <= UserSize(slabs, objs[a]) &&
               n <= UserSize(slabs, objs[b])
      modifies this`mem
      ensures Valid() && b in Heap() && a in Heap() && Heap() == old(Heap())[b := Heap()[b]]
      ensures n <= |Heap()[a]| && n <= |Heap()[b]| && Heap()[b][..n] == Heap()[a][..n]
    {
      hide Inv, Blocks;
      BlockAt(mem, slabs, objs, a);
      BlockAt(mem, slabs, objs, b);
      UserSizeFits(mem, slabs, lists, objs, roles, a);
      UserSizeFits(mem, slabs, lists, objs, roles, b);
      ghost var m := mem;
      mem := Copied(mem, b, a, n);
      assert OnlyWithin(m, mem, b, Extent(slabs, objs[b]));
      DataWriteKeeps(m, mem, slabs, lists, objs, roles, b);
      BlocksAfterWrite(m, mem, slabs, lists, objs, roles, b);
      CopiedData(m, a, b, n, Capacity(slabs, objs[a]), Capacity(slabs, objs[b]));
    }

    /** `kmemcache_create` */
    method Create(size: nat) returns (id: Block)
      requires Valid() && Ready() && Regular(size)
      modifies this
      ensures id.Wild? ==> NoRun(frames, used, 1)
      ensures Valid() && Ready() && SameSizes(old(slabs))
      ensures id.At? ==> id.value < |slabs| && slabs[id.value].entSize == size
      ensures forall a :: a in old(Heap()) ==> a in Heap() && Heap()[a] == old(Heap())[a]
    {
      hide Inv, Blocks, Regular;
      BlockKeys(mem, slabs, objs);
      var node := TakeSlot(0);
      FewerRuns(frames, old(used), used, 1);
      if node.Wild? { return Wild; }
      ghost var before := used;
      var ok := Register(size);
      FewerRuns(frames, before, used, 1);
      return if ok then At(|slabs| - 1) else Wild;
    }

    /** The owner of a block writes to it. */
    method Store(a: nat, k: nat, c: Cell)
      requires Valid() && a in objs && k < Capacity(slabs, objs[a])
      modifies this`mem
      ensures Valid() && Heap() == old(Heap())[a := old(Heap())[a][k := c]]
    {
      hide Inv, Blocks;
      ghost var m := mem;
      UserSizeFits(mem, slabs, lists, objs, roles, a);
      BlockAt(mem, slabs, objs, a);
      mem := Poked(mem, a + k, c);
      assert OnlyWithin(m, mem, a, Extent(slabs, objs[a]));
      DataWriteKeeps(m, mem, slabs, lists, objs, roles, a);
      BlocksAfterWrite(m, mem, slabs, lists, objs, roles, a);
      assert DataOf(mem, a, Capacity(slabs, objs[a])) == DataOf(m, a, Capacity(slabs, objs[a]))[k := c];
    }

    /** Whatever was stored in a block is found in it after it was resized, wherever it is by then. */
    method StoreResizeLoad(a: nat, k: nat, c: Cell, size: nat) returns (r: Block, found: Option<Cell>)
      requires Valid() && Ready() && a > 0 && a in objs && k < UserSize(slabs, objs[a]) && k < size
      modifies this
      ensures Valid() && Ready() && (r.At? ==> found == Some(c))
    {
      hide Inv, Blocks, Resized, Moves, Starved, ReadWord;
      UserSizeFits(mem, slabs, lists, objs, roles, a);
      BlockKeys(mem, slabs, objs);
      BlockAt(mem, slabs, objs, a);
      Store(a, k, c);
      ghost var heap := Heap();
      BlockKeys(mem, slabs, objs);
      r := Realloc(a, size);
      if r.Wild? { return r, None; }
      ResizedMeans(heap, Heap(), a, r.value, Min(UserSize(old(slabs), old(objs)[a]), size), a, k);
      BlockAt(mem, slabs, objs, r.value);
      var d := Load(r.value, k);
      return r, Some(d);
    }

    /** The owner of a block reads it. */
    method Load(a: nat, k: nat) returns (c: Cell)
      requires Valid() && a in objs && k < Capacity(slabs, objs[a])
      ensures c == Heap()[a][k]
    {
      hide Inv;
      c := mem(a + k);
    }
  }

  lemma FewerRuns(frames: nat, used: set<nat>, more: set<nat>, n: nat)
    requires used <= more
    ensures NoRun(frames, used, n) ==> NoRun(frames, more, n)
  {
    forall first | 0 < first <= frames && IsFree(more, first, n) ensures IsFree(used, first, n) { }
  }

  lemma PagesEnough(size: nat)
    requires size > 0
    ensures 0 < AlignUpToPage(size) / PAGE && size <= AlignUpToPage(size) / PAGE * PAGE
  {
  }

  function Zeros(n: nat): seq<Cell> { seq(n, _ => Byte(0)) }

  /** The size a block answers for: its slot, or the size recorded on its size page. */
  function UserSize(slabs: seq<SlabInfo>, o: Owner): nat {
    match o
    case OfSlab(id) => if id < |slabs| then slabs[id].entSize else 0
    case OfPages(_, size) => size
  }

  lemma Lengths(mem: Memory, slabs: seq<SlabInfo>, lists: seq<seq<nat>>, objs: map<nat, Owner>, roles: map<nat, Role>)
    requires Inv(mem, slabs, lists, objs, roles)
    ensures |lists| == |slabs|
  {
  }

  lemma NullIsNoBlock(mem: Memory, slabs: seq<SlabInfo>, lists: seq<seq<nat>>, objs: map<nat, Owner>,
                      roles: map<nat, Role>)
    requires Inv(mem, slabs, lists, objs, roles)
    ensures 0 !in objs
  {
    forall a | a in objs ensures a != 0 { WhereBlocksAre(mem, slabs, lists, objs, roles, a); }
  }

  /**
    The owner of a block can be told from its address and from memory: aligned
    blocks are page runs whose sizes precede them, the others belong to the slab
    named in the header of their page.
   */
  lemma OwnerFromMemory(mem: Memory, slabs: seq<SlabInfo>, lists: seq<seq<nat>>, objs: map<nat, Owner>,
                        roles: map<nat, Role>, a: nat)
    requires Inv(mem, slabs, lists, objs, roles) && a in objs
    ensures objs[a].OfPages? <==> a % PAGE == 0
    ensures a % PAGE == 0 ==> a >= PAGE && objs[a] == OfPages(ReadWord(mem, a - PAGE), ReadWord(mem, a - PAGE + 8))
                              && objs[a].size <= objs[a].pages * PAGE
    ensures a % PAGE != 0 ==> objs[a] == OfSlab(ReadWord(mem, AlignDownToPage(a))) && objs[a].id < |slabs|
  {
    WhereBlocksAre(mem, slabs, lists, objs, roles, a);
    assert BlockOk(mem, |slabs|, roles, a, objs[a]);
    if objs[a].OfPages? {
      assert mem(a - PAGE) == Fragment(objs[a].pages, 0) && mem(a - PAGE + 8) == Fragment(objs[a].size, 0);
    } else {
      assert PageOk(mem, |slabs|, objs, a / PAGE, roles[a / PAGE]);
      assert mem(a / PAGE * PAGE) == Fragment(objs[a].id, 0);
    }
  }

  lemma ZeroedWithin(m: Memory, a: nat, s: nat)
    ensures OnlyWithin(m, Zeroed(m, a, s), a, Foot(s)) && DataOf(Zeroed(m, a, s), a, s) == Zeros(s)
  {
  }

  lemma BlockKeys(mem: Memory, slabs: seq<SlabInfo>, objs: map<nat, Owner>)
    ensures Blocks(mem, slabs, objs).Keys == objs.Keys
  {
  }

  lemma BlockAt(mem: Memory, slabs: seq<SlabInfo>, objs: map<nat, Owner>, a: nat)
    requires a in objs
    ensures a in Blocks(mem, slabs, objs) && Blocks(mem, slabs, objs)[a] == DataOf(mem, a, Capacity(slabs, objs[a]))
  {
  }

  lemma SamePages(was: nat, size: nat, pages: nat)
    requires was <= pages * PAGE && AlignUpToPage(was) == AlignUpToPage(size)
    ensures size <= pages * PAGE
  {
  }

  lemma UserSizeFits(mem: Memory, slabs: seq<SlabInfo>, lists: seq<seq<nat>>, objs: map<nat, Owner>,
                     roles: map<nat, Role>, a: nat)
    requires Inv(mem, slabs, lists, objs, roles) && a in objs
    ensures UserSize(slabs, objs[a]) <= Capacity(slabs, objs[a]) <= Extent(slabs, objs[a])
  {
  }

  lemma BlocksAfterWrite(m: Memory, n: Memory, slabs: seq<SlabInfo>, lists: seq<seq<nat>>, objs: map<nat, Owner>,
                         roles: map<nat, Role>, a: nat)
    requires Inv(m, slabs, lists, objs, roles) && a in objs && OnlyWithin(m, n, a, Extent(slabs, objs[a]))
    ensures Blocks(n, slabs, objs) == Blocks(m, slabs, objs)[a := DataOf(n, a, Capacity(slabs, objs[a]))]
  {
    hide Inv, OnlyWithin;
    forall c | c in objs && c != a
      ensures DataOf(n, c, Capacity(slabs, objs[c])) == DataOf(m, c, Capacity(slabs, objs[c]))
    {
      LiveBlocksApart(m, slabs, lists, objs, roles, a, c);
      UserSizeFits(m, slabs, lists, objs, roles, c);
      DataStays(m, n, a, Extent(slabs, objs[a]), c, Capacity(slabs, objs[c]));
    }
  }

  /** The page before a large block records its sizes. */
  function SizePage(m: Memory, b: nat, pages: nat, size: nat): Memory {
    PutWord(PutWord(m, b * PAGE, pages), b * PAGE + 8, size)
  }

  lemma SizesWritten(m: Memory, b: nat, pages: nat, size: nat)
    ensures var n := SizePage(m, b, pages, size);
            OnlyWithin(m, n, b * PAGE, PAGE) && HoldsWord(n, b * PAGE, pages) && HoldsWord(n, b * PAGE + 8, size)
  {
  }

  lemma BlocksAfterBlock(m: Memory, n: Memory, slabs: seq<SlabInfo>, lists: seq<seq<nat>>, objs: map<nat, Owner>,
                         roles: map<nat, Role>, b: nat, o: Owner)
    requires Inv(m, slabs, lists, objs, roles) && b !in roles && OnlyWithin(m, n, b * PAGE, PAGE)
    ensures var a := (b + 1) * PAGE;
            Blocks(n, slabs, objs[a := o]) == Blocks(m, slabs, objs)[a := Blocks(n, slabs, objs[a := o])[a]]
  {
    hide Inv, OnlyWithin, DataOf;
    forall c | c in objs ensures Apart(b * PAGE, PAGE, c, Capacity(slabs, objs[c])) {
      FreshPagesHoldNoBlock(m, slabs, lists, objs, roles, b, 1, c);
    }
    BlocksStay(m, n, slabs, slabs, objs, b * PAGE, PAGE);
    assert forall c :: c in objs ==> Blocks(n, slabs, objs)[c] == DataOf(n, c, Capacity(slabs, objs[c]));
  }

  lemma BlocksAfterResize(m: Memory, slabs: seq<SlabInfo>, lists: seq<seq<nat>>, objs: map<nat, Owner>,
                          roles: map<nat, Role>, a: nat, size: nat)
    requires Inv(m, slabs, lists, objs, roles) && a in objs && objs[a].OfPages? && a >= PAGE
    ensures Blocks(PutWord(m, a - PAGE + 8, size), slabs, objs[a := OfPages(objs[a].pages, size)])
         == Blocks(m, slabs, objs)
  {
    var n := PutWord(m, a - PAGE + 8, size);
    forall c | c in objs ensures DataOf(n, c, Capacity(slabs, objs[c])) == DataOf(m, c, Capacity(slabs, objs[c])) {
      if c != a {
        WhereBlocksAre(m, slabs, lists, objs, roles, c);
        if objs[c].OfPages? {
          PageBlocksApart(m, slabs, lists, objs, roles, c, a);
        } else {
          SlotOnPage(slabs[objs[c].id].entSize, c);
          BlockPagesHaveRole(m, slabs, lists, objs, roles, a, c / PAGE);
        }
      }
      DataStays(m, n, a - PAGE + 8, 8, c, Capacity(slabs, objs[c]));
    }
  }

  /** Block `a` of one heap became block `r` of the other; its first bytes are kept, and no other block changed. */
  ghost predicate Resized(was: map<nat, seq<Cell>>, now: map<nat, seq<Cell>>, a: nat, r: nat, kept: nat) {
    && r > 0 && r in now && (r == a || r !in was) && now == (was - {a})[r := now[r]]
    && (a in was ==> kept <= |now[r]| && kept <= |was[a]| && now[r][..kept] == was[a][..kept])
  }

  /** The first bytes are kept one by one, the old block goes if the new one is elsewhere, and no other one changes. */
  lemma ResizedMeans(was: map<nat, seq<Cell>>, now: map<nat, seq<Cell>>, a: nat, r: nat, kept: nat, b: nat, k: nat)
    requires Resized(was, now, a, r, kept) && a in was
    ensures r in now && (k < kept ==> k < |now[r]| && k < |was[a]| && now[r][k] == was[a][k])
    ensures b in was && b != a ==> b != r && b in now && now[b] == was[b]
    ensures a in now <==> r == a
    ensures b in now ==> b in was || b == r
  {
    if k < kept { assert now[r][..kept][k] == was[a][..kept][k]; }
  }

  lemma ResizedInPlace(h: map<nat, seq<Cell>>, a: nat, kept: nat)
    requires a > 0 && a in h && kept <= |h[a]|
    ensures Resized(h, h, a, a, kept)
  {
  }

  lemma CopiedData(m: Memory, a: nat, b: nat, n: nat, capA: nat, capB: nat)
    requires n <= capA && n <= capB
    ensures DataOf(Copied(m, b, a, n), b, capB)[..n] == DataOf(m, a, capA)[..n]
  {
  }

  lemma FirstSlot(s: nat, p: nat)
    requires Regular(s)
    ensures Fits(s) && SlotAt(s, p, 0) == p * PAGE + Offset(s)
  {
  }

  lemma BlocksAfterCarve(m: Memory, n: Memory, slabs: seq<SlabInfo>, after: seq<SlabInfo>, lists: seq<seq<nat>>,
                         objs: map<nat, Owner>, roles: map<nat, Role>, i: nat, p: nat)
    requires Inv(m, slabs, lists, objs, roles) && i < |slabs| && p !in roles
    requires Fits(slabs[i].entSize) && Carved(m, n, slabs[i].entSize, i, p)
    requires |after| == |slabs| && forall j :: 0 <= j < |slabs| ==> slabs[j].entSize == after[j].entSize
    ensures Blocks(n, after, objs) == Blocks(m, slabs, objs)
  {
    hide Inv, Fits, FreeList, HoldsWord, OnlyWithin, Blocks, Apart;
    forall c | c in objs ensures Apart(p * PAGE, PAGE, c, Capacity(slabs, objs[c])) {
      FreshPagesHoldNoBlock(m, slabs, lists, objs, roles, p, 1, c);
    }
    BlocksStay(m, n, slabs, after, objs, p * PAGE, PAGE);
  }

  lemma EmptyWhenNull(mem: Memory, slabs: seq<SlabInfo>, lists: seq<seq<nat>>, objs: map<nat, Owner>,
                      roles: map<nat, Role>, i: nat)
    requires Inv(mem, slabs, lists, objs, roles) && i < |slabs|
    ensures Regular(slabs[i].entSize) && (slabs[i].firstFree == 0 <==> lists[i] == [])
    ensures lists[i] != [] ==> slabs[i].firstFree == lists[i][0]
  {
    assert SlabOk(mem, slabs[i], i, lists[i], objs, roles);
    if lists[i] != [] {
      assert lists[i][0] in lists[i];
      FreeIsDead(mem, slabs, lists, objs, roles, i, lists[i][0]);
    }
  }

  lemma LastSlotExists(s: nat)
    requires Regular(s)
    ensures s > 0 && (PAGE - Offset(s)) / s >= 1 && Offset(s) <= PAGE
  {
  }

  lemma LinkAddress(s: nat, p: nat, k: nat, fact: nat)
    requires s > 0 && fact == s / 8
    ensures p * PAGE + Offset(s) + k * fact * 8 == SlotAt(s, p, k)
  {
  }

  lemma LinkInside(s: nat, p: nat, k: nat)
    requires Regular(s) && k <= LastSlot(s)
    ensures p * PAGE + 8 <= SlotAt(s, p, k) && SlotAt(s, p, k) + 8 <= (p + 1) * PAGE
  {
    hide Offset;
    OffsetIs(s);
    if !Single(s) {
      assert Stride(s) == s;
      DivideBound(PAGE - Offset(s), s, k);
    }
  }

  /** The header and the first `k` links of a page are written. */
  ghost predicate Linked(m: Memory, n: Memory, s: nat, id: nat, p: nat, k: nat)
    requires s > 0
  {
    && OnlyWithin(m, n, p * PAGE, PAGE) && HoldsWord(n, p * PAGE, id)
    && (s >= 8 ==> forall j: nat :: j < k ==> HoldsWord(n, SlotAt(s, p, j), SlotAt(s, p, j + 1)))
  }

  lemma HeaderWritten(m: Memory, s: nat, id: nat, p: nat)
    requires s > 0
    ensures Linked(m, PutWord(m, p * PAGE, id), s, id, p, 0)
  {
  }

  lemma LinkStep(m: Memory, n: Memory, s: nat, id: nat, p: nat, k: nat, v: nat)
    requires Regular(s) && k <= LastSlot(s) && Linked(m, n, s, id, p, k)
    ensures var n' := PutWord(n, SlotAt(s, p, k), v);
            Linked(m, n', s, id, p, k) && HoldsWord(n', SlotAt(s, p, k), v)
            && (v == SlotAt(s, p, k + 1) ==> Linked(m, n', s, id, p, k + 1))
  {
    hide Offset;
    LinkInside(s, p, k);
    var n' := PutWord(n, SlotAt(s, p, k), v);
    WordStays(n, n', SlotAt(s, p, k), 8, p * PAGE, id);
    if !Single(s) {
      forall j: nat | j < k ensures HoldsWord(n', SlotAt(s, p, j), SlotAt(s, p, j + 1)) {
        assert Stride(s) == s;
        Distribute(k, j, s);
        AtLeastOnce(k - j, s);
        WordStays(n, n', SlotAt(s, p, k), 8, SlotAt(s, p, j), SlotAt(s, p, j + 1));
      }
    }
  }

  lemma AllLinked(m: Memory, n: Memory, s: nat, id: nat, p: nat, last: nat)
    requires Regular(s) && last == LastSlot(s) && Linked(m, n, s, id, p, last) && HoldsWord(n, SlotAt(s, p, last), 0)
    ensures Carved(m, n, s, id, p)
  {
    hide Offset;
    var list := SlotList(s, p);
    LastSlotExists(s);
    forall k | 0 <= k < |list| ensures HoldsWord(n, list[k], Link(list, k + 1)) {
      if s < 8 {
        assert Stride(s) == 0;
        assert SlotAt(s, p, last) == SlotAt(s, p, 0);
      }
    }
  }
}
