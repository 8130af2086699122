/**
  Private memory with zero-on-demand and file-backed pages, shared copy-on-write
  after fork.  `Machine` holds page tables, reference-counted frames, the zero
  page and the page cache.  `View` is what each process can read.  Every
  operation changes the view exactly as if fork had copied all pages at once.
 */
module CopyOnWrite {
  import opened Basics
  import opened Rounding
  import opened VmapList

  type Page = s: seq<int> | |s| == PAGE witness seq(PAGE, _ => 0)

  const ZERO: Page := seq(PAGE, _ => 0)

  datatype Pte = Pte(frame: nat, writable: bool)

  /** What a process sees at one page. */
  datatype Cell = Cell(info: PageInfo, page: Page)

  type PageTables = map<(nat, nat), Pte>

  /** The (process, page) pairs mapped to frame `f`. */
  ghost function Mappers(pte: PageTables, f: nat): set<(nat, nat)> {
    set k | k in pte && pte[k].frame == f
  }

  ghost function CachedAt(cached: map<(nat, nat), nat>, f: nat): set<(nat, nat)> {
    set c | c in cached && cached[c] == f
  }

  lemma MapperAdded(pte: PageTables, k: (nat, nat), e: Pte, f: nat)
    requires k !in pte
    ensures |Mappers(pte[k := e], f)| == |Mappers(pte, f)| + (if f == e.frame then 1 else 0)
  {
    if f == e.frame {
      assert Mappers(pte[k := e], f) == Mappers(pte, f) + {k};
    } else {
      assert Mappers(pte[k := e], f) == Mappers(pte, f);
    }
  }

  lemma MapperRemoved(pte: PageTables, k: (nat, nat), f: nat)
    requires k in pte
    ensures |Mappers(pte - {k}, f)| == |Mappers(pte, f)| - (if f == pte[k].frame then 1 else 0)
  {
    if f == pte[k].frame {
      assert k in Mappers(pte, f);
      assert Mappers(pte - {k}, f) == Mappers(pte, f) - {k};
    } else {
      assert Mappers(pte - {k}, f) == Mappers(pte, f);
    }
  }

  lemma FreshFrame(used: set<nat>) returns (f: nat)
    ensures f !in used
    decreases |used|
  {
    f := FreshFrom(used, 0);
  }

  /** Some frame number at or above `n` is unused. */
  lemma FreshFrom(used: set<nat>, n: nat) returns (f: nat)
    ensures f >= n && f !in used
    decreases |set x | x in used && x >= n|
  {
    if n !in used {
      f := n;
    } else {
      var above := set x | x in used && x >= n;
      var higher := set x | x in used && x >= n + 1;
      assert n in above && higher <= above - {n};
      SubsetSize(higher, above - {n});
      f := FreshFrom(used, n + 1);
    }
  }

  lemma SubsetSize<T>(a: set<T>, b: set<T>)
    requires a <= b
    ensures |a| <= |b|
    decreases |a|
  {
    if a != {} {
      var x :| x in a;
      SubsetSize(a - {x}, b - {x});
    }
  }

  lemma SingletonOf<T>(s: set<T>, x: T)
    requires x in s && |s| == 1
    ensures s == {x}
  {
    assert |s - {x}| == 0;
  }

  datatype Fault = Handled | Segv

  predicate PrivateMap(v: Vmap) {
    && v.sharing.Private? && v.handler.Some?
    && (v.handler == Some(FileBacked) ==> v.io.Some? && v.ioOffset % PAGE == 0)
  }

  /** Address spaces, page tables, frames with contents and reference counts, and pinned frames. */
  datatype State = State(maps: map<nat, seq<Vmap>>, pte: PageTables, content: map<nat, Page>,
                         refs: map<nat, nat>, zero: Option<nat>, cached: map<(nat, nat), nat>)

  function InfoOfPage(maps: map<nat, seq<Vmap>>, k: (nat, nat)): Option<PageInfo> {
    if k.0 in maps then InfoAt(maps[k.0], k.1) else None
  }

  // ---------------------------------------------------------------- invariant

  ghost predicate MapsOk(maps: map<nat, seq<Vmap>>) {
    && (forall p :: p in maps ==> WellFormed(maps[p]))
    && (forall p, i :: p in maps && 0 <= i < |maps[p]| ==> PrivateMap(maps[p][i]))
  }

  ghost predicate TablesOk(st: State) {
    forall k :: k in st.pte ==>
      && k.1 % PAGE == 0 && st.pte[k].frame in st.refs && InfoOfPage(st.maps, k).Some?
      && (st.pte[k].writable ==> InfoOfPage(st.maps, k).value.flags.write)
  }

  ghost function Pins(st: State, f: nat): nat {
    PinCount(st.zero, st.cached, f)
  }

  ghost function PinCount(zero: Option<nat>, cached: map<(nat, nat), nat>, f: nat): nat {
    (if zero == Some(f) then 1 else 0) + |CachedAt(cached, f)|
  }

  /** A frame's reference count is the number of its mappings and pins. */
  ghost predicate CountsOk(st: State) {
    && st.content.Keys == st.refs.Keys
    && forall f :: f in st.refs ==> st.refs[f] == |Mappers(st.pte, f)| + Pins(st, f)
  }

  /** A frame mapped writable is mapped nowhere else, and is neither the zero page nor cached. */
  ghost predicate WritersAlone(st: State) {
    && (forall k, j :: k in st.pte && j in st.pte && st.pte[k].writable && st.pte[k].frame == st.pte[j].frame ==>
         k == j)
    && (forall k :: k in st.pte && st.pte[k].writable ==> Pins(st, st.pte[k].frame) == 0)
  }

  ghost predicate PinnedOk(fileData: (nat, nat) -> Page, st: State) {
    && (st.zero.Some? ==> st.zero.value in st.content && st.content[st.zero.value] == ZERO)
    && (forall c :: c in st.cached ==> st.cached[c] in st.content && st.content[st.cached[c]] == fileData(c.0, c.1))
  }

  ghost predicate Valid(fileData: (nat, nat) -> Page, st: State) {
    MapsOk(st.maps) && TablesOk(st) && CountsOk(st) && WritersAlone(st) && PinnedOk(fileData, st)
  }

  // ---------------------------------------------------------------- abstraction

  /** What a page holds before it is first touched. */
  ghost function Initial(fileData: (nat, nat) -> Page, info: PageInfo): Page {
    if info.handler == Some(FileBacked) && info.io.Some? && info.fileOffset.Some?
    then fileData(info.io.value, info.fileOffset.value / PAGE)
    else ZERO
  }

  /** What a process reads at a page. */
  ghost function View(fileData: (nat, nat) -> Page, st: State, k: (nat, nat)): Option<Cell> {
    var info := InfoOfPage(st.maps, k);
    if info.None? then None
    else if k in st.pte && st.pte[k].frame in st.content then Some(Cell(info.value, st.content[st.pte[k].frame]))
    else Some(Cell(info.value, Initial(fileData, info.value)))
  }

  ghost predicate SameViews(fileData: (nat, nat) -> Page, s: State, t: State) {
    forall k :: View(fileData, s, k) == View(fileData, t, k)
  }

  ghost predicate SameElsewhere(fileData: (nat, nat) -> Page, s: State, t: State, k: (nat, nat)) {
    forall j :: j != k ==> View(fileData, s, j) == View(fileData, t, j)
  }

  // ---------------------------------------------------------------- frames

  /** `mm_get_free_page`: an unused frame, not yet referenced. */
  function Allocated(st: State, f: nat, data: Page): State {
    st.(content := st.content[f := data], refs := st.refs[f := 0])
  }

  lemma UnusedFrame(fileData: (nat, nat) -> Page, st: State, f: nat)
    requires TablesOk(st) && CountsOk(st) && PinnedOk(fileData, st) && f !in st.refs
    ensures Mappers(st.pte, f) == {} && Pins(st, f) == 0
  {
  }

  lemma AllocateKeeps(fileData: (nat, nat) -> Page, st: State, f: nat, data: Page)
    requires Valid(fileData, st) && f !in st.refs
    ensures Valid(fileData, Allocated(st, f, data))
    ensures Mappers(st.pte, f) == {} && Pins(st, f) == 0
    ensures forall k :: View(fileData, Allocated(st, f, data), k) == View(fileData, st, k)
  {
    hide PinCount, Mappers, InfoOfPage, MapsOk;
    UnusedFrame(fileData, st, f);
  }

  /** `pmm_unref_one`: the last reference frees the frame. */
  function Unreferenced(st: State, f: nat): State
    requires f in st.refs && st.refs[f] > 0
  {
    if st.refs[f] == 1 then st.(refs := st.refs - {f}, content := st.content - {f})
    else st.(refs := st.refs[f := st.refs[f] - 1])
  }

  lemma MappedHasReference(st: State, k: (nat, nat))
    requires CountsOk(st) && TablesOk(st) && k in st.pte
    ensures st.refs[st.pte[k].frame] > 0
    ensures st.refs[st.pte[k].frame] == 1 ==> Mappers(st.pte, st.pte[k].frame) == {k} && Pins(st, st.pte[k].frame) == 0
  {
    var m := Mappers(st.pte, st.pte[k].frame);
    assert k in m;
    if |m| == 1 { SingletonOf(m, k); }
  }

  /** The entry at `k` is removed and its frame loses a reference. */
  function Unmapped(st: State, k: (nat, nat)): State
    requires k in st.pte && st.pte[k].frame in st.refs && st.refs[st.pte[k].frame] > 0
  {
    Unreferenced(st, st.pte[k].frame).(pte := st.pte - {k})
  }

  lemma UnmapTables(st: State, k: (nat, nat))
    requires TablesOk(st) && CountsOk(st) && k in st.pte && st.refs[st.pte[k].frame] > 0
    ensures TablesOk(Unmapped(st, k))
  {
    hide PinCount, InfoOfPage, CountsOk;
    var f := st.pte[k].frame;
    var st' := Unmapped(st, k);
    MappedHasReference(st, k);
    forall j | j in st'.pte ensures st'.pte[j].frame in st'.refs {
      assert st.pte[j].frame == f ==> j in Mappers(st.pte, f);
    }
  }

  lemma UnmapWriters(st: State, k: (nat, nat))
    requires WritersAlone(st) && TablesOk(st) && k in st.pte && st.refs[st.pte[k].frame] > 0
    ensures WritersAlone(Unmapped(st, k))
  {
  }

  lemma UnmapPinned(fileData: (nat, nat) -> Page, st: State, k: (nat, nat))
    requires TablesOk(st) && CountsOk(st) && PinnedOk(fileData, st) && k in st.pte && st.refs[st.pte[k].frame] > 0
    ensures PinnedOk(fileData, Unmapped(st, k))
  {
    hide PinCount, Mappers, InfoOfPage, PinnedOk;
    var f := st.pte[k].frame;
    MappedHasReference(st, k);
    if st.refs[f] == 1 { NotPinned(st, f); }
    FreeingUnpinned(fileData, st, f);
    PinnedIgnoresTables(fileData, Unreferenced(st, f), st.pte - {k});
  }

  lemma FreeingUnpinned(fileData: (nat, nat) -> Page, st: State, f: nat)
    requires PinnedOk(fileData, st) && f in st.refs && st.refs[f] > 0
    requires st.refs[f] == 1 ==> st.zero != Some(f) && forall c :: c in st.cached ==> st.cached[c] != f
    ensures PinnedOk(fileData, Unreferenced(st, f))
  {
  }

  lemma PinnedIgnoresTables(fileData: (nat, nat) -> Page, st: State, pte: PageTables)
    requires PinnedOk(fileData, st)
    ensures PinnedOk(fileData, st.(pte := pte))
  {
  }

  lemma NotPinned(st: State, f: nat)
    requires Pins(st, f) == 0
    ensures st.zero != Some(f) && forall c :: c in st.cached ==> st.cached[c] != f
  {
    var s := CachedAt(st.cached, f);
    assert s == {};
    forall c | c in st.cached ensures st.cached[c] != f {
      assert c !in s;
    }
  }

  lemma UnmapKeeps(fileData: (nat, nat) -> Page, st: State, k: (nat, nat))
    requires Valid(fileData, st) && k in st.pte
    requires st.refs[st.pte[k].frame] > 0
    ensures Valid(fileData, Unmapped(st, k))
    ensures forall j :: j != k ==> View(fileData, Unmapped(st, k), j) == View(fileData, st, j)
    ensures k !in Unmapped(st, k).pte
    ensures View(fileData, Unmapped(st, k), k)
         == Some(Cell(InfoOfPage(st.maps, k).value, Initial(fileData, InfoOfPage(st.maps, k).value)))
  {
    hide PinCount, InfoOfPage, Mappers, MapsOk, WritersAlone, Initial;
    UnmapTables(st, k);
    UnmapWriters(st, k);
    UnmapPinned(fileData, st, k);
    UnmapCounts(st, k);
  }

  lemma UnmapCounts(st: State, k: (nat, nat))
    requires CountsOk(st) && TablesOk(st) && k in st.pte && st.refs[st.pte[k].frame] > 0
    ensures CountsOk(Unmapped(st, k))
  {
    hide PinCount;
    var st' := Unmapped(st, k);
    forall g | g in st'.refs ensures st'.refs[g] == |Mappers(st'.pte, g)| + Pins(st', g) {
      MapperRemoved(st.pte, k, g);
    }
  }

  /** Frame `f` is mapped at the so far empty entry `k`. */
  function Mapped(st: State, k: (nat, nat), f: nat, writable: bool): State
    requires f in st.refs
  {
    st.(pte := st.pte[k := Pte(f, writable)], refs := st.refs[f := st.refs[f] + 1])
  }

  /** What makes it safe to map frame `f`: nobody else writes it, and no one else sees it if we do. */
  ghost predicate MayMap(st: State, f: nat, writable: bool) {
    if writable then Mappers(st.pte, f) == {} && Pins(st, f) == 0
    else forall j :: j in st.pte && st.pte[j].frame == f ==> !st.pte[j].writable
  }

  lemma MapTables(fileData: (nat, nat) -> Page, st: State, k: (nat, nat), f: nat, writable: bool)
    requires TablesOk(st) && WritersAlone(st)
    requires k !in st.pte && k.1 % PAGE == 0 && f in st.refs && MayMap(st, f, writable)
    requires InfoOfPage(st.maps, k).Some? && (writable ==> InfoOfPage(st.maps, k).value.flags.write)
    ensures var st' := Mapped(st, k, f, writable); TablesOk(st') && WritersAlone(st')
  {
    hide PinCount, InfoOfPage;
    forall j | j in st.pte && st.pte[j].frame == f ensures !writable && !st.pte[j].writable {
      assert j in Mappers(st.pte, f);
    }
  }

  lemma MapKeeps(fileData: (nat, nat) -> Page, st: State, k: (nat, nat), f: nat, writable: bool)
    requires Valid(fileData, st) && k !in st.pte && k.1 % PAGE == 0 && f in st.refs
    requires InfoOfPage(st.maps, k).Some? && (writable ==> InfoOfPage(st.maps, k).value.flags.write)
    requires MayMap(st, f, writable)
    ensures Valid(fileData, Mapped(st, k, f, writable))
    ensures forall j :: j != k ==> View(fileData, Mapped(st, k, f, writable), j) == View(fileData, st, j)
    ensures View(fileData, Mapped(st, k, f, writable), k) == Some(Cell(InfoOfPage(st.maps, k).value, st.content[f]))
  {
    hide PinCount, InfoOfPage, Mappers, MapsOk, WritersAlone, MayMap, Initial;
    MapTables(fileData, st, k, f, writable);
    MapCounts(st, k, f, writable);
  }

  lemma MapCounts(st: State, k: (nat, nat), f: nat, writable: bool)
    requires CountsOk(st) && k !in st.pte && f in st.refs
    ensures CountsOk(Mapped(st, k, f, writable))
  {
    hide PinCount;
    var st' := Mapped(st, k, f, writable);
    forall g | g in st'.refs ensures st'.refs[g] == |Mappers(st'.pte, g)| + Pins(st', g) {
      MapperAdded(st.pte, k, Pte(f, writable), g);
    }
  }

  // ---------------------------------------------------------------- other steps

  /** An entry loses its write permission. */
  function Demoted(st: State, k: (nat, nat)): State
    requires k in st.pte
  {
    st.(pte := st.pte[k := Pte(st.pte[k].frame, false)])
  }

  lemma DemotedMappers(pte: PageTables, k: (nat, nat))
    requires k in pte
    ensures forall f :: Mappers(pte[k := Pte(pte[k].frame, false)], f) == Mappers(pte, f)
  {
  }

  lemma DemoteKeeps(fileData: (nat, nat) -> Page, st: State, k: (nat, nat))
    requires Valid(fileData, st) && k in st.pte
    ensures Valid(fileData, Demoted(st, k))
    ensures forall j :: View(fileData, Demoted(st, k), j) == View(fileData, st, j)
  {
    hide PinCount, InfoOfPage, MapsOk, Mappers, WritersAlone, CountsOk, Initial;
    DemoteCounts(st, k);
    DemoteWriters(st, k);
  }

  lemma DemoteCounts(st: State, k: (nat, nat))
    requires CountsOk(st) && k in st.pte
    ensures CountsOk(Demoted(st, k))
  {
    hide PinCount, Mappers;
    DemotedMappers(st.pte, k);
  }

  lemma DemoteWriters(st: State, k: (nat, nat))
    requires WritersAlone(st) && k in st.pte
    ensures WritersAlone(Demoted(st, k))
  {
  }

  /** The zero page comes into being, referenced once for good. */
  function ZeroPinned(st: State, f: nat): State {
    st.(zero := Some(f), refs := st.refs[f := 1])
  }

  lemma PinZeroKeeps(fileData: (nat, nat) -> Page, st: State, f: nat)
    requires Valid(fileData, st) && st.zero.None? && f in st.refs && st.content[f] == ZERO
    requires Mappers(st.pte, f) == {} && Pins(st, f) == 0
    ensures Valid(fileData, ZeroPinned(st, f))
    ensures forall j :: View(fileData, ZeroPinned(st, f), j) == View(fileData, st, j)
  {
    hide InfoOfPage, MapsOk, Mappers, PinCount;
    forall g: nat ensures Pins(ZeroPinned(st, f), g) == if g == f then 1 else Pins(st, g) { ZeroPinCount(st, f, g); }
    NotMapped(st.pte, f);
  }

  lemma ZeroPinCount(st: State, f: nat, g: nat)
    requires st.zero.None? && Pins(st, f) == 0
    ensures Pins(ZeroPinned(st, f), g) == if g == f then 1 else Pins(st, g)
  {
  }

  lemma NotMapped(pte: PageTables, f: nat)
    requires Mappers(pte, f) == {}
    ensures forall k :: k in pte ==> pte[k].frame != f
  {
    forall k | k in pte ensures pte[k].frame != f { assert k !in Mappers(pte, f); }
  }

  /** A page of a file enters the page cache, referenced once for good. */
  function CachePinned(st: State, c: (nat, nat), f: nat): State {
    st.(cached := st.cached[c := f], refs := st.refs[f := 1])
  }

  lemma CachePinCount(st: State, c: (nat, nat), f: nat, g: nat)
    requires c !in st.cached && Pins(st, f) == 0
    ensures Pins(CachePinned(st, c, f), g) == if g == f then 1 else Pins(st, g)
  {
    if g == f {
      assert CachedAt(st.cached, f) == {};
      assert CachedAt(st.cached[c := f], f) == {c};
    } else {
      assert CachedAt(st.cached[c := f], g) == CachedAt(st.cached, g);
    }
  }

  lemma PinCacheKeeps(fileData: (nat, nat) -> Page, st: State, c: (nat, nat), f: nat)
    requires Valid(fileData, st) && c !in st.cached && f in st.refs && st.content[f] == fileData(c.0, c.1)
    requires Mappers(st.pte, f) == {} && Pins(st, f) == 0
    ensures Valid(fileData, CachePinned(st, c, f))
    ensures forall j :: View(fileData, CachePinned(st, c, f), j) == View(fileData, st, j)
  {
    hide InfoOfPage, MapsOk, PinCount, Mappers;
    forall g: nat ensures Pins(CachePinned(st, c, f), g) == if g == f then 1 else Pins(st, g) {
      CachePinCount(st, c, f, g);
    }
    NotMapped(st.pte, f);
  }

  /** A store through a writable entry. */
  function Written(st: State, k: (nat, nat), page: Page): State
    requires k in st.pte
  {
    st.(content := st.content[st.pte[k].frame := page])
  }

  /** Because writers are alone, a store is seen by one page of one process only. */
  lemma WriteKeeps(fileData: (nat, nat) -> Page, st: State, k: (nat, nat), page: Page)
    requires Valid(fileData, st) && k in st.pte && st.pte[k].writable
    ensures Valid(fileData, Written(st, k, page))
    ensures forall j :: j != k ==> View(fileData, Written(st, k, page), j) == View(fileData, st, j)
    ensures View(fileData, Written(st, k, page), k) == Some(Cell(InfoOfPage(st.maps, k).value, page))
  {
    hide InfoOfPage, MapsOk, Mappers, PinCount;
    NotPinned(st, st.pte[k].frame);
  }

  /** The mappings of one process change. */
  function Remapped(st: State, p: nat, vs: seq<Vmap>): State {
    st.(maps := st.maps[p := vs])
  }

  ghost predicate GoodMaps(vs: seq<Vmap>) {
    WellFormed(vs) && forall i :: 0 <= i < |vs| ==> PrivateMap(vs[i])
  }

  lemma RemapKeeps(fileData: (nat, nat) -> Page, st: State, p: nat, vs: seq<Vmap>)
    requires Valid(fileData, st) && GoodMaps(vs)
    requires forall a :: (p, a) in st.pte ==>
               InfoAt(vs, a).Some? && (st.pte[(p, a)].writable ==> InfoAt(vs, a).value.flags.write)
    ensures Valid(fileData, Remapped(st, p, vs))
    ensures forall k: (nat, nat) :: k.0 != p ==> View(fileData, Remapped(st, p, vs), k) == View(fileData, st, k)
  {
    hide InfoAt, WellFormed, Mappers, PinCount;
    var st' := Remapped(st, p, vs);
    forall k | k in st'.pte
      ensures InfoOfPage(st'.maps, k).Some? && (st'.pte[k].writable ==> InfoOfPage(st'.maps, k).value.flags.write)
    {
      assert k == (k.0, k.1);
    }
  }

  lemma PinnedNotWritten(fileData: (nat, nat) -> Page, st: State, f: nat)
    requires Valid(fileData, st)
    requires st.zero == Some(f) || exists c :: c in st.cached && st.cached[c] == f
    ensures MayMap(st, f, false)
  {
    hide InfoOfPage, MapsOk, TablesOk, CountsOk;
    if st.zero != Some(f) {
      var c :| c in st.cached && st.cached[c] == f;
      assert c in CachedAt(st.cached, f);
    }
  }

  lemma MayMapStays(st: State, k: (nat, nat), f: nat, writable: bool)
    requires k in st.pte && st.pte[k].frame in st.refs && st.refs[st.pte[k].frame] > 0 && st.pte[k].frame != f
    requires MayMap(st, f, writable)
    ensures MayMap(Unmapped(st, k), f, writable)
  {
  }

  /** The mapping that contains an address also contains the start of its page. */
  lemma SamePage(vs: seq<Vmap>, addr: nat)
    requires WellFormed(vs)
    ensures Find(vs, AlignDownToPage(addr)) == Find(vs, addr)
  {
  }

  lemma PrefixExtends(maps: seq<Vmap>, i: nat)
    requires WellFormed(maps) && i < |maps|
    ensures WellFormed(maps[..i]) && WellFormed(maps[..i + 1]) && FreeFor(maps[..i], maps[i])
    ensures Inserted(maps[..i], maps[i]) == maps[..i + 1]
  {
  }

  lemma MapAligned(maps: map<nat, seq<Vmap>>, p: nat, i: nat)
    requires MapsOk(maps) && p in maps && i < |maps[p]|
    ensures maps[p][i].vaddr % PAGE == 0
  {
  }

  lemma SharedInfo(maps: map<nat, seq<Vmap>>, parent: nat, child: nat, i: nat, a: nat)
    requires MapsOk(maps) && parent in maps && child in maps
    requires i < |maps[parent]| && maps[child] == maps[parent][..i + 1] && maps[parent][i].Contains(a)
    ensures InfoOfPage(maps, (parent, a)) == InfoOfPage(maps, (child, a)) == Some(InfoOf(maps[parent][i], a))
    ensures maps[parent][i].vaddr % PAGE == 0
  {
  }

  /** A process that does not exist has no page table entries. */
  lemma EmptyGood()
    ensures WellFormed([]) && GoodMaps([])
  {
  }

  lemma NoEntries(fileData: (nat, nat) -> Page, st: State, p: nat)
    requires Valid(fileData, st) && p !in st.maps
    ensures forall k :: k in st.pte ==> k.0 != p
  {
  }

  // ---------------------------------------------------------------- fork, step by step

  ghost predicate EntriesBelow(st: State, p: nat, top: nat) {
    forall k :: k in st.pte && k.0 == p ==> k.1 < top
  }

  ghost predicate ReadOnlyIn(st: State, p: nat, lo: nat, hi: nat) {
    forall k :: k in st.pte && k.0 == p && lo <= k.1 < hi ==> !st.pte[k].writable
  }

  /** Nothing changed for other processes, nor for `p` below `lo`. */
  ghost predicate SameOutside(fileData: (nat, nat) -> Page, s: State, t: State, p: nat, lo: nat) {
    forall k: (nat, nat) :: k.0 != p || k.1 < lo ==> View(fileData, t, k) == View(fileData, s, k)
  }

  /** In `t` the child sees from `lo` to `hi` what the parent saw in `s`. */
  ghost predicate Copied(fileData: (nat, nat) -> Page, s: State, t: State, parent: nat, child: nat, lo: nat, hi: nat) {
    forall a: nat :: lo <= a < hi && a % PAGE == 0 ==>
      View(fileData, t, (child, a)) == View(fileData, s, (parent, a))
  }

  lemma CopiedNothing(fileData: (nat, nat) -> Page, s: State, parent: nat, child: nat, lo: nat)
    ensures Copied(fileData, s, s, parent, child, lo, lo) && SameOutside(fileData, s, s, child, lo)
  {
  }

  lemma CopiedOneMore(fileData: (nat, nat) -> Page, s: State, t: State, t': State, parent: nat, child: nat, lo: nat,
                      a: nat)
    requires Copied(fileData, s, t, parent, child, lo, a) && SameOutside(fileData, s, t, child, lo)
    requires SameElsewhere(fileData, t, t', (child, a)) && lo <= a && a % PAGE == 0 && parent != child
    requires View(fileData, t', (child, a)) == View(fileData, t, (parent, a))
    ensures Copied(fileData, s, t', parent, child, lo, a + PAGE) && SameOutside(fileData, s, t', child, lo)
  {
    hide View;
    assert View(fileData, t, (parent, a)) == View(fileData, s, (parent, a));
  }

  lemma ExtendedMaps(maps: map<nat, seq<Vmap>>, parent: nat, child: nat, i: nat)
    requires MapsOk(maps) && parent in maps && child in maps && i < |maps[parent]| && maps[child] == maps[parent][..i]
    ensures var v := maps[parent][i]; var vs := Inserted(maps[child], v);
            && vs == maps[parent][..i + 1] && GoodMaps(vs)
            && forall a: nat :: a < v.vaddr ==> InfoAt(vs, a) == InfoAt(maps[child], a)
  {
    hide InfoAt, Inserted;
    var v := maps[parent][i];
    PrefixExtends(maps[parent], i);
    forall a: nat | a < v.vaddr ensures InfoAt(Inserted(maps[child], v), a) == InfoAt(maps[child], a) {
      InsertedInfo(maps[child], v, a);
    }
  }

  lemma ExtendKeeps(fileData: (nat, nat) -> Page, st: State, parent: nat, child: nat, i: nat)
    requires Valid(fileData, st) && parent in st.maps && child in st.maps && parent != child
    requires i < |st.maps[parent]| && st.maps[child] == st.maps[parent][..i]
    requires EntriesBelow(st, child, st.maps[parent][i].vaddr)
    ensures var vs := Inserted(st.maps[child], st.maps[parent][i]); var st' := Remapped(st, child, vs);
            && vs == st.maps[parent][..i + 1] && Valid(fileData, st')
            && SameOutside(fileData, st, st', child, st.maps[parent][i].vaddr)
  {
    hide InfoAt, Mappers, PinCount, WellFormed, Inserted, MapsOk, GoodMaps;
    var v := st.maps[parent][i];
    var before := st.maps[child];
    var vs := Inserted(before, v);
    ExtendedMaps(st.maps, parent, child, i);
    forall a | (child, a) in st.pte
      ensures InfoAt(vs, a).Some? && (st.pte[(child, a)].writable ==> InfoAt(vs, a).value.flags.write)
    {
      assert InfoOfPage(st.maps, (child, a)).Some?;
    }
    RemapKeeps(fileData, st, child, vs);
  }

  /** The first `i` mappings of the parent have been cloned. */
  ghost predicate Forked(fileData: (nat, nat) -> Page, s: State, t: State, parent: nat, child: nat, i: nat)
    requires parent in s.maps && i <= |s.maps[parent]|
  {
    && (forall k: (nat, nat) :: k.0 != child ==> View(fileData, t, k) == View(fileData, s, k))
    && (forall j :: 0 <= j < i ==>
          Copied(fileData, s, t, parent, child, s.maps[parent][j].vaddr, s.maps[parent][j].End()))
  }

  lemma ForkedNothing(fileData: (nat, nat) -> Page, s: State, t: State, parent: nat, child: nat)
    requires parent in s.maps
    requires forall k: (nat, nat) :: k.0 != child ==> View(fileData, t, k) == View(fileData, s, k)
    ensures Forked(fileData, s, t, parent, child, 0)
  {
  }

  lemma ForkedOneMore(fileData: (nat, nat) -> Page, s: State, t: State, t': State, parent: nat, child: nat, i: nat)
    requires MapsOk(s.maps) && parent in s.maps && i < |s.maps[parent]| && parent != child
    requires Forked(fileData, s, t, parent, child, i)
    requires SameOutside(fileData, t, t', child, s.maps[parent][i].vaddr)
    requires Copied(fileData, t, t', parent, child, s.maps[parent][i].vaddr, s.maps[parent][i].End())
    requires EntriesBelow(t', child, s.maps[parent][i].End())
    ensures Forked(fileData, s, t', parent, child, i + 1)
    ensures i + 1 < |s.maps[parent]| ==> EntriesBelow(t', child, s.maps[parent][i + 1].vaddr)
  {
  }

  lemma ForkedAll(fileData: (nat, nat) -> Page, s: State, t: State, parent: nat, child: nat)
    requires parent in s.maps && child in t.maps && t.maps[child] == s.maps[parent]
    requires Forked(fileData, s, t, parent, child, |s.maps[parent]|)
    ensures forall k: (nat, nat) :: k.0 != child ==> View(fileData, t, k) == View(fileData, s, k)
    ensures forall a: nat :: a % PAGE == 0 ==> View(fileData, t, (child, a)) == View(fileData, s, (parent, a))
  {
  }

  // ---------------------------------------------------------------- changing mappings

  /** Two page infos that differ in flags only. */
  predicate SameBacking(x: PageInfo, y: PageInfo) {
    x == y.(flags := x.flags)
  }

  /** Every page of `vs` was a page of `before` with the same backing. */
  ghost predicate Inherits(vs: seq<Vmap>, before: seq<Vmap>) {
    forall a: nat :: InfoAt(vs, a).Some? ==>
      InfoAt(before, a).Some? && SameBacking(InfoAt(vs, a).value, InfoAt(before, a).value)
  }

  lemma InheritedMapsGood(vs: seq<Vmap>, before: seq<Vmap>)
    requires GoodMaps(before) && WellFormed(vs) && Inherits(vs, before)
    ensures GoodMaps(vs)
  {
    forall i | 0 <= i < |vs| ensures PrivateMap(vs[i]) {
      var a := vs[i].vaddr;
      FindIs(vs, a, i);
      assert InfoAt(vs, a) == Some(InfoOf(vs[i], a));
      assert PrivateMap(before[Find(before, a).value]);
    }
  }

  /** The pages from `lo` to `hi` get new flags; nothing else changes. */
  ghost predicate Reflagged(fileData: (nat, nat) -> Page, s: State, t: State, p: nat, lo: nat, hi: nat, flags: Flags) {
    forall k: (nat, nat) :: View(fileData, t, k) ==
      var cell := View(fileData, s, k);
      if k.0 == p && lo <= k.1 < hi && cell.Some? then Some(cell.value.(info := cell.value.info.(flags := flags)))
      else cell
  }

  lemma ReflagAfterSame(fileData: (nat, nat) -> Page, s: State, t: State, u: State, p: nat, lo: nat, hi: nat,
                        flags: Flags)
    requires SameViews(fileData, s, t) && Reflagged(fileData, t, u, p, lo, hi, flags)
    ensures Reflagged(fileData, s, u, p, lo, hi, flags)
  {
  }

  lemma ReflagKeeps(fileData: (nat, nat) -> Page, st: State, p: nat, vs: seq<Vmap>, lo: nat, hi: nat, flags: Flags)
    requires Valid(fileData, st) && p in st.maps && GoodMaps(vs)
    requires forall a: nat :: InfoAt(vs, a) ==
               if lo <= a < hi && InfoAt(st.maps[p], a).Some? then Some(InfoAt(st.maps[p], a).value.(flags := flags))
               else InfoAt(st.maps[p], a)
    requires !flags.write ==> ReadOnlyIn(st, p, lo, hi)
    ensures Valid(fileData, Remapped(st, p, vs))
    ensures Reflagged(fileData, st, Remapped(st, p, vs), p, lo, hi, flags)
  {
    hide InfoAt, WellFormed, Mappers, PinCount;
    forall a | (p, a) in st.pte
      ensures InfoAt(vs, a).Some? && (st.pte[(p, a)].writable ==> InfoAt(vs, a).value.flags.write)
    {
      assert InfoOfPage(st.maps, (p, a)).Some?;
    }
    RemapKeeps(fileData, st, p, vs);
  }

  /** The pages of a new mapping appear with their initial contents; nothing else changes. */
  ghost predicate Appeared(fileData: (nat, nat) -> Page, s: State, t: State, p: nat, v: Vmap) {
    forall k: (nat, nat) :: View(fileData, t, k) ==
      if k.0 == p && v.Contains(k.1) then Some(Cell(InfoOf(v, k.1), Initial(fileData, InfoOf(v, k.1))))
      else View(fileData, s, k)
  }

  ghost predicate NothingIn(fileData: (nat, nat) -> Page, s: State, p: nat, v: Vmap) {
    forall a: nat :: v.Contains(a) ==> View(fileData, s, (p, a)).None?
  }

  lemma InsertedGood(before: seq<Vmap>, v: Vmap)
    requires GoodMaps(before) && PrivateMap(v) && v.npages > 0 && v.vaddr % PAGE == 0 && FreeFor(before, v)
    ensures GoodMaps(Inserted(before, v))
  {
    InsertedWellFormed(before, v);
    InsertedIndex(before, v);
    var vs := Inserted(before, v);
    var q := Slot(before, v.vaddr, 0);
    forall i | 0 <= i < |vs| ensures PrivateMap(vs[i]) {
      assert vs[i] == if i < q then before[i] else if i == q then v else before[i - 1];
    }
  }

  /** `vs` is `before` with the pages of `v` added where there were none. */
  ghost predicate Adds(vs: seq<Vmap>, before: seq<Vmap>, v: Vmap) {
    forall a: nat ::
      && InfoAt(vs, a) == (if v.Contains(a) then Some(InfoOf(v, a)) else InfoAt(before, a))
      && (v.Contains(a) ==> InfoAt(before, a).None?)
  }

  lemma InsertedAdds(before: seq<Vmap>, v: Vmap)
    requires WellFormed(before) && v.npages > 0 && v.vaddr % PAGE == 0 && FreeFor(before, v)
    ensures Adds(Inserted(before, v), before, v)
  {
    forall a: nat
      ensures InfoAt(Inserted(before, v), a) == (if v.Contains(a) then Some(InfoOf(v, a)) else InfoAt(before, a))
      ensures v.Contains(a) ==> InfoAt(before, a).None?
    {
      InsertedInfo(before, v, a);
      if v.Contains(a) { FreeMeansNone(before, v, a); }
    }
  }

  lemma AppearKeeps(fileData: (nat, nat) -> Page, st: State, p: nat, v: Vmap, vs: seq<Vmap>)
    requires Valid(fileData, st) && p in st.maps && GoodMaps(vs) && Adds(vs, st.maps[p], v)
    ensures var st' := Remapped(st, p, vs);
            Valid(fileData, st') && Appeared(fileData, st, st', p, v) && NothingIn(fileData, st, p, v)
  {
    hide InfoAt, WellFormed, Mappers, PinCount, GoodMaps, CountsOk, WritersAlone, PinnedOk;
    forall a | (p, a) in st.pte
      ensures !v.Contains(a)
      ensures InfoAt(vs, a).Some? && (st.pte[(p, a)].writable ==> InfoAt(vs, a).value.flags.write)
    {
      assert InfoOfPage(st.maps, (p, a)).Some?;
    }
    RemapKeeps(fileData, st, p, vs);
  }

  lemma FreeMeansNone(maps: seq<Vmap>, v: Vmap, a: nat)
    requires FreeFor(maps, v) && v.Contains(a)
    ensures InfoAt(maps, a).None?
  {
  }

  ghost predicate SameBeside(fileData: (nat, nat) -> Page, s: State, t: State, p: nat, v: Vmap) {
    forall k: (nat, nat) :: !(k.0 == p && v.Contains(k.1)) ==> View(fileData, s, k) == View(fileData, t, k)
  }

  lemma SameBesideItself(fileData: (nat, nat) -> Page, s: State, p: nat, v: Vmap)
    ensures SameBeside(fileData, s, s, p, v)
  {
  }

  lemma UnmapBeside(fileData: (nat, nat) -> Page, s: State, t: State, k: (nat, nat), v: Vmap)
    requires Valid(fileData, t) && SameBeside(fileData, s, t, k.0, v) && v.Contains(k.1)
    requires k in t.pte
    ensures t.pte[k].frame in t.refs && t.refs[t.pte[k].frame] > 0
    ensures var t' := Unmapped(t, k);
            && Valid(fileData, t') && SameBeside(fileData, s, t', k.0, v)
            && t'.maps == t.maps && t'.pte == t.pte - {k}
  {
    hide View, WritersAlone, PinnedOk, MapsOk, InfoOfPage, PinCount;
    MappedHasReference(t, k);
    UnmapKeeps(fileData, t, k);
  }

  ghost predicate NoneIn(st: State, p: nat, lo: nat, hi: nat) {
    forall k :: k in st.pte && k.0 == p ==> !(lo <= k.1 < hi)
  }

  lemma NoneInStep(fileData: (nat, nat) -> Page, s: State, t: State, p: nat, lo: nat, a: nat)
    requires Valid(fileData, s) && NoneIn(s, p, lo, a) && t.pte == s.pte - {(p, a)} && a % PAGE == 0
    ensures NoneIn(t, p, lo, a + PAGE)
  {
    hide CountsOk, WritersAlone, PinnedOk, MapsOk, InfoOfPage;
    forall k | k in t.pte && k.0 == p ensures !(lo <= k.1 < a + PAGE) {
      assert k in s.pte && k.1 % PAGE == 0 && k == (p, k.1);
    }
  }

  /** The pages of a mapping disappear; nothing else changes. */
  ghost predicate Vanished(fileData: (nat, nat) -> Page, s: State, t: State, p: nat, v: Vmap) {
    forall k: (nat, nat) :: View(fileData, t, k) == if k.0 == p && v.Contains(k.1) then None else View(fileData, s, k)
  }

  lemma VanishAfter(fileData: (nat, nat) -> Page, s: State, t: State, u: State, p: nat, v: Vmap)
    requires SameBeside(fileData, s, t, p, v) && Vanished(fileData, t, u, p, v)
    ensures Vanished(fileData, s, u, p, v)
  {
  }

  /** `vs` is `before` without the pages of `v`. */
  ghost predicate Drops(vs: seq<Vmap>, before: seq<Vmap>, v: Vmap) {
    forall a: nat :: InfoAt(vs, a) == if v.Contains(a) then None else InfoAt(before, a)
  }

  lemma RemovedGood(before: seq<Vmap>, i: nat)
    requires GoodMaps(before) && i < |before|
    ensures GoodMaps(Removed(before, i)) && Drops(Removed(before, i), before, before[i])
  {
    RemovedWellFormed(before, i);
    forall a: nat ensures InfoAt(Removed(before, i), a) == if before[i].Contains(a) then None else InfoAt(before, a) {
      RemovedInfo(before, i, a);
    }
  }

  lemma VanishKeeps(fileData: (nat, nat) -> Page, st: State, p: nat, i: nat)
    requires Valid(fileData, st) && p in st.maps && i < |st.maps[p]|
    requires NoneIn(st, p, st.maps[p][i].vaddr, st.maps[p][i].End())
    ensures var st' := Remapped(st, p, Removed(st.maps[p], i));
            Valid(fileData, st') && Vanished(fileData, st, st', p, st.maps[p][i])
  {
    hide InfoAt, WellFormed, Mappers, PinCount, CountsOk, WritersAlone, PinnedOk;
    var vs := Removed(st.maps[p], i);
    RemovedGood(st.maps[p], i);
    forall a | (p, a) in st.pte
      ensures InfoAt(vs, a).Some? && (st.pte[(p, a)].writable ==> InfoAt(vs, a).value.flags.write)
    {
      assert InfoOfPage(st.maps, (p, a)).Some?;
    }
    RemapKeeps(fileData, st, p, vs);
  }

  /** The search for room found none: not at the hint, or nowhere above it. */
  ghost predicate NoRoom(maps: seq<Vmap>, hint: nat, exact: bool, npages: nat) {
    if exact then Taken(maps, hint, npages * PAGE)
    else AllTaken(maps, hint, KERNEL_START - npages * PAGE + 1, npages * PAGE)
  }

  /** Find room for a mapping and attach it. */
  method PlaceMap(maps: seq<Vmap>, hint: nat, exact: bool, like: Vmap) returns (r: Option<Vmap>, vs: seq<Vmap>)
    requires GoodMaps(maps) && PrivateMap(like) && like.npages > 0 && hint % PAGE == 0 && hint < KERNEL_START
    ensures r.None? ==> vs == maps
    ensures r.None? <==> NoRoom(maps, hint, exact, like.npages)
    ensures r.Some? ==> r.value == like.(vaddr := r.value.vaddr) && (exact ==> r.value.vaddr == hint)
    ensures r.Some? ==> r.value.vaddr % PAGE == 0 && hint <= r.value.vaddr
    ensures r.Some? ==> GoodMaps(vs) && Adds(vs, maps, r.value)
  {
    hide InfoAt;
    var space := new AddressSpace();
    space.mmaps := maps;
    var at := space.GetFree(like.npages, hint, exact);
    if !at.At? { return None, maps; }
    var v := like.(vaddr := at.addr);
    assert FreeFor(maps, v);
    InsertedGood(maps, v);
    InsertedAdds(maps, v);
    var _ := space.Attach(v);
    return Some(v), space.mmaps;
  }

  /** The list part of `vm_protect`, and the end of the range it covers. */
  method ProtectMaps(ios: map<nat, IoState>, maps: seq<Vmap>, addr: nat, size: nat, perm: Flags)
    returns (r: Outcome, vs: seq<Vmap>, hi: nat)
    requires GoodMaps(maps) && addr % PAGE == 0
    requires forall i :: 0 <= i < |maps| && maps[i].io.Some? ==> maps[i].io.value in ios
    ensures r == ProtectOutcome(ios, maps, addr, size, perm)
    ensures GoodMaps(vs) && addr <= hi && hi % PAGE == 0
    ensures if r.Done? then forall a: nat :: Protects(maps, addr, size, a) <==> addr <= a < hi else hi == addr
    ensures forall a: nat :: InfoAt(vs, a) ==
              if addr <= a < hi && InfoAt(maps, a).Some? then Some(InfoAt(maps, a).value.(flags := perm.(user := true)))
              else InfoAt(maps, a)
  {
    var space := new AddressSpace();
    space.mmaps := maps;
    r := space.Protect(ios, addr, size, perm);
    hi := addr;
    if r.Panic? { return r, maps, hi; }
    if r.Done? {
      var v := maps[Find(maps, addr).value];
      hi := if addr + AlignUpToPage(size) < v.End() then addr + AlignUpToPage(size) else v.End();
    }
    vs := space.mmaps;
    forall a: nat | r.Done? && Protects(maps, addr, size, a) ensures InfoAt(maps, a).Some? {
      FindIs(maps, a, Find(maps, addr).value);
    }
    assert r.Done? ==> forall a: nat :: Protects(maps, addr, size, a) <==> addr <= a < hi;
    hide InfoAt, Protects;
    assert Inherits(vs, maps);
    InheritedMapsGood(vs, maps);
  }

  /** The list part of `munmap` up to the destruction of mapping `i`. */
  method IsolateMap(maps: seq<Vmap>, addr: nat, size: nat) returns (r: Outcome, vs: seq<Vmap>, i: nat)
    requires GoodMaps(maps)
    ensures r == MunmapOutcome(maps, addr, size)
    ensures GoodMaps(vs) && forall a: nat :: InfoAt(vs, a) == InfoAt(maps, a)
    ensures r.Done? ==> i < |vs| && forall a: nat :: vs[i].Contains(a) <==> Removes(maps, addr, size, a)
  {
    hide InfoAt, Removes, MunmapOutcome;
    var space := new AddressSpace();
    space.mmaps := maps;
    var whole;
    r, i, whole := space.Isolate(addr, size);
    vs := space.mmaps;
    InheritedMapsGood(vs, maps);
  }

  // ---------------------------------------------------------------- the eager reference

  /** Memory in which fork copies every page: per process and page, a cell or nothing. */
  type Mem = ((nat, nat)) -> Option<Cell>

  /** What an operation did, as a user could tell.  A failed assertion or a null dereference ends the run. */
  datatype Event =
    | EvNone
    | EvPanic
    | EvMap(p: nat, v: Vmap)
    | EvUnmap(p: nat, v: Vmap)
    | EvFork(parent: nat, child: nat)
    | EvProtect(p: nat, lo: nat, hi: nat, flags: Flags)
    | EvLoad(p: nat, addr: nat, result: Option<int>)
    | EvStore(p: nat, addr: nat, b: int, ok: bool)

  function PageOf(p: nat, addr: nat): (nat, nat) { (p, AlignDownToPage(addr)) }

  /** The event can happen in eager memory: loads return what was last stored, and so on. */
  ghost predicate Allowed(m: Mem, e: Event) {
    match e
    case EvMap(p, v) => forall a: nat :: v.Contains(a) && a % PAGE == 0 ==> m((p, a)).None?
    case EvLoad(p, addr, result) =>
      var cell := m(PageOf(p, addr));
      result == if cell.Some? then Some(cell.value.page[addr % PAGE]) else None
    case EvStore(p, addr, _, ok) =>
      var cell := m(PageOf(p, addr));
      ok <==> cell.Some? && cell.value.info.flags.write
    case _ => true
  }

  /** Eager memory after the event. */
  ghost function After(fileData: (nat, nat) -> Page, m: Mem, e: Event, k: (nat, nat)): Option<Cell> {
    match e
    case EvNone => m(k)
    case EvPanic => m(k)
    case EvMap(p, v) =>
      if k.0 == p && v.Contains(k.1) then Some(Cell(InfoOf(v, k.1), Initial(fileData, InfoOf(v, k.1)))) else m(k)
    case EvUnmap(p, v) => if k.0 == p && v.Contains(k.1) then None else m(k)
    case EvFork(parent, child) => if k.0 == child then m((parent, k.1)) else m(k)
    case EvProtect(p, lo, hi, flags) =>
      if k.0 == p && lo <= k.1 < hi && m(k).Some? then Some(m(k).value.(info := m(k).value.info.(flags := flags)))
      else m(k)
    case EvLoad(_, _, _) => m(k)
    case EvStore(p, addr, b, ok) =>
      if ok && k == PageOf(p, addr) && m(k).Some? then Some(m(k).value.(page := m(k).value.page[addr % PAGE := b]))
      else m(k)
  }

  ghost function Step(fileData: (nat, nat) -> Page, m: Mem, e: Event): Mem {
    (k: (nat, nat)) => After(fileData, m, e, k)
  }

  ghost function Replay(fileData: (nat, nat) -> Page, m: Mem, es: seq<Event>): Mem {
    if es == [] then m else Step(fileData, Replay(fileData, m, es[..|es| - 1]), es[|es| - 1])
  }

  ghost predicate AllAllowed(fileData: (nat, nat) -> Page, m: Mem, es: seq<Event>) {
    forall i :: 0 <= i < |es| ==> Allowed(Replay(fileData, m, es[..i]), es[i])
  }

  /** The machine shows exactly what eager memory holds. */
  ghost predicate Shows(fileData: (nat, nat) -> Page, st: State, m: Mem) {
    forall k: (nat, nat) :: k.1 % PAGE == 0 ==> View(fileData, st, k) == m(k)
  }

  /** One machine step explains as one eager event. */
  ghost predicate Simulates(fileData: (nat, nat) -> Page, s: State, t: State, e: Event) {
    forall m: Mem :: Shows(fileData, s, m) ==> Allowed(m, e) && Shows(fileData, t, Step(fileData, m, e))
  }

  lemma ReplayExtends(fileData: (nat, nat) -> Page, m: Mem, es: seq<Event>, s: State, t: State, e: Event)
    requires Shows(fileData, s, Replay(fileData, m, es)) && AllAllowed(fileData, m, es)
    requires Simulates(fileData, s, t, e)
    ensures Shows(fileData, t, Replay(fileData, m, es + [e])) && AllAllowed(fileData, m, es + [e])
  {
    hide Allowed, Shows, Step;
    var more := es + [e];
    assert more[..|es|] == es;
    forall i | 0 <= i < |more| ensures Allowed(Replay(fileData, m, more[..i]), more[i]) {
      assert i < |es| ==> more[..i] == es[..i];
    }
  }

  lemma SameItself(fileData: (nat, nat) -> Page, s: State)
    ensures SameViews(fileData, s, s)
  {
  }

  lemma SimulateNothing(fileData: (nat, nat) -> Page, s: State, t: State)
    requires SameViews(fileData, s, t)
    ensures Simulates(fileData, s, t, EvNone) && Simulates(fileData, s, t, EvPanic)
  {
  }

  lemma SimulateMap(fileData: (nat, nat) -> Page, s: State, t: State, p: nat, v: Vmap)
    requires Appeared(fileData, s, t, p, v) && NothingIn(fileData, s, p, v)
    ensures Simulates(fileData, s, t, EvMap(p, v))
  {
  }

  lemma SimulateUnmap(fileData: (nat, nat) -> Page, s: State, t: State, p: nat, v: Vmap)
    requires Vanished(fileData, s, t, p, v)
    ensures Simulates(fileData, s, t, EvUnmap(p, v))
  {
  }

  lemma SimulateFork(fileData: (nat, nat) -> Page, s: State, t: State, parent: nat, child: nat)
    requires forall k: (nat, nat) :: k.0 != child ==> View(fileData, t, k) == View(fileData, s, k)
    requires forall a: nat :: a % PAGE == 0 ==> View(fileData, t, (child, a)) == View(fileData, s, (parent, a))
    ensures Simulates(fileData, s, t, EvFork(parent, child))
  {
  }

  lemma SimulateProtect(fileData: (nat, nat) -> Page, s: State, t: State, p: nat, lo: nat, hi: nat, flags: Flags)
    requires Reflagged(fileData, s, t, p, lo, hi, flags)
    ensures Simulates(fileData, s, t, EvProtect(p, lo, hi, flags))
  {
  }

  lemma SimulateLoad(fileData: (nat, nat) -> Page, s: State, t: State, p: nat, addr: nat, result: Option<int>)
    requires SameViews(fileData, s, t)
    requires var cell := View(fileData, s, PageOf(p, addr));
             result == if cell.Some? then Some(cell.value.page[addr % PAGE]) else None
    ensures Simulates(fileData, s, t, EvLoad(p, addr, result))
  {
  }

  lemma SimulateStore(fileData: (nat, nat) -> Page, s: State, t: State, p: nat, addr: nat, b: int, ok: bool)
    requires var k := PageOf(p, addr); var cell := View(fileData, s, k);
             && (ok <==> cell.Some? && cell.value.info.flags.write)
             && SameElsewhere(fileData, s, t, k)
             && View(fileData, t, k) == if ok then Some(Cell(cell.value.info, cell.value.page[addr % PAGE := b]))
                                        else cell
    ensures Simulates(fileData, s, t, EvStore(p, addr, b, ok))
  {
  }

  /**
    What processes and the kernel may ask for.  A `hint` of zero has been replaced
    by the default.  Of `MapFile`, `mapOk` says whether the hook of the file system
    succeeds, and `locked` whether somebody else holds the lock of the address
    space when a mapping that could not be made is destroyed.
   */
  datatype Op =
    | NewProcess(p: nat)
    | MapAnonymous(p: nat, hint: nat, exact: bool, npages: nat, flags: Flags)
    | MapFile(p: nat, hint: nat, exact: bool, npages: nat, flags: Flags, io: nat, offset: nat, mapOk: bool,
              locked: bool)
    | Unmap(p: nat, index: nat)
    | DoMunmap(p: nat, addr: nat, size: nat)
    | DoFork(parent: nat, child: nat)
    | DoProtect(p: nat, addr: nat, size: nat, perm: Flags)
    | DoLoad(p: nat, addr: nat)
    | DoStore(p: nat, addr: nat, b: int)
    | SpuriousFault(p: nat, addr: nat)

  // ---------------------------------------------------------------- which event an operation is

  ghost predicate KnownFiles(ios: map<nat, IoState>, maps: seq<Vmap>) {
    forall i :: 0 <= i < |maps| && maps[i].io.Some? ==> maps[i].io.value in ios
  }

  /** The mapping appears where the search puts it. */
  ghost predicate Placed(p: nat, hint: nat, exact: bool, like: Vmap, e: Event) {
    && e.EvMap? && e == EvMap(p, like.(vaddr := e.v.vaddr))
    && e.v.vaddr % PAGE == 0 && hint <= e.v.vaddr && (exact ==> e.v.vaddr == hint)
  }

  /** `mmap_anonymous`: where there is no room, a null pointer is followed. */
  ghost predicate AnonymousAnswer(maps: map<nat, seq<Vmap>>, p: nat, hint: nat, exact: bool, like: Vmap, e: Event) {
    if p !in maps || hint % PAGE != 0 then e == EvNone
    else if hint >= KERNEL_START then e == EvPanic
    else if like.npages == 0 then e == EvNone
    else if NoRoom(maps[p], hint, exact, like.npages) then e == EvPanic
    else Placed(p, hint, exact, like, e)
  }

  /**
    `mmap_file`: nothing where there is no room.  A mapping that is refused, or
    whose hook fails, is destroyed again, which is asserted to happen under a lock
    that only somebody else can hold.
   */
  ghost predicate FileAnswer(maps: map<nat, seq<Vmap>>, p: nat, hint: nat, exact: bool, like: Vmap, made: bool,
                             locked: bool, e: Event)
  {
    if p !in maps || hint % PAGE != 0 then e == EvNone
    else if hint >= KERNEL_START then e == EvPanic
    else if like.npages == 0 then e == EvNone
    else if NoRoom(maps[p], hint, exact, like.npages) then e == EvNone
    else if made then Placed(p, hint, exact, like, e)
    else e == if locked then EvNone else EvPanic
  }

  ghost predicate ProtectAnswer(ios: map<nat, IoState>, maps: seq<Vmap>, p: nat, addr: nat, size: nat, perm: Flags,
                                e: Event)
    requires KnownFiles(ios, maps)
  {
    match ProtectOutcome(ios, maps, addr, size, perm)
    case Done =>
      && e.EvProtect? && e == EvProtect(p, addr, e.hi, perm.(user := true))
      && forall a: nat :: Protects(maps, addr, size, a) <==> addr <= a < e.hi
    case Refused => e == EvNone
    case Panic => e == EvPanic
  }

  /** The pages `munmap` removes vanish; nothing happens where nothing is mapped. */
  ghost predicate MunmapAnswer(maps: seq<Vmap>, p: nat, addr: nat, size: nat, e: Event) {
    if !WellFormed(maps) then e == EvNone
    else
      match MunmapOutcome(maps, addr, size)
      case Done => e.EvUnmap? && e.p == p && forall a: nat :: e.v.Contains(a) <==> Removes(maps, addr, size, a)
      case Refused => e == EvNone
      case Panic => e == EvPanic
  }

  /** The event is the one the operation asks for, given the mappings there are. */
  ghost predicate Answers(ios: map<nat, IoState>, maps: map<nat, seq<Vmap>>, op: Op, e: Event) {
    match op
    case NewProcess(_) => e == EvNone
    case MapAnonymous(p, hint, exact, n, flags) =>
      AnonymousAnswer(maps, p, hint, exact, Vmap(0, n, flags, None, 0, Mmap, Private, Some(ZeroOnDemand)), e)
    case MapFile(p, hint, exact, n, flags, io, offset, mapOk, locked) =>
      if offset % PAGE == 0 && io in ios then
        FileAnswer(maps, p, hint, exact, Vmap(0, n, flags, Some(io), offset, File, Private, Some(FileBacked)),
                   PermCheck(ios[io], flags, true) && mapOk, locked, e)
      else e == EvNone
    case Unmap(p, i) => e == if p in maps && i < |maps[p]| then EvUnmap(p, maps[p][i]) else EvNone
    case DoMunmap(p, addr, size) => if p in maps then MunmapAnswer(maps[p], p, addr, size, e) else e == EvNone
    case DoFork(parent, child) => e == if parent in maps && child !in maps then EvFork(parent, child) else EvNone
    case DoProtect(p, addr, size, perm) =>
      if p in maps && KnownFiles(ios, maps[p])
      then ProtectAnswer(ios, maps[p], p, addr, size, perm, e)
      else e == EvNone
    case DoLoad(p, addr) => e.EvLoad? && e.p == p && e.addr == addr
    case DoStore(p, addr, b) => e.EvStore? && e.p == p && e.addr == addr && e.b == b
    case SpuriousFault(_, _) => e == EvNone
  }

  /** Which processes there are, and where the mappings themselves are pinned down. */
  ghost predicate MapsStep(before: map<nat, seq<Vmap>>, op: Op, after: map<nat, seq<Vmap>>) {
    match op
    case NewProcess(p) => after == if p in before then before else before[p := []]
    case Unmap(p, i) => after == if p in before && i < |before[p]| then before[p := Removed(before[p], i)] else before
    case DoFork(parent, child) =>
      after == if parent in before && child !in before then before[child := before[parent]] else before
    case DoLoad(_, _) => after == before
    case DoStore(_, _, _) => after == before
    case SpuriousFault(_, _) => after == before
    case _ => after.Keys == before.Keys
  }

  /** The machine went through `trace` and every operation was answered by its own event. */
  ghost predicate Follows(ios: map<nat, IoState>, trace: seq<State>, ops: seq<Op>, es: seq<Event>) {
    && |trace| == |ops| + 1 && |es| == |ops|
    && forall i :: 0 <= i < |ops| ==>
         Answers(ios, trace[i].maps, ops[i], es[i]) && MapsStep(trace[i].maps, ops[i], trace[i + 1].maps)
  }

  /** Nothing is protected: nothing changes. */
  lemma NothingReflagged(fileData: (nat, nat) -> Page, s: State, t: State, p: nat, addr: nat, flags: Flags)
    requires Reflagged(fileData, s, t, p, addr, addr, flags)
    ensures SameViews(fileData, s, t)
  {
  }

  lemma NothingReplayed(fileData: (nat, nat) -> Page, st: State)
    ensures var start: Mem := (k: (nat, nat)) => View(fileData, st, k);
            AllAllowed(fileData, start, []) && Shows(fileData, st, Replay(fileData, start, []))
  {
  }

  lemma FollowsExtends(ios: map<nat, IoState>, trace: seq<State>, ops: seq<Op>, es: seq<Event>, op: Op, e: Event,
                       after: State)
    requires Follows(ios, trace, ops, es)
    requires Answers(ios, trace[|ops|].maps, op, e) && MapsStep(trace[|ops|].maps, op, after.maps)
    ensures Follows(ios, trace + [after], ops + [op], es + [e])
  {
    hide Answers, MapsStep;
  }

  lemma KnownMaps(fileData: (nat, nat) -> Page, st: State, p: nat)
    requires Valid(fileData, st) && p in st.maps
    ensures GoodMaps(st.maps[p])
  {
  }

  /** A list with the same pages shows the same memory. */
  lemma SplitSameViews(fileData: (nat, nat) -> Page, st: State, p: nat, vs: seq<Vmap>)
    requires Valid(fileData, st) && p in st.maps && GoodMaps(vs)
    requires forall a: nat :: InfoAt(vs, a) == InfoAt(st.maps[p], a)
    ensures Valid(fileData, Remapped(st, p, vs)) && SameViews(fileData, st, Remapped(st, p, vs))
  {
    hide InfoAt, WellFormed, Mappers, PinCount;
    forall a | (p, a) in st.pte
      ensures InfoAt(vs, a).Some? && (st.pte[(p, a)].writable ==> InfoAt(vs, a).value.flags.write)
    {
      assert InfoOfPage(st.maps, (p, a)).Some?;
    }
    RemapKeeps(fileData, st, p, vs);
  }

  lemma VanishAfterSame(fileData: (nat, nat) -> Page, s: State, t: State, u: State, p: nat, v: Vmap)
    requires SameViews(fileData, s, t) && Vanished(fileData, t, u, p, v)
    ensures Vanished(fileData, s, u, p, v)
  {
    hide View;
  }

  lemma FramesHaveContent(fileData: (nat, nat) -> Page, st: State, c: (nat, nat))
    requires Valid(fileData, st)
    ensures st.content.Keys == st.refs.Keys
    ensures c in st.cached ==> st.cached[c] in st.content && st.content[st.cached[c]] == fileData(c.0, c.1)
  {
  }

  // ---------------------------------------------------------------- what eager memory promises

  /** Where a byte comes from, looking back: memory at the start, a store, a fresh mapping, or nowhere. */
  datatype Origin = Start(p: nat) | Stored(b: int) | Fresh(v: Vmap) | Gone

  ghost function OriginOf(es: seq<Event>, p: nat, addr: nat): (o: Origin)
    ensures o.Fresh? ==> o.v.Contains(AlignDownToPage(addr))
  {
    if es == [] then Start(p)
    else
      var rest := es[..|es| - 1];
      match es[|es| - 1]
      case EvMap(q, v) => if q == p && v.Contains(AlignDownToPage(addr)) then Fresh(v) else OriginOf(rest, p, addr)
      case EvUnmap(q, v) => if q == p && v.Contains(AlignDownToPage(addr)) then Gone else OriginOf(rest, p, addr)
      case EvFork(parent, child) => OriginOf(rest, if p == child then parent else p, addr)
      case EvStore(q, a, b, ok) => if ok && q == p && a == addr then Stored(b) else OriginOf(rest, p, addr)
      case _ => OriginOf(rest, p, addr)
  }

  /** The byte of memory `m` at an address of a process, if anything is mapped there. */
  ghost function ByteAt(m: Mem, p: nat, addr: nat): Option<int> {
    var cell := m(PageOf(p, addr));
    if cell.Some? then Some(cell.value.page[addr % PAGE]) else None
  }

  /** A fresh mapping of a file shows the file from the offset on, any other one zeroes. */
  ghost function OriginByte(fileData: (nat, nat) -> Page, m: Mem, o: Origin, addr: nat): Option<int>
    requires o.Fresh? ==> o.v.Contains(AlignDownToPage(addr))
  {
    match o
    case Start(p) => ByteAt(m, p, addr)
    case Stored(b) => Some(b)
    case Fresh(v) =>
      if v.handler == Some(FileBacked) && v.io.Some? then
        Some(fileData(v.io.value, (v.ioOffset + (AlignDownToPage(addr) - v.vaddr)) / PAGE)[addr % PAGE])
      else Some(0)
    case Gone => None
  }

  lemma AllowedSoFar(fileData: (nat, nat) -> Page, m: Mem, es: seq<Event>, n: nat)
    requires AllAllowed(fileData, m, es) && n <= |es|
    ensures AllAllowed(fileData, m, es[..n])
    ensures n < |es| ==> Allowed(Replay(fileData, m, es[..n]), es[n])
  {
    hide Allowed, Replay;
    assert forall i :: 0 <= i < n ==> es[..n][..i] == es[..i];
  }

  lemma SameByte(a: nat, b: nat)
    requires AlignDownToPage(a) == AlignDownToPage(b) && a % PAGE == b % PAGE
    ensures a == b
  {
  }

  /** One event changes a byte as its origin changes. */
  lemma ByteStep(fileData: (nat, nat) -> Page, m: Mem, e: Event, p: nat, addr: nat)
    requires Allowed(m, e)
    ensures ByteAt(Step(fileData, m, e), p, addr) ==
              match e
              case EvMap(q, v) =>
                if q == p && v.Contains(AlignDownToPage(addr)) then OriginByte(fileData, m, Fresh(v), addr)
                else ByteAt(m, p, addr)
              case EvUnmap(q, v) =>
                if q == p && v.Contains(AlignDownToPage(addr)) then None else ByteAt(m, p, addr)
              case EvFork(parent, child) => ByteAt(m, if p == child then parent else p, addr)
              case EvStore(q, a, b, ok) => if ok && q == p && a == addr then Some(b) else ByteAt(m, p, addr)
              case _ => ByteAt(m, p, addr)
  {
    if e.EvStore? && PageOf(e.p, e.addr) == PageOf(p, addr) && e.addr % PAGE == addr % PAGE { SameByte(e.addr, addr); }
  }

  /** Every byte of eager memory is what its origin says. */
  lemma {:induction false} ReplayByte(fileData: (nat, nat) -> Page, m: Mem, es: seq<Event>, p: nat, addr: nat)
    requires AllAllowed(fileData, m, es)
    ensures ByteAt(Replay(fileData, m, es), p, addr) == OriginByte(fileData, m, OriginOf(es, p, addr), addr)
    decreases |es|
  {
    hide Allowed, Step, AllAllowed, ByteAt;
    if es != [] {
      var n := |es| - 1;
      AllowedSoFar(fileData, m, es, n);
      ReplayByte(fileData, m, es[..n], p, addr);
      if es[n].EvFork? && es[n].child == p { ReplayByte(fileData, m, es[..n], es[n].parent, addr); }
      ByteStep(fileData, Replay(fileData, m, es[..n]), es[n], p, addr);
    }
  }

  /** The flags of a page, looking back. */
  ghost function FlagsOf(m: Mem, es: seq<Event>, p: nat, addr: nat): Option<Flags> {
    if es == [] then
      var cell := m(PageOf(p, addr));
      if cell.Some? then Some(cell.value.info.flags) else None
    else
      var rest := es[..|es| - 1];
      match es[|es| - 1]
      case EvMap(q, v) =>
        if q == p && v.Contains(AlignDownToPage(addr)) then Some(v.flags) else FlagsOf(m, rest, p, addr)
      case EvUnmap(q, v) =>
        if q == p && v.Contains(AlignDownToPage(addr)) then None else FlagsOf(m, rest, p, addr)
      case EvFork(parent, child) => FlagsOf(m, rest, if p == child then parent else p, addr)
      case EvProtect(q, lo, hi, flags) =>
        if q == p && lo <= AlignDownToPage(addr) < hi && FlagsOf(m, rest, p, addr).Some? then Some(flags)
        else FlagsOf(m, rest, p, addr)
      case _ => FlagsOf(m, rest, p, addr)
  }

  lemma {:induction false} ReplayFlags(fileData: (nat, nat) -> Page, m: Mem, es: seq<Event>, p: nat, addr: nat)
    ensures var cell := Replay(fileData, m, es)(PageOf(p, addr));
            FlagsOf(m, es, p, addr) == if cell.Some? then Some(cell.value.info.flags) else None
    decreases |es|
  {
    if es != [] {
      var n := |es| - 1;
      ReplayFlags(fileData, m, es[..n], p, addr);
      if es[n].EvFork? && es[n].child == p { ReplayFlags(fileData, m, es[..n], es[n].parent, addr); }
    }
  }

  /**
    Every load returns the byte of its origin, and every store succeeds where the
    flags of the page admit it.
   */
  ghost predicate AllRight(fileData: (nat, nat) -> Page, m: Mem, es: seq<Event>) {
    forall i :: 0 <= i < |es| ==> RightEvent(fileData, m, es[..i], es[i])
  }

  ghost predicate RightEvent(fileData: (nat, nat) -> Page, m: Mem, es: seq<Event>, e: Event) {
    match e
    case EvLoad(p, addr, result) => result == OriginByte(fileData, m, OriginOf(es, p, addr), addr)
    case EvStore(p, addr, _, ok) => ok <==> FlagsOf(m, es, p, addr).Some? && FlagsOf(m, es, p, addr).value.write
    case _ => true
  }

  lemma AllowedIsRight(fileData: (nat, nat) -> Page, m: Mem, es: seq<Event>)
    requires AllAllowed(fileData, m, es)
    ensures AllRight(fileData, m, es)
  {
    hide Replay, AllAllowed, OriginOf, OriginByte, FlagsOf;
    forall i | 0 <= i < |es| ensures RightEvent(fileData, m, es[..i], es[i]) {
      AllowedSoFar(fileData, m, es, i);
      match es[i]
      case EvLoad(p, addr, _) => ReplayByte(fileData, m, es[..i], p, addr);
      case EvStore(p, addr, _, _) => ReplayFlags(fileData, m, es[..i], p, addr);
      case _ =>
    }
  }

  /** The event leaves the byte at the address alone; a new mapping cannot lie there. */
  predicate Leaves(e: Event, p: nat, addr: nat) {
    match e
    case EvUnmap(q, v) => q != p || !v.Contains(AlignDownToPage(addr))
    case EvFork(_, child) => child != p
    case EvStore(q, a, _, ok) => !ok || q != p || a != addr
    case _ => true
  }

  /** A byte stays as it is while events leave it alone. */
  lemma {:induction false} ByteStays(fileData: (nat, nat) -> Page, m: Mem, es: seq<Event>, p: nat, addr: nat, i: nat,
                                     j: nat)
    requires AllAllowed(fileData, m, es) && i <= j <= |es| && ByteAt(Replay(fileData, m, es[..i]), p, addr).Some?
    requires forall k :: i <= k < j ==> Leaves(es[k], p, addr)
    ensures ByteAt(Replay(fileData, m, es[..j]), p, addr) == ByteAt(Replay(fileData, m, es[..i]), p, addr)
    decreases j
  {
    hide Step, AllAllowed;
    if i < j {
      ByteStays(fileData, m, es, p, addr, i, j - 1);
      AllowedSoFar(fileData, m, es, j - 1);
      assert es[..j][..j - 1] == es[..j - 1];
      ByteStep(fileData, Replay(fileData, m, es[..j - 1]), es[j - 1], p, addr);
    }
  }

  // ---------------------------------------------------------------- what operations promise

  /** The operation leaves the byte at the address of process `p` alone. */
  predicate Spares(op: Op, p: nat, addr: nat) {
    match op
    case Unmap(q, _) => q != p
    case DoMunmap(q, _, _) => q != p
    case DoFork(_, child) => child != p
    case DoStore(q, a, _) => q != p || a != addr
    case _ => true
  }

  lemma SparesLeaves(ios: map<nat, IoState>, maps: map<nat, seq<Vmap>>, op: Op, e: Event, p: nat, addr: nat)
    requires Answers(ios, maps, op, e) && Spares(op, p, addr)
    ensures Leaves(e, p, addr)
  {
    hide KnownFiles, WellFormed, NoRoom, Removes, Protects, PermCheck;
  }

  /** What a load returns that comes after operation `i` and operations that spare the byte. */
  lemma LoadedLater(fileData: (nat, nat) -> Page, m: Mem, ios: map<nat, IoState>, trace: seq<State>, ops: seq<Op>,
                    es: seq<Event>, i: nat, j: nat, p: nat, addr: nat)
    requires Follows(ios, trace, ops, es) && AllAllowed(fileData, m, es)
    requires i < j < |ops| && ops[j] == DoLoad(p, addr) && ByteAt(Replay(fileData, m, es[..i + 1]), p, addr).Some?
    requires forall k :: i < k < j ==> Spares(ops[k], p, addr)
    ensures es[j] == EvLoad(p, addr, ByteAt(Replay(fileData, m, es[..i + 1]), p, addr))
  {
    hide AllAllowed, Replay;
    forall k | i + 1 <= k < j ensures Leaves(es[k], p, addr) {
      SparesLeaves(ios, trace[k].maps, ops[k], es[k], p, addr);
    }
    ByteStays(fileData, m, es, p, addr, i + 1, j);
    AllowedSoFar(fileData, m, es, j);
    assert Answers(ios, trace[j].maps, ops[j], es[j]);
  }

  lemma ReplayLast(fileData: (nat, nat) -> Page, m: Mem, es: seq<Event>, i: nat)
    requires i < |es|
    ensures Replay(fileData, m, es[..i + 1]) == Step(fileData, Replay(fileData, m, es[..i]), es[i])
  {
    assert es[..i + 1][..i] == es[..i];
  }

  /** A page of a fresh mapping of a file shows that page of the file, counted from the offset. */
  lemma MappedFileShows(fileData: (nat, nat) -> Page, m: Mem, ios: map<nat, IoState>, trace: seq<State>, ops: seq<Op>,
                        es: seq<Event>, i: nat, j: nat, addr: nat)
    requires Follows(ios, trace, ops, es) && AllAllowed(fileData, m, es)
    requires i < j < |ops| && ops[i].MapFile? && es[i].EvMap? && ops[j] == DoLoad(ops[i].p, addr)
    requires es[i].v.vaddr <= addr < es[i].v.vaddr + ops[i].npages * PAGE
    requires forall k :: i < k < j ==> Spares(ops[k], ops[i].p, addr)
    ensures var at := ops[i].offset + (addr - es[i].v.vaddr);
            es[j] == EvLoad(ops[i].p, addr, Some(fileData(ops[i].io, at / PAGE)[at % PAGE]))
  {
    hide AllAllowed, Replay, KnownFiles, WellFormed, NoRoom, PermCheck;
    assert Answers(ios, trace[i].maps, ops[i], es[i]);
    AllowedSoFar(fileData, m, es, i);
    ReplayLast(fileData, m, es, i);
    ByteStep(fileData, Replay(fileData, m, es[..i]), es[i], ops[i].p, addr);
    LoadedLater(fileData, m, ios, trace, ops, es, i, j, ops[i].p, addr);
  }

  /** A fresh anonymous mapping shows zeroes. */
  lemma MappedZero(fileData: (nat, nat) -> Page, m: Mem, ios: map<nat, IoState>, trace: seq<State>, ops: seq<Op>,
                   es: seq<Event>, i: nat, j: nat, addr: nat)
    requires Follows(ios, trace, ops, es) && AllAllowed(fileData, m, es)
    requires i < j < |ops| && ops[i].MapAnonymous? && es[i].EvMap? && ops[j] == DoLoad(ops[i].p, addr)
    requires es[i].v.vaddr <= addr < es[i].v.vaddr + ops[i].npages * PAGE
    requires forall k :: i < k < j ==> Spares(ops[k], ops[i].p, addr)
    ensures es[j] == EvLoad(ops[i].p, addr, Some(0))
  {
    hide AllAllowed, Replay, KnownFiles, WellFormed, NoRoom;
    assert Answers(ios, trace[i].maps, ops[i], es[i]);
    AllowedSoFar(fileData, m, es, i);
    ReplayLast(fileData, m, es, i);
    ByteStep(fileData, Replay(fileData, m, es[..i]), es[i], ops[i].p, addr);
    LoadedLater(fileData, m, ios, trace, ops, es, i, j, ops[i].p, addr);
  }

  /** What was stored is loaded. */
  lemma StoredIsLoaded(fileData: (nat, nat) -> Page, m: Mem, ios: map<nat, IoState>, trace: seq<State>, ops: seq<Op>,
                       es: seq<Event>, i: nat, j: nat)
    requires Follows(ios, trace, ops, es) && AllAllowed(fileData, m, es)
    requires i < j < |ops| && ops[i].DoStore? && es[i].EvStore? && es[i].ok && ops[j] == DoLoad(ops[i].p, ops[i].addr)
    requires forall k :: i < k < j ==> Spares(ops[k], ops[i].p, ops[i].addr)
    ensures es[j] == EvLoad(ops[i].p, ops[i].addr, Some(ops[i].b))
  {
    hide AllAllowed, Replay;
    assert Answers(ios, trace[i].maps, ops[i], es[i]);
    AllowedSoFar(fileData, m, es, i);
    ReplayLast(fileData, m, es, i);
    ByteStep(fileData, Replay(fileData, m, es[..i]), es[i], ops[i].p, ops[i].addr);
    LoadedLater(fileData, m, ios, trace, ops, es, i, j, ops[i].p, ops[i].addr);
  }

  /** A child sees what its parent saw at the fork, whatever the parent or others do afterwards. */
  lemma ChildSeesFork(fileData: (nat, nat) -> Page, m: Mem, ios: map<nat, IoState>, trace: seq<State>, ops: seq<Op>,
                      es: seq<Event>, i: nat, j: nat, addr: nat)
    requires Follows(ios, trace, ops, es) && AllAllowed(fileData, m, es)
    requires 0 < i < j < |ops| && ops[i].DoFork? && ops[i].parent in trace[i].maps && ops[i].child !in trace[i].maps
    requires ops[i - 1] == DoLoad(ops[i].parent, addr) && ops[j] == DoLoad(ops[i].child, addr)
    requires es[i - 1].EvLoad? && es[i - 1].result.Some?
    requires forall k :: i < k < j ==> Spares(ops[k], ops[i].child, addr)
    ensures es[j] == EvLoad(ops[i].child, addr, es[i - 1].result)
  {
    hide AllAllowed, Replay;
    assert Answers(ios, trace[i].maps, ops[i], es[i]) && Answers(ios, trace[i - 1].maps, ops[i - 1], es[i - 1]);
    AllowedSoFar(fileData, m, es, i - 1);
    AllowedSoFar(fileData, m, es, i);
    ReplayLast(fileData, m, es, i - 1);
    ReplayLast(fileData, m, es, i);
    ByteStep(fileData, Replay(fileData, m, es[..i - 1]), es[i - 1], ops[i].parent, addr);
    ByteStep(fileData, Replay(fileData, m, es[..i]), es[i], ops[i].child, addr);
    LoadedLater(fileData, m, ios, trace, ops, es, i, j, ops[i].child, addr);
  }

  /** Nothing lies in the `n` pages from `a` on. */
  ghost predicate FitsAt(maps: seq<Vmap>, a: nat, n: nat) {
    forall v :: v in maps ==> v.End() <= a || a + n * PAGE <= v.vaddr
  }

  /** There is room at the hint, or if need not be there, somewhere from it on in the user half. */
  ghost predicate HasRoom(maps: seq<Vmap>, hint: nat, exact: bool, n: nat) {
    if exact then FitsAt(maps, hint, n) else exists a: nat :: hint <= a <= KERNEL_START - n * PAGE && FitsAt(maps, a, n)
  }

  lemma FitsIsFree(maps: seq<Vmap>, a: nat, n: nat)
    ensures FitsAt(maps, a, n) <==> !Taken(maps, a, n * PAGE)
  {
    if Taken(maps, a, n * PAGE) {
      var i :| 0 <= i < |maps| && maps[i].vaddr < a + n * PAGE && a < maps[i].End();
      assert maps[i] in maps;
    } else {
      assert forall i :: 0 <= i < |maps| ==> !(maps[i].vaddr < a + n * PAGE && a < maps[i].End());
    }
  }

  lemma RoomIs(maps: seq<Vmap>, hint: nat, exact: bool, n: nat)
    ensures HasRoom(maps, hint, exact, n) <==> !NoRoom(maps, hint, exact, n)
  {
    hide FitsAt, Taken;
    forall a: nat ensures FitsAt(maps, a, n) <==> !Taken(maps, a, n * PAGE) { FitsIsFree(maps, a, n); }
  }

  /**
    A mapping that is sensible appears exactly if there is room and, for a file, it
    is admitted; with the size and flags asked for, at or above the hint, and at an
    exact place exactly there.  Failures are quiet or panics as the case may be.
   */
  lemma MappingLaw(ios: map<nat, IoState>, maps: map<nat, seq<Vmap>>, op: Op, e: Event)
    requires Answers(ios, maps, op, e) && (op.MapAnonymous? || (op.MapFile? && op.offset % PAGE == 0 && op.io in ios))
    requires op.p in maps && op.hint % PAGE == 0 && op.hint < KERNEL_START && op.npages > 0
    ensures var admitted := op.MapFile? ==>
                              var io := ios[op.io]; !io.closed && io.mmapable && io.readable && op.mapOk;
            && (e.EvMap? <==> HasRoom(maps[op.p], op.hint, op.exact, op.npages) && admitted)
            && (e.EvMap? ==>
                  && e.p == op.p && e.v.npages == op.npages && e.v.flags == op.flags && op.hint <= e.v.vaddr
                  && (op.exact ==> e.v.vaddr == op.hint) && e.v.io == if op.MapFile? then Some(op.io) else None)
            && (!e.EvMap? ==>
                  e == if op.MapAnonymous? || (HasRoom(maps[op.p], op.hint, op.exact, op.npages) && !op.locked)
                       then EvPanic else EvNone)
  {
    hide NoRoom, HasRoom;
    RoomIs(maps[op.p], op.hint, op.exact, op.npages);
  }

  /** Where nothing is mapped any more, loads find nothing until something is mapped again. */
  lemma {:induction false} StaysGone(fileData: (nat, nat) -> Page, m: Mem, es: seq<Event>, p: nat, addr: nat, i: nat,
                                     j: nat)
    requires AllAllowed(fileData, m, es) && i <= j <= |es| && ByteAt(Replay(fileData, m, es[..i]), p, addr).None?
    requires forall k :: i <= k < j ==> !(es[k].EvMap? && es[k].p == p) && !(es[k].EvFork? && es[k].child == p)
    ensures ByteAt(Replay(fileData, m, es[..j]), p, addr).None?
    decreases j
  {
    hide Step, AllAllowed;
    if i < j {
      StaysGone(fileData, m, es, p, addr, i, j - 1);
      AllowedSoFar(fileData, m, es, j - 1);
      assert es[..j][..j - 1] == es[..j - 1];
      ByteStep(fileData, Replay(fileData, m, es[..j - 1]), es[j - 1], p, addr);
    }
  }

  /** After `munmap` of a range inside a mapping, but not at its start, the pages of the range are gone. */
  lemma UnmappedIsGone(fileData: (nat, nat) -> Page, m: Mem, ios: map<nat, IoState>, trace: seq<State>, ops: seq<Op>,
                       es: seq<Event>, i: nat, j: nat, v: Vmap, a: nat)
    requires Follows(ios, trace, ops, es) && AllAllowed(fileData, m, es) && i < j < |ops|
    requires ops[i].DoMunmap? && ops[i].p in trace[i].maps && WellFormed(trace[i].maps[ops[i].p])
    requires v in trace[i].maps[ops[i].p] && v.Contains(ops[i].addr) && v.vaddr < AlignDownToPage(ops[i].addr)
    requires AlignDownToPage(ops[i].addr) < AlignUpToPage(ops[i].addr + ops[i].size) <= v.End()
    requires AlignDownToPage(ops[i].addr) <= a < AlignUpToPage(ops[i].addr + ops[i].size)
    requires ops[j] == DoLoad(ops[i].p, a)
    requires forall k :: i < k < j ==> !(es[k].EvMap? && es[k].p == ops[i].p)
    requires forall k :: i < k < j ==> !(es[k].EvFork? && es[k].child == ops[i].p)
    ensures es[j] == EvLoad(ops[i].p, a, None)
  {
    hide AllAllowed, Replay, WellFormed, MunmapOutcome, Removes;
    var maps := trace[i].maps[ops[i].p];
    assert Answers(ios, trace[i].maps, ops[i], es[i]) && Answers(ios, trace[j].maps, ops[j], es[j]);
    MunmapLaw(maps, ops[i].addr, ops[i].size);
    MunmapRemoves(maps, ops[i].addr, ops[i].size, v, AlignDownToPage(a));
    AllowedSoFar(fileData, m, es, i);
    AllowedSoFar(fileData, m, es, j);
    ReplayLast(fileData, m, es, i);
    ByteStep(fileData, Replay(fileData, m, es[..i]), es[i], ops[i].p, a);
    StaysGone(fileData, m, es, ops[i].p, a, i + 1, j);
  }

  /** The flags of a page that a load found, after a change of protection. */
  lemma FlagsAfter(fileData: (nat, nat) -> Page, m: Mem, load: Event, protect: Event, p: nat, a: nat)
    requires Allowed(m, load) && load.EvLoad? && load.p == p && load.addr == a && load.result.Some?
    requires protect.EvProtect? && protect.p == p && protect.lo <= AlignDownToPage(a) < protect.hi
    ensures var cell := Step(fileData, Step(fileData, m, load), protect)(PageOf(p, a));
            cell.Some? && cell.value.info.flags == protect.flags
  {
  }

  /** A store right after a change of protection succeeds exactly if that admits writing. */
  lemma ProtectedStore(fileData: (nat, nat) -> Page, m: Mem, ios: map<nat, IoState>, trace: seq<State>, ops: seq<Op>,
                       es: seq<Event>, i: nat, v: Vmap, a: nat)
    requires Follows(ios, trace, ops, es) && AllAllowed(fileData, m, es) && 0 < i && i + 1 < |ops|
    requires ops[i].DoProtect? && es[i].EvProtect? && ops[i].p in trace[i].maps
    requires WellFormed(trace[i].maps[ops[i].p]) && KnownFiles(ios, trace[i].maps[ops[i].p])
    requires v in trace[i].maps[ops[i].p] && v.Contains(ops[i].addr) && v.vaddr % PAGE == 0
    requires ops[i].addr <= a < ops[i].addr + AlignUpToPage(ops[i].size) && a < v.End()
    requires ops[i - 1] == DoLoad(ops[i].p, a) && es[i - 1].EvLoad? && es[i - 1].result.Some?
    requires ops[i + 1].DoStore? && ops[i + 1].p == ops[i].p && ops[i + 1].addr == a
    ensures es[i].flags == ops[i].perm.(user := true)
    ensures es[i + 1].EvStore? && (es[i + 1].ok <==> ops[i].perm.write)
  {
    hide AllAllowed, Replay, WellFormed, Step, Answers, Follows, KnownFiles;
    AnsweredAt(ios, trace, ops, es, i - 1);
    AnsweredAt(ios, trace, ops, es, i);
    AnsweredAt(ios, trace, ops, es, i + 1);
    ProtectAnswered(ios, trace[i].maps, ops[i], es[i], v, a);
    AccessAnswered(ios, trace[i + 1].maps, ops[i + 1], es[i + 1]);
    AccessAnswered(ios, trace[i - 1].maps, ops[i - 1], es[i - 1]);
    AllowedSoFar(fileData, m, es, i - 1);
    AllowedSoFar(fileData, m, es, i + 1);
    ReplayLast(fileData, m, es, i - 1);
    ReplayLast(fileData, m, es, i);
    FlagsAfter(fileData, Replay(fileData, m, es[..i - 1]), es[i - 1], es[i], ops[i].p, a);
  }

  lemma AnsweredAt(ios: map<nat, IoState>, trace: seq<State>, ops: seq<Op>, es: seq<Event>, i: nat)
    requires Follows(ios, trace, ops, es) && i < |ops|
    ensures |trace| == |ops| + 1 && |es| == |ops| && Answers(ios, trace[i].maps, ops[i], es[i])
  {
  }

  lemma AccessAnswered(ios: map<nat, IoState>, maps: map<nat, seq<Vmap>>, op: Op, e: Event)
    requires Answers(ios, maps, op, e)
    ensures op.DoLoad? ==> e.EvLoad? && e.p == op.p && e.addr == op.addr
    ensures op.DoStore? ==> e.EvStore? && e.p == op.p && e.addr == op.addr
  {
  }

  lemma ProtectAnswered(ios: map<nat, IoState>, maps: map<nat, seq<Vmap>>, op: Op, e: Event, v: Vmap, a: nat)
    requires Answers(ios, maps, op, e) && op.DoProtect? && e.EvProtect? && op.p in maps
    requires WellFormed(maps[op.p]) && KnownFiles(ios, maps[op.p]) && v in maps[op.p] && v.Contains(op.addr)
    requires op.addr <= a < op.addr + AlignUpToPage(op.size) && a < v.End() && v.vaddr % PAGE == 0
    ensures e.p == op.p && e.flags == op.perm.(user := true) && e.lo <= AlignDownToPage(a) < e.hi
  {
    hide WellFormed, Protects, PermCheck;
    ProtectLaw(ios, maps[op.p], op.addr, op.size, op.perm, v, AlignDownToPage(a));
  }

  /** Destroying a mapping makes exactly that mapping go. */
  lemma DestroyLaw(ios: map<nat, IoState>, maps: map<nat, seq<Vmap>>, p: nat, k: nat, e: Event)
    requires Answers(ios, maps, Unmap(p, k), e) && p in maps && k < |maps[p]|
    ensures e == EvUnmap(p, maps[p][k])
  {
  }

  class Machine {
    /** The contents of files, which no operation here changes. */
    const fileData: (nat, nat) -> Page
    var st: State

    ghost predicate Ok()
      reads this
    {
      Valid(fileData, st)
    }

    constructor (fileData: (nat, nat) -> Page)
      ensures Ok() && st.maps == map[] && this.fileData == fileData
    {
      this.fileData := fileData;
      st := State(map[], map[], map[], map[], None, map[]);
    }

    // -------------------------------------------------------------- faults

    method Allocate(data: Page) returns (f: nat)
      requires Ok()
      modifies this
      ensures Ok() && f !in old(st).refs && st == Allocated(old(st), f, data)
      ensures Mappers(st.pte, f) == {} && Pins(st, f) == 0
      ensures SameViews(fileData, old(st), st)
    {
      ghost var g := FreshFrame(st.refs.Keys);
      f :| f !in st.refs;
      AllocateKeeps(fileData, st, f, data);
      st := Allocated(st, f, data);
    }

    /** `mm_replace_page_locked` */
    method Replace(k: (nat, nat), f: nat, writable: bool)
      requires Ok() && k.1 % PAGE == 0 && f in st.refs && MayMap(st, f, writable)
      requires InfoOfPage(st.maps, k).Some? && (writable ==> InfoOfPage(st.maps, k).value.flags.write)
      requires k in st.pte ==> st.pte[k].frame != f
      modifies this
      ensures Ok() && st.maps == old(st).maps
      ensures k in st.pte && st.pte[k] == Pte(f, writable)
      ensures View(fileData, st, k) == Some(Cell(InfoOfPage(st.maps, k).value, old(st).content[f]))
      ensures SameElsewhere(fileData, old(st), st, k)
    {
      hide InfoOfPage, MapsOk, Mappers, PinCount, WritersAlone, PinnedOk, View;
      if k in st.pte {
        MappedHasReference(st, k);
        UnmapKeeps(fileData, st, k);
        ghost var before := st;
        st := Unmapped(st, k);
        MayMapStays(before, k, f, writable);
      }
      MapKeeps(fileData, st, k, f, writable);
      st := Mapped(st, k, f, writable);
    }

    /** `zero_page` */
    method ZeroPage() returns (f: nat)
      requires Ok()
      modifies this
      ensures Ok() && st.zero == Some(f) && f in st.content && st.content[f] == ZERO
      ensures st.maps == old(st).maps && st.pte == old(st).pte
      ensures SameViews(fileData, old(st), st)
    {
      hide InfoOfPage, MapsOk, WritersAlone, TablesOk, View;
      if st.zero.None? {
        f := Allocate(ZERO);
        PinZeroKeeps(fileData, st, f);
        st := ZeroPinned(st, f);
      } else {
        f := st.zero.value;
      }
    }

    /** `pagecache_get_page_for_read` */
    method CachePage(c: (nat, nat)) returns (f: nat)
      requires Ok()
      modifies this
      ensures Ok() && c in st.cached && st.cached[c] == f
      ensures f in st.content && st.content[f] == fileData(c.0, c.1)
      ensures st.maps == old(st).maps && st.pte == old(st).pte
      ensures forall g :: g in old(st).content ==> g in st.content && st.content[g] == old(st).content[g]
      ensures SameViews(fileData, old(st), st)
    {
      hide Valid, View, Mappers, PinCount;
      FramesHaveContent(fileData, st, c);
      if c !in st.cached {
        f := Allocate(fileData(c.0, c.1));
        PinCacheKeeps(fileData, st, c, f);
        st := CachePinned(st, c, f);
      } else {
        f := st.cached[c];
      }
    }

    /** A copy of frame `g` (or fresh data) takes the place of what is at `k`. */
    method MapCopy(k: (nat, nat), data: Page)
      requires Ok() && k.1 % PAGE == 0
      requires InfoOfPage(st.maps, k).Some? && InfoOfPage(st.maps, k).value.flags.write
      requires View(fileData, st, k) == Some(Cell(InfoOfPage(st.maps, k).value, data))
      modifies this
      ensures Ok() && st.maps == old(st).maps
      ensures k in st.pte && st.pte[k].writable
      ensures SameViews(fileData, old(st), st)
    {
      hide InfoOfPage, MapsOk, CountsOk, PinCount, WritersAlone, PinnedOk, View;
      var f := Allocate(data);
      Replace(k, f, true);
    }

    /** `cow_zod_fault_handler` and what `mm_handle_fault` does with its verdict. */
    method ZeroOnDemandFault(k: (nat, nat), isWrite: bool)
      requires Ok() && k.1 % PAGE == 0 && (k in st.pte ==> isWrite)
      requires InfoOfPage(st.maps, k).Some? && InfoOfPage(st.maps, k).value.handler == Some(ZeroOnDemand)
      requires isWrite ==> InfoOfPage(st.maps, k).value.flags.write
      modifies this
      ensures Ok() && st.maps == old(st).maps
      ensures k in st.pte && (isWrite ==> st.pte[k].writable)
      ensures SameViews(fileData, old(st), st)
    {
      hide InfoOfPage, MapsOk, PinCount, WritersAlone, PinnedOk;
      if k in st.pte {
        // present and written: give this process its own copy
        MapCopy(k, st.content[st.pte[k].frame]);
      } else if isWrite {
        MapCopy(k, ZERO);
      } else {
        var f := ZeroPage();
        PinnedNotWritten(fileData, st, f);
        Replace(k, f, false);
      }
    }

    /** `vfs_fault_handler` for a private mapping, and what `mm_handle_fault` does with its verdict. */
    method FileFault(k: (nat, nat), isWrite: bool)
      requires Ok() && k.1 % PAGE == 0 && (k in st.pte ==> isWrite)
      requires InfoOfPage(st.maps, k).Some?
      requires var info := InfoOfPage(st.maps, k).value;
               info.handler == Some(FileBacked) && info.io.Some? && info.fileOffset.Some? &&
                   (isWrite ==> info.flags.write)
      modifies this
      ensures Ok() && st.maps == old(st).maps
      ensures k in st.pte && (isWrite ==> st.pte[k].writable)
      ensures SameViews(fileData, old(st), st)
    {
      var info := InfoOfPage(st.maps, k).value;
      hide InfoOfPage, MapsOk, PinCount, WritersAlone, PinnedOk;
      var g := CachePage((info.io.value, info.fileOffset.value / PAGE));
      if k in st.pte {
        MapCopy(k, st.content[st.pte[k].frame]);
      } else if isWrite {
        // copy the backing page
        MapCopy(k, st.content[g]);
      } else {
        // map the backing page itself, read-only
        PinnedNotWritten(fileData, st, g);
        Replace(k, g, false);
      }
    }

    /**
      `mm_handle_fault`.  No fault changes what any process sees.  Present pages
      may fault on writes even when their entry is writable, because upper
      table levels can be stricter.
     */
    method HandleFault(p: nat, addr: nat, isWrite: bool) returns (r: Fault)
      requires Ok() && ((p, AlignDownToPage(addr)) in st.pte ==> isWrite)
      modifies this
      ensures Ok() && st.maps == old(st).maps
      ensures SameViews(fileData, old(st), st)
      ensures var info := InfoOfPage(st.maps, (p, AlignDownToPage(addr)));
              r.Handled? <==> info.Some? && (isWrite ==> info.value.flags.write)
      ensures r.Handled? ==> var k := (p, AlignDownToPage(addr)); k in st.pte && (isWrite ==> st.pte[k].writable)
    {
      var k := (p, AlignDownToPage(addr));
      if p !in st.maps { return Segv; }
      SamePage(st.maps[p], addr);
      var found := Find(st.maps[p], addr);
      if found.None? { return Segv; }
      var v := st.maps[p][found.value];
      assert InfoOfPage(st.maps, k) == Some(InfoOf(v, k.1)) && PrivateMap(v);
      if isWrite && !v.flags.write { return Segv; }
      if v.handler.value.ZeroOnDemand? {
        ZeroOnDemandFault(k, isWrite);
      } else {
        FileFault(k, isWrite);
      }
      return Handled;
    }

    // -------------------------------------------------------------- user accesses

    /** A user load: the access is retried after its page fault was handled. */
    method Load(p: nat, addr: nat) returns (r: Option<int>)
      requires Ok()
      modifies this
      ensures Ok() && SameViews(fileData, old(st), st) && st.maps == old(st).maps
      ensures var cell := View(fileData, old(st), (p, AlignDownToPage(addr)));
              r == if cell.Some? then Some(cell.value.page[addr % PAGE]) else None
    {
      hide InfoAt, MapsOk, PinCount, WritersAlone, PinnedOk;
      var k := (p, AlignDownToPage(addr));
      if k !in st.pte {
        var f := HandleFault(p, addr, false);
        if f.Segv? { return None; }
      }
      return Some(st.content[st.pte[k].frame][addr % PAGE]);
    }

    /** A user store. */
    method Store(p: nat, addr: nat, b: int) returns (ok: bool)
      requires Ok()
      modifies this
      ensures Ok() && st.maps == old(st).maps
      ensures var k := (p, AlignDownToPage(addr)); var cell := View(fileData, old(st), k);
              && (ok <==> cell.Some? && cell.value.info.flags.write)
              && SameElsewhere(fileData, old(st), st, k)
              && View(fileData, st, k) == if ok then Some(Cell(cell.value.info, cell.value.page[addr % PAGE := b]))
                                          else cell
    {
      hide InfoAt, MapsOk, PinCount, WritersAlone, PinnedOk;
      var k := (p, AlignDownToPage(addr));
      if !(k in st.pte && st.pte[k].writable) {
        var f := HandleFault(p, addr, true);
        if f.Segv? { return false; }
      }
      var page := st.content[st.pte[k].frame][addr % PAGE := b];
      WriteKeeps(fileData, st, k, page);
      st := Written(st, k, page);
      return true;
    }

    // -------------------------------------------------------------- fork

    /** `mm_do_flag` / `mm_do_mask_flags` without VM_WRITE on `n` pages from `a` on. */
    method ClearWrite(p: nat, a: nat, n: nat)
      requires Ok() && a % PAGE == 0
      modifies this
      ensures Ok() && SameViews(fileData, old(st), st)
      ensures st.maps == old(st).maps && st.pte.Keys == old(st).pte.Keys
      ensures forall k :: k in st.pte && st.pte[k].writable ==>
                old(st).pte[k].writable && !(k.0 == p && a <= k.1 < a + n * PAGE)
    {
      hide InfoOfPage, MapsOk, CountsOk, PinCount, WritersAlone, PinnedOk, View;
      var i := 0;
      while i < n
        invariant i <= n && Ok() && SameViews(fileData, old(st), st)
        invariant st.maps == old(st).maps && st.pte.Keys == old(st).pte.Keys
        invariant forall k :: k in st.pte && st.pte[k].writable ==>
                    old(st).pte[k].writable && !(k.0 == p && a <= k.1 < a + i * PAGE)
      {
        var k := (p, a + i * PAGE);
        ghost var before := st;
        if k in st.pte {
          DemoteKeeps(fileData, st, k);
          st := Demoted(st, k);
        }
        forall j | j in st.pte && st.pte[j].writable ensures !(j.0 == p && a <= j.1 < a + (i + 1) * PAGE) {
          assert j in before.pte && j.1 % PAGE == 0;
        }
        i := i + 1;
      }
    }

    /** `mm_do_copy` on one entry: the child refers to the same frame with the same flags. */
    method CopyEntry(from: (nat, nat), to: (nat, nat))
      requires Ok() && from != to && from.1 == to.1 && from.1 % PAGE == 0 && to !in st.pte
      requires InfoOfPage(st.maps, from).Some? && InfoOfPage(st.maps, to) == InfoOfPage(st.maps, from)
      requires from in st.pte ==> !st.pte[from].writable
      modifies this
      ensures Ok() && st.maps == old(st).maps
      ensures st.pte == if from in old(st).pte then old(st).pte[to := old(st).pte[from]] else old(st).pte
      ensures SameElsewhere(fileData, old(st), st, to)
      ensures View(fileData, st, to) == View(fileData, old(st), from)
    {
      hide InfoOfPage, MapsOk, PinCount, PinnedOk, Initial;
      if from in st.pte {
        var f := st.pte[from].frame;
        MapKeeps(fileData, st, to, f, false);
        st := Mapped(st, to, f, false);
      }
    }

    /** The child gets mapping `i` of the parent at the same address. */
    method ExtendChild(parent: nat, child: nat, i: nat)
      requires Ok() && parent in st.maps && child in st.maps && parent != child
      requires i < |st.maps[parent]| && st.maps[child] == st.maps[parent][..i]
      requires EntriesBelow(st, child, st.maps[parent][i].vaddr)
      modifies this
      ensures Ok() && st == Remapped(old(st), child, old(st).maps[parent][..i + 1])
      ensures SameOutside(fileData, old(st), st, child, st.maps[parent][i].vaddr)
    {
      var v := st.maps[parent][i];
      var vs := Inserted(st.maps[child], v);
      ExtendKeeps(fileData, st, parent, child, i);
      st := Remapped(st, child, vs);
    }

    method CopyEntries(parent: nat, child: nat, i: nat)
      requires Ok() && parent in st.maps && child in st.maps && parent != child
      requires i < |st.maps[parent]| && st.maps[child] == st.maps[parent][..i + 1]
      requires EntriesBelow(st, child, st.maps[parent][i].vaddr)
      requires ReadOnlyIn(st, parent, st.maps[parent][i].vaddr, st.maps[parent][i].End())
      modifies this
      ensures Ok() && st.maps == old(st).maps
      ensures EntriesBelow(st, child, st.maps[parent][i].End())
      ensures SameOutside(fileData, old(st), st, child, st.maps[parent][i].vaddr)
      ensures Copied(fileData, old(st), st, parent, child, st.maps[parent][i].vaddr, st.maps[parent][i].End())
    {
      hide CountsOk, PinCount, WritersAlone, PinnedOk, View, SameOutside, Copied, SameElsewhere, InfoOfPage;
      var v := st.maps[parent][i];
      var n := 0;
      CopiedNothing(fileData, st, parent, child, v.vaddr);
      while n < v.npages
        invariant n <= v.npages && Ok() && st.maps == old(st).maps
        invariant EntriesBelow(st, child, v.vaddr + n * PAGE)
        invariant ReadOnlyIn(st, parent, v.vaddr, v.End())
        invariant SameOutside(fileData, old(st), st, child, v.vaddr)
        invariant Copied(fileData, old(st), st, parent, child, v.vaddr, v.vaddr + n * PAGE)
      {
        var a := v.vaddr + n * PAGE;
        assert v.Contains(a);
        SharedInfo(st.maps, parent, child, i, a);
        ghost var before := st;
        CopyEntry((parent, a), (child, a));
        CopiedOneMore(fileData, old(st), before, st, parent, child, v.vaddr, a);
        n := n + 1;
      }
    }

    /** `cow_clone_vmap_locked` for mapping `i` of the parent. */
    method CloneMap(parent: nat, child: nat, i: nat)
      requires Ok() && parent in st.maps && child in st.maps && parent != child
      requires i < |st.maps[parent]| && st.maps[child] == st.maps[parent][..i]
      requires EntriesBelow(st, child, st.maps[parent][i].vaddr)
      modifies this
      ensures Ok() && st.maps == old(st).maps[child := old(st).maps[parent][..i + 1]]
      ensures EntriesBelow(st, child, st.maps[parent][i].End())
      ensures SameOutside(fileData, old(st), st, child, st.maps[parent][i].vaddr)
      ensures Copied(fileData, old(st), st, parent, child, st.maps[parent][i].vaddr, st.maps[parent][i].End())
    {
      hide CountsOk, PinCount, WritersAlone, PinnedOk, View, InfoOfPage, MapsOk, TablesOk;
      var v := st.maps[parent][i];
      MapAligned(st.maps, parent, i);
      ClearWrite(parent, v.vaddr, v.npages);
      ExtendChild(parent, child, i);
      CopyEntries(parent, child, i);
    }

    /** `process_do_fork`, as far as memory is concerned: clone mapping by mapping. */
    method Fork(parent: nat, child: nat)
      requires Ok() && parent in st.maps && child !in st.maps
      modifies this
      ensures Ok() && st.maps == old(st).maps[child := old(st).maps[parent]]
      ensures forall k: (nat, nat) :: k.0 != child ==> View(fileData, st, k) == View(fileData, old(st), k)
      ensures forall a: nat :: a % PAGE == 0 ==> View(fileData, st, (child, a)) == View(fileData, old(st), (parent, a))
    {
      hide CountsOk, PinCount, WritersAlone, PinnedOk, View, Copied, SameOutside, WellFormed;
      var maps := st.maps[parent];
      EmptyGood();
      NoEntries(fileData, st, child);
      RemapKeeps(fileData, st, child, []);
      st := Remapped(st, child, []);
      ForkedNothing(fileData, old(st), st, parent, child);
      var i := 0;
      while i < |maps|
        invariant i <= |maps| && Ok() && st.maps == old(st).maps[child := maps[..i]]
        invariant i < |maps| ==> EntriesBelow(st, child, maps[i].vaddr)
        invariant Forked(fileData, old(st), st, parent, child, i)
      {
        ghost var before := st;
        CloneMap(parent, child, i);
        ForkedOneMore(fileData, old(st), before, st, parent, child, i);
        i := i + 1;
      }
      assert maps[..i] == maps;
      ForkedAll(fileData, old(st), st, parent, child);
    }

    // -------------------------------------------------------------- mappings

    /** `mm_get_free_vaddr_locked` followed by `vmap_create`, for private mappings. */
    method AddMap(p: nat, hint: nat, exact: bool, like: Vmap) returns (r: Option<Vmap>)
      requires Ok() && p in st.maps && PrivateMap(like) && like.npages > 0
      requires hint % PAGE == 0 && hint < KERNEL_START
      modifies this
      ensures Ok() && (r.None? ==> st == old(st))
      ensures r.None? <==> NoRoom(old(st).maps[p], hint, exact, like.npages)
      ensures r.Some? ==>
                && r.value == like.(vaddr := r.value.vaddr) && (exact ==> r.value.vaddr == hint)
                && r.value.vaddr % PAGE == 0 && hint <= r.value.vaddr
                && st.maps.Keys == old(st).maps.Keys
                && Appeared(fileData, old(st), st, p, r.value) && NothingIn(fileData, old(st), p, r.value)
    {
      var vs;
      r, vs := PlaceMap(st.maps[p], hint, exact, like);
      if r.Some? {
        AppearKeeps(fileData, st, p, r.value, vs);
        st := Remapped(st, p, vs);
      }
    }

    /** `vm_protect`: the pages from `addr` to `hi` end up with the new flags. */
    method Protect(ios: map<nat, IoState>, p: nat, addr: nat, size: nat, perm: Flags) returns (r: Outcome, hi: nat)
      requires Ok() && p in st.maps && addr % PAGE == 0
      requires forall i :: 0 <= i < |st.maps[p]| && st.maps[p][i].io.Some? ==> st.maps[p][i].io.value in ios
      modifies this
      ensures Ok() && st.maps.Keys == old(st).maps.Keys
      ensures r == ProtectOutcome(ios, old(st).maps[p], addr, size, perm)
      ensures if r.Done? then forall a: nat :: Protects(old(st).maps[p], addr, size, a) <==> addr <= a < hi
              else hi == addr
      ensures Reflagged(fileData, old(st), st, p, addr, hi, perm.(user := true))
    {
      hide Mappers, PinCount, WritersAlone, CountsOk, TablesOk, PinnedOk, View, InfoAt, WellFormed, PrivateMap;
      var vs;
      r, vs, hi := ProtectMaps(ios, st.maps[p], addr, size, perm);
      if !perm.write { ClearWrite(p, addr, (hi - addr) / PAGE); }
      ghost var before := st;
      ReflagKeeps(fileData, st, p, vs, addr, hi, perm.(user := true));
      st := Remapped(st, p, vs);
      ReflagAfterSame(fileData, old(st), before, st, p, addr, hi, perm.(user := true));
    }

    /** `mm_do_unmap` on the pages of `v`: every entry gives up its frame. */
    method UnmapPages(p: nat, v: Vmap)
      requires Ok() && v.vaddr % PAGE == 0
      modifies this
      ensures Ok() && st.maps == old(st).maps && SameBeside(fileData, old(st), st, p, v)
      ensures NoneIn(st, p, v.vaddr, v.End())
    {
      hide Valid, View, SameBeside, Unmapped;
      SameBesideItself(fileData, st, p, v);
      var n := 0;
      while n < v.npages
        invariant n <= v.npages && Ok() && st.maps == old(st).maps
        invariant SameBeside(fileData, old(st), st, p, v)
        invariant NoneIn(st, p, v.vaddr, v.vaddr + n * PAGE)
      {
        var k := (p, v.vaddr + n * PAGE);
        ghost var before := st;
        if k in st.pte {
          assert v.Contains(k.1);
          UnmapBeside(fileData, old(st), st, k, v);
          st := Unmapped(st, k);
        }
        NoneInStep(fileData, before, st, p, v.vaddr, k.1);
        n := n + 1;
      }
    }

    /** `vmap_destroy` of mapping `i` */
    method DestroyMap(p: nat, i: nat)
      requires Ok() && p in st.maps && i < |st.maps[p]|
      modifies this
      ensures Ok() && st.maps == old(st).maps[p := Removed(old(st).maps[p], i)]
      ensures Vanished(fileData, old(st), st, p, old(st).maps[p][i])
    {
      var v := st.maps[p][i];
      assert v.vaddr % PAGE == 0;
      hide Valid, View, SameBeside, Vanished;
      UnmapPages(p, v);
      ghost var emptied := st;
      VanishKeeps(fileData, st, p, i);
      st := Remapped(st, p, Removed(st.maps[p], i));
      VanishAfter(fileData, old(st), emptied, st, p, v);
    }

    // -------------------------------------------------------------- runs

    method StartProcess(p: nat)
      requires Ok() && p !in st.maps
      modifies this
      ensures Ok() && SameViews(fileData, old(st), st) && st.maps == old(st).maps[p := []]
    {
      NoEntries(fileData, st, p);
      RemapKeeps(fileData, st, p, []);
      st := Remapped(st, p, []);
      hide Valid;
      forall k ensures View(fileData, st, k) == View(fileData, old(st), k) {
        assert k.0 == p ==> InfoOfPage(st.maps, k) == None;
      }
    }

    /** Performs an operation, or nothing if its arguments make no sense. */
    method Perform(ios: map<nat, IoState>, op: Op) returns (e: Event)
      requires Ok()
      modifies this
      ensures Ok() && Simulates(fileData, old(st), st, e)
      ensures Answers(ios, old(st).maps, op, e) && MapsStep(old(st).maps, op, st.maps)
    {
      hide Valid, View, SameViews, Simulates, Reflagged, Appeared, Vanished, NothingIn, AnonymousAnswer, FileAnswer,
        ProtectAnswer, MunmapAnswer, Removed;
      e := EvNone;
      match op {
        case NewProcess(p) =>
          if p !in st.maps { StartProcess(p); } else { SameItself(fileData, st); }
          SimulateNothing(fileData, old(st), st);
        case MapAnonymous(p, hint, exact, n, flags) =>
          e := MapAnonymous(p, hint, exact, Vmap(0, n, flags, None, 0, Mmap, Private, Some(ZeroOnDemand)));
        case MapFile(p, hint, exact, n, flags, io, offset, mapOk, locked) =>
          if offset % PAGE == 0 && io in ios {
            e := MapFile(p, hint, exact, Vmap(0, n, flags, Some(io), offset, File, Private, Some(FileBacked)),
                         PermCheck(ios[io], flags, true) && mapOk, locked);
          } else {
            SameItself(fileData, st);
            SimulateNothing(fileData, old(st), st);
          }
        case Unmap(p, i) =>
          if p in st.maps && i < |st.maps[p]| {
            var v := st.maps[p][i];
            DestroyMap(p, i);
            SimulateUnmap(fileData, old(st), st, p, v);
            e := EvUnmap(p, v);
          } else {
            SameItself(fileData, st);
            SimulateNothing(fileData, old(st), st);
          }
        case DoFork(parent, child) =>
          if parent in st.maps && child !in st.maps {
            Fork(parent, child);
            SimulateFork(fileData, old(st), st, parent, child);
            e := EvFork(parent, child);
          } else {
            SameItself(fileData, st);
            SimulateNothing(fileData, old(st), st);
          }
        case DoMunmap(p, addr, size) => e := PerformMunmap(p, addr, size);
        case DoProtect(p, addr, size, perm) => e := PerformProtect(ios, p, addr, size, perm);
        case DoLoad(p, addr) =>
          var r := Load(p, addr);
          SimulateLoad(fileData, old(st), st, p, addr, r);
          e := EvLoad(p, addr, r);
        case DoStore(p, addr, b) =>
          var ok := Store(p, addr, b);
          SimulateStore(fileData, old(st), st, p, addr, b, ok);
          e := EvStore(p, addr, b, ok);
        case SpuriousFault(p, addr) =>
          var _ := HandleFault(p, addr, true);
          SimulateNothing(fileData, old(st), st);
      }
    }

    /** `mmap_anonymous` */
    method MapAnonymous(p: nat, hint: nat, exact: bool, like: Vmap) returns (e: Event)
      requires Ok() && PrivateMap(like)
      modifies this
      ensures Ok() && Simulates(fileData, old(st), st, e)
      ensures AnonymousAnswer(old(st).maps, p, hint, exact, like, e) && st.maps.Keys == old(st).maps.Keys
    {
      hide Valid, View, SameViews, Simulates, Appeared, NothingIn, NoRoom;
      SameItself(fileData, st);
      SimulateNothing(fileData, st, st);
      if p !in st.maps || hint % PAGE != 0 { return EvNone; }
      if hint >= KERNEL_START { return EvPanic; }
      if like.npages == 0 { return EvNone; }
      var v := AddMap(p, hint, exact, like);
      if v.None? { return EvPanic; }
      SimulateMap(fileData, old(st), st, p, v.value);
      return EvMap(p, v.value);
    }

    /** `mmap_file` for a file that the permission check and the hook accept, or do not. */
    method MapFile(p: nat, hint: nat, exact: bool, like: Vmap, made: bool, locked: bool) returns (e: Event)
      requires Ok() && PrivateMap(like)
      modifies this
      ensures Ok() && Simulates(fileData, old(st), st, e)
      ensures FileAnswer(old(st).maps, p, hint, exact, like, made, locked, e) && st.maps.Keys == old(st).maps.Keys
    {
      hide Valid, View, SameViews, Simulates, Appeared, NothingIn, NoRoom;
      SameItself(fileData, st);
      SimulateNothing(fileData, st, st);
      if p !in st.maps || hint % PAGE != 0 { return EvNone; }
      if hint >= KERNEL_START { return EvPanic; }
      if like.npages == 0 { return EvNone; }
      if !made {
        KnownMaps(fileData, st, p);
        var room, _ := PlaceMap(st.maps[p], hint, exact, like);
        return if room.None? || locked then EvNone else EvPanic;
      }
      var v := AddMap(p, hint, exact, like);
      if v.None? { return EvNone; }
      SimulateMap(fileData, old(st), st, p, v.value);
      return EvMap(p, v.value);
    }

    method PerformProtect(ios: map<nat, IoState>, p: nat, addr: nat, size: nat, perm: Flags) returns (e: Event)
      requires Ok()
      modifies this
      ensures Ok() && Simulates(fileData, old(st), st, e)
      ensures if p in old(st).maps && KnownFiles(ios, old(st).maps[p])
              then ProtectAnswer(ios, old(st).maps[p], p, addr, size, perm, e) else e == EvNone
      ensures st.maps.Keys == old(st).maps.Keys
    {
      hide Valid, View, SameViews, Simulates, Reflagged;
      SameItself(fileData, st);
      SimulateNothing(fileData, st, st);
      if p !in st.maps
         || (exists i :: 0 <= i < |st.maps[p]| && st.maps[p][i].io.Some? && st.maps[p][i].io.value !in ios)
      {
        return EvNone;
      }
      if addr % PAGE != 0 { return EvPanic; }
      var r, hi := Protect(ios, p, addr, size, perm);
      if !r.Done? {
        NothingReflagged(fileData, old(st), st, p, addr, perm.(user := true));
        SimulateNothing(fileData, old(st), st);
        return if r.Panic? then EvPanic else EvNone;
      }
      SimulateProtect(fileData, old(st), st, p, addr, hi, perm.(user := true));
      return EvProtect(p, addr, hi, perm.(user := true));
    }

    /** `munmap`: split the mapping, then destroy the part. */
    method Munmap(p: nat, addr: nat, size: nat) returns (r: Outcome, v: Vmap)
      requires Ok() && p in st.maps
      modifies this
      ensures Ok() && st.maps.Keys == old(st).maps.Keys
      ensures WellFormed(old(st).maps[p]) && r == MunmapOutcome(old(st).maps[p], addr, size)
      ensures r.Done? ==> Vanished(fileData, old(st), st, p, v)
      ensures r.Done? ==> forall a: nat :: v.Contains(a) <==> Removes(old(st).maps[p], addr, size, a)
      ensures !r.Done? ==> SameViews(fileData, old(st), st)
    {
      hide View, MapsOk, TablesOk, CountsOk, WritersAlone, PinnedOk, Removes, MunmapOutcome, InfoAt, Vanished,
          SameViews;
      KnownMaps(fileData, st, p);
      var vs, i;
      r, vs, i := IsolateMap(st.maps[p], addr, size);
      ghost var before := st;
      SplitSameViews(fileData, st, p, vs);
      st := Remapped(st, p, vs);
      v := Vmap(0, 0, Flags(false, false, false, false), None, 0, Mmap, Private, None);
      if r.Done? {
        v := vs[i];
        ghost var split := st;
        DestroyMap(p, i);
        VanishAfterSame(fileData, before, split, st, p, v);
      }
    }

    method PerformMunmap(p: nat, addr: nat, size: nat) returns (e: Event)
      requires Ok()
      modifies this
      ensures Ok() && Simulates(fileData, old(st), st, e) && st.maps.Keys == old(st).maps.Keys
      ensures if p in old(st).maps then MunmapAnswer(old(st).maps[p], p, addr, size, e) else e == EvNone
    {
      hide Valid, View, SameViews, Simulates, Vanished, Removes, MunmapOutcome;
      if p in st.maps {
        var r, v := Munmap(p, addr, size);
        if r.Done? {
          SimulateUnmap(fileData, old(st), st, p, v);
          return EvUnmap(p, v);
        }
        SimulateNothing(fileData, old(st), st);
        return if r.Panic? then EvPanic else EvNone;
      }
      SameItself(fileData, st);
      SimulateNothing(fileData, old(st), st);
      return EvNone;
    }

    /**
      Over every run, all processes see what they would see if fork had copied
      every page: every operation is answered by its own event, the events are a
      legal history of eager memory and end in what the machine shows.  A panic
      ends the run.
     */
    method Run(ios: map<nat, IoState>, ops: seq<Op>) returns (es: seq<Event>, ghost trace: seq<State>)
      requires Ok()
      modifies this
      ensures Ok() && |es| <= |ops| && Follows(ios, trace, ops[..|es|], es) && trace[0] == old(st) && trace[|es|] == st
      ensures |es| < |ops| ==> es != [] && es[|es| - 1] == EvPanic
      ensures forall i :: 0 <= i < |es| - 1 ==> es[i] != EvPanic
      ensures var start: Mem := (k: (nat, nat)) => View(fileData, old(st), k);
              && AllAllowed(fileData, start, es) && Shows(fileData, st, Replay(fileData, start, es))
              && AllRight(fileData, start, es)
    {
      hide AllRight, Valid, View, Simulates, Allowed, Step, Answers, MapsStep, AllAllowed, Shows, Replay;
      ghost var start: Mem := (k: (nat, nat)) => View(fileData, old(st), k);
      es, trace := [], [st];
      NothingReplayed(fileData, st);
      while |es| < |ops|
        invariant Ok() && |es| <= |ops| && Follows(ios, trace, ops[..|es|], es) && trace[0] == old(st) &&
                  trace[|es|] == st
        invariant EvPanic !in es
        invariant AllAllowed(fileData, start, es) && Shows(fileData, st, Replay(fileData, start, es))
      {
        ghost var before := st;
        var e := Perform(ios, ops[|es|]);
        ReplayExtends(fileData, start, es, before, st, e);
        FollowsExtends(ios, trace, ops[..|es|], es, ops[|es|], e, st);
        assert ops[..|es| + 1] == ops[..|es|] + [ops[|es|]];
        es, trace := es + [e], trace + [st];
        if e == EvPanic {
          AllowedIsRight(fileData, start, es);
          return;
        }
      }
      AllowedIsRight(fileData, start, es);
    }
  }
}
