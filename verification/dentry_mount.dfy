/**
  Mounting and unmounting.  A mounted root hangs below the parent of the entry it
  covers; mounting changes no chain of an entry that was there before, makes the
  path of the mountpoint lead to the mounted root, and is undone by unmounting,
  in the tree and in every count.
 */
module DentryMount {
  import opened Basics
  import opened DentryTree
  import opened DentryBalance
  import opened DentryResolve
  import opened DentryCache

  predicate IsDirectory(t: Tree, m: nat) { m in t.nodes && t.nodes[m].inode == Some(Directory) }

  predicate Free(t: Tree, m: nat) { m !in t.mounts }

  /** What can be mounted upon: a named directory that nothing covers yet. */
  predicate Mountable(t: Tree, m: nat) {
    IsDirectory(t, m) && Free(t, m) && t.nodes[m].name.Some? && m != t.root
  }

  // ---------------------------------------------------------------- the tree with a mount

  /** `dentry_mount`, as far as the tree is concerned; the new root gets the next number. */
  function Mounted(t: Tree, m: nat): Tree
    requires m in t.nodes
  {
    t.(nodes := t.nodes[t.next := Dentry(None, t.nodes[m].parent, Some(Directory), t.nodes[m].depth)],
       mounts := t.mounts[m := t.next], covers := t.covers[t.next := m], next := t.next + 1)
  }

  lemma MountsOk(t: Tree, m: nat)
    requires WellFormed(t) && Mountable(t, m)
    ensures forall x :: x in Mounted(t, m).mounts ==> MountOk(Mounted(t, m), x)
  {
    hide SlotsOk, NodeOk;
    var u := Mounted(t, m);
    forall x | x in u.mounts ensures MountOk(u, x) { if x != m { assert MountOk(t, x); } }
  }

  lemma MountLinks(t: Tree, m: nat)
    requires WellFormed(t) && Mountable(t, m)
    ensures LinksOk(Mounted(t, m))
  {
    hide SlotsOk;
    var u := Mounted(t, m);
    assert NodeOk(t, m);
    forall d | d in u.nodes ensures NodeOk(u, d) { if d != t.next { assert NodeOk(t, d); } }
    MountsOk(t, m);
    forall d | MountedRoot(u, d) ensures d in u.covers && u.covers[d] in u.mounts && u.mounts[u.covers[d]] == d {
      if d != t.next { assert MountedRoot(t, d); }
    }
  }

  lemma MountKeeps(t: Tree, m: nat)
    requires WellFormed(t) && Mountable(t, m)
    ensures var u := Mounted(t, m); WellFormed(u) && MountedRoot(u, t.next) && MountpointOf(u, t.next) == m
    ensures Live(Mounted(t, m), t.next) && (Honest(t) ==> Honest(Mounted(t, m)))
  {
    hide LinksOk;
    MountLinks(t, m);
    var u := Mounted(t, m);
    forall c, d | c in u.nodes && d in u.nodes && SameSlot(u.nodes[c], u.nodes[d]) ensures c == d {
      assert SameSlot(t.nodes[c], t.nodes[d]);
    }
  }

  /** References taken before the mount cover the same entries after it. */
  lemma {:induction false} MountKeepsChains(t: Tree, m: nat, d: nat)
    requires WellFormed(t) && Mountable(t, m) && d in t.nodes
    ensures WellFormed(Mounted(t, m)) && Chain(Mounted(t, m), d) == Chain(t, d)
    decreases t.nodes[d].depth
  {
    hide SlotsOk;
    MountKeeps(t, m);
    if d != t.root {
      assert NodeOk(t, d);
      MountKeepsChains(t, m, t.nodes[d].parent.value);
      MountKeepsOwn(t, m, d);
    }
  }

  lemma MountKeepsOwn(t: Tree, m: nat, d: nat)
    requires WellFormed(t) && Mountable(t, m) && d in t.nodes && WellFormed(Mounted(t, m))
    ensures Own(Mounted(t, m), d) == Own(t, d)
  {
    hide LinksOk, SlotsOk;
  }

  /** A reference to the mounted root covers the root and all that one to the mountpoint covers. */
  lemma MountedChain(t: Tree, m: nat)
    requires WellFormed(t) && Mountable(t, m)
    ensures WellFormed(Mounted(t, m)) && t.next !in Chain(t, m)
    ensures t.next in Mounted(t, m).nodes && Chain(Mounted(t, m), t.next) == Chain(t, m) + {t.next}
  {
    MountKeeps(t, m);
    assert NodeOk(t, m);
    MountKeepsChains(t, m, t.nodes[m].parent.value);
    if t.next in Chain(t, m) { ChainBelow(t, m, t.next); }
  }

  /** The name of the mountpoint now leads to the mounted root, and every other name where it led before. */
  lemma MountRedirects(t: Tree, m: nat, p: nat, name: string)
    requires WellFormed(t) && Mountable(t, m) && Live(t, p)
    ensures WellFormed(Mounted(t, m))
    ensures StepDown(Mounted(t, m), p, name) == if IsChild(t, m, p, name) then Ok(t.next) else StepDown(t, p, name)
  {
    hide WellFormed, ChildOf;
    MountKeeps(t, m);
    SameChild(t, m, p, name);
    if IsChild(t, m, p, name) { ChildIs(t, p, name, m); }
    ChildSound(t, p, name);
  }

  lemma ChildSound(t: Tree, p: nat, name: string)
    requires WellFormed(t)
    ensures var c := ChildOf(t, p, name); c.Some? ==> IsChild(t, c.value, p, name) && c.value != t.next
  {
  }

  lemma SameChild(t: Tree, m: nat, p: nat, name: string)
    requires WellFormed(t) && Mountable(t, m)
    ensures ChildOf(Mounted(t, m), p, name) == ChildOf(t, p, name)
  {
    hide LinksOk, SlotsOk, ChildOf;
    MountKeeps(t, m);
    var u := Mounted(t, m);
    forall c: nat ensures IsChild(u, c, p, name) <==> IsChild(t, c, p, name) { }
    var was := ChildOf(t, p, name);
    if was.Some? { ChildIs(u, p, name, was.value); }
  }

  /**
    The reference that the lookup took on the mountpoint becomes the one that
    the mount counts for.
   */
  lemma MountBalanced(t: Tree, m: nat, refs: map<nat, nat>, s: map<nat, nat>)
    requires WellFormed(t) && Mountable(t, m) && Zero(t, refs) && Balanced(t, refs) && Direct(t, refs, m) > 0
    requires s == refs[t.next := Ref(refs, t.next) + 1]
    ensures WellFormed(Mounted(t, m)) && Zero(Mounted(t, m), s) && Balanced(Mounted(t, m), s)
  {
    hide LinksOk, SlotsOk, Direct;
    MountKeeps(t, m);
    var u := Mounted(t, m);
    forall x | x in u.nodes ensures Direct(u, s, x) >= 0 { MountDirect(t, m, refs, s, x); }
  }

  lemma MountKids(t: Tree, m: nat, refs: map<nat, nat>, s: map<nat, nat>, x: nat)
    requires WellFormed(t) && Mountable(t, m) && x in t.nodes
    requires s == refs[t.next := Ref(refs, t.next) + 1]
    ensures Total(Kids(Mounted(t, m), x), s) == Total(Kids(t, x), refs)
  {
    hide LinksOk, SlotsOk;
    var u := Mounted(t, m);
    assert Kids(u, x) == Kids(t, x);
    TotalSame(Kids(u, x), s, Kids(t, x), refs);
  }

  lemma MountDirect(t: Tree, m: nat, refs: map<nat, nat>, s: map<nat, nat>, x: nat)
    requires WellFormed(t) && Mountable(t, m) && Zero(t, refs) && x in Mounted(t, m).nodes
    requires s == refs[t.next := Ref(refs, t.next) + 1]
    ensures Direct(Mounted(t, m), s, x)
         == if x == t.next then 0 else if x == m then Direct(t, refs, m) - 1 else Direct(t, refs, x)
  {
    hide SlotsOk, Total;
    var u := Mounted(t, m);
    if x == t.next {
      forall c | c in t.nodes ensures c !in Kids(u, x) { assert NodeOk(t, c); }
      assert Kids(u, x) == {};
      TotalOfOne(s, x);
    } else {
      MountKids(t, m, refs, s, x);
      if x in t.mounts { assert MountOk(t, x); }
    }
  }

  // ---------------------------------------------------------------- the tree without the mount

  /** The entry is `r` or hangs somewhere below it. */
  predicate Beneath(t: Tree, r: nat, d: nat)
    requires d in t.nodes
    decreases t.nodes[d].depth
  {
    || d == r
    || (&& t.nodes[d].parent.Some? && t.nodes[d].parent.value in t.nodes
        && t.nodes[t.nodes[d].parent.value].depth < t.nodes[d].depth && Beneath(t, r, t.nodes[d].parent.value))
  }

  function Removed(t: Tree, r: nat): set<nat> {
    set d | d in t.nodes && Beneath(t, r, d)
  }

  /** `dentry_unmount`: the mounted root, and what is cached below it, cannot be reached any more. */
  function Unmounted(t: Tree, r: nat): Tree
    requires r in t.covers
  {
    var gone := Removed(t, r);
    t.(nodes := t.nodes - gone, mounts := t.mounts - gone - {t.covers[r]}, covers := t.covers - gone)
  }

  lemma BeneathStep(t: Tree, r: nat, d: nat)
    requires WellFormed(t) && MountedRoot(t, r) && d in t.nodes
    ensures d == t.root ==> !Beneath(t, r, d)
    ensures d != t.root ==> NodeOk(t, d) && (Beneath(t, r, d) <==> d == r || Beneath(t, r, t.nodes[d].parent.value))
  {
    assert NodeOk(t, d);
  }

  /** What stays: the root, and everything else whose parent stays, but for the mounted root. */
  lemma Stays(t: Tree, r: nat, d: nat)
    requires WellFormed(t) && MountedRoot(t, r) && r in t.covers && d in t.nodes
    ensures d == t.root ==> d in Unmounted(t, r).nodes
    ensures d != t.root ==>
              && NodeOk(t, d)
              && (d in Unmounted(t, r).nodes <==> d != r && t.nodes[d].parent.value in Unmounted(t, r).nodes)
  {
    hide WellFormed, Beneath;
    BeneathStep(t, r, d);
  }

  lemma MountpointStays(t: Tree, r: nat)
    requires WellFormed(t) && MountedRoot(t, r)
    ensures r in t.covers
    ensures var m := MountpointOf(t, r); Live(t, m) && Live(Unmounted(t, r), m) && m !in Unmounted(t, r).mounts
  {
    hide SlotsOk, Beneath;
    MountedRootFacts(t, r);
    var p := t.nodes[r].parent.value;
    BeneathNoCycle(t, r, p);
    Stays(t, r, MountpointOf(t, r));
  }

  lemma UnmountLinks(t: Tree, r: nat)
    requires WellFormed(t) && MountedRoot(t, r) && r in t.covers
    ensures LinksOk(Unmounted(t, r))
  {
    hide SlotsOk, Beneath, Removed;
    MountedRootFacts(t, r);
    Stays(t, r, r);
    var u := Unmounted(t, r);
    forall d | d in u.nodes ensures NodeOk(u, d) {
      assert NodeOk(t, d);
      Stays(t, r, d);
    }
    forall x | x in u.mounts ensures MountOk(u, x) {
      assert MountOk(t, x);
      if x != t.root { BothStay(t, r, t.mounts[x]); }
    }
    forall d | MountedRoot(u, d) ensures d in u.covers && u.covers[d] in u.mounts && u.mounts[u.covers[d]] == d {
      assert MountedRoot(t, d);
      BothStay(t, r, d);
    }
  }

  /** A mount stays or goes on both sides. */
  lemma BothStay(t: Tree, r: nat, d: nat)
    requires WellFormed(t) && MountedRoot(t, r) && r in t.covers && MountedRoot(t, d)
    ensures var u, m := Unmounted(t, r), MountpointOf(t, d);
            d != r ==>
              (m in u.mounts <==> d in u.nodes) && (d in u.nodes <==> d in u.covers) && (d in u.nodes <==> m in u.nodes)
  {
    hide SlotsOk, Beneath;
    MountedRootFacts(t, r);
    MountedRootFacts(t, d);
    Stays(t, r, d);
    Stays(t, r, MountpointOf(t, d));
  }

  lemma UnmountKeeps(t: Tree, r: nat)
    requires WellFormed(t) && MountedRoot(t, r)
    ensures r in t.covers && WellFormed(Unmounted(t, r)) && (Honest(t) ==> Honest(Unmounted(t, r)))
    ensures var m := MountpointOf(t, r); Live(Unmounted(t, r), m) && Free(Unmounted(t, r), m)
  {
    hide LinksOk, Beneath;
    MountpointStays(t, r);
    UnmountLinks(t, r);
    MountedRootFacts(t, r);
    Stays(t, r, t.root);
    BeneathStep(t, r, t.root);
    var u := Unmounted(t, r);
    forall c, d | c in u.nodes && d in u.nodes && SameSlot(u.nodes[c], u.nodes[d]) ensures c == d {
      assert SameSlot(t.nodes[c], t.nodes[d]);
    }
  }

  /** What is higher up is not beneath. */
  lemma {:induction false} BeneathNoCycle(t: Tree, r: nat, d: nat)
    requires WellFormed(t) && MountedRoot(t, r) && d in t.nodes && t.nodes[d].depth < t.nodes[r].depth
    ensures !Beneath(t, r, d)
    decreases t.nodes[d].depth
  {
    if d != t.root {
      assert NodeOk(t, d);
      BeneathNoCycle(t, r, t.nodes[d].parent.value);
    }
  }

  /** References to what stays cover the same entries. */
  lemma {:induction false} UnmountKeepsChains(t: Tree, r: nat, d: nat)
    requires WellFormed(t) && MountedRoot(t, r)
    requires r in t.covers && WellFormed(Unmounted(t, r)) && d in Unmounted(t, r).nodes
    ensures Chain(Unmounted(t, r), d) == Chain(t, d)
    decreases t.nodes[d].depth
  {
    hide SlotsOk, Beneath;
    if d != t.root {
      assert NodeOk(Unmounted(t, r), d);
      UnmountKeepsChains(t, r, t.nodes[d].parent.value);
    }
  }

  /** Unmounting takes back exactly what mounting did; only the number of the root is used up. */
  lemma UnmountUndoes(t: Tree, m: nat)
    requires WellFormed(t) && Mountable(t, m)
    ensures var u := Mounted(t, m); t.next in u.covers && Unmounted(u, t.next) == t.(next := t.next + 1)
  {
    hide WellFormed;
    var u := Mounted(t, m);
    MountKeeps(t, m);
    Beyond(t, m);
    assert forall d :: d in t.nodes ==> !Beneath(u, t.next, d);
    assert Removed(u, t.next) == {t.next};
    assert u.nodes - {t.next} == t.nodes;
    assert u.mounts - {t.next} - {m} == t.mounts;
    assert u.covers - {t.next} == t.covers;
  }

  lemma Beyond(t: Tree, m: nat)
    requires WellFormed(t) && Mountable(t, m)
    ensures t.next !in t.nodes && t.next !in t.mounts && t.next !in t.covers && m !in t.mounts
    ensures forall d :: d in t.nodes ==> !Beneath(Mounted(t, m), t.next, d)
  {
    hide SlotsOk, Beneath;
    assert t.next in t.mounts ==> MountOk(t, t.next);
    forall d | d in t.nodes ensures !Beneath(Mounted(t, m), t.next, d) { NotBeneathNew(t, m, d); }
  }

  lemma {:induction false} NotBeneathNew(t: Tree, m: nat, d: nat)
    requires WellFormed(t) && Mountable(t, m) && d in t.nodes
    ensures !Beneath(Mounted(t, m), t.next, d)
    decreases t.nodes[d].depth
  {
    assert NodeOk(t, d);
    if d != t.root { NotBeneathNew(t, m, t.nodes[d].parent.value); }
  }

  // ---------------------------------------------------------------- the counts without the mount

  /**
    When the mounted root is referenced by its mount alone, nothing below it is
    referenced, and nothing is mounted there.
   */
  lemma {:induction false} IdleBelow(t: Tree, refs: map<nat, nat>, r: nat, d: nat)
    requires WellFormed(t) && Balanced(t, refs) && MountedRoot(t, r) && Ref(refs, r) == 1
    requires d in t.nodes && Beneath(t, r, d) && d != r
    ensures Ref(refs, d) == 0 && t.nodes[d].name.Some?
    decreases t.nodes[d].depth
  {
    hide SlotsOk, Kids;
    BeneathStep(t, r, d);
    var p := t.nodes[d].parent.value;
    if p != r { IdleBelow(t, refs, r, p); }
    assert Direct(t, refs, p) >= 0;
    assert Total(Kids(t, p), refs) == 0;
    if MountedRoot(t, d) {
      MountedRootFacts(t, d);
      var m := MountpointOf(t, d);
      KidIdle(t, refs, p, m);
      assert Direct(t, refs, m) >= 0 && Direct(t, refs, d) >= 0;
    } else {
      KidIdle(t, refs, p, d);
    }
  }

  lemma KidIdle(t: Tree, refs: map<nat, nat>, p: nat, d: nat)
    requires d in t.nodes && t.nodes[d].parent == Some(p) && t.nodes[d].name.Some? && Total(Kids(t, p), refs) == 0
    ensures Ref(refs, d) == 0
  {
    TotalOf(Kids(t, p), refs, d);
  }

  /** The mount's own reference on the mountpoint is held directly once the mount is gone. */
  lemma UnmountBalanced(t: Tree, r: nat, refs: map<nat, nat>)
    requires WellFormed(t) && MountedRoot(t, r) && Zero(t, refs) && Balanced(t, refs) && Ref(refs, r) == 1
    ensures r in t.covers && WellFormed(Unmounted(t, r))
    ensures var u, s, m := Unmounted(t, r), refs[r := 0], MountpointOf(t, r);
            Zero(u, s) && Balanced(u, s) && Live(u, m) && Direct(u, s, m) > 0
  {
    hide WellFormed, Direct, Beneath;
    UnmountKeeps(t, r);
    var u, s := Unmounted(t, r), refs[r := 0];
    forall d | d !in u.nodes ensures Ref(s, d) == 0 { if d in t.nodes && d != r { IdleBelow(t, refs, r, d); } }
    forall x | x in u.nodes
      ensures Direct(u, s, x) == Direct(t, refs, x) + if x == MountpointOf(t, r) then 1 else 0
    {
      UnmountDirect(t, r, refs, x);
    }
  }

  lemma UnmountKids(t: Tree, r: nat, refs: map<nat, nat>, x: nat)
    requires WellFormed(t) && MountedRoot(t, r) && Balanced(t, refs) && Ref(refs, r) == 1
    requires r in t.covers && x in Unmounted(t, r).nodes
    ensures Total(Kids(Unmounted(t, r), x), refs[r := 0]) == Total(Kids(t, x), refs)
  {
    hide WellFormed, Beneath, Balanced;
    var u, s := Unmounted(t, r), refs[r := 0];
    forall c ensures RefIn(Kids(u, x), s, c) == RefIn(Kids(t, x), refs, c) {
      if c in Kids(t, x) && c !in u.nodes { IdleBelow(t, refs, r, c); }
    }
    TotalSame(Kids(u, x), s, Kids(t, x), refs);
  }

  lemma UnmountDirect(t: Tree, r: nat, refs: map<nat, nat>, x: nat)
    requires WellFormed(t) && MountedRoot(t, r) && Balanced(t, refs) && Ref(refs, r) == 1
    requires r in t.covers && x in Unmounted(t, r).nodes
    ensures Direct(Unmounted(t, r), refs[r := 0], x)
         == Direct(t, refs, x) + if x == MountpointOf(t, r) then 1 else 0
  {
    hide SlotsOk, IdsOk, Beneath, Kids, Balanced;
    MountedRootFacts(t, r);
    Stays(t, r, r);
    UnmountKids(t, r, refs, x);
    if x in t.mounts { assert MountOk(t, x); }
  }

  // ---------------------------------------------------------------- mounting by path

  /**
    `NoRoot` stands for -EIO: the file system gave no root entry.  `RootGone`:
    the root of the whole tree was unmounted, and there is no tree any more.
    `Unmodelled` stands for too many symbolic links, and for mounting on a file.
   */
  datatype MountResult = Done | Failed(e: Error) | Busy | NoRoot | RootGone | Panicked | Unmodelled

  /** What the path given to `vfs_mount` or `vfs_unmount` leads to. */
  ghost function Place(t: Tree, base: nat, path: string, links: nat): Result {
    Meaning(t, base, path, DIRECTORY, links)
  }

  /**
    When each outcome happens; `u` is the tree that the lookup left, and `mounts`
    whether the file system gives a root.  A directory that is referenced, such
    as the root of another mount, cannot be mounted upon.
   */
  ghost predicate MountExplained(t: Tree, refs: map<nat, nat>, u: Tree, base: nat, path: string, mounts: bool,
                                 links: nat, out: MountResult)
  {
    var place := Place(u, base, path, links);
    match out
    case Done => mounts && place.Ok? && Free(u, place.d) && IsDirectory(u, place.d) && Ref(refs, place.d) == 0
    case Failed(e) => Answer(place, t, refs) == Err(e)
    case Busy => place == Ok(u.root)
    case NoRoot => !mounts && place.Ok? && Free(u, place.d)
    case RootGone => false
    case Panicked =>
      || Answer(place, t, refs).Panic?
      || (mounts && place.Ok? && Free(u, place.d) && IsDirectory(u, place.d) && Ref(refs, place.d) > 0)
    case Unmodelled => place.Unfinished? || (mounts && place.Ok? && Free(u, place.d) && !IsDirectory(u, place.d))
  }

  /**
    `vfs_mount`.  On success there is one more reference to the new root: one on
    it and on everything up to the root of the tree.  The kernel insists that
    the mountpoint was not referenced.  When the file system gives no root, the
    reference to the mountpoint is never given back.
   */
  method Mount(c: Dcache, base: nat, path: string, mounts: bool, links: nat)
    returns (out: MountResult, ghost u: Tree)
    requires c.Valid() && Live(c.t, base)
    modifies c
    ensures (out != Panicked ==> c.Valid()) && WellFormed(u) && Extends(old(c.t), u)
    ensures MountExplained(old(c.t), old(c.refs), u, base, path, mounts, links, out)
    ensures out == Done ==>
              Mountable(u, Place(u, base, path, links).d) && c.t == Mounted(u, Place(u, base, path, links).d)
    ensures out == Done ==> Live(c.t, u.next) && Moved(old(c.refs), c.refs, {}, Chain(c.t, u.next))
    ensures out == Done ==> Ref(c.refs, u.next) == 1 && Ref(c.refs, Place(u, base, path, links).d) == 1
    ensures out == Busy || out.Failed? ==> c.t == u && Moved(old(c.refs), c.refs, {}, {})
    ensures out == NoRoot ==> c.t == u && Live(u, Place(u, base, path, links).d)
    ensures out == NoRoot ==> Moved(old(c.refs), c.refs, {}, Chain(u, Place(u, base, path, links).d))
  {
    hide WellFormed, Chain, Moved, Meaning, Extends, Blocked, Balanced, Direct, Zero, Honest, Caught, DirOf;
    var got := c.Get(base, path, DIRECTORY, links);
    u := c.t;
    DirectoryNeverExists(u, base, path, links);
    if got.Panic? || got.Unfinished? { return if got.Panic? then Panicked else Unmodelled, u; }
    if got.Err? { return Failed(got.e), u; }
    var m := got.d;
    ghost var held := c.refs;
    if m in c.t.mounts {
      LookupOpen(old(c.t), u, base, path, links);
      DirectIsRef(c.t, c.refs, m);
      var _ := c.Unref(m);
      MovedTrans(old(c.refs), held, c.refs, {}, Chain(u, m), {});
      return Busy, u;
    }
    if !mounts { return NoRoot, u; }
    if c.t.nodes[m].inode != Some(Directory) { return Unmodelled, u; }
    MountpointHeld(old(c.refs), held, u, m);
    if Ref(c.refs, m) != 1 { return Panicked, u; }
    NamedPlace(u, held, m);
    MountKeeps(u, m);
    MountedChain(u, m);
    var r := c.t.next;
    c.t := Mounted(c.t, m);
    c.refs := c.refs[r := Ref(c.refs, r) + 1];
    MountBalanced(u, m, held, c.refs);
    OneMore(held, c.refs, r);
    FreshZero(u, held);
    MovedApart(old(c.refs), held, c.refs, Chain(u, m), {r});
    return Done, u;
  }

  // ---------------------------------------------------------------- unmounting by path

  /** When each outcome happens: success needs exactly the mount's own references on both sides. */
  ghost predicate UnmountExplained(t: Tree, refs: map<nat, nat>, u: Tree, path: string, links: nat, out: MountResult)
    requires WellFormed(u)
  {
    var place := Place(u, u.root, path, links);
    match out
    case Done =>
      && place.Ok? && MountedRoot(u, place.d) && Ref(refs, place.d) == 1 && Ref(refs, MountpointOf(u, place.d)) == 1
    case Failed(e) => Answer(place, t, refs) == Err(e)
    case Busy => place.Ok? && Ref(refs, place.d) != 1
    case NoRoot => false
    case RootGone => place == Ok(u.root) && Ref(refs, u.root) == 1
    case Panicked =>
      || Answer(place, t, refs).Panic?
      || (&& place.Ok? && place.d != u.root && Ref(refs, place.d) == 1
          && (MountedRoot(u, place.d) ==> Ref(refs, MountpointOf(u, place.d)) != 1))
    case Unmodelled => place.Unfinished?
  }

  /**
    `vfs_unmount`.  On success the mount's references are given back, on both
    sides and up to the root of the tree: what `Mount` had taken.  When the root
    is in use, the lookup's references are never given back.
   */
  method Unmount(c: Dcache, path: string, links: nat) returns (out: MountResult, ghost u: Tree)
    requires c.Valid()
    modifies c
    ensures out.Done? || out.Failed? || out.Busy? || out.Unmodelled? ==> c.Valid()
    ensures WellFormed(u) && Extends(old(c.t), u)
    ensures UnmountExplained(old(c.t), old(c.refs), u, path, links, out)
    ensures out == Done ==> Place(u, u.root, path, links).d in u.covers
    ensures out == Done ==> c.t == Unmounted(u, Place(u, u.root, path, links).d)
    ensures out == Done ==> Moved(old(c.refs), c.refs, Chain(u, Place(u, u.root, path, links).d), {})
    ensures out.Failed? ==> c.t == u && Moved(old(c.refs), c.refs, {}, {})
    ensures out == Busy ==> c.t == u && Live(u, Place(u, u.root, path, links).d)
    ensures out == Busy ==> Moved(old(c.refs), c.refs, {}, Chain(u, Place(u, u.root, path, links).d))
  {
    hide WellFormed, Chain, Moved, Meaning, Extends, Blocked, Balanced, Direct, Zero, Honest, Caught, DirOf, Expected;
    RootLives(c.t);
    var got := c.Get(c.t.root, path, DIRECTORY, links);
    u := c.t;
    SameMounts(old(c.t), u, u.root);
    DirectoryNeverExists(u, u.root, path, links);
    if got.Panic? || got.Unfinished? { return if got.Panic? then Panicked else Unmodelled, u; }
    if got.Err? { return Failed(got.e), u; }
    var r := got.d;
    ghost var held := c.refs;
    MountpointHeld(old(c.refs), held, u, r);
    if Ref(c.refs, r) != 2 {
      var n := c.ExpectedCount(r);
      AllButNext(c.t, c.refs);
      NotNext(c.t, r);
      PassesCheck(c.t, c.refs, r, c.t.next);
      if Ref(c.refs, r) < n { return Panicked, u; }
      return Busy, u;
    }
    var _ := c.Unref(r);
    MovedTrans(old(c.refs), held, c.refs, {}, Chain(u, r), {});
    SameRefs(old(c.refs), c.refs);
    if r == c.t.root { return RootGone, u; }
    if c.t.nodes[r].name.Some? { return Panicked, u; }
    MountedRootFacts(u, r);
    UnmountKeeps(u, r);
    var m := c.t.covers[r];
    if Ref(c.refs, m) != 1 { return Panicked, u; }
    ghost var before := c.refs;
    UnmountBalanced(u, r, c.refs);
    c.t := Unmounted(c.t, r);
    c.refs := c.refs[r := 0];
    UnmountKeepsChains(u, r, m);
    DirectIsRef(c.t, c.refs, m);
    ghost var dropped := c.refs;
    var _ := c.Unref(m);
    GivenUp(u, old(c.refs), before, dropped, c.refs, r);
    return Done, u;
  }

  // ---------------------------------------------------------------- facts for the methods

  /** The outcome of a mount follows from where the path leads, what is referenced, and whether there is a root. */
  lemma MountLaw(t: Tree, refs: map<nat, nat>, u: Tree, base: nat, path: string, mounts: bool, links: nat,
                 out: MountResult)
    requires MountExplained(t, refs, u, base, path, mounts, links, out) && WellFormed(u)
    ensures match Answer(Place(u, base, path, links), t, refs)
            case Err(e) => out == Failed(e)
            case Panic => out == Panicked
            case Unfinished => out == Unmodelled
            case Ok(d) =>
              && (d == u.root ==> out == Busy)
              && (d !in u.mounts ==>
                    out == if !mounts then NoRoot
                           else if d !in u.nodes || u.nodes[d].inode != Some(Directory) then Unmodelled
                           else if Ref(refs, d) == 0 then Done else Panicked)
            case _ => true
  {
  }

  /** The outcome of an unmount, in the same way. */
  lemma UnmountLaw(t: Tree, refs: map<nat, nat>, u: Tree, path: string, links: nat, out: MountResult)
    requires WellFormed(u) && UnmountExplained(t, refs, u, path, links, out)
    ensures match Answer(Place(u, u.root, path, links), t, refs)
            case Err(e) => out == Failed(e)
            case Panic => out == Panicked
            case Unfinished => out == Unmodelled
            case Ok(d) =>
              out == if Ref(refs, d) != 1 then Busy
                     else if d == u.root then RootGone
                     else if MountedRoot(u, d) && Ref(refs, u.covers[d]) == 1 then Done
                     else Panicked
            case _ => true
  {
  }

  /** EEXIST is only answered to a caller who expects that nothing is there. */
  lemma DirectoryNeverExists(t: Tree, base: nat, path: string, links: nat)
    ensures Meaning(t, base, path, DIRECTORY, links) != Err(EEXIST)
  {
    var p := ParentOf(t, base, path, links);
    ParentNeverExists(t, base, path, links);
    var last := LastSegmentOf(path);
    if p.Ok? && last.Some? { LastNeverExists(t, p.d, last.value, DIRECTORY, links); }
  }

  lemma {:induction false} ParentNeverExists(t: Tree, base: nat, path: string, links: nat)
    ensures ParentOf(t, base, path, links) != Err(EEXIST)
    decreases links, 1
  {
    var segs := Segments(path);
    if segs != [] {
      var start := Across(t, if IsAbsolute(path) then t.root else base);
      WalkNeverExists(t, start, segs[..|segs| - 1]);
      var r := Walk(t, start, segs[..|segs| - 1]);
      if r.Ok? { FollowNeverExists(t, r.d, DIRECTORY, links); }
    }
  }

  lemma {:induction false} WalkNeverExists(t: Tree, p: nat, segs: seq<string>)
    ensures Walk(t, p, segs) != Err(EEXIST)
  {
    if segs != [] { WalkNeverExists(t, p, segs[..|segs| - 1]); }
  }

  lemma {:induction false} FollowNeverExists(t: Tree, d: nat, flags: Resolve, links: nat)
    requires flags.expectNonexist ==> flags.expectExist
    ensures Follow(t, d, flags, links) != Err(EEXIST)
    decreases links, 0
  {
    if links > 0 && Live(t, d) && t.nodes[d].inode.value.Symlink? && t.nodes[d].parent.Some? {
      var base, target := t.nodes[d].parent.value, t.nodes[d].inode.value.target;
      ParentNeverExists(t, base, target, links - 1);
      var p, last := ParentOf(t, base, target, links - 1), LastSegmentOf(target);
      if p.Ok? && last.Some? { LastNeverExists(t, p.d, last.value, flags, links - 1); }
    }
  }

  lemma {:induction false} LastNeverExists(t: Tree, p: nat, leaf: string, flags: Resolve, links: nat)
    requires flags.expectNonexist ==> flags.expectExist
    ensures Last(t, p, leaf, flags, links) != Err(EEXIST)
    decreases links, 2
  {
    hide Found;
    var name := if EndsWithSlash(leaf) then leaf[..|leaf| - 1] else leaf;
    var c := ChildOf(t, p, name);
    if c.Some? && Live(t, c.value) { FoundNeverExists(t, c.value, flags, links); }
  }

  lemma {:induction false} FoundNeverExists(t: Tree, c: nat, flags: Resolve, links: nat)
    requires (flags.expectNonexist ==> flags.expectExist) && Live(t, c)
    ensures Found(t, c, flags, links) != Err(EEXIST)
    decreases links, 1
  {
    hide Follow;
    FollowNeverExists(t, c, flags, links);
  }

  /** A lookup never ends on an entry that a mount covers, but for the root. */
  lemma LookupOpen(t: Tree, u: Tree, base: nat, path: string, links: nat)
    requires WellFormed(t) && WellFormed(u) && Extends(t, u) && Live(t, base)
    requires Meaning(u, base, path, DIRECTORY, links).Ok?
    ensures Open(u, Meaning(u, base, path, DIRECTORY, links).d)
  {
    hide WellFormed, Open, ParentOf, Last, LastSegmentOf;
    LiveStays(t, u, base);
    ParentOpen(u, base, path, links);
    var p, last := ParentOf(u, base, path, links), LastSegmentOf(path);
    if last.Some? { LastOpen(u, p.d, last.value, DIRECTORY, links); }
  }

  /** An entry that was not referenced has a name: a mounted root is always referenced. */
  lemma NamedPlace(t: Tree, refs: map<nat, nat>, m: nat)
    requires WellFormed(t) && m in t.nodes && m !in t.mounts && Direct(t, refs, m) > 0 && Ref(refs, m) == 1
    ensures t.nodes[m].name.Some? && m != t.root
  {
  }

  lemma MountpointHeld(before: map<nat, nat>, after: map<nat, nat>, t: Tree, m: nat)
    requires WellFormed(t) && m in t.nodes && Moved(before, after, {}, Chain(t, m))
    ensures Ref(after, m) == Ref(before, m) + 1
  {
  }

  lemma OneMore(a: map<nat, nat>, b: map<nat, nat>, r: nat)
    requires b == a[r := Ref(a, r) + 1]
    ensures Moved(a, b, {}, {r})
  {
  }

  lemma RootLives(t: Tree)
    requires WellFormed(t)
    ensures Live(t, t.root)
  {
  }

  lemma NotNext(t: Tree, d: nat)
    requires WellFormed(t) && d in t.nodes
    ensures d != t.next && t.next !in t.nodes
  {
  }

  lemma SameRefs(r: map<nat, nat>, s: map<nat, nat>)
    requires Moved(r, s, {}, {})
    ensures forall d :: Ref(s, d) == Ref(r, d)
  {
  }

  lemma GivenUp(t: Tree, old_: map<nat, nat>, before: map<nat, nat>, dropped: map<nat, nat>, after: map<nat, nat>,
                r: nat)
    requires WellFormed(t) && MountedRoot(t, r) && Moved(old_, before, {}, {}) && Ref(before, r) == 1
    requires dropped == before[r := 0]
    requires MountpointOf(t, r) in t.nodes && Moved(dropped, after, Chain(t, MountpointOf(t, r)), {})
    ensures Moved(old_, after, Chain(t, r), {})
  {
    MountedRootFacts(t, r);
    MountChain(t, MountpointOf(t, r));
  }
}
