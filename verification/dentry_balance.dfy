/**
  What the reference counts add up to.  An entry is counted once for everything
  counted on its children, once for the mount it takes part in, and once for
  every reference that is held on it directly; `dentry_check_refstat` panics when
  a count is too low for that.  Taking or giving back a whole chain changes the
  direct references of one entry only.
 */
module DentryBalance {
  import opened Basics
  import opened DentryTree

  // ---------------------------------------------------------------- sums of counts

  ghost function Total(ids: set<nat>, refs: map<nat, nat>): nat {
    if ids == {} then 0
    else
      var x :| x in ids;
      Ref(refs, x) + Total(ids - {x}, refs)
  }

  lemma {:induction false} TotalOf(ids: set<nat>, refs: map<nat, nat>, x: nat)
    requires x in ids
    ensures Total(ids, refs) == Ref(refs, x) + Total(ids - {x}, refs)
    decreases |ids|
  {
    var y :| y in ids && Total(ids, refs) == Ref(refs, y) + Total(ids - {y}, refs);
    if y != x {
      TotalOf(ids - {y}, refs, x);
      TotalOf(ids - {x}, refs, y);
      assert ids - {y} - {x} == ids - {x} - {y};
    }
  }

  function RefIn(ids: set<nat>, refs: map<nat, nat>, x: nat): nat { if x in ids then Ref(refs, x) else 0 }

  /** Entries without references do not matter. */
  lemma {:induction false} TotalSame(a: set<nat>, r: map<nat, nat>, b: set<nat>, s: map<nat, nat>)
    requires forall x :: RefIn(a, r, x) == RefIn(b, s, x)
    ensures Total(a, r) == Total(b, s)
    decreases |a| + |b|
  {
    if x :| x in a {
      TotalOf(a, r, x);
      assert RefIn(a, r, x) == RefIn(b, s, x);
      forall y ensures RefIn(a - {x}, r, y) == RefIn(b - {x}, s, y) { assert RefIn(a, r, y) == RefIn(b, s, y); }
      if x in b { TotalOf(b, s, x); } else { assert b - {x} == b; }
      TotalSame(a - {x}, r, b - {x}, s);
    } else if x :| x in b {
      TotalOf(b, s, x);
      assert RefIn(a, r, x) == RefIn(b, s, x);
      forall y ensures RefIn(a, r, y) == RefIn(b - {x}, s, y) { assert RefIn(a, r, y) == RefIn(b, s, y); }
      TotalSame(a, r, b - {x}, s);
    }
  }

  /** One count of the sum rises by one. */
  lemma TotalStep(ids: set<nat>, r: map<nat, nat>, s: map<nat, nat>, x: nat)
    requires x in ids && Ref(s, x) == Ref(r, x) + 1 && forall y :: y in ids && y != x ==> Ref(s, y) == Ref(r, y)
    ensures Total(ids, s) == Total(ids, r) + 1
  {
    TotalOf(ids, r, x);
    TotalOf(ids, s, x);
    TotalSame(ids - {x}, r, ids - {x}, s);
  }

  // ---------------------------------------------------------------- what a count has to cover

  ghost function Kids(t: Tree, p: nat): set<nat> {
    set c | c in t.nodes && t.nodes[c].parent == Some(p) && t.nodes[c].name.Some?
  }

  /** What `dentry_check_refstat` expects besides the children. */
  function Share(t: Tree, d: nat): nat
    requires d in t.nodes
  {
    if d == t.root then 1
    else (if d in t.mounts then 1 else 0) + (if t.nodes[d].name.None? then 1 else 0)
  }

  /** `expected_refcount` */
  ghost function Expected(t: Tree, refs: map<nat, nat>, d: nat): nat
    requires d in t.nodes
  {
    Share(t, d) + Total(Kids(t, d), refs)
  }

  /** A covered mountpoint is counted along with the root mounted on it. */
  ghost function MountNeed(t: Tree, refs: map<nat, nat>, d: nat): nat
    requires d in t.nodes
  {
    if d != t.root && d in t.mounts then Ref(refs, t.mounts[d]) else Share(t, d)
  }

  ghost function Need(t: Tree, refs: map<nat, nat>, d: nat): nat
    requires d in t.nodes
  {
    MountNeed(t, refs, d) + Total(Kids(t, d), refs)
  }

  /** How many references are held on the entry itself. */
  ghost function Direct(t: Tree, refs: map<nat, nat>, d: nat): int
    requires d in t.nodes
  {
    Ref(refs, d) - Need(t, refs, d)
  }

  /** All counts but perhaps that of `e` cover what they have to. */
  ghost predicate BalancedBut(t: Tree, refs: map<nat, nat>, e: nat) {
    forall d :: d in t.nodes && d != e ==> Direct(t, refs, d) >= 0
  }

  ghost predicate Balanced(t: Tree, refs: map<nat, nat>) {
    forall d :: d in t.nodes ==> Direct(t, refs, d) >= 0
  }

  ghost predicate Zero(t: Tree, refs: map<nat, nat>) {
    forall d :: d !in t.nodes ==> Ref(refs, d) == 0
  }

  lemma ExpectedIsNeed(t: Tree, refs: map<nat, nat>, d: nat)
    requires d in t.nodes && Open(t, d)
    ensures Expected(t, refs, d) == Need(t, refs, d)
  {
  }

  /** The check of the kernel is never stricter than the invariant. */
  lemma ExpectedAtMostNeed(t: Tree, refs: map<nat, nat>, d: nat, e: nat)
    requires WellFormed(t) && d in t.nodes && BalancedBut(t, refs, e)
    requires e in t.nodes ==> t.nodes[e].name.Some?
    ensures Expected(t, refs, d) <= Need(t, refs, d)
  {
    if !Open(t, d) {
      assert MountOk(t, d);
      var r := t.mounts[d];
      assert Direct(t, refs, r) >= 0;
    }
  }

  // ---------------------------------------------------------------- one entry

  /** The child that stands for an entry below its parent: a mounted root goes by its mountpoint. */
  ghost function Face(t: Tree, d: nat): nat
    requires WellFormed(t) && d in t.nodes
  {
    if MountedRoot(t, d) then MountpointOf(t, d) else d
  }

  predicate IsParent(t: Tree, p: nat, d: nat)
    requires d in t.nodes
  {
    d != t.root && t.nodes[d].parent == Some(p)
  }

  lemma KidsOfOwn(t: Tree, d: nat, x: nat, c: nat)
    requires WellFormed(t) && d in t.nodes && x in t.nodes && c in Kids(t, x)
    ensures c in Own(t, d) <==> IsParent(t, x, d) && c == Face(t, d)
  {
    if MountedRoot(t, d) { MountedRootFacts(t, d); }
    assert RootOk(t);
  }

  lemma FaceIsKid(t: Tree, d: nat, x: nat)
    requires WellFormed(t) && d in t.nodes && IsParent(t, x, d)
    ensures Face(t, d) in Kids(t, x) && Face(t, d) in Own(t, d)
  {
    if MountedRoot(t, d) { MountedRootFacts(t, d); }
  }

  lemma KidsStep(t: Tree, r: map<nat, nat>, s: map<nat, nat>, d: nat, x: nat)
    requires WellFormed(t) && d in t.nodes && x in t.nodes && Moved(r, s, {}, Own(t, d))
    ensures Total(Kids(t, x), s) == Total(Kids(t, x), r) + (if IsParent(t, x, d) then 1 else 0)
  {
    hide WellFormed, Own, Face, Kids;
    forall c | c in Kids(t, x)
      ensures c in Own(t, d) <==> IsParent(t, x, d) && c == Face(t, d)
    {
      KidsOfOwn(t, d, x, c);
    }
    if IsParent(t, x, d) {
      FaceIsKid(t, d, x);
      TotalStep(Kids(t, x), r, s, Face(t, d));
    } else {
      TotalSame(Kids(t, x), r, Kids(t, x), s);
    }
  }

  lemma MountNeedStep(t: Tree, r: map<nat, nat>, s: map<nat, nat>, d: nat, x: nat)
    requires WellFormed(t) && d in t.nodes && x in t.nodes && Moved(r, s, {}, Own(t, d))
    ensures MountNeed(t, s, x) == MountNeed(t, r, x) + (if MountedRoot(t, d) && x == MountpointOf(t, d) then 1 else 0)
  {
    if MountedRoot(t, d) { MountedRootFacts(t, d); }
    if x != t.root && x in t.mounts { assert MountOk(t, x); }
  }

  /** Counting an entry with its mountpoint moves a direct reference from its parent to it. */
  lemma OwnDirect(t: Tree, r: map<nat, nat>, s: map<nat, nat>, d: nat, x: nat)
    requires WellFormed(t) && d in t.nodes && x in t.nodes && Moved(r, s, {}, Own(t, d))
    ensures Direct(t, s, x)
         == Direct(t, r, x) + (if x == d then 1 else 0) - (if IsParent(t, x, d) then 1 else 0)
  {
    hide WellFormed, MountNeed, Kids, Moved;
    KidsStep(t, r, s, d, x);
    MountNeedStep(t, r, s, d, x);
    OwnRef(t, r, s, d, x);
  }

  lemma OwnRef(t: Tree, r: map<nat, nat>, s: map<nat, nat>, d: nat, x: nat)
    requires WellFormed(t) && d in t.nodes && x in t.nodes && Moved(r, s, {}, Own(t, d))
    ensures Ref(s, x) == Ref(r, x) + (if x == d || (MountedRoot(t, d) && x == MountpointOf(t, d)) then 1 else 0)
    ensures MountedRoot(t, d) ==> MountpointOf(t, d) != d
  {
    if MountedRoot(t, d) { MountedRootFacts(t, d); }
  }

  // ---------------------------------------------------------------- whole chains

  function Bumped(r: map<nat, nat>, ids: set<nat>): map<nat, nat> {
    map x | x in r.Keys + ids :: Ref(r, x) + (if x in ids then 1 else 0)
  }

  lemma BumpedMoves(r: map<nat, nat>, s: map<nat, nat>, a: set<nat>, b: set<nat>)
    requires a !! b
    ensures Moved(r, Bumped(r, a), {}, a)
    ensures Moved(r, s, {}, a + b) ==> Moved(Bumped(r, a), s, {}, b)
  {
  }

  /** A reference to `d` is a direct reference of `d` and of no other entry. */
  lemma {:induction false} ChainDirect(t: Tree, r: map<nat, nat>, s: map<nat, nat>, d: nat, x: nat)
    requires WellFormed(t) && d in t.nodes && x in t.nodes && Moved(r, s, {}, Chain(t, d))
    ensures Direct(t, s, x) == Direct(t, r, x) + (if x == d then 1 else 0)
    decreases t.nodes[d].depth
  {
    hide WellFormed, Moved, Chain, Own, Direct;
    ChainStep(t, d);
    if d == t.root {
      RootOwn(t);
      OwnDirect(t, r, s, d, x);
    } else {
      OwnApart(t, d);
      var p := t.nodes[d].parent.value;
      var m := Bumped(r, Own(t, d));
      BumpedMoves(r, s, Own(t, d), Chain(t, p));
      OwnDirect(t, r, m, d, x);
      ChainDirect(t, m, s, p, x);
    }
  }

  lemma RootOwn(t: Tree)
    requires WellFormed(t)
    ensures t.root in t.nodes && Own(t, t.root) == {t.root}
  {
  }

  /** What a reference to an entry, or to none, covers. */
  ghost function Covered(t: Tree, d: Option<nat>): set<nat>
    requires WellFormed(t) && (d.Some? ==> d.value in t.nodes)
  {
    if d.Some? then Chain(t, d.value) else {}
  }

  lemma MovedDirect(t: Tree, r: map<nat, nat>, s: map<nat, nat>, from: Option<nat>, to: Option<nat>, x: nat)
    requires WellFormed(t) && x in t.nodes && (from.Some? ==> from.value in t.nodes) &&
             (to.Some? ==> to.value in t.nodes)
    requires Moved(r, s, Covered(t, from), Covered(t, to))
    ensures Direct(t, s, x) == Direct(t, r, x) - (if from == Some(x) then 1 else 0) + (if to == Some(x) then 1 else 0)
  {
    hide WellFormed, Chain, Direct;
    var m := Bumped(r, Covered(t, to));
    assert Moved(r, m, {}, Covered(t, to));
    assert Moved(s, m, {}, Covered(t, from));
    if to.Some? { ChainDirect(t, r, m, to.value, x); } else { SameDirect(t, r, m, x); }
    if from.Some? { ChainDirect(t, s, m, from.value, x); } else { SameDirect(t, s, m, x); }
  }

  lemma SameDirect(t: Tree, r: map<nat, nat>, s: map<nat, nat>, x: nat)
    requires x in t.nodes && Moved(r, s, {}, {})
    ensures Direct(t, r, x) == Direct(t, s, x)
  {
    TotalSame(Kids(t, x), r, Kids(t, x), s);
  }

  /** A direct reference can be moved from one entry to another, taken or given back. */
  lemma MovedBalanced(t: Tree, r: map<nat, nat>, s: map<nat, nat>, from: Option<nat>, to: Option<nat>)
    requires WellFormed(t) && (from.Some? ==> from.value in t.nodes) && (to.Some? ==> to.value in t.nodes)
    requires Moved(r, s, Covered(t, from), Covered(t, to))
    requires Balanced(t, r) && (from.Some? ==> Direct(t, r, from.value) > 0)
    ensures Balanced(t, s) && (to.Some? ==> Direct(t, s, to.value) > 0)
  {
    hide WellFormed, Covered, Direct, Moved;
    forall x | x in t.nodes
      ensures Direct(t, s, x) >= 0 && (to == Some(x) ==> Direct(t, s, x) > 0)
    {
      MovedDirect(t, r, s, from, to, x);
    }
  }

  /** What is counted is counted all the way up. */
  lemma {:induction false} ChainCounted(t: Tree, refs: map<nat, nat>, d: nat)
    requires WellFormed(t) && d in t.nodes && Balanced(t, refs) && Ref(refs, d) > 0
    ensures Counted(refs, Chain(t, d))
    decreases t.nodes[d].depth
  {
    hide Kids, Own;
    ChainStep(t, d);
    OwnCounted(t, refs, d);
    if d != t.root {
      var p := t.nodes[d].parent.value;
      FaceIsKid(t, d, p);
      TotalOf(Kids(t, p), refs, Face(t, d));
      assert Direct(t, refs, p) >= 0;
      ChainCounted(t, refs, p);
    }
  }

  lemma OwnCounted(t: Tree, refs: map<nat, nat>, d: nat)
    requires WellFormed(t) && d in t.nodes && Ref(refs, d) > 0
    requires MountedRoot(t, d) ==> Direct(t, refs, MountpointOf(t, d)) >= 0
    ensures Counted(refs, Own(t, d))
  {
    if MountedRoot(t, d) { MountedRootFacts(t, d); }
  }

  // ---------------------------------------------------------------- while the tree grows

  lemma KidsStay(t: Tree, u: Tree, refs: map<nat, nat>, x: nat)
    requires WellFormed(t) && WellFormed(u) && Extends(t, u) && Zero(t, refs) && Zero(u, refs) && x in u.nodes
    ensures Total(Kids(u, x), refs) == if x in t.nodes then Total(Kids(t, x), refs) else 0
  {
    if x in t.nodes {
      TotalSame(Kids(u, x), refs, Kids(t, x), refs);
    } else {
      forall c | c in t.nodes ensures c !in Kids(u, x) { assert NodeOk(t, c); }
      TotalSame(Kids(u, x), refs, {}, refs);
    }
  }

  /** Entries that come and go are not referenced, so nobody's direct references change. */
  lemma DirectStays(t: Tree, u: Tree, refs: map<nat, nat>, x: nat)
    requires WellFormed(t) && WellFormed(u) && Extends(t, u) && Zero(t, refs) && Zero(u, refs) && x in u.nodes
    ensures Direct(u, refs, x) == if x in t.nodes then Direct(t, refs, x) else 0
  {
    hide SlotsOk, Kids;
    KidsStay(t, u, refs, x);
    assert x in u.mounts ==> MountOk(t, x);
    assert MountedRoot(u, x) ==> MountOk(t, u.covers[x]);
  }

  lemma BalancedStays(t: Tree, u: Tree, refs: map<nat, nat>)
    requires WellFormed(t) && WellFormed(u) && Extends(t, u) && Zero(t, refs) && Zero(u, refs) && Balanced(t, refs)
    ensures Balanced(u, refs)
  {
    hide WellFormed, Extends, Zero, Direct;
    forall x | x in u.nodes ensures Direct(u, refs, x) >= 0 { DirectStays(t, u, refs, x); }
  }
}
