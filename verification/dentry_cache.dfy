/**
  Path resolution over the dentry tree, with the reference counts it moves.
  A successful lookup leaves one more reference on every entry from the result
  up to the root; a failed one leaves all counts as they were, but for EEXIST.
 */
module DentryCache {
  import opened Basics
  import opened DentryTree
  import opened DentryBalance
  import opened DentryResolve

  // ---------------------------------------------------------------- dropping references

  /** `dentry_unref_one_norelease`: the entry, and its mountpoint if it is a mounted root. */
  function MinusOne(t: Tree, refs: map<nat, nat>, d: nat): map<nat, nat>
    requires WellFormed(t) && d in t.nodes && Ref(refs, d) > 0
    requires MountedRoot(t, d) ==> Ref(refs, MountpointOf(t, d)) > 0
  {
    var r := refs[d := Ref(refs, d) - 1];
    if MountedRoot(t, d) then
      MountedRootFacts(t, d);
      r[MountpointOf(t, d) := Ref(refs, MountpointOf(t, d)) - 1]
    else r
  }

  lemma MinusOneMoves(t: Tree, refs: map<nat, nat>, d: nat)
    requires WellFormed(t) && d in t.nodes && Counted(refs, Own(t, d))
    ensures Moved(refs, MinusOne(t, refs, d), Own(t, d), {})
  {
    if MountedRoot(t, d) { MountedRootFacts(t, d); }
  }

  /** Giving up an entry gives its parent a direct reference. */
  lemma OwnGiven(t: Tree, r: map<nat, nat>, s: map<nat, nat>, d: nat, e: nat)
    requires WellFormed(t) && d in t.nodes && Moved(r, s, Own(t, d), {})
    requires BalancedBut(t, r, e) && (d == e || Direct(t, r, d) > 0)
    ensures BalancedBut(t, s, e)
    ensures forall p :: p in t.nodes && p != e && IsParent(t, p, d) ==> Direct(t, s, p) > 0
  {
    hide WellFormed, Own, Direct, Moved;
    assert Moved(s, r, {}, Own(t, d)) by { MovedBack(r, s, Own(t, d)); }
    forall x | x in t.nodes && x != e
      ensures Direct(t, s, x) >= 0 && (IsParent(t, x, d) ==> Direct(t, s, x) > 0)
    {
      OwnDirect(t, s, r, d, x);
      if IsParent(t, x, d) { NotOwnParent(t, d); }
    }
  }

  lemma NotOwnParent(t: Tree, d: nat)
    requires WellFormed(t) && d in t.nodes
    ensures !IsParent(t, d, d)
  {
    assert NodeOk(t, d);
  }

  lemma MovedBack(r: map<nat, nat>, s: map<nat, nat>, ids: set<nat>)
    requires Moved(r, s, ids, {})
    ensures Moved(s, r, {}, ids)
  {
  }

  lemma MovedInTurn(r: map<nat, nat>, s: map<nat, nat>, u: map<nat, nat>, a: set<nat>, b: set<nat>)
    requires Moved(r, s, a, {}) && Moved(s, u, b, {}) && a !! b
    ensures Moved(r, u, a + b, {})
  {
  }

  /** The balance is carried to a later state of tree and counts. */
  lemma Carry(t: Tree, r: map<nat, nat>, u: Tree, s: map<nat, nat>, from: Option<nat>, to: Option<nat>)
    requires WellFormed(t) && WellFormed(u) && Extends(t, u) && Zero(t, r) && Zero(u, s) && Balanced(t, r)
    requires from.Some? ==> from.value in t.nodes && from.value in u.nodes && Direct(t, r, from.value) > 0
    requires to.Some? ==> to.value in u.nodes
    requires Moved(r, s, Covered(u, from), Covered(u, to))
    ensures Zero(u, r) && Balanced(u, r) && Balanced(u, s) && (to.Some? ==> Direct(u, s, to.value) > 0)
  {
    hide WellFormed, Extends, Chain, Direct, Balanced;
    forall x | x !in u.nodes ensures Ref(r, x) == 0 {
      CoveredInside(u, from, x);
      CoveredInside(u, to, x);
    }
    BalancedStays(t, u, r);
    if from.Some? { DirectStays(t, u, r, from.value); }
    MovedBalanced(u, r, s, from, to);
  }

  lemma CoveredInside(t: Tree, d: Option<nat>, x: nat)
    requires WellFormed(t) && (d.Some? ==> d.value in t.nodes) && x !in t.nodes
    ensures x !in Covered(t, d)
  {
    if d.Some? && x in Chain(t, d.value) { ChainBelow(t, d.value, x); }
  }

  // ---------------------------------------------------------------- names that do not exist

  /** After a negative child is released there is no live child of that name. */
  lemma NoLiveChild(t: Tree, u: Tree, p: nat, name: string, c: nat)
    requires WellFormed(t) && IsChild(t, c, p, name) && !Live(t, c)
    requires u == WithoutNode(t, c) || u == t
    ensures ChildOf(u, p, name).None? || !Live(u, ChildOf(u, p, name).value)
  {
    var r := ChildOf(u, p, name);
    if r.Some? { assert SameSlot(t.nodes[r.value], t.nodes[c]); }
  }

  /** A walk that fails at segment `i` fails as a whole. */
  lemma {:induction false} WalkFails(t: Tree, p: nat, segs: seq<string>, i: nat)
    requires i < |segs| && !Walk(t, p, segs[..i + 1]).Ok?
    ensures forall n :: i < n <= |segs| ==> Walk(t, p, segs[..n]) == Walk(t, p, segs[..i + 1])
  {
    var n := i + 1;
    while n < |segs|
      invariant i < n <= |segs|
      invariant forall k :: i < k <= n ==> Walk(t, p, segs[..k]) == Walk(t, p, segs[..i + 1])
    {
      assert segs[..n + 1][..n] == segs[..n];
      n := n + 1;
    }
  }

  // ---------------------------------------------------------------- held negative entries

  /** Somebody holds the entry of a name that does not exist: releasing it trips an assertion. */
  ghost predicate Blocked(t: Tree, refs: map<nat, nat>, dir: nat, name: string) {
    t.fs(dir, name).None? && exists c :: IsChild(t, c, dir, name) && Ref(refs, c) > 0
  }

  /** What the caller gets for a meaning: a missing name is ENOENT, or a panic if its entry is held. */
  ghost function Answer(meaning: Result, t: Tree, refs: map<nat, nat>): Result {
    if !meaning.Missing? then meaning
    else if Blocked(t, refs, meaning.dir, meaning.name) then Panic
    else Err(ENOENT)
  }

  /** Walking references live entries only, so the same names are blocked as before. */
  lemma BlockedBefore(t: Tree, r: map<nat, nat>, u: Tree, s: map<nat, nat>, plus: set<nat>)
    requires Zero(t, r) && Zero(u, s) && Honest(u) && Extends(t, u)
    requires Moved(r, s, {}, plus) && forall x :: x in plus ==> Live(u, x)
    ensures forall p, name :: Blocked(u, s, p, name) <==> Blocked(t, r, p, name)
    ensures forall meaning :: Answer(meaning, u, s) == Answer(meaning, t, r)
  {
    forall p, name ensures Blocked(u, s, p, name) <==> Blocked(t, r, p, name) {
      if Blocked(u, s, p, name) {
        var c :| IsChild(u, c, p, name) && Ref(s, c) > 0;
        assert !Live(u, c) && Ref(s, c) == Ref(r, c);
        assert IsChild(t, c, p, name);
      }
      if Blocked(t, r, p, name) {
        var c :| IsChild(t, c, p, name) && Ref(r, c) > 0;
        assert IsChild(u, c, p, name);
      }
    }
  }

  lemma BlockedBeforeChain(t: Tree, r: map<nat, nat>, u: Tree, s: map<nat, nat>, p: nat)
    requires Zero(t, r) && Zero(u, s) && WellFormed(u) && Honest(u) && Live(u, p) && Extends(t, u)
    requires Moved(r, s, {}, Chain(u, p))
    ensures forall meaning :: Answer(meaning, u, s) == Answer(meaning, t, r)
  {
    forall x | x in Chain(u, p) ensures Live(u, x) { ChainBelow(u, p, x); }
    BlockedBefore(t, r, u, s, Chain(u, p));
  }

  // ---------------------------------------------------------------- EEXIST

  /** The directory is referenced, but only through what lies below it. */
  ghost predicate Caught(t: Tree, refs: map<nat, nat>, dir: nat) {
    dir in t.nodes && Ref(refs, dir) > 0 && Direct(t, refs, dir) == 0
  }

  /**
    `dentry_get` gives back the directory's chain once too often when the entry
    exists: an unreferenced directory is left alone, a directly referenced one
    loses a reference.
   */
  ghost predicate GaveBack(t: Tree, r: map<nat, nat>, s: map<nat, nat>, dir: nat)
    requires WellFormed(t) && dir in t.nodes
  {
    Moved(r, s, if Ref(r, dir) == 0 then {} else Chain(t, dir), {})
  }

  /** The result is the meaning, but EEXIST in a directory that is caught ends in a panic. */
  ghost predicate Ends(r: Result, meaning: Result, t: Tree, refs: map<nat, nat>, dir: nat) {
    r == if meaning == Err(EEXIST) && Caught(t, refs, dir) then Panic else Answer(meaning, t, refs)
  }

  class Dcache {
    var t: Tree
    var refs: map<nat, nat>

    ghost predicate Sound()
      reads this
    {
      WellFormed(t) && Honest(t) && Zero(t, refs)
    }

    /** Every count covers what `dentry_check_refstat` expects, and more where a mount covers an entry. */
    ghost predicate Valid()
      reads this
    {
      Sound() && Balanced(t, refs)
    }

    ghost predicate Held(d: nat)
      reads this
    {
      d in t.nodes && Direct(t, refs, d) > 0
    }

    /** A file system with its root mounted and referenced once. */
    constructor (fs: (nat, string) -> Option<Inode>)
      ensures Valid() && t.fs == fs && Moved(map[], refs, {}, Chain(t, t.root))
    {
      t := Tree(map[0 := Dentry(None, None, Some(Directory), 0)], 0, map[0 := 0], map[], fs, 1);
      refs := map[0 := 1];
    }

    // -------------------------------------------------------------- taking references

    /** `dentry_ref` */
    method RefOne(d: nat)
      requires Sound() && Live(t, d)
      modifies this`refs
      ensures Sound() && Moved(old(refs), refs, {}, {d})
    {
      refs := refs[d := Ref(refs, d) + 1];
    }

    /** An entry is referenced, and the mountpoint it covers too; the way up goes on from there. */
    method RefOwn(d: nat) returns (up: nat)
      requires Sound() && Live(t, d) && d != t.root
      modifies this`refs
      ensures Sound() && Moved(old(refs), refs, {}, Own(t, d))
      ensures Live(t, up) && t.nodes[d].parent == Some(up) && t.nodes[up].depth < t.nodes[d].depth
    {
      hide SlotsOk;
      assert NodeOk(t, d);
      var cur := d;
      refs := refs[cur := Ref(refs, cur) + 1];
      if t.nodes[cur].name.None? {
        MountedRootFacts(t, cur);
        cur := MountpointOf(t, cur);
        refs := refs[cur := Ref(refs, cur) + 1];
      }
      return t.nodes[cur].parent.value;
    }

    /** `dentry_ref_up_to` the root */
    method RefUpToRoot(d: nat)
      requires Valid() && Live(t, d)
      modifies this`refs
      ensures Valid() && Held(d) && Moved(old(refs), refs, {}, Chain(t, d))
    {
      hide WellFormed, Moved, Chain, Own, Balanced, Direct, Honest, Zero;
      var cur := d;
      ghost var done: set<nat> := {};
      MovedNothing(refs, {});
      while cur != t.root
        invariant Sound() && Live(t, cur)
        invariant Chain(t, d) == done + Chain(t, cur) && done !! Chain(t, cur)
        invariant Moved(old(refs), refs, {}, done)
        decreases t.nodes[cur].depth
      {
        ghost var held, own := refs, Own(t, cur);
        OwnApart(t, cur);
        ChainStep(t, cur);
        cur := RefOwn(cur);
        MovedApart(old(refs), held, refs, done, own);
        done := done + own;
      }
      ChainStep(t, cur);
      ghost var held := refs;
      RefOne(cur);
      MovedApart(old(refs), held, refs, done, {cur});
      ExtendsItself(t);
      Carry(t, old(refs), t, refs, None, Some(d));
    }

    // -------------------------------------------------------------- giving references back

    /** `dentry_try_release`: a negative entry without references goes away. */
    method TryRelease(d: nat) returns (ok: bool)
      requires Sound() && d in t.nodes
      modifies this`t
      ensures Sound() && Extends(old(t), t)
      ensures old(Valid()) ==> Valid()
      ensures ok <==> Ref(refs, d) == 0
      ensures Live(old(t), d) ==> t == old(t)
      ensures t == old(t) || t == WithoutNode(old(t), d)
    {
      hide WellFormed, Extends, Balanced;
      ExtendsItself(t);
      if Ref(refs, d) != 0 { return false; }
      if t.nodes[d].inode.None? {
        ReleaseKeeps(t, d);
        t := WithoutNode(t, d);
        if old(Valid()) { BalancedStays(old(t), t, refs); }
      }
      return true;
    }

    /** `dentry_unref_one_norelease` on an entry that is counted. */
    method DropOwn(d: nat)
      requires Sound() && d in t.nodes && Counted(refs, Own(t, d))
      modifies this`refs
      ensures Sound() && Moved(old(refs), refs, Own(t, d), {})
    {
      hide WellFormed, Honest, Moved;
      MinusOneMoves(t, refs, d);
      DroppedZero(t, refs, d);
      refs := MinusOne(t, refs, d);
    }

    /** The sum that `dentry_check_refstat` compares a count with. */
    method ExpectedCount(d: nat) returns (n: nat)
      requires d in t.nodes
      ensures n == Expected(t, refs, d)
    {
      n := Share(t, d);
      var todo := t.nodes.Keys;
      assert Kids(t, d) - todo == {};
      while todo != {}
        invariant todo <= t.nodes.Keys && n == Share(t, d) + Total(Kids(t, d) - todo, refs)
        decreases todo
      {
        var c :| c in todo;
        ghost var seen := Kids(t, d) - (todo - {c});
        if t.nodes[c].parent == Some(d) && t.nodes[c].name.Some? {
          TotalOf(seen, refs, c);
          assert seen - {c} == Kids(t, d) - todo;
          n := n + Ref(refs, c);
        } else {
          assert seen == Kids(t, d) - todo;
        }
        todo := todo - {c};
      }
      assert Kids(t, d) - todo == Kids(t, d);
    }

    /**
      `dentry_unref` of an entry with a direct reference: the check passes there
      and everywhere above.  The count of `e`, elsewhere, does not matter.
     */
    method UnrefHeld(d: nat, ghost e: nat)
      requires Sound() && Live(t, d) && Direct(t, refs, d) > 0
      requires BalancedBut(t, refs, e) && e !in Chain(t, d) && (e in t.nodes ==> t.nodes[e].name.Some?)
      modifies this
      ensures Sound() && t == old(t) && Moved(old(refs), refs, Chain(t, d), {})
      decreases t.nodes[d].depth
    {
      hide WellFormed, Direct, Moved, Own, Chain, BalancedBut, Expected, Need, Honest, Zero;
      NotInChain(t, d, e);
      OwnHeld(t, refs, d, e);
      ChainStep(t, d);
      DropOwn(d);
      ghost var dropped := refs;
      OwnGiven(t, old(refs), refs, d, e);
      var n := ExpectedCount(d);
      PassesCheck(t, refs, d, e);
      assert Ref(refs, d) >= n;
      if d != t.root {
        OwnApart(t, d);
        UnrefHeld(t.nodes[d].parent.value, e);
        MovedInTurn(old(refs), dropped, refs, Own(t, d), Chain(t, t.nodes[d].parent.value));
      } else {
        RootOwn(t);
      }
      if Ref(refs, d) == 0 { var _ := TryRelease(d); }
    }

    /**
      `dentry_unref`: one reference less on everything up to the root.  It does
      nothing to an entry without references, and panics when the count left is
      less than what the entry is expected to have.
     */
    method Unref(d: nat) returns (ok: bool)
      requires Valid() && d in t.nodes
      modifies this
      ensures Sound() && Extends(old(t), t) && (Live(old(t), d) ==> t == old(t))
      ensures ok <==> Ref(old(refs), d) == 0 || Expected(old(t), old(refs), d) < Ref(old(refs), d)
      ensures ok ==> Moved(old(refs), refs, if Ref(old(refs), d) == 0 then {} else Chain(old(t), d), {})
      ensures Ref(old(refs), d) == 0 || Direct(old(t), old(refs), d) > 0 ==> ok && Valid()
    {
      hide WellFormed, Direct, Moved, Own, Chain, Balanced, BalancedBut, Expected, Honest, Zero, Extends;
      ExtendsItself(t);
      MovedNothing(refs, {});
      if Ref(refs, d) == 0 { return true; }
      ghost var e := if Direct(t, refs, d) > 0 then t.next else d;
      AllButNext(t, refs);
      UnrefStarts(t, refs, d, e);
      ChainStep(t, d);
      DropOwn(d);
      ghost var dropped := refs;
      OwnGiven(t, old(refs), refs, d, e);
      var n := ExpectedCount(d);
      CheckAfter(t, old(refs), refs, d);
      if e != d { PassesCheck(t, refs, d, e); }
      if Ref(refs, d) < n { return false; }
      if d != t.root {
        ParentExempt(t, old(refs), d, e);
        OwnApart(t, d);
        UnrefHeld(t.nodes[d].parent.value, e);
        MovedInTurn(old(refs), dropped, refs, Own(t, d), Chain(t, t.nodes[d].parent.value));
      } else {
        RootOwn(t);
      }
      if e != d { Carry(t, old(refs), t, refs, Some(d), None); }
      if Ref(refs, d) == 0 { var _ := TryRelease(d); }
      return true;
    }

    /** An entry is given up, and its parent is held instead. */
    method UnrefOne(d: nat)
      requires Valid() && Held(d) && d != t.root
      modifies this`refs
      ensures Valid() && Moved(old(refs), refs, Own(t, d), {})
      ensures t.nodes[d].parent.Some? && Held(t.nodes[d].parent.value)
    {
      hide WellFormed, Direct, Moved, Own, Balanced, BalancedBut, Honest, Zero;
      AllButNext(t, refs);
      OwnHeld(t, refs, d, t.next);
      DropOwn(d);
      OwnGiven(t, old(refs), refs, d, t.next);
      AllButNext(t, refs);
      ChainStep(t, d);
      ParentIs(t, d);
    }

    // -------------------------------------------------------------- children

    /** The cached child with a given name, found by scanning the children. */
    method FindChild(parent: nat, name: string) returns (r: Option<nat>)
      ensures r.Some? ==> IsChild(t, r.value, parent, name)
      ensures r.None? ==> forall c :: !IsChild(t, c, parent, name)
    {
      var todo := t.nodes.Keys;
      while todo != {}
        invariant todo <= t.nodes.Keys
        invariant forall c :: c in t.nodes.Keys - todo ==> !IsChild(t, c, parent, name)
        decreases todo
      {
        var c :| c in todo;
        if t.nodes[c].parent == Some(parent) && t.nodes[c].name == Some(name) { return Some(c); }
        todo := todo - {c};
      }
      return None;
    }

    /**
      `dentry_get_child`: a referenced child, or an unreferenced negative one if
      the file system has no such name.
     */
    method GetChild(parent: nat, name: string) returns (c: nat)
      requires Valid() && Live(t, parent) && Held(parent)
      modifies this
      ensures Valid() && Extends(old(t), t) && IsChild(t, c, parent, name)
      ensures Live(t, c) ==> Held(c) && Moved(old(refs), refs, {}, {c}) && t.nodes[c].inode == t.fs(parent, name)
      ensures !Live(t, c) ==> Held(parent) && refs == old(refs) && t.fs(parent, name).None?
    {
      hide WellFormed, Direct, Balanced, Extends, Moved, Honest, Zero;
      c := CachedChild(parent, name);
      if Live(t, c) {
        RefOne(c);
      } else {
        var inode := t.fs(parent, name);
        if inode.None? {
          HeldStays(old(t), t, refs, parent);
          return;
        }
        ghost var before := t;
        FillKeeps(t, c, inode.value);
        FillHonest(t, c, inode.value, refs);
        t := WithNode(t, c, t.nodes[c].(inode := inode));
        ExtendsTrans(old(t), before, t);
        RefOne(c);
      }
      HonestChild(t, c);
      ChildChain(t, c);
      ParentStillThere(old(t), t, parent);
      MovedGrows(old(refs), refs, Chain(t, parent), {c});
      Carry(old(t), old(refs), t, refs, Some(parent), Some(c));
    }

    /** The cached child, or a new negative one. */
    method CachedChild(parent: nat, name: string) returns (c: nat)
      requires Valid() && Live(t, parent)
      modifies this`t
      ensures Valid() && Extends(old(t), t) && IsChild(t, c, parent, name)
    {
      hide WellFormed, Balanced, Extends;
      var found := FindChild(parent, name);
      ExtendsItself(t);
      if found.Some? { return found.value; }
      c := t.next;
      CreateKeeps(t, parent, name);
      t := WithNew(t, Dentry(Some(name), Some(parent), None, t.nodes[parent].depth + 1));
      FreshZero(old(t), refs);
      BalancedStays(old(t), t, refs);
    }

    // -------------------------------------------------------------- walking

    /** `..`: from a held entry to its parent.  A covered parent trips an assertion. */
    method Up(p: nat) returns (q: Option<nat>)
      requires Valid() && Live(t, p) && p != t.root && Held(p)
      modifies this`refs
      ensures Valid()
      ensures q.Some? ==> Live(t, q.value) && Held(q.value) && Moved(old(refs), refs, Chain(t, p), Chain(t, q.value))
      ensures StepUp(t, p) == if q.Some? then Ok(q.value) else Panic
    {
      hide WellFormed, Direct, Balanced, Moved, Own, Chain;
      OwnApart(t, p);
      ChainStep(t, p);
      var parent := t.nodes[p].parent.value;
      UnrefOne(p);
      MovedShrinks(old(refs), refs, Chain(t, parent), Own(t, p));
      assert Chain(t, parent) + Own(t, p) == Chain(t, p);
      if IsMountpoint(t, parent) && parent != t.root { return None; }
      return Some(parent);
    }

    /** From a live child to what it shows: the root mounted on it, if any. */
    method Cross(c: nat) returns (q: nat)
      requires Valid() && Live(t, c) && t.nodes[c].name.Some? && Held(c)
      modifies this`refs
      ensures Valid() && Live(t, q) && q == Across(t, c) && Held(q)
      ensures Moved(old(refs), refs, Chain(t, c), Chain(t, q))
    {
      hide WellFormed, Direct, Balanced, Moved, Own, Chain;
      q := c;
      MovedNothing(refs, Chain(t, c));
      if IsMountpoint(t, c) {
        NamedIsNotRoot(t, c);
        MountChain(t, c);
        q := t.mounts[c];
        RefOne(q);
        MovedGrows(old(refs), refs, Chain(t, c), {q});
        ExtendsItself(t);
        Carry(t, old(refs), t, refs, Some(c), Some(q));
      }
    }

    /** A named segment in the middle of a path. */
    method Down(p: nat, name: string) returns (r: Result)
      requires Valid() && Live(t, p) && Held(p)
      modifies this
      ensures Valid() && Extends(old(t), t) && !r.Uncached?
      ensures r == Answer(StepDown(t, p, name), old(t), old(refs))
      ensures r.Ok? ==> Live(t, r.d) && Held(r.d) && Moved(old(refs), refs, Chain(old(t), p), Chain(t, r.d))
      ensures r.Err? ==> Moved(old(refs), refs, Chain(old(t), p), {})
    {
      hide WellFormed, Direct, Balanced, Extends, Moved, Own, Chain, Honest, Zero, Expected;
      var c := GetChild(p, name);
      ParentStillThere(old(t), t, p);
      MovedNothing(refs, {});
      if !Live(t, c) {
        ghost var before := t;
        var ok := TryRelease(c);
        ExtendsTrans(old(t), before, t);
        BlockedBefore(old(t), old(refs), before, refs, {});
        BlockedHere(before, refs, p, name, c);
        NoLiveChild(before, t, p, name, c);
        SameFs(before, t);
        if !ok { return Panic; }
        ParentStillThere(old(t), t, p);
        HeldStays(before, t, refs, p);
        DirectIsRef(t, refs, p);
        var done := Unref(p);
        return Err(ENOENT);
      }
      ChildChain(t, c);
      ChildIs(t, p, name, c);
      MovedGrows(old(refs), refs, Chain(t, p), {c});
      ghost var between := refs;
      var q := Cross(c);
      MovedTrans(old(refs), between, refs, Chain(t, p), Chain(t, c), Chain(t, q));
      return Ok(q);
    }

    /**
      `dentry_lookup_parent`: the directory of a path, with its whole chain
      referenced, and the last segment (with its trailing slash, if any).
     */
    method LookupParent(base: nat, path: string, links: nat) returns (r: Result, last: Option<string>)
      requires Valid() && Live(t, base)
      modifies this
      ensures Valid() && Extends(old(t), t) && !r.Uncached?
      ensures r.Ok? ==> Live(t, r.d) && Held(r.d) && Moved(old(refs), refs, {}, Chain(t, r.d))
      ensures r.Err? ==> Moved(old(refs), refs, {}, {}) && r.e != EEXIST
      ensures last == (if r.Ok? then LastSegmentOf(path) else None)
      ensures r == Answer(ParentOf(t, base, path, links), old(t), old(refs))
      decreases links, 1
    {
      hide WellFormed, Moved, Counted, Segments, Chain, Balanced, Direct, Extends, Honest, Zero, Blocked;
      var p := StartAt(if IsAbsolute(path) then t.root else base);
      ghost var start := p;
      ExtendsItself(t);
      last := None;
      var segs := Segments(path);
      if segs == [] { return Ok(p), None; }
      var i := 0;
      assert segs[..0] == [];
      while i < |segs| - 1
        invariant 0 <= i <= |segs| - 1
        invariant Live(t, start) && Walk(t, start, segs[..i]) == Ok(p)
        invariant start == Across(t, if IsAbsolute(path) then t.root else base)
        invariant Valid() && Extends(old(t), t) && Live(t, p) && Held(p)
        invariant Moved(old(refs), refs, {}, Chain(t, p))
      {
        ghost var held := refs;
        ghost var tree := t;
        Prefixes(segs, i);
        if segs[i] == "." {
        } else if segs[i] == ".." {
          if p != t.root {
            var q := Up(p);
            if q.None? {
              WalkFails(t, start, segs, i);
              return Panic, None;
            }
            MovedTrans(old(refs), held, refs, {}, Chain(t, p), Chain(t, q.value));
            p := q.value;
          }
        } else {
          var q := Down(p, segs[i]);
          ExtendsTrans(old(t), tree, t);
          WalkStays(tree, t, start, segs[..i]);
          SameMounts(tree, t, start);
          if q.Err? { MovedTrans(old(refs), held, refs, {}, Chain(tree, p), {}); }
          if !q.Ok? {
            BlockedBeforeChain(old(t), old(refs), tree, held, p);
            WalkFails(t, start, segs, i);
            return q, None;
          }
          MovedTrans(old(refs), held, refs, {}, Chain(tree, p), Chain(t, q.d));
          p := q.d;
        }
        i := i + 1;
      }
      if t.nodes[p].inode.value.Symlink? {
        ghost var tree := t;
        BlockedBeforeChain(old(t), old(refs), t, refs, p);
        r := ThroughLink(p, links, old(refs));
        ExtendsTrans(old(t), tree, t);
        WalkStays(tree, t, start, segs[..i]);
        SameMounts(tree, t, start);
        LiveStays(tree, t, p);
        if !r.Ok? { return r, None; }
        p := r.d;
      }
      return Ok(p), Some(segs[i] + (if EndsWithSlash(path) then "/" else ""));
    }

    /** Where a lookup starts: the root mounted on the given directory, if any. */
    method StartAt(d: nat) returns (p: nat)
      requires Valid() && (d == t.root || Live(t, d))
      modifies this`refs
      ensures Valid() && Live(t, p) && p == Across(t, d) && Held(p)
      ensures Moved(old(refs), refs, {}, Chain(t, p))
    {
      hide Moved, Balanced, Direct, Chain;
      p := d;
      if IsMountpoint(t, d) {
        if d != t.root { MountChain(t, d); }
        p := t.mounts[d];
      }
      RefUpToRoot(p);
    }

    /** The directory part of a path ends in a symbolic link: go on where it leads. */
    method ThroughLink(p: nat, links: nat, ghost before: map<nat, nat>) returns (r: Result)
      requires Valid() && Live(t, p) && t.nodes[p].inode.value.Symlink? && Held(p)
      requires Moved(before, refs, {}, Chain(t, p))
      modifies this
      ensures Valid() && Extends(old(t), t) && !r.Uncached?
      ensures r.Ok? ==> Live(t, r.d) && Held(r.d) && Moved(before, refs, {}, Chain(t, r.d))
      ensures r.Err? ==> Moved(before, refs, {}, {}) && r.e != EEXIST
      ensures r == Answer(Follow(t, p, DIRECTORY, links), old(t), old(refs))
      decreases links, 0, 1
    {
      hide WellFormed, Moved, Chain, Balanced, Direct, Extends, Honest, Zero, Blocked, Follow;
      ghost var held := refs;
      r := FollowSymlink(p, DIRECTORY, links);
      if r.Panic? || r.Unfinished? { return; }
      ghost var followed := refs;
      ghost var to: Option<nat> := if r.Ok? then Some(r.d) else None;
      KeepsHold(old(t), held, t, refs, to, p);
      DirectIsRef(t, refs, p);
      var ok := Unref(p);
      MovedAway(before, held, followed, refs, Chain(t, p), Covered(t, to));
      if r.Ok? { StillHeld(t, followed, refs, p, r.d, held); }
    }

    /** `dentry_resolve_follow_symlink` */
    method FollowSymlink(d: nat, flags: Resolve, links: nat) returns (r: Result)
      requires Valid() && Live(t, d) && t.nodes[d].inode.value.Symlink?
      requires flags.expectNonexist ==> flags.expectExist
      modifies this
      ensures Valid() && Extends(old(t), t) && !r.Uncached?
      ensures r.Ok? ==> r.d in t.nodes && Held(r.d) && Moved(old(refs), refs, {}, Chain(t, r.d))
      ensures r.Ok? && !flags.expectNonexist ==> Live(t, r.d)
      ensures r.Err? ==> Moved(old(refs), refs, {}, {}) && r.e != EEXIST
      ensures r == Answer(Follow(t, d, flags, links), old(t), old(refs))
      decreases links, 0, 0
    {
      hide WellFormed, Chain, Target, Balanced, Direct, Extends, Honest, Zero, Moved;
      LinkFacts(t, d);
      ExtendsItself(t);
      MovedNothing(refs, {});
      var target := t.nodes[d].inode.value.target;
      if target == "" { return Err(ENOENT); }
      if |target| >= PATH_MAX { return Err(ENAMETOOLONG); }
      if links == 0 { return Unfinished; }
      r := ResolveTarget(t.nodes[d].parent.value, target, flags, links - 1);
      LiveStays(old(t), t, d);
    }

    method ResolveTarget(base: nat, target: string, flags: Resolve, links: nat) returns (r: Result)
      requires Valid() && Live(t, base)
      requires flags.expectNonexist ==> flags.expectExist
      modifies this
      ensures Valid() && Extends(old(t), t) && !r.Uncached?
      ensures r.Ok? ==> r.d in t.nodes && Held(r.d) && Moved(old(refs), refs, {}, Chain(t, r.d))
      ensures r.Ok? && !flags.expectNonexist ==> Live(t, r.d)
      ensures r.Err? ==> Moved(old(refs), refs, {}, {}) && r.e != EEXIST
      ensures r == Answer(Target(t, base, target, flags, links), old(t), old(refs))
      decreases links, 4
    {
      hide WellFormed, Moved, Chain, ParentOf, Last, LastSegmentOf, Balanced, Direct, Extends, Honest, Zero, Blocked,
          GaveBack, Caught;
      var p, last := LookupParent(base, target, links);
      SameMounts(old(t), t, base);
      if !p.Ok? { return p; }
      if last.None? { return Panic; }
      ghost var tree := t;
      ParentOpen(t, base, target, links);
      r := Finish(p.d, last.value, flags, links, old(t), old(refs));
      ParentStays(tree, t, base, target, links);
    }

    /** What `dentry_get` and `dentry_resolve_follow_symlink` do with the last segment. */
    method Finish(p: nat, leaf: string, flags: Resolve, links: nat, ghost tree: Tree, ghost before: map<nat, nat>)
      returns (r: Result)
      requires Valid() && Live(t, p) && Held(p) && Open(t, p)
      requires WellFormed(tree) && Extends(tree, t) && Zero(tree, before) && Balanced(tree, before)
      requires Moved(before, refs, {}, Chain(t, p))
      modifies this
      ensures Sound() && Extends(tree, t) && Extends(old(t), t) && !r.Uncached? && (!r.Panic? ==> Valid())
      ensures r.Ok? ==> r.d in t.nodes && Held(r.d) && Moved(before, refs, {}, Chain(t, r.d))
      ensures r.Ok? && !flags.expectNonexist ==> Live(t, r.d)
      ensures r.Err? && r.e != EEXIST ==> Moved(before, refs, {}, {})
      ensures r == Err(EEXIST) ==>
                flags.expectNonexist && !flags.expectExist && Live(t, p) && GaveBack(t, before, refs, p)
      ensures Ends(r, Last(t, p, leaf, flags, links), tree, before, p)
      ensures (flags.expectNonexist ==> flags.expectExist) ==>
                Valid() && r == Answer(Last(t, p, leaf, flags, links), tree, before)
      decreases links, 3
    {
      hide WellFormed, Moved, Chain, Balanced, Direct, Extends, Honest, Zero, Blocked, Last, Expected;
      ghost var held := refs;
      BlockedBeforeChain(tree, before, t, refs, p);
      var symlink;
      r, symlink := LastSegment(p, leaf, flags, links);
      ExtendsTrans(tree, old(t), t);
      ParentStillThere(old(t), t, p);
      SameMounts(old(t), t, p);
      if r.Panic? || r.Unfinished? { return; }
      if r.Ok? && !symlink {
        MovedTrans(before, held, refs, {}, Chain(t, p), Chain(t, r.d));
        return;
      }
      ghost var between := refs;
      if r == Err(EEXIST) {
        MovedTrans(before, held, refs, {}, Chain(t, p), {});
        SameBefore(tree, before, t, refs, p);
        var ok := Unref(p);
        ReturnedTwice(before, between, refs, p, if Ref(before, p) == 0 then {} else Chain(t, p));
        if !ok { return Panic; }
        return;
      }
      ghost var to: Option<nat> := if r.Ok? then Some(r.d) else None;
      KeepsHold(old(t), held, t, refs, to, p);
      DirectIsRef(t, refs, p);
      var ok := Unref(p);
      MovedAway(before, held, between, refs, Chain(t, p), Covered(t, to));
      if r.Ok? { StillHeld(t, between, refs, p, r.d, held); }
    }

    /** `dentry_resolve_handle_last_segment` */
    method LastSegment(p: nat, leaf: string, flags: Resolve, links: nat) returns (r: Result, symlink: bool)
      requires Valid() && Live(t, p) && Held(p)
      modifies this
      ensures Valid() && Extends(old(t), t) && !r.Uncached?
      ensures r.Ok? ==> r.d in t.nodes && Held(r.d)
      ensures r.Ok? ==> Moved(old(refs), refs, if symlink then {} else Chain(old(t), p), Chain(t, r.d))
      ensures r.Ok? && !flags.expectNonexist ==> Live(t, r.d)
      ensures r.Err? && r.e != EEXIST ==> Moved(old(refs), refs, {}, {})
      ensures r == Err(EEXIST) ==>
                flags.expectNonexist && !flags.expectExist && Moved(old(refs), refs, Chain(old(t), p), {})
      ensures r == Answer(Last(t, p, leaf, flags, links), old(t), old(refs))
      decreases links, 2
    {
      hide WellFormed, Chain, Moved, Balanced, Direct, Extends, Honest, Zero, Blocked, LastNamed;
      ExtendsItself(t);
      MovedNothing(refs, {});
      MovedNothing(refs, Chain(t, p));
      symlink := false;
      var slash := EndsWithSlash(leaf);
      var name := if slash then leaf[..|leaf| - 1] else leaf;
      if slash && !flags.expectDir { return Err(EINVAL), false; }
      if name == "." { return Ok(p), false; }
      if name == ".." {
        if p == t.root { return Ok(p), false; }
        var q := Up(p);
        return if q.Some? then Ok(q.value) else Panic, false;
      }
      r, symlink := NamedSegment(p, name, flags, links);
    }

    /** The last segment is a name. */
    method NamedSegment(p: nat, name: string, flags: Resolve, links: nat) returns (r: Result, symlink: bool)
      requires Valid() && Live(t, p) && Held(p) && name != "." && name != ".."
      modifies this
      ensures Valid() && Extends(old(t), t) && !r.Uncached?
      ensures r.Ok? ==> r.d in t.nodes && Held(r.d)
      ensures r.Ok? ==> Moved(old(refs), refs, if symlink then {} else Chain(old(t), p), Chain(t, r.d))
      ensures r.Ok? && !flags.expectNonexist ==> Live(t, r.d)
      ensures r.Err? && r.e != EEXIST ==> Moved(old(refs), refs, {}, {})
      ensures r == Err(EEXIST) ==>
                flags.expectNonexist && !flags.expectExist && Moved(old(refs), refs, Chain(old(t), p), {})
      ensures r == Answer(LastNamed(t, p, name, flags, links), old(t), old(refs))
      decreases links, 2, 0
    {
      hide WellFormed, Moved, Chain, Balanced, Direct, Extends, Honest, Zero, Blocked, Found;
      var c := GetChild(p, name);
      ParentStillThere(old(t), t, p);
      ChildChain(t, c);
      ChildIs(t, p, name, c);
      MovedNothing(refs, {});
      symlink := false;
      if !Live(t, c) {
        if flags.expectNonexist {
          refs := refs[c := Ref(refs, c) + 1];
          CountedOnce(old(refs), refs, c, t);
          MovedGrows(old(refs), refs, Chain(t, p), {c});
          Carry(old(t), old(refs), t, refs, Some(p), Some(c));
          return Ok(c), false;
        }
        ghost var before := t;
        var ok := TryRelease(c);
        ExtendsTrans(old(t), before, t);
        SameFs(before, t);
        NoLiveChild(before, t, p, name, c);
        BlockedHere(before, refs, p, name, c);
        BlockedBefore(old(t), old(refs), before, refs, {});
        return if ok then Err(ENOENT) else Panic, false;
      }
      ghost var tree := t;
      BlockedBefore(old(t), old(refs), t, refs, {c});
      r, symlink := LiveChild(p, c, flags, links, old(t), old(refs));
      ChildStays(tree, t, p, name);
    }

    /** The last segment exists: check it against what was asked for. */
    method LiveChild(p: nat, c: nat, flags: Resolve, links: nat, ghost tree: Tree, ghost before: map<nat, nat>)
      returns (r: Result, symlink: bool)
      requires Valid() && Live(t, p) && Live(t, c) && t.nodes[c].name.Some? && t.nodes[c].parent == Some(p) && Held(c)
      requires WellFormed(tree) && Extends(tree, t) && Live(tree, p) && Chain(tree, p) == Chain(t, p)
      requires Moved(before, refs, {}, {c})
      modifies this
      ensures Valid() && Extends(tree, t) && Extends(old(t), t) && !r.Uncached?
      ensures r.Ok? ==> r.d in t.nodes && Held(r.d)
      ensures r.Ok? ==> Moved(before, refs, if symlink then {} else Chain(tree, p), Chain(t, r.d))
      ensures r.Ok? && !flags.expectNonexist ==> Live(t, r.d)
      ensures r.Err? && r.e != EEXIST ==> Moved(before, refs, {}, {})
      ensures r == Err(EEXIST) ==>
                flags.expectNonexist && !flags.expectExist && Moved(before, refs, Chain(tree, p), {})
      ensures Live(t, c) && r == Answer(Found(t, c, flags, links), old(t), old(refs))
      decreases links, 1
    {
      hide WellFormed, Moved, Balanced, Direct, Extends, Honest, Zero, Blocked, Expected, Follow;
      ExtendsItself(t);
      symlink := false;
      NamedIsNotRoot(t, c);
      ChildChain(t, c);
      ghost var held := refs;
      MovedGrows(before, refs, Chain(t, p), {c});
      if flags.expectNonexist && !flags.expectExist {
        DirectIsRef(t, refs, c);
        var ok := Unref(c);
        MovedTrans(before, held, refs, Chain(tree, p), Chain(old(t), c), {});
        return Err(EEXIST), false;
      }
      if t.nodes[c].inode.value.Symlink? {
        if flags.nofollow { return Ok(c), false; }
        r := LinkChild(c, flags, links, before);
        ExtendsTrans(tree, old(t), t);
        LiveStays(old(t), t, c);
        return r, true;
      }
      if t.nodes[c].inode.value.Directory? {
        if !flags.expectDir {
          UnrefOne(c);
          MovedTrans(before, held, refs, {}, {c}, {});
          return Err(EISDIR), false;
        }
        var q := Cross(c);
        MovedTrans(before, held, refs, Chain(tree, p), Chain(t, c), Chain(t, q));
        return Ok(q), false;
      }
      if !flags.expectFile {
        UnrefOne(c);
        MovedTrans(before, held, refs, {}, {c}, {});
        return Err(ENOTDIR), false;
      }
      return Ok(c), false;
    }

    /** The last segment is a symbolic link to follow; the link itself is let go. */
    method LinkChild(c: nat, flags: Resolve, links: nat, ghost before: map<nat, nat>) returns (r: Result)
      requires Valid() && Live(t, c) && t.nodes[c].name.Some? && t.nodes[c].inode.value.Symlink? && Held(c)
      requires flags.expectNonexist ==> flags.expectExist
      requires Moved(before, refs, {}, {c})
      modifies this
      ensures Valid() && Extends(old(t), t) && !r.Uncached?
      ensures r.Ok? ==> r.d in t.nodes && Held(r.d) && Moved(before, refs, {}, Chain(t, r.d))
      ensures r.Ok? && !flags.expectNonexist ==> Live(t, r.d)
      ensures r.Err? ==> Moved(before, refs, {}, {}) && r.e != EEXIST
      ensures r == Answer(Follow(t, c, flags, links), old(t), old(refs))
      decreases links, 0, 1
    {
      hide WellFormed, Moved, Chain, Balanced, Direct, Extends, Honest, Zero, Blocked, Follow;
      ghost var held := refs;
      r := FollowSymlink(c, flags, links);
      if r.Panic? || r.Unfinished? { return; }
      ghost var followed := refs;
      ghost var to: Option<nat> := if r.Ok? then Some(r.d) else None;
      KeepsHold(old(t), held, t, refs, to, c);
      LiveStays(old(t), t, c);
      NamedIsNotRoot(t, c);
      UnrefOne(c);
      MovedAway(before, held, followed, refs, {c}, Covered(t, to));
      if r.Ok? { OneStillHeld(t, followed, refs, c, r.d, held); }
    }

    /**
      `dentry_get`: a result gains exactly one reference on each entry up to the
      root, counting both sides of every mount it crosses.  Every failure but
      EEXIST leaves all counts alone; EEXIST gives back the directory's chain
      once too often, which panics when the directory is only referenced
      through what lies below it.
     */
    method Get(start: nat, path: string, flags: Resolve, links: nat) returns (r: Result)
      requires Valid() && Live(t, start)
      modifies this
      ensures Sound() && Extends(old(t), t) && !r.Uncached? && (!r.Panic? ==> Valid())
      ensures r.Ok? ==> r.d in t.nodes && Held(r.d) && Moved(old(refs), refs, {}, Chain(t, r.d))
      ensures r.Ok? && !flags.expectNonexist ==> Live(t, r.d)
      ensures r.Err? && r.e != EEXIST ==> Moved(old(refs), refs, {}, {})
      ensures r == Err(EEXIST) ==>
                && flags.expectNonexist && !flags.expectExist && Live(t, DirOf(t, start, path, links))
                && GaveBack(t, old(refs), refs, DirOf(t, start, path, links))
      ensures Ends(r, Meaning(t, start, path, flags, links), old(t), old(refs), DirOf(t, start, path, links))
    {
      hide WellFormed, Moved, Chain, Balanced, Direct, Extends, Honest, Zero, Blocked, GaveBack, Caught, ParentOf,
          Last, LastSegmentOf;
      var p, last := LookupParent(start, path, links);
      SameMounts(old(t), t, start);
      if !p.Ok? { return p; }
      if last.None? {
        if p.d != start { return Panic; }
        if !flags.expectDir {
          ghost var held := refs;
          DirectIsRef(t, refs, p.d);
          var ok := Unref(p.d);
          MovedTrans(old(refs), held, refs, {}, Chain(t, p.d), {});
          return Err(EISDIR);
        }
        return Ok(p.d);
      }
      ghost var tree := t;
      ParentOpen(t, start, path, links);
      r := Finish(p.d, last.value, flags, links, old(t), old(refs));
      ParentStays(tree, t, start, path, links);
    }
  }

  // ---------------------------------------------------------------- facts for the methods

  lemma DroppedZero(t: Tree, refs: map<nat, nat>, d: nat)
    requires WellFormed(t) && d in t.nodes && Counted(refs, Own(t, d)) && Zero(t, refs)
    ensures Zero(t, MinusOne(t, refs, d))
  {
    if MountedRoot(t, d) { MountedRootFacts(t, d); }
  }

  lemma NotInChain(t: Tree, d: nat, e: nat)
    requires WellFormed(t) && d in t.nodes && e !in Chain(t, d)
    ensures e != d && e !in Own(t, d)
    ensures d != t.root ==>
              NodeOk(t, d) && var p := t.nodes[d].parent.value; e !in Chain(t, p) && e != p && IsParent(t, p, d)
  {
    if d != t.root {
      assert NodeOk(t, d);
      var p := t.nodes[d].parent.value;
      assert p in Chain(t, p);
    }
  }

  lemma OwnHeld(t: Tree, refs: map<nat, nat>, d: nat, e: nat)
    requires WellFormed(t) && d in t.nodes && Direct(t, refs, d) > 0 && BalancedBut(t, refs, e) && e !in Own(t, d)
    ensures Counted(refs, Own(t, d))
  {
    if MountedRoot(t, d) { MountedRootFacts(t, d); }
    OwnCounted(t, refs, d);
  }

  lemma PassesCheck(t: Tree, refs: map<nat, nat>, d: nat, e: nat)
    requires WellFormed(t) && d in t.nodes && d != e && BalancedBut(t, refs, e) &&
             (e in t.nodes ==> t.nodes[e].name.Some?)
    ensures Ref(refs, d) >= Expected(t, refs, d)
  {
    hide WellFormed, Expected, Need;
    ExpectedAtMostNeed(t, refs, d, e);
  }

  lemma UnrefStarts(t: Tree, refs: map<nat, nat>, d: nat, e: nat)
    requires WellFormed(t) && d in t.nodes && Balanced(t, refs) && Ref(refs, d) > 0
    requires e == if Direct(t, refs, d) > 0 then t.next else d
    ensures Counted(refs, Own(t, d)) && BalancedBut(t, refs, e) && (d == e || Direct(t, refs, d) > 0)
  {
    if MountedRoot(t, d) { MountedRootFacts(t, d); }
    OwnCounted(t, refs, d);
  }

  /** What the check finds after an entry was given up. */
  lemma CheckAfter(t: Tree, r: map<nat, nat>, s: map<nat, nat>, d: nat)
    requires WellFormed(t) && d in t.nodes && Ref(r, d) > 0 && Moved(r, s, Own(t, d), {})
    ensures Expected(t, s, d) == Expected(t, r, d) && Ref(s, d) == Ref(r, d) - 1
  {
    MovedBack(r, s, Own(t, d));
    KidsStep(t, s, r, d, d);
    NotOwnParent(t, d);
  }

  /** If the check passes although no direct reference is left, a mount covers the entry. */
  lemma ParentExempt(t: Tree, refs: map<nat, nat>, d: nat, e: nat)
    requires WellFormed(t) && d in t.nodes && d != t.root && Balanced(t, refs)
    requires e == if Direct(t, refs, d) > 0 then t.next else d
    requires Expected(t, refs, d) < Ref(refs, d)
    ensures NodeOk(t, d) && e !in Chain(t, t.nodes[d].parent.value) && (e in t.nodes ==> t.nodes[e].name.Some?)
    ensures e != t.nodes[d].parent.value && IsParent(t, t.nodes[d].parent.value, d)
  {
    OwnApart(t, d);
    assert NodeOk(t, d);
    if e == d {
      if Open(t, d) { ExpectedIsNeed(t, refs, d); }
      assert !Open(t, d);
      assert MountOk(t, d);
    } else if e in Chain(t, t.nodes[d].parent.value) {
      ChainBelow(t, t.nodes[d].parent.value, e);
    }
  }

  lemma AllButNext(t: Tree, refs: map<nat, nat>)
    requires WellFormed(t)
    ensures Balanced(t, refs) <==> BalancedBut(t, refs, t.next)
    ensures t.next !in t.nodes && forall d :: d in t.nodes ==> t.next !in Own(t, d)
  {
    forall d | d in t.nodes ensures t.next !in Own(t, d) { if MountedRoot(t, d) { MountedRootFacts(t, d); } }
  }

  lemma ParentIs(t: Tree, d: nat)
    requires WellFormed(t) && d in t.nodes && d != t.root
    ensures NodeOk(t, d) && t.nodes[d].parent.value != t.next && IsParent(t, t.nodes[d].parent.value, d)
  {
    assert NodeOk(t, d);
  }

  lemma HeldStays(t: Tree, u: Tree, refs: map<nat, nat>, d: nat)
    requires WellFormed(t) && WellFormed(u) && Extends(t, u) && Zero(t, refs) && Zero(u, refs) && Live(t, d)
    ensures Live(u, d) && Direct(u, refs, d) == Direct(t, refs, d)
  {
    DirectStays(t, u, refs, d);
  }

  lemma ParentStillThere(t: Tree, u: Tree, p: nat)
    requires WellFormed(t) && WellFormed(u) && Extends(t, u) && Live(t, p)
    ensures Live(u, p) && Chain(t, p) == Chain(u, p)
  {
    ChainStays(t, u, p);
  }

  lemma FillHonest(t: Tree, c: nat, inode: Inode, refs: map<nat, nat>)
    requires Honest(t) && c in t.nodes && t.nodes[c].inode.None?
    requires t.nodes[c].parent.Some? && t.nodes[c].name.Some?
    requires t.fs(t.nodes[c].parent.value, t.nodes[c].name.value) == Some(inode)
    ensures Honest(WithNode(t, c, t.nodes[c].(inode := Some(inode))))
    ensures Zero(t, refs) ==> Zero(WithNode(t, c, t.nodes[c].(inode := Some(inode))), refs)
  {
  }

  lemma HonestChild(t: Tree, c: nat)
    requires Honest(t) && Live(t, c) && t.nodes[c].parent.Some? && t.nodes[c].name.Some?
    ensures t.nodes[c].inode == t.fs(t.nodes[c].parent.value, t.nodes[c].name.value)
  {
  }

  lemma FreshZero(t: Tree, refs: map<nat, nat>)
    requires WellFormed(t) && Zero(t, refs)
    ensures Ref(refs, t.next) == 0
  {
  }

  lemma NamedIsNotRoot(t: Tree, c: nat)
    requires WellFormed(t) && c in t.nodes && t.nodes[c].name.Some?
    ensures c != t.root
  {
  }

  lemma BlockedHere(t: Tree, refs: map<nat, nat>, p: nat, name: string, c: nat)
    requires WellFormed(t) && IsChild(t, c, p, name) && t.fs(p, name).None?
    ensures Blocked(t, refs, p, name) <==> Ref(refs, c) > 0
  {
    forall d | IsChild(t, d, p, name) ensures d == c { assert SameSlot(t.nodes[d], t.nodes[c]); }
  }

  lemma SameFs(t: Tree, u: Tree)
    requires Extends(t, u)
    ensures u.fs == t.fs
  {
  }

  lemma DirectIsRef(t: Tree, refs: map<nat, nat>, d: nat)
    requires d in t.nodes && Direct(t, refs, d) > 0
    ensures Ref(refs, d) > 0
  {
  }

  /** The directory part of a path, where there is one. */
  ghost function DirOf(t: Tree, start: nat, path: string, links: nat): nat {
    var p := ParentOf(t, start, path, links);
    if p.Ok? then p.d else t.root
  }

  lemma Prefixes(segs: seq<string>, i: nat)
    requires i < |segs|
    ensures segs[..i + 1][..i] == segs[..i] && segs[..i + 1][i] == segs[i]
  {
  }

  lemma SameMounts(t: Tree, u: Tree, d: nat)
    requires Extends(t, u)
    ensures u.root == t.root && u.mounts == t.mounts && (Live(t, d) ==> Live(u, d))
  {
  }

  /** References taken elsewhere do not take away a direct one. */
  lemma KeepsHold(t: Tree, r: map<nat, nat>, u: Tree, s: map<nat, nat>, to: Option<nat>, p: nat)
    requires WellFormed(t) && WellFormed(u) && Extends(t, u) && Zero(t, r) && Zero(u, s) && Balanced(t, r)
    requires (to.Some? ==> to.value in u.nodes) && Moved(r, s, {}, Covered(u, to))
    requires Live(t, p) && Direct(t, r, p) > 0
    ensures Live(u, p) && Direct(u, s, p) > 0 && Chain(u, p) == Chain(t, p)
    ensures Zero(u, r) && Balanced(u, r) && Direct(u, r, p) > 0
  {
    hide WellFormed, Moved, Chain, Balanced, Direct, Extends, Zero;
    assert Covered(u, None) == {};
    Carry(t, r, u, s, None, to);
    HeldStays(t, u, r, p);
    ParentStillThere(t, u, p);
    MovedDirect(u, r, s, None, to, p);
  }

  /** Of two direct references, giving one back leaves the other. */
  lemma StillHeld(t: Tree, r: map<nat, nat>, s: map<nat, nat>, p: nat, d: nat, first: map<nat, nat>)
    requires WellFormed(t) && p in t.nodes && d in t.nodes && Balanced(t, first) && Direct(t, first, p) > 0
    requires Moved(first, r, {}, Chain(t, d)) && Moved(r, s, Chain(t, p), {})
    ensures Direct(t, s, d) > 0
  {
    hide WellFormed, Moved, Chain, Direct;
    assert Covered(t, Some(p)) == Chain(t, p) && Covered(t, None) == {} && Covered(t, Some(d)) == Chain(t, d);
    MovedDirect(t, first, r, None, Some(d), d);
    MovedDirect(t, r, s, Some(p), None, d);
  }

  lemma OneStillHeld(t: Tree, r: map<nat, nat>, s: map<nat, nat>, c: nat, d: nat, first: map<nat, nat>)
    requires WellFormed(t) && c in t.nodes && d in t.nodes && Balanced(t, first) && Direct(t, first, c) > 0
    requires Moved(first, r, {}, Chain(t, d)) && Moved(r, s, Own(t, c), {})
    ensures Direct(t, s, d) > 0
  {
    hide Moved, Chain, Direct;
    assert Covered(t, None) == {} && Covered(t, Some(d)) == Chain(t, d);
    MovedDirect(t, first, r, None, Some(d), d);
    MovedBack(r, s, Own(t, c));
    OwnDirect(t, s, r, c, d);
  }

  lemma CountedOnce(r: map<nat, nat>, s: map<nat, nat>, c: nat, t: Tree)
    requires s == r[c := Ref(r, c) + 1] && c in t.nodes && Zero(t, r)
    ensures Moved(r, s, {}, {c}) && Zero(t, s)
  {
  }

  /** With the same counts, in a later tree, an entry has the same direct references. */
  lemma SameBefore(tree: Tree, before: map<nat, nat>, t: Tree, refs: map<nat, nat>, p: nat)
    requires WellFormed(tree) && WellFormed(t) && Extends(tree, t) && Zero(tree, before) && Zero(t, refs)
    requires Moved(before, refs, {}, {}) && Live(t, p) && Open(t, p) && Balanced(t, refs)
    ensures Ref(refs, p) == Ref(before, p) && Expected(t, refs, p) == Ref(refs, p) - Direct(t, refs, p)
    ensures Direct(t, refs, p) >= 0
    ensures Caught(tree, before, p) <==> Ref(refs, p) > 0 && Direct(t, refs, p) == 0
  {
    ExpectedIsNeed(t, refs, p);
    SameDirect(t, before, refs, p);
    assert Zero(t, before);
    DirectStays(tree, t, before, p);
  }

  lemma ReturnedTwice(before: map<nat, nat>, between: map<nat, nat>, after: map<nat, nat>, p: nat, ids: set<nat>)
    requires Moved(before, between, {}, {})
    ensures Moved(between, after, ids, {}) ==> Moved(before, after, ids, {})
    ensures Ref(between, p) == Ref(before, p)
  {
  }

  // ---------------------------------------------------------------- a name that exists

  /** The file `/t/x` of a file system with nothing else in it, cached. */
  function OneFile(): Tree {
    Tree(map[0 := Dentry(None, None, Some(Directory), 0), 1 := Dentry(Some("t"), Some(0), Some(Directory), 1),
             2 := Dentry(Some("x"), Some(1), Some(File), 2)],
         0, map[0 := 0], map[],
         (d: nat, n: string) =>
           if d == 0 && n == "t" then Some(Directory) else if d == 1 && n == "x" then Some(File) else None, 3)
  }

  const CREATE: Resolve := Resolve(false, false, false, false, true)

  /**
    Creating `/t/x` while the file is open: nothing holds the directory itself,
    so the reference given back once too often is one the file needs, and the
    kernel panics.  If somebody also holds the directory, that reference is lost.
   */
  lemma CreatingWhatIsOpen(links: nat)
    ensures var t, open := OneFile(), map[0 := 2, 1 := 1, 2 := 1];
            && WellFormed(t) && Honest(t) && Zero(t, open) && Balanced(t, open) && Live(t, 0)
            && Meaning(t, 0, "/t/x", CREATE, links) == Err(EEXIST) && DirOf(t, 0, "/t/x", links) == 1
            && Caught(t, open, 1)
            && !Caught(t, map[0 := 3, 1 := 2, 2 := 1], 1) && !Caught(t, map[0 := 1], 1)
  {
    hide WellFormed, Honest, Direct, Meaning, DirOf, OneFile;
    SampleSound();
    SampleCounts(map[0 := 2, 1 := 1, 2 := 1]);
    SampleCounts(map[0 := 3, 1 := 2, 2 := 1]);
    SampleMeaning(links);
  }

  /**
    While somebody holds the entry of a path that was to be created and does not
    exist yet, every other lookup of that path panics.
   */
  lemma CreatingBlocks(t: Tree, refs: map<nat, nat>, start: nat, path: string, flags: Resolve, links: nat)
    requires WellFormed(t) && Live(t, start) && !flags.expectNonexist
    requires var r := Meaning(t, start, path, CREATE, links); r.Ok? && !Live(t, r.d) && Ref(refs, r.d) > 0
    ensures Answer(Meaning(t, start, path, flags, links), t, refs) == Panic
  {
    hide WellFormed, ParentOf, StepUp;
    ExtendsItself(t);
    ParentStays(t, t, start, path, links);
    var p := ParentOf(t, start, path, links).d;
    var leaf := LastSegmentOf(path).value;
    if leaf == ".." {
      StepStays(t, t, p, leaf);
    } else {
      assert LastNamed(t, p, leaf, CREATE, links) == Meaning(t, start, path, CREATE, links);
      var c := ChildOf(t, p, leaf);
      assert c.Some? && Live(t, c.value) ==> LastNamed(t, p, leaf, CREATE, links) == Err(EEXIST);
      assert LastNamed(t, p, leaf, flags, links) == Missing(p, leaf);
      assert Last(t, p, leaf, flags, links) == Missing(p, leaf);
    }
  }

  lemma SampleSound()
    ensures OneFile().nodes.Keys == {0, 1, 2} && WellFormed(OneFile()) && Honest(OneFile()) && Live(OneFile(), 0)
  {
    hide LinksOk, SlotsOk;
    SampleLinks();
    SampleSlots();
  }

  lemma SampleLinks()
    ensures LinksOk(OneFile())
  {
  }

  lemma SampleSlots()
    ensures SlotsOk(OneFile())
  {
  }

  lemma SampleWalk()
    ensures Walk(OneFile(), 0, ["t"]) == Ok(1) && ChildOf(OneFile(), 1, "x") == Some(2)
  {
    hide WellFormed;
    SampleSound();
    var t := OneFile();
    assert IsChild(t, 1, 0, "t") && IsChild(t, 2, 1, "x");
    ChildIs(t, 0, "t", 1);
    ChildIs(t, 1, "x", 2);
    assert ["t"][..0] == [];
    assert Walk(t, 0, []) == Ok(0);
  }

  lemma SampleMeaning(links: nat)
    ensures ParentOf(OneFile(), 0, "/t/x", links) == Ok(1) && DirOf(OneFile(), 0, "/t/x", links) == 1
    ensures Meaning(OneFile(), 0, "/t/x", CREATE, links) == Err(EEXIST)
  {
    hide Segments, Walk, ChildOf;
    SamplePath();
    SampleWalk();
    assert ["t", "x"][..1] == ["t"] && "x" + "" == "x";
    assert LastSegmentOf("/t/x") == Some("x");
    assert Found(OneFile(), 2, CREATE, links) == Err(EEXIST);
    assert LastNamed(OneFile(), 1, "x", CREATE, links) == Err(EEXIST);
    assert Last(OneFile(), 1, "x", CREATE, links) == Err(EEXIST);
  }

  lemma SamplePath()
    ensures Segments("/t/x") == ["t", "x"]
  {
    var p := "/t/x";
    assert p[1..] == "t/x" && "t/x"[1..] == "/x" && "/x"[1..] == "x" && "x"[1..] == "";
    assert "" + ['t'] == "t" && "" + ['x'] == "x";
    assert SegmentsFrom("x", "") == SegmentsFrom("", "x") == ["x"];
    assert SegmentsFrom("/x", "t") == ["t", "x"];
    assert SegmentsFrom("t/x", "") == SegmentsFrom("/x", "t");
  }

  lemma SampleCounts(refs: map<nat, nat>)
    ensures 0 in OneFile().nodes && Direct(OneFile(), refs, 0) == Ref(refs, 0) - 1 - Ref(refs, 1)
    ensures 1 in OneFile().nodes && Direct(OneFile(), refs, 1) == Ref(refs, 1) - Ref(refs, 2)
    ensures 2 in OneFile().nodes && Direct(OneFile(), refs, 2) == Ref(refs, 2)
  {
    hide Kids, Total, OneFile, MountNeed;
    SampleKids();
    SampleMounts(refs);
    TotalOfOne(refs, 1);
    TotalOfOne(refs, 2);
  }

  lemma SampleMounts(refs: map<nat, nat>)
    ensures 0 in OneFile().nodes && 1 in OneFile().nodes && 2 in OneFile().nodes
    ensures MountNeed(OneFile(), refs, 0) == 1
    ensures MountNeed(OneFile(), refs, 1) == MountNeed(OneFile(), refs, 2) == 0
  {
  }

  lemma TotalOfOne(refs: map<nat, nat>, x: nat)
    ensures Total({x}, refs) == Ref(refs, x) && Total({}, refs) == 0
  {
    TotalOf({x}, refs, x);
    assert {x} - {x} == {};
  }

  lemma SampleKids()
    ensures Kids(OneFile(), 0) == {1} && Kids(OneFile(), 1) == {2} && Kids(OneFile(), 2) == {}
  {
  }
}
