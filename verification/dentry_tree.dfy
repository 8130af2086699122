/**
  The tree of directory entries: names, parents, inodes and mounts, and the
  chain of entries from a node up to the root that a reference covers.
 */
module DentryTree {
  import opened Basics

  /** What a name stands for; a symbolic link carries its target path. */
  datatype Inode = File | Directory | Symlink(target: string)

  /**
    `dentry_t`.  The root of a mounted file system has no name.  `depth` is the
    distance from the root, kept to show that parent chains end.
   */
  datatype Dentry = Dentry(name: Option<string>, parent: Option<nat>, inode: Option<Inode>, depth: nat)

  /**
    `mounts` maps a mountpoint to the mounted root, `covers` the other way.  `fs`
    is what the file systems hold: the inode of a name in a directory, if any.
    Entries are numbered in the order of their creation; `next` is the next number.
   */
  datatype Tree = Tree(nodes: map<nat, Dentry>, root: nat, mounts: map<nat, nat>, covers: map<nat, nat>,
                       fs: (nat, string) -> Option<Inode>, next: nat)

  predicate Live(t: Tree, d: nat) {
    d in t.nodes && t.nodes[d].inode.Some?
  }

  predicate IsMountpoint(t: Tree, d: nat) { d in t.mounts }

  /** No mount covers the entry. */
  predicate Open(t: Tree, d: nat) { d == t.root || d !in t.mounts }

  predicate MountedRoot(t: Tree, d: nat) {
    d in t.nodes && t.nodes[d].name.None? && d != t.root
  }

  /** The root is mounted on itself; it alone has no parent. */
  ghost predicate RootOk(t: Tree) {
    && t.root in t.nodes && t.nodes[t.root].inode == Some(Directory)
    && t.nodes[t.root].name.None? && t.nodes[t.root].parent.None?
    && t.root in t.mounts && t.mounts[t.root] == t.root && t.nodes[t.root].depth == 0
  }

  ghost predicate NodeOk(t: Tree, d: nat)
    requires d in t.nodes
  {
    d != t.root ==>
      && t.nodes[d].parent.Some? && Live(t, t.nodes[d].parent.value)
      && t.nodes[t.nodes[d].parent.value].depth < t.nodes[d].depth
  }

  /** A mounted root hangs below the parent of the entry it covers. */
  ghost predicate MountOk(t: Tree, m: nat)
    requires m in t.mounts
  {
    var r := t.mounts[m];
    m != t.root ==>
      && Live(t, m) && t.nodes[m].name.Some? && t.nodes[m].inode == Some(Directory)
      && Live(t, r) && MountedRoot(t, r)
      && t.nodes[r].parent == t.nodes[m].parent && t.nodes[r].depth == t.nodes[m].depth
      && r in t.covers && t.covers[r] == m
  }

  predicate SameSlot(c: Dentry, d: Dentry) {
    c.parent == d.parent && c.name == d.name && c.name.Some?
  }

  /** Every entry but the root hangs below a live one, and mounts and mounted roots match. */
  ghost predicate LinksOk(t: Tree) {
    && (forall d :: d in t.nodes ==> NodeOk(t, d))
    && (forall m :: m in t.mounts ==> MountOk(t, m))
    && (forall d :: MountedRoot(t, d) ==> d in t.covers && t.covers[d] in t.mounts && t.mounts[t.covers[d]] == d)
  }

  /** No two entries of a directory have the same name. */
  ghost predicate SlotsOk(t: Tree) {
    forall c, d :: c in t.nodes && d in t.nodes && SameSlot(t.nodes[c], t.nodes[d]) ==> c == d
  }

  ghost predicate IdsOk(t: Tree) {
    && (forall d :: d in t.nodes ==> d < t.next)
    && (forall d :: d in t.covers ==> d < t.next)
  }

  ghost predicate WellFormed(t: Tree) {
    RootOk(t) && IdsOk(t) && LinksOk(t) && SlotsOk(t)
  }

  /** The mountpoint of a mounted root (`dentry_root_get_mountpoint`). */
  function MountpointOf(t: Tree, d: nat): nat
    requires WellFormed(t) && MountedRoot(t, d)
  {
    t.covers[d]
  }

  lemma MountedRootFacts(t: Tree, d: nat)
    requires WellFormed(t) && MountedRoot(t, d)
    ensures var m := MountpointOf(t, d);
            && m != d && m != t.root && Live(t, m) && t.nodes[m].parent == t.nodes[d].parent
            && t.nodes[m].depth == t.nodes[d].depth && t.nodes[m].name.Some? && m in t.mounts && t.mounts[m] == d
  {
    var m := t.covers[d];
    assert MountOk(t, m);
  }

  /** The entry itself, and the covered mountpoint if it is a mounted root. */
  ghost function Own(t: Tree, d: nat): set<nat>
    requires WellFormed(t) && d in t.nodes
  {
    if MountedRoot(t, d) then {d, MountpointOf(t, d)} else {d}
  }

  /** Everything a reference to `d` covers: `d` up to the root, both sides of every mount. */
  ghost function Chain(t: Tree, d: nat): set<nat>
    requires WellFormed(t) && d in t.nodes
    decreases t.nodes[d].depth
  {
    if d == t.root then {d}
    else
      assert NodeOk(t, d);
      Own(t, d) + Chain(t, t.nodes[d].parent.value)
  }

  /** Entries of a chain lie in the tree, at most as deep as where it starts; all but the start are live. */
  lemma {:induction false} ChainBelow(t: Tree, d: nat, x: nat)
    requires WellFormed(t) && d in t.nodes && x in Chain(t, d)
    ensures x in t.nodes && t.nodes[x].depth <= t.nodes[d].depth
    ensures x == d || Live(t, x)
    ensures t.nodes[x].depth == t.nodes[d].depth ==> x in Own(t, d)
    decreases t.nodes[d].depth
  {
    if d != t.root {
      assert NodeOk(t, d);
      if MountedRoot(t, d) { MountedRootFacts(t, d); }
      var p := t.nodes[d].parent.value;
      if x in Chain(t, p) { ChainBelow(t, p, x); }
    }
  }

  lemma OwnApart(t: Tree, d: nat)
    requires WellFormed(t) && d in t.nodes && d != t.root
    ensures NodeOk(t, d) && Own(t, d) !! Chain(t, t.nodes[d].parent.value)
  {
    assert NodeOk(t, d);
    if MountedRoot(t, d) { MountedRootFacts(t, d); }
    var p := t.nodes[d].parent.value;
    forall x | x in Chain(t, p) ensures x !in Own(t, d) { ChainBelow(t, p, x); }
  }

  lemma ChainStep(t: Tree, d: nat)
    requires WellFormed(t) && d in t.nodes
    ensures d == t.root ==> Chain(t, d) == {d}
    ensures d != t.root ==> NodeOk(t, d) && Chain(t, d) == Own(t, d) + Chain(t, t.nodes[d].parent.value)
  {
    if d != t.root { assert NodeOk(t, d); }
  }

  predicate SamePlace(c: Dentry, d: Dentry) {
    c.parent == d.parent && c.name == d.name && c.depth == d.depth
  }

  /** Only negative entries came, went or got an inode between `t` and `u`; numbers are not used again. */
  ghost predicate Extends(t: Tree, u: Tree) {
    && u.root == t.root && u.mounts == t.mounts && u.covers == t.covers && u.fs == t.fs && t.next <= u.next
    && (forall d :: Live(t, d) ==> d in u.nodes && u.nodes[d] == t.nodes[d])
    && (forall d :: d in u.nodes ==> if d in t.nodes then SamePlace(t.nodes[d], u.nodes[d]) else d >= t.next)
  }

  /** What the cache says about a name is what the file system holds. */
  ghost predicate Honest(t: Tree) {
    forall d :: Live(t, d) && t.nodes[d].name.Some? && t.nodes[d].parent.Some? ==>
      t.nodes[d].inode == t.fs(t.nodes[d].parent.value, t.nodes[d].name.value)
  }

  lemma {:induction false} ChainStays(t: Tree, u: Tree, d: nat)
    requires WellFormed(t) && WellFormed(u) && Extends(t, u)
    requires d in t.nodes && d in u.nodes
    ensures Chain(t, d) == Chain(u, d)
    decreases t.nodes[d].depth
  {
    if d != t.root {
      assert NodeOk(t, d) && NodeOk(u, d);
      ChainStays(t, u, t.nodes[d].parent.value);
    }
  }

  lemma ExtendsItself(t: Tree)
    ensures Extends(t, t)
  {
  }

  lemma ExtendsTrans(t: Tree, u: Tree, v: Tree)
    requires WellFormed(t) && Extends(t, u) && Extends(u, v)
    ensures Extends(t, v)
  {
  }

  // ---------------------------------------------------------------- reference counts

  function Ref(refs: map<nat, nat>, d: nat): nat {
    if d in refs then refs[d] else 0
  }

  /** Going from `r` to `s`, the entries in `minus` lost one reference and those in `plus` gained one. */
  ghost predicate Moved(r: map<nat, nat>, s: map<nat, nat>, minus: set<nat>, plus: set<nat>) {
    forall x :: Ref(s, x) + (if x in minus then 1 else 0) == Ref(r, x) + (if x in plus then 1 else 0)
  }

  ghost predicate Counted(r: map<nat, nat>, ids: set<nat>) {
    forall x :: x in ids ==> Ref(r, x) > 0
  }

  lemma MovedNothing(r: map<nat, nat>, ids: set<nat>)
    ensures Moved(r, r, ids, ids)
  {
  }

  lemma MovedTrans(r: map<nat, nat>, s: map<nat, nat>, u: map<nat, nat>, a: set<nat>, b: set<nat>, c: set<nat>)
    requires Moved(r, s, a, b) && Moved(s, u, b, c)
    ensures Moved(r, u, a, c)
  {
  }

  /** A reference is taken on `a`, then on `b`, then the one on `a` is given back. */
  lemma MovedAway(r: map<nat, nat>, s: map<nat, nat>, u: map<nat, nat>, v: map<nat, nat>, a: set<nat>, b: set<nat>)
    requires Moved(r, s, {}, a) && Moved(s, u, {}, b) && Moved(u, v, a, {})
    ensures Moved(r, v, {}, b)
  {
  }

  lemma MovedApart(r: map<nat, nat>, s: map<nat, nat>, u: map<nat, nat>, a: set<nat>, b: set<nat>)
    requires Moved(r, s, {}, a) && Moved(s, u, {}, b) && a !! b
    ensures Moved(r, u, {}, a + b)
  {
  }

  /** Growing a held chain by `b`. */
  lemma MovedGrows(r: map<nat, nat>, s: map<nat, nat>, a: set<nat>, b: set<nat>)
    requires Moved(r, s, {}, b) && a !! b
    ensures Moved(r, s, a, a + b)
  {
  }

  /** Shrinking a held chain `a + b` to `a`. */
  lemma MovedShrinks(r: map<nat, nat>, s: map<nat, nat>, a: set<nat>, b: set<nat>)
    requires Moved(r, s, b, {}) && a !! b
    ensures Moved(r, s, a + b, a)
  {
  }

  /** A named child's chain is the child on top of its parent's. */
  lemma ChildChain(t: Tree, c: nat)
    requires WellFormed(t) && c in t.nodes && t.nodes[c].name.Some?
    ensures c != t.root && NodeOk(t, c)
    ensures var p := t.nodes[c].parent.value; Chain(t, c) == Chain(t, p) + {c} && Chain(t, p) !! {c}
  {
    OwnApart(t, c);
  }

  /** The chain of a mounted root is the root on top of its mountpoint's chain. */
  lemma MountChain(t: Tree, m: nat)
    requires WellFormed(t) && m in t.mounts && m != t.root
    ensures MountOk(t, m) && Live(t, m) && NodeOk(t, m) && t.nodes[m].name.Some?
    ensures var r := t.mounts[m]; Live(t, r) && Chain(t, r) == Chain(t, m) + {r} && Chain(t, m) !! {r}
  {
    assert MountOk(t, m);
    var r := t.mounts[m];
    assert NodeOk(t, m) && NodeOk(t, r);
    OwnApart(t, r);
    ChildChain(t, m);
  }

  // ---------------------------------------------------------------- adding and removing entries

  /** A new entry takes the next number. */
  function WithNew(t: Tree, e: Dentry): Tree { t.(nodes := t.nodes[t.next := e], next := t.next + 1) }

  function WithNode(t: Tree, d: nat, e: Dentry): Tree { t.(nodes := t.nodes[d := e]) }

  function WithoutNode(t: Tree, d: nat): Tree { t.(nodes := t.nodes - {d}) }

  ghost predicate IsChild(t: Tree, c: nat, parent: nat, name: string) {
    c in t.nodes && t.nodes[c].parent == Some(parent) && t.nodes[c].name == Some(name)
  }

  /** A later tree whose new entries are named and hang below live ones is in order. */
  lemma LinksStay(t: Tree, u: Tree)
    requires RootOk(t) && LinksOk(t) && Extends(t, u)
    requires forall d :: d in u.nodes && d !in t.nodes ==>
               u.nodes[d].name.Some? && u.nodes[d].parent.Some? && Live(t, u.nodes[d].parent.value)
               && t.nodes[u.nodes[d].parent.value].depth < u.nodes[d].depth
    ensures RootOk(u) && LinksOk(u)
  {
    forall d | d in u.nodes ensures NodeOk(u, d) { assert d in t.nodes ==> NodeOk(t, d); }
    forall m | m in u.mounts ensures MountOk(u, m) { assert MountOk(t, m); }
    forall d | MountedRoot(u, d) ensures MountedRoot(t, d) { }
  }

  lemma NewExtends(t: Tree, e: Dentry)
    requires IdsOk(t)
    ensures Extends(t, WithNew(t, e)) && IdsOk(WithNew(t, e))
  {
  }

  lemma FilledExtends(t: Tree, d: nat, e: Dentry)
    requires IdsOk(t) && d in t.nodes && t.nodes[d].inode.None? && SamePlace(t.nodes[d], e)
    ensures Extends(t, WithNode(t, d, e)) && IdsOk(WithNode(t, d, e))
  {
  }

  lemma ReleasedExtends(t: Tree, d: nat)
    requires IdsOk(t) && d in t.nodes && t.nodes[d].inode.None?
    ensures Extends(t, WithoutNode(t, d)) && IdsOk(WithoutNode(t, d))
  {
  }

  /** `dentry_create`: a new negative entry. */
  lemma CreateKeeps(t: Tree, parent: nat, name: string)
    requires WellFormed(t) && Live(t, parent)
    requires forall c :: !IsChild(t, c, parent, name)
    ensures var u := WithNew(t, Dentry(Some(name), Some(parent), None, t.nodes[parent].depth + 1));
            WellFormed(u) && Extends(t, u)
  {
    hide LinksOk, Extends, RootOk;
    var d := t.next;
    var u := WithNew(t, Dentry(Some(name), Some(parent), None, t.nodes[parent].depth + 1));
    NewExtends(t, u.nodes[d]);
    LinksStay(t, u);
    forall c, e | c in u.nodes && e in u.nodes && SameSlot(u.nodes[c], u.nodes[e]) ensures c == e {
      assert c != d && e == d ==> IsChild(t, c, parent, name);
      assert e != d && c == d ==> IsChild(t, e, parent, name);
    }
  }

  /** A successful `lookup` gives a negative entry its inode. */
  lemma FillKeeps(t: Tree, d: nat, inode: Inode)
    requires WellFormed(t) && d in t.nodes && t.nodes[d].inode.None?
    ensures var u := WithNode(t, d, t.nodes[d].(inode := Some(inode))); WellFormed(u) && Extends(t, u)
  {
    hide LinksOk, Extends, RootOk;
    var u := WithNode(t, d, t.nodes[d].(inode := Some(inode)));
    FilledExtends(t, d, u.nodes[d]);
    LinksStay(t, u);
    forall c, e | c in u.nodes && e in u.nodes && SameSlot(u.nodes[c], u.nodes[e]) ensures c == e {
      assert SameSlot(t.nodes[c], t.nodes[e]);
    }
  }

  /** `dentry_try_release` takes out a negative entry; nothing can hang below it. */
  lemma ReleaseKeeps(t: Tree, d: nat)
    requires WellFormed(t) && d in t.nodes && t.nodes[d].inode.None?
    ensures WellFormed(WithoutNode(t, d)) && Extends(t, WithoutNode(t, d))
  {
    hide LinksOk, Extends, RootOk;
    ReleasedExtends(t, d);
    LinksStay(t, WithoutNode(t, d));
  }
}
