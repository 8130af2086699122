/**
  What a path means in a given tree, without caches or reference counts, and the
  inverse direction: the path of an entry.
 */
module DentryResolve {
  import opened Basics
  import opened DentryTree

  datatype Error = ENOENT | EISDIR | ENOTDIR | EINVAL | EEXIST | ENAMETOOLONG

  /**
    `Panic` stands for a failed kernel assertion.  `Unfinished` means that the
    given number of symbolic links was not enough: the source has no such limit.
    `Uncached` means that the tree alone does not tell: the file system knows a
    name that has no entry yet.  `Missing` is the name at which a path ends,
    because the file system does not have it.
   */
  datatype Result =
    | Ok(d: nat) | Err(e: Error) | Missing(dir: nat, name: string) | Panic | Unfinished | Uncached

  datatype Resolve = Resolve(expectFile: bool, expectDir: bool, nofollow: bool, expectExist: bool, expectNonexist: bool)

  const PATH_MAX: nat := 4096

  /** The flags under which the directory part of a path is followed. */
  const DIRECTORY: Resolve := Resolve(false, true, false, true, false)

  // ---------------------------------------------------------------- paths

  predicate IsAbsolute(path: string) { path != "" && path[0] == '/' }

  predicate EndsWithSlash(path: string) { path != "" && path[|path| - 1] == '/' }

  /** The non-empty segments between slashes, as `strtok_r` delivers them. */
  function Segments(path: string): (r: seq<string>)
    ensures forall i :: 0 <= i < |r| ==> r[i] != ""
  {
    SegmentsFrom(path, "")
  }

  /** `current` is the segment being read. */
  function SegmentsFrom(path: string, current: string): (r: seq<string>)
    ensures forall i :: 0 <= i < |r| ==> r[i] != ""
  {
    if path == "" then (if current == "" then [] else [current])
    else if path[0] == '/' then (if current == "" then [] else [current]) + SegmentsFrom(path[1..], "")
    else SegmentsFrom(path[1..], current + [path[0]])
  }

  /** The last segment, with the trailing slash the path had. */
  function LastSegmentOf(path: string): Option<string> {
    var segs := Segments(path);
    if segs == [] then None
    else Some(segs[|segs| - 1] + (if EndsWithSlash(path) then "/" else ""))
  }

  // ---------------------------------------------------------------- single steps

  ghost function ChildOf(t: Tree, p: nat, name: string): (r: Option<nat>)
    ensures r.Some? ==> IsChild(t, r.value, p, name)
    ensures r.None? ==> forall c :: !IsChild(t, c, p, name)
  {
    if exists c :: IsChild(t, c, p, name) then
      var c :| IsChild(t, c, p, name);
      Some(c)
    else None
  }

  lemma ChildIs(t: Tree, p: nat, name: string, c: nat)
    requires WellFormed(t) && IsChild(t, c, p, name)
    ensures ChildOf(t, p, name) == Some(c)
  {
    assert SameSlot(t.nodes[c], t.nodes[ChildOf(t, p, name).value]);
  }

  /** What an entry shows: the root mounted on it, if any. */
  function Across(t: Tree, c: nat): nat {
    if c in t.mounts then t.mounts[c] else c
  }

  ghost function StepUp(t: Tree, p: nat): Result {
    if p == t.root || p !in t.nodes || t.nodes[p].parent.None? then Ok(p)
    else
      var q := t.nodes[p].parent.value;
      if q in t.mounts && q != t.root then Panic else Ok(q)
  }

  /** A name does not exist only if the file system has no such name. */
  ghost function StepDown(t: Tree, p: nat, name: string): Result {
    var c := ChildOf(t, p, name);
    if c.Some? && Live(t, c.value) then Ok(Across(t, c.value))
    else if t.fs(p, name).Some? then Uncached
    else Missing(p, name)
  }

  ghost function Step(t: Tree, p: nat, seg: string): Result {
    if seg == "." then Ok(p) else if seg == ".." then StepUp(t, p) else StepDown(t, p, seg)
  }

  /** Walk through directories, left to right. */
  ghost function Walk(t: Tree, p: nat, segs: seq<string>): Result {
    if segs == [] then Ok(p)
    else
      var r := Walk(t, p, segs[..|segs| - 1]);
      if r.Ok? then Step(t, r.d, segs[|segs| - 1]) else r
  }

  // ---------------------------------------------------------------- whole paths

  ghost function ParentOf(t: Tree, base: nat, path: string, links: nat): Result
    decreases links, 1
  {
    var start := Across(t, if IsAbsolute(path) then t.root else base);
    var segs := Segments(path);
    if segs == [] then Ok(start)
    else
      var r := Walk(t, start, segs[..|segs| - 1]);
      if r.Ok? && Live(t, r.d) && t.nodes[r.d].inode.value.Symlink? then Follow(t, r.d, DIRECTORY, links) else r
  }

  ghost function Follow(t: Tree, d: nat, flags: Resolve, links: nat): Result
    decreases links, 0
  {
    if !(Live(t, d) && t.nodes[d].inode.value.Symlink? && t.nodes[d].parent.Some?) then Panic
    else
      var target := t.nodes[d].inode.value.target;
      if target == "" then Err(ENOENT)
      else if |target| >= PATH_MAX then Err(ENAMETOOLONG)
      else if links == 0 then Unfinished
      else Target(t, t.nodes[d].parent.value, target, flags, links - 1)
  }

  /** Where the target of a link found in directory `base` leads. */
  ghost function Target(t: Tree, base: nat, target: string, flags: Resolve, links: nat): Result
    decreases links, 3
  {
    var p := ParentOf(t, base, target, links);
    if !p.Ok? then p
    else if LastSegmentOf(target).None? then Panic
    else Last(t, p.d, LastSegmentOf(target).value, flags, links)
  }

  ghost function Last(t: Tree, p: nat, leaf: string, flags: Resolve, links: nat): Result
    decreases links, 2
  {
    var slash := EndsWithSlash(leaf);
    var name := if slash then leaf[..|leaf| - 1] else leaf;
    if slash && !flags.expectDir then Err(EINVAL)
    else if name == "." then Ok(p)
    else if name == ".." then StepUp(t, p)
    else LastNamed(t, p, name, flags, links)
  }

  ghost function LastNamed(t: Tree, p: nat, name: string, flags: Resolve, links: nat): Result
    decreases links, 2, 0
  {
    var c := ChildOf(t, p, name);
    if c.Some? && Live(t, c.value) then Found(t, c.value, flags, links)
    else if t.fs(p, name).Some? then Uncached
    else if !flags.expectNonexist then Missing(p, name)
    else if c.Some? then Ok(c.value)
    else Uncached
  }

  ghost function Found(t: Tree, c: nat, flags: Resolve, links: nat): Result
    requires Live(t, c)
    decreases links, 1
  {
    if flags.expectNonexist && !flags.expectExist then Err(EEXIST)
    else match t.nodes[c].inode.value
      case Symlink(_) => if flags.nofollow then Ok(c) else Follow(t, c, flags, links)
      case Directory => if flags.expectDir then Ok(Across(t, c)) else Err(EISDIR)
      case File => if flags.expectFile then Ok(c) else Err(ENOTDIR)
  }

  ghost function Meaning(t: Tree, start: nat, path: string, flags: Resolve, links: nat): Result {
    var p := ParentOf(t, start, path, links);
    if !p.Ok? then p
    else if LastSegmentOf(path).None? then
      (if p.d != start then Panic else if flags.expectDir then Ok(p.d) else Err(EISDIR))
    else Last(t, p.d, LastSegmentOf(path).value, flags, links)
  }

  // ---------------------------------------------------------------- meanings are stable

  lemma ChildStays(t: Tree, u: Tree, p: nat, name: string)
    requires WellFormed(t) && WellFormed(u) && Extends(t, u)
    requires ChildOf(t, p, name).Some? && Live(t, ChildOf(t, p, name).value)
    ensures ChildOf(u, p, name) == ChildOf(t, p, name)
  {
    ChildIs(u, p, name, ChildOf(t, p, name).value);
  }

  lemma StepStays(t: Tree, u: Tree, p: nat, seg: string)
    requires WellFormed(t) && WellFormed(u) && Extends(t, u) && Live(t, p)
    requires Step(t, p, seg).Ok?
    ensures Live(t, Step(t, p, seg).d) && Step(u, p, seg) == Step(t, p, seg)
  {
    hide SlotsOk;
    assert NodeOk(t, p);
    if seg != "." && seg != ".." {
      ChildStays(t, u, p, seg);
      var c := ChildOf(t, p, seg).value;
      if c in t.mounts { assert MountOk(t, c); }
    }
  }

  lemma {:induction false} WalkStays(t: Tree, u: Tree, p: nat, segs: seq<string>)
    requires WellFormed(t) && WellFormed(u) && Extends(t, u) && Live(t, p)
    requires Walk(t, p, segs).Ok?
    ensures Live(t, Walk(t, p, segs).d) && Walk(u, p, segs) == Walk(t, p, segs)
  {
    if segs != [] {
      WalkStays(t, u, p, segs[..|segs| - 1]);
      StepStays(t, u, Walk(t, p, segs[..|segs| - 1]).d, segs[|segs| - 1]);
    }
  }

  lemma StartStays(t: Tree, base: nat, path: string)
    requires WellFormed(t) && Live(t, base)
    ensures Live(t, Across(t, if IsAbsolute(path) then t.root else base))
  {
    var d := if IsAbsolute(path) then t.root else base;
    if d in t.mounts { assert MountOk(t, d); }
  }

  /** A path that leads to a live directory leads there in every later tree. */
  lemma {:induction false} ParentStays(t: Tree, u: Tree, base: nat, path: string, links: nat)
    requires WellFormed(t) && WellFormed(u) && Extends(t, u) && Live(t, base)
    requires ParentOf(t, base, path, links).Ok?
    ensures Live(t, ParentOf(t, base, path, links).d) &&
            ParentOf(u, base, path, links) == ParentOf(t, base, path, links)
    decreases links, 1
  {
    StartStays(t, base, path);
    var start := Across(t, if IsAbsolute(path) then t.root else base);
    var segs := Segments(path);
    if segs != [] {
      var dirs := segs[..|segs| - 1];
      assert Walk(t, start, dirs).Ok?;
      WalkStays(t, u, start, dirs);
      var d := Walk(t, start, dirs).d;
      if t.nodes[d].inode.value.Symlink? { FollowStays(t, u, d, DIRECTORY, links); }
    }
  }

  lemma LiveStays(t: Tree, u: Tree, d: nat)
    requires Extends(t, u) && Live(t, d)
    ensures Live(u, d) && u.nodes[d] == t.nodes[d]
  {
  }

  /** A symbolic link always has a live parent. */
  lemma LinkFacts(t: Tree, d: nat)
    requires WellFormed(t) && Live(t, d) && t.nodes[d].inode.value.Symlink?
    ensures t.nodes[d].parent.Some? && Live(t, t.nodes[d].parent.value)
  {
    assert NodeOk(t, d);
  }

  lemma {:induction false} FollowStays(t: Tree, u: Tree, d: nat, flags: Resolve, links: nat)
    requires WellFormed(t) && WellFormed(u) && Extends(t, u) && Live(t, d) && !flags.expectNonexist
    requires Follow(t, d, flags, links).Ok?
    ensures Live(t, Follow(t, d, flags, links).d) && Follow(u, d, flags, links) == Follow(t, d, flags, links)
    decreases links, 0
  {
    hide WellFormed, Extends, Target, LastSegmentOf;
    LinkFacts(t, d);
    LiveStays(t, u, d);
    TargetStays(t, u, t.nodes[d].parent.value, t.nodes[d].inode.value.target, flags, links - 1);
  }

  lemma {:induction false} TargetStays(t: Tree, u: Tree, base: nat, target: string, flags: Resolve, links: nat)
    requires WellFormed(t) && WellFormed(u) && Extends(t, u) && Live(t, base) && !flags.expectNonexist
    requires Target(t, base, target, flags, links).Ok?
    ensures Live(t, Target(t, base, target, flags, links).d)
    ensures Target(u, base, target, flags, links) == Target(t, base, target, flags, links)
    decreases links, 3
  {
    hide WellFormed, Extends, LastSegmentOf;
    ParentStays(t, u, base, target, links);
    LastStays(t, u, ParentOf(t, base, target, links).d, LastSegmentOf(target).value, flags, links);
  }

  lemma {:induction false} LastStays(t: Tree, u: Tree, p: nat, leaf: string, flags: Resolve, links: nat)
    requires WellFormed(t) && WellFormed(u) && Extends(t, u) && Live(t, p) && !flags.expectNonexist
    requires Last(t, p, leaf, flags, links).Ok?
    ensures Live(t, Last(t, p, leaf, flags, links).d) &&
            Last(u, p, leaf, flags, links) == Last(t, p, leaf, flags, links)
    decreases links, 2
  {
    var name := if EndsWithSlash(leaf) then leaf[..|leaf| - 1] else leaf;
    if name == "." || name == ".." {
      StepStays(t, u, p, name);
    } else {
      ChildStays(t, u, p, name);
      FoundStays(t, u, ChildOf(t, p, name).value, flags, links);
    }
  }

  lemma {:induction false} FoundStays(t: Tree, u: Tree, c: nat, flags: Resolve, links: nat)
    requires WellFormed(t) && WellFormed(u) && Extends(t, u) && Live(t, c) && !flags.expectNonexist
    requires Found(t, c, flags, links).Ok?
    ensures Live(t, Found(t, c, flags, links).d) && Found(u, c, flags, links) == Found(t, c, flags, links)
    decreases links, 1
  {
    if c in t.mounts { assert MountOk(t, c); }
    if t.nodes[c].inode.value.Symlink? && !flags.nofollow { FollowStays(t, u, c, flags, links); }
  }

  // ---------------------------------------------------------------- no lookup ends on a covered entry

  lemma AcrossOpen(t: Tree, c: nat)
    requires WellFormed(t)
    ensures Open(t, Across(t, c))
  {
    if c in t.mounts {
      assert MountOk(t, c) && RootOk(t);
      if t.mounts[c] in t.mounts { assert MountOk(t, t.mounts[c]); }
    }
  }

  lemma StepOpen(t: Tree, p: nat, seg: string)
    requires WellFormed(t) && Open(t, p) && Step(t, p, seg).Ok?
    ensures Open(t, Step(t, p, seg).d)
  {
    hide WellFormed;
    if seg != "." && seg != ".." { AcrossOpen(t, ChildOf(t, p, seg).value); }
  }

  lemma {:induction false} WalkOpen(t: Tree, p: nat, segs: seq<string>)
    requires WellFormed(t) && Open(t, p) && Walk(t, p, segs).Ok?
    ensures Open(t, Walk(t, p, segs).d)
  {
    hide WellFormed, Step;
    if segs != [] {
      WalkOpen(t, p, segs[..|segs| - 1]);
      StepOpen(t, Walk(t, p, segs[..|segs| - 1]).d, segs[|segs| - 1]);
    }
  }

  lemma {:induction false} ParentOpen(t: Tree, base: nat, path: string, links: nat)
    requires WellFormed(t) && ParentOf(t, base, path, links).Ok?
    ensures Open(t, ParentOf(t, base, path, links).d)
    decreases links, 1
  {
    hide WellFormed, Open, Across, Walk, Segments;
    var from := if IsAbsolute(path) then t.root else base;
    AcrossOpen(t, from);
    var segs := Segments(path);
    if segs != [] {
      WalkOpen(t, Across(t, from), segs[..|segs| - 1]);
      var d := Walk(t, Across(t, from), segs[..|segs| - 1]).d;
      if Live(t, d) && t.nodes[d].inode.value.Symlink? { FollowOpen(t, d, DIRECTORY, links); }
    }
  }

  lemma {:induction false} FollowOpen(t: Tree, d: nat, flags: Resolve, links: nat)
    requires WellFormed(t) && Follow(t, d, flags, links).Ok?
    ensures Open(t, Follow(t, d, flags, links).d)
    decreases links, 0
  {
    hide WellFormed, Open, Target;
    TargetOpen(t, t.nodes[d].parent.value, t.nodes[d].inode.value.target, flags, links - 1);
  }

  lemma {:induction false} TargetOpen(t: Tree, base: nat, target: string, flags: Resolve, links: nat)
    requires WellFormed(t) && Target(t, base, target, flags, links).Ok?
    ensures Open(t, Target(t, base, target, flags, links).d)
    decreases links, 3
  {
    hide WellFormed, Open, ParentOf, Last, LastSegmentOf;
    ParentOpen(t, base, target, links);
    LastOpen(t, ParentOf(t, base, target, links).d, LastSegmentOf(target).value, flags, links);
  }

  lemma {:induction false} LastOpen(t: Tree, p: nat, leaf: string, flags: Resolve, links: nat)
    requires WellFormed(t) && Open(t, p) && Last(t, p, leaf, flags, links).Ok?
    ensures Open(t, Last(t, p, leaf, flags, links).d)
    decreases links, 2
  {
    hide WellFormed, Open, Found;
    var name := if EndsWithSlash(leaf) then leaf[..|leaf| - 1] else leaf;
    if name == "." || name == ".." {
      StepOpen(t, p, name);
    } else {
      var c := ChildOf(t, p, name).value;
      NegativeOpen(t, c);
      if Live(t, c) { FoundOpen(t, c, flags, links); }
    }
  }

  lemma NegativeOpen(t: Tree, c: nat)
    requires WellFormed(t) && c in t.nodes
    ensures !Live(t, c) || !t.nodes[c].inode.value.Directory? ==> Open(t, c)
  {
    if c in t.mounts { assert MountOk(t, c); }
  }

  lemma {:induction false} FoundOpen(t: Tree, c: nat, flags: Resolve, links: nat)
    requires WellFormed(t) && Live(t, c) && Found(t, c, flags, links).Ok?
    ensures Open(t, Found(t, c, flags, links).d)
    decreases links, 1
  {
    hide WellFormed, Open;
    AcrossOpen(t, c);
    NegativeOpen(t, c);
    if t.nodes[c].inode.value.Symlink? && !flags.nofollow { FollowOpen(t, c, flags, links); }
  }
}
