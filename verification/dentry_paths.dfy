/**
  The path of an entry, and that resolving it leads back to the entry, through
  any nesting of mounts, exactly when no mount hides it.
 */
module DentryPaths {
  import opened Basics
  import opened DentryTree
  import opened DentryResolve

  /** The name under which an entry is reached: a mounted root goes by its mountpoint. */
  function NameOf(t: Tree, d: nat): string
    requires WellFormed(t) && d in t.nodes && d != t.root
  {
    if MountedRoot(t, d) then
      MountedRootFacts(t, d);
      t.nodes[MountpointOf(t, d)].name.value
    else t.nodes[d].name.value
  }

  /** The names from the root down to `d`. */
  ghost function Names(t: Tree, d: nat): seq<string>
    requires WellFormed(t) && d in t.nodes
    decreases t.nodes[d].depth
  {
    if d == t.root then []
    else
      assert NodeOk(t, d);
      Names(t, t.nodes[d].parent.value) + [NameOf(t, d)]
  }

  lemma NamesStep(t: Tree, d: nat)
    requires WellFormed(t) && d in t.nodes && d != t.root
    ensures t.nodes[d].parent.Some? && t.nodes[d].parent.value in t.nodes
    ensures t.nodes[t.nodes[d].parent.value].depth < t.nodes[d].depth
    ensures Names(t, d) == Names(t, t.nodes[d].parent.value) + [NameOf(t, d)]
  {
    assert NodeOk(t, d);
  }

  lemma RootHasNoNames(t: Tree)
    requires WellFormed(t)
    ensures t.root in t.nodes && Names(t, t.root) == []
  {
  }

  function Join(names: seq<string>): string {
    if names == [] then ""
    else if |names| == 1 then names[0]
    else names[0] + "/" + Join(names[1..])
  }

  ghost function FullPath(t: Tree, d: nat): string
    requires WellFormed(t) && d in t.nodes
  {
    "/" + Join(Names(t, d))
  }

  lemma {:induction false} JoinPrepends(xs: seq<string>, x: string)
    requires xs != []
    ensures Join([x] + xs) == x + "/" + Join(xs)
  {
  }

  /** What `snprintf` leaves in a buffer of the given size. */
  function Truncated(s: string, size: nat): string
    requires size > 0
  {
    if |s| < size then s else s[..size - 1]
  }

  /**
    `dentry_path`: prepend the names while climbing to the root.  The size test
    forgets the leading slash, so a buffer one byte short loses the last character.
   */
  method Path(t: Tree, dentry: nat, size: nat) returns (r: Option<string>)
    requires WellFormed(t) && dentry in t.nodes
    ensures r == if size < 2 || (dentry != t.root && |FullPath(t, dentry)| > size) then None
                 else Some(Truncated(FullPath(t, dentry), size))
    ensures 2 <= size && |FullPath(t, dentry)| + 1 <= size ==> r == Some(FullPath(t, dentry))
    ensures r.Some? ==> r.value == FullPath(t, dentry)[..Min(size - 1, |FullPath(t, dentry)|)]
  {
    hide WellFormed, Names;
    if size < 2 { return None; }
    if dentry == t.root {
      RootHasNoNames(t);
      assert FullPath(t, dentry) == "/";
      return Some("/");
    }
    NamesStep(t, dentry);
    var path := NameOf(t, dentry);
    var current := t.nodes[dentry].parent.value;
    ghost var below := [NameOf(t, dentry)];
    while current != t.root
      invariant current in t.nodes && below != [] && path == Join(below)
      invariant Names(t, dentry) == Names(t, current) + below
      decreases t.nodes[current].depth
    {
      NamesStep(t, current);
      var name := NameOf(t, current);
      JoinPrepends(below, name);
      assert Names(t, current) + below == Names(t, t.nodes[current].parent.value) + ([name] + below);
      below := [name] + below;
      path := name + "/" + path;
      current := t.nodes[current].parent.value;
    }
    RootHasNoNames(t);
    assert Names(t, dentry) == below;
    if |path| + 1 > size { return None; }
    return Some(Truncated("/" + path, size));
  }

  // ---------------------------------------------------------------- reading a path back

  predicate GoodName(s: string) {
    s != "" && '/' !in s && s != "." && s != ".."
  }

  /** Names are proper names, and only directories have entries below them. */
  ghost predicate Tidy(t: Tree) {
    && (forall d :: d in t.nodes && t.nodes[d].name.Some? ==> GoodName(t.nodes[d].name.value))
    && (forall d :: d in t.nodes && t.nodes[d].parent.Some? ==>
          t.nodes[d].parent.value in t.nodes && t.nodes[t.nodes[d].parent.value].inode == Some(Directory))
  }

  lemma {:induction false} SegmentsOfName(s: string, rest: string, current: string)
    requires '/' !in s && (rest == "" || rest[0] == '/')
    ensures SegmentsFrom(s + rest, current) == SegmentsFrom(rest, current + s)
    decreases |s|
  {
    if s == "" {
      assert s + rest == rest && current + s == current;
    } else {
      assert (s + rest)[1..] == s[1..] + rest && (s + rest)[0] == s[0];
      SegmentsOfName(s[1..], rest, current + [s[0]]);
      assert current + [s[0]] + s[1..] == current + s;
    }
  }

  /** Splitting a joined path gives the names back. */
  lemma {:induction false} SegmentsOfJoin(names: seq<string>)
    requires forall i :: 0 <= i < |names| ==> names[i] != "" && '/' !in names[i]
    ensures SegmentsFrom(Join(names), "") == names
    decreases |names|
  {
    if names == [] {
    } else if |names| == 1 {
      SegmentsOfName(names[0], "", "");
      assert names[0] + "" == names[0] && "" + names[0] == names[0];
    } else {
      var rest := "/" + Join(names[1..]);
      assert Join(names) == names[0] + rest;
      SegmentsOfName(names[0], rest, "");
      assert rest[1..] == Join(names[1..]) && "" + names[0] == names[0];
      SegmentsOfJoin(names[1..]);
      assert names == [names[0]] + names[1..];
    }
  }

  lemma {:induction false} NamesAreGood(t: Tree, d: nat)
    requires WellFormed(t) && Tidy(t) && d in t.nodes
    ensures forall i :: 0 <= i < |Names(t, d)| ==> GoodName(Names(t, d)[i])
    decreases t.nodes[d].depth
  {
    if d != t.root {
      assert NodeOk(t, d);
      if MountedRoot(t, d) { MountedRootFacts(t, d); }
      NamesAreGood(t, t.nodes[d].parent.value);
    }
  }

  lemma SegmentsOfPath(t: Tree, d: nat)
    requires WellFormed(t) && Tidy(t) && d in t.nodes
    ensures Segments(FullPath(t, d)) == Names(t, d)
  {
    NamesAreGood(t, d);
    var path := FullPath(t, d);
    assert path[1..] == Join(Names(t, d)) && path[0] == '/';
    SegmentsOfJoin(Names(t, d));
  }

  lemma {:induction false} JoinEnds(names: seq<string>)
    requires names != [] && names[|names| - 1] != ""
    ensures var last := names[|names| - 1]; Join(names) != "" && Join(names)[|Join(names)| - 1] == last[|last| - 1]
    decreases |names|
  {
    if |names| > 1 { JoinEnds(names[1..]); }
  }

  // ---------------------------------------------------------------- hidden entries

  /** No mount hides `d`: entries on the way are covered only where the mounted root is on the way too. */
  ghost predicate Visible(t: Tree, d: nat)
    requires WellFormed(t) && d in t.nodes
    decreases t.nodes[d].depth
  {
    d == t.root ||
    (assert NodeOk(t, d);
     (MountedRoot(t, d) || d !in t.mounts) && Visible(t, t.nodes[d].parent.value))
  }

  /** Going down by name from an entry's parent leads to the entry, unless it is covered. */
  lemma StepFromParent(t: Tree, d: nat)
    requires WellFormed(t) && Tidy(t) && Live(t, d) && d != t.root
    ensures NodeOk(t, d)
    ensures StepDown(t, t.nodes[d].parent.value, NameOf(t, d))
         == Ok(if MountedRoot(t, d) then d else Across(t, d))
  {
    assert NodeOk(t, d);
    var p := t.nodes[d].parent.value;
    if MountedRoot(t, d) {
      MountedRootFacts(t, d);
      ChildIs(t, p, NameOf(t, d), MountpointOf(t, d));
    } else {
      ChildIs(t, p, NameOf(t, d), d);
    }
  }

  /** Any step down lands on an entry with the starting point as its parent. */
  lemma StepKeepsParent(t: Tree, p: nat, name: string)
    requires WellFormed(t) && StepDown(t, p, name).Ok?
    ensures var q := StepDown(t, p, name).d; q in t.nodes && t.nodes[q].parent == Some(p)
  {
    var c := ChildOf(t, p, name).value;
    if c in t.mounts { assert MountOk(t, c); }
  }

  /** Walking the names of an entry from the root ends at the entry if and only if it is visible. */
  lemma {:induction false} WalkNames(t: Tree, d: nat)
    requires WellFormed(t) && Tidy(t) && Live(t, d)
    ensures Walk(t, t.root, Names(t, d)) == Ok(d) <==> Visible(t, d)
    decreases t.nodes[d].depth
  {
    if d != t.root {
      assert NodeOk(t, d);
      var p := t.nodes[d].parent.value;
      var name := NameOf(t, d);
      var names := Names(t, d);
      assert names[..|names| - 1] == Names(t, p) && names[|names| - 1] == name;
      NamesAreGood(t, d);
      WalkNames(t, p);
      var r := Walk(t, t.root, Names(t, p));
      if r == Ok(p) {
        StepFromParent(t, d);
        if d in t.mounts && !MountedRoot(t, d) { assert MountOk(t, d); }
      } else if r.Ok? && StepDown(t, r.d, name).Ok? {
        StepKeepsParent(t, r.d, name);
      }
    }
  }

  const ANYTHING: Resolve := Resolve(true, true, true, true, false)

  /** The last segment of a printed path, when the directory part leads to `p`. */
  lemma LastOfPath(t: Tree, p: nat, name: string, links: nat)
    requires WellFormed(t) && GoodName(name)
    ensures Last(t, p, name, ANYTHING, links) == StepDown(t, p, name)
  {
    hide Last, Follow, ParentOf;
    LastIsNamed(t, p, name, links);
    var c := ChildOf(t, p, name);
    if c.Some? && c.value in t.mounts {
      assert MountOk(t, c.value) && RootOk(t);
    }
  }

  lemma LastIsNamed(t: Tree, p: nat, name: string, links: nat)
    requires GoodName(name)
    ensures Last(t, p, name, ANYTHING, links) == LastNamed(t, p, name, ANYTHING, links)
  {
  }

  lemma PathParts(t: Tree, d: nat)
    requires WellFormed(t) && Tidy(t) && d in t.nodes && d != t.root
    ensures NodeOk(t, d)
    ensures var path := FullPath(t, d); var segs := Segments(path);
            && IsAbsolute(path) && segs != [] && segs[..|segs| - 1] == Names(t, t.nodes[d].parent.value)
            && LastSegmentOf(path) == Some(NameOf(t, d)) && GoodName(NameOf(t, d))
  {
    assert NodeOk(t, d);
    var names := Names(t, d);
    var path := FullPath(t, d);
    SegmentsOfPath(t, d);
    NamesAreGood(t, d);
    assert names[|names| - 1] == NameOf(t, d);
    JoinEnds(names);
    assert path[|path| - 1] == Join(names)[|Join(names)| - 1];
    assert !EndsWithSlash(path);
    assert NameOf(t, d) + "" == NameOf(t, d);
  }

  /**
    Printing and resolving are inverse: the path of a visible entry, resolved
    from the root without following a final link, is that entry.
   */
  lemma PathLeadsBack(t: Tree, d: nat, links: nat)
    requires WellFormed(t) && Tidy(t) && Live(t, d) && Visible(t, d)
    ensures Meaning(t, t.root, FullPath(t, d), ANYTHING, links) == Ok(d)
  {
    if d == t.root {
      SegmentsOfPath(t, d);
      assert RootOk(t);
    } else {
      PathParts(t, d);
      var p := t.nodes[d].parent.value;
      assert RootOk(t) && Across(t, t.root) == t.root;
      WalkNames(t, p);
      assert ParentOf(t, t.root, FullPath(t, d), links) == Ok(p);
      LastOfPath(t, p, NameOf(t, d), links);
      StepFromParent(t, d);
      if MountedRoot(t, d) { MountedRootFacts(t, d); }
    }
  }

  /** In a tree without symbolic links, resolving the path of a hidden entry never leads back to it. */
  lemma HiddenPathLeadsElsewhere(t: Tree, d: nat, links: nat)
    requires WellFormed(t) && Tidy(t) && Live(t, d) && !Visible(t, d)
    requires forall x :: Live(t, x) ==> !t.nodes[x].inode.value.Symlink?
    ensures Meaning(t, t.root, FullPath(t, d), ANYTHING, links) != Ok(d)
  {
    PathParts(t, d);
    var p := t.nodes[d].parent.value;
    assert RootOk(t) && Across(t, t.root) == t.root;
    var r := Walk(t, t.root, Names(t, p));
    assert ParentOf(t, t.root, FullPath(t, d), links) == r;
    WalkNames(t, p);
    if r.Ok? {
      LastOfPath(t, r.d, NameOf(t, d), links);
      if r == Ok(p) {
        StepFromParent(t, d);
      } else if StepDown(t, r.d, NameOf(t, d)).Ok? {
        StepKeepsParent(t, r.d, NameOf(t, d));
      }
    }
  }
}
