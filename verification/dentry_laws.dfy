/**
  What paths mean, without the functions that say so: `.` and `..`, names,
  absolute and relative links, and links on the way.
 */
module DentryLaws {
  import opened Basics
  import opened DentryTree
  import opened DentryResolve
  import opened DentryPaths

  // ---------------------------------------------------------------- walking

  /** Walking two pieces is walking the first and then the second. */
  lemma {:induction false} WalkOn(t: Tree, p: nat, a: seq<string>, b: seq<string>)
    ensures var r := Walk(t, p, a); Walk(t, p, a + b) == if r.Ok? then Walk(t, r.d, b) else r
    decreases |b|
  {
    if b == [] {
      assert a + b == a;
    } else {
      var n := |b| - 1;
      WalkOn(t, p, a, b[..n]);
      assert (a + b)[..|a + b| - 1] == a + b[..n] && (a + b)[|a + b| - 1] == b[n];
    }
  }

  lemma WalkOne(t: Tree, p: nat, seg: string)
    ensures Walk(t, p, [seg]) == Step(t, p, seg)
  {
    assert [seg][..0] == [] && Walk(t, p, []) == Ok(p);
  }

  /** `.` stays, `..` undoes a name, and at the root it stays. */
  lemma DotLaws(t: Tree, p: nat, c: nat, name: string)
    requires WellFormed(t) && IsChild(t, c, p, name) && GoodName(name) && Live(t, c) && c !in t.mounts
    requires p == t.root || p !in t.mounts
    ensures Walk(t, p, ["."]) == Ok(p) && Walk(t, t.root, [".."]) == Ok(t.root)
    ensures Walk(t, p, [name]) == Ok(c) && Walk(t, p, [name, ".."]) == Ok(p)
  {
    assert NodeOk(t, c);
    ChildIs(t, p, name, c);
    WalkOne(t, p, ".");
    WalkOne(t, t.root, "..");
    WalkOne(t, p, name);
    WalkOne(t, c, "..");
    WalkOn(t, p, [name], [".."]);
    assert [name] + [".."] == [name, ".."];
  }

  /** From a mounted root, `..` leads to the parent of what it covers. */
  lemma OutOfMount(t: Tree, m: nat)
    requires WellFormed(t) && m in t.mounts && m != t.root
    ensures MountOk(t, m) && NodeOk(t, m)
    ensures var q := t.nodes[m].parent.value;
            Walk(t, t.mounts[m], [".."]) == if q in t.mounts && q != t.root then Panic else Ok(q)
  {
    assert MountOk(t, m) && NodeOk(t, m);
    WalkOne(t, t.mounts[m], "..");
  }

  /** `..` trips an assertion exactly if a mount, other than that of the root, covers the parent. */
  lemma UpPanicsWhen(t: Tree, c: nat)
    requires WellFormed(t) && c in t.nodes
    ensures Walk(t, c, [".."]).Panic? <==>
              c != t.root && t.nodes[c].parent.Some? && t.nodes[c].parent.value in t.mounts
              && t.nodes[c].parent.value != t.root
  {
    WalkOne(t, c, "..");
  }

  // ---------------------------------------------------------------- whole paths

  lemma {:induction false} SegmentsAfter(s: string, rest: string)
    requires '/' !in s && s != ""
    ensures Segments(s + "/" + rest) == [s] + Segments(rest)
  {
    assert s + "/" + rest == s + ("/" + rest) && ("/" + rest)[1..] == rest;
    SegmentsOfName(s, "/" + rest, "");
    assert "" + s == s;
  }

  lemma OneSegment(s: string)
    requires '/' !in s && s != ""
    ensures Segments(s) == [s] && !EndsWithSlash(s) && LastSegmentOf(s) == Some(s) && !IsAbsolute(s)
  {
    SegmentsOfName(s, "", "");
    assert s + "" == s && "" + s == s;
  }

  lemma RootAcross(t: Tree)
    requires WellFormed(t)
    ensures Across(t, t.root) == t.root
  {
  }

  lemma NoSegments()
    ensures Segments("") == []
  {
  }

  /** Going down and up again changes nothing: a name and `..` in front of a relative path can be left out. */
  lemma DownAndUp(t: Tree, p: nat, c: nat, name: string, rest: string, flags: Resolve, links: nat)
    requires WellFormed(t) && IsChild(t, c, p, name) && GoodName(name) && Live(t, c) && c !in t.mounts
    requires p == t.root || p !in t.mounts
    requires Segments(rest) != [] && !IsAbsolute(rest)
    ensures Meaning(t, p, name + "/../" + rest, flags, links) == Meaning(t, p, rest, flags, links)
  {
    hide WellFormed, Last, Follow, Segments, Walk;
    var path, tail := name + "/../" + rest, Segments(rest);
    NoSegments();
    assert path == name + "/" + (".." + "/" + rest) && path[|path| - 1] == rest[|rest| - 1];
    SegmentsAfter(name, ".." + "/" + rest);
    SegmentsAfter("..", rest);
    assert Segments(path) == [name, ".."] + tail;
    assert Segments(path)[..|tail| + 1] == [name, ".."] + tail[..|tail| - 1];
    DotLaws(t, p, c, name);
    WalkOn(t, p, [name, ".."], tail[..|tail| - 1]);
    RootAcross(t);
  }

  /** Where a path of one name leads, from an open directory. */
  lemma OneName(t: Tree, p: nat, name: string, flags: Resolve, links: nat)
    requires WellFormed(t) && GoodName(name) && Live(t, p) && t.nodes[p].inode == Some(Directory)
    requires p == t.root || p !in t.mounts
    ensures Meaning(t, p, name, flags, links) == LastNamed(t, p, name, flags, links)
  {
    hide Follow, LastNamed;
    OneSegment(name);
    assert [name][..0] == [];
    assert Walk(t, p, []) == Ok(p);
    assert RootOk(t);
  }

  // ---------------------------------------------------------------- symbolic links

  predicate Follows(flags: Resolve) { !flags.nofollow && !flags.expectNonexist }

  /** `link` is a symbolic link of that name in directory `p`. */
  ghost predicate IsLink(t: Tree, p: nat, link: nat, name: string, target: string) {
    && IsChild(t, link, p, name) && GoodName(name) && Live(t, link) && t.nodes[link].inode == Some(Symlink(target))
    && Live(t, p) && t.nodes[p].inode == Some(Directory) && (p == t.root || p !in t.mounts)
  }

  /**
    A link stands for its target: from the directory of the link if that is
    relative, from the root if it is absolute.
   */
  lemma LinkLaw(t: Tree, p: nat, link: nat, name: string, target: string, flags: Resolve, links: nat)
    requires WellFormed(t) && IsLink(t, p, link, name, target) && Follows(flags)
    requires Segments(target) != [] && |target| < 4096
    ensures Meaning(t, p, name, flags, links + 1)
         == Meaning(t, if target[0] == '/' then t.root else p, target, flags, links)
  {
    hide WellFormed, Segments, Walk;
    OneName(t, p, name, flags, links + 1);
    ChildIs(t, p, name, link);
    LinkFollows(t, p, link, name, target, flags, links);
    SameFromAnywhere(t, p, target, links);
    NoSegments();
    assert LastSegmentOf(target).Some?;
    var from := if target[0] == '/' then t.root else p;
    assert Target(t, p, target, flags, links) == Meaning(t, from, target, flags, links);
  }

  lemma LinkFollows(t: Tree, p: nat, link: nat, name: string, target: string, flags: Resolve, links: nat)
    requires WellFormed(t) && IsLink(t, p, link, name, target) && Follows(flags)
    requires Segments(target) != [] && |target| < 4096 && ChildOf(t, p, name) == Some(link)
    ensures LastNamed(t, p, name, flags, links + 1) == Target(t, p, target, flags, links)
  {
    hide Target, Segments, WellFormed;
    NoSegments();
    assert Follow(t, link, flags, links + 1) == Target(t, p, target, flags, links);
    assert Found(t, link, flags, links + 1) == Follow(t, link, flags, links + 1);
  }

  /** An absolute path leads to the same place from anywhere. */
  lemma SameFromAnywhere(t: Tree, p: nat, path: string, links: nat)
    ensures IsAbsolute(path) ==> ParentOf(t, p, path, links) == ParentOf(t, t.root, path, links)
  {
  }

  /** An empty link and one that is too long fail; with `nofollow` the link itself is found. */
  lemma LinkFailures(t: Tree, p: nat, link: nat, name: string, target: string, flags: Resolve, links: nat)
    requires WellFormed(t) && IsLink(t, p, link, name, target) && !flags.expectNonexist
    ensures flags.nofollow ==> Meaning(t, p, name, flags, links) == Ok(link)
    ensures !flags.nofollow && target == "" ==> Meaning(t, p, name, flags, links) == Err(ENOENT)
    ensures !flags.nofollow && |target| >= 4096 ==> Meaning(t, p, name, flags, links) == Err(ENAMETOOLONG)
  {
    OneName(t, p, name, flags, links);
    ChildIs(t, p, name, link);
    assert Found(t, link, flags, links) == if flags.nofollow then Ok(link) else Follow(t, link, flags, links);
  }

  /** A link to a directory, right before the last name, leads into that directory. */
  lemma IntoLinkedDirectory(t: Tree, p: nat, link: nat, name: string, target: string, q: nat, last: string,
                            flags: Resolve, links: nat)
    requires WellFormed(t) && IsLink(t, p, link, name, target) && GoodName(last) && link !in t.mounts
    requires Segments(target) != [] && |target| < 4096
    requires Meaning(t, if target[0] == '/' then t.root else p, target, DIRECTORY, links) == Ok(q)
    requires Live(t, q) && t.nodes[q].inode == Some(Directory) && (q == t.root || q !in t.mounts)
    ensures Meaning(t, p, name + "/" + last, flags, links + 1) == Meaning(t, q, last, flags, links + 1)
  {
    hide WellFormed, Segments, Walk, LastNamed;
    var path := name + "/" + last;
    OneSegment(last);
    SegmentsAfter(name, last);
    assert Segments(path) == [name, last] && [name, last][..1] == [name];
    assert path[|path| - 1] == last[|last| - 1] && last + "" == last;
    DotLaws(t, p, link, name);
    RootAcross(t);
    NoSegments();
    SameFromAnywhere(t, p, target, links);
    assert Target(t, p, target, DIRECTORY, links) == Ok(q);
    assert Follow(t, link, DIRECTORY, links + 1) == Ok(q);
    assert ParentOf(t, p, path, links + 1) == Ok(q);
    OneName(t, q, last, flags, links + 1);
    NameIsLast(t, q, last, flags, links + 1);
  }

  lemma NameIsLast(t: Tree, p: nat, name: string, flags: Resolve, links: nat)
    requires GoodName(name)
    ensures Last(t, p, name, flags, links) == LastNamed(t, p, name, flags, links)
  {
    OneSegment(name);
  }

  /** A link is followed only there: further up on the way, names are looked for in the link itself. */
  lemma LinkOnTheWay(t: Tree, p: nat, link: nat, name: string, target: string, inner: string, last: string,
                     flags: Resolve, links: nat)
    requires WellFormed(t) && IsLink(t, p, link, name, target) && link !in t.mounts
    requires GoodName(inner) && GoodName(last) && ChildOf(t, link, inner).None? && t.fs(link, inner).None?
    ensures Meaning(t, p, name + "/" + inner + "/" + last, flags, links) == Missing(link, inner)
  {
    hide WellFormed, Segments, Walk, Last;
    var path := name + "/" + inner + "/" + last;
    assert path == name + "/" + (inner + "/" + last);
    OneSegment(last);
    SegmentsAfter(inner, last);
    SegmentsAfter(name, inner + "/" + last);
    assert Segments(path) == [name, inner, last] && [name, inner, last][..2] == [name] + [inner];
    DotLaws(t, p, link, name);
    WalkOn(t, p, [name], [inner]);
    WalkOne(t, link, inner);
    RootAcross(t);
  }

  // ---------------------------------------------------------------- what the last name must be

  /** What is asked of the last name decides what is found: links aside, by its kind and the flags. */
  lemma KindLaw(t: Tree, p: nat, c: nat, name: string, flags: Resolve, links: nat)
    requires WellFormed(t) && IsChild(t, c, p, name) && GoodName(name) && Live(t, c) && c !in t.mounts
    requires Live(t, p) && t.nodes[p].inode == Some(Directory) && (p == t.root || p !in t.mounts)
    requires flags.expectNonexist ==> flags.expectExist
    ensures t.nodes[c].inode == Some(File) ==>
              Meaning(t, p, name, flags, links) == if flags.expectFile then Ok(c) else Err(ENOTDIR)
    ensures t.nodes[c].inode == Some(Directory) ==>
              Meaning(t, p, name, flags, links) == if flags.expectDir then Ok(c) else Err(EISDIR)
    ensures Meaning(t, p, name, Resolve(true, true, true, false, true), links) == Err(EEXIST)
  {
    OneName(t, p, name, flags, links);
    OneName(t, p, name, Resolve(true, true, true, false, true), links);
    ChildIs(t, p, name, c);
  }

  /** A name that does not exist is missing, and its entry is what a creation gets. */
  lemma MissingLaw(t: Tree, p: nat, c: nat, name: string, flags: Resolve, links: nat)
    requires WellFormed(t) && IsChild(t, c, p, name) && GoodName(name) && !Live(t, c) && t.fs(p, name).None?
    requires Live(t, p) && t.nodes[p].inode == Some(Directory) && (p == t.root || p !in t.mounts)
    ensures Meaning(t, p, name, flags, links) == if flags.expectNonexist then Ok(c) else Missing(p, name)
  {
    OneName(t, p, name, flags, links);
    ChildIs(t, p, name, c);
  }

  /** A slash behind the last name asks for a directory. */
  lemma SlashLaw(t: Tree, p: nat, name: string, flags: Resolve, links: nat)
    requires WellFormed(t) && GoodName(name) && Live(t, p) && t.nodes[p].inode == Some(Directory)
    requires p == t.root || p !in t.mounts
    ensures Meaning(t, p, name + "/", flags, links)
         == if flags.expectDir then Meaning(t, p, name, flags, links) else Err(EINVAL)
  {
    hide Follow, LastNamed;
    OneName(t, p, name, flags, links);
    NoSegments();
    SegmentsAfter(name, "");
    assert name + "/" == name + "/" + "" && (name + "/")[..|name|] == name;
    assert [name] + [] == [name] && [name][..0] == [];
    assert Walk(t, p, []) == Ok(p);
    assert RootOk(t);
  }

  /** What a last segment without a slash does after a directory part of one name. */
  lemma AfterOneName(t: Tree, p: nat, c: nat, name: string, last: string, flags: Resolve, links: nat)
    requires WellFormed(t) && IsChild(t, c, p, name) && GoodName(name) && Live(t, c) && c !in t.mounts
    requires t.nodes[c].inode == Some(Directory) && (p == t.root || p !in t.mounts)
    requires '/' !in last && last != ""
    ensures Meaning(t, p, name + "/" + last, flags, links) == Last(t, c, last, flags, links)
  {
    hide WellFormed, Follow, Last, Segments, Walk;
    DotLaws(t, p, c, name);
    OneSegment(last);
    SegmentsAfter(name, last);
    var path := name + "/" + last;
    assert path[|path| - 1] == last[|last| - 1] && last + "" == last;
    assert Segments(path) == [name, last] && [name, last][..1] == [name];
    RootAcross(t);
  }

  /** At the end of a path, too, `..` undoes a name and `.` stays. */
  lemma DotsLast(t: Tree, p: nat, c: nat, name: string, flags: Resolve, links: nat)
    requires WellFormed(t) && IsChild(t, c, p, name) && GoodName(name) && Live(t, c) && c !in t.mounts
    requires t.nodes[c].inode == Some(Directory) && (p == t.root || p !in t.mounts)
    ensures Meaning(t, p, name + "/" + "..", flags, links) == Ok(p)
    ensures Meaning(t, p, name + "/" + ".", flags, links) == Ok(c)
  {
    hide Segments, LastNamed, Walk;
    assert NodeOk(t, c);
    AfterOneName(t, p, c, name, "..", flags, links);
    AfterOneName(t, p, c, name, ".", flags, links);
  }

  /** A path without names is the place where it starts, for those who want a directory. */
  lemma EmptyPath(t: Tree, p: nat, flags: Resolve, links: nat)
    requires WellFormed(t) && Live(t, p) && (p == t.root || p !in t.mounts)
    ensures Meaning(t, p, "", flags, links) == if flags.expectDir then Ok(p) else Err(EISDIR)
  {
    NoSegments();
    RootAcross(t);
  }
}
