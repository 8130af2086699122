/**
  Where descriptors and mappings point after each operation, and what happens
  to the counts, stated on the slots themselves.
 */
module IoLaws {
  import opened Basics
  import opened IoLifetime

  /** A state in which process `p` can do something. */
  ghost predicate Ready(st: State, p: nat) { Shaped(st) && !st.panicked && p < |st.procs| }

  /** Nothing but process `p` and the objects changed. */
  ghost predicate OnlyIn(st: State, after: State, p: nat) {
    && |after.procs| == |st.procs| && p < |st.procs| && |after.ios| == |st.ios|
    && (forall q :: 0 <= q < |st.procs| && q != p ==> after.procs[q] == st.procs[q])
    && after.holds == st.holds && after.max == st.max && !after.panicked
  }

  /** No object but those of `xs` changed. */
  ghost predicate ObjectsSame(st: State, after: State, xs: set<Option<nat>>) {
    |after.ios| == |st.ios| && forall i :: 0 <= i < |st.ios| && Some(i) !in xs ==> after.ios[i] == st.ios[i]
  }

  /** The object has `n` more references, and is as open as before. */
  ghost predicate Gains(st: State, after: State, i: nat, n: nat) {
    && i < |st.ios| == |after.ios|
    && after.ios[i].refcount == st.ios[i].refcount + n && after.ios[i].closed == st.ios[i].closed
  }

  /** The object has one reference less; the last one closes it. */
  ghost predicate Loses(st: State, after: State, i: nat) {
    && i < |st.ios| == |after.ios| && after.ios[i].refcount == st.ios[i].refcount - 1
    && (after.ios[i].closed <==> st.ios[i].refcount == 1 && st.ios[i].closable)
  }

  ghost predicate IsLowestFree(files: Slots, fd: nat) {
    fd < |files| && files[fd].None? && forall j :: 0 <= j < fd ==> files[j].Some?
  }

  lemma LowestIsFirst(files: Slots, fd: nat)
    requires IsLowestFree(files, fd)
    ensures FirstFree(files, 0) == Some(fd)
  {
    FirstFreeIs(files, 0, fd);
  }

  // ---------------------------------------------------------------- descriptors

  /** A new descriptor is the lowest free one and refers to the object, which gains a reference. */
  lemma AttachLaw(st: State, p: nat, i: nat)
    requires Ready(st, p) && i < |st.ios| && !st.ios[i].closed
    ensures var after, files := After(st, AttachFd(p, i)), st.procs[p].files;
            && (forall fd: nat :: IsLowestFree(files, fd) ==>
                  && OnlyIn(st, after, p) && after.procs[p] == st.procs[p].(files := files[fd := Some(i)])
                  && ObjectsSame(st, after, {Some(i)}) && Gains(st, after, i, 1))
            && ((forall fd :: 0 <= fd < |files| ==> files[fd].Some?) ==> after == st)
  {
    var files := st.procs[p].files;
    forall fd: nat | IsLowestFree(files, fd) ensures FirstFree(files, 0) == Some(fd) { LowestIsFirst(files, fd); }
    if forall fd :: 0 <= fd < |files| ==> files[fd].Some? { FirstFreeIs(files, 0, |files|); }
  }

  /** Closing a descriptor frees it, and its object loses a reference. */
  lemma DetachLaw(st: State, p: nat, fd: nat, i: nat)
    requires Ready(st, p) && fd < |st.procs[p].files| && st.procs[p].files[fd] == Some(i)
    requires i < |st.ios| && IoValid(st.ios[i])
    ensures var after := After(st, DetachFd(p, fd));
            && OnlyIn(st, after, p) && after.procs[p] == st.procs[p].(files := st.procs[p].files[fd := None])
            && ObjectsSame(st, after, {Some(i)}) && Loses(st, after, i)
  {
  }

  /** A closed descriptor or object is refused. */
  lemma DetachRefused(st: State, p: nat, fd: int)
    requires Ready(st, p)
    requires !(0 <= fd < |st.procs[p].files| && st.procs[p].files[fd].Some?
               && st.procs[p].files[fd].value < |st.ios| && IoValid(st.ios[st.procs[p].files[fd].value]))
    ensures After(st, DetachFd(p, fd)) == st
  {
  }

  /** `io_dup`: the lowest free descriptor refers to the same object, which gains two references. */
  lemma DupLaw(st: State, p: nat, fd: nat, i: nat)
    requires Ready(st, p) && fd < |st.procs[p].files| && st.procs[p].files[fd] == Some(i)
    requires i < |st.ios| && !st.ios[i].closed
    ensures var after, files := After(st, DupFd(p, fd)), st.procs[p].files;
            && OnlyIn(st, after, p) && ObjectsSame(st, after, {Some(i)})
            && (forall to: nat :: IsLowestFree(files, to) ==>
                  after.procs[p] == st.procs[p].(files := files[to := Some(i)]) && Gains(st, after, i, 2))
            && ((forall to :: 0 <= to < |files| ==> files[to].Some?) ==>
                  after.procs[p] == st.procs[p] && Gains(st, after, i, 1))
  {
    var files := st.procs[p].files;
    forall to: nat | IsLowestFree(files, to) ensures FirstFree(files, 0) == Some(to) { LowestIsFirst(files, to); }
    if forall to :: 0 <= to < |files| ==> files[to].Some? { FirstFreeIs(files, 0, |files|); }
  }

  /** Two descriptors of one object: it has at least two references. */
  lemma {:induction false} TwoSlots(st: State, p: nat, a: nat, b: nat, i: nat)
    requires Shaped(st) && p < |st.procs| && a < |st.procs[p].files| && b < |st.procs[p].files| && a != b
    requires st.procs[p].files[a] == st.procs[p].files[b] == Some(i) && RuleAt(st, i) && i < |st.ios|
    ensures !st.ios[i].closed ==> st.ios[i].refcount >= 2
  {
    var q := st.procs[p];
    var less := WithFile(q, a, None);
    OwnFile(q, a, None, i);
    OwnFile(less, b, None, i);
    UsesSet(st, p, q, st.ios, i);
  }

  /**
    `io_dup2`: the target refers to the object of the descriptor, and no other slot
    changes.  The object gains a reference; what the target referred to loses one.
   */
  lemma Dup2Law(st: State, p: nat, fd: nat, target: nat, i: nat)
    requires Ready(st, p) && fd < |st.procs[p].files| && target < |st.procs[p].files| && fd != target
    requires st.procs[p].files[fd] == Some(i) && i < |st.ios| && IoValid(st.ios[i]) && RuleAt(st, i)
    ensures var after, files := After(st, Dup2Fd(p, fd, target)), st.procs[p].files;
            && OnlyIn(st, after, p) && after.procs[p] == st.procs[p].(files := files[target := Some(i)])
            && ObjectsSame(st, after, {Some(i), files[target]})
            && Gains(st, after, i, if files[target] == Some(i) then 0 else 1)
            && (files[target].Some? && files[target] != Some(i) ==>
                  var j := files[target].value;
                  j < |st.ios| && if IoValid(st.ios[j]) then Loses(st, after, j) else after.ios[j] == st.ios[j])
  {
    var files := st.procs[p].files;
    assert SlotsOk(files, |st.ios|) by { assert ProcOk(st.procs[p], st.max, |st.ios|); }
    if files[target] == Some(i) { TwoSlots(st, p, fd, target, i); }
  }

  /** `io_dup2` of a closed descriptor, or onto itself, does nothing. */
  lemma Dup2Nothing(st: State, p: nat, fd: int, target: int)
    requires Ready(st, p)
    requires fd == target || fd < 0 || fd >= |st.procs[p].files| || st.procs[p].files[fd].None?
    ensures After(st, Dup2Fd(p, fd, target)) == st
  {
  }

  // ---------------------------------------------------------------- mappings

  /** A mapping that is made refers to the object, which gains a reference. */
  lemma MapLaw(st: State, p: nat, i: nat, unmapOk: bool, locked: bool)
    requires Ready(st, p) && Reachable(st, p, i) && !st.ios[i].closed
    ensures var after := After(st, MapIo(p, i, true, true, unmapOk, locked));
            && OnlyIn(st, after, p) && after.procs[p] == st.procs[p].(maps := st.procs[p].maps + [Some(i)])
            && ObjectsSame(st, after, {Some(i)}) && Gains(st, after, i, 1)
  {
  }

  /** One that is not made leaves no mapping behind. */
  lemma MapRefused(st: State, p: nat, i: nat, allowed: bool, mapOk: bool, unmapOk: bool, locked: bool)
    requires Ready(st, p) && Reachable(st, p, i) && !(allowed && mapOk && !st.ios[i].closed)
    ensures var after := After(st, MapIo(p, i, allowed, mapOk, unmapOk, locked));
            && after.procs == st.procs && after.holds == st.holds && (after.panicked <==> !locked)
            && (after.panicked || !allowed || st.ios[i].closed || !unmapOk ==> after.ios == st.ios)
            && (locked && allowed && unmapOk && IoValid(st.ios[i]) ==>
                  ObjectsSame(st, after, {Some(i)}) && Loses(st, after, i))
  {
  }

  /** Both halves of a split mapping refer to its object. */
  lemma SplitLaw(st: State, p: nat, k: nat)
    requires Ready(st, p) && k < |st.procs[p].maps| && st.procs[p].maps[k].Some?
    requires st.procs[p].maps[k].value < |st.ios| && !st.ios[st.procs[p].maps[k].value].closed
    ensures var after, x := After(st, SplitMap(p, k)), st.procs[p].maps[k];
            && OnlyIn(st, after, p) && after.procs[p] == st.procs[p].(maps := st.procs[p].maps + [x])
            && ObjectsSame(st, after, {x}) && Gains(st, after, x.value, 1)
  {
  }

  /** A mapping goes, with its reference if the hook succeeds. */
  lemma UnmapLaw(st: State, p: nat, k: nat, hookOk: bool)
    requires Ready(st, p) && k < |st.procs[p].maps| && st.procs[p].maps[k].Some?
    requires st.procs[p].maps[k].value < |st.ios| && IoValid(st.ios[st.procs[p].maps[k].value])
    ensures var after, maps := After(st, UnmapOne(p, k, hookOk)), st.procs[p].maps;
            && OnlyIn(st, after, p)
            && after.procs[p] == st.procs[p].(maps := maps[..k] + maps[k + 1..])
            && if hookOk then ObjectsSame(st, after, {maps[k]}) && Loses(st, after, maps[k].value)
               else after.ios == st.ios
  {
  }

  // ---------------------------------------------------------------- processes

  lemma {:induction false} TakeNCounts(io: Io, n: nat)
    ensures TakeN(io, n).closed == io.closed
    ensures TakeN(io, n).refcount == io.refcount + if io.closed then 0 else n
  {
    if n > 0 { TakeNCounts(io, n - 1); }
  }

  /** How many slots hold the object. */
  ghost function Times(s: Slots, i: nat): nat {
    if s == [] then 0 else Times(s[1..], i) + if s[0] == Some(i) then 1 else 0
  }

  lemma {:induction false} TimesIsCount(s: Slots, i: nat)
    ensures Times(s, i) == Count(s, i)
  {
    if s != [] {
      TimesIsCount(s[1..], i);
      assert s == [s[0]] + s[1..];
    }
  }

  /**
    A child of fork has the mappings of its parent, and its descriptors of valid
    objects; each open object gains a reference for each slot that holds it.
   */
  lemma ForkLaw(st: State, p: nat, i: nat)
    requires Ready(st, p) && i < |st.ios|
    ensures var after, parent := After(st, ForkProc(p)), st.procs[p];
            && |after.procs| == |st.procs| + 1 && after.procs[..|st.procs|] == st.procs && after.holds == st.holds
            && var child := after.procs[|st.procs|];
               && child.maps == parent.maps && |child.files| == |parent.files|
               && |after.ios| == |st.ios|
               && (st.ios[i].closed ==> after.ios[i] == st.ios[i])
               && (!st.ios[i].closed ==> Gains(st, after, i, Times(child.files, i) + Times(child.maps, i)))
  {
    hide TakeN, Count;
    var parent := st.procs[p];
    var ios := Taken(st.ios, parent.maps);
    TakeNCounts(st.ios[i], Count(parent.maps, i));
    TakeNCounts(ios[i], Count(KeepAlive(ios, parent.files), i));
    TakeNValid(st.ios[i], Count(parent.maps, i));
    TakeNValid(ios[i], Count(KeepAlive(ios, parent.files), i));
    TimesIsCount(parent.maps, i);
    TimesIsCount(KeepAlive(ios, parent.files), i);
  }

  /** A child slot equals the parent slot of a valid object; a closed object is not copied. */
  lemma ForkedSlot(st: State, p: nat, fd: nat)
    requires Ready(st, p) && fd < |st.procs[p].files|
    ensures var after, x := After(st, ForkProc(p)), st.procs[p].files[fd];
            && |after.procs| == |st.procs| + 1 && fd < |after.procs[|st.procs|].files|
            && (x.Some? && x.value < |st.ios| && IoValid(st.ios[x.value]) ==> after.procs[|st.procs|].files[fd] == x)
            && (x.None? || (x.value < |st.ios| && st.ios[x.value].closed) ==>
                  after.procs[|st.procs|].files[fd].None?)
  {
    hide TakeN, Count;
    var x := st.procs[p].files[fd];
    if x.Some? && x.value < |st.ios| { TakeNValid(st.ios[x.value], Count(st.procs[p].maps, x.value)); }
  }

  lemma {:induction false} DropNCounts(io: Io, n: nat)
    requires n <= io.refcount && !io.closed
    ensures DropN(io, n).refcount == io.refcount - n && DropN(io, n).closable == io.closable
    ensures DropN(io, n).closed <==> io.closable && n > 0 && n == io.refcount
  {
    if n > 0 { DropNCounts(io, n - 1); }
  }

  /** An exit empties the tables of the process, and each object loses a reference for each slot that held it. */
  lemma ExitLaw(st: State, p: nat, i: nat)
    requires Ready(st, p) && i < |st.ios| && RuleAt(st, i)
    ensures var after, q := After(st, ExitProc(p)), st.procs[p];
            && OnlyIn(st, after, p) && after.procs[p].maps == [] && |after.procs[p].files| == st.max
            && (forall fd :: 0 <= fd < st.max ==> after.procs[p].files[fd].None?)
            && var n := Times(q.files, i) + Times(q.maps, i);
               if st.ios[i].closed then after.ios[i] == st.ios[i]
               else
                 && after.ios[i].refcount == st.ios[i].refcount - n
                 && (after.ios[i].closed <==> st.ios[i].closable && n > 0 && n == st.ios[i].refcount)
  {
    hide DropN, Count;
    var q := st.procs[p];
    var io := st.ios[i];
    UsesSet(st, p, q, st.ios, i);
    TimesIsCount(q.files, i);
    TimesIsCount(q.maps, i);
    var ios := Dropped(st.ios, q.files);
    if io.closed {
      DropClosed(io, Count(q.files, i));
      DropClosed(io, Count(q.maps, i));
    } else {
      DropNCounts(io, Count(q.files, i));
      if ios[i].closed { DropClosed(ios[i], Count(q.maps, i)); } else { DropNCounts(ios[i], Count(q.maps, i)); }
    }
  }

  lemma {:induction false} DropClosed(io: Io, n: nat)
    requires io.closed
    ensures DropN(io, n) == io
  {
    if n > 0 { DropClosed(io, n - 1); }
  }

  /** New objects have no references, new processes nothing open, and the kernel's own references count. */
  lemma NewLaw(st: State, closable: bool, i: nat)
    requires Shaped(st) && !st.panicked
    ensures After(st, OpenIo(closable)).ios == st.ios + [Io(0, false, closable, 0, 0)]
    ensures After(st, OpenIo(closable)).procs == st.procs && After(st, Spawn).ios == st.ios
    ensures var after := After(st, Spawn);
            && |after.procs| == |st.procs| + 1 && after.procs[..|st.procs|] == st.procs
            && var q := after.procs[|st.procs|];
               q.maps == [] && |q.files| == st.max && forall fd :: 0 <= fd < st.max ==> q.files[fd].None?
    ensures i < |st.ios| && !st.ios[i].closed ==>
              var after := After(st, TakeHold(i));
              && after.procs == st.procs && after.holds == st.holds[i := st.holds[i] + 1]
              && ObjectsSame(st, after, {Some(i)}) && Gains(st, after, i, 1)
    ensures i < |st.ios| && IoValid(st.ios[i]) && st.holds[i] > 0 ==>
              var after := After(st, DropHold(i));
              && after.procs == st.procs && after.holds == st.holds[i := st.holds[i] - 1]
              && ObjectsSame(st, after, {Some(i)}) && Loses(st, after, i)
  {
  }
}
