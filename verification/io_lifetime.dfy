/**
  Reference-counted I/O objects shared by file descriptor tables, mappings and
  the kernel itself.

  What a count exceeds the references by is the surplus.  It is determined by the
  history: `io_dup` and a failing munmap hook add to it.  A refused or failed
  `mmap_file` trips an assertion, as it destroys the mapping without the lock of
  the address space; only when somebody else holds that lock at this moment does
  it go on, and a failed hook then takes from the surplus.  As long as the
  surplus is not negative, an object is closed exactly when nothing refers to it
  and nothing is surplus; when it becomes negative, the object is closed under a
  reference, or will be.
 */
module IoLifetime {
  import opened Basics

  /**
    `closes` counts the calls of the close hook and `takes` the references ever
    taken; an object without a hook is not `closable`.
   */
  datatype Io = Io(refcount: nat, closed: bool, closable: bool, closes: nat, takes: nat)

  type Slots = seq<Option<nat>>

  /** A process: its descriptor table, and the object behind each of its mappings. */
  datatype Proc = Proc(files: Slots, maps: Slots)

  /**
    `holds` are the kernel's own references; every table has `max` descriptors.
    After a failed assertion the kernel has `panicked` and nothing moves any more.
   */
  datatype State = State(max: nat, ios: seq<Io>, procs: seq<Proc>, holds: seq<nat>, panicked: bool)

  // ---------------------------------------------------------------- one object

  /** `io_init` */
  function Fresh(closable: bool): Io { Io(0, false, closable, 0, 0) }

  /** `io_valid` */
  predicate IoValid(io: Io) { !io.closed && io.refcount > 0 }

  /** `io_ref`: a closed object is refused. */
  function Referenced(io: Io): Io {
    if io.closed then io else io.(refcount := io.refcount + 1, takes := io.takes + 1)
  }

  /** `io_unref`: the last reference runs the close hook. */
  function Released(io: Io): Io {
    if io.closed || io.refcount == 0 then io
    else if io.refcount == 1 && io.closable then io.(refcount := 0, closed := true, closes := io.closes + 1)
    else io.(refcount := io.refcount - 1)
  }

  /** The object is referred to `refs` times, and its count exceeds that by `surplus`. */
  ghost predicate IoOk(io: Io, refs: nat, surplus: int) {
    if io.closed then refs == 0 && surplus == 0 && io.closable && io.takes > 0
    else
      && surplus >= 0 && io.refcount == refs + surplus
      && (io.refcount > 0 ==> io.takes > 0) && (io.closable && io.takes > 0 ==> io.refcount > 0)
  }

  /** Dropping a reference closes the object exactly when it was the last one and nothing is surplus. */
  lemma ReleasedOk(io: Io, refs: nat, surplus: int)
    requires IoOk(io, refs, surplus) && refs > 0
    ensures IoOk(Released(io), refs - 1, surplus)
    ensures Released(io).closed <==> io.closable && refs == 1 && surplus == 0
  {
  }

  /** `n` references taken one after the other. */
  function TakeN(io: Io, n: nat): Io {
    if n == 0 then io else Referenced(TakeN(io, n - 1))
  }

  function DropN(io: Io, n: nat): Io {
    if n == 0 then io else Released(DropN(io, n - 1))
  }

  lemma {:induction false} TakeNOk(io: Io, n: nat, refs: nat, surplus: int)
    requires IoOk(io, refs, surplus) && !io.closed
    ensures IoOk(TakeN(io, n), refs + n, surplus) && !TakeN(io, n).closed
  {
    if n > 0 { TakeNOk(io, n - 1, refs, surplus); }
  }

  lemma {:induction false} DropNOk(io: Io, n: nat, refs: nat, surplus: int)
    requires IoOk(io, refs, surplus) && n <= refs
    ensures IoOk(DropN(io, n), refs - n, surplus)
  {
    if n > 0 { DropNOk(io, n - 1, refs, surplus); }
  }

  lemma {:induction false} TakeNValid(io: Io, n: nat)
    ensures IoValid(io) ==> IoValid(TakeN(io, n))
    ensures TakeN(io, n).closed == io.closed && (io.closed ==> TakeN(io, n) == io)
  {
    if n > 0 { TakeNValid(io, n - 1); }
  }

  // ---------------------------------------------------------------- slots

  function NoFiles(max: nat): Slots { seq(max, _ => None) }

  predicate Alive(ios: seq<Io>, x: Option<nat>) { x.Some? && x.value < |ios| && IoValid(ios[x.value]) }

  /** What `io_ref` returns and a slot then holds: nothing for a closed object. */
  function Kept(ios: seq<Io>, x: Option<nat>): Option<nat> {
    if x.Some? && x.value < |ios| && !ios[x.value].closed then x else None
  }

  function Ref(ios: seq<Io>, x: Option<nat>): seq<Io> {
    if x.Some? && x.value < |ios| then ios[x.value := Referenced(ios[x.value])] else ios
  }

  function Unref(ios: seq<Io>, x: Option<nat>): seq<Io> {
    if x.Some? && x.value < |ios| then ios[x.value := Released(ios[x.value])] else ios
  }

  ghost function Count(s: Slots, i: nat): nat { multiset(s)[Some(i)] }

  /** Every slot's object referenced, or released, once for each slot. */
  ghost function Taken(ios: seq<Io>, s: Slots): seq<Io> {
    seq(|ios|, i requires 0 <= i < |ios| => TakeN(ios[i], Count(s, i)))
  }

  ghost function Dropped(ios: seq<Io>, s: Slots): seq<Io> {
    seq(|ios|, i requires 0 <= i < |ios| => DropN(ios[i], Count(s, i)))
  }

  lemma CountStep(s: Slots, x: Option<nat>, i: nat)
    ensures Count(s + [x], i) == Count(s, i) + (if x == Some(i) then 1 else 0) && Count([], i) == 0
  {
  }

  lemma TakenStep(ios: seq<Io>, s: Slots, x: Option<nat>)
    ensures Taken(ios, s + [x]) == Ref(Taken(ios, s), x) && Taken(ios, []) == ios
  {
    hide Count, TakeN;
    forall i | 0 <= i < |ios|
      ensures TakeN(ios[i], Count(s + [x], i)) == Ref(Taken(ios, s), x)[i] && TakeN(ios[i], Count([], i)) == ios[i]
    {
      CountStep(s, x, i);
      NStep(ios[i], Count(s, i));
    }
  }

  lemma NStep(io: Io, n: nat)
    ensures TakeN(io, n + 1) == Referenced(TakeN(io, n)) && DropN(io, n + 1) == Released(DropN(io, n))
    ensures TakeN(io, 0) == io == DropN(io, 0)
  {
  }

  lemma DroppedStep(ios: seq<Io>, s: Slots, x: Option<nat>)
    ensures Dropped(ios, s + [x]) == Unref(Dropped(ios, s), x) && Dropped(ios, []) == ios
  {
    hide Count, DropN;
    forall i | 0 <= i < |ios|
      ensures DropN(ios[i], Count(s + [x], i)) == Unref(Dropped(ios, s), x)[i] && DropN(ios[i], Count([], i)) == ios[i]
    {
      CountStep(s, x, i);
      NStep(ios[i], Count(s, i));
    }
  }

  /** The descriptors that a fork copies: those of valid objects. */
  function KeepAlive(ios: seq<Io>, s: Slots): Slots {
    seq(|s|, k requires 0 <= k < |s| => if Alive(ios, s[k]) then s[k] else None)
  }

  function Without(s: Slots, k: nat): Slots
    requires k < |s|
  {
    s[..k] + s[k + 1..]
  }

  /** The lowest free descriptor. */
  function FirstFree(files: Slots, k: nat): (r: Option<nat>)
    ensures r.Some? ==> r.value < |files| && files[r.value].None?
    decreases |files| - k
  {
    if k >= |files| then None else if files[k].None? then Some(k) else FirstFree(files, k + 1)
  }

  lemma {:induction false} FirstFreeIs(files: Slots, k: nat, n: nat)
    requires k <= n <= |files| && (forall j :: k <= j < n ==> files[j].Some?) && (n < |files| ==> files[n].None?)
    ensures FirstFree(files, k) == if n < |files| then Some(n) else None
    decreases n - k
  {
    if k < n { FirstFreeIs(files, k + 1, n); }
  }

  function WithFile(p: Proc, fd: nat, x: Option<nat>): Proc
    requires fd < |p.files|
  {
    p.(files := p.files[fd := x])
  }

  predicate OpenFd(p: Proc, fd: int) { 0 <= fd < |p.files| && p.files[fd].Some? }

  // ---------------------------------------------------------------- what the operations do

  /**
    In `MapIo` and `UnmapOne`, driver hooks say whether they succeed.  `locked`
    says whether somebody else holds the lock of the address space when `mmap_file`
    destroys a mapping it could not make.
   */
  datatype Op =
    | OpenIo(closable: bool) | Spawn | TakeHold(i: nat) | DropHold(i: nat)
    | AttachFd(p: nat, i: nat) | DetachFd(p: nat, fd: int)
    | DupFd(p: nat, fd: int) | Dup2Fd(p: nat, fd: int, target: int)
    | MapIo(p: nat, i: nat, allowed: bool, mapOk: bool, unmapOk: bool, locked: bool) | SplitMap(p: nat, k: nat)
    | UnmapOne(p: nat, k: nat, hookOk: bool) | ForkProc(p: nat) | ExitProc(p: nat)

  function WithProc(st: State, p: nat, q: Proc, ios: seq<Io>): State
    requires p < |st.procs|
  {
    st.(ios := ios, procs := st.procs[p := q])
  }

  /** `process_attach_ref_fd` */
  function Attached(st: State, p: nat, x: Option<nat>): State
    requires p < |st.procs|
  {
    var fd := FirstFree(st.procs[p].files, 0);
    if fd.None? then st else WithProc(st, p, WithFile(st.procs[p], fd.value, Kept(st.ios, x)), Ref(st.ios, x))
  }

  /** `process_detach_fd` */
  function Detached(st: State, p: nat, fd: int): State
    requires p < |st.procs|
  {
    var q := st.procs[p];
    if OpenFd(q, fd) && Alive(st.ios, q.files[fd])
    then WithProc(st, p, WithFile(q, fd, None), Unref(st.ios, q.files[fd]))
    else st
  }

  /** `io_dup` takes a reference before it attaches the descriptor, which takes one too. */
  function Duplicated(st: State, p: nat, fd: int): State
    requires p < |st.procs|
  {
    if !OpenFd(st.procs[p], fd) then st
    else
      var x := st.procs[p].files[fd];
      Attached(st.(ios := Ref(st.ios, x)), p, Kept(st.ios, x))
  }

  /** `io_dup2`; a target out of range is not noticed, and the reference is stored outside the table. */
  function Duplicated2(st: State, p: nat, fd: int, target: int): State
    requires p < |st.procs|
  {
    var q := st.procs[p];
    if !OpenFd(q, fd) || fd == target then st
    else if target < 0 || target >= |q.files| then st.(ios := Ref(st.ios, q.files[fd]))
    else
      var cut := Detached(st, p, target);
      WithProc(cut, p, WithFile(cut.procs[p], target, Kept(cut.ios, q.files[fd])), Ref(cut.ios, q.files[fd]))
  }

  /** A caller of `mmap_file` has the object from a descriptor, or holds it. */
  predicate Reachable(st: State, p: nat, i: nat)
    requires p < |st.procs|
  {
    i < |st.ios| && i < |st.holds| && (Some(i) in st.procs[p].files || st.holds[i] > 0)
  }

  /**
    `mmap_file` and `io_mmap`, for a mapping that found its place.  A mapping that
    is refused or whose hook fails is destroyed, which the kernel asserts to happen
    under the lock of the address space.  Where somebody else holds that lock, a
    refused mapping names no object yet; one whose hook failed does, and drops a
    reference that it never took.
   */
  function Mapped(st: State, p: nat, i: nat, allowed: bool, mapOk: bool, unmapOk: bool, locked: bool): State
    requires p < |st.procs|
  {
    if !Reachable(st, p, i) then st
    else if Allowed(st.ios[i], allowed) && mapOk then
      WithProc(st, p, st.procs[p].(maps := st.procs[p].maps + [Some(i)]), Ref(st.ios, Some(i)))
    else if !locked then st.(panicked := true)
    else if Allowed(st.ios[i], allowed) && unmapOk then st.(ios := Unref(st.ios, Some(i)))
    else st
  }

  /** `io_mmap_perm_check`; `allowed` stands for the flags. */
  predicate Allowed(io: Io, allowed: bool) { allowed && !io.closed }

  /** `vmap_split`: both halves refer to the object. */
  function SplitAt(st: State, p: nat, k: nat): State
    requires p < |st.procs|
  {
    var q := st.procs[p];
    if k >= |q.maps| then st
    else WithProc(st, p, q.(maps := q.maps + [Kept(st.ios, q.maps[k])]), Ref(st.ios, q.maps[k]))
  }

  /** `vmap_destroy` and `io_munmap`: a hook that fails leaves the reference behind. */
  function Unmapped(st: State, p: nat, k: nat, hookOk: bool): State
    requires p < |st.procs|
  {
    var q := st.procs[p];
    if k >= |q.maps| then st
    else WithProc(st, p, q.(maps := Without(q.maps, k)), if hookOk then Unref(st.ios, q.maps[k]) else st.ios)
  }

  /** The mappings and descriptors a fork copies. */
  ghost function Forked(st: State, p: nat): State
    requires p < |st.procs|
  {
    var q := st.procs[p];
    var ios := Taken(st.ios, q.maps);
    st.(ios := Taken(ios, KeepAlive(ios, q.files)), procs := st.procs + [Proc(KeepAlive(ios, q.files), q.maps)])
  }

  /** A process ends: its descriptors are closed and its mappings go. */
  ghost function Exited(st: State, p: nat): State
    requires p < |st.procs|
  {
    var q := st.procs[p];
    WithProc(st, p, Proc(NoFiles(st.max), []), Dropped(Dropped(st.ios, q.files), q.maps))
  }

  function HoldTaken(st: State, i: nat): State {
    if i < |st.ios| && i < |st.holds| && !st.ios[i].closed
    then st.(ios := Ref(st.ios, Some(i)), holds := st.holds[i := st.holds[i] + 1]) else st
  }

  function HoldDropped(st: State, i: nat): State {
    if i < |st.ios| && i < |st.holds| && st.holds[i] > 0
    then st.(ios := Unref(st.ios, Some(i)), holds := st.holds[i := st.holds[i] - 1]) else st
  }

  /** What an operation does; one that makes no sense does nothing, and so does every one after a panic. */
  ghost function After(st: State, op: Op): State {
    if st.panicked then st else Next(st, op)
  }

  ghost function Next(st: State, op: Op): State {
    match op
    case OpenIo(closable) => st.(ios := st.ios + [Fresh(closable)], holds := st.holds + [0])
    case Spawn => st.(procs := st.procs + [Proc(NoFiles(st.max), [])])
    case TakeHold(i) => HoldTaken(st, i)
    case DropHold(i) => HoldDropped(st, i)
    case _ => if op.p < |st.procs| then AfterIn(st, op) else st
  }

  ghost function AfterIn(st: State, op: Op): State
    requires !op.OpenIo? && !op.Spawn? && !op.TakeHold? && !op.DropHold? && op.p < |st.procs|
  {
    match op
    case AttachFd(p, i) => if i < |st.ios| then Attached(st, p, Some(i)) else st
    case DetachFd(p, fd) => Detached(st, p, fd)
    case DupFd(p, fd) => Duplicated(st, p, fd)
    case Dup2Fd(p, fd, target) => Duplicated2(st, p, fd, target)
    case MapIo(p, i, allowed, mapOk, unmapOk, locked) => Mapped(st, p, i, allowed, mapOk, unmapOk, locked)
    case SplitMap(p, k) => SplitAt(st, p, k)
    case UnmapOne(p, k, hookOk) => Unmapped(st, p, k, hookOk)
    case ForkProc(p) => Forked(st, p)
    case ExitProc(p) => Exited(st, p)
  }

  ghost function AfterAll(st: State, ops: seq<Op>): State {
    if ops == [] then st else After(AfterAll(st, ops[..|ops| - 1]), ops[|ops| - 1])
  }

  function Empty(max: nat): State { State(max, [], [], [], false) }

  // ---------------------------------------------------------------- counting references

  ghost function Own(p: Proc, i: nat): nat { Count(p.files, i) + Count(p.maps, i) }

  /** Descriptor slots and mappings that refer to object `i`. */
  ghost function Refs(procs: seq<Proc>, i: nat): nat {
    if procs == [] then 0 else Refs(procs[..|procs| - 1], i) + Own(procs[|procs| - 1], i)
  }

  lemma {:induction false} RefsSet(procs: seq<Proc>, p: nat, q: Proc, i: nat)
    requires p < |procs|
    ensures Refs(procs[p := q], i) == Refs(procs, i) - Own(procs[p], i) + Own(q, i)
    ensures Refs(procs, i) >= Own(procs[p], i)
  {
    var last := |procs| - 1;
    if p == last {
      assert procs[p := q][..last] == procs[..last];
    } else {
      RefsSet(procs[..last], p, q, i);
      assert procs[p := q][..last] == procs[..last][p := q];
    }
  }

  lemma RefsAdd(procs: seq<Proc>, q: Proc, i: nat)
    ensures Refs(procs + [q], i) == Refs(procs, i) + Own(q, i)
  {
    assert (procs + [q])[..|procs|] == procs;
  }

  /** Everything that refers to the object. */
  ghost function Uses(st: State, i: nat): nat {
    Refs(st.procs, i) + if i < |st.holds| then st.holds[i] else 0
  }

  lemma OwnFile(p: Proc, fd: nat, x: Option<nat>, i: nat)
    requires fd < |p.files|
    ensures Own(WithFile(p, fd, x), i)
         == Own(p, i) - (if p.files[fd] == Some(i) then 1 else 0) + (if x == Some(i) then 1 else 0)
  {
  }

  lemma OwnMap(p: Proc, x: Option<nat>, i: nat)
    ensures Own(p.(maps := p.maps + [x]), i) == Own(p, i) + (if x == Some(i) then 1 else 0)
  {
    CountStep(p.maps, x, i);
  }

  lemma OwnWithout(p: Proc, k: nat, i: nat)
    requires k < |p.maps|
    ensures Own(p.(maps := Without(p.maps, k)), i) == Own(p, i) - (if p.maps[k] == Some(i) then 1 else 0)
    ensures p.maps[k] == Some(i) ==> Own(p, i) > 0
  {
    assert p.maps == p.maps[..k] + [p.maps[k]] + p.maps[k + 1..];
  }

  /** Who refers to the object after one process changed. */
  lemma UsesSet(st: State, p: nat, q: Proc, ios: seq<Io>, i: nat)
    requires p < |st.procs|
    ensures Uses(WithProc(st, p, q, ios), i) == Uses(st, i) - Own(st.procs[p], i) + Own(q, i)
    ensures Uses(st, i) >= Own(st.procs[p], i)
  {
    RefsSet(st.procs, p, q, i);
  }

  // ---------------------------------------------------------------- shape

  ghost predicate SlotsOk(s: Slots, n: nat) {
    forall k :: 0 <= k < |s| && s[k].Some? ==> s[k].value < n
  }

  ghost predicate ProcOk(q: Proc, max: nat, n: nat) { |q.files| == max && SlotsOk(q.files, n) && SlotsOk(q.maps, n) }

  /** Slots name objects that exist. */
  ghost predicate Shaped(st: State) {
    |st.holds| == |st.ios| && forall p :: 0 <= p < |st.procs| ==> ProcOk(st.procs[p], st.max, |st.ios|)
  }

  lemma ShapedProc(st: State, p: nat, q: Proc, ios: seq<Io>)
    requires Shaped(st) && p < |st.procs| && |ios| == |st.ios| && ProcOk(q, st.max, |st.ios|)
    ensures Shaped(WithProc(st, p, q, ios))
  {
  }

  lemma WithoutOk(s: Slots, k: nat, n: nat)
    requires k < |s| && SlotsOk(s, n)
    ensures SlotsOk(Without(s, k), n)
  {
  }

  lemma DetachedShape(st: State, p: nat, fd: int)
    requires Shaped(st) && p < |st.procs|
    ensures Shaped(Detached(st, p, fd)) && |Detached(st, p, fd).procs| == |st.procs|
    ensures |Detached(st, p, fd).ios| == |st.ios| && Detached(st, p, fd).max == st.max
  {
    var q := st.procs[p];
    if OpenFd(q, fd) { ShapedProc(st, p, WithFile(q, fd, None), Unref(st.ios, q.files[fd])); }
  }

  lemma AttachedShape(st: State, p: nat, x: Option<nat>)
    requires Shaped(st) && p < |st.procs|
    ensures Shaped(Attached(st, p, x)) && |Attached(st, p, x).procs| == |st.procs|
  {
    var fd := FirstFree(st.procs[p].files, 0);
    if fd.Some? { ShapedProc(st, p, WithFile(st.procs[p], fd.value, Kept(st.ios, x)), Ref(st.ios, x)); }
  }

  lemma Duplicated2Shape(st: State, p: nat, fd: int, target: int)
    requires Shaped(st) && p < |st.procs|
    ensures Shaped(Duplicated2(st, p, fd, target)) && Duplicated2(st, p, fd, target).max == st.max
  {
    hide Shaped, Detached;
    DetachedShape(st, p, target);
    TargetShape(st, Detached(st, p, target), p, fd, target);
    IosShape(st, OpenFile(st, p, fd));
  }

  function OpenFile(st: State, p: nat, fd: int): Option<nat>
    requires p < |st.procs|
  {
    if OpenFd(st.procs[p], fd) then st.procs[p].files[fd] else None
  }

  lemma IosShape(st: State, x: Option<nat>)
    requires Shaped(st)
    ensures Shaped(st.(ios := Ref(st.ios, x)))
  {
  }

  lemma TargetShape(st: State, cut: State, p: nat, fd: int, target: int)
    requires Shaped(st) && Shaped(cut) && p < |st.procs| == |cut.procs| && st.max == cut.max && |cut.ios| == |st.ios|
    ensures |cut.procs[p].files| == |st.procs[p].files| == st.max
    ensures OpenFd(st.procs[p], fd) && 0 <= target < st.max ==>
              var x := st.procs[p].files[fd];
              Shaped(WithProc(cut, p, WithFile(cut.procs[p], target, Kept(cut.ios, x)), Ref(cut.ios, x)))
  {
  }

  lemma AfterInShape(st: State, op: Op)
    requires Shaped(st) && !op.OpenIo? && !op.Spawn? && !op.TakeHold? && !op.DropHold? && op.p < |st.procs|
    ensures Shaped(AfterIn(st, op)) && AfterIn(st, op).max == st.max
  {
    hide Detached, Attached, Duplicated2;
    var q := st.procs[op.p];
    assert ProcOk(q, st.max, |st.ios|);
    match op
    case AttachFd(p, i) => AttachedShape(st, p, Some(i)); AttachedMax(st, p, Some(i));
    case DetachFd(p, fd) => DetachedShape(st, p, fd);
    case DupFd(p, fd) =>
      if OpenFd(q, fd) {
        var mid := st.(ios := Ref(st.ios, q.files[fd]));
        AttachedShape(mid, p, Kept(st.ios, q.files[fd]));
        AttachedMax(mid, p, Kept(st.ios, q.files[fd]));
      }
    case Dup2Fd(p, fd, target) => Duplicated2Shape(st, p, fd, target);
    case UnmapOne(p, k, _) => if k < |q.maps| { WithoutOk(q.maps, k, |st.ios|); }
    case _ =>
  }

  lemma AttachedMax(st: State, p: nat, x: Option<nat>)
    requires p < |st.procs|
    ensures Attached(st, p, x).max == st.max
  {
  }

  lemma AfterShape(st: State, op: Op)
    requires Shaped(st)
    ensures Shaped(After(st, op)) && After(st, op).max == st.max
  {
    hide AfterIn;
    match op
    case OpenIo(_) =>
    case Spawn =>
    case TakeHold(i) =>
    case DropHold(i) =>
    case _ => if op.p < |st.procs| { AfterInShape(st, op); }
  }

  lemma {:induction false} AfterAllShape(st: State, ops: seq<Op>)
    requires Shaped(st)
    ensures Shaped(AfterAll(st, ops)) && AfterAll(st, ops).max == st.max
  {
    if ops != [] {
      AfterAllShape(st, ops[..|ops| - 1]);
      AfterShape(AfterAll(st, ops[..|ops| - 1]), ops[|ops| - 1]);
    }
  }

  // ---------------------------------------------------------------- the surplus

  /** A driver's mmap hook fails on object `i` while somebody else holds the lock: a reference is dropped. */
  predicate Drops(st: State, op: Op, i: nat) {
    && op.MapIo? && op.i == i && op.p < |st.procs| && Reachable(st, op.p, i) && !st.panicked
    && Allowed(st.ios[i], op.allowed) && !op.mapOk && op.unmapOk && op.locked
  }

  /** A reference that belongs to nobody: a dup takes one, so does a dup2 out of range, a failed unmap leaves one. */
  predicate Leaves(st: State, op: Op, i: nat) {
    && !st.panicked
    && match op
       case DupFd(p, fd) => p < |st.procs| && Kept(st.ios, OpenFile(st, p, fd)) == Some(i)
       case Dup2Fd(p, fd, target) =>
         p < |st.procs| && Kept(st.ios, OpenFile(st, p, fd)) == Some(i) && !(0 <= target < |st.procs[p].files|)
       case UnmapOne(p, k, hookOk) =>
         p < |st.procs| && k < |st.procs[p].maps| && st.procs[p].maps[k] == Some(i) && !hookOk
       case _ => false
  }

  /** What an operation adds to the surplus of object `i`. */
  function SurplusStep(st: State, op: Op, i: nat): int {
    if Drops(st, op, i) then -1 else if Leaves(st, op, i) then 1 else 0
  }

  /** References that belong to nobody, minus those dropped without being taken, of object `i` over a run. */
  ghost function Surplus(st: State, ops: seq<Op>, i: nat): int {
    if ops == [] then 0
    else
      var n := |ops| - 1;
      Surplus(st, ops[..n], i) + SurplusStep(AfterAll(st, ops[..n]), ops[n], i)
  }

  /** The count of object `i`, if it exists, is its references and `n`. */
  ghost predicate CountOk(st: State, i: nat, n: int) {
    if i < |st.ios| then IoOk(st.ios[i], Uses(st, i), n) else n == 0 && Uses(st, i) == 0
  }

  lemma UsedIsAlive(st: State, i: nat, n: int)
    requires CountOk(st, i, n) && Uses(st, i) > 0
    ensures i < |st.ios| && IoValid(st.ios[i])
  {
  }

  lemma FileUsed(st: State, p: nat, fd: int, i: nat)
    requires p < |st.procs| && 0 <= fd < |st.procs[p].files| && st.procs[p].files[fd] == Some(i)
    ensures Own(st.procs[p], i) > 0 && Uses(st, i) > 0
  {
    assert Some(i) in st.procs[p].files;
    UsesSet(st, p, st.procs[p], st.ios, i);
  }

  lemma MapUsed(st: State, p: nat, k: nat, i: nat)
    requires p < |st.procs| && k < |st.procs[p].maps| && st.procs[p].maps[k] == Some(i)
    ensures Own(st.procs[p], i) > 0 && Uses(st, i) > 0
  {
    assert Some(i) in st.procs[p].maps;
    UsesSet(st, p, st.procs[p], st.ios, i);
  }

  lemma ReachableUsed(st: State, p: nat, i: nat)
    requires p < |st.procs| && Reachable(st, p, i)
    ensures Uses(st, i) > 0
  {
    UsesSet(st, p, st.procs[p], st.ios, i);
  }

  lemma AttachCounts(st: State, p: nat, x: Option<nat>, i: nat, n: int)
    requires p < |st.procs| && CountOk(st, i, n)
    ensures CountOk(Attached(st, p, x), i, n)
  {
    hide Uses, Own;
    var fd := FirstFree(st.procs[p].files, 0);
    if fd.Some? {
      OwnFile(st.procs[p], fd.value, Kept(st.ios, x), i);
      UsesSet(st, p, WithFile(st.procs[p], fd.value, Kept(st.ios, x)), Ref(st.ios, x), i);
    }
  }

  lemma DetachCounts(st: State, p: nat, fd: int, i: nat, n: int)
    requires p < |st.procs| && CountOk(st, i, n)
    ensures CountOk(Detached(st, p, fd), i, n)
    ensures p < |Detached(st, p, fd).procs| && |Detached(st, p, fd).procs[p].files| == |st.procs[p].files|
    ensures 0 <= fd < |st.procs[p].files| ==> Detached(st, p, fd).procs[p].files[fd] != Some(i)
    ensures forall k :: 0 <= k < |st.procs[p].files| && k != fd ==>
              Detached(st, p, fd).procs[p].files[k] == st.procs[p].files[k]
  {
    hide Uses, Own;
    var q := st.procs[p];
    if OpenFd(q, fd) {
      if q.files[fd] == Some(i) {
        FileUsed(st, p, fd, i);
        UsedIsAlive(st, i, n);
        ReleasedOk(st.ios[i], Uses(st, i), n);
      }
      OwnFile(q, fd, None, i);
      UsesSet(st, p, WithFile(q, fd, None), Unref(st.ios, q.files[fd]), i);
    }
  }

  lemma DupCounts(st: State, p: nat, fd: int, i: nat, n: int)
    requires p < |st.procs| && CountOk(st, i, n) && !st.panicked
    ensures CountOk(Duplicated(st, p, fd), i, n + SurplusStep(st, DupFd(p, fd), i))
  {
    hide Own, Refs, Attached;
    if OpenFd(st.procs[p], fd) {
      var x := st.procs[p].files[fd];
      var mid := st.(ios := Ref(st.ios, x));
      assert Uses(mid, i) == Uses(st, i);
      AttachCounts(mid, p, Kept(st.ios, x), i, n + SurplusStep(st, DupFd(p, fd), i));
    }
  }

  lemma Dup2Counts(st: State, p: nat, fd: int, target: int, i: nat, n: int)
    requires p < |st.procs| && CountOk(st, i, n) && !st.panicked
    ensures CountOk(Duplicated2(st, p, fd, target), i, n + SurplusStep(st, Dup2Fd(p, fd, target), i))
  {
    hide Own, Refs, Detached;
    var q := st.procs[p];
    if OpenFd(q, fd) && fd != target && !(0 <= target < |q.files|) {
      assert Uses(st.(ios := Ref(st.ios, q.files[fd])), i) == Uses(st, i);
    } else if OpenFd(q, fd) && fd != target {
      DetachCounts(st, p, target, i, n);
      var cut, x := Detached(st, p, target), q.files[fd];
      if x == Some(i) {
        FileUsed(cut, p, fd, i);
        UsedIsAlive(cut, i, n);
      }
      OwnFile(cut.procs[p], target, Kept(cut.ios, x), i);
      UsesSet(cut, p, WithFile(cut.procs[p], target, Kept(cut.ios, x)), Ref(cut.ios, x), i);
    }
  }

  /** A dropped reference keeps the count right exactly when there is surplus; else it falls below the references. */
  lemma MapCounts(st: State, op: Op, i: nat, n: int)
    requires op.MapIo? && op.p < |st.procs| && CountOk(st, i, n) && !st.panicked
    ensures var after, m := AfterIn(st, op), n + SurplusStep(st, op, i);
            if m >= 0 then CountOk(after, i, m) else i < |after.ios| && !RuleAt(after, i)
  {
    hide Own, Refs;
    if Reachable(st, op.p, op.i) {
      ReachableUsed(st, op.p, op.i);
      OwnMap(st.procs[op.p], Some(op.i), i);
      UsesSet(st, op.p, st.procs[op.p].(maps := st.procs[op.p].maps + [Some(op.i)]), Ref(st.ios, Some(op.i)), i);
    }
  }

  lemma SplitCounts(st: State, p: nat, k: nat, i: nat, n: int)
    requires p < |st.procs| && CountOk(st, i, n)
    ensures CountOk(SplitAt(st, p, k), i, n)
  {
    hide Uses, Own;
    var q := st.procs[p];
    if k < |q.maps| {
      OwnMap(q, Kept(st.ios, q.maps[k]), i);
      UsesSet(st, p, q.(maps := q.maps + [Kept(st.ios, q.maps[k])]), Ref(st.ios, q.maps[k]), i);
    }
  }

  lemma UnmapCounts(st: State, p: nat, k: nat, hookOk: bool, i: nat, n: int)
    requires p < |st.procs| && CountOk(st, i, n) && !st.panicked
    ensures CountOk(Unmapped(st, p, k, hookOk), i, n + SurplusStep(st, UnmapOne(p, k, hookOk), i))
  {
    hide Uses, Own, Without;
    var q := st.procs[p];
    if k < |q.maps| {
      if q.maps[k] == Some(i) {
        MapUsed(st, p, k, i);
        UsedIsAlive(st, i, n);
      }
      OwnWithout(q, k, i);
      UsesSet(st, p, q.(maps := Without(q.maps, k)), if hookOk then Unref(st.ios, q.maps[k]) else st.ios, i);
    }
  }

  lemma KeepAliveCount(ios: seq<Io>, s: Slots, i: nat)
    ensures Count(KeepAlive(ios, s), i) == if i < |ios| && IoValid(ios[i]) then Count(s, i) else 0
    decreases |s|
  {
    if s != [] {
      var n := |s| - 1;
      KeepAliveCount(ios, s[..n], i);
      assert s == s[..n] + [s[n]];
      assert KeepAlive(ios, s) == KeepAlive(ios, s[..n]) + [KeepAlive(ios, s)[n]];
      CountStep(s[..n], s[n], i);
      CountStep(KeepAlive(ios, s[..n]), KeepAlive(ios, s)[n], i);
    }
  }

  lemma ForkCounts(st: State, p: nat, i: nat, n: int)
    requires p < |st.procs| && CountOk(st, i, n)
    ensures CountOk(Forked(st, p), i, n)
  {
    hide Own, Refs, KeepAlive, TakeN;
    var q := st.procs[p];
    var ios := Taken(st.ios, q.maps);
    var child := Proc(KeepAlive(ios, q.files), q.maps);
    KeepAliveCount(ios, q.files, i);
    RefsAdd(st.procs, child, i);
    OwnIs(q, i);
    OwnIs(child, i);
    UsesSet(st, p, q, st.ios, i);
    if i < |st.ios| {
      if Own(q, i) == 0 {
        TakeNothing(st.ios[i]);
      } else {
        TakeNOk(st.ios[i], Count(q.maps, i), Uses(st, i), n);
        TakeNOk(ios[i], Count(child.files, i), Uses(st, i) + Count(q.maps, i), n);
      }
    }
  }

  lemma TakeNothing(io: Io)
    ensures TakeN(io, 0) == io
  {
  }

  lemma OwnIs(p: Proc, i: nat)
    ensures Own(p, i) == Count(p.files, i) + Count(p.maps, i)
  {
  }

  lemma ExitCounts(st: State, p: nat, i: nat, n: int)
    requires p < |st.procs| && CountOk(st, i, n)
    ensures CountOk(Exited(st, p), i, n)
  {
    hide Own, Uses, DropN;
    var q, none := st.procs[p], Proc(NoFiles(st.max), []);
    OwnIs(q, i);
    OwnNothing(st.max, i);
    UsesSet(st, p, none, Dropped(Dropped(st.ios, q.files), q.maps), i);
    if i < |st.ios| {
      DropNOk(st.ios[i], Count(q.files, i), Uses(st, i), n);
      DropNOk(Dropped(st.ios, q.files)[i], Count(q.maps, i), Uses(st, i) - Count(q.files, i), n);
    }
  }

  lemma OwnNothing(max: nat, i: nat)
    ensures Own(Proc(NoFiles(max), []), i) == 0
  {
    assert Some(i) !in NoFiles(max);
  }

  lemma HoldCounts(st: State, op: Op, i: nat, n: int)
    requires (op.TakeHold? || op.DropHold?) && CountOk(st, i, n)
    ensures CountOk(After(st, op), i, n)
  {
  }

  /** No count is below the references, and no object is closed under one. */
  ghost predicate RuleAt(st: State, i: nat) {
    i < |st.ios| ==> if st.ios[i].closed then Uses(st, i) == 0 else st.ios[i].refcount >= Uses(st, i)
  }

  /** Every operation keeps the count of every object right, unless a dropped reference makes the surplus negative. */
  lemma StepCounts(st: State, op: Op, i: nat, n: int)
    requires Shaped(st) && CountOk(st, i, n)
    ensures var after, m := After(st, op), n + SurplusStep(st, op, i);
            if m >= 0 then CountOk(after, i, m) else i < |after.ios| && !RuleAt(after, i)
  {
    hide CountOk, Shaped, RuleAt, Attached, Detached, Duplicated, Duplicated2, Mapped, SplitAt, Unmapped, Forked,
         Exited, HoldTaken, HoldDropped, Kept, Reachable;
    NotNegative(st, i, n);
    if st.panicked { return; }
    match op
    case OpenIo(closable) => OpenCounts(st, closable, i, n);
    case Spawn => SpawnCounts(st, i, n);
    case TakeHold(_) => HoldCounts(st, op, i, n);
    case DropHold(_) => HoldCounts(st, op, i, n);
    case _ => if op.p < |st.procs| { StepInCounts(st, op, i, n); }
  }

  /** The count falls below the references exactly when a hook fails under a foreign lock and nothing is surplus. */
  lemma LostExactlyWhen(st: State, op: Op, i: nat, n: int)
    requires Shaped(st) && CountOk(st, i, n)
    ensures RuleAt(After(st, op), i) <==> !(Drops(st, op, i) && n == 0)
  {
    hide Shaped, After, Uses, Drops;
    StepCounts(st, op, i, n);
    NotNegative(st, i, n);
  }

  lemma NotNegative(st: State, i: nat, n: int)
    requires CountOk(st, i, n)
    ensures n >= 0
  {
  }

  lemma OpenCounts(st: State, closable: bool, i: nat, n: int)
    requires Shaped(st) && CountOk(st, i, n)
    ensures CountOk(After(st, OpenIo(closable)), i, n)
  {
    hide Refs, Own;
    if i == |st.ios| { assert Uses(st, i) == 0; }
  }

  lemma SpawnCounts(st: State, i: nat, n: int)
    requires CountOk(st, i, n)
    ensures CountOk(After(st, Spawn), i, n)
  {
    hide Own;
    RefsAdd(st.procs, Proc(NoFiles(st.max), []), i);
    OwnNothing(st.max, i);
  }

  lemma StepInCounts(st: State, op: Op, i: nat, n: int)
    requires !op.OpenIo? && !op.Spawn? && !op.TakeHold? && !op.DropHold? && op.p < |st.procs| && CountOk(st, i, n)
    requires n >= 0 && !st.panicked
    ensures var after, m := AfterIn(st, op), n + SurplusStep(st, op, i);
            if m >= 0 then CountOk(after, i, m) else i < |after.ios| && !RuleAt(after, i)
  {
    hide CountOk, Shaped, RuleAt, Attached, Detached, Duplicated, Duplicated2, Mapped, SplitAt, Unmapped, Forked,
         Exited, Kept, Reachable;
    match op
    case AttachFd(p, j) => AttachCounts(st, p, Some(j), i, n);
    case DetachFd(p, fd) => DetachCounts(st, p, fd, i, n);
    case DupFd(p, fd) => DupCounts(st, p, fd, i, n);
    case Dup2Fd(p, fd, target) => Dup2Counts(st, p, fd, target, i, n);
    case MapIo(_, _, _, _, _, _) => MapCounts(st, op, i, n);
    case SplitMap(p, k) => SplitCounts(st, p, k, i, n);
    case UnmapOne(p, k, hookOk) => UnmapCounts(st, p, k, hookOk, i, n);
    case ForkProc(p) => ForkCounts(st, p, i, n);
    case ExitProc(p) => ExitCounts(st, p, i, n);
  }

  // ---------------------------------------------------------------- what runs promise

  /** The surplus is not negative, now and at every earlier point of the run. */
  ghost predicate NeverNegative(st: State, ops: seq<Op>, i: nat) {
    Surplus(st, ops, i) >= 0 && (ops != [] ==> NeverNegative(st, ops[..|ops| - 1], i))
  }

  /** The rule holds, now and at every earlier point of the run. */
  ghost predicate AlwaysRight(st: State, ops: seq<Op>, i: nat) {
    RuleAt(AfterAll(st, ops), i) && (ops != [] ==> AlwaysRight(st, ops[..|ops| - 1], i))
  }

  /** As long as the surplus is not negative, a count is the references and the surplus. */
  lemma {:induction false} RunCounts(st: State, ops: seq<Op>, i: nat)
    requires Shaped(st) && CountOk(st, i, 0) && NeverNegative(st, ops, i)
    ensures CountOk(AfterAll(st, ops), i, Surplus(st, ops, i))
    decreases |ops|
  {
    hide CountOk, Shaped, After, SurplusStep, RuleAt;
    if ops != [] {
      var n := |ops| - 1;
      RunCounts(st, ops[..n], i);
      AfterAllShape(st, ops[..n]);
      StepCounts(AfterAll(st, ops[..n]), ops[n], i, Surplus(st, ops[..n], i));
    }
  }

  /**
    Over every run: no count is ever below the references and no object is ever
    closed under one, exactly if dups and failed unmaps of the object are never
    outnumbered by mmap hooks that fail under a foreign lock.
   */
  lemma {:induction false} RuleExactlyWhen(st: State, ops: seq<Op>, i: nat)
    requires Shaped(st) && CountOk(st, i, 0)
    ensures AlwaysRight(st, ops, i) <==> NeverNegative(st, ops, i)
    decreases |ops|
  {
    hide CountOk, Shaped, After, SurplusStep, RuleAt;
    if ops == [] {
      RightStart(st, i);
      return;
    }
    var n := |ops| - 1;
    RuleExactlyWhen(st, ops[..n], i);
    if NeverNegative(st, ops[..n], i) {
      RunCounts(st, ops[..n], i);
      AfterAllShape(st, ops[..n]);
      StepCounts(AfterAll(st, ops[..n]), ops[n], i, Surplus(st, ops[..n], i));
      RightNow(AfterAll(st, ops), i, Surplus(st, ops, i));
    }
  }

  lemma RightStart(st: State, i: nat)
    requires CountOk(st, i, 0)
    ensures AlwaysRight(st, [], i) && NeverNegative(st, [], i)
  {
  }

  lemma RightNow(st: State, i: nat, n: int)
    ensures CountOk(st, i, n) ==> RuleAt(st, i)
  {
  }

  /** Nobody else ever holds the lock when a mapping could not be made. */
  ghost predicate OwnLocks(ops: seq<Op>) { forall op :: op in ops && op.MapIo? ==> !op.locked }

  /** Then the rule holds over every run, whatever hooks fail: the kernel panics before it drops a reference. */
  lemma {:induction false} OwnLocksAreRight(st: State, ops: seq<Op>, i: nat)
    requires Shaped(st) && CountOk(st, i, 0) && OwnLocks(ops)
    ensures NeverNegative(st, ops, i) && AlwaysRight(st, ops, i)
    decreases |ops|
  {
    hide CountOk, Shaped, After, RuleAt, AlwaysRight;
    RuleExactlyWhen(st, ops, i);
    if ops != [] {
      var n := |ops| - 1;
      assert ops[n] in ops;
      OwnLocksAreRight(st, ops[..n], i);
    }
  }

  /** A mapping that is refused or fails is destroyed without the lock. */
  predicate Trips(st: State, op: Op) {
    && op.MapIo? && op.p < |st.procs| && Reachable(st, op.p, op.i)
    && !(Allowed(st.ios[op.i], op.allowed) && op.mapOk) && !op.locked
  }

  ghost predicate EverTrips(st: State, ops: seq<Op>) {
    exists k :: 0 <= k < |ops| && Trips(AfterAll(st, ops[..k]), ops[k])
  }

  /** A run panics exactly if a refused or failed mmap happens while nobody else holds the lock. */
  lemma {:induction false} PanicsExactlyWhen(st: State, ops: seq<Op>)
    requires !st.panicked
    ensures AfterAll(st, ops).panicked <==> EverTrips(st, ops)
    decreases |ops|
  {
    hide After, Trips;
    if ops != [] {
      var n := |ops| - 1;
      PanicsExactlyWhen(st, ops[..n]);
      OnePanics(AfterAll(st, ops[..n]), ops[n]);
      assert forall k :: 0 <= k < n ==> ops[..n][..k] == ops[..k] && ops[..n][k] == ops[k];
      if k :| 0 <= k < |ops| && Trips(AfterAll(st, ops[..k]), ops[k]) {
        if k < n { assert Trips(AfterAll(st, ops[..n][..k]), ops[..n][k]); }
      }
      if k :| 0 <= k < n && Trips(AfterAll(st, ops[..n][..k]), ops[..n][k]) {
        assert Trips(AfterAll(st, ops[..k]), ops[k]);
      }
    }
  }

  lemma OnePanics(st: State, op: Op)
    ensures After(st, op).panicked <==> st.panicked || Trips(st, op)
  {
  }

  /** Until then, an object ever referenced is closed exactly when nothing refers to it and nothing is surplus. */
  lemma ClosedExactlyWhen(st: State, ops: seq<Op>, i: nat)
    requires Shaped(st) && CountOk(st, i, 0) && NeverNegative(st, ops, i) && i < |AfterAll(st, ops).ios|
    ensures var after := AfterAll(st, ops); var io, left := after.ios[i], Uses(after, i) + Surplus(st, ops, i);
            && (io.closed <==> io.closable && io.takes > 0 && left == 0)
            && (!io.closed ==> io.refcount == left)
  {
    hide Shaped, After, SurplusStep, Uses;
    RunCounts(st, ops, i);
  }

  /** The close hook ran once if the object is closed, and not otherwise. */
  predicate Once(io: Io) { io.closes == if io.closed then 1 else 0 }

  /** What can become of an object: a closed one stays as it is. */
  predicate Evolves(a: Io, b: Io) { (a.closed ==> b == a) && (Once(a) ==> Once(b)) }

  lemma {:induction false} TakeNEvolves(io: Io, n: nat)
    ensures Evolves(io, TakeN(io, n))
  {
    if n > 0 { TakeNEvolves(io, n - 1); }
  }

  lemma {:induction false} DropNEvolves(io: Io, n: nat)
    ensures Evolves(io, DropN(io, n))
  {
    if n > 0 { DropNEvolves(io, n - 1); }
  }

  lemma ForkEvolves(st: State, p: nat, i: nat)
    requires p < |st.procs| && i < |st.ios|
    ensures |Forked(st, p).ios| == |st.ios| && Evolves(st.ios[i], Forked(st, p).ios[i])
  {
    hide TakeN;
    var q := st.procs[p];
    var ios := Taken(st.ios, q.maps);
    TakeNEvolves(st.ios[i], Count(q.maps, i));
    TakeNEvolves(ios[i], Count(KeepAlive(ios, q.files), i));
  }

  lemma ExitEvolves(st: State, p: nat, i: nat)
    requires p < |st.procs| && i < |st.ios|
    ensures |Exited(st, p).ios| == |st.ios| && Evolves(st.ios[i], Exited(st, p).ios[i])
  {
    hide DropN;
    var q := st.procs[p];
    DropNEvolves(st.ios[i], Count(q.files, i));
    DropNEvolves(Dropped(st.ios, q.files)[i], Count(q.maps, i));
  }

  lemma StepEvolves(st: State, op: Op, i: nat)
    requires i < |st.ios|
    ensures i < |After(st, op).ios| && Evolves(st.ios[i], After(st, op).ios[i])
  {
    hide Forked, Exited;
    match op
    case OpenIo(_) =>
    case Spawn =>
    case TakeHold(_) =>
    case DropHold(_) =>
    case ForkProc(p) => if p < |st.procs| { ForkEvolves(st, p, i); }
    case ExitProc(p) => if p < |st.procs| { ExitEvolves(st, p, i); }
    case Dup2Fd(p, fd, target) => Dup2Evolves(st, op, i);
    case _ => if op.p < |st.procs| { }
  }

  lemma Dup2Evolves(st: State, op: Op, i: nat)
    requires op.Dup2Fd? && i < |st.ios|
    ensures i < |After(st, op).ios| && Evolves(st.ios[i], After(st, op).ios[i])
  {
    if op.p < |st.procs| && OpenFd(st.procs[op.p], op.fd) && 0 <= op.target < |st.procs[op.p].files| {
      var cut := Detached(st, op.p, op.target);
      assert |cut.ios| == |st.ios| && Evolves(st.ios[i], cut.ios[i]);
    }
  }

  /** Over every run, broken or not, an object is closed once at most and is not touched afterwards. */
  lemma {:induction false} ClosedOnce(st: State, ops: seq<Op>, i: nat)
    requires i < |st.ios|
    ensures i < |AfterAll(st, ops).ios| && Evolves(st.ios[i], AfterAll(st, ops).ios[i])
    decreases |ops|
  {
    hide After, Evolves;
    if ops == [] {
      EvolvesSame(st.ios[i]);
    } else {
      var n := |ops| - 1;
      ClosedOnce(st, ops[..n], i);
      StepEvolves(AfterAll(st, ops[..n]), ops[n], i);
      EvolvesOn(st.ios[i], AfterAll(st, ops[..n]).ios[i], AfterAll(st, ops).ios[i]);
    }
  }

  lemma EvolvesSame(a: Io)
    ensures Evolves(a, a)
  {
  }

  lemma EvolvesOn(a: Io, b: Io, c: Io)
    requires Evolves(a, b) && Evolves(b, c)
    ensures Evolves(a, c)
  {
  }

  // ---------------------------------------------------------------- what breaks the rule

  /**
    One descriptor is open and a driver's mmap hook fails: with the lock of the
    address space free the kernel panics, with a foreign lock the object is
    closed under the descriptor.
   */
  lemma FailedMmap(locked: bool)
    ensures var ops := [OpenIo(true), Spawn, AttachFd(0, 0), MapIo(0, 0, true, false, true, locked)];
            var st := AfterAll(Empty(1), ops);
            && |st.ios| == 1 && Uses(st, 0) == 1 && st.panicked == !locked && st.ios[0].closed == locked
            && Surplus(Empty(1), ops, 0) == if locked then -1 else 0
  {
    hide AfterAll, Surplus, Refs;
    var op := MapIo(0, 0, true, false, true, locked);
    assert [OpenIo(true), Spawn, AttachFd(0, 0)] + [op] == [OpenIo(true), Spawn, AttachFd(0, 0), op];
    SampleOpened();
    OneMore(Empty(1), [OpenIo(true), Spawn, AttachFd(0, 0)], op);
    SurplusMore(Empty(1), [OpenIo(true), Spawn, AttachFd(0, 0)], op, 0);
    assert Some(0) in [Some(0)];
    RefsAdd([], Proc([Some(0)], []), 0);
    assert [] + [Proc([Some(0)], [])] == [Proc([Some(0)], [])];
    NobodyRefers(0);
  }

  /** One object, and a descriptor that refers to it. */
  lemma SampleOpened()
    ensures AfterAll(Empty(1), [OpenIo(true), Spawn, AttachFd(0, 0)])
         == State(1, [Referenced(Fresh(true))], [Proc([Some(0)], [])], [0], false)
    ensures Surplus(Empty(1), [OpenIo(true), Spawn, AttachFd(0, 0)], 0) == 0
  {
    hide AfterAll, Surplus;
    var a, b, c := OpenIo(true), Spawn, AttachFd(0, 0);
    NoneYet(Empty(1), 0);
    OneMore(Empty(1), [], a);
    SurplusMore(Empty(1), [], a, 0);
    OneMore(Empty(1), [a], b);
    SurplusMore(Empty(1), [a], b, 0);
    OneMore(Empty(1), [a, b], c);
    SurplusMore(Empty(1), [a, b], c, 0);
    assert [] + [a] == [a] && [a] + [b] == [a, b] && [a, b] + [c] == [a, b, c];
    assert NoFiles(1) == [None] && [None][0 := Some(0)] == [Some(0)];
    var st := State(1, [Fresh(true)], [Proc([None], [])], [0], false);
    assert AfterAll(Empty(1), [a]) == State(1, [Fresh(true)], [], [0], false);
    assert AfterAll(Empty(1), [a, b]) == st;
    assert Attached(st, 0, Some(0)) == State(1, [Referenced(Fresh(true))], [Proc([Some(0)], [])], [0], false);
  }

  lemma NoneYet(st: State, i: nat)
    ensures AfterAll(st, []) == st && Surplus(st, [], i) == 0
  {
  }

  lemma NobodyRefers(i: nat)
    ensures Refs([], i) == 0
  {
  }

  lemma SurplusMore(st: State, ops: seq<Op>, op: Op, i: nat)
    ensures Surplus(st, ops + [op], i) == Surplus(st, ops, i) + SurplusStep(AfterAll(st, ops), op, i)
  {
    assert (ops + [op])[..|ops|] == ops;
  }

  /** After `io_dup`, closing both descriptors leaves the object open. */
  lemma DupNeverCloses()
    ensures var io := Referenced(Referenced(Referenced(Fresh(true))));
            IoOk(io, 2, 1) && !Released(Released(io)).closed && IoOk(Released(Released(io)), 0, 1)
  {
  }

  // ---------------------------------------------------------------- the operations

  class IoTable {
    const max: nat
    var ios: seq<Io>
    var procs: seq<Proc>
    var holds: seq<nat>
    var panicked: bool
    ghost var past: seq<Op>

    ghost function St(): State
      reads this
    {
      State(max, ios, procs, holds, panicked)
    }

    ghost predicate Valid()
      reads this
    {
      Shaped(St()) && St() == AfterAll(Empty(max), past)
    }

    constructor (max: nat)
      ensures Valid() && St() == Empty(max) && past == []
    {
      this.max := max;
      ios, procs, holds, panicked, past := [], [], [], false, [];
    }

    /** A driver creates an object. */
    method NewIo(closable: bool) returns (i: nat)
      modifies this`ios, this`holds
      ensures i == |old(ios)| && St() == Next(old(St()), OpenIo(closable))
    {
      i := |ios|;
      ios, holds := ios + [Fresh(closable)], holds + [0];
    }

    /** A process starts with an empty table. */
    method NewProcess() returns (p: nat)
      modifies this`procs
      ensures p == |old(procs)| && St() == Next(old(St()), Spawn)
    {
      p := |procs|;
      procs := procs + [Proc(NoFiles(max), [])];
    }

    /** The kernel takes a reference of its own, as while it loads a program. */
    method Hold(i: nat)
      requires i < |ios| == |holds|
      modifies this`ios, this`holds
      ensures St() == HoldTaken(old(St()), i)
    {
      if ios[i].closed { return; }
      ios, holds := ios[i := Referenced(ios[i])], holds[i := holds[i] + 1];
    }

    /** The kernel drops its reference. */
    method Release(i: nat)
      requires i < |ios| == |holds| && holds[i] > 0
      modifies this`ios, this`holds
      ensures St() == HoldDropped(old(St()), i)
    {
      ios, holds := ios[i := Released(ios[i])], holds[i := holds[i] - 1];
    }

    /** The search for a free descriptor. */
    method FreeFd(p: nat) returns (fd: Option<nat>)
      requires p < |procs|
      ensures fd == FirstFree(procs[p].files, 0)
    {
      var files := procs[p].files;
      var k := 0;
      while k < |files| && files[k].Some?
        invariant k <= |files| && forall j :: 0 <= j < k ==> files[j].Some?
      {
        k := k + 1;
      }
      FirstFreeIs(files, 0, k);
      return if k < |files| then Some(k) else None;
    }

    /** `process_attach_ref_fd`; a closed object leaves the slot empty. */
    method Attach(p: nat, x: Option<nat>) returns (fd: Option<nat>)
      requires p < |procs| && (x.Some? ==> x.value < |ios|)
      modifies this`ios, this`procs
      ensures fd == FirstFree(old(procs)[p].files, 0) && St() == Attached(old(St()), p, x)
    {
      fd := FreeFd(p);
      if fd.Some? {
        var kept := Kept(ios, x);
        ios := Ref(ios, x);
        procs := procs[p := WithFile(procs[p], fd.value, kept)];
      }
    }

    /** `process_detach_fd` */
    method Detach(p: nat, fd: int) returns (ok: bool)
      requires Shaped(St()) && p < |procs|
      modifies this`ios, this`procs
      ensures St() == Detached(old(St()), p, fd)
      ensures ok <==> OpenFd(old(procs)[p], fd) && Alive(old(ios), old(procs)[p].files[fd])
    {
      if fd < 0 || fd >= max { return false; }
      var x := procs[p].files[fd];
      if x.None? || !IoValid(ios[x.value]) { return false; }
      ios := Unref(ios, x);
      procs := procs[p := WithFile(procs[p], fd, None)];
      return true;
    }

    /** `io_dup` */
    method Dup(p: nat, fd: int) returns (r: Option<nat>)
      requires Shaped(St()) && p < |procs|
      modifies this`ios, this`procs
      ensures St() == Duplicated(old(St()), p, fd)
      ensures r == if OpenFd(old(procs)[p], fd) then FirstFree(old(procs)[p].files, 0) else None
    {
      if fd < 0 || fd >= max || procs[p].files[fd].None? { return None; }
      var x := procs[p].files[fd];
      var kept := Kept(ios, x);
      ios := Ref(ios, x);
      r := Attach(p, kept);
    }

    /** `io_dup2` */
    method Dup2(p: nat, fd: int, target: int) returns (r: Option<int>)
      requires Shaped(St()) && p < |procs|
      modifies this`ios, this`procs
      ensures St() == Duplicated2(old(St()), p, fd, target)
      ensures r == if OpenFd(old(procs)[p], fd) then Some(target) else None
    {
      hide Detached;
      if fd < 0 || fd >= max || procs[p].files[fd].None? { return None; }
      if fd == target { return Some(target); }
      var x := procs[p].files[fd];
      if target < 0 || target >= max {
        ios := Ref(ios, x);
        return Some(target);
      }
      DetachedShape(St(), p, target);
      TargetShape(St(), Detached(St(), p, target), p, fd, target);
      var _ := Detach(p, target);
      var kept := Kept(ios, x);
      ios := Ref(ios, x);
      procs := procs[p := WithFile(procs[p], target, kept)];
      return Some(target);
    }

    /** `mmap_file` and `io_mmap`; `None` stands for the assertion that fails. */
    method Mmap(p: nat, i: nat, allowed: bool, mapOk: bool, unmapOk: bool, locked: bool) returns (ok: Option<bool>)
      requires p < |procs| && Reachable(St(), p, i)
      modifies this`ios, this`procs, this`panicked
      ensures St() == Mapped(old(St()), p, i, allowed, mapOk, unmapOk, locked)
      ensures ok == if Allowed(old(ios)[i], allowed) && mapOk then Some(true) else if locked then Some(false) else None
    {
      var named := Allowed(ios[i], allowed);
      if named && mapOk {
        ios := Ref(ios, Some(i));
        procs := procs[p := procs[p].(maps := procs[p].maps + [Some(i)])];
        return Some(true);
      }
      if !locked {
        panicked := true;
        return None;
      }
      if named && unmapOk { ios := Unref(ios, Some(i)); }
      return Some(false);
    }

    /** `vmap_split` */
    method Split(p: nat, k: nat)
      requires p < |procs| && k < |procs[p].maps|
      modifies this`ios, this`procs
      ensures St() == SplitAt(old(St()), p, k)
    {
      var x := procs[p].maps[k];
      var kept := Kept(ios, x);
      ios := Ref(ios, x);
      procs := procs[p := procs[p].(maps := procs[p].maps + [kept])];
    }

    /** `vmap_destroy` and `io_munmap` */
    method Unmap(p: nat, k: nat, hookOk: bool)
      requires p < |procs| && k < |procs[p].maps|
      modifies this`ios, this`procs
      ensures St() == Unmapped(old(St()), p, k, hookOk)
    {
      if hookOk { ios := Unref(ios, procs[p].maps[k]); }
      procs := procs[p := procs[p].(maps := Without(procs[p].maps, k))];
    }

    /** The mappings and descriptors a fork copies. */
    method Fork(p: nat) returns (c: nat)
      requires Shaped(St()) && p < |procs|
      modifies this`ios, this`procs
      ensures c == |old(procs)| && St() == Forked(old(St()), p)
    {
      c := NewProcess();
      CopyMaps(p, c);
      CopyFiles(p, c);
      assert procs == Forked(old(St()), p).procs;
    }

    /** Every mapping is cloned and its object referenced. */
    method CopyMaps(p: nat, c: nat)
      requires p < c < |procs| && procs[c].maps == []
      modifies this`ios, this`procs
      ensures ios == Taken(old(ios), old(procs)[p].maps)
      ensures procs == old(procs)[c := old(procs)[c].(maps := old(procs)[p].maps)]
    {
      hide Taken, Ref;
      var k, maps := 0, procs[p].maps;
      TakenStep(ios, [], None);
      assert maps[..0] == [];
      while k < |maps|
        invariant k <= |maps| && ios == Taken(old(ios), maps[..k])
        invariant procs == old(procs)[c := old(procs)[c].(maps := maps[..k])]
      {
        TakenStep(old(ios), maps[..k], maps[k]);
        assert maps[..k + 1] == maps[..k] + [maps[k]];
        procs := procs[c := procs[c].(maps := procs[c].maps + [maps[k]])];
        ios := Ref(ios, maps[k]);
        k := k + 1;
      }
      assert maps[..k] == maps;
    }

    /** Every descriptor of a valid object is copied and the object referenced. */
    method CopyFiles(p: nat, c: nat)
      requires p < c < |procs| && procs[c].files == NoFiles(|procs[p].files|)
      modifies this`ios, this`procs
      ensures ios == Taken(old(ios), KeepAlive(old(ios), old(procs)[p].files))
      ensures procs == old(procs)[c := old(procs)[c].(files := KeepAlive(old(ios), old(procs)[p].files))]
    {
      hide Taken, Ref, Alive;
      var fd, files := 0, procs[p].files;
      ghost var kept := KeepAlive(ios, files);
      TakenStep(ios, [], None);
      assert kept[..0] == [];
      assert procs == old(procs)[c := old(procs)[c].(files := NoFiles(|files|))];
      while fd < |files|
        invariant fd <= |files| && ios == Taken(old(ios), kept[..fd])
        invariant |procs| == |old(procs)| && |procs[c].files| == |files|
        invariant procs == old(procs)[c := old(procs)[c].(files := procs[c].files)]
        invariant forall j :: 0 <= j < |files| ==> procs[c].files[j] == if j < fd then kept[j] else None
      {
        AliveStays(old(ios), files, fd, files[fd]);
        TakenStep(old(ios), kept[..fd], kept[fd]);
        assert kept[..fd + 1] == kept[..fd] + [kept[fd]];
        RefNothing(ios);
        if Alive(ios, files[fd]) {
          procs := procs[c := WithFile(procs[c], fd, files[fd])];
          ios := Ref(ios, files[fd]);
        }
        fd := fd + 1;
      }
      assert kept[..fd] == kept;
      assert procs[c].files == kept;
    }

    /** The descriptor part of process exit. */
    method CloseAll(p: nat)
      requires Shaped(St()) && p < |procs|
      modifies this`ios, this`procs
      ensures ios == Dropped(old(ios), old(procs)[p].files)
      ensures procs == old(procs)[p := old(procs)[p].(files := NoFiles(max))]
    {
      hide Dropped, Unref, Shaped;
      ShapeOf(St(), p);
      var fd, files := 0, procs[p].files;
      DroppedStep(ios, [], None);
      assert files[..0] == [];
      while fd < max
        invariant fd <= max && ios == Dropped(old(ios), files[..fd])
        invariant |procs| == |old(procs)| && |procs[p].files| == max
        invariant procs == old(procs)[p := old(procs)[p].(files := procs[p].files)]
        invariant forall j :: 0 <= j < max ==> procs[p].files[j] == if j < fd then None else files[j]
      {
        DroppedStep(old(ios), files[..fd], files[fd]);
        assert files[..fd + 1] == files[..fd] + [files[fd]];
        UnrefDead(ios, files[fd]);
        procs := procs[p := WithFile(procs[p], fd, None)];
        if Alive(ios, files[fd]) { ios := Unref(ios, files[fd]); }
        fd := fd + 1;
      }
      assert files[..fd] == files && procs[p].files == NoFiles(max);
    }

    /** The mappings go when the process is destroyed. */
    method UnmapAll(p: nat)
      requires p < |procs|
      modifies this`ios, this`procs
      ensures ios == Dropped(old(ios), old(procs)[p].maps)
      ensures procs == old(procs)[p := old(procs)[p].(maps := [])]
    {
      hide Dropped, Unref;
      ghost var k, maps := 0, procs[p].maps;
      DroppedStep(ios, [], None);
      assert maps[..0] == [] && maps[0..] == maps;
      while procs[p].maps != []
        invariant k <= |maps| && |procs| == |old(procs)| && procs[p].maps == maps[k..] &&
                  ios == Dropped(old(ios), maps[..k])
        invariant procs == old(procs)[p := old(procs)[p].(maps := maps[k..])]
        decreases |procs[p].maps|
      {
        DroppedStep(old(ios), maps[..k], maps[k]);
        assert maps[..k + 1] == maps[..k] + [maps[k]] && Without(maps[k..], 0) == maps[k + 1..];
        Unmap(p, 0, true);
        k := k + 1;
      }
      assert maps[..k] == maps && maps[k..] == [];
    }

    /** A process ends: its descriptors are closed and its mappings go. */
    method ExitProcess(p: nat)
      requires Shaped(St()) && p < |procs|
      modifies this`ios, this`procs
      ensures St() == Exited(old(St()), p)
    {
      hide Shaped, Dropped;
      CloseAll(p);
      UnmapAll(p);
      assert procs[p] == Proc(NoFiles(max), []);
    }

    // -------------------------------------------------------------- runs

    /** One operation of a run; one that makes no sense does nothing. */
    method Perform(op: Op)
      requires Valid()
      modifies this
      ensures Valid() && St() == After(old(St()), op) && past == old(past) + [op]
    {
      hide AfterAll, Shaped, Attached, Detached, Duplicated, Duplicated2, Mapped, SplitAt, Unmapped, Forked, Exited,
           HoldTaken, HoldDropped, Reachable;
      AfterShape(St(), op);
      OneMore(Empty(max), past, op);
      TableShape(St());
      if panicked {
        past := past + [op];
        return;
      }
      match op {
        case OpenIo(closable) => var _ := NewIo(closable);
        case Spawn => var _ := NewProcess();
        case TakeHold(i) => HoldNothing(St(), i); if i < |ios| { Hold(i); }
        case DropHold(i) => HoldNothing(St(), i); if i < |ios| && holds[i] > 0 { Release(i); }
        case _ => if op.p < |procs| { PerformIn(op); }
      }
      past := past + [op];
    }

    method PerformIn(op: Op)
      requires Shaped(St()) && !op.OpenIo? && !op.Spawn? && !op.TakeHold? && !op.DropHold? && op.p < |procs|
      modifies this`ios, this`procs, this`panicked
      ensures St() == AfterIn(old(St()), op)
    {
      hide Shaped, Attached, Detached, Duplicated, Duplicated2, Mapped, SplitAt, Unmapped, Forked, Exited, Reachable;
      ShapeOf(St(), op.p);
      match op
      case AttachFd(p, i) => if i < |ios| { var _ := Attach(p, Some(i)); }
      case DetachFd(p, fd) => var _ := Detach(p, fd);
      case DupFd(p, fd) => var _ := Dup(p, fd);
      case Dup2Fd(p, fd, target) => var _ := Dup2(p, fd, target);
      case MapIo(p, i, allowed, mapOk, unmapOk, locked) =>
        MapNothing(St(), p, i, allowed, mapOk, unmapOk, locked);
        if Reachable(State(max, ios, procs, holds, panicked), p, i) {
          var _ := Mmap(p, i, allowed, mapOk, unmapOk, locked);
        }
      case SplitMap(p, k) =>
        MapsEnd(St(), p, k);
        if k < |procs[p].maps| { Split(p, k); }
      case UnmapOne(p, k, hookOk) =>
        MapsEnd(St(), p, k);
        if k < |procs[p].maps| { Unmap(p, k, hookOk); }
      case ForkProc(p) => var _ := Fork(p);
      case ExitProc(p) => ExitProcess(p);
    }

    /** Every sequence of operations, and what it leads to. */
    method Run(ops: seq<Op>)
      requires Valid()
      modifies this
      ensures Valid() && St() == AfterAll(old(St()), ops) && past == old(past) + ops
    {
      hide After, Shaped, Empty;
      assert ops[..0] == [] && old(past) + [] == old(past);
      for k := 0 to |ops|
        invariant Valid() && St() == AfterAll(old(St()), ops[..k]) && past == old(past) + ops[..k]
      {
        Perform(ops[k]);
        OneMore(old(St()), ops[..k], ops[k]);
        assert ops[..k + 1] == ops[..k] + [ops[k]];
      }
      assert ops[..|ops|] == ops;
    }

    /**
      What the history says about an object: it is closed once at most; and if
      its surplus was never negative, it is closed exactly when it has been
      referenced, nothing refers to it and nothing is surplus.
     */
    lemma History(i: nat)
      requires Valid() && i < |ios|
      ensures NeverNegative(Empty(max), past, i) ==>
                var left := Uses(St(), i) + Surplus(Empty(max), past, i);
                && (ios[i].closed <==> ios[i].closable && ios[i].takes > 0 && left == 0)
                && (!ios[i].closed ==> ios[i].refcount == left)
      ensures AlwaysRight(Empty(max), past, i) <==> NeverNegative(Empty(max), past, i)
    {
      hide After, NeverNegative, AlwaysRight;
      StartIsRight(max, i);
      RuleExactlyWhen(Empty(max), past, i);
      if NeverNegative(Empty(max), past, i) { ClosedExactlyWhen(Empty(max), past, i); }
    }
  }

  // ---------------------------------------------------------------- facts for the methods

  lemma StartIsRight(max: nat, i: nat)
    ensures Shaped(Empty(max)) && CountOk(Empty(max), i, 0)
  {
  }

  lemma OneMore(st: State, ops: seq<Op>, op: Op)
    ensures AfterAll(st, ops + [op]) == After(AfterAll(st, ops), op)
  {
    assert (ops + [op])[..|ops|] == ops;
  }

  lemma TableShape(st: State)
    requires Shaped(st)
    ensures |st.holds| == |st.ios|
  {
  }

  lemma ShapeOf(st: State, p: nat)
    requires Shaped(st) && p < |st.procs|
    ensures ProcOk(st.procs[p], st.max, |st.ios|) && |st.holds| == |st.ios|
  {
  }

  lemma HoldNothing(st: State, i: nat)
    ensures i >= |st.ios| ==> HoldTaken(st, i) == st == HoldDropped(st, i)
    ensures i < |st.holds| && st.holds[i] == 0 ==> HoldDropped(st, i) == st
  {
  }

  lemma MapNothing(st: State, p: nat, i: nat, allowed: bool, mapOk: bool, unmapOk: bool, locked: bool)
    requires p < |st.procs|
    ensures !Reachable(st, p, i) ==> Mapped(st, p, i, allowed, mapOk, unmapOk, locked) == st
  {
  }

  lemma MapsEnd(st: State, p: nat, k: nat)
    requires p < |st.procs|
    ensures k >= |st.procs[p].maps| ==> SplitAt(st, p, k) == st && forall ok :: Unmapped(st, p, k, ok) == st
  {
  }

  /** A slot of an object that is not valid drops nothing. */
  lemma UnrefDead(ios: seq<Io>, x: Option<nat>)
    ensures !Alive(ios, x) ==> Unref(ios, x) == ios
  {
    if x.Some? && x.value < |ios| && !Alive(ios, x) { assert Released(ios[x.value]) == ios[x.value]; }
  }

  lemma RefNothing(ios: seq<Io>)
    ensures Ref(ios, None) == ios
  {
  }

  /** Copying descriptors does not change which objects are valid. */
  lemma AliveStays(ios: seq<Io>, s: Slots, k: nat, x: Option<nat>)
    requires k < |s|
    ensures Alive(Taken(ios, KeepAlive(ios, s)[..k]), x) <==> Alive(ios, x)
  {
    if x.Some? && x.value < |ios| {
      var n := Count(KeepAlive(ios, s)[..k], x.value);
      TakeNValid(ios[x.value], n);
      assert KeepAlive(ios, s)[..k] == KeepAlive(ios, s[..k]);
      KeepAliveCount(ios, s[..k], x.value);
    }
  }
}
