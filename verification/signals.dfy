/**
  Signal delivery to one user thread: pending signals, masks, and the frames
  that delivery pushes on the user stack and that a return pops again.

  Memory holds fragments of stored values.  Between kernel entries user code may
  do anything except write into live frames or raise its stack pointer over them.
 */
module Signals {
  import opened Basics

  datatype Signal = SIGINT | SIGILL | SIGTRAP | SIGABRT | SIGKILL | SIGSEGV | SIGTERM | SIGCHLD | SIGPIPE

  /** User registers; `others` stands for the ones delivery leaves alone. */
  datatype Regs = Regs(ax: int, di: int, ip: int, sp: int, others: seq<int>)

  datatype Kind = Default | Ignore | Handler(entry: int)

  /** A registered action; the restart flag may go with any kind. */
  datatype Action = Action(kind: Kind, restorer: int, restart: bool)

  datatype Value = VRegs(regs: Regs) | VData(signal: Signal, wasMasked: bool) | VAddr(a: int)

  datatype Cell = Raw(b: int) | Fragment(v: Value, k: int)

  type Memory = int -> Cell

  const RED_ZONE: int := 128
  const REGS_SIZE: int := 176
  const DATA_SIZE: int := 8
  const EINTR: int := 4
  const ERESTARTSYS: int := 512

  function Size(v: Value): int {
    match v
    case VRegs(_) => REGS_SIZE
    case VData(_, _) => DATA_SIZE
    case VAddr(_) => 8
  }

  /** `stack_push_val`, at the new head. */
  function Stored(mem: Memory, a: int, v: Value): Memory {
    x => if a <= x < a + Size(v) then Fragment(v, x - a) else mem(x)
  }

  ghost predicate Holds(mem: Memory, a: int, v: Value) {
    forall x :: a <= x < a + Size(v) ==> mem(x) == Fragment(v, x - a)
  }

  /** `stack_pop_val` */
  function LoadRegs(mem: Memory, a: int): Regs {
    if mem(a).Fragment? && mem(a).v.VRegs? then mem(a).v.regs else Regs(0, 0, 0, 0, [])
  }

  function LoadData(mem: Memory, a: int): Option<(Signal, bool)> {
    if mem(a).Fragment? && mem(a).v.VData? then Some((mem(a).v.signal, mem(a).v.wasMasked)) else None
  }

  // ---------------------------------------------------------------- frames

  /** A live handler frame: its data lies at `at`, the saved registers above. */
  datatype Frame = Frame(signal: Signal, saved: Regs, at: int)

  function Top(f: Frame): int { f.at + DATA_SIZE + REGS_SIZE }

  ghost predicate FrameOk(mem: Memory, f: Frame) {
    && Holds(mem, f.at, VData(f.signal, false)) && Holds(mem, f.at + DATA_SIZE, VRegs(f.saved))
    && Top(f) == f.saved.sp - RED_ZONE
  }

  /** Innermost first: each frame lies below the ones it interrupted. */
  ghost predicate FramesOk(mem: Memory, frames: seq<Frame>) {
    && (forall k :: 0 <= k < |frames| ==> FrameOk(mem, frames[k]))
    && (forall j, k :: 0 <= j < k < |frames| ==> frames[j].saved.sp <= frames[k].at)
  }

  ghost function SignalsOf(frames: seq<Frame>): set<Signal> {
    set k | 0 <= k < |frames| :: frames[k].signal
  }

  ghost predicate OneFrameEach(frames: seq<Frame>) {
    forall j, k :: 0 <= j < k < |frames| ==> frames[j].signal != frames[k].signal
  }

  /** User code left the live frames alone. */
  ghost predicate FramesKept(m: Memory, n: Memory, frames: seq<Frame>) {
    forall k, x :: 0 <= k < |frames| && frames[k].at <= x < Top(frames[k]) ==> n(x) == m(x)
  }

  lemma KeptFramesOk(m: Memory, n: Memory, frames: seq<Frame>)
    requires FramesOk(m, frames) && FramesKept(m, n, frames)
    ensures FramesOk(n, frames)
  {
  }

  lemma StoredHolds(mem: Memory, a: int, v: Value)
    ensures Holds(Stored(mem, a, v), a, v)
    ensures Stored(mem, a, v)(a) == Fragment(v, 0)
  {
  }

  lemma StoredKeeps(mem: Memory, a: int, v: Value, b: int, w: Value)
    requires Holds(mem, b, w) && (a + Size(v) <= b || b + Size(w) <= a)
    ensures Holds(Stored(mem, a, v), b, w)
  {
  }

  lemma StoredBelow(mem: Memory, a: int, v: Value, x: int)
    requires x >= a + Size(v)
    ensures Stored(mem, a, v)(x) == mem(x)
  {
  }

  /** The memory after delivery: registers, data and return address below the red zone. */
  function Pushed(mem: Memory, regs: Regs, signal: Signal, restorer: int): Memory {
    var top := regs.sp - RED_ZONE;
    var a := Stored(mem, top - REGS_SIZE, VRegs(regs));
    var b := Stored(a, top - REGS_SIZE - DATA_SIZE, VData(signal, false));
    Stored(b, top - REGS_SIZE - DATA_SIZE - 8, VAddr(restorer))
  }

  lemma PushedFramesOk(mem: Memory, frames: seq<Frame>, regs: Regs, signal: Signal, restorer: int)
    requires FramesOk(mem, frames) && (frames != [] ==> regs.sp <= frames[0].at)
    ensures FramesOk(Pushed(mem, regs, signal, restorer),
            [Frame(signal, regs, regs.sp - RED_ZONE - REGS_SIZE - DATA_SIZE)] + frames)
    ensures forall x :: x >= regs.sp - RED_ZONE ==> Pushed(mem, regs, signal, restorer)(x) == mem(x)
    ensures Pushed(mem, regs, signal, restorer)(regs.sp - RED_ZONE - REGS_SIZE - DATA_SIZE - 8) ==
            Fragment(VAddr(restorer), 0)
  {
    hide Stored, Holds;
    var top := regs.sp - RED_ZONE;
    var at := top - REGS_SIZE - DATA_SIZE;
    var a := Stored(mem, top - REGS_SIZE, VRegs(regs));
    var b := Stored(a, at, VData(signal, false));
    var n := Stored(b, at - 8, VAddr(restorer));
    StoredHolds(mem, top - REGS_SIZE, VRegs(regs));
    StoredHolds(a, at, VData(signal, false));
    StoredHolds(b, at - 8, VAddr(restorer));
    StoredKeeps(a, at, VData(signal, false), top - REGS_SIZE, VRegs(regs));
    StoredKeeps(b, at - 8, VAddr(restorer), top - REGS_SIZE, VRegs(regs));
    StoredKeeps(b, at - 8, VAddr(restorer), at, VData(signal, false));
    var f := Frame(signal, regs, at);
    assert FrameOk(n, f);
    forall x | x >= top ensures n(x) == mem(x) {
      StoredBelow(mem, top - REGS_SIZE, VRegs(regs), x);
      StoredBelow(a, at, VData(signal, false), x);
      StoredBelow(b, at - 8, VAddr(restorer), x);
    }
    OldFramesOk(mem, n, frames, top);
    var all := [f] + frames;
    forall k | 0 <= k < |all| ensures FrameOk(n, all[k]) { if k > 0 { assert all[k] == frames[k - 1]; } }
    forall j, k | 0 <= j < k < |all| ensures all[j].saved.sp <= all[k].at {
      assert all[k] == frames[k - 1];
      if j > 0 { assert all[j] == frames[j - 1]; }
    }
  }

  /** Frames above the new one are untouched. */
  lemma OldFramesOk(m: Memory, n: Memory, frames: seq<Frame>, top: int)
    requires FramesOk(m, frames) && (frames != [] ==> top + RED_ZONE <= frames[0].at)
    requires forall x :: x >= top ==> n(x) == m(x)
    ensures forall k :: 0 <= k < |frames| ==> FrameOk(n, frames[k]) && top + RED_ZONE <= frames[k].at
  {
  }

  lemma SignalsPush(f: Frame, frames: seq<Frame>)
    ensures SignalsOf([f] + frames) == SignalsOf(frames) + {f.signal}
    ensures f.signal !in SignalsOf(frames) && OneFrameEach(frames) ==> OneFrameEach([f] + frames)
  {
    var all := [f] + frames;
    forall s ensures s in SignalsOf(all) <==> s in SignalsOf(frames) + {f.signal} {
      if s in SignalsOf(frames) {
        var k :| 0 <= k < |frames| && frames[k].signal == s;
        assert all[k + 1].signal == s;
      }
      if s == f.signal { assert all[0].signal == s; }
      if s in SignalsOf(all) {
        var k :| 0 <= k < |all| && all[k].signal == s;
        if k > 0 { assert frames[k - 1].signal == s; }
      }
    }
    if f.signal !in SignalsOf(frames) && OneFrameEach(frames) {
      forall j, k | 0 <= j < k < |all| ensures all[j].signal != all[k].signal {
        assert all[k] == frames[k - 1] && frames[k - 1].signal in SignalsOf(frames);
        if j > 0 { assert all[j] == frames[j - 1]; }
      }
    }
  }

  lemma SignalsPop(frames: seq<Frame>)
    requires frames != [] && OneFrameEach(frames)
    ensures SignalsOf(frames[1..]) == SignalsOf(frames) - {frames[0].signal} && OneFrameEach(frames[1..])
  {
  }

  lemma InnerFrames(mem: Memory, frames: seq<Frame>)
    requires FramesOk(mem, frames) && frames != []
    ensures FramesOk(mem, frames[1..]) && (|frames| > 1 ==> frames[0].saved.sp <= frames[1].at)
  {
  }

  // ---------------------------------------------------------------- pending signals

  /** The first pending signal that is not masked. */
  function NextIndex(pending: seq<Signal>, masks: set<Signal>): Option<nat> {
    if pending == [] then None
    else if pending[0] !in masks then Some(0)
    else
      var r := NextIndex(pending[1..], masks);
      if r.Some? then Some(r.value + 1) else None
  }

  lemma {:induction false} NextIsFirst(pending: seq<Signal>, masks: set<Signal>)
    ensures var r := NextIndex(pending, masks);
            if r.Some? then
              && r.value < |pending| && pending[r.value] !in masks
              && forall k :: 0 <= k < r.value ==> pending[k] in masks
            else forall k :: 0 <= k < |pending| ==> pending[k] in masks
  {
    if pending != [] && pending[0] in masks {
      NextIsFirst(pending[1..], masks);
      forall k | 0 <= k < |pending| && k > 0 ensures pending[k] == pending[1..][k - 1] { }
    }
  }

  /** The signal at `k` is the first pending one that is not masked. */
  predicate IsNext(pending: seq<Signal>, masks: set<Signal>, k: nat) {
    k < |pending| && pending[k] !in masks && forall j :: 0 <= j < k ==> pending[j] in masks
  }

  predicate HasHandler(handlers: map<Signal, Action>, s: Signal) { s in handlers && handlers[s].kind.Handler? }

  predicate IsFatal(s: Signal) {
    s == SIGILL || s == SIGTRAP || s == SIGABRT || s == SIGKILL || s == SIGSEGV
  }

  /** What the default action does with a signal. */
  datatype Outcome = Continue | Terminate

  function DefaultOutcome(isInit: bool, s: Signal): Outcome {
    if isInit && !IsFatal(s) then Continue
    else if s == SIGCHLD then Continue
    else Terminate
  }

  /** The registered action; at first every signal has the default one. */
  function ActionOf(handlers: map<Signal, Action>, s: Signal): Action {
    if s in handlers then handlers[s] else Action(Default, 0, false)
  }

  function Reversed(s: seq<Signal>): seq<Signal> {
    if s == [] then [] else Reversed(s[1..]) + [s[0]]
  }

  lemma {:induction false} ReversedHas(s: seq<Signal>)
    ensures |Reversed(s)| == |s| && (forall x :: x in Reversed(s) <==> x in s)
    ensures NoRepeats(s) ==> NoRepeats(Reversed(s))
  {
    if s != [] {
      var tail := Reversed(s[1..]);
      ReversedHas(s[1..]);
      assert s == [s[0]] + s[1..];
      if NoRepeats(s) {
        assert s[0] !in s[1..];
        forall j, k | 0 <= j < k < |s| ensures Reversed(s)[j] != Reversed(s)[k] {
          assert Reversed(s)[j] == tail[j] && tail[j] in tail;
        }
      }
    }
  }

  // ---------------------------------------------------------------- the thread

  /** How a return to user mode ends: the thread goes on, it or its process exits, or the kernel panics. */
  datatype Result = Resumed | ThreadExits | ProcessExits | Panic

  /** `frames` is history: it records what delivery pushed and decides nothing. */
  class Thread {
    const isInit: bool
    const isMain: bool
    const isKernel: bool
    const number: Signal -> int
    var pending: seq<Signal>
    var masks: set<Signal>
    var regs: Regs
    var mem: Memory
    var handlers: map<Signal, Action>
    var frames: seq<Frame>

    /** The masked signals are exactly those with a live frame, each with one. */
    ghost predicate Valid()
      reads this
    {
      && NoRepeats(pending)
      && FramesOk(mem, frames) && OneFrameEach(frames) && masks == SignalsOf(frames)
      && (frames != [] ==> regs.sp <= frames[0].at)
    }

    constructor (isInit: bool, isMain: bool, isKernel: bool, number: Signal -> int, regs: Regs, mem: Memory)
      ensures Valid() && frames == [] && pending == [] && this.regs == regs && this.mem == mem
      ensures this.isInit == isInit && this.isMain == isMain && this.isKernel == isKernel && this.number == number
    {
      this.isInit, this.isMain, this.isKernel, this.number := isInit, isMain, isKernel, number;
      this.regs, this.mem := regs, mem;
      pending, masks, handlers, frames := [], {}, map[], [];
    }

    /** `signal_send_to_thread`: a signal already pending is not queued again. */
    method Send(s: Signal) returns (ok: bool)
      requires Valid()
      modifies this`pending
      ensures Valid() && ok == (!isKernel || s in {SIGILL, SIGTRAP, SIGABRT, SIGKILL, SIGSEGV})
      ensures pending == if ok && s !in old(pending) then old(pending) + [s] else old(pending)
    {
      if isKernel && !IsFatal(s) { return false; }
      var found := false;
      var k := 0;
      while k < |pending| && !found
        invariant k <= |pending| && (found ==> s in pending)
        invariant !found ==> forall j :: 0 <= j < k ==> pending[j] != s
      {
        found := pending[k] == s;
        k := k + 1;
      }
      if !found { pending := pending + [s]; }
      return true;
    }

    /** `signal_get_next_pending` */
    method TakeNext() returns (s: Option<Signal>)
      requires Valid()
      modifies this`pending
      ensures Valid()
      ensures var r := NextIndex(old(pending), masks);
              if r.Some? then r.value < |old(pending)| && s == Some(old(pending)[r.value]) && s.value !in masks
                              && pending == old(pending)[..r.value] + old(pending)[r.value + 1..]
              else s.None? && pending == old(pending)
    {
      NextIsFirst(pending, masks);
      var k := 0;
      while k < |pending| && pending[k] in masks
        invariant k <= |pending| && forall j :: 0 <= j < k ==> pending[j] in masks
      {
        k := k + 1;
      }
      if k == |pending| { return None; }
      assert NextIndex(pending, masks) == Some(k);
      s := Some(pending[k]);
      pending := pending[..k] + pending[k + 1..];
    }

    /** `signal_do_terminate`: the main thread takes its process with it, and init must not end. */
    function Ending(): Result {
      if !isMain then ThreadExits else if isInit then Panic else ProcessExits
    }

    /** `do_signal_exit_to_user_prepare` and `platform_jump_to_signal_handler` */
    method Deliver(s: Signal, action: Action) returns (r: Result)
      requires Valid() && s !in masks
      modifies this`masks, this`regs, this`mem, this`frames
      ensures Valid()
      ensures action.kind.Handler? ==>
                && r == Resumed
                && frames == [Frame(s, old(regs), old(regs).sp - RED_ZONE - DATA_SIZE - REGS_SIZE)] + old(frames)
                && masks == old(masks) + {s} && regs.ip == action.kind.entry && regs.di == number(s)
                && regs.sp == frames[0].at - 8 && mem(regs.sp) == Fragment(VAddr(action.restorer), 0)
      ensures !action.kind.Handler? ==>
                && (if action.kind.Ignore? || s == SIGCHLD
                       || (isInit && s !in {SIGILL, SIGTRAP, SIGABRT, SIGKILL, SIGSEGV}) then r == Resumed
                    else r == if !isMain then ThreadExits else if isInit then Panic else ProcessExits)
                && frames == old(frames) && masks == old(masks) && regs == old(regs) && mem == old(mem)
      ensures forall x :: x >= old(regs).sp - RED_ZONE ==> mem(x) == old(mem)(x)
    {
      hide FramesOk, SignalsOf, OneFrameEach, Stored;
      match action.kind
      case Default =>
        return if DefaultOutcome(isInit, s) == Terminate then Ending() else Resumed;
      case Ignore =>
        return Resumed;
      case Handler(entry) =>
        masks := masks + {s};
        var head := regs.sp - RED_ZONE;
        head := head - REGS_SIZE;
        var m := Stored(mem, head, VRegs(regs));
        head := head - DATA_SIZE;
        m := Stored(m, head, VData(s, false));
        var f := Frame(s, regs, head);
        head := head - 8;
        m := Stored(m, head, VAddr(action.restorer));
        PushedFramesOk(mem, frames, regs, s, action.restorer);
        SignalsPush(f, frames);
        mem := m;
        frames := [f] + frames;
        regs := regs.(ip := entry, di := number(s), sp := head);
        return Resumed;
    }

    /** Delivering `s` to a thread that would go on with the registers `back`. */
    twostate predicate Delivered(s: Signal, back: Regs, r: Result)
      reads this
    {
      var action := ActionOf(old(handlers), s);
      if action.kind.Handler? then
        && r == Resumed && frames == [Frame(s, back, back.sp - RED_ZONE - DATA_SIZE - REGS_SIZE)] + old(frames)
        && masks == old(masks) + {s} && regs.ip == action.kind.entry && regs.di == number(s) &&
           regs.sp == frames[0].at - 8
        && mem(regs.sp) == Fragment(VAddr(action.restorer), 0)
      else
        && r == (if action.kind.Default? && DefaultOutcome(isInit, s) == Terminate then Ending() else Resumed)
        && frames == old(frames) && masks == old(masks) && regs == back && mem == old(mem)
    }

    /** The first deliverable signal is taken off the list and nothing else of it changes. */
    twostate predicate Took(i: nat)
      reads this
    {
      i < |old(pending)| && pending == old(pending)[..i] + old(pending)[i + 1..]
    }

    /** The thread goes on with `back`, and no signal is delivered. */
    twostate predicate WentOn(back: Regs)
      reads this
    {
      regs == back && pending == old(pending) && masks == old(masks) && frames == old(frames) && mem == old(mem)
    }

    twostate predicate Interrupted(r: Result)
      reads this
    {
      var i := NextIndex(old(pending), old(masks));
      && handlers == old(handlers)
      && if i.None? then r == Resumed && WentOn(old(regs))
         else Took(i.value) && Delivered(old(pending)[i.value], old(regs), r)
    }

    /** A system call that asks for a restart panics when no signal is deliverable. */
    twostate predicate LeftSyscall(nr: int, ret: int, r: Result)
      reads this
    {
      var i := NextIndex(old(pending), old(masks));
      && handlers == old(handlers)
      && if i.None? then
           if ret == -ERESTARTSYS then r == Panic && WentOn(old(regs))
           else r == Resumed && WentOn(old(regs).(ax := ret))
         else
           && Took(i.value)
           && var action := ActionOf(old(handlers), old(pending)[i.value]);
              Delivered(old(pending)[i.value],
                        if ret == -ERESTARTSYS && action.restart then old(regs).(ax := nr, ip := old(regs).ip - 2)
                        else old(regs).(ax := if ret == -ERESTARTSYS then -EINTR else ret), r)
    }

    /** The thread is in the handler of `s`, which will go back to the registers `back`. */
    ghost predicate Entered(s: Signal, outer: seq<Frame>, back: Regs)
      reads this
    {
      && frames != [] && frames[0].signal == s && frames[0].saved == back && frames[1..] == outer
      && s in handlers && handlers[s].kind.Handler? && regs.ip == handlers[s].kind.entry && regs.di == number(s)
      && s in masks
    }

    /** After an interrupt, the first deliverable signal is handled and the thread goes on later, or at once. */
    twostate lemma InterruptLaw(r: Result, k: nat)
      requires Interrupted(r)
      ensures (forall s :: s in old(pending) ==> s in old(masks)) ==> r == Resumed && regs == old(regs)
      ensures IsNext(old(pending), old(masks), k) && HasHandler(old(handlers), old(pending)[k]) ==>
                r == Resumed && Entered(old(pending)[k], old(frames), old(regs))
    {
      hide NextIndex;
      NextIsFirst(old(pending), old(masks));
    }

    /**
      The same after a system call.  One that asks for a restart is made again after
      the handler if the action says so, and returns EINTR otherwise.
     */
    twostate lemma SyscallLaw(nr: int, ret: int, r: Result, k: nat)
      requires LeftSyscall(nr, ret, r)
      ensures (forall s :: s in old(pending) ==> s in old(masks)) ==>
                if ret == -ERESTARTSYS then r == Panic else r == Resumed && regs == old(regs).(ax := ret)
      ensures IsNext(old(pending), old(masks), k) && HasHandler(old(handlers), old(pending)[k]) ==>
                && r == Resumed
                && Entered(old(pending)[k], old(frames),
                           if ret != -ERESTARTSYS then old(regs).(ax := ret)
                           else if old(handlers)[old(pending)[k]].restart
                           then old(regs).(ax := nr, ip := old(regs).ip - 2)
                           else old(regs).(ax := -EINTR))
    {
      hide NextIndex;
      NextIsFirst(old(pending), old(masks));
    }

    /** `signal_exit_to_user_prepare`, after an interrupt. */
    method ExitToUser() returns (r: Result)
      requires Valid()
      modifies this
      ensures Valid() && Interrupted(r)
    {
      hide FramesOk, SignalsOf, OneFrameEach, NextIndex, NoRepeats;
      NextIsFirst(pending, masks);
      var next := TakeNext();
      if next.None? { return Resumed; }
      var action := ActionOf(handlers, next.value);
      r := Deliver(next.value, action);
    }

    /**
      `signal_exit_to_user_prepare_syscall`.  With a handler and the restart flag,
      the frame saved is the one that runs the call again.
     */
    method ExitFromSyscall(nr: int, ret: int) returns (r: Result)
      requires Valid()
      modifies this
      ensures Valid() && LeftSyscall(nr, ret, r)
    {
      hide FramesOk, SignalsOf, OneFrameEach, NextIndex, NoRepeats;
      NextIsFirst(pending, masks);
      var next := TakeNext();
      var action := if next.Some? then ActionOf(handlers, next.value) else Action(Default, 0, false);
      var result := ret;
      if ret == -ERESTARTSYS {
        if next.None? { return Panic; }
        result := -EINTR;
        if action.restart {
          regs := regs.(ax := nr, ip := regs.ip - 2);
          r := Deliver(next.value, action);
          return;
        }
      }
      regs := regs.(ax := result);
      if next.None? { return Resumed; }
      r := Deliver(next.value, action);
    }

    /**
      `platform_restore_from_signal_handler` takes what lies at the given address
      for a frame.  For the innermost frame, registers and masks are those of the
      moment of delivery.
     */
    method Return(sp: int) returns (r: Result)
      requires Valid()
      modifies this`regs, this`masks, this`frames
      ensures r == Resumed && regs == LoadRegs(mem, sp + DATA_SIZE)
      ensures var data := LoadData(mem, sp);
              masks == if data.Some? && !data.value.1 then old(masks) - {data.value.0} else old(masks)
      ensures if old(frames) != [] && sp == old(frames)[0].at then
                && Valid() && frames == old(frames)[1..]
                && regs == old(frames)[0].saved && masks == SignalsOf(old(frames)[1..])
              else frames == old(frames)
    {
      hide SignalsOf, OneFrameEach;
      var head := sp;
      var data := LoadData(mem, head);
      head := head + DATA_SIZE;
      var saved := LoadRegs(mem, head);
      if data.Some? && !data.value.1 { masks := masks - {data.value.0}; }
      regs := saved;
      if frames != [] && sp == frames[0].at {
        assert FrameOk(mem, frames[0]);
        assert mem(sp) == Fragment(VData(frames[0].signal, false), 0);
        assert mem(head) == Fragment(VRegs(frames[0].saved), 0);
        SignalsPop(frames);
        InnerFrames(mem, frames);
        frames := frames[1..];
      }
      return Resumed;
    }

    /** A new action for a signal. */
    method Register(s: Signal, action: Action)
      requires Valid()
      modifies this`handlers
      ensures Valid() && handlers == old(handlers)[s := action]
    {
      handlers := handlers[s := action];
    }

    /**
      The signal part of fork: masks are copied and pending signals too, in reverse.
      The new process is given no main thread, so that a signal that terminates the
      child never ends its process.
     */
    method Fork() returns (child: Thread)
      requires Valid()
      ensures fresh(child) && child.Valid() && child.masks == masks && child.frames == frames && child.regs == regs
      ensures child.pending == Reversed(pending) && child.handlers == handlers && child.Ending() == ThreadExits
    {
      hide FramesOk, SignalsOf, OneFrameEach, NoRepeats, Reversed;
      child := new Thread(false, false, isKernel, number, regs, mem);
      child.masks := masks;
      child.handlers := handlers;
      child.frames := frames;
      child.pending := CopyPending(pending);
      ReversedHas(pending);
    }

    /** The copying loop prepends, so the copy is in reverse. */
    static method CopyPending(pending: seq<Signal>) returns (copy: seq<Signal>)
      ensures copy == Reversed(pending)
    {
      copy := [];
      var k := 0;
      while k < |pending|
        invariant k <= |pending| && Reversed(pending) == Reversed(pending[k..]) + copy
      {
        assert pending[k..][0] == pending[k] && pending[k..][1..] == pending[k + 1..];
        copy := [pending[k]] + copy;
        k := k + 1;
      }
      assert pending[k..] == [] && [] + copy == copy;
    }

    /** User code writes one cell, unless it lies in a live frame. */
    method Write(x: int, c: Cell)
      requires Valid()
      modifies this`mem
      ensures Valid() && mem == if InFrame(frames, x) then old(mem) else Poked(old(mem), x, c)
    {
      var k := 0;
      while k < |frames|
        invariant k <= |frames| && forall j :: 0 <= j < k ==> !(frames[j].at <= x < Top(frames[j]))
      {
        if frames[k].at <= x < Top(frames[k]) { return; }
        k := k + 1;
      }
      var memory := Poked(mem, x, c);
      KeptFramesOk(mem, memory, frames);
      mem := memory;
    }

    /** One step; a return that would go below `floor` frames is refused. */
    method Perform(step: Step, floor: nat) returns (r: Result)
      requires Valid() && floor <= |frames|
      modifies this
      ensures Valid() && floor <= |frames| && Outer(frames, floor) == Outer(old(frames), floor)
      ensures match step
              case SendSignal(s) =>
                frames == old(frames) && regs == old(regs)
                && pending == if (isKernel && !IsFatal(s)) || s in old(pending) then old(pending)
                              else old(pending) + [s]
              case SetAction(s, action) =>
                frames == old(frames) && regs == old(regs) && handlers == old(handlers)[s := action]
              case Jump(after) =>
                frames == old(frames) && regs == if frames == [] || after.sp <= frames[0].at then after else old(regs)
              case Poke(x, c) =>
                frames == old(frames) && mem == if InFrame(frames, x) then old(mem) else Poked(old(mem), x, c)
              case Interrupt => Interrupted(r)
              case Syscall(nr, ret) => LeftSyscall(nr, ret, r)
              case SigReturn =>
                if |old(frames)| > floor then frames == old(frames)[1..] && regs == old(frames)[0].saved
                else frames == old(frames) && regs == old(regs)
    {
      hide FramesOk, SignalsOf, OneFrameEach, NoRepeats, ActionOf, NextIndex;
      r := Resumed;
      match step
      case SendSignal(s) => var ok := Send(s);
      case SetAction(s, action) => Register(s, action);
      case Jump(after) => if frames == [] || after.sp <= frames[0].at { regs := after; }
      case Poke(x, c) => Write(x, c);
      case Interrupt => r := ExitToUser();
      case Syscall(nr, ret) => r := ExitFromSyscall(nr, ret);
      case SigReturn =>
        if |frames| > floor {
          OuterPop(frames, floor);
          r := Return(frames[0].at);
        }
    }

    /**
      Over every nesting of deliveries and returns inside a handler, the frame of
      that handler stays as delivery left it, so its own return restores the
      registers and masks of that moment.  The run stops where a step does not
      resume the thread.
     */
    method RunHandler(steps: seq<Step>) returns (done: bool, r: Result)
      requires Valid() && frames != []
      modifies this
      ensures Valid() && (done ==> r == Resumed)
      ensures done ==>
                frames == old(frames)[1..] && regs == old(frames)[0].saved && masks == SignalsOf(old(frames)[1..])
      ensures !done ==> |frames| >= |old(frames)| && Outer(frames, |old(frames)|) == old(frames)
      ensures !done && r == Resumed ==> |frames| > |old(frames)|
    {
      hide FramesOk, SignalsOf, OneFrameEach, NoRepeats;
      var floor := |frames|;
      assert Outer(frames, floor) == frames;
      for k := 0 to |steps|
        invariant Valid() && floor <= |frames| && Outer(frames, floor) == old(frames)
      {
        r := Perform(steps[k], floor);
        if r != Resumed { return false, r; }
      }
      if |frames| > floor { return false, Resumed; }
      assert frames == old(frames);
      r := Return(frames[0].at);
      return true, r;
    }
  }

  datatype Step =
    | SendSignal(s: Signal) | SetAction(s: Signal, action: Action) | Jump(after: Regs) | Poke(x: int, c: Cell)
    | Interrupt | Syscall(nr: int, ret: int) | SigReturn

  predicate InFrame(frames: seq<Frame>, x: int) {
    exists k :: 0 <= k < |frames| && frames[k].at <= x < Top(frames[k])
  }

  function Poked(mem: Memory, a: int, c: Cell): Memory { x => if x == a then c else mem(x) }

  /** The `n` outermost frames. */
  function Outer(frames: seq<Frame>, n: nat): seq<Frame>
    requires n <= |frames|
  {
    frames[|frames| - n..]
  }

  lemma OuterPop(frames: seq<Frame>, n: nat)
    requires n < |frames|
    ensures Outer(frames[1..], n) == Outer(frames, n)
  {
  }
}
