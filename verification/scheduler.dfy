/**
  Threads, CPUs and waitlists as a step system.

  A step is one locked region: to sleep on a waitlist, a thread first appends
  itself and then blocks.  Blocking or yielding includes the switch to the
  scheduler.  Runs are free of signals.  Of the kernel's assertions all are proved
  but one: a wake-up panics exactly when it finds a waiter that has not blocked yet.
 */
module Scheduler {
  import opened Basics

  datatype RunState = Created | Ready | Running | Blocked | NonInterruptible | Dead

  /** How far a thread is through its exit: marked dead, list closed, waiters woken. */
  datatype Phase = Alive | Marked | ListClosed | Finished

  /** The waitlist of those who join a thread, or some other one. */
  datatype ListId = OfThread(t: nat) | Other(k: nat)

  /** `waiting`: a wait condition is set; `on`: the waitlist the thread is on, asleep or about to be. */
  datatype Thread = Thread(state: RunState, waiting: bool, on: Option<ListId>, phase: Phase)

  datatype Waitlist = Waitlist(closed: bool, waiters: seq<nat>)

  type Threads = map<nat, Thread>
  type Lists = map<ListId, Waitlist>

  function ListAt(lists: Lists, id: ListId): Waitlist {
    if id in lists then lists[id] else Waitlist(false, [])
  }

  ghost predicate Held(cpus: seq<Option<nat>>, t: nat) {
    exists c :: 0 <= c < |cpus| && cpus[c] == Some(t)
  }

  // ---------------------------------------------------------------- invariant

  /** No thread is held by two CPUs, and what is held is running or exiting. */
  ghost predicate CpusOk(cpus: seq<Option<nat>>, threads: Threads) {
    && (forall c, d :: 0 <= c < d < |cpus| && cpus[c].Some? ==> cpus[c] != cpus[d])
    && (forall c :: 0 <= c < |cpus| && cpus[c].Some? ==>
          cpus[c].value in threads && (threads[cpus[c].value].state == Running || threads[cpus[c].value].state == Dead))
  }

  ghost predicate ThreadOk(th: Thread, t: nat, cpus: seq<Option<nat>>, lists: Lists) {
    && (th.state == Running ==> Held(cpus, t))
    && (th.state == Dead <==> th.phase != Alive)
    && (th.on.Some? ==>
          (th.state == Blocked || th.state == Running) && !th.waiting && t in ListAt(lists, th.on.value).waiters)
    && (th.waiting ==> th.state == Blocked)
    && (th.state == Blocked ==> th.waiting || th.on.Some?)
    && (th.phase == ListClosed || th.phase == Finished ==> ListAt(lists, OfThread(t)).closed)
    && (th.phase == Finished ==> ListAt(lists, OfThread(t)).waiters == [])
  }

  ghost predicate ListOk(w: Waitlist, id: ListId, threads: Threads) {
    && NoRepeats(w.waiters)
    && forall t :: t in w.waiters ==> t in threads && threads[t].on == Some(id)
  }

  ghost predicate Inv(cpus: seq<Option<nat>>, threads: Threads, lists: Lists) {
    && CpusOk(cpus, threads)
    && (forall t :: t in threads ==> ThreadOk(threads[t], t, cpus, lists))
    && (forall id :: ListOk(ListAt(lists, id), id, threads))
  }

  /** A joiner is not left asleep once the joined thread has finished its exit. */
  lemma JoinersReleased(cpus: seq<Option<nat>>, threads: Threads, lists: Lists, joiner: nat, target: nat)
    requires Inv(cpus, threads, lists) && joiner in threads && target in threads && threads[target].phase == Finished
    ensures threads[joiner].on != Some(OfThread(target))
  {
  }

  /** A running thread is held by exactly one CPU. */
  lemma RunningHeldOnce(cpus: seq<Option<nat>>, threads: Threads, lists: Lists, t: nat)
    requires Inv(cpus, threads, lists) && t in threads && threads[t].state == Running
    ensures exists c ::
              && 0 <= c < |cpus| && cpus[c] == Some(t)
              && forall d :: 0 <= d < |cpus| && cpus[d] == Some(t) ==> d == c
  {
  }

  /** The dead stay dead. */
  ghost predicate DeadStay(before: Threads, after: Threads) {
    forall t :: t in before && t in after && before[t].state == Dead ==> after[t].state == Dead
  }

  // ---------------------------------------------------------------- lemmas about single steps

  lemma HeldElsewhere(cpus: seq<Option<nat>>, c: nat, x: Option<nat>, t: nat)
    requires c < |cpus| && Held(cpus, t) && (cpus[c] != Some(t) || x == Some(t))
    ensures Held(cpus[c := x], t)
  {
    var d :| 0 <= d < |cpus| && cpus[d] == Some(t);
    assert cpus[c := x][d] == Some(t);
  }

  /** A CPU without a thread takes one that no CPU holds. */
  lemma TakeKeeps(cpus: seq<Option<nat>>, threads: Threads, lists: Lists, c: nat, t: nat)
    requires Inv(cpus, threads, lists) && c < |cpus| && cpus[c].None? && t in threads
    requires threads[t].state in {Created, Ready, Blocked} && threads[t].on.None?
    ensures Inv(cpus[c := Some(t)], threads[t := threads[t].(state := Running, waiting := false)], lists)
  {
    var th := threads[t].(state := Running, waiting := false);
    var cpus', threads' := cpus[c := Some(t)], threads[t := th];
    assert cpus'[c] == Some(t);
    forall u | u in threads' ensures ThreadOk(threads'[u], u, cpus', lists) {
      assert ThreadOk(threads[u], u, cpus, lists);
      if u != t && threads[u].state == Running { HeldElsewhere(cpus, c, Some(t), u); }
    }
    forall id ensures ListOk(ListAt(lists, id), id, threads') { assert ListOk(ListAt(lists, id), id, threads); }
  }

  /** A CPU gives up its thread, which is in a state that needs no CPU. */
  lemma LeaveKeeps(cpus: seq<Option<nat>>, threads: Threads, lists: Lists, c: nat, th: Thread)
    requires Inv(cpus, threads, lists) && c < |cpus| && cpus[c].Some?
    requires var t := cpus[c].value; th.phase == threads[t].phase && th.on == threads[t].on
    requires th.state == Dead <==> th.phase != Alive
    requires if th.on.Some? then th.state == Blocked && !th.waiting
             else th.state == Ready || th.state == Dead || (th.state == Blocked && th.waiting)
    requires th.waiting ==> th.state == Blocked
    ensures Inv(cpus[c := None], threads[cpus[c].value := th], lists)
    ensures threads[cpus[c].value].state == Dead ==> th.state == Dead
  {
    var t := cpus[c].value;
    var cpus', threads' := cpus[c := None], threads[t := th];
    assert ThreadOk(threads[t], t, cpus, lists);
    forall u | u in threads' ensures ThreadOk(threads'[u], u, cpus', lists) {
      assert ThreadOk(threads[u], u, cpus, lists);
      if u != t && threads[u].state == Running { HeldElsewhere(cpus, c, None, u); }
    }
    forall id ensures ListOk(ListAt(lists, id), id, threads') { assert ListOk(ListAt(lists, id), id, threads); }
  }

  /** The thread of a CPU appends itself to an open waitlist. */
  lemma AppendKeeps(cpus: seq<Option<nat>>, threads: Threads, lists: Lists, c: nat, id: ListId)
    requires Inv(cpus, threads, lists) && c < |cpus| && cpus[c].Some?
    requires threads[cpus[c].value].state == Running && threads[cpus[c].value].on.None?
    requires !ListAt(lists, id).closed
    ensures var t := cpus[c].value; var w := ListAt(lists, id);
            Inv(cpus, threads[t := threads[t].(on := Some(id))], lists[id := w.(waiters := w.waiters + [t])])
  {
    var t, w := cpus[c].value, ListAt(lists, id);
    var threads', lists' := threads[t := threads[t].(on := Some(id))], lists[id := w.(waiters := w.waiters + [t])];
    assert ThreadOk(threads[t], t, cpus, lists) && ListOk(w, id, threads);
    assert t !in w.waiters;
    forall u | u in threads' ensures ThreadOk(threads'[u], u, cpus, lists') {
      assert ThreadOk(threads[u], u, cpus, lists);
    }
    forall i ensures ListOk(ListAt(lists', i), i, threads') { assert ListOk(ListAt(lists, i), i, threads); }
  }

  /** A waiter that has not blocked yet: waking it trips an assertion. */
  predicate StillRuns(threads: Threads, t: nat) {
    t in threads && threads[t].state == Running
  }

  /** How many waiters, from the first one on, can be woken before one that still runs is met. */
  function Sleepers(threads: Threads, waiters: seq<nat>): (n: nat)
    ensures n <= |waiters|
    ensures forall k :: 0 <= k < n ==> !StillRuns(threads, waiters[k])
    ensures n < |waiters| ==> StillRuns(threads, waiters[n])
  {
    if waiters == [] || StillRuns(threads, waiters[0]) then 0 else 1 + Sleepers(threads, waiters[1..])
  }

  /** The first waiter of a list is made ready, if it is asleep by now. */
  lemma WakeOneKeeps(cpus: seq<Option<nat>>, threads: Threads, lists: Lists, id: ListId)
    requires Inv(cpus, threads, lists) && ListAt(lists, id).waiters != []
    requires !StillRuns(threads, ListAt(lists, id).waiters[0])
    ensures var w := ListAt(lists, id); var t := w.waiters[0];
            && t in threads && threads[t].state == Blocked
            && Inv(cpus, threads[t := threads[t].(state := Ready, on := None)],
               lists[id := w.(waiters := w.waiters[1..])])
  {
    var w := ListAt(lists, id);
    var t := w.waiters[0];
    assert ListOk(w, id, threads) && t in w.waiters;
    var th := threads[t].(state := Ready, on := None);
    var threads', lists' := threads[t := th], lists[id := w.(waiters := w.waiters[1..])];
    assert ThreadOk(threads[t], t, cpus, lists);
    assert forall u :: u in w.waiters <==> u == t || u in w.waiters[1..];
    assert t !in w.waiters[1..];
    forall u | u in threads'
      ensures ThreadOk(threads'[u], u, cpus, lists')
    {
      assert ThreadOk(threads[u], u, cpus, lists);
    }
    forall i ensures ListOk(ListAt(lists', i), i, threads') { assert ListOk(ListAt(lists, i), i, threads); }
    assert CpusOk(cpus, threads');
  }

  lemma CloseKeeps(cpus: seq<Option<nat>>, threads: Threads, lists: Lists, id: ListId)
    requires Inv(cpus, threads, lists)
    ensures Inv(cpus, threads, lists[id := ListAt(lists, id).(closed := true)])
  {
    var lists' := lists[id := ListAt(lists, id).(closed := true)];
    forall u | u in threads
      ensures ThreadOk(threads[u], u, cpus, lists')
    {
      assert ThreadOk(threads[u], u, cpus, lists);
    }
    forall i ensures ListOk(ListAt(lists', i), i, threads) { assert ListOk(ListAt(lists, i), i, threads); }
  }

  /** A thread on a CPU moves on in its exit. */
  lemma PhaseKeeps(cpus: seq<Option<nat>>, threads: Threads, lists: Lists, t: nat, phase: Phase)
    requires Inv(cpus, threads, lists) && t in threads &&
             (threads[t].state == Running || threads[t].state == Dead) && threads[t].on.None? && phase != Alive
    requires phase == ListClosed || phase == Finished ==> ListAt(lists, OfThread(t)).closed
    requires phase == Finished ==> ListAt(lists, OfThread(t)).waiters == []
    ensures Inv(cpus, threads[t := threads[t].(state := Dead, phase := phase)], lists)
  {
    var threads' := threads[t := threads[t].(state := Dead, phase := phase)];
    assert ThreadOk(threads[t], t, cpus, lists);
    forall u | u in threads'
      ensures ThreadOk(threads'[u], u, cpus, lists)
    {
      assert ThreadOk(threads[u], u, cpus, lists);
    }
    forall i ensures ListOk(ListAt(lists, i), i, threads') { assert ListOk(ListAt(lists, i), i, threads); }
  }

  lemma SpawnKeeps(cpus: seq<Option<nat>>, threads: Threads, lists: Lists, t: nat)
    requires Inv(cpus, threads, lists) && t !in threads
    ensures Inv(cpus, threads[t := Thread(Created, false, None, Alive)], lists)
  {
  }

  /** No CPU is still on the dead thread, and nobody sleeps until it ends. */
  ghost predicate Forgettable(cpus: seq<Option<nat>>, lists: Lists, t: nat) {
    !Held(cpus, t) && ListAt(lists, OfThread(t)).waiters == []
  }

  /** Removing a dead thread keeps the invariant exactly when no CPU and no joiner still needs it. */
  lemma ReapExactlyWhen(cpus: seq<Option<nat>>, threads: Threads, lists: Lists, t: nat)
    requires Inv(cpus, threads, lists) && t in threads && threads[t].state == Dead
    ensures Inv(cpus, threads - {t}, lists - {OfThread(t)}) <==> Forgettable(cpus, lists, t)
  {
    var threads', lists', joiners := threads - {t}, lists - {OfThread(t)}, ListAt(lists, OfThread(t)).waiters;
    assert ThreadOk(threads[t], t, cpus, lists) && ListOk(ListAt(lists, OfThread(t)), OfThread(t), threads);
    if Forgettable(cpus, lists, t) {
      forall u | u in threads'
        ensures ThreadOk(threads'[u], u, cpus, lists')
      {
        assert ThreadOk(threads[u], u, cpus, lists);
      }
      forall i ensures ListOk(ListAt(lists', i), i, threads') { assert ListOk(ListAt(lists, i), i, threads); }
    } else if joiners != [] {
      var u := joiners[0];
      assert u in joiners;
      assert ThreadOk(threads[u], u, cpus, lists);
      assert u in threads' && !ThreadOk(threads'[u], u, cpus, lists');
    }
  }

  // ---------------------------------------------------------------- the kernel

  datatype Step =
    | Spawn(t: nat) | Schedule(c: nat, t: nat, met: bool) | Yield(c: nat) | WaitCondition(c: nat)
    | WaitOn(c: nat, k: nat) | Join(c: nat, t: nat) | Block(c: nat) | WakeSome(c: nat, k: nat, n: nat)
    | CloseOther(k: nat) | Exit(c: nat) | Reap(c: nat, t: nat)

  /** Everything the scheduler keeps; a panic ends the run. */
  datatype Sys = Sys(cpus: seq<Option<nat>>, threads: Threads, lists: Lists, panicked: bool)

  ghost predicate Good(s: Sys) { Inv(s.cpus, s.threads, s.lists) }

  // ---------------------------------------------------------------- what each step does

  /** `should_schedule_to_thread`; `met` tells whether a wait condition holds. */
  predicate ShouldSchedule(th: Thread, met: bool) {
    match th.state
    case Ready => true
    case Created => true
    case Blocked => th.waiting && met
    case _ => false
  }

  predicate OnCpu(s: Sys, c: nat) {
    c < |s.cpus| && s.cpus[c].Some? && s.cpus[c].value in s.threads
  }

  /** The thread of CPU `c` is not about to block; one that is does nothing else, as kernel code is not interrupted. */
  predicate Acts(s: Sys, c: nat) {
    OnCpu(s, c) && s.threads[s.cpus[c].value].on.None?
  }

  predicate RunsOn(s: Sys, c: nat) {
    Acts(s, c) && s.threads[s.cpus[c].value].state == Running
  }

  /** The thread of CPU `c` leaves it in state `th`. */
  function Left(s: Sys, c: nat, th: Thread): Sys
    requires OnCpu(s, c)
  {
    Sys(s.cpus[c := None], s.threads[s.cpus[c].value := th], s.lists, s.panicked)
  }

  function Yielded(s: Sys, c: nat): Sys
    requires OnCpu(s, c)
  {
    var th := s.threads[s.cpus[c].value];
    Left(s, c, if th.state == Running then th.(state := Ready) else th)
  }

  /** `waitlist_append`: the thread of CPU `c` is on the list, unless the list is closed. */
  function Appended(s: Sys, c: nat, id: ListId): Sys
    requires OnCpu(s, c)
  {
    var t, w := s.cpus[c].value, ListAt(s.lists, id);
    if w.closed then s
    else s.(threads := s.threads[t := s.threads[t].(on := Some(id))],
            lists := s.lists[id := w.(waiters := w.waiters + [t])])
  }

  /** The first `n` waiters of the list are made ready. */
  ghost function Woken(s: Sys, id: ListId, n: nat): Sys {
    var w := ListAt(s.lists, id);
    if n == 0 || w.waiters == [] then s
    else
      var k := Min(n, |w.waiters|);
      s.(threads := map t | t in s.threads :: if t in w.waiters[..k] then s.threads[t].(state := Ready, on := None)
                                              else s.threads[t],
         lists := s.lists[id := w.(waiters := w.waiters[k..])])
  }

  /** Waking `n` waiters meets one that has not blocked yet. */
  ghost predicate Trips(s: Sys, id: ListId, n: nat) {
    var w := ListAt(s.lists, id);
    exists k :: 0 <= k < Min(n, |w.waiters|) && StillRuns(s.threads, w.waiters[k])
  }

  /** `waitlist_wake`: those before the first that still runs are made ready, and then the kernel panics. */
  ghost function Awakened(s: Sys, id: ListId, n: nat): Sys {
    if Trips(s, id, n) then Woken(s, id, Sleepers(s.threads, ListAt(s.lists, id).waiters)).(panicked := true)
    else Woken(s, id, n)
  }

  function ClosedFor(s: Sys, id: ListId): Sys { s.(lists := s.lists[id := ListAt(s.lists, id).(closed := true)]) }

  function InPhase(s: Sys, t: nat, phase: Phase): Sys
    requires t in s.threads
  {
    s.(threads := s.threads[t := s.threads[t].(state := Dead, phase := phase)])
  }

  /** One region of `thread_handle_exit`: mark the thread dead, close its list, wake its waiters, or leave the CPU. */
  ghost function Exited(s: Sys, c: nat): Sys
    requires OnCpu(s, c) && !s.panicked
  {
    var t := s.cpus[c].value;
    var joiners := OfThread(t);
    match s.threads[t].phase
    case Alive => InPhase(s, t, Marked)
    case Marked => InPhase(ClosedFor(s, joiners), t, ListClosed)
    case ListClosed =>
      var woken := Awakened(s, joiners, |ListAt(s.lists, joiners).waiters|);
      if woken.panicked then woken else InPhase(woken, t, Finished)
    case Finished => Yielded(s, c)
  }

  /** One step; a step that is not possible does nothing, and after a panic none is. */
  ghost function Next(s: Sys, step: Step): Sys {
    if s.panicked then s else Done(s, step)
  }

  ghost function Done(s: Sys, step: Step): Sys
    requires !s.panicked
  {
    match step
    case Spawn(t) => if t in s.threads then s else s.(threads := s.threads[t := Thread(Created, false, None, Alive)])
    case Schedule(c, t, met) =>
      if c < |s.cpus| && s.cpus[c].None? && t in s.threads && ShouldSchedule(s.threads[t], met) then
        s.(cpus := s.cpus[c := Some(t)], threads := s.threads[t := s.threads[t].(state := Running, waiting := false)])
      else s
    case Yield(c) => if Acts(s, c) then Yielded(s, c) else s
    case WaitCondition(c) =>
      if RunsOn(s, c) then Left(s, c, s.threads[s.cpus[c].value].(state := Blocked, waiting := true)) else s
    case WaitOn(c, k) => if RunsOn(s, c) then Appended(s, c, Other(k)) else s
    case Join(c, t) => if RunsOn(s, c) && t in s.threads then Appended(s, c, OfThread(t)) else s
    case Block(c) =>
      if OnCpu(s, c) && !Acts(s, c) then Left(s, c, s.threads[s.cpus[c].value].(state := Blocked)) else s
    case WakeSome(c, k, n) => if Acts(s, c) then Awakened(s, Other(k), n) else s
    case CloseOther(k) => ClosedFor(s, Other(k))
    case Exit(c) => if Acts(s, c) then Exited(s, c) else s
    case Reap(c, t) =>
      if Reaps(s, c, t) then s.(threads := s.threads - {t}, lists := s.lists - {OfThread(t)}) else s
  }

  /** `process_handle_exit` on CPU `c` removes other threads as soon as they are marked dead. */
  predicate Reaps(s: Sys, c: nat, t: nat) {
    RunsOn(s, c) && s.cpus[c] != Some(t) && t in s.threads && s.threads[t].state == Dead
  }

  /** The step does not remove a thread that a CPU or a joiner still needs. */
  ghost predicate Safe(s: Sys, step: Step) {
    !s.panicked && step.Reap? && Reaps(s, step.c, step.t) ==> Forgettable(s.cpus, s.lists, step.t)
  }

  // ---------------------------------------------------------------- what every step keeps

  lemma CpuThread(s: Sys, c: nat)
    requires Good(s) && c < |s.cpus| && s.cpus[c].Some?
    ensures OnCpu(s, c)
    ensures var th := s.threads[s.cpus[c].value];
            && (th.state == Running || th.state == Dead) && !th.waiting && (th.state == Dead <==> th.phase != Alive)
            && (th.on.Some? ==> th.state == Running)
  {
  }

  lemma YieldKeeps(s: Sys, c: nat)
    requires Good(s) && Acts(s, c)
    ensures Good(Yielded(s, c)) && DeadStay(s.threads, Yielded(s, c).threads)
  {
    CpuThread(s, c);
    var th := s.threads[s.cpus[c].value];
    LeaveKeeps(s.cpus, s.threads, s.lists, c, if th.state == Running then th.(state := Ready) else th);
  }

  /** Waking `n + 1` waiters is waking `n` and then one more. */
  lemma OneMoreAwake(s: Sys, id: ListId, n: nat)
    requires Good(s) && n < |ListAt(s.lists, id).waiters|
    ensures var m := Woken(s, id, n); var w := ListAt(m.lists, id); var t := ListAt(s.lists, id).waiters[n];
            && w.waiters == ListAt(s.lists, id).waiters[n..] && w.waiters[0] == t
            && t in m.threads && t in s.threads && m.threads[t] == s.threads[t]
            && Woken(s, id, n + 1) == m.(threads := m.threads[t := m.threads[t].(state := Ready, on := None)],
                                         lists := m.lists[id := w.(waiters := w.waiters[1..])])
  {
    hide Inv, Woken;
    OneMoreThread(s, id, n);
    OneMoreList(s, id, n);
  }

  lemma OneMoreThread(s: Sys, id: ListId, n: nat)
    requires Good(s) && n < |ListAt(s.lists, id).waiters|
    ensures var m := Woken(s, id, n); var t := ListAt(s.lists, id).waiters[n];
            && t in m.threads && t in s.threads && m.threads[t] == s.threads[t]
            && Woken(s, id, n + 1).threads == m.threads[t := m.threads[t].(state := Ready, on := None)]
  {
    hide ThreadOk, CpusOk;
    var was := ListAt(s.lists, id).waiters;
    assert ListOk(ListAt(s.lists, id), id, s.threads) && was[n] in was;
    assert was[..n + 1] == was[..n] + [was[n]];
    assert was[n] !in was[..n];
  }

  lemma OneMoreList(s: Sys, id: ListId, n: nat)
    requires n < |ListAt(s.lists, id).waiters|
    ensures var m := Woken(s, id, n); var w := ListAt(m.lists, id); var was := ListAt(s.lists, id).waiters;
            && w.waiters == was[n..]
            && Woken(s, id, n + 1) == m.(threads := Woken(s, id, n + 1).threads,
                                         lists := m.lists[id := w.(waiters := w.waiters[1..])])
  {
  }

  lemma {:induction false} WokenKeeps(s: Sys, id: ListId, n: nat)
    requires Good(s) && n <= Sleepers(s.threads, ListAt(s.lists, id).waiters)
    ensures var m := Woken(s, id, n);
            Good(m) && m.cpus == s.cpus && m.threads.Keys == s.threads.Keys && m.panicked == s.panicked
    ensures ListAt(Woken(s, id, n).lists, id).waiters == ListAt(s.lists, id).waiters[n..]
    decreases n
  {
    hide Inv, Woken, Sleepers;
    if n == 0 {
      NobodyAwake(s, id);
    } else {
      WokenKeeps(s, id, n - 1);
      OneMoreAwake(s, id, n - 1);
      var m := Woken(s, id, n - 1);
      WakeOneKeeps(m.cpus, m.threads, m.lists, id);
    }
  }

  lemma NobodyAwake(s: Sys, id: ListId)
    ensures Woken(s, id, 0) == s
  {
  }

  /** Waking disturbs no thread but the waiters. */
  lemma WokenOthers(s: Sys, id: ListId, n: nat)
    requires Good(s)
    ensures DeadStay(s.threads, Woken(s, id, n).threads) && Woken(s, id, n).panicked == s.panicked
    ensures forall t :: t in s.threads && s.threads[t].on != Some(id) ==>
              t in Woken(s, id, n).threads && Woken(s, id, n).threads[t] == s.threads[t]
    ensures n > |ListAt(s.lists, id).waiters| ==> Woken(s, id, n) == Woken(s, id, |ListAt(s.lists, id).waiters|)
  {
    var w := ListAt(s.lists, id);
    assert ListOk(w, id, s.threads);
    forall t | t in w.waiters ensures t in s.threads && s.threads[t].on == Some(id) && s.threads[t].state != Dead {
      assert ThreadOk(s.threads[t], t, s.cpus, s.lists);
    }
  }

  /** The wake-up panics if and only if the number of sleepers is too small for it. */
  lemma TripsWhen(s: Sys, id: ListId, n: nat)
    ensures var w := ListAt(s.lists, id); Trips(s, id, n) <==> Sleepers(s.threads, w.waiters) < Min(n, |w.waiters|)
  {
  }

  lemma AwakenKeeps(s: Sys, id: ListId, n: nat)
    requires Good(s)
    ensures Good(Awakened(s, id, n)) && DeadStay(s.threads, Awakened(s, id, n).threads)
    ensures Awakened(s, id, n).panicked <==> s.panicked || Trips(s, id, n)
  {
    hide Inv, Woken, Sleepers, Trips;
    TripsWhen(s, id, n);
    var w := ListAt(s.lists, id).waiters;
    var k := if Trips(s, id, n) then Sleepers(s.threads, w) else Min(n, |w|);
    WokenOthers(s, id, n);
    WokenOthers(s, id, k);
    WokenKeeps(s, id, k);
  }

  lemma ExitKeeps(s: Sys, c: nat)
    requires Good(s) && Acts(s, c) && !s.panicked
    ensures Good(Exited(s, c)) && DeadStay(s.threads, Exited(s, c).threads)
  {
    hide Inv, Woken, Sleepers, Trips;
    var t := s.cpus[c].value;
    var joiners := OfThread(t);
    CpuThread(s, c);
    match s.threads[t].phase
    case Alive => PhaseKeeps(s.cpus, s.threads, s.lists, t, Marked);
    case Marked =>
      CloseKeeps(s.cpus, s.threads, s.lists, joiners);
      PhaseKeeps(s.cpus, s.threads, ClosedFor(s, joiners).lists, t, ListClosed);
    case ListClosed =>
      var n := |ListAt(s.lists, joiners).waiters|;
      AwakenKeeps(s, joiners, n);
      TripsWhen(s, joiners, n);
      if !Trips(s, joiners, n) {
        WokenKeeps(s, joiners, n);
        WokenOthers(s, joiners, n);
        ListStaysClosed(s, t);
        var m := Woken(s, joiners, n);
        PhaseKeeps(m.cpus, m.threads, m.lists, t, Finished);
      }
    case Finished => YieldKeeps(s, c);
  }

  lemma ListStaysClosed(s: Sys, t: nat)
    requires Good(s) && t in s.threads && s.threads[t].phase == ListClosed
    ensures ListAt(Woken(s, OfThread(t), |ListAt(s.lists, OfThread(t)).waiters|).lists, OfThread(t)).closed
  {
  }

  /**
    Every step keeps the invariant, but for the removal of a dead thread that is
    still needed; and nobody comes back from the dead.
   */
  lemma NextKeeps(s: Sys, step: Step)
    requires Good(s)
    ensures Good(Next(s, step)) <==> Safe(s, step)
    ensures DeadStay(s.threads, Next(s, step).threads)
  {
    hide Inv, Awakened, Exited, Yielded, Forgettable;
    if s.panicked { return; }
    match step
    case Spawn(t) => if t !in s.threads { SpawnKeeps(s.cpus, s.threads, s.lists, t); }
    case Schedule(c, t, met) =>
      if c < |s.cpus| && s.cpus[c].None? && t in s.threads && ShouldSchedule(s.threads[t], met) {
        NotAsleep(s, t, met);
        TakeKeeps(s.cpus, s.threads, s.lists, c, t);
      }
    case Yield(c) => if Acts(s, c) { YieldKeeps(s, c); }
    case WaitCondition(c) =>
      if RunsOn(s, c) {
        CpuThread(s, c);
        LeaveKeeps(s.cpus, s.threads, s.lists, c, s.threads[s.cpus[c].value].(state := Blocked, waiting := true));
      }
    case WaitOn(c, k) => if RunsOn(s, c) { AppendedKeeps(s, c, Other(k)); }
    case Join(c, t) => if RunsOn(s, c) && t in s.threads { AppendedKeeps(s, c, OfThread(t)); }
    case Block(c) =>
      if OnCpu(s, c) && !Acts(s, c) {
        CpuThread(s, c);
        LeaveKeeps(s.cpus, s.threads, s.lists, c, s.threads[s.cpus[c].value].(state := Blocked));
      }
    case WakeSome(c, k, n) => if Acts(s, c) { AwakenKeeps(s, Other(k), n); }
    case CloseOther(k) => CloseKeeps(s.cpus, s.threads, s.lists, Other(k));
    case Exit(c) => if Acts(s, c) { ExitKeeps(s, c); }
    case Reap(c, t) => if Reaps(s, c, t) { ReapExactlyWhen(s.cpus, s.threads, s.lists, t); }
  }

  lemma NotAsleep(s: Sys, t: nat, met: bool)
    requires Good(s) && t in s.threads && ShouldSchedule(s.threads[t], met)
    ensures s.threads[t].on.None? && s.threads[t].state in {Created, Ready, Blocked}
  {
  }

  lemma AppendedKeeps(s: Sys, c: nat, id: ListId)
    requires Good(s) && RunsOn(s, c)
    ensures Good(Appended(s, c, id)) && DeadStay(s.threads, Appended(s, c, id).threads)
  {
    hide Inv;
    if !ListAt(s.lists, id).closed { AppendKeeps(s.cpus, s.threads, s.lists, c, id); }
  }

  // ---------------------------------------------------------------- which steps panic

  /** The step wakes a list, and meets a waiter that another CPU is still on. */
  ghost predicate Panics(s: Sys, step: Step) {
    match step
    case WakeSome(c, k, n) => Acts(s, c) && Trips(s, Other(k), n)
    case Exit(c) =>
      && Acts(s, c) && s.threads[s.cpus[c].value].phase == ListClosed
      && var joiners := OfThread(s.cpus[c].value); Trips(s, joiners, |ListAt(s.lists, joiners).waiters|)
    case _ => false
  }

  lemma StepPanics(s: Sys, step: Step)
    requires Good(s)
    ensures Next(s, step).panicked <==> s.panicked || Panics(s, step)
  {
    hide Inv, Woken, Sleepers, Trips, Awakened;
    if s.panicked { return; }
    match step
    case WakeSome(c, k, n) => AwakenKeeps(s, Other(k), n);
    case Exit(c) =>
      if Acts(s, c) {
        var joiners := OfThread(s.cpus[c].value);
        AwakenKeeps(s, joiners, |ListAt(s.lists, joiners).waiters|);
      }
    case _ =>
  }

  /** A waiter that has not blocked yet is on another CPU than the one that wakes it. */
  lemma TwoCpus(s: Sys, c: nat, id: ListId, n: nat)
    requires Good(s) && Acts(s, c) && Trips(s, id, n)
    ensures |s.cpus| >= 2
  {
    var w := ListAt(s.lists, id);
    assert ListOk(w, id, s.threads);
    var k :| 0 <= k < Min(n, |w.waiters|) && StillRuns(s.threads, w.waiters[k]);
    var t := w.waiters[k];
    assert t in w.waiters && ThreadOk(s.threads[t], t, s.cpus, s.lists);
    var d :| 0 <= d < |s.cpus| && s.cpus[d] == Some(t);
    assert s.threads[t].on == Some(id);
    assert d != c;
  }

  // ---------------------------------------------------------------- runs

  ghost function After(s: Sys, steps: seq<Step>): Sys {
    if steps == [] then s else Next(After(s, steps[..|steps| - 1]), steps[|steps| - 1])
  }

  /** The invariant holds, now and at every earlier point of the run. */
  ghost predicate AlwaysGood(s: Sys, steps: seq<Step>) {
    Good(After(s, steps)) && (steps != [] ==> AlwaysGood(s, steps[..|steps| - 1]))
  }

  /** Dead threads are only removed when nothing needs them any more. */
  ghost predicate Careful(s: Sys, steps: seq<Step>) {
    steps != [] ==>
      Careful(s, steps[..|steps| - 1]) && Safe(After(s, steps[..|steps| - 1]), steps[|steps| - 1])
  }

  /** The invariant holds over every run, exactly if no thread is removed too early. */
  lemma {:induction false} RunKeeps(s: Sys, steps: seq<Step>)
    requires Good(s)
    ensures AlwaysGood(s, steps) <==> Careful(s, steps)
    decreases |steps|
  {
    hide Inv, Next, Safe;
    if steps != [] {
      RunKeeps(s, steps[..|steps| - 1]);
      if AlwaysGood(s, steps[..|steps| - 1]) { NextKeeps(After(s, steps[..|steps| - 1]), steps[|steps| - 1]); }
    }
  }

  /** A run that removes no thread is careful. */
  lemma {:induction false} NoReapIsCareful(s: Sys, steps: seq<Step>)
    requires forall step :: step in steps ==> !step.Reap?
    ensures Careful(s, steps)
    decreases |steps|
  {
    if steps != [] {
      NoReapIsCareful(s, steps[..|steps| - 1]);
      assert steps[|steps| - 1] in steps;
    }
  }

  /** Some step of the run panics. */
  ghost predicate EverPanics(s: Sys, steps: seq<Step>) {
    steps != [] &&
    (EverPanics(s, steps[..|steps| - 1]) || Panics(After(s, steps[..|steps| - 1]), steps[|steps| - 1]))
  }

  /** A careful run panics exactly if some wake-up meets a waiter that has not blocked yet. */
  lemma {:induction false} PanicsExactlyWhen(s: Sys, steps: seq<Step>)
    requires Good(s) && !s.panicked && Careful(s, steps)
    ensures After(s, steps).panicked <==> EverPanics(s, steps)
    decreases |steps|
  {
    hide Inv, Next, Safe, Panics;
    if steps != [] {
      var less := steps[..|steps| - 1];
      PanicsExactlyWhen(s, less);
      RunKeeps(s, less);
      StepPanics(After(s, less), steps[|steps| - 1]);
    }
  }

  /** No step takes a CPU away or adds one. */
  lemma {:induction false} SameCpus(s: Sys, steps: seq<Step>)
    requires Good(s) && Careful(s, steps)
    ensures |After(s, steps).cpus| == |s.cpus|
    decreases |steps|
  {
    hide Inv, Safe, Next;
    if steps != [] {
      SameCpus(s, steps[..|steps| - 1]);
      StepSameCpus(After(s, steps[..|steps| - 1]), steps[|steps| - 1]);
    }
  }

  lemma StepSameCpus(s: Sys, step: Step)
    ensures |Next(s, step).cpus| == |s.cpus|
  {
    hide Sleepers, Trips;
  }

  /** With a single CPU, no careful run panics. */
  lemma {:induction false} OneCpuNeverPanics(s: Sys, steps: seq<Step>)
    requires Good(s) && !s.panicked && Careful(s, steps) && |s.cpus| <= 1
    ensures !After(s, steps).panicked
    decreases |steps|
  {
    hide Inv, Safe, Next, Trips;
    if steps != [] {
      var less, step := steps[..|steps| - 1], steps[|steps| - 1];
      OneCpuNeverPanics(s, less);
      RunKeeps(s, less);
      SameCpus(s, less);
      var u := After(s, less);
      StepPanics(u, step);
      if Panics(u, step) {
        match step
        case WakeSome(c, k, n) => TwoCpus(u, c, Other(k), n);
        case Exit(c) =>
          var joiners := OfThread(u.cpus[c].value);
          TwoCpus(u, c, joiners, |ListAt(u.lists, joiners).waiters|);
      }
    }
  }

  /** A thread that dies stays dead as long as it is in the table. */
  lemma {:induction false} DeadForGood(s: Sys, steps: seq<Step>, t: nat)
    requires Good(s) && t in s.threads && s.threads[t].state == Dead && Careful(s, steps)
    requires forall k :: 0 <= k <= |steps| ==> t in After(s, steps[..k]).threads
    ensures t in After(s, steps).threads && After(s, steps).threads[t].state == Dead
    decreases |steps|
  {
    assert steps[..|steps|] == steps;
    if steps != [] {
      var less := steps[..|steps| - 1];
      assert forall k :: 0 <= k <= |less| ==> less[..k] == steps[..k];
      DeadForGood(s, less, t);
      RunKeeps(s, less);
      NextKeeps(After(s, less), steps[|steps| - 1]);
    }
  }

  /** Whatever the run, a joiner does not sleep on a thread that has finished its exit. */
  lemma NoJoinerForgotten(s: Sys, steps: seq<Step>, joiner: nat, target: nat)
    requires Good(s) && Careful(s, steps)
    requires var u := After(s, steps); joiner in u.threads && target in u.threads && u.threads[target].phase == Finished
    ensures After(s, steps).threads[joiner].on != Some(OfThread(target))
  {
    RunKeeps(s, steps);
    var u := After(s, steps);
    JoinersReleased(u.cpus, u.threads, u.lists, joiner, target);
  }

  /**
    Thread 1 has marked itself dead on CPU 1 and is still in its exit when the
    process exits on CPU 0: the thread is destroyed while CPU 1 is on it.
   */
  lemma ReapedWhileHeld()
    ensures var u := After(Sys([None, None], map[], map[], false), SampleSteps());
            && Good(Sys([None, None], map[], map[], false)) && !Good(u)
            && |u.cpus| == 2 && u.cpus[1] == Some(1) && 1 !in u.threads
  {
    hide After;
    var s0, steps := Sys([None, None], map[], map[], false), SampleSteps();
    SampleRun();
    LastStep(s0, steps, 5);
    assert steps[..6] == steps;
    var b := Thread(Running, false, None, Alive);
    var s5 := Sys([Some(0), Some(1)], map[0 := b, 1 := b.(state := Dead, phase := Marked)], map[], false);
    assert Reaps(s5, 0, 1);
    var u := After(s0, steps);
    assert u == Sys(s5.cpus, s5.threads - {1}, s5.lists - {OfThread(1)}, false);
    assert u.cpus[1].Some? && u.cpus[1].value !in u.threads;
    assert !CpusOk(u.cpus, u.threads);
  }

  function SampleSteps(): seq<Step> {
    [Spawn(0), Spawn(1), Schedule(0, 0, true), Schedule(1, 1, true), Exit(1), Reap(0, 1)]
  }

  lemma SampleRun()
    ensures var b := Thread(Running, false, None, Alive);
            After(Sys([None, None], map[], map[], false), SampleSteps()[..5])
            == Sys([Some(0), Some(1)], map[0 := b, 1 := b.(state := Dead, phase := Marked)], map[], false)
  {
    hide After;
    var a, b := Thread(Created, false, None, Alive), Thread(Running, false, None, Alive);
    var s0, steps := Sys([None, None], map[], map[], false), SampleSteps();
    NoSteps(s0);
    assert steps[..0] == [];
    LastStep(s0, steps, 0);
    LastStep(s0, steps, 1);
    LastStep(s0, steps, 2);
    LastStep(s0, steps, 3);
    LastStep(s0, steps, 4);
    var s2 := Sys([None, None], map[0 := a, 1 := a], map[], false);
    assert Next(Next(s0, Spawn(0)), Spawn(1)) == s2;
    var s3 := Sys([Some(0), None], map[0 := b, 1 := a], map[], false);
    assert Next(s2, Schedule(0, 0, true)) == s3;
    var s4 := Sys([Some(0), Some(1)], map[0 := b, 1 := b], map[], false);
    assert Next(s3, Schedule(1, 1, true)) == s4;
    assert Next(s4, Exit(1)) == InPhase(s4, 1, Marked);
  }

  lemma NoSteps(s: Sys)
    ensures After(s, []) == s
  {
  }

  lemma LastStep(s: Sys, steps: seq<Step>, k: nat)
    requires k < |steps|
    ensures After(s, steps[..k + 1]) == Next(After(s, steps[..k]), steps[k])
  {
    assert steps[..k + 1][..k] == steps[..k];
  }

  /** The exit of a thread wakes whoever joined it, unless it panics. */
  lemma ExitWakesJoiner(s: Sys, c: nat, joiner: nat)
    requires Good(s) && !s.panicked && RunsOn(s, c) && joiner in s.threads
    requires s.threads[joiner].on == Some(OfThread(s.cpus[c].value))
    ensures var joiners := OfThread(s.cpus[c].value); var u := Exited(Exited(Exited(s, c), c), c);
            if Trips(s, joiners, |ListAt(s.lists, joiners).waiters|) then u.panicked
            else
              && !u.panicked && joiner in u.threads
              && u.threads[joiner] == s.threads[joiner].(state := Ready, on := None)
  {
    hide Sleepers;
    var t := s.cpus[c].value;
    var joiners := OfThread(t);
    var m := Exited(Exited(s, c), c);
    var w := ListAt(s.lists, joiners);
    assert ListOk(w, joiners, s.threads) && ThreadOk(s.threads[joiner], joiner, s.cpus, s.lists);
    assert forall x :: x in w.waiters ==> x != t;
    assert ListAt(m.lists, joiners).waiters == w.waiters;
    assert forall k :: 0 <= k < |w.waiters| ==>
             w.waiters[k] in w.waiters && (StillRuns(m.threads, w.waiters[k]) <==> StillRuns(s.threads, w.waiters[k]));
  }

  /**
    Thread 0 is about to sleep until thread 1 ends: it is on the list, but has
    not blocked yet.  Thread 1 exits on the other CPU, and the kernel panics.
   */
  lemma JoinedTooSoon()
    ensures var s := JustJoining();
            && Good(s) && !s.panicked
            && Next(Next(Next(s, Exit(1)), Exit(1)), Exit(1)).panicked
            && !Next(Next(Next(Next(s, Block(0)), Exit(1)), Exit(1)), Exit(1)).panicked
  {
    hide Woken, Sleepers, Inv, Trips, Awakened;
    var s := JustJoining();
    JustJoiningGood();
    var b, id := Thread(Running, false, None, Alive), OfThread(1);
    var closing := s.(threads := s.threads[1 := b.(state := Dead, phase := ListClosed)],
                      lists := map[id := Waitlist(true, [0])]);
    assert Next(Next(s, Exit(1)), Exit(1)) == closing;
    LateJoiner(closing, id);
    var asleep := s.(cpus := [None, Some(1)], threads := s.threads[0 := Thread(Blocked, false, Some(id), Alive)]);
    assert Next(s, Block(0)) == asleep;
    var early := asleep.(threads := asleep.threads[1 := b.(state := Dead, phase := ListClosed)],
                         lists := map[id := Waitlist(true, [0])]);
    assert Next(Next(asleep, Exit(1)), Exit(1)) == early;
    LateJoiner(early, id);
  }

  lemma LateJoiner(s: Sys, id: ListId)
    requires ListAt(s.lists, id).waiters == [0] && !s.panicked
    ensures Trips(s, id, 1) <==> StillRuns(s.threads, 0)
    ensures Awakened(s, id, 1).panicked <==> Trips(s, id, 1)
  {
    assert ListAt(s.lists, id).waiters[0] == 0;
  }

  function JustJoining(): Sys {
    var b := Thread(Running, false, None, Alive);
    Sys([Some(0), Some(1)], map[0 := b.(on := Some(OfThread(1))), 1 := b],
        map[OfThread(1) := Waitlist(false, [0])], false)
  }

  lemma JustJoiningGood()
    ensures Good(JustJoining())
  {
    var s := JustJoining();
    assert s.cpus[0] == Some(0) && s.cpus[1] == Some(1);
    forall id ensures ListOk(ListAt(s.lists, id), id, s.threads) {}
  }

  // ---------------------------------------------------------------- the kernel

  class Kernel {
    var cpus: seq<Option<nat>>
    var threads: Threads
    var lists: Lists
    var panicked: bool

    ghost function Now(): Sys
      reads this
    {
      Sys(cpus, threads, lists, panicked)
    }

    ghost predicate Valid()
      reads this
    {
      Good(Now())
    }

    constructor (n: nat)
      ensures Valid() && Now() == Sys(seq(n, _ => None), map[], map[], false)
    {
      cpus := seq(n, _ => None);
      threads, lists, panicked := map[], map[], false;
    }

    /** `schedule_to_thread` on an idle CPU. */
    method ScheduleTo(c: nat, t: nat, met: bool)
      requires c < |cpus| && cpus[c].None? && t in threads && !panicked
      modifies this
      ensures Now() == Next(old(Now()), Schedule(c, t, met))
      ensures var th := old(threads)[t];
              if th.state == Created || th.state == Ready || (th.state == Blocked && th.waiting && met) then
                cpus == old(cpus)[c := Some(t)] && threads == old(threads)[t := th.(state := Running, waiting := false)]
              else cpus == old(cpus) && threads == old(threads)
    {
      if !ShouldSchedule(threads[t], met) { return; }
      threads := threads[t := threads[t].(state := Running, waiting := false)];
      cpus := cpus[c := Some(t)];
    }

    /** `reschedule`; a thread on a CPU is never READY, as the kernel asserts. */
    method Reschedule(c: nat)
      requires Valid() && Acts(Now(), c)
      modifies this
      ensures Now() == Yielded(old(Now()), c)
    {
      var t := cpus[c].value;
      CpuThread(Now(), c);
      assert threads[t].state != Ready;
      if threads[t].state == Running { threads := threads[t := threads[t].(state := Ready)]; }
      assert threads == threads[t := threads[t]];
      cpus := cpus[c := None];
    }

    /** `reschedule_for_wait_condition`; the thread is neither blocked nor waiting, as the kernel asserts. */
    method BlockForCondition(c: nat)
      requires Valid() && RunsOn(Now(), c) && !panicked
      modifies this
      ensures Now() == Next(old(Now()), WaitCondition(c))
    {
      var t := cpus[c].value;
      CpuThread(Now(), c);
      assert threads[t].state != Blocked && !threads[t].waiting;
      threads := threads[t := threads[t].(state := Blocked, waiting := true)];
      cpus := cpus[c := None];
    }

    /** The first half of `reschedule_for_waitlist`: on a closed list the thread goes on running. */
    method AppendToList(c: nat, id: ListId) returns (appended: bool)
      requires Valid() && RunsOn(Now(), c)
      modifies this
      ensures appended == !ListAt(old(lists), id).closed && Now() == Appended(old(Now()), c, id)
    {
      var t := cpus[c].value;
      CpuThread(Now(), c);
      assert threads[t].state != Blocked && !threads[t].waiting;
      var w := ListAt(lists, id);
      if w.closed { return false; }
      lists := lists[id := w.(waiters := w.waiters + [t])];
      threads := threads[t := threads[t].(on := Some(id))];
      return true;
    }

    /** The second half: the thread blocks and leaves the CPU. */
    method BlockListed(c: nat)
      requires OnCpu(Now(), c) && !Acts(Now(), c) && !panicked
      modifies this
      ensures Now() == Next(old(Now()), Block(c))
    {
      var t := cpus[c].value;
      threads := threads[t := threads[t].(state := Blocked)];
      cpus := cpus[c := None];
    }

    /** `waitlist_wake`: a thread that is woken must be blocked by now. */
    method Wake(id: ListId, max: nat) returns (n: Option<nat>)
      requires Valid() && !panicked
      modifies this`threads, this`lists, this`panicked
      ensures n == if Trips(old(Now()), id, max) then None else Some(Min(max, |ListAt(old(lists), id).waiters|))
      ensures Now() == Awakened(old(Now()), id, max)
    {
      hide Inv, Woken, Sleepers, Trips;
      var k := 0;
      NobodyAwake(Now(), id);
      TripsWhen(Now(), id, max);
      ghost var was := ListAt(lists, id).waiters;
      ghost var asleep := Sleepers(threads, was);
      while k < max && ListAt(lists, id).waiters != []
        invariant k <= max && k <= asleep && !panicked && Now() == Woken(old(Now()), id, k) &&
                  ListAt(lists, id).waiters == was[k..]
        decreases |was| - k
      {
        WokenKeeps(old(Now()), id, k);
        OneMoreAwake(old(Now()), id, k);
        var w := ListAt(lists, id);
        var t := w.waiters[0];
        assert t == was[k] && threads[t] == old(threads)[t];
        if threads[t].state == Running {
          assert StillRuns(old(threads), was[k]) && k == asleep;
          panicked := true;
          return None;
        }
        assert k != asleep;
        WakeOneKeeps(cpus, threads, lists, id);
        assert threads[t].state == Blocked;
        threads := threads[t := threads[t].(state := Ready, on := None)];
        lists := lists[id := w.(waiters := w.waiters[1..])];
        k := k + 1;
        assert ListAt(lists, id).waiters == was[k..];
      }
      if k < max { WokenOthers(old(Now()), id, max); }
      return Some(k);
    }

    /** `waitlist_close` */
    method CloseList(id: ListId)
      modifies this`lists
      ensures Now() == ClosedFor(old(Now()), id)
    {
      lists := lists[id := ListAt(lists, id).(closed := true)];
    }

    /** `thread_wait_for_tid` up to the point where the thread blocks; the owner check is left to the caller. */
    method JoinThread(c: nat, target: nat) returns (ok: bool)
      requires Valid() && RunsOn(Now(), c) && !panicked
      modifies this
      ensures ok == (target in old(threads)) && Now() == Next(old(Now()), Join(c, target))
    {
      if target !in threads { return false; }
      var _ := AppendToList(c, OfThread(target));
      return true;
    }

    /** The next region of `thread_handle_exit`. */
    method ExitStep(c: nat)
      requires Valid() && Acts(Now(), c) && !panicked
      modifies this
      ensures Now() == Exited(old(Now()), c)
    {
      hide Inv, Woken, Sleepers, Trips;
      var t := cpus[c].value;
      match threads[t].phase
      case Alive => threads := threads[t := threads[t].(state := Dead, phase := Marked)];
      case Marked =>
        CpuThread(Now(), c);
        CloseList(OfThread(t));
        threads := threads[t := threads[t].(phase := ListClosed)];
      case ListClosed =>
        CpuThread(Now(), c);
        WokenOthers(Now(), OfThread(t), |ListAt(lists, OfThread(t)).waiters|);
        var n := Wake(OfThread(t), |ListAt(lists, OfThread(t)).waiters|);
        if n.Some? { threads := threads[t := threads[t].(phase := Finished)]; }
      case Finished =>
        Reschedule(c);
    }

    /** One step of a run; a step that is not enabled does nothing. */
    method Perform(step: Step)
      requires Valid()
      modifies this
      ensures Now() == Next(old(Now()), step) && (Valid() <==> Safe(old(Now()), step))
    {
      hide Inv, Awakened, Exited, Yielded, Appended, Safe;
      NextKeeps(Now(), step);
      if panicked { return; }
      match step
      case Spawn(t) => if t !in threads { threads := threads[t := Thread(Created, false, None, Alive)]; }
      case Schedule(c, t, met) =>
        if c < |cpus| && cpus[c].None? && t in threads { ScheduleTo(c, t, met); }
      case Yield(c) => if Acts(Sys(cpus, threads, lists, panicked), c) { Reschedule(c); }
      case WaitCondition(c) => if RunsOn(Sys(cpus, threads, lists, panicked), c) { BlockForCondition(c); }
      case WaitOn(c, k) =>
        if RunsOn(Sys(cpus, threads, lists, panicked), c) { var _ := AppendToList(c, Other(k)); }
      case Join(c, t) => if RunsOn(Sys(cpus, threads, lists, panicked), c) { var _ := JoinThread(c, t); }
      case Block(c) =>
        var now := Sys(cpus, threads, lists, panicked);
        if OnCpu(now, c) && !Acts(now, c) { BlockListed(c); }
      case WakeSome(c, k, n) => if Acts(Sys(cpus, threads, lists, panicked), c) { var _ := Wake(Other(k), n); }
      case CloseOther(k) => CloseList(Other(k));
      case Exit(c) => if Acts(Sys(cpus, threads, lists, panicked), c) { ExitStep(c); }
      case Reap(c, t) =>
        if Reaps(Sys(cpus, threads, lists, panicked), c, t) {
          threads := threads - {t};
          lists := lists - {OfThread(t)};
        }
    }

    /** The kernel goes through the run that the steps describe. */
    method Run(steps: seq<Step>)
      requires Valid() && Careful(Now(), steps)
      modifies this
      ensures Valid() && Now() == After(old(Now()), steps)
    {
      hide Inv, Next, Safe;
      for k := 0 to |steps|
        invariant Valid() && Now() == After(old(Now()), steps[..k])
      {
        assert steps[..k + 1][..k] == steps[..k];
        CarefulSoFar(old(Now()), steps, k);
        Perform(steps[k]);
      }
      assert steps[..|steps|] == steps;
    }
  }

  lemma {:induction false} CarefulSoFar(s: Sys, steps: seq<Step>, k: nat)
    requires Careful(s, steps) && k < |steps|
    ensures Safe(After(s, steps[..k]), steps[k])
    decreases |steps|
  {
    hide Safe, After;
    var less := steps[..|steps| - 1];
    if k < |less| {
      CarefulSoFar(s, less, k);
      assert less[..k] == steps[..k];
    }
  }
}
