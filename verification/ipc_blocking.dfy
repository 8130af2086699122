/**
  The steps of `ipc_server.dfy` taken apart: a thread that appends itself to a
  waitlist blocks in a second step.  A thread woken in between is still running,
  and the kernel panics.
 */
module IpcBlocking {
  import opened Basics
  import opened IpcServers

  /** The thread is on a waitlist, asleep or about to be. */
  predicate OnList(th: Thread) { th.NameBlocked? || th.ConnBlocked? || th.AcceptBlocked? }

  /** `late`: the threads that are on a waitlist and have not blocked yet. */
  datatype Machine = Machine(st: State, late: set<nat>, panicked: bool)

  datatype Move = Region(step: Step) | Block(t: nat)

  function LateAfter(late: set<nat>, st: State, after: State): set<nat> {
    set t | t in after.threads && OnList(after.threads[t]) && (t in late || !OnList(At(st.threads, t)))
  }

  /**
    A locked region, or a thread that blocks.  A thread on a waitlist does nothing
    else.  A wake-up that finds a running thread panics, and then nothing moves.
   */
  ghost predicate Goes(m: Machine, move: Move, after: Machine) {
    if m.panicked then after == m
    else match move
      case Block(t) => after == m.(late := m.late - {t})
      case Region(step) =>
        && Does(m.st, step, after.st) && after.late == LateAfter(m.late, m.st, after.st)
        && (after.panicked <==> exists t :: t in m.late && !OnList(At(after.st.threads, t)))
  }

  ghost predicate Good(m: Machine) {
    Inv(m.st) && forall t :: t in m.late ==> OnList(At(m.st.threads, t))
  }

  // ---------------------------------------------------------------- who is woken

  /** The step takes `t` off a waitlist. */
  ghost predicate WakesUp(st: State, step: Step, t: nat) {
    match step
    case Create(name, max) =>
      max > 0 && !Announced(st.servers, name) && name in st.waits && t in st.waits[name].waiters
    case Close(s) =>
      && s < |st.servers| && st.servers[s].open
      && (t in st.servers[s].waiters
          || exists c :: c in st.servers[s].pending && c < |st.conns| && st.conns[c].client == t)
    case Resume(u) => WokenByCall(st, At(st.threads, u), t)
    case _ => false
  }

  /** A client wakes the first sleeping acceptor, unless it is turned away; an acceptor wakes its client. */
  ghost predicate WokenByCall(st: State, th: Thread, t: nat) {
    match th
    case Checking(name, _) =>
      exists s: nat :: && IsOpen(st.servers, s, name) && st.servers[s].pendingN < st.servers[s].pendingMax
                       && t in First(st.servers[s].waiters)
    case Finishing(c) => c < |st.conns| && st.conns[c].client == t
    case _ => false
  }

  lemma CreateWakes(st: State, name: string, max: nat, t: nat)
    requires Inv(st)
    ensures var at := At(Created(st, name, max).threads, t);
            if name in st.waits && t in st.waits[name].waiters then OnList(At(st.threads, t)) && !OnList(at)
            else at == At(st.threads, t)
  {
    if name in st.waits {
      NameWaitersWake(st, name, t);
      assert WaitOk(st, name, st.waits[name]) && ThreadOk(st, t);
    }
  }

  lemma CloseWakes(st: State, s: nat, t: nat)
    requires Inv(st) && s < |st.servers| && st.servers[s].open
    requires forall c :: c in st.servers[s].pending ==> c < |st.conns|
    ensures var at := At(Closed(st, s).threads, t);
            if WakesUp(st, Close(s), t) then OnList(At(st.threads, t)) && !OnList(at) else at == At(st.threads, t)
  {
    hide Closed;
    ThreadAfterClose(st, s, t);
    assert QueueOk(st, s) && LimitOk(st, st.servers[s], s) && ThreadOk(st, t);
    if c :| c in st.servers[s].pending && st.conns[c].client == t { assert Unresolved(st, c); }
  }

  lemma ConnectWakes(st: State, u: nat, after: State, t: nat)
    requires Inv(st) && At(st.threads, u).Checking? && OnList(At(st.threads, t))
    requires Connects(st, u, At(st.threads, u).name, At(st.threads, u).size, after)
    ensures !OnList(At(after.threads, t)) <==> WokenByCall(st, At(st.threads, u), t)
  {
    hide Queues, Inv, First, Others;
    var Checking(name, size) := At(st.threads, u);
    if Announced(st.servers, name) {
      var s: nat :| IsOpen(st.servers, s, name) && s < |st.logs| && after == ConnectsAt(st, u, s, size);
      OneOpen(st, name, s);
      QueuesThreads(st, u, s, (size + (PAGE - 1)) / PAGE, t);
    } else {
      assert forall s: nat :: !IsOpen(st.servers, s, name);
    }
  }

  lemma OneOpen(st: State, name: string, s: nat)
    requires Inv(st) && IsOpen(st.servers, s, name)
    ensures forall r: nat :: IsOpen(st.servers, r, name) ==> r == s
  {
  }

  lemma FinishWakes(st: State, u: nat, c: nat, t: nat)
    requires Inv(st) && At(st.threads, u) == Finishing(c) && c < |st.conns| && OnList(At(st.threads, t))
    ensures !OnList(At(AcceptFinishes(st, u, c).threads, t)) <==> st.conns[c].client == t
  {
    assert ThreadOk(st, u) && Unresolved(st, c);
    WakeAt(st.threads, [st.conns[c].client], t);
  }

  /** Of the threads on waitlists, a step makes exactly those ready that it takes off one. */
  lemma WakesExactly(st: State, step: Step, after: State, t: nat)
    requires Inv(st) && Does(st, step, after) && OnList(At(st.threads, t))
    ensures !OnList(At(after.threads, t)) <==> WakesUp(st, step, t)
  {
    hide Inv, Created, Closed, Announced, Connects, WokenByCall, AcceptFinishes;
    match step
    case Create(name, max) => CreateWakes(st, name, max, t);
    case Close(s) => if s < |st.servers| && st.servers[s].open { CloseWakes(st, s, t); }
    case Resume(u) => ResumeWakes(st, u, after, t);
    case _ =>
  }

  lemma ResumeWakes(st: State, u: nat, after: State, t: nat)
    requires Inv(st) && Resumes(st, u, after) && OnList(At(st.threads, t))
    ensures !OnList(At(after.threads, t)) <==> WokenByCall(st, At(st.threads, u), t)
  {
    hide Inv, Connects, AcceptFinishes;
    match At(st.threads, u)
    case Checking(_, _) => ConnectWakes(st, u, after, t);
    case Finishing(c) => FinishWakes(st, u, c, t);
    case _ =>
  }

  // ---------------------------------------------------------------- what every move keeps

  /** A wake-up in the step finds a thread that has not blocked yet. */
  ghost predicate TooSoon(m: Machine, step: Step) {
    exists t :: t in m.late && WakesUp(m.st, step, t)
  }

  lemma MoveKeeps(m: Machine, move: Move, after: Machine)
    requires Good(m) && Goes(m, move, after)
    ensures Good(after) && Later(m.st, after.st)
    ensures after.panicked <==> m.panicked || (move.Region? && TooSoon(m, move.step))
  {
    hide Inv, Does, WakesUp, Later;
    LaterSame(m.st);
    if !m.panicked && move.Region? {
      StepKeeps(m.st, move.step, after.st);
      forall t | t in m.late ensures !OnList(At(after.st.threads, t)) <==> WakesUp(m.st, move.step, t) {
        WakesExactly(m.st, move.step, after.st, t);
      }
    }
  }

  ghost predicate IsHistory(ms: seq<Machine>, moves: seq<Move>) {
    |ms| == |moves| + 1 && forall k :: 0 <= k < |moves| ==> Goes(ms[k], moves[k], ms[k + 1])
  }

  /** Whenever threads block, the promises hold, and what was resolved or queued stays so. */
  lemma {:induction false} HistoryKeeps(ms: seq<Machine>, moves: seq<Move>, k: nat)
    requires IsHistory(ms, moves) && Good(ms[0]) && k < |ms|
    ensures Good(ms[k]) && Later(ms[0].st, ms[k].st)
    decreases k
  {
    hide Good, Later, Goes;
    if k == 0 {
      LaterSame(ms[0].st);
    } else {
      HistoryKeeps(ms, moves, k - 1);
      MoveKeeps(ms[k - 1], moves[k - 1], ms[k]);
      LaterChains(ms[0].st, ms[k - 1].st, ms[k].st);
    }
  }

  /** No wake-up is lost: whoever is on a waitlist, asleep or about to be, waits for what has not happened. */
  lemma NoWakeUpIsLost(ms: seq<Machine>, moves: seq<Move>, k: nat, t: nat)
    requires IsHistory(ms, moves) && Good(ms[0]) && k < |ms|
    ensures var st := ms[k].st;
            match At(st.threads, t)
            case NameBlocked(name, _) => !Announced(st.servers, name)
            case AcceptBlocked(s) =>
              s < |st.servers| && st.servers[s].open && |st.servers[s].pending| <= |Acceptors(st.threads, s)|
            case ConnBlocked(c) => c < |st.conns| && st.conns[c].npages > 0 && !st.conns[c].pipes
            case _ => true
  {
    hide Inv, IsHistory, Later;
    HistoryKeeps(ms, moves, k);
    SleepersHaveReason(ms[k].st, t);
  }

  /** The regions of a history, without the blocking in between, are a run. */
  lemma {:induction false} HistoryIsRun(ms: seq<Machine>, moves: seq<Move>, k: nat)
    returns (states: seq<State>, steps: seq<Step>)
    requires IsHistory(ms, moves) && k < |ms|
    ensures IsRun(states, steps) && states[0] == ms[0].st && states[|steps|] == ms[k].st
    decreases k
  {
    hide Does;
    if k == 0 { return [ms[0].st], []; }
    states, steps := HistoryIsRun(ms, moves, k - 1);
    assert Goes(ms[k - 1], moves[k - 1], ms[k]);
    if !ms[k - 1].panicked && moves[k - 1].Region? {
      states, steps := states + [ms[k].st], steps + [moves[k - 1].step];
    }
  }

  // ---------------------------------------------------------------- when the kernel panics

  /** A history panics exactly if some step takes a thread off a waitlist before that thread has blocked. */
  lemma {:induction false} PanicsExactlyWhen(ms: seq<Machine>, moves: seq<Move>, k: nat)
    requires IsHistory(ms, moves) && Good(ms[0]) && !ms[0].panicked && k < |ms|
    ensures ms[k].panicked <==> exists j :: 0 <= j < k && moves[j].Region? && TooSoon(ms[j], moves[j].step)
    decreases k
  {
    hide Good, Goes, TooSoon;
    if k > 0 {
      PanicsExactlyWhen(ms, moves, k - 1);
      HistoryKeeps(ms, moves, k - 1);
      assert Goes(ms[k - 1], moves[k - 1], ms[k]);
      MoveKeeps(ms[k - 1], moves[k - 1], ms[k]);
    }
  }

  /** On a single CPU a thread blocks before anything else happens, and nothing panics. */
  lemma OneCpuNeverPanics(ms: seq<Machine>, moves: seq<Move>, k: nat)
    requires IsHistory(ms, moves) && Good(ms[0]) && !ms[0].panicked && k < |ms|
    requires forall j :: 0 <= j < |moves| && moves[j].Region? ==> ms[j].late == {}
    ensures !ms[k].panicked
  {
    hide Good, Goes, WakesUp;
    PanicsExactlyWhen(ms, moves, k);
  }

  /** An acceptor is on the waitlist of its server and has not blocked when a client connects. */
  lemma ConnectedTooSoon()
    ensures var m := Machine(Sample([0], AcceptBlocked(0), Checking("a", 1)), {0}, false);
            && Good(m) && TooSoon(m, Resume(1)) && !TooSoon(m.(late := {}), Resume(1))
            && forall after :: Goes(m, Region(Resume(1)), after) ==> after.panicked
  {
    hide Inv, Does;
    var st := Sample([0], AcceptBlocked(0), Checking("a", 1));
    var m := Machine(st, {0}, false);
    SampleGood();
    assert IsOpen(st.servers, 0, "a") && First([0]) == [0] && [0][0] == 0;
    assert WakesUp(st, Resume(1), 0);
    forall after | Goes(m, Region(Resume(1)), after) ensures after.panicked {
      MoveKeeps(m, Region(Resume(1)), after);
    }
  }

  lemma SampleGood()
    ensures Inv(Sample([0], AcceptBlocked(0), Checking("a", 1)))
  {
    hide Inv, Does, Sample, SampleAlone;
    SampleStarts();
    SampleSleeps();
    var a, b, c := SampleAlone([], map[]), SampleAlone([], map[0 := Accepting(0)]),
                   SampleAlone([0], map[0 := AcceptBlocked(0)]);
    EmptyGood();
    StepKeeps(Empty(), Create("a", 1), a);
    StepKeeps(a, CallAccept(0, 0), b);
    StepKeeps(b, Resume(0), c);
    StepKeeps(c, CallConnect(1, "a", 1), Sample([0], AcceptBlocked(0), Checking("a", 1)));
  }

  lemma EmptyGood()
    ensures Inv(Empty())
  {
  }

  // ---------------------------------------------------------------- the subsystem

  class Subsystem {
    const ipc: Ipc
    var late: set<nat>
    var panicked: bool

    ghost function Now(): Machine
      reads this, ipc
    {
      Machine(ipc.st, late, panicked)
    }

    ghost predicate Valid()
      reads this, ipc
    {
      Good(Now())
    }

    constructor ()
      ensures Valid() && fresh(ipc) && !panicked && late == {}
    {
      ipc := new Ipc();
      late, panicked := {}, false;
    }

    /** One move; `waitlist_wake` asserts that the threads it wakes have blocked. */
    method Perform(move: Move)
      requires Valid()
      modifies this, ipc
      ensures Valid() && Goes(old(Now()), move, Now())
    {
      hide Inv, Does, Later;
      if panicked { return; }
      match move
      case Block(t) => late := late - {t};
      case Region(step) =>
        var before := ipc.st;
        ipc.Perform(step);
        panicked := exists t :: t in late && !OnList(At(ipc.st.threads, t));
        late := LateAfter(late, before, ipc.st);
    }

    /** Every sequence of moves makes a history, which ends where the kernel is. */
    method Run(moves: seq<Move>) returns (ghost ms: seq<Machine>)
      requires Valid()
      modifies this, ipc
      ensures Valid() && IsHistory(ms, moves) && ms[0] == old(Now()) && ms[|moves|] == Now()
    {
      hide Good, Goes;
      ms := [Now()];
      for k := 0 to |moves|
        invariant Valid() && IsHistory(ms, moves[..k]) && ms[0] == old(Now()) && ms[k] == Now()
      {
        Perform(moves[k]);
        ms := ms + [Now()];
      }
      assert moves[..|moves|] == moves;
    }
  }
}
