/**
  What each step of a run does to clients, acceptors and servers, stated on the
  states before and after it.
 */
module IpcLaws {
  import opened Basics
  import opened IpcServers

  /** Step `k` of a run that started well. */
  ghost predicate IsStep(states: seq<State>, steps: seq<Step>, k: nat) {
    IsRun(states, steps) && Inv(states[0]) && k < |steps|
  }

  lemma StepFacts(states: seq<State>, steps: seq<Step>, k: nat)
    requires IsStep(states, steps, k)
    ensures Inv(states[k]) && Inv(states[k + 1]) && Does(states[k], steps[k], states[k + 1])
  {
    hide Inv, Does;
    RunKeeps(states, steps, k);
    RunKeeps(states, steps, k + 1);
  }

  /** No thread but those of `ts` changed. */
  ghost predicate OthersSame(st: State, after: State, ts: set<nat>) {
    forall u: nat :: u !in ts ==> At(after.threads, u) == At(st.threads, u)
  }

  // ---------------------------------------------------------------- clients

  /** A woken client is connected exactly if it was accepted, and refused exactly if the server closed on it. */
  lemma WokenClientLaw(states: seq<State>, steps: seq<Step>, k: nat, t: nat, c: nat)
    requires IsStep(states, steps, k) && steps[k] == Resume(t) && At(states[k].threads, t) == ConnWoken(c)
    ensures c < |states[k].conns|
    ensures At(states[k + 1].threads, t) == Connected(c) <==> states[k].conns[c].pipes
    ensures At(states[k + 1].threads, t) == Rejected <==> states[k].conns[c].npages == 0
    ensures OthersSame(states[k], states[k + 1], {t}) && states[k + 1].conns == states[k].conns
  {
    StepFacts(states, steps, k);
    var st := states[k];
    assert ThreadOk(st, t) && ConnOk(st, c, st.conns[c]);
  }

  /** While the name is not announced, a client goes to sleep on it, behind those already there. */
  lemma NoServerLaw(states: seq<State>, steps: seq<Step>, k: nat, t: nat, name: string, size: nat)
    requires IsStep(states, steps, k) && steps[k] == Resume(t) && At(states[k].threads, t) == Checking(name, size)
    requires forall s: nat :: !IsOpen(states[k].servers, s, name)
    ensures At(states[k + 1].threads, t) == NameBlocked(name, size) && OthersSame(states[k], states[k + 1], {t})
    ensures name in states[k + 1].waits
    ensures states[k + 1].waits[name].waiters
         == (if name in states[k].waits then states[k].waits[name].waiters else []) + [t]
  {
    hide Inv;
    StepFacts(states, steps, k);
  }

  /** A client of an announced server is queued last if the queue is not full, and turned away if it is. */
  lemma ConnectLaw(states: seq<State>, steps: seq<Step>, k: nat, t: nat, name: string, size: nat, s: nat)
    requires IsStep(states, steps, k) && steps[k] == Resume(t) && At(states[k].threads, t) == Checking(name, size)
    requires IsOpen(states[k].servers, s, name)
    ensures var st, after := states[k], states[k + 1]; var v, c := st.servers[s], |st.conns|;
            && s < |after.servers|
            && if |v.pending| < v.pendingMax then
                 && At(after.threads, t) == ConnBlocked(c)
                 && after.conns == st.conns + [Conn(t, s, (size + (PAGE - 1)) / PAGE, false)]
                 && after.servers[s].pending == v.pending + [c] && after.servers[s].open
               else At(after.threads, t) == Rejected && after.conns == st.conns && after.servers == st.servers
  {
    hide Inv;
    StepFacts(states, steps, k);
    OpenOnce(states[k], s, name);
    QueuePromises(states[k], s);
  }

  lemma OpenOnce(st: State, s: nat, name: string)
    requires Inv(st) && IsOpen(st.servers, s, name)
    ensures Announced(st.servers, name) && forall r: nat :: IsOpen(st.servers, r, name) ==> r == s
  {
  }

  /** And if an acceptor sleeps, the one that has slept longest is woken, and no other thread. */
  lemma ConnectWakes(states: seq<State>, steps: seq<Step>, k: nat, t: nat, name: string, size: nat, s: nat)
    requires IsStep(states, steps, k) && steps[k] == Resume(t) && At(states[k].threads, t) == Checking(name, size)
    requires IsOpen(states[k].servers, s, name) && |states[k].servers[s].pending| < states[k].servers[s].pendingMax
    ensures var st, after := states[k], states[k + 1]; var ws := st.servers[s].waiters;
            && s < |after.servers|
            && (if ws == [] then OthersSame(st, after, {t}) && after.servers[s].waiters == []
                else
                  && At(st.threads, ws[0]) == AcceptBlocked(s) && At(after.threads, ws[0]) == Accepting(s)
                  && OthersSame(st, after, {t, ws[0]}) && after.servers[s].waiters == ws[1..])
  {
    hide Inv, Queues;
    StepFacts(states, steps, k);
    var st := states[k];
    OpenOnce(st, s, name);
    QueuePromises(st, s);
    var n := (size + (PAGE - 1)) / PAGE;
    if st.servers[s].waiters != [] { QueuesThreads(st, t, s, n, st.servers[s].waiters[0]); }
    forall u: nat | u != t ensures At(states[k + 1].threads, u)
      == if u in First(st.servers[s].waiters) then Accepting(s) else At(st.threads, u)
    {
      QueuesThreads(st, t, s, n, u);
    }
    QueuedWaiters(st, t, s, n);
  }

  lemma QueuedWaiters(st: State, t: nat, s: nat, n: nat)
    requires s < |st.servers| && s < |st.logs|
    ensures var after := Queues(st, t, s, n); var ws := st.servers[s].waiters;
            s < |after.servers| && after.servers[s].waiters == if ws == [] then [] else ws[1..]
  {
  }

  // ---------------------------------------------------------------- acceptors

  /** An acceptor takes the first client, sleeps if there is none, and gives up if the server was closed. */
  lemma AcceptLaw(states: seq<State>, steps: seq<Step>, k: nat, t: nat, s: nat)
    requires IsStep(states, steps, k) && steps[k] == Resume(t) && At(states[k].threads, t) == Accepting(s)
    ensures s < |states[k].servers| && s < |states[k + 1].servers| && OthersSame(states[k], states[k + 1], {t})
    ensures var v, w := states[k].servers[s], states[k + 1].servers[s]; var th := At(states[k + 1].threads, t);
            if v.freed then th == TouchedFreed(s)
            else if !v.open then th == Aborted && w.freed
            else if v.pending == [] then th == AcceptBlocked(s) && w.waiters == v.waiters + [t]
            else th == Finishing(v.pending[0]) && w.pending == v.pending[1..]
  {
    hide Inv;
    StepFacts(states, steps, k);
    AcceptorKnown(states[k], t);
  }

  /** A connection that was taken gets its pipes, and its client is woken. */
  lemma FinishLaw(states: seq<State>, steps: seq<Step>, k: nat, t: nat, c: nat)
    requires IsStep(states, steps, k) && steps[k] == Resume(t) && At(states[k].threads, t) == Finishing(c)
    ensures c < |states[k].conns| && c < |states[k + 1].conns|
    ensures var client := states[k].conns[c].client;
            && At(states[k + 1].threads, t) == Accepted(c) && states[k + 1].conns[c].pipes
            && states[k + 1].conns[c].npages == states[k].conns[c].npages
            && At(states[k].threads, client) == ConnBlocked(c) && At(states[k + 1].threads, client) == ConnWoken(c)
            && OthersSame(states[k], states[k + 1], {t, client})
  {
    StepFacts(states, steps, k);
    var st := states[k];
    assert ThreadOk(st, t) && Unresolved(st, c);
    forall u: nat ensures At(WakeAll(st.threads, [st.conns[c].client]), u)
      == if u == st.conns[c].client then ConnWoken(c) else At(st.threads, u)
    {
      WakeAt(st.threads, [st.conns[c].client], u);
    }
  }

  // ---------------------------------------------------------------- servers and calls

  /** A new name is announced with an empty queue, and everybody who waits for it looks again. */
  lemma CreateLaw(states: seq<State>, steps: seq<Step>, k: nat, name: string, max: nat, t: nat)
    requires IsStep(states, steps, k) && steps[k] == Create(name, max) && max > 0
    requires forall s: nat :: !IsOpen(states[k].servers, s, name)
    ensures states[k + 1].servers == states[k].servers + [Server(name, max, 0, [], [], true, false)]
    ensures At(states[k + 1].threads, t) ==
              if At(states[k].threads, t).NameBlocked? && At(states[k].threads, t).name == name
              then Checking(name, At(states[k].threads, t).size) else At(states[k].threads, t)
  {
    hide Inv;
    StepFacts(states, steps, k);
    if name in states[k].waits { NameWaitersWake(states[k], name, t); } else { NotWaiting(states[k], name, t); }
  }

  lemma NotWaiting(st: State, name: string, t: nat)
    requires Inv(st) && name !in st.waits
    ensures !(At(st.threads, t).NameBlocked? && At(st.threads, t).name == name)
  {
    assert ThreadOk(st, t);
  }

  /** A name that is announced cannot be announced again. */
  lemma CreateAgain(states: seq<State>, steps: seq<Step>, k: nat, name: string, max: nat, s: nat)
    requires IsStep(states, steps, k) && steps[k] == Create(name, max) && IsOpen(states[k].servers, s, name)
    ensures states[k + 1] == states[k]
  {
    hide Inv;
    StepFacts(states, steps, k);
  }

  /** Closing refuses and wakes exactly the pending clients, wakes acceptors, and frees the server if none sleeps. */
  lemma CloseLaw(states: seq<State>, steps: seq<Step>, k: nat, s: nat, t: nat, c: nat)
    requires IsStep(states, steps, k) && steps[k] == Close(s) && s < |states[k].servers| && states[k].servers[s].open
    requires c < |states[k].conns|
    ensures var st, after := states[k], states[k + 1]; var v, th := st.servers[s], At(st.threads, t);
            && s < |after.servers| && !after.servers[s].open && after.servers[s].waiters == []
            && (after.servers[s].freed <==> v.waiters == [])
            && c < |after.conns|
            && after.conns[c] == (if c in v.pending then st.conns[c].(npages := 0) else st.conns[c])
            && At(after.threads, t) == (if th == AcceptBlocked(s) then Accepting(s)
                                        else if th.ConnBlocked? && th.conn in v.pending then ConnWoken(th.conn)
                                        else th)
  {
    hide Inv, ClientsOf, WakeAll;
    StepFacts(states, steps, k);
    ThreadAfterClose(states[k], s, t);
  }

  /** A thread that is idle starts a call, and one whose call is over can start the next. */
  lemma CallLaw(states: seq<State>, steps: seq<Step>, k: nat, t: nat)
    requires IsStep(states, steps, k)
    ensures var th, next := At(states[k].threads, t), At(states[k + 1].threads, t);
            match steps[k]
            case CallAccept(u, s) =>
              u == t && th == Idle && s < |states[k].servers| && states[k].servers[s].open ==> next == Accepting(s)
            case CallConnect(u, name, size) =>
              u == t && th == Idle ==> next == if size == 0 then Rejected else Checking(name, size)
            case Return(u) =>
              u == t && (th.Connected? || th.Rejected? || th.Accepted? || th.Aborted?) ==> next == Idle
            case _ => true
  {
    hide Inv;
    StepFacts(states, steps, k);
  }

  // ---------------------------------------------------------------- a whole connection

  /** The outcome of a connection is the one the server decided: accepted clients end connected, the others refused. */
  lemma OutcomeIsDecided(states: seq<State>, steps: seq<Step>, k: nat, t: nat)
    requires IsRun(states, steps) && Inv(states[0]) && k < |states|
    ensures match At(states[k].threads, t)
            case Connected(c) => c < |states[k].conns| && states[k].conns[c].pipes && states[k].conns[c].client == t
            case ConnWoken(c) =>
              c < |states[k].conns| && (states[k].conns[c].pipes <==> states[k].conns[c].npages > 0)
            case ConnBlocked(c) =>
              c < |states[k].conns| && !states[k].conns[c].pipes && states[k].conns[c].npages > 0
            case _ => true
  {
    RunKeeps(states, steps, k);
    var st := states[k];
    assert ThreadOk(st, t);
    if At(st.threads, t).ConnWoken? {
      var c := At(st.threads, t).conn;
      assert ConnOk(st, c, st.conns[c]);
    }
  }
}
