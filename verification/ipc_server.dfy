/**
  IPC servers: named servers with a bounded queue of connecting clients, and
  the waitlists on which clients wait for a name, clients wait to be accepted
  and servers wait for clients.

  A step is one region under the locks, with "append to a waitlist and block" as
  part of it; `ipc_blocking.dfy` takes the two apart.  Kernel assertions are
  proved, not assumed, but for the one on threads that are woken.
 */
module IpcServers {
  import opened Basics

  /** Where a thread is in `ipc_connect_to_server` or `ipc_server_accept`. */
  datatype Thread =
    | Idle
    | NameBlocked(name: string, size: nat)   // waits for a server of that name
    | Checking(name: string, size: nat)      // about to look for the server
    | ConnBlocked(conn: nat)                 // queued, waits to be accepted
    | ConnWoken(conn: nat)
    | Connected(conn: nat)
    | Rejected
    | AcceptBlocked(server: nat)             // no client yet
    | Accepting(server: nat)                 // about to look at the queue
    | Finishing(conn: nat)                   // took a client, sets up its pipes
    | Accepted(conn: nat)
    | Aborted
    | TouchedFreed(server: nat)              // locked a server that had been freed

  /** A connection; `npages` becomes 0 when the server closes on it. */
  datatype Conn = Conn(client: nat, server: nat, npages: nat, pipes: bool)

  /** `open` while the server is in the list of servers. */
  datatype Server = Server(name: string, pendingMax: nat, pendingN: int, pending: seq<nat>,
                           waiters: seq<nat>, open: bool, freed: bool)

  datatype Waitlist = Waitlist(closed: bool, waiters: seq<nat>)

  function At(threads: map<nat, Thread>, t: nat): Thread {
    if t in threads then threads[t] else Idle
  }

  /** A blocked thread is made ready. */
  function Woken(th: Thread): Thread {
    match th
    case NameBlocked(name, size) => Checking(name, size)
    case ConnBlocked(c) => ConnWoken(c)
    case AcceptBlocked(s) => Accepting(s)
    case _ => th
  }

  /** `waitlist_wake_all` on a list with these waiters. */
  ghost function WakeAll(threads: map<nat, Thread>, ts: seq<nat>): map<nat, Thread> {
    map t | t in threads :: if t in ts then Woken(threads[t]) else threads[t]
  }

  ghost predicate IsOpen(servers: seq<Server>, s: nat, name: string) {
    s < |servers| && servers[s].open && servers[s].name == name
  }

  ghost predicate Announced(servers: seq<Server>, name: string) {
    exists s :: IsOpen(servers, s, name)
  }

  /** Connections queued at a server, in order: those taken so far, then those pending. */
  datatype Log = Log(connected: seq<nat>, taken: seq<nat>)

  /** All of the subsystem; `logs` is history and influences nothing. */
  datatype State = State(servers: seq<Server>, conns: seq<Conn>, threads: map<nat, Thread>,
                         waits: map<string, Waitlist>, logs: seq<Log>)

  // ---------------------------------------------------------------- invariant

  /** The client of an unresolved connection sleeps until it is accepted or refused. */
  ghost predicate Unresolved(st: State, c: nat) {
    c < |st.conns| && st.conns[c].npages > 0 && !st.conns[c].pipes &&
        At(st.threads, st.conns[c].client) == ConnBlocked(c)
  }

  ghost predicate QueueOk(st: State, s: nat)
    requires s < |st.servers| == |st.logs|
  {
    var v, log := st.servers[s], st.logs[s];
    && v.pendingN == |v.pending|
    && log.connected == log.taken + v.pending && NoRepeats(log.connected)
    && (forall c :: c in log.connected ==> c < |st.conns| && st.conns[c].server == s)
    && (forall c :: c in log.taken ==> c < |st.conns| && st.conns[c].npages > 0)
    && (forall c :: c in v.pending ==> if v.open then Unresolved(st, c) else c < |st.conns| && st.conns[c].npages == 0)
  }

  ghost predicate LimitOk(st: State, v: Server, s: nat) {
    && (if v.open then 0 < v.pendingMax && v.pendingN <= v.pendingMax && !v.freed
        else v.pendingMax == 0 && v.waiters == [])
    && NoRepeats(v.waiters) && (forall t :: t in v.waiters ==> At(st.threads, t) == AcceptBlocked(s))
  }

  /** The threads that are awake in `ipc_server_accept`, about to look at the queue. */
  function Acceptors(threads: map<nat, Thread>, s: nat): set<nat> {
    set t | t in threads && threads[t] == Accepting(s)
  }

  /** While a thread sleeps in accept, every pending client has an awake one. */
  ghost predicate CrowdOk(st: State, v: Server, s: nat) {
    v.waiters != [] ==> |v.pending| <= |Acceptors(st.threads, s)|
  }

  ghost predicate ThreadOk(st: State, t: nat)
    requires |st.logs| == |st.servers|
  {
    match At(st.threads, t)
    case NameBlocked(name, size) => name in st.waits && t in st.waits[name].waiters && size > 0
    case Checking(_, size) => size > 0
    case ConnBlocked(c) => c < |st.conns| && st.conns[c].client == t && st.conns[c].npages > 0 && !st.conns[c].pipes
    case ConnWoken(c) => c < |st.conns| && st.conns[c].client == t && (st.conns[c].npages == 0 || st.conns[c].pipes)
    case Connected(c) => c < |st.conns| && st.conns[c].client == t && st.conns[c].pipes
    case AcceptBlocked(s) => s < |st.servers| && t in st.servers[s].waiters
    case Accepting(s) => s < |st.servers|
    case TouchedFreed(s) => s < |st.servers| && st.servers[s].freed
    case Finishing(c) => Unresolved(st, c) && st.conns[c].server < |st.logs| && c in st.logs[st.conns[c].server].taken
    case Accepted(c) => c < |st.conns| && st.conns[c].pipes
    case _ => true
  }

  /** While a name is announced nobody waits for it and its waitlist is closed; otherwise the list is open. */
  ghost predicate WaitOk(st: State, name: string, w: Waitlist) {
    && w.closed == Announced(st.servers, name)
    && (w.closed ==> w.waiters == [])
    && (forall t :: t in w.waiters ==> At(st.threads, t).NameBlocked? && At(st.threads, t).name == name)
  }

  ghost predicate ConnOk(st: State, c: nat, k: Conn)
    requires |st.logs| == |st.servers|
  {
    k.server < |st.servers| && c in st.logs[k.server].connected && !(k.pipes && k.npages == 0)
  }

  ghost predicate UniqueNames(servers: seq<Server>) {
    forall s: nat, r: nat, name :: IsOpen(servers, s, name) && IsOpen(servers, r, name) ==> s == r
  }

  /** One thread finishes a connection. */
  ghost predicate Exclusive(threads: map<nat, Thread>) {
    forall t: nat, u: nat :: At(threads, t).Finishing? && At(threads, t) == At(threads, u) ==> t == u
  }

  ghost predicate Inv(st: State) {
    && |st.logs| == |st.servers|
    && (forall s :: 0 <= s < |st.servers| ==> QueueOk(st, s))
    && (forall s :: 0 <= s < |st.servers| ==> LimitOk(st, st.servers[s], s))
    && (forall s :: 0 <= s < |st.servers| ==> CrowdOk(st, st.servers[s], s))
    && (forall t: nat :: ThreadOk(st, t))
    && (forall name :: name in st.waits ==> WaitOk(st, name, st.waits[name]))
    && (forall c :: 0 <= c < |st.conns| ==> ConnOk(st, c, st.conns[c]))
    && UniqueNames(st.servers) && Exclusive(st.threads)
  }

  /** Once accepted always accepted, once refused always refused; the queue order never changes. */
  ghost predicate Later(st: State, after: State) {
    && |st.conns| <= |after.conns| && |st.logs| <= |after.logs|
    && (forall c :: 0 <= c < |st.conns| ==>
          && after.conns[c].client == st.conns[c].client && after.conns[c].server == st.conns[c].server
          && (st.conns[c].pipes || st.conns[c].npages == 0 ==> after.conns[c] == st.conns[c]))
    && (forall s :: 0 <= s < |st.logs| ==>
          st.logs[s].connected <= after.logs[s].connected && st.logs[s].taken <= after.logs[s].taken)
  }

  lemma WakeAt(threads: map<nat, Thread>, ts: seq<nat>, t: nat)
    ensures At(WakeAll(threads, ts), t) == if t in ts then Woken(At(threads, t)) else At(threads, t)
  {
  }

  lemma ExclusiveAfterMove(threads: map<nat, Thread>, t: nat, th: Thread)
    requires Exclusive(threads)
    requires th.Finishing? ==> forall u: nat :: u != t ==> At(threads, u) != th
    ensures Exclusive(threads[t := th])
  {
    var after := threads[t := th];
    forall u: nat ensures At(after, u) == if u == t then th else At(threads, u) { }
  }

  /** Waking does not change who finishes which connection. */
  lemma ExclusiveAfterWake(threads: map<nat, Thread>, ts: seq<nat>)
    requires Exclusive(threads)
    ensures Exclusive(WakeAll(threads, ts))
  {
    var after := WakeAll(threads, ts);
    forall u: nat
      ensures At(after, u).Finishing? || At(threads, u).Finishing? ==> At(after, u) == At(threads, u)
    {
      WakeAt(threads, ts, u);
    }
  }

  /** How many acceptors are awake when at most thread `t` stops or starts being one. */
  lemma AcceptorsChange(threads: map<nat, Thread>, more: map<nat, Thread>, s: nat, t: nat)
    requires forall u: nat :: u != t && At(threads, u) == Accepting(s) ==> At(more, u) == Accepting(s)
    ensures |Acceptors(more, s)| >= |Acceptors(threads, s)| - (if At(threads, t) == Accepting(s) then 1 else 0)
                                    + (if At(more, t) == Accepting(s) then 1 else 0)
  {
    var a, b := Acceptors(threads, s), Acceptors(more, s);
    forall u | u in a && u != t ensures u in b { assert At(threads, u) == Accepting(s) == At(more, u); }
    OneApart(a, b, t);
    assert t in a <==> At(threads, t) == Accepting(s);
    assert t in b <==> At(more, t) == Accepting(s);
  }

  lemma OneApart(a: set<nat>, b: set<nat>, t: nat)
    requires a - {t} <= b
    ensures |b| >= |a| - (if t in a then 1 else 0) + (if t in b then 1 else 0)
  {
    Smaller(a - {t}, b - {t});
    assert t !in a ==> a - {t} == a;
    assert t !in b ==> b - {t} == b;
  }

  lemma Smaller(a: set<nat>, b: set<nat>)
    requires a <= b
    ensures |a| <= |b|
  {
    assert b == a + (b - a);
  }

  lemma AcceptorsStay(threads: map<nat, Thread>, more: map<nat, Thread>, s: nat)
    requires forall u: nat :: At(threads, u) == Accepting(s) ==> At(more, u) == Accepting(s)
    ensures |Acceptors(more, s)| >= |Acceptors(threads, s)|
  {
    var a, b := Acceptors(threads, s), Acceptors(more, s);
    forall u | u in a ensures u in b { assert At(threads, u) == Accepting(s) == At(more, u); }
    Smaller(a, b);
  }

  // ---------------------------------------------------------------- creating a server

  function WithServer(servers: seq<Server>, name: string, max: nat): seq<Server> {
    servers + [Server(name, max, 0, [], [], true, false)]
  }

  /** `ipc_server_create`: announce the server and wake whoever waits for the name. */
  ghost function Created(st: State, name: string, max: nat): State {
    State(WithServer(st.servers, name, max), st.conns,
          if name in st.waits then WakeAll(st.threads, st.waits[name].waiters) else st.threads,
          if name in st.waits then st.waits[name := Waitlist(true, [])] else st.waits,
          st.logs + [Log([], [])])
  }

  lemma AnnouncedNow(servers: seq<Server>, name: string, max: nat, other: string)
    ensures Announced(WithServer(servers, name, max), other) <==> other == name || Announced(servers, other)
  {
    var more := WithServer(servers, name, max);
    assert IsOpen(more, |servers|, name);
    forall s | IsOpen(servers, s, other) ensures IsOpen(more, s, other) { }
    forall s | IsOpen(more, s, other) ensures other == name || IsOpen(servers, s, other) { }
  }

  /** Waking the waiters of a name turns exactly those threads into checking ones. */
  lemma NameWaitersWake(st: State, name: string, t: nat)
    requires Inv(st) && name in st.waits
    ensures var th := At(WakeAll(st.threads, st.waits[name].waiters), t);
            if At(st.threads, t).NameBlocked? && At(st.threads, t).name == name
            then th == Checking(name, At(st.threads, t).size)
            else th == At(st.threads, t)
  {
    assert WaitOk(st, name, st.waits[name]);
    assert ThreadOk(st, t);
  }

  lemma CreatedKeeps(st: State, name: string, max: nat)
    requires Inv(st) && !Announced(st.servers, name) && max > 0
    ensures Inv(Created(st, name, max)) && Later(st, Created(st, name, max))
  {
    var after := Created(st, name, max);
    forall t: nat
      ensures At(after.threads, t) == (if At(st.threads, t).NameBlocked? && At(st.threads, t).name == name
                                       then Checking(name, At(st.threads, t).size) else At(st.threads, t))
    {
      assert ThreadOk(st, t);
      if name in st.waits { NameWaitersWake(st, name, t); }
    }
    forall s | 0 <= s < |after.servers|
      ensures QueueOk(after, s) && LimitOk(after, after.servers[s], s) && CrowdOk(after, after.servers[s], s)
    {
      if s < |st.servers| {
        assert QueueOk(st, s) && LimitOk(st, st.servers[s], s) && CrowdOk(st, st.servers[s], s);
        AcceptorsStay(st.threads, after.threads, s);
        forall c | c in st.servers[s].pending && st.servers[s].open
          ensures Unresolved(after, c)
        {
          assert Unresolved(st, c);
        }
      }
    }
    forall t: nat ensures ThreadOk(after, t) {
      assert ThreadOk(st, t);
    }
    forall n | n in after.waits ensures WaitOk(after, n, after.waits[n]) {
      AnnouncedNow(st.servers, name, max, n);
      if n != name { assert WaitOk(st, n, st.waits[n]); }
    }
    forall c | 0 <= c < |after.conns| ensures ConnOk(after, c, after.conns[c]) { assert ConnOk(st, c, st.conns[c]); }
    NamesStayUnique(st.servers, name, max);
  }

  lemma NamesStayUnique(servers: seq<Server>, name: string, max: nat)
    requires UniqueNames(servers) && !Announced(servers, name)
    ensures UniqueNames(WithServer(servers, name, max))
  {
    var more := WithServer(servers, name, max);
    forall s: nat, r: nat, n | IsOpen(more, s, n) && IsOpen(more, r, n) ensures s == r {
      if s < |servers| { assert IsOpen(servers, s, n); }
      if r < |servers| { assert IsOpen(servers, r, n); }
    }
  }

  // ---------------------------------------------------------------- closing a server

  ghost function ClientsOf(conns: seq<Conn>, pending: seq<nat>): seq<nat> {
    if pending == [] then []
    else [if pending[0] < |conns| then conns[pending[0]].client else 0] + ClientsOf(conns, pending[1..])
  }

  lemma {:induction false} ClientsAre(conns: seq<Conn>, pending: seq<nat>, t: nat)
    requires forall c :: c in pending ==> c < |conns|
    ensures t in ClientsOf(conns, pending) <==> exists c :: c in pending && conns[c].client == t
  {
    if pending != [] {
      assert forall k :: 0 <= k < |pending| ==> pending[k] in pending;
      ClientsAre(conns, pending[1..], t);
      assert forall c :: c in pending <==> c == pending[0] || c in pending[1..];
    }
  }

  /** The connections in the queue are marked as closed. */
  ghost function Refused(conns: seq<Conn>, pending: seq<nat>): seq<Conn> {
    seq(|conns|, c requires 0 <= c < |conns| => if c in pending then conns[c].(npages := 0) else conns[c])
  }

  /** `ipc_server_close`: refuse the queue, wake the sleeping acceptors, and free the server if there is none. */
  ghost function Closed(st: State, s: nat): State
    requires s < |st.servers| && forall c :: c in st.servers[s].pending ==> c < |st.conns|
  {
    var v := st.servers[s];
    State(st.servers[s := v.(open := false, pendingMax := 0, waiters := [], freed := v.waiters == [])],
          Refused(st.conns, v.pending),
          WakeAll(WakeAll(st.threads, ClientsOf(st.conns, v.pending)), v.waiters),
          if v.name in st.waits then st.waits[v.name := Waitlist(false, [])] else st.waits,
          st.logs)
  }

  /** The waitlist of the name is closed and empty, as the kernel asserts. */
  lemma NameWaitlistQuiet(st: State, s: nat)
    requires Inv(st) && s < |st.servers| && st.servers[s].open && st.servers[s].name in st.waits
    ensures st.waits[st.servers[s].name] == Waitlist(true, [])
  {
    assert IsOpen(st.servers, s, st.servers[s].name);
    assert WaitOk(st, st.servers[s].name, st.waits[st.servers[s].name]);
  }

  lemma PendingInRange(st: State, s: nat)
    requires Inv(st) && s < |st.servers|
    ensures forall c :: c in st.servers[s].pending ==>
              c in st.logs[s].connected && c < |st.conns| && st.conns[c].server == s
    ensures st.servers[s].pendingN == |st.servers[s].pending|
  {
    assert QueueOk(st, s);
  }

  /** A thread after server `s` was closed with this queue. */
  function AfterClose(th: Thread, pending: seq<nat>, s: nat): Thread {
    if th.ConnBlocked? && th.conn in pending then ConnWoken(th.conn)
    else if th == AcceptBlocked(s) then Accepting(s)
    else th
  }

  /** What a close does to each thread. */
  lemma ThreadAfterClose(st: State, s: nat, t: nat)
    requires Inv(st) && s < |st.servers| && st.servers[s].open
    requires forall c :: c in st.servers[s].pending ==> c < |st.conns|
    ensures At(Closed(st, s).threads, t) == AfterClose(At(st.threads, t), st.servers[s].pending, s)
  {
    var v := st.servers[s];
    var clients := ClientsOf(st.conns, v.pending);
    assert QueueOk(st, s) && LimitOk(st, v, s) && ThreadOk(st, t);
    assert t in clients <==> At(st.threads, t).ConnBlocked? && At(st.threads, t).conn in v.pending by {
      ClientsAre(st.conns, v.pending, t);
      if t in clients {
        var c :| c in v.pending && st.conns[c].client == t;
        assert Unresolved(st, c);
      }
    }
    assert t in v.waiters <==> At(st.threads, t) == AcceptBlocked(s);
  }

  lemma ClosedNames(st: State, s: nat, name: string)
    requires Inv(st) && s < |st.servers| && st.servers[s].open
    requires forall c :: c in st.servers[s].pending ==> c < |st.conns|
    ensures Announced(Closed(st, s).servers, name) <==> name != st.servers[s].name && Announced(st.servers, name)
  {
    var after := Closed(st, s);
    assert IsOpen(st.servers, s, st.servers[s].name);
    forall r: nat | IsOpen(st.servers, r, name) && name != st.servers[s].name ensures IsOpen(after.servers, r, name) { }
    forall r: nat | IsOpen(after.servers, r, name) ensures IsOpen(st.servers, r, name) && r != s { }
  }

  lemma ClosedKeeps(st: State, s: nat)
    requires Inv(st) && s < |st.servers| && st.servers[s].open
    ensures forall c :: c in st.servers[s].pending ==> c < |st.conns|
    ensures Inv(Closed(st, s)) && Later(st, Closed(st, s))
  {
    hide Exclusive, ClientsOf, QueueOk, LimitOk, CrowdOk, ThreadOk, WaitOk, ConnOk, Later;
    PendingInRange(st, s);
    var after := Closed(st, s);
    forall t: nat
      ensures At(after.threads, t) == AfterClose(At(st.threads, t), st.servers[s].pending, s)
    {
      ThreadAfterClose(st, s, t);
    }
    ExclusiveAfterWake(st.threads, ClientsOf(st.conns, st.servers[s].pending));
    ExclusiveAfterWake(WakeAll(st.threads, ClientsOf(st.conns, st.servers[s].pending)), st.servers[s].waiters);
    ClosedLater(st, s);
    ClosedQueues(st, s);
    forall t: nat ensures ThreadOk(after, t) { ClosedThread(st, s, t); }
    forall n | n in after.waits ensures WaitOk(after, n, after.waits[n]) { ClosedWaits(st, s, n); }
    forall c | 0 <= c < |after.conns| ensures ConnOk(after, c, after.conns[c]) { ClosedConn(st, s, c); }
    forall r: nat, q: nat, n | IsOpen(after.servers, r, n) && IsOpen(after.servers, q, n) ensures r == q {
      assert IsOpen(st.servers, r, n) && IsOpen(st.servers, q, n);
    }
  }

  lemma ClosedLater(st: State, s: nat)
    requires Inv(st) && s < |st.servers| && st.servers[s].open
    requires forall c :: c in st.servers[s].pending ==> c < |st.conns|
    ensures Later(st, Closed(st, s))
  {
    hide LimitOk, CrowdOk, ThreadOk, ConnOk, WaitOk, Exclusive, WakeAll, ClientsOf;
    assert QueueOk(st, s);
    forall c | c in st.servers[s].pending
      ensures !st.conns[c].pipes && st.conns[c].npages > 0
    {
      assert Unresolved(st, c);
    }
  }

  lemma ClosedWaits(st: State, s: nat, n: string)
    requires Inv(st) && s < |st.servers| && st.servers[s].open && n in st.waits
    requires forall c :: c in st.servers[s].pending ==> c < |st.conns|
    requires forall u: nat :: At(st.threads, u).NameBlocked? ==> At(Closed(st, s).threads, u) == At(st.threads, u)
    ensures n in Closed(st, s).waits && WaitOk(Closed(st, s), n, Closed(st, s).waits[n])
  {
    hide QueueOk, LimitOk, CrowdOk, ThreadOk, ConnOk, Exclusive, WakeAll, ClientsOf, Refused;
    ClosedNames(st, s, n);
    assert WaitOk(st, n, st.waits[n]);
  }

  /** A pending connection has no pipes yet. */
  lemma PendingHasNoPipes(st: State, s: nat, c: nat)
    requires Inv(st) && s < |st.servers| && st.servers[s].open && c in st.servers[s].pending
    ensures c < |st.conns| && !st.conns[c].pipes && c !in st.logs[s].taken && st.conns[c].server == s
  {
    assert QueueOk(st, s);
    assert Unresolved(st, c);
    var log := st.logs[s];
    var k :| 0 <= k < |st.servers[s].pending| && st.servers[s].pending[k] == c;
    assert log.connected[|log.taken| + k] == c;
    assert forall j :: 0 <= j < |log.taken| ==> log.taken[j] == log.connected[j];
  }

  lemma ClosedConn(st: State, s: nat, c: nat)
    requires Inv(st) && s < |st.servers| && st.servers[s].open && c < |st.conns|
    requires forall d :: d in st.servers[s].pending ==> d < |st.conns|
    ensures ConnOk(Closed(st, s), c, Closed(st, s).conns[c])
  {
    assert ConnOk(st, c, st.conns[c]);
    if c in st.servers[s].pending { PendingHasNoPipes(st, s, c); }
  }

  lemma ClosedQueues(st: State, s: nat)
    requires Inv(st) && s < |st.servers| && st.servers[s].open
    requires forall c :: c in st.servers[s].pending ==> c < |st.conns|
    requires forall t: nat ::
               At(Closed(st, s).threads, t) == AfterClose(At(st.threads, t), st.servers[s].pending, s)
    ensures forall r :: 0 <= r < |st.servers| ==>
              QueueOk(Closed(st, s), r) && LimitOk(Closed(st, s), Closed(st, s).servers[r], r)
    ensures forall r :: 0 <= r < |st.servers| ==> CrowdOk(Closed(st, s), Closed(st, s).servers[r], r)
  {
    var after := Closed(st, s);
    forall r | 0 <= r < |st.servers|
      ensures QueueOk(after, r) && LimitOk(after, after.servers[r], r) && CrowdOk(after, after.servers[r], r)
    {
      assert QueueOk(st, r) && LimitOk(st, st.servers[r], r) && CrowdOk(st, st.servers[r], r);
      AcceptorsStay(st.threads, after.threads, r);
      forall c | c in st.logs[r].taken ensures after.conns[c].npages > 0 {
        assert c in st.logs[r].connected;
        if c in st.servers[s].pending { PendingHasNoPipes(st, s, c); }
      }
      if r != s && st.servers[r].open {
        forall c | c in st.servers[r].pending ensures Unresolved(after, c) {
          assert Unresolved(st, c) && c in st.logs[r].connected;
          if c in st.servers[s].pending { PendingHasNoPipes(st, s, c); }
        }
      }
    }
  }

  lemma ClosedThread(st: State, s: nat, t: nat)
    requires Inv(st) && s < |st.servers| && st.servers[s].open
    requires forall c :: c in st.servers[s].pending ==> c < |st.conns|
    requires forall u: nat ::
               At(Closed(st, s).threads, u) == AfterClose(At(st.threads, u), st.servers[s].pending, s)
    ensures ThreadOk(Closed(st, s), t)
  {
    var after := Closed(st, s);
    var th := At(st.threads, t);
    assert ThreadOk(st, t);
    match th
    case NameBlocked(name, size) =>
      if name == st.servers[s].name { NameWaitlistQuiet(st, s); }
    case Finishing(c) =>
      assert ConnOk(st, c, st.conns[c]);
      if c in st.servers[s].pending { PendingHasNoPipes(st, s, c); }
    case Connected(c) => if c in st.servers[s].pending { PendingHasNoPipes(st, s, c); }
    case Accepted(c) => if c in st.servers[s].pending { PendingHasNoPipes(st, s, c); }
    case ConnWoken(c) => if c in st.servers[s].pending { PendingHasNoPipes(st, s, c); }
    case _ =>
  }

  /** What a step at server `s` leaves in order elsewhere. */
  lemma Elsewhere(st: State, after: State, s: nat)
    requires Inv(st) && after.waits == st.waits && |after.servers| == |after.logs| == |st.servers|
    requires forall name :: Announced(after.servers, name) <==> Announced(st.servers, name)
    requires forall r :: 0 <= r < |st.servers| && r != s ==>
               after.servers[r] == st.servers[r] && after.logs[r] == st.logs[r]
    requires |st.conns| <= |after.conns|
    requires forall c :: 0 <= c < |st.conns| ==>
               after.conns[c].server == st.conns[c].server && after.conns[c].npages == st.conns[c].npages
    requires forall u: nat :: At(st.threads, u).NameBlocked? ==> At(after.threads, u) == At(st.threads, u)
    requires forall u: nat :: At(st.threads, u).AcceptBlocked? && At(st.threads, u).server != s ==>
               At(after.threads, u) == At(st.threads, u)
    requires forall u: nat :: At(st.threads, u).Accepting? && At(st.threads, u).server != s ==>
               At(after.threads, u) == At(st.threads, u)
    requires forall c: nat :: Unresolved(st, c) && st.conns[c].server != s ==> Unresolved(after, c)
    ensures forall r :: 0 <= r < |st.servers| && r != s ==> QueueOk(after, r) && LimitOk(after, after.servers[r], r)
    ensures forall r :: 0 <= r < |st.servers| && r != s ==> CrowdOk(after, after.servers[r], r)
    ensures forall n :: n in after.waits ==> WaitOk(after, n, after.waits[n])
  {
    forall r | 0 <= r < |st.servers| && r != s
      ensures QueueOk(after, r) && LimitOk(after, after.servers[r], r) && CrowdOk(after, after.servers[r], r)
    {
      assert QueueOk(st, r) && LimitOk(st, st.servers[r], r) && CrowdOk(st, st.servers[r], r);
      AcceptorsStay(st.threads, after.threads, r);
    }
    forall n | n in after.waits ensures WaitOk(after, n, after.waits[n]) { assert WaitOk(st, n, st.waits[n]); }
  }

  lemma ConnsStay(st: State, after: State)
    requires Inv(st) && |after.servers| == |after.logs| == |st.servers| && after.conns == st.conns
    requires forall s :: 0 <= s < |st.servers| ==> after.logs[s].connected == st.logs[s].connected
    ensures forall c :: 0 <= c < |after.conns| ==> ConnOk(after, c, after.conns[c])
  {
  }

  // ---------------------------------------------------------------- accepting

  /** The state when only thread `t` moved, to a state that says nothing about others. */
  ghost function Moved(st: State, t: nat, th: Thread): State { st.(threads := st.threads[t := th]) }

  /** Thread states that nothing else in the state refers to. */
  predicate Loose(th: Thread) {
    th.Idle? || th.Checking? || th.ConnWoken? || th.Connected? || th.Rejected? || th.Finishing? || th.Accepted? ||
        th.Aborted?
  }

  lemma MovedKeeps(st: State, t: nat, th: Thread)
    requires Inv(st) && Loose(At(st.threads, t)) && ThreadOk(Moved(st, t, th), t)
    requires th.Finishing? ==> forall u :: u != t ==> At(st.threads, u) != th
    ensures Inv(Moved(st, t, th)) && Later(st, Moved(st, t, th))
  {
    hide QueueOk, LimitOk, WaitOk, Exclusive;
    var after := Moved(st, t, th);
    ExclusiveAfterMove(st.threads, t, th);
    forall u: nat ensures ThreadOk(after, u) { assert ThreadOk(st, u); }
    Elsewhere(st, after, |st.servers|);
    ConnsStay(st, after);
  }

  /** No client is pending: the accepting thread goes to sleep. */
  ghost function AcceptSleeps(st: State, t: nat, s: nat): State
    requires s < |st.servers|
  {
    st.(threads := st.threads[t := AcceptBlocked(s)],
        servers := st.servers[s := st.servers[s].(waiters := st.servers[s].waiters + [t])])
  }

  lemma SameNames(servers: seq<Server>, more: seq<Server>, s: nat)
    requires s < |servers| == |more| && forall r :: 0 <= r < |servers| && r != s ==> more[r] == servers[r]
    requires more[s].name == servers[s].name && more[s].open == servers[s].open
    ensures forall name :: Announced(more, name) <==> Announced(servers, name)
    ensures UniqueNames(servers) ==> UniqueNames(more)
  {
    forall name ensures Announced(more, name) <==> Announced(servers, name) {
      forall r: nat | IsOpen(servers, r, name) ensures IsOpen(more, r, name) { }
      forall r: nat | IsOpen(more, r, name) ensures IsOpen(servers, r, name) { }
    }
    if UniqueNames(servers) {
      forall r: nat, q: nat, n | IsOpen(more, r, n) && IsOpen(more, q, n) ensures r == q {
        assert IsOpen(servers, r, n) && IsOpen(servers, q, n);
      }
    }
  }

  lemma AcceptSleepsKeeps(st: State, t: nat, s: nat)
    requires Inv(st) && At(st.threads, t) == Accepting(s) && s < |st.servers|
    requires st.servers[s].pendingMax > 0 && st.servers[s].pendingN == 0
    ensures Inv(AcceptSleeps(st, t, s)) && Later(st, AcceptSleeps(st, t, s))
  {
    hide WaitOk, Exclusive, UniqueNames, Announced, QueueOk, LimitOk, CrowdOk;
    var after := AcceptSleeps(st, t, s);
    ExclusiveAfterMove(st.threads, t, AcceptBlocked(s));
    SleeperJoins(st, t, s);
    SameNames(st.servers, after.servers, s);
    forall u: nat ensures ThreadOk(after, u) { assert ThreadOk(st, u); }
    Elsewhere(st, after, s);
    ConnsStay(st, after);
  }

  lemma SleeperJoins(st: State, t: nat, s: nat)
    requires Inv(st) && At(st.threads, t) == Accepting(s) && s < |st.servers|
    requires st.servers[s].pendingMax > 0 && st.servers[s].pendingN == 0
    ensures var after := AcceptSleeps(st, t, s);
            QueueOk(after, s) && LimitOk(after, after.servers[s], s) && CrowdOk(after, after.servers[s], s)
  {
    hide WaitOk, Exclusive, UniqueNames, Announced, ConnOk;
    assert ThreadOk(st, t) && QueueOk(st, s) && LimitOk(st, st.servers[s], s);
  }

  /** The server was freed by then: the accepting thread locks freed memory. */
  ghost function AcceptTouches(st: State, t: nat, s: nat): State { st.(threads := st.threads[t := TouchedFreed(s)]) }

  lemma AcceptTouchesKeeps(st: State, t: nat, s: nat)
    requires Inv(st) && At(st.threads, t) == Accepting(s) && s < |st.servers| && st.servers[s].freed
    ensures Inv(AcceptTouches(st, t, s)) && Later(st, AcceptTouches(st, t, s))
  {
    hide WaitOk, Exclusive, UniqueNames, Announced;
    var after := AcceptTouches(st, t, s);
    ExclusiveAfterMove(st.threads, t, TouchedFreed(s));
    assert ThreadOk(st, t) && QueueOk(st, s) && LimitOk(st, st.servers[s], s);
    forall u: nat ensures ThreadOk(after, u) { assert ThreadOk(st, u); }
    Elsewhere(st, after, s);
    ConnsStay(st, after);
  }

  /** The server was closed: the accepting thread frees it. */
  ghost function AcceptAborts(st: State, t: nat, s: nat): State
    requires s < |st.servers|
  {
    st.(threads := st.threads[t := Aborted], servers := st.servers[s := st.servers[s].(freed := true)])
  }

  lemma AcceptAbortsKeeps(st: State, t: nat, s: nat)
    requires Inv(st) && At(st.threads, t) == Accepting(s) && s < |st.servers| && st.servers[s].pendingMax == 0
    ensures Inv(AcceptAborts(st, t, s)) && Later(st, AcceptAborts(st, t, s))
  {
    hide WaitOk, Exclusive, UniqueNames, Announced;
    var after := AcceptAborts(st, t, s);
    ExclusiveAfterMove(st.threads, t, Aborted);
    assert ThreadOk(st, t) && QueueOk(st, s) && LimitOk(st, st.servers[s], s);
    SameNames(st.servers, after.servers, s);
    forall u: nat ensures ThreadOk(after, u) { assert ThreadOk(st, u); }
    Elsewhere(st, after, s);
    ConnsStay(st, after);
  }

  /** The first pending connection is taken out of the queue. */
  ghost function AcceptTakes(st: State, t: nat, s: nat): State
    requires s < |st.servers| && s < |st.logs| && st.servers[s].pending != []
  {
    var v := st.servers[s];
    State(st.servers[s := v.(pending := v.pending[1..], pendingN := v.pendingN - 1)], st.conns,
          st.threads[t := Finishing(v.pending[0])], st.waits,
          st.logs[s := st.logs[s].(taken := st.logs[s].taken + [v.pending[0]])])
  }

  lemma TakenQueue(st: State, t: nat, s: nat)
    requires Inv(st) && At(st.threads, t) == Accepting(s) && s < |st.servers| && st.servers[s].pending != [] &&
             st.servers[s].open
    ensures QueueOk(AcceptTakes(st, t, s), s) && LimitOk(AcceptTakes(st, t, s), AcceptTakes(st, t, s).servers[s], s)
    ensures CrowdOk(AcceptTakes(st, t, s), AcceptTakes(st, t, s).servers[s], s)
  {
    var after := AcceptTakes(st, t, s);
    var v, log := st.servers[s], st.logs[s];
    assert QueueOk(st, s) && LimitOk(st, v, s) && CrowdOk(st, v, s) && ThreadOk(st, t);
    AcceptorsChange(st.threads, after.threads, s, t);
    var c := v.pending[0];
    assert c in v.pending && Unresolved(st, c);
    assert log.taken + v.pending == (log.taken + [c]) + v.pending[1..];
    forall d | d in v.pending[1..] ensures Unresolved(after, d) {
      assert d in v.pending;
      assert Unresolved(st, d);
    }
  }

  lemma TakenThreads(st: State, t: nat, s: nat)
    requires Inv(st) && At(st.threads, t) == Accepting(s) && s < |st.servers| && st.servers[s].pending != [] &&
             st.servers[s].open
    requires Unresolved(st, st.servers[s].pending[0]) && st.conns[st.servers[s].pending[0]].server == s
    requires st.servers[s].pending[0] !in st.logs[s].taken
    ensures forall u: nat :: ThreadOk(AcceptTakes(st, t, s), u)
    ensures forall u: nat :: u != t ==> At(st.threads, u) != Finishing(st.servers[s].pending[0])
  {
    hide WaitOk, Exclusive, LimitOk, QueueOk, UniqueNames;
    forall u: nat
      ensures ThreadOk(AcceptTakes(st, t, s), u) &&
              (u != t ==> At(st.threads, u) != Finishing(st.servers[s].pending[0]))
    {
      assert ThreadOk(st, u);
    }
  }

  lemma AcceptTakesKeeps(st: State, t: nat, s: nat)
    requires Inv(st) && At(st.threads, t) == Accepting(s) && s < |st.servers| && st.servers[s].pending != [] &&
             st.servers[s].open
    ensures Inv(AcceptTakes(st, t, s)) && Later(st, AcceptTakes(st, t, s))
  {
    hide WaitOk, Exclusive, UniqueNames, Announced, LimitOk, ThreadOk;
    var after := AcceptTakes(st, t, s);
    var c := st.servers[s].pending[0];
    assert c in st.servers[s].pending;
    PendingHasNoPipes(st, s, c);
    TakenQueue(st, t, s);
    SameNames(st.servers, after.servers, s);
    assert QueueOk(st, s) && Unresolved(st, c);
    TakenThreads(st, t, s);
    ExclusiveAfterMove(st.threads, t, Finishing(c));
    Elsewhere(st, after, s);
    ConnsStay(st, after);
  }

  /** The pipes are set up and the client is woken. */
  ghost function AcceptFinishes(st: State, t: nat, c: nat): State
    requires c < |st.conns|
  {
    st.(conns := st.conns[c := st.conns[c].(pipes := true)],
        threads := WakeAll(st.threads, [st.conns[c].client])[t := Accepted(c)])
  }

  lemma OnlyFinisher(st: State, t: nat, u: nat)
    requires Inv(st) && At(st.threads, t).Finishing?
    ensures u != t ==> At(st.threads, u) != At(st.threads, t)
  {
  }

  lemma FinishedThreads(st: State, t: nat, c: nat)
    requires Inv(st) && At(st.threads, t) == Finishing(c) && c < |st.conns|
    requires forall u: nat :: At(AcceptFinishes(st, t, c).threads, u)
               == if u == t then Accepted(c) else if u == st.conns[c].client then ConnWoken(c) else At(st.threads, u)
    ensures forall u: nat :: ThreadOk(AcceptFinishes(st, t, c), u)
  {
    hide WaitOk, Exclusive, LimitOk, QueueOk;
    var after := AcceptFinishes(st, t, c);
    forall u: nat ensures ThreadOk(after, u) {
      assert ThreadOk(st, t) && ThreadOk(st, u);
      OnlyFinisher(st, t, u);
    }
  }

  lemma FinishedQueue(st: State, t: nat, c: nat)
    requires Inv(st) && At(st.threads, t) == Finishing(c) && c < |st.conns| && st.conns[c].server < |st.servers|
    requires forall u: nat :: At(AcceptFinishes(st, t, c).threads, u)
               == if u == t then Accepted(c) else if u == st.conns[c].client then ConnWoken(c) else At(st.threads, u)
    ensures var s := st.conns[c].server; var after := AcceptFinishes(st, t, c);
            QueueOk(after, s) && LimitOk(after, after.servers[s], s) && CrowdOk(after, after.servers[s], s)
  {
    var s := st.conns[c].server;
    var after := AcceptFinishes(st, t, c);
    assert ThreadOk(st, t) && QueueOk(st, s) && LimitOk(st, st.servers[s], s) && CrowdOk(st, st.servers[s], s);
    AcceptorsStay(st.threads, after.threads, s);
    forall d | d in st.servers[s].pending && st.servers[s].open ensures Unresolved(after, d) {
      assert Unresolved(st, d);
      PendingHasNoPipes(st, s, d);
    }
  }

  lemma AcceptFinishesKeeps(st: State, t: nat, c: nat)
    requires Inv(st) && At(st.threads, t) == Finishing(c)
    ensures c < |st.conns| && st.conns[c].npages > 0
    ensures Inv(AcceptFinishes(st, t, c)) && Later(st, AcceptFinishes(st, t, c))
  {
    hide WaitOk, Exclusive, LimitOk, QueueOk, WakeAll;
    assert ThreadOk(st, t);
    var after := AcceptFinishes(st, t, c);
    var client := st.conns[c].client;
    ExclusiveAfterWake(st.threads, [client]);
    ExclusiveAfterMove(WakeAll(st.threads, [client]), t, Accepted(c));
    forall u: nat
      ensures At(after.threads, u) == if u == t then Accepted(c) else if u == client then ConnWoken(c)
                                      else At(st.threads, u)
    {
      WakeAt(st.threads, [client], u);
    }
    FinishedThreads(st, t, c);
    var s := st.conns[c].server;
    FinishedQueue(st, t, c);
    Elsewhere(st, after, s);
    forall d | 0 <= d < |after.conns| ensures ConnOk(after, d, after.conns[d]) { assert ConnOk(st, d, st.conns[d]); }
  }

  // ---------------------------------------------------------------- connecting

  function ListFor(waits: map<string, Waitlist>, name: string): Waitlist {
    if name in waits then waits[name] else Waitlist(false, [])
  }

  /** There is no such server: sleep until one is created. */
  ghost function NameSleeps(st: State, t: nat, name: string, size: nat): State {
    var w := ListFor(st.waits, name);
    st.(waits := st.waits[name := w.(waiters := w.waiters + [t])], threads := st.threads[t := NameBlocked(name, size)])
  }

  lemma QueuesIgnoreWaits(st: State, waits: map<string, Waitlist>)
    requires |st.servers| == |st.logs|
    requires forall s :: 0 <= s < |st.servers| ==>
               QueueOk(st.(waits := waits), s) && LimitOk(st.(waits := waits), st.servers[s], s)
    requires forall s :: 0 <= s < |st.servers| ==> CrowdOk(st.(waits := waits), st.servers[s], s)
    ensures forall s :: 0 <= s < |st.servers| ==>
              QueueOk(st, s) && LimitOk(st, st.servers[s], s) && CrowdOk(st, st.servers[s], s)
  {
  }

  lemma NameSleepsKeeps(st: State, t: nat, name: string, size: nat)
    requires Inv(st) && At(st.threads, t) == Checking(name, size) && !Announced(st.servers, name)
    ensures !ListFor(st.waits, name).closed
    ensures Inv(NameSleeps(st, t, name, size)) && Later(st, NameSleeps(st, t, name, size))
  {
    hide QueueOk, LimitOk, Exclusive;
    var after := NameSleeps(st, t, name, size);
    ExclusiveAfterMove(st.threads, t, NameBlocked(name, size));
    if name in st.waits { assert WaitOk(st, name, st.waits[name]); }
    assert ThreadOk(st, t);
    forall u: nat ensures ThreadOk(after, u) { assert ThreadOk(st, u); }
    Elsewhere(st, after.(waits := st.waits), |st.servers|);
    QueuesIgnoreWaits(after, st.waits);
    forall n | n in after.waits ensures WaitOk(after, n, after.waits[n]) {
      if n in st.waits { assert WaitOk(st, n, st.waits[n]); }
    }
    ConnsStay(st, after);
  }

  /** `waitlist_wake` with a limit of one: the thread that has waited longest. */
  function First(waiters: seq<nat>): seq<nat> { if waiters == [] then [] else waiters[..1] }

  function Others(waiters: seq<nat>): seq<nat> { if waiters == [] then [] else waiters[1..] }

  /** The connection joins the queue of the server, and one sleeping acceptor is woken. */
  ghost function Queues(st: State, t: nat, s: nat, npages: nat): State
    requires s < |st.servers| && s < |st.logs|
  {
    var v := st.servers[s];
    var c := |st.conns|;
    State(st.servers[s := v.(pending := v.pending + [c], pendingN := v.pendingN + 1, waiters := Others(v.waiters))],
          st.conns + [Conn(t, s, npages, false)],
          WakeAll(st.threads, First(v.waiters))[t := ConnBlocked(c)], st.waits,
          st.logs[s := st.logs[s].(connected := st.logs[s].connected + [c])])
  }

  /** Who is awake after a client was queued. */
  lemma QueuesThreads(st: State, t: nat, s: nat, npages: nat, u: nat)
    requires Inv(st) && At(st.threads, t).Checking? && s < |st.servers|
    ensures At(Queues(st, t, s, npages).threads, u) ==
              (if u == t then ConnBlocked(|st.conns|) else if u in First(st.servers[s].waiters) then Accepting(s)
               else At(st.threads, u))
    ensures u in First(st.servers[s].waiters) ==>
              u != t && At(st.threads, u) == AcceptBlocked(s) && u !in Others(st.servers[s].waiters)
    ensures u in Others(st.servers[s].waiters) ==> u in st.servers[s].waiters
    ensures u in st.servers[s].waiters ==> u in First(st.servers[s].waiters) || u in Others(st.servers[s].waiters)
  {
    var ws := st.servers[s].waiters;
    assert LimitOk(st, st.servers[s], s);
    WakeAt(st.threads, First(ws), u);
    if ws != [] { assert ws == [ws[0]] + ws[1..] && ws[0] in ws; }
  }

  lemma QueuesCrowd(st: State, t: nat, s: nat, npages: nat)
    requires Inv(st) && At(st.threads, t).Checking? && s < |st.servers|
    ensures CrowdOk(Queues(st, t, s, npages), Queues(st, t, s, npages).servers[s], s)
  {
    hide WaitOk, Exclusive, UniqueNames, ThreadOk, QueueOk, WakeAll, Acceptors;
    var after, ws := Queues(st, t, s, npages), st.servers[s].waiters;
    if ws != [] {
      assert CrowdOk(st, st.servers[s], s);
      forall u: nat ensures At(st.threads, u) == Accepting(s) ==> At(after.threads, u) == Accepting(s) {
        QueuesThreads(st, t, s, npages, u);
      }
      QueuesThreads(st, t, s, npages, ws[0]);
      assert ws[0] in First(ws);
      AcceptorsChange(st.threads, after.threads, s, ws[0]);
    }
  }

  lemma QueuesQueue(st: State, t: nat, s: nat, npages: nat)
    requires Inv(st) && At(st.threads, t).Checking? && s < |st.servers| && st.servers[s].open
    requires st.servers[s].pendingN < st.servers[s].pendingMax && npages > 0
    ensures QueueOk(Queues(st, t, s, npages), s) &&
            LimitOk(Queues(st, t, s, npages), Queues(st, t, s, npages).servers[s], s)
  {
    hide WaitOk, Exclusive, UniqueNames, ThreadOk, WakeAll, CrowdOk;
    var after, log := Queues(st, t, s, npages), st.logs[s];
    assert QueueOk(st, s) && LimitOk(st, st.servers[s], s);
    forall d | d in st.servers[s].pending ensures Unresolved(after, d) {
      assert Unresolved(st, d);
      QueuesThreads(st, t, s, npages, st.conns[d].client);
    }
    assert log.taken + (st.servers[s].pending + [|st.conns|]) == log.taken + st.servers[s].pending + [|st.conns|];
    assert forall d :: d in log.connected ==> d < |st.conns|;
    assert forall j :: 0 <= j < |log.connected| ==> log.connected[j] in log.connected;
    QueuesThreads(st, t, s, npages, t);
    forall u | u in Others(st.servers[s].waiters) ensures At(after.threads, u) == AcceptBlocked(s) {
      QueuesThreads(st, t, s, npages, u);
    }
  }

  lemma QueuesThreadOk(st: State, t: nat, s: nat, npages: nat, u: nat)
    requires Inv(st) && At(st.threads, t).Checking? && s < |st.servers| && st.servers[s].open && npages > 0
    ensures ThreadOk(Queues(st, t, s, npages), u)
  {
    hide WaitOk, Exclusive, UniqueNames, QueueOk, LimitOk, CrowdOk, WakeAll, First, Others;
    assert ThreadOk(st, u);
    QueuesThreads(st, t, s, npages, u);
    if At(st.threads, u).Finishing? {
      var c := At(st.threads, u).conn;
      QueuesThreads(st, t, s, npages, st.conns[c].client);
    }
  }

  lemma QueuesKeeps(st: State, t: nat, s: nat, npages: nat)
    requires Inv(st) && At(st.threads, t).Checking? && s < |st.servers| && st.servers[s].open
    requires st.servers[s].pendingN < st.servers[s].pendingMax && npages > 0
    ensures Inv(Queues(st, t, s, npages)) && Later(st, Queues(st, t, s, npages))
  {
    hide WaitOk, Exclusive, UniqueNames, Announced, QueueOk, LimitOk, CrowdOk, ThreadOk, WakeAll, First, Others;
    var after := Queues(st, t, s, npages);
    forall u: nat
      ensures At(after.threads, u) == At(st.threads, u) || u == t || At(st.threads, u) == AcceptBlocked(s)
      ensures ThreadOk(after, u)
    {
      QueuesThreads(st, t, s, npages, u);
      QueuesThreadOk(st, t, s, npages, u);
    }
    var woken := First(st.servers[s].waiters);
    ExclusiveAfterWake(st.threads, woken);
    ExclusiveAfterMove(WakeAll(st.threads, woken), t, ConnBlocked(|st.conns|));
    QueuesQueue(st, t, s, npages);
    QueuesCrowd(st, t, s, npages);
    SameNames(st.servers, after.servers, s);
    Elsewhere(st, after, s);
    forall d | 0 <= d < |after.conns| ensures ConnOk(after, d, after.conns[d]) {
      if d < |st.conns| { assert ConnOk(st, d, st.conns[d]); }
    }
  }

  // ---------------------------------------------------------------- what the invariant promises

  /** The queue length is counted and bounded, and clients are taken in the order they connected. */
  lemma QueuePromises(st: State, s: nat)
    requires Inv(st) && s < |st.servers|
    ensures st.servers[s].pendingN == |st.servers[s].pending|
    ensures st.servers[s].open ==> st.servers[s].pendingN <= st.servers[s].pendingMax
    ensures st.logs[s].taken <= st.logs[s].connected && NoRepeats(st.logs[s].connected)
  {
    assert QueueOk(st, s) && LimitOk(st, st.servers[s], s);
  }

  /** A sleeping thread waits for something that has not happened. */
  lemma SleepersHaveReason(st: State, t: nat)
    requires Inv(st)
    ensures At(st.threads, t).NameBlocked? ==> !Announced(st.servers, At(st.threads, t).name)
    ensures At(st.threads, t).AcceptBlocked? ==>
              var s := At(st.threads, t).server;
              s < |st.servers| && st.servers[s].open && |st.servers[s].pending| <= |Acceptors(st.threads, s)|
    ensures At(st.threads, t).ConnBlocked? ==>
              var c := At(st.threads, t).conn; c < |st.conns| && st.conns[c].npages > 0 && !st.conns[c].pipes
  {
    assert ThreadOk(st, t);
    match At(st.threads, t)
    case NameBlocked(name, _) => assert WaitOk(st, name, st.waits[name]);
    case AcceptBlocked(s) => assert LimitOk(st, st.servers[s], s) && CrowdOk(st, st.servers[s], s);
    case _ =>
  }

  /** A connection returned to a client or a server has its pipes and was not refused. */
  lemma ReturnedIsReady(st: State, t: nat)
    requires Inv(st) && (At(st.threads, t).Connected? || At(st.threads, t).Accepted?)
    ensures var c := At(st.threads, t).conn; c < |st.conns| && st.conns[c].pipes && st.conns[c].npages > 0
  {
    assert ThreadOk(st, t);
    var c := At(st.threads, t).conn;
    assert ConnOk(st, c, st.conns[c]);
  }

  // ---------------------------------------------------------------- the subsystem

  datatype Step =
    | Create(name: string, max: nat) | Close(server: nat) | CallAccept(t: nat, server: nat)
    | CallConnect(t: nat, name: string, size: nat) | Resume(t: nat) | Return(t: nat)

  /** A client found the server it looks for: it is turned away, or queued. */
  ghost function ConnectsAt(st: State, t: nat, s: nat, size: nat): State
    requires s < |st.servers| && s < |st.logs|
  {
    if st.servers[s].pendingN >= st.servers[s].pendingMax then Moved(st, t, Rejected)
    else Queues(st, t, s, (size + (PAGE - 1)) / PAGE)
  }

  ghost predicate Connects(st: State, t: nat, name: string, size: nat, after: State) {
    if Announced(st.servers, name) then
      exists s: nat :: IsOpen(st.servers, s, name) && s < |st.logs| && after == ConnectsAt(st, t, s, size)
    else after == NameSleeps(st, t, name, size)
  }

  ghost predicate Accepts(st: State, t: nat, s: nat, after: State) {
    && s < |st.servers| && s < |st.logs|
    && if st.servers[s].freed then after == AcceptTouches(st, t, s)
       else if st.servers[s].pendingMax == 0 then after == AcceptAborts(st, t, s)
       else if st.servers[s].pending == [] then after == AcceptSleeps(st, t, s)
       else after == AcceptTakes(st, t, s)
  }

  /** A thread that is not asleep goes on with its call. */
  ghost predicate Resumes(st: State, t: nat, after: State) {
    match At(st.threads, t)
    case Checking(name, size) => Connects(st, t, name, size, after)
    case ConnWoken(c) => c < |st.conns| &&
        after == Moved(st, t, if st.conns[c].npages == 0 then Rejected else Connected(c))
    case Accepting(s) => Accepts(st, t, s, after)
    case Finishing(c) => c < |st.conns| && after == AcceptFinishes(st, t, c)
    case _ => after == st
  }

  /** The call is over, and the thread goes back to its program. */
  predicate Ended(th: Thread) { th.Connected? || th.Rejected? || th.Accepted? || th.Aborted? }

  /** What a step does; one that is not possible does nothing. */
  ghost predicate Does(st: State, step: Step, after: State) {
    match step
    case Create(name, max) => after == if max > 0 && !Announced(st.servers, name) then Created(st, name, max) else st
    case Close(s) =>
      if s < |st.servers| && st.servers[s].open then
        (forall c :: c in st.servers[s].pending ==> c < |st.conns|) && after == Closed(st, s)
      else after == st
    case CallAccept(t, s) =>
      after == if At(st.threads, t).Idle? && s < |st.servers| && st.servers[s].open then Moved(st, t, Accepting(s))
               else st
    case CallConnect(t, name, size) =>
      after == if At(st.threads, t).Idle? then Moved(st, t, if size == 0 then Rejected else Checking(name, size))
               else st
    case Resume(t) => Resumes(st, t, after)
    case Return(t) => after == if Ended(At(st.threads, t)) then Moved(st, t, Idle) else st
  }

  lemma ConnectKeeps(st: State, t: nat, after: State)
    requires Inv(st) && At(st.threads, t).Checking?
    requires Connects(st, t, At(st.threads, t).name, At(st.threads, t).size, after)
    ensures Inv(after) && Later(st, after)
  {
    hide Inv, Later, Announced, Queues, NameSleeps;
    var Checking(name, size) := At(st.threads, t);
    if !Announced(st.servers, name) {
      NameSleepsKeeps(st, t, name, size);
      return;
    }
    var s: nat :| IsOpen(st.servers, s, name) && s < |st.logs| && after == ConnectsAt(st, t, s, size);
    CheckerKnown(st, t, s);
    if st.servers[s].pendingN >= st.servers[s].pendingMax {
      MovedKeeps(st, t, Rejected);
    } else {
      QueuesKeeps(st, t, s, (size + (PAGE - 1)) / PAGE);
    }
  }

  lemma ResumeKeeps(st: State, t: nat, after: State)
    requires Inv(st) && Resumes(st, t, after)
    ensures Inv(after) && Later(st, after)
  {
    hide Inv, Later, Connects, AcceptTakes, AcceptSleeps, AcceptAborts, AcceptTouches, AcceptFinishes;
    LaterSame(st);
    match At(st.threads, t)
    case Checking(_, _) => ConnectKeeps(st, t, after);
    case ConnWoken(c) =>
      WokenKnown(st, t);
      MovedKeeps(st, t, if st.conns[c].npages == 0 then Rejected else Connected(c));
    case Accepting(s) =>
      AcceptorKnown(st, t);
      if st.servers[s].freed { AcceptTouchesKeeps(st, t, s); }
      else if st.servers[s].pendingMax == 0 { AcceptAbortsKeeps(st, t, s); }
      else if st.servers[s].pending == [] { AcceptSleepsKeeps(st, t, s); }
      else { AcceptTakesKeeps(st, t, s); }
    case Finishing(c) => AcceptFinishesKeeps(st, t, c);
    case _ =>
  }

  /** Every step keeps the invariant, resolved connections and the queue order. */
  lemma StepKeeps(st: State, step: Step, after: State)
    requires Inv(st) && Does(st, step, after)
    ensures Inv(after) && Later(st, after)
  {
    hide Inv, Later, Announced, Resumes, Created, Closed;
    LaterSame(st);
    match step
    case Create(name, max) => if max > 0 && !Announced(st.servers, name) { CreatedKeeps(st, name, max); }
    case Close(s) =>
      if s < |st.servers| && st.servers[s].open { ClosedKeeps(st, s); }
    case CallAccept(t, s) =>
      if At(st.threads, t).Idle? && s < |st.servers| && st.servers[s].open { StartKeeps(st, t, Accepting(s)); }
    case CallConnect(t, name, size) =>
      if At(st.threads, t).Idle? { StartKeeps(st, t, if size == 0 then Rejected else Checking(name, size)); }
    case Resume(t) => ResumeKeeps(st, t, after);
    case Return(t) => if Ended(At(st.threads, t)) { MovedKeeps(st, t, Idle); }
  }

  lemma StartKeeps(st: State, t: nat, th: Thread)
    requires Inv(st) && At(st.threads, t) == Idle
    requires th.Rejected? || (th.Checking? && th.size > 0) ||
             (th.Accepting? && th.server < |st.servers| && st.servers[th.server].open)
    ensures Inv(Moved(st, t, th)) && Later(st, Moved(st, t, th))
  {
    MovedKeeps(st, t, th);
  }

  /** A run: the states the steps lead through. */
  ghost predicate IsRun(states: seq<State>, steps: seq<Step>) {
    |states| == |steps| + 1 && forall k :: 0 <= k < |steps| ==> Does(states[k], steps[k], states[k + 1])
  }

  /** Over every run the promises hold, and what was resolved or queued stays so. */
  lemma {:induction false} RunKeeps(states: seq<State>, steps: seq<Step>, k: nat)
    requires IsRun(states, steps) && Inv(states[0]) && k < |states|
    ensures Inv(states[k]) && Later(states[0], states[k])
    decreases k
  {
    hide Inv, Later, Does;
    if k == 0 {
      LaterSame(states[0]);
    } else {
      RunKeeps(states, steps, k - 1);
      StepKeeps(states[k - 1], steps[k - 1], states[k]);
      LaterChains(states[0], states[k - 1], states[k]);
    }
  }

  // ---------------------------------------------------------------- using a freed server

  predicate Serves(th: Thread, s: nat) { th == AcceptBlocked(s) || th == Accepting(s) }

  /** A thread is awake in accept on the server, or two threads are in it. */
  ghost predicate Risky(st: State, s: nat) {
    || (exists t: nat :: At(st.threads, t) == Accepting(s))
    || (exists t: nat, u: nat :: t != u && Serves(At(st.threads, t), s) && Serves(At(st.threads, u), s))
  }

  ghost predicate Touched(st: State, s: nat) { exists t: nat :: At(st.threads, t) == TouchedFreed(s) }

  /** The closed server was used after it was freed, or will be. */
  ghost predicate Doomed(st: State, s: nat)
    requires s < |st.servers|
  {
    && !st.servers[s].open
    && (|| Touched(st, s)
        || (st.servers[s].freed && exists t: nat :: At(st.threads, t) == Accepting(s))
        || (exists t: nat, u: nat :: t != u && At(st.threads, t) == At(st.threads, u) == Accepting(s)))
  }

  /** Thread `u` is awake at the server, or has used it after it was freed, as before. */
  ghost predicate SameAt(st: State, after: State, s: nat, u: nat) {
    && (At(after.threads, u) == Accepting(s) <==> At(st.threads, u) == Accepting(s))
    && (At(after.threads, u) == TouchedFreed(s) <==> At(st.threads, u) == TouchedFreed(s))
  }

  /** How a step can concern a closed server: not at all, or a thread goes on in accept. */
  ghost predicate Concerns(st: State, after: State, s: nat, step: Step)
    requires s < |st.servers|
  {
    && s < |after.servers| && !after.servers[s].open
    && if step.Resume? && At(st.threads, step.t) == Accepting(s)
       then && (forall u: nat :: u != step.t ==> SameAt(st, after, s, u))
            && At(after.threads, step.t) == (if st.servers[s].freed then TouchedFreed(s) else Aborted)
            && after.servers[s].freed
       else (forall u: nat :: SameAt(st, after, s, u)) && after.servers[s].freed == st.servers[s].freed
  }

  lemma CreateConcerns(st: State, name: string, max: nat, s: nat)
    requires Inv(st) && s < |st.servers| && !st.servers[s].open
    ensures forall u: nat :: SameAt(st, Created(st, name, max), s, u)
  {
    forall u: nat ensures SameAt(st, Created(st, name, max), s, u) {
      if name in st.waits { NameWaitersWake(st, name, u); }
    }
  }

  lemma CloseConcerns(st: State, r: nat, s: nat)
    requires Inv(st) && s < |st.servers| && !st.servers[s].open && r < |st.servers| && st.servers[r].open
    requires forall c :: c in st.servers[r].pending ==> c < |st.conns|
    ensures forall u: nat :: SameAt(st, Closed(st, r), s, u)
  {
    hide Inv, Closed;
    forall u: nat ensures SameAt(st, Closed(st, r), s, u) { ThreadAfterClose(st, r, u); }
  }

  lemma ConnectConcerns(st: State, t: nat, s: nat, after: State)
    requires Inv(st) && s < |st.servers| && !st.servers[s].open && At(st.threads, t).Checking?
    requires Connects(st, t, At(st.threads, t).name, At(st.threads, t).size, after)
    ensures s < |after.servers| && after.servers[s].freed == st.servers[s].freed && !after.servers[s].open
    ensures forall u: nat :: SameAt(st, after, s, u)
  {
    hide Inv, Announced, WakeAll, First, Others;
    var Checking(name, size) := At(st.threads, t);
    if Announced(st.servers, name) {
      var r: nat :| IsOpen(st.servers, r, name) && r < |st.logs| && after == ConnectsAt(st, t, r, size);
      if st.servers[r].pendingN < st.servers[r].pendingMax {
        var npages := (size + (PAGE - 1)) / PAGE;
        forall u: nat ensures SameAt(st, after, s, u) { QueuesThreads(st, t, r, npages, u); }
      }
    }
  }

  lemma FinishConcerns(st: State, t: nat, s: nat)
    requires Inv(st) && At(st.threads, t).Finishing? && At(st.threads, t).conn < |st.conns|
    ensures forall u: nat :: SameAt(st, AcceptFinishes(st, t, At(st.threads, t).conn), s, u)
  {
    hide QueueOk, LimitOk, CrowdOk, WaitOk, ConnOk, Exclusive, UniqueNames;
    var c := At(st.threads, t).conn;
    assert ThreadOk(st, t);
    forall u: nat ensures SameAt(st, AcceptFinishes(st, t, c), s, u) { WakeAt(st.threads, [st.conns[c].client], u); }
  }

  lemma ResumeConcerns(st: State, t: nat, after: State, s: nat)
    requires Inv(st) && Resumes(st, t, after) && s < |st.servers| && !st.servers[s].open
    ensures Concerns(st, after, s, Resume(t))
  {
    hide Inv, Connects, Accepts, AcceptFinishes;
    match At(st.threads, t)
    case Checking(_, _) => ConnectConcerns(st, t, s, after);
    case Finishing(c) => FinishConcerns(st, t, s); FinishShape(st, t, c);
    case Accepting(r) => AcceptConcerns(st, t, r, after, s);
    case _ =>
  }

  lemma AcceptConcerns(st: State, t: nat, r: nat, after: State, s: nat)
    requires Inv(st) && At(st.threads, t) == Accepting(r) && Accepts(st, t, r, after)
    requires s < |st.servers| && !st.servers[s].open
    ensures Concerns(st, after, s, Resume(t))
  {
    hide Inv;
    AcceptorKnown(st, t);
    forall u: nat | u != t ensures SameAt(st, after, s, u) { }
  }

  lemma FinishShape(st: State, t: nat, c: nat)
    requires c < |st.conns|
    ensures AcceptFinishes(st, t, c).servers == st.servers
  {
  }

  lemma StepConcerns(st: State, step: Step, after: State, s: nat)
    requires Inv(st) && Does(st, step, after) && s < |st.servers| && !st.servers[s].open
    ensures Concerns(st, after, s, step)
  {
    hide Inv, Resumes, Announced, Refused, ClientsOf, WakeAll;
    match step
    case Create(name, max) => CreateConcerns(st, name, max, s);
    case Close(r) => if r < |st.servers| && st.servers[r].open { CloseConcerns(st, r, s); }
    case Resume(t) => ResumeConcerns(st, t, after, s);
    case _ =>
  }

  /** Once a server is closed, it is settled whether a thread uses it after it was freed. */
  lemma DoomSettled(st: State, step: Step, after: State, s: nat)
    requires s < |st.servers| && !st.servers[s].open && Concerns(st, after, s, step)
    ensures Doomed(st, s) <==> Doomed(after, s)
  {
    if step.Resume? && At(st.threads, step.t) == Accepting(s) {
      var t := step.t;
      assert SameAt(st, after, s, t) ==> false;
      if Doomed(st, s) {
        if u: nat :| At(st.threads, u) == TouchedFreed(s) { assert SameAt(st, after, s, u); }
        else if st.servers[s].freed { assert At(after.threads, t) == TouchedFreed(s); }
        else {
          var u: nat, v: nat :| u != v && At(st.threads, u) == At(st.threads, v) == Accepting(s);
          assert SameAt(st, after, s, u) || SameAt(st, after, s, v);
          var w := if u == t then v else u;
          assert SameAt(st, after, s, w);
        }
      }
      if Doomed(after, s) && !st.servers[s].freed {
        if u: nat :| At(after.threads, u) == TouchedFreed(s) { assert SameAt(st, after, s, u); }
        else {
          var u: nat :| At(after.threads, u) == Accepting(s);
          assert SameAt(st, after, s, u);
        }
      }
    } else {
      DoomSame(st, after, s);
      forall u: nat ensures SameAt(after, st, s, u) { assert SameAt(st, after, s, u); }
      DoomSame(after, st, s);
    }
  }

  lemma DoomSame(st: State, after: State, s: nat)
    requires s < |st.servers| && s < |after.servers| && !st.servers[s].open && !after.servers[s].open
    requires (forall u: nat :: SameAt(st, after, s, u)) && after.servers[s].freed == st.servers[s].freed
    ensures Doomed(st, s) ==> Doomed(after, s)
  {
    if Doomed(st, s) {
      if u: nat :| At(st.threads, u) == TouchedFreed(s) { assert SameAt(st, after, s, u); }
      else if u: nat, v: nat :| u != v && At(st.threads, u) == At(st.threads, v) == Accepting(s) {
        assert SameAt(st, after, s, u) && SameAt(st, after, s, v);
      } else {
        var u: nat :| At(st.threads, u) == Accepting(s);
        assert SameAt(st, after, s, u);
      }
    }
  }

  /** The close decides it. */
  lemma CloseDecides(st: State, s: nat)
    requires Inv(st) && s < |st.servers| && st.servers[s].open
    requires forall c :: c in st.servers[s].pending ==> c < |st.conns|
    ensures Doomed(Closed(st, s), s) <==> Risky(st, s)
  {
    hide Refused, ClientsOf, WakeAll, QueueOk, WaitOk, ConnOk, Exclusive, UniqueNames;
    var after := Closed(st, s);
    assert LimitOk(st, st.servers[s], s);
    forall u: nat
      ensures At(after.threads, u) == Accepting(s) <==> Serves(At(st.threads, u), s)
      ensures At(after.threads, u) != TouchedFreed(s)
      ensures At(st.threads, u) == AcceptBlocked(s) <==> u in st.servers[s].waiters
    {
      ThreadAfterClose(st, s, u);
      assert ThreadOk(st, u);
    }
    var ws := st.servers[s].waiters;
    if t: nat :| At(st.threads, t) == Accepting(s) {
      if ws != [] { assert ws[0] in ws && At(after.threads, ws[0]) == At(after.threads, t) == Accepting(s); }
    } else if t: nat, u: nat :| t != u && Serves(At(st.threads, t), s) && Serves(At(st.threads, u), s) {
      assert At(after.threads, t) == At(after.threads, u) == Accepting(s);
    }
  }

  /** The server was closed while it was risky. */
  ghost predicate ClosedRiskily(states: seq<State>, steps: seq<Step>, s: nat, k: nat)
    requires |states| == |steps| + 1 && k < |states|
  {
    exists j :: 0 <= j < k && steps[j] == Close(s) && s < |states[j].servers| && states[j].servers[s].open &&
        Risky(states[j], s)
  }

  lemma {:induction false} RunDecides(states: seq<State>, steps: seq<Step>, s: nat, k: nat)
    requires IsRun(states, steps) && Inv(states[0]) && k < |states|
    requires s < |states[0].servers| ==> states[0].servers[s].open
    ensures ClosedRiskily(states, steps, s, k) <==> s < |states[k].servers| && Doomed(states[k], s)
    decreases k
  {
    hide Inv, Does, Doomed, Risky;
    if k == 0 {
      OpenIsFine(states[0], s);
    } else {
      var st, step, after := states[k - 1], steps[k - 1], states[k];
      RunDecides(states, steps, s, k - 1);
      RunKeeps(states, steps, k - 1);
      assert Does(st, step, after);
      OneMoreDecides(st, step, after, s);
      assert ClosedRiskily(states, steps, s, k) <==>
               ClosedRiskily(states, steps, s, k - 1)
               || (step == Close(s) && s < |st.servers| && st.servers[s].open && Risky(st, s));
    }
  }

  lemma OpenIsFine(st: State, s: nat)
    ensures s < |st.servers| && st.servers[s].open ==> !Doomed(st, s)
  {
  }

  lemma OneMoreDecides(st: State, step: Step, after: State, s: nat)
    requires Inv(st) && Does(st, step, after)
    ensures s < |after.servers| && Doomed(after, s) <==>
              || (s < |st.servers| && Doomed(st, s))
              || (step == Close(s) && s < |st.servers| && st.servers[s].open && Risky(st, s))
  {
    hide Inv, Doomed, Risky, Refused, ClientsOf, WakeAll, Resumes;
    OpenIsFine(st, s);
    OpenIsFine(after, s);
    if s < |st.servers| && !st.servers[s].open {
      StepConcerns(st, step, after, s);
      DoomSettled(st, step, after, s);
    } else if s < |st.servers| && step == Close(s) {
      CloseDecides(st, s);
    } else {
      StaysOpen(st, step, after, s);
    }
  }

  lemma StaysOpen(st: State, step: Step, after: State, s: nat)
    requires Does(st, step, after) && (s < |st.servers| ==> st.servers[s].open && step != Close(s))
    ensures s < |after.servers| ==> after.servers[s].open
  {
    hide WakeAll, Refused, ClientsOf;
  }

  /**
    A thread uses a server after it was freed only if the server was closed while
    a thread was awake in accept on it, or two threads were in it; and then one
    does, as soon as all of them have gone on.
   */
  lemma TouchedExactlyWhen(states: seq<State>, steps: seq<Step>, s: nat, k: nat)
    requires IsRun(states, steps) && Inv(states[0]) && k < |states|
    requires s < |states[0].servers| ==> states[0].servers[s].open
    ensures Touched(states[k], s) ==> ClosedRiskily(states, steps, s, k)
    ensures (forall t: nat :: At(states[k].threads, t) != Accepting(s)) ==>
              (Touched(states[k], s) <==> ClosedRiskily(states, steps, s, k))
  {
    hide Inv, IsRun, Risky, ClosedRiskily;
    RunDecides(states, steps, s, k);
    RunKeeps(states, steps, k);
    if Touched(states[k], s) { TouchedIsClosed(states[k], s); }
  }

  lemma TouchedIsClosed(st: State, s: nat)
    requires Inv(st) && Touched(st, s)
    ensures s < |st.servers| && !st.servers[s].open
  {
    var t: nat :| At(st.threads, t) == TouchedFreed(s);
    assert ThreadOk(st, t) && LimitOk(st, st.servers[s], s);
  }

  /** No server yet. */
  function Empty(): State { State([], [], map[], map[], []) }

  /** Server `a` with one queue slot, and what two threads do. */
  function Sample(waiters: seq<nat>, t0: Thread, t1: Thread): State {
    State([Server("a", 1, 0, [], waiters, true, false)], [], map[0 := t0, 1 := t1], map[], [Log([], [])])
  }

  /** The client of thread 1 is queued, and thread 0 is awake; then the server is closed and freed. */
  function SampleQueued(open: bool, t0: Thread, t1: Thread): State {
    State([Server("a", if open then 1 else 0, 1, [0], [], open, !open)], [Conn(1, 0, if open then 1 else 0, false)],
          map[0 := t0, 1 := t1], map[], [Log([0], [])])
  }

  lemma SampleConnects()
    ensures Does(Sample([0], AcceptBlocked(0), Checking("a", 1)), Resume(1),
                 SampleQueued(true, Accepting(0), ConnBlocked(0)))
  {
    hide Queues;
    var st := Sample([0], AcceptBlocked(0), Checking("a", 1));
    SampleQueues();
    assert IsOpen(st.servers, 0, "a");
    assert ConnectsAt(st, 1, 0, 1) == SampleQueued(true, Accepting(0), ConnBlocked(0));
  }

  lemma SampleQueues()
    ensures Queues(Sample([0], AcceptBlocked(0), Checking("a", 1)), 1, 0, 1)
         == SampleQueued(true, Accepting(0), ConnBlocked(0))
  {
    var st, after := Sample([0], AcceptBlocked(0), Checking("a", 1)), SampleQueued(true, Accepting(0), ConnBlocked(0));
    assert WakeAll(st.threads, [0]) == map[0 := Accepting(0), 1 := Checking("a", 1)];
    var q, none: seq<nat> := Queues(st, 1, 0, 1), [];
    assert First([0]) == [0] && Others([0]) == none && none + [0] == [0];
    assert q.servers[0] == after.servers[0] && q.logs[0] == after.logs[0];
    assert q.servers == after.servers && q.conns == after.conns && q.threads == after.threads && q.logs == after.logs;
  }

  lemma SampleCloses()
    ensures Does(SampleQueued(true, Accepting(0), ConnBlocked(0)), Close(0),
                 SampleQueued(false, Accepting(0), ConnWoken(0)))
  {
    var st := SampleQueued(true, Accepting(0), ConnBlocked(0));
    assert ClientsOf(st.conns, [0]) == [1];
    assert WakeAll(st.threads, [1]) == map[0 := Accepting(0), 1 := ConnWoken(0)];
    assert WakeAll(map[0 := Accepting(0), 1 := ConnWoken(0)], []) == map[0 := Accepting(0), 1 := ConnWoken(0)];
    assert Refused(st.conns, [0]) == [Conn(1, 0, 0, false)];
  }

  /** Server `a` with nobody but thread 0 about. */
  function SampleAlone(waiters: seq<nat>, threads: map<nat, Thread>): State {
    State([Server("a", 1, 0, [], waiters, true, false)], [], threads, map[], [Log([], [])])
  }

  lemma SampleStarts()
    ensures Does(Empty(), Create("a", 1), SampleAlone([], map[]))
    ensures Does(SampleAlone([], map[]), CallAccept(0, 0), SampleAlone([], map[0 := Accepting(0)]))
  {
  }

  lemma SampleSleeps()
    ensures Does(SampleAlone([], map[0 := Accepting(0)]), Resume(0), SampleAlone([0], map[0 := AcceptBlocked(0)]))
    ensures Does(SampleAlone([0], map[0 := AcceptBlocked(0)]), CallConnect(1, "a", 1),
                 Sample([0], AcceptBlocked(0), Checking("a", 1)))
  {
    var st, none: seq<nat> := SampleAlone([], map[0 := Accepting(0)]), [];
    assert none + [0] == [0];
    assert AcceptSleeps(st, 0, 0).servers[0] == SampleAlone([0], map[]).servers[0];
    assert AcceptSleeps(st, 0, 0).servers == SampleAlone([0], map[]).servers;
  }

  /** An acceptor asleep is woken by a client; the close that comes before it goes on frees the server. */
  lemma ClosedUnderAcceptor() returns (states: seq<State>, steps: seq<Step>)
    ensures IsRun(states, steps) && states[0] == Empty() && Inv(Empty())
    ensures steps == [Create("a", 1), CallAccept(0, 0), Resume(0), CallConnect(1, "a", 1), Resume(1), Close(0),
            Resume(0)]
    ensures At(states[7].threads, 0) == TouchedFreed(0)
  {
    hide Does, Sample, SampleAlone;
    steps := [Create("a", 1), CallAccept(0, 0), Resume(0), CallConnect(1, "a", 1), Resume(1), Close(0), Resume(0)];
    states := [Empty(), SampleAlone([], map[]), SampleAlone([], map[0 := Accepting(0)]),
               SampleAlone([0], map[0 := AcceptBlocked(0)]), Sample([0], AcceptBlocked(0), Checking("a", 1)),
               SampleQueued(true, Accepting(0), ConnBlocked(0)), SampleQueued(false, Accepting(0), ConnWoken(0)),
               SampleQueued(false, TouchedFreed(0), ConnWoken(0))];
    SampleStarts();
    SampleSleeps();
    SampleConnects();
    SampleCloses();
    SampleTouches();
  }

  lemma SampleTouches()
    ensures Does(SampleQueued(false, Accepting(0), ConnWoken(0)), Resume(0),
                 SampleQueued(false, TouchedFreed(0), ConnWoken(0)))
  {
  }

  class Ipc {
    var st: State

    ghost predicate Valid()
      reads this
    {
      Inv(st)
    }

    constructor ()
      ensures Valid()
    {
      st := State([], [], map[], map[], []);
    }

    /** The search for an announced server. */
    method FindServer(name: string) returns (r: Option<nat>)
      ensures r.Some? ==> IsOpen(st.servers, r.value, name)
      ensures r.None? ==> !Announced(st.servers, name)
    {
      var s := 0;
      while s < |st.servers|
        invariant s <= |st.servers| && forall q :: 0 <= q < s ==> !IsOpen(st.servers, q, name)
      {
        if st.servers[s].open && st.servers[s].name == name { return Some(s); }
        s := s + 1;
      }
      return None;
    }

    /** `waitlist_wake`: waiters are popped one by one and made ready. */
    method Wake(threads: map<nat, Thread>, waiters: seq<nat>) returns (r: map<nat, Thread>)
      requires forall t :: t in waiters ==> t in threads
      ensures r == WakeAll(threads, waiters)
    {
      r := threads;
      var k := 0;
      while k < |waiters|
        invariant k <= |waiters| && r == WakeAll(threads, waiters[..k])
      {
        var t := waiters[k];
        assert t in waiters;
        assert waiters[..k + 1] == waiters[..k] + [t];
        r := r[t := Woken(r[t])];
        WokenTwice(threads, waiters[..k], t);
        k := k + 1;
      }
      assert waiters[..k] == waiters;
    }

    /** `ipc_server_create` */
    method CreateServer(name: string, max: nat) returns (r: Option<nat>)
      requires Valid() && max > 0
      modifies this
      ensures Valid() && Later(old(st), st)
      ensures r.None? <==> Announced(old(st).servers, name)
      ensures st == if r.None? then old(st) else Created(old(st), name, max)
    {
      hide Inv, Announced;
      var found := FindServer(name);
      if found.Some? {
        OpenIsAnnounced(st.servers, found.value, name);
        LaterSame(st);
        return None;
      }
      CreatedKeeps(st, name, max);
      var threads, waits := st.threads, st.waits;
      if name in waits {
        WaitersKnown(st, name);
        threads := Wake(threads, waits[name].waiters);
        waits := waits[name := Waitlist(true, [])];
      }
      st := State(st.servers + [Server(name, max, 0, [], [], true, false)], st.conns, threads, waits,
          st.logs + [Log([], [])]);
      return Some(|st.servers| - 1);
    }

    /** `ipc_server_close` */
    method CloseServer(s: nat)
      requires Valid() && s < |st.servers| && st.servers[s].open
      modifies this
      ensures Valid() && Later(old(st), st)
      ensures forall c :: c in old(st).servers[s].pending ==> c < |old(st).conns|
      ensures st == Closed(old(st), s)
    {
      hide Inv;
      ClosedKeeps(st, s);
      var v := st.servers[s];
      var waits := st.waits;
      if v.name in waits {
        NameWaitlistQuiet(st, s);
        assert waits[v.name].closed && waits[v.name].waiters == [];
        waits := waits[v.name := Waitlist(false, [])];
      }
      ServerWaitersKnown(st, s);
      var conns, threads := RefuseAll(st.conns, st.threads, v.pending);
      threads := Wake(threads, v.waiters);
      st := State(st.servers[s := v.(open := false, pendingMax := 0, waiters := [], freed := v.waiters == [])],
                  conns, threads, waits, st.logs);
    }

    /** The loop over the pending connections. */
    method RefuseAll(conns0: seq<Conn>, threads0: map<nat, Thread>, pending: seq<nat>)
      returns (conns: seq<Conn>, threads: map<nat, Thread>)
      requires Valid() && conns0 == st.conns && threads0 == st.threads
      requires forall c :: c in pending ==> c < |conns0| && Unresolved(st, c)
      ensures conns == Refused(conns0, pending) && threads == WakeAll(threads0, ClientsOf(conns0, pending))
    {
      hide Inv, Refused, ClientsOf, WakeAll, Unresolved;
      conns, threads := conns0, threads0;
      ghost var woken: seq<nat> := [];
      NothingDone(conns0, threads0, pending);
      var k := 0;
      while k < |pending|
        invariant k <= |pending| && |conns| == |conns0| && conns == Refused(conns0, pending[..k])
        invariant forall c :: c in pending[k..] ==> c in pending
        invariant ClientsOf(conns0, pending) == woken + ClientsOf(conns0, pending[k..])
        invariant threads == WakeAll(threads0, woken)
      {
        var c := pending[k];
        assert c in pending && Unresolved(st, c);
        UnresolvedKnown(st, c);
        RefuseOne(conns0, pending, k);
        var client := conns[c].client;
        conns := conns[c := conns[c].(npages := 0)];
        WokenTwice(threads0, woken, client);
        threads := threads[client := Woken(threads[client])];
        woken := woken + [client];
        k := k + 1;
      }
      AllDone(conns0, pending);
      assert woken + [] == woken;
    }

    /** The locked region of `ipc_server_accept`. */
    method AcceptRegion(t: nat)
      requires Valid() && At(st.threads, t).Accepting?
      modifies this
      ensures Valid() && Later(old(st), st)
      ensures Accepts(old(st), t, At(old(st).threads, t).server, st)
    {
      hide Inv;
      var s := st.threads[t].server;
      AcceptorKnown(st, t);
      var v := st.servers[s];
      if v.freed {
        AcceptTouchesKeeps(st, t, s);
        st := st.(threads := st.threads[t := TouchedFreed(s)]);
      } else if v.pendingMax == 0 {
        AcceptAbortsKeeps(st, t, s);
        st := st.(threads := st.threads[t := Aborted], servers := st.servers[s := v.(freed := true)]);
      } else if v.pendingN == 0 {
        AcceptSleepsKeeps(st, t, s);
        st := st.(threads := st.threads[t := AcceptBlocked(s)],
            servers := st.servers[s := v.(waiters := v.waiters + [t])]);
      } else {
        assert v.pending != [];
        AcceptTakesKeeps(st, t, s);
        var c := v.pending[0];
        st := State(st.servers[s := v.(pending := v.pending[1..], pendingN := v.pendingN - 1)], st.conns,
                    st.threads[t := Finishing(c)], st.waits,
                    st.logs[s := st.logs[s].(taken := st.logs[s].taken + [c])]);
      }
    }

    /** The rest of `ipc_server_accept`: set up the pipes and wake the client. */
    method FinishAccept(t: nat)
      requires Valid() && At(st.threads, t).Finishing?
      modifies this
      ensures Valid() && Later(old(st), st)
      ensures At(old(st).threads, t).conn < |old(st).conns| &&
              st == AcceptFinishes(old(st), t, At(old(st).threads, t).conn)
    {
      hide Inv;
      var c := st.threads[t].conn;
      AcceptFinishesKeeps(st, t, c);
      FinisherKnown(st, t);
      assert st.conns[c].npages > 0;
      var threads := Wake(st.threads, [st.conns[c].client]);
      st := st.(conns := st.conns[c := st.conns[c].(pipes := true)], threads := threads[t := Accepted(c)]);
    }

    /** The locked region of `ipc_connect_to_server`. */
    method ConnectRegion(t: nat)
      requires Valid() && At(st.threads, t).Checking?
      modifies this
      ensures Valid() && Later(old(st), st)
      ensures Connects(old(st), t, At(old(st).threads, t).name, At(old(st).threads, t).size, st)
    {
      hide Inv, Announced;
      var Checking(name, size) := st.threads[t];
      var found := FindServer(name);
      if found.None? {
        NameSleepsKeeps(st, t, name, size);
        var w := ListFor(st.waits, name);
        assert !w.closed;
        st := st.(waits := st.waits[name := w.(waiters := w.waiters + [t])],
            threads := st.threads[t := NameBlocked(name, size)]);
        return;
      }
      var s := found.value;
      OpenIsAnnounced(st.servers, s, name);
      CheckerKnown(st, t, s);
      var v := st.servers[s];
      if v.pendingN >= v.pendingMax {
        MovedKeeps(st, t, Rejected);
        st := st.(threads := st.threads[t := Rejected]);
        return;
      }
      var npages := (size + (PAGE - 1)) / PAGE;
      QueuesKeeps(st, t, s, npages);
      ServerWaitersKnown(st, s);
      var c := |st.conns|;
      var threads := Wake(st.threads, First(v.waiters));
      v := v.(pending := v.pending + [c], pendingN := v.pendingN + 1, waiters := Others(v.waiters));
      st := State(st.servers[s := v],
                  st.conns + [Conn(t, s, npages, false)], threads[t := ConnBlocked(c)], st.waits,
                  st.logs[s := st.logs[s].(connected := st.logs[s].connected + [c])]);
    }

    /** The end of `ipc_connect_to_server`, after the server woke the client. */
    method ConnectReturns(t: nat)
      requires Valid() && At(st.threads, t).ConnWoken?
      modifies this
      ensures Valid() && Later(old(st), st)
      ensures Resumes(old(st), t, st)
    {
      hide Inv;
      var c := st.threads[t].conn;
      WokenKnown(st, t);
      var next := if st.conns[c].npages == 0 then Rejected else Connected(c);
      MovedKeeps(st, t, next);
      st := st.(threads := st.threads[t := next]);
    }

    /** A thread outside any call starts one. */
    method Start(t: nat, th: Thread)
      requires Valid() && At(st.threads, t) == Idle
      requires th.Rejected? || (th.Checking? && th.size > 0) ||
               (th.Accepting? && th.server < |st.servers| && st.servers[th.server].open)
      modifies this
      ensures Valid() && Later(old(st), st) && st == Moved(old(st), t, th)
    {
      hide Inv;
      StartKeeps(st, t, th);
      st := st.(threads := st.threads[t := th]);
    }

    /** A thread returns from its call. */
    method Finish(t: nat)
      requires Valid() && Ended(At(st.threads, t))
      modifies this
      ensures Valid() && Later(old(st), st) && st == Moved(old(st), t, Idle)
    {
      hide Inv;
      MovedKeeps(st, t, Idle);
      st := st.(threads := st.threads[t := Idle]);
    }

    /** One step of a run; a step that is not enabled does nothing. */
    method Perform(step: Step)
      requires Valid()
      modifies this
      ensures Valid() && Later(old(st), st) && Does(old(st), step, st)
    {
      hide Inv, Later, Announced, Created, Closed, Connects, Accepts, AcceptFinishes;
      LaterSame(st);
      match step
      case Create(name, max) => if max > 0 { var r := CreateServer(name, max); }
      case Close(s) =>
        if s < |st.servers| && st.servers[s].open { CloseServer(s); }
      case CallAccept(t, s) =>
        if At(st.threads, t).Idle? && s < |st.servers| && st.servers[s].open { Start(t, Accepting(s)); }
      case CallConnect(t, name, size) =>
        if At(st.threads, t).Idle? { Start(t, if size == 0 then Rejected else Checking(name, size)); }
      case Resume(t) =>
        match At(st.threads, t) {
          case Checking(_, _) => ConnectRegion(t);
          case ConnWoken(_) => ConnectReturns(t);
          case Accepting(_) => AcceptRegion(t);
          case Finishing(_) => FinishAccept(t);
          case _ =>
        }
      case Return(t) => if Ended(At(st.threads, t)) { Finish(t); }
    }

    /** Every sequence of steps makes a run, which ends where the kernel is. */
    method Run(steps: seq<Step>) returns (ghost states: seq<State>)
      requires Valid()
      modifies this
      ensures Valid() && IsRun(states, steps) && states[0] == old(st) && states[|steps|] == st
    {
      hide Inv, Later, Does;
      states := [st];
      for k := 0 to |steps|
        invariant Valid() && IsRun(states, steps[..k]) && states[0] == old(st) && states[k] == st
      {
        Perform(steps[k]);
        states := states + [st];
      }
      assert steps[..|steps|] == steps;
    }
  }

  lemma WokenTwice(threads: map<nat, Thread>, ts: seq<nat>, t: nat)
    requires t in threads
    ensures t in WakeAll(threads, ts)
    ensures WakeAll(threads, ts)[t := Woken(WakeAll(threads, ts)[t])] == WakeAll(threads, ts + [t])
  {
  }

  lemma NothingDone(conns: seq<Conn>, threads: map<nat, Thread>, pending: seq<nat>)
    requires forall c :: c in pending ==> c < |conns|
    ensures Refused(conns, pending[..0]) == conns && WakeAll(threads, []) == threads
    ensures pending[0..] == pending
  {
  }

  lemma AllDone(conns: seq<Conn>, pending: seq<nat>)
    ensures pending[..|pending|] == pending && ClientsOf(conns, pending[|pending|..]) == []
  {
  }

  lemma UnresolvedKnown(st: State, c: nat)
    requires Unresolved(st, c)
    ensures c < |st.conns| && st.conns[c].client in st.threads
  {
  }

  lemma RefuseOne(conns: seq<Conn>, pending: seq<nat>, k: nat)
    requires k < |pending| && forall c :: c in pending[k..] ==> c < |conns|
    ensures var c := pending[k];
            && c < |conns| == |Refused(conns, pending[..k])| &&
               Refused(conns, pending[..k])[c].client == conns[c].client
            && Refused(conns, pending[..k])[c := Refused(conns, pending[..k])[c].(npages := 0)]
               == Refused(conns, pending[..k + 1])
    ensures forall c :: c in pending[k + 1..] ==> c in pending[k..]
    ensures ClientsOf(conns, pending[k..]) == [conns[pending[k]].client] + ClientsOf(conns, pending[k + 1..])
  {
    assert pending[k] in pending[k..];
    assert pending[..k + 1] == pending[..k] + [pending[k]];
    assert pending[k..][0] == pending[k] && pending[k..][1..] == pending[k + 1..];
  }

  lemma OpenIsAnnounced(servers: seq<Server>, s: nat, name: string)
    requires IsOpen(servers, s, name)
    ensures Announced(servers, name)
  {
  }

  lemma LaterSame(st: State)
    ensures Later(st, st)
  {
  }

  lemma LaterChains(a: State, b: State, c: State)
    requires Later(a, b) && Later(b, c)
    ensures Later(a, c)
  {
  }

  lemma WaitersKnown(st: State, name: string)
    requires Inv(st) && name in st.waits
    ensures forall t :: t in st.waits[name].waiters ==> t in st.threads
  {
    assert WaitOk(st, name, st.waits[name]);
  }

  lemma ServerWaitersKnown(st: State, s: nat)
    requires Inv(st) && s < |st.servers|
    ensures forall t :: t in st.servers[s].waiters ==> t in st.threads
    ensures st.servers[s].open ==> forall c :: c in st.servers[s].pending ==> Unresolved(st, c)
  {
    assert LimitOk(st, st.servers[s], s) && QueueOk(st, s);
  }

  lemma AcceptorKnown(st: State, t: nat)
    requires Inv(st) && At(st.threads, t).Accepting?
    ensures var s := At(st.threads, t).server;
            s < |st.servers| == |st.logs| && st.servers[s].pendingN == |st.servers[s].pending|
            && (st.servers[s].pendingMax > 0 <==> st.servers[s].open)
  {
    assert ThreadOk(st, t);
    var s := At(st.threads, t).server;
    assert QueueOk(st, s) && LimitOk(st, st.servers[s], s);
  }

  lemma FinisherKnown(st: State, t: nat)
    requires Inv(st) && At(st.threads, t).Finishing?
    ensures var c := At(st.threads, t).conn; c < |st.conns| && st.conns[c].client in st.threads
  {
    assert ThreadOk(st, t);
  }

  lemma CheckerKnown(st: State, t: nat, s: nat)
    requires Inv(st) && At(st.threads, t).Checking? && s < |st.servers|
    ensures At(st.threads, t).size > 0 && |st.logs| == |st.servers| && ThreadOk(Moved(st, t, Rejected), t)
    ensures At(st.threads, t).size + (PAGE - 1) >= PAGE
  {
    assert ThreadOk(st, t);
  }

  lemma WokenKnown(st: State, t: nat)
    requires Inv(st) && At(st.threads, t).ConnWoken?
    ensures var c := At(st.threads, t).conn;
            c < |st.conns| && |st.logs| == |st.servers| && ThreadOk(Moved(st, t, Rejected), t)
            && (st.conns[c].npages > 0 ==> ThreadOk(Moved(st, t, Connected(c)), t))
  {
    assert ThreadOk(st, t);
  }

}
