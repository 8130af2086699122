/**
  What each step of the scheduler does to threads, CPUs and waitlists, stated on
  the states before and after it.
 */
module SchedulerLaws {
  import opened Basics
  import opened Scheduler

  /** Nothing but CPU `c` and thread `t` changed. */
  ghost predicate OnlyHere(s: Sys, u: Sys, c: nat, t: nat) {
    && |u.cpus| == |s.cpus| && (forall d :: 0 <= d < |s.cpus| && d != c ==> u.cpus[d] == s.cpus[d])
    && u.threads - {t} == s.threads - {t} && u.lists == s.lists && !u.panicked
  }

  /**
    A free CPU takes a thread exactly if that is new, ready, or blocked for a
    condition that holds by now; the thread runs and waits no longer.
   */
  lemma ScheduleLaw(s: Sys, c: nat, t: nat, met: bool)
    requires !s.panicked && c < |s.cpus| && s.cpus[c].None? && t in s.threads
    ensures var u, th := Next(s, Schedule(c, t, met)), s.threads[t];
            if th.state == Created || th.state == Ready || (th.state == Blocked && th.waiting && met) then
              && OnlyHere(s, u, c, t) && u.cpus[c] == Some(t)
              && t in u.threads && u.threads[t] == th.(state := Running, waiting := false)
            else u == s
  {
  }

  /** A thread that gives up its CPU is ready again, unless it is dead. */
  lemma YieldLaw(s: Sys, c: nat, t: nat)
    requires !s.panicked && c < |s.cpus| && s.cpus[c] == Some(t) && t in s.threads && s.threads[t].on.None?
    ensures var u := Next(s, Yield(c));
            && OnlyHere(s, u, c, t) && u.cpus[c].None? && t in u.threads
            && u.threads[t] == if s.threads[t].state == Running then s.threads[t].(state := Ready) else s.threads[t]
  {
  }

  /** A thread that waits for a condition is blocked, and its CPU free. */
  lemma ConditionLaw(s: Sys, c: nat, t: nat)
    requires !s.panicked && c < |s.cpus| && s.cpus[c] == Some(t) && t in s.threads
    requires s.threads[t].state == Running && s.threads[t].on.None?
    ensures var u := Next(s, WaitCondition(c));
            && OnlyHere(s, u, c, t) && u.cpus[c].None?
            && t in u.threads && u.threads[t] == s.threads[t].(state := Blocked, waiting := true)
  {
  }

  /** Waiters of a list that has none yet are none. */
  ghost function WaitersOf(s: Sys, id: ListId): seq<nat> { if id in s.lists then s.lists[id].waiters else [] }

  /**
    A thread that is to sleep on a list stands last on it and still runs; on a
    closed list it goes on.
   */
  lemma AppendLaw(s: Sys, c: nat, t: nat, id: ListId, step: Step)
    requires !s.panicked && c < |s.cpus| && s.cpus[c] == Some(t) && t in s.threads
    requires s.threads[t].state == Running && s.threads[t].on.None?
    requires if id.Other? then step == WaitOn(c, id.k) else step == Join(c, id.t) && id.t in s.threads
    ensures var u := Next(s, step);
            if id in s.lists && s.lists[id].closed then u == s
            else
              && u.cpus == s.cpus && u.threads == s.threads[t := s.threads[t].(on := Some(id))] && !u.panicked
              && id in u.lists && u.lists - {id} == s.lists - {id} && !u.lists[id].closed
              && u.lists[id].waiters == WaitersOf(s, id) + [t]
  {
  }

  /** Then it blocks. */
  lemma BlockLaw(s: Sys, c: nat, t: nat)
    requires !s.panicked && c < |s.cpus| && s.cpus[c] == Some(t) && t in s.threads && s.threads[t].on.Some?
    ensures var u := Next(s, Block(c));
            && OnlyHere(s, u, c, t) && u.cpus[c].None?
            && t in u.threads && u.threads[t] == s.threads[t].(state := Blocked)
  {
  }

  /** The first waiters, as many as asked for, are ready and off the list; the others keep their order. */
  lemma WakeLaw(s: Sys, c: nat, k: nat, n: nat, t: nat)
    requires Good(s) && !s.panicked && c < |s.cpus| && s.cpus[c].Some? && s.cpus[c].value in s.threads
    requires s.threads[s.cpus[c].value].on.None? && t in s.threads
    ensures var u, ws := Next(s, WakeSome(c, k, n)), WaitersOf(s, Other(k));
            var m := if n < |ws| then n else |ws|;
            if exists j :: 0 <= j < m && ws[j] in s.threads && s.threads[ws[j]].state == Running then u.panicked
            else
              && !u.panicked && u.cpus == s.cpus && WaitersOf(u, Other(k)) == ws[m..] && t in u.threads
              && u.threads[t] == if t in ws[..m] then s.threads[t].(state := Ready, on := None) else s.threads[t]
  {
    hide Inv;
    AwakenKeeps(s, Other(k), n);
    var ws := WaitersOf(s, Other(k));
    if Trips(s, Other(k), n) {
      var j :| 0 <= j < Min(n, |ws|) && StillRuns(s.threads, ws[j]);
    } else {
      assert forall j :: 0 <= j < Min(n, |ws|) ==> !StillRuns(s.threads, ws[j]);
    }
  }

  /** An exit marks the thread dead, closes its list, wakes its joiners and gives up the CPU, in this order. */
  lemma ExitLaw(s: Sys, c: nat, t: nat)
    requires Good(s) && !s.panicked && c < |s.cpus| && s.cpus[c] == Some(t) && t in s.threads && s.threads[t].on.None?
    ensures var u, id := Next(s, Exit(c)), OfThread(t);
            match s.threads[t].phase
            case Alive => u == s.(threads := s.threads[t := s.threads[t].(state := Dead, phase := Marked)])
            case Marked =>
              && u.cpus == s.cpus && u.threads == s.threads[t := s.threads[t].(state := Dead, phase := ListClosed)]
              && id in u.lists && u.lists[id].closed && u.lists[id].waiters == WaitersOf(s, id)
            case ListClosed =>
              u.panicked || (t in u.threads && u.threads[t].phase == Finished && WaitersOf(u, id) == [])
            case Finished => OnlyHere(s, u, c, t) && u.cpus[c].None? && u.threads == s.threads
  {
    hide Inv, Awakened;
    CpuThread(s, c);
    if s.threads[t].phase == ListClosed {
      var id := OfThread(t);
      AwakenKeeps(s, id, |ListAt(s.lists, id).waiters|);
      if !Trips(s, id, |ListAt(s.lists, id).waiters|) { AllAwake(s, id, t); }
    }
  }

  lemma AllAwake(s: Sys, id: ListId, t: nat)
    requires t in s.threads && !Trips(s, id, |ListAt(s.lists, id).waiters|)
    ensures var u := Awakened(s, id, |ListAt(s.lists, id).waiters|); t in u.threads && WaitersOf(u, id) == []
  {
  }

  /** New threads are created, closed lists stay as they are but for that, and dead threads are removed. */
  lemma OtherLaws(s: Sys, c: nat, t: nat, k: nat)
    requires !s.panicked
    ensures t !in s.threads ==>
              Next(s, Spawn(t)) == s.(threads := s.threads[t := Thread(Created, false, None, Alive)])
    ensures var u := Next(s, CloseOther(k));
            && u.cpus == s.cpus && u.threads == s.threads && Other(k) in u.lists
            && u.lists[Other(k)] == Waitlist(true, WaitersOf(s, Other(k)))
    ensures c < |s.cpus| && s.cpus[c].Some? && s.cpus[c] != Some(t) && s.cpus[c].value in s.threads
            && s.threads[s.cpus[c].value].on.None? && s.threads[s.cpus[c].value].state == Running
            && t in s.threads && s.threads[t].state == Dead ==>
              t !in Next(s, Reap(c, t)).threads && Next(s, Reap(c, t)).threads == s.threads - {t}
  {
  }
}
