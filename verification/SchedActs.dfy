/** What each action does, in every run, told in the fields of the two states:
    the calls of a running coroutine, the turns of a scheduler, the tick and the
    clock. */
module SchedActs {
  import opened Wrappers
  import opened FdKeys
  import opened Countdowns
  import opened SchedState
  import opened SchedCore
  import opened SchedControl
  import opened SchedSteps
  import opened SchedRuns

  /** Step n of the run is the action `a`, and the process runs on. */
  ghost predicate Does(r: Run, n: nat, a: Action) {
    IsRun(r) && n < |r.acts| && r.acts[n] == a && r.states[n].phase == Running && !r.states[n + 1].phase.Aborted?
  }

  /** The same of a call by the coroutine `u`, which is current on scheduler `i`. */
  ghost predicate Calls(r: Run, n: nat, i: Sid, u: Id, a: Action) {
    Does(r, n, a) && i in r.states[n].cur && r.states[n].cur[i] == u && i in r.states[n].pcs && u in r.states[n].uts
  }

  /** A running coroutine's call is a step of that coroutine. */
  lemma IsUserStep(r: Run, n: nat, i: Sid, u: Id, a: Action)
    requires Calls(r, n, i, u, a) && !a.DoTick? && !a.DoClock? && !a.Sched? && a.i == i
    ensures Good(r.states[n]) && RunsOn(r.states[n], i, u) && r.states[n + 1] == UserStep(r.states[n], i, u, a)
  {
    hide Core, Control, Closed, UserStep, SchedStep;
    Invariant(r, n);
    Stepped(r, n);
    RunsOnFacts(r.states[n], i);
  }

  // -------------------------------------------------------------------- calls

  /** A yield: the coroutine goes to the end of the ready queue. */
  lemma YieldDoes(r: Run, n: nat, i: Sid, u: Id)
    requires Calls(r, n, i, u, DoYield(i))
    ensures var s, s' := r.states[n], r.states[n + 1];
      s' == s.(uts := s.uts[u := s.uts[u].(armed := false)], ready := s.ready + [u], cur := s.cur - {i}, pcs := s'.pcs)
  {
    hide Core, Control, SwitchBack, GoesOn;
    IsUserStep(r, n, i, u, DoYield(i));
    YieldEffect(r.states[n], i, u);
  }

  /** uthread_create: one more coroutine, new, at the end of the ready queue. */
  lemma CreateDoes(r: Run, n: nat, i: Sid, u: Id, v: Id)
    requires Calls(r, n, i, u, DoCreate(i, v)) && v !in r.states[n].uts
    ensures var s, s' := r.states[n], r.states[n + 1];
      s' == s.(uts := s.uts[v := Ut({NEW}, 0, -1, None, true, Fresh, 0, false)], ready := s.ready + [v], live := s.live + 1)
  {
    hide Core, Control;
    IsUserStep(r, n, i, u, DoCreate(i, v));
  }

  lemma DetachDoes(r: Run, n: nat, i: Sid, u: Id, v: Id)
    requires Calls(r, n, i, u, DoDetach(i, v)) && v in r.states[n].uts
    ensures var s, s' := r.states[n], r.states[n + 1];
      s' == s.(uts := s.uts[v := s.uts[v].(status := s.uts[v].status + {DETACHED})])
  {
    hide Core, Control;
    IsUserStep(r, n, i, u, DoDetach(i, v));
  }

  /** A disk operation: the coroutine may not be signalled any more, and p goes to
      the first idle scheduler exactly when it is here and has ready coroutines. */
  lemma HandOffDoes(r: Run, n: nat, i: Sid, u: Id)
    requires Calls(r, n, i, u, DoHandOff(i))
    ensures var s, s' := r.states[n], r.states[n + 1]; var uts' := s.uts[u := s.uts[u].(armed := false)];
      if s.owner == i && s.ready != [] then
        s.idle != []
        && s' == s.(uts := uts', owner := s.idle[0], idle := s.idle[1..], pcs := s.pcs[s.idle[0] := Starting])
      else s' == s.(uts := uts')
  {
    hide Core, Control;
    IsUserStep(r, n, i, u, DoHandOff(i));
  }

  /** The end of a coroutine; for its joiner see ExitWakesTheJoiner. */
  lemma ExitDoes(r: Run, n: nat, i: Sid, u: Id)
    requires Calls(r, n, i, u, DoExit(i))
    ensures var s, s' := r.states[n], r.states[n + 1];
      && s' == s.(uts := s'.uts, sleeping := s'.sleeping, ready := s'.ready, live := s'.live, cur := s.cur - {i}, pcs := s'.pcs)
      && s.live > 0 && s'.live == s.live - 1 && s'.uts.Keys == s.uts.Keys
      && s'.uts[u] == s.uts[u].(status := s.uts[u].status + {EXITED}, armed := false)
      && forall v :: v in s.uts && v != u ==>
           s'.uts[v] == if s.uts[u].joined == Some(v) then s.uts[v].(status := s.uts[v].status - {SLEEPING} + {READY}) else s.uts[v]
  {
    hide Good, SchedSteps.Exit, GoesOn, UserStep;
    var s := r.states[n];
    IsUserStep(r, n, i, u, DoExit(i));
    IsExit(s, i, u);
    ExitFacts(s, u);
    if s.uts[u].joined.None? {
      ExitAloneEffect(s, i, u);
    } else {
      ExitIsWaking(s, i, u, s.uts[u].joined.value);
    }
  }

  lemma IsExit(s: State, i: Sid, u: Id)
    requires i in s.pcs && u in s.uts
    ensures UserStep(s, i, u, DoExit(i)) == SchedSteps.Exit(s, i, u)
  {
    hide SwitchBack;
  }

  lemma ExitFacts(s: State, u: Id)
    requires Good(s) && u in s.uts && !Gone(s.uts[u])
    ensures s.live > 0
    ensures s.uts[u].joined.Some? ==> s.uts[u].joined.value in s.uts && JoinsOn(s.uts[s.uts[u].joined.value], u)
  {
    hide SleepTree, WaitTree, Interest, Places, Control;
    LivePositive(s, u);
    if s.uts[u].joined.Some? { JoinerSleeps(s, u, s.uts[u].joined.value); }
  }

  /** The deadline of a timeout in milliseconds; 0 stands for 2^30 seconds. */
  ghost function WakesAt(now: nat, msecs: nat): nat {
    if msecs == 0 then now + 0x4000_0000 * 1000000 else now + msecs * 1000
  }

  /** The coroutine `u` of scheduler `i` has gone to sleep until `k`. */
  ghost predicate Asleep(s: State, s': State, i: Sid, u: Id, k: nat)
    requires u in s.uts && u in s'.uts
  {
    && k !in s.sleeping && s'.sleeping == s.sleeping[k := u] && s'.cur == s.cur - {i}
    && s'.uts[u].wakeup == k && SLEEPING in s'.uts[u].status && !s'.uts[u].armed
    && s' == s.(uts := s'.uts, sleeping := s'.sleeping, waiting := s'.waiting, epoll := s'.epoll, cur := s'.cur, pcs := s'.pcs)
  }

  /** _register_event: the coroutine sleeps, in both trees, until its deadline. */
  lemma RegisterDoes(r: Run, n: nat, i: Sid, u: Id, fd: int, ev: Event, msecs: nat)
    requires Calls(r, n, i, u, DoRegister(i, fd, ev, msecs))
    ensures var s, s' := r.states[n], r.states[n + 1]; var key := FdKey(fd, ev);
      && fd >= 0 && fd !in s.epoll && s'.epoll == s.epoll + {fd}
      && key !in s.waiting && s'.waiting == s.waiting[key := u]
      && s'.uts.Keys == s.uts.Keys && (forall v :: v in s.uts && v != u ==> s'.uts[v] == s.uts[v])
      && Asleep(s, s', i, u, WakesAt(s.now, msecs))
      && s'.uts[u] == s.uts[u].(status := s.uts[u].status + {SLEEPING, if ev == RD then WAIT_RD else WAIT_WR},
                                fdWait := key, wakeup := WakesAt(s.now, msecs), cont := InWait(fd, ev), armed := false)
  {
    hide Core, Control, Register, GoesOn, FdKey, Deadline, WakesAt;
    var s := r.states[n];
    IsUserStep(r, n, i, u, DoRegister(i, fd, ev, msecs));
    RegisterEffect(s, i, u, fd, ev, msecs);
    DeadlineIs(s.now, msecs);
    RunsUnwaited(s, fd, ev);
    var bit := if ev == RD then WAIT_RD else WAIT_WR;
    assert s.uts[u].status + {bit} + {SLEEPING} == s.uts[u].status + {SLEEPING, bit};
  }

  lemma DeadlineIs(now: nat, msecs: nat)
    ensures Deadline(now, msecs) == WakesAt(now, msecs)
  {
  }

  lemma RunsUnwaited(s: State, fd: int, ev: Event)
    requires Core(s)
    ensures fd !in s.epoll ==> FdKey(fd, ev) !in s.waiting
  {
    hide SleepTree, Joins, Places, Counted, FdKey;
    if fd !in s.epoll {
      KeyFree(s, fd, ev);
    }
  }

  /** uthread_join: at once for an error or a finished target; otherwise the
      caller sleeps for ten seconds at most, as the target's only joiner. */
  lemma JoinDoes(r: Run, n: nat, i: Sid, u: Id, v: Id)
    requires Calls(r, n, i, u, DoJoin(i, v)) && v in r.states[n].uts
    ensures var s, s', t := r.states[n], r.states[n + 1], r.states[n].uts[v];
      if u == v || DETACHED in t.status || t.joined.Some? || EXITED in t.status then s' == s
      else
        && s'.uts.Keys == s.uts.Keys && (forall w :: w in s.uts && w != u && w != v ==> s'.uts[w] == s.uts[w])
        && s'.uts[v] == t.(joined := Some(u))
        && Asleep(s, s', i, u, s.now + 10000000) && s'.waiting == s.waiting && s'.epoll == s.epoll
        && s'.uts[u] == s.uts[u].(status := s.uts[u].status + {SLEEPING}, wakeup := s.now + 10000000,
                                  cont := InJoin(v), armed := false)
  {
    hide Core, Control, Join, GoesOn, Deadline;
    var s := r.states[n];
    IsUserStep(r, n, i, u, DoJoin(i, v));
    JoinEffect(s, i, u, v);
    DeadlineIs(s.now, 10000);
  }

  /** A call that gives the scheduler back: the ready loop ends when p has gone,
      or with the last of its queue; every other loop goes on where it stands. */
  lemma GivesBack(r: Run, n: nat, i: Sid, u: Id)
    requires IsRun(r) && n < |r.acts| && r.states[n].phase == Running && !r.states[n + 1].phase.Aborted?
    requires i in r.states[n].cur && r.states[n].cur[i] == u && i in r.states[n].pcs && i !in r.states[n + 1].cur
    ensures var s, s', pc := r.states[n], r.states[n + 1], r.states[n].pcs[i];
      s'.pcs == if pc.Passing? && s.owner != i then s.pcs[i := LoopTop]
                else if pc.Passing? && pc.last == Some(u) then s.pcs[i := Polling] else s.pcs
  {
    hide Core, Control, Closed, UserStep, SchedStep;
    Invariant(r, n);
    Stepped(r, n);
    var s, a := r.states[n], r.acts[n];
    match a
    case DoTick =>
    case DoClock(_) =>
    case Sched(j, events) => if j in s.pcs && j !in s.cur { TurnKeepsCur(s, j, events); }
    case _ =>
      if a.i in s.cur {
        RunsOnFacts(s, a.i);
        CallGivesBack(s, a.i, s.cur[a.i], a);
      }
  }

  lemma CallGivesBack(s: State, i: Sid, u: Id, a: Action)
    requires Inv(s) && s.phase == Running && RunsOn(s, i, u)
    ensures var s' := UserStep(s, i, u, a); !s'.phase.Aborted? ==> s'.cur == s.cur || (s'.cur == s.cur - {i} && s'.pcs == NextPcs(s, i, u))
  {
    hide Core, Control, SwitchBack, Register, Join, NextPcs, ToReady, ToWait, ToJoin;
    match a
    case DoYield(_) => YieldEffect(s, i, u);
    case DoExit(_) =>
      IsExit(s, i, u);
      ExitGivesBack(s, i, u);
    case DoJoin(_, target) => if target in s.uts { JoinEffect(s, i, u, target); }
    case DoRegister(_, fd, ev, msecs) => RegisterEffect(s, i, u, fd, ev, msecs);
    case _ =>
  }

  lemma ExitGivesBack(s: State, i: Sid, u: Id)
    requires Inv(s) && s.phase == Running && RunsOn(s, i, u)
    ensures SchedSteps.Exit(s, i, u).cur == s.cur - {i} && SchedSteps.Exit(s, i, u).pcs == NextPcs(s, i, u)
  {
    hide Inv, SchedSteps.Exit, ExitAlone, ExitJoined, NextPcs;
    ExitFacts(s, u);
    if s.uts[u].joined.None? {
      ExitAloneEffect(s, i, u);
    } else {
      ExitJoinedEffect(s, i, u, s.uts[u].joined.value);
    }
  }

  // -------------------------------------------------------- the tick, the clock

  /** A tick: the timers count, and the coroutines that are armed and have a timer
      at zero are sent a signal. */
  lemma TickDoes(r: Run, n: nat)
    requires Does(r, n, DoTick)
    ensures var s, s' := r.states[n], r.states[n + 1];
      && s' == s.(uts := s'.uts, timers := TickAll(s.timers)) && s'.uts.Keys == s.uts.Keys
      && forall u :: u in s.uts ==>
           s'.uts[u] == s.uts[u].(age := s.uts[u].age + 1, signalled := s.uts[u].signalled || u in Signals(s))
  {
    hide Good, Closed, Signals, TickAll;
    Stepped(r, n);
  }

  lemma ClockDoes(r: Run, n: nat, to: nat)
    requires Does(r, n, DoClock(to))
    ensures r.states[n + 1] == r.states[n].(now := if r.states[n].now <= to then to else r.states[n].now)
  {
    hide Good, Closed;
    Stepped(r, n);
  }

  // --------------------------------------------------------- turns of a scheduler

  /** Scheduler `i`, which runs nothing, goes on from the place `pc`. */
  ghost predicate Turn(r: Run, n: nat, i: Sid, events: seq<(int, bool)>, pc: Pc) {
    Does(r, n, Sched(i, events)) && i in r.states[n].pcs && i !in r.states[n].cur && r.states[n].pcs[i] == pc
  }

  lemma IsTurn(r: Run, n: nat, i: Sid, events: seq<(int, bool)>, pc: Pc)
    requires Turn(r, n, i, events, pc)
    ensures Good(r.states[n]) && Closed(r.states[n]) && r.states[n + 1] == SchedStep(r.states[n], i, events)
  {
    hide Core, Control, Closed, SchedStep;
    Invariant(r, n);
    Stepped(r, n);
  }

  lemma TurnKeepsCur(s: State, i: Sid, events: seq<(int, bool)>)
    requires Inv(s) && s.phase == Running && Closed(s) && i in s.pcs && i !in s.cur
    ensures var s' := SchedStep(s, i, events); !s'.phase.Aborted? ==> s.cur.Keys <= s'.cur.Keys
  {
    hide Core, Control, WakeExpired, DeschedEvent, Dispatch, FdKey, FdOnly, FromReady, FromWait, OnlyUt, Resumed;
    match s.pcs[i]
    case Expiring(woken) =>
      if Bound(s, i) && s.sleeping != map[] && MinKey(s.sleeping) <= s.now { ExpireEffect(s, i, woken); }
    case Passing(_, _, _) => if Bound(s, i) && s.ready != [] { PassOnEffect(s, i, s.pcs[i]); }
    case Handling(fd, ev, _, _) =>
      if Bound(s, i) && FdKey(fd, ev) in s.waiting { HandleEventEffect(s, i, s.pcs[i]); }
    case _ =>
  }

  /** With p and something left to do the scheduler goes round its loop; without,
      it ends the process exactly when no coroutine is left, and else spins. */
  lemma LoopTopDoes(r: Run, n: nat, i: Sid, events: seq<(int, bool)>)
    requires Turn(r, n, i, events, LoopTop)
    ensures var s, s' := r.states[n], r.states[n + 1];
      && (s'.phase == Finished <==> s.live == 0)
      && s' == if s.live == 0 then s.(phase := Finished)
               else if s.owner == i && (s.ready != [] || s.sleeping != map[] || s.waiting != map[])
               then s.(pcs := s.pcs[i := Expiring([])]) else s
  {
    hide Good, Closed, Expire, PassOn, Poll, HandleEvent;
    IsTurn(r, n, i, events, LoopTop);
    var s := r.states[n];
    if s.ready != [] || s.sleeping != map[] || s.waiting != map[] {
      Counts(s);
    }
  }

  /** Whoever is queued, asleep or waiting is counted. */
  lemma Counts(s: State)
    requires Good(s) && (s.ready != [] || s.sleeping != map[] || s.waiting != map[])
    ensures s.live > 0
  {
    hide Interest, Joins, Control;
    if s.waiting != map[] {
      var k :| k in s.waiting;
      assert s.waiting[k] in SleepSet(s) && s.waiting[k] in LiveSet(s);
    } else if s.sleeping != map[] {
      var k :| k in s.sleeping;
      assert s.sleeping[k] in SleepSet(s) && s.sleeping[k] in LiveSet(s);
    } else {
      assert s.ready[0] in ReadySet(s) && s.ready[0] in LiveSet(s);
    }
  }

  lemma UnusedDoes(r: Run, n: nat, i: Sid, events: seq<(int, bool)>)
    requires Turn(r, n, i, events, Unused)
    ensures r.states[n + 1] == r.states[n]
  {
    hide Good, Closed, Expire, PassOn, Poll, HandleEvent;
    IsTurn(r, n, i, events, Unused);
  }

  /** The first turn of a scheduler's thread tells p its thread id. */
  lemma StartingDoes(r: Run, n: nat, i: Sid, events: seq<(int, bool)>)
    requires Turn(r, n, i, events, Starting)
    ensures r.states[n + 1] == r.states[n].(tid := i, pcs := r.states[n].pcs[i := LoopTop])
  {
    hide Good, Closed, Expire, PassOn, Poll, HandleEvent;
    IsTurn(r, n, i, events, Starting);
  }

  /** The kernel's list is taken exactly when nothing is ready and no deadline
      has passed. */
  lemma PollDoes(r: Run, n: nat, i: Sid, events: seq<(int, bool)>)
    requires Turn(r, n, i, events, Polling)
    ensures var s, s' := r.states[n], r.states[n + 1];
      && s.owner == i
      && s' == s.(pcs := s.pcs[i := Draining(if s.ready == [] && forall k :: k in s.sleeping ==> s.now < k then events else [])])
  {
    hide Core, Control, Closed, Expire, PassOn, HandleEvent;
    IsTurn(r, n, i, events, Polling);
    var s := r.states[n];
    if s.sleeping != map[] { assert IsMin(s.sleeping, MinKey(s.sleeping)); }
  }

  /** With p the last event of the list is handled next, and is off the list. */
  lemma DrainDoes(r: Run, n: nat, i: Sid, events: seq<(int, bool)>, list: seq<(int, bool)>)
    requires Turn(r, n, i, events, Draining(list))
    ensures var s, s' := r.states[n], r.states[n + 1];
      s' == s.(pcs := s.pcs[i :=
        if s.owner == i && list != [] then Handling(list[|list| - 1].0, RD, list[|list| - 1].1, list[..|list| - 1]) else LoopTop])
  {
    hide Good, Closed, Expire, PassOn, Poll, HandleEvent;
    IsTurn(r, n, i, events, Draining(list));
  }

  /** A switch of scheduler `i` to `u`, from the place `s.pcs[i]` to the place `pc`. */
  ghost predicate Switches(s: State, s': State, i: Sid, u: Id, pc: Pc) {
    && s.owner == i && s'.cur == s.cur[i := u] && s'.pcs == s.pcs[i := pc]
    && s'.timers == s.timers[s.nextTimer := Countdown(u, 1)] && s'.nextTimer == s.nextTimer + 1
    && s' == s.(uts := s'.uts, ready := s'.ready, sleeping := s'.sleeping, waiting := s'.waiting, epoll := s'.epoll,
                cur := s'.cur, pcs := s'.pcs, timers := s'.timers, nextTimer := s'.nextTimer)
  }

  /** handle_event for one pair: the read event comes first, and the write event
      next, whether or not anybody waited to read; then the rest of the list. */
  lemma HandleDoes(r: Run, n: nat, i: Sid, events: seq<(int, bool)>, pc: Pc)
    requires Turn(r, n, i, events, pc) && pc.Handling?
    ensures var s, s', key := r.states[n], r.states[n + 1], FdKey(pc.fd, pc.ev);
      var next := if pc.ev == RD then Handling(pc.fd, WR, pc.eof, pc.events) else Draining(pc.events);
      && s.owner == i
      && (key !in s.waiting ==> s' == s.(pcs := s.pcs[i := next]))
      && (key in s.waiting ==>
            var u := s.waiting[key];
            && u in s.uts && Switches(s, s', i, u, next) && s'.ready == s.ready
            && s'.waiting == s.waiting - {key} && s'.sleeping == s.sleeping - {s.uts[u].wakeup} && s'.epoll == s.epoll - {pc.fd}
            && Resumed(s, s', u, Noticed(s.uts[u], pc.eof)))
  {
    hide Core, Control, Closed, Resumed, Expire, PassOn, Poll, DeschedEvent, Dispatch, FdKey, FdOnly, OnlyUt;
    IsTurn(r, n, i, events, pc);
    var s := r.states[n];
    if FdKey(pc.fd, pc.ev) in s.waiting && Bound(s, i) {
      HandleEventEffect(s, i, pc);
      WaitingKey(s, FdKey(pc.fd, pc.ev));
    }
  }

  lemma WaitingKey(s: State, k: int)
    requires Good(s) && k in s.waiting
    ensures s.waiting[k] in s.uts && s.uts[s.waiting[k]].fdWait == k
  {
    hide SleepTree, Interest, Joins, Places, Counted, Control;
  }

  /** A turn of the sweep: the least deadline, if it has passed, is served, and
      its coroutine wakes as expired; else the pass over the queue begins. */
  lemma ExpireDoes(r: Run, n: nat, i: Sid, events: seq<(int, bool)>, woken: seq<nat>)
    requires Turn(r, n, i, events, Expiring(woken))
    ensures var s, s' := r.states[n], r.states[n + 1];
      && s.owner == i
      && ((forall k :: k in s.sleeping ==> s.now < k) ==>
            s' == s.(pcs := s.pcs[i := Passing(if s.ready == [] then None else Some(s.ready[|s.ready| - 1]), s.ready, [])]))
      && (!(forall k :: k in s.sleeping ==> s.now < k) ==>
            exists k: nat :: IsMin(s.sleeping, k) && k <= s.now && Expires(s, s', i, woken, k))
  {
    hide Core, Control, Closed, Resumed, PassOn, Poll, HandleEvent, WakeExpired, OnlyUt;
    IsTurn(r, n, i, events, Expiring(woken));
    var s := r.states[n];
    if Bound(s, i) && s.sleeping != map[] {
      var k := MinKey(s.sleeping);
      assert IsMin(s.sleeping, k);
      if k <= s.now {
        ExpireEffect(s, i, woken);
        assert Expires(s, r.states[n + 1], i, woken, k);
      }
    }
  }

  ghost predicate Expires(s: State, s': State, i: Sid, woken: seq<nat>, k: nat)
    requires k in s.sleeping
  {
    var u := s.sleeping[k];
    && u in s.uts && s.uts[u].cont.InWait? && Switches(s, s', i, u, Expiring(woken + [k])) && s'.ready == s.ready
    && s'.waiting == s.waiting - {s.uts[u].fdWait} && s'.sleeping == s.sleeping - {k} && s'.epoll == s.epoll - {s.uts[u].cont.fd}
    && Resumed(s, s', u, TimedOut(s.uts[u]))
  }

  /** A turn of the ready loop: the first of the queue goes on, or, when there is
      none, the loop ends. */
  lemma PassDoes(r: Run, n: nat, i: Sid, events: seq<(int, bool)>, pc: Pc)
    requires Turn(r, n, i, events, pc) && pc.Passing?
    ensures var s, s' := r.states[n], r.states[n + 1];
      && s.owner == i
      && (s.ready == [] ==> s' == s.(pcs := s.pcs[i := Polling]))
      && (s.ready != [] ==>
            var u := s.ready[0];
            && u in s.uts && Switches(s, s', i, u, pc.(done := pc.done + [u])) && s'.ready == s.ready[1..]
            && s'.waiting == s.waiting && s'.sleeping == s.sleeping && s'.epoll == s.epoll && Resumed(s, s', u, s.uts[u]))
  {
    hide Core, Control, Resumed, Expire, Poll, HandleEvent, Dispatch, OnlyUt;
    IsTurn(r, n, i, events, pc);
    var s := r.states[n];
    if Bound(s, i) && s.ready != [] {
      PassOnEffect(s, i, pc);
    }
  }
}
