/** The functions of uthread_sched.c and uthread.c as code: they update shared
    fields one after the other, and work on the two red-black trees of p and on
    the timer wheel in place.  Every step of the code is a step of the state
    machine, and leaves the trees and the wheel in order. */
module SchedCode {
  import opened Wrappers
  import opened Entries
  import opened FdKeys
  import opened Countdowns
  import opened EntryTrees
  import opened Timers
  import opened SchedState
  import opened SchedCore
  import opened SchedControl
  import opened SchedSteps
  import opened SchedRuns

  /** The key fields of the coroutines, as the two trees have them. */
  ghost predicate Keyed(uts: map<Id, Ut>, wakeups: map<nat, int>, fds: map<nat, int>) {
    && uts.Keys == wakeups.Keys == fds.Keys
    && forall u :: u in uts ==> wakeups[u] == uts[u].wakeup && fds[u] == uts[u].fdWait
  }

  lemma KeyedNew(uts: map<Id, Ut>, wakeups: map<nat, int>, fds: map<nat, int>, u: Id, t: Ut)
    requires Keyed(uts, wakeups, fds)
    ensures Keyed(uts[u := t], wakeups[u := t.wakeup], fds[u := t.fdWait])
  {
  }

  lemma KeyedWakeup(uts: map<Id, Ut>, wakeups: map<nat, int>, fds: map<nat, int>, u: Id, k: nat)
    requires Keyed(uts, wakeups, fds) && u in uts
    ensures Keyed(uts[u := uts[u].(wakeup := k)], wakeups[u := k], fds)
  {
  }

  lemma KeyedFdWait(uts: map<Id, Ut>, wakeups: map<nat, int>, fds: map<nat, int>, u: Id, k: int)
    requires Keyed(uts, wakeups, fds) && u in uts
    ensures Keyed(uts[u := uts[u].(fdWait := k)], wakeups, fds[u := k])
  {
  }

  /** The history of the coroutines after a tick. */
  function Aged(uts: map<Id, Ut>, signals: seq<int>): map<Id, Ut> {
    map u | u in uts :: uts[u].(age := uts[u].age + 1, signalled := uts[u].signalled || u in signals)
  }

  lemma KeyedAged(uts: map<Id, Ut>, wakeups: map<nat, int>, fds: map<nat, int>, signals: seq<int>)
    requires Keyed(uts, wakeups, fds)
    ensures Keyed(Aged(uts, signals), wakeups, fds)
  {
  }

  lemma AgedIsTick(s: State, signals: seq<int>)
    requires forall u :: u in s.uts && s.uts[u].armed ==>
               (u in signals <==> exists j :: j in s.timers && s.timers[j] == Countdown(u, 0))
    requires forall u :: u in s.uts && !s.uts[u].armed ==> u !in signals
    ensures Aged(s.uts, signals) == SchedState.Tick(s).uts
  {
    assert forall u :: u in s.uts ==> (u in signals <==> u in Signals(s));
  }

  lemma KeyedNone()
    ensures Keyed(map[], map[], map[])
  {
  }

  /** The sleeping tree has `u` under its wake-up time. */
  ghost predicate InSleep(s: State, u: Id)
    requires u in s.uts
  {
    s.uts[u].wakeup in s.sleeping && s.sleeping[s.uts[u].wakeup] == u
  }

  /** RB_REMOVE is called only for a coroutine that is in the tree. */
  ghost predicate SleepersLinked(s: State) {
    forall u :: u in s.uts && SLEEPING in s.uts[u].status ==> InSleep(s, u)
  }

  class Runtime {
    const sleep: EntryTree
    const wait: EntryTree
    const timers: TimerSet
    var phase: Phase
    var uts: map<Id, Ut>
    var ready: seq<Id>
    var epoll: set<int>
    var cur: map<Sid, Id>
    var pcs: map<Sid, Pc>
    var owner: Sid
    var tid: Sid
    var idle: seq<Sid>
    var live: nat
    var now: nat
    ghost var sleeping: map<nat, Id>

    ghost function Parts(): set<object>
      reads sleep, wait, timers
    {
      sleep.Repr + wait.Repr + timers.Repr
    }

    /** Both trees are red-black trees in key order with entries of their own,
        the keys are the key fields of the coroutines, linked or not, and the
        wheel is in order. */
    ghost predicate Valid()
      reads `uts, `sleeping, sleep, wait, timers, Parts()
    {
      && this !in Parts() && sleep.Repr !! wait.Repr && sleep.Repr !! timers.Repr && wait.Repr !! timers.Repr
      && sleep in sleep.Repr && wait in wait.Repr && timers in timers.Repr
      && sleep.Valid() && wait.Valid() && timers.Valid()
      && sleep.bound == sleeping && Keyed(uts, sleep.keys, wait.keys)
    }

    ghost function Now(): State
      reads this, wait, timers
    {
      State(phase, uts, ready, sleeping, wait.bound, epoll, cur, pcs, owner, tid, idle, live,
            timers.pending, timers.next, now)
    }

    constructor ()
      ensures Valid() && fresh(Parts()) && Now() == Init()
    {
      hide EntryTree.Valid, TimerSet.Valid, Keyed;
      KeyedNone();
      sleep := new EntryTree();
      wait := new EntryTree();
      timers := new TimerSet();
      phase, uts, ready := Running, map[], [0];
      epoll, cur := {}, map[];
      pcs := map[0 := LoopTop, 1 := Unused, 2 := Unused, 3 := Unused];
      owner, tid, idle, live, now := 0, 0, [1, 2, 3], 1, 0;
      sleeping := map[];
      new;
      AddUthread(0, READY);
    }

    /** The fields of a new coroutine, with its two tree entries. */
    method AddUthread(u: Id, st: St)
      requires Valid() && u !in uts
      modifies this, Parts()
      ensures Valid() && fresh(Parts() - old(Parts()))
      ensures Now() == old(Now()).(uts := old(uts)[u := Ut({st}, 0, -1, None, true, Fresh, 0, false)])
    {
      hide EntryTree.Valid, TimerSet.Valid;
      sleep.SeeEntries();
      wait.SeeEntries();
      KeyedNew(uts, sleep.keys, wait.keys, u, Ut({st}, 0, -1, None, true, Fresh, 0, false));
      sleep.Add(u, 0);
      wait.Add(u, -1);
      hide Keyed;
      uts := uts[u := Ut({st}, 0, -1, None, true, Fresh, 0, false)];
    }

    lemma Outside()
      requires Valid()
      ensures this !in Parts()
    {
    }

    /** Each coroutine has an entry for each tree, with its key. */
    lemma SeeEntries(u: Id)
      requires Valid() && u in uts
      ensures u in sleep.entry && u in sleep.keys && sleep.keys[u] == uts[u].wakeup
      ensures u in wait.entry && u in wait.keys && wait.keys[u] == uts[u].fdWait
    {
      hide EntryTree.Valid, TimerSet.Valid;
      sleep.SeeEntries();
      wait.SeeEntries();
    }

    /** A write to fields of a coroutine that are no keys. */
    method SetUt(u: Id, t: Ut)
      requires Valid() && u in uts && t.wakeup == uts[u].wakeup && t.fdWait == uts[u].fdWait
      modifies `uts
      ensures Valid() && uts == old(uts)[u := t]
    {
      hide EntryTree.Valid, TimerSet.Valid;
      uts := uts[u := t];
    }

    method SetStatus(u: Id, status: set<St>)
      requires Valid() && u in uts
      modifies `uts
      ensures Valid() && uts == old(uts)[u := old(uts)[u].(status := status)]
    {
      SetUt(u, uts[u].(status := status));
    }

    /** wakeup_time_usec may change only while it is no key of the sleeping tree. */
    method SetWakeup(u: Id, k: nat)
      requires Valid() && u in uts && u !in sleeping.Values
      modifies this, Parts()
      ensures Valid() && Parts() == old(Parts())
      ensures Now() == old(Now()).(uts := old(uts)[u := old(uts)[u].(wakeup := k)])
    {
      hide EntryTree.Valid, TimerSet.Valid, Keyed;
      SeeEntries(u);
      KeyedWakeup(uts, sleep.keys, wait.keys, u, k);
      sleep.SetKey(u, k);
      uts := uts[u := uts[u].(wakeup := k)];
    }

    /** fd_wait may change only while it is no key of the waiting tree. */
    method SetFdWait(u: Id, k: int)
      requires Valid() && u in uts && u !in wait.bound.Values
      modifies this, Parts()
      ensures Valid() && Parts() == old(Parts())
      ensures Now() == old(Now()).(uts := old(uts)[u := old(uts)[u].(fdWait := k)])
    {
      hide EntryTree.Valid, TimerSet.Valid, Keyed;
      SeeEntries(u);
      KeyedFdWait(uts, sleep.keys, wait.keys, u, k);
      wait.SetKey(u, k);
      uts := uts[u := uts[u].(fdWait := k)];
    }

    method LinkSleeper(u: Id) returns (ok: bool)
      requires Valid() && u in uts
      modifies this, Parts()
      ensures Valid() && Parts() == old(Parts())
      ensures ok == (old(uts)[u].wakeup !in old(sleeping))
      ensures Now() == if ok then old(Now()).(sleeping := old(sleeping)[old(uts)[u].wakeup := u]) else old(Now())
    {
      hide EntryTree.Valid, TimerSet.Valid, Keyed;
      SeeEntries(u);
      var found := sleep.Insert(u);
      ok := found.None?;
      if ok {
        sleeping := sleeping[uts[u].wakeup := u];
      }
    }

    method UnlinkSleeper(u: Id)
      requires Valid() && u in uts && InSleep(Now(), u)
      modifies this, Parts()
      ensures Valid() && Parts() == old(Parts())
      ensures Now() == old(Now()).(sleeping := old(sleeping) - {old(uts)[u].wakeup})
    {
      hide EntryTree.Valid, TimerSet.Valid, Keyed;
      SeeEntries(u);
      sleep.Remove(u);
      sleeping := sleeping - {uts[u].wakeup};
    }

    // ----------------------------------------------------- uthread_sched.c

    /** _uthread_desched_sleep */
    method DeschedSleep(u: Id)
      requires Valid() && u in uts && (SLEEPING in uts[u].status ==> InSleep(Now(), u))
      modifies this, Parts()
      ensures Valid() && Parts() == old(Parts())
      ensures Now() == SchedState.DeschedSleep(old(Now()), u)
      ensures wait.bound == old(wait.bound) && pcs == old(pcs) && phase == old(phase) && epoll == old(epoll)
      ensures uts.Keys == old(uts).Keys && SLEEPING !in uts[u].status
    {
      hide Valid;
      if SLEEPING in uts[u].status {
        UnlinkSleeper(u);
        SetStatus(u, uts[u].status - {SLEEPING});
        SetStatus(u, uts[u].status + {READY});
      }
    }

    /** _uthread_desched_event */
    method DeschedEvent(key: int) returns (found: Option<Id>)
      requires Valid() && Closed(Now()) && SleepersLinked(Now())
      modifies this, Parts()
      ensures Valid() && Parts() == old(Parts())
      ensures found == if key in old(wait.bound) then Some(old(wait.bound)[key]) else None
      ensures Now() == if key in old(wait.bound) then SchedState.DeschedEvent(old(Now()), key) else old(Now())
      ensures uts.Keys == old(uts).Keys && pcs == old(pcs) && phase == old(phase) && epoll == old(epoll)
      ensures found.Some? ==> found.value in uts && found.value !in wait.bound.Values && SLEEPING !in uts[found.value].status
    {
      hide Valid, SchedState.DeschedSleep;
      found := UnlinkWaiter(key);
      if found.Some? {
        DeschedSleep(found.value);
      }
    }

    /** RB_FIND and RB_REMOVE on the waiting tree. */
    method UnlinkWaiter(key: int) returns (found: Option<Id>)
      requires Valid()
      modifies this, Parts()
      ensures Valid() && Parts() == old(Parts())
      ensures found == if key in old(wait.bound) then Some(old(wait.bound)[key]) else None
      ensures Now() == old(Now()).(waiting := old(wait.bound) - {key})
      ensures found.Some? ==> found.value in uts && found.value !in wait.bound.Values
    {
      hide EntryTree.Valid, TimerSet.Valid;
      wait.SeeEntries();
      found := wait.Find(key);
      if found.Some? {
        wait.Remove(found.value);
      } else {
        assert wait.bound - {key} == wait.bound;
      }
    }

    method ClearWait(u: Id)
      requires Valid() && u in uts
      modifies `uts
      ensures Valid() && uts == old(uts)[u := old(uts)[u].(status := ClearWaitBit(old(uts)[u].status))]
    {
      hide Valid;
      if WAIT_RD in uts[u].status {
        SetStatus(u, uts[u].status - {WAIT_RD});
      } else if READY in uts[u].status {
        SetStatus(u, uts[u].status - {READY});
      } else {
        assert uts[u].status - {READY} == uts[u].status;
        assert uts == uts[u := uts[u].(status := ClearWaitBit(uts[u].status))];
      }
    }

    /** _uthread_cancel_event: when the fd is watched, the coroutine is the one
        that waits for it, so fd_wait is reset when its entry is out of the tree. */
    method CancelEvent(u: Id)
      requires Valid() && Closed(Now()) && SleepersLinked(Now()) && u in uts && Cancellable(Now(), u)
      modifies this, Parts()
      ensures Valid() && Parts() == old(Parts())
      ensures Now() == SchedState.CancelEvent(old(Now()), u)
      ensures uts.Keys == old(uts).Keys && pcs == old(pcs)
      ensures phase == Running ==> u !in wait.bound.Values && SLEEPING !in uts[u].status
    {
      hide Valid, FdOnly, FdEvent, SchedState.DeschedEvent, SchedState.DeschedSleep, Closed, SleepersLinked;
      Outside();
      BitKeeps(Now(), u, ClearWaitBit(uts[u].status), epoll - {FdOnly(uts[u].fdWait)});
      var key := uts[u].fdWait;
      var fd := FdOnly(key);
      ClearWait(u);
      if fd !in epoll {
        phase := Aborted(DelFailed);
        return;
      }
      epoll := epoll - {fd};
      assert uts[u].fdWait == key >= 0 && fd * WIDTH + FdEvent(key) == key && wait.bound[key] == u;
      StopWaiting(u, fd * WIDTH + FdEvent(key));
      assert Now() == SchedState.CancelEvent(old(Now()), u);
    }

    /** The end of _uthread_cancel_event for an fd waiter. */
    method StopWaiting(u: Id, key: int)
      requires Valid() && Closed(Now()) && SleepersLinked(Now()) && key in wait.bound && wait.bound[key] == u && u in uts
      modifies this, Parts()
      ensures Valid() && Parts() == old(Parts()) && uts.Keys == old(uts).Keys && pcs == old(pcs)
      ensures var s := SchedState.DeschedEvent(old(Now()), key);
        u in s.uts && Now() == s.(uts := s.uts[u := s.uts[u].(fdWait := -1)])
      ensures u !in wait.bound.Values && SLEEPING !in uts[u].status
    {
      hide Valid, SchedState.DeschedEvent, Closed, SleepersLinked;
      var _ := DeschedEvent(key);
      SetFdWait(u, -1);
    }

    /** What the woken coroutine does before it is back in user code; the result
        is that of uthread_join, where it was called: 1 after a timeout. */
    method GoOn(u: Id, cont: Cont) returns (result: int)
      requires Valid() && u in uts && u !in wait.bound.Values
      modifies this, Parts()
      ensures Valid() && Parts() == old(Parts())
      ensures Now() == old(Now()).(uts := SchedState.GoOn(old(uts), u, cont))
      ensures result == if cont.InJoin? && EXPIRED in old(uts)[u].status then 1 else 0
    {
      hide Valid;
      result := 0;
      match cont
      case Fresh =>
      case Plain =>
      case InWait(_, ev) =>
        EndWait(u, if ev == RD then WAIT_RD else WAIT_WR);
      case InJoin(target) =>
        SetStatus(u, uts[u].status - {SLEEPING});
        if EXPIRED in uts[u].status {
          result := 1;
          if target in uts {
            SetUt(target, uts[target].(joined := None));
          }
        }
    }

    /** The ends of _uthread_sched_sleep and _register_event. */
    method EndWait(u: Id, bit: St)
      requires Valid() && u in uts && u !in wait.bound.Values
      modifies this, Parts()
      ensures Valid() && Parts() == old(Parts())
      ensures Now() == old(Now()).(uts := old(uts)[u := old(uts)[u].(fdWait := -1, status := old(uts)[u].status - {SLEEPING, bit})])
    {
      hide Valid;
      SetStatus(u, uts[u].status - {SLEEPING});
      SetFdWait(u, -1);
      SetStatus(u, uts[u].status - {bit});
      assert uts[u].status == old(uts)[u].status - {SLEEPING, bit};
    }

    /** _uthread_resume up to the switch, and the coroutine up to user code. */
    method Resume(i: Sid, u: Id)
      requires Valid() && u in uts && u !in wait.bound.Values
      modifies this, Parts()
      ensures Valid() && fresh(Parts() - old(Parts()))
      ensures Now() == Dispatch(old(Now()), i, u) && pcs == old(pcs) && phase == old(phase)
    {
      hide Valid, SchedState.GoOn;
      Outside();
      var t, cont := uts[u], uts[u].cont;
      if NEW in t.status {
        t := t.(status := {READY});
      }
      cur := cur[i := u];
      SetUt(u, t.(armed := true, age := 0, signalled := false, cont := Plain));
      AddTimer(u);
      var _ := GoOn(u, cont);
    }

    method AddTimer(u: Id)
      requires Valid()
      modifies this, Parts()
      ensures Valid() && fresh(Parts() - old(Parts()))
      ensures Now() == old(Now()).(timers := old(timers.pending)[old(timers.next) := Countdown(u, 1)], nextTimer := old(timers.next) + 1)
    {
      hide EntryTree.Valid, TimerSet.Valid, Keyed;
      timers.Add(u);
    }

    /** One turn of the loop of _uthread_resume_expired. */
    method ExpireTurn(i: Sid, woken: seq<nat>)
      requires Valid() && Good(Now()) && phase == Running && Closed(Now())
      modifies this, Parts()
      ensures Valid() && fresh(Parts() - old(Parts()))
      ensures Now() == Expire(old(Now()), i, woken)
    {
      hide Valid, Good, Closed, WakeExpired;
      Outside();
      if owner != i {
        phase := Aborted(NullP);
        return;
      }
      var u := FirstSleeper();
      if u.Some? && uts[u.value].wakeup <= now {
        var k := uts[u.value].wakeup;
        ResumeExpired(i, u.value);
        if phase == Running {
          pcs := pcs[i := Expiring(woken + [k])];
        }
      } else {
        pcs := pcs[i := Passing(if ready == [] then None else Some(ready[|ready| - 1]), ready, [])];
      }
    }

    /** RB_MIN on the sleeping tree. */
    method FirstSleeper() returns (first: Option<Id>)
      requires Valid()
      ensures first.None? <==> sleeping == map[]
      ensures first.Some? ==> first.value in uts && IsMin(sleeping, uts[first.value].wakeup) && InSleep(Now(), first.value)
      ensures first.Some? ==> sleeping != map[] && MinKey(sleeping) == uts[first.value].wakeup
    {
      hide EntryTree.Valid, TimerSet.Valid;
      first := sleep.Min();
      if first.Some? {
        sleep.SeeEntries();
        assert uts[first.value].wakeup in sleeping;
        assert IsMin(sleeping, uts[first.value].wakeup);
        assert IsMin(sleeping, MinKey(sleeping));
      }
    }

    /** The body of that loop, for a coroutine whose time has come. */
    method ResumeExpired(i: Sid, u: Id)
      requires Valid() && Good(Now()) && phase == Running && Closed(Now()) && u in uts
      modifies this, Parts()
      ensures Valid() && fresh(Parts() - old(Parts()))
      ensures Now() == WakeExpired(old(Now()), i, u) && pcs == old(pcs)
    {
      hide Valid, Good, Closed, SleepersLinked, SchedState.CancelEvent, SchedState.DeschedSleep, Dispatch;
      TreesFit(Now());
      CanCancel(Now(), u);
      CancelEvent(u);
      if phase == Running {
        DeschedSleep(u);
        SetStatus(u, uts[u].status + {EXPIRED});
        Resume(i, u);
      }
    }

    /** handle_event up to the switch. */
    method HandleEvent(i: Sid, pc: Pc)
      requires Valid() && Good(Now()) && phase == Running && Closed(Now()) && pc.Handling?
      modifies this, Parts()
      ensures Valid() && fresh(Parts() - old(Parts()))
      ensures Now() == SchedState.HandleEvent(old(Now()), i, pc)
    {
      hide Valid, Good, Closed, SleepersLinked, SchedState.DeschedEvent, Dispatch, FdKey, FdOnly;
      Outside();
      if owner != i {
        phase := Aborted(NullP);
        return;
      }
      TreesFit(Now());
      var found := DeschedEvent(FdKey(pc.fd, pc.ev));
      if found.Some? {
        WakeWaiter(i, found.value, pc);
      }
      if phase == Running {
        pcs := pcs[i := if pc.ev == RD then pc.(ev := WR) else Draining(pc.events)];
      }
    }

    /** The part of handle_event for a coroutine that was found. */
    method WakeWaiter(i: Sid, u: Id, pc: Pc)
      requires Valid() && pc.Handling? && u in uts && u !in wait.bound.Values && phase == Running
      modifies this, Parts()
      ensures Valid() && fresh(Parts() - old(Parts())) && pcs == old(pcs)
      ensures phase == Running <==> pc.fd == FdOnly(old(uts)[u].fdWait) && pc.fd in old(epoll)
      ensures var s := old(Now()); var t := s.uts[u];
        Now() ==
          if pc.fd != FdOnly(t.fdWait) then Abort(s, FdMismatch)
          else if pc.fd !in s.epoll then Abort(s, DelFailed)
          else
            var t' := t.(status := ClearWaitBit(t.status) + if pc.eof then {FDEOF} else {});
            Dispatch(SchedState.SetUt(s, u, t').(epoll := s.epoll - {pc.fd}), i, u)
    {
      hide Valid, Dispatch, FdOnly, ClearWaitBit;
      Outside();
      if pc.fd != FdOnly(uts[u].fdWait) {
        phase := Aborted(FdMismatch);
        return;
      }
      if pc.fd !in epoll {
        phase := Aborted(DelFailed);
        return;
      }
      MarkReady(u, pc.eof);
      epoll := epoll - {pc.fd};
      Resume(i, u);
    }

    method MarkReady(u: Id, eof: bool)
      requires Valid() && u in uts
      modifies `uts
      ensures Valid()
      ensures uts == old(uts)[u := old(uts)[u].(status := ClearWaitBit(old(uts)[u].status) + if eof then {FDEOF} else {})]
    {
      hide Valid, ClearWaitBit;
      ClearWait(u);
      if eof {
        SetStatus(u, uts[u].status + {FDEOF});
      } else {
        assert uts[u].status == uts[u].status + {};
      }
    }

    // --------------------------------------------------------- _sched_run

    /** The ready loop up to the switch. */
    method PassTurn(i: Sid, pc: Pc)
      requires Valid() && Good(Now()) && phase == Running && Closed(Now()) && pc.Passing?
      modifies this, Parts()
      ensures Valid() && fresh(Parts() - old(Parts()))
      ensures Now() == PassOn(old(Now()), i, pc)
    {
      hide Valid, Good, Dispatch;
      Outside();
      if owner != i {
        phase := Aborted(NullP);
      } else if ready == [] {
        pcs := pcs[i := Polling];
      } else {
        var u := ready[0];
        ReadyUnlinked(Now(), u);
        ready := ready[1..];
        Resume(i, u);
        pcs := pcs[i := pc.(done := pc.done + [u])];
      }
    }

    /** _uthread_poll */
    method PollTurn(i: Sid, events: seq<(int, bool)>)
      requires Valid()
      modifies `phase, `pcs
      ensures Valid() && Now() == Poll(old(Now()), i, events)
    {
      hide Valid;
      Outside();
      if owner != i {
        phase := Aborted(NullP);
        return;
      }
      var u := FirstSleeper();
      var due := u.Some? && uts[u.value].wakeup <= now;
      pcs := pcs[i := Draining(if !due && ready == [] then events else [])];
    }

    /** The code of scheduler `i` from where it stands. */
    method SchedTurn(i: Sid, events: seq<(int, bool)>)
      requires Valid() && Good(Now()) && phase == Running && Closed(Now()) && i in pcs
      modifies this, Parts()
      ensures Valid() && fresh(Parts() - old(Parts()))
      ensures Now() == SchedStep(old(Now()), i, events)
    {
      hide Valid, Good, Closed, Expire, PassOn, Poll, SchedState.HandleEvent;
      Outside();
      match pcs[i]
      case Unused =>
      case Starting =>
        tid := i;
        pcs := pcs[i := LoopTop];
      case LoopTop => LoopTopTurn(i);
      case Expiring(woken) => ExpireTurn(i, woken);
      case Passing(_, _, _) => PassTurn(i, pcs[i]);
      case Polling => PollTurn(i, events);
      case Draining(list) =>
        if owner != i || list == [] {
          pcs := pcs[i := LoopTop];
        } else {
          var (fd, eof) := list[|list| - 1];
          pcs := pcs[i := Handling(fd, RD, eof, list[..|list| - 1])];
        }
      case Handling(_, _, _, _) => HandleEvent(i, pcs[i]);
    }

    /** The test of the outer loop, and the way out of it. */
    method LoopTopTurn(i: Sid)
      requires Valid()
      modifies `phase, `pcs
      ensures Valid()
      ensures var s := old(Now());
        Now() == if owner == i && !WorkDone(s) then s.(pcs := s.pcs[i := Expiring([])])
                 else if live == 0 then s.(phase := Finished) else s
    {
      hide Valid;
      Outside();
      var done := NoWork();
      if owner == i && !done {
        pcs := pcs[i := Expiring([])];
      } else if live == 0 {
        phase := Finished;
      }
    }

    /** _sched_work_done */
    method NoWork() returns (done: bool)
      requires Valid()
      ensures done == WorkDone(Now())
    {
      hide EntryTree.Valid, TimerSet.Valid, Keyed;
      var first := sleep.Min();
      var waiter := wait.Min();
      done := ready == [] && first.None? && waiter.None?;
    }

    // ------------------------------------------------------------ uthread.c

    /** The tests of the ready loop once a coroutine has come back. */
    method AfterPass(i: Sid, u: Id)
      requires Valid() && i in pcs
      modifies `pcs
      ensures Valid() && Now() == SchedState.AfterPass(old(Now()), i, u)
    {
      hide Valid;
      Outside();
      if pcs[i].Passing? {
        if owner != i {
          pcs := pcs[i := LoopTop];
        } else if pcs[i].last == Some(u) {
          pcs := pcs[i := Polling];
        }
      }
    }

    /** The end of an exited coroutine: its joiner wakes, the count goes down. */
    method Finish(u: Id)
      requires Valid() && SleepersLinked(Now()) && u in uts
      modifies this, Parts()
      ensures Valid() && Parts() == old(Parts()) && pcs == old(pcs)
      ensures Now() == SchedState.Finish(old(Now()), u)
    {
      hide Valid, SchedState.DeschedSleep;
      Outside();
      var joiner := uts[u].joined;
      if joiner.Some? && joiner.value in uts {
        DeschedSleep(joiner.value);
        ready := ready + [joiner.value];
      }
      live := if live == 0 then 0 else live - 1;
    }

    /** _uthread_yield, and _uthread_resume after the switch. */
    method SwitchBack(i: Sid, u: Id)
      requires Valid() && SleepersLinked(Now()) && i in pcs && u in uts
      modifies this, Parts()
      ensures Valid() && Parts() == old(Parts())
      ensures Now() == SchedState.SwitchBack(old(Now()), i, u)
    {
      hide Valid, SleepersLinked, SchedState.AfterPass, SchedState.Finish;
      Outside();
      SetUt(u, uts[u].(armed := false));
      cur := cur - {i};
      FlagKeeps(old(Now()), Now(), u);
      if EXITED in uts[u].status {
        Finish(u);
        AfterPass(i, u);
      } else if SLEEPING in uts[u].status {
        AfterPass(i, u);
      } else if owner != i {
        phase := Aborted(NullP);
      } else {
        ready := ready + [u];
        AfterPass(i, u);
      }
    }

    /** _uthread_sched_sleep up to the switch. */
    method SchedSleep(i: Sid, u: Id, msecs: nat, cont: Cont)
      requires Valid() && SleepersLinked(Now()) && i in pcs && u in uts && u !in sleeping.Values
      modifies this, Parts()
      ensures Valid() && Parts() == old(Parts())
      ensures Now() == SchedState.SchedSleep(old(Now()), i, u, msecs, cont)
    {
      hide Valid, SleepersLinked, SchedState.SwitchBack, Deadline;
      Outside();
      var k := Deadline(now, msecs);
      SetWakeup(u, k);
      SetUt(u, uts[u].(cont := cont));
      ghost var t := uts[u];
      assert uts == old(uts)[u := t];
      var ok := FallAsleep(u);
      if !ok {
        phase := Aborted(SameDeadline);
        return;
      }
      assert uts == old(uts)[u := t.(status := t.status + {SLEEPING})];
      SleepKeeps(old(Now()), Now(), u, k);
      SwitchBack(i, u);
    }

    /** The insert into the sleeping tree, and the bit that says so. */
    method FallAsleep(u: Id) returns (ok: bool)
      requires Valid() && u in uts
      modifies this, Parts()
      ensures Valid() && Parts() == old(Parts())
      ensures var t := old(uts)[u];
        && ok == (t.wakeup !in old(sleeping))
        && Now() == if !ok then old(Now()) else old(Now()).(
             sleeping := old(sleeping)[t.wakeup := u], uts := old(uts)[u := t.(status := t.status + {SLEEPING})])
    {
      hide Valid;
      ok := LinkSleeper(u);
      if ok {
        SetStatus(u, uts[u].status + {SLEEPING});
      }
    }

    /** The status bit, the key and the unchecked insert of _register_event. */
    method AddWaiter(u: Id, key: int, bit: St)
      requires Valid() && u in uts && u !in wait.bound.Values
      modifies this, Parts()
      ensures Valid() && Parts() == old(Parts())
      ensures var t := old(uts)[u];
        Now() == old(Now()).(
          uts := old(uts)[u := t.(status := t.status + {bit}, fdWait := key)],
          waiting := if key in old(wait.bound) then old(wait.bound) else old(wait.bound)[key := u])
    {
      hide EntryTree.Valid, TimerSet.Valid, Keyed;
      SetStatus(u, uts[u].status + {bit});
      SetFdWait(u, key);
      SeeEntries(u);
      var _ := wait.Insert(u);
    }

    /** _register_event up to the switch. */
    method RegisterEvent(i: Sid, u: Id, fd: int, ev: Event, msecs: nat)
      requires Valid() && SleepersLinked(Now()) && i in pcs && u in uts
      requires u !in sleeping.Values && u !in wait.bound.Values && SLEEPING !in uts[u].status
      modifies this, Parts()
      ensures Valid() && Parts() == old(Parts())
      ensures Now() == Register(old(Now()), i, u, fd, ev, msecs)
    {
      hide Valid, SleepersLinked, SchedState.SchedSleep, FdKey;
      Outside();
      if owner != i {
        phase := Aborted(NullP);
        return;
      }
      if fd < 0 || fd in epoll {
        phase := Aborted(AddFailed);
        return;
      }
      epoll := epoll + {fd};
      AddWaiter(u, FdKey(fd, ev), if ev == RD then WAIT_RD else WAIT_WR);
      WaitKeeps(old(Now()), Now(), u);
      SchedSleep(i, u, msecs, InWait(fd, ev));
    }

    /** uthread_create */
    method Create(i: Sid, v: Id)
      requires Valid() && v !in uts
      modifies this, Parts()
      ensures Valid() && fresh(Parts() - old(Parts()))
      ensures Now() == SchedState.Create(old(Now()), i, v)
    {
      hide Valid;
      Outside();
      if owner != i {
        phase := Aborted(NullP);
        return;
      }
      live := live + 1;
      AddUthread(v, NEW);
      ready := ready + [v];
    }

    /** uthread_join up to the switch; the result is false for the errors. */
    method Join(i: Sid, u: Id, target: Id) returns (ok: bool)
      requires Valid() && SleepersLinked(Now()) && i in pcs && u in uts && target in uts && u !in sleeping.Values
      modifies this, Parts()
      ensures Valid() && Parts() == old(Parts())
      ensures Now() == SchedState.Join(old(Now()), i, u, target)
      ensures ok == (u != target && DETACHED !in old(uts)[target].status && old(uts)[target].joined.None?)
    {
      hide Valid, SleepersLinked, SchedState.SchedSleep;
      if u == target {
        return false;
      }
      if DETACHED in uts[target].status || uts[target].joined.Some? {
        return false;
      }
      if EXITED in uts[target].status {
        return true;
      }
      SetUt(target, uts[target].(joined := Some(u)));
      FlagKeeps(old(Now()), Now(), target);
      SchedSleep(i, u, 10000, InJoin(target));
      return true;
    }

    /** The hand-off of p in pthread_disk_read and pthread_disk_write. */
    method HandOff(i: Sid, u: Id)
      requires Valid() && u in uts
      modifies this, Parts()
      ensures Valid() && Parts() == old(Parts())
      ensures Now() == SchedState.HandOff(old(Now()), i, u)
    {
      hide Valid;
      Outside();
      SetUt(u, uts[u].(armed := false));
      if owner == i && ready != [] {
        if idle == [] {
          phase := Aborted(NoIdleSched);
          return;
        }
        var j := idle[0];
        idle := idle[1..];
        owner := j;
        pcs := pcs[j := Starting];
      }
    }

    // ------------------------------------------------------------- the trees

    /** The two trees of p: red-black trees, sorted, that hold exactly the
        sleeping and the fd-waiting coroutines under their key fields. */
    ghost predicate TreesInOrder()
      reads this, sleep, wait, sleep.head, wait.head, sleep.head.Repr, wait.head.Repr
    {
      && sleep.head.Valid() && wait.head.Valid() && sleep.head.Repr !! wait.head.Repr
      && Sorted(sleep.head.Contents()) && Sorted(wait.head.Contents())
      && (forall u, k :: (k in sleeping && sleeping[k] == u) <==>
            u in sleep.entry && u in uts && uts[u].wakeup == k && Entry(sleep.entry[u], k) in sleep.head.Contents())
      && (forall u, k :: (k in wait.bound && wait.bound[k] == u) <==>
            u in wait.entry && u in uts && uts[u].fdWait == k && Entry(wait.entry[u], k) in wait.head.Contents())
    }

    lemma InOrder()
      requires Valid()
      ensures TreesInOrder()
    {
      hide EntryTree.Valid, TimerSet.Valid;
      sleep.SeeTree();
      wait.SeeTree();
      sleep.SeeEntries();
      wait.SeeEntries();
    }

    // ---------------------------------------------------------------- steps

    /** tick, with what it means for the history of the coroutines. */
    method Tick()
      requires Valid()
      modifies this, Parts()
      ensures Valid() && Parts() == old(Parts())
      ensures Now() == SchedState.Tick(old(Now()))
    {
      hide EntryTree.Valid, TimerSet.Valid, TickAll, Keyed, Aged, Signals;
      var armed := set u | u in uts && uts[u].armed;
      var signals := timers.Tick(armed);
      KeyedAged(uts, sleep.keys, wait.keys, signals);
      AgedIsTick(old(Now()), signals);
      uts := Aged(uts, signals);
    }

    /** What the coroutine `u`, running on scheduler `i`, does. */
    method UserTurn(i: Sid, u: Id, a: Action)
      requires Valid() && Good(Now()) && phase == Running && i in cur && cur[i] == u && i in pcs && u in uts
      modifies this, Parts()
      ensures Valid() && fresh(Parts() - old(Parts()))
      ensures Now() == UserStep(old(Now()), i, u, a)
    {
      hide Valid, Good, SleepersLinked, SchedState.SwitchBack, SchedState.Create, SchedState.Join, Register, SchedState.HandOff;
      TreesFit(Now());
      CurUnlinked(Now(), i);
      match a
      case DoYield(_) => SwitchBack(i, u);
      case DoExit(_) => Exit(i, u);
      case DoCreate(_, v) =>
        if v !in uts {
          Create(i, v);
        }
      case DoJoin(_, target) =>
        if target in uts {
          var _ := Join(i, u, target);
        }
      case DoDetach(_, target) =>
        if target in uts {
          SetStatus(target, uts[target].status + {DETACHED});
        }
      case DoRegister(_, fd, ev, msecs) => RegisterEvent(i, u, fd, ev, msecs);
      case DoHandOff(_) => HandOff(i, u);
      case _ =>
    }

    /** uthread_exit, and main_end */
    method Exit(i: Sid, u: Id)
      requires Valid() && SleepersLinked(Now()) && i in pcs && u in uts && SLEEPING !in uts[u].status
      modifies this, Parts()
      ensures Valid() && Parts() == old(Parts())
      ensures Now() == SchedSteps.Exit(old(Now()), i, u)
    {
      hide Valid, SleepersLinked, SchedState.SwitchBack;
      SetStatus(u, uts[u].status + {EXITED});
      WaitKeeps(old(Now()), Now(), u);
      SwitchBack(i, u);
    }

    /** Any action, done by the code, is a step of the state machine, and leaves
        the trees and the wheel in order. */
    method Perform(a: Action)
      requires Valid() && (phase == Running ==> Good(Now()) && Closed(Now()))
      modifies this, Parts()
      ensures Valid() && fresh(Parts() - old(Parts()))
      ensures Now() == Step(old(Now()), a)
    {
      hide Valid, Good, SchedStep, UserStep, SchedState.Tick;
      Outside();
      if phase == Running {
        match a
        case DoTick => Tick();
        case DoClock(to) =>
          if now <= to {
            now := to;
          }
        case Sched(i, events) =>
          if i in pcs && i !in cur {
            SchedTurn(i, events);
          }
        case _ =>
          if a.i in cur {
            UserTurn(a.i, cur[a.i], a);
          }
      }
    }
  }

  /** For every run: the code, started afresh and given the actions of the run,
      ends in the state of the run, with both trees of p in order. */
  method Execute(r: Run) returns (rt: Runtime)
    requires IsRun(r)
    ensures rt.Valid() && rt.Now() == r.states[|r.acts|] && rt.TreesInOrder()
  {
    hide Runtime.Valid, Good, Closed, Step;
    rt := new Runtime();
    var k := 0;
    while k < |r.acts|
      invariant k <= |r.acts| && rt.Valid() && fresh(rt) && fresh(rt.Parts()) && rt.Now() == r.states[k]
    {
      Invariant(r, k);
      Stepped(r, k);
      rt.Perform(r.acts[k]);
      k := k + 1;
    }
    rt.InOrder();
  }

  /** A status bit other than SLEEPING is no matter of the trees. */
  lemma BitKeeps(s: State, u: Id, status: set<St>, epoll: set<int>)
    requires Closed(s) && SleepersLinked(s) && u in s.uts && (SLEEPING in status ==> SLEEPING in s.uts[u].status)
    ensures var s' := s.(uts := s.uts[u := s.uts[u].(status := status)], epoll := epoll); Closed(s') && SleepersLinked(s')
  {
  }

  lemma TreesFit(s: State)
    requires Good(s)
    ensures SleepersLinked(s)
  {
    hide WaitTree, Interest, Joins, Places, Counted, Control;
  }

  lemma CanCancel(s: State, u: Id)
    requires Good(s) && u in s.uts
    ensures Cancellable(s, u)
  {
    hide SleepTree, Joins, Places, Counted, Control, FdEvent, FdKey;
    if WaitsFd(s.uts[u]) {
      WaiterFacts(s, u);
    }
  }

  /** A coroutine that does not sleep is in neither tree. */
  lemma AwakeUnlinked(s: State, u: Id)
    requires Good(s) && u in s.uts && SLEEPING !in s.uts[u].status
    ensures u !in s.sleeping.Values && u !in s.waiting.Values
  {
    hide Interest, Joins, Places, Counted, Control;
    if u in s.waiting.Values {
      HasKey(s.waiting, u);
    }
  }

  lemma ReadyUnlinked(s: State, u: Id)
    requires Good(s) && u in s.ready && u in s.uts
    ensures u !in s.waiting.Values
  {
    hide SleepTree, WaitTree, Interest, Joins, Places, Counted, Control;
    ReadyAwake(s, u);
    AwakeUnlinked(s, u);
  }

  /** What `u` does with fields that are no matter of the trees. */
  lemma FlagKeeps(s: State, s': State, u: Id)
    requires SleepersLinked(s) && u in s.uts && u in s'.uts && s'.sleeping == s.sleeping && s'.uts == s.uts[u := s'.uts[u]]
    requires s'.uts[u].wakeup == s.uts[u].wakeup && s'.uts[u].status == s.uts[u].status
    ensures SleepersLinked(s')
  {
    forall v | v in s'.uts && SLEEPING in s'.uts[v].status ensures InSleep(s', v) { assert InSleep(s, v); }
  }

  /** What `u` does while it is awake. */
  lemma WaitKeeps(s: State, s': State, u: Id)
    requires SleepersLinked(s) && u in s.uts && u in s'.uts && s'.sleeping == s.sleeping && s'.uts == s.uts[u := s'.uts[u]]
    requires SLEEPING !in s'.uts[u].status
    ensures SleepersLinked(s')
  {
    forall v | v in s'.uts && SLEEPING in s'.uts[v].status ensures InSleep(s', v) { assert InSleep(s, v); }
  }

  lemma SleepKeeps(s: State, s': State, u: Id, k: nat)
    requires SleepersLinked(s) && u in s.uts && k !in s.sleeping && u in s'.uts && s'.uts[u].wakeup == k
    requires s'.sleeping == s.sleeping[k := u] && s'.uts.Keys == s.uts.Keys
    requires forall v :: v in s.uts && v != u ==> s'.uts[v] == s.uts[v]
    ensures SleepersLinked(s')
  {
    forall v | v in s'.uts && SLEEPING in s'.uts[v].status ensures InSleep(s', v) {
      if v != u { assert InSleep(s, v); }
    }
  }

  lemma CurUnlinked(s: State, i: Sid)
    requires Good(s) && i in s.cur && s.cur[i] in s.uts
    ensures SLEEPING !in s.uts[s.cur[i]].status && s.cur[i] !in s.sleeping.Values && s.cur[i] !in s.waiting.Values
  {
    hide Core, Control;
    RunsOnFacts(s, i);
    AwakeUnlinked(s, s.cur[i]);
  }

  /** An fd waiter in both trees, or a coroutine whose fd is not watched. */
  ghost predicate Cancellable(s: State, u: Id)
    requires u in s.uts
  {
    var key := s.uts[u].fdWait;
    FdOnly(key) !in s.epoll
    || (key >= 0 && FdOnly(key) * WIDTH + FdEvent(key) == key && key in s.waiting && s.waiting[key] == u)
  }
}
