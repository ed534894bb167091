/** Every step of the runtime has one of the effects of SchedCore and
    SchedControl, so the invariant holds in every state of every run. */
module SchedSteps {
  import opened Wrappers
  import opened FdKeys
  import opened Countdowns
  import opened SchedState
  import opened SchedCore
  import opened SchedControl

  ghost predicate Inv(s: State) { Core(s) && Control(s) }

  /** The process ends by exit(0) only when the live count is zero. */
  ghost predicate Good(s: State) { Inv(s) && (s.phase == Finished ==> s.live == 0) }

  lemma CoreClosed(s: State)
    requires Core(s)
    ensures Closed(s)
  {
    forall u | u in s.ready ensures u in s.uts {
      assert u in ReadySet(s) && u in LiveSet(s);
    }
  }

  // ------------------------------------------------------------ switching in

  /** The status of a coroutine that goes on: a new one starts afresh, one that
      comes out of a sleep clears the bits of its sleep. */
  ghost function ResumedStatus(t: Ut): set<St> {
    if NEW in t.status then {READY}
    else if t.cont.InWait? then t.status - {SLEEPING, if t.cont.ev == RD then WAIT_RD else WAIT_WR}
    else t.status - {SLEEPING}
  }

  /** A finished target forgets a joiner that comes back with a timeout noted. */
  ghost predicate Forgets(t: Ut, v: Id) { t.cont == InJoin(v) && EXPIRED in t.status && NEW !in t.status }

  /** All coroutines after a switch to `u`, which is `t` just before. */
  ghost predicate Resumed(s: State, s': State, u: Id, t: Ut) {
    && s'.uts.Keys == s.uts.Keys && u in s.uts
    && s'.uts[u] == Ut(ResumedStatus(t), t.wakeup, -1, t.joined, true, Plain, 0, false)
    && forall v :: v in s.uts && v != u ==> s'.uts[v] == if Forgets(t, v) then s.uts[v].(joined := None) else s.uts[v]
  }

  /** What a switch to `u` does to the coroutines and to the rest of the state. */
  lemma DispatchEffect(s: State, i: Sid, u: Id)
    requires u in s.uts && !Sleeps(s.uts[u]) && !Gone(s.uts[u])
    requires s.uts[u].cont.InWait? || s.uts[u].fdWait == -1
    requires s.uts[u].cont.InJoin? ==> s.uts[u].cont.target in s.uts && Gone(s.uts[s.uts[u].cont.target])
    ensures var s' := Dispatch(s, i, u);
      && OnlyUt(s, s', u) && Runs(s.uts[u], s'.uts[u]) && s'.uts[u].armed && s'.uts[u].age == 0 && !s'.uts[u].signalled
      && Resumed(s, s', u, s.uts[u])
      && s' == s.(cur := s.cur[i := u], uts := s'.uts, nextTimer := s.nextTimer + 1,
                  timers := s.timers[s.nextTimer := Countdown(u, 1)])
  {
    var t := s.uts[u];
    if t.cont.InJoin? {
      DispatchJoiner(s, i, u);
    }
  }

  lemma DispatchJoiner(s: State, i: Sid, u: Id)
    requires u in s.uts && !Sleeps(s.uts[u]) && !Gone(s.uts[u]) && s.uts[u].fdWait == -1
    requires s.uts[u].cont.InJoin? && s.uts[u].cont.target in s.uts && Gone(s.uts[s.uts[u].cont.target])
    ensures var s' := Dispatch(s, i, u);
      && OnlyUt(s, s', u) && Runs(s.uts[u], s'.uts[u]) && s'.uts[u].armed && s'.uts[u].age == 0 && !s'.uts[u].signalled
      && Resumed(s, s', u, s.uts[u])
      && s' == s.(cur := s.cur[i := u], uts := s'.uts, nextTimer := s.nextTimer + 1,
                  timers := s.timers[s.nextTimer := Countdown(u, 1)])
  {
    var x := s.uts[u].cont.target;
    assert x != u;
  }

  lemma PassOnEffect(s: State, i: Sid, pc: Pc)
    requires Core(s) && i in s.pcs && i !in s.cur && pc.Passing? && Bound(s, i) && s.ready != [] && Closed(s)
    ensures var u, s' := s.ready[0], PassOn(s, i, pc);
      && s'.phase == s.phase && FromReady(s, s', i, u) && SwitchedTo(s, s', i, u, pc.(done := pc.done + [u]))
      && Resumed(s, s', u, s.uts[u])
  {
    hide Places, SleepTree, Interest, Dispatch;
    var u := s.ready[0];
    ReadyAwake(s, u);
    CurInPcs(s);
    DispatchEffect(s.(ready := s.ready[1..]), i, u);
  }

  lemma CurInPcs(s: State)
    requires Places(s)
    ensures s.cur.Keys <= s.pcs.Keys
  {
  }

  /** The waiting tree's entry for an fd and an event. */
  lemma WaiterFacts(s: State, u: Id)
    requires Core(s) && u in s.uts && WaitsFd(s.uts[u])
    ensures var t := s.uts[u];
      && t.fdWait == FdKey(t.cont.fd, t.cont.ev) && t.fdWait >= 0 && FdOnly(t.fdWait) == t.cont.fd
      && t.cont.fd * WIDTH + FdEvent(t.fdWait) == t.fdWait
      && t.fdWait in s.waiting && s.waiting[t.fdWait] == u && t.cont.fd in s.epoll && !Gone(t)
  {
    var t := s.uts[u];
    assert KeyOk(t) && Registered(s, u);
    Unpack(t.cont.fd, t.cont.ev);
    assert WaitsOn(s, t.fdWait, t.cont.fd);
    SleeperLives(s, u);
  }

  /** Taking a waiter out of both trees. */
  lemma DeschedEventEffect(s: State, key: int)
    requires key in s.waiting && s.waiting[key] in s.uts && Sleeps(s.uts[s.waiting[key]])
    ensures var u := s.waiting[key]; var t := s.uts[u];
      DeschedEvent(s, key) == s.(uts := s.uts[u := t.(status := t.status - {SLEEPING} + {READY})],
                                 sleeping := s.sleeping - {t.wakeup}, waiting := s.waiting - {key})
  {
  }

  /** A waiter leaves both trees and the interest set and is switched to. */
  lemma WakeEffect(s: State, s1: State, i: Sid, u: Id, pc: Pc)
    requires Core(s) && u in s.uts && WaitsFd(s.uts[u]) && i in s.pcs && i !in s.cur && Bound(s, i) && u in s1.uts
    requires s1 == s.(uts := s.uts[u := s1.uts[u]], sleeping := s.sleeping - {s.uts[u].wakeup},
                      waiting := s.waiting - {s.uts[u].fdWait}, epoll := s.epoll - {s.uts[u].cont.fd})
    requires var a, b := s.uts[u], s1.uts[u];
      !Sleeps(b) && (Gone(a) <==> Gone(b)) && b.cont == a.cont && b.joined == a.joined
    ensures var s' := Dispatch(s1, i, u).(pcs := s.pcs[i := pc]);
      FromWait(s, s', i, u) && SwitchedTo(s, s', i, u, pc) && s'.phase == s.phase && Resumed(s, s', u, s1.uts[u])
  {
    hide Places, SleepTree, WaitTree, Interest, Joins, Counted, Dispatch;
    SleeperLives(s, u);
    CurInPcs(s);
    DispatchEffect(s1, i, u);
  }

  /** A waiter whose event has come, and one whose time is up, before the switch. */
  ghost function Noticed(t: Ut, eof: bool): Ut {
    t.(status := ClearWaitBit(t.status - {SLEEPING} + {READY}) + if eof then {FDEOF} else {})
  }

  ghost function TimedOut(t: Ut): Ut {
    t.(status := ClearWaitBit(t.status) - {SLEEPING} + {READY, EXPIRED}, fdWait := -1)
  }

  /** handle_event finds exactly the coroutine registered for the pair, its fd
      agrees and its EPOLL_CTL_DEL succeeds. */
  lemma HandleEventEffect(s: State, i: Sid, pc: Pc)
    requires Core(s) && i in s.pcs && i !in s.cur && pc.Handling? && Bound(s, i) && Closed(s)
    requires FdKey(pc.fd, pc.ev) in s.waiting
    ensures var u, s' := s.waiting[FdKey(pc.fd, pc.ev)], HandleEvent(s, i, pc);
      && s'.phase == s.phase && FromWait(s, s', i, u) && s.uts[u].cont == InWait(pc.fd, pc.ev)
      && SwitchedTo(s, s', i, u, if pc.ev == RD then pc.(ev := WR) else Draining(pc.events))
      && Resumed(s, s', u, Noticed(s.uts[u], pc.eof))
  {
    hide Places, SleepTree, Interest, Joins, Counted, FdKey, FdOnly, FdEvent, Dispatch, DeschedEvent;
    var key := FdKey(pc.fd, pc.ev);
    var u := s.waiting[key];
    var t := s.uts[u];
    WaiterFacts(s, u);
    KeyOrder(pc.fd, pc.ev, t.cont.fd, t.cont.ev);
    DeschedEventEffect(s, key);
    var s1 := DeschedEvent(s, key);
    var t' := s1.uts[u].(status := ClearWaitBit(s1.uts[u].status) + if pc.eof then {FDEOF} else {});
    WakeEffect(s, SetUt(s1, u, t').(epoll := s.epoll - {pc.fd}), i, u,
               if pc.ev == RD then pc.(ev := WR) else Draining(pc.events));
  }

  /** _uthread_cancel_event on an fd waiter: the EPOLL_CTL_DEL succeeds and the
      coroutine leaves both trees. */
  lemma CancelEventEffect(s: State, u: Id)
    requires Core(s) && Closed(s) && u in s.uts && WaitsFd(s.uts[u])
    ensures var s', t := CancelEvent(s, u), s.uts[u];
      && u in s'.uts && !Sleeps(s'.uts[u]) && (Gone(t) <==> Gone(s'.uts[u]))
      && s'.uts[u] == t.(status := ClearWaitBit(t.status) - {SLEEPING} + {READY}, fdWait := -1)
      && s' == s.(uts := s.uts[u := s'.uts[u]], sleeping := s.sleeping - {t.wakeup},
                  waiting := s.waiting - {t.fdWait}, epoll := s.epoll - {t.cont.fd})
  {
    hide Places, SleepTree, WaitTree, Interest, Joins, Counted, FdKey, FdOnly, FdEvent, DeschedEvent;
    var t := s.uts[u];
    WaiterFacts(s, u);
    var s2 := SetUt(s, u, t.(status := ClearWaitBit(t.status))).(epoll := s.epoll - {t.cont.fd});
    DeschedEventEffect(s2, t.fdWait);
  }

  /** One turn of the expiry sweep: an fd waiter is woken at its deadline; a
      joiner, which waits for no fd, ends the process at the EPOLL_CTL_DEL. */
  lemma ExpireEffect(s: State, i: Sid, woken: seq<nat>)
    requires Core(s) && Closed(s) && i in s.pcs && i !in s.cur && Bound(s, i)
    requires s.sleeping != map[] && MinKey(s.sleeping) <= s.now && s.phase == Running
    ensures var k, s' := MinKey(s.sleeping), Expire(s, i, woken);
      var u := s.sleeping[k];
      && u in s.uts
      && (WaitsFd(s.uts[u]) ==>
            && s'.phase == Running && FromWait(s, s', i, u) && SwitchedTo(s, s', i, u, Expiring(woken + [k]))
            && s.uts[u].wakeup == k && Resumed(s, s', u, TimedOut(s.uts[u])))
      && (!WaitsFd(s.uts[u]) ==> s.uts[u].cont.InJoin? && s'.phase == Aborted(DelFailed))
  {
    hide Places, WaitTree, Interest, Joins, Counted, FdKey, FdEvent, CancelEvent, Dispatch;
    var k := MinKey(s.sleeping);
    var u := s.sleeping[k];
    if WaitsFd(s.uts[u]) {
      CancelEventEffect(s, u);
      var s1 := CancelEvent(s, u);
      assert DeschedSleep(s1, u) == s1;
      WakeEffect(s, SetUt(s1, u, s1.uts[u].(status := s1.uts[u].status + {EXPIRED})), i, u, Expiring(woken + [k]));
    } else {
      JoinerHasNoFd(s, u);
    }
  }

  /** FD_ONLY(-1) is -1, which is never in the interest set. */
  lemma JoinerHasNoFd(s: State, u: Id)
    requires WaitTree(s) && Interest(s) && Closed(s) && u in s.uts && !WaitsFd(s.uts[u])
    ensures CancelEvent(s, u).phase == Aborted(DelFailed)
  {
  }

  // ----------------------------------------------------------- switching back

  ghost predicate Returned(s: State, s': State, i: Sid, u: Id) {
    i in s.pcs && SwitchedBack(s, s', i, u) && GoesOn(s, s', i, u) && s.ready <= s'.ready && s'.phase == s.phase
  }

  /** What a running coroutine is. */
  ghost predicate RunsOn(s: State, i: Sid, u: Id) {
    && i in s.cur && s.cur[i] == u && i in s.pcs && u in s.uts && u !in s.ready
    && !Sleeps(s.uts[u]) && !Gone(s.uts[u]) && s.uts[u].fdWait == -1 && s.uts[u].cont == Plain
  }

  lemma RunsOnFacts(s: State, i: Sid)
    requires Core(s) && i in s.cur
    ensures RunsOn(s, i, s.cur[i])
  {
    CurAwake(s, i, s.cur[i]);
  }

  lemma YieldEffect(s: State, i: Sid, u: Id)
    requires RunsOn(s, i, u)
    ensures var s' := SwitchBack(s, i, u);
      if Bound(s, i) then ToReady(s, s', i, u) && Returned(s, s', i, u) else s'.phase == Aborted(NullP)
  {
  }

  /** A coroutine once it sleeps until `k`. */
  ghost function SleepingUt(t: Ut, k: nat, cont: Cont): Ut {
    t.(wakeup := k, cont := cont, armed := false, status := t.status + {SLEEPING})
  }

  lemma SleepEffect(s: State, s1: State, i: Sid, u: Id, msecs: nat, cont: Cont)
    requires RunsOn(s, i, u) && i in s1.pcs && u in s1.uts && cont != Fresh
    requires s1 == s.(uts := s1.uts, waiting := s1.waiting, epoll := s1.epoll)
    requires !Gone(s1.uts[u]) && s1.uts[u].joined == s.uts[u].joined
    requires s1.uts.Keys == s.uts.Keys && forall v :: v in s.uts && v != u ==> Alike(s.uts[v], s1.uts[v])
    ensures var s', k := SchedSleep(s1, i, u, msecs, cont), Deadline(s.now, msecs);
      if k in s.sleeping then s'.phase == Aborted(SameDeadline)
      else
        && Returned(s, s', i, u) && s'.sleeping == s.sleeping[k := u] && CurOff(s, s', i, u)
        && s'.uts == s1.uts[u := SleepingUt(s1.uts[u], k, cont)]
        && FallsAsleep(s.uts[u], s'.uts[u], k, cont)
        && s'.ready == s.ready && s'.live == s.live && s'.waiting == s1.waiting && s'.epoll == s1.epoll
  {
    hide AfterPass, NextPcs, Deadline;
    var k := Deadline(s.now, msecs);
    if k !in s.sleeping {
      var t := s1.uts[u].(wakeup := k, cont := cont, armed := false, status := s1.uts[u].status + {SLEEPING});
      var s2 := s1.(uts := s1.uts[u := t], cur := s.cur - {i}, sleeping := s.sleeping[k := u]);
      AfterPassIs(s2, i, u);
      SamePcs(s, s2, i, u);
      assert s1.uts[u := t.(armed := s1.uts[u].armed)][u := t] == s1.uts[u := t];
      assert SchedSleep(s1, i, u, msecs, cont) == AfterPass(s2, i, u);
    }
  }

  lemma RegisterEffect(s: State, i: Sid, u: Id, fd: int, ev: Event, msecs: nat)
    requires Core(s) && RunsOn(s, i, u)
    ensures var s', k := Register(s, i, u, fd, ev, msecs), Deadline(s.now, msecs);
      if !Bound(s, i) then s'.phase == Aborted(NullP)
      else if fd < 0 || fd in s.epoll then s'.phase == Aborted(AddFailed)
      else if k in s.sleeping then s'.phase == Aborted(SameDeadline)
      else
        && ToWait(s, s', i, u, k, fd, ev) && Returned(s, s', i, u)
        && s'.uts[u] == SleepingUt(
             s.uts[u].(status := s.uts[u].status + {if ev == RD then WAIT_RD else WAIT_WR}, fdWait := FdKey(fd, ev)), k, InWait(fd, ev))
  {
    hide Core, SchedSleep, FdKey, Deadline;
    if Bound(s, i) && fd >= 0 && fd !in s.epoll {
      FreeKey(s, fd, ev);
      var key := FdKey(fd, ev);
      var t := s.uts[u];
      var t' := t.(status := t.status + {if ev == RD then WAIT_RD else WAIT_WR}, fdWait := key);
      var s1 := SetUt(s, u, t').(epoll := s.epoll + {fd}, waiting := s.waiting[key := u]);
      SleepEffect(s, s1, i, u, msecs, InWait(fd, ev));
    }
  }

  lemma FreeKey(s: State, fd: int, ev: Event)
    requires Core(s) && fd !in s.epoll
    ensures FdKey(fd, ev) !in s.waiting
  {
    KeyFree(s, fd, ev);
  }

  lemma JoinEffect(s: State, i: Sid, u: Id, target: Id)
    requires RunsOn(s, i, u) && target in s.uts
    ensures var s', k, t := Join(s, i, u, target), Deadline(s.now, 10000), s.uts[target];
      if u == target || DETACHED in t.status || t.joined.Some? || EXITED in t.status then s' == s
      else if k in s.sleeping then s'.phase == Aborted(SameDeadline)
      else ToJoin(s, s', i, u, k, target) && Returned(s, s', i, u) && s'.uts[u] == SleepingUt(s.uts[u], k, InJoin(target))
  {
    hide SchedSleep, Deadline;
    var t := s.uts[target];
    if !(u == target || DETACHED in t.status || t.joined.Some? || EXITED in t.status) {
      SleepEffect(s, SetUt(s, target, t.(joined := Some(u))), i, u, 10000, InJoin(target));
    }
  }

  ghost function Exit(s: State, i: Sid, u: Id): State
    requires i in s.pcs && u in s.uts
  {
    SwitchBack(SetUt(s, u, s.uts[u].(status := s.uts[u].status + {EXITED})), i, u)
  }

  lemma ExitAloneEffect(s: State, i: Sid, u: Id)
    requires RunsOn(s, i, u) && s.live > 0 && s.uts[u].joined.None?
    ensures Returned(s, Exit(s, i, u), i, u) && ExitAlone(s, Exit(s, i, u), i, u)
    ensures Exit(s, i, u).uts == s.uts[u := s.uts[u].(status := s.uts[u].status + {EXITED}, armed := false)]
  {
    hide AfterPass, NextPcs;
    var t := s.uts[u].(status := s.uts[u].status + {EXITED}, armed := false);
    var s2 := s.(uts := s.uts[u := t], cur := s.cur - {i}, live := s.live - 1);
    AfterPassIs(s2, i, u);
    SamePcs(s, s2, i, u);
    assert s.uts[u := t.(armed := s.uts[u].armed)][u := t] == s.uts[u := t];
    assert Exit(s, i, u) == AfterPass(s2, i, u);
  }

  /** The state after the end of a target with the joiner `j`. */
  ghost function ExitWaking(s: State, i: Sid, u: Id, j: Id): State
    requires u in s.uts && j in s.uts && s.live > 0 && i in s.pcs
  {
    var t := s.uts[u].(status := s.uts[u].status + {EXITED}, armed := false);
    var t' := s.uts[j].(status := s.uts[j].status - {SLEEPING} + {READY});
    s.(uts := s.uts[u := t][j := t'], cur := s.cur - {i}, live := s.live - 1, pcs := NextPcs(s, i, u),
       sleeping := s.sleeping - {s.uts[j].wakeup}, ready := s.ready + [j])
  }

  lemma ExitIsWaking(s: State, i: Sid, u: Id, j: Id)
    requires RunsOn(s, i, u) && s.live > 0 && s.uts[u].joined == Some(j) && j in s.uts && Sleeps(s.uts[j])
    ensures Exit(s, i, u) == ExitWaking(s, i, u, j)
  {
    hide AfterPass, NextPcs;
    var s2 := ExitWaking(s, i, u, j).(pcs := s.pcs);
    AfterPassIs(s2, i, u);
    SamePcs(s, s2, i, u);
    var t := s.uts[u].(status := s.uts[u].status + {EXITED}, armed := false);
    assert s.uts[u := t.(armed := s.uts[u].armed)][u := t] == s.uts[u := t];
    assert Exit(s, i, u) == AfterPass(s2, i, u);
  }

  lemma ExitJoinedEffect(s: State, i: Sid, u: Id, j: Id)
    requires RunsOn(s, i, u) && s.live > 0 && s.uts[u].joined == Some(j) && j in s.uts && JoinsOn(s.uts[j], u)
    ensures Returned(s, Exit(s, i, u), i, u) && ExitJoined(s, Exit(s, i, u), i, u, j)
  {
    hide NextPcs, Exit;
    ExitIsWaking(s, i, u, j);
    SamePcs(s, s, i, u);
  }

  lemma AfterPassIs(s: State, i: Sid, u: Id)
    requires i in s.pcs
    ensures AfterPass(s, i, u) == s.(pcs := NextPcs(s, i, u))
  {
  }

  lemma SamePcs(s: State, s': State, i: Sid, u: Id)
    requires i in s.pcs && s'.pcs == s.pcs && s'.owner == s.owner
    ensures NextPcs(s', i, u) == NextPcs(s, i, u) && s.pcs.Keys <= NextPcs(s, i, u).Keys
  {
  }

  lemma LivePositive(s: State, u: Id)
    requires Counted(s) && u in s.uts && !Gone(s.uts[u])
    ensures s.live > 0
  {
    assert u in LiveSet(s);
  }

  // ------------------------------------------------------------ the invariant

  lemma BackControl(s: State, s': State, i: Sid, u: Id)
    requires Inv(s) && Returned(s, s', i, u) && (forall k :: k in s'.sleeping ==> k in s.sleeping || s.now <= k)
    ensures Control(s')
  {
    hide SleepTree, WaitTree, Interest, Joins, Counted, Owned, Targets, Preempts, Passes, Sweeps, SwitchedBack, GoesOn, Injective;
    BackOwned(s, s', i, u);
    BackTargets(s, s', i, u);
    BackPasses(s, s', i, u);
    BackSweeps(s, s', i, u);
  }

  lemma UserInv(s: State, i: Sid, u: Id, a: Action)
    requires Inv(s) && s.phase == Running && i in s.cur && s.cur[i] == u && i in s.pcs && u in s.uts
    ensures !UserStep(s, i, u, a).phase.Aborted? ==> Good(UserStep(s, i, u, a))
  {
    hide Core, Control, SwitchBack, Register, Join, Create, HandOff;
    RunsOnFacts(s, i);
    var s' := UserStep(s, i, u, a);
    match a
    case DoYield(_) => YieldInv(s, i, u);
    case DoExit(_) => ExitInv(s, i, u);
    case DoCreate(_, v) => if v !in s.uts { CreateInv(s, i, v); }
    case DoJoin(_, target) => if target in s.uts { JoinInv(s, i, u, target); }
    case DoDetach(_, target) => if target in s.uts { DetachInv(s, target); }
    case DoRegister(_, fd, ev, msecs) => RegisterInv(s, i, u, fd, ev, msecs);
    case DoHandOff(_) => HandOffInv(s, i, u);
    case _ =>
  }

  lemma YieldInv(s: State, i: Sid, u: Id)
    requires Inv(s) && s.phase == Running && RunsOn(s, i, u)
    ensures !SwitchBack(s, i, u).phase.Aborted? ==> Good(SwitchBack(s, i, u))
  {
    hide Core, Control, SwitchBack;
    var s' := SwitchBack(s, i, u);
    YieldEffect(s, i, u);
    if Bound(s, i) {
      CoreToReady(s, s', i, u);
      BackControl(s, s', i, u);
    }
  }

  lemma ExitInv(s: State, i: Sid, u: Id)
    requires Inv(s) && s.phase == Running && RunsOn(s, i, u)
    ensures Inv(Exit(s, i, u)) && Exit(s, i, u).phase == Running
  {
    hide SleepTree, WaitTree, Interest, Places, Counted, Control, Exit;
    var s' := Exit(s, i, u);
    LivePositive(s, u);
    if s.uts[u].joined.None? {
      ExitAloneEffect(s, i, u);
      CoreExitAlone(s, s', i, u);
    } else {
      var j := s.uts[u].joined.value;
      JoinerSleeps(s, u, j);
      ExitJoinedEffect(s, i, u, j);
      CoreExitJoined(s, s', i, u, j);
    }
    BackControl(s, s', i, u);
  }

  lemma CreateInv(s: State, i: Sid, v: Id)
    requires Inv(s) && s.phase == Running && v !in s.uts
    ensures !Create(s, i, v).phase.Aborted? ==> Good(Create(s, i, v))
  {
    hide Control, SleepTree, WaitTree, Interest, Joins, Counted;
    if Bound(s, i) {
      var s' := Create(s, i, v);
      CoreCreated(s, s', v);
      ControlCalm(s, s');
    }
  }

  lemma JoinInv(s: State, i: Sid, u: Id, target: Id)
    requires Inv(s) && s.phase == Running && RunsOn(s, i, u) && target in s.uts
    ensures !Join(s, i, u, target).phase.Aborted? ==> Good(Join(s, i, u, target))
  {
    hide Core, Control, Join;
    var s', k := Join(s, i, u, target), Deadline(s.now, 10000);
    JoinEffect(s, i, u, target);
    if s' != s && !s'.phase.Aborted? {
      CoreToJoin(s, s', i, u, k, target);
      BackControl(s, s', i, u);
    }
  }

  lemma RegisterInv(s: State, i: Sid, u: Id, fd: int, ev: Event, msecs: nat)
    requires Inv(s) && s.phase == Running && RunsOn(s, i, u)
    ensures !Register(s, i, u, fd, ev, msecs).phase.Aborted? ==> Good(Register(s, i, u, fd, ev, msecs))
  {
    hide Core, Control, Register, FdKey;
    var s', k := Register(s, i, u, fd, ev, msecs), Deadline(s.now, msecs);
    RegisterEffect(s, i, u, fd, ev, msecs);
    if !s'.phase.Aborted? {
      CoreToWait(s, s', i, u, k, fd, ev);
      BackControl(s, s', i, u);
    }
  }

  lemma DetachInv(s: State, target: Id)
    requires Inv(s) && target in s.uts
    ensures Inv(SetUt(s, target, s.uts[target].(status := s.uts[target].status + {DETACHED})))
  {
    hide Control, SleepTree, WaitTree, Interest, Joins, Counted;
    var s' := SetUt(s, target, s.uts[target].(status := s.uts[target].status + {DETACHED}));
    CoreUnmoved(s, s');
    ControlCalm(s, s');
  }

  lemma HandOffEffect(s: State, i: Sid, u: Id)
    requires RunsOn(s, i, u) && !HandOff(s, i, u).phase.Aborted?
    ensures var s' := HandOff(s, i, u);
      && Unmoved(s, s') && s'.phase == s.phase && (Bound(s, i) && s.ready != [] ==> HandedOff(s, s', i, u))
      && s'.uts == s.uts[u := s.uts[u].(armed := false)]
  {
    hide Unmoved;
    FlagUnmoved(s, HandOff(s, i, u), u);
  }

  lemma FlagUnmoved(s: State, s': State, u: Id)
    requires u in s.uts && s'.uts == s.uts[u := s.uts[u].(armed := false)] && s.pcs.Keys <= s'.pcs.Keys
    requires s' == s.(uts := s'.uts, owner := s'.owner, idle := s'.idle, pcs := s'.pcs)
    ensures Unmoved(s, s')
  {
  }

  lemma HandOffInv(s: State, i: Sid, u: Id)
    requires Inv(s) && s.phase == Running && RunsOn(s, i, u)
    ensures !HandOff(s, i, u).phase.Aborted? ==> Good(HandOff(s, i, u))
  {
    hide Control, Core, HandedOff, Unmoved;
    var s' := HandOff(s, i, u);
    if !s'.phase.Aborted? {
      HandOffEffect(s, i, u);
      CurExist(s);
      CoreUnmoved(s, s');
      if Bound(s, i) && s.ready != [] {
        ControlHandedOff(s, s', i, u);
      } else {
        ControlCalm(s, s');
      }
    }
  }

  lemma SwitchedInv(s: State, s': State, i: Sid, u: Id, pc: Pc)
    requires Inv(s) && i in s.pcs && i !in s.cur && CanRun(s.pcs[i]) && RunsFrom(pc)
    requires SwitchedTo(s, s', i, u, pc) && Core(s') && Passes(s') && Sweeps(s')
    ensures Inv(s')
  {
    hide Core, Owned, Targets, Preempts, Passes, Sweeps, SwitchedTo;
    InOwned(s, s', i, u, pc);
    InTargets(s, s', i, u, pc);
  }

  lemma SchedInv(s: State, i: Sid, events: seq<(int, bool)>)
    requires Inv(s) && s.phase == Running && Closed(s) && i in s.pcs && i !in s.cur
    ensures !SchedStep(s, i, events).phase.Aborted? ==> Good(SchedStep(s, i, events))
  {
    hide Core, Control, Expire, PassOn, HandleEvent, Poll;
    match s.pcs[i]
    case Unused =>
    case Starting => MoveInv(s, i, LoopTop);
    case LoopTop =>
      if Bound(s, i) && !WorkDone(s) {
        MoveInv(s, i, Expiring([]));
      } else {
        PhaseInv(s, Finished);
      }
    case Expiring(woken) => ExpireInv(s, i, woken);
    case Passing(_, _, _) => PassInv(s, i);
    case Polling => PollInv(s, i, events);
    case Draining(list) =>
      if !Bound(s, i) || list == [] {
        MoveInv(s, i, LoopTop);
      } else {
        MoveInv(s, i, Handling(list[|list| - 1].0, RD, list[|list| - 1].1, list[..|list| - 1]));
      }
    case Handling(_, _, _, _) => HandleInv(s, i);
  }

  lemma MoveInv(s: State, i: Sid, pc: Pc)
    requires Inv(s) && i in s.pcs && i !in s.cur && s.pcs[i] != Unused && pc != Unused && pc != Starting && !pc.Passing?
    requires (pc.Expiring? ==> pc.woken == []) && (NeedsP(pc) ==> i == s.owner)
    ensures Inv(s.(pcs := s.pcs[i := pc], tid := if s.pcs[i] == Starting then i else s.tid))
  {
    hide Core, Control;
    var s' := s.(pcs := s.pcs[i := pc], tid := if s.pcs[i] == Starting then i else s.tid);
    CoreUnmoved(s, s');
    ControlMoved(s, s', i, pc);
  }

  lemma PhaseInv(s: State, phase: Phase)
    requires Inv(s)
    ensures Inv(s.(phase := phase))
  {
    hide Core, Control;
    var s' := s.(phase := phase);
    CoreUnmoved(s, s');
    assert forall i :: i in s.cur ==> s.cur[i] in s.uts by { CurExist(s); }
    ControlCalm(s, s');
  }

  lemma CurExist(s: State)
    requires Core(s)
    ensures forall i :: i in s.cur ==> s.cur[i] in s.uts
  {
  }

  lemma ExpireInv(s: State, i: Sid, woken: seq<nat>)
    requires Inv(s) && s.phase == Running && Closed(s) && i in s.pcs && i !in s.cur && s.pcs[i] == Expiring(woken)
    ensures !Expire(s, i, woken).phase.Aborted? ==> Good(Expire(s, i, woken))
  {
    hide SleepTree, WaitTree, Interest, Joins, Counted, Owned, Targets, Preempts, Passes, CancelEvent, Dispatch;
    if Bound(s, i) {
      var s' := Expire(s, i, woken);
      if s.sleeping != map[] && MinKey(s.sleeping) <= s.now {
        var k := MinKey(s.sleeping);
        var u := s.sleeping[k];
        ExpireEffect(s, i, woken);
        if WaitsFd(s.uts[u]) {
          CoreFromWait(s, s', i, u);
          InSweep(s, s', i, u, k, woken);
          SwitchedInv(s, s', i, u, Expiring(woken + [k]));
        }
      } else {
        var pc := Passing(if s.ready == [] then None else Some(s.ready[|s.ready| - 1]), s.ready, []);
        CoreUnmoved(s, s');
        ControlMoved(s, s', i, pc);
      }
    }
  }

  lemma PassInv(s: State, i: Sid)
    requires Inv(s) && s.phase == Running && Closed(s) && i in s.pcs && i !in s.cur && s.pcs[i].Passing?
    ensures !PassOn(s, i, s.pcs[i]).phase.Aborted? ==> Good(PassOn(s, i, s.pcs[i]))
  {
    hide Core, Owned, Targets, Preempts, Passes, Sweeps, Dispatch;
    var pc := s.pcs[i];
    if Bound(s, i) {
      var s' := PassOn(s, i, pc);
      if s.ready == [] {
        MoveInv(s, i, Polling);
      } else {
        var u := s.ready[0];
        PassOnEffect(s, i, pc);
        CoreFromReady(s, s', i, u);
        InPass(s, s', i, pc);
        SwitchedInv(s, s', i, u, pc.(done := pc.done + [u]));
      }
    }
  }

  lemma PollInv(s: State, i: Sid, events: seq<(int, bool)>)
    requires Inv(s) && s.phase == Running && i in s.pcs && i !in s.cur && s.pcs[i] == Polling
    ensures !Poll(s, i, events).phase.Aborted? ==> Good(Poll(s, i, events))
  {
    hide Core, Control;
    if Bound(s, i) {
      MoveInv(s, i, Poll(s, i, events).pcs[i]);
    }
  }

  lemma HandleInv(s: State, i: Sid)
    requires Inv(s) && s.phase == Running && Closed(s) && i in s.pcs && i !in s.cur && s.pcs[i].Handling?
    ensures !HandleEvent(s, i, s.pcs[i]).phase.Aborted? ==> Good(HandleEvent(s, i, s.pcs[i]))
  {
    hide Core, Owned, Targets, Preempts, Dispatch, FdKey;
    var pc := s.pcs[i];
    var next := if pc.ev == RD then pc.(ev := WR) else Draining(pc.events);
    var key := FdKey(pc.fd, pc.ev);
    if Bound(s, i) {
      var s' := HandleEvent(s, i, pc);
      if key in s.waiting {
        var u := s.waiting[key];
        HandleEventEffect(s, i, pc);
        CoreFromWait(s, s', i, u);
        SwitchedInv(s, s', i, u, next);
      } else {
        MoveInv(s, i, next);
      }
    }
  }

  /** Every step keeps the invariant, or ends the process by a fault. */
  lemma StepInv(s: State, a: Action)
    requires Good(s) && Closed(s)
    ensures !Step(s, a).phase.Aborted? ==> Good(Step(s, a))
  {
    hide Core, Control, UserStep, SchedStep;
    if s.phase == Running {
      match a
      case DoTick => TickInv(s);
      case DoClock(to) => if s.now <= to { ClockInv(s, to); }
      case Sched(i, events) => if i in s.pcs && i !in s.cur { SchedInv(s, i, events); }
      case _ => if a.i in s.cur { UserInv(s, a.i, s.cur[a.i], a); }
    }
  }

  lemma TickInv(s: State)
    requires Inv(s)
    ensures Inv(Tick(s))
  {
    hide Core, Control;
    CurExist(s);
    CoreUnmoved(s, Tick(s));
    ControlTick(s);
  }

  lemma ClockInv(s: State, to: nat)
    requires Inv(s) && s.now <= to
    ensures Inv(s.(now := to))
  {
    hide Core, Control;
    CurExist(s);
    CoreUnmoved(s, s.(now := to));
    ControlCalm(s, s.(now := to));
  }
}
