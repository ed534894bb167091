/** The promises of the runtime, for every run. */
module SchedRuns {
  import opened Wrappers
  import opened FdKeys
  import opened Countdowns
  import opened SchedState
  import opened SchedCore
  import opened SchedControl
  import opened SchedSteps

  lemma InitInv()
    ensures Inv(Init())
  {
    hide SleepTree, WaitTree, Interest, Joins, Places, Counted, Owned, Targets, Preempts, Passes, Sweeps;
    InitPlaces(Init());
    InitTrees(Init());
    InitControl(Init());
  }

  lemma InitTrees(s: State)
    requires s == Init()
    ensures SleepTree(s) && WaitTree(s) && Interest(s) && Joins(s)
  {
  }

  lemma InitControl(s: State)
    requires s == Init()
    ensures Owned(s) && Targets(s) && Preempts(s) && Passes(s) && Sweeps(s)
  {
  }

  lemma InitPlaces(s: State)
    requires s == Init()
    ensures Places(s) && Counted(s)
  {
    assert LiveSet(s) == {0} && ReadySet(s) == {0} && SleepSet(s) == {} && CurSet(s) == {};
  }

  /** A run: any actions at all, each leading from one state to the next. */
  datatype Run = Run(states: seq<State>, acts: seq<Action>)

  ghost predicate IsRun(r: Run) {
    && |r.states| == |r.acts| + 1 && r.states[0] == Init()
    && forall i :: 0 <= i < |r.acts| ==> Follows(r, i)
  }

  /** State i + 1 is what action i makes of state i.  (That every pointer leads
      to a coroutine, which Step asks for, is shown below for every run.) */
  ghost predicate Follows(r: Run, i: nat)
    requires i < |r.acts| && |r.states| == |r.acts| + 1
  {
    (r.states[i].phase == Running ==> Closed(r.states[i])) ==> r.states[i + 1] == Step(r.states[i], r.acts[i])
  }

  /** Every state of every run that has not aborted satisfies the invariant. */
  lemma {:induction false} Invariant(r: Run, n: nat)
    requires IsRun(r) && n < |r.states|
    ensures !r.states[n].phase.Aborted? ==> Good(r.states[n]) && Closed(r.states[n])
    decreases n
  {
    hide Core, Control, Closed, Step;
    if n == 0 {
      InitInv();
      CoreClosed(Init());
    } else {
      assert Follows(r, n - 1);
      Invariant(r, n - 1);
      if !r.states[n - 1].phase.Aborted? {
        StepInv(r.states[n - 1], r.acts[n - 1]);
      } else {
        AbortedStays(r.states[n - 1], r.acts[n - 1]);
      }
      if !r.states[n].phase.Aborted? {
        CoreClosed(r.states[n]);
      }
    }
  }

  /** Each action is a step of the state machine. */
  lemma Stepped(r: Run, n: nat)
    requires IsRun(r) && n < |r.acts|
    ensures r.states[n].phase == Running ==> Closed(r.states[n])
    ensures r.states[n + 1] == Step(r.states[n], r.acts[n])
  {
    hide Closed, Step, Good;
    Invariant(r, n);
    assert Follows(r, n);
  }

  lemma AbortedStays(s: State, a: Action)
    requires s.phase.Aborted?
    ensures Step(s, a) == s
  {
  }

  // ---------------------------------------------------------------- the trees

  /** A coroutine is in the sleeping tree exactly when its SLEEPING bit is set;
      the waiting tree is a subset of it; and the key fields are the keys. */
  lemma TreesAgree(r: Run, n: nat)
    requires IsRun(r) && n < |r.states|
    requires !r.states[n].phase.Aborted?
    ensures var s := r.states[n];
      && (forall u :: u in s.uts ==> (SLEEPING in s.uts[u].status <==> u in s.sleeping.Values))
      && s.waiting.Values <= s.sleeping.Values && s.sleeping.Values <= s.uts.Keys
      && (forall k :: k in s.sleeping ==> s.sleeping[k] in s.uts && s.uts[s.sleeping[k]].wakeup == k)
      && (forall k :: k in s.waiting ==> s.waiting[k] in s.uts && s.uts[s.waiting[k]].fdWait == k)
  {
    hide Control, Interest, Joins, Places, Counted;
    Invariant(r, n);
    var s := r.states[n];
    forall u | u in s.uts ensures SLEEPING in s.uts[u].status <==> u in s.sleeping.Values {
      if Sleeps(s.uts[u]) { assert s.sleeping[s.uts[u].wakeup] == u; }
    }
    forall k | k in s.waiting ensures s.waiting[k] in s.sleeping.Values {
      assert WaitsFd(s.uts[s.waiting[k]]);
    }
  }

  /** The epoll interest set is the set of fds in the waiting tree, each once. */
  lemma InterestAgrees(r: Run, n: nat)
    requires IsRun(r) && n < |r.states|
    requires !r.states[n].phase.Aborted?
    ensures var s := r.states[n];
      && s.epoll == (set k | k in s.waiting :: FdOnly(k))
      && (forall k, k' :: k in s.waiting && k' in s.waiting && FdOnly(k) == FdOnly(k') ==> k == k')
  {
    hide Control, SleepTree, Joins, Counted, FdOnly;
    Invariant(r, n);
    var s := r.states[n];
    forall k | k in s.waiting ensures WaitsOn(s, k, FdOnly(k)) {
      WaiterFacts(s, s.waiting[k]);
    }
    forall fd | fd in s.epoll ensures fd in set k | k in s.waiting :: FdOnly(k) {
      var k :| k in s.waiting && WaitsOn(s, k, fd);
      assert WaitsOn(s, k, FdOnly(k));
    }
  }

  /** The keys of a coroutine do not change while it is in the trees. */
  lemma KeysFixed(r: Run, n: nat, v: Id)
    requires IsRun(r) && n < |r.acts|
    requires r.states[n].phase == Running && !r.states[n + 1].phase.Aborted?
    requires v in r.states[n].uts && SLEEPING in r.states[n].uts[v].status
    ensures var s, s' := r.states[n], r.states[n + 1]; v in s'.uts && SameKeys(s.uts[v], s'.uts[v])
  {
    hide Core, Control, UserStep, SchedStep, Closed;
    Invariant(r, n);
    Stepped(r, n);
    var s := r.states[n];
    var a := r.acts[n];
    match a
    case DoTick =>
    case DoClock(_) =>
    case Sched(i, events) => if i in s.pcs && i !in s.cur { SchedKeys(s, i, events, v); }
    case _ =>
      if a.i in s.cur {
        RunsOnFacts(s, a.i);
        UserKeys(s, a.i, s.cur[a.i], a, v);
      }
  }

  ghost predicate SameKeys(a: Ut, b: Ut) { SLEEPING in b.status ==> b.wakeup == a.wakeup && b.fdWait == a.fdWait }

  lemma UserKeys(s: State, i: Sid, u: Id, a: Action, v: Id)
    requires Inv(s) && s.phase == Running && RunsOn(s, i, u) && v in s.uts && Sleeps(s.uts[v])
    ensures var s' := UserStep(s, i, u, a); !s'.phase.Aborted? ==> v in s'.uts && SameKeys(s.uts[v], s'.uts[v])
  {
    hide Core, Control, SwitchBack, Register, Join, SwitchedBack, GoesOn, CurOff, FdKey, Deadline;
    match a
    case DoYield(_) => YieldEffect(s, i, u);
    case DoExit(_) => ExitKeys(s, i, u, v);
    case DoJoin(_, target) => if target in s.uts { JoinEffect(s, i, u, target); }
    case DoRegister(_, fd, ev, msecs) => RegisterEffect(s, i, u, fd, ev, msecs);
    case _ =>
  }

  lemma ExitKeys(s: State, i: Sid, u: Id, v: Id)
    requires Inv(s) && s.phase == Running && RunsOn(s, i, u) && v in s.uts && Sleeps(s.uts[v])
    ensures var s' := SchedSteps.Exit(s, i, u); v in s'.uts && SameKeys(s.uts[v], s'.uts[v])
  {
    hide Control, SleepTree, WaitTree, Interest, Places, SchedSteps.Exit, SwitchedBack, GoesOn, CurOff;
    LivePositive(s, u);
    if s.uts[u].joined.None? {
      ExitAloneEffect(s, i, u);
    } else {
      JoinerSleeps(s, u, s.uts[u].joined.value);
      ExitJoinedEffect(s, i, u, s.uts[u].joined.value);
    }
  }

  lemma SchedKeys(s: State, i: Sid, events: seq<(int, bool)>, v: Id)
    requires Inv(s) && s.phase == Running && Closed(s) && i in s.pcs && i !in s.cur && v in s.uts && Sleeps(s.uts[v])
    ensures var s' := SchedStep(s, i, events); !s'.phase.Aborted? ==> v in s'.uts && SameKeys(s.uts[v], s'.uts[v])
  {
    hide Inv, Closed, Expire, PassOn, HandleEvent;
    match s.pcs[i]
    case Expiring(woken) => ExpireKeys(s, i, woken, v);
    case Passing(_, _, _) => PassKeys(s, i, v);
    case Handling(_, _, _, _) => HandleKeys(s, i, v);
    case _ =>
  }

  lemma ExpireKeys(s: State, i: Sid, woken: seq<nat>, v: Id)
    requires Inv(s) && s.phase == Running && Closed(s) && i in s.pcs && i !in s.cur && v in s.uts && Sleeps(s.uts[v])
    ensures var s' := Expire(s, i, woken); !s'.phase.Aborted? ==> v in s'.uts && SameKeys(s.uts[v], s'.uts[v])
  {
    hide Core, Control, CancelEvent, Dispatch, SwitchedTo;
    if Bound(s, i) && s.sleeping != map[] && MinKey(s.sleeping) <= s.now { ExpireEffect(s, i, woken); }
  }

  lemma PassKeys(s: State, i: Sid, v: Id)
    requires Inv(s) && s.phase == Running && Closed(s) && i in s.pcs && i !in s.cur && v in s.uts && Sleeps(s.uts[v])
    requires s.pcs[i].Passing?
    ensures var s' := PassOn(s, i, s.pcs[i]); !s'.phase.Aborted? ==> v in s'.uts && SameKeys(s.uts[v], s'.uts[v])
  {
    hide Core, Control, Dispatch, SwitchedTo;
    if Bound(s, i) && s.ready != [] { PassOnEffect(s, i, s.pcs[i]); }
  }

  lemma HandleKeys(s: State, i: Sid, v: Id)
    requires Inv(s) && s.phase == Running && Closed(s) && i in s.pcs && i !in s.cur && v in s.uts && Sleeps(s.uts[v])
    requires s.pcs[i].Handling?
    ensures var s' := HandleEvent(s, i, s.pcs[i]); !s'.phase.Aborted? ==> v in s'.uts && SameKeys(s.uts[v], s'.uts[v])
  {
    hide Core, Control, DeschedEvent, Dispatch, FdKey, SwitchedTo;
    if Bound(s, i) && FdKey(s.pcs[i].fd, s.pcs[i].ev) in s.waiting { HandleEventEffect(s, i, s.pcs[i]); }
  }

  /** An event for a pair takes the one coroutine registered for exactly that
      pair out of both trees and runs it; every other entry stays.  An event for
      a pair nobody waits for changes nothing. */
  lemma EventWakesItsWaiter(r: Run, n: nat)
    requires IsRun(r) && n < |r.acts|
    requires var s := r.states[n];
      && s.phase == Running && s.owner in s.pcs && s.pcs[s.owner].Handling? && s.owner !in s.cur
      && r.acts[n].Sched? && r.acts[n].i == s.owner
    ensures var s, s' := r.states[n], r.states[n + 1]; var i := s.owner; var pc := s.pcs[i];
      var key := FdKey(pc.fd, pc.ev);
      && s'.phase == Running && s'.ready == s.ready
      && (key in s.waiting ==>
            var u := s.waiting[key];
            && u in s.uts && s.uts[u].cont == InWait(pc.fd, pc.ev) && s'.cur == s.cur[i := u]
            && s'.waiting == s.waiting - {key} && s'.sleeping == s.sleeping - {s.uts[u].wakeup}
            && s.uts[u].wakeup in s.sleeping && s.sleeping[s.uts[u].wakeup] == u && s'.epoll == s.epoll - {pc.fd}
            && (forall v :: v in s.uts && v != u ==> v in s'.uts && SameUt(s.uts[v], s'.uts[v])))
      && (key !in s.waiting ==> s' == s.(pcs := s'.pcs))
  {
    hide Core, Control, DeschedEvent, Dispatch, FdKey, SwitchedTo, Resumed, Expire, PassOn, Poll, UserStep, Tick;
    Invariant(r, n);
    Stepped(r, n);
    var s := r.states[n];
    var pc := s.pcs[s.owner];
    var key := FdKey(pc.fd, pc.ev);
    if key in s.waiting {
      HandleEventEffect(s, s.owner, pc);
      WaiterAsleep(s, key);
    }
  }

  lemma WaiterAsleep(s: State, key: int)
    requires Core(s) && key in s.waiting
    ensures var u := s.waiting[key];
      u in s.uts && s.uts[u].fdWait == key && s.uts[u].wakeup in s.sleeping && s.sleeping[s.uts[u].wakeup] == u
  {
    hide Interest, Joins, Places, Counted;
    assert WaitsFd(s.uts[s.waiting[key]]);
  }

  // ------------------------------------------------------------- one place each

  ghost function One(b: bool): nat { if b then 1 else 0 }

  /** Every live coroutine is in exactly one place, once; a finished one in none. */
  lemma OnePlace(r: Run, n: nat, u: Id)
    requires IsRun(r) && n < |r.states|
    requires !r.states[n].phase.Aborted? && u in r.states[n].uts
    ensures var s := r.states[n];
      && One(u in s.ready) + One(u in s.cur.Values) + One(u in s.sleeping.Values)
         == One(EXITED !in s.uts[u].status)
      && (forall i, j :: 0 <= i < |s.ready| && 0 <= j < |s.ready| && s.ready[i] == s.ready[j] ==> i == j)
      && (forall i, j :: i in s.cur && j in s.cur && s.cur[i] == s.cur[j] ==> i == j)
  {
    hide Control, SleepTree, WaitTree, Interest, Joins, Counted;
    Invariant(r, n);
    var s := r.states[n];
    TreesAgree(r, n);
    assert u in ReadySet(s) <==> u in s.ready;
    assert u in SleepSet(s) <==> u in s.sleeping.Values;
    assert u in LiveSet(s) <==> EXITED !in s.uts[u].status;
  }

  // ------------------------------------------------------------------ the end

  /** The live count is the number of coroutines created and not yet exited, and
      exit(0) is reached only when there is none. */
  lemma LiveCount(r: Run, n: nat)
    requires IsRun(r) && n < |r.states|
    requires !r.states[n].phase.Aborted?
    ensures var s := r.states[n];
      && s.live == |set u | u in s.uts && EXITED !in s.uts[u].status|
      && (s.phase == Finished ==> forall u :: u in s.uts ==> EXITED in s.uts[u].status)
  {
    hide Control, SleepTree, WaitTree, Interest, Joins, Places;
    Invariant(r, n);
    var s := r.states[n];
    assert LiveSet(s) == set u | u in s.uts && EXITED !in s.uts[u].status;
    if s.phase == Finished {
      assert LiveSet(s) == {};
      assert forall u :: u in s.uts ==> u in LiveSet(s) || Gone(s.uts[u]);
    }
  }

  /** If nobody runs while coroutines are left, p still has work. */
  lemma NoneStranded(r: Run, n: nat)
    requires IsRun(r) && n < |r.states|
    requires r.states[n].phase == Running && r.states[n].live > 0 && r.states[n].cur == map[]
    ensures var s := r.states[n];
      (s.ready != [] || s.sleeping != map[] || s.waiting != map[]) && s.owner in s.pcs && s.pcs[s.owner] != Unused
  {
    hide SleepTree, WaitTree, Interest, Joins, Targets, Preempts, Passes, Sweeps, Closed;
    Invariant(r, n);
    var s := r.states[n];
    assert LiveSet(s) != {};
    var u :| u in LiveSet(s);
    OnePlace(r, n, u);
    assert s.cur.Values == {};
  }

  /** And then p's owner, at the top of its loop, takes the work up. */
  lemma WorkIsTakenUp(r: Run, n: nat)
    requires IsRun(r) && n < |r.acts|
    requires var s := r.states[n];
      && s.phase == Running && s.live > 0 && s.cur == map[] && s.owner in s.pcs && s.pcs[s.owner] == LoopTop
      && r.acts[n].Sched? && r.acts[n].i == s.owner
    ensures var s := r.states[n]; r.states[n + 1] == s.(pcs := s.pcs[s.owner := Expiring([])])
  {
    hide Good, Closed, Expire, PassOn, HandleEvent, Poll;
    Stepped(r, n);
    NoneStranded(r, n);
  }

  // ------------------------------------------------------------------- signals

  /** Every signal that a tick sends goes to the thread of the scheduler that
      runs the coroutine it is meant for. */
  lemma SignalsHitTheRunner(r: Run, n: nat, u: Id)
    requires IsRun(r) && n < |r.states|
    requires r.states[n].phase == Running && u in Signals(r.states[n])
    ensures var s := r.states[n]; s.tid in s.cur && s.cur[s.tid] == u
  {
    hide Core;
    Invariant(r, n);
    var s := r.states[n];
    var n :| n in s.timers && s.timers[n] == Countdown(u, 0);
    assert s.uts[s.timers[n].ut].cont != Fresh;
  }

  /** A coroutine that keeps running with its flag set has been signalled once
      two ticks have passed since its resume. */
  lemma SignalledByTheSecondTick(r: Run, n: nat, i: Sid)
    requires IsRun(r) && n < |r.states|
    requires var s := r.states[n];
      s.phase == Running && i in s.cur && s.cur[i] in s.uts && s.uts[s.cur[i]].armed && s.uts[s.cur[i]].age >= 2
    ensures var s := r.states[n]; s.uts[s.cur[i]].signalled
  {
    hide Core;
    Invariant(r, n);
    RunsOnFacts(r.states[n], i);
    assert Targets(r.states[n]) && Preempts(r.states[n]);
  }

  // --------------------------------------------------------------------- joins

  /** A live coroutine's joiner sleeps, waits on no fd and is shared by no other
      live coroutine. */
  lemma JoinersSleep(r: Run, n: nat, t: Id)
    requires IsRun(r) && n < |r.states|
    requires !r.states[n].phase.Aborted? && t in r.states[n].uts
    requires EXITED !in r.states[n].uts[t].status && r.states[n].uts[t].joined.Some?
    ensures var s := r.states[n]; var j := s.uts[t].joined.value;
      && j in s.uts && SLEEPING in s.uts[j].status && s.uts[j].fdWait == -1 && j !in s.waiting.Values && j !in s.ready
      && (forall t' :: t' in s.uts && EXITED !in s.uts[t'].status && s.uts[t'].joined == Some(j) ==> t' == t)
  {
    hide Control, SleepTree, Interest, Counted;
    Invariant(r, n);
    var s := r.states[n];
    var j := s.uts[t].joined.value;
    assert JoinsOn(s.uts[j], t) && !WaitsFd(s.uts[j]);
    assert j in SleepSet(s) && j !in ReadySet(s);
    forall k | k in s.waiting ensures s.waiting[k] != j {
      assert WaitsFd(s.uts[s.waiting[k]]);
    }
    forall t' | t' in s.uts && EXITED !in s.uts[t'].status && s.uts[t'].joined == Some(j) ensures t' == t {
      assert JoinsOn(s.uts[j], t');
    }
  }

  /** When a coroutine exits, its joiner, and nobody else, moves from the sleeping
      tree to the end of the ready queue, where it was not before. */
  lemma ExitWakesTheJoiner(r: Run, n: nat, i: Sid)
    requires IsRun(r) && n < |r.acts|
    requires r.states[n].phase == Running && i in r.states[n].cur && r.acts[n] == DoExit(i)
    ensures var s, s' := r.states[n], r.states[n + 1]; var u := s.cur[i];
      && s'.phase == Running && u in s.uts && u in s'.uts && EXITED in s'.uts[u].status
      && (match s.uts[u].joined
          case None => s'.ready == s.ready && s'.sleeping == s.sleeping
          case Some(j) => j !in s.ready && s'.ready == s.ready + [j] && j in s.uts
                          && s'.sleeping == s.sleeping - {s.uts[j].wakeup} && s.sleeping.Values - s'.sleeping.Values == {j})
  {
    hide Step, Control, SchedSteps.Exit, Interest, WaitTree, Places;
    Invariant(r, n);
    Stepped(r, n);
    var s := r.states[n];
    var u := s.cur[i];
    RunsOnFacts(s, i);
    StepIsExit(s, i);
    LivePositive(s, u);
    ExitInv(s, i, u);
    if s.uts[u].joined.None? {
      ExitAloneEffect(s, i, u);
    } else {
      var j := s.uts[u].joined.value;
      JoinersSleep(r, n, u);
      JoinerSleeps(s, u, j);
      ExitJoinedEffect(s, i, u, j);
      OnlyOneKey(s, j);
    }
  }

  lemma StepIsExit(s: State, i: Sid)
    requires s.phase == Running && Closed(s) && i in s.cur
    ensures Step(s, DoExit(i)) == SchedSteps.Exit(s, i, s.cur[i])
  {
  }

  lemma OnlyOneKey(s: State, j: Id)
    requires SleepTree(s) && j in s.uts && Sleeps(s.uts[j])
    ensures s.sleeping.Values - (s.sleeping - {s.uts[j].wakeup}).Values == {j}
  {
    var k, m := s.uts[j].wakeup, s.sleeping - {s.uts[j].wakeup};
    assert s.sleeping[k] == j;
    forall v | v in s.sleeping.Values && v != j ensures v in m.Values {
      var k' :| k' in s.sleeping && s.sleeping[k'] == v;
      assert k' in m && m[k'] == v;
    }
    forall k' | k' in m ensures m[k'] != j {
      assert s.uts[s.sleeping[k']].wakeup == k';
    }
  }

  // -------------------------------------------------------- the pass and the sweep

  /** A user step changes the place of its own scheduler only, as AfterPass says,
      or starts an idle one. */
  lemma UserPcs(s: State, i: Sid, u: Id, a: Action)
    requires Inv(s) && s.phase == Running && RunsOn(s, i, u)
    ensures var s' := UserStep(s, i, u, a);
      !s'.phase.Aborted? ==>
        || s'.pcs == s.pcs || s'.pcs == NextPcs(s, i, u)
        || (s.idle != [] && s'.pcs == s.pcs[s.idle[0] := Starting])
  {
    hide Core, Control, SwitchBack, Register, Join, NextPcs, SwitchedBack, ToReady, ToWait, ToJoin, ExitAlone, ExitJoined;
    match a
    case DoYield(_) => YieldEffect(s, i, u);
    case DoExit(_) => ExitPcs(s, i, u);
    case DoJoin(_, target) => if target in s.uts { JoinEffect(s, i, u, target); }
    case DoRegister(_, fd, ev, msecs) => RegisterEffect(s, i, u, fd, ev, msecs);
    case _ =>
  }

  lemma ExitPcs(s: State, i: Sid, u: Id)
    requires Inv(s) && s.phase == Running && RunsOn(s, i, u)
    ensures SchedSteps.Exit(s, i, u).pcs == NextPcs(s, i, u)
  {
    hide Control, SleepTree, WaitTree, Interest, Places, SchedSteps.Exit, NextPcs, SwitchedBack, ExitAlone, ExitJoined;
    LivePositive(s, u);
    if s.uts[u].joined.None? {
      ExitAloneEffect(s, i, u);
    } else {
      JoinerSleeps(s, u, s.uts[u].joined.value);
      ExitJoinedEffect(s, i, u, s.uts[u].joined.value);
    }
  }

  /** A scheduler that goes on changes its own place only. */
  lemma SchedPcs(s: State, i: Sid, events: seq<(int, bool)>, j: Sid)
    requires Inv(s) && s.phase == Running && Closed(s) && i in s.pcs && i !in s.cur && j in s.pcs && j != i
    ensures !SchedStep(s, i, events).phase.Aborted? ==>
      j in SchedStep(s, i, events).pcs && SchedStep(s, i, events).pcs[j] == s.pcs[j]
  {
    hide Inv, Closed, Expire, PassOn, HandleEvent;
    match s.pcs[i]
    case Expiring(woken) => ExpirePcs(s, i, woken, j);
    case Passing(_, _, _) => PassPcs(s, i, j);
    case Handling(_, _, _, _) => HandlePcs(s, i, j);
    case _ =>
  }

  lemma ExpirePcs(s: State, i: Sid, woken: seq<nat>, j: Sid)
    requires Inv(s) && s.phase == Running && Closed(s) && i in s.pcs && i !in s.cur && j in s.pcs && j != i
    ensures !Expire(s, i, woken).phase.Aborted? ==> j in Expire(s, i, woken).pcs && Expire(s, i, woken).pcs[j] == s.pcs[j]
  {
    hide Core, Control, CancelEvent, Dispatch, FromWait, OnlyUt;
    if Bound(s, i) && s.sleeping != map[] && MinKey(s.sleeping) <= s.now { ExpireEffect(s, i, woken); }
  }

  lemma PassPcs(s: State, i: Sid, j: Sid)
    requires Inv(s) && s.phase == Running && Closed(s) && i in s.pcs && i !in s.cur && j in s.pcs && j != i
    requires s.pcs[i].Passing?
    ensures var s' := PassOn(s, i, s.pcs[i]); !s'.phase.Aborted? ==> j in s'.pcs && s'.pcs[j] == s.pcs[j]
  {
    hide Core, Control, Dispatch, FromReady, OnlyUt;
    if Bound(s, i) && s.ready != [] { PassOnEffect(s, i, s.pcs[i]); }
  }

  lemma HandlePcs(s: State, i: Sid, j: Sid)
    requires Inv(s) && s.phase == Running && Closed(s) && i in s.pcs && i !in s.cur && j in s.pcs && j != i
    requires s.pcs[i].Handling?
    ensures var s' := HandleEvent(s, i, s.pcs[i]); !s'.phase.Aborted? ==> j in s'.pcs && s'.pcs[j] == s.pcs[j]
  {
    hide Core, Control, DeschedEvent, Dispatch, FdKey, FromWait, OnlyUt;
    if Bound(s, i) && FdKey(s.pcs[i].fd, s.pcs[i].ev) in s.waiting { HandleEventEffect(s, i, s.pcs[i]); }
  }

  /** What one step may do to a pass that began with the non-empty queue `snap`:
      nothing, or resume the next coroutine of that queue, or end it when all of
      the queue has been resumed. */
  ghost predicate PassStep(s: State, s': State, i: Sid)
    requires i in s.pcs && s.pcs[i].Passing?
  {
    var pc := s.pcs[i];
    i in s'.pcs &&
    ( || s'.pcs[i] == pc
      || (i in s'.cur && |pc.done| < |pc.snap| && s'.cur[i] == pc.snap[|pc.done|]
          && s'.pcs[i] == pc.(done := pc.done + [s'.cur[i]]))
      || (s'.pcs[i] == Polling && pc.done == pc.snap))
  }

  lemma PassIsFifo(r: Run, n: nat)
    requires IsRun(r) && n < |r.acts|
    requires var s := r.states[n];
      s.phase == Running && s.owner in s.pcs && s.pcs[s.owner].Passing? && s.pcs[s.owner].snap != []
    requires !r.states[n + 1].phase.Aborted?
    ensures PassStep(r.states[n], r.states[n + 1], r.states[n].owner)
  {
    hide Core, Targets, Preempts, Sweeps, UserStep, SchedStep, Closed, PassOk;
    Invariant(r, n);
    Stepped(r, n);
    var s := r.states[n];
    var i, a := s.owner, r.acts[n];
    match a
    case DoTick =>
    case DoClock(_) =>
    case Sched(j, events) =>
      if j in s.pcs && j !in s.cur {
        if j == i {
          PassOwnStep(s, events);
        } else {
          SchedPcs(s, j, events, i);
        }
      }
    case _ =>
      if a.i in s.cur {
        RunsOnFacts(s, a.i);
        UserPcs(s, a.i, s.cur[a.i], a);
        if a.i == i { PassBack(s); }
        assert s.idle != [] ==> s.idle[0] in s.idle;
      }
  }

  /** At any time in such a pass the coroutines resumed so far are a prefix of
      that queue, each once, and the rest of it heads the ready queue. */
  lemma PassPrefix(r: Run, n: nat)
    requires IsRun(r) && n < |r.states|
    requires var s := r.states[n];
      !s.phase.Aborted? && s.owner in s.pcs && s.pcs[s.owner].Passing? && s.pcs[s.owner].snap != []
    ensures var s := r.states[n]; var pc := s.pcs[s.owner];
      && pc.done <= pc.snap && pc.snap[|pc.done|..] <= s.ready && NoDup(pc.snap)
      && (s.owner in s.cur ==> pc.done != [] && pc.done[|pc.done| - 1] == s.cur[s.owner])
  {
    hide Core, Targets, Preempts, Sweeps, Owned;
    Invariant(r, n);
    var s := r.states[n];
    var pc := s.pcs[s.owner];
    assert PassOk(s.ready, pc, RunningOn(s, s.owner));
    assert pc.snap[..|pc.done|] == pc.done;
  }

  lemma PassOwnStep(s: State, events: seq<(int, bool)>)
    requires Inv(s) && s.phase == Running && Closed(s) && s.owner in s.pcs && s.owner !in s.cur
    requires s.pcs[s.owner].Passing? && s.pcs[s.owner].snap != []
    ensures PassStep(s, SchedStep(s, s.owner, events), s.owner)
  {
    hide Core, Targets, Preempts, Sweeps, Dispatch, Owned;
    var i := s.owner;
    var pc := s.pcs[i];
    assert PassOk(s.ready, pc, None);
    assert pc.snap[|pc.done|] == pc.snap[|pc.done|..][0] == s.ready[0];
    PassOnEffect(s, i, pc);
  }

  lemma PassBack(s: State)
    requires Passes(s) && s.owner in s.pcs && s.owner in s.cur && s.pcs[s.owner].Passing? && s.pcs[s.owner].snap != []
    ensures var pc := s.pcs[s.owner];
      if pc.last == Some(s.cur[s.owner]) then NextPcs(s, s.owner, s.cur[s.owner])[s.owner] == Polling && pc.done == pc.snap
      else NextPcs(s, s.owner, s.cur[s.owner]) == s.pcs
  {
    var pc := s.pcs[s.owner];
    var n, d := |pc.snap|, |pc.done|;
    assert PassOk(s.ready, pc, Some(s.cur[s.owner]));
    assert pc.snap[d - 1] == pc.done[d - 1] == s.cur[s.owner];
    if pc.last == Some(s.cur[s.owner]) {
      assert d == n;
      assert pc.snap[..n] == pc.snap;
    }
  }

  /** One turn of an expiry sweep serves the least deadline, not before its time
      and not before one already served; when the sweep gives way to the pass
      over the ready queue, every sleeper left has a deadline after the clock. */
  lemma SweepInOrder(r: Run, n: nat)
    requires IsRun(r) && n < |r.acts|
    requires var s := r.states[n];
      && s.phase == Running && s.owner in s.pcs && s.pcs[s.owner].Expiring? && s.owner !in s.cur
      && r.acts[n].Sched? && r.acts[n].i == s.owner
    ensures var s, s' := r.states[n], r.states[n + 1]; var i, w := s.owner, s.pcs[s.owner].woken;
      && Rising(w) && (forall j :: 0 <= j < |w| ==> w[j] <= s.now)
      && (s'.phase == Running ==> i in s'.pcs && SweepStep(s, s', i, w, s'.pcs[i]))
  {
    hide Core, Owned, Targets, Preempts, Passes, Closed, Expire;
    Invariant(r, n);
    Stepped(r, n);
    var s := r.states[n];
    var i, w := s.owner, s.pcs[s.owner].woken;
    assert SweepOk(s, w);
    ExpireSteps(s, i, w);
  }

  ghost predicate SweepStep(s: State, s': State, i: Sid, w: seq<nat>, pc: Pc) {
    match pc
    case Expiring(w') =>
      exists k: nat :: IsMin(s.sleeping, k) && k <= s.now && w' == w + [k] && Rising(w') && s'.cur == s.cur[i := s.sleeping[k]]
    case Passing(_, snap, done) => snap == s.ready && done == [] && forall k :: k in s.sleeping ==> s.now < k
    case _ => false
  }

  lemma ExpireSteps(s: State, i: Sid, w: seq<nat>)
    requires Inv(s) && Closed(s) && s.phase == Running && i == s.owner && i in s.pcs && i !in s.cur && s.pcs[i] == Expiring(w)
    ensures var s' := Expire(s, i, w); s'.phase == Running ==> i in s'.pcs && SweepStep(s, s', i, w, s'.pcs[i])
  {
    hide Core, Owned, Targets, Preempts, Passes, CancelEvent, Dispatch;
    assert SweepOk(s, w);
    if s.sleeping != map[] && MinKey(s.sleeping) <= s.now {
      ExpireEffect(s, i, w);
      assert Rising(w + [MinKey(s.sleeping)]);
    }
  }

  // -------------------------------------------------------------------- faults

  /** Exactly when, and why, an action ends the process by a fault. */
  ghost function FaultOf(s: State, a: Action): Option<Fault> {
    match a
    case DoTick => None
    case DoClock(_) => None
    case Sched(i, _) =>
      if i !in s.pcs || i in s.cur then None
      else if s.owner != i then
        if (s.pcs[i].Expiring? && s.pcs[i].woken != []) || (s.pcs[i].Handling? && s.pcs[i].ev == WR) then Some(NullP) else None
      else if s.pcs[i].Expiring? && JoinIsDue(s) then Some(DelFailed)
      else None
    case _ => if a.i in s.cur then UserFault(s, a.i, s.cur[a.i], a) else None
  }

  /** The first sleeper's time has come and it sleeps in a join. */
  ghost predicate JoinIsDue(s: State) {
    && s.sleeping != map[] && MinKey(s.sleeping) <= s.now
    && var u := s.sleeping[MinKey(s.sleeping)]; u in s.uts && s.uts[u].cont.InJoin?
  }

  ghost function UserFault(s: State, i: Sid, u: Id, a: Action): Option<Fault> {
    match a
    case DoYield(_) => if s.owner != i then Some(NullP) else None
    case DoCreate(_, v) => if v !in s.uts && s.owner != i then Some(NullP) else None
    case DoJoin(_, t) =>
      if t in s.uts && u != t && DETACHED !in s.uts[t].status && EXITED !in s.uts[t].status && s.uts[t].joined.None?
         && Deadline(s.now, 10000) in s.sleeping
      then Some(SameDeadline) else None
    case DoRegister(_, fd, _, msecs) =>
      if s.owner != i then Some(NullP)
      else if fd < 0 || fd in s.epoll then Some(AddFailed)
      else if Deadline(s.now, msecs) in s.sleeping then Some(SameDeadline)
      else None
    case DoHandOff(_) => if s.owner == i && s.ready != [] && s.idle == [] then Some(NoIdleSched) else None
    case _ => None
  }

  lemma Faults(r: Run, n: nat)
    requires IsRun(r) && n < |r.acts|
    requires r.states[n].phase == Running
    ensures var s := r.states[n];
      match FaultOf(s, r.acts[n])
      case None => !r.states[n + 1].phase.Aborted?
      case Some(why) => r.states[n + 1].phase == Aborted(why)
  {
    hide Core, Control, UserStep, SchedStep, UserFault, JoinIsDue;
    Invariant(r, n);
    Stepped(r, n);
    var s := r.states[n];
    var a := r.acts[n];
    match a
    case DoTick =>
    case DoClock(_) =>
    case Sched(i, events) => if i in s.pcs && i !in s.cur { SchedFaults(s, i, events); }
    case _ =>
      if a.i in s.cur {
        RunsOnFacts(s, a.i);
        UserFaults(s, a.i, s.cur[a.i], a);
      }
  }

  lemma UserFaults(s: State, i: Sid, u: Id, a: Action)
    requires Inv(s) && s.phase == Running && RunsOn(s, i, u)
    ensures match UserFault(s, i, u, a)
      case None => !UserStep(s, i, u, a).phase.Aborted?
      case Some(why) => UserStep(s, i, u, a).phase == Aborted(why)
  {
    hide Core, Control, SwitchBack, Register, Join, SwitchedBack, GoesOn, ToReady, ToWait, ToJoin, Deadline;
    match a
    case DoYield(_) => YieldEffect(s, i, u);
    case DoExit(_) => ExitInv(s, i, u);
    case DoJoin(_, target) => if target in s.uts { JoinEffect(s, i, u, target); }
    case DoRegister(_, fd, ev, msecs) => RegisterEffect(s, i, u, fd, ev, msecs);
    case _ =>
  }

  /** A scheduler meets a null p only after a sweep that woke someone, or in the
      second handle_event for a file descriptor. */
  lemma StillHasP(s: State, i: Sid)
    requires Inv(s) && i in s.pcs && i !in s.cur
    ensures s.pcs[i].Passing? || s.pcs[i].Polling? ==> s.owner == i
    ensures s.pcs[i].Expiring? && s.pcs[i].woken == [] ==> s.owner == i
    ensures s.pcs[i].Handling? && s.pcs[i].ev == RD ==> s.owner == i
  {
    hide Core, Targets, Preempts, Passes, Sweeps;
  }

  lemma SchedFaults(s: State, i: Sid, events: seq<(int, bool)>)
    requires Inv(s) && s.phase == Running && Closed(s) && i in s.pcs && i !in s.cur
    ensures match FaultOf(s, Sched(i, events))
      case None => !SchedStep(s, i, events).phase.Aborted?
      case Some(why) => SchedStep(s, i, events).phase == Aborted(why)
  {
    hide Core, Control, CancelEvent, DeschedEvent, Dispatch, FdKey, FromWait, FromReady, OnlyUt, SwitchedTo;
    StillHasP(s, i);
    match s.pcs[i]
    case Expiring(woken) =>
      if Bound(s, i) && s.sleeping != map[] && MinKey(s.sleeping) <= s.now { ExpireEffect(s, i, woken); }
    case Passing(_, _, _) => if Bound(s, i) && s.ready != [] { PassOnEffect(s, i, s.pcs[i]); }
    case Handling(fd, ev, _, _) =>
      if Bound(s, i) && FdKey(fd, ev) in s.waiting { HandleEventEffect(s, i, s.pcs[i]); }
    case _ =>
  }
}
