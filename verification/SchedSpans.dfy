/** The promises about a pass, a sweep and a time slice, told as stretches of a
    run: from the step that begins them to the step that ends them, and without
    the history that the states carry. */
module SchedSpans {
  import opened FdKeys
  import opened SchedState
  import opened SchedCore
  import opened SchedControl
  import opened SchedSteps
  import opened SchedRuns
  import opened SchedActs

  /** Step k switches scheduler `i` to a coroutine. */
  ghost predicate Starts(r: Run, k: nat, i: Sid)
    requires k + 1 < |r.states|
  {
    i !in r.states[k].cur && i in r.states[k + 1].cur
  }

  /** The coroutines that scheduler `i` switches to from state `from` to state `to`. */
  ghost function Dispatched(r: Run, i: Sid, from: nat, to: nat): seq<Id>
    requires from <= to < |r.states|
  {
    if from == to then []
    else Dispatched(r, i, from, to - 1) + if Starts(r, to - 1, i) then [r.states[to].cur[i]] else []
  }

  /** The process runs on from state `from` to state `to`. */
  ghost predicate Alive(r: Run, from: nat, to: nat) {
    from <= to < |r.states| && forall k :: from <= k <= to ==> r.states[k].phase == Running
  }

  // --------------------------------------------------------- one step, one sched

  lemma UserCur(s: State, i: Sid, u: Id, a: Action)
    requires Inv(s) && s.phase == Running && RunsOn(s, i, u)
    ensures var s' := UserStep(s, i, u, a); !s'.phase.Aborted? ==> s'.cur == s.cur || s'.cur == s.cur - {i}
  {
    hide Core, Control, SwitchBack, Register, Join, NextPcs, GoesOn, ToReady, ToWait, ToJoin;
    match a
    case DoYield(_) => YieldEffect(s, i, u);
    case DoExit(_) => ExitCur(s, i, u);
    case DoJoin(_, target) => if target in s.uts { JoinEffect(s, i, u, target); }
    case DoRegister(_, fd, ev, msecs) => RegisterEffect(s, i, u, fd, ev, msecs);
    case _ =>
  }

  lemma ExitCur(s: State, i: Sid, u: Id)
    requires Inv(s) && s.phase == Running && RunsOn(s, i, u)
    ensures SchedSteps.Exit(s, i, u).cur == s.cur - {i}
  {
    hide Control, SleepTree, WaitTree, Interest, Places, SchedSteps.Exit, GoesOn, ExitAlone, ExitJoined;
    LivePositive(s, u);
    if s.uts[u].joined.None? {
      ExitAloneEffect(s, i, u);
    } else {
      JoinerSleeps(s, u, s.uts[u].joined.value);
      ExitJoinedEffect(s, i, u, s.uts[u].joined.value);
    }
  }

  /** A scheduler's turn may switch that scheduler to a coroutine, which is then
      armed and new to its time slice; no other scheduler is touched. */
  ghost predicate TurnCur(s: State, s': State, i: Sid) {
    (s'.cur == s.cur && s'.uts == s.uts)
    || (i in s'.cur && s'.cur == s.cur[i := s'.cur[i]] && i in s.pcs && i in s'.pcs && SwitchedTo(s, s', i, s'.cur[i], s'.pcs[i]))
  }

  lemma SchedCur(s: State, i: Sid, events: seq<(int, bool)>)
    requires Inv(s) && s.phase == Running && Closed(s) && i in s.pcs && i !in s.cur
    ensures var s' := SchedStep(s, i, events); !s'.phase.Aborted? ==> TurnCur(s, s', i)
  {
    hide Inv, Closed, Expire, PassOn, HandleEvent, SwitchedTo;
    match s.pcs[i]
    case Expiring(woken) => ExpireCur(s, i, woken);
    case Passing(_, _, _) => PassCur(s, i);
    case Handling(_, _, _, _) => HandleCur(s, i);
    case _ =>
  }

  lemma ExpireCur(s: State, i: Sid, woken: seq<nat>)
    requires Inv(s) && s.phase == Running && Closed(s) && i in s.pcs && i !in s.cur
    ensures var s' := Expire(s, i, woken); !s'.phase.Aborted? ==> TurnCur(s, s', i)
  {
    hide Core, Control, WakeExpired, FromWait, OnlyUt;
    if Bound(s, i) && s.sleeping != map[] && MinKey(s.sleeping) <= s.now { ExpireEffect(s, i, woken); }
  }

  lemma PassCur(s: State, i: Sid)
    requires Inv(s) && s.phase == Running && Closed(s) && i in s.pcs && i !in s.cur && s.pcs[i].Passing?
    ensures var s' := PassOn(s, i, s.pcs[i]); !s'.phase.Aborted? ==> TurnCur(s, s', i)
  {
    hide Core, Control, Dispatch, FromReady, OnlyUt;
    if Bound(s, i) && s.ready != [] { PassOnEffect(s, i, s.pcs[i]); }
  }

  lemma HandleCur(s: State, i: Sid)
    requires Inv(s) && s.phase == Running && Closed(s) && i in s.pcs && i !in s.cur && s.pcs[i].Handling?
    ensures var s' := HandleEvent(s, i, s.pcs[i]); !s'.phase.Aborted? ==> TurnCur(s, s', i)
  {
    hide Core, Control, DeschedEvent, Dispatch, FdKey, FromWait, OnlyUt;
    if Bound(s, i) && FdKey(s.pcs[i].fd, s.pcs[i].ev) in s.waiting { HandleEventEffect(s, i, s.pcs[i]); }
  }

  ghost predicate OwnTurn(r: Run, k: nat, i: Sid)
    requires k < |r.acts| && k < |r.states|
  {
    r.acts[k].Sched? && r.acts[k].i == i && i in r.states[k].pcs && i !in r.states[k].cur
  }

  /** A scheduler switches to a coroutine in its own turn only, and any other
      step leaves its place, or ends a pass, or starts it. */
  lemma OthersTurn(r: Run, k: nat, i: Sid)
    requires IsRun(r) && k < |r.acts| && Alive(r, k, k + 1) && i in r.states[k].pcs && !OwnTurn(r, k, i)
    ensures !Starts(r, k, i) && i in r.states[k + 1].pcs
    ensures var pc, pc' := r.states[k].pcs[i], r.states[k + 1].pcs[i];
      pc' == pc || (pc.Passing? && pc' in {LoopTop, Polling}) || (pc.Unused? && pc' == Starting)
  {
    hide Core, Control, UserStep, SchedStep, Closed;
    Invariant(r, k);
    Stepped(r, k);
    var s, a := r.states[k], r.acts[k];
    match a
    case DoTick =>
    case DoClock(_) =>
    case Sched(j, events) =>
      if j in s.pcs && j !in s.cur {
        SchedCur(s, j, events);
        SchedPcs(s, j, events, i);
      }
    case _ =>
      if a.i in s.cur {
        RunsOnFacts(s, a.i);
        UserCur(s, a.i, s.cur[a.i], a);
        UserPcs(s, a.i, s.cur[a.i], a);
        IdleUnused(s);
      }
  }

  lemma IdleUnused(s: State)
    requires Good(s)
    ensures s.idle != [] ==> s.idle[0] in s.pcs && s.pcs[s.idle[0]] == Unused
  {
    hide Core, Targets, Preempts, Passes, Sweeps;
    assert s.idle != [] ==> s.idle[0] in s.idle;
  }

  // ------------------------------------------------------------------- a pass

  /** Scheduler `i` has p and is in its ready loop from state `from` to state `to`. */
  ghost predicate StaysInPass(r: Run, i: Sid, from: nat, to: nat)
    requires to < |r.states|
  {
    forall k :: from <= k <= to ==> r.states[k].owner == i && i in r.states[k].pcs && r.states[k].pcs[i].Passing?
  }

  /** A pass begins in the scheduler's own turn, with the queue as it is then. */
  lemma PassBegins(r: Run, m: nat, i: Sid)
    requires IsRun(r) && m < |r.acts| && Alive(r, m, m + 1)
    requires i in r.states[m].pcs && !r.states[m].pcs[i].Passing? && i in r.states[m + 1].pcs && r.states[m + 1].pcs[i].Passing?
    ensures !Starts(r, m, i)
    ensures var pc := r.states[m + 1].pcs[i]; pc.snap == r.states[m].ready && pc.done == []
  {
    hide Core, Control, UserStep, Expire, PassOn, HandleEvent, Closed;
    if !OwnTurn(r, m, i) {
      OthersTurn(r, m, i);
    } else {
      Invariant(r, m);
      Stepped(r, m);
      OwnBegins(r.states[m], i, r.acts[m].events);
    }
  }

  lemma OwnBegins(s: State, i: Sid, events: seq<(int, bool)>)
    requires Inv(s) && s.phase == Running && Closed(s) && i in s.pcs && i !in s.cur && !s.pcs[i].Passing?
    ensures var s' := SchedStep(s, i, events);
      !s'.phase.Aborted? && i in s'.pcs && s'.pcs[i].Passing? ==>
        s'.cur == s.cur && s'.pcs[i].snap == s.ready && s'.pcs[i].done == []
  {
    hide Core, Control, WakeExpired, DeschedEvent, Dispatch, FdKey, FdOnly, FromWait, OnlyUt;
    match s.pcs[i]
    case Expiring(woken) =>
      if Bound(s, i) && s.sleeping != map[] && MinKey(s.sleeping) <= s.now { ExpireEffect(s, i, woken); }
    case Handling(fd, ev, _, _) =>
      if Bound(s, i) && FdKey(fd, ev) in s.waiting { HandleEventEffect(s, i, s.pcs[i]); }
    case _ =>
  }

  /** In a pass each switch takes the next of the queue. */
  lemma PassGoesOn(r: Run, k: nat, i: Sid)
    requires IsRun(r) && k < |r.acts| && Alive(r, k, k + 1) && StaysInPass(r, i, k, k) && r.states[k].pcs[i].snap != []
    ensures i in r.states[k + 1].pcs
    ensures var pc, pc' := r.states[k].pcs[i], r.states[k + 1].pcs[i];
      && (pc'.Passing? ==> pc' == pc.(done := pc.done + if Starts(r, k, i) then [r.states[k + 1].cur[i]] else []))
      && (!pc'.Passing? ==> pc.done == pc.snap && !Starts(r, k, i))
  {
    hide Core, Targets, Preempts, Sweeps, Passes, Owned, UserStep, Closed, Dispatch;
    Invariant(r, k);
    Stepped(r, k);
    PassIsFifo(r, k);
    var s := r.states[k];
    if !OwnTurn(r, k, i) {
      OthersTurn(r, k, i);
      assert s.pcs[i].done + [] == s.pcs[i].done;
    } else if s.ready != [] {
      PassOnEffect(s, i, s.pcs[i]);
    }
  }

  lemma {:induction false} PassSoFar(r: Run, m: nat, k: nat, i: Sid)
    requires IsRun(r) && m < k && Alive(r, m, k) && StaysInPass(r, i, m + 1, k)
    requires i in r.states[m].pcs && !r.states[m].pcs[i].Passing? && r.states[m].ready != []
    ensures var pc := r.states[k].pcs[i]; pc.snap == r.states[m].ready && pc.done == Dispatched(r, i, m, k)
    decreases k
  {
    hide Init, Follows, Starts;
    if k == m + 1 {
      PassBegins(r, m, i);
      assert Dispatched(r, i, m, m) == [];
    } else {
      PassSoFar(r, m, k - 1, i);
      PassGoesOn(r, k - 1, i);
    }
  }

  /** From the step that begins a pass over a non-empty ready queue to the step
      that ends it, while p stays bound, the coroutines that the scheduler
      switches to are that queue, in order, each once. */
  lemma WholePass(r: Run, m: nat, n: nat, i: Sid)
    requires IsRun(r) && m + 1 < n && Alive(r, m, n) && StaysInPass(r, i, m + 1, n - 1)
    requires i in r.states[m].pcs && !r.states[m].pcs[i].Passing? && r.states[m].ready != []
    requires i in r.states[n].pcs && !r.states[n].pcs[i].Passing?
    ensures Dispatched(r, i, m, n) == r.states[m].ready
  {
    hide Init, Follows, Starts;
    PassSoFar(r, m, n - 1, i);
    PassGoesOn(r, n - 1, i);
    assert Dispatched(r, i, m, n - 1) + [] == Dispatched(r, i, m, n - 1);
  }

  // ------------------------------------------------------------------ a sweep

  /** Scheduler `i` has p and is in its expiry loop from state `from` to state `to`. */
  ghost predicate StaysInSweep(r: Run, i: Sid, from: nat, to: nat)
    requires to < |r.states|
  {
    forall k :: from <= k <= to ==> r.states[k].owner == i && i in r.states[k].pcs && r.states[k].pcs[i].Expiring?
  }

  /** The deadline that switch k of scheduler `i` serves: when the coroutine, which
      sleeps until then, was to wake up. */
  ghost function Served(r: Run, k: nat, i: Sid): nat
    requires k + 1 < |r.states| && i in r.states[k + 1].cur && r.states[k + 1].cur[i] in r.states[k].uts
  {
    r.states[k].uts[r.states[k + 1].cur[i]].wakeup
  }

  /** A switch in a sweep serves a deadline that has passed, and notes it. */
  lemma SweepServes(r: Run, k: nat, i: Sid)
    requires IsRun(r) && k < |r.acts| && Alive(r, k, k + 1) && StaysInSweep(r, i, k, k + 1) && Starts(r, k, i)
    ensures var s, s' := r.states[k], r.states[k + 1];
      && s'.cur[i] in s.uts && Served(r, k, i) <= s.now && Rising(s'.pcs[i].woken)
      && s'.pcs[i].woken == s.pcs[i].woken + [Served(r, k, i)]
  {
    hide WaitTree, Interest, Joins, Places, Counted, Control, UserStep, SchedStep, Closed;
    if !OwnTurn(r, k, i) {
      OthersTurn(r, k, i);
    }
    Invariant(r, k);
    SweepInOrder(r, k);
    OwnSweep(r, k, i);
  }

  /** The scheduler's own turn in a sweep that goes on switches. */
  lemma OwnSweep(r: Run, k: nat, i: Sid)
    requires IsRun(r) && k < |r.acts| && Alive(r, k, k + 1) && StaysInSweep(r, i, k, k + 1) && OwnTurn(r, k, i)
    ensures var s, s' := r.states[k], r.states[k + 1];
      exists d: nat :: d in s.sleeping && s'.cur == s.cur[i := s.sleeping[d]] && s'.pcs[i].woken == s.pcs[i].woken + [d]
                       && d <= s.now && Rising(s'.pcs[i].woken)
  {
    hide Core, Control, UserStep, SchedStep, Closed;
    SweepInOrder(r, k);
  }

  /** What a sweep has noted stays noted. */
  lemma {:induction false} SweepNotes(r: Run, j: nat, k: nat, i: Sid)
    requires IsRun(r) && j <= k && Alive(r, j, k) && StaysInSweep(r, i, j, k)
    ensures r.states[j].pcs[i].woken <= r.states[k].pcs[i].woken
    decreases k
  {
    if j < k {
      SweepNotes(r, j, k - 1, i);
      if OwnTurn(r, k - 1, i) {
        OwnSweep(r, k - 1, i);
      } else {
        OthersTurn(r, k - 1, i);
      }
    }
  }

  /** Of two switches in one sweep the earlier serves the earlier deadline, and
      none is served before its time, whatever happens in between. */
  lemma WholeSweep(r: Run, j: nat, k: nat, i: Sid)
    requires IsRun(r) && j < k < |r.acts| && Alive(r, j, k + 1) && StaysInSweep(r, i, j, k + 1)
    requires Starts(r, j, i) && Starts(r, k, i)
    ensures r.states[j + 1].cur[i] in r.states[j].uts && r.states[k + 1].cur[i] in r.states[k].uts
    ensures Served(r, j, i) <= Served(r, k, i)
    ensures Served(r, j, i) <= r.states[j].now && Served(r, k, i) <= r.states[k].now
  {
    hide Init, Follows, Rising, Served;
    SweepServes(r, j, i);
    SweepServes(r, k, i);
    SweepNotes(r, j + 1, k, i);
    var w := r.states[k + 1].pcs[i].woken;
    var a, b := |r.states[j].pcs[i].woken|, |r.states[k].pcs[i].woken|;
    assert w[a] == r.states[k].pcs[i].woken[a] == Served(r, j, i) && w[b] == Served(r, k, i);
    InOrder(w, a, b);
  }

  lemma InOrder(w: seq<nat>, a: nat, b: nat)
    requires Rising(w) && a < b < |w|
    ensures w[a] <= w[b]
  {
  }

  // ------------------------------------------------------------- a time slice

  /** The coroutine `u` is current on scheduler `i`, with its flag set, from state
      `from` to state `to`. */
  ghost predicate KeepsRunning(r: Run, i: Sid, u: Id, from: nat, to: nat)
    requires to < |r.states|
  {
    forall k :: from <= k <= to ==> RunsArmed(r.states[k], i, u)
  }

  ghost predicate RunsArmed(s: State, i: Sid, u: Id) {
    i in s.cur && s.cur[i] == u && u in s.uts && s.uts[u].armed
  }

  /** How many ticks there are from state `from` to state `to`. */
  ghost function TicksIn(r: Run, from: nat, to: nat): nat
    requires from <= to <= |r.acts|
  {
    if from == to then 0 else TicksIn(r, from, to - 1) + if r.acts[to - 1] == DoTick then 1 else 0
  }

  /** The tick at step t sends a signal for `u`. */
  ghost predicate SignalAt(r: Run, t: nat, u: Id)
    requires t < |r.acts| && t < |r.states|
  {
    r.acts[t] == DoTick && u in Signals(r.states[t])
  }

  /** Nobody but a tick, or a new resume, touches the history of a coroutine. */
  ghost predicate SameHistory(s: State, s': State, u: Id) {
    u in s.uts && u in s'.uts && s'.uts[u].age == s.uts[u].age && s'.uts[u].signalled == s.uts[u].signalled
  }

  lemma UserHistory(s: State, i: Sid, u: Id, a: Action, v: Id)
    requires Inv(s) && s.phase == Running && RunsOn(s, i, u) && v in s.uts
    ensures var s' := UserStep(s, i, u, a); !s'.phase.Aborted? && (v == u ==> i in s'.cur) ==> SameHistory(s, s', v)
  {
    hide Core, Control, SwitchBack, Register, Join, NextPcs, GoesOn, ToReady, ToWait, ToJoin;
    match a
    case DoYield(_) => YieldEffect(s, i, u);
    case DoExit(_) => ExitHistory(s, i, u, v);
    case DoJoin(_, target) => if target in s.uts { JoinEffect(s, i, u, target); }
    case DoRegister(_, fd, ev, msecs) => RegisterEffect(s, i, u, fd, ev, msecs);
    case _ =>
  }

  lemma ExitHistory(s: State, i: Sid, u: Id, v: Id)
    requires Inv(s) && s.phase == Running && RunsOn(s, i, u) && v in s.uts
    ensures var s' := SchedSteps.Exit(s, i, u); i !in s'.cur && (v != u ==> SameHistory(s, s', v))
  {
    hide Control, SleepTree, WaitTree, Interest, Places, SchedSteps.Exit, GoesOn, ExitAlone, ExitJoined;
    LivePositive(s, u);
    if s.uts[u].joined.None? {
      ExitAloneEffect(s, i, u);
    } else {
      JoinerSleeps(s, u, s.uts[u].joined.value);
      ExitJoinedEffect(s, i, u, s.uts[u].joined.value);
    }
  }

  lemma SliceStep(r: Run, k: nat, i: Sid, u: Id)
    requires IsRun(r) && k < |r.acts| && Alive(r, k, k + 1) && KeepsRunning(r, i, u, k, k + 1)
    ensures var t, t' := r.states[k].uts[u], r.states[k + 1].uts[u];
      if r.acts[k] == DoTick then t'.age == t.age + 1 && (t'.signalled ==> t.signalled || SignalAt(r, k, u))
      else t'.age == t.age && t'.signalled == t.signalled
  {
    hide Core, Control, UserStep, SchedStep, Closed, Signals;
    assert RunsArmed(r.states[k], i, u) && RunsArmed(r.states[k + 1], i, u);
    Invariant(r, k);
    Stepped(r, k);
    var s, a := r.states[k], r.acts[k];
    match a
    case DoTick =>
    case DoClock(_) =>
    case Sched(j, events) =>
      if j in s.pcs && j !in s.cur {
        SchedCur(s, j, events);
        Invariant(r, k + 1);
        OneCur(r.states[k + 1], i, j, u);
      }
    case _ =>
      if a.i in s.cur {
        RunsOnFacts(s, a.i);
        UserHistory(s, a.i, s.cur[a.i], a, u);
        OneCur(s, i, a.i, u);
      }
  }

  lemma OneCur(s: State, i: Sid, j: Sid, u: Id)
    requires Good(s) && i in s.cur && s.cur[i] == u
    ensures j in s.cur && s.cur[j] == u ==> j == i
  {
    hide SleepTree, WaitTree, Interest, Joins, Counted, Control;
  }

  lemma SliceBegins(r: Run, m: nat, i: Sid)
    requires IsRun(r) && m < |r.acts| && Alive(r, m, m + 1) && Starts(r, m, i)
    ensures var s := r.states[m + 1]; s.cur[i] in s.uts && s.uts[s.cur[i]].age == 0 && !s.uts[s.cur[i]].signalled
  {
    hide Core, Control, UserStep, SchedStep, Closed;
    Invariant(r, m);
    Stepped(r, m);
    if i in r.states[m].pcs && OwnTurn(r, m, i) {
      SchedCur(r.states[m], i, r.acts[m].events);
    } else {
      NotOurs(r, m, i);
    }
  }

  lemma NotOurs(r: Run, m: nat, i: Sid)
    requires IsRun(r) && m < |r.acts| && Alive(r, m, m + 1) && i !in r.states[m].cur && !OwnTurn(r, m, i)
    ensures i !in r.states[m + 1].cur
  {
    hide Core, Control, UserStep, SchedStep, Closed;
    Invariant(r, m);
    Stepped(r, m);
    var s, a := r.states[m], r.acts[m];
    match a
    case DoTick =>
    case DoClock(_) =>
    case Sched(j, events) => if j in s.pcs && j !in s.cur { SchedCur(s, j, events); }
    case _ =>
      if a.i in s.cur {
        RunsOnFacts(s, a.i);
        UserCur(s, a.i, s.cur[a.i], a);
      }
  }

  lemma {:induction false} SliceSoFar(r: Run, m: nat, k: nat, i: Sid, u: Id)
    requires IsRun(r) && m < k && Alive(r, m, k) && Starts(r, m, i) && KeepsRunning(r, i, u, m + 1, k)
    ensures u in r.states[k].uts && r.states[k].uts[u].age == TicksIn(r, m + 1, k)
    ensures r.states[k].uts[u].signalled ==> exists t :: m < t < k && SignalAt(r, t, u)
    decreases k
  {
    hide Init, Follows, Starts, SignalAt;
    assert RunsArmed(r.states[k], i, u);
    if k == m + 1 {
      SliceBegins(r, m, i);
    } else {
      assert RunsArmed(r.states[k - 1], i, u);
      SliceSoFar(r, m, k - 1, i, u);
      SliceStep(r, k - 1, i, u);
    }
  }

  /** A coroutine that is switched to and keeps running, with its flag set, over
      two ticks is sent a signal by one of these ticks. */
  lemma WholeSlice(r: Run, m: nat, n: nat, i: Sid, u: Id)
    requires IsRun(r) && m < n && Alive(r, m, n) && Starts(r, m, i) && KeepsRunning(r, i, u, m + 1, n)
    requires TicksIn(r, m + 1, n) >= 2
    ensures exists t :: m < t < n && SignalAt(r, t, u)
  {
    hide Init, Follows, Starts, SignalAt;
    assert RunsArmed(r.states[n], i, u);
    SliceSoFar(r, m, n, i, u);
    SignalledByTheSecondTick(r, n, i);
  }

  // ------------------------------------------------------------- a time to sleep

  /** The coroutine `u` sleeps from state `from` to state `to`. */
  ghost predicate StaysAsleep(r: Run, u: Id, from: nat, to: nat)
    requires to < |r.states|
  {
    forall k :: from <= k <= to ==> u in r.states[k].uts && SLEEPING in r.states[k].uts[u].status
  }

  lemma {:induction false} SameWakeup(r: Run, u: Id, from: nat, to: nat)
    requires IsRun(r) && from <= to && Alive(r, from, to) && StaysAsleep(r, u, from, to)
    ensures r.states[to].uts[u].wakeup == r.states[from].uts[u].wakeup
  {
    hide Init, Follows;
    if from < to {
      SameWakeup(r, u, from, to - 1);
      KeysFixed(r, to - 1, u);
    }
  }

  /** A registration with a timeout of m milliseconds, or without one when m is 0:
      as long as the coroutine sleeps no sweep switches to it before m
      milliseconds, or 2^30 seconds, have passed. */
  lemma NotBefore(r: Run, m: nat, n: nat, i: Sid, u: Id, fd: int, ev: Event, msecs: nat, j: Sid)
    requires m + 1 <= n < |r.acts| && Calls(r, m, i, u, DoRegister(i, fd, ev, msecs))
    requires Alive(r, m, n + 1) && StaysAsleep(r, u, m + 1, n)
    requires StaysInSweep(r, j, n, n + 1) && Starts(r, n, j) && r.states[n + 1].cur[j] == u
    ensures r.states[n].now >= r.states[m].now + if msecs == 0 then 0x4000_0000 * 1000000 else msecs * 1000
  {
    hide Init, Follows;
    RegisterDoes(r, m, i, u, fd, ev, msecs);
    SameWakeup(r, u, m + 1, n);
    SweepServes(r, n, j);
  }

  // ------------------------------------------------------------------ an event

  /** Scheduler `i` has p and is at work on the events of a poll from state `from`
      to state `to`. */
  ghost predicate StaysAtEvents(r: Run, i: Sid, from: nat, to: nat)
    requires to < |r.states|
  {
    forall k :: from <= k <= to ==>
      r.states[k].owner == i && i in r.states[k].pcs && (r.states[k].pcs[i].Draining? || r.states[k].pcs[i].Handling?)
  }

  /** At step k scheduler `i` looks for whoever waits for the pair, and switches to
      that coroutine if there is one. */
  ghost predicate Looks(r: Run, k: nat, i: Sid, fd: int, ev: Event)
    requires k < |r.acts| && k + 1 < |r.states|
  {
    var s, s' := r.states[k], r.states[k + 1];
    && OwnTurn(r, k, i) && s.pcs[i].Handling? && s.pcs[i].fd == fd && s.pcs[i].ev == ev
    && (FdKey(fd, ev) in s.waiting ==> i in s'.cur && s'.cur[i] == s.waiting[FdKey(fd, ev)])
  }

  /** One step of a scheduler with p at an event: it stays, or looks for the pair
      and goes on to the write event, or to the rest of the list. */
  lemma EventStep(r: Run, k: nat, i: Sid)
    requires IsRun(r) && k < |r.acts| && Alive(r, k, k + 1)
    requires r.states[k].owner == i && i in r.states[k].pcs && r.states[k].pcs[i].Handling?
    ensures i in r.states[k + 1].pcs
    ensures var pc, pc' := r.states[k].pcs[i], r.states[k + 1].pcs[i];
      if OwnTurn(r, k, i) then
        Looks(r, k, i, pc.fd, pc.ev) && pc' == if pc.ev == RD then Handling(pc.fd, WR, pc.eof, pc.events) else Draining(pc.events)
      else pc' == pc
  {
    hide Init, Follows, FdKey, Resumed;
    if OwnTurn(r, k, i) {
      HandleDoes(r, k, i, r.acts[k].events, r.states[k].pcs[i]);
    } else {
      OthersTurn(r, k, i);
    }
  }

  /** From an event to the state where the scheduler goes back to its list, while p
      stays bound: it has looked for who waits to read, and then for who waits to
      write, and it goes on with the rest of the list. */
  lemma {:induction false} WholeEvent(r: Run, m: nat, n: nat, i: Sid) returns (a: nat, b: nat)
    requires IsRun(r) && m < n && Alive(r, m, n) && StaysAtEvents(r, i, m, n - 1)
    requires r.states[m].pcs[i].Handling? && r.states[m].pcs[i].ev == RD && i in r.states[n].pcs && !r.states[n].pcs[i].Handling?
    requires forall k :: m <= k < n ==> r.states[k].pcs[i].Handling?
    ensures m <= a < b < n
    ensures var pc := r.states[m].pcs[i];
      Looks(r, a, i, pc.fd, RD) && Looks(r, b, i, pc.fd, WR) && r.states[n].pcs[i] == Draining(pc.events)
  {
    hide Init, Follows, Looks;
    var pc := r.states[m].pcs[i];
    a := LooksNext(r, m, n, i);
    b := LooksNext(r, a + 1, n, i);
  }

  /** The next time that it looks. */
  lemma {:induction false} LooksNext(r: Run, m: nat, n: nat, i: Sid) returns (a: nat)
    requires IsRun(r) && m < n && Alive(r, m, n) && StaysAtEvents(r, i, m, n - 1)
    requires i in r.states[n].pcs && !r.states[n].pcs[i].Handling? && forall k :: m <= k < n ==> r.states[k].pcs[i].Handling?
    ensures m <= a < n
    ensures var pc := r.states[m].pcs[i];
      && Looks(r, a, i, pc.fd, pc.ev)
      && r.states[a + 1].pcs[i] == (if pc.ev == RD then Handling(pc.fd, WR, pc.eof, pc.events) else Draining(pc.events))
      && (pc.ev == RD ==> a + 1 < n) && (pc.ev == WR ==> a + 1 == n)
    decreases n - m
  {
    hide Init, Follows, Looks;
    EventStep(r, m, i);
    if OwnTurn(r, m, i) {
      a := m;
    } else {
      a := LooksNext(r, m + 1, n, i);
    }
  }

  // ------------------------------------------------------------------- a poll

  ghost function Reversed<T>(l: seq<T>): seq<T> { if l == [] then [] else [l[|l| - 1]] + Reversed(l[..|l| - 1]) }

  /** The events that scheduler `i` begins to handle from state `from` to state `to`. */
  ghost function Handled(r: Run, i: Sid, from: nat, to: nat): seq<(int, bool)>
    requires from <= to < |r.states|
  {
    if from == to then []
    else Handled(r, i, from, to - 1) + if Begins(r, i, to - 1) then [(r.states[to].pcs[i].fd, r.states[to].pcs[i].eof)] else []
  }

  /** At step k the scheduler begins with an event, and first with who waits to read. */
  ghost predicate Begins(r: Run, i: Sid, k: nat)
    requires k + 1 < |r.states|
  {
    && i in r.states[k].pcs && r.states[k].pcs[i].Draining?
    && i in r.states[k + 1].pcs && r.states[k + 1].pcs[i].Handling? && r.states[k + 1].pcs[i].ev == RD
  }

  ghost function EventsLeft(pc: Pc): seq<(int, bool)> {
    if pc.Draining? then pc.events else if pc.Handling? then pc.events else []
  }

  lemma DrainStep(r: Run, k: nat, i: Sid)
    requires IsRun(r) && k < |r.acts| && Alive(r, k, k + 1) && StaysAtEvents(r, i, k, k) && i in r.states[k + 1].pcs
    ensures var pc, pc' := r.states[k].pcs[i], r.states[k + 1].pcs[i];
      && Reversed(EventsLeft(pc)) == Handled(r, i, k, k + 1) + Reversed(EventsLeft(pc'))
      && (!pc'.Draining? && !pc'.Handling? ==> EventsLeft(pc) == [] && !Begins(r, i, k))
  {
    hide Init, Follows, Looks, Reversed;
    var pc, pc' := r.states[k].pcs[i], r.states[k + 1].pcs[i];
    assert Handled(r, i, k, k) == [];
    if pc.Handling? {
      EventStep(r, k, i);
      assert [] + Reversed(EventsLeft(pc')) == Reversed(EventsLeft(pc'));
    } else if OwnTurn(r, k, i) {
      DrainDoes(r, k, i, r.acts[k].events, pc.events);
      LastFirst(pc.events);
    } else {
      OthersTurn(r, k, i);
      assert [] + Reversed(EventsLeft(pc')) == Reversed(EventsLeft(pc'));
    }
  }

  lemma LastFirst(l: seq<(int, bool)>)
    ensures Reversed(l) == if l == [] then [] else [(l[|l| - 1].0, l[|l| - 1].1)] + Reversed(l[..|l| - 1])
  {
  }

  lemma {:induction false} DrainSoFar(r: Run, m: nat, k: nat, i: Sid)
    requires IsRun(r) && m <= k && Alive(r, m, k) && StaysAtEvents(r, i, m, k)
    ensures Reversed(EventsLeft(r.states[m].pcs[i])) == Handled(r, i, m, k) + Reversed(EventsLeft(r.states[k].pcs[i]))
    decreases k
  {
    hide Init, Follows, Handled, Reversed, Begins, EventsLeft;
    if m < k {
      DrainSoFar(r, m, k - 1, i);
      DrainStep(r, k - 1, i);
      HandledLast(r, i, m, k);
    } else {
      HandledNone(r, i, m);
    }
  }

  lemma HandledNone(r: Run, i: Sid, m: nat)
    requires m < |r.states|
    ensures Handled(r, i, m, m) == []
  {
  }

  /** From the poll to the state where the scheduler has done with its events, while
      p stays bound: it handles each event of the kernel's list once, the last
      first, when nothing was ready and no deadline had passed; and none otherwise. */
  lemma WholePoll(r: Run, m: nat, n: nat, i: Sid, events: seq<(int, bool)>)
    requires m + 1 < n && Turn(r, m, i, events, Polling) && Alive(r, m, n) && StaysAtEvents(r, i, m + 1, n - 1)
    requires i in r.states[n].pcs && !r.states[n].pcs[i].Draining? && !r.states[n].pcs[i].Handling?
    ensures var s := r.states[m];
      Handled(r, i, m + 1, n) ==
        if s.ready == [] && (forall k :: k in s.sleeping ==> s.now < k) then Reversed(events) else []
  {
    hide Init, Follows, Reversed, Begins, Handled;
    PollDoes(r, m, i, events);
    DrainAll(r, m + 1, n, i);
    NoneReversed();
  }

  /** From any state at the events to the one where they are done with. */
  lemma DrainAll(r: Run, m: nat, n: nat, i: Sid)
    requires IsRun(r) && m < n && Alive(r, m, n) && StaysAtEvents(r, i, m, n - 1)
    requires i in r.states[n].pcs && !r.states[n].pcs[i].Draining? && !r.states[n].pcs[i].Handling?
    ensures Handled(r, i, m, n) == Reversed(EventsLeft(r.states[m].pcs[i]))
  {
    hide Init, Follows, Reversed, Begins, Handled, EventsLeft;
    DrainSoFar(r, m, n - 1, i);
    DrainStep(r, n - 1, i);
    HandledLast(r, i, m, n);
    NoneReversed();
  }

  lemma NoneReversed()
    ensures Reversed<(int, bool)>([]) == []
  {
  }

  lemma HandledLast(r: Run, i: Sid, from: nat, to: nat)
    requires from < to < |r.states|
    ensures Handled(r, i, from, to) == Handled(r, i, from, to - 1) + Handled(r, i, to - 1, to)
  {
    hide Begins;
    assert Handled(r, i, to - 1, to - 1) == [];
  }
}
