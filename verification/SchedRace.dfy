/** A pass over the ready queue that began with an empty queue is the one that
    is not in order: between the two reads of the queue another thread may
    append to it.  Exactly when that happens, and a run in which it does. */
module SchedRace {
  import opened Wrappers
  import opened SchedState
  import opened SchedCore
  import opened SchedControl
  import opened SchedSteps
  import opened SchedRuns

  /** The step of the ready loop is the right one if and only if the pass began
      with a non-empty queue, or has found nothing and resumed nobody. */
  lemma PassExact(r: Run, n: nat)
    requires IsRun(r) && n < |r.acts|
    requires var s := r.states[n];
      && s.phase == Running && s.owner in s.pcs && s.pcs[s.owner].Passing? && s.owner !in s.cur
      && r.acts[n].Sched? && r.acts[n].i == s.owner
    ensures var s := r.states[n]; var pc := s.pcs[s.owner];
      PassStep(s, r.states[n + 1], s.owner) <==> pc.snap != [] || (s.ready == [] && pc.done == [])
  {
    hide Core, Control, Dispatch, Closed;
    Invariant(r, n);
    Stepped(r, n);
    var s := r.states[n];
    var pc := s.pcs[s.owner];
    if pc.snap != [] {
      PassOwnStep(s, r.acts[n].events);
    } else if s.ready != [] {
      PassOnEffect(s, s.owner, pc);
    }
  }

  ghost function Last(r: Run): State
    requires IsRun(r)
  {
    r.states[|r.states| - 1]
  }

  /** The run with one more action. */
  lemma Extend(r: Run, a: Action) returns (r': Run)
    requires IsRun(r) && Last(r).phase == Running
    ensures Good(Last(r)) && Closed(Last(r))
    ensures IsRun(r') && r'.acts == r.acts + [a] && Last(r') == Step(Last(r), a)
    ensures r'.states == r.states + [Step(Last(r), a)]
  {
    hide Step, Good, Closed;
    Invariant(r, |r.states| - 1);
    r' := Run(r.states + [Step(Last(r), a)], r.acts + [a]);
    forall i | 0 <= i < |r'.acts| ensures Follows(r', i) {
      if i < |r.acts| { assert Follows(r, i); }
    }
  }

  // Each lemma is one step of the run, from any state that stands as it says.

  lemma Wakes(s: State, i: Sid)
    requires Closed(s) && s.phase == Running && i in s.pcs && i !in s.cur && s.pcs[i] == LoopTop && s.owner == i && !WorkDone(s)
    ensures Step(s, Sched(i, [])) == s.(pcs := s.pcs[i := Expiring([])])
  {
  }

  lemma NothingDue(s: State, i: Sid)
    requires Closed(s) && s.phase == Running && i in s.pcs && i !in s.cur && s.pcs[i] == Expiring([]) && s.owner == i
    requires forall k :: k in s.sleeping ==> s.now < k
    ensures Step(s, Sched(i, [])) ==
      s.(pcs := s.pcs[i := Passing(if s.ready == [] then None else Some(s.ready[|s.ready| - 1]), s.ready, [])])
  {
    hide CancelEvent, Dispatch;
  }

  lemma Resumes(s: State, i: Sid, u: Id)
    requires Closed(s) && s.phase == Running && i in s.pcs && i !in s.cur && s.owner == i && s.ready == [u] && u in s.uts
    requires s.pcs[i].Passing? && (s.uts[u].cont == Fresh || s.uts[u].cont == Plain)
    ensures var s', t := Step(s, Sched(i, [])), s.uts[u];
      && s'.uts.Keys == s.uts.Keys && (forall v :: v in s.uts && v != u ==> s'.uts[v] == s.uts[v])
      && s'.uts[u].joined == t.joined && s'.uts[u].status == (if NEW in t.status then {READY} else t.status)
      && s' == s.(ready := [], cur := s.cur[i := u], pcs := s.pcs[i := s.pcs[i].(done := s.pcs[i].done + [u])],
                  uts := s'.uts, timers := s'.timers, nextTimer := s'.nextTimer)
  {
    assert s.ready[1..] == [];
  }

  /** A scheduler takes up the only ready coroutine, a new one. */
  lemma Round(r: Run, i: Sid, u: Id) returns (r': Run)
    requires IsRun(r)
    requires var s := Last(r);
      && s.phase == Running && s.owner == i && i in s.pcs && i !in s.cur && s.pcs[i] == LoopTop
      && s.ready == [u] && u in s.uts && s.uts[u].cont == Fresh && s.sleeping == map[]
    ensures IsRun(r')
    ensures var s, s' := Last(r), Last(r');
      && s'.uts.Keys == s.uts.Keys && (forall v :: v in s.uts && v != u ==> s'.uts[v] == s.uts[v])
      && s'.uts[u].joined == s.uts[u].joined && s'.uts[u].status == (if NEW in s.uts[u].status then {READY} else s.uts[u].status)
      && s' == s.(ready := [], cur := s.cur[i := u], pcs := s.pcs[i := Passing(Some(u), [u], [u])],
                  uts := s'.uts, timers := s'.timers, nextTimer := s'.nextTimer)
  {
    hide IsRun, Step, Good, Closed;
    var s := Last(r);
    var r1 := Extend(r, Sched(i, []));
    Wakes(s, i);
    var r2 := Extend(r1, Sched(i, []));
    NothingDue(Last(r1), i);
    r' := Extend(r2, Sched(i, []));
    Resumes(Last(r2), i, u);
    assert s.pcs[i := Expiring([])][i := Passing(Some(u), [u], [])][i := Passing(Some(u), [u], [u])]
        == s.pcs[i := Passing(Some(u), [u], [u])];
    assert [] + [u] == [u];
  }

  lemma StartRun() returns (r: Run)
    ensures IsRun(r)
    ensures var s := Last(r);
      && s.uts.Keys == {0} && s.uts[0].joined == None && s.uts[0].status == {READY}
      && s == Init().(ready := [], cur := map[0 := 0], pcs := Init().pcs[0 := Passing(Some(0), [0], [0])],
                      uts := s.uts, timers := s.timers, nextTimer := s.nextTimer)
  {
    hide Step, Good, Closed;
    r := Round(Run([Init()], []), 0, 0);
  }

  /** Coroutine 0 runs on scheduler 0 without p, coroutine 1 on scheduler 1 with p. */
  ghost predicate Split(s: State) {
    && s.phase == Running && s.owner == 1 && s.cur == map[0 := 0, 1 := 1] && s.ready == [] && s.sleeping == map[]
    && s.now == 0 && 0 in s.pcs && 1 in s.pcs && s.pcs[1] == Passing(Some(1), [1], [1])
    && s.uts.Keys == {0, 1} && s.uts[0].joined == None && s.uts[0].status == {READY}
    && s.uts[1].joined == None && s.uts[1].status == {READY}
  }

  lemma SplitRun() returns (r: Run)
    ensures IsRun(r) && Split(Last(r))
  {
    hide IsRun, Step, Good, Closed;
    var r0 := StartRun();
    var r1 := Extend(r0, DoCreate(0, 1));
    CreateStep(Last(r0));
    var r2 := Extend(r1, DoHandOff(0));
    HandOffStep(Last(r1));
    var r3 := Extend(r2, Sched(1, []));
    StartStep(Last(r2));
    r := Round(r3, 1, 1);
  }

  lemma CreateStep(s: State)
    requires s.phase == Running && Closed(s) && s.owner == 0 && 0 in s.cur && 1 !in s.uts
    ensures Step(s, DoCreate(0, 1)) == Create(s, 0, 1)
  {
  }

  lemma HandOffStep(s: State)
    requires s.phase == Running && Closed(s) && s.owner == 0 && s.cur == map[0 := 0] && s.ready != [] && s.idle == [1, 2, 3]
    ensures Step(s, DoHandOff(0)) ==
      s.(uts := s.uts[0 := s.uts[0].(armed := false)], owner := 1, idle := [2, 3], pcs := s.pcs[1 := Starting])
  {
    assert s.idle[1..] == [2, 3];
  }

  lemma StartStep(s: State)
    requires s.phase == Running && Closed(s) && 1 in s.pcs && 1 !in s.cur && s.pcs[1] == Starting
    ensures Step(s, Sched(1, [])) == s.(tid := 1, pcs := s.pcs[1 := LoopTop])
  {
  }

  /** Coroutine 1 sleeps in a join on coroutine 0; scheduler 1 will poll. */
  ghost predicate Joined(s: State) {
    && s.phase == Running && s.owner == 1 && s.cur == map[0 := 0] && s.ready == [] && s.now == 0
    && 1 in s.pcs && s.uts.Keys == {0, 1} && s.uts[0].joined == Some(1) && s.sleeping == map[10000000 := 1]
  }

  lemma JoinStep(s: State)
    requires Split(s) && Closed(s)
    ensures var s' := Step(s, DoJoin(1, 0)); Joined(s') && s'.pcs[1] == Polling
  {
    assert s.cur - {1} == map[0 := 0];
  }

  lemma PollStep(s: State)
    requires Joined(s) && Closed(s) && s.pcs[1] == Polling
    ensures var s' := Step(s, Sched(1, [])); Joined(s') && s'.pcs[1] == Draining([])
  {
  }

  lemma DrainStep(s: State)
    requires Joined(s) && Closed(s) && s.pcs[1] == Draining([])
    ensures var s' := Step(s, Sched(1, [])); Joined(s') && s'.pcs[1] == LoopTop
  {
  }

  lemma JoinedRun() returns (r: Run)
    ensures IsRun(r) && Joined(Last(r)) && Last(r).pcs[1] == Passing(None, [], [])
  {
    hide IsRun, Step, Good, Closed;
    var r0 := SplitRun();
    var r1 := Extend(r0, DoJoin(1, 0));
    JoinStep(Last(r0));
    var r2 := Extend(r1, Sched(1, []));
    PollStep(Last(r1));
    var r3 := Extend(r2, Sched(1, []));
    DrainStep(Last(r2));
    var r4 := Extend(r3, Sched(1, []));
    assert 10000000 in Last(r3).sleeping;
    Wakes(Last(r3), 1);
    r := Extend(r4, Sched(1, []));
    NothingDue(Last(r4), 1);
  }

  lemma ExitStep(s: State)
    requires Inv(s) && Joined(s) && Closed(s) && s.pcs[1] == Passing(None, [], [])
    ensures var s' := Step(s, DoExit(0));
      s'.phase == Running && s'.owner == 1 && 1 in s'.pcs && s'.pcs[1] == s.pcs[1] && 1 !in s'.cur && s'.ready == [1]
  {
    hide Control, SleepTree, WaitTree, Interest, Places, Step, SchedSteps.Exit;
    RunsOnFacts(s, 0);
    LivePositive(s, 0);
    JoinerSleeps(s, 0, 1);
    StepIsExit(s, 0);
    ExitIsWaking(s, 0, 0, 1);
  }

  /** In some run the pass resumes a coroutine that was not queued when it began. */
  lemma EmptyPassRaces() returns (r: Run, n: nat)
    ensures IsRun(r) && n < |r.acts|
    ensures var s := r.states[n];
      && s.phase == Running && s.owner in s.pcs && s.pcs[s.owner] == Passing(None, [], []) && s.owner !in s.cur
      && r.acts[n] == Sched(s.owner, [])
      && !PassStep(s, r.states[n + 1], s.owner)
  {
    hide Step, Core, Control, Closed, PassStep;
    var r0 := JoinedRun();
    var r1 := Extend(r0, DoExit(0));
    ExitStep(Last(r0));
    r := Extend(r1, Sched(1, []));
    n := |r1.acts|;
    PassExact(r, n);
  }
}
