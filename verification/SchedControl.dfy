/** What every step keeps about the schedulers themselves: who owns p, whom a
    tick may signal, how far the pass over the ready queue and the expiry sweep
    have come. */
module SchedControl {
  import opened Wrappers
  import opened FdKeys
  import opened Countdowns
  import opened SchedState
  import opened SchedCore

  /** The places where a scheduler switches to a coroutine. */
  ghost predicate CanRun(pc: Pc) { pc.Expiring? || pc.Passing? || pc.Handling? }

  /** The places where a scheduler goes on that runs a coroutine. */
  ghost predicate RunsFrom(pc: Pc) {
    (pc.Expiring? && pc.woken != []) || pc.Passing? || pc.Draining? || (pc.Handling? && pc.ev == WR)
  }

  /** The places where a scheduler that runs nothing still has p: its last look
      at sched->p came after its last coroutine. */
  ghost predicate NeedsP(pc: Pc) {
    (pc.Expiring? && pc.woken == []) || pc.Passing? || pc.Polling? || (pc.Handling? && pc.ev == RD)
  }

  /** p belongs to one scheduler, which is no idle one; its thread id is known
      from the moment the scheduler's thread runs. */
  ghost predicate Owned(s: State) {
    && s.owner in s.pcs && s.pcs[s.owner] != Unused
    && NoDup(s.idle) && (forall j :: j in s.idle ==> j in s.pcs && s.pcs[j] == Unused)
    && (forall i :: i in s.cur ==> i in s.pcs && RunsFrom(s.pcs[i]))
    && (forall i :: i in s.pcs && i !in s.cur && NeedsP(s.pcs[i]) ==> i == s.owner)
    && (forall i :: i in s.pcs && s.pcs[i] == Starting ==> i == s.owner)
    && (s.tid == s.owner || s.pcs[s.owner] == Starting)
  }

  ghost predicate OnCpu(s: State, u: Id) { s.owner in s.cur && s.cur[s.owner] == u && s.tid == s.owner }

  /** A coroutine that may be signalled has never run, or runs now on the thread
      that p names; and only coroutines that have run have timer nodes. */
  ghost predicate Targets(s: State) {
    && (forall u :: u in s.uts && s.uts[u].armed ==> s.uts[u].cont == Fresh || OnCpu(s, u))
    && (forall n :: n in s.timers ==>
          n < s.nextTimer && s.timers[n].ut in s.uts && s.uts[s.timers[n].ut].cont != Fresh)
  }

  ghost predicate TimerLeft(s: State, u: Id, r: nat) { exists n :: n in s.timers && s.timers[n] == Countdown(u, r) }

  /** A coroutine that has kept running with its flag set has been signalled, or
      a timer node will fire for it by the second tick after its resume. */
  ghost predicate Preempts(s: State) {
    s.owner in s.cur && s.cur[s.owner] in s.uts && s.uts[s.cur[s.owner]].armed ==>
      var t := s.uts[s.cur[s.owner]];
      t.signalled || (t.age <= 1 && TimerLeft(s, s.cur[s.owner], 1 - t.age))
  }

  /** A pass that began with a non-empty queue has resumed, in order, a prefix
      of that queue, and the rest of it is at the front of the ready queue. */
  ghost predicate PassOk(ready: seq<Id>, pc: Pc, running: Option<Id>)
    requires pc.Passing?
  {
    var d, n := |pc.done|, |pc.snap|;
    && pc.last == (if n == 0 then None else Some(pc.snap[n - 1]))
    && (n > 0 ==>
          && NoDup(pc.snap) && d <= n && pc.snap[..d] == pc.done
          && n - d <= |ready| && pc.snap[d..] == ready[..n - d]
          && (match running
              case Some(u) => d > 0 && pc.done[d - 1] == u
              case None => d < n))
  }

  ghost function RunningOn(s: State, i: Sid): Option<Id> { if i in s.cur then Some(s.cur[i]) else None }

  ghost predicate Passes(s: State) {
    s.owner in s.pcs && s.pcs[s.owner].Passing? ==> PassOk(s.ready, s.pcs[s.owner], RunningOn(s, s.owner))
  }

  ghost predicate Rising(w: seq<nat>) { forall i, j :: 0 <= i < j < |w| ==> w[i] <= w[j] }

  /** The sweep serves deadlines in non-decreasing order, none before its time,
      and every sleeper left has a deadline no earlier than the last one served. */
  ghost predicate SweepOk(s: State, woken: seq<nat>) {
    && Rising(woken)
    && (woken != [] ==> woken[|woken| - 1] <= s.now && forall k :: k in s.sleeping ==> woken[|woken| - 1] <= k)
  }

  ghost predicate Sweeps(s: State) {
    s.owner in s.pcs && s.pcs[s.owner].Expiring? ==> SweepOk(s, s.pcs[s.owner].woken)
  }

  ghost predicate Control(s: State) { Owned(s) && Targets(s) && Preempts(s) && Passes(s) && Sweeps(s) }

  // ------------------------------------------------------------ switching in

  /** The scheduler `i`, which has p, switches to `u` and will go on at `pc`. */
  ghost predicate SwitchedTo(s: State, s': State, i: Sid, u: Id, pc: Pc) {
    && OnlyUt(s, s', u) && s'.uts[u].cont == Plain && s'.uts[u].armed && s'.uts[u].age == 0 && !s'.uts[u].signalled
    && s'.cur == s.cur[i := u] && s'.pcs == s.pcs[i := pc]
    && s'.owner == s.owner == i && s'.tid == s.tid && s'.idle == s.idle && s'.now == s.now
    && s'.timers == s.timers[s.nextTimer := Countdown(u, 1)] && s'.nextTimer == s.nextTimer + 1
  }

  lemma InOwned(s: State, s': State, i: Sid, u: Id, pc: Pc)
    requires Owned(s) && SwitchedTo(s, s', i, u, pc) && i in s.pcs && RunsFrom(pc) && CanRun(s.pcs[i])
    ensures Owned(s') && OnCpu(s', u)
  {
  }

  lemma InTargets(s: State, s': State, i: Sid, u: Id, pc: Pc)
    requires Owned(s) && Targets(s) && SwitchedTo(s, s', i, u, pc) && i in s.pcs && RunsFrom(pc) && CanRun(s.pcs[i])
    requires i !in s.cur
    ensures Targets(s') && Preempts(s')
  {
    InOwned(s, s', i, u, pc);
    assert s'.timers[s.nextTimer] == Countdown(u, 1);
    assert TimerLeft(s', u, 1);
  }

  /** The switch inside the ready loop. */
  lemma InPass(s: State, s': State, i: Sid, pc: Pc)
    requires s.ready != [] && pc.Passing? && i == s.owner && i in s.pcs && s.pcs[i] == pc && i !in s.cur && Passes(s)
    requires SwitchedTo(s, s', i, s.ready[0], pc.(done := pc.done + [s.ready[0]])) && s'.ready == s.ready[1..]
    ensures Passes(s') && Sweeps(s')
  {
    if pc.snap != [] {
      var u, d := s.ready[0], |pc.done|;
      assert pc.snap[d] == pc.snap[d..][0] == u;
      assert pc.snap[..d + 1] == pc.done + [u];
      assert pc.snap[d + 1..] == pc.snap[d..][1..] == s'.ready[..|pc.snap| - d - 1];
    }
  }

  /** The switch inside the expiry sweep. */
  lemma InSweep(s: State, s': State, i: Sid, u: Id, k: nat, woken: seq<nat>)
    requires i == s.owner && i in s.pcs && s.pcs[i] == Expiring(woken) && Sweeps(s)
    requires IsMin(s.sleeping, k) && k <= s.now && s'.sleeping == s.sleeping - {k}
    requires SwitchedTo(s, s', i, u, Expiring(woken + [k]))
    ensures Sweeps(s') && Passes(s')
  {
  }

  // ----------------------------------------------------------- switching back

  /** The coroutine `u` gives its scheduler back; nobody else is touched in what
      matters here. */
  ghost predicate SwitchedBack(s: State, s': State, i: Sid, u: Id) {
    && i in s.cur && s.cur[i] == u && s'.cur == s.cur - {i} && u in s.uts
    && s'.uts.Keys == s.uts.Keys && !s'.uts[u].armed && s'.uts[u].cont != Fresh
    && (forall v :: v in s.uts && v != u ==> Alike(s.uts[v], s'.uts[v]))
    && s'.owner == s.owner && s'.tid == s.tid && s'.idle == s.idle && s'.now == s.now
    && s'.timers == s.timers && s'.nextTimer == s.nextTimer
  }

  ghost predicate Alike(a: Ut, b: Ut) {
    b.armed == a.armed && b.cont == a.cont && b.age == a.age && b.signalled == a.signalled
  }

  /** Where the scheduler goes on: see AfterPass. */
  ghost function NextPcs(s: State, i: Sid, u: Id): map<Sid, Pc>
    requires i in s.pcs
  {
    if s.pcs[i].Passing? && s.owner != i then s.pcs[i := LoopTop]
    else if s.pcs[i].Passing? && s.pcs[i].last == Some(u) then s.pcs[i := Polling]
    else s.pcs
  }

  ghost predicate GoesOn(s: State, s': State, i: Sid, u: Id)
    requires i in s.pcs
  {
    s'.pcs == NextPcs(s, i, u)
  }

  lemma BackOwned(s: State, s': State, i: Sid, u: Id)
    requires Owned(s) && i in s.pcs && SwitchedBack(s, s', i, u) && GoesOn(s, s', i, u)
    ensures Owned(s')
  {
  }

  lemma BackTargets(s: State, s': State, i: Sid, u: Id)
    requires Owned(s) && Targets(s) && Preempts(s) && Injective(s.cur) && i in s.pcs
    requires SwitchedBack(s, s', i, u) && GoesOn(s, s', i, u)
    ensures Targets(s') && Preempts(s')
  {
    forall v | v in s'.uts && s'.uts[v].armed ensures s'.uts[v].cont == Fresh || OnCpu(s', v) {
      assert v != u && Alike(s.uts[v], s'.uts[v]);
      if OnCpu(s, v) { assert s.owner != i; }
    }
    if s'.owner in s'.cur && s'.cur[s'.owner] in s'.uts && s'.uts[s'.cur[s'.owner]].armed {
      var v := s'.cur[s'.owner];
      assert v != u && Alike(s.uts[v], s'.uts[v]);
      if !s.uts[v].signalled {
        assert TimerLeft(s, v, 1 - s.uts[v].age);
        assert TimerLeft(s', v, 1 - s.uts[v].age);
      }
    }
  }

  /** `ready` may only have grown at its end. */
  lemma BackPasses(s: State, s': State, i: Sid, u: Id)
    requires Passes(s) && i in s.pcs && SwitchedBack(s, s', i, u) && GoesOn(s, s', i, u) && s.ready <= s'.ready
    ensures Passes(s')
  {
    if s'.owner in s'.pcs && s'.pcs[s'.owner].Passing? {
      var pc := s.pcs[s.owner];
      var n, d := |pc.snap|, |pc.done|;
      assert n > 0 ==> s'.ready[..n - d] == s.ready[..n - d];
      if i == s.owner && n > 0 {
        assert pc.last != Some(u) && pc.done[d - 1] == u;
        assert pc.snap[d - 1] == pc.snap[..d][d - 1] == u;
      }
    }
  }

  /** A coroutine only goes to sleep until a later time. */
  lemma BackSweeps(s: State, s': State, i: Sid, u: Id)
    requires Sweeps(s) && i in s.pcs && SwitchedBack(s, s', i, u) && GoesOn(s, s', i, u)
    requires forall k :: k in s'.sleeping ==> k in s.sleeping || s.now <= k
    ensures Sweeps(s')
  {
  }

  // -------------------------------------------------- only the place changes

  /** A scheduler that runs nothing moves on from one place to another. */
  ghost predicate Moved(s: State, s': State, i: Sid, pc: Pc) {
    i in s.pcs && i !in s.cur && s' == s.(pcs := s.pcs[i := pc], tid := if s.pcs[i] == Starting then i else s.tid)
  }

  lemma ControlMoved(s: State, s': State, i: Sid, pc: Pc)
    requires Control(s) && Moved(s, s', i, pc) && s.pcs[i] != Unused && pc != Unused && pc != Starting
    requires pc.Passing? ==> NoDup(s.ready) && pc == Passing(if s.ready == [] then None else Some(s.ready[|s.ready| - 1]), s.ready, [])
    requires (pc.Expiring? ==> pc.woken == []) && (NeedsP(pc) ==> i == s.owner)
    ensures Control(s')
  {
    assert Owned(s');
    forall v | v in s'.uts && s'.uts[v].armed ensures s'.uts[v].cont == Fresh || OnCpu(s', v) {
      assert s.uts[v].armed;
    }
    assert Targets(s');
    MovedPreempts(s, s', i, pc);
    if pc.Passing? && i == s.owner {
      assert s.ready[..|s.ready|] == s.ready;
    }
  }

  lemma MovedPreempts(s: State, s': State, i: Sid, pc: Pc)
    requires Owned(s) && Preempts(s) && Moved(s, s', i, pc)
    ensures Preempts(s')
  {
    if s'.owner in s'.cur && s'.cur[s'.owner] in s'.uts && s'.uts[s'.cur[s'.owner]].armed {
      var v := s.cur[s.owner];
      if !s.uts[v].signalled {
        assert TimerLeft(s', v, 1 - s.uts[v].age) by { assert TimerLeft(s, v, 1 - s.uts[v].age); }
      }
    }
  }

  // ------------------------------------------------------------ other effects

  /** Coroutines may be added or lose their flag; the schedulers stay. */
  ghost predicate Calm(s: State, s': State) {
    && s'.cur == s.cur && s'.pcs == s.pcs && s'.owner == s.owner && s'.tid == s.tid && s'.idle == s.idle
    && s.now <= s'.now && s'.timers == s.timers && s'.nextTimer == s.nextTimer
    && s'.sleeping == s.sleeping && s.ready <= s'.ready && s.uts.Keys <= s'.uts.Keys
    && (forall v :: v in s.uts ==> Milder(s.uts[v], s'.uts[v]))
    && (forall v :: v in s'.uts && v !in s.uts ==> s'.uts[v].cont == Fresh)
  }

  ghost predicate Milder(a: Ut, b: Ut) {
    (b.armed ==> a.armed) && b.cont == a.cont && b.age == a.age && b.signalled == a.signalled
  }

  lemma ControlCalm(s: State, s': State)
    requires Control(s) && Calm(s, s') && (forall i :: i in s.cur ==> s.cur[i] in s.uts)
    ensures Control(s')
  {
    assert Owned(s');
    CalmTargets(s, s');
    CalmPreempts(s, s');
    CalmPasses(s, s');
    assert Sweeps(s');
  }

  lemma CalmTargets(s: State, s': State)
    requires Targets(s) && Calm(s, s')
    ensures Targets(s')
  {
    forall v | v in s'.uts && s'.uts[v].armed ensures s'.uts[v].cont == Fresh || OnCpu(s', v) {
      if v in s.uts { assert Milder(s.uts[v], s'.uts[v]); }
    }
  }

  lemma CalmPreempts(s: State, s': State)
    requires Preempts(s) && Calm(s, s') && (forall i :: i in s.cur ==> s.cur[i] in s.uts)
    ensures Preempts(s')
  {
    if s'.owner in s'.cur && s'.uts[s'.cur[s'.owner]].armed {
      var v := s.cur[s.owner];
      assert Milder(s.uts[v], s'.uts[v]);
      if !s.uts[v].signalled {
        assert TimerLeft(s', v, 1 - s.uts[v].age) by { assert TimerLeft(s, v, 1 - s.uts[v].age); }
      }
    }
  }

  lemma CalmPasses(s: State, s': State)
    requires Passes(s) && Calm(s, s')
    ensures Passes(s')
  {
    if s.owner in s.pcs && s.pcs[s.owner].Passing? {
      var n, d := |s.pcs[s.owner].snap|, |s.pcs[s.owner].done|;
      assert n > 0 ==> s'.ready[..n - d] == s.ready[..n - d];
    }
  }

  /** p goes to the first idle scheduler, whose thread has yet to start. */
  ghost predicate HandedOff(s: State, s': State, i: Sid, u: Id) {
    && i == s.owner && i in s.cur && s.cur[i] == u && u in s.uts && s.idle != []
    && s' == s.(uts := s.uts[u := s.uts[u].(armed := false)], owner := s.idle[0], idle := s.idle[1..],
                pcs := s.pcs[s.idle[0] := Starting])
  }

  lemma ControlHandedOff(s: State, s': State, i: Sid, u: Id)
    requires Control(s) && HandedOff(s, s', i, u)
    ensures Control(s')
  {
    assert s.idle[0] in s.idle;
    assert s.pcs[s.owner] != Starting by { assert RunsFrom(s.pcs[i]); }
    assert Owned(s') by {
      assert forall j :: j in s'.idle ==> j in s.idle && j != s.idle[0];
    }
    assert Targets(s');
  }

  /** A tick signals whoever is due, and counts. */
  lemma ControlTick(s: State)
    requires Control(s) && (forall i :: i in s.cur ==> s.cur[i] in s.uts)
    ensures Control(Tick(s))
  {
    var s' := Tick(s);
    assert Owned(s') && Passes(s') && Sweeps(s');
    forall v | v in s'.uts && s'.uts[v].armed ensures s'.uts[v].cont == Fresh || OnCpu(s', v) {
      assert s.uts[v].armed;
    }
    assert Targets(s');
    if s'.owner in s'.cur && s'.uts[s'.cur[s'.owner]].armed {
      var u := s.cur[s.owner];
      var t := s.uts[u];
      assert t.armed;
      if !t.signalled {
        assert TimerLeft(s, u, 1 - t.age);
        var n :| n in s.timers && s.timers[n] == Countdown(u, 1 - t.age);
        if t.age == 1 {
          assert u in Signals(s);
        } else {
          assert s'.timers[n] == Countdown(u, 0);
          assert TimerLeft(s', u, 0);
        }
      }
    }
  }
}
