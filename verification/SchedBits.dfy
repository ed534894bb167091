/** The status word: which bits a coroutine has, in every run, and what a
    coroutine can read off them when it wakes. */
module SchedBits {
  import opened Wrappers
  import opened FdKeys
  import opened SchedState
  import opened SchedCore
  import opened SchedControl
  import opened SchedSteps
  import opened SchedRuns
  import opened SchedActs

  /** The bits of a waiter are those of its wait, nobody else has them, and only
      a coroutine that has never run is new. */
  ghost predicate BitsOk(t: Ut) {
    && (NEW in t.status ==> t.cont == Fresh)
    && (WAIT_RD in t.status <==> SLEEPING in t.status && t.cont.InWait? && t.cont.ev == RD)
    && (WAIT_WR in t.status <==> SLEEPING in t.status && t.cont.InWait? && t.cont.ev == WR)
  }

  ghost predicate Bits(s: State) { forall u :: u in s.uts ==> BitsOk(s.uts[u]) }

  /** The status of a coroutine that comes out of a wait for an fd, apart from
      what the way it was woken adds. */
  ghost function Rest(status: set<St>): set<St> { status - {SLEEPING, READY, WAIT_RD, WAIT_WR} }

  lemma NoticedStatus(t: Ut, eof: bool)
    requires BitsOk(t) && SLEEPING in t.status && t.cont.InWait?
    ensures ResumedStatus(Noticed(t, eof)) ==
      Rest(t.status) + (if t.cont.ev == RD then {READY} else {}) + if eof then {FDEOF} else {}
  {
  }

  lemma TimedOutStatus(t: Ut)
    requires BitsOk(t) && SLEEPING in t.status && t.cont.InWait?
    ensures ResumedStatus(TimedOut(t)) == Rest(t.status) + {READY, EXPIRED}
  {
  }

  /** A switch keeps the bits in agreement. */
  lemma ResumedBits(s: State, s': State, u: Id, t: Ut)
    requires Bits(s) && Resumed(s, s', u, t)
    requires NEW !in ResumedStatus(t) && WAIT_RD !in ResumedStatus(t) && WAIT_WR !in ResumedStatus(t)
    ensures Bits(s')
  {
    forall v | v in s'.uts ensures BitsOk(s'.uts[v]) {
      if v != u { assert BitsOk(s.uts[v]); }
    }
  }

  /** One coroutine that changes. */
  lemma OneChanges(s: State, s': State, u: Id)
    requires Bits(s) && u in s'.uts && BitsOk(s'.uts[u]) && s'.uts == s.uts[u := s'.uts[u]]
    ensures Bits(s')
  {
  }

  lemma SleeperFacts(s: State, u: Id)
    requires Good(s) && Bits(s) && u in s.uts && SLEEPING !in s.uts[u].status
    ensures WAIT_RD !in s.uts[u].status && WAIT_WR !in s.uts[u].status
  {
    hide Good;
  }

  lemma QueueAwake(s: State)
    requires Good(s) && s.ready != []
    ensures s.ready[0] in s.uts && SLEEPING !in s.uts[s.ready[0]].status
  {
    hide SleepTree, Interest, Joins, Counted, Control;
    ReadyAwake(s, s.ready[0]);
  }

  lemma WaiterSleeps(s: State, k: int)
    requires Good(s) && k in s.waiting
    ensures var u := s.waiting[k];
      && u in s.uts && SLEEPING in s.uts[u].status && s.uts[u].cont.InWait?
      && k == FdKey(s.uts[u].cont.fd, s.uts[u].cont.ev)
  {
    hide SleepTree, Interest, Joins, Places, Counted, Control, FdKey;
    assert WaitsFd(s.uts[s.waiting[k]]);
  }

  lemma SleeperSleeps(s: State, k: nat)
    requires Good(s) && k in s.sleeping
    ensures s.sleeping[k] in s.uts && SLEEPING in s.uts[s.sleeping[k]].status
  {
    hide WaitTree, Interest, Joins, Places, Counted, Control;
  }

  // ----------------------------------------------------------------- every run

  /** The bits agree in every state of every run. */
  lemma {:induction false} BitsHold(r: Run, n: nat)
    requires IsRun(r) && n < |r.states| && !r.states[n].phase.Aborted?
    ensures Bits(r.states[n])
    decreases n
  {
    if n > 0 {
      hide Init, Follows, Bits;
      if r.states[n - 1].phase.Aborted? {
        Stepped(r, n - 1);
        AbortedStays(r.states[n - 1], r.acts[n - 1]);
      } else {
        BitsHold(r, n - 1);
        StepBits(r, n - 1);
      }
    }
  }

  lemma StepBits(r: Run, n: nat)
    requires IsRun(r) && n < |r.acts| && Bits(r.states[n]) && !r.states[n].phase.Aborted? && !r.states[n + 1].phase.Aborted?
    ensures Bits(r.states[n + 1])
  {
    hide Init, Follows, Bits, Good, Closed, UserStep, SchedStep, Tick;
    Stepped(r, n);
    var s, a := r.states[n], r.acts[n];
    if s.phase == Running {
      match a
      case DoTick => TickBits(r, n);
      case DoClock(to) =>
        ClockDoes(r, n, to);
        SameBits(s, r.states[n + 1]);
      case Sched(i, events) =>
        if i in s.pcs && i !in s.cur {
          TurnBits(r, n, i, events, s.pcs[i]);
        }
      case _ =>
        if a.i in s.cur {
          Invariant(r, n);
          CurFacts(s, a.i);
          CallBits(r, n, a.i, s.cur[a.i]);
        }
    }
  }

  lemma CurFacts(s: State, i: Sid)
    requires Good(s) && i in s.cur
    ensures RunsOn(s, i, s.cur[i])
  {
    hide Core, Control;
    RunsOnFacts(s, i);
  }

  lemma SameBits(s: State, s': State)
    requires Bits(s) && s'.uts == s.uts
    ensures Bits(s')
  {
  }

  lemma TickBits(r: Run, n: nat)
    requires Does(r, n, DoTick) && Bits(r.states[n])
    ensures Bits(r.states[n + 1])
  {
    hide Init, Follows;
    TickDoes(r, n);
    var s, s' := r.states[n], r.states[n + 1];
    forall u | u in s'.uts ensures BitsOk(s'.uts[u]) { assert BitsOk(s.uts[u]); }
  }

  lemma CallBits(r: Run, n: nat, i: Sid, u: Id)
    requires n < |r.acts| && Calls(r, n, i, u, r.acts[n]) && Bits(r.states[n]) && Good(r.states[n])
    requires !r.acts[n].DoTick? && !r.acts[n].DoClock? && !r.acts[n].Sched? && r.acts[n].i == i
    ensures Bits(r.states[n + 1])
  {
    hide Init, Follows, Bits, Good, Asleep, WakesAt, FdKey;
    var s, s', a := r.states[n], r.states[n + 1], r.acts[n];
    IsUserStep(r, n, i, u, a);
    AwakeBits(s, u);
    match a
    case DoYield(_) =>
      YieldDoes(r, n, i, u);
      OneChanges(s, s', u);
    case DoExit(_) => ExitBits(r, n, i, u);
    case DoCreate(_, v) =>
      if v !in s.uts {
        CreateDoes(r, n, i, u, v);
        OneChanges(s, s', v);
      }
    case DoJoin(_, v) => if v in s.uts { JoinBits(r, n, i, u, v); }
    case DoDetach(_, v) =>
      if v in s.uts {
        DetachDoes(r, n, i, u, v);
        AnyBits(s, v);
        OneChanges(s, s', v);
      }
    case DoRegister(_, fd, ev, msecs) =>
      RegisterDoes(r, n, i, u, fd, ev, msecs);
      assert s'.uts == s.uts[u := s'.uts[u]];
      OneChanges(s, s', u);
    case DoHandOff(_) =>
      HandOffDoes(r, n, i, u);
      OneChanges(s, s', u);
  }

  lemma AnyBits(s: State, u: Id)
    requires Bits(s) && u in s.uts
    ensures BitsOk(s.uts[u])
  {
  }

  lemma AwakeBits(s: State, u: Id)
    requires Bits(s) && u in s.uts && SLEEPING !in s.uts[u].status && s.uts[u].cont == Plain
    ensures BitsOk(s.uts[u]) && NEW !in s.uts[u].status && WAIT_RD !in s.uts[u].status && WAIT_WR !in s.uts[u].status
  {
  }

  lemma ExitBits(r: Run, n: nat, i: Sid, u: Id)
    requires Calls(r, n, i, u, DoExit(i)) && Bits(r.states[n])
    ensures Bits(r.states[n + 1])
  {
    hide Init, Follows;
    ExitDoes(r, n, i, u);
    var s, s' := r.states[n], r.states[n + 1];
    ExitsJoiner(r, n, i, u);
    forall v | v in s'.uts ensures BitsOk(s'.uts[v]) { assert BitsOk(s.uts[v]); }
  }

  lemma ExitsJoiner(r: Run, n: nat, i: Sid, u: Id)
    requires Calls(r, n, i, u, DoExit(i))
    ensures var s := r.states[n]; s.uts[u].joined.Some? ==>
      s.uts[u].joined.value in s.uts && s.uts[s.uts[u].joined.value].cont.InJoin?
  {
    hide UserStep, Good;
    IsUserStep(r, n, i, u, DoExit(i));
    ExitFacts(r.states[n], u);
  }

  lemma JoinBits(r: Run, n: nat, i: Sid, u: Id, v: Id)
    requires Calls(r, n, i, u, DoJoin(i, v)) && Bits(r.states[n]) && v in r.states[n].uts
    requires NEW !in r.states[n].uts[u].status && WAIT_RD !in r.states[n].uts[u].status && WAIT_WR !in r.states[n].uts[u].status
    ensures Bits(r.states[n + 1])
  {
    hide Init, Follows, Asleep;
    JoinDoes(r, n, i, u, v);
    var s, s' := r.states[n], r.states[n + 1];
    forall w | w in s'.uts ensures BitsOk(s'.uts[w]) { assert BitsOk(s.uts[w]); }
  }

  lemma TurnBits(r: Run, n: nat, i: Sid, events: seq<(int, bool)>, pc: Pc)
    requires Turn(r, n, i, events, pc) && Bits(r.states[n])
    ensures Bits(r.states[n + 1])
  {
    hide Init, Follows, Bits, Switches, Expires, Resumed, FdKey;
    var s, s' := r.states[n], r.states[n + 1];
    match pc
    case Unused =>
      UnusedDoes(r, n, i, events);
    case Starting =>
      StartingDoes(r, n, i, events);
      SameBits(s, s');
    case LoopTop =>
      LoopTopDoes(r, n, i, events);
      SameBits(s, s');
    case Expiring(woken) => ExpireBits(r, n, i, events, woken);
    case Passing(_, _, _) => PassBits(r, n, i, events, pc);
    case Polling =>
      PollDoes(r, n, i, events);
      SameBits(s, s');
    case Draining(list) =>
      DrainDoes(r, n, i, events, list);
      SameBits(s, s');
    case Handling(_, _, _, _) => HandleBits(r, n, i, events, pc);
  }

  lemma ExpireBits(r: Run, n: nat, i: Sid, events: seq<(int, bool)>, woken: seq<nat>)
    requires Turn(r, n, i, events, Expiring(woken)) && Bits(r.states[n])
    ensures Bits(r.states[n + 1])
  {
    hide Init, Follows, Bits, Switches, Resumed, Good, SchedStep, Closed;
    ExpireDoes(r, n, i, events, woken);
    IsTurn(r, n, i, events, Expiring(woken));
    var s, s' := r.states[n], r.states[n + 1];
    if forall k :: k in s.sleeping ==> s.now < k {
      SameBits(s, s');
    } else {
      var k: nat :| IsMin(s.sleeping, k) && k <= s.now && Expires(s, s', i, woken, k);
      var u := s.sleeping[k];
      SleeperSleeps(s, k);
      AnyBits(s, u);
      TimedOutStatus(s.uts[u]);
      ResumedBits(s, s', u, TimedOut(s.uts[u]));
    }
  }

  lemma PassBits(r: Run, n: nat, i: Sid, events: seq<(int, bool)>, pc: Pc)
    requires Turn(r, n, i, events, pc) && Bits(r.states[n]) && pc.Passing?
    ensures Bits(r.states[n + 1])
  {
    hide Init, Follows, Bits, Switches, Resumed, Good, SchedStep, Closed;
    PassDoes(r, n, i, events, pc);
    IsTurn(r, n, i, events, pc);
    var s, s' := r.states[n], r.states[n + 1];
    if s.ready == [] {
      SameBits(s, s');
    } else {
      QueueAwake(s);
      AnyBits(s, s.ready[0]);
      ResumedBits(s, s', s.ready[0], s.uts[s.ready[0]]);
    }
  }

  lemma HandleBits(r: Run, n: nat, i: Sid, events: seq<(int, bool)>, pc: Pc)
    requires Turn(r, n, i, events, pc) && Bits(r.states[n]) && pc.Handling?
    ensures Bits(r.states[n + 1])
  {
    hide Init, Follows, Bits, Switches, Resumed, Good, SchedStep, Closed, FdKey;
    HandleDoes(r, n, i, events, pc);
    IsTurn(r, n, i, events, pc);
    var s, s', key := r.states[n], r.states[n + 1], FdKey(pc.fd, pc.ev);
    if key !in s.waiting {
      SameBits(s, s');
    } else {
      var u := s.waiting[key];
      WaiterSleeps(s, key);
      AnyBits(s, u);
      NoticedStatus(s.uts[u], pc.eof);
      ResumedBits(s, s', u, Noticed(s.uts[u], pc.eof));
    }
  }

  /** In every run: the wait bits of a coroutine are those of the wait it sleeps
      in, and only one that has never run is new. */
  lemma StatusBits(r: Run, n: nat, u: Id)
    requires IsRun(r) && n < |r.states| && !r.states[n].phase.Aborted? && u in r.states[n].uts
    ensures var t := r.states[n].uts[u];
      && (NEW in t.status ==> t.cont == Fresh)
      && (WAIT_RD in t.status <==> SLEEPING in t.status && t.cont.InWait? && t.cont.ev == RD)
      && (WAIT_WR in t.status <==> SLEEPING in t.status && t.cont.InWait? && t.cont.ev == WR)
  {
    BitsHold(r, n);
    AnyBits(r.states[n], u);
  }

  /** Woken by an event: the wait is over, FDEOF says whether the peer hung up, a
      reader is READY and a writer is not; no other bit changes. */
  lemma EventStatus(r: Run, n: nat, i: Sid, events: seq<(int, bool)>, pc: Pc)
    requires Turn(r, n, i, events, pc) && pc.Handling? && FdKey(pc.fd, pc.ev) in r.states[n].waiting
    ensures var s, s', u := r.states[n], r.states[n + 1], r.states[n].waiting[FdKey(pc.fd, pc.ev)];
      && u in s.uts && u in s'.uts && s'.uts[u].wakeup == s.uts[u].wakeup && s'.uts[u].joined == s.uts[u].joined
      && s'.uts[u].status == s.uts[u].status - {SLEEPING, READY, WAIT_RD, WAIT_WR}
           + (if pc.ev == RD then {READY} else {}) + if pc.eof then {FDEOF} else {}
  {
    hide Init, Follows, Bits, Switches, Good, SchedStep, Closed, FdKey;
    HandleDoes(r, n, i, events, pc);
    IsTurn(r, n, i, events, pc);
    BitsHold(r, n);
    var s, key := r.states[n], FdKey(pc.fd, pc.ev);
    WaiterSleeps(s, key);
    AnyBits(s, s.waiting[key]);
    KeyOrder(pc.fd, pc.ev, s.uts[s.waiting[key]].cont.fd, s.uts[s.waiting[key]].cont.ev);
    NoticedStatus(s.uts[s.waiting[key]], pc.eof);
  }

  /** Woken by its deadline: the wait is over, EXPIRED says so; no other bit but
      READY changes. */
  lemma ExpiredStatus(r: Run, n: nat, i: Sid, events: seq<(int, bool)>, woken: seq<nat>)
    requires Turn(r, n, i, events, Expiring(woken)) && i in r.states[n + 1].cur
    ensures var s, s', u := r.states[n], r.states[n + 1], r.states[n + 1].cur[i];
      && u in s.uts && u in s'.uts && s'.uts[u].wakeup == s.uts[u].wakeup && s'.uts[u].joined == s.uts[u].joined
      && s'.uts[u].status == s.uts[u].status - {SLEEPING, READY, WAIT_RD, WAIT_WR} + {READY, EXPIRED}
  {
    hide Init, Follows, Bits, Good, SchedStep, Closed;
    ExpireDoes(r, n, i, events, woken);
    IsTurn(r, n, i, events, Expiring(woken));
    BitsHold(r, n);
    var s, s' := r.states[n], r.states[n + 1];
    var k: nat :| IsMin(s.sleeping, k) && k <= s.now && Expires(s, s', i, woken, k);
    SleeperSleeps(s, k);
    AnyBits(s, s.sleeping[k]);
    TimedOutStatus(s.uts[s.sleeping[k]]);
  }

  /** Taken from the ready queue: a new coroutine loses all bits for READY, any
      other keeps its own; who comes out of a join with EXPIRED left over is
      forgotten by its target, and nobody else is touched. */
  lemma QueueStatus(r: Run, n: nat, i: Sid, events: seq<(int, bool)>, pc: Pc)
    requires Turn(r, n, i, events, pc) && pc.Passing? && r.states[n].ready != []
    ensures var s, s', u := r.states[n], r.states[n + 1], r.states[n].ready[0];
      && s'.uts.Keys == s.uts.Keys && u in s.uts && s'.uts[u].wakeup == s.uts[u].wakeup && s'.uts[u].joined == s.uts[u].joined
      && s'.uts[u].status == (if NEW in s.uts[u].status then {READY} else s.uts[u].status)
      && forall v :: v in s.uts && v != u ==>
           s'.uts[v] == if s.uts[u].cont == InJoin(v) && EXPIRED in s.uts[u].status then s.uts[v].(joined := None) else s.uts[v]
  {
    hide Init, Follows, Bits, Switches, Good, SchedStep, Closed;
    PassDoes(r, n, i, events, pc);
    IsTurn(r, n, i, events, pc);
    BitsHold(r, n);
    QueueAwake(r.states[n]);
    AnyBits(r.states[n], r.states[n].ready[0]);
  }
}
