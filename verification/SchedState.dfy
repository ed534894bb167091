/** The runtime as a state machine.

  A state holds the coroutines, the one processor `p` with its ready queue, its
  two trees and its epoll interest set, the schedulers (one thread each), the
  pending timer nodes and the clock.  A step is a piece of runtime code that
  runs without a context switch, or a move of the environment: a user action of
  a running coroutine, a tick, the clock, the start of a thread.  A failed
  assert or the use of a null pointer ends the process.

  The trees are maps from key to coroutine here; SchedCode has the red-black
  trees that these maps stand for, and the code that works on them.
 */
module SchedState {
  import opened Wrappers
  import opened FdKeys
  import opened Countdowns

  type Id = nat
  type Sid = nat

  /** The bits of uthread.status. */
  datatype St = NEW | READY | EXITED | SLEEPING | DETACHED | EXPIRED | FDEOF | WAIT_RD | WAIT_WR

  /** Where a suspended coroutine goes on when it is switched to. */
  datatype Cont = Fresh | Plain | InJoin(target: Id) | InWait(fd: int, ev: Event)

  /** `age` and `signalled` are history: ticks, and whether a signal was sent,
      since the coroutine was last resumed. */
  datatype Ut = Ut(status: set<St>, wakeup: nat, fdWait: int, joined: Option<Id>, armed: bool,
                   cont: Cont, age: nat, signalled: bool)

  /** Where a scheduler's code stands; while it runs a coroutine, where it will
      go on.  `woken`, `snap` and `done` are history: the deadlines served by
      this expiry sweep, the ready queue when this pass began, and the
      coroutines the pass has resumed. */
  datatype Pc =
    | Unused
    | Starting
    | LoopTop
    | Expiring(woken: seq<nat>)
    | Passing(last: Option<Id>, snap: seq<Id>, done: seq<Id>)
    | Polling
    | Draining(events: seq<(int, bool)>)
    | Handling(fd: int, ev: Event, eof: bool, events: seq<(int, bool)>)

  datatype Fault = DelFailed | AddFailed | FdMismatch | SameDeadline | NullP | NoIdleSched

  datatype Phase = Running | Aborted(why: Fault) | Finished

  datatype State = State(
    phase: Phase,
    uts: map<Id, Ut>,
    ready: seq<Id>,
    sleeping: map<nat, Id>,
    waiting: map<int, Id>,
    epoll: set<int>,
    cur: map<Sid, Id>,
    pcs: map<Sid, Pc>,
    owner: Sid,
    tid: Sid,
    idle: seq<Sid>,
    live: nat,
    timers: map<nat, Countdown>,
    nextTimer: nat,
    now: nat)

  /** After _runtime_init and _uthread_create_main: the main coroutine is ready. */
  function Init(): State {
    State(Running, map[0 := Ut({READY}, 0, -1, None, true, Fresh, 0, false)], [0], map[], map[], {},
          map[], map[0 := LoopTop, 1 := Unused, 2 := Unused, 3 := Unused], 0, 0, [1, 2, 3], 1, map[], 0, 0)
  }

  function Abort(s: State, why: Fault): State { s.(phase := Aborted(why)) }

  predicate Bound(s: State, i: Sid) { s.owner == i }

  predicate WorkDone(s: State) { s.ready == [] && s.sleeping == map[] && s.waiting == map[] }

  function SetUt(s: State, u: Id, t: Ut): State { s.(uts := s.uts[u := t]) }

  // ------------------------------------------------------- uthread_sched.c

  /** _uthread_desched_sleep */
  function DeschedSleep(s: State, u: Id): State
    requires u in s.uts
  {
    var t := s.uts[u];
    if SLEEPING in t.status then
      SetUt(s, u, t.(status := t.status - {SLEEPING} + {READY})).(sleeping := s.sleeping - {t.wakeup})
    else s
  }

  /** _uthread_desched_event on a key of the waiting tree */
  function DeschedEvent(s: State, key: int): State
    requires key in s.waiting && s.waiting[key] in s.uts
  {
    DeschedSleep(s.(waiting := s.waiting - {key}), s.waiting[key])
  }

  /** The status bits that _uthread_cancel_event and handle_event clear: in the
      write case the bit tested has the value of READY. */
  function ClearWaitBit(status: set<St>): set<St> {
    if WAIT_RD in status then status - {WAIT_RD} else status - {READY}
  }

  /** _uthread_cancel_event */
  function CancelEvent(s: State, u: Id): State
    requires u in s.uts && (forall k :: k in s.waiting ==> s.waiting[k] in s.uts)
  {
    var t := s.uts[u];
    var fd := FdOnly(t.fdWait);
    var s1 := SetUt(s, u, t.(status := ClearWaitBit(t.status)));
    if fd !in s.epoll then Abort(s1, DelFailed)
    else
      var s2 := s1.(epoll := s.epoll - {fd});
      var key := fd * WIDTH + FdEvent(t.fdWait);
      var s3 := if t.fdWait >= 0 && key in s2.waiting then DeschedEvent(s2, key) else s2;
      SetUt(s3, u, s3.uts[u].(fdWait := -1))
  }

  /** What a coroutine that was suspended at `cont` does before it is back in
      user code: the ends of _uthread_sched_sleep, _register_event and
      uthread_join. */
  function GoOn(uts: map<Id, Ut>, u: Id, cont: Cont): map<Id, Ut>
    requires u in uts
  {
    var t := uts[u];
    match cont
    case Fresh => uts
    case Plain => uts
    case InWait(_, ev) =>
      uts[u := t.(fdWait := -1, status := t.status - {SLEEPING, if ev == RD then WAIT_RD else WAIT_WR})]
    case InJoin(target) =>
      var uts' := uts[u := t.(status := t.status - {SLEEPING})];
      if EXPIRED in t.status && target in uts' then uts'[target := uts'[target].(joined := None)] else uts'
  }

  /** The part of _uthread_resume before the switch, and what the coroutine does
      before it is back in user code. */
  function Dispatch(s: State, i: Sid, u: Id): State
    requires u in s.uts
  {
    var t := s.uts[u];
    var status := if NEW in t.status then {READY} else t.status;
    var t' := t.(status := status, armed := true, age := 0, signalled := false, cont := Plain);
    s.(cur := s.cur[i := u], timers := s.timers[s.nextTimer := Countdown(u, 1)], nextTimer := s.nextTimer + 1,
       uts := GoOn(s.uts[u := t'], u, t.cont))
  }

  /** The least key of the sleeping tree. */
  predicate IsMin(m: map<nat, Id>, k: nat) { k in m && forall k' :: k' in m ==> k <= k' }

  ghost function MinKey(m: map<nat, Id>): (k: nat)
    requires m != map[]
    ensures IsMin(m, k)
  {
    MinExists(m);
    var k :| IsMin(m, k);
    k
  }

  lemma {:induction false} MinExists(m: map<nat, Id>)
    requires m != map[]
    ensures exists k :: IsMin(m, k)
    decreases |m|
  {
    var x :| x in m;
    var m' := m - {x};
    assert forall k :: k in m ==> k == x || k in m';
    if m' == map[] {
      assert IsMin(m, x);
    } else {
      assert |m'| == |m| - 1;
      MinExists(m');
      var y :| IsMin(m', y);
      assert IsMin(m, if x < y then x else y);
    }
  }

  /** The body of the loop of _uthread_resume_expired. */
  function WakeExpired(s: State, i: Sid, u: Id): State
    requires u in s.uts && (forall k :: k in s.waiting ==> s.waiting[k] in s.uts)
  {
    var s1 := CancelEvent(s, u);
    if s1.phase != Running then s1
    else
      var s2 := DeschedSleep(s1, u);
      Dispatch(SetUt(s2, u, s2.uts[u].(status := s2.uts[u].status + {EXPIRED})), i, u)
  }

  /** One turn of the loop of _uthread_resume_expired. */
  ghost function Expire(s: State, i: Sid, woken: seq<nat>): State
    requires forall k :: k in s.sleeping ==> s.sleeping[k] in s.uts
    requires forall k :: k in s.waiting ==> s.waiting[k] in s.uts
  {
    if !Bound(s, i) then Abort(s, NullP)
    else if s.sleeping != map[] && MinKey(s.sleeping) <= s.now then
      var k := MinKey(s.sleeping);
      var s' := WakeExpired(s, i, s.sleeping[k]);
      if s'.phase != Running then s' else s'.(pcs := s.pcs[i := Expiring(woken + [k])])
    else
      s.(pcs := s.pcs[i := Passing(if s.ready == [] then None else Some(s.ready[|s.ready| - 1]), s.ready, [])])
  }

  /** The ready loop of _sched_run, up to the switch. */
  function PassOn(s: State, i: Sid, pc: Pc): State
    requires pc.Passing? && (forall u :: u in s.ready ==> u in s.uts)
  {
    if !Bound(s, i) then Abort(s, NullP)
    else if s.ready == [] then s.(pcs := s.pcs[i := Polling])
    else
      var u := s.ready[0];
      Dispatch(s.(ready := s.ready[1..]), i, u).(pcs := s.pcs[i := pc.(done := pc.done + [u])])
  }

  /** _uthread_poll: the kernel's list counts only if nothing is due or ready. */
  ghost function Poll(s: State, i: Sid, events: seq<(int, bool)>): State {
    if !Bound(s, i) then Abort(s, NullP)
    else
      var due := s.sleeping != map[] && MinKey(s.sleeping) <= s.now;
      s.(pcs := s.pcs[i := Draining(if !due && s.ready == [] then events else [])])
  }

  /** handle_event, called for RD and then for WR. */
  function HandleEvent(s: State, i: Sid, pc: Pc): State
    requires pc.Handling? && (forall k :: k in s.waiting ==> s.waiting[k] in s.uts)
  {
    var next := if pc.ev == RD then pc.(ev := WR) else Draining(pc.events);
    var key := FdKey(pc.fd, pc.ev);
    if !Bound(s, i) then Abort(s, NullP)
    else if key !in s.waiting then s.(pcs := s.pcs[i := next])
    else
      var u := s.waiting[key];
      var s1 := DeschedEvent(s, key);
      var t := s1.uts[u];
      if pc.fd != FdOnly(t.fdWait) then Abort(s1, FdMismatch)
      else if pc.fd !in s.epoll then Abort(s1, DelFailed)
      else
        var t' := t.(status := ClearWaitBit(t.status) + if pc.eof then {FDEOF} else {});
        Dispatch(SetUt(s1, u, t').(epoll := s.epoll - {pc.fd}), i, u).(pcs := s.pcs[i := next])
  }

  /** The code of scheduler `i` from where it stands to the next switch or to
      the next place where it looks at shared data again. */
  ghost function SchedStep(s: State, i: Sid, events: seq<(int, bool)>): State
    requires i in s.pcs
    requires forall u :: u in s.ready ==> u in s.uts
    requires forall k :: k in s.sleeping ==> s.sleeping[k] in s.uts
    requires forall k :: k in s.waiting ==> s.waiting[k] in s.uts
  {
    match s.pcs[i]
    case Unused => s
    case Starting => s.(tid := i, pcs := s.pcs[i := LoopTop])
    case LoopTop =>
      if Bound(s, i) && !WorkDone(s) then s.(pcs := s.pcs[i := Expiring([])])
      else if s.live == 0 then s.(phase := Finished)
      else s
    case Expiring(woken) => Expire(s, i, woken)
    case Passing(_, _, _) => PassOn(s, i, s.pcs[i])
    case Polling => Poll(s, i, events)
    case Draining(list) =>
      if !Bound(s, i) || list == [] then s.(pcs := s.pcs[i := LoopTop])
      else
        var (fd, eof) := list[|list| - 1];
        s.(pcs := s.pcs[i := Handling(fd, RD, eof, list[..|list| - 1])])
    case Handling(_, _, _, _) => HandleEvent(s, i, s.pcs[i])
  }

  // --------------------------------------------------------------- uthread.c

  /** Where the ready loop goes after the coroutine `u` has come back. */
  function AfterPass(s: State, i: Sid, u: Id): State
    requires i in s.pcs
  {
    if s.pcs[i].Passing? then
      if !Bound(s, i) then s.(pcs := s.pcs[i := LoopTop])
      else if s.pcs[i].last == Some(u) then s.(pcs := s.pcs[i := Polling])
      else s
    else s
  }

  function Append(s: State, u: Id): State { s.(ready := s.ready + [u]) }

  /** The end of the exited coroutine `u`: its joiner wakes, the count goes down. */
  function Finish(s: State, u: Id): State
    requires u in s.uts
  {
    var j := s.uts[u].joined;
    var s' := if j.Some? && j.value in s.uts then Append(DeschedSleep(s, j.value), j.value) else s;
    s'.(live := if s'.live == 0 then 0 else s'.live - 1)
  }

  /** The part of _uthread_resume after the switch back from `u`. */
  function SwitchBack(s: State, i: Sid, u: Id): State
    requires i in s.pcs && u in s.uts
  {
    var t := s.uts[u].(armed := false);
    var s1 := SetUt(s, u, t).(cur := s.cur - {i});
    if EXITED in t.status then AfterPass(Finish(s1, u), i, u)
    else if SLEEPING in t.status then AfterPass(s1, i, u)
    else if !Bound(s1, i) then Abort(s1, NullP)
    else AfterPass(Append(s1, u), i, u)
  }

  /** A timeout of 0 stands for 2^30 seconds (the macro's 1<<31-1 is 1<<30). */
  function Deadline(now: nat, msecs: nat): nat {
    now + (if msecs == 0 then 0x4000_0000 * 1000 else msecs) * 1000
  }

  /** _uthread_sched_sleep up to the switch. */
  function SchedSleep(s: State, i: Sid, u: Id, msecs: nat, cont: Cont): State
    requires i in s.pcs && u in s.uts
  {
    var k := Deadline(s.now, msecs);
    var t := s.uts[u].(wakeup := k, cont := cont);
    if k in s.sleeping then Abort(SetUt(s, u, t), SameDeadline)
    else SwitchBack(SetUt(s, u, t.(status := t.status + {SLEEPING})).(sleeping := s.sleeping[k := u]), i, u)
  }

  /** _register_event up to the switch. */
  function Register(s: State, i: Sid, u: Id, fd: int, ev: Event, msecs: nat): State
    requires i in s.pcs && u in s.uts
  {
    if !Bound(s, i) then Abort(s, NullP)
    else if fd < 0 || fd in s.epoll then Abort(s, AddFailed)
    else
      var key := FdKey(fd, ev);
      var t := s.uts[u];
      var t' := t.(status := t.status + {if ev == RD then WAIT_RD else WAIT_WR}, fdWait := key);
      var s1 := SetUt(s, u, t').(
        epoll := s.epoll + {fd},
        waiting := if key in s.waiting then s.waiting else s.waiting[key := u]);
      SchedSleep(s1, i, u, msecs, InWait(fd, ev))
  }

  /** uthread_create by a running coroutine. */
  function Create(s: State, i: Sid, v: Id): State {
    if !Bound(s, i) then Abort(s, NullP)
    else
      Append(SetUt(s, v, Ut({NEW}, 0, -1, None, true, Fresh, 0, false)).(live := s.live + 1), v)
  }

  /** uthread_join: errors and finished targets return at once. */
  function Join(s: State, i: Sid, u: Id, target: Id): State
    requires i in s.pcs && u in s.uts && target in s.uts
  {
    var t := s.uts[target];
    if u == target || DETACHED in t.status || t.joined.Some? || EXITED in t.status then s
    else SchedSleep(SetUt(s, target, t.(joined := Some(u))), i, u, 10000, InJoin(target))
  }

  /** The hand-off of p before a blocking disk operation. */
  function HandOff(s: State, i: Sid, u: Id): State
    requires u in s.uts
  {
    var s1 := SetUt(s, u, s.uts[u].(armed := false));
    if Bound(s, i) && s.ready != [] then
      if s.idle == [] then Abort(s1, NoIdleSched)
      else s1.(owner := s.idle[0], idle := s.idle[1..], pcs := s.pcs[s.idle[0] := Starting])
    else s1
  }

  // ------------------------------------------------------------------- steps

  /** The coroutines that this tick sends a signal for, each to thread `tid`. */
  ghost function Signals(s: State): set<Id> {
    set u | u in s.uts && s.uts[u].armed && exists n :: n in s.timers && s.timers[n] == Countdown(u, 0)
  }

  ghost function Tick(s: State): State {
    s.(timers := TickAll(s.timers),
       uts := map u | u in s.uts :: s.uts[u].(age := s.uts[u].age + 1, signalled := s.uts[u].signalled || u in Signals(s)))
  }

  datatype Action =
    | Sched(i: Sid, events: seq<(int, bool)>)
    | DoYield(i: Sid)
    | DoExit(i: Sid)
    | DoCreate(i: Sid, id: Id)
    | DoJoin(i: Sid, target: Id)
    | DoDetach(i: Sid, target: Id)
    | DoRegister(i: Sid, fd: int, ev: Event, msecs: nat)
    | DoHandOff(i: Sid)
    | DoTick
    | DoClock(to: nat)

  /** The conditions under which every pointer the code follows is a coroutine. */
  ghost predicate Closed(s: State) {
    && (forall u :: u in s.ready ==> u in s.uts)
    && (forall k :: k in s.sleeping ==> s.sleeping[k] in s.uts)
    && (forall k :: k in s.waiting ==> s.waiting[k] in s.uts)
    && (forall i :: i in s.cur ==> i in s.pcs && s.cur[i] in s.uts)
  }

  /** One step; an action that cannot happen leaves the state as it is. */
  ghost function Step(s: State, a: Action): State
    requires s.phase == Running ==> Closed(s)
  {
    if s.phase != Running then s
    else match a
      case DoTick => Tick(s)
      case DoClock(to) => if s.now <= to then s.(now := to) else s
      case Sched(i, events) => if i in s.pcs && i !in s.cur then SchedStep(s, i, events) else s
      case _ => if a.i in s.cur then UserStep(s, a.i, s.cur[a.i], a) else s
  }

  /** What the coroutine `u`, running on scheduler `i`, can do. */
  function UserStep(s: State, i: Sid, u: Id, a: Action): State
    requires i in s.pcs && u in s.uts
  {
    match a
    case DoYield(_) => SwitchBack(s, i, u)
    case DoExit(_) => SwitchBack(SetUt(s, u, s.uts[u].(status := s.uts[u].status + {EXITED})), i, u)
    case DoCreate(_, v) => if v in s.uts then s else Create(s, i, v)
    case DoJoin(_, target) => if target in s.uts then Join(s, i, u, target) else s
    case DoDetach(_, target) =>
      if target in s.uts then SetUt(s, target, s.uts[target].(status := s.uts[target].status + {DETACHED})) else s
    case DoRegister(_, fd, ev, msecs) => Register(s, i, u, fd, ev, msecs)
    case DoHandOff(_) => HandOff(s, i, u)
    case _ => s
  }
}
