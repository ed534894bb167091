/** What every step of the runtime keeps about the coroutines and the places
    they can be in.  The steps are grouped by their effect; each effect is
    shown to keep the invariant once. */
module SchedCore {
  import opened Wrappers
  import opened FdKeys
  import opened SchedState

  ghost predicate Sleeps(t: Ut) { SLEEPING in t.status }

  ghost predicate Gone(t: Ut) { EXITED in t.status }

  /** The coroutine sleeps until an event on a file descriptor. */
  ghost predicate WaitsFd(t: Ut) { Sleeps(t) && t.cont.InWait? }

  // --------------------------------------------------------------- invariant

  /** The sleeping tree holds exactly the coroutines with the SLEEPING bit, each
      under its own wake-up time. */
  ghost predicate SleepTree(s: State) {
    && (forall k :: k in s.sleeping ==>
          s.sleeping[k] in s.uts && Sleeps(s.uts[s.sleeping[k]]) && s.uts[s.sleeping[k]].wakeup == k)
    && (forall u :: u in s.uts && Sleeps(s.uts[u]) ==>
          && s.uts[u].wakeup in s.sleeping && s.sleeping[s.uts[u].wakeup] == u
          && (s.uts[u].cont.InJoin? || s.uts[u].cont.InWait?))
  }

  /** The waiting tree holds exactly the sleepers that wait for an fd, each under
      its own key; no other coroutine has a key. */
  ghost predicate WaitTree(s: State) {
    && (forall k :: k in s.waiting ==>
          s.waiting[k] in s.uts && WaitsFd(s.uts[s.waiting[k]]) && s.uts[s.waiting[k]].fdWait == k)
    && (forall u :: u in s.uts && WaitsFd(s.uts[u]) ==> KeyOk(s.uts[u]) && Registered(s, u))
    && (forall u :: u in s.uts && !WaitsFd(s.uts[u]) ==> s.uts[u].fdWait == -1)
  }

  ghost predicate KeyOk(t: Ut)
    requires t.cont.InWait?
  {
    t.fdWait == FdKey(t.cont.fd, t.cont.ev) && t.cont.fd >= 0
  }

  ghost predicate Registered(s: State, u: Id)
    requires u in s.uts
  {
    s.uts[u].fdWait in s.waiting && s.waiting[s.uts[u].fdWait] == u
  }

  /** The fd that the entry of the waiting tree under `k` waits for. */
  ghost predicate WaitsOn(s: State, k: int, fd: int)
    requires k in s.waiting
  {
    s.waiting[k] in s.uts && s.uts[s.waiting[k]].cont.InWait? && s.uts[s.waiting[k]].cont.fd == fd
  }

  /** The epoll interest set is the set of fds in the waiting tree, and each fd
      is there once. */
  ghost predicate Interest(s: State) {
    && (forall fd :: fd in s.epoll ==> fd >= 0 && exists k :: k in s.waiting && WaitsOn(s, k, fd))
    && (forall k, fd :: k in s.waiting && WaitsOn(s, k, fd) ==> fd in s.epoll)
    && (forall k, k', fd :: k in s.waiting && k' in s.waiting && WaitsOn(s, k, fd) && WaitsOn(s, k', fd) ==> k == k')
  }

  /** A live coroutine with a joiner names a coroutine that sleeps in a join on
      it; a coroutine in a join sleeps exactly while its target lives. */
  ghost predicate Joins(s: State) {
    && (forall t :: t in s.uts && !Gone(s.uts[t]) && s.uts[t].joined.Some? ==>
          s.uts[t].joined.value in s.uts && JoinsOn(s.uts[s.uts[t].joined.value], t))
    && (forall j :: j in s.uts && s.uts[j].cont.InJoin? ==>
          s.uts[j].cont.target in s.uts && JoinOk(s.uts[j], s.uts[s.uts[j].cont.target], j))
  }

  ghost predicate JoinsOn(j: Ut, t: Id) { Sleeps(j) && j.cont == InJoin(t) }

  ghost predicate JoinOk(j: Ut, target: Ut, id: Id) {
    (Sleeps(j) <==> !Gone(target)) && (Sleeps(j) ==> target.joined == Some(id))
  }

  ghost function ReadySet(s: State): set<Id> { set u | u in s.ready }
  ghost function CurSet(s: State): set<Id> { s.cur.Values }
  ghost function SleepSet(s: State): set<Id> { set u | u in s.uts && Sleeps(s.uts[u]) }
  ghost function LiveSet(s: State): set<Id> { set u | u in s.uts && !Gone(s.uts[u]) }

  ghost predicate NoDup<T>(s: seq<T>) { forall i, j :: 0 <= i < j < |s| ==> s[i] != s[j] }

  ghost predicate Injective(m: map<Sid, Id>) {
    forall i, j :: i in m && j in m && m[i] == m[j] ==> i == j
  }

  /** Every live coroutine is in exactly one place: once in the ready queue,
      current on one scheduler, or asleep; a finished one is in none. */
  ghost predicate Places(s: State) {
    && NoDup(s.ready) && Injective(s.cur) && s.cur.Keys <= s.pcs.Keys
    && ReadySet(s) !! CurSet(s) && SleepSet(s) !! ReadySet(s) + CurSet(s)
    && ReadySet(s) + CurSet(s) + SleepSet(s) == LiveSet(s)
    && (forall i :: i in s.cur ==> s.cur[i] in s.uts && s.uts[s.cur[i]].cont == Plain)
  }

  ghost predicate Counted(s: State) { s.live == |LiveSet(s)| }

  ghost predicate Core(s: State) {
    SleepTree(s) && WaitTree(s) && Interest(s) && Joins(s) && Places(s) && Counted(s)
  }

  lemma CountSame(s: State, s': State)
    requires Counted(s) && LiveSet(s') == LiveSet(s) && s'.live == s.live
    ensures Counted(s')
  {
  }

  lemma CountDown(s: State, s': State, u: Id)
    requires Counted(s) && u in LiveSet(s) && LiveSet(s') == LiveSet(s) - {u} && s.live > 0 && s'.live == s.live - 1
    ensures Counted(s')
  {
  }

  lemma CountUp(s: State, s': State, v: Id)
    requires Counted(s) && v !in LiveSet(s) && LiveSet(s') == LiveSet(s) + {v} && s'.live == s.live + 1
    ensures Counted(s')
  {
  }

  // ------------------------------------------------- steps that keep sleepers

  /** Who sleeps, and on what, does not change. */
  ghost predicate SameSleepers(s: State, s': State) {
    && s'.uts.Keys == s.uts.Keys
    && s'.sleeping == s.sleeping && s'.waiting == s.waiting && s'.epoll == s.epoll
    && forall v :: v in s.uts ==> SameSleep(s.uts[v], s'.uts[v])
  }

  ghost predicate SameSleep(a: Ut, b: Ut) {
    && (Sleeps(a) <==> Sleeps(b)) && b.fdWait == a.fdWait
    && (Sleeps(a) ==> b.wakeup == a.wakeup && b.cont == a.cont)
  }

  lemma SameTrees(s: State, s': State)
    requires SleepTree(s) && WaitTree(s) && Interest(s) && SameSleepers(s, s')
    ensures SleepTree(s') && WaitTree(s')
  {
  }

  lemma SameInterest(s: State, s': State)
    requires WaitTree(s) && Interest(s) && SameSleepers(s, s')
    ensures Interest(s')
  {
    forall k, fd | k in s.waiting ensures WaitsOn(s, k, fd) <==> WaitsOn(s', k, fd) {
      assert SameSleep(s.uts[s.waiting[k]], s'.uts[s.waiting[k]]);
    }
  }

  // --------------------------------------------------------- ready -> running

  /** Nothing changes for a coroutine but perhaps a stale joiner of a finished one. */
  ghost predicate SameUt(a: Ut, b: Ut) { b == a || (Gone(a) && b == a.(joined := None)) }

  ghost predicate OnlyUt(s: State, s': State, u: Id) {
    && s'.uts.Keys == s.uts.Keys && u in s.uts
    && forall v :: v in s.uts && v != u ==> SameUt(s.uts[v], s'.uts[v])
  }

  /** The coroutine `b` runs, `a` being its state before. */
  ghost predicate Runs(a: Ut, b: Ut) {
    !Sleeps(b) && (Gone(b) <==> Gone(a)) && b.fdWait == -1 && b.joined == a.joined && b.cont == Plain
  }

  ghost predicate FromReady(s: State, s': State, i: Sid, u: Id) {
    && OnlyUt(s, s', u) && Runs(s.uts[u], s'.uts[u]) && s'.live == s.live
    && s'.sleeping == s.sleeping && s'.waiting == s.waiting && s'.epoll == s.epoll
    && s.ready != [] && s.ready[0] == u && s'.ready == s.ready[1..]
    && i !in s.cur && s'.cur == s.cur[i := u] && s'.cur.Keys <= s'.pcs.Keys
  }

  lemma CoreFromReady(s: State, s': State, i: Sid, u: Id)
    requires Core(s) && FromReady(s, s', i, u)
    ensures Core(s')
  {
    hide Places, SleepTree, WaitTree, Interest, Joins, Counted, LiveSet;
    ReadyAwake(s, u);
    ReadySleepers(s, s', i, u);
    SameTrees(s, s');
    SameInterest(s, s');
    ReadyJoins(s, s', i, u);
    ReadyPlaces(s, s', i, u);
    CountSame(s, s');
  }

  lemma ReadyAwake(s: State, u: Id)
    requires Places(s) && WaitTree(s) && u in s.ready
    ensures u in s.uts && !Sleeps(s.uts[u]) && !Gone(s.uts[u]) && s.uts[u].fdWait == -1
  {
    assert u in ReadySet(s) && u in LiveSet(s) && u !in SleepSet(s);
  }

  lemma ReadySleepers(s: State, s': State, i: Sid, u: Id)
    requires FromReady(s, s', i, u) && !Sleeps(s.uts[u]) && s.uts[u].fdWait == -1
    ensures SameSleepers(s, s')
  {
  }

  lemma ReadyJoins(s: State, s': State, i: Sid, u: Id)
    requires Joins(s) && FromReady(s, s', i, u) && !Sleeps(s.uts[u]) && !Gone(s.uts[u])
    ensures Joins(s')
  {
    hide Joins;
    RunJoins(s, s', u);
  }

  /** A coroutine that begins to run and did not sleep in a join. */
  lemma RunJoins(s: State, s': State, u: Id)
    requires Joins(s) && OnlyUt(s, s', u) && Runs(s.uts[u], s'.uts[u]) && !Gone(s.uts[u])
    requires Sleeps(s.uts[u]) ==> s.uts[u].cont.InWait?
    ensures Joins(s')
  {
    forall t | t in s'.uts && !Gone(s'.uts[t]) && s'.uts[t].joined.Some?
      ensures s'.uts[t].joined.value in s'.uts && JoinsOn(s'.uts[s'.uts[t].joined.value], t)
    {
      assert s'.uts[t].joined == s.uts[t].joined && !Gone(s.uts[t]);
      assert JoinsOn(s.uts[s.uts[t].joined.value], t);
    }
    forall j | j in s'.uts && s'.uts[j].cont.InJoin?
      ensures s'.uts[j].cont.target in s'.uts && JoinOk(s'.uts[j], s'.uts[s'.uts[j].cont.target], j)
    {
      assert j != u && s.uts[j].cont == s'.uts[j].cont;
      assert JoinOk(s.uts[j], s.uts[s.uts[j].cont.target], j);
    }
  }

  lemma ReadyPlaces(s: State, s': State, i: Sid, u: Id)
    requires Places(s) && FromReady(s, s', i, u) && !Sleeps(s.uts[u]) && !Gone(s.uts[u])
    ensures Places(s') && LiveSet(s') == LiveSet(s)
  {
    assert SleepSet(s') == SleepSet(s) && LiveSet(s') == LiveSet(s);
    assert s.ready == [u] + s'.ready;
    assert ReadySet(s') == ReadySet(s) - {u};
    CurAdd(s.cur, i, u);
  }

  lemma CurAdd(m: map<Sid, Id>, i: Sid, u: Id)
    requires i !in m && u !in m.Values && Injective(m)
    ensures m[i := u].Values == m.Values + {u} && Injective(m[i := u])
  {
    var m' := m[i := u];
    assert m'[i] == u;
    forall v | v in m.Values ensures v in m'.Values {
      var j :| j in m && m[j] == v;
      assert m'[j] == v;
    }
  }

  // ----------------------------------------------------- fd waiter -> running

  ghost predicate FromWait(s: State, s': State, i: Sid, u: Id) {
    && OnlyUt(s, s', u) && Runs(s.uts[u], s'.uts[u]) && WaitsFd(s.uts[u])
    && s'.ready == s.ready && s'.live == s.live
    && s'.sleeping == s.sleeping - {s.uts[u].wakeup} && s'.waiting == s.waiting - {s.uts[u].fdWait}
    && s'.epoll == s.epoll - {s.uts[u].cont.fd}
    && i !in s.cur && s'.cur == s.cur[i := u] && s'.cur.Keys <= s'.pcs.Keys
  }

  lemma CoreFromWait(s: State, s': State, i: Sid, u: Id)
    requires Core(s) && FromWait(s, s', i, u)
    ensures Core(s')
  {
    hide Places, SleepTree, WaitTree, Interest, Joins, Counted, LiveSet;
    SleeperLives(s, u);
    WaitSleepTree(s, s', i, u);
    WaitWaitTree(s, s', i, u);
    WaitInterest(s, s', i, u);
    WaitJoins(s, s', i, u);
    WaitPlaces(s, s', i, u);
    CountSame(s, s');
  }

  lemma SleeperLives(s: State, u: Id)
    requires Places(s) && u in s.uts && Sleeps(s.uts[u])
    ensures !Gone(s.uts[u])
  {
    assert u in SleepSet(s) && u in LiveSet(s);
  }

  lemma WaitSleepTree(s: State, s': State, i: Sid, u: Id)
    requires SleepTree(s) && FromWait(s, s', i, u)
    ensures SleepTree(s')
  {
  }

  lemma WaitWaitTree(s: State, s': State, i: Sid, u: Id)
    requires WaitTree(s) && FromWait(s, s', i, u)
    ensures WaitTree(s')
  {
    forall v | v in s.uts && v != u ensures WaitsFd(s.uts[v]) <==> WaitsFd(s'.uts[v]) {
      assert SameUt(s.uts[v], s'.uts[v]);
    }
  }

  lemma WaitInterest(s: State, s': State, i: Sid, u: Id)
    requires WaitTree(s) && Interest(s) && FromWait(s, s', i, u)
    ensures Interest(s')
  {
    var k0, fd0 := s.uts[u].fdWait, s.uts[u].cont.fd;
    assert Registered(s, u) && WaitsOn(s, k0, fd0);
    forall k, fd | k in s'.waiting ensures WaitsOn(s', k, fd) <==> WaitsOn(s, k, fd) {
      assert s.waiting[k] != u;
      assert SameUt(s.uts[s.waiting[k]], s'.uts[s.waiting[k]]);
    }
    forall fd | fd in s'.epoll ensures exists k :: k in s'.waiting && WaitsOn(s', k, fd) {
      var k :| k in s.waiting && WaitsOn(s, k, fd);
      assert k != k0;
      assert k in s'.waiting && WaitsOn(s', k, fd);
    }
  }

  lemma WaitJoins(s: State, s': State, i: Sid, u: Id)
    requires Joins(s) && FromWait(s, s', i, u) && !Gone(s.uts[u])
    ensures Joins(s')
  {
    hide Joins;
    RunJoins(s, s', u);
  }

  lemma WaitPlaces(s: State, s': State, i: Sid, u: Id)
    requires Places(s) && FromWait(s, s', i, u) && !Gone(s.uts[u])
    ensures Places(s') && LiveSet(s') == LiveSet(s)
  {
    assert SleepSet(s') == SleepSet(s) - {u} && LiveSet(s') == LiveSet(s) && ReadySet(s') == ReadySet(s);
    assert u in SleepSet(s);
    CurAdd(s.cur, i, u);
  }

  // --------------------------------------------------------- running -> ready

  ghost predicate CurOff(s: State, s': State, i: Sid, u: Id) {
    i in s.cur && s.cur[i] == u && s'.cur == s.cur - {i} && s.pcs.Keys <= s'.pcs.Keys
  }

  ghost predicate ToReady(s: State, s': State, i: Sid, u: Id) {
    && u in s.uts && s'.uts == s.uts[u := s.uts[u].(armed := false)] && s'.live == s.live
    && s'.sleeping == s.sleeping && s'.waiting == s.waiting && s'.epoll == s.epoll
    && s'.ready == s.ready + [u] && CurOff(s, s', i, u)
  }

  lemma CoreToReady(s: State, s': State, i: Sid, u: Id)
    requires Core(s) && ToReady(s, s', i, u)
    ensures Core(s')
  {
    hide Places, SleepTree, WaitTree, Interest, Joins, Counted, LiveSet;
    CurAwake(s, i, u);
    assert SameSleepers(s, s');
    SameTrees(s, s');
    SameInterest(s, s');
    BackJoins(s, s', i, u);
    BackPlaces(s, s', i, u);
    CountSame(s, s');
  }

  lemma CurAwake(s: State, i: Sid, u: Id)
    requires Places(s) && WaitTree(s) && i in s.cur && s.cur[i] == u
    ensures u in s.uts && !Sleeps(s.uts[u]) && !Gone(s.uts[u]) && s.uts[u].fdWait == -1 && s.uts[u].cont == Plain
    ensures u !in s.ready && i in s.pcs
  {
    assert u in CurSet(s) && u in LiveSet(s) && u !in SleepSet(s) && u !in ReadySet(s);
  }

  lemma BackJoins(s: State, s': State, i: Sid, u: Id)
    requires Joins(s) && ToReady(s, s', i, u)
    ensures Joins(s')
  {
  }

  lemma BackPlaces(s: State, s': State, i: Sid, u: Id)
    requires Places(s) && ToReady(s, s', i, u) && u !in s.ready
    ensures Places(s') && LiveSet(s') == LiveSet(s)
  {
    assert SleepSet(s') == SleepSet(s) && LiveSet(s') == LiveSet(s);
    assert ReadySet(s') == ReadySet(s) + {u};
    assert u in CurSet(s);
    CurSub(s.cur, i);
  }

  lemma CurSub(m: map<Sid, Id>, i: Sid)
    requires i in m && Injective(m)
    ensures (m - {i}).Values == m.Values - {m[i]} && Injective(m - {i})
  {
    var m' := m - {i};
    forall v | v in m.Values && v != m[i] ensures v in m'.Values {
      var j :| j in m && m[j] == v;
      assert m'[j] == v;
    }
  }

  // --------------------------------------------------------- running -> asleep

  /** `u` falls asleep under the deadline `k`; `cont` says on what. */
  ghost predicate FallsAsleep(a: Ut, b: Ut, k: nat, cont: Cont) {
    Sleeps(b) && (Gone(b) <==> Gone(a)) && b.wakeup == k && b.cont == cont && b.joined == a.joined
  }

  ghost predicate ToWait(s: State, s': State, i: Sid, u: Id, k: nat, fd: int, ev: Event) {
    && u in s.uts && s'.uts.Keys == s.uts.Keys && (forall v :: v in s.uts && v != u ==> s'.uts[v] == s.uts[v])
    && FallsAsleep(s.uts[u], s'.uts[u], k, InWait(fd, ev)) && s'.uts[u].fdWait == FdKey(fd, ev)
    && k !in s.sleeping && s'.sleeping == s.sleeping[k := u]
    && fd >= 0 && fd !in s.epoll && s'.epoll == s.epoll + {fd}
    && s'.waiting == s.waiting[FdKey(fd, ev) := u]
    && s'.ready == s.ready && s'.live == s.live && CurOff(s, s', i, u)
  }

  /** A free fd has a free key, so the unchecked insert into the waiting tree
      never meets an equal key. */
  lemma KeyFree(s: State, fd: int, ev: Event)
    requires WaitTree(s) && Interest(s) && fd !in s.epoll
    ensures FdKey(fd, ev) !in s.waiting
  {
    var k := FdKey(fd, ev);
    if k in s.waiting {
      var t := s.uts[s.waiting[k]];
      assert KeyOk(t);
      KeyOrder(fd, ev, t.cont.fd, t.cont.ev);
      assert WaitsOn(s, k, fd);
    }
  }

  lemma CoreToWait(s: State, s': State, i: Sid, u: Id, k: nat, fd: int, ev: Event)
    requires Core(s) && ToWait(s, s', i, u, k, fd, ev)
    ensures Core(s')
  {
    hide Places, SleepTree, WaitTree, Interest, Joins, Counted, LiveSet, FdKey;
    CurAwake(s, i, u);
    KeyFree(s, fd, ev);
    ToWaitTrees(s, s', i, u, k, fd, ev);
    ToWaitInterest(s, s', i, u, k, fd, ev);
    ToWaitJoins(s, s', i, u, k, fd, ev);
    ToWaitPlaces(s, s', i, u, k, fd, ev);
    CountSame(s, s');
  }

  lemma ToWaitTrees(s: State, s': State, i: Sid, u: Id, k: nat, fd: int, ev: Event)
    requires SleepTree(s) && WaitTree(s) && ToWait(s, s', i, u, k, fd, ev)
    requires !Sleeps(s.uts[u]) && FdKey(fd, ev) !in s.waiting
    ensures SleepTree(s') && WaitTree(s')
  {
    hide FdKey, SleepTree;
    ToSleep(s, s', u, k);
  }

  /** A coroutine that falls asleep gets its own place in the sleeping tree. */
  lemma ToSleep(s: State, s': State, u: Id, k: nat)
    requires SleepTree(s) && u in s.uts && !Sleeps(s.uts[u]) && s'.uts.Keys == s.uts.Keys
    requires k !in s.sleeping && s'.sleeping == s.sleeping[k := u]
    requires forall v :: v in s.uts && v != u ==> SameSleep(s.uts[v], s'.uts[v])
    requires Sleeps(s'.uts[u]) && s'.uts[u].wakeup == k && (s'.uts[u].cont.InJoin? || s'.uts[u].cont.InWait?)
    ensures SleepTree(s')
  {
  }

  lemma ToWaitInterest(s: State, s': State, i: Sid, u: Id, k: nat, fd: int, ev: Event)
    requires WaitTree(s) && Interest(s) && ToWait(s, s', i, u, k, fd, ev)
    requires !Sleeps(s.uts[u]) && FdKey(fd, ev) !in s.waiting
    ensures Interest(s')
  {
    hide FdKey;
    var key := FdKey(fd, ev);
    assert WaitsOn(s', key, fd);
    forall k', fd' | k' in s.waiting ensures WaitsOn(s', k', fd') <==> WaitsOn(s, k', fd') {
      assert s.waiting[k'] != u;
    }
    forall fd' | fd' in s'.epoll ensures exists k' :: k' in s'.waiting && WaitsOn(s', k', fd') {
      if fd' != fd {
        var k' :| k' in s.waiting && WaitsOn(s, k', fd');
        assert k' in s'.waiting && WaitsOn(s', k', fd');
      }
    }
  }

  lemma ToWaitJoins(s: State, s': State, i: Sid, u: Id, k: nat, fd: int, ev: Event)
    requires Joins(s) && ToWait(s, s', i, u, k, fd, ev) && !Sleeps(s.uts[u]) && s.uts[u].cont == Plain
    ensures Joins(s')
  {
    hide FdKey;
  }

  lemma ToWaitPlaces(s: State, s': State, i: Sid, u: Id, k: nat, fd: int, ev: Event)
    requires Places(s) && ToWait(s, s', i, u, k, fd, ev) && !Gone(s.uts[u])
    ensures Places(s') && LiveSet(s') == LiveSet(s)
  {
    hide FdKey;
    assert SleepSet(s') == SleepSet(s) + {u} && LiveSet(s') == LiveSet(s) && ReadySet(s') == ReadySet(s);
    assert u in CurSet(s);
    CurSub(s.cur, i);
  }

  /** `u` falls asleep in a join on `target`. */
  ghost predicate ToJoin(s: State, s': State, i: Sid, u: Id, k: nat, target: Id) {
    && u in s.uts && target in s.uts && u != target && !Gone(s.uts[target]) && s.uts[target].joined.None?
    && s'.uts.Keys == s.uts.Keys && (forall v :: v in s.uts && v != u && v != target ==> s'.uts[v] == s.uts[v])
    && FallsAsleep(s.uts[u], s'.uts[u], k, InJoin(target)) && s'.uts[u].fdWait == s.uts[u].fdWait
    && s'.uts[target] == s.uts[target].(joined := Some(u))
    && k !in s.sleeping && s'.sleeping == s.sleeping[k := u]
    && s'.epoll == s.epoll && s'.waiting == s.waiting
    && s'.ready == s.ready && s'.live == s.live && CurOff(s, s', i, u)
  }

  lemma CoreToJoin(s: State, s': State, i: Sid, u: Id, k: nat, target: Id)
    requires Core(s) && ToJoin(s, s', i, u, k, target)
    ensures Core(s')
  {
    hide Places, SleepTree, WaitTree, Interest, Joins, Counted, LiveSet;
    CurAwake(s, i, u);
    ToJoinTrees(s, s', i, u, k, target);
    ToJoinInterest(s, s', i, u, k, target);
    ToJoinJoins(s, s', i, u, k, target);
    ToJoinPlaces(s, s', i, u, k, target);
    CountSame(s, s');
  }

  lemma ToJoinTrees(s: State, s': State, i: Sid, u: Id, k: nat, target: Id)
    requires SleepTree(s) && WaitTree(s) && ToJoin(s, s', i, u, k, target) && !Sleeps(s.uts[u])
    ensures SleepTree(s') && WaitTree(s')
  {
    hide SleepTree;
    ToSleep(s, s', u, k);
    forall v | v in s.uts ensures WaitsFd(s'.uts[v]) <==> WaitsFd(s.uts[v]) {}
  }

  lemma ToJoinInterest(s: State, s': State, i: Sid, u: Id, k: nat, target: Id)
    requires WaitTree(s) && Interest(s) && ToJoin(s, s', i, u, k, target) && !Sleeps(s.uts[u])
    ensures Interest(s')
  {
    forall k', fd' | k' in s.waiting ensures WaitsOn(s', k', fd') <==> WaitsOn(s, k', fd') {
      assert s.waiting[k'] != u;
    }
  }

  lemma ToJoinJoins(s: State, s': State, i: Sid, u: Id, k: nat, target: Id)
    requires Joins(s) && ToJoin(s, s', i, u, k, target) && !Sleeps(s.uts[u]) && s.uts[u].cont == Plain
    ensures Joins(s')
  {
  }

  lemma ToJoinPlaces(s: State, s': State, i: Sid, u: Id, k: nat, target: Id)
    requires Places(s) && ToJoin(s, s', i, u, k, target) && !Gone(s.uts[u])
    ensures Places(s') && LiveSet(s') == LiveSet(s)
  {
    assert SleepSet(s') == SleepSet(s) + {u} && LiveSet(s') == LiveSet(s) && ReadySet(s') == ReadySet(s);
    assert u in CurSet(s);
    CurSub(s.cur, i);
  }

  // --------------------------------------------------------- running -> gone

  /** `b` is the finished coroutine `a`. */
  ghost predicate Ends(a: Ut, b: Ut) {
    Gone(b) && (Sleeps(b) <==> Sleeps(a)) && b.fdWait == a.fdWait && b.cont == a.cont
  }

  ghost predicate ExitAlone(s: State, s': State, i: Sid, u: Id) {
    && s'.uts.Keys == s.uts.Keys && u in s.uts && s.uts[u].joined.None? && Ends(s.uts[u], s'.uts[u])
    && (forall v :: v in s.uts && v != u ==> s'.uts[v] == s.uts[v])
    && s'.sleeping == s.sleeping && s'.waiting == s.waiting && s'.epoll == s.epoll
    && s'.ready == s.ready && s.live > 0 && s'.live == s.live - 1 && CurOff(s, s', i, u)
  }

  lemma CoreExitAlone(s: State, s': State, i: Sid, u: Id)
    requires Core(s) && ExitAlone(s, s', i, u)
    ensures Core(s')
  {
    hide Places, SleepTree, WaitTree, Interest, Joins, Counted, LiveSet;
    CurAwake(s, i, u);
    assert SameSleepers(s, s');
    SameTrees(s, s');
    SameInterest(s, s');
    AloneJoins(s, s', i, u);
    AlonePlaces(s, s', i, u);
    CountDown(s, s', u);
  }

  lemma AloneJoins(s: State, s': State, i: Sid, u: Id)
    requires Joins(s) && ExitAlone(s, s', i, u)
    requires !Sleeps(s.uts[u]) && !Gone(s.uts[u]) && s.uts[u].cont == Plain
    ensures Joins(s')
  {
  }

  lemma AlonePlaces(s: State, s': State, i: Sid, u: Id)
    requires Places(s) && ExitAlone(s, s', i, u)
    requires !Sleeps(s.uts[u]) && !Gone(s.uts[u])
    ensures Places(s') && u in LiveSet(s) && LiveSet(s') == LiveSet(s) - {u}
  {
    assert SleepSet(s') == SleepSet(s) && LiveSet(s') == LiveSet(s) - {u} && ReadySet(s') == ReadySet(s);
    assert u in CurSet(s) && u in LiveSet(s);
    CurSub(s.cur, i);
  }

  /** The end of a target wakes its joiner `j`. */
  ghost predicate ExitJoined(s: State, s': State, i: Sid, u: Id, j: Id) {
    && s'.uts.Keys == s.uts.Keys && u in s.uts && j in s.uts && j != u
    && s.uts[u].joined == Some(j) && Ends(s.uts[u], s'.uts[u])
    && (forall v :: v in s.uts && v != u && v != j ==> s'.uts[v] == s.uts[v])
    && s'.uts[j] == s.uts[j].(status := s'.uts[j].status)
    && !Sleeps(s'.uts[j]) && (Gone(s'.uts[j]) <==> Gone(s.uts[j]))
    && s'.sleeping == s.sleeping - {s.uts[j].wakeup} && s'.waiting == s.waiting && s'.epoll == s.epoll
    && s'.ready == s.ready + [j] && s.live > 0 && s'.live == s.live - 1 && CurOff(s, s', i, u)
  }

  lemma CoreExitJoined(s: State, s': State, i: Sid, u: Id, j: Id)
    requires Core(s) && ExitJoined(s, s', i, u, j)
    ensures Core(s')
  {
    hide Places, SleepTree, WaitTree, Interest, Joins, Counted, LiveSet;
    CurAwake(s, i, u);
    JoinerSleeps(s, u, j);
    SleeperLives(s, j);
    JoinedTrees(s, s', i, u, j);
    JoinedInterest(s, s', i, u, j);
    JoinedJoins(s, s', i, u, j);
    JoinedPlaces(s, s', i, u, j);
    CountDown(s, s', u);
  }

  lemma JoinerSleeps(s: State, u: Id, j: Id)
    requires Joins(s) && u in s.uts && !Gone(s.uts[u]) && s.uts[u].joined == Some(j)
    ensures j in s.uts && JoinsOn(s.uts[j], u)
  {
  }

  lemma JoinedTrees(s: State, s': State, i: Sid, u: Id, j: Id)
    requires SleepTree(s) && WaitTree(s) && ExitJoined(s, s', i, u, j)
    requires !Sleeps(s.uts[u]) && JoinsOn(s.uts[j], u)
    ensures SleepTree(s') && WaitTree(s')
  {
    hide SleepTree;
    JoinedSleepTree(s, s', i, u, j);
    forall v | v in s.uts ensures WaitsFd(s'.uts[v]) <==> WaitsFd(s.uts[v]) {}
  }

  lemma JoinedSleepTree(s: State, s': State, i: Sid, u: Id, j: Id)
    requires SleepTree(s) && ExitJoined(s, s', i, u, j) && !Sleeps(s.uts[u]) && JoinsOn(s.uts[j], u)
    ensures SleepTree(s')
  {
  }

  lemma JoinedInterest(s: State, s': State, i: Sid, u: Id, j: Id)
    requires WaitTree(s) && Interest(s) && ExitJoined(s, s', i, u, j)
    requires !Sleeps(s.uts[u]) && JoinsOn(s.uts[j], u)
    ensures Interest(s')
  {
    forall k', fd' | k' in s.waiting ensures WaitsOn(s', k', fd') <==> WaitsOn(s, k', fd') {
      assert s.waiting[k'] != u && s.waiting[k'] != j;
    }
  }

  lemma JoinedJoins(s: State, s': State, i: Sid, u: Id, j: Id)
    requires Joins(s) && ExitJoined(s, s', i, u, j)
    requires !Sleeps(s.uts[u]) && !Gone(s.uts[u]) && s.uts[u].cont == Plain && JoinsOn(s.uts[j], u) && !Gone(s.uts[j])
    ensures Joins(s')
  {
  }

  lemma JoinedPlaces(s: State, s': State, i: Sid, u: Id, j: Id)
    requires Places(s) && ExitJoined(s, s', i, u, j)
    requires !Sleeps(s.uts[u]) && !Gone(s.uts[u]) && Sleeps(s.uts[j]) && !Gone(s.uts[j])
    ensures Places(s') && u in LiveSet(s) && LiveSet(s') == LiveSet(s) - {u}
  {
    assert SleepSet(s') == SleepSet(s) - {j} && LiveSet(s') == LiveSet(s) - {u} && ReadySet(s') == ReadySet(s) + {j};
    assert u in CurSet(s) && u in LiveSet(s) && j in SleepSet(s) && j !in ReadySet(s);
    CurSub(s.cur, i);
  }

  // ------------------------------------------------------------ new -> ready

  ghost predicate Created(s: State, s': State, v: Id) {
    && v !in s.uts && v in s'.uts && s'.uts == s.uts[v := s'.uts[v]]
    && !Sleeps(s'.uts[v]) && !Gone(s'.uts[v]) && s'.uts[v].fdWait == -1 && s'.uts[v].joined.None? && s'.uts[v].cont == Fresh
    && s'.sleeping == s.sleeping && s'.waiting == s.waiting && s'.epoll == s.epoll
    && s'.ready == s.ready + [v] && s'.live == s.live + 1 && s'.cur == s.cur && s'.pcs == s.pcs
  }

  lemma CoreCreated(s: State, s': State, v: Id)
    requires Core(s) && Created(s, s', v)
    ensures Core(s')
  {
    hide Places, SleepTree, WaitTree, Interest, Joins, Counted, LiveSet;
    NewTrees(s, s', v);
    NewInterest(s, s', v);
    NewJoins(s, s', v);
    NewPlaces(s, s', v);
    CountUp(s, s', v);
  }

  lemma NewTrees(s: State, s': State, v: Id)
    requires SleepTree(s) && WaitTree(s) && Created(s, s', v)
    ensures SleepTree(s') && WaitTree(s')
  {
  }

  lemma NewInterest(s: State, s': State, v: Id)
    requires WaitTree(s) && Interest(s) && Created(s, s', v)
    ensures Interest(s')
  {
    forall k', fd' | k' in s.waiting ensures WaitsOn(s', k', fd') <==> WaitsOn(s, k', fd') {}
  }

  lemma NewJoins(s: State, s': State, v: Id)
    requires Joins(s) && Created(s, s', v)
    ensures Joins(s')
  {
  }

  lemma NewPlaces(s: State, s': State, v: Id)
    requires Places(s) && Created(s, s', v)
    ensures Places(s') && v !in LiveSet(s) && LiveSet(s') == LiveSet(s) + {v}
  {
    assert SleepSet(s') == SleepSet(s) && LiveSet(s') == LiveSet(s) + {v} && ReadySet(s') == ReadySet(s) + {v};
    assert v !in LiveSet(s) && v !in ReadySet(s);
  }

  // -------------------------------------------------- no coroutine is moved

  ghost predicate SameRole(a: Ut, b: Ut) {
    && (Sleeps(a) <==> Sleeps(b)) && (Gone(a) <==> Gone(b))
    && b.wakeup == a.wakeup && b.fdWait == a.fdWait && b.joined == a.joined && b.cont == a.cont
  }

  ghost predicate Unmoved(s: State, s': State) {
    && s'.uts.Keys == s.uts.Keys && (forall v :: v in s.uts ==> SameRole(s.uts[v], s'.uts[v]))
    && s'.sleeping == s.sleeping && s'.waiting == s.waiting && s'.epoll == s.epoll
    && s'.ready == s.ready && s'.live == s.live && s'.cur == s.cur && s.pcs.Keys <= s'.pcs.Keys
  }

  lemma CoreUnmoved(s: State, s': State)
    requires Core(s) && Unmoved(s, s')
    ensures Core(s')
  {
    hide Places, SleepTree, WaitTree, Interest, Joins, Counted, LiveSet;
    assert SameSleepers(s, s');
    SameTrees(s, s');
    SameInterest(s, s');
    UnmovedJoins(s, s');
    UnmovedPlaces(s, s');
    CountSame(s, s');
  }

  lemma UnmovedPlaces(s: State, s': State)
    requires Places(s) && Unmoved(s, s')
    ensures Places(s') && LiveSet(s') == LiveSet(s)
  {
    assert LiveSet(s') == LiveSet(s) && SleepSet(s') == SleepSet(s) && ReadySet(s') == ReadySet(s);
  }

  lemma UnmovedJoins(s: State, s': State)
    requires Joins(s) && Unmoved(s, s')
    ensures Joins(s')
  {
  }
}
