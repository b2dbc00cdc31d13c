/** The invariant of the scheduler machine, and what it promises in every reachable state. */
module Scheduling {
  import opened Scheduler

  // ----- phases

  /** The core still runs on the stack of me. */
  ghost predicate OldStack(p: Phase) {
    !p.Switched? && !p.Handled?
  }

  /** next has left its queue but its context is not restored yet. */
  ghost predicate Picked(p: Phase) {
    p.Chosen? || p.Flagged? || p.Activated? || p.Stored? || p.Masked? || p.Cleared?
  }

  /** The context of me is in its save area while the core is still on its stack. */
  ghost predicate ContextStored(p: Phase) {
    p.Stored? || p.Masked? || p.Cleared?
  }

  /** Inside block() and before its handler has run. */
  ghost predicate Blocking(p: Phase) {
    !p.Running? && !p.Handled?
  }

  // ----- the invariant

  ghost predicate CoreOk(s: State, c: nat) {
    Names(s, c) &&
    var k := s.cores[c];
    var p := k.phase;
    && (OldStack(p) ==> s.threads[k.me].place == OnCore(c))
    && (p.Switched? ==> s.threads[k.me].place == Outgoing(c))
    && (Picked(p) ==> s.threads[k.next].place == Incoming(c))
    && (!OldStack(p) ==> s.threads[k.next].place == OnCore(c))
    && k.active == (if p.Running? || p.Entered? || p.Chosen? || p.Flagged? then k.me else k.next)
    && (p.Entered? || (Picked(p) && !p.Cleared?) ==> s.threads[k.me].noPreempt)
    && (Picked(p) && !p.Chosen? && !p.Cleared? ==> s.threads[k.next].noPreempt)
    && (p.Masked? || p.Cleared? || !OldStack(p) ==> !k.enabled)
    && (Blocking(p) && k.handler.WaitOn? ==> k.must && BlocksOn(s, k.me, k.handler.sem))
  }

  /** t is inside down on semaphore i, holds its lock and found no token. */
  ghost predicate BlocksOn(s: State, t: nat, i: nat) {
    && t in s.threads && i < |s.sems|
    && s.threads[t].todo.DownWait? && s.threads[t].todo.sem == i && !s.threads[t].todo.granted
    && s.sems[i].owner == Some(t) && s.sems[i].count == 0
  }

  ghost predicate RunsOn(k: Core, t: nat) {
    t == if OldStack(k.phase) then k.me else k.next
  }

  /** The structure that a place names really holds the thread. */
  ghost predicate PlaceOk(s: State, t: nat)
    requires t in s.threads
  {
    var th := s.threads[t];
    match th.place
    case OnCore(c) => c < |s.cores| && RunsOn(s.cores[c], t) && th.saved == ContextStored(s.cores[c].phase)
    case Incoming(c) => th.saved && c < |s.cores| && Picked(s.cores[c].phase) && s.cores[c].next == t
    case Outgoing(c) => th.saved && c < |s.cores| && s.cores[c].phase.Switched? && s.cores[c].me == t
    case InReady => th.saved && t in s.ready
    case InZombies => th.saved && t in s.zombies
    case Waiting(i) => th.saved && i < |s.sems| && t in s.sems[i].waiting
                       && th.todo.DownWait? && th.todo.sem == i && !th.todo.granted
    case InHand(u) => th.saved && u in s.threads && HandOf(s.threads[u].todo) == Some(t)
    case InGrave(u) => th.saved && u in s.threads && s.threads[u].todo == Reaping(t)
    case Parked => th.saved && th.idle
    case Dead => th.saved
  }

  /** The thread that up has taken off a wait queue and not yet scheduled. */
  function HandOf(d: Todo): Option<nat> {
    match d
    case UpUnlinked(_, _, got) => got
    case UpReady(got) => got
    case _ => None
  }

  /** The semaphore whose lock a thread holds while it executes ordinary code. */
  function SectionOf(d: Todo): Option<nat> {
    match d
    case DownLocked(i, _) => Some(i)
    case DownTook(i, _) => Some(i)
    case UpLocked(i, _) => Some(i)
    case UpUnlinked(i, _, _) => Some(i)
    case _ => None
  }

  /** What a thread is in the middle of agrees with the locks, queues and cores. */
  ghost predicate WorkOk(s: State, t: nat)
    requires t in s.threads
  {
    var th := s.threads[t];
    && (SectionOf(th.todo).Some? ==>
          && SectionOf(th.todo).value < |s.sems| && s.sems[SectionOf(th.todo).value].owner == Some(t)
          && !th.timer && th.place.OnCore? && th.place.core < |s.cores| && s.cores[th.place.core].phase.Running?)
    && (HandOf(th.todo).Some? ==>
          HandOf(th.todo).value in s.threads && s.threads[HandOf(th.todo).value].place == InHand(t))
    && (th.todo.Reaping? ==> th.todo.zombie in s.threads && s.threads[th.todo.zombie].place == InGrave(t))
    && (th.todo.DownWait? && !th.todo.granted && th.place != Waiting(th.todo.sem) ==>
          && BlocksOn(s, t, th.todo.sem)
          && (th.place.OnCore? || th.place.Outgoing?) && th.place.core < |s.cores|
          && Blocking(s.cores[th.place.core].phase) && s.cores[th.place.core].me == t
          && s.cores[th.place.core].handler == WaitOn(th.todo.sem))
    && (th.timer ==> !th.todo.DownWait?)
    && (th.idle ==> t < |s.cores| && th.place in {OnCore(t), Incoming(t), Outgoing(t), Parked})
  }

  /** A thread that must not be interrupted: in the timer handler, in a section, or in down. */
  ghost predicate Quiet(th: Thread) {
    th.timer || SectionOf(th.todo).Some? || th.todo.DownWait?
  }

  /** It runs with interrupts off and will be resumed with interrupts off. */
  ghost predicate QuietOk(s: State, t: nat)
    requires t in s.threads
  {
    var th := s.threads[t];
    Quiet(th) ==>
      if th.place.OnCore? && th.place.core < |s.cores| && !th.saved && OldStack(s.cores[th.place.core].phase)
      then !s.cores[th.place.core].enabled
      else !th.flag
  }

  ghost predicate ThreadOk(s: State, t: nat) {
    t in s.threads && PlaceOk(s, t) && WorkOk(s, t) && QuietOk(s, t)
  }

  ghost predicate Distinct(q: seq<nat>) {
    forall i, j :: 0 <= i < j < |q| ==> q[i] != q[j]
  }

  /** The members of a queue are the threads placed in it, each once. */
  ghost predicate QueueOk(s: State, q: seq<nat>, p: Place) {
    Distinct(q) && forall t :: t in q ==> t in s.threads && s.threads[t].place == p
  }

  ghost predicate SemOk(s: State, i: nat) {
    i < |s.sems| &&
    var x := s.sems[i];
    && QueueOk(s, x.waiting, Waiting(i))
    && (0 < x.count ==> x.waiting == [])
    && x.initial + x.ups == x.count + x.grants
    && x.queued == x.served + x.waiting
    && (x.owner.Some? ==> x.owner.value in s.threads && Owns(s.threads[x.owner.value], i))
  }

  ghost predicate Owns(th: Thread, i: nat) {
    || SectionOf(th.todo) == Some(i)
    || (th.todo.DownWait? && th.todo.sem == i && !th.todo.granted && th.place != Waiting(i))
  }

  ghost predicate IdleOk(s: State, c: nat) {
    c in s.threads && s.threads[c].idle
  }

  ghost predicate Inv(s: State) {
    && (forall c: nat {:trigger CoreOk(s, c)} :: c < |s.cores| ==> CoreOk(s, c))
    && (forall c: nat {:trigger IdleOk(s, c)} :: c < |s.cores| ==> IdleOk(s, c))
    && (forall t {:trigger ThreadOk(s, t)} :: t in s.threads ==> ThreadOk(s, t))
    && (forall i: nat {:trigger SemOk(s, i)} :: i < |s.sems| ==> SemOk(s, i))
    && QueueOk(s, s.ready, InReady)
    && QueueOk(s, s.zombies, InZombies)
  }

  // ----- one step touches one core, a few threads and at most one semaphore

  ghost predicate At(p: Place, c: nat) {
    p == OnCore(c) || p == Incoming(c) || p == Outgoing(c)
  }

  /** s' differs from s only on core c, the threads ts, the semaphores is and the two
      queues, and none of the differences concerns what the rest relies on. */
  ghost predicate Touches(s: State, s': State, c: nat, ts: set<nat>, sems: set<nat>) {
    && Outside(s, s', c, ts, sems)
    && (forall t :: t in ts && t in s.threads ==> t in s'.threads && Yields(s.threads[t], s'.threads[t], c, ts, sems))
  }

  /** What is not touched is as it was. */
  ghost predicate Outside(s: State, s': State, c: nat, ts: set<nat>, sems: set<nat>) {
    && |s'.cores| == |s.cores| && |s'.sems| == |s.sems|
    && (forall d: nat :: d < |s.cores| && d != c ==> s'.cores[d] == s.cores[d])
    && (forall t :: t in s'.threads <==> t in s.threads || t in ts)
    && (forall t :: t in s.threads && t !in ts ==> s'.threads[t] == s.threads[t])
    && (forall i: nat :: i < |s.sems| && i !in sems ==> s'.sems[i] == s.sems[i])
    && (forall t :: t !in ts ==> (t in s'.ready <==> t in s.ready) && (t in s'.zombies <==> t in s.zombies))
    && (forall i :: i in sems && i < |s.sems| ==>
          && (s.sems[i].owner.Some? ==> s.sems[i].owner.value in ts)
          && (forall t :: t !in ts ==> (t in s'.sems[i].waiting <==> t in s.sems[i].waiting)))
    && (forall t :: t in s.threads && t !in ts ==> !At(s.threads[t].place, c))
  }

  /** What a touched thread keeps because others rely on it. */
  ghost predicate Yields(was: Thread, now: Thread, c: nat, ts: set<nat>, sems: set<nat>) {
    && now.idle == was.idle
    && (was.place.OnCore? || was.place.Incoming? || was.place.Outgoing? ==> was.place.core == c)
    && (forall i: nat :: i !in sems && Owns(was, i) ==> Owns(now, i))
    && (was.place.Waiting? && was.place.sem !in sems ==> now.place == was.place)
    && ((was.place.InHand? || was.place.InGrave?) && was.place.of !in ts ==> now.place == was.place)
    && (HandOf(was.todo).Some? && HandOf(was.todo).value !in ts ==> HandOf(now.todo) == HandOf(was.todo))
    && (was.todo.Reaping? && was.todo.zombie !in ts ==> now.todo == was.todo)
  }

  lemma OtherCores(s: State, s': State, c: nat, ts: set<nat>, sems: set<nat>, d: nat)
    requires Inv(s) && Touches(s, s', c, ts, sems) && d != c && d < |s.cores|
    ensures CoreOk(s', d)
  {
    assert CoreOk(s, d);
  }

  lemma OtherThreads(s: State, s': State, c: nat, ts: set<nat>, sems: set<nat>, t: nat)
    requires Inv(s) && Touches(s, s', c, ts, sems) && t in s.threads && t !in ts
    ensures ThreadOk(s', t)
  {
    assert ThreadOk(s, t);
  }

  lemma OtherSems(s: State, s': State, c: nat, ts: set<nat>, sems: set<nat>, i: nat)
    requires Inv(s) && Touches(s, s', c, ts, sems) && i < |s.sems| && i !in sems
    ensures SemOk(s', i)
  {
    assert SemOk(s, i);
  }

  /** What is left to check after a step. */
  ghost predicate TouchedOk(s': State, c: nat, ts: set<nat>, sems: set<nat>) {
    && CoreOk(s', c)
    && (forall t {:trigger ThreadOk(s', t)} :: t in ts ==> ThreadOk(s', t))
    && (forall i {:trigger SemOk(s', i)} :: i in sems ==> SemOk(s', i))
    && QueueOk(s', s'.ready, InReady) && QueueOk(s', s'.zombies, InZombies)
  }

  lemma TouchedSuffices(s: State, s': State, c: nat, ts: set<nat>, sems: set<nat>)
    requires Inv(s) && Touches(s, s', c, ts, sems) && TouchedOk(s', c, ts, sems)
    ensures Inv(s')
  {
    hide CoreOk, ThreadOk, SemOk, QueueOk;
    forall d: nat | d < |s'.cores| ensures CoreOk(s', d) && IdleOk(s', d) {
      assert IdleOk(s, d);
      if d != c { OtherCores(s, s', c, ts, sems, d); }
    }
    forall t | t in s'.threads ensures ThreadOk(s', t) {
      if t !in ts { OtherThreads(s, s', c, ts, sems, t); }
    }
    forall i: nat | i < |s'.sems| ensures SemOk(s', i) {
      if i !in sems { OtherSems(s, s', c, ts, sems, i); }
    }
  }

  /** The threads placed at a core are the ones it names. */
  lemma AtCore(s: State, c: nat)
    requires Inv(s) && c < |s.cores|
    ensures forall t :: t in s.threads && At(s.threads[t].place, c) ==>
      (t == s.cores[c].me && !s.cores[c].phase.Handled?) || (t == s.cores[c].next && (Picked(s.cores[c].phase) || !OldStack(s.cores[c].phase)))
  {
    forall t | t in s.threads && At(s.threads[t].place, c)
      ensures (t == s.cores[c].me && !s.cores[c].phase.Handled?) || (t == s.cores[c].next && (Picked(s.cores[c].phase) || !OldStack(s.cores[c].phase)))
    {
      assert ThreadOk(s, t);
    }
  }
}
