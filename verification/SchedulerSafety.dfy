/** What every run of the scheduler machine guarantees, for any number of cores and threads
    and any interleaving. */
module SchedulerSafety {
  import opened Scheduler
  import opened Scheduling
  import opened SchedulerSteps
  import opened Counter

  // ----- runs

  datatype Step = Step(core: nat, action: Action)

  /** Core c runs its idle thread, which is thread c; there are no other threads yet. */
  function Booted(cores: nat, on: bool, counts: seq<nat>): State {
    State(seq(cores, c requires 0 <= c < cores => Core(c, Running, c, c, Requeue, false, on)),
          map c: nat | c < cores :: Thread(true, false, false, on, false, Normal, OnCore(c)),
          [], [],
          seq(|counts|, i requires 0 <= i < |counts| => Sem(counts[i], None, [], counts[i], 0, 0, [], [])))
  }

  lemma BootedInv(cores: nat, on: bool, counts: seq<nat>)
    ensures Inv(Booted(cores, on, counts))
  {
    var s := Booted(cores, on, counts);
    forall c: nat | c < |s.cores| ensures CoreOk(s, c) && IdleOk(s, c) {}
    forall t | t in s.threads ensures ThreadOk(s, t) {}
    forall i: nat | i < |s.sems| ensures SemOk(s, i) {}
  }

  ghost predicate IsRun(states: seq<State>, steps: seq<Step>) {
    && |states| == |steps| + 1
    && forall k {:trigger states[k], steps[k]} :: 0 <= k < |steps| ==>
         Enabled(states[k], steps[k].core, steps[k].action)
         && states[k + 1] == Apply(states[k], steps[k].core, steps[k].action)
  }

  lemma {:induction false} RunKeepsInv(states: seq<State>, steps: seq<Step>, n: nat)
    requires IsRun(states, steps) && Inv(states[0]) && n < |states|
    ensures Inv(states[n])
    decreases n
  {
    hide Inv, Apply, Enabled;
    if n > 0 {
      RunKeepsInv(states, steps, n - 1);
      var a := steps[n - 1];
      assert states[n - 1 + 1] == Apply(states[n - 1], a.core, a.action);
      StepKeepsInv(states[n - 1], a.core, a.action);
    }
  }

  // ----- every thread is in one place

  /** The structures that can hold a thread; nothing here looks at the place field. */
  datatype Slot =
    | AtCore(core: nat)
    | AtReady(index: nat)
    | AtZombies(index: nat)
    | AtSem(sem: nat, index: nat)
    | AtUp(thread: nat)
    | AtReaper(thread: nat)

  ghost predicate Holds(s: State, slot: Slot, t: nat) {
    match slot
    case AtCore(c) => c < |s.cores| && NamedBy(s.cores[c], t)
    case AtReady(i) => i < |s.ready| && s.ready[i] == t
    case AtZombies(i) => i < |s.zombies| && s.zombies[i] == t
    case AtSem(m, i) => m < |s.sems| && i < |s.sems[m].waiting| && s.sems[m].waiting[i] == t
    case AtUp(u) => u in s.threads && HandOf(s.threads[u].todo) == Some(t)
    case AtReaper(u) => u in s.threads && s.threads[u].todo == Reaping(t)
  }

  /** The core runs t, is switching away from t, or is switching to t. */
  ghost predicate NamedBy(k: Core, t: nat) {
    (t == k.me && !k.phase.Handled?) || (t == k.next && (Picked(k.phase) || !OldStack(k.phase)))
  }

  function PlaceOf(slot: Slot, s: State, t: nat): (p: Place)
    requires slot.AtCore? ==> t in s.threads
  {
    match slot
    case AtCore(c) => s.threads[t].place
    case AtReady(_) => InReady
    case AtZombies(_) => InZombies
    case AtSem(m, _) => Waiting(m)
    case AtUp(u) => InHand(u)
    case AtReaper(u) => InGrave(u)
  }

  lemma HeldWherePlaced(s: State, slot: Slot, t: nat)
    requires Inv(s) && Holds(s, slot, t)
    ensures t in s.threads && s.threads[t].place == PlaceOf(slot, s, t)
    ensures slot.AtCore? ==> At(s.threads[t].place, slot.core)
  {
    match slot
    case AtCore(c) => assert CoreOk(s, c);
    case AtReady(_) =>
    case AtZombies(_) =>
    case AtSem(m, _) => assert SemOk(s, m);
    case AtUp(u) => assert ThreadOk(s, u);
    case AtReaper(u) => assert ThreadOk(s, u);
  }

  /** Two slots never hold the same thread: no thread is on two cores, in two queues, or in
      a queue while a core or an unfinished operation still has it. */
  lemma NeverInTwoPlaces(s: State, t: nat, x: Slot, y: Slot)
    requires Inv(s) && Holds(s, x, t) && Holds(s, y, t)
    ensures x == y
  {
    HeldWherePlaced(s, x, t);
    HeldWherePlaced(s, y, t);
    if x.AtSem? { assert SemOk(s, x.sem); }
  }

  /** A thread that has not been deleted is somewhere; an idle thread may also rest beside
      its core while another thread runs there. */
  lemma AlwaysInOnePlace(s: State, t: nat)
    requires Inv(s) && t in s.threads
    ensures !s.threads[t].idle ==> ((exists x :: Holds(s, x, t)) <==> s.threads[t].place != Dead)
    ensures s.threads[t].idle ==> forall x :: Holds(s, x, t) ==> x == AtCore(t)
  {
    assert ThreadOk(s, t);
    match s.threads[t].place {
      case OnCore(c) => assert Holds(s, AtCore(c), t);
      case Incoming(c) => assert Holds(s, AtCore(c), t);
      case Outgoing(c) => assert Holds(s, AtCore(c), t);
      case InReady => var i :| 0 <= i < |s.ready| && s.ready[i] == t; assert Holds(s, AtReady(i), t);
      case InZombies => var i :| 0 <= i < |s.zombies| && s.zombies[i] == t; assert Holds(s, AtZombies(i), t);
      case Waiting(m) =>
        var i :| 0 <= i < |s.sems[m].waiting| && s.sems[m].waiting[i] == t;
        assert Holds(s, AtSem(m, i), t);
      case InHand(u) => assert Holds(s, AtUp(u), t);
      case InGrave(u) => assert Holds(s, AtReaper(u), t);
      case Parked =>
      case Dead =>
    }
    forall x | Holds(s, x, t)
      ensures s.threads[t].place != Dead && (s.threads[t].idle ==> x == AtCore(t))
    {
      HeldWherePlaced(s, x, t);
    }
  }

  // ----- contexts and stacks

  /** Two cores never execute on the stack of the same thread. */
  lemma NoSharedStack(s: State, c: nat, d: nat, t: nat)
    requires Inv(s) && c < |s.cores| && d < |s.cores|
    requires RunsOn(s.cores[c], t) && RunsOn(s.cores[d], t)
    ensures c == d
  {
    assert CoreOk(s, c) && CoreOk(s, d);
  }

  /** A thread is saved exactly while no core needs its registers: from the stores in
      gheith_contextSwitch until the loads that restore it. */
  lemma SavedUnlessRunning(s: State, t: nat)
    requires Inv(s) && t in s.threads
    ensures s.threads[t].saved <==>
      forall c: nat :: c < |s.cores| && RunsOn(s.cores[c], t) ==> ContextStored(s.cores[c].phase)
  {
    assert ThreadOk(s, t);
    forall c: nat | c < |s.cores| && RunsOn(s.cores[c], t)
      ensures s.threads[t].saved == ContextStored(s.cores[c].phase)
    {
      assert CoreOk(s, c);
    }
  }

  /** When a core is about to load the context of next, that context is complete and no
      core, queue or operation other than this switch has the thread. */
  lemma ResumedOnlyWhenSaved(s: State, c: nat)
    requires Inv(s) && Reached(s, c, Cleared)
    ensures var next := s.cores[c].next;
      && s.threads[next].saved && next != s.cores[c].me
      && forall x :: Holds(s, x, next) ==> x == AtCore(c)
  {
    assert CoreOk(s, c) && ThreadOk(s, s.cores[c].next);
    forall x | Holds(s, x, s.cores[c].next) ensures x == AtCore(c) {
      NeverInTwoPlaces(s, s.cores[c].next, x, AtCore(c));
    }
  }

  /** A thread is deleted only after its context is saved and every core has left its stack. */
  lemma DeletedOnlyWhenSaved(s: State, c: nat)
    requires Inv(s) && CanDeleteZombie(s, c)
    ensures var z := TodoOf(s, c).zombie;
      && s.threads[z].saved && !s.threads[z].idle
      && (forall d: nat :: d < |s.cores| ==> !NamedBy(s.cores[d], z))
      && z !in s.ready && z !in s.zombies
  {
    var me, z := s.cores[c].me, TodoOf(s, c).zombie;
    assert ThreadOk(s, me) && ThreadOk(s, z);
    forall d: nat | d < |s.cores| ensures !NamedBy(s.cores[d], z) { assert CoreOk(s, d); }
  }

  // ----- deletion is final

  /** Thread t is deleted by this step, or is as deleted as before. */
  ghost predicate Fate(s: State, c: nat, a: Action, s': State, t: nat)
    requires Enabled(s, c, a)
  {
    && t in s.threads && t in s'.threads
    && (s'.threads[t].place == Dead <==>
          s.threads[t].place == Dead || (a.DeleteZombie? && TodoOf(s, c).zombie == t))
  }

  lemma DownFate(s: State, c: nat, a: Action, t: nat)
    requires Inv(s) && Enabled(s, c, a) && t in s.threads
    requires a.LockDown? || a.TakeToken? || a.UnlockDown? || a.BlockDown? || a.ReturnDown? || a.LockUp? || a.UnlockUp?
    ensures Fate(s, c, a, Apply(s, c, a), t)
  {
  }

  lemma PassFate(s: State, c: nat, t: nat)
    requires Inv(s) && Enabled(s, c, PassToken) && t in s.threads
    ensures Fate(s, c, PassToken, Apply(s, c, PassToken), t)
  {
    assert ThreadOk(s, s.cores[c].me) && SemOk(s, TodoOf(s, c).sem);
  }

  lemma ScheduleFate(s: State, c: nat, t: nat)
    requires Inv(s) && Enabled(s, c, ScheduleUp) && t in s.threads
    ensures Fate(s, c, ScheduleUp, Apply(s, c, ScheduleUp), t)
  {
    assert ThreadOk(s, s.cores[c].me);
  }

  lemma ThreadFate(s: State, c: nat, a: Action, t: nat)
    requires Inv(s) && Enabled(s, c, a) && t in s.threads
    requires a.Yield? || a.Stop? || a.Spawn? || a.TakeZombie? || a.DeleteZombie? || a.SetInterrupts? || a.Timer? || a.TimerReturn?
    ensures Fate(s, c, a, Apply(s, c, a), t)
  {
    assert CoreOk(s, c) && ThreadOk(s, s.cores[c].me);
  }

  lemma ChooseFate(s: State, c: nat, t: nat)
    requires Inv(s) && Enabled(s, c, Choose) && t in s.threads
    ensures Fate(s, c, Choose, Apply(s, c, Choose), t)
  {
    assert CoreOk(s, c) && IdleOk(s, c) && ThreadOk(s, c);
  }

  lemma HandleFate(s: State, c: nat, t: nat)
    requires Inv(s) && Enabled(s, c, Handle) && t in s.threads
    ensures Fate(s, c, Handle, Apply(s, c, Handle), t)
  {
    assert CoreOk(s, c);
  }

  lemma SwitchFate(s: State, c: nat, a: Action, t: nat)
    requires Inv(s) && Enabled(s, c, a) && t in s.threads
    requires a.Flag? || a.Activate? || a.Store? || a.Mask? || a.Clear? || a.Switch? || a.Resume?
    ensures Fate(s, c, a, Apply(s, c, a), t)
  {
    assert CoreOk(s, c);
  }

  /** A thread comes to be deleted only by the step that deletes it, and stays so. */
  lemma DeletedForGood(s: State, c: nat, a: Action, t: nat)
    requires Inv(s) && Enabled(s, c, a) && t in s.threads
    ensures Fate(s, c, a, Apply(s, c, a), t)
  {
    hide Inv, Fate, Apply, Enabled;
    if a.LockDown? || a.TakeToken? || a.UnlockDown? || a.BlockDown? || a.ReturnDown? || a.LockUp? || a.UnlockUp? {
      DownFate(s, c, a, t);
    } else if a.PassToken? {
      PassFate(s, c, t);
    } else if a.ScheduleUp? {
      ScheduleFate(s, c, t);
    } else if a.Yield? || a.Stop? || a.Spawn? || a.TakeZombie? || a.DeleteZombie? || a.SetInterrupts? || a.Timer? || a.TimerReturn? {
      ThreadFate(s, c, a, t);
    } else if a.Choose? {
      ChooseFate(s, c, t);
    } else if a.Handle? {
      HandleFate(s, c, t);
    } else {
      SwitchFate(s, c, a, t);
    }
  }

  // ----- no step is switched off

  /** The step that the code prescribes for core c is enabled. A core that is free may also
      lock any semaphore whose lock is free, and take a zombie if there is one. */
  ghost predicate Moves(s: State, c: nat) {
    c < |s.cores| && s.cores[c].me in s.threads &&
    var k, th := s.cores[c], s.threads[s.cores[c].me];
    match k.phase
    case Running =>
      if th.timer then CanTimerReturn(s, c)
      else
        (match th.todo
         case Normal =>
           && Free(s, c) && (s.zombies != [] ==> CanTakeZombie(s, c))
           && (forall i: nat {:trigger CanLock(s, c, i)} :: i < |s.sems| && s.sems[i].owner == None ==> CanLock(s, c, i))
         case DownLocked(_, _) => CanTakeToken(s, c) || CanBlockDown(s, c)
         case DownTook(_, _) => CanUnlockDown(s, c)
         case DownWait(_, _, _) => CanReturnDown(s, c)
         case UpLocked(_, _) => CanPassToken(s, c)
         case UpUnlinked(_, _, _) => CanUnlockUp(s, c)
         case UpReady(_) => CanScheduleUp(s, c)
         case Reaping(_) => CanDeleteZombie(s, c))
    case Entered => CanChoose(s, c) || (s.ready == [] && k.must && th.idle)
    case Switched => CanHandle(s, c) || (k.handler.WaitOn? && th.idle)
    case p => Reached(s, c, p)
  }

  /** Apart from an idle thread that must block while nothing is ready, one that waits on a
      semaphore, and a lock that is taken, no guard ever stops a core. */
  lemma EveryCoreMoves(s: State, c: nat)
    requires Inv(s) && c < |s.cores|
    ensures Moves(s, c)
  {
    var me := s.cores[c].me;
    assert CoreOk(s, c) && IdleOk(s, c) && ThreadOk(s, me);
    if SectionOf(s.threads[me].todo).Some? { assert SemOk(s, SectionOf(s.threads[me].todo).value); }
  }

  // ----- what becomes of a thread that leaves its core

  /** What the thread that enters block() in step a asked for. */
  function Asked(s: State, c: nat, a: Action): Option<Handler>
    requires Enabled(s, c, a)
  {
    match a
    case Yield => Some(Requeue)
    case Timer => Some(Requeue)
    case Stop => Some(Bury)
    case BlockDown => Some(WaitOn(TodoOf(s, c).sem))
    case _ => None
  }

  /** A step of one core leaves every other core as it is. */
  lemma OneCoreMoves(s: State, c: nat, a: Action, d: nat)
    requires Enabled(s, c, a) && d < |s.cores| && d != c
    ensures |Apply(s, c, a).cores| == |s.cores| && Apply(s, c, a).cores[d] == s.cores[d]
  {
  }

  ghost predicate Kept(k: Core, k': Core, asked: Option<Handler>) {
    && k'.handler == (if asked.Some? then asked.value else k.handler)
    && (Blocking(k.phase) && Blocking(k'.phase) ==> k'.me == k.me)
    && (asked.Some? ==> k'.me == k.me && k'.phase == Entered)
  }

  lemma StepKeepsRequest(s: State, c: nat, a: Action)
    requires Names(s, c) && s.cores[c].phase == Running ==> s.cores[c].active == s.cores[c].me
    requires Enabled(s, c, a) && (a.Timer? ==> s.cores[c].phase == Running)
    ensures c < |s.cores| == |Apply(s, c, a).cores|
    ensures Kept(s.cores[c], Apply(s, c, a).cores[c], Asked(s, c, a))
  {
  }

  /** The request stays with its core, and with the thread, until the handler runs, whatever
      core makes the step. */
  lemma RequestIsKept(s: State, c: nat, a: Action, d: nat)
    requires Inv(s) && Enabled(s, c, a) && d < |s.cores|
    ensures |Apply(s, c, a).cores| == |s.cores|
    ensures Kept(s.cores[d], Apply(s, c, a).cores[d], if d == c then Asked(s, c, a) else None)
  {
    hide Apply, Asked;
    if d != c {
      OneCoreMoves(s, c, a, d);
    } else {
      hide Kept;
      assert a.Timer? ==> CanTimer(s, c);
      assert CoreOk(s, c);
      TimerNeverReenters(s, c);
      StepKeepsRequest(s, c, a);
    }
  }

  /** readyQ is served in order, and a thread joins it, at the end, only by being created,
      by its own yield or preemption, or by an up that took it off a wait queue. */
  ghost predicate ReadyFlow(s: State, c: nat, a: Action, s': State)
    requires Enabled(s, c, a)
  {
    var k := s.cores[c];
    || s'.ready == s.ready
    || (a.Choose? && s.ready != [] && s'.ready == s.ready[1..] && c < |s'.cores| && s'.cores[c].next == s.ready[0])
    || (a.Spawn? && s'.ready == s.ready + [a.id])
    || (a.Handle? && k.handler.Requeue? && !s.threads[k.me].idle && s'.ready == s.ready + [k.me])
    || (a.ScheduleUp? && TodoOf(s, c).got.Some? && s'.ready == s.ready + [TodoOf(s, c).got.value])
  }

  /** A thread becomes a zombie only by its own stop, and zombies are deleted in order. */
  ghost predicate ZombieFlow(s: State, c: nat, a: Action, s': State)
    requires Enabled(s, c, a)
  {
    var k := s.cores[c];
    || s'.zombies == s.zombies
    || (a.Handle? && k.handler.Bury? && !s.threads[k.me].idle && s'.zombies == s.zombies + [k.me])
    || (a.TakeZombie? && s.zombies != [] && s'.zombies == s.zombies[1..]
        && k.me in s'.threads && s'.threads[k.me].todo == Reaping(s.zombies[0]))
  }

  lemma ThreadsGoWhereAsked(s: State, c: nat, a: Action)
    requires Inv(s) && Enabled(s, c, a)
    ensures ReadyFlow(s, c, a, Apply(s, c, a)) && ZombieFlow(s, c, a, Apply(s, c, a))
    ensures a.Handle? && !s.threads[s.cores[c].me].idle ==>
      match s.cores[c].handler
      case Requeue => s.cores[c].me in Apply(s, c, a).ready
      case Bury => s.cores[c].me in Apply(s, c, a).zombies
      case WaitOn(i) => i < |s.sems| && s.cores[c].me in Apply(s, c, a).sems[i].waiting
  {
    assert CoreOk(s, c);
    if a.TakeZombie? { assert ThreadOk(s, s.zombies[0]) && ThreadOk(s, s.cores[c].me); }
  }

  // ----- the timer

  /** Between the entry of block() and its return the active thread is marked or interrupts
      are off, so the timer cannot enter block() a second time. */
  lemma TimerNeverReenters(s: State, c: nat)
    requires Inv(s) && c < |s.cores|
    ensures Names(s, c)
    ensures CanTimer(s, c) ==> s.cores[c].phase == Running && s.cores[c].active == s.cores[c].me
                               && !Quiet(s.threads[s.cores[c].me])
    ensures s.cores[c].phase != Running ==> !s.cores[c].enabled || s.threads[s.cores[c].active].noPreempt
  {
    assert CoreOk(s, c);
    assert ThreadOk(s, s.cores[c].me);
  }

  // ----- semaphores

  /** Mutual exclusion: two threads that hold the lock of one semaphore are the same. */
  lemma OneLockHolder(s: State, i: nat, t: nat, u: nat)
    requires Inv(s) && t in s.threads && u in s.threads
    requires Owns(s.threads[t], i) && Owns(s.threads[u], i)
    ensures t == u
  {
    assert ThreadOk(s, t) && ThreadOk(s, u);
  }

  /** From the moment down finds no token until the next thread's stack has queued the
      caller, the lock is held for it, the count stays zero, and it is in no wait queue; the
      handler then appends it, with its context saved, and frees the lock. */
  lemma LockHeldAcrossSwitch(s: State, c: nat, i: nat)
    requires Inv(s) && c < |s.cores| && Blocking(s.cores[c].phase) && s.cores[c].handler == WaitOn(i)
    ensures var me := s.cores[c].me;
      && i < |s.sems| && s.sems[i].owner == Some(me) && s.sems[i].count == 0
      && (forall j: nat :: j < |s.sems| ==> me !in s.sems[j].waiting)
      && (CanHandle(s, c) ==>
            && s.threads[me].saved
            && DoHandle(s, c).sems[i].waiting == s.sems[i].waiting + [me]
            && DoHandle(s, c).sems[i].owner == None)
  {
    var me := s.cores[c].me;
    assert CoreOk(s, c) && ThreadOk(s, me);
    forall j: nat | j < |s.sems| ensures me !in s.sems[j].waiting { assert SemOk(s, j); }
  }

  /** down returns only with a token, and with interrupts still off. */
  lemma DownReturnsWithToken(s: State, c: nat)
    requires Inv(s) && CanReturnDown(s, c)
    ensures TodoOf(s, c).granted && !s.cores[c].enabled
  {
    assert CoreOk(s, c) && ThreadOk(s, s.cores[c].me);
  }

  /** A thread that waits is queued exactly once and no token is left for it; the tokens
      ever made are those left and those handed out; the threads handed one after waiting
      are a prefix, in order, of those that were queued. */
  lemma SemaphoreAccounts(s: State, i: nat)
    requires Inv(s) && i < |s.sems|
    ensures var x := s.sems[i];
      && x.initial + x.ups == x.count + x.grants
      && x.served <= x.queued && x.queued[|x.served|..] == x.waiting
      && (0 < x.count ==> x.waiting == [])
      && (forall t :: t in x.waiting <==> t in s.threads && s.threads[t].place == Waiting(i))
      && (forall t :: t in x.waiting ==> s.threads[t].saved && s.threads[t].todo.DownWait? && !s.threads[t].todo.granted)
  {
    var x := s.sems[i];
    assert SemOk(s, i);
    assert x.queued[|x.served|..] == x.waiting;
    forall t | t in s.threads ensures t in x.waiting <==> s.threads[t].place == Waiting(i) { assert ThreadOk(s, t); }
    forall t | t in x.waiting
      ensures s.threads[t].saved && s.threads[t].todo.DownWait? && !s.threads[t].todo.granted
    {
      assert ThreadOk(s, t);
    }
  }

  /** The interrupt state that down or up found when it was called, as a disabled flag. */
  function WasOf(d: Todo): Option<bool> {
    match d
    case DownLocked(_, was) => Some(was)
    case DownTook(_, was) => Some(was)
    case DownWait(_, was, _) => Some(was)
    case UpLocked(_, was) => Some(was)
    case UpUnlinked(_, was, _) => Some(was)
    case _ => None
  }

  ghost predicate WasKept(s: State, s': State, c: nat, t: nat) {
    && t in s.threads && t in s'.threads && c < |s.cores| == |s'.cores|
    && var w, w' := WasOf(s.threads[t].todo), WasOf(s'.threads[t].todo);
    && (w.Some? && w'.Some? ==> w' == w)
    && (w.Some? && w'.None? ==> s.cores[c].me == t && s'.cores[c].enabled == !w.value)
    && (w.None? && w'.Some? ==> s.cores[c].me == t && w'.value == !s.cores[c].enabled && !s'.cores[c].enabled)
  }

  lemma DownKeepsWas(s: State, c: nat, a: Action, t: nat)
    requires Enabled(s, c, a) && t in s.threads
    requires a.LockDown? || a.TakeToken? || a.UnlockDown? || a.BlockDown? || a.ReturnDown?
    ensures WasKept(s, Apply(s, c, a), c, t)
  {
  }

  lemma UpKeepsWas(s: State, c: nat, a: Action, t: nat)
    requires Enabled(s, c, a) && t in s.threads
    requires a.LockUp? || a.PassToken? || a.UnlockUp? || a.ScheduleUp?
    ensures WasKept(s, Apply(s, c, a), c, t)
  {
  }

  lemma ThreadStepsKeepWas(s: State, c: nat, a: Action, t: nat)
    requires Enabled(s, c, a) && t in s.threads
    requires a.Yield? || a.Stop? || a.Spawn? || a.TakeZombie? || a.DeleteZombie? || a.SetInterrupts? || a.Timer? || a.TimerReturn?
    ensures WasKept(s, Apply(s, c, a), c, t)
  {
  }

  lemma SwitchStepsKeepWas(s: State, c: nat, a: Action, t: nat)
    requires Enabled(s, c, a) && t in s.threads
    requires a.Choose? || a.Flag? || a.Activate? || a.Store? || a.Mask? || a.Clear? || a.Switch? || a.Handle? || a.Resume?
    ensures WasKept(s, Apply(s, c, a), c, t)
  {
  }

  /** The interrupt state is recorded when the lock is taken; no step of any core, across any
      number of switches, changes the record; and the step that ends the section or the down
      restores it, on the core where the thread runs by then. */
  lemma InterruptsRestored(s: State, c: nat, a: Action, t: nat)
    requires Enabled(s, c, a) && t in s.threads
    ensures WasKept(s, Apply(s, c, a), c, t)
  {
    hide WasKept, Enabled, Apply;
    if a.LockDown? || a.TakeToken? || a.UnlockDown? || a.BlockDown? || a.ReturnDown? {
      DownKeepsWas(s, c, a, t);
    } else if a.LockUp? || a.PassToken? || a.UnlockUp? || a.ScheduleUp? {
      UpKeepsWas(s, c, a, t);
    } else if a.Yield? || a.Stop? || a.Spawn? || a.TakeZombie? || a.DeleteZombie? || a.SetInterrupts? || a.Timer? || a.TimerReturn? {
      ThreadStepsKeepWas(s, c, a, t);
    } else {
      SwitchStepsKeepWas(s, c, a, t);
    }
  }

  // ----- the semaphores are atomic counters

  /** What the users of a semaphore see: P by a thread whose down takes a token, V by up. */
  datatype Event = P(thread: nat) | V(thread: nat)

  /** The counter after the events, or None when some P found it at zero. */
  function Count(n: nat, events: seq<Event>): Option<nat>
    decreases events
  {
    if events == [] then Some(n)
    else
      match events[0]
      case P(_) => if CanTake(n) then Count(Take(n), events[1..]) else None
      case V(_) => Count(Give(n), events[1..])
  }

  /** The events on semaphore i in one step. Waking a waiter is a V and that waiter's P. */
  ghost function EventsOf(s: State, c: nat, a: Action, i: nat): seq<Event>
    requires Enabled(s, c, a)
  {
    match a
    case TakeToken => if TodoOf(s, c).sem == i then [P(s.cores[c].me)] else []
    case PassToken =>
      if TodoOf(s, c).sem != i then []
      else if s.sems[i].waiting == [] then [V(s.cores[c].me)]
      else [V(s.cores[c].me), P(s.sems[i].waiting[0])]
    case _ => []
  }

  ghost function Events(states: seq<State>, steps: seq<Step>, i: nat, n: nat): seq<Event>
    requires IsRun(states, steps) && n <= |steps|
  {
    if n == 0 then []
    else Events(states, steps, i, n - 1)
         + EventsOf(states[n - 1], steps[n - 1].core, steps[n - 1].action, i)
  }

  lemma {:induction false} CountAppend(n: nat, a: seq<Event>, b: seq<Event>)
    requires Count(n, a).Some?
    ensures Count(n, a + b) == Count(Count(n, a).value, b)
    decreases a
  {
    if a == [] {
      assert a + b == b;
    } else {
      assert (a + b)[1..] == a[1..] + b;
      match a[0]
      case P(_) => CountAppend(n - 1, a[1..], b);
      case V(_) => CountAppend(n + 1, a[1..], b);
    }
  }

  lemma StepCounts(s: State, c: nat, a: Action, i: nat)
    requires Inv(s) && Enabled(s, c, a) && i < |s.sems|
    ensures |Apply(s, c, a).sems| == |s.sems|
    ensures Count(s.sems[i].count, EventsOf(s, c, a, i)) == Some(Apply(s, c, a).sems[i].count)
  {
    assert SemOk(s, i);
    if a.PassToken? && TodoOf(s, c).sem == i && s.sems[i].waiting != [] {
      var e := EventsOf(s, c, a, i);
      assert e[1..] == [P(s.sems[i].waiting[0])] && e[1..][1..] == [];
      assert Count(s.sems[i].count + 1, e[1..]) == Count(s.sems[i].count, []);
    }
  }

  /** Every run is a run of an atomic counting semaphore: no P below zero, and the count
      field is what the events leave. No token is lost, made up, or handed out twice. */
  lemma {:induction false} RunRefinesCounter(states: seq<State>, steps: seq<Step>, i: nat, n: nat)
    requires IsRun(states, steps) && Inv(states[0]) && i < |states[0].sems| && n <= |steps|
    ensures |states[n].sems| == |states[0].sems|
    ensures Count(states[0].sems[i].count, Events(states, steps, i, n)) == Some(states[n].sems[i].count)
    decreases n
  {
    hide Inv, Apply, Enabled, EventsOf;
    if n > 0 {
      var a := steps[n - 1];
      RunRefinesCounter(states, steps, i, n - 1);
      RunKeepsInv(states, steps, n - 1);
      assert states[n - 1 + 1] == Apply(states[n - 1], a.core, a.action);
      StepCounts(states[n - 1], a.core, a.action, i);
      CountAppend(states[0].sems[i].count, Events(states, steps, i, n - 1),
                  EventsOf(states[n - 1], a.core, a.action, i));
    }
  }

  /** A P is by a thread that is inside down on that semaphore and has no token yet. */
  lemma TokensGoToWaiters(s: State, c: nat, a: Action, i: nat, e: Event)
    requires Inv(s) && Enabled(s, c, a) && i < |s.sems| && e in EventsOf(s, c, a, i) && e.P?
    ensures e.thread in s.threads
    ensures var d := s.threads[e.thread].todo;
      (d.DownLocked? && d.sem == i) || (d.DownWait? && d.sem == i && !d.granted)
    ensures var d := Apply(s, c, a).threads[e.thread].todo; d.DownTook? || (d.DownWait? && d.granted)
  {
    assert SemOk(s, i) && CoreOk(s, c);
    if a.PassToken? { assert ThreadOk(s, s.sems[i].waiting[0]); }
  }
}
