/** Every step of the scheduler machine keeps its invariant, one step at a time: what the
    step touches, and that everything it touches is in order again. */
module SchedulerSteps {
  import opened Scheduler
  import opened Scheduling

  lemma LockDownTouches(s: State, c: nat, i: nat)
    requires Inv(s) && CanLock(s, c, i)
    ensures Touches(s, DoLockDown(s, c, i), c, {s.cores[c].me}, {i})
  {
    hide QuietOk;
    assert CoreOk(s, c) && ThreadOk(s, s.cores[c].me);
    assert SemOk(s, i);
    AtCore(s, c);
  }

  lemma LockDownSettles(s: State, c: nat, i: nat)
    requires Inv(s) && CanLock(s, c, i)
    ensures TouchedOk(DoLockDown(s, c, i), c, {s.cores[c].me}, {i})
  {
    assert CoreOk(s, c) && ThreadOk(s, s.cores[c].me);
    assert SemOk(s, i);
  }

  lemma TakeTokenTouches(s: State, c: nat)
    requires Inv(s) && CanTakeToken(s, c)
    ensures Touches(s, DoTakeToken(s, c), c, {s.cores[c].me}, {TodoOf(s, c).sem})
  {
    hide QuietOk;
    assert CoreOk(s, c) && ThreadOk(s, s.cores[c].me);
    assert SemOk(s, TodoOf(s, c).sem);
    AtCore(s, c);
  }

  lemma TakeTokenSettles(s: State, c: nat)
    requires Inv(s) && CanTakeToken(s, c)
    ensures TouchedOk(DoTakeToken(s, c), c, {s.cores[c].me}, {TodoOf(s, c).sem})
  {
    assert CoreOk(s, c) && ThreadOk(s, s.cores[c].me);
    assert SemOk(s, TodoOf(s, c).sem);
  }

  lemma UnlockDownTouches(s: State, c: nat)
    requires Inv(s) && CanUnlockDown(s, c)
    ensures Touches(s, DoUnlockDown(s, c), c, {s.cores[c].me}, {TodoOf(s, c).sem})
  {
    hide QuietOk;
    assert CoreOk(s, c) && ThreadOk(s, s.cores[c].me);
    assert SemOk(s, TodoOf(s, c).sem);
    AtCore(s, c);
  }

  lemma UnlockDownSettles(s: State, c: nat)
    requires Inv(s) && CanUnlockDown(s, c)
    ensures TouchedOk(DoUnlockDown(s, c), c, {s.cores[c].me}, {TodoOf(s, c).sem})
  {
    assert CoreOk(s, c) && ThreadOk(s, s.cores[c].me);
    assert SemOk(s, TodoOf(s, c).sem);
  }

  lemma BlockDownTouches(s: State, c: nat)
    requires Inv(s) && CanBlockDown(s, c)
    ensures Touches(s, DoBlockDown(s, c), c, {s.cores[c].me}, {})
  {
    hide QuietOk;
    assert CoreOk(s, c) && ThreadOk(s, s.cores[c].me);
    AtCore(s, c);
  }

  lemma BlockDownSettles(s: State, c: nat)
    requires Inv(s) && CanBlockDown(s, c)
    ensures TouchedOk(DoBlockDown(s, c), c, {s.cores[c].me}, {})
  {
    assert CoreOk(s, c) && ThreadOk(s, s.cores[c].me);
  }

  lemma ReturnDownTouches(s: State, c: nat)
    requires Inv(s) && CanReturnDown(s, c)
    ensures Touches(s, DoReturnDown(s, c), c, {s.cores[c].me}, {})
  {
    hide QuietOk;
    assert CoreOk(s, c) && ThreadOk(s, s.cores[c].me);
    AtCore(s, c);
  }

  lemma ReturnDownSettles(s: State, c: nat)
    requires Inv(s) && CanReturnDown(s, c)
    ensures TouchedOk(DoReturnDown(s, c), c, {s.cores[c].me}, {})
  {
    assert CoreOk(s, c) && ThreadOk(s, s.cores[c].me);
  }

  lemma LockUpTouches(s: State, c: nat, i: nat)
    requires Inv(s) && CanLock(s, c, i)
    ensures Touches(s, DoLockUp(s, c, i), c, {s.cores[c].me}, {i})
  {
    hide QuietOk;
    assert CoreOk(s, c) && ThreadOk(s, s.cores[c].me);
    assert SemOk(s, i);
    AtCore(s, c);
  }

  lemma LockUpSettles(s: State, c: nat, i: nat)
    requires Inv(s) && CanLock(s, c, i)
    ensures TouchedOk(DoLockUp(s, c, i), c, {s.cores[c].me}, {i})
  {
    assert CoreOk(s, c) && ThreadOk(s, s.cores[c].me);
    assert SemOk(s, i);
  }

  lemma KeepTokenTouches(s: State, c: nat)
    requires Inv(s) && CanPassToken(s, c) && s.sems[TodoOf(s, c).sem].waiting == []
    ensures Touches(s, DoKeepToken(s, c), c, {s.cores[c].me}, {TodoOf(s, c).sem})
  {
    hide QuietOk;
    assert CoreOk(s, c) && ThreadOk(s, s.cores[c].me);
    assert SemOk(s, TodoOf(s, c).sem);
    AtCore(s, c);
  }

  lemma KeepTokenSettles(s: State, c: nat)
    requires Inv(s) && CanPassToken(s, c) && s.sems[TodoOf(s, c).sem].waiting == []
    ensures TouchedOk(DoKeepToken(s, c), c, {s.cores[c].me}, {TodoOf(s, c).sem})
  {
    assert CoreOk(s, c) && ThreadOk(s, s.cores[c].me);
    assert SemOk(s, TodoOf(s, c).sem);
  }

  lemma GrantOutside(s: State, c: nat)
    requires Inv(s) && CanPassToken(s, c) && s.sems[TodoOf(s, c).sem].waiting != []
    ensures Outside(s, DoGrant(s, c), c, {s.cores[c].me, s.sems[TodoOf(s, c).sem].waiting[0]}, {TodoOf(s, c).sem})
  {
    hide QuietOk;
    assert CoreOk(s, c) && ThreadOk(s, s.cores[c].me);
    assert SemOk(s, TodoOf(s, c).sem);
    assert ThreadOk(s, s.sems[TodoOf(s, c).sem].waiting[0]);
    AtCore(s, c);
  }

  lemma GrantTouches(s: State, c: nat)
    requires Inv(s) && CanPassToken(s, c) && s.sems[TodoOf(s, c).sem].waiting != []
    ensures Touches(s, DoGrant(s, c), c, {s.cores[c].me, s.sems[TodoOf(s, c).sem].waiting[0]}, {TodoOf(s, c).sem})
  {
    GrantOutside(s, c);
    hide QuietOk;
    assert CoreOk(s, c) && ThreadOk(s, s.cores[c].me);
    assert SemOk(s, TodoOf(s, c).sem);
    assert ThreadOk(s, s.sems[TodoOf(s, c).sem].waiting[0]);
    hide Outside;
  }

  lemma GrantThreads(s: State, c: nat)
    requires Inv(s) && CanPassToken(s, c) && s.sems[TodoOf(s, c).sem].waiting != []
    ensures forall t :: t in {s.cores[c].me, s.sems[TodoOf(s, c).sem].waiting[0]} ==> ThreadOk(DoGrant(s, c), t)
  {
    assert CoreOk(s, c) && ThreadOk(s, s.cores[c].me);
    assert SemOk(s, TodoOf(s, c).sem);
    assert ThreadOk(s, s.sems[TodoOf(s, c).sem].waiting[0]);
  }

  lemma GrantSem(s: State, c: nat)
    requires Inv(s) && CanPassToken(s, c) && s.sems[TodoOf(s, c).sem].waiting != []
    ensures forall i :: i in {TodoOf(s, c).sem} ==> SemOk(DoGrant(s, c), i)
  {
    assert CoreOk(s, c) && ThreadOk(s, s.cores[c].me);
    assert SemOk(s, TodoOf(s, c).sem);
    assert ThreadOk(s, s.sems[TodoOf(s, c).sem].waiting[0]);
  }

  lemma GrantSettles(s: State, c: nat)
    requires Inv(s) && CanPassToken(s, c) && s.sems[TodoOf(s, c).sem].waiting != []
    ensures TouchedOk(DoGrant(s, c), c, {s.cores[c].me, s.sems[TodoOf(s, c).sem].waiting[0]}, {TodoOf(s, c).sem})
  {
    GrantThreads(s, c);
    GrantSem(s, c);
    assert CoreOk(s, c) && ThreadOk(s, s.cores[c].me);
    assert SemOk(s, TodoOf(s, c).sem);
    assert ThreadOk(s, s.sems[TodoOf(s, c).sem].waiting[0]);
    hide ThreadOk, SemOk;
  }

  lemma UnlockUpTouches(s: State, c: nat)
    requires Inv(s) && CanUnlockUp(s, c)
    ensures Touches(s, DoUnlockUp(s, c), c, {s.cores[c].me}, {TodoOf(s, c).sem})
  {
    hide QuietOk;
    assert CoreOk(s, c) && ThreadOk(s, s.cores[c].me);
    assert SemOk(s, TodoOf(s, c).sem);
    AtCore(s, c);
  }

  lemma UnlockUpSettles(s: State, c: nat)
    requires Inv(s) && CanUnlockUp(s, c)
    ensures TouchedOk(DoUnlockUp(s, c), c, {s.cores[c].me}, {TodoOf(s, c).sem})
  {
    assert CoreOk(s, c) && ThreadOk(s, s.cores[c].me);
    assert SemOk(s, TodoOf(s, c).sem);
  }

  lemma ReturnUpTouches(s: State, c: nat)
    requires Inv(s) && CanScheduleUp(s, c) && TodoOf(s, c).got.None?
    ensures Touches(s, DoScheduleUp(s, c), c, {s.cores[c].me}, {})
  {
    hide QuietOk;
    assert CoreOk(s, c) && ThreadOk(s, s.cores[c].me);
    AtCore(s, c);
  }

  lemma ReturnUpSettles(s: State, c: nat)
    requires Inv(s) && CanScheduleUp(s, c) && TodoOf(s, c).got.None?
    ensures TouchedOk(DoScheduleUp(s, c), c, {s.cores[c].me}, {})
  {
    assert CoreOk(s, c) && ThreadOk(s, s.cores[c].me);
  }

  lemma ScheduleUpOutside(s: State, c: nat)
    requires Inv(s) && CanScheduleUp(s, c) && TodoOf(s, c).got.Some?
    ensures Outside(s, DoScheduleUp(s, c), c, {s.cores[c].me, TodoOf(s, c).got.value}, {})
  {
    hide QuietOk;
    assert CoreOk(s, c) && ThreadOk(s, s.cores[c].me);
    assert ThreadOk(s, TodoOf(s, c).got.value);
    AtCore(s, c);
  }

  lemma ScheduleUpTouches(s: State, c: nat)
    requires Inv(s) && CanScheduleUp(s, c) && TodoOf(s, c).got.Some?
    ensures Touches(s, DoScheduleUp(s, c), c, {s.cores[c].me, TodoOf(s, c).got.value}, {})
  {
    ScheduleUpOutside(s, c);
    hide QuietOk;
    assert CoreOk(s, c) && ThreadOk(s, s.cores[c].me);
    assert ThreadOk(s, TodoOf(s, c).got.value);
    hide Outside;
  }

  lemma ScheduleUpThreads(s: State, c: nat)
    requires Inv(s) && CanScheduleUp(s, c) && TodoOf(s, c).got.Some?
    ensures forall t :: t in {s.cores[c].me, TodoOf(s, c).got.value} ==> ThreadOk(DoScheduleUp(s, c), t)
  {
    assert CoreOk(s, c) && ThreadOk(s, s.cores[c].me);
    assert ThreadOk(s, TodoOf(s, c).got.value);
  }

  lemma ScheduleUpSettles(s: State, c: nat)
    requires Inv(s) && CanScheduleUp(s, c) && TodoOf(s, c).got.Some?
    ensures TouchedOk(DoScheduleUp(s, c), c, {s.cores[c].me, TodoOf(s, c).got.value}, {})
  {
    ScheduleUpThreads(s, c);
    assert CoreOk(s, c) && ThreadOk(s, s.cores[c].me);
    assert ThreadOk(s, TodoOf(s, c).got.value);
    hide ThreadOk;
  }

  lemma EnterTouches(s: State, c: nat, must: bool, h: Handler)
    requires Inv(s) && Free(s, c) && !h.WaitOn?
    ensures Touches(s, Enter(s, c, must, h), c, {s.cores[c].me}, {})
  {
    hide QuietOk;
    assert CoreOk(s, c) && ThreadOk(s, s.cores[c].me);
    AtCore(s, c);
  }

  lemma EnterSettles(s: State, c: nat, must: bool, h: Handler)
    requires Inv(s) && Free(s, c) && !h.WaitOn?
    ensures TouchedOk(Enter(s, c, must, h), c, {s.cores[c].me}, {})
  {
    assert CoreOk(s, c) && ThreadOk(s, s.cores[c].me);
  }

  lemma SpawnTouches(s: State, c: nat, t: nat)
    requires Inv(s) && CanSpawn(s, c, t)
    ensures Touches(s, DoSpawn(s, c, t), c, {s.cores[c].me, t}, {})
  {
    hide QuietOk;
    assert CoreOk(s, c) && ThreadOk(s, s.cores[c].me);
    AtCore(s, c);
  }

  lemma SpawnSettles(s: State, c: nat, t: nat)
    requires Inv(s) && CanSpawn(s, c, t)
    ensures TouchedOk(DoSpawn(s, c, t), c, {s.cores[c].me, t}, {})
  {
    assert CoreOk(s, c) && ThreadOk(s, s.cores[c].me);
  }

  lemma TakeZombieOutside(s: State, c: nat)
    requires Inv(s) && CanTakeZombie(s, c)
    ensures Outside(s, DoTakeZombie(s, c), c, {s.cores[c].me, s.zombies[0]}, {})
  {
    hide QuietOk;
    assert CoreOk(s, c) && ThreadOk(s, s.cores[c].me);
    assert ThreadOk(s, s.zombies[0]);
    AtCore(s, c);
  }

  lemma TakeZombieTouches(s: State, c: nat)
    requires Inv(s) && CanTakeZombie(s, c)
    ensures Touches(s, DoTakeZombie(s, c), c, {s.cores[c].me, s.zombies[0]}, {})
  {
    TakeZombieOutside(s, c);
    hide QuietOk;
    assert CoreOk(s, c) && ThreadOk(s, s.cores[c].me);
    assert ThreadOk(s, s.zombies[0]);
    hide Outside;
  }

  lemma TakeZombieThreads(s: State, c: nat)
    requires Inv(s) && CanTakeZombie(s, c)
    ensures forall t :: t in {s.cores[c].me, s.zombies[0]} ==> ThreadOk(DoTakeZombie(s, c), t)
  {
    assert CoreOk(s, c) && ThreadOk(s, s.cores[c].me);
    assert ThreadOk(s, s.zombies[0]);
  }

  lemma TakeZombieSettles(s: State, c: nat)
    requires Inv(s) && CanTakeZombie(s, c)
    ensures TouchedOk(DoTakeZombie(s, c), c, {s.cores[c].me, s.zombies[0]}, {})
  {
    TakeZombieThreads(s, c);
    assert CoreOk(s, c) && ThreadOk(s, s.cores[c].me);
    assert ThreadOk(s, s.zombies[0]);
    hide ThreadOk;
  }

  lemma DeleteZombieOutside(s: State, c: nat)
    requires Inv(s) && CanDeleteZombie(s, c)
    ensures Outside(s, DoDeleteZombie(s, c), c, {s.cores[c].me, TodoOf(s, c).zombie}, {})
  {
    hide QuietOk;
    assert CoreOk(s, c) && ThreadOk(s, s.cores[c].me);
    assert ThreadOk(s, TodoOf(s, c).zombie);
    AtCore(s, c);
  }

  lemma DeleteZombieTouches(s: State, c: nat)
    requires Inv(s) && CanDeleteZombie(s, c)
    ensures Touches(s, DoDeleteZombie(s, c), c, {s.cores[c].me, TodoOf(s, c).zombie}, {})
  {
    DeleteZombieOutside(s, c);
    hide QuietOk;
    assert CoreOk(s, c) && ThreadOk(s, s.cores[c].me);
    assert ThreadOk(s, TodoOf(s, c).zombie);
    hide Outside;
  }

  lemma DeleteZombieThreads(s: State, c: nat)
    requires Inv(s) && CanDeleteZombie(s, c)
    ensures forall t :: t in {s.cores[c].me, TodoOf(s, c).zombie} ==> ThreadOk(DoDeleteZombie(s, c), t)
  {
    assert CoreOk(s, c) && ThreadOk(s, s.cores[c].me);
    assert ThreadOk(s, TodoOf(s, c).zombie);
  }

  lemma DeleteZombieSettles(s: State, c: nat)
    requires Inv(s) && CanDeleteZombie(s, c)
    ensures TouchedOk(DoDeleteZombie(s, c), c, {s.cores[c].me, TodoOf(s, c).zombie}, {})
  {
    DeleteZombieThreads(s, c);
    assert CoreOk(s, c) && ThreadOk(s, s.cores[c].me);
    assert ThreadOk(s, TodoOf(s, c).zombie);
    hide ThreadOk;
  }

  lemma InterruptsTouches(s: State, c: nat, on: bool)
    requires Inv(s) && Free(s, c)
    ensures Touches(s, Interrupts(s, c, on), c, {s.cores[c].me}, {})
  {
    hide QuietOk;
    assert CoreOk(s, c) && ThreadOk(s, s.cores[c].me);
    AtCore(s, c);
  }

  lemma InterruptsSettles(s: State, c: nat, on: bool)
    requires Inv(s) && Free(s, c)
    ensures TouchedOk(Interrupts(s, c, on), c, {s.cores[c].me}, {})
  {
    assert CoreOk(s, c) && ThreadOk(s, s.cores[c].me);
  }

  lemma ChooseTouches(s: State, c: nat)
    requires Inv(s) && CanChoose(s, c) && s.ready != []
    ensures Touches(s, DoChoose(s, c), c, {s.cores[c].me, s.ready[0]}, {})
  {
    hide PlaceOk, WorkOk, QuietOk, SemOk;
    assert CoreOk(s, c) && ThreadOk(s, s.cores[c].me);
    assert ThreadOk(s, s.ready[0]);
    AtCore(s, c);
  }

  lemma ChooseThreads(s: State, c: nat)
    requires Inv(s) && CanChoose(s, c) && s.ready != []
    ensures forall t :: t in {s.cores[c].me, s.ready[0]} ==> ThreadOk(DoChoose(s, c), t)
  {
    assert CoreOk(s, c) && ThreadOk(s, s.cores[c].me);
    assert ThreadOk(s, s.ready[0]);
  }

  lemma ChooseSettles(s: State, c: nat)
    requires Inv(s) && CanChoose(s, c) && s.ready != []
    ensures TouchedOk(DoChoose(s, c), c, {s.cores[c].me, s.ready[0]}, {})
  {
    ChooseThreads(s, c);
    assert CoreOk(s, c) && ThreadOk(s, s.cores[c].me);
    assert ThreadOk(s, s.ready[0]);
    hide ThreadOk;
  }

  lemma ChooseIdleTouches(s: State, c: nat)
    requires Inv(s) && CanChoose(s, c) && s.ready == [] && s.cores[c].must
    ensures Touches(s, DoChoose(s, c), c, {s.cores[c].me, c}, {})
  {
    hide QuietOk;
    assert CoreOk(s, c) && ThreadOk(s, s.cores[c].me);
    assert IdleOk(s, c) && ThreadOk(s, c);
    AtCore(s, c);
  }

  lemma ChooseIdleThreads(s: State, c: nat)
    requires Inv(s) && CanChoose(s, c) && s.ready == [] && s.cores[c].must
    ensures forall t :: t in {s.cores[c].me, c} ==> ThreadOk(DoChoose(s, c), t)
  {
    assert CoreOk(s, c) && ThreadOk(s, s.cores[c].me);
    assert IdleOk(s, c) && ThreadOk(s, c);
  }

  lemma ChooseIdleSettles(s: State, c: nat)
    requires Inv(s) && CanChoose(s, c) && s.ready == [] && s.cores[c].must
    ensures TouchedOk(DoChoose(s, c), c, {s.cores[c].me, c}, {})
  {
    ChooseIdleThreads(s, c);
    assert CoreOk(s, c) && ThreadOk(s, s.cores[c].me);
    assert IdleOk(s, c) && ThreadOk(s, c);
    hide ThreadOk;
  }

  lemma ChooseNoneTouches(s: State, c: nat)
    requires Inv(s) && CanChoose(s, c) && s.ready == [] && !s.cores[c].must
    ensures Touches(s, DoChoose(s, c), c, {s.cores[c].me}, {})
  {
    hide QuietOk;
    assert CoreOk(s, c) && ThreadOk(s, s.cores[c].me);
    AtCore(s, c);
  }

  lemma ChooseNoneSettles(s: State, c: nat)
    requires Inv(s) && CanChoose(s, c) && s.ready == [] && !s.cores[c].must
    ensures TouchedOk(DoChoose(s, c), c, {s.cores[c].me}, {})
  {
    assert CoreOk(s, c) && ThreadOk(s, s.cores[c].me);
  }

  lemma FlagTouches(s: State, c: nat)
    requires Inv(s) && Reached(s, c, Chosen)
    ensures Touches(s, DoFlag(s, c), c, {s.cores[c].me, s.cores[c].next}, {})
  {
    hide PlaceOk, WorkOk, QuietOk;
    assert CoreOk(s, c) && ThreadOk(s, s.cores[c].me);
    assert ThreadOk(s, s.cores[c].next);
    AtCore(s, c);
  }

  lemma FlagSettles(s: State, c: nat)
    requires Inv(s) && Reached(s, c, Chosen)
    ensures TouchedOk(DoFlag(s, c), c, {s.cores[c].me, s.cores[c].next}, {})
  {
    assert CoreOk(s, c) && ThreadOk(s, s.cores[c].me);
    assert ThreadOk(s, s.cores[c].next);
  }

  lemma ActivateTouches(s: State, c: nat)
    requires Inv(s) && Reached(s, c, Flagged)
    ensures Touches(s, DoActivate(s, c), c, {s.cores[c].me, s.cores[c].next}, {})
  {
    hide PlaceOk, WorkOk, QuietOk;
    assert CoreOk(s, c) && ThreadOk(s, s.cores[c].me);
    assert ThreadOk(s, s.cores[c].next);
    AtCore(s, c);
  }

  lemma ActivateSettles(s: State, c: nat)
    requires Inv(s) && Reached(s, c, Flagged)
    ensures TouchedOk(DoActivate(s, c), c, {s.cores[c].me, s.cores[c].next}, {})
  {
    assert CoreOk(s, c) && ThreadOk(s, s.cores[c].me);
    assert ThreadOk(s, s.cores[c].next);
  }

  lemma StoreTouches(s: State, c: nat)
    requires Inv(s) && Reached(s, c, Activated)
    ensures Touches(s, DoStore(s, c), c, {s.cores[c].me, s.cores[c].next}, {})
  {
    hide PlaceOk, WorkOk, QuietOk;
    assert CoreOk(s, c) && ThreadOk(s, s.cores[c].me);
    assert ThreadOk(s, s.cores[c].next);
    AtCore(s, c);
  }

  lemma StoreThreads(s: State, c: nat)
    requires Inv(s) && Reached(s, c, Activated)
    ensures forall t :: t in {s.cores[c].me, s.cores[c].next} ==> ThreadOk(DoStore(s, c), t)
  {
    assert CoreOk(s, c) && ThreadOk(s, s.cores[c].me);
    assert ThreadOk(s, s.cores[c].next);
  }

  lemma StoreSettles(s: State, c: nat)
    requires Inv(s) && Reached(s, c, Activated)
    ensures TouchedOk(DoStore(s, c), c, {s.cores[c].me, s.cores[c].next}, {})
  {
    StoreThreads(s, c);
    assert CoreOk(s, c) && ThreadOk(s, s.cores[c].me);
    assert ThreadOk(s, s.cores[c].next);
    hide ThreadOk;
  }

  lemma MaskTouches(s: State, c: nat)
    requires Inv(s) && Reached(s, c, Stored)
    ensures Touches(s, DoMask(s, c), c, {s.cores[c].me, s.cores[c].next}, {})
  {
    hide PlaceOk, WorkOk, QuietOk;
    assert CoreOk(s, c) && ThreadOk(s, s.cores[c].me);
    assert ThreadOk(s, s.cores[c].next);
    AtCore(s, c);
  }

  lemma MaskSettles(s: State, c: nat)
    requires Inv(s) && Reached(s, c, Stored)
    ensures TouchedOk(DoMask(s, c), c, {s.cores[c].me, s.cores[c].next}, {})
  {
    assert CoreOk(s, c) && ThreadOk(s, s.cores[c].me);
    assert ThreadOk(s, s.cores[c].next);
  }

  lemma ClearTouches(s: State, c: nat)
    requires Inv(s) && Reached(s, c, Masked)
    ensures Touches(s, DoClear(s, c), c, {s.cores[c].me, s.cores[c].next}, {})
  {
    hide PlaceOk, WorkOk, QuietOk;
    assert CoreOk(s, c) && ThreadOk(s, s.cores[c].me);
    assert ThreadOk(s, s.cores[c].next);
    AtCore(s, c);
  }

  lemma ClearSettles(s: State, c: nat)
    requires Inv(s) && Reached(s, c, Masked)
    ensures TouchedOk(DoClear(s, c), c, {s.cores[c].me, s.cores[c].next}, {})
  {
    assert CoreOk(s, c) && ThreadOk(s, s.cores[c].me);
    assert ThreadOk(s, s.cores[c].next);
  }

  lemma SwitchTouches(s: State, c: nat)
    requires Inv(s) && Reached(s, c, Cleared)
    ensures Touches(s, DoSwitch(s, c), c, {s.cores[c].me, s.cores[c].next}, {})
  {
    hide PlaceOk, WorkOk, QuietOk;
    assert CoreOk(s, c) && ThreadOk(s, s.cores[c].me);
    assert ThreadOk(s, s.cores[c].next);
    AtCore(s, c);
  }

  lemma SwitchThreads(s: State, c: nat)
    requires Inv(s) && Reached(s, c, Cleared)
    ensures forall t :: t in {s.cores[c].me, s.cores[c].next} ==> ThreadOk(DoSwitch(s, c), t)
  {
    assert CoreOk(s, c) && ThreadOk(s, s.cores[c].me);
    assert ThreadOk(s, s.cores[c].next);
  }

  lemma SwitchSettles(s: State, c: nat)
    requires Inv(s) && Reached(s, c, Cleared)
    ensures TouchedOk(DoSwitch(s, c), c, {s.cores[c].me, s.cores[c].next}, {})
  {
    SwitchThreads(s, c);
    assert CoreOk(s, c) && ThreadOk(s, s.cores[c].me);
    assert ThreadOk(s, s.cores[c].next);
    hide ThreadOk;
  }

  lemma ParkTouches(s: State, c: nat)
    requires Inv(s) && CanHandle(s, c) && !s.cores[c].handler.WaitOn? && s.threads[s.cores[c].me].idle
    ensures Touches(s, DoLeave(s, c), c, {s.cores[c].me, s.cores[c].next}, {})
  {
    hide PlaceOk, WorkOk, QuietOk;
    assert CoreOk(s, c) && ThreadOk(s, s.cores[c].me);
    assert ThreadOk(s, s.cores[c].next);
    AtCore(s, c);
  }

  lemma ParkThreads(s: State, c: nat)
    requires Inv(s) && CanHandle(s, c) && !s.cores[c].handler.WaitOn? && s.threads[s.cores[c].me].idle
    ensures forall t :: t in {s.cores[c].me, s.cores[c].next} ==> ThreadOk(DoLeave(s, c), t)
  {
    assert CoreOk(s, c) && ThreadOk(s, s.cores[c].me);
    assert ThreadOk(s, s.cores[c].next);
  }

  lemma ParkSettles(s: State, c: nat)
    requires Inv(s) && CanHandle(s, c) && !s.cores[c].handler.WaitOn? && s.threads[s.cores[c].me].idle
    ensures TouchedOk(DoLeave(s, c), c, {s.cores[c].me, s.cores[c].next}, {})
  {
    ParkThreads(s, c);
    assert CoreOk(s, c) && ThreadOk(s, s.cores[c].me);
    assert ThreadOk(s, s.cores[c].next);
    hide ThreadOk;
  }

  lemma RequeueTouches(s: State, c: nat)
    requires Inv(s) && CanHandle(s, c) && s.cores[c].handler.Requeue? && !s.threads[s.cores[c].me].idle
    ensures Touches(s, DoLeave(s, c), c, {s.cores[c].me, s.cores[c].next}, {})
  {
    hide PlaceOk, WorkOk, QuietOk;
    assert CoreOk(s, c) && ThreadOk(s, s.cores[c].me);
    assert ThreadOk(s, s.cores[c].next);
    AtCore(s, c);
  }

  lemma RequeueThreads(s: State, c: nat)
    requires Inv(s) && CanHandle(s, c) && s.cores[c].handler.Requeue? && !s.threads[s.cores[c].me].idle
    ensures forall t :: t in {s.cores[c].me, s.cores[c].next} ==> ThreadOk(DoLeave(s, c), t)
  {
    assert CoreOk(s, c) && ThreadOk(s, s.cores[c].me);
    assert ThreadOk(s, s.cores[c].next);
  }

  lemma RequeueSettles(s: State, c: nat)
    requires Inv(s) && CanHandle(s, c) && s.cores[c].handler.Requeue? && !s.threads[s.cores[c].me].idle
    ensures TouchedOk(DoLeave(s, c), c, {s.cores[c].me, s.cores[c].next}, {})
  {
    RequeueThreads(s, c);
    assert CoreOk(s, c) && ThreadOk(s, s.cores[c].me);
    assert ThreadOk(s, s.cores[c].next);
    hide ThreadOk;
  }

  lemma BuryTouches(s: State, c: nat)
    requires Inv(s) && CanHandle(s, c) && s.cores[c].handler.Bury? && !s.threads[s.cores[c].me].idle
    ensures Touches(s, DoLeave(s, c), c, {s.cores[c].me, s.cores[c].next}, {})
  {
    hide PlaceOk, WorkOk, QuietOk;
    assert CoreOk(s, c) && ThreadOk(s, s.cores[c].me);
    assert ThreadOk(s, s.cores[c].next);
    AtCore(s, c);
  }

  lemma BuryThreads(s: State, c: nat)
    requires Inv(s) && CanHandle(s, c) && s.cores[c].handler.Bury? && !s.threads[s.cores[c].me].idle
    ensures forall t :: t in {s.cores[c].me, s.cores[c].next} ==> ThreadOk(DoLeave(s, c), t)
  {
    assert CoreOk(s, c) && ThreadOk(s, s.cores[c].me);
    assert ThreadOk(s, s.cores[c].next);
  }

  lemma BurySettles(s: State, c: nat)
    requires Inv(s) && CanHandle(s, c) && s.cores[c].handler.Bury? && !s.threads[s.cores[c].me].idle
    ensures TouchedOk(DoLeave(s, c), c, {s.cores[c].me, s.cores[c].next}, {})
  {
    BuryThreads(s, c);
    assert CoreOk(s, c) && ThreadOk(s, s.cores[c].me);
    assert ThreadOk(s, s.cores[c].next);
    hide ThreadOk;
  }

  lemma QueueTouches(s: State, c: nat, i: nat)
    requires Inv(s) && CanHandle(s, c) && s.cores[c].handler == WaitOn(i)
    ensures Touches(s, DoQueue(s, c, i), c, {s.cores[c].me, s.cores[c].next}, {i})
  {
    hide QuietOk;
    assert CoreOk(s, c) && ThreadOk(s, s.cores[c].me);
    assert ThreadOk(s, s.cores[c].next);
    assert SemOk(s, i);
    AtCore(s, c);
  }

  lemma QueueThreads(s: State, c: nat, i: nat)
    requires Inv(s) && CanHandle(s, c) && s.cores[c].handler == WaitOn(i)
    ensures forall t :: t in {s.cores[c].me, s.cores[c].next} ==> ThreadOk(DoQueue(s, c, i), t)
  {
    assert CoreOk(s, c) && ThreadOk(s, s.cores[c].me);
    assert ThreadOk(s, s.cores[c].next);
    assert SemOk(s, i);
  }

  lemma QueueSettles(s: State, c: nat, i: nat)
    requires Inv(s) && CanHandle(s, c) && s.cores[c].handler == WaitOn(i)
    ensures TouchedOk(DoQueue(s, c, i), c, {s.cores[c].me, s.cores[c].next}, {i})
  {
    QueueThreads(s, c, i);
    assert CoreOk(s, c) && ThreadOk(s, s.cores[c].me);
    assert ThreadOk(s, s.cores[c].next);
    assert SemOk(s, i);
    hide ThreadOk;
  }

  lemma ResumeTouches(s: State, c: nat)
    requires Inv(s) && Reached(s, c, Handled)
    ensures Touches(s, DoResume(s, c), c, {s.cores[c].next}, {})
  {
    hide QuietOk;
    assert CoreOk(s, c) && ThreadOk(s, s.cores[c].me);
    assert ThreadOk(s, s.cores[c].next);
    AtCore(s, c);
  }

  lemma ResumeSettles(s: State, c: nat)
    requires Inv(s) && Reached(s, c, Handled)
    ensures TouchedOk(DoResume(s, c), c, {s.cores[c].next}, {})
  {
    assert CoreOk(s, c) && ThreadOk(s, s.cores[c].me);
    assert ThreadOk(s, s.cores[c].next);
  }

  lemma TimerTouches(s: State, c: nat)
    requires Inv(s) && CanTimer(s, c)
    ensures Touches(s, DoTimer(s, c), c, {s.cores[c].me}, {})
  {
    hide QuietOk;
    assert CoreOk(s, c) && ThreadOk(s, s.cores[c].me);
    AtCore(s, c);
  }

  lemma TimerSettles(s: State, c: nat)
    requires Inv(s) && CanTimer(s, c)
    ensures TouchedOk(DoTimer(s, c), c, {s.cores[c].me}, {})
  {
    assert CoreOk(s, c) && ThreadOk(s, s.cores[c].me);
  }

  lemma TimerReturnTouches(s: State, c: nat)
    requires Inv(s) && CanTimerReturn(s, c)
    ensures Touches(s, DoTimerReturn(s, c), c, {s.cores[c].me}, {})
  {
    hide QuietOk;
    assert CoreOk(s, c) && ThreadOk(s, s.cores[c].me);
    AtCore(s, c);
  }

  lemma TimerReturnSettles(s: State, c: nat)
    requires Inv(s) && CanTimerReturn(s, c)
    ensures TouchedOk(DoTimerReturn(s, c), c, {s.cores[c].me}, {})
  {
    assert CoreOk(s, c) && ThreadOk(s, s.cores[c].me);
  }

  /** Every step of every core keeps the invariant. */
  lemma StepKeepsInv(s: State, c: nat, a: Action)
    requires Inv(s) && Enabled(s, c, a)
    ensures Inv(Apply(s, c, a))
  {
    hide Inv, Touches, TouchedOk, ThreadOk, CoreOk, SemOk, QueueOk;
    match a
    case LockDown(i) =>
      LockDownTouches(s, c, i);
      LockDownSettles(s, c, i);
      TouchedSuffices(s, DoLockDown(s, c, i), c, {s.cores[c].me}, {i});
    case LockUp(i) =>
      LockUpTouches(s, c, i);
      LockUpSettles(s, c, i);
      TouchedSuffices(s, DoLockUp(s, c, i), c, {s.cores[c].me}, {i});
    case Spawn(t) =>
      SpawnTouches(s, c, t);
      SpawnSettles(s, c, t);
      TouchedSuffices(s, DoSpawn(s, c, t), c, {s.cores[c].me, t}, {});
    case SetInterrupts(on) =>
      InterruptsTouches(s, c, on);
      InterruptsSettles(s, c, on);
      TouchedSuffices(s, Interrupts(s, c, on), c, {s.cores[c].me}, {});
    case Yield =>
      EnterTouches(s, c, false, Requeue);
      EnterSettles(s, c, false, Requeue);
      TouchedSuffices(s, Enter(s, c, false, Requeue), c, {s.cores[c].me}, {});
    case Stop =>
      EnterTouches(s, c, true, Bury);
      EnterSettles(s, c, true, Bury);
      TouchedSuffices(s, Enter(s, c, true, Bury), c, {s.cores[c].me}, {});
    case PassToken =>
      if s.sems[TodoOf(s, c).sem].waiting == [] {
        KeepTokenTouches(s, c);
        KeepTokenSettles(s, c);
        TouchedSuffices(s, DoKeepToken(s, c), c, {s.cores[c].me}, {TodoOf(s, c).sem});
      } else {
        GrantTouches(s, c);
        GrantSettles(s, c);
        TouchedSuffices(s, DoGrant(s, c), c, {s.cores[c].me, s.sems[TodoOf(s, c).sem].waiting[0]}, {TodoOf(s, c).sem});
      }
    case ScheduleUp =>
      if TodoOf(s, c).got.None? {
        ReturnUpTouches(s, c);
        ReturnUpSettles(s, c);
        TouchedSuffices(s, DoScheduleUp(s, c), c, {s.cores[c].me}, {});
      } else {
        ScheduleUpTouches(s, c);
        ScheduleUpSettles(s, c);
        TouchedSuffices(s, DoScheduleUp(s, c), c, {s.cores[c].me, TodoOf(s, c).got.value}, {});
      }
    case Choose =>
      if s.ready != [] {
        ChooseTouches(s, c);
        ChooseSettles(s, c);
        TouchedSuffices(s, DoChoose(s, c), c, {s.cores[c].me, s.ready[0]}, {});
      } else if s.cores[c].must {
        ChooseIdleTouches(s, c);
        ChooseIdleSettles(s, c);
        TouchedSuffices(s, DoChoose(s, c), c, {s.cores[c].me, c}, {});
      } else {
        ChooseNoneTouches(s, c);
        ChooseNoneSettles(s, c);
        TouchedSuffices(s, DoChoose(s, c), c, {s.cores[c].me}, {});
      }
    case Handle =>
      if s.cores[c].handler.WaitOn? {
        var i := s.cores[c].handler.sem;
        QueueTouches(s, c, i);
        QueueSettles(s, c, i);
        TouchedSuffices(s, DoQueue(s, c, i), c, {s.cores[c].me, s.cores[c].next}, {i});
      } else if s.threads[s.cores[c].me].idle {
        ParkTouches(s, c);
        ParkSettles(s, c);
        TouchedSuffices(s, DoLeave(s, c), c, {s.cores[c].me, s.cores[c].next}, {});
      } else if s.cores[c].handler.Bury? {
        BuryTouches(s, c);
        BurySettles(s, c);
        TouchedSuffices(s, DoLeave(s, c), c, {s.cores[c].me, s.cores[c].next}, {});
      } else {
        RequeueTouches(s, c);
        RequeueSettles(s, c);
        TouchedSuffices(s, DoLeave(s, c), c, {s.cores[c].me, s.cores[c].next}, {});
      }
    case TakeToken =>
      TakeTokenTouches(s, c);
      TakeTokenSettles(s, c);
      TouchedSuffices(s, DoTakeToken(s, c), c, {s.cores[c].me}, {TodoOf(s, c).sem});
    case UnlockDown =>
      UnlockDownTouches(s, c);
      UnlockDownSettles(s, c);
      TouchedSuffices(s, DoUnlockDown(s, c), c, {s.cores[c].me}, {TodoOf(s, c).sem});
    case BlockDown =>
      BlockDownTouches(s, c);
      BlockDownSettles(s, c);
      TouchedSuffices(s, DoBlockDown(s, c), c, {s.cores[c].me}, {});
    case ReturnDown =>
      ReturnDownTouches(s, c);
      ReturnDownSettles(s, c);
      TouchedSuffices(s, DoReturnDown(s, c), c, {s.cores[c].me}, {});
    case UnlockUp =>
      UnlockUpTouches(s, c);
      UnlockUpSettles(s, c);
      TouchedSuffices(s, DoUnlockUp(s, c), c, {s.cores[c].me}, {TodoOf(s, c).sem});
    case TakeZombie =>
      TakeZombieTouches(s, c);
      TakeZombieSettles(s, c);
      TouchedSuffices(s, DoTakeZombie(s, c), c, {s.cores[c].me, s.zombies[0]}, {});
    case DeleteZombie =>
      DeleteZombieTouches(s, c);
      DeleteZombieSettles(s, c);
      TouchedSuffices(s, DoDeleteZombie(s, c), c, {s.cores[c].me, TodoOf(s, c).zombie}, {});
    case Flag =>
      FlagTouches(s, c);
      FlagSettles(s, c);
      TouchedSuffices(s, DoFlag(s, c), c, {s.cores[c].me, s.cores[c].next}, {});
    case Activate =>
      ActivateTouches(s, c);
      ActivateSettles(s, c);
      TouchedSuffices(s, DoActivate(s, c), c, {s.cores[c].me, s.cores[c].next}, {});
    case Store =>
      StoreTouches(s, c);
      StoreSettles(s, c);
      TouchedSuffices(s, DoStore(s, c), c, {s.cores[c].me, s.cores[c].next}, {});
    case Mask =>
      MaskTouches(s, c);
      MaskSettles(s, c);
      TouchedSuffices(s, DoMask(s, c), c, {s.cores[c].me, s.cores[c].next}, {});
    case Clear =>
      ClearTouches(s, c);
      ClearSettles(s, c);
      TouchedSuffices(s, DoClear(s, c), c, {s.cores[c].me, s.cores[c].next}, {});
    case Switch =>
      SwitchTouches(s, c);
      SwitchSettles(s, c);
      TouchedSuffices(s, DoSwitch(s, c), c, {s.cores[c].me, s.cores[c].next}, {});
    case Resume =>
      ResumeTouches(s, c);
      ResumeSettles(s, c);
      TouchedSuffices(s, DoResume(s, c), c, {s.cores[c].next}, {});
    case Timer =>
      TimerTouches(s, c);
      TimerSettles(s, c);
      TouchedSuffices(s, DoTimer(s, c), c, {s.cores[c].me}, {});
    case TimerReturn =>
      TimerReturnTouches(s, c);
      TimerReturnSettles(s, c);
      TouchedSuffices(s, DoTimerReturn(s, c), c, {s.cores[c].me}, {});
  }
}
