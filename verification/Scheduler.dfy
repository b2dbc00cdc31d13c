/** The scheduler and the semaphores as a step machine over any number of cores and
    threads. One step is one atomic action of one core: an operation on a queue under its
    lock, a store to a shared field, or an instruction group of the context switch. The
    order of the steps is that of block(), gheith_contextSwitch and Semaphore. */
module Scheduler {

  datatype Option<T> = None | Some(value: T)

  /** What block() was asked to do with the thread it switches away from. */
  datatype Handler =
    | Requeue            // yield: schedule(me)
    | Bury               // stop: zombies.add(me)
    | WaitOn(sem: nat)   // down: waiting.add(me), then release the semaphore's lock

  /** How far a core is in block() and gheith_contextSwitch. */
  datatype Phase =
    | Running     // executing its thread
    | Entered     // me.no_preempt = 1
    | Chosen      // next taken from readyQ, or the idle thread
    | Flagged     // next.no_preempt = 1
    | Activated   // activeThreads[core] = next
    | Stored      // flags and registers of me are in its save area
    | Masked      // cli
    | Cleared     // both no_preempt flags are 0
    | Switched    // on the stack of next, about to call the handler
    | Handled     // the handler has run, popf is next

  /** me is the thread that entered block(); next the one being switched to. */
  datatype Core = Core(active: nat, phase: Phase, me: nat, next: nat, handler: Handler, must: bool, enabled: bool)

  /** Where a thread is inside the semaphore operations and delete_zombies. */
  datatype Todo =
    | Normal
    | DownLocked(sem: nat, was: bool)
    | DownTook(sem: nat, was: bool)
    | DownWait(sem: nat, was: bool, granted: bool)
    | UpLocked(sem: nat, was: bool)
    | UpUnlinked(sem: nat, was: bool, got: Option<nat>)
    | UpReady(got: Option<nat>)
    | Reaping(zombie: nat)

  /** The one place a thread is in. Bookkeeping: no step of the machine looks at it. */
  datatype Place =
    | OnCore(core: nat)
    | Incoming(core: nat)
    | Outgoing(core: nat)
    | InReady
    | InZombies
    | Waiting(sem: nat)
    | InHand(of: nat)
    | InGrave(of: nat)
    | Parked
    | Dead

  /** flag is the interrupt flag pushed with the saved context; timer says that the thread
      is inside apitHandler. */
  datatype Thread = Thread(idle: bool, noPreempt: bool, saved: bool, flag: bool, timer: bool, todo: Todo, place: Place)

  /** owner is the thread on whose behalf the semaphore's lock is held. The other fields
      after waiting record history: the initial count, completed ups, tokens handed out, and
      the threads queued and served, in order. */
  datatype Sem = Sem(count: nat, owner: Option<nat>, waiting: seq<nat>,
                     initial: nat, ups: nat, grants: nat, queued: seq<nat>, served: seq<nat>)

  datatype State = State(cores: seq<Core>, threads: map<nat, Thread>, ready: seq<nat>, zombies: seq<nat>, sems: seq<Sem>)

  datatype Action =
    | LockDown(sem: nat) | TakeToken | UnlockDown | BlockDown | ReturnDown
    | LockUp(sem: nat) | PassToken | UnlockUp | ScheduleUp
    | Yield | Stop | Spawn(id: nat) | TakeZombie | DeleteZombie | SetInterrupts(on: bool)
    | Choose | Flag | Activate | Store | Mask | Clear | Switch | Handle | Resume
    | Timer | TimerReturn

  // ----- updates

  function SetCore(s: State, c: nat, k: Core): State
    requires c < |s.cores|
  {
    s.(cores := s.cores[c := k])
  }

  function SetThread(s: State, t: nat, th: Thread): State {
    s.(threads := s.threads[t := th])
  }

  function SetSem(s: State, i: nat, x: Sem): State
    requires i < |s.sems|
  {
    s.(sems := s.sems[i := x])
  }

  function SetTodo(s: State, t: nat, d: Todo): State
    requires t in s.threads
  {
    SetThread(s, t, s.threads[t].(todo := d))
  }

  function SetPlace(s: State, t: nat, p: Place): State
    requires t in s.threads
  {
    SetThread(s, t, s.threads[t].(place := p))
  }

  function Interrupts(s: State, c: nat, on: bool): State
    requires c < |s.cores|
  {
    SetCore(s, c, s.cores[c].(enabled := on))
  }

  /** schedule(): a non-idle thread goes to the end of readyQ. */
  function Schedule(s: State, t: nat): State
    requires t in s.threads
  {
    SetPlace(s, t, InReady).(ready := s.ready + [t])
  }

  /** zombies.add() */
  function Discard(s: State, t: nat): State
    requires t in s.threads
  {
    SetPlace(s, t, InZombies).(zombies := s.zombies + [t])
  }

  /** The threads a core names exist. */
  predicate Names(s: State, c: nat) {
    && c < |s.cores| && s.cores[c].me in s.threads && s.cores[c].active in s.threads
    && (s.cores[c].phase != Running && s.cores[c].phase != Entered ==> s.cores[c].next in s.threads)
  }

  /** Core c executes ordinary code of its thread. */
  predicate Executes(s: State, c: nat) {
    Names(s, c) && s.cores[c].phase == Running && !s.threads[s.cores[c].me].timer
  }

  function TodoOf(s: State, c: nat): Todo
    requires Names(s, c)
  {
    s.threads[s.cores[c].me].todo
  }

  // ----- Semaphore::down

  /** Outside every operation of this model. */
  predicate Free(s: State, c: nat) {
    Executes(s, c) && TodoOf(s, c) == Normal
  }

  predicate CanLock(s: State, c: nat, i: nat) {
    Free(s, c) && i < |s.sems| && s.sems[i].owner == None
  }

  /** down takes the lock with interrupts off (kernel/semaphore.h:22). */
  function DoLockDown(s: State, c: nat, i: nat): State
    requires CanLock(s, c, i)
  {
    var k := s.cores[c];
    SetSem(SetTodo(Interrupts(s, c, false), k.me, DownLocked(i, !k.enabled)), i, s.sems[i].(owner := Some(k.me)))
  }

  predicate InDown(s: State, c: nat) {
    Executes(s, c) && TodoOf(s, c).DownLocked? && TodoOf(s, c).sem < |s.sems|
  }

  predicate CanTakeToken(s: State, c: nat) {
    InDown(s, c) && 0 < s.sems[TodoOf(s, c).sem].count
  }

  /** As kernel/semaphore.h:24-25. */
  function DoTakeToken(s: State, c: nat): State
    requires CanTakeToken(s, c)
  {
    var d := TodoOf(s, c);
    var x := s.sems[d.sem];
    SetSem(SetTodo(s, s.cores[c].me, DownTook(d.sem, d.was)), d.sem, x.(count := x.count - 1, grants := x.grants + 1))
  }

  predicate CanUnlockDown(s: State, c: nat) {
    Executes(s, c) && TodoOf(s, c).DownTook? && TodoOf(s, c).sem < |s.sems|
  }

  /** As kernel/semaphore.h:26-27. */
  function DoUnlockDown(s: State, c: nat): State
    requires CanUnlockDown(s, c)
  {
    var d := TodoOf(s, c);
    SetSem(SetTodo(Interrupts(s, c, !d.was), s.cores[c].me, Normal), d.sem, s.sems[d.sem].(owner := None))
  }

  predicate CanBlockDown(s: State, c: nat) {
    InDown(s, c) && s.sems[TodoOf(s, c).sem].count == 0
  }

  /** No token: block() with the lock held (kernel/semaphore.h:31). */
  function DoBlockDown(s: State, c: nat): State
    requires CanBlockDown(s, c)
  {
    var d := TodoOf(s, c);
    Enter(SetTodo(s, s.cores[c].me, DownWait(d.sem, d.was, false)), c, true, WaitOn(d.sem))
  }

  predicate CanReturnDown(s: State, c: nat) {
    Executes(s, c) && TodoOf(s, c).DownWait?
  }

  /** Back with a token (kernel/semaphore.h:40-41). */
  function DoReturnDown(s: State, c: nat): State
    requires CanReturnDown(s, c)
  {
    SetTodo(Interrupts(s, c, !TodoOf(s, c).was), s.cores[c].me, Normal)
  }

  // ----- Semaphore::up

  /** As kernel/semaphore.h:47. */
  function DoLockUp(s: State, c: nat, i: nat): State
    requires CanLock(s, c, i)
  {
    var k := s.cores[c];
    SetSem(SetTodo(Interrupts(s, c, false), k.me, UpLocked(i, !k.enabled)), i, s.sems[i].(owner := Some(k.me)))
  }

  predicate CanPassToken(s: State, c: nat) {
    && Executes(s, c) && TodoOf(s, c).UpLocked? && TodoOf(s, c).sem < |s.sems|
    && var w := s.sems[TodoOf(s, c).sem].waiting;
       w != [] ==> w[0] in s.threads
  }

  /** The token goes to the first waiter, or to the count when nobody waits. */
  function DoPassToken(s: State, c: nat): State
    requires CanPassToken(s, c)
  {
    var d := TodoOf(s, c);
    if s.sems[d.sem].waiting == [] then DoKeepToken(s, c) else DoGrant(s, c)
  }

  /** As kernel/semaphore.h:48-51. */
  function DoKeepToken(s: State, c: nat): State
    requires CanPassToken(s, c)
  {
    var d := TodoOf(s, c);
    var x := s.sems[d.sem];
    SetSem(SetTodo(s, s.cores[c].me, UpUnlinked(d.sem, d.was, None)), d.sem, x.(count := x.count + 1, ups := x.ups + 1))
  }

  /** The waiter is off the queue and has its token (kernel/semaphore.h:48). */
  function DoGrant(s: State, c: nat): State
    requires CanPassToken(s, c) && s.sems[TodoOf(s, c).sem].waiting != []
  {
    var me, d := s.cores[c].me, TodoOf(s, c);
    var x := s.sems[d.sem];
    var w := x.waiting[0];
    var s1 := SetTodo(s, me, UpUnlinked(d.sem, d.was, Some(w)));
    SetSem(SetThread(s1, w, Granted(s1.threads[w]).(place := InHand(me))), d.sem,
           x.(waiting := x.waiting[1..], ups := x.ups + 1, grants := x.grants + 1, served := x.served + [w]))
  }

  function Granted(th: Thread): Thread {
    if th.todo.DownWait? then th.(todo := th.todo.(granted := true)) else th
  }

  predicate CanUnlockUp(s: State, c: nat) {
    Executes(s, c) && TodoOf(s, c).UpUnlinked? && TodoOf(s, c).sem < |s.sems|
  }

  /** As kernel/semaphore.h:52. */
  function DoUnlockUp(s: State, c: nat): State
    requires CanUnlockUp(s, c)
  {
    var d := TodoOf(s, c);
    SetSem(SetTodo(Interrupts(s, c, !d.was), s.cores[c].me, UpReady(d.got)), d.sem, s.sems[d.sem].(owner := None))
  }

  predicate CanScheduleUp(s: State, c: nat) {
    Executes(s, c) && TodoOf(s, c).UpReady? && (TodoOf(s, c).got.Some? ==> TodoOf(s, c).got.value in s.threads)
  }

  /** As kernel/semaphore.h:54-56. */
  function DoScheduleUp(s: State, c: nat): State
    requires CanScheduleUp(s, c)
  {
    var s1 := SetTodo(s, s.cores[c].me, Normal);
    if TodoOf(s, c).got.None? then s1 else Schedule(s1, TodoOf(s, c).got.value)
  }

  // ----- threads: creation, deletion, interrupts, the timer

  predicate CanSpawn(s: State, c: nat, t: nat) {
    Free(s, c) && t !in s.threads
  }

  /** A new thread: its stack holds flags with interrupts on and the address of entry
      (kernel/threads.h:132-137, 177-185). */
  function DoSpawn(s: State, c: nat, t: nat): State
    requires CanSpawn(s, c, t)
  {
    SetThread(s, t, Thread(false, false, true, true, false, Normal, InReady)).(ready := s.ready + [t])
  }

  predicate CanTakeZombie(s: State, c: nat) {
    Free(s, c) && s.zombies != [] && s.zombies[0] in s.threads
  }

  /** As kernel/threads.cc:39. */
  function DoTakeZombie(s: State, c: nat): State
    requires CanTakeZombie(s, c)
  {
    var me, z := s.cores[c].me, s.zombies[0];
    SetPlace(SetTodo(s.(zombies := s.zombies[1..]), me, Reaping(z)), z, InGrave(me))
  }

  predicate CanDeleteZombie(s: State, c: nat) {
    Executes(s, c) && TodoOf(s, c).Reaping? && TodoOf(s, c).zombie in s.threads
  }

  /** As kernel/threads.cc:41. */
  function DoDeleteZombie(s: State, c: nat): State
    requires CanDeleteZombie(s, c)
  {
    SetPlace(SetTodo(s, s.cores[c].me, Normal), TodoOf(s, c).zombie, Dead)
  }

  predicate CanTimer(s: State, c: nat) {
    Names(s, c) && s.cores[c].enabled && TimerYields(s, c)
  }

  /** The test of apitHandler: the active thread is neither idle nor marked. */
  predicate TimerYields(s: State, c: nat)
    requires Names(s, c)
  {
    var a := s.threads[s.cores[c].active];
    !a.idle && !a.noPreempt
  }

  /** The interrupt turns interrupts off, and apitHandler calls yield (kernel/pit.cc:138-147). */
  function DoTimer(s: State, c: nat): State
    requires CanTimer(s, c)
  {
    var a := s.cores[c].active;
    Enter(SetThread(Interrupts(s, c, false), a, s.threads[a].(timer := true)), c, false, Requeue)
  }

  predicate CanTimerReturn(s: State, c: nat) {
    Names(s, c) && s.cores[c].phase == Running && s.threads[s.cores[c].me].timer
  }

  /** As kernel/pit.cc:147-148. */
  function DoTimerReturn(s: State, c: nat): State
    requires CanTimerReturn(s, c)
  {
    var me := s.cores[c].me;
    SetThread(Interrupts(s, c, true), me, s.threads[me].(timer := false))
  }

  // ----- block() and gheith_contextSwitch

  /** Entering block(): the thread is read from activeThreads (kernel/threads.h:95-102). */
  function Enter(s: State, c: nat, must: bool, h: Handler): State
    requires Names(s, c)
  {
    var me := s.cores[c].active;
    SetThread(SetCore(s, c, s.cores[c].(phase := Entered, me := me, must := must, handler := h)),
              me, s.threads[me].(noPreempt := true))
  }

  predicate Reached(s: State, c: nat, p: Phase) {
    Names(s, c) && s.cores[c].phase == p
  }

  /** An idle thread that must block spins while readyQ is empty: no step. */
  predicate CanChoose(s: State, c: nat) {
    && Reached(s, c, Entered) && (s.ready != [] ==> s.ready[0] in s.threads)
    && (s.ready == [] && s.cores[c].must ==> !s.threads[s.cores[c].me].idle && IdleOf(c) in s.threads)
  }

  /** The idle thread of core c is thread c. */
  function IdleOf(c: nat): nat {
    c
  }

  /** The next ready thread, the idle thread, or a return (kernel/threads.h:105-119). */
  function DoChoose(s: State, c: nat): State
    requires CanChoose(s, c)
  {
    if s.ready != [] then DoPick(s, c, s.ready[0]).(ready := s.ready[1..])
    else if s.cores[c].must then DoPick(s, c, IdleOf(c))
    else SetCore(s, c, s.cores[c].(phase := Running))
  }

  function DoPick(s: State, c: nat, t: nat): State
    requires Reached(s, c, Entered) && t in s.threads
  {
    SetPlace(SetCore(s, c, s.cores[c].(phase := Chosen, next := t)), t, Incoming(c))
  }

  /** As kernel/threads.h:121. */
  function DoFlag(s: State, c: nat): State
    requires Reached(s, c, Chosen)
  {
    var k := s.cores[c];
    SetThread(SetCore(s, c, k.(phase := Flagged)), k.next, s.threads[k.next].(noPreempt := true))
  }

  /** As kernel/threads.h:123. */
  function DoActivate(s: State, c: nat): State
    requires Reached(s, c, Flagged)
  {
    var k := s.cores[c];
    SetCore(s, c, k.(phase := Activated, active := k.next))
  }

  /** As kernel/context.s:9-18. */
  function DoStore(s: State, c: nat): State
    requires Reached(s, c, Activated)
  {
    var k := s.cores[c];
    SetThread(SetCore(s, c, k.(phase := Stored)), k.me, s.threads[k.me].(saved := true, flag := k.enabled))
  }

  /** As kernel/context.s:41. */
  function DoMask(s: State, c: nat): State
    requires Reached(s, c, Stored)
  {
    SetCore(s, c, s.cores[c].(phase := Masked, enabled := false))
  }

  /** As kernel/context.s:46-48. */
  function DoClear(s: State, c: nat): State
    requires Reached(s, c, Masked)
  {
    var k := s.cores[c];
    var s1 := SetThread(SetCore(s, c, k.(phase := Cleared)), k.me, s.threads[k.me].(noPreempt := false));
    SetThread(s1, k.next, s1.threads[k.next].(noPreempt := false))
  }

  /** As kernel/context.s:50-65. */
  function DoSwitch(s: State, c: nat): State
    requires Reached(s, c, Cleared)
  {
    var k := s.cores[c];
    var s1 := SetPlace(SetCore(s, c, k.(phase := Switched)), k.me, Outgoing(c));
    SetThread(s1, k.next, s1.threads[k.next].(saved := false, place := OnCore(c)))
  }

  /** down asserts that the thread it queues is not idle. */
  predicate CanHandle(s: State, c: nat) {
    && Reached(s, c, Switched)
    && (s.cores[c].handler.WaitOn? ==> s.cores[c].handler.sem < |s.sems| && !s.threads[s.cores[c].me].idle)
  }

  /** As kernel/context.s:79-82. */
  function DoHandle(s: State, c: nat): State
    requires CanHandle(s, c)
  {
    match s.cores[c].handler
    case WaitOn(i) => DoQueue(s, c, i)
    case _ => DoLeave(s, c)
  }

  /** The handlers of yield and stop (kernel/threads.cc:100-115). */
  function DoLeave(s: State, c: nat): State
    requires CanHandle(s, c)
  {
    var k := s.cores[c];
    var s1 := SetCore(s, c, k.(phase := Handled));
    if s.threads[k.me].idle then SetPlace(s1, k.me, Parked)
    else if k.handler == Bury then Discard(s1, k.me)
    else Schedule(s1, k.me)
  }

  /** The handler of down: queue the thread, then release the semaphore's lock
      (kernel/semaphore.h:31-38). */
  function DoQueue(s: State, c: nat, i: nat): State
    requires CanHandle(s, c) && i < |s.sems|
  {
    var k, x := s.cores[c], s.sems[i];
    SetSem(SetPlace(SetCore(s, c, k.(phase := Handled)), k.me, Waiting(i)), i,
           x.(waiting := x.waiting + [k.me], queued := x.queued + [k.me], owner := None))
  }

  /** As kernel/context.s:86-89. */
  function DoResume(s: State, c: nat): State
    requires Reached(s, c, Handled)
  {
    var k := s.cores[c];
    SetCore(s, c, k.(phase := Running, me := k.next, enabled := s.threads[k.next].flag))
  }

  // ----- the machine

  predicate Enabled(s: State, c: nat, a: Action) {
    match a
    case LockDown(i) => CanLock(s, c, i)
    case TakeToken => CanTakeToken(s, c)
    case UnlockDown => CanUnlockDown(s, c)
    case BlockDown => CanBlockDown(s, c)
    case ReturnDown => CanReturnDown(s, c)
    case LockUp(i) => CanLock(s, c, i)
    case PassToken => CanPassToken(s, c)
    case UnlockUp => CanUnlockUp(s, c)
    case ScheduleUp => CanScheduleUp(s, c)
    case Yield => Free(s, c)
    case Stop => Free(s, c)
    case Spawn(t) => CanSpawn(s, c, t)
    case TakeZombie => CanTakeZombie(s, c)
    case DeleteZombie => CanDeleteZombie(s, c)
    case SetInterrupts(_) => Free(s, c)
    case Choose => CanChoose(s, c)
    case Flag => Reached(s, c, Chosen)
    case Activate => Reached(s, c, Flagged)
    case Store => Reached(s, c, Activated)
    case Mask => Reached(s, c, Stored)
    case Clear => Reached(s, c, Masked)
    case Switch => Reached(s, c, Cleared)
    case Handle => CanHandle(s, c)
    case Resume => Reached(s, c, Handled)
    case Timer => CanTimer(s, c)
    case TimerReturn => CanTimerReturn(s, c)
  }

  function Apply(s: State, c: nat, a: Action): State
    requires Enabled(s, c, a)
  {
    match a
    case LockDown(i) => DoLockDown(s, c, i)
    case TakeToken => DoTakeToken(s, c)
    case UnlockDown => DoUnlockDown(s, c)
    case BlockDown => DoBlockDown(s, c)
    case ReturnDown => DoReturnDown(s, c)
    case LockUp(i) => DoLockUp(s, c, i)
    case PassToken => DoPassToken(s, c)
    case UnlockUp => DoUnlockUp(s, c)
    case ScheduleUp => DoScheduleUp(s, c)
    case Yield => Enter(s, c, false, Requeue)
    case Stop => Enter(s, c, true, Bury)
    case Spawn(t) => DoSpawn(s, c, t)
    case TakeZombie => DoTakeZombie(s, c)
    case DeleteZombie => DoDeleteZombie(s, c)
    case SetInterrupts(on) => Interrupts(s, c, on)
    case Choose => DoChoose(s, c)
    case Flag => DoFlag(s, c)
    case Activate => DoActivate(s, c)
    case Store => DoStore(s, c)
    case Mask => DoMask(s, c)
    case Clear => DoClear(s, c)
    case Switch => DoSwitch(s, c)
    case Handle => DoHandle(s, c)
    case Resume => DoResume(s, c)
    case Timer => DoTimer(s, c)
    case TimerReturn => DoTimerReturn(s, c)
  }
}
