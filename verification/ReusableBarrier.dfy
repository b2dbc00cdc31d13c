/** ReusableBarrier over a Condition and the lock they share. A step is one statement of
    sync, wait or notify; the lock is the mutual exclusion that InterruptLock proves. */
module ReusableBarrier {

  datatype Option<T> = None | Some(value: T)

  datatype Pc =
    | Idle
    | Enter   // the_lock->lock()
    | Arrive  // ASSERT(count != 0); t = epoch; count--; branch on count
    | Advance // epoch++
    | Reset   // count = initial_count
    | Signal  // notifyAll: the condition's epoch += 1
    | Wake    // notifyAll: take one thread off the queue, or finish
    | Check   // while (epoch <= t)
    | Sleep   // wait: remember the condition's epoch, unlock
    | Switch  // block(); next, its handler locks again
    | Handle  // the handler: queue the thread if the epoch is still the same, unlock
    | Queued
    | Woken   // scheduled; next, wait locks again
    | Leave   // the_lock->unlock()

  /** t is the barrier's epoch at arrival, seen the condition's epoch in wait. */
  datatype Thread = Thread(pc: Pc, t: nat, seen: nat)

  datatype State = State(size: nat, count: nat, epoch: nat, signals: nat, queue: seq<nat>,
                         owner: Option<nat>, threads: seq<Thread>, arrivals: nat, failed: bool)

  function Made(size: nat, threads: nat): State {
    State(size, size, 0, 0, [], None, seq(threads, _ => Thread(Idle, 0, 0)), 0, false)
  }

  predicate CanStep(s: State, u: nat) {
    && u < |s.threads| && !s.failed && !s.threads[u].pc.Queued?
    && (s.threads[u].pc.Enter? || s.threads[u].pc.Switch? || s.threads[u].pc.Woken? ==> s.owner == None)
    && (s.threads[u].pc.Wake? && s.queue != [] ==> s.queue[0] < |s.threads|)
  }

  function Go(s: State, u: nat, pc: Pc): State
    requires u < |s.threads|
  {
    s.(threads := s.threads[u := s.threads[u].(pc := pc)])
  }

  function Locked(s: State, u: nat): State {
    s.(owner := Some(u))
  }

  function Unlocked(s: State): State {
    s.(owner := None)
  }

  /** A step of an idle thread is a call of sync. A failed assertion halts the machine. */
  function Step(s: State, u: nat): State
    requires CanStep(s, u)
  {
    var th := s.threads[u];
    match th.pc
    case Idle => Go(s, u, Enter)
    case Enter => Locked(Go(s, u, Arrive), u)
    case Arrive =>
      if s.count == 0 then s.(failed := true)
      else Remember(s, u).(count := s.count - 1, arrivals := s.arrivals + 1)
    case Advance => Go(s, u, Reset).(epoch := s.epoch + 1)
    case Reset => Go(s, u, Signal).(count := s.size)
    case Signal => Go(s, u, Wake).(signals := s.signals + 1)
    case Wake => if s.queue == [] then Go(s, u, Leave) else Go(s, s.queue[0], Woken).(queue := s.queue[1..])
    case Check => Go(s, u, if s.epoch <= th.t then Sleep else Leave)
    case Sleep => Unlocked(s.(threads := s.threads[u := th.(pc := Switch, seen := s.signals)]))
    case Switch => Locked(Go(s, u, Handle), u)
    case Handle =>
      if s.signals == th.seen then Unlocked(Go(s, u, Queued)).(queue := s.queue + [u])
      else Unlocked(Go(s, u, Woken))
    case Woken => Locked(Go(s, u, Check), u)
    case Leave => Unlocked(Go(s, u, Idle))
    case Queued => s
  }

  function Remember(s: State, u: nat): State
    requires u < |s.threads|
  {
    s.(threads := s.threads[u := s.threads[u].(pc := if s.count == 1 then Advance else Check, t := s.epoch)])
  }

  // ----- the invariant

  predicate InSection(pc: Pc) {
    pc.Arrive? || pc.Advance? || pc.Reset? || pc.Signal? || pc.Wake? || pc.Check? || pc.Sleep? || pc.Handle? || pc.Leave?
  }

  /** The lock's holder is about to execute pc. */
  predicate Holder(s: State, pc: Pc) {
    s.owner.Some? && s.owner.value < |s.threads| && s.threads[s.owner.value].pc == pc
  }

  /** The thread of a round t: while it waits, t is the condition's epoch it saw; when it
      leaves, the round is over. */
  predicate ThreadOk(s: State, u: nat)
    requires u < |s.threads|
  {
    var th := s.threads[u];
    && (InSection(th.pc) <==> s.owner == Some(u))
    && (th.pc.Queued? <==> u in s.queue)
    && (th.pc.Check? || th.pc.Switch? || th.pc.Handle? || th.pc.Woken? ==> th.t <= s.epoch)
    && (th.pc.Advance? || th.pc.Sleep? ==> th.t == s.epoch)
    && (th.pc.Reset? || th.pc.Signal? || th.pc.Wake? || th.pc.Leave? ==> th.t < s.epoch)
    && (th.pc.Switch? || th.pc.Handle? || th.pc.Queued? ==> th.t == th.seen)
    && (th.pc.Queued? ==> th.t == if Holder(s, Wake) then s.signals - 1 else s.signals)
  }

  predicate Distinct(q: seq<nat>) {
    forall i, j :: 0 <= i < j < |q| ==> q[i] != q[j]
  }

  predicate QueueOk(s: State) {
    Distinct(s.queue) && (forall u :: u in s.queue ==> u < |s.threads|)
  }

  /** Arrivals are the rounds completed, times the size, and those of the current round. */
  predicate CountsOk(s: State) {
    && (s.owner.Some? ==> s.owner.value < |s.threads|)
    && s.count <= s.size
    && (0 < s.size ==> (s.count == 0 <==> Holder(s, Advance) || Holder(s, Reset)))
    && (s.size == 0 ==> s.arrivals == 0)
    && s.arrivals + (if Holder(s, Reset) then s.size else 0) == s.epoch * s.size + (s.size - s.count)
    && s.signals + (if Holder(s, Reset) || Holder(s, Signal) then 1 else 0) == s.epoch
  }

  predicate ThreadsOk(s: State) {
    forall u: nat {:trigger ThreadOk(s, u)} :: u < |s.threads| ==> ThreadOk(s, u)
  }

  predicate Inv(s: State) {
    ThreadsOk(s) && QueueOk(s) && CountsOk(s)
  }

  lemma MadeInv(size: nat, threads: nat)
    ensures Inv(Made(size, threads))
  {
    var s := Made(size, threads);
    forall u: nat | u < |s.threads| ensures ThreadOk(s, u) {}
  }

  lemma StepKeepsOthers(s: State, u: nat, v: nat)
    requires Inv(s) && CanStep(s, u) && v < |s.threads| && v != u
    ensures ThreadOk(Step(s, u), v)
  {
    assert ThreadOk(s, u) && ThreadOk(s, v);
    if s.threads[u].pc.Wake? { WakeKeepsOthers(s, u, v); } else { OtherStepKeepsOthers(s, u, v); }
    hide Step, ThreadOk, Inv;
  }

  lemma WakeKeepsOthers(s: State, u: nat, v: nat)
    requires Inv(s) && CanStep(s, u) && v < |s.threads| && v != u && s.threads[u].pc.Wake?
    requires ThreadOk(s, u) && ThreadOk(s, v)
    ensures ThreadOk(Step(s, u), v)
  {
  }

  lemma OtherStepKeepsOthers(s: State, u: nat, v: nat)
    requires Inv(s) && CanStep(s, u) && v < |s.threads| && v != u && !s.threads[u].pc.Wake?
    requires ThreadOk(s, u) && ThreadOk(s, v)
    ensures ThreadOk(Step(s, u), v)
  {
    hide QueueOk;
  }

  lemma StepKeepsSelf(s: State, u: nat)
    requires Inv(s) && CanStep(s, u)
    ensures ThreadOk(Step(s, u), u)
  {
    assert ThreadOk(s, u);
  }

  lemma StepKeepsQueue(s: State, u: nat)
    requires Inv(s) && CanStep(s, u)
    ensures QueueOk(Step(s, u))
  {
    hide CountsOk;
    var q := Step(s, u).queue;
    assert ThreadOk(s, u);
    forall v | v in q ensures v in s.queue || v == u {}
  }

  lemma StepKeepsCounts(s: State, u: nat)
    requires Inv(s) && CanStep(s, u)
    ensures CountsOk(Step(s, u))
  {
    hide QueueOk;
    assert ThreadOk(s, u);
    assert s.owner.Some? ==> ThreadOk(s, s.owner.value);
    assert (s.epoch + 1) * s.size == s.epoch * s.size + s.size;
  }

  lemma StepKeepsInv(s: State, u: nat)
    requires Inv(s) && CanStep(s, u)
    ensures Inv(Step(s, u))
  {
    forall v: nat | v < |Step(s, u).threads| ensures ThreadOk(Step(s, u), v) {
      if v == u { StepKeepsSelf(s, u); } else { StepKeepsOthers(s, u, v); }
    }
    StepKeepsQueue(s, u);
    StepKeepsCounts(s, u);
    hide ThreadOk, QueueOk, CountsOk;
  }

  // ----- runs

  ghost predicate IsRun(states: seq<State>, who: seq<nat>) {
    && |states| == |who| + 1
    && forall k {:trigger states[k], who[k]} :: 0 <= k < |who| ==>
         CanStep(states[k], who[k]) && states[k + 1] == Step(states[k], who[k])
  }

  lemma {:induction false} RunKeepsInv(size: nat, threads: nat, states: seq<State>, who: seq<nat>, n: nat)
    requires IsRun(states, who) && states[0] == Made(size, threads) && n < |states|
    ensures Inv(states[n]) && states[n].size == size && |states[n].threads| == threads
    ensures |Round(states[n])| == Present(states[n])
    decreases n
  {
    hide Inv, CanStep, Step, Round, Present;
    if n == 0 {
      MadeInv(size, threads);
      NobodyPresent(size, threads);
    } else {
      RunKeepsInv(size, threads, states, who, n - 1);
      var s, u := states[n - 1], who[n - 1];
      assert states[n - 1 + 1] == Step(s, u);
      StepKeepsInv(s, u);
      StepKeepsSize(s, u);
      StepKeepsRound(s, u);
    }
  }

  lemma StepKeepsSize(s: State, u: nat)
    requires CanStep(s, u)
    ensures Step(s, u).size == s.size && |Step(s, u).threads| == |s.threads|
  {
  }

  /** The threads that arrived in the current round. */
  function Round(s: State): set<nat> {
    set u: nat | u < |s.threads| && Arrived(s.threads[u], s.epoch)
  }

  predicate Arrived(th: Thread, epoch: nat) {
    th.t == epoch && !th.pc.Idle? && !th.pc.Enter? && !th.pc.Arrive?
  }

  function Present(s: State): int {
    if Holder(s, Reset) then 0 else s.size - s.count
  }

  lemma NobodyPresent(size: nat, threads: nat)
    ensures Round(Made(size, threads)) == {} && Present(Made(size, threads)) == 0
  {
  }

  lemma StepKeepsRound(s: State, u: nat)
    requires Inv(s) && CanStep(s, u) && |Round(s)| == Present(s)
    ensures |Round(Step(s, u))| == Present(Step(s, u))
  {
    hide Inv;
    if s.threads[u].pc.Arrive? && s.count != 0 {
      ArriveRound(s, u);
    } else if s.threads[u].pc.Advance? {
      AdvanceRound(s, u);
    } else {
      OtherRound(s, u);
    }
  }

  lemma ArriveRound(s: State, u: nat)
    requires Inv(s) && CanStep(s, u) && s.threads[u].pc.Arrive? && s.count != 0
    ensures |Round(Step(s, u))| == |Round(s)| + 1 && Present(Step(s, u)) == Present(s) + 1
  {
    assert ThreadOk(s, u);
    assert Round(Step(s, u)) == Round(s) + {u};
  }

  lemma AdvanceRound(s: State, u: nat)
    requires Inv(s) && CanStep(s, u) && s.threads[u].pc.Advance?
    ensures |Round(Step(s, u))| == 0 == Present(Step(s, u))
  {
    var s' := Step(s, u);
    assert ThreadOk(s, u);
    forall v: nat | v < |s.threads| ensures !Arrived(s'.threads[v], s'.epoch) { assert ThreadOk(s, v); }
    assert Round(s') == {};
  }

  lemma OtherRound(s: State, u: nat)
    requires Inv(s) && CanStep(s, u) && !s.threads[u].pc.Advance? && (s.threads[u].pc.Arrive? ==> s.count == 0)
    ensures Round(Step(s, u)) == Round(s) && Present(Step(s, u)) == Present(s)
  {
    var s' := Step(s, u);
    assert ThreadOk(s, u);
    StepKeepsOwner(s, u);
    assert Present(s') == Present(s);
    forall v: nat | v < |s.threads| ensures Arrived(s'.threads[v], s'.epoch) == Arrived(s.threads[v], s.epoch) {
      SameRound(s, u, v);
    }
    hide Inv, Step, Arrived;
  }

  /** Only Arrive and Advance change who belongs to the current round. */
  lemma SameRound(s: State, u: nat, v: nat)
    requires Inv(s) && CanStep(s, u) && v < |s.threads|
    requires !s.threads[u].pc.Advance? && (s.threads[u].pc.Arrive? ==> s.count == 0)
    ensures Arrived(Step(s, u).threads[v], Step(s, u).epoch) == Arrived(s.threads[v], s.epoch)
  {
    assert ThreadOk(s, u) && ThreadOk(s, v);
  }

  /** The holder of the lock changes only at lock and unlock, and a held lock's holder is
      the thread that moves or one that does not change. */
  lemma StepKeepsOwner(s: State, u: nat)
    requires Inv(s) && CanStep(s, u)
    ensures s.owner.Some? && s.owner.value != u ==>
      Step(s, u).owner == s.owner && Step(s, u).threads[s.owner.value] == s.threads[s.owner.value]
  {
    assert ThreadOk(s, u);
    assert s.owner.Some? ==> ThreadOk(s, s.owner.value);
  }

  // ----- what callers get

  /** The arrivals come in rounds of exactly size: a thread that arrives when k have arrived
      before it belongs to round k / size; a thread of round t leaves only after all
      (t + 1) * size arrivals of the rounds up to t; and a size of zero fails its assertion
      at the first call. */
  lemma LeavesAfterItsRound(size: nat, threads: nat, states: seq<State>, who: seq<nat>, n: nat, u: nat)
    requires IsRun(states, who) && states[0] == Made(size, threads) && n < |states|
    requires u < threads && u < |states[n].threads|
    ensures var s, th := states[n], states[n].threads[u];
      && (th.pc.Leave? ==> (th.t + 1) * size <= s.arrivals)
      && (th.pc.Arrive? && 0 < size ==>
            && s.count != 0 && s.epoch * size <= s.arrivals < (s.epoch + 1) * size
            && (!s.failed ==> Step(s, u).threads[u].t == s.epoch))
      && (th.pc.Arrive? && size == 0 && !s.failed ==> Step(s, u).failed)
  {
    RunKeepsInv(size, threads, states, who, n);
    var s, th := states[n], states[n].threads[u];
    assert ThreadOk(s, u);
    assert (s.epoch + 1) * size == s.epoch * size + size;
    if th.pc.Leave? { TimesMonotone(th.t + 1, s.epoch, size); }
  }

  lemma TimesMonotone(a: nat, b: nat, c: nat)
    requires a <= b
    ensures a * c <= b * c
  {
  }

  /** Once a round has ended and notifyAll is over, none of its threads is in the queue, and
      none will be: one that is caught between unlocking and locking again sees a newer
      epoch and is scheduled instead. */
  lemma NoMissedSignal(size: nat, threads: nat, states: seq<State>, who: seq<nat>, n: nat, u: nat)
    requires IsRun(states, who) && states[0] == Made(size, threads) && n < |states|
    requires u < threads && u < |states[n].threads|
    ensures var s, th := states[n], states[n].threads[u];
      && (u in s.queue && !Holder(s, Reset) && !Holder(s, Signal) && !Holder(s, Wake) ==> th.t == s.epoch)
      && (th.pc.Handle? && !s.failed ==>
            (Step(s, u).threads[u].pc.Queued? <==> th.t == s.epoch) && (Step(s, u).threads[u].pc.Woken? <==> th.t < s.epoch))
  {
    RunKeepsInv(size, threads, states, who, n);
    assert ThreadOk(states[n], u);
  }

  /** When no thread inside sync can move, the lock is free and the threads inside are
      exactly the queued ones, all of the current round, and fewer than size. */
  lemma NobodyLeftBehind(size: nat, threads: nat, states: seq<State>, who: seq<nat>, n: nat)
    requires IsRun(states, who) && states[0] == Made(size, threads) && n < |states| && 0 < size
    requires !states[n].failed && |states[n].threads| == threads
    requires forall u: nat :: u < threads && !states[n].threads[u].pc.Idle? ==> !CanStep(states[n], u)
    ensures var s := states[n];
      && s.owner == None
      && (forall u: nat :: u < |s.threads| ==> s.threads[u].pc.Idle? || (s.threads[u].pc.Queued? && s.threads[u].t == s.epoch))
      && |set u: nat | u < |s.threads| && s.threads[u].pc.Queued?| == s.size - s.count < s.size
  {
    RunKeepsInv(size, threads, states, who, n);
    var s := states[n];
    assert s.queue != [] ==> s.queue[0] in s.queue;
    assert s.owner.Some? ==> ThreadOk(s, s.owner.value) && CanStep(s, s.owner.value);
    forall u: nat | u < |s.threads|
      ensures s.threads[u].pc.Idle? || (s.threads[u].pc.Queued? && s.threads[u].t == s.epoch)
    {
      assert ThreadOk(s, u);
      assert !s.threads[u].pc.Idle? ==> !CanStep(s, u);
    }
    assert Round(s) == set u: nat | u < |s.threads| && s.threads[u].pc.Queued?;
  }
}
