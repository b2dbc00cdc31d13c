/** InterruptSafeLock on any number of cores. The lock keeps the interrupt state of its
    holder in the shared field was; a step is one access to a shared field or one change of
    the core's interrupt flag. */
module InterruptLock {

  datatype Pc =
    | Outside  // code that does not use the lock
    | Disable  // wasDisabled = Interrupts::disable()
    | Exchange // taken.exchange(true)
    | Record   // was = wasDisabled
    | Retry    // Interrupts::restore(wasDisabled)
    | Holding  // the critical section
    | Recall   // wasDisabled = was
    | Free     // taken.set(false)
    | Restore  // Interrupts::restore(wasDisabled)

  /** local is the variable wasDisabled of the running lock() or unlock(). before remembers,
      for the statements of the properties only, the flag when lock() was called. */
  datatype Core = Core(pc: Pc, enabled: bool, local: bool, before: bool)

  datatype State = State(taken: bool, was: bool, cores: seq<Core>)

  /** What a core does next; outside the lock it may also set its interrupt flag. */
  datatype Act = Go | SetFlag(on: bool)

  predicate CanStep(s: State, c: nat, a: Act) {
    c < |s.cores| && (a.SetFlag? ==> s.cores[c].pc.Outside?)
  }

  function Put(s: State, c: nat, k: Core): State
    requires c < |s.cores|
  {
    s.(cores := s.cores[c := k])
  }

  /** Interrupts::restore: turns interrupts on or leaves them as they are. */
  function Restored(k: Core): bool {
    if k.local then k.enabled else true
  }

  function Step(s: State, c: nat, a: Act): State
    requires CanStep(s, c, a)
  {
    var k := s.cores[c];
    if a.SetFlag? then Put(s, c, k.(enabled := a.on))
    else
      match k.pc
      case Outside => Put(s, c, k.(pc := Disable, before := k.enabled))
      case Disable => Put(s, c, k.(pc := Exchange, local := !k.enabled, enabled := false))
      case Exchange => Put(s, c, k.(pc := if s.taken then Retry else Record)).(taken := true)
      case Record => Put(s, c, k.(pc := Holding)).(was := k.local)
      case Retry => Put(s, c, k.(pc := Disable, enabled := Restored(k)))
      case Holding => Put(s, c, k.(pc := Recall))
      case Recall => Put(s, c, k.(pc := Free, local := s.was))
      case Free => Put(s, c, k.(pc := Restore)).(taken := false)
      case Restore => Put(s, c, k.(pc := Outside, enabled := Restored(k)))
  }

  predicate Holds(k: Core) {
    k.pc.Record? || k.pc.Holding? || k.pc.Recall? || k.pc.Free?
  }

  /** Interrupts are off from Disable on; the flag of the caller survives in local, then in
      the shared field, then in local again. */
  ghost predicate CoreOk(s: State, c: nat)
    requires c < |s.cores|
  {
    var k := s.cores[c];
    && (k.pc.Outside? || k.pc.Disable? || !k.enabled)
    && (k.pc.Disable? ==> k.enabled == k.before)
    && (k.pc.Exchange? || k.pc.Record? || k.pc.Retry? || k.pc.Free? || k.pc.Restore? ==> k.local == !k.before)
    && (k.pc.Holding? || k.pc.Recall? ==> s.was == !k.before)
  }

  /** At most one core is between a successful exchange and taken.set(false). */
  ghost predicate OneHolder(s: State) {
    && (forall c: nat :: c < |s.cores| && Holds(s.cores[c]) ==> s.taken)
    && (forall c: nat, d: nat :: c < |s.cores| && d < |s.cores| && Holds(s.cores[c]) && Holds(s.cores[d]) ==> c == d)
  }

  ghost predicate Inv(s: State) {
    OneHolder(s) && forall c: nat {:trigger CoreOk(s, c)} :: c < |s.cores| ==> CoreOk(s, c)
  }

  /** Free lock; every core outside it, with any interrupt flag. */
  function Made(flags: seq<bool>): State {
    State(false, false, seq(|flags|, c requires 0 <= c < |flags| => Core(Outside, flags[c], false, false)))
  }

  lemma StepKeepsCore(s: State, c: nat, a: Act, d: nat)
    requires Inv(s) && CanStep(s, c, a) && d < |s.cores|
    ensures CoreOk(Step(s, c, a), d)
  {
    assert CoreOk(s, c) && CoreOk(s, d);
  }

  lemma StepKeepsHolder(s: State, c: nat, a: Act)
    requires OneHolder(s) && CanStep(s, c, a)
    ensures OneHolder(Step(s, c, a)) && |Step(s, c, a).cores| == |s.cores|
  {
    forall d: nat, e: nat | d < |s.cores| && e < |s.cores|
      ensures Holds(Step(s, c, a).cores[d]) && Holds(Step(s, c, a).cores[e]) ==> Step(s, c, a).taken && d == e
    {
      TwoHolders(s, c, a, d, e);
    }
    hide Step, CanStep, Holds;
  }

  lemma TwoHolders(s: State, c: nat, a: Act, d: nat, e: nat)
    requires OneHolder(s) && CanStep(s, c, a) && d < |s.cores| && e < |s.cores|
    ensures |Step(s, c, a).cores| == |s.cores|
    ensures Holds(Step(s, c, a).cores[d]) && Holds(Step(s, c, a).cores[e]) ==> Step(s, c, a).taken && d == e
  {
  }

  lemma StepKeepsInv(s: State, c: nat, a: Act)
    requires Inv(s) && CanStep(s, c, a)
    ensures Inv(Step(s, c, a))
  {
    forall d: nat | d < |s.cores| ensures CoreOk(Step(s, c, a), d) { StepKeepsCore(s, c, a, d); }
    StepKeepsHolder(s, c, a);
    hide CoreOk, Step, CanStep;
  }

  ghost predicate IsRun(states: seq<State>, who: seq<nat>, acts: seq<Act>) {
    && |states| == |who| + 1 == |acts| + 1
    && forall k {:trigger states[k], who[k]} :: 0 <= k < |who| ==>
         CanStep(states[k], who[k], acts[k]) && states[k + 1] == Step(states[k], who[k], acts[k])
  }

  lemma {:induction false} RunKeepsInv(states: seq<State>, who: seq<nat>, acts: seq<Act>, n: nat)
    requires IsRun(states, who, acts) && Inv(states[0]) && n < |states|
    ensures Inv(states[n])
    decreases n
  {
    hide Inv, CanStep, Step;
    if n > 0 {
      RunKeepsInv(states, who, acts, n - 1);
      assert states[n - 1 + 1] == Step(states[n - 1], who[n - 1], acts[n - 1]);
      StepKeepsInv(states[n - 1], who[n - 1], acts[n - 1]);
    }
  }

  /** In every run: at most one core holds the lock; it has interrupts off; was is its own
      flag once it has been recorded; and the step that ends unlock() leaves the flag
      exactly as it was when lock() was called. */
  lemma LockIsSafe(flags: seq<bool>, states: seq<State>, who: seq<nat>, acts: seq<Act>, n: nat, c: nat)
    requires IsRun(states, who, acts) && states[0] == Made(flags) && n < |states|
    requires c < |states[n].cores|
    ensures var s, k := states[n], states[n].cores[c];
      && (Holds(k) ==> !k.enabled && s.taken && forall d: nat :: d < |s.cores| && Holds(s.cores[d]) ==> d == c)
      && (k.pc.Holding? ==> s.was == !k.before)
      && (k.pc.Restore? ==> Step(s, c, Go).cores[c].pc.Outside? && Step(s, c, Go).cores[c].enabled == k.before)
  {
    forall d: nat | d < |states[0].cores| ensures CoreOk(states[0], d) {}
    RunKeepsInv(states, who, acts, n);
    assert CoreOk(states[n], c);
  }
}
