/** The one-shot Barrier: the last thread to arrive leaves a token that every waiting thread
    takes and puts back. Any number of threads, one statement at a time. */
module Barrier {
  import opened Counter
  import opened Counting

  datatype Pc =
    | Idle
    | Arrive  // x = count.add_fetch(-1)
    | Last    // x == 0: sem.up()
    | Wait    // x > 0: sem.down()
    | Pass    // sem.up()

  /** arrivals counts executed decrements, left completed calls. panicked is the machine
      halting because count went negative. */
  datatype State = State(size: nat, count: int, sem: nat, panicked: bool, pcs: seq<Pc>, arrivals: nat, left: nat)

  /** The int32_t that a uint32_t argument becomes. */
  function Signed(size: nat): int {
    if size < 0x8000_0000 then size else size - 0x1_0000_0000
  }

  function Decremented(count: int): int {
    if count == -0x8000_0000 then 0x7FFF_FFFF else count - 1
  }

  function Made(size: nat, threads: nat): State {
    State(size, Signed(size), 0, false, seq(threads, _ => Idle), 0, 0)
  }

  function Move(s: State, t: nat, pc: Pc): State
    requires t < |s.pcs|
  {
    s.(pcs := s.pcs[t := pc])
  }

  predicate CanStep(s: State, t: nat) {
    t < |s.pcs| && !s.panicked && (s.pcs[t].Wait? ==> CanTake(s.sem))
  }

  /** A step of a thread outside sync is a new call. */
  function Step(s: State, t: nat): State
    requires CanStep(s, t)
  {
    match s.pcs[t]
    case Idle => Move(s, t, Arrive)
    case Arrive =>
      var x := Decremented(s.count);
      var s1 := s.(count := x, arrivals := s.arrivals + 1);
      if x < 0 then s1.(panicked := true) else if x == 0 then Move(s1, t, Last) else Move(s1, t, Wait)
    case Last => Move(s, t, Idle).(sem := Give(s.sem), left := s.left + 1)
    case Wait => Move(s, t, Pass).(sem := Take(s.sem))
    case Pass => Move(s, t, Idle).(sem := Give(s.sem), left := s.left + 1)
  }

  /** How many arrivals the barrier waits for. 2^31 becomes the least int32_t, and its
      first decrement wraps to 2^31 - 1: that size still works. A larger one, like zero,
      goes negative at once. */
  function Awaited(size: nat): nat {
    if size <= 0x8000_0000 then size else 0
  }

  predicate Released(s: State) {
    0 < Awaited(s.size) <= s.arrivals
  }

  /** The turnstile: the token is in the semaphore or with the one thread passing it on. */
  ghost predicate Inv(s: State) {
    && s.size < 0x1_0000_0000
    && s.arrivals <= Awaited(s.size) + 1
    && (s.panicked <==> s.arrivals == Awaited(s.size) + 1)
    && (!s.panicked ==> s.count == Signed(s.size - s.arrivals))
    && s.sem + Count(s.pcs, Pass) + Count(s.pcs, Last) == (if Released(s) then 1 else 0)
    && s.arrivals == s.left + Count(s.pcs, Wait) + Count(s.pcs, Pass) + Count(s.pcs, Last) + (if s.panicked then 1 else 0)
    && (!Released(s) ==> s.left == 0)
  }

  lemma MadeInv(size: nat, threads: nat)
    requires size < 0x1_0000_0000
    ensures Inv(Made(size, threads))
  {
    var s := Made(size, threads);
    NobodyAt(s.pcs, Wait);
    NobodyAt(s.pcs, Pass);
    NobodyAt(s.pcs, Last);
  }

  lemma StepKeepsInv(s: State, t: nat)
    requires Inv(s) && CanStep(s, t)
    ensures Inv(Step(s, t))
  {
    hide Count;
    MoveCounts(s.pcs, t, Step(s, t).pcs[t]);
  }

  ghost predicate IsRun(states: seq<State>, who: seq<nat>) {
    && |states| == |who| + 1
    && forall k {:trigger states[k], who[k]} :: 0 <= k < |who| ==>
         CanStep(states[k], who[k]) && states[k + 1] == Step(states[k], who[k])
  }

  lemma {:induction false} RunKeepsInv(states: seq<State>, who: seq<nat>, n: nat)
    requires IsRun(states, who) && Inv(states[0]) && n < |states|
    ensures Inv(states[n])
    decreases n
  {
    hide Inv, CanStep, Step;
    if n > 0 {
      RunKeepsInv(states, who, n - 1);
      assert states[n - 1 + 1] == Step(states[n - 1], who[n - 1]);
      StepKeepsInv(states[n - 1], who[n - 1]);
    }
  }

  /** No sync returns before all have arrived. The machine halts exactly when one thread
      too many arrives; for a size of zero or above 2^31 the first one is too many. */
  lemma NoEarlyReturn(size: nat, threads: nat, states: seq<State>, who: seq<nat>, n: nat)
    requires size < 0x1_0000_0000 && IsRun(states, who) && states[0] == Made(size, threads) && n < |states|
    ensures var s := states[n];
      && (0 < s.left ==> s.size <= s.arrivals)
      && (s.panicked <==> s.arrivals == 1 + if s.size <= 0x8000_0000 then s.size else 0)
      && s.left <= s.arrivals <= s.size + 1
  {
    MadeInv(size, threads);
    RunKeepsInv(states, who, n);
  }

  /** When no thread inside sync can move, either some have yet to arrive and everyone who
      did is waiting, or nobody is left inside. */
  lemma NobodyLeftBehind(s: State, t: nat)
    requires Inv(s) && !s.panicked && t < |s.pcs|
    requires forall u: nat :: u < |s.pcs| && s.pcs[u] != Idle ==> !CanStep(s, u)
    ensures s.pcs[t] == Idle || (s.pcs[t] == Wait && s.arrivals < s.size)
    ensures s.pcs[t] != Idle ==> s.left == 0
    ensures s.arrivals == s.size ==> s.left == s.arrivals
  {
    forall u: nat | u < |s.pcs| ensures s.pcs[u] == Idle || (s.pcs[u] == Wait && s.sem == 0) {
      assert s.pcs[u] != Idle ==> !CanStep(s, u);
    }
    NobodyAt(s.pcs, Pass);
    NobodyAt(s.pcs, Last);
    if Released(s) { NobodyAt(s.pcs, Wait); }
  }
}

/** Future: one thread sets the value, any number get it. set stores the value, raises
    isReady and leaves a token; a get that finds isReady false takes the token and puts it
    back. set is called once, as the thread that computes the value does. */
module Future {
  import opened Counter
  import opened Counting

  datatype Option<T> = None | Some(value: T)

  datatype Pc =
    | Idle
    | SetValue  // t = v
    | SetReady  // isReady = true
    | SetUp     // go.up()
    | GetCheck  // if (!isReady)
    | GetDown   // go.down()
    | GetUp     // go.up()
    | GetRead   // return t

  /** given is the argument of set once it was called, got the results of the gets. */
  datatype State<T> = State(go: nat, isReady: bool, t: T, pcs: seq<Pc>, given: Option<T>, got: seq<T>)

  function Made<T>(zero: T, threads: nat): State<T> {
    State(0, false, zero, seq(threads, _ => Idle), None, [])
  }

  function Move<T>(s: State<T>, t: nat, pc: Pc): State<T>
    requires t < |s.pcs|
  {
    s.(pcs := s.pcs[t := pc])
  }

  predicate CanSet<T>(s: State<T>, t: nat) {
    t < |s.pcs| && s.pcs[t].Idle? && s.given.None?
  }

  /** The assertion that isReady is false holds at the only call. */
  function CallSet<T>(s: State<T>, t: nat, v: T): State<T>
    requires CanSet(s, t)
  {
    Move(s, t, SetValue).(given := Some(v))
  }

  predicate CanStep<T>(s: State<T>, t: nat) {
    && t < |s.pcs| && (s.pcs[t].GetDown? ==> CanTake(s.go)) && (s.pcs[t].SetValue? ==> s.given.Some?)
  }

  /** A step of an idle thread is a call of get. */
  function Step<T>(s: State<T>, t: nat): State<T>
    requires CanStep(s, t)
  {
    match s.pcs[t]
    case Idle => Move(s, t, GetCheck)
    case SetValue => Move(s, t, SetReady).(t := s.given.value)
    case SetReady => Move(s, t, SetUp).(isReady := true)
    case SetUp => Move(s, t, Idle).(go := Give(s.go))
    case GetCheck => Move(s, t, if s.isReady then GetRead else GetDown)
    case GetDown => Move(s, t, GetUp).(go := Take(s.go))
    case GetUp => Move(s, t, GetRead).(go := Give(s.go))
    case GetRead => Move(s, t, Idle).(got := s.got + [s.t])
  }

  function Setting<T>(s: State<T>): nat {
    Count(s.pcs, SetValue) + Count(s.pcs, SetReady) + Count(s.pcs, SetUp)
  }

  ghost predicate Inv<T>(s: State<T>) {
    && Setting(s) <= (if s.given.Some? then 1 else 0)
    && s.go + Count(s.pcs, GetUp) == (if s.given.Some? && Setting(s) == 0 then 1 else 0)
    && (s.isReady <==> s.given.Some? && Count(s.pcs, SetValue) + Count(s.pcs, SetReady) == 0)
    && (s.given.Some? && Count(s.pcs, SetValue) == 0 ==> s.t == s.given.value)
    && (0 < Count(s.pcs, GetRead) ==> s.isReady)
    && (forall x :: x in s.got ==> s.given == Some(x))
  }

  lemma MadeInv<T>(zero: T, threads: nat)
    ensures Inv(Made(zero, threads))
  {
    var s := Made(zero, threads);
    forall p: Pc | p != Idle ensures Count(s.pcs, p) == 0 { NobodyAt(s.pcs, p); }
  }

  lemma StepKeepsInv<T>(s: State<T>, t: nat)
    requires Inv(s) && CanStep(s, t)
    ensures Inv(Step(s, t))
  {
    hide Count;
    MoveCounts(s.pcs, t, Step(s, t).pcs[t]);
  }

  lemma SetKeepsInv<T>(s: State<T>, t: nat, v: T)
    requires Inv(s) && CanSet(s, t)
    ensures Inv(CallSet(s, t, v)) && !s.isReady
  {
    hide Count;
    MoveCounts(s.pcs, t, SetValue);
  }

  /** A run of calls and statements: calls[k] is the argument when step k calls set. */
  ghost predicate IsRun<T>(states: seq<State<T>>, who: seq<nat>, calls: seq<Option<T>>) {
    && |states| == |who| + 1 == |calls| + 1
    && forall k {:trigger states[k], who[k]} :: 0 <= k < |who| ==>
         match calls[k]
         case Some(v) => CanSet(states[k], who[k]) && states[k + 1] == CallSet(states[k], who[k], v)
         case None => CanStep(states[k], who[k]) && states[k + 1] == Step(states[k], who[k])
  }

  lemma {:induction false} RunKeepsInv<T>(states: seq<State<T>>, who: seq<nat>, calls: seq<Option<T>>, n: nat)
    requires IsRun(states, who, calls) && Inv(states[0]) && n < |states|
    ensures Inv(states[n])
    decreases n
  {
    hide Inv, CanStep, Step, CanSet, CallSet;
    if n > 0 {
      RunKeepsInv(states, who, calls, n - 1);
      var s, t := states[n - 1], who[n - 1];
      match calls[n - 1] {
        case Some(v) =>
          assert states[n - 1 + 1] == CallSet(s, t, v);
          SetKeepsInv(s, t, v);
        case None =>
          assert states[n - 1 + 1] == Step(s, t);
          StepKeepsInv(s, t);
      }
    }
  }

  /** Every get returns the value given to set, and none returns before it was given. */
  lemma GetReturnsTheValue<T>(zero: T, threads: nat, states: seq<State<T>>, who: seq<nat>,
                              calls: seq<Option<T>>, n: nat, i: nat)
    requires IsRun(states, who, calls) && states[0] == Made(zero, threads)
    requires n < |states| && i < |states[n].got|
    ensures states[n].given == Some(states[n].got[i])
  {
    MadeInv(zero, threads);
    RunKeepsInv(states, who, calls, n);
    assert states[n].got[i] in states[n].got;
  }

  /** When no thread inside can move, nobody is inside, or the value was never set and the
      callers of get are the only ones waiting. */
  lemma NobodyLeftBehind<T>(s: State<T>, t: nat)
    requires Inv(s) && t < |s.pcs|
    requires forall u: nat :: u < |s.pcs| && s.pcs[u] != Idle ==> !CanStep(s, u)
    ensures s.pcs[t] == Idle || (s.pcs[t] == GetDown && s.given.None?)
  {
    forall u: nat | u < |s.pcs|
      ensures s.pcs[u] == Idle || (s.pcs[u] == GetDown && s.go == 0) || (s.pcs[u].SetValue? && s.given.None?)
    {
      assert s.pcs[u] != Idle ==> !CanStep(s, u);
    }
    NobodyAt(s.pcs, GetUp);
    NobodyAt(s.pcs, SetReady);
    NobodyAt(s.pcs, SetUp);
    if s.pcs[t].SetValue? || s.given.Some? { MoveCounts(s.pcs, t, Idle); }
    if s.given.Some? { NobodyAt(s.pcs, SetValue); }
  }
}
