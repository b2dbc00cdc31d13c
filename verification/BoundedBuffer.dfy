/** BoundedBuffer under any number of threads that put and get in any order. A step is one
    statement of put or get; a semaphore is the atomic counter that SchedulerSafety shows
    it to be. */
module BoundedBuffer {
  import opened Counter
  import opened Counting

  /** The statement a thread executes next. */
  datatype Pc =
    | Idle
    | PutEmpty  // nEmpty.down()
    | PutLock   // lock.down()
    | PutData   // data[(head + n) % N] = t
    | PutCount  // n++
    | PutUnlock // lock.up()
    | PutFull   // nFull.up()
    | GetFull   // nFull.down()
    | GetLock   // lock.down()
    | GetData   // out = data[head]
    | GetHead   // head = (head + 1) % N
    | GetCount  // n--
    | GetUnlock // lock.up()
    | GetEmpty  // nEmpty.up()

  /** local is the argument of a put or the result of a get. puts and gets record, in lock
      order, the arguments of the puts that were counted and the results of the gets. */
  datatype State<T> = State(
    size: nat, head: nat, n: nat, data: seq<T>,
    nEmpty: nat, nFull: nat, lock: nat,
    pcs: seq<Pc>, local: seq<T>,
    puts: seq<T>, gets: seq<T>)

  const WORD: nat := 0x1_0000_0000

  /** (head + n) % N in 32-bit arithmetic. */
  function Slot(size: nat, head: nat, n: nat): nat
    requires 0 < size
  {
    (head + n) % WORD % size
  }

  /** The sum gives the right position for every head and n below N exactly when N is at
      most 2^31. */
  lemma SlotExact(size: nat)
    requires 0 < size < WORD
    ensures (forall head: nat, n: nat {:trigger Slot(size, head, n)} ::
               head < size && n < size ==> Slot(size, head, n) == Wrap(size, head, n))
            <==> size <= 0x8000_0000
  {
    forall head: nat, n: nat | head < size && n < size && size <= 0x8000_0000
      ensures Slot(size, head, n) == Wrap(size, head, n)
    {
      SlotWraps(size, head, n);
    }
    if 0x8000_0000 < size { SlotIff(size, size - 1, WORD - (size - 1)); }
  }

  lemma SlotWraps(size: nat, head: nat, n: nat)
    requires head < size && n < size && head + n < WORD
    ensures Slot(size, head, n) == Wrap(size, head, n)
  {
    ModUpToTwice(head + n, size);
    assert (head + n) % WORD == head + n;
  }

  /** A single put finds the right position exactly when its sum does not wrap. */
  lemma SlotIff(size: nat, head: nat, n: nat)
    requires head < size < WORD && n < size
    ensures Slot(size, head, n) == Wrap(size, head, n) <==> head + n < WORD
  {
    if head + n < WORD {
      SlotWraps(size, head, n);
    } else {
      var x := head + n - WORD;
      assert (head + n) % WORD == x;
      ModUpToTwice(x, size);
    }
  }

  lemma ModUpToTwice(x: nat, size: nat)
    requires x < size + size
    ensures x % size == if x < size then x else x - size
  {
    var q, r := x / size, x % size;
    assert x == q * size + r;
    assert q >= 2 ==> q * size >= 2 * size;
    assert q == 0 || q == 1;
  }

  /** The ring position k places after head. */
  function Wrap(size: nat, head: nat, k: nat): (r: nat)
    requires head < size && k <= size
    ensures r < size
  {
    if head + k < size then head + k else head + k - size
  }

  // ----- steps

  predicate Shape<T>(s: State<T>) {
    |s.local| == |s.pcs| && |s.data| == s.size && (0 < s.size ==> s.head < s.size)
  }

  function Move<T>(s: State<T>, t: nat, pc: Pc): State<T>
    requires t < |s.pcs|
  {
    s.(pcs := s.pcs[t := pc])
  }

  /** A thread calls put(x) or get(). */
  function CallPut<T>(s: State<T>, t: nat, x: T): State<T>
    requires Shape(s) && t < |s.pcs|
  {
    Move(s, t, PutEmpty).(local := s.local[t := x])
  }

  function CallGet<T>(s: State<T>, t: nat): State<T>
    requires t < |s.pcs|
  {
    Move(s, t, GetFull)
  }

  predicate CanStep<T>(s: State<T>, t: nat) {
    && Shape(s) && t < |s.pcs|
    && match s.pcs[t]
       case Idle => false
       case PutEmpty => CanTake(s.nEmpty)
       case GetFull => CanTake(s.nFull)
       case PutLock => CanTake(s.lock)
       case GetLock => CanTake(s.lock)
       case PutData => 0 < s.size
       case GetData => 0 < s.size
       case GetHead => 0 < s.size
       case GetCount => 0 < s.n
       case _ => true
  }

  function Step<T>(s: State<T>, t: nat): State<T>
    requires CanStep(s, t)
  {
    match s.pcs[t]
    case PutEmpty => Move(s, t, PutLock).(nEmpty := Take(s.nEmpty))
    case PutLock => Move(s, t, PutData).(lock := Take(s.lock))
    case PutData => Move(s, t, PutCount).(data := s.data[Slot(s.size, s.head, s.n) := s.local[t]])
    case PutCount => Move(s, t, PutUnlock).(n := s.n + 1, puts := s.puts + [s.local[t]])
    case PutUnlock => Move(s, t, PutFull).(lock := Give(s.lock))
    case PutFull => Move(s, t, Idle).(nFull := Give(s.nFull))
    case GetFull => Move(s, t, GetLock).(nFull := Take(s.nFull))
    case GetLock => Move(s, t, GetData).(lock := Take(s.lock))
    case GetData => Move(s, t, GetHead).(local := s.local[t := s.data[s.head]])
    case GetHead => Move(s, t, GetCount).(head := (s.head + 1) % s.size, gets := s.gets + [s.local[t]])
    case GetCount => Move(s, t, GetUnlock).(n := s.n - 1)
    case GetUnlock => Move(s, t, GetEmpty).(lock := Give(s.lock))
    case GetEmpty => Move(s, t, Idle).(nEmpty := Give(s.nEmpty))
  }

  // ----- the invariant

  function At<T>(s: State<T>, pc: Pc): nat {
    Count(s.pcs, pc)
  }

  /** Threads between their first down and their last up. */
  function InFlight<T>(s: State<T>): nat {
    At(s, PutLock) + At(s, PutData) + At(s, PutCount) + At(s, PutUnlock) + At(s, PutFull)
    + At(s, GetLock) + At(s, GetData) + At(s, GetHead) + At(s, GetCount) + At(s, GetUnlock) + At(s, GetEmpty)
  }

  /** Threads between lock.down and lock.up. */
  function Inside<T>(s: State<T>): nat {
    At(s, PutData) + At(s, PutCount) + At(s, PutUnlock)
    + At(s, GetData) + At(s, GetHead) + At(s, GetCount) + At(s, GetUnlock)
  }

  /** Every slot is accounted for: full ones by nFull and the threads that filled or
      claimed one, empty ones by nEmpty and the threads that claimed or emptied one. */
  predicate Balanced<T>(s: State<T>) {
    && s.n == s.nFull + At(s, PutUnlock) + At(s, PutFull)
              + At(s, GetLock) + At(s, GetData) + At(s, GetHead) + At(s, GetCount)
    && s.size == s.n + s.nEmpty + At(s, PutLock) + At(s, PutData) + At(s, PutCount)
                 + At(s, GetUnlock) + At(s, GetEmpty)
    && s.lock + Inside(s) == 1
  }

  /** The m values from head on, around the ring. */
  function Ring<T>(data: seq<T>, head: nat, m: nat): (r: seq<T>)
    requires m <= |data| && (0 < |data| ==> head < |data|)
    ensures |r| == m
    ensures forall k :: 0 <= k < m ==> r[k] == data[Wrap(|data|, head, k)]
    decreases m
  {
    if m == 0 then [] else Ring(data, head, m - 1) + [data[Wrap(|data|, head, m - 1)]]
  }

  /** The number of values in the buffer: a get that has moved head but not yet counted
      down has taken its value already. */
  function Stored<T>(s: State<T>): int {
    s.n - At(s, GetCount)
  }

  ghost predicate Ordered<T>(s: State<T>) {
    && Shape(s) && 0 <= Stored(s) <= s.size
    && s.puts == s.gets + Ring(s.data, s.head, Stored(s))
    && (forall t {:trigger s.pcs[t]} :: 0 <= t < |s.pcs| ==>
          && (s.pcs[t] == PutCount ==> Stored(s) < s.size && s.data[Wrap(s.size, s.head, Stored(s))] == s.local[t])
          && (s.pcs[t] == GetHead ==> 0 < Stored(s) && s.data[s.head] == s.local[t]))
  }

  ghost predicate Inv<T>(s: State<T>) {
    Shape(s) && Balanced(s) && Ordered(s)
  }

  /** If thread t is about to store a value, the sum head + n fits 32 bits. For N up to 2^31
      it always does. */
  predicate NoWrap<T>(s: State<T>, t: nat) {
    t < |s.pcs| && s.pcs[t].PutData? ==> s.head + s.n < WORD
  }

  lemma SmallNeverWraps<T>(s: State<T>, t: nat)
    requires Inv(s) && t < |s.pcs| && s.size <= 0x8000_0000
    ensures NoWrap(s, t)
  {
    if s.pcs[t].PutData? { CountsAtPut(s, t); }
  }

  function Fresh<T>(size: nat, data: seq<T>, threads: nat, local: seq<T>): State<T> {
    State(size, 0, 0, data, size, 0, 1, seq(threads, _ => Idle), local, [], [])
  }

  lemma FreshInv<T>(size: nat, data: seq<T>, threads: nat, local: seq<T>)
    requires |data| == size && |local| == threads
    ensures Inv(Fresh(size, data, threads, local))
  {
    var s := Fresh(size, data, threads, local);
    forall pc | pc != Idle ensures At(s, pc) == 0 { NobodyAt(s.pcs, pc); }
  }

  lemma PutEntryBalances<T>(s: State<T>, t: nat)
    requires Inv(s) && CanStep(s, t) && (s.pcs[t].PutEmpty? || s.pcs[t].PutLock? || s.pcs[t].PutData?)
    ensures Balanced(Step(s, t))
  {
    hide Ordered, Ring, Count;
    MoveCounts(s.pcs, t, Step(s, t).pcs[t]);
  }

  lemma PutExitBalances<T>(s: State<T>, t: nat)
    requires Inv(s) && CanStep(s, t) && (s.pcs[t].PutCount? || s.pcs[t].PutUnlock? || s.pcs[t].PutFull?)
    ensures Balanced(Step(s, t))
  {
    hide Ordered, Ring, Count;
    MoveCounts(s.pcs, t, Step(s, t).pcs[t]);
  }

  lemma GetEntryBalances<T>(s: State<T>, t: nat)
    requires Inv(s) && CanStep(s, t) && (s.pcs[t].GetFull? || s.pcs[t].GetLock? || s.pcs[t].GetData? || s.pcs[t].GetHead?)
    ensures Balanced(Step(s, t))
  {
    hide Ordered, Ring, Count;
    MoveCounts(s.pcs, t, Step(s, t).pcs[t]);
  }

  lemma GetExitBalances<T>(s: State<T>, t: nat)
    requires Inv(s) && CanStep(s, t) && (s.pcs[t].GetCount? || s.pcs[t].GetUnlock? || s.pcs[t].GetEmpty?)
    ensures Balanced(Step(s, t))
  {
    hide Ordered, Ring, Count;
    MoveCounts(s.pcs, t, Step(s, t).pcs[t]);
  }

  /** Only one thread is between lock.down and lock.up. */
  lemma MutualExclusion<T>(s: State<T>, t: nat, u: nat)
    requires Balanced(s) && t < |s.pcs| && u < |s.pcs|
    requires Locked(s.pcs[t]) && Locked(s.pcs[u])
    ensures t == u
  {
    if t != u {
      BothCount(s.pcs, t, u);
      BothCount(s.pcs, u, t);
    }
  }

  predicate Locked(p: Pc) {
    p.PutData? || p.PutCount? || p.PutUnlock? || p.GetData? || p.GetHead? || p.GetCount? || p.GetUnlock?
  }

  // ----- order

  /** Threads outside the lock see nothing that a thread inside it changes. */
  lemma OthersOutside<T>(s: State<T>, t: nat, u: nat)
    requires Balanced(s) && t < |s.pcs| && u < |s.pcs| && t != u && Locked(s.pcs[t])
    ensures !Locked(s.pcs[u])
  {
    if Locked(s.pcs[u]) { MutualExclusion(s, t, u); }
  }

  lemma UnlockedStepOrdered<T>(s: State<T>, t: nat)
    requires Inv(s) && CanStep(s, t)
    requires !Locked(s.pcs[t]) || s.pcs[t].PutUnlock? || s.pcs[t].GetUnlock?
    ensures Ordered(Step(s, t))
  {
    hide Ring, Count;
    MoveCounts(s.pcs, t, Step(s, t).pcs[t]);
  }

  /** Writing behind the m values does not touch them. */
  lemma RingKeeps<T>(data: seq<T>, head: nat, m: nat, x: T)
    requires head < |data| && m < |data|
    ensures Ring(data[Wrap(|data|, head, m) := x], head, m) == Ring(data, head, m)
  {
    var next := data[Wrap(|data|, head, m) := x];
    var r, r' := Ring(data, head, m), Ring(next, head, m);
    hide Ring;
    forall k | 0 <= k < m ensures r'[k] == r[k] {}
  }

  lemma PutDataOrdered<T>(s: State<T>, t: nat)
    requires Inv(s) && CanStep(s, t) && s.pcs[t].PutData? && NoWrap(s, t)
    ensures Ordered(Step(s, t))
  {
    hide Ring, Count, Slot;
    CountsAtPut(s, t);
    MoveCounts(s.pcs, t, PutCount);
    SlotWraps(s.size, s.head, s.n);
    RingKeeps(s.data, s.head, s.n, s.local[t]);
    forall u | 0 <= u < |s.pcs| && u != t ensures !Locked(s.pcs[u]) { OthersOutside(s, t, u); }
  }

  /** With t inside put, no get is between its two updates and a slot is free. */
  lemma CountsAtPut<T>(s: State<T>, t: nat)
    requires Inv(s) && t < |s.pcs| && (s.pcs[t].PutData? || s.pcs[t].PutCount?)
    ensures At(s, GetCount) == 0 && s.n < s.size
  {
    assert s.pcs[t] in s.pcs;
  }

  lemma PutCountOrdered<T>(s: State<T>, t: nat)
    requires Inv(s) && CanStep(s, t) && s.pcs[t].PutCount?
    ensures Ordered(Step(s, t))
  {
    var s' := Step(s, t);
    CountsAtPut(s, t);
    MoveCounts(s.pcs, t, PutUnlock);
    assert Stored(s') == s.n + 1;
    assert Ring(s.data, s.head, s.n + 1) == Ring(s.data, s.head, s.n) + [s.local[t]];
    forall u | 0 <= u < |s.pcs| && u != t ensures !Locked(s.pcs[u]) { OthersOutside(s, t, u); }
  }

  /** With t inside get and before it moves head, a value is there to take. */
  lemma CountsAtGet<T>(s: State<T>, t: nat)
    requires Inv(s) && t < |s.pcs| && (s.pcs[t].GetData? || s.pcs[t].GetHead?)
    ensures At(s, GetCount) == 0 && 0 < s.n
  {
    assert s.pcs[t] in s.pcs;
  }

  lemma GetDataOrdered<T>(s: State<T>, t: nat)
    requires Inv(s) && CanStep(s, t) && s.pcs[t].GetData?
    ensures Ordered(Step(s, t))
  {
    CountsAtGet(s, t);
    MoveCounts(s.pcs, t, GetHead);
    forall u | 0 <= u < |s.pcs| && u != t ensures !Locked(s.pcs[u]) { OthersOutside(s, t, u); }
  }

  /** Moving head by one drops the first of the m values. */
  lemma RingShift<T>(data: seq<T>, head: nat, m: nat)
    requires 0 < m <= |data| && head < |data|
    ensures Ring(data, head, m) == [data[head]] + Ring(data, Wrap(|data|, head, 1), m - 1)
  {
    var r, rest := Ring(data, head, m), Ring(data, Wrap(|data|, head, 1), m - 1);
    hide Ring;
    assert r[0] == data[head];
    forall k | 1 <= k < m ensures r[k] == rest[k - 1] {}
  }

  lemma GetHeadOrdered<T>(s: State<T>, t: nat)
    requires Inv(s) && CanStep(s, t) && s.pcs[t].GetHead?
    ensures Ordered(Step(s, t))
  {
    hide Ring, Count;
    var s' := Step(s, t);
    CountsAtGet(s, t);
    MoveCounts(s.pcs, t, GetCount);
    ModUpToTwice(s.head + 1, s.size);
    RingShift(s.data, s.head, s.n);
    assert Stored(s') == s.n - 1;
    forall u | 0 <= u < |s.pcs| && u != t ensures !Locked(s.pcs[u]) { OthersOutside(s, t, u); }
  }

  lemma GetCountOrdered<T>(s: State<T>, t: nat)
    requires Inv(s) && CanStep(s, t) && s.pcs[t].GetCount?
    ensures Ordered(Step(s, t))
  {
    MoveCounts(s.pcs, t, GetUnlock);
    forall u | 0 <= u < |s.pcs| && u != t ensures !Locked(s.pcs[u]) { OthersOutside(s, t, u); }
  }

  /** Every statement of every thread keeps the invariant. */
  lemma StepKeepsInv<T>(s: State<T>, t: nat)
    requires Inv(s) && CanStep(s, t) && NoWrap(s, t)
    ensures Inv(Step(s, t)) && Step(s, t).size == s.size
  {
    hide Balanced, Ordered, Count;
    match s.pcs[t]
    case PutData => PutEntryBalances(s, t); PutDataOrdered(s, t);
    case PutCount => PutExitBalances(s, t); PutCountOrdered(s, t);
    case GetData => GetEntryBalances(s, t); GetDataOrdered(s, t);
    case GetHead => GetEntryBalances(s, t); GetHeadOrdered(s, t);
    case GetCount => GetExitBalances(s, t); GetCountOrdered(s, t);
    case PutEmpty => PutEntryBalances(s, t); UnlockedStepOrdered(s, t);
    case PutLock => PutEntryBalances(s, t); UnlockedStepOrdered(s, t);
    case PutUnlock => PutExitBalances(s, t); UnlockedStepOrdered(s, t);
    case PutFull => PutExitBalances(s, t); UnlockedStepOrdered(s, t);
    case GetFull => GetEntryBalances(s, t); UnlockedStepOrdered(s, t);
    case GetLock => GetEntryBalances(s, t); UnlockedStepOrdered(s, t);
    case GetUnlock => GetExitBalances(s, t); UnlockedStepOrdered(s, t);
    case GetEmpty => GetExitBalances(s, t); UnlockedStepOrdered(s, t);
  }

  lemma CallKeepsInv<T>(s: State<T>, t: nat, x: T)
    requires Inv(s) && t < |s.pcs| && s.pcs[t] == Idle
    ensures Inv(CallPut(s, t, x)) && Inv(CallGet(s, t))
  {
    hide Count, Ring;
    MoveCounts(s.pcs, t, PutEmpty);
    MoveCounts(s.pcs, t, GetFull);
  }

  // ----- runs

  datatype Act<T> = CallOfPut(x: T) | CallOfGet | Statement

  ghost predicate IsStep<T>(s: State<T>, t: nat, a: Act<T>, s': State<T>) {
    && Shape(s) && t < |s.pcs|
    && match a
       case CallOfPut(x) => s.pcs[t] == Idle && s' == CallPut(s, t, x)
       case CallOfGet => s.pcs[t] == Idle && s' == CallGet(s, t)
       case Statement => CanStep(s, t) && s' == Step(s, t)
  }

  ghost predicate IsRun<T>(states: seq<State<T>>, who: seq<nat>, acts: seq<Act<T>>) {
    && |states| == |who| + 1 == |acts| + 1
    && forall k {:trigger states[k], who[k]} :: 0 <= k < |who| ==> IsStep(states[k], who[k], acts[k], states[k + 1])
  }

  /** No put of the run meets a sum that wraps. */
  ghost predicate NeverWraps<T>(states: seq<State<T>>, who: seq<nat>) {
    |who| < |states| && forall k {:trigger states[k], who[k]} :: 0 <= k < |who| ==> NoWrap(states[k], who[k])
  }

  lemma {:induction false} RunKeepsInv<T>(states: seq<State<T>>, who: seq<nat>, acts: seq<Act<T>>, n: nat)
    requires IsRun(states, who, acts) && Inv(states[0]) && n < |states|
    requires states[0].size <= 0x8000_0000 || NeverWraps(states, who)
    ensures Inv(states[n]) && states[n].size == states[0].size
    decreases n
  {
    hide Inv, CanStep, Step, NoWrap;
    if n > 0 {
      RunKeepsInv(states, who, acts, n - 1);
      var s, t := states[n - 1], who[n - 1];
      assert IsStep(s, t, acts[n - 1], states[n - 1 + 1]);
      match acts[n - 1]
      case CallOfPut(x) => CallKeepsInv(s, t, x);
      case CallOfGet => CallKeepsInv(s, t, s.local[t]);
      case Statement =>
        if s.size <= 0x8000_0000 { SmallNeverWraps(s, t); }
        StepKeepsInv(s, t);
    }
  }

  // ----- what callers get

  /** The results of the gets are, in lock order, a prefix of the arguments of the puts; the
      buffer never holds more than N; and every token is in a semaphore or in flight: in
      every run for N up to 2^31, and for larger N as long as no put meets a sum that wraps. */
  lemma FirstInFirstOut<T>(states: seq<State<T>>, who: seq<nat>, acts: seq<Act<T>>, n: nat)
    requires IsRun(states, who, acts) && n < |states|
    requires states[0] == Fresh(|states[0].data|, states[0].data, |states[0].local|, states[0].local)
    requires |states[0].data| <= 0x8000_0000 || NeverWraps(states, who)
    ensures var s := states[n];
      && s.gets <= s.puts
      && |s.puts| - |s.gets| <= s.n <= s.size
      && s.nEmpty + s.nFull + InFlight(s) == s.size
  {
    FreshInv(|states[0].data|, states[0].data, |states[0].local|, states[0].local);
    RunKeepsInv(states, who, acts, n);
    assert states[n].gets == states[n].puts[..|states[n].gets|];
  }

  /** If no thread can execute its next statement, nobody is inside a put or get: callers of
      put wait only in front of a full buffer, callers of get only in front of an empty one. */
  lemma NoLostWakeup<T>(s: State<T>, t: nat)
    requires Inv(s) && t < |s.pcs|
    requires forall u: nat :: u < |s.pcs| ==> !CanStep(s, u)
    ensures s.pcs[t] == Idle || (s.pcs[t] == PutEmpty && s.n == s.size) || (s.pcs[t] == GetFull && s.n == 0)
    ensures InFlight(s) == 0
  {
    forall u: nat | u < |s.pcs| ensures s.pcs[u] == Idle || s.pcs[u] == PutEmpty || s.pcs[u] == GetFull {
      Unstuck(s, u);
    }
    forall p: Pc | p != Idle && p != PutEmpty && p != GetFull ensures At(s, p) == 0 { NobodyAt(s.pcs, p); }
    assert !CanStep(s, t);
  }

  /** Some thread can move whenever one is inside: the holder of the lock, or, when nobody
      holds it, the thread in question. */
  lemma Unstuck<T>(s: State<T>, u: nat)
    requires Inv(s) && u < |s.pcs|
    requires forall v: nat :: v < |s.pcs| ==> !CanStep(s, v)
    ensures s.pcs[u] == Idle || s.pcs[u] == PutEmpty || s.pcs[u] == GetFull
  {
    assert !CanStep(s, u);
    if s.pcs[u].PutLock? || s.pcs[u].GetLock? {
      assert s.lock == 0 && 0 < Inside(s);
      var p :| Locked(p) && 0 < Count(s.pcs, p);
      var v := Executing(s.pcs, p);
      HolderMoves(s, v);
    } else if Locked(s.pcs[u]) {
      HolderMoves(s, u);
    }
  }

  lemma HolderMoves<T>(s: State<T>, v: nat)
    requires Inv(s) && v < |s.pcs| && Locked(s.pcs[v])
    ensures CanStep(s, v)
  {
    assert s.pcs[v] in s.pcs;
  }
}
