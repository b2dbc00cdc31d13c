/** A semaphore as its users see it: an atomic counter. SchedulerSafety shows that the
    semaphores of the kernel replay on it; the modules built on semaphores use it. */
module Counter {

  /** down may pass. */
  predicate CanTake(count: nat) {
    0 < count
  }

  function Take(count: nat): nat
    requires CanTake(count)
  {
    count - 1
  }

  function Give(count: nat): nat {
    count + 1
  }
}
