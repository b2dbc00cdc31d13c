/** The intrusive FIFO that readyQ, zombies and the wait queues are: threads linked through
    their own next fields. */
module QueueModule {

  class Tcb {
    var next: Tcb?

    constructor ()
      ensures next == null
    {
      next := null;
    }
  }

  /** first, and each next, lead through the items in order and end in null. */
  ghost predicate Chain(first: Tcb?, items: seq<Tcb>)
    reads items
  {
    if items == [] then first == null
    else first == items[0] && Chain(items[0].next, items[1..])
  }

  ghost predicate Distinct(items: seq<Tcb>) {
    forall i, j :: 0 <= i < j < |items| ==> items[i] != items[j]
  }

  lemma {:induction false} ChainIndex(first: Tcb?, items: seq<Tcb>, i: nat)
    requires Chain(first, items) && i < |items|
    ensures items[i].next == (if i + 1 < |items| then items[i + 1] else null)
  {
    if i > 0 {
      ChainIndex(items[0].next, items[1..], i - 1);
    } else {
      assert |items| > 1 ==> items[1..][0] == items[1];
    }
  }

  lemma {:induction false} ChainFromIndex(first: Tcb?, items: seq<Tcb>)
    requires items == [] ==> first == null
    requires items != [] ==> first == items[0]
    requires forall i {:trigger items[i]} :: 0 <= i < |items| ==>
      items[i].next == (if i + 1 < |items| then items[i + 1] else null)
    ensures Chain(first, items)
  {
    if items != [] {
      var rest := items[1..];
      forall i {:trigger rest[i]} | 0 <= i < |rest|
        ensures rest[i].next == (if i + 1 < |rest| then rest[i + 1] else null)
      {
        assert rest[i] == items[i + 1];
      }
      ChainFromIndex(items[0].next, rest);
    }
  }

  class Queue {
    var first: Tcb?
    var last: Tcb?
    ghost var items: seq<Tcb>

    ghost predicate Valid()
      reads this, items
    {
      && Distinct(items) && Chain(first, items)
      && last == if items == [] then null else items[|items| - 1]
    }

    constructor ()
      ensures Valid() && items == []
    {
      first := null;
      last := null;
      items := [];
    }

    method Add(t: Tcb)
      requires Valid() && t !in items
      modifies this, t, if items == [] then {} else {items[|items| - 1]}
      ensures Valid() && items == old(items) + [t]
    {
      ghost var was := items;
      forall i | 0 <= i < |was| ensures was[i].next == (if i + 1 < |was| then was[i + 1] else null) {
        ChainIndex(first, was, i);
      }
      t.next := null;
      if first == null {
        first := t;
      } else {
        last.next := t;
      }
      last := t;
      items := items + [t];
      ChainFromIndex(first, items);
    }

    /** Unlinks the first thread; its own next field still leads on. */
    method Remove() returns (it: Tcb?)
      requires Valid()
      modifies this
      ensures Valid()
      ensures old(items) == [] ==> it == null && items == []
      ensures old(items) != [] ==> it == old(items)[0] && items == old(items)[1..]
    {
      if first == null {
        return null;
      }
      it := first;
      first := it.next;
      if first == null {
        last := null;
      }
      items := items[1..];
    }

    /** Hands over the whole chain, still linked in order. */
    method RemoveAll() returns (it: Tcb?)
      requires Valid()
      modifies this
      ensures Valid() && items == []
      ensures Chain(it, old(items))
    {
      it := first;
      first := null;
      last := null;
      items := [];
    }
  }
}
