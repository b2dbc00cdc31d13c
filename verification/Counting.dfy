/** How many threads are at a statement, when the statements of all threads are a sequence. */
module Counting {

  function Count<P(==)>(pcs: seq<P>, p: P): nat {
    multiset(pcs)[p]
  }

  /** Moving one thread changes two of the counts by one. */
  lemma MoveCounts<P>(pcs: seq<P>, t: nat, p: P)
    requires t < |pcs|
    ensures 0 < Count(pcs, pcs[t])
    ensures p != pcs[t] ==> Count(pcs[t := p], pcs[t]) == Count(pcs, pcs[t]) - 1
                            && Count(pcs[t := p], p) == Count(pcs, p) + 1
    ensures forall q {:trigger Count(pcs[t := p], q)} ::
      q != pcs[t] && q != p ==> Count(pcs[t := p], q) == Count(pcs, q)
  {
    assert pcs[t] in pcs;
  }

  lemma Executing<P>(pcs: seq<P>, p: P) returns (v: nat)
    requires 0 < Count(pcs, p)
    ensures v < |pcs| && pcs[v] == p
  {
    assert p in multiset(pcs);
    v :| v < |pcs| && pcs[v] == p;
  }

  lemma NobodyAt<P>(pcs: seq<P>, p: P)
    requires p !in pcs
    ensures Count(pcs, p) == 0
  {
  }

  /** Two threads at one statement are counted twice. */
  lemma BothCount<P>(pcs: seq<P>, t: nat, u: nat)
    requires t < |pcs| && u < |pcs| && t != u
    ensures 1 <= Count(pcs, pcs[u])
    ensures pcs[t] == pcs[u] ==> 2 <= Count(pcs, pcs[u])
  {
    assert pcs[u] in pcs;
    var rest := pcs[..u] + pcs[u + 1..];
    assert pcs == pcs[..u] + [pcs[u]] + pcs[u + 1..];
    assert multiset(pcs) == multiset(rest) + multiset{pcs[u]};
    assert pcs[t] in rest by { assert pcs[t] == rest[if t < u then t else t - 1]; }
  }
}
