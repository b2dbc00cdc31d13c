/** Which block malloc() takes: the earliest smallest among the first twenty fitting
    blocks of the list. */
module BestFit {
  import opened Tiling

  const SEARCH_LIMIT := 20

  /** The blocks of the list that can hold ints words, in list order. */
  function Fitting(l: seq<int>, b: Blocks, ints: int): (f: seq<int>)
    requires forall k :: 0 <= k < |l| ==> l[k] in b
    ensures forall j :: 0 <= j < |f| ==> f[j] in l && ints <= b[f[j]]
  {
    if l == [] then []
    else
      var p := |l| - 1;
      Fitting(l[..p], b, ints) + (if ints <= b[l[p]] then [l[p]] else [])
  }

  function Candidates(l: seq<int>, b: Blocks, ints: int): (f: seq<int>)
    requires forall k :: 0 <= k < |l| ==> l[k] in b
    ensures |f| <= SEARCH_LIMIT
  {
    var f := Fitting(l, b, ints);
    if |f| <= SEARCH_LIMIT then f else f[..SEARCH_LIMIT]
  }

  function Smallest(c: seq<int>, b: Blocks): (h: int)
    requires c != [] && forall k :: 0 <= k < |c| ==> c[k] in b
    ensures h in c
  {
    var p := |c| - 1;
    if p == 0 then c[0]
    else
      var m := Smallest(c[..p], b);
      if b[c[p]] < b[m] then c[p] else m
  }

  lemma {:induction false} FittingOfPrefix(l: seq<int>, k: nat, b: Blocks, ints: int)
    requires k <= |l| && forall i :: 0 <= i < |l| ==> l[i] in b
    ensures Fitting(l[..k], b, ints) <= Fitting(l, b, ints)
    decreases |l| - k
  {
    if k < |l| {
      FittingOfPrefix(l, k + 1, b, ints);
      assert l[..k + 1][..k] == l[..k];
    } else {
      assert l[..k] == l;
    }
  }

  lemma {:induction false} FittingIsComplete(l: seq<int>, b: Blocks, ints: int, h: int)
    requires forall i :: 0 <= i < |l| ==> l[i] in b
    requires h in l && ints <= b[h]
    ensures h in Fitting(l, b, ints)
  {
    var p := |l| - 1;
    if h != l[p] { FittingIsComplete(l[..p], b, ints, h); }
  }

  ghost predicate EarliestMinimum(c: seq<int>, b: Blocks, i: int)
    requires forall k :: 0 <= k < |c| ==> c[k] in b
  {
    && 0 <= i < |c|
    && (forall j :: 0 <= j < i ==> b[c[i]] < b[c[j]])
    && (forall j :: 0 <= j < |c| ==> b[c[i]] <= b[c[j]])
  }

  /** No candidate is smaller than the chosen block, and those before it in the list are
      all larger. */
  lemma {:induction false} SmallestIsEarliestMinimum(c: seq<int>, b: Blocks) returns (i: int)
    requires c != [] && forall k :: 0 <= k < |c| ==> c[k] in b
    ensures EarliestMinimum(c, b, i) && c[i] == Smallest(c, b)
  {
    var p := |c| - 1;
    if p == 0 {
      i := 0;
    } else {
      i := SmallestIsEarliestMinimum(c[..p], b);
      assert c[..p][i] == c[i];
      forall j | 0 <= j < p
        ensures b[c[i]] <= b[c[j]] && (j < i ==> b[c[i]] < b[c[j]])
      {
        assert c[..p][j] == c[j];
      }
      if b[c[p]] < b[c[i]] { i := p; }
    }
  }

  /** What the search loop knows after k entries. */
  ghost predicate Searched(l: seq<int>, b: Blocks, ints: int, k: int, countDown: int, it: int, mx: int)
    requires 0 <= k <= |l| && forall i :: 0 <= i < |l| ==> l[i] in b
  {
    var f := Fitting(l[..k], b, ints);
    && |f| == SEARCH_LIMIT - countDown
    && (if f == [] then it == 0 && mx == 0x7FFF_FFFF else it == Smallest(f, b) && mx == b[it])
  }

  lemma SearchStart(l: seq<int>, b: Blocks, ints: int)
    requires forall i :: 0 <= i < |l| ==> l[i] in b
    ensures Searched(l, b, ints, 0, SEARCH_LIMIT, 0, 0x7FFF_FFFF)
  {
  }

  lemma FittingNext(l: seq<int>, b: Blocks, ints: int, k: int)
    requires 0 <= k < |l| && forall i :: 0 <= i < |l| ==> l[i] in b
    ensures Fitting(l[..k + 1], b, ints) == Fitting(l[..k], b, ints) + (if ints <= b[l[k]] then [l[k]] else [])
  {
    assert l[..k + 1][..k] == l[..k];
  }

  lemma SmallestNext(f: seq<int>, b: Blocks, p: int)
    requires p in b && forall k :: 0 <= k < |f| ==> f[k] in b
    ensures Smallest(f + [p], b) == if f == [] || b[p] < b[Smallest(f, b)] then p else Smallest(f, b)
  {
    assert (f + [p])[..|f|] == f;
  }

  lemma SearchStep(l: seq<int>, b: Blocks, ints: int, k: int, countDown: int, it: int, mx: int)
    requires 0 <= k < |l| && forall i :: 0 <= i < |l| ==> l[i] in b
    requires Searched(l, b, ints, k, countDown, it, mx) && b[l[k]] < 0x7FFF_FFFF
    ensures var p := l[k];
      if b[p] < ints then Searched(l, b, ints, k + 1, countDown, it, mx)
      else if b[p] < mx then Searched(l, b, ints, k + 1, countDown - 1, p, b[p])
      else Searched(l, b, ints, k + 1, countDown - 1, it, mx)
  {
    hide Fitting, Smallest;
    var f := Fitting(l[..k], b, ints);
    FittingNext(l, b, ints, k);
    if ints <= b[l[k]] {
      SmallestNext(f, b, l[k]);
    } else {
      assert f + [] == f;
    }
  }

  lemma SearchEnd(l: seq<int>, b: Blocks, ints: int, k: int, countDown: int, it: int, mx: int)
    requires 0 <= k <= |l| && forall i :: 0 <= i < |l| ==> l[i] in b
    requires Searched(l, b, ints, k, countDown, it, mx) && 0 <= countDown && (countDown == 0 || k == |l|)
    requires forall i :: 0 <= i < |l| ==> 0 < l[i]
    ensures var c := Candidates(l, b, ints);
      if c == [] then it == 0 else it == Smallest(c, b) && mx == b[it] && 0 < it && it in l && ints <= b[it]
    ensures it == 0 ==> forall h :: h in l ==> b[h] < ints
  {
    FittingOfPrefix(l, k, b, ints);
    if k == |l| { assert l[..k] == l; }
    assert Fitting(l[..k], b, ints) == Candidates(l, b, ints);
    if it == 0 {
      forall h | h in l
        ensures b[h] < ints
      {
        if ints <= b[h] { FittingIsComplete(l, b, ints, h); }
      }
    }
  }

  /** With at most twenty fitting blocks the choice is a best fit over the whole list. */
  lemma TrueBestFit(l: seq<int>, b: Blocks, ints: int, h: int)
    requires forall i :: 0 <= i < |l| ==> l[i] in b
    requires |Fitting(l, b, ints)| <= SEARCH_LIMIT && h in l && ints <= b[h]
    ensures Candidates(l, b, ints) != []
    ensures ints <= b[Smallest(Candidates(l, b, ints), b)] <= b[h]
  {
    FittingIsComplete(l, b, ints, h);
    var i := SmallestIsEarliestMinimum(Fitting(l, b, ints), b);
  }

  lemma NothingYet(l: seq<int>, b: Blocks, ints: int)
    requires forall i :: 0 <= i < |l| ==> l[i] in b
    ensures Fitting(l[..0], b, ints) == []
  {
  }

  /** First fit, the user-side rule: nothing before entry k is large enough. */
  lemma FirstFit(l: seq<int>, b: Blocks, ints: int, k: int)
    requires 0 <= k < |l| && forall i :: 0 <= i < |l| ==> l[i] in b
    requires Fitting(l[..k], b, ints) == []
    ensures b[l[k]] < ints ==> Fitting(l[..k + 1], b, ints) == []
    ensures ints <= b[l[k]] ==> Fitting(l, b, ints) != [] && Fitting(l, b, ints)[0] == l[k]
  {
    assert l[..k + 1][..k] == l[..k];
    FittingOfPrefix(l, k + 1, b, ints);
  }
}
