/** The words of the heap array together with the list head. The same words are read as
    boundary tags, as a doubly linked list threaded through the available blocks, and as
    the payload of the taken ones. */
module FreeList {
  import opened Tiling

  datatype Image = Image(w: seq<int>, avail: int)

  /** Header and footer of block g both hold its signed size. */
  ghost predicate Tagged(w: seq<int>, b: Blocks, g: int)
    requires g in b
  {
    0 <= g && g + 2 <= End(b, g) <= |w| && w[g] == b[g] && w[End(b, g) - 1] == b[g]
  }

  ghost predicate Tags(w: seq<int>, b: Blocks) {
    forall g {:trigger Tagged(w, b, g)} :: g in b ==> Tagged(w, b, g)
  }

  /** Entry k of the list has the right forward and backward links. */
  ghost predicate Linked(w: seq<int>, l: seq<int>, k: int)
    requires 0 <= k < |l|
  {
    && 0 < l[k] && l[k] + 2 < |w|
    && w[l[k] + 1] == (if k + 1 < |l| then l[k + 1] else 0)
    && w[l[k] + 2] == (if 0 < k then l[k - 1] else 0)
  }

  /** The list from avail is l, made of distinct available blocks. */
  ghost predicate Threads(m: Image, b: Blocks, l: seq<int>) {
    && m.avail == (if l == [] then 0 else l[0])
    && (forall k {:trigger Linked(m.w, l, k)} :: 0 <= k < |l| ==> Linked(m.w, l, k))
    && (forall k :: 0 <= k < |l| ==> l[k] in b && 0 < b[l[k]])
    && (forall j, k :: 0 <= j < k < |l| ==> l[j] != l[k])
  }

  ghost predicate Complete(b: Blocks, l: seq<int>) {
    forall h :: h in b && 0 < b[h] ==> h in l
  }

  /** All three readings of the words agree. */
  ghost predicate Represents(m: Image, b: Blocks, l: seq<int>) {
    WellFormed(b, |m.w|) && Tags(m.w, b) && Threads(m, b, l) && Complete(b, l)
  }

  ghost predicate SameBlock(v: seq<int>, w: seq<int>, b: Blocks, g: int)
    requires g in b
  {
    |v| == |w| && 0 <= g && End(b, g) <= |v| && forall x {:trigger w[x]} :: g <= x < End(b, g) ==> v[x] == w[x]
  }

  /** Block g is taken in both tilings with the same extent, and none of its words differs. */
  ghost predicate Kept(v: seq<int>, w: seq<int>, b: Blocks, c: Blocks, g: int)
    requires g in b
  {
    g in c && c[g] == b[g] && SameBlock(v, w, b, g)
  }

  lemma SameTwice(u: seq<int>, v: seq<int>, w: seq<int>, b: Blocks, g: int)
    requires g in b && SameBlock(u, v, b, g) && SameBlock(v, w, b, g)
    ensures SameBlock(u, w, b, g)
  {
    forall x | g <= x < End(b, g) ensures u[x] == w[x] { assert u[x] == v[x]; }
  }

  /** Word x, a tag of some block or any word of a taken one, is not a list link. */
  lemma NotALink(b: Blocks, len: int, l: seq<int>, g: int, x: int)
    requires WellFormed(b, len) && g in b && g <= x < End(b, g)
    requires 0 < b[g] ==> x == g || x == End(b, g) - 1
    requires forall k :: 0 <= k < |l| ==> l[k] in b && 0 < b[l[k]]
    ensures forall k :: 0 <= k < |l| ==> x != l[k] + 1 && x != l[k] + 2
  {
    forall k | 0 <= k < |l|
      ensures x != l[k] + 1 && x != l[k] + 2
    {
      assert Apart(b, g, l[k]) && Fits(b, len, l[k]);
    }
  }

  function Unlink(m: Image, i: int): Image
    requires 0 <= i && i + 2 < |m.w|
    requires m.w[i + 2] != 0 ==> 0 <= m.w[i + 2] && m.w[i + 2] + 1 < |m.w|
    requires m.w[i + 1] != 0 ==> 0 <= m.w[i + 1] && m.w[i + 1] + 2 < |m.w|
  {
    var prev, next := m.w[i + 2], m.w[i + 1];
    var m1 := if prev == 0 then m.(avail := next) else m.(w := m.w[prev + 1 := next]);
    if next == 0 then m1 else m1.(w := m1.w[next + 2 := prev])
  }

  ghost function Without(l: seq<int>, k: int): seq<int>
    requires 0 <= k < |l|
  {
    l[..k] + l[k + 1..]
  }

  lemma StillIn(l: seq<int>, k: int, h: int)
    requires 0 <= k < |l| && h in l && h != l[k]
    ensures h in Without(l, k)
  {
    var j :| 0 <= j < |l| && l[j] == h;
    assert Without(l, k)[if j < k then j else j - 1] == h;
  }

  /** Two entries of the list are at least four words apart, so their links never collide. */
  lemma Spaced(m: Image, b: Blocks, l: seq<int>, j: int, k: int)
    requires WellFormed(b, |m.w|) && Threads(m, b, l) && 0 <= j < |l| && 0 <= k < |l| && j != k
    ensures l[j] + 4 <= l[k] || l[k] + 4 <= l[j]
  {
    assert l[j] != l[k] && Apart(b, l[j], l[k]) && Fits(b, |m.w|, l[j]) && Fits(b, |m.w|, l[k]);
  }

  lemma Neighbours(m: Image, b: Blocks, l: seq<int>, k: int)
    requires WellFormed(b, |m.w|) && Threads(m, b, l) && 0 <= k < |l|
    ensures Linked(m.w, l, k)
    ensures 0 < k ==> Linked(m.w, l, k - 1)
    ensures k + 1 < |l| ==> Linked(m.w, l, k + 1)
  {
  }

  lemma UnlinkEntry(m: Image, b: Blocks, l: seq<int>, k: int, e: int)
    requires WellFormed(b, |m.w|) && Threads(m, b, l) && 0 <= k < |l| && 0 <= e < |l| && e != k
    ensures Linked(m.w, l, k) && (0 < k ==> Linked(m.w, l, k - 1)) && (k + 1 < |l| ==> Linked(m.w, l, k + 1))
    ensures Linked(Unlink(m, l[k]).w, Without(l, k), if e < k then e else e - 1)
  {
    Neighbours(m, b, l, k);
    assert Linked(m.w, l, e);
    if 0 < k && e != k - 1 { Spaced(m, b, l, k - 1, e); }
    if k + 1 < |l| && e != k + 1 { Spaced(m, b, l, k + 1, e); }
  }

  /** remove() takes entry k out of the list and touches nothing but links. */
  lemma UnlinkThreads(m: Image, b: Blocks, l: seq<int>, k: int)
    requires WellFormed(b, |m.w|) && Threads(m, b, l) && 0 <= k < |l|
    ensures Linked(m.w, l, k) && (0 < k ==> Linked(m.w, l, k - 1)) && (k + 1 < |l| ==> Linked(m.w, l, k + 1))
    ensures var n := Unlink(m, l[k]); |n.w| == |m.w| && Threads(n, b, Without(l, k))
  {
    Neighbours(m, b, l, k);
    var n, r := Unlink(m, l[k]), Without(l, k);
    forall j | 0 <= j < |r|
      ensures Linked(n.w, r, j)
    {
      UnlinkEntry(m, b, l, k, if j < k then j else j + 1);
    }
  }

  lemma UnlinkKeeps(m: Image, b: Blocks, l: seq<int>, k: int, g: int)
    requires WellFormed(b, |m.w|) && Threads(m, b, l) && 0 <= k < |l| && g in b
    ensures Linked(m.w, l, k) && (0 < k ==> Linked(m.w, l, k - 1)) && (k + 1 < |l| ==> Linked(m.w, l, k + 1))
    ensures Tagged(m.w, b, g) ==> Tagged(Unlink(m, l[k]).w, b, g)
    ensures b[g] < 0 ==> SameBlock(m.w, Unlink(m, l[k]).w, b, g)
  {
    UnlinkThreads(m, b, l, k);
    assert Fits(b, |m.w|, g);
    var n := Unlink(m, l[k]);
    forall x | g <= x < End(b, g) && (0 < b[g] ==> x == g || x == End(b, g) - 1)
      ensures n.w[x] == m.w[x]
    {
      NotALink(b, |m.w|, l, g, x);
    }
  }

  /** makeAvail(i, ints). */
  function Push(m: Image, i: int, ints: int): Image
    requires 0 <= i && 4 <= ints && i + ints <= |m.w|
    requires m.avail != 0 ==> 0 <= m.avail && m.avail + 2 < |m.w|
  {
    var w := m.w[i := ints][i + ints - 1 := ints][i + 1 := m.avail][i + 2 := 0];
    Image(if m.avail == 0 then w else w[m.avail + 2 := i], i)
  }

  /** makeTaken(i, ints), on the words alone. */
  function Take(w: seq<int>, i: int, ints: int): seq<int>
    requires 0 <= i && 0 < ints && i + ints <= |w|
  {
    w[i := -ints][i + ints - 1 := -ints]
  }

  /** makeAvail puts available block i in front of the list. */
  lemma PushThreads(m: Image, c: Blocks, l: seq<int>, i: int)
    requires WellFormed(c, |m.w|) && Threads(m, c, l) && i in c && 0 < c[i] && i !in l
    ensures Fits(c, |m.w|, i) && 0 < i && 4 <= c[i]
    ensures l != [] ==> Linked(m.w, l, 0)
    ensures var n := Push(m, i, c[i]); |n.w| == |m.w| && Threads(n, c, [i] + l)
  {
    assert Fits(c, |m.w|, i);
    if l != [] { assert Linked(m.w, l, 0); }
    var n, r := Push(m, i, c[i]), [i] + l;
    forall j | 0 <= j < |r|
      ensures Linked(n.w, r, j)
    {
      if 0 < j {
        assert Linked(m.w, l, j - 1);
        assert Apart(c, i, l[j - 1]) && Fits(c, |m.w|, l[j - 1]);
        assert Apart(c, l[0], l[j - 1]) && Fits(c, |m.w|, l[0]);
      } else if l != [] {
        assert Apart(c, i, l[0]) && Fits(c, |m.w|, l[0]);
      }
    }
  }

  lemma PushKeeps(m: Image, c: Blocks, l: seq<int>, i: int, g: int)
    requires WellFormed(c, |m.w|) && Threads(m, c, l) && i in c && 0 < c[i] && i !in l && g in c
    ensures Fits(c, |m.w|, i) && 0 < i && 4 <= c[i]
    ensures l != [] ==> Linked(m.w, l, 0)
    ensures g == i || Tagged(m.w, c, g) ==> Tagged(Push(m, i, c[i]).w, c, g)
    ensures c[g] < 0 ==> SameBlock(m.w, Push(m, i, c[i]).w, c, g)
  {
    PushThreads(m, c, l, i);
    assert Fits(c, |m.w|, g) && Apart(c, g, i);
    var n := Push(m, i, c[i]);
    forall x | g != i && g <= x < End(c, g) && (0 < c[g] ==> x == g || x == End(c, g) - 1)
      ensures n.w[x] == m.w[x]
    {
      NotALink(c, |m.w|, l, g, x);
    }
    if g == i && l != [] { NotALink(c, |m.w|, l, i, i); NotALink(c, |m.w|, l, i, End(c, i) - 1); }
  }

  /** Writing the two tags of a block leaves the links of a list of other blocks alone. */
  lemma TakeKeeps(m: Image, b: Blocks, l: seq<int>, i: int, ints: int)
    requires WellFormed(b, |m.w|) && Threads(m, b, l) && i in b && i !in l
    requires 0 < ints && 0 <= i && i + ints <= End(b, i) <= |m.w|
    ensures Threads(m.(w := Take(m.w, i, ints)), b, l)
    ensures forall g :: g in b && g != i ==> Fits(b, |m.w|, g) && SameBlock(m.w, Take(m.w, i, ints), b, g)
  {
    var n := m.(w := Take(m.w, i, ints));
    forall k | 0 <= k < |l|
      ensures Linked(n.w, l, k)
    {
      assert Linked(m.w, l, k) && Apart(b, i, l[k]) && Fits(b, |m.w|, l[k]);
    }
    forall g | g in b && g != i
      ensures Fits(b, |m.w|, g) && SameBlock(m.w, n.w, b, g)
    {
      assert Fits(b, |m.w|, g) && Apart(b, i, g);
    }
  }

  /** The list stays a list when only blocks outside it change status. */
  lemma Rethread(m: Image, b: Blocks, c: Blocks, l: seq<int>)
    requires Threads(m, b, l)
    requires forall k :: 0 <= k < |l| ==> l[k] in c && c[l[k]] == b[l[k]]
    ensures Threads(m, c, l)
  {
  }

  function Granted(b: Blocks, h: int, ints: int): int
    requires h in b
  {
    if 4 <= b[h] - ints then ints else b[h]
  }

  /** remove(it) followed by makeTaken(it, size): one block leaves the list and is taken. */
  ghost predicate Taking(m: Image, b: Blocks, l: seq<int>, k: int, ints: int, m1: Image, n: Image) {
    && WellFormed(b, |m.w|) && Tags(m.w, b) && Threads(m, b, l)
    && 0 <= k < |l| && l[k] in b && l[k] !in Without(l, k) && 4 <= ints <= b[l[k]]
    && Linked(m.w, l, k) && (0 < k ==> Linked(m.w, l, k - 1)) && (k + 1 < |l| ==> Linked(m.w, l, k + 1))
    && m1 == Unlink(m, l[k])
    && |m1.w| == |m.w| == |n.w| && Threads(m1, b, Without(l, k))
    && 0 <= l[k] && l[k] + b[l[k]] <= |m.w|
    && n == m1.(w := Take(m1.w, l[k], Granted(b, l[k], ints)))
  }

  lemma TakingThreads(m: Image, b: Blocks, l: seq<int>, k: int, ints: int, m1: Image, n: Image)
    requires Taking(m, b, l, k, ints, m1, n)
    ensures var c := Alloc(b, l[k], ints);
      WellFormed(c, |n.w|) && Threads(n, c, Without(l, k)) && Tagged(n.w, c, l[k])
    ensures 4 <= b[l[k]] - ints ==> l[k] + ints !in Without(l, k)
  {
    hide Linked, Alloc, Take, Unlink, Fits, WellFormed;
    var it, l1, c := l[k], Without(l, k), Alloc(b, l[k], ints);
    TakeKeeps(m1, b, l1, it, Granted(b, it, ints));
    AllocKeepsTiling(b, |m.w|, it, ints);
    AllocBlocks(b, |m.w|, it, ints, it);
    forall j | 0 <= j < |l1| ensures l1[j] in c && c[l1[j]] == b[l1[j]] { AllocBlocks(b, |m.w|, it, ints, l1[j]); }
    assert Threads(n, b, l1);
    Rethread(n, b, c, l1);
    TakenTags(m1, b, it, ints, n.w);
  }

  lemma TakenTags(m: Image, b: Blocks, it: int, ints: int, v: seq<int>)
    requires it in b && 4 <= ints <= b[it] && 0 <= it && it + b[it] <= |m.w|
    requires v == Take(m.w, it, Granted(b, it, ints))
    ensures it in Alloc(b, it, ints) && Tagged(v, Alloc(b, it, ints), it)
  {
  }

  lemma TakingKeeps(m: Image, b: Blocks, l: seq<int>, k: int, ints: int, m1: Image, n: Image, g: int)
    requires Taking(m, b, l, k, ints, m1, n) && g in b && g != l[k]
    ensures Tagged(n.w, b, g) && (b[g] < 0 ==> SameBlock(m.w, n.w, b, g))
  {
    hide Threads, WellFormed;
    assert Tagged(m.w, b, g);
    assert Tagged(m1.w, b, g) && (b[g] < 0 ==> SameBlock(m.w, m1.w, b, g)) by { UnlinkKeeps(m, b, l, k, g); }
    assert SameBlock(m1.w, n.w, b, g) by { TakeKeeps(m1, b, Without(l, k), l[k], Granted(b, l[k], ints)); }
    SameTags(m1.w, n.w, b, g);
    if b[g] < 0 { SameTwice(m.w, m1.w, n.w, b, g); }
  }

  lemma TakingComplete(m: Image, b: Blocks, l: seq<int>, k: int, ints: int, m1: Image, n: Image, h: int)
    requires Taking(m, b, l, k, ints, m1, n) && Complete(b, l)
    requires h in Alloc(b, l[k], ints) && 0 < Alloc(b, l[k], ints)[h]
    ensures h in Without(l, k) || (4 <= b[l[k]] - ints && h == l[k] + ints)
  {
    hide Threads, Tags, Alloc, Linked, Unlink, Take, WellFormed;
    AllocBlocks(b, |m.w|, l[k], ints, h);
    if h in b { StillIn(l, k, h); }
  }

  /** What an entry of the list looks like in the words. */
  lemma Entry(m: Image, b: Blocks, l: seq<int>, k: int)
    requires Represents(m, b, l) && 0 <= k < |l|
    ensures l[k] in b && 0 < l[k] && l[k] + b[l[k]] < |m.w| && 4 <= b[l[k]] == m.w[l[k]]
    ensures m.w[l[k] + 1] == if k + 1 < |l| then l[k + 1] else 0
  {
    assert Linked(m.w, l, k) && Tagged(m.w, b, l[k]) && Fits(b, |m.w|, l[k]) && Apart(b, l[k], |m.w| - 2);
  }

  /** remove() may be called on entry k, and the next makeTaken() finds its block as before. */
  lemma ReadyToTake(m: Image, b: Blocks, l: seq<int>, k: int, ints: int)
    requires Represents(m, b, l) && 0 <= k < |l| && 4 <= ints
    requires l[k] in b && ints <= b[l[k]]
    ensures 0 < l[k] && l[k] + 2 < |m.w| && Complete(b, l)
    ensures var next, prev := m.w[l[k] + 1], m.w[l[k] + 2];
      (prev != 0 ==> 0 <= prev && prev + 1 < |m.w|) && (next != 0 ==> 0 <= next && next + 2 < |m.w|)
    ensures var m1 := Unlink(m, l[k]);
      && 0 <= l[k] && l[k] + b[l[k]] <= |m1.w|
      && Taking(m, b, l, k, ints, m1, m1.(w := Take(m1.w, l[k], Granted(b, l[k], ints))))
  {
    UnlinkThreads(m, b, l, k);
    Entry(m, b, l, k);
  }

  /** The whole block was given away: nothing left to put back. */
  lemma AllocWhole(m: Image, b: Blocks, l: seq<int>, k: int, ints: int, m1: Image, n: Image)
    requires Taking(m, b, l, k, ints, m1, n) && Complete(b, l) && b[l[k]] - ints < 4
    ensures Represents(n, Alloc(b, l[k], ints), Without(l, k))
    ensures forall g :: g in b && b[g] < 0 ==> Kept(m.w, n.w, b, Alloc(b, l[k], ints), g)
  {
    hide Threads, WellFormed, Alloc, SameBlock, Linked, Unlink, Take;
    var c := Alloc(b, l[k], ints);
    TakingThreads(m, b, l, k, ints, m1, n);
    forall g ensures g in c ==> Tagged(n.w, c, g) {
      AllocBlocks(b, |m.w|, l[k], ints, g);
      if g in c && g != l[k] { TakingKeeps(m, b, l, k, ints, m1, n, g); }
    }
    forall g | g in b && b[g] < 0 ensures Kept(m.w, n.w, b, c, g) {
      AllocBlocks(b, |m.w|, l[k], ints, g);
      TakingKeeps(m, b, l, k, ints, m1, n, g);
    }
    forall h | h in c && 0 < c[h] ensures h in Without(l, k) {
      TakingComplete(m, b, l, k, ints, m1, n, h);
    }
  }

  lemma SplitKeeps(m: Image, b: Blocks, l: seq<int>, k: int, ints: int, m1: Image, n: Image, g: int)
    requires Taking(m, b, l, k, ints, m1, n) && 4 <= b[l[k]] - ints
    requires n.avail != 0 ==> 0 <= n.avail && n.avail + 2 < |n.w|
    requires g in Alloc(b, l[k], ints)
    ensures var c, p := Alloc(b, l[k], ints), Push(n, l[k] + ints, b[l[k]] - ints);
      Tagged(p.w, c, g) && (g in b && b[g] < 0 ==> Kept(m.w, p.w, b, c, g))
  {
    hide Threads, WellFormed, Alloc, Linked, Push, Take;
    var it, l1, c := l[k], Without(l, k), Alloc(b, l[k], ints);
    TakingThreads(m, b, l, k, ints, m1, n);
    AllocBlocks(b, |m.w|, it, ints, g);
    var p := Push(n, it + ints, b[it] - ints);
    if g in b && g != it { TakingKeeps(m, b, l, k, ints, m1, n, g); }
    assert Tagged(n.w, c, g) || g == it + ints;
    assert Tagged(p.w, c, g) && (c[g] < 0 ==> SameBlock(n.w, p.w, c, g)) by { PushKeeps(n, c, l1, it + ints, g); }
    if g in b && b[g] < 0 { SameTwice(m.w, n.w, p.w, b, g); }
  }

  /** The rest of the block goes back in front of the list. */
  lemma AllocSplit(m: Image, b: Blocks, l: seq<int>, k: int, ints: int, m1: Image, n: Image)
    requires Taking(m, b, l, k, ints, m1, n) && Complete(b, l) && 4 <= b[l[k]] - ints
    ensures n.avail != 0 ==> 0 <= n.avail && n.avail + 2 < |n.w|
    ensures var it, c, p := l[k], Alloc(b, l[k], ints), Push(n, l[k] + ints, b[l[k]] - ints);
      && Represents(p, c, [it + ints] + Without(l, k))
      && (forall g :: g in b && b[g] < 0 ==> Kept(m.w, p.w, b, c, g))
  {
    hide Threads, WellFormed, Alloc, Linked, Push, Take, Unlink, Tagged, Kept;
    var it, l1, c := l[k], Without(l, k), Alloc(b, l[k], ints);
    TakingThreads(m, b, l, k, ints, m1, n);
    AllocBlocks(b, |m.w|, it, ints, it);
    ListHead(n, c, l1);
    PushThreads(n, c, l1, it + ints);
    var p := Push(n, it + ints, b[it] - ints);
    forall g | g in c
      ensures Tagged(p.w, c, g) && (g in b && b[g] < 0 ==> Kept(m.w, p.w, b, c, g))
    {
      SplitKeeps(m, b, l, k, ints, m1, n, g);
    }
    forall g | g in b && b[g] < 0 ensures Kept(m.w, p.w, b, c, g) { AllocBlocks(b, |m.w|, it, ints, g); }
    forall h | h in c && 0 < c[h] ensures h in [it + ints] + l1 {
      TakingComplete(m, b, l, k, ints, m1, n, h);
    }
  }

  /** The three writes of heapInit. */
  lemma InitialImage(w: seq<int>)
    requires 8 <= |w|
    ensures var m := Push(Image(Take(w, 0, 2), 0), 2, |w| - 4);
      Represents(m.(w := Take(m.w, |w| - 2, 2)), Initial(|w|), [2])
  {
    hide WellFormed;
    InitialIsWellFormed(|w|);
    var m := Push(Image(Take(w, 0, 2), 0), 2, |w| - 4);
    var v, b := Take(m.w, |w| - 2, 2), Initial(|w|);
    assert Tagged(v, b, 0) && Tagged(v, b, 2) && Tagged(v, b, |w| - 2) && Linked(v, [2], 0);
  }

  lemma ListStart(m: Image, b: Blocks, l: seq<int>)
    requires Represents(m, b, l)
    ensures m.avail == if l == [] then 0 else l[0]
    ensures forall k :: 0 <= k < |l| ==> l[k] in b && 0 < l[k]
  {
    forall k | 0 <= k < |l| ensures 0 < l[k] { Entry(m, b, l, k); }
  }

  lemma ListHead(m: Image, b: Blocks, l: seq<int>)
    requires Threads(m, b, l)
    ensures m.avail == 0 <==> l == []
    ensures m.avail != 0 ==> 0 <= m.avail && m.avail + 2 < |m.w|
  {
    if l != [] { assert Linked(m.w, l, 0); }
  }

  lemma SameTags(v: seq<int>, w: seq<int>, b: Blocks, g: int)
    requires g in b && SameBlock(v, w, b, g) && Tagged(v, b, g)
    ensures Tagged(w, b, g)
  {
  }

  /** A heap from whose list some available blocks have been removed: the tags still tile,
      and the taken blocks are those of the words w. */
  ghost predicate Slimmed(w: seq<int>, m: Image, b: Blocks, l: seq<int>) {
    && |w| == |m.w| && WellFormed(b, |w|) && Tags(m.w, b) && Threads(m, b, l)
    && (forall g {:trigger SameBlock(w, m.w, b, g)} :: g in b && b[g] < 0 ==> SameBlock(w, m.w, b, g))
  }

  lemma SlimmedFromStart(m: Image, b: Blocks, l: seq<int>)
    requires Represents(m, b, l)
    ensures Slimmed(m.w, m, b, l)
  {
    forall g | g in b ensures SameBlock(m.w, m.w, b, g) { assert Tagged(m.w, b, g); }
  }

  /** remove() on one more available block. */
  lemma SlimStep(w: seq<int>, m: Image, b: Blocks, l: seq<int>, k: int)
    requires Slimmed(w, m, b, l) && 0 <= k < |l|
    ensures 0 < l[k] && l[k] + 2 < |m.w|
    ensures var next, prev := m.w[l[k] + 1], m.w[l[k] + 2];
      (prev != 0 ==> 0 <= prev && prev + 1 < |m.w|) && (next != 0 ==> 0 <= next && next + 2 < |m.w|)
    ensures Slimmed(w, Unlink(m, l[k]), b, Without(l, k))
  {
    hide WellFormed, Unlink;
    UnlinkThreads(m, b, l, k);
    var n := Unlink(m, l[k]);
    forall g | g in b
      ensures Tagged(n.w, b, g) && (b[g] < 0 ==> SameBlock(w, n.w, b, g))
    {
      assert Tagged(m.w, b, g);
      UnlinkKeeps(m, b, l, k, g);
      if b[g] < 0 { SameTwice(w, m.w, n.w, b, g); }
    }
  }

  /** Taking blocks off the list changes no tag. */
  lemma SlimmedTags(w: seq<int>, m: Image, b: Blocks, l: seq<int>, g: int)
    requires Slimmed(w, m, b, l) && g in b
    ensures 0 <= g < |w| && m.w[g] == b[g]
  {
    assert Tagged(m.w, b, g);
  }

  /** What free() reads around block h: its own header, and its neighbours' through the
      footer before it and its own size. */
  lemma ReadNeighbours(m: Image, b: Blocks, l: seq<int>, h: int)
    requires Represents(m, b, l) && h in b && 0 < h < |m.w| - 2
    ensures m.w[h] == b[h] && (h in Live(b, |m.w|) <==> m.w[h] < 0)
    ensures var left, right := LeftOf(b, |m.w|, h), End(b, h);
      && left == h - Abs(m.w[h - 1]) && right == h + Abs(m.w[h])
      && 0 <= left < h < right < |m.w| && left in b && right in b && m.w[left] == b[left] && m.w[right] == b[right]
      && (0 < b[left] ==> left in l) && (0 < b[right] ==> right in l)
  {
    var left := LeftOf(b, |m.w|, h);
    RightNeighbour(b, |m.w|, h);
    assert Tagged(m.w, b, h) && Tagged(m.w, b, left) && Tagged(m.w, b, End(b, h));
  }

  /** Every available block but the neighbours of h is in the list, and they are not. */
  ghost predicate BesideOnly(b: Blocks, len: int, l: seq<int>, h: int)
    requires WellFormed(b, len) && h in Live(b, len)
  {
    forall x {:trigger x in l} :: x in b && 0 < b[x] ==> (x in l <==> x != LeftOf(b, len, h) && x != End(b, h))
  }

  /** l is l0 without entry k when there is one to take out. */
  ghost predicate Dropped(l0: seq<int>, k: int, l: seq<int>, drop: bool, h: int) {
    if drop then 0 <= k < |l0| && l0[k] == h && l == Without(l0, k) else l == l0
  }

  lemma BesideAfterDrops(m: Image, b: Blocks, l0: seq<int>, l1: seq<int>, l2: seq<int>, h: int, k1: int, k2: int)
    requires Represents(m, b, l0) && h in Live(b, |m.w|) && End(b, h) in b
    requires Dropped(l0, k1, l1, 0 < b[LeftOf(b, |m.w|, h)], LeftOf(b, |m.w|, h))
    requires Dropped(l1, k2, l2, 0 < b[End(b, h)], End(b, h))
    ensures BesideOnly(b, |m.w|, l2, h)
  {
    hide Linked, LeftOf, End, WellFormed;
    var left, right := LeftOf(b, |m.w|, h), End(b, h);
    assert 0 < b[left] ==> left !in l1;
    assert 0 < b[right] ==> right !in l2;
    forall x | x in b && 0 < b[x]
      ensures x in l2 <==> x != left && x != right
    {
      if x != left && 0 < b[left] { StillIn(l0, k1, x); }
      if x != left && x != right && 0 < b[right] { StillIn(l1, k2, x); }
    }
  }

  lemma MergedThreads(m: Image, b: Blocks, l: seq<int>, h: int)
    requires WellFormed(b, |m.w|) && Threads(m, b, l) && h in Live(b, |m.w|) && BesideOnly(b, |m.w|, l, h)
    ensures var c, start := Release(b, |m.w|, h), MergedStart(b, |m.w|, h);
      WellFormed(c, |m.w|) && Threads(m, c, l) && start in c && 0 < c[start] && start !in l
  {
    var len := |m.w|;
    ReleaseKeepsTiling(b, len, h);
    MergedBlock(b, len, h);
    var c := Release(b, len, h);
    forall k | 0 <= k < |l|
      ensures l[k] in c && c[l[k]] == b[l[k]] && l[k] != MergedStart(b, len, h)
    {
      assert l[k] in l;
      OtherBlock(b, len, h, l[k]);
    }
    Rethread(m, b, c, l);
  }

  lemma MergedKeeps(w: seq<int>, m: Image, b: Blocks, l: seq<int>, h: int, g: int)
    requires Slimmed(w, m, b, l) && h in Live(b, |w|) && BesideOnly(b, |w|, l, h)
    ensures var c, start := Release(b, |w|, h), MergedStart(b, |w|, h);
      && start in c && 0 <= start && 4 <= c[start] && start + c[start] <= |m.w|
      && (m.avail != 0 ==> 0 <= m.avail && m.avail + 2 < |m.w|)
      && (g in c ==> Tagged(Push(m, start, c[start]).w, c, g))
      && (g in b && b[g] < 0 && g != h ==> Kept(w, Push(m, start, c[start]).w, b, c, g))
  {
    hide Threads, Push;
    var c, start := Release(b, |w|, h), MergedStart(b, |w|, h);
    MergedThreads(m, b, l, h);
    MergedBlock(b, |w|, h);
    PushThreads(m, c, l, start);
    var p := Push(m, start, c[start]);
    if g in b {
      OtherBlock(b, |w|, h, g);
      assert Tagged(m.w, b, g);
      if b[g] < 0 { assert SameBlock(w, m.w, b, g); }
    }
    if g in c {
      PushKeeps(m, c, l, start, g);
      if g != start && b[g] < 0 && g != h { SameTwice(w, m.w, p.w, b, g); }
    }
  }

  /** free(): the merged block goes in front of the list. */
  lemma ReleaseImage(w: seq<int>, m: Image, b: Blocks, l: seq<int>, h: int)
    requires Slimmed(w, m, b, l) && h in Live(b, |w|) && BesideOnly(b, |w|, l, h)
    ensures var c, start := Release(b, |w|, h), MergedStart(b, |w|, h);
      && start in c && 0 <= start && 4 <= c[start] && start + c[start] <= |m.w|
      && (m.avail != 0 ==> 0 <= m.avail && m.avail + 2 < |m.w|)
      && Represents(Push(m, start, c[start]), c, [start] + l)
      && (forall g :: g in b && b[g] < 0 && g != h ==> Kept(w, Push(m, start, c[start]).w, b, c, g))
  {
    hide Threads, Push;
    var c, start := Release(b, |w|, h), MergedStart(b, |w|, h);
    MergedThreads(m, b, l, h);
    MergedBlock(b, |w|, h);
    PushThreads(m, c, l, start);
    forall g ensures g in c ==> Tagged(Push(m, start, c[start]).w, c, g) { MergedKeeps(w, m, b, l, h, g); }
    forall g ensures g in b && b[g] < 0 && g != h ==> Kept(w, Push(m, start, c[start]).w, b, c, g) {
      MergedKeeps(w, m, b, l, h, g);
    }
    forall x | x in c && 0 < c[x] && x != start
      ensures x in l
    {
      OtherBlock(b, |w|, h, x);
    }
  }
}
