/** The boundary-tag heap seen as a tiling: a map from the header index of every block
    to its signed size in words, positive for an available block and negative for a
    taken one (the value the source keeps in both the header and the footer). */
module Tiling {

  type Blocks = map<int, int>

  function Abs(x: int): (n: nat) {
    if x < 0 then -x else x
  }

  function End(b: Blocks, h: int): int
    requires h in b
  {
    h + Abs(b[h])
  }

  /** One block lies inside the array, is large enough (two words for a sentinel; a header,
      two list links and a footer otherwise), ends where the next one starts, and is not
      available next to another available one. */
  ghost predicate Fits(b: Blocks, len: int, h: int)
    requires h in b
  {
    && 0 <= h && h + 2 <= End(b, h) <= len
    && (h != 0 && h != len - 2 ==> h + 4 <= End(b, h))
    && (End(b, h) != len ==> End(b, h) in b && (0 < b[h] ==> b[End(b, h)] < 0))
  }

  ghost predicate Apart(b: Blocks, g: int, h: int)
    requires g in b && h in b
  {
    (g < h ==> End(b, g) <= h) && (h < g ==> End(b, h) <= g)
  }

  /** Taken sentinels at both ends, every block fitting, no two blocks overlapping. */
  ghost predicate WellFormed(b: Blocks, len: int) {
    && 8 <= len
    && 0 in b && b[0] == -2 && len - 2 in b && b[len - 2] == -2
    && (forall h {:trigger Fits(b, len, h)} :: h in b ==> Fits(b, len, h))
    && (forall g, h {:trigger Apart(b, g, h)} :: g in b && h in b ==> Apart(b, g, h))
  }

  /** The blocks handed out by malloc: the taken ones between the sentinels. */
  ghost function Live(b: Blocks, len: int): set<int> {
    set h | h in b && b[h] < 0 && h != 0 && h != len - 2
  }

  /** The tiling right after heapInit. */
  function Initial(len: int): Blocks
    requires 8 <= len
  {
    map[0 := -2, 2 := len - 4, len - 2 := -2]
  }

  lemma InitialIsWellFormed(len: int)
    requires 8 <= len
    ensures WellFormed(Initial(len), len) && Live(Initial(len), len) == {}
  {
  }

  /** Every word of the array lies in a block. */
  lemma BlockAt(b: Blocks, len: int, w: int) returns (h: int)
    requires WellFormed(b, len) && 0 <= w < len
    ensures h in b && h <= w < End(b, h)
  {
    h := 0;
    while End(b, h) <= w
      invariant h in b && h <= w
      decreases len - h
    {
      assert Fits(b, len, h);
      h := End(b, h);
    }
  }

  /** The blocks tile the array exactly: each word lies in one and only one block. */
  lemma TilesExactly(b: Blocks, len: int, w: int)
    requires WellFormed(b, len) && 0 <= w < len
    ensures exists h :: h in b && h <= w < End(b, h)
    ensures forall g, h :: g in b && h in b && g <= w < End(b, g) && h <= w < End(b, h) ==> g == h
  {
    var h := BlockAt(b, len, w);
    forall f, g | f in b && g in b && f <= w < End(b, f) && g <= w < End(b, g)
      ensures f == g
    {
      assert Apart(b, f, g);
    }
  }

  /** No two adjacent blocks are both available. */
  lemma NeverAdjacentAvailable(b: Blocks, len: int, g: int, h: int)
    requires WellFormed(b, len) && g in b && h in b && End(b, g) == h
    ensures b[g] < 0 || b[h] < 0
  {
    assert Fits(b, len, g) && Fits(b, len, h);
  }

  /** Every block but the last has a right neighbour. */
  lemma RightNeighbour(b: Blocks, len: int, h: int)
    requires WellFormed(b, len) && h in b && h != len - 2
    ensures Fits(b, len, h) && End(b, h) in b && h < End(b, h) <= len - 2 && b[h] != 0
  {
    assert Fits(b, len, h) && Apart(b, h, len - 2);
  }

  ghost predicate EndsAt(b: Blocks, g: int, h: int) {
    g in b && End(b, g) == h
  }

  /** Every block but the first has a left neighbour, and only one. */
  lemma LeftNeighbour(b: Blocks, len: int, h: int)
    requires WellFormed(b, len) && h in b && h != 0
    ensures exists g :: EndsAt(b, g, h)
    ensures forall f, g :: EndsAt(b, f, h) && EndsAt(b, g, h) ==> f == g
  {
    assert Fits(b, len, h);
    var g := BlockAt(b, len, h - 1);
    assert Apart(b, g, h);
    assert EndsAt(b, g, h);
    forall e, f | EndsAt(b, e, h) && EndsAt(b, f, h)
      ensures e == f
    {
      assert Apart(b, e, f) && Fits(b, len, e) && Fits(b, len, f);
    }
  }

  ghost function LeftOf(b: Blocks, len: int, h: int): (g: int)
    requires WellFormed(b, len) && h in b && h != 0
    ensures EndsAt(b, g, h)
  {
    LeftNeighbour(b, len, h);
    var g :| EndsAt(b, g, h);
    g
  }

  /** Hand out available block h for a request of ints words: split when at least four
      words would be left over, give away the whole block otherwise. */
  function Alloc(b: Blocks, h: int, ints: int): Blocks
    requires h in b
  {
    if 4 <= b[h] - ints then b[h := -ints][h + ints := b[h] - ints] else b[h := -b[h]]
  }

  lemma SplitPointIsFresh(b: Blocks, len: int, h: int, ints: int)
    requires WellFormed(b, len) && h in b && 0 < ints < b[h]
    ensures h + ints !in b
  {
    forall g | g in b ensures g != h + ints { assert Apart(b, h, g); }
  }

  /** The blocks after Alloc: the old ones, and the rest of block h when it was split. */
  lemma AllocBlocks(b: Blocks, len: int, h: int, ints: int, g: int)
    requires WellFormed(b, len) && h in b && 4 <= ints <= b[h]
    ensures h in Alloc(b, h, ints) && Alloc(b, h, ints)[h] < 0
    ensures g in b && g != h ==> g in Alloc(b, h, ints) && Alloc(b, h, ints)[g] == b[g]
    ensures g in Alloc(b, h, ints) && g !in b ==> 4 <= b[h] - ints && g == h + ints
    ensures 4 <= b[h] - ints ==> h + ints !in b && h + ints in Alloc(b, h, ints) && Alloc(b, h, ints)[h + ints] == b[h] - ints
  {
    if 4 <= b[h] - ints { SplitPointIsFresh(b, len, h, ints); }
  }

  lemma AllocFits(b: Blocks, len: int, h: int, ints: int, g: int)
    requires WellFormed(b, len) && h in b && 4 <= ints <= b[h]
    requires g in Alloc(b, h, ints)
    ensures Fits(Alloc(b, h, ints), len, g)
  {
    assert Fits(b, len, h);
    if g in b { assert Fits(b, len, g) && Apart(b, g, h); }
    if 4 <= b[h] - ints { SplitPointIsFresh(b, len, h, ints); }
  }

  lemma AllocApart(b: Blocks, len: int, h: int, ints: int, f: int, g: int)
    requires WellFormed(b, len) && h in b && 4 <= ints <= b[h]
    requires f in Alloc(b, h, ints) && g in Alloc(b, h, ints)
    ensures Apart(Alloc(b, h, ints), f, g)
  {
    if 4 <= b[h] - ints { SplitPointIsFresh(b, len, h, ints); }
    if f in b { assert Apart(b, f, h); }
    if g in b { assert Apart(b, g, h); }
    if f in b && g in b { assert Apart(b, f, g); }
  }

  lemma AllocKeepsTiling(b: Blocks, len: int, h: int, ints: int)
    requires WellFormed(b, len) && h in b && 4 <= ints <= b[h]
    ensures WellFormed(Alloc(b, h, ints), len)
    ensures Live(Alloc(b, h, ints), len) == Live(b, len) + {h}
  {
    var c := Alloc(b, h, ints);
    if 4 <= b[h] - ints { SplitPointIsFresh(b, len, h, ints); }
    forall g | g in c ensures Fits(c, len, g) { AllocFits(b, len, h, ints, g); }
    forall f, g | f in c && g in c ensures Apart(c, f, g) { AllocApart(b, len, h, ints, f, g); }
  }

  /** Give back taken block h, merged with whichever neighbours are available. */
  ghost function Release(b: Blocks, len: int, h: int): Blocks
    requires WellFormed(b, len) && h in Live(b, len)
  {
    RightNeighbour(b, len, h);
    var l, r := LeftOf(b, len, h), End(b, h);
    var start := if 0 < b[l] then l else h;
    var size := -b[h] + (if 0 < b[l] then b[l] else 0) + (if 0 < b[r] then b[r] else 0);
    var kept := b - {h} - (if 0 < b[r] then {r} else {});
    kept[start := size]
  }

  /** Where the block that Release builds starts and stops. */
  ghost function MergedStart(b: Blocks, len: int, h: int): int
    requires WellFormed(b, len) && h in Live(b, len)
  {
    if 0 < b[LeftOf(b, len, h)] then LeftOf(b, len, h) else h
  }

  ghost function MergedStop(b: Blocks, len: int, h: int): int
    requires WellFormed(b, len) && h in Live(b, len)
  {
    RightNeighbour(b, len, h);
    if 0 < b[End(b, h)] then End(b, End(b, h)) else End(b, h)
  }

  lemma MergedBlock(b: Blocks, len: int, h: int)
    requires WellFormed(b, len) && h in Live(b, len)
    ensures var c, start, stop := Release(b, len, h), MergedStart(b, len, h), MergedStop(b, len, h);
      start in c && c[start] == stop - start && 0 < start && start + 4 <= stop < len && stop in b && b[stop] < 0
  {
    var l, r := LeftOf(b, len, h), End(b, h);
    RightNeighbour(b, len, h);
    RightNeighbour(b, len, l);
    assert Fits(b, len, r);
    if 0 < b[r] { RightNeighbour(b, len, r); }
  }

  lemma MergedSize(b: Blocks, len: int, h: int)
    requires WellFormed(b, len) && h in Live(b, len)
    ensures End(b, h) in b
    ensures MergedStart(b, len, h) in Release(b, len, h)
    ensures var l, r := LeftOf(b, len, h), End(b, h);
      && MergedStart(b, len, h) == (if 0 < b[l] then l else h)
      && Release(b, len, h)[MergedStart(b, len, h)]
         == Abs(b[h]) + (if 0 < b[l] then Abs(b[l]) else 0) + (if 0 < b[r] then Abs(b[r]) else 0)
  {
    RightNeighbour(b, len, h);
  }

  lemma OtherBlock(b: Blocks, len: int, h: int, g: int)
    requires WellFormed(b, len) && h in Live(b, len) && g in b
    ensures var c, start, stop := Release(b, len, h), MergedStart(b, len, h), MergedStop(b, len, h);
      && (g in c && g != start ==> c[g] == b[g] && (End(b, g) <= start || stop <= g))
      && (g < start || stop <= g ==> g in c)
      && (g < start && End(b, g) == start ==> b[g] < 0)
      && (start <= g < stop ==> g == h || (0 < b[g] && (g == LeftOf(b, len, h) || g == End(b, h))))
  {
    var l, r := LeftOf(b, len, h), End(b, h);
    MergedBlock(b, len, h);
    RightNeighbour(b, len, h);
    assert Fits(b, len, g) && Fits(b, len, l) && Fits(b, len, r);
    assert Apart(b, g, l) && Apart(b, g, h) && Apart(b, g, r) && Apart(b, g, MergedStop(b, len, h));
  }

  lemma ReleaseFits(b: Blocks, len: int, h: int, g: int)
    requires WellFormed(b, len) && h in Live(b, len) && g in Release(b, len, h)
    ensures Fits(Release(b, len, h), len, g)
  {
    var c, start, stop := Release(b, len, h), MergedStart(b, len, h), MergedStop(b, len, h);
    MergedBlock(b, len, h);
    OtherBlock(b, len, h, stop);
    OtherBlock(b, len, h, g);
    assert Fits(b, len, g);
    if g != start && End(b, g) != len { OtherBlock(b, len, h, End(b, g)); }
  }

  lemma ReleaseApart(b: Blocks, len: int, h: int, f: int, g: int)
    requires WellFormed(b, len) && h in Live(b, len)
    requires f in Release(b, len, h) && g in Release(b, len, h)
    ensures Apart(Release(b, len, h), f, g)
  {
    MergedBlock(b, len, h);
    OtherBlock(b, len, h, f);
    OtherBlock(b, len, h, g);
    assert Apart(b, f, g);
  }

  lemma ReleaseKeepsTiling(b: Blocks, len: int, h: int)
    requires WellFormed(b, len) && h in Live(b, len)
    ensures WellFormed(Release(b, len, h), len)
    ensures Live(Release(b, len, h), len) == Live(b, len) - {h}
  {
    var c := Release(b, len, h);
    MergedBlock(b, len, h);
    OtherBlock(b, len, h, 0);
    OtherBlock(b, len, h, len - 2);
    forall g | g in c ensures Fits(c, len, g) { ReleaseFits(b, len, h, g); }
    forall f, g | f in c && g in c ensures Apart(c, f, g) { ReleaseApart(b, len, h, f, g); }
    forall g | g in b ensures g in Live(c, len) <==> g in Live(b, len) - {h} { OtherBlock(b, len, h, g); }
  }

  /** malloc followed by free of its result restores the tiling exactly. */
  lemma ReleaseUndoesAlloc(b: Blocks, len: int, h: int, ints: int)
    requires WellFormed(b, len) && h in b && 4 <= ints <= b[h]
    ensures WellFormed(Alloc(b, h, ints), len) && h in Live(Alloc(b, h, ints), len)
    ensures Release(Alloc(b, h, ints), len, h) == b
  {
    AllocKeepsTiling(b, len, h, ints);
    var c := Alloc(b, h, ints);
    var l := LeftOf(c, len, h);
    RightNeighbour(b, len, h);
    assert Fits(c, len, l) && Apart(c, l, h);
    assert l in b && b[l] == c[l] && Fits(b, len, l);
    if 4 <= b[h] - ints { SplitPointIsFresh(b, len, h, ints); }
  }

  ghost predicate EachLiveOnce(b: Blocks, len: int, order: seq<int>) {
    && (forall i :: 0 <= i < |order| ==> order[i] in Live(b, len))
    && (forall i, j :: 0 <= i < j < |order| ==> order[i] != order[j])
  }

  /** The tiling after freeing the given blocks one by one. */
  ghost function ReleaseAll(b: Blocks, len: int, order: seq<int>): Blocks
    requires WellFormed(b, len) && EachLiveOnce(b, len, order)
    decreases |order|
  {
    if order == [] then b
    else
      ReleaseKeepsTiling(b, len, order[0]);
      ReleaseAll(Release(b, len, order[0]), len, order[1..])
  }

  /** Freeing every live block, in whatever order, leaves the single block of heapInit. */
  lemma {:induction false} FreeingAllRestoresInitial(b: Blocks, len: int, order: seq<int>)
    requires WellFormed(b, len) && EachLiveOnce(b, len, order)
    requires forall h :: h in Live(b, len) ==> h in order
    ensures ReleaseAll(b, len, order) == Initial(len)
    decreases |order|
  {
    if order == [] {
      NothingLive(b, len);
    } else {
      ReleaseKeepsTiling(b, len, order[0]);
      FreeingAllRestoresInitial(Release(b, len, order[0]), len, order[1..]);
    }
  }

  lemma NothingLive(b: Blocks, len: int)
    requires WellFormed(b, len) && Live(b, len) == {}
    ensures b == Initial(len)
  {
    RightNeighbour(b, len, 0);
    RightNeighbour(b, len, 2);
    if End(b, 2) != len - 2 { RightNeighbour(b, len, End(b, 2)); }
    assert 2 !in Live(b, len) && End(b, 2) !in Live(b, len);
    forall h | h in b
      ensures h == 0 || h == 2 || h == len - 2
    {
      assert Fits(b, len, h) && Apart(b, h, 0) && Apart(b, h, 2) && Apart(b, h, len - 2);
    }
    assert b.Keys == {0, 2, len - 2};
  }
}
