/** The kernel heap (kernel/heap.cc) and its user-side copy (t0.dir/sbin/heap.c), as a
    class over the array they rewrite in place. A pointer is a byte address: word i of
    the array lives at base + 4 * i, and 0 is the null pointer. */
module HeapModule {
  import opened Tiling
  import opened FreeList
  import opened BestFit

  const TWO32 := 0x1_0000_0000

  /** Words asked of the free list for a request of that many bytes; the sum wraps in the
      32 bits of size_t. */
  function Ints(bytes: nat): (n: int)
    ensures 4 <= n
  {
    var n := ((bytes + 3) % TWO32) / 4 + 2;
    if n < 4 then 4 else n
  }

  /** malloc() gives up only when no block at all is large enough. */
  lemma NothingFits(m: Image, b: Blocks, l: seq<int>, ints: int)
    requires Represents(m, b, l) && 0 < ints && Fitting(l, b, ints) == []
    ensures forall h :: h in b ==> b[h] < ints
  {
    forall h | h in b
      ensures b[h] < ints
    {
      if ints <= b[h] { FittingIsComplete(l, b, ints, h); }
    }
  }

  /** Payload bytes of a block: all of its words but the header and the footer. */
  function PayloadBytes(b: Blocks, h: int): int
    requires h in b
  {
    4 * (Abs(b[h]) - 2)
  }

  /** A granted block holds the bytes asked for exactly when the request is at most
      0xFFFFFFFC; beyond that bytes + 3 wraps and a minimal block is handed out. */
  lemma GrantHoldsRequest(b: Blocks, len: int, h: int, bytes: nat)
    requires WellFormed(b, len) && h in b && 0 < bytes < TWO32 && Ints(bytes) <= b[h]
    ensures h in Alloc(b, h, Ints(bytes))
    ensures bytes <= PayloadBytes(Alloc(b, h, Ints(bytes)), h) <==> bytes <= 0xFFFF_FFFC
    ensures Abs(Alloc(b, h, Ints(bytes))[h]) - Ints(bytes) <= 3
  {
    AllocBlocks(b, len, h, Ints(bytes), h);
  }

  lemma LargestRequestWraps(b: Blocks, len: int, h: int)
    requires WellFormed(b, len) && h in b && 4 <= b[h]
    ensures Ints(0xFFFF_FFFF) == 4
    ensures h in Alloc(b, h, 4) && PayloadBytes(Alloc(b, h, 4), h) <= 20
  {
    AllocBlocks(b, len, h, 4, h);
  }

  /** Byte k of a word, in the little-endian order of the machine. */
  function Byte(w: int, k: int): (v: int)
    requires 0 <= k < 4
    ensures 0 <= v < 256
  {
    match k
    case 0 => w % 256
    case 1 => w / 256 % 256
    case 2 => w / 65536 % 256
    case _ => w / 16777216 % 256
  }

  lemma JoinedBytes(b0: int, b1: int, b2: int, q: int)
    requires 0 <= b0 < 256 && 0 <= b1 < 256 && 0 <= b2 < 256
    ensures var w := b0 + 256 * b1 + 65536 * b2 + 16777216 * q;
      Byte(w, 0) == b0 && Byte(w, 1) == b1 && Byte(w, 2) == b2 && Byte(w, 3) == q % 256
  {
    var w := b0 + 256 * b1 + 65536 * b2 + 16777216 * q;
    assert w / 256 == b1 + 256 * b2 + 65536 * q;
    assert w / 65536 == b2 + 256 * q;
    assert w / 16777216 == q;
  }

  lemma TopByte(q: int, v: int)
    requires 0 <= v < 256
    ensures (q - q % 256 + v) % 256 == v
  {
  }

  function SetByte(w: int, k: int, v: int): (u: int)
    requires 0 <= k < 4 && 0 <= v < 256
    ensures forall j :: 0 <= j < 4 ==> Byte(u, j) == if j == k then v else Byte(w, j)
  {
    var q := w / 16777216;
    var b0, b1, b2 := if k == 0 then v else Byte(w, 0), if k == 1 then v else Byte(w, 1), if k == 2 then v else Byte(w, 2);
    var top := if k == 3 then q - q % 256 + v else q;
    TopByte(q, v);
    JoinedBytes(b0, b1, b2, top);
    b0 + 256 * b1 + 65536 * b2 + 16777216 * top
  }

  /** Byte i counted from the start of word at. */
  function ByteAt(w: seq<int>, at: int, i: int): int
    requires 0 <= at && 0 <= i && at + i / 4 < |w|
  {
    Byte(w[at + i / 4], i % 4)
  }

  /** The n bytes from word at onwards. */
  function FirstBytes(w: seq<int>, at: int, n: nat): seq<int>
    requires 0 <= at && at + (n + 3) / 4 <= |w|
  {
    seq(n, i requires 0 <= i < n => ByteAt(w, at, i))
  }

  ghost predicate InBounds(w: seq<int>, at: int, n: nat) {
    0 <= at && at + (n + 3) / 4 <= |w|
  }

  function Min(a: int, b: int): int {
    if a < b then a else b
  }

  /** Writing inside the payload of a taken block disturbs neither tags nor links. */
  lemma PayloadIsFree(m: Image, b: Blocks, l: seq<int>, h: int, v: seq<int>)
    requires Represents(m, b, l) && h in b && b[h] < 0 && |v| == |m.w|
    requires forall x :: 0 <= x < |v| && !(h < x < End(b, h) - 1) ==> v[x] == m.w[x]
    ensures Represents(m.(w := v), b, l)
    ensures forall g :: g in b && g != h ==> SameBlock(m.w, v, b, g)
  {
    hide WellFormed, Complete;
    forall g | g in b
      ensures Tagged(v, b, g) && (g != h ==> SameBlock(m.w, v, b, g))
    {
      BlocksApart(b, |m.w|, g, h);
      assert Tagged(m.w, b, g);
    }
    forall k | 0 <= k < |l|
      ensures Linked(v, l, k)
    {
      BlocksApart(b, |m.w|, h, l[k]);
      assert Linked(m.w, l, k);
    }
  }

  lemma BlocksApart(b: Blocks, len: int, g: int, h: int)
    requires WellFormed(b, len) && g in b && h in b
    ensures Apart(b, g, h) && Fits(b, len, g) && Fits(b, len, h)
    ensures 0 < b[h] ==> h + 4 <= End(b, h)
  {
  }

  lemma Tiled(m: Image, b: Blocks, l: seq<int>)
    requires Represents(m, b, l)
    ensures WellFormed(b, |m.w|) && forall g :: g in b ==> 0 <= g
  {
    forall g | g in b ensures 0 <= g { assert Tagged(m.w, b, g); }
  }

  lemma LiveBlockBounds(m: Image, b: Blocks, l: seq<int>, h: int)
    requires Represents(m, b, l) && h in Live(b, |m.w|)
    ensures 0 < h && h + 4 <= End(b, h) <= |m.w| - 2 && WellFormed(b, |m.w|)
    ensures m.w[h] == b[h]
  {
    RightNeighbour(b, |m.w|, h);
    assert Tagged(m.w, b, h);
  }

  /** The block that malloc carves for a request is live and large enough. */
  lemma FreshBlock(b: Blocks, len: int, h: int, bytes: nat)
    requires WellFormed(b, len) && h in b && 0 < bytes <= 0xFFFF_FFFC && Ints(bytes) <= b[h]
    ensures var c := Alloc(b, h, Ints(bytes));
      WellFormed(c, len) && h in Live(c, len) && bytes <= PayloadBytes(c, h)
      && forall g :: g in Live(b, len) ==> g in Live(c, len) && g != h && c[g] == b[g]
  {
    AllocKeepsTiling(b, len, h, Ints(bytes));
    GrantHoldsRequest(b, len, h, bytes);
    AllocBlocks(b, len, h, Ints(bytes), h);
    forall g | g in Live(b, len) ensures g in Alloc(b, h, Ints(bytes)) && Alloc(b, h, Ints(bytes))[g] == b[g] {
      AllocBlocks(b, len, h, Ints(bytes), g);
    }
  }

  lemma SameFirstBytes(v: seq<int>, w: seq<int>, b: Blocks, h: int, n: nat)
    requires h in b && SameBlock(v, w, b, h) && n <= PayloadBytes(b, h)
    ensures InBounds(v, h + 1, n) && InBounds(w, h + 1, n) && FirstBytes(v, h + 1, n) == FirstBytes(w, h + 1, n)
  {
    var f, g := FirstBytes(v, h + 1, n), FirstBytes(w, h + 1, n);
    forall i | 0 <= i < n ensures f[i] == g[i] {
      assert v[h + 1 + i / 4] == w[h + 1 + i / 4];
    }
  }

  lemma FewerBytes(v: seq<int>, w: seq<int>, i: int, j: int, m: nat, n: nat)
    requires n <= m && InBounds(v, i, m) && InBounds(w, j, m) && FirstBytes(v, i, m) == FirstBytes(w, j, m)
    ensures InBounds(v, i, n) && InBounds(w, j, n) && FirstBytes(v, i, n) == FirstBytes(w, j, n)
  {
    forall k | 0 <= k < n ensures FirstBytes(v, i, n)[k] == FirstBytes(w, j, n)[k] {
      assert FirstBytes(v, i, m)[k] == FirstBytes(w, j, m)[k];
    }
  }

  /** The four steps of realloc, from words w0 to w3: malloc, memcpy, free. */
  lemma ReallocKeeps(w0: seq<int>, w1: seq<int>, w2: seq<int>, w3: seq<int>, b0: Blocks, b1: Blocks, b3: Blocks,
                     h: int, idx: int, m: nat, keep: nat)
    requires idx in b0 && Kept(w0, w1, b0, b1, idx) && h in b1 && Kept(w2, w3, b1, b3, h)
    requires InBounds(w2, h + 1, m) && InBounds(w1, idx + 1, m) && FirstBytes(w2, h + 1, m) == FirstBytes(w1, idx + 1, m)
    requires keep <= m && keep <= PayloadBytes(b0, idx) && keep <= PayloadBytes(b1, h)
    ensures InBounds(w3, h + 1, keep) && InBounds(w0, idx + 1, keep)
    ensures FirstBytes(w3, h + 1, keep) == FirstBytes(w0, idx + 1, keep)
    ensures h in b3 && b3[h] == b1[h]
  {
    hide FirstBytes;
    FewerBytes(w2, w1, h + 1, idx + 1, m, keep);
    SameFirstBytes(w0, w1, b0, idx, keep);
    SameFirstBytes(w2, w3, b1, h, keep);
  }

  /** Blocks other than the one carved (h) and the one freed (idx) survive all four steps. */
  lemma KeptAcross(w0: seq<int>, w1: seq<int>, w2: seq<int>, w3: seq<int>, b0: Blocks, b1: Blocks, b3: Blocks,
                   h: int, idx: int)
    requires h in b0 && 0 < b0[h]
    requires forall g {:trigger Kept(w0, w1, b0, b1, g)} :: g in b0 && b0[g] < 0 && g != -1 ==> Kept(w0, w1, b0, b1, g)
    requires forall g {:trigger SameBlock(w1, w2, b1, g)} :: g in b1 && g != h ==> SameBlock(w1, w2, b1, g)
    requires forall g {:trigger Kept(w2, w3, b1, b3, g)} :: g in b1 && b1[g] < 0 && g != idx ==> Kept(w2, w3, b1, b3, g)
    requires forall g :: g in b0 ==> 0 <= g
    ensures forall g {:trigger Kept(w0, w3, b0, b3, g)} :: g in b0 && b0[g] < 0 && g != idx ==> Kept(w0, w3, b0, b3, g)
  {
    forall g | g in b0 && b0[g] < 0 && g != idx ensures Kept(w0, w3, b0, b3, g) {
      assert Kept(w0, w1, b0, b1, g);
      assert SameBlock(w1, w2, b1, g);
      assert Kept(w2, w3, b1, b3, g);
      SameTwice(w1, w2, w3, b1, g);
      SameTwice(w0, w1, w3, b0, g);
    }
  }

  lemma StillLive(b: Blocks, len: int, idx: int, h: int)
    requires WellFormed(b, len) && idx in Live(b, len) && h in Live(b, len) && h != idx
    ensures h in Live(Release(b, len, idx), len)
  {
    ReleaseKeepsTiling(b, len, idx);
  }

  class Heap {
    const base: nat
    const words: array<int>
    var avail: int
    ghost var blocks: Blocks
    ghost var list: seq<int>

    ghost function Content(): Image
      reads this, words
    {
      Image(words[..], avail)
    }

    ghost predicate Valid()
      reads this, words
    {
      0 < base && words.Length <= 0x7FFF_FFFF && Represents(Content(), blocks, list)
    }

    /** Every block of the tiling that was taken before is taken still, and holds the same words. */
    twostate predicate OthersKept(h: int)
      reads this, words
    {
      forall g {:trigger Kept(old(words[..]), words[..], old(blocks), blocks, g)} ::
        g in old(blocks) && old(blocks)[g] < 0 && g != h
        ==> Kept(old(words[..]), words[..], old(blocks), blocks, g)
    }

    method MakeTaken(i: int, ints: int)
      requires 0 <= i && 0 < ints && i + ints <= words.Length
      modifies words
      ensures words[..] == Take(old(words[..]), i, ints)
    {
      words[i] := -ints;
      words[i + ints - 1] := -ints;
    }

    method MakeAvail(i: int, ints: int)
      requires 0 <= i && 4 <= ints && i + ints <= words.Length
      requires avail != 0 ==> 0 <= avail && avail + 2 < words.Length
      modifies words, this`avail
      ensures Content() == Push(old(Content()), i, ints)
    {
      words[i] := ints;
      words[i + ints - 1] := ints;
      words[i + 1] := avail;
      words[i + 2] := 0;
      if avail != 0 {
        words[avail + 2] := i;
      }
      avail := i;
    }

    method Remove(i: int)
      requires 0 <= i && i + 2 < words.Length
      requires words[i + 2] != 0 ==> 0 <= words[i + 2] && words[i + 2] + 1 < words.Length
      requires words[i + 1] != 0 ==> 0 <= words[i + 1] && words[i + 1] + 2 < words.Length
      modifies words, this`avail
      ensures Content() == Unlink(old(Content()), i)
    {
      var prevIndex, nextIndex := words[i + 2], words[i + 1];
      if prevIndex == 0 {
        avail := nextIndex;
      } else {
        words[prevIndex + 1] := nextIndex;
      }
      if nextIndex != 0 {
        words[nextIndex + 2] := prevIndex;
      }
    }

    /** heapInit, on bytes / 4 words of whatever contents. */
    constructor (base: nat, bytes: nat)
      requires 0 < base && 32 <= bytes <= 0x7FFF_FFFF
      ensures Valid() && fresh(words)
      ensures this.base == base && words.Length == bytes / 4
      ensures blocks == Initial(words.Length) && list == [2]
    {
      var len := bytes / 4;
      this.base := base;
      this.words := new int[len];
      hide Represents, Take, Push, Initial;
      avail := 0;
      blocks := Initial(len);
      list := [2];
      new;
      InitialImage(words[..]);
      MakeTaken(0, 2);
      MakeAvail(2, len - 4);
      MakeTaken(len - 2, 2);
    }

    /** The bounded search of malloc(): walk the list, stop after twenty fitting blocks. */
    method Search(ints: int) returns (it: int, mx: int)
      requires Valid() && 4 <= ints
      ensures var c := Candidates(list, blocks, ints);
        if c == [] then it == 0 else it == Smallest(c, blocks) && it in blocks && mx == blocks[it] && 0 < it && it in list && ints <= mx
      ensures it == 0 ==> forall h :: h in list ==> blocks[h] < ints
    {
      hide Searched, Fitting, Smallest, Candidates;
      mx := 0x7FFF_FFFF;
      it := 0;
      var countDown := SEARCH_LIMIT;
      var p := avail;
      ghost var k, l, b, m := 0, list, blocks, Content();
      SearchStart(l, b, ints);
      while p != 0
        invariant 0 <= k <= |l|
        invariant p == if k < |l| then l[k] else 0
        invariant 0 < countDown
        invariant Searched(l, b, ints, k, countDown, it, mx)
        decreases |l| - k
      {
        Entry(m, b, l, k);
        var sz := Abs(words[p]);
        SearchStep(l, b, ints, k, countDown, it, mx);
        k := k + 1;
        if sz >= ints {
          if sz < mx {
            mx := sz;
            it := p;
          }
          countDown := countDown - 1;
          if countDown == 0 {
            break;
          }
        }
        p := words[p + 1];
      }
      forall i | 0 <= i < |l| ensures 0 < l[i] { Entry(m, b, l, i); }
      SearchEnd(l, b, ints, k, countDown, it, mx);
    }

    /** Takes the chosen block out of the list, and returns what is left over to it. */
    method Carve(it: int, mx: int, ints: int)
      requires Valid() && it in list && 4 <= ints <= mx == blocks[it]
      modifies this, words
      ensures Valid()
      ensures blocks == Alloc(old(blocks), it, ints)
      ensures OthersKept(it)
    {
      hide Represents, Taking, Alloc, Complete, Without, Kept, Unlink, Push, Take;
      ghost var b, l, m := blocks, list, Content();
      ghost var k :| 0 <= k < |l| && l[k] == it;
      Entry(m, b, l, k);
      ReadyToTake(m, b, l, k, ints);
      Remove(it);
      ghost var m1 := Content();
      var extra := mx - ints;
      blocks := Alloc(b, it, ints);
      if extra >= 4 {
        MakeTaken(it, ints);
        AllocSplit(m, b, l, k, ints, m1, Content());
        MakeAvail(it + ints, extra);
        list := [it + ints] + Without(l, k);
      } else {
        MakeTaken(it, mx);
        AllocWhole(m, b, l, k, ints, m1, Content());
        list := Without(l, k);
      }
    }

    twostate lemma NothingChanged()
      requires old(Valid()) && Content() == old(Content()) && blocks == old(blocks)
      ensures OthersKept(-1)
    {
      forall g | g in blocks && blocks[g] < 0
        ensures Kept(old(words[..]), words[..], old(blocks), blocks, g)
      {
        assert Tagged(old(words[..]), blocks, g);
      }
    }

    /** Kernel malloc. */
    method Malloc(bytes: nat) returns (res: nat)
      requires Valid() && bytes < TWO32
      modifies this, words
      ensures Valid()
      ensures bytes == 0 ==> res == base
      ensures bytes == 0 || res == 0 ==> Content() == old(Content()) && blocks == old(blocks) && list == old(list)
      ensures bytes != 0 ==> (res == 0 <==> forall h :: h in old(blocks) ==> old(blocks)[h] < Ints(bytes))
      ensures bytes != 0 && res != 0 ==>
        var c := Candidates(old(list), old(blocks), Ints(bytes));
        c != [] && var it := Smallest(c, old(blocks));
        res == base + 4 * (it + 1) && it in old(list) && Ints(bytes) <= old(blocks)[it]
        && blocks == Alloc(old(blocks), it, Ints(bytes))
      ensures OthersKept(-1)
    {
      hide Fitting, Smallest, Candidates, Threads, Tags, Alloc, WellFormed;
      if bytes == 0 {
        NothingChanged();
        return base;
      }
      var ints := ((bytes + 3) % TWO32) / 4 + 2;
      if ints < 4 {
        ints := 4;
      }
      res := 0;
      var it, mx := Search(ints);
      if it != 0 {
        Carve(it, mx, ints);
        res := base + 4 * (it + 1);
      } else {
        assert forall h :: h in blocks && 0 < blocks[h] ==> h in list;
        NothingChanged();
      }
    }

    /** Where free() looks for the header of the block it is given. */
    function HeaderOf(p: nat): int {
      (p - base) / 4 - 1
    }

    /** The part of free() that takes the available neighbours of block h out of the list:
        idx and sz are the start and the size of what is to be one block. */
    method Merge(h: int) returns (idx: int, sz: int, ghost l: seq<int>)
      requires Valid() && h in Live(blocks, words.Length) && 0 < h < words.Length - 2
      modifies words, this`avail
      ensures Slimmed(old(words[..]), Content(), blocks, l) && BesideOnly(blocks, words.Length, l, h)
      ensures idx == MergedStart(blocks, words.Length, h)
      ensures idx in Release(blocks, words.Length, h) && sz == Release(blocks, words.Length, h)[idx]
    {
      hide Represents, Linked, Tagged, Threads, Tags, WellFormed, Release, MergedStart, MergedStop, LeftOf, Push, Unlink, Slimmed, End,
           Complete, Without, BesideOnly;
      ghost var m, b := Content(), blocks;
      l := list;
      ReadNeighbours(m, b, l, h);
      idx, sz := h, Abs(words[h]);
      var leftIndex := idx - 1 - Abs(words[idx - 1]) + 1;
      var rightIndex := idx + sz;
      SlimmedFromStart(m, b, l);
      ghost var k1, k2 := -1, -1;
      if words[leftIndex] > 0 {
        k1 :| 0 <= k1 < |l| && l[k1] == leftIndex;
        SlimStep(m.w, m, b, l, k1);
        if rightIndex in l { StillIn(l, k1, rightIndex); }
        Remove(leftIndex);
        l := Without(l, k1);
        SlimmedTags(m.w, Content(), b, l, leftIndex);
        idx := leftIndex;
        sz := sz + Abs(words[leftIndex]);
      }
      ghost var l1 := l;
      SlimmedTags(m.w, Content(), b, l, rightIndex);
      if words[rightIndex] > 0 {
        k2 :| 0 <= k2 < |l| && l[k2] == rightIndex;
        SlimStep(m.w, Content(), b, l, k2);
        Remove(rightIndex);
        l := Without(l, k2);
        SlimmedTags(m.w, Content(), b, l, rightIndex);
        sz := sz + Abs(words[rightIndex]);
      }
      BesideAfterDrops(m, b, list, l1, l, h, k1, k2);
      MergedSize(b, words.Length, h);
    }

    /** free(); false when it panics because the block is not taken. */
    method Free(p: nat) returns (ok: bool)
      requires Valid()
      requires p == 0 || p == base
               || (base < p && HeaderOf(p) in blocks && 0 < HeaderOf(p) < words.Length - 2)
      modifies this, words
      ensures Valid()
      ensures ok <==> p == 0 || p == base || HeaderOf(p) in Live(old(blocks), words.Length)
      ensures p == 0 || p == base || !ok ==> Content() == old(Content()) && blocks == old(blocks) && list == old(list)
      ensures p != 0 && p != base && ok ==> blocks == Release(old(blocks), words.Length, HeaderOf(p))
      ensures OthersKept(if p == 0 || p == base || !ok then -1 else HeaderOf(p))
    {
      hide Represents, WellFormed, Release, MergedStart, LeftOf, Push, Slimmed, Kept, End, BesideOnly;
      if p == 0 || p == base {
        NothingChanged();
        return true;
      }
      ghost var m := Content();
      var h := (p - base) / 4 - 1;
      Tiled(m, blocks, list);
      ReadNeighbours(m, blocks, list, h);
      if words[h] >= 0 {
        NothingChanged();
        return false;
      }
      var idx, sz, l := Merge(h);
      ReleaseImage(m.w, Content(), blocks, l, h);
      blocks := Release(blocks, words.Length, h);
      list := [idx] + l;
      MakeAvail(idx, sz);
      ok := true;
    }

    /** User-side malloc: the first block of the list that is large enough. */
    method MallocFirstFit(bytes: nat) returns (res: nat)
      requires Valid() && bytes < TWO32
      modifies this, words
      ensures Valid()
      ensures bytes == 0 ==> res == base
      ensures bytes == 0 || res == 0 ==> Content() == old(Content()) && blocks == old(blocks) && list == old(list)
      ensures bytes != 0 ==> (res == 0 <==> forall h :: h in old(blocks) ==> old(blocks)[h] < Ints(bytes))
      ensures bytes != 0 && res != 0 ==>
        var f := Fitting(old(list), old(blocks), Ints(bytes));
        f != [] && res == base + 4 * (f[0] + 1) && f[0] in old(blocks) && Ints(bytes) <= old(blocks)[f[0]]
        && blocks == Alloc(old(blocks), f[0], Ints(bytes))
      ensures OthersKept(-1)
    {
      hide Fitting, Threads, Tags, Alloc, WellFormed, Linked;
      if bytes == 0 {
        NothingChanged();
        return base;
      }
      var ints := ((bytes + 3) % TWO32) / 4 + 2;
      if ints < 4 {
        ints := 4;
      }
      var p := avail;
      res := 0;
      ghost var k, l, b, m := 0, list, blocks, Content();
      NothingChanged();
      ListStart(m, b, l);
      NothingYet(l, b, ints);
      while p != 0 && res == 0
        invariant 0 <= k <= |l| && 0 <= p
        invariant res == 0 ==>
          && Content() == m && blocks == b && list == l && OthersKept(-1) && Valid()
          && p == (if k < |l| then l[k] else 0) && (k < |l| ==> 0 < p)
          && Fitting(l[..k], b, ints) == []
        invariant res != 0 ==>
          && res == base + 4 * (p + 1) && Fitting(l, b, ints) != [] && Fitting(l, b, ints)[0] == p
          && p in b && ints <= b[p] && blocks == Alloc(b, p, ints) && OthersKept(-1) && Valid()
        decreases |l| - k, res == 0
      {
        Entry(m, b, l, k);
        FirstFit(l, b, ints, k);
        var sz := Abs(words[p]);
        if sz >= ints {
          Carve(p, sz, ints);
          res := base + 4 * (p + 1);
        } else {
          p := words[p + 1];
          k := k + 1;
        }
      }
      if res == 0 {
        assert l[..k] == l;
        NothingFits(m, b, l, ints);
      }
    }

    /** memcpy, byte by byte, from word src to word dst of the array. */
    method Memcpy(dst: int, src: int, n: nat)
      requires InBounds(words[..], dst, n) && InBounds(words[..], src, n)
      requires dst + (n + 3) / 4 <= src || src + (n + 3) / 4 <= dst
      modifies words
      ensures FirstBytes(words[..], dst, n) == FirstBytes(old(words[..]), src, n)
      ensures forall x :: 0 <= x < words.Length && !(dst <= x < dst + (n + 3) / 4) ==> words[x] == old(words[x])
    {
      var i := 0;
      while i < n
        invariant 0 <= i <= n
        invariant forall j :: 0 <= j < i ==> Byte(words[dst + j / 4], j % 4) == ByteAt(old(words[..]), src, j)
        invariant forall x :: 0 <= x < words.Length && !(dst <= x < dst + (n + 3) / 4) ==> words[x] == old(words[x])
      {
        words[dst + i / 4] := SetByte(words[dst + i / 4], i % 4, Byte(words[src + i / 4], i % 4));
        i := i + 1;
      }
    }

    /** The copying half of realloc: from the start of live block idx into fresh block h. */
    method CopyInto(ghost h: int, ghost idx: int, ghost newSize: nat, dst: int, src: int, m: nat)
      requires dst == h + 1 && src == idx + 1
      requires Valid() && h in Live(blocks, words.Length) && idx in Live(blocks, words.Length) && h != idx
      requires m <= newSize <= PayloadBytes(blocks, h) && m <= 4 * Abs(blocks[idx])
      modifies words
      ensures Valid()
      ensures forall g {:trigger SameBlock(old(words[..]), words[..], blocks, g)} ::
        g in blocks && g != h ==> SameBlock(old(words[..]), words[..], blocks, g)
      ensures InBounds(words[..], h + 1, m) && InBounds(old(words[..]), idx + 1, m)
      ensures FirstBytes(words[..], h + 1, m) == FirstBytes(old(words[..]), idx + 1, m)
    {
      hide Represents;
      ghost var w := Content();
      LiveBlockBounds(w, blocks, list, h);
      LiveBlockBounds(w, blocks, list, idx);
      BlocksApart(blocks, words.Length, h, idx);
      Memcpy(dst, src, m);
      PayloadIsFree(w, blocks, list, h, words[..]);
    }

    /** The tiling after block h was granted and block idx freed; h was available before. */
    ghost predicate Moved(b0: Blocks, b: Blocks, len: int, h: int, idx: int, ints: int) {
      && h in b0 && 0 < b0[h] && ints <= b0[h]
      && var c := Alloc(b0, h, ints);
      WellFormed(c, len) && idx in Live(c, len) && b == Release(c, len, idx)
    }

    /** User-side realloc. It copies up to four bytes for every word of the old block, its
        footer and the next header included, and frees the old block whether or not a new
        one was found. */
    method Realloc(p: nat, newSize: nat) returns (res: nat)
      requires Valid() && newSize <= 0xFFFF_FFFC
      requires p == 0 || (base < p && HeaderOf(p) in blocks && 0 < HeaderOf(p) < words.Length - 2)
      modifies this, words
      ensures Valid()
      ensures p != 0 && newSize == 0 ==> res == 0
      ensures p == 0 ==> OthersKept(-1)
      ensures p == 0 && newSize == 0 ==> res == base
      ensures p == 0 && (newSize == 0 || res == 0) ==> Content() == old(Content()) && blocks == old(blocks) && list == old(list)
      ensures p == 0 && newSize != 0 ==> (res == 0 <==> forall h :: h in old(blocks) ==> old(blocks)[h] < Ints(newSize))
      ensures p == 0 && newSize != 0 && res != 0 ==>
        && HeaderOf(res) in old(blocks) && 0 < old(blocks)[HeaderOf(res)]
        && blocks == Alloc(old(blocks), HeaderOf(res), Ints(newSize))
      ensures res != 0 && newSize != 0 ==>
        HeaderOf(res) in Live(blocks, words.Length) && newSize <= PayloadBytes(blocks, HeaderOf(res))
      ensures p != 0 && HeaderOf(p) !in Live(old(blocks), words.Length) ==>
        res == 0 && Content() == old(Content()) && blocks == old(blocks)
      ensures p != 0 && HeaderOf(p) in Live(old(blocks), words.Length) ==>
        && OthersKept(HeaderOf(p))
        && (res == 0 <==> newSize == 0 || forall h :: h in old(blocks) ==> old(blocks)[h] < Ints(newSize))
        && (res == 0 ==> blocks == Release(old(blocks), words.Length, HeaderOf(p)))
        && (res != 0 ==>
              && Moved(old(blocks), blocks, words.Length, HeaderOf(res), HeaderOf(p), Ints(newSize))
              && var keep := Min(newSize, PayloadBytes(old(blocks), HeaderOf(p)));
              && 0 <= keep && InBounds(words[..], HeaderOf(res) + 1, keep) && InBounds(old(words[..]), HeaderOf(p) + 1, keep)
              && FirstBytes(words[..], HeaderOf(res) + 1, keep) == FirstBytes(old(words[..]), HeaderOf(p) + 1, keep))
    {
      hide Represents, Alloc, Release, Fitting, Kept, SameBlock, FirstBytes, InBounds, Ints;
      ghost var w0, b0, l0, len := words[..], blocks, list, words.Length;
      if p == 0 {
        res := MallocFirstFit(newSize);
        if res != 0 && newSize != 0 {
          Tiled(Image(w0, old(avail)), b0, l0);
          FreshBlock(b0, len, HeaderOf(res), newSize);
        }
        return;
      }
      var idx := (p - base) / 4 - 1;
      Tiled(Content(), b0, l0);
      ReadNeighbours(Content(), b0, l0, idx);
      if newSize == 0 {
        var _ := Free(p);
        if idx !in Live(b0, len) { NothingChanged(); }
        return 0;
      }
      if words[idx] >= 0 {
        return 0;
      }
      LiveBlockBounds(Content(), b0, l0, idx);
      var sz := Abs(words[idx]) * 4;
      res := MallocFirstFit(newSize);
      ghost var w1, b1, h := words[..], blocks, HeaderOf(res);
      if res == 0 {
        var _ := Free(p);
        return;
      }
      var m := Min(newSize, sz);
      FreshBlock(b0, len, h, newSize);
      CopyInto(h, idx, newSize, (res - base) / 4, (p - base) / 4, m);
      ghost var w2 := words[..];
      var _ := Free(p);
      ReallocKeeps(w0, w1, w2, words[..], b0, b1, blocks, h, idx, m, Min(newSize, PayloadBytes(b0, idx)));
      StillLive(b1, len, idx, h);
      KeptAcross(w0, w1, w2, words[..], b0, b1, blocks, h, idx);
    }
  }

  /** A realloc that fails: on a heap of eight words with its one block live, asking for
      twenty-five words gives a null pointer, and the block is free afterwards. */
  method ReallocLosesBlock(base: nat) returns (heap: Heap, p: nat, res: nat)
    requires 0 < base
    ensures heap.Valid() && p != 0 && res == 0 && Live(heap.blocks, heap.words.Length) == {}
  {
    hide Represents, Fitting;
    heap := new Heap(base, 32);
    assert heap.blocks == map[0 := -2, 2 := 4, 6 := -2];
    assert Ints(8) == 4 && Ints(100) == 27;
    ghost var f := Fitting(heap.list, heap.blocks, 4);
    assert heap.blocks[2] == 4;
    p := heap.MallocFirstFit(8);
    assert p == base + 4 * (f[0] + 1) && f[0] == 2;
    assert heap.blocks == map[0 := -2, 2 := -4, 6 := -2];
    ghost var b := heap.blocks;
    Tiled(heap.Content(), b, heap.list);
    assert 2 in Live(b, 8);
    res := heap.Realloc(p, 100);
    InitialIsWellFormed(8);
    ReleaseUndoesAlloc(Initial(8), 8, 2, 4);
  }
}
