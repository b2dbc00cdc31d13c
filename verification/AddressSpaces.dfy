/** Whole-address-space operations: what fork, exec's sweep and the end of a process have
    done after each page they visit. */
module AddressSpaces {
  import opened Paging
  import opened Translation

  /** Every complete address space maps the two devices. */
  ghost predicate DevicesMapped(c: Config, s: State, p: int) {
    c.Valid() && p in s.pds && Translate(s, p, c.io) == c.io && Translate(s, p, c.local) == c.local
  }

  // ----- fork

  /** Page v of the child is a private copy of page v of the parent, on a frame that was not
      in use before; or neither is mapped. */
  ghost predicate CopiedPage(s0: State, o0: Owners, s: State, parent: int, child: int, v: nat) {
    && v < PAGES
    && (Translate(s, child, v) == -1 <==> Translate(s0, parent, v) == -1)
    && (Translate(s, child, v) != -1 ==>
          var f, g := Translate(s, child, v), Translate(s0, parent, v);
          f in s.mem && g in s0.mem && s.mem[f] == s0.mem[g] && f in o0.roles && Unused(o0.roles[f]))
  }

  ghost predicate ForkedUpTo(c: Config, s0: State, o0: Owners, s: State, o: Owners, parent: int, child: int, upto: int) {
    && Inv(c, s, o) && Step(s0, o0, s, o) && SameMap(s0, s) && s.mapped == c.limit
    && parent in s0.pds && child !in s0.pds && s.pds.Keys == s0.pds.Keys + {child}
    && DevicesMapped(c, s, child)
    && (forall v: nat {:trigger CopiedPage(s0, o0, s, parent, child, v)} ::
          USER <= v < upto && v < PAGES && !c.Device(v) ==> CopiedPage(s0, o0, s, parent, child, v))
    && (forall v: nat {:trigger Translate(s, child, v)} ::
          USER <= v && upto <= v < PAGES && !c.Device(v) ==> Translate(s, child, v) == -1)
  }

  /** A page the loop passes over: absent from the parent, or a device. */
  lemma ForkSkips(c: Config, s0: State, o0: Owners, s: State, o: Owners, parent: int, child: int, v: nat)
    requires ForkedUpTo(c, s0, o0, s, o, parent, child, v) && USER <= v < PAGES
    requires c.Device(v) || Translate(s0, parent, v) == -1
    ensures ForkedUpTo(c, s0, o0, s, o, parent, child, v + 1)
  {
    hide Inv, Step;
    assert Translate(s, child, v) == -1 || c.Device(v);
    if !c.Device(v) { assert CopiedPage(s0, o0, s, parent, child, v); }
  }

  /** The three steps of copying one page: alloc_frame, map, memcpy. */
  ghost predicate PageCopy(c: Config, s: State, o: Owners, s1: State, o1: Owners, s2: State, o2: Owners,
                           child: int, v: nat, pa: nat) {
    && v < PAGES && pa in o.roles && Unused(o.roles[pa])
    && Step(s, o, s1, o1) && SameMap(s, s1) && s1.pds == s.pds
    && pa in s1.mem && pa in o1.roles && o1.roles[pa] == Detached
    && MapsOnly(c, s1, o1, s2, o2, child, v, pa)
    && pa in o2.roles && o2.roles[pa] == User(child, v / 1024, v % 1024)
  }

  lemma PageCopyTranslations(c: Config, s: State, o: Owners, s1: State, o1: Owners, s2: State, o2: Owners,
                             child: int, v: nat, pa: nat, pg: Page)
    requires PageCopy(c, s, o, s1, o1, s2, o2, child, v, pa) && |pg| == WORDS && Inv(c, s2, o2)
    ensures var s3 := s2.(mem := s2.mem[pa := pg]);
      && Inv(c, s3, o2) && Step(s, o, s3, o2) && SameMapBut(s, s3, child, v) && s3.pds == s.pds
      && (child in s3.pds ==> Translate(s3, child, v) == pa) && s3.mapped == s.mapped
  {
    hide FreeListOk, FrameOk;
    var s3 := s2.(mem := s2.mem[pa := pg]);
    WritePage(c, s2, o2, pa, pg);
    forall q: int, w: nat | q in s2.pds && w < PAGES ensures Translate(s3, q, w) == Translate(s2, q, w) {
      SameTranslation(c, s2, o2, s3, q, w);
    }
    SameMapTwice(s, s1, s2, child, v);
    SameMapThen(s, s2, s3, child, v);
    StepTwice(s, o, s1, o1, s2, o2);
    forall f | f in s.mem && o.roles[f].User? ensures s3.mem[f] == s.mem[f] && o2.roles[f] == o.roles[f] {
      assert o2.roles[f] == o.roles[f];
    }
  }

  /** The page to copy is where it was before fork began, with the contents it had. */
  lemma ForkSource(c: Config, s0: State, o0: Owners, s: State, o: Owners, parent: int, child: int, v: nat,
                   s1: State, o1: Owners, s2: State, o2: Owners, pa: nat)
    requires ForkedUpTo(c, s0, o0, s, o, parent, child, v) && USER <= v < PAGES && !c.Device(v)
    requires Inv(c, s0, o0) && Translate(s0, parent, v) != -1
    requires PageCopy(c, s, o, s1, o1, s2, o2, child, v, pa)
    ensures Translate(s2, parent, v) == Translate(s0, parent, v) && Translate(s0, parent, v) in s0.mem
    ensures Translate(s0, parent, v) in s2.mem && s2.mem[Translate(s0, parent, v)] == s0.mem[Translate(s0, parent, v)]
    ensures |s0.mem[Translate(s0, parent, v)]| == WORDS
  {
    hide FrameOk, FreeListOk;
    var src := Translate(s0, parent, v);
    MappedPageIsOwned(c, s0, o0, parent, v);
    PageSize(c, s0, o0, src);
    assert o.roles[src] == o0.roles[src] && s.mem[src] == s0.mem[src];
    assert o1.roles[src] == o.roles[src] && s1.mem[src] == s.mem[src];
    assert s2.mem[src] == s1.mem[src];
    assert Translate(s, parent, v) == src && Translate(s1, parent, v) == src;
    assert Translate(s2, parent, v) == src;
  }

  lemma PageSize(c: Config, s: State, o: Owners, f: nat)
    requires Inv(c, s, o) && f in s.mem
    ensures |s.mem[f]| == WORDS
  {
    assert FrameOk(c, s, o, f);
  }

  /** Copying page v of the parent onto pa. */
  lemma ForkCopies(c: Config, s0: State, o0: Owners, s: State, o: Owners, parent: int, child: int, v: nat,
                   s1: State, o1: Owners, s2: State, o2: Owners, pa: nat)
    requires ForkedUpTo(c, s0, o0, s, o, parent, child, v) && USER <= v < PAGES && !c.Device(v)
    requires Inv(c, s0, o0) && Translate(s0, parent, v) != -1
    requires PageCopy(c, s, o, s1, o1, s2, o2, child, v, pa)
    requires Translate(s0, parent, v) in s0.mem && |s0.mem[Translate(s0, parent, v)]| == WORDS
    ensures ForkedUpTo(c, s0, o0, s2.(mem := s2.mem[pa := s0.mem[Translate(s0, parent, v)]]), o2, parent, child, v + 1)
  {
    hide Inv, Step;
    var pg := s0.mem[Translate(s0, parent, v)];
    PageCopyTranslations(c, s, o, s1, o1, s2, o2, child, v, pa, pg);
    var s3 := s2.(mem := s2.mem[pa := pg]);
    ForkedRelations(s0, o0, s, o, s3, o2, child, v);
    forall w: nat | USER <= w < v + 1 && w < PAGES && !c.Device(w) ensures CopiedPage(s0, o0, s3, parent, child, w) {
      ForkedPage(c, s0, o0, s, o, parent, child, v, s3, o2, pa, w);
    }
    assert Translate(s3, child, c.io) == Translate(s, child, c.io) && Translate(s3, child, c.local) == Translate(s, child, c.local);
    forall w: nat | USER <= w && v + 1 <= w < PAGES && !c.Device(w) ensures Translate(s3, child, w) == -1 {
      assert Translate(s3, child, w) == Translate(s, child, w);
    }
  }

  lemma ForkedRelations(s0: State, o0: Owners, s: State, o: Owners, s3: State, o3: Owners, child: int, v: nat)
    requires Step(s0, o0, s, o) && Step(s, o, s3, o3) && SameMap(s0, s) && SameMapBut(s, s3, child, v) && child !in s0.pds
    ensures Step(s0, o0, s3, o3) && SameMap(s0, s3)
  {
    StepTwice(s0, o0, s, o, s3, o3);
    forall q: int, w: nat | q in s0.pds && w < PAGES ensures Translate(s3, q, w) == Translate(s0, q, w) {
      assert Translate(s, q, w) == Translate(s0, q, w);
    }
  }

  lemma ForkedPage(c: Config, s0: State, o0: Owners, s: State, o: Owners, parent: int, child: int, v: nat,
                   s3: State, o3: Owners, pa: nat, w: nat)
    requires ForkedUpTo(c, s0, o0, s, o, parent, child, v) && USER <= w <= v < PAGES && !c.Device(w)
    requires Step(s, o, s3, o3) && SameMapBut(s, s3, child, v) && child in s3.pds && Translate(s3, child, v) == pa
    requires Translate(s0, parent, v) != -1 && Translate(s0, parent, v) in s0.mem
    requires pa in s3.mem && s3.mem[pa] == s0.mem[Translate(s0, parent, v)] && pa in o.roles && Unused(o.roles[pa])
    ensures CopiedPage(s0, o0, s3, parent, child, w)
  {
    if w == v {
      assert Unused(o.roles[pa]);
      assert Unused(o0.roles[pa]);
    } else {
      assert CopiedPage(s0, o0, s, parent, child, w);
      assert Translate(s3, child, w) == Translate(s, child, w);
      if Translate(s, child, w) != -1 {
        MappedPageIsOwned(c, s, o, child, w);
        assert o.roles[Translate(s, child, w)].User?;
      }
    }
  }

  // ----- what fork costs

  /** Page tables that the two device pages need. */
  function DeviceTables(c: Config): nat {
    if c.io / 1024 == c.local / 1024 then 1 else 2
  }

  /** The frames make_pd takes: the directory and the tables of the devices. */
  function NewSpaceCost(c: Config): nat {
    1 + DeviceTables(c)
  }

  /** The loop of fork copies page v. */
  ghost predicate Copied(c: Config, s0: State, parent: int, v: nat) {
    USER <= v < PAGES && !c.Device(v) && Translate(s0, parent, v) != -1
  }

  /** The child has a table at k once the pages below upto are copied. */
  ghost predicate ChildTable(c: Config, s0: State, parent: int, k: int, upto: nat) {
    || k == c.io / 1024 || k == c.local / 1024
    || exists w: nat {:trigger Copied(c, s0, parent, w)} :: w < upto && w / 1024 == k && Copied(c, s0, parent, w)
  }

  /** The frames page v takes: one for the copy, and one for the table if it is the first
      page there. */
  ghost function PageCost(c: Config, s0: State, parent: int, v: nat): nat {
    if !Copied(c, s0, parent, v) then 0 else if ChildTable(c, s0, parent, v / 1024, v) then 1 else 2
  }

  ghost function ForkCost(c: Config, s0: State, parent: int, upto: nat): nat {
    if upto <= USER then 0 else ForkCost(c, s0, parent, upto - 1) + PageCost(c, s0, parent, upto - 1)
  }

  lemma {:induction false} ForkCostGrows(c: Config, s0: State, parent: int, a: nat, b: nat)
    requires a <= b
    ensures ForkCost(c, s0, parent, a) <= ForkCost(c, s0, parent, b)
    decreases b - a
  {
    if a < b { ForkCostGrows(c, s0, parent, a, b - 1); }
  }

  ghost predicate ForkPaid(c: Config, s0: State, o0: Owners, s: State, o: Owners, parent: int, child: int, upto: nat) {
    && Available(c, s, o) + NewSpaceCost(c) + ForkCost(c, s0, parent, upto) == Available(c, s0, o0)
    && forall k {:trigger Tabled(s, child, k)} :: 512 <= k < WORDS ==>
         (Tabled(s, child, k) <==> ChildTable(c, s0, parent, k, upto))
  }

  lemma PaidStarts(c: Config, s0: State, o0: Owners, s: State, o: Owners, parent: int, child: int)
    requires Available(c, s, o) == Available(c, s0, o0) - NewSpaceCost(c)
    requires forall k {:trigger Tabled(s, child, k)} :: 512 <= k < WORDS ==>
      (Tabled(s, child, k) <==> k == c.io / 1024 || k == c.local / 1024)
    ensures ForkPaid(c, s0, o0, s, o, parent, child, USER)
  {
    hide Tabled, Available;
  }

  lemma PaidSkips(c: Config, s0: State, o0: Owners, s: State, o: Owners, parent: int, child: int, v: nat)
    requires ForkPaid(c, s0, o0, s, o, parent, child, v) && USER <= v && !Copied(c, s0, parent, v)
    ensures ForkPaid(c, s0, o0, s, o, parent, child, v + 1)
  {
    hide Copied, Tabled, Available;
  }

  lemma {:induction false} PaidSkipsTable(c: Config, s0: State, o0: Owners, s: State, o: Owners, parent: int, child: int, i: nat, j: nat)
    requires ForkPaid(c, s0, o0, s, o, parent, child, 1024 * i + j) && 512 <= i < WORDS && j <= 1024
    requires forall v: nat {:trigger Copied(c, s0, parent, v)} :: 1024 * i <= v < 1024 * i + 1024 ==> !Copied(c, s0, parent, v)
    ensures ForkPaid(c, s0, o0, s, o, parent, child, 1024 * (i + 1))
    decreases 1024 - j
  {
    hide ForkPaid, Copied;
    if j < 1024 {
      PaidSkips(c, s0, o0, s, o, parent, child, 1024 * i + j);
      PaidSkipsTable(c, s0, o0, s, o, parent, child, i, j + 1);
    }
  }

  /** A table that the parent does not have holds no page to copy. */
  lemma NothingToCopy(c: Config, s0: State, s: State, parent: int, i: nat)
    requires SameMap(s0, s) && parent in s0.pds && 512 <= i < WORDS
    requires forall v: nat {:trigger Translate(s, parent, v)} :: 1024 * i <= v < 1024 * i + 1024 ==> Translate(s, parent, v) == -1
    ensures forall v: nat {:trigger Copied(c, s0, parent, v)} :: 1024 * i <= v < 1024 * i + 1024 ==> !Copied(c, s0, parent, v)
  {
    hide Translate;
    forall v: nat | 1024 * i <= v < 1024 * i + 1024 && v < PAGES ensures Translate(s0, parent, v) == -1 {
      assert Translate(s, parent, v) == Translate(s0, parent, v);
    }
  }

  /** Copying page v costs what PageCost says. */
  lemma PaidCopies(c: Config, s0: State, o0: Owners, s: State, o: Owners, s3: State, o3: Owners,
                   parent: int, child: int, v: nat)
    requires ForkPaid(c, s0, o0, s, o, parent, child, v) && Copied(c, s0, parent, v) && child in s.pds
    requires TableAt(s, s3, child, v / 1024)
    requires Available(c, s3, o3) == Available(c, s, o) - (if Tabled(s, child, v / 1024) then 1 else 2)
    ensures PageCost(c, s0, parent, v) == if Tabled(s, child, v / 1024) then 1 else 2
    ensures ForkPaid(c, s0, o0, s3, o3, parent, child, v + 1)
  {
    hide Tabled, Available;
    assert USER <= v < PAGES && 512 <= v / 1024 < WORDS;
    hide Copied;
    forall k | 512 <= k < WORDS ensures Tabled(s3, child, k) <==> ChildTable(c, s0, parent, k, v + 1) {
      assert Tabled(s, child, k) <==> ChildTable(c, s0, parent, k, v);
    }
  }

  lemma CostSoFar(c: Config, s0: State, o0: Owners, s: State, o: Owners, parent: int, child: int, v: nat)
    requires ForkPaid(c, s0, o0, s, o, parent, child, v) && Copied(c, s0, parent, v)
    ensures PageCost(c, s0, parent, v) == if Tabled(s, child, v / 1024) then 1 else 2
  {
    hide Tabled, Available;
    assert 512 <= v / 1024 < WORDS;
  }

  /** When one page cannot be paid for, fork as a whole cannot. */
  lemma CannotPay(c: Config, s0: State, o0: Owners, s: State, o: Owners, parent: int, child: int, v: nat)
    requires ForkPaid(c, s0, o0, s, o, parent, child, v) && USER <= v < PAGES
    requires Available(c, s, o) < PageCost(c, s0, parent, v)
    ensures Available(c, s0, o0) < NewSpaceCost(c) + ForkCost(c, s0, parent, PAGES)
  {
    hide PageCost, Available;
    ForkCostGrows(c, s0, parent, v + 1, PAGES);
  }

  // ----- tables across the steps of an operation

  lemma SameTablesThen(s: State, s1: State, s2: State, p: int, i: int)
    requires SameTables(s, s1) && TableAt(s1, s2, p, i)
    ensures TableAt(s, s2, p, i)
  {
    hide Tabled;
    forall q, k | q in s.pds && 512 <= k < WORDS
      ensures Tabled(s2, q, k) <==> Tabled(s, q, k) || (q == p && k == i)
    {
      assert Tabled(s1, q, k) <==> Tabled(s, q, k);
    }
  }

  lemma TableAtThen(s: State, s1: State, s2: State, p: int, i: int)
    requires TableAt(s, s1, p, i) && SameTables(s1, s2)
    ensures TableAt(s, s2, p, i)
  {
    hide Tabled;
    forall q, k | q in s.pds && 512 <= k < WORDS
      ensures Tabled(s2, q, k) <==> Tabled(s, q, k) || (q == p && k == i)
    {
      assert Tabled(s1, q, k) <==> Tabled(s, q, k) || (q == p && k == i);
    }
  }

  lemma NewSpaceTables(c: Config, s: State, s2: State, p: int, d: nat, pg: Page)
    requires KernelHalf(c, s, pg) && d in s.mem && c.SharedEntries() <= 512
    requires s2 == s.(mem := s.mem[d := pg], pds := s.pds[p := d])
    ensures forall k {:trigger Tabled(s2, p, k)} :: 512 <= k < WORDS ==> !Tabled(s2, p, k)
  {
  }

  /** The tables of a new address space, after both devices are mapped. */
  lemma DeviceTablesOnly(c: Config, s2: State, s3: State, s4: State, p: int)
    requires p in s2.pds && TableAt(s2, s3, p, c.io / 1024) && TableAt(s3, s4, p, c.local / 1024) && p in s3.pds
    requires forall k {:trigger Tabled(s2, p, k)} :: 512 <= k < WORDS ==> !Tabled(s2, p, k)
    ensures forall k {:trigger Tabled(s4, p, k)} :: 512 <= k < WORDS ==> (Tabled(s4, p, k) <==> k == c.io / 1024 || k == c.local / 1024)
  {
    hide Tabled;
    forall k | 512 <= k < WORDS ensures Tabled(s4, p, k) <==> k == c.io / 1024 || k == c.local / 1024 {
      assert Tabled(s3, p, k) <==> k == c.io / 1024;
    }
  }

  lemma SameFrames(c: Config, s: State, o: Owners, s2: State, o2: Owners)
    requires s2.avail == s.avail && o2.free == o.free
    ensures Available(c, s2, o2) == Available(c, s, o)
  {
  }

  lemma StillNeeded(c: Config, s: State, o: Owners, s1: State, o1: Owners, p: int, v: nat)
    requires Inv(c, s, o) && Inv(c, s1, o1) && SameTables(s, s1) && s1.pds == s.pds && p in s.pds && USER <= v < PAGES
    ensures NeedsTableOf(s1, p, v) <==> NeedsTableOf(s, p, v)
    ensures NeedsTableOf(s, p, v) <==> !Tabled(s, p, v / 1024)
  {
    hide Inv, Tabled, NeedsTableOf;
    TableNeeded(c, s, o, p, v);
    TableNeeded(c, s1, o1, p, v);
    assert 512 <= v / 1024 < WORDS;
  }

  /** The three steps that copy a page give the child the table of that page. */
  lemma CopyKeepsTables(c: Config, s: State, s1: State, s2: State, o2: Owners, s3: State, child: int, v: nat, pa: nat)
    requires SameTables(s, s1) && TableAt(s1, s2, child, v / 1024) && Inv(c, s2, o2)
    requires pa in s2.mem && pa in o2.roles && o2.roles[pa].User? && pa in s3.mem && s3 == s2.(mem := s2.mem[pa := s3.mem[pa]])
    ensures TableAt(s, s3, child, v / 1024)
  {
    hide Inv, SameTables, TableAt;
    TablesStay(c, s2, o2, s3);
    SameTablesThen(s, s1, s2, child, v / 1024);
    TableAtThen(s, s2, s3, child, v / 1024);
  }

  lemma CostsNothing(c: Config, s0: State, parent: int, v: nat)
    requires !Copied(c, s0, parent, v)
    ensures PageCost(c, s0, parent, v) == 0
  {
  }

  lemma OneTableAt(s2: State, s3: State, p: int, i: int, k: int)
    requires TableAt(s2, s3, p, i) && p in s2.pds && 512 <= k < WORDS && !Tabled(s2, p, k)
    ensures Tabled(s3, p, k) <==> k == i
  {
    hide Tabled;
  }

  // ----- a new address space

  lemma NewSpace(c: Config, s: State, o: Owners, p: int, d: nat, pg: Page)
    requires Inv(c, s, o) && s.mapped == c.limit && p !in s.pds
    requires d in s.mem && o.roles[d] == Detached && KernelHalf(c, s, pg)
    ensures var s2, o2 := s.(mem := s.mem[d := pg], pds := s.pds[p := d]), WithRole(o, d, Directory(p));
      && Inv(c, s2, o2) && Step(s, o, s2, o2) && SameMap(s, s2)
      && (forall v: nat {:trigger Translate(s2, p, v)} :: USER <= v < PAGES ==> Translate(s2, p, v) == -1)
  {
    hide FreeListOk, FrameOk;
    var s2, o2 := s.(mem := s.mem[d := pg], pds := s.pds[p := d]), WithRole(o, d, Directory(p));
    NewDirectory(c, s, o, p, d, pg);
    forall q: int, w: nat | q in s.pds && w < PAGES ensures Translate(s2, q, w) == Translate(s, q, w) {
      SameTranslation(c, s, o, s2.(pds := s.pds), q, w);
      assert s2.pds[q] == s.pds[q];
    }
    forall v: nat | USER <= v < PAGES ensures Translate(s2, p, v) == -1 {
      EmptyUpperHalf(c, s, pg, v);
    }
  }

  lemma EmptyUpperHalf(c: Config, s: State, pg: Page, v: nat)
    requires KernelHalf(c, s, pg) && USER <= v < PAGES && c.Valid()
    ensures v / 1024 < |pg| && !Present(pg[v / 1024])
  {
  }

  // ----- exec's sweep

  /** Private pages of p in [USER, upto), devices apart, that are mapped. */
  ghost function MappedCount(c: Config, s: State, p: int, upto: nat): nat {
    if upto <= USER then 0
    else MappedCount(c, s, p, upto - 1) + (if !c.Device(upto - 1) && Mapped(s, p, upto - 1) then 1 else 0)
  }

  ghost predicate SweptUpTo(c: Config, s0: State, o0: Owners, s: State, o: Owners, p: int, upto: nat) {
    && Inv(c, s, o) && p in s.pds && s.pds == s0.pds && s.mapped == s0.mapped && OthersKept(s0, o0, s, o, p)
    && (forall q: int, w: nat {:trigger Translate(s, q, w)} :: q in s.pds && w < PAGES ==>
          Translate(s, q, w)
          == if q == p && USER <= w < upto && !c.Device(w) then -1 else Translate(s0, q, w))
    && |o.free| == |o0.free| + MappedCount(c, s0, p, upto)
  }

  lemma SweepStarts(c: Config, s: State, o: Owners, p: int)
    requires Inv(c, s, o) && p in s.pds
    ensures SweptUpTo(c, s, o, s, o, p, USER)
  {
  }

  /** One page of the sweep: unmapped if it is a mapped private page, passed over otherwise. */
  lemma SweepStep(c: Config, s0: State, o0: Owners, s: State, o: Owners, p: int, v: nat)
    requires SweptUpTo(c, s0, o0, s, o, p, v) && USER <= v < PAGES
    ensures if c.Device(v) || Translate(s, p, v) == -1 then SweptUpTo(c, s0, o0, s, o, p, v + 1)
            else UnmapReady(s, s.pds[p], v)
                 && SweptUpTo(c, s0, o0, UnmapState(s, s.pds[p], v), UnmapOwners(s, o, p, v), p, v + 1)
  {
    hide Inv, UnmapState, UnmapOwners;
    assert Translate(s, p, v) == Translate(s0, p, v);
    if !c.Device(v) && Translate(s, p, v) != -1 {
      UnmapUser(c, s, o, p, v);
      var s2, o2 := UnmapState(s, s.pds[p], v), UnmapOwners(s, o, p, v);
      forall q: int, w: nat | q in s2.pds && w < PAGES
        ensures Translate(s2, q, w) == if q == p && USER <= w < v + 1 && !c.Device(w) then -1 else Translate(s0, q, w)
      {
        if !(q == p && w == v) { assert Translate(s, q, w) == Translate(s2, q, w); }
      }
      forall f | f in s0.mem && o0.roles[f].User? && o0.roles[f].pid != p
        ensures s2.mem[f] == s0.mem[f] && o2.roles[f] == o0.roles[f]
      {
        assert s.mem[f] == s0.mem[f] && o.roles[f] == o0.roles[f];
      }
    }
  }

  // ----- the end of a process

  /** Page tables of the private half of directory page d, at index 512 to i - 1. */
  ghost function TableCount(pg: Page, i: nat): nat
    requires |pg| == WORDS && i <= WORDS
  {
    if i <= 512 then 0 else TableCount(pg, i - 1) + (if Present(pg[i - 1]) then 1 else 0)
  }

  /** What delete_pd has made, before index i, of a frame that had role r0: the frames of p
      are unreferenced, and its tables below i free already. */
  ghost predicate TornRole(r0: Role, r: Role, p: int, i: int) {
    if !OwnedBy(r0, p) then r == r0
    else r == if r0.Table? && r0.index < i then Free else Detached
  }

  ghost predicate TornRoles(o0: Owners, o: Owners, p: int, i: int) {
    o.roles.Keys == o0.roles.Keys
    && forall f {:trigger o.roles[f]} :: f in o0.roles ==> TornRole(o0.roles[f], o.roles[f], p, i)
  }

  /** Frame d is the directory of p, and its private entries are the tables of p. */
  ghost predicate DirectoryOf(o0: Owners, pg: Page, p: int, d: nat) {
    && |pg| == WORDS && d in o0.roles && o0.roles[d] == Directory(p)
    && (forall f :: f in o0.roles && o0.roles[f] == Directory(p) ==> f == d)
    && (forall f {:trigger o0.roles[f]} :: f in o0.roles && o0.roles[f].Table? && o0.roles[f].pid == p ==>
          512 <= o0.roles[f].index < WORDS && pg[o0.roles[f].index] == Entry(f))
    && (forall k {:trigger pg[k]} :: 512 <= k < WORDS && Present(pg[k]) ==>
          FrameOf(pg[k]) in o0.roles && o0.roles[FrameOf(pg[k])] == Table(p, k))
  }

  /** delete_pd after i: the tables before i are free, the others and the directory wait,
      and the private pages are lost. */
  ghost predicate TornUpTo(c: Config, s0: State, o0: Owners, s: State, o: Owners, p: int, d: nat, i: nat) {
    && Inv(c, s, o) && p in s0.pds && s.pds == s0.pds - {p} && d == s0.pds[p] && 512 <= i <= WORDS
    && s.mapped == s0.mapped && OthersKept(s0, o0, s, o, p)
    && d in s.mem && d in s0.mem && s.mem[d] == s0.mem[d] && DirectoryOf(o0, s.mem[d], p, d)
    && (forall q: int, w: nat {:trigger Translate(s, q, w)} :: q in s.pds && w < PAGES ==>
          Translate(s, q, w) == Translate(s0, q, w))
    && TornRoles(o0, o, p, i)
    && |o.free| == |o0.free| + TableCount(s.mem[d], i)
  }

  lemma DirectoryKnown(c: Config, s: State, o: Owners, p: int)
    requires Inv(c, s, o) && p in s.pds
    ensures s.pds[p] in s.mem && DirectoryOf(o, s.mem[s.pds[p]], p, s.pds[p])
  {
    hide FreeListOk;
    ProcessDirectory(c, s, o, p);
    var pg := s.mem[s.pds[p]];
    forall f | f in o.roles && (o.roles[f] == Directory(p) || (o.roles[f].Table? && o.roles[f].pid == p))
      ensures o.roles[f] == Directory(p) ==> f == s.pds[p]
      ensures o.roles[f].Table? ==> 512 <= o.roles[f].index < WORDS && pg[o.roles[f].index] == Entry(f)
    {
      assert FrameOk(c, s, o, f);
    }
    forall k | 512 <= k < WORDS && Present(pg[k])
      ensures FrameOf(pg[k]) in o.roles && o.roles[FrameOf(pg[k])] == Table(p, k)
    {
      TableExists(c, s, o, p, k);
    }
  }

  lemma TearStarts(c: Config, s: State, o: Owners, p: int)
    requires Inv(c, s, o) && p in s.pds
    ensures TornUpTo(c, s, o, s.(pds := s.pds - {p}), Disown(o, p), p, s.pds[p], 512)
  {
    hide FreeListOk, FrameOk, DirectoryOf;
    DropProcess(c, s, o, p);
    DirectoryKnown(c, s, o, p);
    TablesAreHigh(c, s, o, p);
  }

  lemma TablesAreHigh(c: Config, s: State, o: Owners, p: int)
    requires Inv(c, s, o) && p in s.pds
    ensures TornRoles(o, Disown(o, p), p, 512)
  {
    DirectoryKnown(c, s, o, p);
    hide Inv;
    forall f | f in o.roles ensures TornRole(o.roles[f], Disown(o, p).roles[f], p, 512) {}
  }

  lemma TearStep(c: Config, s0: State, o0: Owners, s: State, o: Owners, p: int, d: nat, i: nat)
    requires TornUpTo(c, s0, o0, s, o, p, d, i) && i < WORDS
    ensures if !Present(s.mem[d][i]) then TornUpTo(c, s0, o0, s, o, p, d, i + 1)
            else
              var t := FrameOf(s.mem[d][i]);
              && t in s.mem && |s.mem[t]| == WORDS
              && TornUpTo(c, s0, o0, Dealloc(s, t), DeallocOwners(o, t), p, d, i + 1)
  {
    hide FrameOk, FreeListOk;
    TearRoles(o0, o, s.mem[d], p, d, i);
    if Present(s.mem[d][i]) {
      var t := FrameOf(s.mem[d][i]);
      DeallocStep(c, s, o, t);
      var s2 := Dealloc(s, t);
      forall q: int, w: nat | q in s2.pds && w < PAGES ensures Translate(s2, q, w) == Translate(s0, q, w) {
        assert Translate(s, q, w) == Translate(s0, q, w);
      }
    }
  }

  /** Freeing the table at i, if there is one, settles the frames with that index. */
  lemma TearRoles(o0: Owners, o: Owners, pg: Page, p: int, d: nat, i: nat)
    requires DirectoryOf(o0, pg, p, d) && TornRoles(o0, o, p, i) && 512 <= i < WORDS
    ensures !Present(pg[i]) ==> TornRoles(o0, o, p, i + 1)
    ensures Present(pg[i]) ==> FrameOf(pg[i]) in o.roles && o.roles[FrameOf(pg[i])] == Detached && FrameOf(pg[i]) != d
                               && TornRoles(o0, DeallocOwners(o, FrameOf(pg[i])), p, i + 1)
  {
    forall f | f in o0.roles && o0.roles[f] == Table(p, i) ensures Present(pg[i]) && f == FrameOf(pg[i]) {
      EntryDecodes(f);
    }
    forall f | f in o0.roles && f != FrameOf(pg[i])
      ensures TornRole(o0.roles[f], o.roles[f], p, i + 1)
    {
      assert TornRole(o0.roles[f], o.roles[f], p, i);
    }
    if !Present(pg[i]) {
      forall f | f in o0.roles ensures TornRole(o0.roles[f], o.roles[f], p, i + 1) {
        assert TornRole(o0.roles[f], o.roles[f], p, i);
      }
    }
  }

  /** What a role becomes when process p ends: the directory and the tables of p are free,
      its pages are lost, and every other frame plays the role it did. */
  ghost predicate GoneRole(r0: Role, r: Role, p: int) {
    if !OwnedBy(r0, p) then r == r0 else r == if r0.User? then Detached else Free
  }

  ghost predicate GoneRoles(o0: Owners, o: Owners, p: int) {
    o.roles.Keys == o0.roles.Keys
    && forall f {:trigger o.roles[f]} :: f in o0.roles ==> GoneRole(o0.roles[f], o.roles[f], p)
  }

  /** What remains of process p: its directory and tables are free, its pages are not. */
  ghost predicate TornDown(c: Config, s0: State, o0: Owners, s: State, o: Owners, p: int) {
    && Inv(c, s, o) && p in s0.pds && s.pds == s0.pds - {p} && s.mapped == s0.mapped && OthersKept(s0, o0, s, o, p)
    && (forall q: int, w: nat {:trigger Translate(s, q, w)} :: q in s.pds && w < PAGES ==>
          Translate(s, q, w) == Translate(s0, q, w))
    && GoneRoles(o0, o, p)
    && s0.pds[p] in s0.mem && |s0.mem[s0.pds[p]]| == WORDS
    && |o.free| == |o0.free| + TableCount(s0.mem[s0.pds[p]], WORDS) + 1
  }

  lemma TearEnds(c: Config, s0: State, o0: Owners, s: State, o: Owners, p: int, d: nat)
    requires TornUpTo(c, s0, o0, s, o, p, d, WORDS)
    ensures TornDown(c, s0, o0, Dealloc(s, d), DeallocOwners(o, d), p)
  {
    hide FrameOk, FreeListOk;
    DeallocStep(c, s, o, d);
    EndRoles(o0, o, s.mem[d], p, d);
    var s2 := Dealloc(s, d);
    forall q: int, w: nat | q in s2.pds && w < PAGES ensures Translate(s2, q, w) == Translate(s0, q, w) {
      assert Translate(s, q, w) == Translate(s0, q, w);
    }
  }

  lemma EndRoles(o0: Owners, o: Owners, pg: Page, p: int, d: nat)
    requires DirectoryOf(o0, pg, p, d) && TornRoles(o0, o, p, WORDS)
    ensures GoneRoles(o0, DeallocOwners(o, d), p)
  {
    forall f | f in o0.roles ensures GoneRole(o0.roles[f], DeallocOwners(o, d).roles[f], p) {
      assert TornRole(o0.roles[f], o.roles[f], p, WORDS);
    }
  }

  /** A frame of a private page is mapped there. */
  lemma OwnedPageIsMapped(c: Config, s: State, o: Owners, f: nat)
    requires Inv(c, s, o) && f in s.mem && o.roles[f].User?
    ensures var p, v := o.roles[f].pid, 1024 * o.roles[f].index + o.roles[f].slot;
      p in s.pds && USER <= v < PAGES && !c.Device(v) && Translate(s, p, v) == f
  {
    hide FreeListOk;
    var p, i, j := o.roles[f].pid, o.roles[f].index, o.roles[f].slot;
    assert FrameOk(c, s, o, f);
    var v := 1024 * i + j;
    assert v / 1024 == i && v % 1024 == j;
    EntryDecodes(f);
    EntryDecodes(FrameOf(s.mem[s.pds[p]][i]));
    UserWalk(c, s, o, p, v);
    TableExists(c, s, o, p, i);
  }

  /** No frame became unreferenced that was not before. */
  ghost predicate LosesNothing(o0: Owners, o: Owners) {
    forall f {:trigger o.roles[f]} :: f in o.roles && f in o0.roles && o.roles[f] == Detached ==> o0.roles[f] == Detached
  }

  /** Of its private half the process maps the devices at most. */
  ghost predicate OnlyDevices(c: Config, s: State, p: int) {
    forall v: nat {:trigger Translate(s, p, v)} :: USER <= v < PAGES && !c.Device(v) ==> Translate(s, p, v) == -1
  }

  /** delete_pd loses no frame exactly when the process has no private page mapped but the
      devices. */
  lemma LosesNothingIff(c: Config, s0: State, o0: Owners, s: State, o: Owners, p: int)
    requires Inv(c, s0, o0) && TornDown(c, s0, o0, s, o, p)
    ensures LosesNothing(o0, o) <==> OnlyDevices(c, s0, p)
  {
    hide FreeListOk, FrameOk;
    forall v: nat | USER <= v < PAGES && !c.Device(v) && Translate(s0, p, v) != -1
      ensures var f := Translate(s0, p, v); f in o.roles && f in o0.roles && o.roles[f] == Detached && o0.roles[f] != Detached
    {
      MappedPageIsOwned(c, s0, o0, p, v);
      assert GoneRole(o0.roles[Translate(s0, p, v)], o.roles[Translate(s0, p, v)], p);
    }
    forall f | f in o.roles && f in o0.roles && o.roles[f] == Detached && o0.roles[f] != Detached
      ensures exists v: nat {:trigger Translate(s0, p, v)} ::
        USER <= v < PAGES && !c.Device(v) && Translate(s0, p, v) != -1
    {
      assert GoneRole(o0.roles[f], o.roles[f], p);
      OwnedPageIsMapped(c, s0, o0, f);
    }
  }

  // ----- the loops over tables

  /** Every complete address space stays complete when other pages are mapped or unmapped. */
  lemma DevicesStay(c: Config, s: State, s2: State, p: int, v: int, q: int)
    requires SameMapBut(s, s2, p, v) && DevicesMapped(c, s, q) && v != c.io && v != c.local
    ensures DevicesMapped(c, s2, q)
  {
    assert Translate(s2, q, c.io) == Translate(s, q, c.io);
    assert Translate(s2, q, c.local) == Translate(s, q, c.local);
  }

  /** What the loops read: whether the directory has a table at i, and whether the table has
      a page at j. */
  lemma TableSeen(c: Config, s: State, o: Owners, p: int, i: nat)
    requires Inv(c, s, o) && p in s.pds && 512 <= i < WORDS
    ensures s.pds[p] in s.mem && |s.mem[s.pds[p]]| == WORDS
    ensures var e := s.mem[s.pds[p]][i];
      && (Present(e) ==> HasTable(c, s, o, p, i, FrameOf(e)))
      && (!Present(e) ==> forall v: nat {:trigger Translate(s, p, v)} ::
            1024 * i <= v < 1024 * i + 1024 ==> Translate(s, p, v) == -1)
  {
    hide Inv;
    UserTable(c, s, o, p, 1024 * i);
    forall v: nat | 1024 * i <= v < 1024 * i + 1024 && !Present(s.mem[s.pds[p]][i]) ensures Translate(s, p, v) == -1 {
      UserWalk(c, s, o, p, v);
    }
  }

  lemma PageSeen(c: Config, s: State, o: Owners, p: int, i: nat, j: nat, t: nat)
    requires Inv(c, s, o) && t in s.mem && o.roles[t] == Table(p, i) && j < WORDS
    ensures p in s.pds && 512 <= i < WORDS && |s.mem[t]| == WORDS
    ensures Present(s.mem[t][j]) <==> Translate(s, p, 1024 * i + j) != -1
  {
    assert FrameOk(c, s, o, t);
    UserWalk(c, s, o, p, 1024 * i + j);
  }

  lemma ForkSkipsTable(c: Config, s0: State, o0: Owners, s: State, o: Owners, parent: int, child: int, i: nat, j: nat)
    requires ForkedUpTo(c, s0, o0, s, o, parent, child, 1024 * i + j) && 512 <= i < WORDS && j <= 1024
    requires forall v: nat {:trigger Translate(s, parent, v)} :: 1024 * i <= v < 1024 * i + 1024 ==> Translate(s, parent, v) == -1
    ensures ForkedUpTo(c, s0, o0, s, o, parent, child, 1024 * (i + 1))
    decreases 1024 - j
  {
    hide Inv, Step, CopiedPage;
    if j < 1024 {
      assert Translate(s, parent, 1024 * i + j) == Translate(s0, parent, 1024 * i + j);
      ForkSkips(c, s0, o0, s, o, parent, child, 1024 * i + j);
      ForkSkipsTable(c, s0, o0, s, o, parent, child, i, j + 1);
    }
  }

  lemma SweepSkipsTable(c: Config, s0: State, o0: Owners, s: State, o: Owners, p: int, i: nat, j: nat)
    requires SweptUpTo(c, s0, o0, s, o, p, 1024 * i + j) && 512 <= i < WORDS && j <= 1024
    requires forall v: nat {:trigger Translate(s, p, v)} :: 1024 * i <= v < 1024 * i + 1024 ==> Translate(s, p, v) == -1
    ensures SweptUpTo(c, s0, o0, s, o, p, 1024 * (i + 1))
    decreases 1024 - j
  {
    hide SweptUpTo;
    if j < 1024 {
      SweepStep(c, s0, o0, s, o, p, 1024 * i + j);
      SweepSkipsTable(c, s0, o0, s, o, p, i, j + 1);
    }
  }

  /** A page that unmap() gives back is not a page table. */
  lemma TableSurvivesUnmap(c: Config, s: State, o: Owners, p: int, v: nat, t: nat)
    requires Inv(c, s, o) && p in s.pds && USER <= v < PAGES && !c.Device(v) && t in s.mem && o.roles[t].Table?
    ensures t in UnmapOwners(s, o, p, v).roles && UnmapOwners(s, o, p, v).roles[t] == o.roles[t]
  {
    if Translate(s, p, v) != -1 { MappedPageIsOwned(c, s, o, p, v); }
  }

  // ----- steps of make_pd

  lemma StepNothing(c: Config, s: State, o: Owners)
    requires Inv(c, s, o)
    ensures Step(s, o, s, o) && SameMap(s, s)
  {
  }

  lemma SharedEntriesFit(c: Config, s: State, o: Owners)
    requires Inv(c, s, o) && s.mapped == c.limit
    ensures s.shared in s.mem && |s.mem[s.shared]| == WORDS && c.SharedEntries() <= 512 && c.Valid()
  {
    SharedEntriesCount(c, s, o, 0);
  }

  /** memcpy of the shared entries into the zeroed page. */
  lemma KernelHalfBuilt(c: Config, s: State, d: nat)
    requires s.shared in s.mem && |s.mem[s.shared]| == WORDS && d in s.mem && s.mem[d] == ZeroPage() && c.SharedEntries() <= 512
    ensures KernelHalf(c, s, s.mem[s.shared][..c.SharedEntries()] + s.mem[d][c.SharedEntries()..])
  {
  }

  lemma SameMapOnce(s: State, s1: State, s2: State)
    requires SameMap(s, s1) && SameMap(s1, s2)
    ensures SameMap(s, s2)
  {
    forall q: int, w: nat | q in s.pds && w < PAGES ensures Translate(s2, q, w) == Translate(s, q, w) {
      assert Translate(s1, q, w) == Translate(s, q, w);
    }
  }

  /** A change to a process that is new affects none of the old ones. */
  lemma SameMapApart(s: State, s1: State, s2: State, p: int, v: int)
    requires SameMap(s, s1) && SameMapBut(s1, s2, p, v) && p !in s.pds
    ensures SameMap(s, s2)
  {
    forall q: int, w: nat | q in s.pds && w < PAGES ensures Translate(s2, q, w) == Translate(s, q, w) {
      assert Translate(s1, q, w) == Translate(s, q, w);
    }
  }

  lemma DevicesKept(c: Config, s: State, s2: State)
    requires SameMap(s, s2) && forall q :: q in s.pds ==> DevicesMapped(c, s, q)
    ensures forall q :: q in s.pds ==> DevicesMapped(c, s2, q)
  {
    forall q | q in s.pds ensures DevicesMapped(c, s2, q) {
      assert DevicesMapped(c, s, q);
      assert Translate(s2, q, c.io) == Translate(s, q, c.io) && Translate(s2, q, c.local) == Translate(s, q, c.local);
    }
  }

  /** After both device pages are mapped, the new space is complete and otherwise empty. */
  lemma MakePdReady(c: Config, s: State, s2: State, s3: State, s4: State, p: int)
    requires c.Valid() && p in s2.pds && SameMapBut(s2, s3, p, c.io) && SameMapBut(s3, s4, p, c.local)
    requires forall v: nat {:trigger Translate(s2, p, v)} :: USER <= v < PAGES ==> Translate(s2, p, v) == -1
    requires Translate(s3, p, c.io) == c.io && Translate(s4, p, c.local) == c.local
    ensures DevicesMapped(c, s4, p)
    ensures forall v: nat {:trigger Translate(s4, p, v)} ::
      USER <= v < PAGES && !c.Device(v) ==> Translate(s4, p, v) == -1
  {
    if c.io != c.local { assert Translate(s4, p, c.io) == Translate(s3, p, c.io); }
    forall v: nat | USER <= v < PAGES && !c.Device(v) ensures Translate(s4, p, v) == -1 {
      assert Translate(s3, p, v) == Translate(s2, p, v);
      assert Translate(s4, p, v) == Translate(s3, p, v);
    }
  }

  lemma DevicesAfterTear(c: Config, s0: State, o0: Owners, s: State, o: Owners, p: int, q: int)
    requires TornDown(c, s0, o0, s, o, p) && q in s.pds && DevicesMapped(c, s0, q)
    ensures DevicesMapped(c, s, q)
  {
    assert Translate(s, q, c.io) == Translate(s0, q, c.io) && Translate(s, q, c.local) == Translate(s0, q, c.local);
  }

  lemma SameMapWeaken(s: State, s2: State, p: int, v: int)
    requires SameMap(s, s2)
    ensures SameMapBut(s, s2, p, v)
  {
  }

  lemma TranslateKept(s: State, s2: State, p: int, v: nat)
    requires SameMap(s, s2) && p in s.pds && v < PAGES
    ensures Translate(s2, p, v) == Translate(s, p, v)
  {
  }

  /** An unmapped page of a complete address space is not a device page. */
  lemma NotADevice(c: Config, s: State, p: int, v: nat)
    requires DevicesMapped(c, s, p) && v < PAGES && Translate(s, p, v) == -1
    ensures !c.Device(v)
  {
  }

  lemma DevicesStayAll(c: Config, s: State, s2: State, p: int, v: int)
    requires SameMapBut(s, s2, p, v) && v != c.io && v != c.local
    requires forall q :: q in s.pds ==> DevicesMapped(c, s, q)
    ensures forall q :: q in s.pds ==> DevicesMapped(c, s2, q)
  {
    forall q | q in s.pds ensures DevicesMapped(c, s2, q) { DevicesStay(c, s, s2, p, v, q); }
  }

  lemma ForkStarts(c: Config, s0: State, o0: Owners, s: State, o: Owners, parent: int, child: int)
    requires Inv(c, s, o) && Step(s0, o0, s, o) && SameMap(s0, s) && s.mapped == c.limit
    requires parent in s0.pds && child !in s0.pds && s.pds.Keys == s0.pds.Keys + {child} && DevicesMapped(c, s, child)
    requires forall v: nat {:trigger Translate(s, child, v)} ::
      USER <= v < PAGES && !c.Device(v) ==> Translate(s, child, v) == -1
    ensures ForkedUpTo(c, s0, o0, s, o, parent, child, USER)
  {
  }

  lemma TableStays(s: State, o: Owners, s2: State, o2: Owners, t: nat)
    requires Step(s, o, s2, o2) && t in o.roles && o.roles[t].Table?
    ensures t in s2.mem && t in o2.roles && o2.roles[t] == o.roles[t]
  {
  }

  /** A failed step of fork still leaves the old processes alone. */
  lemma ForkAbandoned(c: Config, s0: State, o0: Owners, s: State, o: Owners, parent: int, child: int, upto: int,
                      s1: State, o1: Owners)
    requires ForkedUpTo(c, s0, o0, s, o, parent, child, upto) && Step(s, o, s1, o1) && SameMap(s, s1)
    ensures Step(s0, o0, s1, o1) && SameMap(s0, s1)
  {
    hide Step;
    StepTwice(s0, o0, s, o, s1, o1);
    SameMapOnce(s0, s, s1);
  }

  /** memcpy(pa, va) as the parent sees it: pa through the kernel half, va through its own. */
  lemma ForkWalks(c: Config, s: State, o: Owners, parent: int, v: nat, pa: nat)
    requires Inv(c, s, o) && s.mapped == c.limit && parent in s.pds && v < PAGES && pa in s.mem
    ensures pa < PAGES && Walk(s.mem, s.pds[parent], pa) == pa && Walk(s.mem, s.pds[parent], v) == Translate(s, parent, v)
  {
    hide FrameOk, FreeListOk;
    KernelHalfIsIdentity(c, s, o, parent, pa);
  }

  /** After fork: a private page is mapped in the child exactly when it was mapped in the
      parent, with the parent's contents, on a frame that no process had mapped before; and
      the parent still maps it to the same frame, with the same contents. */
  lemma ForkIsAPrivateCopy(c: Config, s0: State, o0: Owners, s: State, o: Owners, parent: int, child: int, v: nat)
    requires Inv(c, s0, o0) && ForkedUpTo(c, s0, o0, s, o, parent, child, PAGES)
    requires USER <= v < PAGES && !c.Device(v)
    ensures Translate(s, parent, v) == Translate(s0, parent, v)
    ensures Translate(s, child, v) != -1 <==> Translate(s0, parent, v) != -1
    ensures Translate(s0, parent, v) != -1 ==>
      var f, g := Translate(s, child, v), Translate(s0, parent, v);
      && f in s.mem && g in s.mem && g in s0.mem && s.mem[f] == s0.mem[g] == s.mem[g]
      && (forall q: int, w: nat :: q in s0.pds && w < PAGES && USER <= w ==> Translate(s0, q, w) != f)
  {
    hide FrameOk, FreeListOk;
    assert Translate(s, parent, v) == Translate(s0, parent, v);
    assert CopiedPage(s0, o0, s, parent, child, v);
    if Translate(s0, parent, v) != -1 {
      var f, g := Translate(s, child, v), Translate(s0, parent, v);
      MappedPageIsOwned(c, s0, o0, parent, v);
      assert s.mem[g] == s0.mem[g];
      forall q: int, w: nat | q in s0.pds && USER <= w < PAGES ensures Translate(s0, q, w) != f {
        if Translate(s0, q, w) != -1 { MappedPageIsOwned(c, s0, o0, q, w); }
      }
    }
  }

  lemma SweepLeavesDevices(c: Config, s0: State, o0: Owners, s: State, o: Owners, p: int)
    requires Inv(c, s0, o0) && DevicesMapped(c, s0, p) && SweptUpTo(c, s0, o0, s, o, p, PAGES)
    ensures forall v: nat {:trigger Translate(s, p, v)} ::
      USER <= v < PAGES ==> Translate(s, p, v) == if c.Device(v) then v else -1
    ensures |o.free| == |o0.free| + MappedCount(c, s0, p, PAGES)
  {
  }

  lemma UnmapKeepsFrames(c: Config, s: State, o: Owners, p: int, v: nat)
    requires Inv(c, s, o) && p in s.pds && USER <= v < PAGES && !c.Device(v)
    ensures UnmapReady(s, s.pds[p], v) && UnmapState(s, s.pds[p], v).mem.Keys == s.mem.Keys
  {
    UnmapUser(c, s, o, p, v);
  }

  lemma DevicesAfterSweep(c: Config, s0: State, o0: Owners, s: State, o: Owners, p: int, q: int)
    requires SweptUpTo(c, s0, o0, s, o, p, PAGES) && q in s.pds && DevicesMapped(c, s0, q)
    ensures DevicesMapped(c, s, q)
  {
    assert Translate(s, q, c.io) == Translate(s0, q, c.io) && Translate(s, q, c.local) == Translate(s0, q, c.local);
  }
}
