/** What the ownership invariant says about address translation. */
module Translation {
  import opened Paging

  lemma UserTable(c: Config, s: State, o: Owners, p: int, v: nat)
    requires Inv(c, s, o) && p in s.pds && USER <= v < PAGES
    ensures HasProcess(c, s, o, p) && s.pds[p] in s.mem
    ensures var e := s.mem[s.pds[p]][v / 1024];
      e != 0 ==> Present(e) && HasTable(c, s, o, p, v / 1024, FrameOf(e))
                 && TableEntryOk(c, s, o, FrameOf(e), p, v / 1024, v % 1024)
  {
    hide FreeListOk;
    ProcessDirectory(c, s, o, p);
    var e := s.mem[s.pds[p]][v / 1024];
    if e != 0 {
      TableExists(c, s, o, p, v / 1024);
      assert FrameOk(c, s, o, FrameOf(e));
    }
  }

  /** Where the walk of a private page goes. */
  lemma UserWalk(c: Config, s: State, o: Owners, p: int, v: nat)
    requires Inv(c, s, o) && p in s.pds && USER <= v < PAGES
    ensures HasProcess(c, s, o, p) && s.pds[p] in s.mem
    ensures var e := s.mem[s.pds[p]][v / 1024];
      && (e == 0 ==> Translate(s, p, v) == -1)
      && (e != 0 ==> Present(e) && HasTable(c, s, o, p, v / 1024, FrameOf(e))
                     && TableEntryOk(c, s, o, FrameOf(e), p, v / 1024, v % 1024)
                     && var x := s.mem[FrameOf(e)][v % 1024];
                        (Present(x) <==> x != 0) && Translate(s, p, v) == if x == 0 then -1 else FrameOf(x))
  {
    hide Inv;
    UserTable(c, s, o, p, v);
  }

  /** A mapped private page is a device page at its own address, or a frame whose one and
      only role is to be that page of that process. */
  lemma MappedPageIsOwned(c: Config, s: State, o: Owners, p: int, v: nat)
    requires Inv(c, s, o) && p in s.pds && USER <= v < PAGES && Translate(s, p, v) != -1
    ensures c.Device(v) ==> Translate(s, p, v) == v
    ensures !c.Device(v) ==> Translate(s, p, v) in s.mem && o.roles[Translate(s, p, v)] == User(p, v / 1024, v % 1024)
  {
    hide FreeListOk, Inv;
    UserWalk(c, s, o, p, v);
    assert v == 1024 * (v / 1024) + v % 1024;
  }

  /** Processes share no private frame: two mapped private pages, devices apart, lie on the
      same frame only if they are the same page of the same process; and that frame is
      neither free, nor untouched, nor part of any page directory or table. */
  lemma NoSharedFrames(c: Config, s: State, o: Owners, p: int, v: nat, q: int, w: nat)
    requires Inv(c, s, o) && p in s.pds && q in s.pds
    requires USER <= v < PAGES && USER <= w < PAGES && !c.Device(v) && !c.Device(w)
    requires Translate(s, p, v) != -1 && Translate(s, p, v) == Translate(s, q, w)
    ensures p == q && v == w
    ensures var f := Translate(s, p, v);
      && c.start <= f < s.avail && f !in o.free && f != s.shared
      && (forall r :: r in s.pds ==> s.pds[r] != f)
      && (forall r, i :: r in s.pds && 512 <= i < WORDS && |s.mem[s.pds[r]]| == WORDS && s.mem[s.pds[r]][i] != 0 ==>
            FrameOf(s.mem[s.pds[r]][i]) != f)
  {
    MappedPageIsOwned(c, s, o, p, v);
    MappedPageIsOwned(c, s, o, q, w);
    assert v == 1024 * (v / 1024) + v % 1024 && w == 1024 * (w / 1024) + w % 1024;
    var f := Translate(s, p, v);
    assert FrameOk(c, s, o, f);
    HeadOfList(c, s, o);
    forall r, i | r in s.pds && 512 <= i < WORDS && |s.mem[s.pds[r]]| == WORDS && s.mem[s.pds[r]][i] != 0
      ensures FrameOf(s.mem[s.pds[r]][i]) != f
    {
      ProcessDirectory(c, s, o, r);
      TableExists(c, s, o, r, i);
    }
  }

  /** Processes share no private page table: two directory entries lead to one table only if
      they are the same entry of the same process; and that table is neither free, nor
      untouched, nor any directory. */
  lemma NoSharedTables(c: Config, s: State, o: Owners, p: int, i: nat, q: int, k: nat)
    requires Inv(c, s, o) && p in s.pds && q in s.pds && 512 <= i < WORDS && 512 <= k < WORDS
    ensures s.pds[p] in s.mem && |s.mem[s.pds[p]]| == WORDS && s.pds[q] in s.mem && |s.mem[s.pds[q]]| == WORDS
    ensures var e, e' := s.mem[s.pds[p]][i], s.mem[s.pds[q]][k];
      e != 0 && e' != 0 && FrameOf(e) == FrameOf(e') ==> p == q && i == k
    ensures s.mem[s.pds[p]][i] != 0 ==>
      var t := FrameOf(s.mem[s.pds[p]][i]);
      && c.start <= t < s.avail && t !in o.free && t != s.shared && forall r :: r in s.pds ==> s.pds[r] != t
  {
    hide FreeListOk;
    ProcessDirectory(c, s, o, p);
    ProcessDirectory(c, s, o, q);
    if s.mem[s.pds[p]][i] != 0 {
      TableExists(c, s, o, p, i);
      HeadOfList(c, s, o);
      assert FrameOk(c, s, o, FrameOf(s.mem[s.pds[p]][i]));
      if s.mem[s.pds[q]][k] != 0 { TableExists(c, s, o, q, k); }
    }
  }

  /** Nor do they share a directory; it is neither free, nor untouched, nor the shared one. */
  lemma NoSharedDirectories(c: Config, s: State, o: Owners, p: int, q: int)
    requires Inv(c, s, o) && p in s.pds && q in s.pds
    ensures s.pds[p] == s.pds[q] ==> p == q
    ensures c.start <= s.pds[p] < s.avail && s.pds[p] !in o.free && s.pds[p] != s.shared
  {
    hide FreeListOk;
    ProcessDirectory(c, s, o, p);
    HeadOfList(c, s, o);
  }

  lemma KernelTable(c: Config, s: State, o: Owners, p: int, v: nat)
    requires Inv(c, s, o) && p in s.pds && v < USER
    ensures s.pds[p] in s.mem && |s.mem[s.pds[p]]| == WORDS
    ensures var e := s.mem[s.pds[p]][v / 1024];
      if 2 <= s.mapped && 1024 * (v / 1024) < s.mapped then
        && Present(e) && FrameOf(e) in s.mem && |s.mem[FrameOf(e)]| == WORDS
        && s.mem[FrameOf(e)][v % 1024] == if 1 <= v < s.mapped then Entry(v) else 0
      else e == 0
  {
    hide FreeListOk;
    ProcessDirectory(c, s, o, p);
    var i := v / 1024;
    assert v == 1024 * i + v % 1024;
    assert DirEntryOk(c, s, o, s.pds[p], p, i);
    assert FrameOk(c, s, o, s.shared);
    assert SharedEntryOk(s, o, i);
    if s.mem[s.shared][i] != 0 {
      assert FrameOk(c, s, o, FrameOf(s.mem[s.shared][i]));
    }
  }

  /** The kernel half of every address space is the identity on mapped physical memory, and
      nothing else. */
  lemma KernelHalfIsIdentity(c: Config, s: State, o: Owners, p: int, v: nat)
    requires Inv(c, s, o) && p in s.pds && v < USER
    ensures Translate(s, p, v) == if 1 <= v < s.mapped then v else -1
  {
    hide Inv;
    KernelTable(c, s, o, p, v);
  }

  /** Frames other than those of directories and tables do not matter to the walk. */
  predicate Structural(r: Role) {
    r.Directory? || r.Table? || r.SharedDirectory? || r.SharedTable?
  }

  lemma SameTranslation(c: Config, s: State, o: Owners, s2: State, p: int, v: nat)
    requires Inv(c, s, o) && p in s.pds && v < PAGES
    requires s2.pds == s.pds && s2.mem.Keys == s.mem.Keys
    requires forall f {:trigger s2.mem[f]} :: f in s.mem && Structural(o.roles[f]) ==> s2.mem[f] == s.mem[f]
    ensures Translate(s2, p, v) == Translate(s, p, v)
  {
    hide FreeListOk;
    ProcessDirectory(c, s, o, p);
    var i := v / 1024;
    var d := s.pds[p];
    assert s2.mem[d] == s.mem[d];
    assert DirEntryOk(c, s, o, d, p, i);
    assert FrameOk(c, s, o, s.shared);
    assert SharedEntryOk(s, o, i);
    if s.mem[d][i] != 0 {
      assert s2.mem[FrameOf(s.mem[d][i])] == s.mem[FrameOf(s.mem[d][i])];
    }
  }

  /** A new table that is still empty maps nothing. */
  lemma EmptyTableMapsNothing(c: Config, s: State, o: Owners, p: int, i: nat, t: nat, q: int, v: nat)
    requires HasProcess(c, s, o, p) && 512 <= i < WORDS && s.mem[s.pds[p]][i] == 0
    requires t in s.mem && o.roles[t] == Detached && s.mem[t] == ZeroPage()
    requires q in s.pds && v < PAGES
    ensures Translate(SetWord(s, s.pds[p], i, Entry(t)), q, v) == Translate(s, q, v)
  {
    hide FreeListOk;
    var s2, o2 := SetWord(s, s.pds[p], i, Entry(t)), WithRole(o, t, Table(p, i));
    StoreTable(c, s, o, p, i, t);
    if v < USER {
      KernelHalfIsIdentity(c, s, o, q, v);
      KernelHalfIsIdentity(c, s2, o2, q, v);
    } else {
      ProcessDirectory(c, s, o, p);
      ProcessDirectory(c, s, o, q);
      UserWalk(c, s, o, q, v);
      UserWalk(c, s2, o2, q, v);
    }
  }

  /** Writing one table entry changes the translation of one page of one process. */
  lemma EntryMapsOnePage(c: Config, s: State, o: Owners, o2: Owners, p: int, i: nat, j: nat, t: nat, e: nat, q: int, v: nat)
    requires EntryChange(c, s, o, o2, p, i, j, t, e) && q in s.pds && v < PAGES
    ensures Translate(SetWord(s, t, j, e), q, v)
         == if q == p && v == 1024 * i + j then (if e == 0 then -1 else FrameOf(e)) else Translate(s, q, v)
  {
    hide FreeListOk, FrameOk;
    var s2 := SetWord(s, t, j, e);
    ChangeEntry(c, s, o, o2, p, i, j, t, e);
    if v < USER {
      KernelHalfIsIdentity(c, s, o, q, v);
      KernelHalfIsIdentity(c, s2, o2, q, v);
    } else {
      assert v == 1024 * (v / 1024) + v % 1024;
      UserWalk(c, s, o, q, v);
      UserWalk(c, s2, o2, q, v);
    }
  }

  // ----- whole address spaces before and after a step

  /** Every process translates every page, but possibly page v of process p, as before. */
  ghost predicate SameMapBut(s: State, s2: State, p: int, v: int) {
    && s.pds.Keys <= s2.pds.Keys
    && forall q: int, w: nat {:trigger Translate(s2, q, w)} ::
      q in s.pds && w < PAGES && !(q == p && w == v) ==> Translate(s2, q, w) == Translate(s, q, w)
  }

  ghost predicate SameMap(s: State, s2: State) {
    && s.pds.Keys <= s2.pds.Keys
    && forall q: int, w: nat {:trigger Translate(s2, q, w)} ::
      q in s.pds && w < PAGES ==> Translate(s2, q, w) == Translate(s, q, w)
  }

  /** The private pages of every process keep their frames and contents. */
  ghost predicate PagesKept(s: State, o: Owners, s2: State, o2: Owners) {
    s.mem.Keys <= o.roles.Keys && s.mem.Keys == s2.mem.Keys == o2.roles.Keys
    && forall f {:trigger o2.roles[f]} {:trigger s2.mem[f]} ::
      f in s.mem && o.roles[f].User? ==> s2.mem[f] == s.mem[f] && o2.roles[f] == o.roles[f]
  }

  predicate Unused(r: Role) {
    r.Free? || r.Untouched?
  }

  /** Frames are taken from the allocator, none is given back, and tables stay tables. */
  ghost predicate OnlyTakes(o: Owners, o2: Owners) {
    o.roles.Keys == o2.roles.Keys
    && (forall f {:trigger o2.roles[f]} :: f in o.roles && Unused(o2.roles[f]) ==> Unused(o.roles[f]))
    && (forall f {:trigger o2.roles[f]} :: f in o.roles && o.roles[f].Table? ==> o2.roles[f] == o.roles[f])
  }

  /** What the private half may rely on across a step that maps pages. */
  ghost predicate Step(s: State, o: Owners, s2: State, o2: Owners) {
    s2.shared == s.shared && s2.mapped == s.mapped && PagesKept(s, o, s2, o2) && OnlyTakes(o, o2)
  }

  lemma StepTwice(s: State, o: Owners, s1: State, o1: Owners, s2: State, o2: Owners)
    requires Step(s, o, s1, o1) && Step(s1, o1, s2, o2)
    ensures Step(s, o, s2, o2)
  {
    forall f | f in s.mem && o.roles[f].User? ensures s2.mem[f] == s.mem[f] && o2.roles[f] == o.roles[f] {
      assert o1.roles[f] == o.roles[f];
    }
    forall f | f in o.roles && Unused(o2.roles[f]) ensures Unused(o.roles[f]) {
      assert Unused(o1.roles[f]);
    }
    forall f | f in o.roles && o.roles[f].Table? ensures o2.roles[f] == o.roles[f] {
      assert o1.roles[f] == o.roles[f];
    }
  }

  lemma SameMapTwice(s: State, s1: State, s2: State, p: int, v: int)
    requires SameMap(s, s1) && SameMapBut(s1, s2, p, v)
    ensures SameMapBut(s, s2, p, v)
  {
    forall q: int, w: nat | q in s.pds && w < PAGES && !(q == p && w == v)
      ensures Translate(s2, q, w) == Translate(s, q, w)
    {
      assert Translate(s1, q, w) == Translate(s, q, w);
    }
  }

  lemma AllocStep(c: Config, s: State, o: Owners)
    requires Inv(c, s, o) && CanAlloc(c, s)
    ensures s.firstFree != 0 ==> s.firstFree in s.mem && |s.mem[s.firstFree]| == WORDS
    ensures var s2, f, o2 := Alloc(s).0, Alloc(s).1, AllocOwners(s, o);
      && Inv(c, s2, o2) && Step(s, o, s2, o2) && SameMap(s, s2)
      && f in s.mem && f in o.roles && Unused(o.roles[f])
      && f in o2.roles && o2.roles[f] == Detached && s2.mem[f] == ZeroPage()
      && s2.pds == s.pds && OnlyFrame(s, o, s2, o2, f)
  {
    hide FreeListOk, FrameOk;
    AllocKeepsInv(c, s, o);
    var s2, f, o2 := Alloc(s).0, Alloc(s).1, AllocOwners(s, o);
    forall q: int, w: nat | q in s.pds && w < PAGES ensures Translate(s2, q, w) == Translate(s, q, w) {
      SameTranslation(c, s, o, s2, q, w);
    }
  }

  lemma TableStep(c: Config, s: State, o: Owners, p: int, i: nat, t: nat)
    requires HasProcess(c, s, o, p) && 512 <= i < WORDS && s.mem[s.pds[p]][i] == 0
    requires t in s.mem && o.roles[t] == Detached && s.mem[t] == ZeroPage()
    ensures var s2, o2 := SetWord(s, s.pds[p], i, Entry(t)), WithRole(o, t, Table(p, i));
      Inv(c, s2, o2) && Step(s, o, s2, o2) && SameMap(s, s2) && HasTable(c, s2, o2, p, i, t)
  {
    hide FreeListOk, FrameOk;
    StoreTable(c, s, o, p, i, t);
    ProcessDirectory(c, s, o, p);
    var s2 := SetWord(s, s.pds[p], i, Entry(t));
    forall q: int, w: nat | q in s.pds && w < PAGES ensures Translate(s2, q, w) == Translate(s, q, w) {
      EmptyTableMapsNothing(c, s, o, p, i, t, q, w);
    }
  }

  lemma EntryStep(c: Config, s: State, o: Owners, o2: Owners, p: int, i: nat, j: nat, t: nat, e: nat)
    requires EntryChange(c, s, o, o2, p, i, j, t, e)
    ensures var s2 := SetWord(s, t, j, e);
      && Inv(c, s2, o2) && SameMapBut(s, s2, p, 1024 * i + j)
      && Translate(s2, p, 1024 * i + j) == (if e == 0 then -1 else FrameOf(e))
      && (e != 0 ==> Step(s, o, s2, o2))
  {
    hide FreeListOk, FrameOk;
    ChangeEntry(c, s, o, o2, p, i, j, t, e);
    var s2 := SetWord(s, t, j, e);
    forall q: int, w: nat | q in s.pds && w < PAGES
      ensures Translate(s2, q, w)
           == if q == p && w == 1024 * i + j then (if e == 0 then -1 else FrameOf(e)) else Translate(s, q, w)
    {
      EntryMapsOnePage(c, s, o, o2, p, i, j, t, e, q, w);
    }
  }

  // ----- map() and unmap()

  ghost predicate AllocReady(s: State) {
    s.firstFree != 0 ==> s.firstFree in s.mem && |s.mem[s.firstFree]| == WORDS
  }

  lemma AllocatorHead(c: Config, s: State, o: Owners)
    requires Inv(c, s, o)
    ensures AllocReady(s) && s.avail <= c.limit
    ensures s.firstFree == 0 && s.avail != c.limit ==> s.avail in s.mem
  {
    HeadOfList(c, s, o);
  }

  predicate NeedsTable(s: State, pd: nat, v: nat)
    requires pd in s.mem && v / 1024 < |s.mem[pd]|
  {
    !Present(s.mem[pd][v / 1024])
  }

  /** map() may run: the directory is a page, and so is the table it finds or allocates. */
  ghost predicate MapReady(s: State, pd: nat, v: nat) {
    && v < PAGES && pd in s.mem && |s.mem[pd]| == WORDS && AllocReady(s)
    && (if NeedsTable(s, pd, v) then Alloc(s).1 != pd
        else FrameOf(s.mem[pd][v / 1024]) in s.mem && |s.mem[FrameOf(s.mem[pd][v / 1024])]| == WORDS)
  }

  /** The state after map(pd, v, pa). */
  ghost function MapState(s: State, pd: nat, v: nat, pa: nat): State
    requires MapReady(s, pd, v)
  {
    if NeedsTable(s, pd, v) then
      var s1, t := Alloc(s).0, Alloc(s).1;
      SetWord(SetWord(s1, pd, v / 1024, Entry(t)), t, v % 1024, Entry(pa))
    else
      SetWord(s, FrameOf(s.mem[pd][v / 1024]), v % 1024, Entry(pa))
  }

  ghost function MapOwners(c: Config, s: State, o: Owners, p: int, v: nat, pa: nat): Owners
    requires p in s.pds && MapReady(s, s.pds[p], v)
  {
    var o1 := if NeedsTable(s, s.pds[p], v) then WithRole(AllocOwners(s, o), Alloc(s).1, Table(p, v / 1024)) else o;
    if c.Device(v) then o1 else WithRole(o1, pa, User(p, v / 1024, v % 1024))
  }

  lemma UserMapReady(c: Config, s: State, o: Owners, p: int, v: nat)
    requires Inv(c, s, o) && p in s.pds && USER <= v < PAGES
    requires NeedsTableOf(s, p, v) ==> CanAlloc(c, s)
    ensures MapReady(s, s.pds[p], v) && HasProcess(c, s, o, p)
    ensures NeedsTable(s, s.pds[p], v) <==> s.mem[s.pds[p]][v / 1024] == 0
  {
    hide FreeListOk, FrameOk;
    UserTable(c, s, o, p, v);
    ProcessDirectory(c, s, o, p);
    if CanAlloc(c, s) { AllocStep(c, s, o); }
    HeadOfList(c, s, o);
  }

  ghost predicate NeedsTableOf(s: State, p: int, v: nat) {
    p in s.pds && s.pds[p] in s.mem && v / 1024 < |s.mem[s.pds[p]]| && NeedsTable(s, s.pds[p], v)
  }

  /** pa may be mapped at page v of process p. */
  ghost predicate Mappable(c: Config, s: State, o: Owners, p: int, v: nat, pa: nat) {
    && Inv(c, s, o) && p in s.pds && USER <= v < PAGES
    && (NeedsTableOf(s, p, v) ==> CanAlloc(c, s))
    && (if c.Device(v) then pa == v && pa !in s.mem
        else Translate(s, p, v) == -1 && pa in s.mem && pa in o.roles && o.roles[pa] == Detached)
  }

  ghost predicate MapsOnly(c: Config, s: State, o: Owners, s2: State, o2: Owners, p: int, v: nat, pa: nat) {
    && Inv(c, s2, o2) && Step(s, o, s2, o2) && SameMapBut(s, s2, p, v) && s2.pds == s.pds
    && (v < PAGES ==> Translate(s2, p, v) == pa)
    && (pa in s.mem ==> pa in s2.mem && s2.mem[pa] == s.mem[pa])
    && (forall f {:trigger o2.roles[f]} :: f in o.roles && f != pa && o.roles[f] == Detached ==>
          f in o2.roles && o2.roles[f] == Detached)
  }

  lemma MapUserOldTable(c: Config, s: State, o: Owners, p: int, v: nat, pa: nat)
    requires Mappable(c, s, o, p, v, pa) && MapReady(s, s.pds[p], v) && HasProcess(c, s, o, p)
    requires !NeedsTable(s, s.pds[p], v) && s.mem[s.pds[p]][v / 1024] != 0
    ensures MapsOnly(c, s, o, MapState(s, s.pds[p], v, pa), MapOwners(c, s, o, p, v, pa), p, v, pa)
  {
    hide FreeListOk, FrameOk, Inv, Step, SameMap, SameMapBut;
    var i, j, t := v / 1024, v % 1024, FrameOf(s.mem[s.pds[p]][v / 1024]);
    assert v == 1024 * i + j;
    UserTable(c, s, o, p, v);
    EntryCanChange(c, s, o, p, v, t, pa);
    EntryStep(c, s, o, MapOwners(c, s, o, p, v, pa), p, i, j, t, Entry(pa));
  }

  lemma MapUserNewTable(c: Config, s: State, o: Owners, p: int, v: nat, pa: nat)
    requires Mappable(c, s, o, p, v, pa) && MapReady(s, s.pds[p], v) && HasProcess(c, s, o, p)
    requires NeedsTable(s, s.pds[p], v) && s.mem[s.pds[p]][v / 1024] == 0 && CanAlloc(c, s)
    ensures MapsOnly(c, s, o, MapState(s, s.pds[p], v, pa), MapOwners(c, s, o, p, v, pa), p, v, pa)
  {
    hide FreeListOk, FrameOk, Inv, Step, SameMap, SameMapBut;
    var i, j, d := v / 1024, v % 1024, s.pds[p];
    assert v == 1024 * i + j;
    AllocStep(c, s, o);
    var s1, t, o1 := Alloc(s).0, Alloc(s).1, AllocOwners(s, o);
    DirectoryKept(c, s, o, p, t);
    TableStep(c, s1, o1, p, i, t);
    var s3, o3 := SetWord(s1, d, i, Entry(t)), WithRole(o1, t, Table(p, i));
    EntryCanChange(c, s3, o3, p, v, t, pa);
    var s2, o2 := SetWord(s3, t, j, Entry(pa)), MapOwners(c, s, o, p, v, pa);
    EntryStep(c, s3, o3, o2, p, i, j, t, Entry(pa));
    StepTwice(s, o, s1, o1, s3, o3);
    StepTwice(s, o, s3, o3, s2, o2);
    SameMapTwice(s1, s3, s2, p, v);
    SameMapTwice(s, s1, s2, p, v);
  }

  /** map() on a private page that is not mapped yet (a device page may be): the page then
      translates to pa, and no other page of any process is affected, even when a table had
      to be allocated. */
  lemma MapUser(c: Config, s: State, o: Owners, p: int, v: nat, pa: nat)
    requires Mappable(c, s, o, p, v, pa)
    ensures MapReady(s, s.pds[p], v)
    ensures MapsOnly(c, s, o, MapState(s, s.pds[p], v, pa), MapOwners(c, s, o, p, v, pa), p, v, pa)
  {
    hide MapsOnly, MapState, MapOwners;
    UserMapReady(c, s, o, p, v);
    if NeedsTable(s, s.pds[p], v) { MapUserNewTable(c, s, o, p, v, pa); } else { MapUserOldTable(c, s, o, p, v, pa); }
  }

  lemma DirectoryKept(c: Config, s: State, o: Owners, p: int, t: nat)
    requires Inv(c, s, o) && p in s.pds && t in s.mem && Unused(o.roles[t])
    ensures s.pds[p] != t && s.pds[p] in o.roles && o.roles[s.pds[p]] == Directory(p) && |s.mem[s.pds[p]]| == WORDS
  {
    ProcessDirectory(c, s, o, p);
  }

  lemma EntryCanChange(c: Config, s: State, o: Owners, p: int, v: nat, t: nat, pa: nat)
    requires HasTable(c, s, o, p, v / 1024, t) && USER <= v < PAGES
    requires if c.Device(v) then pa == v else Translate(s, p, v) == -1 && pa in s.mem && o.roles[pa] == Detached
    ensures var o2 := if c.Device(v) then o else WithRole(o, pa, User(p, v / 1024, v % 1024));
      EntryChange(c, s, o, o2, p, v / 1024, v % 1024, t, Entry(pa))
  {
    assert v == 1024 * (v / 1024) + v % 1024;
    UserWalk(c, s, o, p, v);
  }

  /** The entry that translates page v of process p, when there is one. */
  ghost predicate Mapped(s: State, p: int, v: nat) {
    v < PAGES && Translate(s, p, v) != -1
  }

  ghost predicate UnmapReady(s: State, pd: nat, v: nat) {
    && v < PAGES && pd in s.mem && |s.mem[pd]| == WORDS
    && (Present(s.mem[pd][v / 1024]) ==>
          var t := FrameOf(s.mem[pd][v / 1024]);
          && t in s.mem && |s.mem[t]| == WORDS
          && (Present(s.mem[t][v % 1024]) ==>
                var f := FrameOf(s.mem[t][v % 1024]); f in s.mem && f != t && |s.mem[f]| == WORDS))
  }

  /** The state after unmap(pd, v). */
  ghost function UnmapState(s: State, pd: nat, v: nat): State
    requires UnmapReady(s, pd, v)
  {
    if !Present(s.mem[pd][v / 1024]) then s
    else
      var t := FrameOf(s.mem[pd][v / 1024]);
      if !Present(s.mem[t][v % 1024]) then s
      else Dealloc(SetWord(s, t, v % 1024, 0), FrameOf(s.mem[t][v % 1024]))
  }

  ghost function UnmapOwners(s: State, o: Owners, p: int, v: nat): Owners
    requires v < PAGES
  {
    if Translate(s, p, v) == -1 then o else DeallocOwners(o, Translate(s, p, v))
  }

  lemma DeallocStep(c: Config, s: State, o: Owners, f: nat)
    requires Inv(c, s, o) && f in s.mem && o.roles[f] == Detached
    ensures |s.mem[f]| == WORDS
    ensures var s2, o2 := Dealloc(s, f), DeallocOwners(o, f);
      Inv(c, s2, o2) && SameMap(s, s2) && PagesKept(s, o, s2, o2) && s2.pds == s.pds && s2.mapped == s.mapped
  {
    hide FreeListOk, FrameOk;
    DeallocKeepsInv(c, s, o, f);
    var s2 := Dealloc(s, f);
    forall q: int, w: nat | q in s.pds && w < PAGES ensures Translate(s2, q, w) == Translate(s, q, w) {
      SameTranslation(c, s, o, s2, q, w);
    }
  }

  /** The pages of processes other than p keep their frames and contents. */
  ghost predicate OthersKept(s: State, o: Owners, s2: State, o2: Owners, p: int) {
    s.mem.Keys == o.roles.Keys == s2.mem.Keys == o2.roles.Keys
    && forall f {:trigger o2.roles[f]} {:trigger s2.mem[f]} ::
      f in s.mem && o.roles[f].User? && o.roles[f].pid != p ==> s2.mem[f] == s.mem[f] && o2.roles[f] == o.roles[f]
  }

  /** unmap() of a private page takes away that page and no other, and gives its frame back. */
  lemma UnmapUser(c: Config, s: State, o: Owners, p: int, v: nat)
    requires Inv(c, s, o) && p in s.pds && USER <= v < PAGES && !c.Device(v)
    ensures UnmapReady(s, s.pds[p], v)
    ensures var s2, o2 := UnmapState(s, s.pds[p], v), UnmapOwners(s, o, p, v);
      && Inv(c, s2, o2) && SameMapBut(s, s2, p, v) && Translate(s2, p, v) == -1
      && s2.pds == s.pds && s2.mapped == s.mapped && OthersKept(s, o, s2, o2, p)
      && |o2.free| == |o.free| + (if Mapped(s, p, v) then 1 else 0)
  {
    hide FreeListOk, FrameOk, SameMap, SameMapBut, Step, Translate;
    var i, j := v / 1024, v % 1024;
    assert v == 1024 * i + j;
    UserWalk(c, s, o, p, v);
    if Translate(s, p, v) == -1 {
      StaysTheSame(s, p, v);
    } else {
      MappedPageIsOwned(c, s, o, p, v);
      var t, u := FrameOf(s.mem[s.pds[p]][i]), Translate(s, p, v);
      var s1, o1 := SetWord(s, t, j, 0), WithRole(o, u, Detached);
      assert FrameOk(c, s, o, u);
      EntryStep(c, s, o, o1, p, i, j, t, 0);
      DeallocStep(c, s1, o1, u);
      var s2 := Dealloc(s1, u);
      assert WithRole(o1, u, Free).roles == WithRole(o, u, Free).roles;
      SameMapThen(s, s1, s2, p, v);
      SameMapAt(s1, s2, p, v);
    }
  }

  lemma StaysTheSame(s: State, p: int, v: int)
    ensures SameMapBut(s, s, p, v)
  {
  }

  lemma SameMapAt(s1: State, s2: State, p: int, v: nat)
    requires SameMap(s1, s2) && p in s1.pds && v < PAGES
    ensures Translate(s2, p, v) == Translate(s1, p, v)
  {
  }

  lemma SameMapThen(s: State, s1: State, s2: State, p: int, v: int)
    requires SameMapBut(s, s1, p, v) && SameMap(s1, s2)
    ensures SameMapBut(s, s2, p, v)
  {
    forall q: int, w: nat | q in s.pds && w < PAGES && !(q == p && w == v)
      ensures Translate(s2, q, w) == Translate(s, q, w)
    {
      assert Translate(s1, q, w) == Translate(s, q, w);
    }
  }

  lemma DirectoryPage(c: Config, s: State, o: Owners, p: int, v: nat)
    requires Inv(c, s, o) && p in s.pds && v < PAGES
    ensures s.pds[p] in s.mem && |s.mem[s.pds[p]]| == WORDS && v / 1024 < WORDS
    ensures forall f :: f in s.mem ==> f < USER
    ensures s.mem.Keys == o.roles.Keys
  {
    ProcessDirectory(c, s, o, p);
  }

  lemma MapsOnlyInv(c: Config, s: State, o: Owners, s2: State, o2: Owners, p: int, v: nat, pa: nat)
    requires MapsOnly(c, s, o, s2, o2, p, v, pa)
    ensures Inv(c, s2, o2)
  {
  }

  /** unmap() finds an entry exactly when the page is translated. */
  lemma UnmapCase(c: Config, s: State, o: Owners, p: int, v: nat)
    requires Inv(c, s, o) && p in s.pds && USER <= v < PAGES && !c.Device(v) && UnmapReady(s, s.pds[p], v)
    ensures var e := s.mem[s.pds[p]][v / 1024];
      if Translate(s, p, v) == -1 then !Present(e) || !Present(s.mem[FrameOf(e)][v % 1024])
      else Present(e) && Present(s.mem[FrameOf(e)][v % 1024]) && Translate(s, p, v) == FrameOf(s.mem[FrameOf(e)][v % 1024])
  {
    UserWalk(c, s, o, p, v);
  }

  // ----- how many frames an operation takes

  /** Frames that alloc_frame can still give: those on the list and the untouched ones. */
  ghost function Available(c: Config, s: State, o: Owners): int {
    |o.free| + c.limit - s.avail
  }

  /** The directory of process p has a table at k. */
  ghost predicate Tabled(s: State, p: int, k: int) {
    p in s.pds && s.pds[p] in s.mem && 0 <= k < |s.mem[s.pds[p]]| && Present(s.mem[s.pds[p]][k])
  }

  ghost predicate SameTables(s: State, s2: State) {
    s.pds.Keys <= s2.pds.Keys
    && forall q, k {:trigger Tabled(s2, q, k)} :: q in s.pds && 512 <= k < WORDS ==> (Tabled(s2, q, k) <==> Tabled(s, q, k))
  }

  /** Process p has a table at i afterwards; nothing else changed in the private halves. */
  ghost predicate TableAt(s: State, s2: State, p: int, i: int) {
    s.pds.Keys <= s2.pds.Keys
    && forall q, k {:trigger Tabled(s2, q, k)} :: q in s.pds && 512 <= k < WORDS ==>
         (Tabled(s2, q, k) <==> Tabled(s, q, k) || (q == p && k == i))
  }

  lemma Counted(c: Config, s: State, o: Owners)
    requires Inv(c, s, o)
    ensures 0 <= Available(c, s, o) && (CanAlloc(c, s) <==> 0 < Available(c, s, o))
  {
    hide FrameOk;
    HeadOfList(c, s, o);
  }

  lemma TableNeeded(c: Config, s: State, o: Owners, p: int, v: nat)
    requires Inv(c, s, o) && p in s.pds && v < PAGES
    ensures NeedsTableOf(s, p, v) <==> !Tabled(s, p, v / 1024)
  {
    hide FrameOk;
    DirectoryPage(c, s, o, p, v);
  }

  /** Only the directories matter. */
  lemma TablesStay(c: Config, s: State, o: Owners, s2: State)
    requires Inv(c, s, o) && s2.pds == s.pds && s2.mem.Keys == s.mem.Keys
    requires forall f {:trigger s2.mem[f]} :: f in s.mem && o.roles[f].Directory? ==> s2.mem[f] == s.mem[f]
    ensures SameTables(s, s2)
  {
    hide FrameOk, FreeListOk;
    forall q, k | q in s.pds && 512 <= k < WORDS ensures Tabled(s2, q, k) <==> Tabled(s, q, k) {
      assert s2.mem[s.pds[q]] == s.mem[s.pds[q]];
    }
  }

  lemma AllocCounts(c: Config, s: State, o: Owners)
    requires Inv(c, s, o) && CanAlloc(c, s)
    ensures AllocReady(s)
    ensures SameTables(s, Alloc(s).0) && Available(c, Alloc(s).0, AllocOwners(s, o)) == Available(c, s, o) - 1
  {
    hide FrameOk, FreeListOk;
    HeadOfList(c, s, o);
    AllocKeepsInv(c, s, o);
    TablesStay(c, s, o, Alloc(s).0);
  }

  /** map() on a private page takes a frame exactly for a missing table. */
  lemma MapCounts(c: Config, s: State, o: Owners, p: int, v: nat, pa: nat)
    requires Mappable(c, s, o, p, v, pa) && MapReady(s, s.pds[p], v)
    ensures var s2, o2 := MapState(s, s.pds[p], v, pa), MapOwners(c, s, o, p, v, pa);
      && TableAt(s, s2, p, v / 1024)
      && Available(c, s2, o2) == Available(c, s, o) - (if NeedsTableOf(s, p, v) then 1 else 0)
  {
    hide FrameOk, FreeListOk;
    var s2, i := MapState(s, s.pds[p], v, pa), v / 1024;
    UserTable(c, s, o, p, v);
    DirectoryPage(c, s, o, p, v);
    if NeedsTable(s, s.pds[p], v) {
      AllocCounts(c, s, o);
      AllocKeepsInv(c, s, o);
      var s1, t := Alloc(s).0, Alloc(s).1;
      EntryDecodes(t);
      forall q, k | q in s.pds && 512 <= k < WORDS
        ensures Tabled(s2, q, k) <==> Tabled(s, q, k) || (q == p && k == i)
      {
        ProcessDirectory(c, s, o, q);
        ProcessDirectory(c, s, o, p);
        assert s1.mem[s.pds[q]] == s.mem[s.pds[q]];
      }
    } else {
      TablesStay(c, s, o, s2);
    }
  }

  // ----- the kernel half

  ghost function SharedMapOwners(s: State, o: Owners): Owners {
    if s.mapped == 1 || s.mapped % 1024 == 0
    then WithRole(AllocOwners(s, o), if s.firstFree != 0 then s.firstFree else s.avail, SharedTable(s.mapped / 1024))
    else o
  }

  lemma SharedMapReady(c: Config, s: State, o: Owners)
    requires Inv(c, s, o) && s.pds == map[] && 1 <= s.mapped < c.limit
    ensures s.shared in s.mem && |s.mem[s.shared]| == WORDS && s.mapped < USER
    ensures NeedsTable(s, s.shared, s.mapped) <==> s.mapped == 1 || s.mapped % 1024 == 0
    ensures (NeedsTable(s, s.shared, s.mapped) && !CanAlloc(c, s)) || MapReady(s, s.shared, s.mapped)
  {
    hide FreeListOk;
    assert FrameOk(c, s, o, s.shared);
    assert SharedEntryOk(s, o, s.mapped / 1024);
    AllocatorHead(c, s, o);
    if NeedsTable(s, s.shared, s.mapped) {
      if CanAlloc(c, s) { AllocStep(c, s, o); }
    } else {
      assert FrameOk(c, s, o, FrameOf(s.mem[s.shared][s.mapped / 1024]));
    }
  }

  lemma SharedMapped(c: Config, s: State, o: Owners)
    requires Inv(c, s, o) && s.pds == map[] && 1 <= s.mapped < c.limit && MapReady(s, s.shared, s.mapped)
    requires NeedsTable(s, s.shared, s.mapped) ==> CanAlloc(c, s)
    ensures Inv(c, MapState(s, s.shared, s.mapped, s.mapped).(mapped := s.mapped + 1), SharedMapOwners(s, o))
  {
    hide FreeListOk, FrameOk, Inv, Step, SameMap;
    SharedMapReady(c, s, o);
    if NeedsTable(s, s.shared, s.mapped) {
      AllocStep(c, s, o);
      MapSharedFirst(c, Alloc(s).0, AllocOwners(s, o), Alloc(s).1);
    } else {
      SharedTableKnown(c, s, o);
      MapShared(c, s, o, FrameOf(s.mem[s.shared][s.mapped / 1024]));
    }
  }

  lemma SharedTableKnown(c: Config, s: State, o: Owners)
    requires Inv(c, s, o) && 2 <= s.mapped < c.limit && s.mapped % 1024 != 0
    ensures |s.mem[s.shared]| == WORDS
    ensures var e := s.mem[s.shared][s.mapped / 1024]; e == Entry(FrameOf(e))
  {
    assert FrameOk(c, s, o, s.shared);
    assert SharedEntryOk(s, o, s.mapped / 1024);
  }

  /** Tables for pages 1 to va - 1 of the kernel half. */
  function SharedTables(va: nat): nat {
    if va <= 1 then 0 else (va - 1) / 1024 + 1
  }

  lemma SharedMapCounts(c: Config, s: State, o: Owners)
    requires Inv(c, s, o) && s.pds == map[] && 1 <= s.mapped < c.limit && MapReady(s, s.shared, s.mapped)
    requires NeedsTable(s, s.shared, s.mapped) ==> CanAlloc(c, s)
    ensures Available(c, MapState(s, s.shared, s.mapped, s.mapped).(mapped := s.mapped + 1), SharedMapOwners(s, o))
         == Available(c, s, o) - (SharedTables(s.mapped + 1) - SharedTables(s.mapped))
    ensures SharedTables(s.mapped + 1) - SharedTables(s.mapped) == if NeedsTable(s, s.shared, s.mapped) then 1 else 0
  {
    hide FrameOk, FreeListOk, SameTables;
    SharedMapReady(c, s, o);
    if NeedsTable(s, s.shared, s.mapped) { AllocCounts(c, s, o); }
  }

  lemma SharedTablesNext(va: nat)
    requires 1 <= va
    ensures SharedTables(va + 1) == SharedTables(va) + if va == 1 || va % 1024 == 0 then 1 else 0
  {
  }

  lemma SharedTablesGrow(a: nat, b: nat)
    requires a <= b
    ensures SharedTables(a) <= SharedTables(b) && SharedTables(1) == 0
  {
  }
}
