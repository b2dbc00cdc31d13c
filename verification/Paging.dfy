/** Physical frames and two-level page tables (kernel/physmem.cc, kernel/vmm.cc), and who
    owns each frame. Addresses are page numbers: frame f is the physical address 4096 * f,
    and virtual page v has directory index v / 1024 and table index v % 1024. */
module Paging {

  const WORDS := 1024
  /** First page of the private half, 0x80000000. */
  const USER := 0x8_0000
  const PAGES := 0x10_0000

  type Page = seq<nat>

  /** A present, writable, user-accessible entry for frame f: f << 12 | 7. */
  function Entry(f: nat): nat {
    4096 * f + 7
  }

  predicate Present(e: nat) {
    e % 2 == 1
  }

  function FrameOf(e: nat): nat {
    e / 4096
  }

  lemma EntryDecodes(f: nat)
    ensures Present(Entry(f)) && FrameOf(Entry(f)) == f && Entry(f) != 0
  {
  }

  function ZeroPage(): (pg: Page)
    ensures |pg| == WORDS && forall i :: 0 <= i < WORDS ==> pg[i] == 0
  {
    seq(WORDS, i => 0)
  }

  function Put(pg: Page, i: nat, v: nat): Page
    requires i < |pg|
  {
    pg[i := v]
  }

  /** Fixed once the machine is configured: the managed frames, and the two device pages
      that every address space maps at their own address. */
  datatype Config = Config(start: nat, limit: nat, io: nat, local: nat) {
    ghost predicate Valid() {
      0 < start < limit <= USER && USER <= io < PAGES && USER <= local < PAGES
    }
    predicate Device(v: int) {
      v == io || v == local
    }
    /** Directory entries copied by make_pd: memSize rounded up to 4 MB units. */
    function SharedEntries(): nat {
      (limit + 1023) / 1024
    }
  }

  /** What physmem and vmm keep: the frames' contents, the head of the intrusive free list
      (0 for null), the bump pointer, the shared directory with the number of kernel pages
      mapped in it so far, and the directory of every process. */
  datatype State = State(mem: map<nat, Page>, firstFree: nat, avail: nat, shared: nat, mapped: nat, pds: map<int, nat>)

  /** The one role each frame plays. A detached frame is allocated but referenced by no
      structure: held by the code that allocated it, or lost. */
  datatype Role =
    | Untouched
    | Free
    | Detached
    | SharedDirectory
    | SharedTable(index: int)
    | Directory(pid: int)
    | Table(pid: int, index: int)
    | User(pid: int, index: int, slot: int)

  datatype Owners = Owners(roles: map<nat, Role>, free: seq<nat>)

  /** Entry e leads to a frame with role r. */
  ghost predicate LeadsTo(s: State, o: Owners, e: nat, r: Role) {
    e == Entry(FrameOf(e)) && FrameOf(e) in s.mem && FrameOf(e) in o.roles && o.roles[FrameOf(e)] == r
  }

  /** Entry i of the shared directory. */
  ghost predicate SharedEntryOk(s: State, o: Owners, i: int)
    requires s.shared in s.mem && |s.mem[s.shared]| == WORDS && 0 <= i < WORDS
  {
    if 2 <= s.mapped && 1024 * i < s.mapped then LeadsTo(s, o, s.mem[s.shared][i], SharedTable(i))
    else s.mem[s.shared][i] == 0
  }

  /** Entry i of the directory of process p: kernel entries equal the shared ones, private
      ones are empty or lead to a table owned by p at i. */
  ghost predicate DirEntryOk(c: Config, s: State, o: Owners, d: nat, p: int, i: int)
    requires d in s.mem && |s.mem[d]| == WORDS && 0 <= i < WORDS
  {
    if i < 512 then s.shared in s.mem && |s.mem[s.shared]| == WORDS && s.mem[d][i] == s.mem[s.shared][i]
    else s.mem[d][i] == 0 || LeadsTo(s, o, s.mem[d][i], Table(p, i))
  }

  /** Entry j of the table of process p at i: empty, a device page at its own address, or
      a frame owned by that very page of p. */
  ghost predicate TableEntryOk(c: Config, s: State, o: Owners, t: nat, p: int, i: int, j: int)
    requires t in s.mem && |s.mem[t]| == WORDS && 0 <= j < WORDS && 512 <= i
  {
    var e := s.mem[t][j];
    e == 0 || (if c.Device(1024 * i + j) then e == Entry(1024 * i + j) else LeadsTo(s, o, e, User(p, i, j)))
  }

  /** Frame f has the shape its role asks for, and is where its role says it is. */
  ghost predicate FrameOk(c: Config, s: State, o: Owners, f: nat)
    requires f in s.mem && f in o.roles
  {
    && |s.mem[f]| == WORDS
    && (o.roles[f] == Untouched <==> s.avail <= f)
    && match o.roles[f]
       case Untouched => true
       case Free => f in o.free
       case Detached => true
       case SharedDirectory => f == s.shared && forall i :: 0 <= i < WORDS ==> SharedEntryOk(s, o, i)
       case SharedTable(i) =>
         && 0 <= i < 512 && s.shared in s.mem && |s.mem[s.shared]| == WORDS && s.mem[s.shared][i] == Entry(f)
         && forall j :: 0 <= j < WORDS ==>
              s.mem[f][j] == if 1 <= 1024 * i + j < s.mapped then Entry(1024 * i + j) else 0
       case Directory(p) =>
         && p in s.pds && s.pds[p] == f
         && forall i :: 0 <= i < WORDS ==> DirEntryOk(c, s, o, f, p, i)
       case Table(p, i) =>
         && 512 <= i < WORDS && p in s.pds && s.pds[p] in s.mem && |s.mem[s.pds[p]]| == WORDS
         && s.mem[s.pds[p]][i] == Entry(f)
         && forall j :: 0 <= j < WORDS ==> TableEntryOk(c, s, o, f, p, i, j)
       case User(p, i, j) =>
         && 512 <= i < WORDS && 0 <= j < WORDS && !c.Device(1024 * i + j)
         && p in s.pds && s.pds[p] in s.mem && |s.mem[s.pds[p]]| == WORDS
         && var t := FrameOf(s.mem[s.pds[p]][i]);
         t in s.mem && |s.mem[t]| == WORDS && t in o.roles && o.roles[t] == Table(p, i) && s.mem[t][j] == Entry(f)
  }

  /** The list threaded through the first words of the free frames. */
  ghost predicate FreeLink(s: State, o: Owners, k: int)
    requires 0 <= k < |o.free|
  {
    && o.free[k] in s.mem && o.free[k] in o.roles && o.roles[o.free[k]] == Free && |s.mem[o.free[k]]| == WORDS
    && s.mem[o.free[k]][0] == 4096 * (if k + 1 < |o.free| then o.free[k + 1] else 0)
  }

  ghost predicate FreeListOk(s: State, o: Owners) {
    && s.firstFree == (if o.free == [] then 0 else o.free[0])
    && (forall k {:trigger FreeLink(s, o, k)} :: 0 <= k < |o.free| ==> FreeLink(s, o, k))
    && (forall j, k :: 0 <= j < k < |o.free| ==> o.free[j] != o.free[k])
  }

  /** The ownership invariant. */
  ghost predicate Inv(c: Config, s: State, o: Owners) {
    && c.Valid() && c.start <= s.avail <= c.limit && s.mapped <= c.limit
    && (forall f: nat :: f in s.mem <==> c.start <= f < c.limit)
    && s.mem.Keys == o.roles.Keys
    && (forall f {:trigger FrameOk(c, s, o, f)} :: f in s.mem ==> FrameOk(c, s, o, f))
    && FreeListOk(s, o)
    && s.shared in s.mem && o.roles[s.shared] == SharedDirectory
    && (forall p :: p in s.pds ==> s.pds[p] in s.mem && o.roles[s.pds[p]] == Directory(p))
  }

  /** The hardware's walk: the frame that page v of the directory d maps to, if any. */
  function Walk(mem: map<nat, Page>, d: nat, v: nat): (r: int)
    requires v < PAGES
    ensures -1 <= r
  {
    if d !in mem || |mem[d]| != WORDS then -1
    else
      var pde := mem[d][v / 1024];
      if !Present(pde) || FrameOf(pde) !in mem || |mem[FrameOf(pde)]| != WORDS then -1
      else
        var pte := mem[FrameOf(pde)][v % 1024];
        if !Present(pte) then -1 else FrameOf(pte)
  }

  function Translate(s: State, p: int, v: nat): (r: int)
    requires v < PAGES
    ensures -1 <= r
  {
    if p in s.pds then Walk(s.mem, s.pds[p], v) else -1
  }

  // ----- the roles that no table or directory refers to

  predicate Loose(r: Role) {
    r.Untouched? || r.Free? || r.Detached?
  }

  /** s2, o2 differ from s, o in one frame at most. */
  ghost predicate OnlyFrame(s: State, o: Owners, s2: State, o2: Owners, f: nat) {
    && s2.shared == s.shared && s2.mapped == s.mapped && s2.pds == s.pds
    && f in s.mem && f in o.roles && s2.mem.Keys == s.mem.Keys && o2.roles.Keys == o.roles.Keys
    && (forall g {:trigger s2.mem[g]} :: g in s.mem && g != f ==> s2.mem[g] == s.mem[g])
    && (forall g {:trigger o2.roles[g]} :: g in o.roles && g != f ==> o2.roles[g] == o.roles[g])
  }

  /** A change to a loose frame leaves the shape of every other frame alone. */
  lemma Elsewhere(c: Config, s: State, o: Owners, s2: State, o2: Owners, f: nat, g: nat)
    requires OnlyFrame(s, o, s2, o2, f) && f != g && g in s.mem && g in o.roles && FrameOk(c, s, o, g)
    requires Loose(o.roles[f]) && Loose(o2.roles[f]) && f != s.shared
    requires o.roles[g] == Untouched <==> s2.avail <= g
    requires o.roles[g] == Free ==> g in o2.free
    requires forall p :: p in s.pds ==> s.pds[p] != f
    ensures FrameOk(c, s2, o2, g)
  {
    match o.roles[g]
    case Directory(p) =>
      forall i | 0 <= i < WORDS ensures DirEntryOk(c, s2, o2, g, p, i) { assert DirEntryOk(c, s, o, g, p, i); }
    case Table(p, i) =>
      forall j | 0 <= j < WORDS ensures TableEntryOk(c, s2, o2, g, p, i, j) { assert TableEntryOk(c, s, o, g, p, i, j); }
    case SharedDirectory =>
      forall i | 0 <= i < WORDS ensures SharedEntryOk(s2, o2, i) { assert SharedEntryOk(s, o, i); }
    case _ =>
  }

  /** alloc_frame: pop the free list, or else take the next untouched frame; zero it. */
  function Alloc(s: State): (r: (State, nat))
    requires s.firstFree != 0 ==> s.firstFree in s.mem && |s.mem[s.firstFree]| == WORDS
  {
    if s.firstFree != 0 then
      (s.(firstFree := s.mem[s.firstFree][0] / 4096, mem := s.mem[s.firstFree := ZeroPage()]), s.firstFree)
    else
      (s.(avail := s.avail + 1, mem := s.mem[s.avail := ZeroPage()]), s.avail)
  }

  predicate CanAlloc(c: Config, s: State) {
    s.firstFree != 0 || s.avail != c.limit
  }

  ghost function AllocOwners(s: State, o: Owners): Owners {
    if o.free == [] then o.(roles := o.roles[s.avail := Detached])
    else Owners(o.roles[o.free[0] := Detached], o.free[1..])
  }

  lemma HeadOfList(c: Config, s: State, o: Owners)
    requires Inv(c, s, o)
    ensures s.firstFree == 0 <==> o.free == []
    ensures s.firstFree != 0 ==> FreeLink(s, o, 0) && o.roles[s.firstFree] == Free
    ensures forall f :: f in o.free ==> f in s.mem && o.roles[f] == Free
  {
    if o.free != [] {
      assert FreeLink(s, o, 0);
    }
    forall f | f in o.free
      ensures f in s.mem && o.roles[f] == Free
    {
      var k :| 0 <= k < |o.free| && o.free[k] == f;
      assert FreeLink(s, o, k);
    }
  }

  lemma PoppedList(c: Config, s: State, o: Owners)
    requires Inv(c, s, o) && CanAlloc(c, s)
    ensures s.firstFree != 0 ==> s.firstFree in s.mem && |s.mem[s.firstFree]| == WORDS
    ensures FreeListOk(Alloc(s).0, AllocOwners(s, o))
    ensures forall g :: g in o.free && g != Alloc(s).1 ==> g in AllocOwners(s, o).free
    ensures s.firstFree != 0 ==> o.free != [] && Alloc(s).1 == o.free[0] && o.free[0] in s.mem && o.roles[o.free[0]] == Free
    ensures s.firstFree == 0 ==> o.free == [] && Alloc(s).1 == s.avail && s.avail in s.mem
  {
    hide FrameOk;
    HeadOfList(c, s, o);
    var s2, o2 := Alloc(s).0, AllocOwners(s, o);
    assert o.free != [] ==> o.free == [o.free[0]] + o.free[1..];
    forall k | 0 <= k < |o2.free|
      ensures FreeLink(s2, o2, k)
    {
      assert FreeLink(s, o, k + 1);
    }
  }

  lemma PushedList(c: Config, s: State, o: Owners, f: nat)
    requires Inv(c, s, o) && f in s.mem && o.roles[f] == Detached && |s.mem[f]| == WORDS
    ensures FreeListOk(Dealloc(s, f), DeallocOwners(o, f))
  {
    hide FrameOk;
    HeadOfList(c, s, o);
    var s2, o2 := Dealloc(s, f), DeallocOwners(o, f);
    forall k | 0 <= k < |o2.free|
      ensures FreeLink(s2, o2, k)
    {
      if 0 < k { assert FreeLink(s, o, k - 1); }
    }
  }

  /** An allocated frame comes from the free list or the untouched region, zeroed, and
      nothing refers to it. */
  lemma AllocKeepsInv(c: Config, s: State, o: Owners)
    requires Inv(c, s, o) && CanAlloc(c, s)
    ensures s.firstFree != 0 ==> s.firstFree in s.mem && |s.mem[s.firstFree]| == WORDS
    ensures var s2, f, o2 := Alloc(s).0, Alloc(s).1, AllocOwners(s, o);
      && Inv(c, s2, o2) && OnlyFrame(s, o, s2, o2, f) && (o.roles[f] == Free || o.roles[f] == Untouched)
      && o2.roles[f] == Detached && s2.mem[f] == ZeroPage()
      && |o2.free| == |o.free| - (if o.free == [] then 0 else 1)
  {
    hide FreeListOk, FrameOk;
    PoppedList(c, s, o);
    var s2, o2 := Alloc(s).0, AllocOwners(s, o);
    AllocatedFrame(c, s, o);
    forall g | g in s2.mem
      ensures FrameOk(c, s2, o2, g)
    {
      assert FrameOk(c, s, o, g);
      if g != Alloc(s).1 { AllocElsewhere(c, s, o, g); }
    }
  }

  lemma AllocatedFrame(c: Config, s: State, o: Owners)
    requires Inv(c, s, o) && CanAlloc(c, s)
    ensures s.firstFree != 0 ==> s.firstFree in s.mem && |s.mem[s.firstFree]| == WORDS
    ensures var f := Alloc(s).1;
      && f in s.mem && (o.roles[f] == Free || o.roles[f] == Untouched)
      && FrameOk(c, Alloc(s).0, AllocOwners(s, o), f)
  {
    hide FreeListOk;
    PoppedList(c, s, o);
    assert FrameOk(c, s, o, Alloc(s).1);
  }

  lemma AllocElsewhere(c: Config, s: State, o: Owners, g: nat)
    requires Inv(c, s, o) && CanAlloc(c, s) && g in s.mem && FrameOk(c, s, o, g)
    ensures s.firstFree != 0 ==> s.firstFree in s.mem && |s.mem[s.firstFree]| == WORDS
    ensures g != Alloc(s).1 ==> FrameOk(c, Alloc(s).0, AllocOwners(s, o), g)
  {
    hide FreeListOk;
    PoppedList(c, s, o);
    AllocatedFrame(c, s, o);
    if g != Alloc(s).1 { Elsewhere(c, s, o, Alloc(s).0, AllocOwners(s, o), Alloc(s).1, g); }
  }

  /** dealloc_frame: link the frame in front of the list. */
  function Dealloc(s: State, f: nat): State
    requires f in s.mem && |s.mem[f]| == WORDS
  {
    s.(firstFree := f, mem := s.mem[f := Put(s.mem[f], 0, 4096 * s.firstFree)])
  }

  ghost function DeallocOwners(o: Owners, f: nat): Owners {
    Owners(o.roles[f := Free], [f] + o.free)
  }

  lemma DeallocKeepsInv(c: Config, s: State, o: Owners, f: nat)
    requires Inv(c, s, o) && f in s.mem && o.roles[f] == Detached
    ensures |s.mem[f]| == WORDS
    ensures var s2, o2 := Dealloc(s, f), DeallocOwners(o, f);
      Inv(c, s2, o2) && OnlyFrame(s, o, s2, o2, f) && o2.roles[f] == Free
  {
    hide FreeListOk;
    assert FrameOk(c, s, o, f);
    PushedList(c, s, o, f);
    var s2, o2 := Dealloc(s, f), DeallocOwners(o, f);
    forall g | g in s2.mem
      ensures FrameOk(c, s2, o2, g)
    {
      assert FrameOk(c, s, o, g);
      if g != f { Elsewhere(c, s, o, s2, o2, f, g); }
    }
  }

  // ----- writing one entry

  function SetWord(s: State, f: nat, i: nat, v: nat): State
    requires f in s.mem && i < |s.mem[f]|
  {
    s.(mem := s.mem[f := Put(s.mem[f], i, v)])
  }

  function WithRole(o: Owners, f: nat, r: Role): Owners {
    o.(roles := o.roles[f := r])
  }

  lemma SameFreeList(s: State, o: Owners, s2: State, o2: Owners)
    requires FreeListOk(s, o) && s2.firstFree == s.firstFree && o2.free == o.free
    requires forall f :: f in o.free ==> f in s2.mem && f in s.mem && s2.mem[f] == s.mem[f]
                                         && f in o2.roles && f in o.roles && o2.roles[f] == o.roles[f]
    ensures FreeListOk(s2, o2)
  {
    forall k | 0 <= k < |o2.free| ensures FreeLink(s2, o2, k) {
      assert FreeLink(s, o, k);
      assert o.free[k] in o.free;
    }
  }

  ghost predicate HasProcess(c: Config, s: State, o: Owners, p: int) {
    Inv(c, s, o) && p in s.pds && s.pds[p] in s.mem && |s.mem[s.pds[p]]| == WORDS
  }

  lemma ProcessDirectory(c: Config, s: State, o: Owners, p: int)
    requires Inv(c, s, o) && p in s.pds
    ensures HasProcess(c, s, o, p) && FrameOk(c, s, o, s.pds[p])
    ensures forall q :: q in s.pds && s.pds[q] == s.pds[p] ==> q == p
    ensures s.pds[p] != s.shared && |s.mem[s.shared]| == WORDS
  {
    assert FrameOk(c, s, o, s.pds[p]) && FrameOk(c, s, o, s.shared);
  }

  lemma StoreTableFrame(c: Config, s: State, o: Owners, p: int, i: nat, t: nat, g: nat)
    requires HasProcess(c, s, o, p) && 512 <= i < WORDS && s.mem[s.pds[p]][i] == 0
    requires t in s.mem && o.roles[t] == Detached && s.mem[t] == ZeroPage() && g in s.mem
    ensures FrameOk(c, SetWord(s, s.pds[p], i, Entry(t)), WithRole(o, t, Table(p, i)), g)
  {
    ProcessDirectory(c, s, o, p);
    var d := s.pds[p];
    var s2, o2 := SetWord(s, d, i, Entry(t)), WithRole(o, t, Table(p, i));
    assert FrameOk(c, s, o, g) && FrameOk(c, s, o, t);
    match o2.roles[g]
    case Directory(q) =>
      forall k | 0 <= k < WORDS ensures DirEntryOk(c, s2, o2, g, q, k) { assert DirEntryOk(c, s, o, g, q, k); }
    case Table(q, k) =>
      if g != t {
        forall j | 0 <= j < WORDS ensures TableEntryOk(c, s2, o2, g, q, k, j) { assert TableEntryOk(c, s, o, g, q, k, j); }
      }
    case SharedDirectory =>
      forall k | 0 <= k < WORDS ensures SharedEntryOk(s2, o2, k) { assert SharedEntryOk(s, o, k); }
    case _ =>
  }

  /** map() gives process p an empty table at i. */
  lemma StoreTable(c: Config, s: State, o: Owners, p: int, i: nat, t: nat)
    requires HasProcess(c, s, o, p) && 512 <= i < WORDS && s.mem[s.pds[p]][i] == 0
    requires t in s.mem && o.roles[t] == Detached && s.mem[t] == ZeroPage()
    ensures Inv(c, SetWord(s, s.pds[p], i, Entry(t)), WithRole(o, t, Table(p, i)))
  {
    hide FreeListOk, FrameOk;
    ProcessDirectory(c, s, o, p);
    var s2, o2 := SetWord(s, s.pds[p], i, Entry(t)), WithRole(o, t, Table(p, i));
    forall g | g in s2.mem ensures FrameOk(c, s2, o2, g) { StoreTableFrame(c, s, o, p, i, t, g); }
    HeadOfList(c, s, o);
    SameFreeList(s, o, s2, o2);
  }

  /** The table of process p at i. */
  ghost predicate HasTable(c: Config, s: State, o: Owners, p: int, i: nat, t: nat) {
    && HasProcess(c, s, o, p) && 512 <= i < WORDS && s.mem[s.pds[p]][i] == Entry(t)
    && t in s.mem && t in o.roles && o.roles[t] == Table(p, i) && |s.mem[t]| == WORDS
  }

  lemma TableExists(c: Config, s: State, o: Owners, p: int, i: nat)
    requires HasProcess(c, s, o, p) && 512 <= i < WORDS && s.mem[s.pds[p]][i] != 0
    ensures HasTable(c, s, o, p, i, FrameOf(s.mem[s.pds[p]][i])) && Present(s.mem[s.pds[p]][i])
  {
    ProcessDirectory(c, s, o, p);
    assert DirEntryOk(c, s, o, s.pds[p], p, i);
    assert FrameOk(c, s, o, FrameOf(s.mem[s.pds[p]][i]));
  }

  /** What may be stored in, or cleared from, entry j of a table: nothing, a device page, or
      a frame, whose role changes accordingly. */
  ghost predicate EntryChange(c: Config, s: State, o: Owners, o2: Owners, p: int, i: nat, j: nat, t: nat, e: nat) {
    && HasTable(c, s, o, p, i, t) && j < WORDS && o2.free == o.free && o2.roles.Keys == o.roles.Keys
    && (if c.Device(1024 * i + j) then e == Entry(1024 * i + j) && o2 == o
        else if e == 0 then
          var u := FrameOf(s.mem[t][j]);
          s.mem[t][j] == Entry(u) && u in s.mem && o.roles[u] == User(p, i, j) && o2 == WithRole(o, u, Detached)
        else
          var u := FrameOf(e);
          s.mem[t][j] == 0 && e == Entry(u) && u in s.mem && o.roles[u] == Detached && o2 == WithRole(o, u, User(p, i, j)))
  }

  /** Directories are distinct from every other structure. */
  ghost predicate Roots(s: State, o: Owners) {
    && s.mem.Keys == o.roles.Keys && s.shared in s.mem && o.roles[s.shared] == SharedDirectory
    && (forall q :: q in s.pds ==> s.pds[q] in s.mem && o.roles[s.pds[q]] == Directory(q))
  }

  lemma ChangeEntryInTable(c: Config, s: State, o: Owners, o2: Owners, p: int, i: nat, j: nat, t: nat, e: nat, g: nat)
    requires EntryChange(c, s, o, o2, p, i, j, t, e) && Roots(s, o)
    requires g in s.mem && o.roles[g].Table? && FrameOk(c, s, o, g)
    ensures FrameOk(c, SetWord(s, t, j, e), o2, g)
  {
    hide Inv, HasProcess;
    var s2, q, k := SetWord(s, t, j, e), o.roles[g].pid, o.roles[g].index;
    assert s2.mem[s.pds[q]] == s.mem[s.pds[q]];
    forall l | 0 <= l < WORDS ensures TableEntryOk(c, s2, o2, g, q, k, l) { assert TableEntryOk(c, s, o, g, q, k, l); }
  }

  lemma ChangeEntryElsewhere(c: Config, s: State, o: Owners, o2: Owners, p: int, i: nat, j: nat, t: nat, e: nat, g: nat)
    requires EntryChange(c, s, o, o2, p, i, j, t, e) && Roots(s, o)
    requires g in s.mem && !o.roles[g].Table? && FrameOk(c, s, o, g)
    requires FrameOk(c, s, o, t)
    ensures FrameOk(c, SetWord(s, t, j, e), o2, g)
  {
    hide Inv, HasProcess, FreeListOk;
    var s2 := SetWord(s, t, j, e);
    assert TableEntryOk(c, s, o, t, p, i, j);
    match o.roles[g]
    case Directory(q) =>
      forall k | 0 <= k < WORDS ensures DirEntryOk(c, s2, o2, g, q, k) { assert DirEntryOk(c, s, o, g, q, k); }
    case SharedDirectory =>
      forall k | 0 <= k < WORDS ensures SharedEntryOk(s2, o2, k) { assert SharedEntryOk(s, o, k); }
    case _ =>
  }

  lemma ChangeEntry(c: Config, s: State, o: Owners, o2: Owners, p: int, i: nat, j: nat, t: nat, e: nat)
    requires EntryChange(c, s, o, o2, p, i, j, t, e)
    ensures Inv(c, SetWord(s, t, j, e), o2)
  {
    hide FreeListOk, FrameOk;
    ProcessDirectory(c, s, o, p);
    var s2 := SetWord(s, t, j, e);
    forall g | g in s2.mem ensures FrameOk(c, s2, o2, g) {
      assert FrameOk(c, s, o, g) && FrameOk(c, s, o, t);
      if o.roles[g].Table? { ChangeEntryInTable(c, s, o, o2, p, i, j, t, e, g); }
      else { ChangeEntryElsewhere(c, s, o, o2, p, i, j, t, e, g); }
    }
    HeadOfList(c, s, o);
    SameFreeList(s, o, s2, o2);
  }

  // ----- contents of user pages

  /** Writing to a user page, or to a frame nothing refers to, breaks nothing. */
  lemma WritePage(c: Config, s: State, o: Owners, u: nat, pg: Page)
    requires Inv(c, s, o) && u in s.mem && (o.roles[u].User? || o.roles[u] == Detached) && |pg| == WORDS
    ensures Inv(c, s.(mem := s.mem[u := pg]), o)
  {
    hide FreeListOk, FrameOk;
    var s2 := s.(mem := s.mem[u := pg]);
    forall g | g in s2.mem ensures FrameOk(c, s2, o, g) {
      assert FrameOk(c, s, o, g);
      WritePageFrame(c, s, o, u, pg, g);
    }
    HeadOfList(c, s, o);
    SameFreeList(s, o, s2, o);
  }

  lemma WritePageFrame(c: Config, s: State, o: Owners, u: nat, pg: Page, g: nat)
    requires Roots(s, o) && u in s.mem && (o.roles[u].User? || o.roles[u] == Detached) && |pg| == WORDS
    requires g in s.mem && FrameOk(c, s, o, g)
    ensures FrameOk(c, s.(mem := s.mem[u := pg]), o, g)
  {
    var s2 := s.(mem := s.mem[u := pg]);
    match o.roles[g]
    case Directory(q) =>
      forall k | 0 <= k < WORDS ensures DirEntryOk(c, s2, o, g, q, k) { assert DirEntryOk(c, s, o, g, q, k); }
    case Table(q, k) =>
      forall l | 0 <= l < WORDS ensures TableEntryOk(c, s2, o, g, q, k, l) { assert TableEntryOk(c, s, o, g, q, k, l); }
    case SharedDirectory =>
      forall k | 0 <= k < WORDS ensures SharedEntryOk(s2, o, k) { assert SharedEntryOk(s, o, k); }
    case _ =>
  }

  // ----- a new process, and a process that ends

  /** The kernel half is complete once every page below the limit is mapped. */
  lemma SharedEntriesCount(c: Config, s: State, o: Owners, i: nat)
    requires Inv(c, s, o) && s.mapped == c.limit && i < WORDS
    ensures |s.mem[s.shared]| == WORDS && c.SharedEntries() <= 512
    ensures c.SharedEntries() <= i ==> s.mem[s.shared][i] == 0
  {
    assert FrameOk(c, s, o, s.shared);
    assert SharedEntryOk(s, o, i);
  }

  /** The page make_pd builds: the shared entries, and nothing else. */
  ghost predicate KernelHalf(c: Config, s: State, pg: Page) {
    && |pg| == WORDS && s.shared in s.mem && |s.mem[s.shared]| == WORDS
    && forall i :: 0 <= i < WORDS ==> pg[i] == if i < c.SharedEntries() then s.mem[s.shared][i] else 0
  }

  lemma NewDirectory(c: Config, s: State, o: Owners, p: int, d: nat, pg: Page)
    requires Inv(c, s, o) && s.mapped == c.limit && p !in s.pds
    requires d in s.mem && o.roles[d] == Detached && KernelHalf(c, s, pg)
    ensures Inv(c, s.(mem := s.mem[d := pg], pds := s.pds[p := d]), WithRole(o, d, Directory(p)))
  {
    hide FreeListOk, FrameOk;
    var s2, o2 := s.(mem := s.mem[d := pg], pds := s.pds[p := d]), WithRole(o, d, Directory(p));
    forall g | g in s2.mem ensures FrameOk(c, s2, o2, g) {
      assert FrameOk(c, s, o, g) && FrameOk(c, s, o, d);
      if g == d { NewDirectorySelf(c, s, o, p, d, pg); } else { NewDirectoryFrame(c, s, o, p, d, pg, g); }
    }
    HeadOfList(c, s, o);
    SameFreeList(s, o, s2, o2);
  }

  lemma NewDirectorySelf(c: Config, s: State, o: Owners, p: int, d: nat, pg: Page)
    requires Inv(c, s, o) && s.mapped == c.limit
    requires d in s.mem && o.roles[d] == Detached && KernelHalf(c, s, pg)
    ensures FrameOk(c, s.(mem := s.mem[d := pg], pds := s.pds[p := d]), WithRole(o, d, Directory(p)), d)
  {
    var s2, o2 := s.(mem := s.mem[d := pg], pds := s.pds[p := d]), WithRole(o, d, Directory(p));
    assert FrameOk(c, s, o, d);
    forall i | 0 <= i < WORDS ensures DirEntryOk(c, s2, o2, d, p, i) { SharedEntriesCount(c, s, o, i); }
  }

  lemma NewDirectoryFrame(c: Config, s: State, o: Owners, p: int, d: nat, pg: Page, g: nat)
    requires Roots(s, o) && p !in s.pds && d in s.mem && o.roles[d] == Detached && |pg| == WORDS
    requires g in s.mem && g != d && FrameOk(c, s, o, g)
    ensures FrameOk(c, s.(mem := s.mem[d := pg], pds := s.pds[p := d]), WithRole(o, d, Directory(p)), g)
  {
    var s2, o2 := s.(mem := s.mem[d := pg], pds := s.pds[p := d]), WithRole(o, d, Directory(p));
    match o.roles[g]
    case Directory(q) =>
      forall k | 0 <= k < WORDS ensures DirEntryOk(c, s2, o2, g, q, k) { assert DirEntryOk(c, s, o, g, q, k); }
    case Table(q, k) =>
      forall l | 0 <= l < WORDS ensures TableEntryOk(c, s2, o2, g, q, k, l) { assert TableEntryOk(c, s, o, g, q, k, l); }
    case SharedDirectory =>
      forall k | 0 <= k < WORDS ensures SharedEntryOk(s2, o2, k) { assert SharedEntryOk(s, o, k); }
    case _ =>
  }

  predicate OwnedBy(r: Role, p: int) {
    (r.Directory? && r.pid == p) || (r.Table? && r.pid == p) || (r.User? && r.pid == p)
  }

  ghost function Disown(o: Owners, p: int): Owners {
    o.(roles := map f | f in o.roles :: if OwnedBy(o.roles[f], p) then Detached else o.roles[f])
  }

  /** A process that goes leaves all of its frames detached. */
  lemma DropProcess(c: Config, s: State, o: Owners, p: int)
    requires Inv(c, s, o) && p in s.pds
    ensures Inv(c, s.(pds := s.pds - {p}), Disown(o, p))
  {
    hide FreeListOk, FrameOk;
    var s2, o2 := s.(pds := s.pds - {p}), Disown(o, p);
    forall g | g in s2.mem ensures FrameOk(c, s2, o2, g) {
      assert FrameOk(c, s, o, g);
      DropProcessFrame(c, s, o, p, g);
    }
    HeadOfList(c, s, o);
    SameFreeList(s, o, s2, o2);
  }

  lemma DropProcessFrame(c: Config, s: State, o: Owners, p: int, g: nat)
    requires Roots(s, o) && p in s.pds && g in s.mem && FrameOk(c, s, o, g)
    ensures FrameOk(c, s.(pds := s.pds - {p}), Disown(o, p), g)
  {
    var s2, o2 := s.(pds := s.pds - {p}), Disown(o, p);
    if !OwnedBy(o.roles[g], p) {
      match o.roles[g]
      case Directory(q) =>
        forall k | 0 <= k < WORDS ensures DirEntryOk(c, s2, o2, g, q, k) { assert DirEntryOk(c, s, o, g, q, k); }
      case Table(q, k) =>
        forall l | 0 <= l < WORDS ensures TableEntryOk(c, s2, o2, g, q, k, l) { assert TableEntryOk(c, s, o, g, q, k, l); }
      case SharedDirectory =>
        forall k | 0 <= k < WORDS ensures SharedEntryOk(s2, o2, k) { assert SharedEntryOk(s, o, k); }
      case _ =>
    }
  }

  // ----- building the kernel half

  /** The table at i exists already. */
  lemma MapShared(c: Config, s: State, o: Owners, t: nat)
    requires Inv(c, s, o) && s.pds == map[] && 2 <= s.mapped < c.limit && s.mapped % 1024 != 0
    requires |s.mem[s.shared]| == WORDS && s.mem[s.shared][s.mapped / 1024] == Entry(t)
    ensures t in s.mem && |s.mem[t]| == WORDS
    ensures Inv(c, SetWord(s, t, s.mapped % 1024, Entry(s.mapped)).(mapped := s.mapped + 1), o)
  {
    hide FreeListOk;
    assert FrameOk(c, s, o, s.shared);
    assert SharedEntryOk(s, o, s.mapped / 1024);
    assert FrameOk(c, s, o, t);
    var s2 := SetWord(s, t, s.mapped % 1024, Entry(s.mapped)).(mapped := s.mapped + 1);
    forall g | g in s2.mem ensures FrameOk(c, s2, o, g) {
      assert FrameOk(c, s, o, g);
      if g == s.shared {
        forall k | 0 <= k < WORDS ensures SharedEntryOk(s2, o, k) { assert SharedEntryOk(s, o, k); }
      }
    }
    HeadOfList(c, s, o);
    SameFreeList(s, o, s2, o);
  }

  /** The state after the first page of a 4 MB unit has been mapped through new table t. */
  function WithSharedTable(s: State, t: nat): State
    requires s.shared in s.mem && |s.mem[s.shared]| == WORDS && t in s.mem && |s.mem[t]| == WORDS && t != s.shared
    requires s.mapped / 1024 < WORDS
  {
    SetWord(SetWord(s, s.shared, s.mapped / 1024, Entry(t)), t, s.mapped % 1024, Entry(s.mapped)).(mapped := s.mapped + 1)
  }

  lemma MapSharedFirstFrame(c: Config, s: State, o: Owners, t: nat, g: nat)
    requires Roots(s, o) && s.pds == map[] && 1 <= s.mapped < USER && (s.mapped == 1 || s.mapped % 1024 == 0)
    requires t in s.mem && o.roles[t] == Detached && s.mem[t] == ZeroPage() && |s.mem[s.shared]| == WORDS
    requires s.mem[s.shared][s.mapped / 1024] == 0
    requires g in s.mem && FrameOk(c, s, o, g) && FrameOk(c, s, o, t)
    ensures FrameOk(c, WithSharedTable(s, t), WithRole(o, t, SharedTable(s.mapped / 1024)), g)
  {
    var s2, o2 := WithSharedTable(s, t), WithRole(o, t, SharedTable(s.mapped / 1024));
    if g == s.shared {
      forall k | 0 <= k < WORDS ensures SharedEntryOk(s2, o2, k) { assert SharedEntryOk(s, o, k); }
    }
  }

  lemma MapSharedFirst(c: Config, s: State, o: Owners, t: nat)
    requires Inv(c, s, o) && s.pds == map[] && 1 <= s.mapped < c.limit && (s.mapped == 1 || s.mapped % 1024 == 0)
    requires t in s.mem && o.roles[t] == Detached && s.mem[t] == ZeroPage()
    ensures |s.mem[s.shared]| == WORDS && s.mem[s.shared][s.mapped / 1024] == 0 && t != s.shared
    ensures Inv(c, WithSharedTable(s, t), WithRole(o, t, SharedTable(s.mapped / 1024)))
  {
    hide FreeListOk;
    assert FrameOk(c, s, o, s.shared) && SharedEntryOk(s, o, s.mapped / 1024);
    var s2, o2 := WithSharedTable(s, t), WithRole(o, t, SharedTable(s.mapped / 1024));
    forall g | g in s2.mem ensures FrameOk(c, s2, o2, g) {
      assert FrameOk(c, s, o, g) && FrameOk(c, s, o, t);
      MapSharedFirstFrame(c, s, o, t, g);
    }
    HeadOfList(c, s, o);
    SameFreeList(s, o, s2, o2);
  }
}
