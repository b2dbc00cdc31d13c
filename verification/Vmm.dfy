/** The physical frame allocator and the virtual memory manager as the source runs them:
    physmem.cc, vmm.cc, and the page loops of fork and execl in sys.cc. A panic (no more
    frames, a fault outside the private half) is reported as ok == false; the frames and
    tables are consistent even then. */
module VmmModule {
  import opened Paging
  import opened Translation
  import opened AddressSpaces

  class Vmm {
    const c: Config
    var mem: map<nat, Page>
    var firstFree: nat
    var avail: nat
    var shared: nat
    var pds: map<int, nat>
    ghost var mapped: nat
    ghost var owners: Owners

    ghost function Memory(): State
      reads this
    {
      State(mem, firstFree, avail, shared, mapped, pds)
    }

    ghost predicate Valid()
      reads this
    {
      Inv(c, Memory(), owners)
    }

    /** Booted: the kernel half is complete and every process maps the devices. */
    ghost predicate Ready()
      reads this
    {
      Valid() && mapped == c.limit && forall p :: p in pds ==> DevicesMapped(c, Memory(), p)
    }

    /** Frames that can still be allocated. */
    ghost function Frames(): int
      reads this
    {
      Available(c, Memory(), owners)
    }

    /** PhysMem::init, and the first allocation of global_init: the shared directory. */
    constructor (c: Config, frames: map<nat, Page>)
      requires c.Valid()
      requires forall f: nat :: f in frames <==> c.start <= f < c.limit
      requires forall f :: f in frames ==> |frames[f]| == WORDS
      ensures Valid() && this.c == c && pds == map[] && mapped == 1
      ensures owners.free == [] && avail == c.start + 1
    {
      this.c := c;
      firstFree := 0;
      avail := c.start + 1;
      shared := c.start;
      mem := frames[c.start := ZeroPage()];
      pds := map[];
      mapped := 1;
      owners := Owners(map f | f in frames :: if f == c.start then SharedDirectory else Untouched, []);
      new;
      forall f | f in mem ensures FrameOk(c, Memory(), owners, f) {}
    }

    /** alloc_frame; it panics when the free list is empty and no frame is untouched. */
    method AllocFrame() returns (ok: bool, p: nat)
      requires Valid()
      modifies this`mem, this`firstFree, this`avail, this`owners
      ensures Valid()
      ensures ok <==> CanAlloc(c, old(Memory()))
      ensures !ok ==> Memory() == old(Memory()) && owners == old(owners)
      ensures ok ==> old(AllocReady(Memory()))
                     && Memory() == Alloc(old(Memory())).0 && p == Alloc(old(Memory())).1
                     && owners == AllocOwners(old(Memory()), old(owners))
    {
      hide Inv, FrameOk, FreeListOk, Step, SameMap, OnlyFrame, AllocOwners;
      AllocatorHead(c, Memory(), owners);
      if firstFree == 0 && avail == c.limit {
        return false, 0;
      }
      AllocStep(c, Memory(), owners);
      owners := AllocOwners(Memory(), owners);
      if firstFree != 0 {
        p := firstFree;
        firstFree := mem[firstFree][0] / 4096;
      } else {
        p := avail;
        avail := avail + 1;
      }
      mem := mem[p := ZeroPage()];
      ok := true;
    }

    /** dealloc_frame of a frame nothing refers to. */
    method DeallocFrame(p: nat)
      requires Valid() && p in mem && owners.roles[p] == Detached
      modifies this`mem, this`firstFree, this`owners
      ensures Valid() && |old(mem)[p]| == WORDS
      ensures Memory() == Dealloc(old(Memory()), p) && owners == DeallocOwners(old(owners), p)
    {
      hide Inv, FrameOk, FreeListOk;
      DeallocStep(c, Memory(), owners, p);
      mem := mem[p := Put(mem[p], 0, 4096 * firstFree)];
      firstFree := p;
      owners := DeallocOwners(owners, p);
    }

    /** map(pd, va, pa) on any directory; the caller says what the change means. */
    method Map(pd: nat, va: nat, pa: nat) returns (ok: bool)
      requires Valid() && va < PAGES && pd in mem && |mem[pd]| == WORDS
      requires (NeedsTable(Memory(), pd, va) && !CanAlloc(c, Memory())) || MapReady(Memory(), pd, va)
      modifies this`mem, this`firstFree, this`avail, this`owners
      ensures ok <==> !(NeedsTable(old(Memory()), pd, va) && !CanAlloc(c, old(Memory())))
      ensures !ok ==> Memory() == old(Memory()) && owners == old(owners)
      ensures ok ==> old(MapReady(Memory(), pd, va)) && Memory() == MapState(old(Memory()), pd, va, pa)
                     && owners == if NeedsTable(old(Memory()), pd, va) then AllocOwners(old(Memory()), old(owners)) else old(owners)
    {
      hide Inv, FrameOk, FreeListOk;
      var pdi, pti := va / 1024, va % 1024;
      var pde := mem[pd][pdi];
      ok := true;
      if !Present(pde) {
        if firstFree == 0 && avail == c.limit {
          return false;
        }
        var _, t := AllocFrame();
        pde := Entry(t);
        mem := mem[pd := Put(mem[pd], pdi, pde)];
      }
      var pt := FrameOf(pde);
      mem := mem[pt := Put(mem[pt], pti, Entry(pa))];
    }

    /** map() on a private page: page va of process p comes to translate to pa, and no other
        page of any process changes. */
    method MapPrivate(ghost p: int, pd: nat, va: nat, pa: nat) returns (ok: bool)
      requires Valid() && p in pds && pds[p] == pd && USER <= va < PAGES
      requires if c.Device(va) then pa == va
               else Translate(Memory(), p, va) == -1 && pa in mem && owners.roles[pa] == Detached
      modifies this`mem, this`firstFree, this`avail, this`owners
      ensures Valid()
      ensures ok <==> (old(NeedsTableOf(Memory(), p, va)) ==> CanAlloc(c, old(Memory())))
      ensures !ok ==> Memory() == old(Memory()) && owners == old(owners)
      ensures ok ==> MapsOnly(c, old(Memory()), old(owners), Memory(), owners, p, va, pa)
      ensures ok && !c.Device(va) ==> pa in owners.roles && owners.roles[pa] == User(p, va / 1024, va % 1024)
      ensures ok ==> TableAt(old(Memory()), Memory(), p, va / 1024)
                     && Frames() == old(Frames()) - (if old(NeedsTableOf(Memory(), p, va)) then 1 else 0)
    {
      hide Inv, FrameOk, FreeListOk, MapsOnly, TableAt;
      ghost var s, o := Memory(), owners;
      DirectoryPage(c, s, o, p, va);
      if !NeedsTable(s, pd, va) || CanAlloc(c, s) {
        MapUser(c, s, o, p, va, pa);
        MapCounts(c, s, o, p, va, pa);
      }
      ok := Map(pd, va, pa);
      if ok {
        owners := MapOwners(c, s, o, p, va, pa);
        assert Memory() == MapState(s, pd, va, pa);
        MapsOnlyInv(c, s, o, Memory(), owners, p, va, pa);
      }
    }

    /** unmap() of a private page. */
    method Unmap(ghost p: int, pd: nat, va: nat)
      requires Valid() && p in pds && pds[p] == pd && USER <= va < PAGES && !c.Device(va)
      modifies this`mem, this`firstFree, this`owners
      ensures Valid()
      ensures old(UnmapReady(Memory(), pd, va))
      ensures Memory() == UnmapState(old(Memory()), pd, va) && owners == UnmapOwners(old(Memory()), old(owners), p, va)
      ensures SameMapBut(old(Memory()), Memory(), p, va) && Translate(Memory(), p, va) == -1
      ensures |owners.free| == |old(owners).free| + (if Mapped(old(Memory()), p, va) then 1 else 0)
    {
      hide Inv, FrameOk, FreeListOk;
      ghost var s, o := Memory(), owners;
      UnmapUser(c, s, o, p, va);
      UnmapCase(c, s, o, p, va);
      owners := UnmapOwners(s, o, p, va);
      var pdi, pti := va / 1024, va % 1024;
      var pde := mem[pd][pdi];
      if !Present(pde) {
        return;
      }
      var pt := FrameOf(mem[pd][pdi]);
      var pte := mem[pt][pti];
      if !Present(pte) {
        return;
      }
      var pa := FrameOf(pte);
      mem := mem[pt := Put(mem[pt], pti, 0)];
      mem := mem[pa := Put(mem[pa], 0, 4096 * firstFree)];
      firstFree := pa;
    }

    /** The loop of global_init: map every page of physical memory but the first. It
        succeeds exactly when there is a frame for every page table. */
    method GlobalInit() returns (ok: bool)
      requires Valid() && pds == map[] && mapped == 1
      modifies this
      ensures Valid() && pds == map[]
      ensures ok <==> SharedTables(c.limit) <= old(Frames())
      ensures ok ==> Ready() && Frames() == old(Frames()) - SharedTables(c.limit)
    {
      hide FrameOk, FreeListOk, MapState, SharedTables, Available;
      var va := 1;
      SharedTablesGrow(1, 1);
      while va < c.limit
        invariant Valid() && pds == map[] && mapped == va && 1 <= va <= c.limit
        invariant Frames() == old(Frames()) - SharedTables(va)
      {
        ghost var s, o := Memory(), owners;
        SharedMapReady(c, s, o);
        Counted(c, s, o);
        ok := Map(shared, va, va);
        if !ok {
          SharedTablesNext(va);
          SharedTablesGrow(va + 1, c.limit);
          return;
        }
        SharedMapped(c, s, o);
        SharedMapCounts(c, s, o);
        owners := SharedMapOwners(s, o);
        mapped := va + 1;
        va := va + 1;
      }
      Counted(c, Memory(), owners);
      ok := true;
    }

    /** make_pd for a new process p: it takes a directory and the tables of the devices, and
        succeeds exactly when there are that many frames. */
    method MakePd(p: int) returns (ok: bool, pd: nat)
      requires Ready() && p !in pds
      modifies this
      ensures Valid() && mapped == c.limit && SameMap(old(Memory()), Memory())
      ensures Step(old(Memory()), old(owners), Memory(), owners)
      ensures ok <==> NewSpaceCost(c) <= old(Frames())
      ensures ok ==> Ready() && pds.Keys == old(pds.Keys) + {p} && p in pds && pds[p] == pd
      ensures ok ==> forall v: nat {:trigger Translate(Memory(), p, v)} ::
                USER <= v < PAGES && !c.Device(v) ==> Translate(Memory(), p, v) == -1
      ensures ok ==> Frames() == old(Frames()) - NewSpaceCost(c)
                     && forall k {:trigger Tabled(Memory(), p, k)} :: 512 <= k < WORDS ==>
                          (Tabled(Memory(), p, k) <==> k == c.io / 1024 || k == c.local / 1024)
    {
      hide Inv, FrameOk, FreeListOk, Step, KernelHalf, SameMap, SameMapBut, DevicesMapped, Translate, OnlyFrame,
           Available, Tabled, SameTables, TableAt;
      ghost var s, o := Memory(), owners;
      Counted(c, s, o);
      ok, pd := AllocFrame();
      if !ok {
        StepNothing(c, s, o);
        return;
      }
      AllocStep(c, s, o);
      AllocCounts(c, s, o);
      ghost var s1, o1 := Memory(), owners;
      SharedEntriesFit(c, s1, o1);
      var n := c.SharedEntries();
      mem := mem[pd := mem[shared][..n] + mem[pd][n..]];
      pds := pds[p := pd];
      KernelHalfBuilt(c, s1, pd);
      NewSpace(c, s1, o1, p, pd, mem[pd]);
      owners := WithRole(owners, pd, Directory(p));
      ghost var s2, o2 := Memory(), owners;
      SameFrames(c, s1, o1, s2, o2);
      NewSpaceTables(c, s1, s2, p, pd, mem[pd]);
      StepTwice(s, o, s1, o1, s2, o2);
      SameMapOnce(s, s1, s2);
      Counted(c, s2, o2);
      TableNeeded(c, s2, o2, p, c.io);
      ok := MapPrivate(p, pd, c.io, c.io);
      if !ok {
        return;
      }
      ghost var s3, o3 := Memory(), owners;
      StepTwice(s, o, s2, o2, s3, o3);
      SameMapApart(s, s2, s3, p, c.io);
      Counted(c, s3, o3);
      TableNeeded(c, s3, o3, p, c.local);
      ok := MapPrivate(p, pd, c.local, c.local);
      OneTableAt(s2, s3, p, c.io / 1024, c.local / 1024);
      if ok {
        StepTwice(s, o, s3, o3, Memory(), owners);
        SameMapApart(s, s3, Memory(), p, c.local);
        MakePdReady(c, s, s2, s3, Memory(), p);
        DevicesKept(c, s, Memory());
        DeviceTablesOnly(c, s2, s3, Memory(), p);
      }
    }

    /** delete_pd: the directory and its private tables go back to the free list; the private
        pages do not, and nothing refers to them any more. No frame is lost exactly when the
        process has nothing mapped there but the devices. */
    method DeletePd(p: int)
      requires Ready() && p in pds
      modifies this
      ensures Ready() && TornDown(c, old(Memory()), old(owners), Memory(), owners, p)
      ensures LosesNothing(old(owners), owners) <==> OnlyDevices(c, old(Memory()), p)
    {
      hide Inv, FrameOk, FreeListOk, OthersKept, DevicesMapped, LosesNothing, OnlyDevices;
      ghost var s, o := Memory(), owners;
      var pd := pds[p];
      TearStarts(c, s, o, p);
      pds := pds - {p};
      owners := Disown(owners, p);
      var i := 512;
      while i < 1024
        invariant 512 <= i <= 1024
        invariant TornUpTo(c, s, o, Memory(), owners, p, pd, i)
      {
        TearStep(c, s, o, Memory(), owners, p, pd, i);
        var pde := mem[pd][i];
        if Present(pde) {
          DeallocFrame(FrameOf(pde));
        }
        i := i + 1;
      }
      TearEnds(c, s, o, Memory(), owners, p, pd);
      DeallocFrame(pd);
      forall q | q in pds ensures DevicesMapped(c, Memory(), q) {
        DevicesAfterTear(c, s, o, Memory(), owners, p, q);
      }
      LosesNothingIff(c, s, o, Memory(), owners, p);
    }

    /** vmm_pageFault of process p on page va, which it does not map; a fault below
        0x80000000 is a panic, and so is one without a frame for the page and, if need be,
        for its table. */
    method PageFault(p: int, va: nat) returns (ok: bool)
      requires Ready() && p in pds && va < PAGES && Translate(Memory(), p, va) == -1
      modifies this`mem, this`firstFree, this`avail, this`owners
      ensures Ready()
      ensures ok <==> USER <= va && (if old(NeedsTableOf(Memory(), p, va)) then 2 else 1) <= old(Frames())
      ensures va < USER ==> Memory() == old(Memory())
      ensures !ok ==> SameMap(old(Memory()), Memory())
      ensures ok ==>
        var pa := Translate(Memory(), p, va);
        && 0 <= pa && pa in mem && mem[pa] == ZeroPage() && pa in old(owners).roles && Unused(old(owners).roles[pa])
        && pa in owners.roles && owners.roles[pa] == User(p, va / 1024, va % 1024)
      ensures SameMapBut(old(Memory()), Memory(), p, va) && Step(old(Memory()), old(owners), Memory(), owners)
    {
      hide Inv, FrameOk, FreeListOk, Step, SameMap, SameMapBut, DevicesMapped, OnlyFrame, Translate,
           Available, Tabled, SameTables, TableAt;
      ghost var s, o := Memory(), owners;
      StepNothing(c, s, o);
      SameMapWeaken(s, s, p, va);
      if va < USER {
        return false;
      }
      NotADevice(c, s, p, va);
      Counted(c, s, o);
      var pa;
      ok, pa := AllocFrame();
      if !ok {
        return;
      }
      AllocStep(c, s, o);
      AllocCounts(c, s, o);
      ghost var s1, o1 := Memory(), owners;
      SameMapWeaken(s, s1, p, va);
      TranslateKept(s, s1, p, va);
      DevicesKept(c, s, s1);
      StillNeeded(c, s, o, s1, o1, p, va);
      Counted(c, s1, o1);
      ok := MapPrivate(p, pds[p], va, pa);
      if ok {
        StepTwice(s, o, s1, o1, Memory(), owners);
        SameMapTwice(s, s1, Memory(), p, va);
        DevicesStayAll(c, s1, Memory(), p, va);
      }
    }

    /** One turn of fork's inner loop; it succeeds exactly when the page can be paid for. */
    method ForkPage(ghost s0: State, ghost o0: Owners, ghost parent: int, child: int, pd: nat, childPd: nat,
                    i: nat, j: nat, pt: nat)
      returns (ok: bool)
      requires ForkedUpTo(c, s0, o0, Memory(), owners, parent, child, 1024 * i + j) && Inv(c, s0, o0)
      requires ForkPaid(c, s0, o0, Memory(), owners, parent, child, 1024 * i + j)
      requires 512 <= i < 1024 && j < 1024 && parent in pds && pds[parent] == pd && pds[child] == childPd
      requires pt in mem && pt in owners.roles && owners.roles[pt] == Table(parent, i)
      modifies this`mem, this`firstFree, this`avail, this`owners
      ensures Valid() && SameMap(s0, Memory()) && Step(s0, o0, Memory(), owners)
      ensures ok <==> PageCost(c, s0, parent, 1024 * i + j) <= old(Frames())
      ensures ok ==> ForkedUpTo(c, s0, o0, Memory(), owners, parent, child, 1024 * i + j + 1)
      ensures ok ==> ForkPaid(c, s0, o0, Memory(), owners, parent, child, 1024 * i + j + 1)
      ensures pt in mem && pt in owners.roles && owners.roles[pt] == Table(parent, i)
    {
      hide Inv, FrameOk, FreeListOk, Step, SameMap, SameMapBut, DevicesMapped, OnlyFrame, CopiedPage,
           Available, Tabled, SameTables, TableAt, ForkPaid, PageCost;
      ghost var s, o := Memory(), owners;
      PageSeen(c, s, o, parent, i, j, pt);
      var va := 1024 * i + j;
      TranslateKept(s0, s, parent, va);
      Counted(c, s, o);
      ok := true;
      if Present(mem[pt][j]) && va != c.io && va != c.local {
        CostSoFar(c, s0, o0, s, o, parent, child, va);
        var pa;
        ok, pa := AllocFrame();
        if !ok {
          return;
        }
        AllocStep(c, s, o);
        AllocCounts(c, s, o);
        ghost var s1, o1 := Memory(), owners;
        ForkAbandoned(c, s0, o0, s, o, parent, child, va, s1, o1);
        TableStays(s, o, s1, o1, pt);
        TranslateKept(s, s1, child, va);
        StillNeeded(c, s, o, s1, o1, child, va);
        Counted(c, s1, o1);
        ok := MapPrivate(child, childPd, va, pa);
        if !ok {
          return;
        }
        ghost var s2, o2 := Memory(), owners;
        TableStays(s1, o1, s2, o2, pt);
        assert PageCopy(c, s, o, s1, o1, s2, o2, child, va, pa);
        ForkSource(c, s0, o0, s, o, parent, child, va, s1, o1, s2, o2, pa);
        ForkWalks(c, s2, o2, parent, va, pa);
        mem := mem[Walk(mem, pd, pa) := mem[Walk(mem, pd, va)]];
        ForkCopies(c, s0, o0, s, o, parent, child, va, s1, o1, s2, o2, pa);
        CopyKeepsTables(c, s, s1, s2, o2, Memory(), child, va, pa);
        SameFrames(c, s2, o2, Memory(), owners);
        PaidCopies(c, s0, o0, s, o, Memory(), owners, parent, child, va);
      } else {
        ForkSkips(c, s0, o0, s, o, parent, child, va);
        PaidSkips(c, s0, o0, s, o, parent, child, va);
        CostsNothing(c, s0, parent, va);
      }
    }

    /** The address-space half of fork: a new address space for the child, then every mapped
        private page of the parent copied onto a fresh frame. It succeeds exactly when there
        are frames for the new space, the copies and their tables. Without a free slot for
        the child the new address space is left as make_pd built it. */
    method Fork(parent: int, child: int, hasSlot: bool) returns (ok: bool)
      requires Ready() && parent in pds && child !in pds
      modifies this
      ensures Valid() && SameMap(old(Memory()), Memory()) && Step(old(Memory()), old(owners), Memory(), owners)
      ensures ok <==>
        NewSpaceCost(c) + (if hasSlot then ForkCost(c, old(Memory()), parent, PAGES) else 0) <= old(Frames())
      ensures ok && hasSlot ==> ForkedUpTo(c, old(Memory()), old(owners), Memory(), owners, parent, child, PAGES)
      ensures ok ==> Ready() && pds.Keys == old(pds.Keys) + {child}
    {
      hide Inv, FrameOk, FreeListOk, Step, SameMap, SameMapBut, DevicesMapped, OnlyFrame, Translate,
           Available, Tabled, ForkCost, PageCost, Copied, ChildTable;
      ghost var s0, o0 := Memory(), owners;
      var childPd;
      ok, childPd := MakePd(child);
      if !ok || !hasSlot {
        return;
      }
      ForkStarts(c, s0, o0, Memory(), owners, parent, child);
      PaidStarts(c, s0, o0, Memory(), owners, parent, child);
      var pd := pds[parent];
      var i := 512;
      while i < 1024
        invariant 512 <= i <= 1024
        invariant ok && ForkedUpTo(c, s0, o0, Memory(), owners, parent, child, 1024 * i)
        invariant ForkPaid(c, s0, o0, Memory(), owners, parent, child, 1024 * i)
        invariant pds[parent] == pd && pds[child] == childPd
      {
        TableSeen(c, Memory(), owners, parent, i);
        if Present(mem[pd][i]) {
          var pt := FrameOf(mem[pd][i]);
          var j := 0;
          while j < 1024
            invariant 0 <= j <= 1024
            invariant ok && ForkedUpTo(c, s0, o0, Memory(), owners, parent, child, 1024 * i + j)
            invariant ForkPaid(c, s0, o0, Memory(), owners, parent, child, 1024 * i + j)
            invariant pds[parent] == pd && pds[child] == childPd
            invariant pt in mem && pt in owners.roles && owners.roles[pt] == Table(parent, i)
          {
            ghost var s, o := Memory(), owners;
            ok := ForkPage(s0, o0, parent, child, pd, childPd, i, j, pt);
            if !ok {
              CannotPay(c, s0, o0, s, o, parent, child, 1024 * i + j);
              return;
            }
            j := j + 1;
          }
        } else {
          NothingToCopy(c, s0, Memory(), parent, i);
          PaidSkipsTable(c, s0, o0, Memory(), owners, parent, child, i, 0);
          ForkSkipsTable(c, s0, o0, Memory(), owners, parent, child, i, 0);
        }
        i := i + 1;
      }
      DevicesKept(c, s0, Memory());
      Counted(c, Memory(), owners);
    }

    /** The unmap loop of execl: every mapped private page of p but the devices. Afterwards
        only the devices are mapped in the private half, and the allocator has got back
        exactly as many frames as pages were mapped. */
    method ExecSweep(p: int)
      requires Ready() && p in pds
      modifies this`mem, this`firstFree, this`owners
      ensures Ready() && SweptUpTo(c, old(Memory()), old(owners), Memory(), owners, p, PAGES)
      ensures forall v: nat {:trigger Translate(Memory(), p, v)} ::
        USER <= v < PAGES ==> Translate(Memory(), p, v) == if c.Device(v) then v else -1
      ensures |owners.free| == |old(owners).free| + MappedCount(c, old(Memory()), p, PAGES)
    {
      hide Inv, FrameOk, FreeListOk, SweptUpTo, DevicesMapped, OthersKept, Translate;
      ghost var s0, o0 := Memory(), owners;
      SweepStarts(c, s0, o0, p);
      var pd := pds[p];
      var i := 512;
      while i < 1024
        invariant 512 <= i <= 1024
        invariant Valid() && SweptUpTo(c, s0, o0, Memory(), owners, p, 1024 * i)
      {
        TableSeen(c, Memory(), owners, p, i);
        if Present(mem[pd][i]) {
          var pt := FrameOf(mem[pd][i]);
          var j := 0;
          while j < 1024
            invariant 0 <= j <= 1024
            invariant Valid() && SweptUpTo(c, s0, o0, Memory(), owners, p, 1024 * i + j)
            invariant pt in mem && pt in owners.roles && owners.roles[pt] == Table(p, i)
          {
            ghost var s, o := Memory(), owners;
            PageSeen(c, s, o, p, i, j, pt);
            var va := 1024 * i + j;
            SweepStep(c, s0, o0, s, o, p, va);
            if Present(mem[pt][j]) && va != c.io && va != c.local {
              TableSurvivesUnmap(c, s, o, p, va, pt);
              UnmapKeepsFrames(c, s, o, p, va);
              Unmap(p, pd, va);
            }
            j := j + 1;
          }
        } else {
          SweepSkipsTable(c, s0, o0, Memory(), owners, p, i, 0);
        }
        i := i + 1;
      }
      forall q | q in pds ensures DevicesMapped(c, Memory(), q) {
        DevicesAfterSweep(c, s0, o0, Memory(), owners, p, q);
      }
      SweepLeavesDevices(c, s0, o0, Memory(), owners, p);
    }
  }

  /** A page that is faulted in and not unmapped before its process ends is lost: its frame
      is neither free nor anybody's. */
  method FaultThenExit(m: Vmm, p: int, va: nat) returns (ok: bool, ghost lost: int)
    requires m.Ready() && p in m.pds && va < PAGES && Translate(m.Memory(), p, va) == -1
    modifies m
    ensures ok <==> USER <= va && (if old(NeedsTableOf(m.Memory(), p, va)) then 2 else 1) <= old(m.Frames())
    ensures ok ==> lost in m.owners.roles && m.owners.roles[lost] == Detached
                   && lost in old(m.owners).roles && Unused(old(m.owners).roles[lost])
  {
    hide Inv, SameMap, SameMapBut, DevicesMapped, OthersKept;
    lost := -1;
    ok := m.PageFault(p, va);
    if ok {
      ghost var s, o := m.Memory(), m.owners;
      lost := Translate(s, p, va);
      m.DeletePd(p);
      assert GoneRole(o.roles[lost], m.owners.roles[lost], p);
    }
  }
}
