/** The pager itself: tables in arrays, pages copied byte by byte between two flat buffers, and the
    searches as loops. Every operation is tied to its piece of `PagerState`. */
module Pager {
  import opened Options
  import opened PagerState
  import opened PagerSteps
  import opened PagerRuns
  import opened PagerDrive
  import opened FlatMemory
  import Clock
  import opened Arith

  datatype ExtendResult =
    /** the pid has no table: the whole program exits */
    | Exited
    | NoSpace
    | At(addr: int)

  class Pager {
    const pageSize: nat
    const frames: array<Frame>
    const referenceBit: array<bool>
    const blocks: array<Block>
    var secondChanceIndex: nat
    var pageList: seq<Table>
    /** physical memory and disk */
    const pmem: array<Byte>
    const disk: array<Byte>
    /** what the processes themselves have mapped */
    var maps: map<PageId, Mapping>

    ghost predicate Shape()
      reads this
    {
      && 0 < pageSize && UVM_BASEADDR % pageSize == 0
      && 0 < frames.Length == referenceBit.Length
      && pmem.Length == frames.Length * pageSize && disk.Length == blocks.Length * pageSize
      && pmem != disk
    }

    ghost function View(): State
      reads this, frames, referenceBit, blocks, pmem, disk
    {
      State(pageSize, frames[..], referenceBit[..], secondChanceIndex, blocks[..], TableMap(pageList),
            Split(pmem[..], pageSize, frames.Length), Split(disk[..], pageSize, blocks.Length), maps)
    }

    ghost predicate Valid()
      reads this, frames, referenceBit, blocks, pmem, disk
    {
      Shape() && Inv(View(), Idle)
    }

    constructor (nframes: nat, nblocks: nat, pageSize: nat)
      requires 0 < nframes && 0 < pageSize && UVM_BASEADDR % pageSize == 0
      ensures Valid() && this.pageSize == pageSize
      ensures fresh(frames) && fresh(referenceBit) && fresh(blocks) && fresh(pmem) && fresh(disk)
      ensures frames.Length == nframes && blocks.Length == nblocks
      ensures View() == InitState(pageSize, View().pmem, View().disk)
    {
      this.pageSize := pageSize;
      frames := new Frame[nframes](_ => Frame(INVALID_PID, PageId(INVALID_PID, 0)));
      referenceBit := new bool[nframes](_ => false);
      blocks := new Block[nblocks](_ => Block(false, None));
      secondChanceIndex := 0;
      pageList := [];
      pmem := new Byte[nframes * pageSize](_ => 'z');
      disk := new Byte[nblocks * pageSize];
      maps := map[];
      new;
      SplitLength(pmem[..], pageSize, nframes);
      SplitLength(disk[..], pageSize, nblocks);
    }

    // -------------------------------------------------------------- the memory unit

    method MmuChProt(pg: PageId, prot: Prot)
      requires Shape() && pg in maps
      modifies this`maps
      ensures Shape() && View() == old(View()).ChProt(pg, prot)
    {
      maps := maps[pg := maps[pg].(prot := prot)];
    }

    method MmuResident(pg: PageId, frame: nat)
      requires Shape()
      modifies this`maps
      ensures Shape() && View() == Map(old(View()), frame, pg)
    {
      maps := maps[pg := Mapping(frame, ReadOnly)];
    }

    method MmuDiskWrite(frame: nat, block: nat)
      requires Shape() && frame < frames.Length && block < blocks.Length
      modifies disk
      ensures View() == old(View()).(disk := old(View()).disk[block := old(View()).pmem[frame]])
    {
      CopyPage(disk, block, pmem, frame, pageSize, blocks.Length, frames.Length);
    }

    method MmuDiskRead(block: nat, frame: nat)
      requires Shape() && frame < frames.Length && block < blocks.Length
      modifies pmem
      ensures View() == old(View()).(pmem := old(View()).pmem[frame := old(View()).disk[block]])
    {
      CopyPage(pmem, frame, disk, block, pageSize, frames.Length, blocks.Length);
    }

    method MmuZeroFill(frame: nat)
      requires Shape() && frame < frames.Length
      modifies pmem
      ensures View() == old(View()).(pmem := old(View()).pmem[frame := Zeros(pageSize)])
    {
      FillPage(pmem, frame, ZERO, pageSize, frames.Length);
    }

    // -------------------------------------------------------------- the processes

    /** A load as the process sees it. */
    method Load(pg: PageId, off: nat) returns (v: Option<Byte>)
      requires Valid()
      ensures v.None? <==> pg !in maps || maps[pg].prot == NoAccess || pageSize <= off
      ensures v.Some? ==> View().Has(pg) && off < |Content(Config(View(), Idle), pg)|
      ensures v.Some? ==> v.value == Content(Config(View(), Idle), pg)[off]
    {
      if pg !in maps || maps[pg].prot == NoAccess || off >= pageSize {
        return None;
      }
      LoadSeesContent(Config(View(), Idle), pg, off);
      Fits(maps[pg].frame, frames.Length, pageSize);
      return Some(pmem[maps[pg].frame * pageSize + off]);
    }

    /** Stores, straight into physical memory where the mapping allows it. */
    method RunUsers(pokes: seq<Poke>)
      requires Shape()
      modifies pmem
      ensures Shape() && View() == UserStores(old(View()), pokes)
    {
      for j := 0 to |pokes|
        invariant View() == UserStores(old(View()), pokes[..j])
      {
        var p := pokes[j];
        assert pokes[..j + 1][..j] == pokes[..j];
        SplitLength(pmem[..], pageSize, frames.Length);
        if p.pg in maps && maps[p.pg].prot == ReadWrite && p.off < pageSize && maps[p.pg].frame < frames.Length {
          SplitPoke(pmem[..], pageSize, frames.Length, maps[p.pg].frame, p.off, p.v);
          pmem[maps[p.pg].frame * pageSize + p.off] := p.v;
        }
      }
      assert pokes[..|pokes|] == pokes;
    }

    // -------------------------------------------------------------- searches

    method FindFreeFrame() returns (r: Option<nat>)
      ensures r == FreeFrameFrom(frames[..], 0)
    {
      for i := 0 to frames.Length
        invariant FreeFrameFrom(frames[..], i) == FreeFrameFrom(frames[..], 0)
      {
        if frames[i].pid == INVALID_PID { return Some(i); }
      }
      return None;
    }

    method FindFreeBlock() returns (r: Option<nat>)
      ensures r == FreeBlockFrom(blocks[..], 0)
    {
      for i := 0 to blocks.Length
        invariant FreeBlockFrom(blocks[..], i) == FreeBlockFrom(blocks[..], 0)
      {
        if blocks[i].page == None { return Some(i); }
      }
      return None;
    }

    method FindPageTable(pid: int) returns (r: Option<nat>)
      ensures r.Some? ==> FirstAt(pageList, pid, r.value) && pid in TableMap(pageList)
      ensures r.Some? ==> TableMap(pageList)[pid] == pageList[r.value].pages
      ensures r.None? ==> pid !in TableMap(pageList)
    {
      for i := 0 to |pageList|
        invariant forall k :: 0 <= k < i ==> pageList[k].pid != pid
      {
        if pageList[i].pid == pid {
          TableMapLookup(pageList, pid, i);
          return Some(i);
        }
      }
      TableMapMissing(pageList, pid);
      return None;
    }

    method GetPage(pages: seq<Page>, addr: int) returns (r: Option<nat>)
      ensures r.Some? ==> r.value < |pages| && pages[r.value].addr <= addr < pages[r.value].addr + pageSize
      ensures r.None? ==> forall k :: 0 <= k < |pages| ==> !(pages[k].addr <= addr < pages[k].addr + pageSize)
    {
      for i := 0 to |pages|
        invariant forall k :: 0 <= k < i ==> !(pages[k].addr <= addr < pages[k].addr + pageSize)
      {
        if addr >= pages[i].addr && addr < pages[i].addr + pageSize { return Some(i); }
      }
      return None;
    }

    method FindFrameToSwap() returns (victim: nat, ghost steps: nat)
      requires Shape() && secondChanceIndex < frames.Length
      modifies this`secondChanceIndex, referenceBit
      ensures Shape()
      ensures var c := Clock.Sweep(old(referenceBit[..]), old(secondChanceIndex));
        && victim == c.victim && steps == c.steps
        && View() == old(View()).(bits := c.bits, hand := c.hand)
    {
      ghost var goal := Clock.Sweep(referenceBit[..], secondChanceIndex);
      var found := false;
      victim, steps := 0, 0;
      while !found
        invariant secondChanceIndex < frames.Length
        invariant !found ==>
          var c := Clock.Sweep(referenceBit[..], secondChanceIndex); goal == c.(steps := steps + c.steps)
        invariant found ==> goal == Clock.Choice(referenceBit[..], victim, secondChanceIndex, steps)
        decreases !found, Clock.Ones(referenceBit[..])
      {
        var index := secondChanceIndex;
        if !referenceBit[index] {
          victim, found := index, true;
        } else {
          Clock.OnesUpdate(referenceBit[..], index, false);
          ghost var bits := referenceBit[..];
          referenceBit[index] := false;
          assert referenceBit[..] == bits[index := false];
        }
        Clock.SuccessorIsMod(frames.Length, index);
        secondChanceIndex := (index + 1) % frames.Length;
        steps := steps + 1;
      }
    }

    // -------------------------------------------------------------- tables

    method WritePage(t: nat, pg: PageId, page: Page)
      requires Shape() && FirstAt(pageList, pg.pid, t) && pg.index < |pageList[t].pages|
      modifies this`pageList
      ensures Shape() && old(View()).Has(pg) && View() == old(View()).With(pg, page)
      ensures FirstAt(pageList, pg.pid, t) && |pageList[t].pages| == old(|pageList[t].pages|)
    {
      var pages := pageList[t].pages[pg.index := page];
      TableMapLookup(pageList, pg.pid, t);
      TableMapUpdate(pageList, pg.pid, t, pages);
      pageList := pageList[t := Table(pg.pid, pages)];
    }

    /** A second table for a pid is never found. */
    method Create(pid: int)
      requires Valid() && pid != INVALID_PID
      modifies this`pageList
      ensures Valid()
      ensures View() == if pid in old(View()).tables then old(View()) else DoCreate(old(View()), pid)
    {
      if pid !in View().tables { CreateOk(View(), pid); }
      TableMapAppend(pageList, pid, []);
      pageList := pageList + [Table(pid, [])];
    }

    method Extend(pid: int) returns (r: ExtendResult)
      requires Valid()
      modifies this`pageList, blocks
      ensures Valid()
      ensures View() == if pid in old(View()).tables then DoExtend(old(View()), pid) else old(View())
      ensures r ==
        if FreeBlockFrom(old(View()).blocks, 0).None? then NoSpace
        else if pid !in old(View()).tables then Exited
        else At(UVM_BASEADDR + |old(View()).tables[pid]| * pageSize)
    {
      var b := FindFreeBlock();
      if b.None? { return NoSpace; }
      var t := FindPageTable(pid);
      if t.None? { return Exited; }
      ExtendOk(View(), pid);
      var pages := pageList[t.value].pages;
      var page := Page(false, 0, b.value, false, UVM_BASEADDR + |pages| * pageSize);
      TableMapUpdate(pageList, pid, t.value, pages + [page]);
      pageList := pageList[t.value := Table(pid, pages + [page])];
      blocks[b.value] := blocks[b.value].(page := Some(PageId(pid, |pages|)));
      return At(page.addr);
    }

    /** Give back the blocks and frames of a table's pages, from the last page down. */
    method FreePageList(t: nat, pid: int, ghost s: State)
      requires Shape() && s == View() && Inv(s, Idle) && pid in s.tables
      requires FirstAt(pageList, pid, t) && pageList[t].pages == s.tables[pid]
      modifies this`pageList, frames, blocks
      ensures Shape()
      ensures View() == DoDestroy(s, pid).(maps := s.maps)
    {
      OwnsOnlyPages(s, pid);
      ghost var list, pages := pageList, s.tables[pid];
      var n := |pageList[t].pages|;
      assert pages[..n] == pages && list[t := Table(pid, pages)] == list;
      while n > 0
        invariant n <= |pages| && |pageList| == |list|
        invariant pageList == list[t := Table(pid, pages[..n])]
        invariant forall f :: 0 <= f < frames.Length ==>
          frames[f] == if s.frames[f].pid == pid && s.frames[f].page.index >= n
                       then s.frames[f].(pid := INVALID_PID) else s.frames[f]
        invariant forall b :: 0 <= b < blocks.Length ==>
          blocks[b] == if OwnedBy(s.blocks[b], pid) && s.blocks[b].page.value.index >= n
                       then s.blocks[b].(page := None) else s.blocks[b]
      {
        n := n - 1;
        var page := pageList[t].pages[n];
        TakesItsOwn(s, pid, n);
        assert pages[..n + 1][..n] == pages[..n];
        pageList := pageList[t := Table(pid, pageList[t].pages[..n])];
        blocks[page.block] := blocks[page.block].(page := None);
        if page.valid {
          frames[page.frame] := frames[page.frame].(pid := INVALID_PID);
        }
      }
      TableMapUpdate(list, pid, t, []);
      assert pages[..0] == [];
      assert frames[..] == DoDestroy(s, pid).frames;
      assert blocks[..] == DoDestroy(s, pid).blocks;
    }

    /** The process is dead; false if the pid has no table, in which case the whole program exits. */
    method Destroy(pid: int) returns (ok: bool)
      requires Valid()
      modifies this`pageList, this`maps, frames, blocks
      ensures Valid() && ok == (pid in old(View()).tables)
      ensures View() == if ok then DoDestroy(old(View()), pid) else old(View())
    {
      var t := FindPageTable(pid);
      if t.None? { return false; }
      ghost var s := View();
      DestroyOk(s, pid);
      FreePageList(t.value, pid, s);
      maps := OthersOf(maps, pid);
      return true;
    }

    // -------------------------------------------------------------- faults

    /** Put a page that was just given up on disk, if it was ever writable. */
    method SaveVictim(f: nat)
      requires Shape() && f < frames.Length && View().Has(frames[f].page)
      requires View().At(frames[f].page).block < blocks.Length
      modifies blocks, disk
      ensures Shape() && View() == Save(old(View()), f)
    {
      var t := FindPageTable(frames[f].page.pid);
      var page := pageList[t.value].pages[frames[f].page.index];
      if page.dirty {
        blocks[page.block] := blocks[page.block].(written := true);
        MmuDiskWrite(f, page.block);
      }
    }

    method UnmapVictim(f: nat)
      requires Shape() && f < frames.Length && View().Has(frames[f].page) && frames[f].page in maps
      modifies this`pageList, this`maps
      ensures Shape() && View() == Unmap(old(View()), f)
    {
      var pg := frames[f].page;
      var t := FindPageTable(pg.pid);
      WritePage(t.value, pg, pageList[t.value].pages[pg.index].(valid := false));
      MmuChProt(pg, NoAccess);
    }

    // Each of the following is one piece, after the stores that the processes got in before it.

    method ProtectRound(i: nat, pokes: seq<Poke>, ghost c: Machine)
      requires Shape() && View() == c.s && i < frames.Length && c.ph.Protecting? && c.ph.next == i
      modifies this`maps, pmem
      ensures Shape() && View() == Round(c, pokes).s
    {
      RoundIs(c, pokes);
      RunUsers(pokes);
      MmuChProt(frames[i].page, NoAccess);
    }

    method UnmapRound(f: nat, pokes: seq<Poke>, ghost c: Machine)
      requires Shape() && View() == c.s && c.ph.Unmapping? && c.ph.f == f
      modifies this`maps, this`pageList, pmem
      ensures Shape() && View() == Round(c, pokes).s
    {
      RoundIs(c, pokes);
      RunUsers(pokes);
      UnmapVictim(f);
    }

    method SaveRound(f: nat, pokes: seq<Poke>, ghost c: Machine)
      requires Shape() && View() == c.s && c.ph.Evicting? && c.ph.f == f
      modifies blocks, disk, pmem
      ensures Shape() && View() == Round(c, pokes).s
    {
      RoundIs(c, pokes);
      RunUsers(pokes);
      SaveVictim(f);
    }

    method FillRound(f: nat, pg: PageId, pokes: seq<Poke>, ghost c: Machine)
      requires Shape() && View() == c.s && c.ph == Vacant(f, pg)
      modifies this`pageList, frames, referenceBit, pmem
      ensures Shape() && View() == Round(c, pokes).s
    {
      RoundIs(c, pokes);
      RunUsers(pokes);
      var t := FindPageTable(pg.pid);
      var page := pageList[t.value].pages[pg.index];
      frames[f] := Frame(pg.pid, pg);
      referenceBit[f] := true;
      WritePage(t.value, pg, page.(valid := true, frame := f, dirty := false));
      if blocks[page.block].written {
        MmuDiskRead(page.block, f);
      } else {
        MmuZeroFill(f);
      }
    }

    method MapRound(f: nat, pg: PageId, pokes: seq<Poke>, ghost c: Machine)
      requires Shape() && View() == c.s && c.ph == Filled(f, pg)
      modifies this`maps, pmem
      ensures Shape() && View() == Round(c, pokes).s
    {
      RoundIs(c, pokes);
      RunUsers(pokes);
      MmuResident(pg, f);
    }

    method DirtyRound(pg: PageId, pokes: seq<Poke>, ghost c: Machine)
      requires Shape() && View() == c.s && c.ph == Granting(pg)
      modifies this`pageList, referenceBit, pmem
      ensures Shape() && View() == Round(c, pokes).s
    {
      RoundIs(c, pokes);
      RunUsers(pokes);
      var t := FindPageTable(pg.pid);
      var page := pageList[t.value].pages[pg.index];
      referenceBit[page.frame] := true;
      WritePage(t.value, pg, page.(dirty := true));
    }

    /** With frame 0 as the victim, first make every frame inaccessible. */
    method ProtectAll(users: nat -> seq<Poke>, ghost pg: PageId, ghost c0: Machine)
      returns (k: nat, ghost c: Machine)
      requires Shape() && View() == c0.s && c0.ph == Protecting(0, pg)
      modifies this`maps, pmem
      ensures Shape() && View() == c.s && c.ph == Unmapping(0, pg)
      ensures Drive(c, users, k) == Drive(c0, users, 0)
    {
      k, c := 0, c0;
      for i := 0 to frames.Length
        invariant k == i && Shape() && View() == c.s
        invariant c.ph == if i < frames.Length then Protecting(i, pg) else Unmapping(0, pg)
        invariant Drive(c, users, k) == Drive(c0, users, 0)
      {
        ProtectRound(i, users(k), c);
        RoundPhase(c, users(k));
        k, c := k + 1, Round(c, users(k));
      }
    }

    /** Take the page out of frame `f`. */
    method Evict(f: nat, users: nat -> seq<Poke>, k0: nat, ghost pg: PageId, ghost c0: Machine)
      returns (k: nat, ghost c: Machine)
      requires Shape() && View() == c0.s && c0.ph == Unmapping(f, pg)
      modifies this`maps, this`pageList, blocks, pmem, disk
      ensures Shape() && View() == c.s && c.ph == Vacant(f, pg)
      ensures Drive(c, users, k) == Drive(c0, users, k0)
    {
      UnmapRound(f, users(k0), c0);
      RoundPhase(c0, users(k0));
      c := Round(c0, users(k0));
      SaveRound(f, users(k0 + 1), c);
      RoundPhase(c, users(k0 + 1));
      k, c := k0 + 2, Round(c, users(k0 + 1));
    }

    method Swap(f: nat, users: nat -> seq<Poke>, ghost pg: PageId, ghost c0: Machine)
      returns (k: nat, ghost c: Machine)
      requires Shape() && View() == c0.s
      requires c0.ph == if f == 0 then Protecting(0, pg) else Unmapping(f, pg)
      modifies this`maps, this`pageList, blocks, pmem, disk
      ensures Shape() && View() == c.s && c.ph == Vacant(f, pg)
      ensures Drive(c, users, k) == Drive(c0, users, 0)
    {
      k, c := 0, c0;
      if f == 0 {
        k, c := ProtectAll(users, pg, c0);
      }
      k, c := Evict(f, users, k, pg, c);
    }

    method HandleValidPage(pg: PageId, users: nat -> seq<Poke>)
      requires Valid() && View().Has(pg) && View().At(pg).valid
      modifies this, referenceBit, pmem
      ensures Valid() && View() == ServeFault(old(View()), pg, users)
    {
      ghost var c := Begin(View(), pg);
      FaultStartOk(View(), pg);
      MmuChProt(pg, ReadWrite);
      DirtyRound(pg, users(0), c);
      RoundPhase(c, users(0));
      assert Drive(c, users, 0) == Drive(Round(c, users(0)), users, 1);
    }

    method HandleInvalidPage(pg: PageId, users: nat -> seq<Poke>)
      requires Valid() && View().Has(pg) && !View().At(pg).valid
      modifies this, frames, referenceBit, blocks, pmem, disk
      ensures Valid() && View() == ServeFault(old(View()), pg, users)
    {
      ghost var c := Begin(View(), pg);
      BeginMiss(View(), pg);
      var k := 0;
      var free := FindFreeFrame();
      var f := 0;
      if free.Some? {
        f := free.value;
      } else {
        f := FindVictim();
        k, c := Swap(f, users, pg, c);
      }
      LoadPage(f, pg, users, k, c);
    }

    /** Bring `pg` into the vacant frame `f` and map it. */
    method LoadPage(f: nat, pg: PageId, users: nat -> seq<Poke>, k: nat, ghost c: Machine)
      requires Shape() && View() == c.s && c.ph == Vacant(f, pg)
      modifies this`maps, this`pageList, frames, referenceBit, pmem
      ensures Valid() && View() == Drive(c, users, k)
    {
      FillRound(f, pg, users(k), c);
      RoundPhase(c, users(k));
      ghost var d := Round(c, users(k));
      MapRound(f, pg, users(k + 1), d);
      RoundPhase(d, users(k + 1));
      assert Drive(d, users, k + 1) == Drive(Round(d, users(k + 1)), users, k + 2);
    }

    method FindVictim() returns (victim: nat)
      requires Shape() && secondChanceIndex < frames.Length
      modifies this`secondChanceIndex, referenceBit
      ensures Shape()
      ensures var c := Clock.Sweep(old(referenceBit[..]), old(secondChanceIndex));
        victim == c.victim && View() == old(View()).(bits := c.bits, hand := c.hand)
    {
      ghost var steps;
      victim, steps := FindFrameToSwap();
    }

    /** A fault by `pid` at `addr`, one of its own addresses; false if the pid has no table, in
        which case the whole program exits. */
    method Fault(pid: int, addr: int, users: nat -> seq<Poke>) returns (ok: bool)
      requires Valid()
      requires pid in View().tables ==>
        UVM_BASEADDR <= addr < UVM_BASEADDR + |View().tables[pid]| * pageSize
      modifies this, frames, referenceBit, blocks, pmem, disk
      ensures Valid() && ok == (pid in old(View()).tables)
      ensures !ok ==> View() == old(View())
      ensures ok ==>
        var pg := PageId(pid, (addr - UVM_BASEADDR) / pageSize);
        old(View()).Has(pg) && View() == ServeFault(old(View()), pg, users)
    {
      var t := FindPageTable(pid);
      if t.None? { return false; }
      ghost var pg := PageId(pid, (addr - UVM_BASEADDR) / pageSize);
      AddrInPage(addr, pageSize, |pageList[t.value].pages|);
      var base := addr - addr % pageSize;
      assert PageOk(View(), Idle, pg);
      var i := GetPage(pageList[t.value].pages, base);
      assert i.Some?;
      assert PageOk(View(), Idle, PageId(pid, i.value));
      AddrUnique(pg.index, i.value, pageSize);
      if pageList[t.value].pages[i.value].valid {
        HandleValidPage(PageId(pid, i.value), users);
      } else {
        HandleInvalidPage(PageId(pid, i.value), users);
      }
      return true;
    }
  }

  /** Page `n` of a process owns one block and at most one frame, and nobody else owns them. */
  lemma TakesItsOwn(s: State, pid: int, n: nat)
    requires Inv(s, Idle) && pid in s.tables && n < |s.tables[pid]|
    ensures var p := s.tables[pid][n];
      && p.block < |s.blocks| && s.blocks[p.block].page == Some(PageId(pid, n))
      && (p.valid ==> p.frame < |s.frames| && s.frames[p.frame] == Frame(pid, PageId(pid, n)))
      && (forall f :: 0 <= f < |s.frames| && s.frames[f].pid == pid && s.frames[f].page.index == n ==>
            p.valid && p.frame == f)
      && (forall b :: 0 <= b < |s.blocks| && OwnedBy(s.blocks[b], pid) && s.blocks[b].page.value.index == n ==>
            b == p.block)
  {
    var p := s.tables[pid][n];
    assert s.Has(PageId(pid, n)) && PageOk(s, Idle, PageId(pid, n));
    forall f | 0 <= f < |s.frames| && s.frames[f].pid == pid && s.frames[f].page.index == n
      ensures p.valid && p.frame == f
    {
      assert FrameOk(s, Idle, f);
    }
    forall b | 0 <= b < |s.blocks| && OwnedBy(s.blocks[b], pid) && s.blocks[b].page.value.index == n
      ensures b == p.block
    {
      assert BlockOk(s, b);
    }
  }

  lemma OwnsOnlyPages(s: State, pid: int)
    requires Inv(s, Idle) && pid in s.tables
    ensures forall f :: 0 <= f < |s.frames| && s.frames[f].pid == pid ==>
      s.frames[f].page.index < |s.tables[pid]|
    ensures forall b :: 0 <= b < |s.blocks| && OwnedBy(s.blocks[b], pid) ==>
      s.blocks[b].page.value.index < |s.tables[pid]|
  {
    forall f | 0 <= f < |s.frames| && s.frames[f].pid == pid
      ensures s.frames[f].page.index < |s.tables[pid]|
    {
      assert FrameOk(s, Idle, f);
    }
    forall b | 0 <= b < |s.blocks| && OwnedBy(s.blocks[b], pid)
      ensures s.blocks[b].page.value.index < |s.tables[pid]|
    {
      assert BlockOk(s, b);
    }
  }

  lemma RoundPhase(c: Machine, pokes: seq<Poke>)
    requires !c.ph.Idle?
    ensures Round(c, pokes).ph ==
      match c.ph
      case Granting(_) => Idle
      case Protecting(i, pg) => if i + 1 < |c.s.frames| then Protecting(i + 1, pg) else Unmapping(0, pg)
      case Unmapping(f, pg) => Evicting(f, pg)
      case Evicting(f, pg) => Vacant(f, pg)
      case Vacant(f, pg) => Filled(f, pg)
      case Filled(_, _) => Idle
    ensures |Round(c, pokes).s.frames| == |c.s.frames|
  {
    RoundIs(c, pokes);
  }

  lemma BeginMiss(s: State, pg: PageId)
    requires Inv(s, Idle) && Missing(s, pg)
    ensures var c := Clock.Sweep(s.bits, s.hand);
      Begin(s, pg) ==
      if FreeFrameFrom(s.frames, 0).Some? then Config(s, Vacant(FreeFrameFrom(s.frames, 0).value, pg))
      else Config(s.(bits := c.bits, hand := c.hand),
                  if c.victim == 0 then Protecting(0, pg) else Unmapping(c.victim, pg))
  {
  }

  lemma AddrInPage(addr: int, size: nat, n: nat)
    requires 0 < size && UVM_BASEADDR % size == 0
    requires UVM_BASEADDR <= addr < UVM_BASEADDR + n * size
    ensures var i := (addr - UVM_BASEADDR) / size;
      0 <= i < n && addr - addr % size == UVM_BASEADDR + i * size
  {
    var q, i, r := UVM_BASEADDR / size, (addr - UVM_BASEADDR) / size, (addr - UVM_BASEADDR) % size;
    DivModParts(size, UVM_BASEADDR);
    DivModParts(size, addr - UVM_BASEADDR);
    assert addr == size * (q + i) + r && size * (q + i) == UVM_BASEADDR + size * i;
    ModUnique(size, q + i, r);
    assert size * i < size * n;
    MulLess(size, i, n);
  }

  lemma AddrUnique(i: nat, j: nat, size: nat)
    requires 0 < size && j * size <= i * size < j * size + size
    ensures i == j
  {
    if i < j { Apart(i, j, size); } else if j < i { Apart(j, i, size); }
  }
}
