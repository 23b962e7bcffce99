/** Whole runs of the pager and its processes, interleaved piece by piece, against flat private
    memory: a load gives the last byte stored there. */
module PagerRuns {
  import opened Options
  import opened PagerState
  import opened PagerSteps
  import Clock

  /** As the pager starts: no processes, every frame free, every block unowned and unwritten. */
  function InitState(pageSize: nat, pmem: seq<seq<Byte>>, disk: seq<seq<Byte>>): State {
    State(pageSize,
          seq(|pmem|, _ => Frame(INVALID_PID, PageId(INVALID_PID, 0))), seq(|pmem|, _ => false), 0,
          seq(|disk|, _ => Block(false, None)), map[], pmem, disk, map[])
  }

  /** A configuration of the running system. */
  type Machine = c: Config | Inv(c.s, c.ph)
    ghost witness Config(InitState(0, [[]], []), Idle)

  datatype Action =
    | Create(pid: int)
    | Extend(pid: int)
    | Destroy(pid: int)
    | Fault(pg: PageId)
    /** the pager's next piece of the fault it is serving */
    | Piece
    | Load(pg: PageId, off: nat)
    | Store(pg: PageId, off: nat, v: Byte)

  /** The pager's own operations wait for the mutex; loads and stores of the processes do not. */
  predicate Enabled(c: Config, a: Action) {
    match a
    case Create(pid) => c.ph.Idle? && pid !in c.s.tables && pid != INVALID_PID
    case Extend(pid) => c.ph.Idle? && pid in c.s.tables
    case Destroy(pid) => c.ph.Idle? && pid in c.s.tables
    case Fault(pg) => c.ph.Idle? && c.s.Has(pg)
    case Piece => !c.ph.Idle?
    case Load(pg, off) => c.s.CanRead(pg, off)
    case Store(pg, off, _) => c.s.CanWrite(pg, off)
  }

  ghost function Next(c: Machine, a: Action): Machine
    requires Enabled(c, a)
  {
    match a
    case Create(pid) => CreateOk(c.s, pid); Config(DoCreate(c.s, pid), Idle)
    case Extend(pid) => ExtendOk(c.s, pid); Config(DoExtend(c.s, pid), Idle)
    case Destroy(pid) => DestroyOk(c.s, pid); Config(DoDestroy(c.s, pid), Idle)
    case Fault(pg) => FaultStartOk(c.s, pg); FaultStart(c.s, pg)
    case Piece => AdvanceOk(c); Advance(c)
    case Load(_, _) => c
    case Store(pg, off, v) => StoreOk(c, pg, off, v); Config(c.s.Store(pg, off, v), c.ph)
  }

  /** What a permitted load returns: a byte of the frame that the process has mapped. */
  ghost function Loaded(c: Machine, pg: PageId, off: nat): Byte
    requires pg in c.s.maps && c.s.maps[pg].frame < |c.s.pmem|
    requires off < |c.s.pmem[c.s.maps[pg].frame]|
  {
    c.s.pmem[c.s.maps[pg].frame][off]
  }

  /** The page an extension by `pid` would add, and the bytes it would start with. */
  ghost predicate Adds(c: Machine, a: Action, pg: PageId) {
    a.Extend? && a.pid == pg.pid && !c.s.Has(pg)
  }

  ghost function Initially(c: Machine): seq<Byte>
    requires Sizes(c.s) && FreeBlockFrom(c.s.blocks, 0).Some?
  {
    c.s.Backing(FreeBlockFrom(c.s.blocks, 0).value)
  }

  /** One action, seen from the flat memory. */
  lemma NextOk(c: Machine, a: Action)
    requires Enabled(c, a)
    ensures var d := Next(c, a);
      && d.s.pageSize == c.s.pageSize
      && (forall pg :: d.s.Has(pg) && !c.s.Has(pg) ==>
            Adds(c, a, pg) && FreeBlockFrom(c.s.blocks, 0).Some? && Content(d, pg) == Initially(c))
      && (forall pg :: d.s.Has(pg) && c.s.Has(pg) ==>
            Content(d, pg) ==
              if a.Store? && a.pg == pg && a.off < |Content(c, pg)| then Content(c, pg)[a.off := a.v]
              else Content(c, pg))
      && (forall pg :: c.s.Has(pg) && !d.s.Has(pg) ==> a == Destroy(pg.pid))
  {
    match a
    case Create(pid) => CreateOk(c.s, pid);
    case Extend(pid) => ExtendOk(c.s, pid);
    case Destroy(pid) => DestroyOk(c.s, pid);
    case Fault(pg) => FaultStartOk(c.s, pg);
    case Piece => AdvanceOk(c);
    case Load(_, _) =>
    case Store(pg, off, v) => StoreOk(c, pg, off, v);
  }

  // ---------------------------------------------------------------- runs

  ghost predicate Valid(c: Machine, run: seq<Action>)
    ensures Valid(c, run) ==> |run| == 0 || Valid(c, run[..|run| - 1])
    decreases |run|, 0
  {
    |run| == 0 ||
    var before := run[..|run| - 1];
    Valid(c, before) && Enabled(Exec(c, before), run[|run| - 1])
  }

  ghost function Exec(c: Machine, run: seq<Action>): (d: Machine)
    requires Valid(c, run)
    ensures d.s.pageSize == c.s.pageSize
    decreases |run|, 1
  {
    if |run| == 0 then c
    else
      var before := Exec(c, run[..|run| - 1]);
      NextOk(before, run[|run| - 1]);
      Next(before, run[|run| - 1])
  }

  /** The flat private memory: the last byte stored at an address or, if there was none, what the page
      started with. Frames, evictions and reloads play no part in it. */
  ghost function LastByte(c: Machine, run: seq<Action>, pg: PageId, off: nat): Byte
    requires Valid(c, run)
    requires Exec(c, run).s.Has(pg) && off < c.s.pageSize
    decreases |run|
  {
    if |run| == 0 then
      ContentLength(c, pg); Content(c, pg)[off]
    else
      var before, a := Exec(c, run[..|run| - 1]), run[|run| - 1];
      NextOk(before, a);
      if a.Store? && a.pg == pg && a.off == off then a.v
      else if !before.s.Has(pg) then ContentLength(Exec(c, run), pg); Initially(before)[off]
      else LastByte(c, run[..|run| - 1], pg, off)
  }

  lemma ContentLength(c: Machine, pg: PageId)
    requires c.s.Has(pg)
    ensures |Content(c, pg)| == c.s.pageSize
  {
    assert PageOk(c.s, c.ph, pg);
  }

  lemma {:induction false} ContentIsLastByte(c: Machine, run: seq<Action>, pg: PageId, off: nat)
    requires Valid(c, run)
    requires Exec(c, run).s.Has(pg) && off < c.s.pageSize
    ensures |Content(Exec(c, run), pg)| == c.s.pageSize
    ensures Content(Exec(c, run), pg)[off] == LastByte(c, run, pg, off)
    decreases |run|
  {
    ContentLength(Exec(c, run), pg);
    if |run| > 0 {
      var before, a := Exec(c, run[..|run| - 1]), run[|run| - 1];
      NextOk(before, a);
      if before.s.Has(pg) {
        ContentIsLastByte(c, run[..|run| - 1], pg, off);
      }
    }
  }

  /** Virtual memory is flat private memory: after any run, even in the middle of serving a fault,
      a permitted load gives the last byte its process stored there, or the initial one. */
  lemma LoadGivesLastByte(c: Machine, run: seq<Action>, pg: PageId, off: nat)
    requires Valid(c, run) && Enabled(Exec(c, run), Load(pg, off))
    ensures var d := Exec(c, run);
      && d.s.Has(pg) && d.s.maps[pg].frame < |d.s.pmem| && off < |d.s.pmem[d.s.maps[pg].frame]|
      && Loaded(d, pg, off) == LastByte(c, run, pg, off)
  {
    LoadSeesContent(Exec(c, run), pg, off);
    ContentIsLastByte(c, run, pg, off);
  }

  lemma StepKeepsOthers(c: Machine, a: Action, pg: PageId)
    requires Enabled(c, a) && c.s.Has(pg) && a != Destroy(pg.pid) && !(a.Store? && a.pg == pg)
    ensures Next(c, a).s.Has(pg) && Content(Next(c, a), pg) == Content(c, pg)
  {
    NextOk(c, a);
  }

  /** What one process does never shows in another's memory: over a run in which `pid` neither
      stores nor dies, every page it had keeps its bytes. */
  lemma {:induction false} Isolation(c: Machine, run: seq<Action>, pg: PageId)
    requires Valid(c, run) && c.s.Has(pg)
    requires forall a :: a in run ==> a != Destroy(pg.pid) && !(a.Store? && a.pg == pg)
    ensures Exec(c, run).s.Has(pg) && Content(Exec(c, run), pg) == Content(c, pg)
    decreases |run|
  {
    if |run| > 0 {
      var earlier, a := run[..|run| - 1], run[|run| - 1];
      assert a in run && forall b :: b in earlier ==> b in run;
      Isolation(c, earlier, pg);
      StepKeepsOthers(Exec(c, earlier), a, pg);
    }
  }

  // ---------------------------------------------------------------- from the beginning

  predicate Memory(pageSize: nat, pmem: seq<seq<Byte>>, disk: seq<seq<Byte>>) {
    0 < |pmem|
    && (forall f :: 0 <= f < |pmem| ==> |pmem[f]| == pageSize)
    && (forall b :: 0 <= b < |disk| ==> |disk[b]| == pageSize)
  }

  ghost function Start(pageSize: nat, pmem: seq<seq<Byte>>, disk: seq<seq<Byte>>): Machine
    requires Memory(pageSize, pmem, disk)
  {
    Config(InitState(pageSize, pmem, disk), Idle)
  }

  predicate NoDestroy(run: seq<Action>) { forall a :: a in run ==> !a.Destroy? }

  /** No unowned block has ever been written. */
  predicate UnownedUnwritten(s: State) {
    forall b :: 0 <= b < |s.blocks| && s.blocks[b].page.None? ==> !s.blocks[b].written
  }

  lemma StepUnwritten(c: Machine, a: Action)
    requires Enabled(c, a) && !a.Destroy? && UnownedUnwritten(c.s)
    ensures UnownedUnwritten(Next(c, a).s)
  {
    if a == Piece && c.ph.Evicting? {
      // the only block that gets marked here is owned by the victim
      assert PageOk(c.s, c.ph, c.s.frames[c.ph.f].page);
    }
  }

  lemma {:induction false} NoDestroyUnwritten(c: Machine, run: seq<Action>)
    requires Valid(c, run) && UnownedUnwritten(c.s)
    requires NoDestroy(run)
    ensures UnownedUnwritten(Exec(c, run).s)
    decreases |run|
  {
    if |run| > 0 {
      var earlier, a := run[..|run| - 1], run[|run| - 1];
      assert a in run && forall b :: b in earlier ==> b in run;
      NoDestroyUnwritten(c, earlier);
      StepUnwritten(Exec(c, earlier), a);
    }
  }

  /** As long as no process was destroyed, a page starts as zeroes, as the infrastructure's
      documentation has it. */
  lemma FreshPagesAreZero(c: Machine, run: seq<Action>, pid: int)
    requires Valid(c, run) && UnownedUnwritten(c.s)
    requires NoDestroy(run)
    requires Enabled(Exec(c, run), Extend(pid)) && FreeBlockFrom(Exec(c, run).s.blocks, 0).Some?
    ensures Initially(Exec(c, run)) == Zeros(c.s.pageSize)
  {
    NoDestroyUnwritten(c, run);
  }

  /** In general a new page reads as zeroes exactly when the block it takes was never written, or
      happens to hold zeroes: destroying a process does not unmark its blocks. */
  lemma FreshPageZeroIff(s: State, pid: int, b: nat)
    requires Inv(s, Idle) && pid in s.tables && FreeBlockFrom(s.blocks, 0) == Some(b)
    ensures var d, pg := Config(DoExtend(s, pid), Idle), PageId(pid, |s.tables[pid]|);
      && Inv(d.s, Idle) && d.s.Has(pg)
      && (Content(d, pg) == Zeros(s.pageSize) <==> !s.blocks[b].written || s.disk[b] == Zeros(s.pageSize))
  {
    ExtendOk(s, pid);
  }

  /** The flat private memory, read off the actions alone: the last byte stored at an address, or '0'. */
  function LastOrZero(run: seq<Action>, pg: PageId, off: nat): Byte {
    if |run| == 0 then ZERO
    else
      var a := run[|run| - 1];
      if a.Store? && a.pg == pg && a.off == off then a.v else LastOrZero(run[..|run| - 1], pg, off)
  }

  /** Nothing is stored in a page before it is there, and it stays once it is. */
  lemma {:induction false} NoStoreBefore(c: Machine, run: seq<Action>, pg: PageId, off: nat)
    requires Valid(c, run) && NoDestroy(run) && !Exec(c, run).s.Has(pg)
    ensures LastOrZero(run, pg, off) == ZERO
    decreases |run|
  {
    if |run| > 0 {
      var earlier, a := run[..|run| - 1], run[|run| - 1];
      assert a in run && forall b :: b in earlier ==> b in run;
      NextOk(Exec(c, earlier), a);
      if Exec(c, earlier).s.Has(pg) { StepHas(Exec(c, earlier), a, pg); }
      NoStoreBefore(c, earlier, pg, off);
      if a.Store? { StoreHas(Exec(c, earlier), a); }
    }
  }

  lemma StepHas(c: Machine, a: Action, pg: PageId)
    requires Enabled(c, a) && !a.Destroy? && c.s.Has(pg)
    ensures Next(c, a).s.Has(pg)
  {
    NextOk(c, a);
  }

  /** A store is to a page there is. */
  lemma StoreHas(c: Machine, a: Action)
    requires Enabled(c, a) && a.Store?
    ensures c.s.Has(a.pg) && Next(c, a).s.Has(a.pg)
  {
    assert MapOk(c.s, c.ph, a.pg);
    StepHas(c, a, a.pg);
  }

  lemma {:induction false} LastByteIs(c: Machine, run: seq<Action>, pg: PageId, off: nat)
    requires Valid(c, run) && NoDestroy(run) && UnownedUnwritten(c.s) && c.s.tables == map[]
    requires Exec(c, run).s.Has(pg) && off < c.s.pageSize
    ensures LastByte(c, run, pg, off) == LastOrZero(run, pg, off)
    decreases |run|
  {
    if |run| > 0 {
      var earlier, a := run[..|run| - 1], run[|run| - 1];
      assert forall b :: b in earlier ==> b in run;
      var before := Exec(c, earlier);
      if before.s.Has(pg) {
        LastByteIs(c, earlier, pg, off);
      } else {
        NoStoreBefore(c, earlier, pg, off);
        NextOk(before, a);
        NoDestroyUnwritten(c, earlier);
        if a.Store? { StoreHas(before, a); }
      }
    }
  }

  /** From an initial pager, and as long as no process is destroyed, a permitted load gives the last
      byte that was stored there, or '0'. */
  lemma LoadGivesLastOrZero(pageSize: nat, pmem: seq<seq<Byte>>, disk: seq<seq<Byte>>,
                            run: seq<Action>, pg: PageId, off: nat)
    requires Memory(pageSize, pmem, disk) && NoDestroy(run)
    requires Valid(Start(pageSize, pmem, disk), run)
    requires Enabled(Exec(Start(pageSize, pmem, disk), run), Load(pg, off))
    ensures var d := Exec(Start(pageSize, pmem, disk), run);
      && pg in d.s.maps && d.s.maps[pg].frame < |d.s.pmem| && off < |d.s.pmem[d.s.maps[pg].frame]|
      && Loaded(d, pg, off) == LastOrZero(run, pg, off)
  {
    var c := Start(pageSize, pmem, disk);
    LoadGivesLastByte(c, run, pg, off);
    LoadInside(Exec(c, run), pg, off);
    LastByteIs(c, run, pg, off);
  }

  lemma LoadInside(c: Machine, pg: PageId, off: nat)
    requires Enabled(c, Load(pg, off))
    ensures c.s.Has(pg) && off < c.s.pageSize
  {
    assert MapOk(c.s, c.ph, pg);
  }
}
