/** The pager's tables, the machine they drive (physical memory, disk, and the processes' own
    mappings), and the atomic pieces of every pager operation. One piece is one call into the
    memory unit, with the bookkeeping around it: between two pieces other processes may run. */
module PagerState {
  import Clock
  import opened Options

  type Byte = char
  const ZERO: Byte := '0'
  const INVALID_PID := -1
  const UVM_BASEADDR := 0x60000000

  datatype Prot = NoAccess | ReadOnly | ReadWrite

  /** A page's identity: its process and its place in that process's page table. */
  datatype PageId = PageId(pid: int, index: nat)
  datatype Page = Page(valid: bool, frame: nat, block: nat, dirty: bool, addr: int)
  datatype Frame = Frame(pid: int, page: PageId)
  datatype Block = Block(written: bool, page: Option<PageId>)
  /** What a process has mapped at one of its pages. */
  datatype Mapping = Mapping(frame: nat, prot: Prot)

  function Zeros(n: nat): seq<Byte> { seq(n, _ => ZERO) }

  /** The lowest free frame at or above `i`. */
  function FreeFrameFrom(frames: seq<Frame>, i: nat): (r: Option<nat>)
    requires i <= |frames|
    ensures r.Some? ==>
      i <= r.value < |frames| && frames[r.value].pid == INVALID_PID
      && forall k :: i <= k < r.value ==> frames[k].pid != INVALID_PID
    ensures r.None? ==> forall k :: i <= k < |frames| ==> frames[k].pid != INVALID_PID
    decreases |frames| - i
  {
    if i == |frames| then None
    else if frames[i].pid == INVALID_PID then Some(i)
    else FreeFrameFrom(frames, i + 1)
  }

  /** The lowest unowned block at or above `i`. */
  function FreeBlockFrom(blocks: seq<Block>, i: nat): (r: Option<nat>)
    requires i <= |blocks|
    ensures r.Some? ==>
      i <= r.value < |blocks| && blocks[r.value].page.None?
      && forall k :: i <= k < r.value ==> blocks[k].page.Some?
    ensures r.None? ==> forall k :: i <= k < |blocks| ==> blocks[k].page.Some?
    decreases |blocks| - i
  {
    if i == |blocks| then None
    else if blocks[i].page.None? then Some(i)
    else FreeBlockFrom(blocks, i + 1)
  }

  datatype State = State(
    pageSize: nat,
    frames: seq<Frame>, bits: seq<bool>, hand: nat,
    blocks: seq<Block>,
    tables: map<int, seq<Page>>,
    pmem: seq<seq<Byte>>, disk: seq<seq<Byte>>,
    maps: map<PageId, Mapping>)
  {
    predicate Has(pg: PageId) {
      pg.pid in tables && pg.index < |tables[pg.pid]|
    }

    function At(pg: PageId): Page
      requires Has(pg)
    {
      tables[pg.pid][pg.index]
    }

    function With(pg: PageId, page: Page): State
      requires Has(pg)
    {
      this.(tables := tables[pg.pid := tables[pg.pid][pg.index := page]])
    }

    /** The bytes a page is loaded with: its block if that was ever written, else zeroes. */
    function Backing(b: nat): seq<Byte>
      requires b < |blocks| == |disk|
    {
      if blocks[b].written then disk[b] else Zeros(pageSize)
    }

    function ChProt(pg: PageId, prot: Prot): State
      requires pg in maps
    {
      this.(maps := maps[pg := maps[pg].(prot := prot)])
    }

    predicate CanRead(pg: PageId, off: nat) {
      pg in maps && maps[pg].prot != NoAccess && off < pageSize
    }

    predicate CanWrite(pg: PageId, off: nat) {
      pg in maps && maps[pg].prot == ReadWrite && off < pageSize
    }

    /** A store by the process itself, straight into the frame it has mapped. */
    function Store(pg: PageId, off: nat, v: Byte): State
      requires pg in maps && maps[pg].frame < |pmem| && off < |pmem[maps[pg].frame]|
    {
      var f := maps[pg].frame;
      this.(pmem := pmem[f := pmem[f][off := v]])
    }
  }

  /** Where the pager stands while it holds the mutex. */
  datatype Phase =
    | Idle
    /** write access granted to a resident page, which is not marked dirty yet */
    | Granting(pg: PageId)
    /** victim in frame 0: frames below `next` already made inaccessible */
    | Protecting(next: nat, pg: PageId)
    /** a victim frame is chosen */
    | Unmapping(f: nat, pg: PageId)
    /** the victim is out of its table and unmapped, not yet saved */
    | Evicting(f: nat, pg: PageId)
    /** the frame holds nothing that is still needed */
    | Vacant(f: nat, pg: PageId)
    /** the new page is in the frame, not yet mapped */
    | Filled(f: nat, pg: PageId)

  datatype Config = Config(s: State, ph: Phase)

  // ---------------------------------------------------------------- the pieces

  function DoCreate(s: State, pid: int): State {
    s.(tables := s.tables[pid := []])
  }

  function FreshPage(s: State, pid: int, b: nat): Page
    requires pid in s.tables
  {
    Page(false, 0, b, false, UVM_BASEADDR + |s.tables[pid]| * s.pageSize)
  }

  /** A new page takes the lowest unowned block; without one nothing changes. */
  function DoExtend(s: State, pid: int): State
    requires pid in s.tables
  {
    match FreeBlockFrom(s.blocks, 0)
    case None => s
    case Some(b) =>
      s.(tables := s.tables[pid := s.tables[pid] + [FreshPage(s, pid, b)]],
         blocks := s.blocks[b := s.blocks[b].(page := Some(PageId(pid, |s.tables[pid]|)))])
  }

  predicate OwnedBy(b: Block, pid: int) { b.page.Some? && b.page.value.pid == pid }

  function OthersOf(maps: map<PageId, Mapping>, pid: int): map<PageId, Mapping> {
    map pg | pg in maps && pg.pid != pid :: maps[pg]
  }

  /** The process is gone: its frames and blocks are given back, and its mappings died with it.
      A block's `written` mark is left as it was. */
  function DoDestroy(s: State, pid: int): State {
    s.(tables := s.tables[pid := []],
       frames := seq(|s.frames|, f requires 0 <= f < |s.frames| =>
         if s.frames[f].pid == pid then s.frames[f].(pid := INVALID_PID) else s.frames[f]),
       blocks := seq(|s.blocks|, b requires 0 <= b < |s.blocks| =>
         if OwnedBy(s.blocks[b], pid) then s.blocks[b].(page := None) else s.blocks[b]),
       maps := OthersOf(s.maps, pid))
  }

  /** The beginning of a fault: grant write access to a resident page, or pick a frame. */
  function FaultStart(s: State, pg: PageId): Config
    requires s.Has(pg) && |s.bits| == |s.frames| && s.hand < |s.frames|
    requires s.At(pg).valid ==> pg in s.maps
  {
    if s.At(pg).valid then Config(s.ChProt(pg, ReadWrite), Granting(pg))
    else match FreeFrameFrom(s.frames, 0)
      case Some(f) => Config(s, Vacant(f, pg))
      case None =>
        var c := Clock.Sweep(s.bits, s.hand);
        Config(s.(bits := c.bits, hand := c.hand),
               if c.victim == 0 then Protecting(0, pg) else Unmapping(c.victim, pg))
  }

  function MarkDirty(s: State, pg: PageId): State
    requires s.Has(pg) && s.At(pg).frame < |s.bits|
  {
    s.(bits := s.bits[s.At(pg).frame := true]).With(pg, s.At(pg).(dirty := true))
  }

  function Unmap(s: State, f: nat): State
    requires f < |s.frames| && s.Has(s.frames[f].page) && s.frames[f].page in s.maps
  {
    var v := s.frames[f].page;
    s.With(v, s.At(v).(valid := false)).ChProt(v, NoAccess)
  }

  function Save(s: State, f: nat): State
    requires f < |s.frames| && s.Has(s.frames[f].page)
    requires f < |s.pmem| && s.At(s.frames[f].page).block < |s.blocks| == |s.disk|
  {
    var v := s.At(s.frames[f].page);
    if v.dirty then
      s.(blocks := s.blocks[v.block := s.blocks[v.block].(written := true)],
         disk := s.disk[v.block := s.pmem[f]])
    else s
  }

  function Fill(s: State, f: nat, pg: PageId): State
    requires s.Has(pg) && f < |s.frames| == |s.bits| == |s.pmem|
    requires s.At(pg).block < |s.blocks| == |s.disk|
  {
    s.(frames := s.frames[f := Frame(pg.pid, pg)], bits := s.bits[f := true],
       pmem := s.pmem[f := s.Backing(s.At(pg).block)])
     .With(pg, s.At(pg).(valid := true, frame := f, dirty := false))
  }

  function Map(s: State, f: nat, pg: PageId): State {
    s.(maps := s.maps[pg := Mapping(f, ReadOnly)])
  }

  // ---------------------------------------------------------------- what every step keeps

  predicate Sizes(s: State) {
    && 0 < |s.frames| == |s.bits| == |s.pmem| && s.hand < |s.frames|
    && |s.disk| == |s.blocks|
    && (forall f :: 0 <= f < |s.pmem| ==> |s.pmem[f]| == s.pageSize)
    && (forall b :: 0 <= b < |s.disk| ==> |s.disk[b]| == s.pageSize)
    && INVALID_PID !in s.tables
  }

  /** The frame that is changing hands: its table entry is not to be trusted. */
  predicate Busy(ph: Phase, f: nat) {
    (ph.Evicting? || ph.Vacant?) && ph.f == f
  }

  ghost predicate FrameOk(s: State, ph: Phase, f: nat)
    requires f < |s.frames|
  {
    var fr := s.frames[f];
    fr.pid != INVALID_PID && !Busy(ph, f) ==>
      fr.pid == fr.page.pid && s.Has(fr.page) && s.At(fr.page).valid && s.At(fr.page).frame == f
  }

  /** A resident page that is not dirty equals what it would be loaded with. */
  ghost predicate Clean(s: State, pg: PageId)
    requires s.Has(pg)
  {
    var p := s.At(pg);
    p.frame < |s.pmem| && p.block < |s.blocks| == |s.disk| && s.pmem[p.frame] == s.Backing(p.block)
  }

  ghost predicate PageOk(s: State, ph: Phase, pg: PageId)
    requires s.Has(pg)
  {
    var p := s.At(pg);
    && p.addr == UVM_BASEADDR + pg.index * s.pageSize
    && p.block < |s.blocks| && s.blocks[p.block].page == Some(pg)
    && (p.valid ==>
          && p.frame < |s.frames| && !Busy(ph, p.frame)
          && s.frames[p.frame] == Frame(pg.pid, pg)
          && (ph != Filled(p.frame, pg) ==> pg in s.maps && s.maps[pg].frame == p.frame)
          && (p.dirty || ph == Granting(pg) || Clean(s, pg)))
  }

  ghost predicate BlockOk(s: State, b: nat)
    requires b < |s.blocks|
  {
    s.blocks[b].page.Some? ==>
      var pg := s.blocks[b].page.value; s.Has(pg) && s.At(pg).block == b
  }

  /** An accessible mapping leads to the page's own frame, and a writable one to a dirty page. */
  ghost predicate MapOk(s: State, ph: Phase, pg: PageId)
    requires pg in s.maps
  {
    var m := s.maps[pg];
    && s.Has(pg)
    && (m.prot != NoAccess ==> s.At(pg).valid && s.At(pg).frame == m.frame && ph != Filled(m.frame, pg))
    && (m.prot == ReadWrite ==> s.At(pg).dirty || ph == Granting(pg))
  }

  ghost predicate PhaseOk(s: State, ph: Phase) {
    match ph
    case Idle => true
    case Granting(pg) => s.Has(pg) && s.At(pg).valid
    case Protecting(next, pg) => Missing(s, pg) && next < |s.frames| && AllTaken(s)
    case Unmapping(f, pg) => Missing(s, pg) && f < |s.frames| && AllTaken(s)
    case Evicting(f, pg) =>
      && Missing(s, pg) && f < |s.frames|
      && var v := s.frames[f].page;
      && Missing(s, v) && v != pg && s.At(v).frame == f
      && (s.At(v).dirty || Clean(s, v))
    case Vacant(f, pg) => Missing(s, pg) && f < |s.frames|
    case Filled(f, pg) => s.Has(pg) && s.At(pg).valid && s.At(pg).frame == f && !s.At(pg).dirty
  }

  predicate Missing(s: State, pg: PageId) { s.Has(pg) && !s.At(pg).valid }

  predicate AllTaken(s: State) {
    forall f :: 0 <= f < |s.frames| ==> s.frames[f].pid != INVALID_PID
  }

  ghost predicate Inv(s: State, ph: Phase) {
    && Sizes(s)
    && PhaseOk(s, ph)
    && (forall f :: 0 <= f < |s.frames| ==> FrameOk(s, ph, f))
    && (forall pg :: s.Has(pg) ==> PageOk(s, ph, pg))
    && (forall b :: 0 <= b < |s.blocks| ==> BlockOk(s, b))
    && (forall pg :: pg in s.maps ==> MapOk(s, ph, pg))
  }

  /** The pager's next piece, up to and including its next call into the memory unit. */
  function Advance(c: Config): Config
    requires Sizes(c.s) && !c.ph.Idle?
    requires Runnable(c)
  {
    var s := c.s;
    match c.ph
    case Granting(pg) => Config(MarkDirty(s, pg), Idle)
    case Protecting(i, pg) =>
      Config(s.ChProt(s.frames[i].page, NoAccess),
             if i + 1 < |s.frames| then Protecting(i + 1, pg) else Unmapping(0, pg))
    case Unmapping(f, pg) => Config(Unmap(s, f), Evicting(f, pg))
    case Evicting(f, pg) => Config(Save(s, f), Vacant(f, pg))
    case Vacant(f, pg) => Config(Fill(s, f, pg), Filled(f, pg))
    case Filled(f, pg) => Config(Map(s, f, pg), Idle)
  }

  /** Every table entry and mapping that the next piece dereferences is live. */
  predicate Runnable(c: Config)
    requires Sizes(c.s)
  {
    var s := c.s;
    match c.ph
    case Idle => true
    case Granting(pg) => s.Has(pg) && s.At(pg).frame < |s.bits|
    case Protecting(i, pg) => i < |s.frames| && s.Has(s.frames[i].page) && s.frames[i].page in s.maps
    case Unmapping(f, pg) => f < |s.frames| && s.Has(s.frames[f].page) && s.frames[f].page in s.maps
    case Evicting(f, pg) => f < |s.frames| && s.Has(s.frames[f].page) && s.At(s.frames[f].page).block < |s.blocks|
    case Vacant(f, pg) => s.Has(pg) && f < |s.frames| && s.At(pg).block < |s.blocks|
    case Filled(f, pg) => true
  }

  // ---------------------------------------------------------------- the flat memory behind it all

  /** The bytes of a page as its process means them, wherever they are kept right now. */
  ghost function Content(c: Config, pg: PageId): seq<Byte>
    requires Inv(c.s, c.ph) && c.s.Has(pg)
  {
    var s, p := c.s, c.s.At(pg);
    if c.ph.Evicting? && s.frames[c.ph.f].page == pg then s.pmem[c.ph.f]
    else if p.valid then s.pmem[p.frame]
    else s.Backing(p.block)
  }
}
