/** Conservation of blocks and frames, and what the clock costs over a whole run. */
module PagerCounts {
  import opened Options
  import opened PagerState
  import opened PagerSteps
  import opened PagerRuns
  import Clock

  // ---------------------------------------------------------------- blocks

  function Owned(s: State): set<nat> {
    set b: nat | b < |s.blocks| && s.blocks[b].page.Some?
  }

  function Pages(tables: map<int, seq<Page>>): set<PageId> {
    set pid, i: nat | pid in tables && i < |tables[pid]| :: PageId(pid, i)
  }

  ghost function AnyOf<T>(s: set<T>): (x: T)
    requires s != {}
    ensures x in s
  {
    var x :| x in s; x
  }

  /** The sum of all tables' page counts. */
  ghost function PageTotal(tables: map<int, seq<Page>>): nat
    decreases |tables|
  {
    if tables.Keys == {} then 0
    else var pid := AnyOf(tables.Keys); |tables[pid]| + PageTotal(tables - {pid})
  }

  function TablePages(pid: int, n: nat): set<PageId> {
    set i: nat | i < n :: PageId(pid, i)
  }

  lemma {:induction false} TablePagesSize(pid: int, n: nat)
    ensures |TablePages(pid, n)| == n
  {
    if n > 0 {
      TablePagesSize(pid, n - 1);
      assert TablePages(pid, n) == TablePages(pid, n - 1) + {PageId(pid, n - 1)};
    }
  }

  lemma {:induction false} PageTotalIsSize(tables: map<int, seq<Page>>)
    ensures PageTotal(tables) == |Pages(tables)|
    decreases |tables|
  {
    if tables.Keys != {} {
      var pid := AnyOf(tables.Keys);
      var rest, own := tables - {pid}, TablePages(pid, |tables[pid]|);
      PageTotalIsSize(rest);
      TablePagesSize(pid, |tables[pid]|);
      assert Pages(tables) == Pages(rest) + own && Pages(rest) !! own by {
        forall pg | pg in Pages(tables) ensures pg in Pages(rest) + own {
          assert pg.pid == pid || pg.pid in rest;
        }
      }
    }
  }

  /** Blocks and pages are in bijection: as many of one as of the other. */
  lemma {:induction false} MatchedSize(blocks: seq<Block>, owned: set<nat>, pages: set<PageId>)
    requires forall b :: b in owned ==> b < |blocks| && blocks[b].page.Some? && blocks[b].page.value in pages
    requires forall pg :: pg in pages ==> exists b :: b in owned && blocks[b].page == Some(pg)
    requires forall a, b :: a in owned && b in owned && blocks[a].page == blocks[b].page ==> a == b
    ensures |owned| == |pages|
    decreases owned
  {
    if owned == {} {
      assert pages == {};
    } else {
      var b :| b in owned;
      MatchedSize(blocks, owned - {b}, pages - {blocks[b].page.value});
    }
  }

  /** The number of owned blocks is the sum of all tables' page counts. */
  lemma BlocksConserved(s: State, ph: Phase)
    requires Inv(s, ph)
    ensures |Owned(s)| == PageTotal(s.tables)
  {
    var pages := Pages(s.tables);
    forall b | b in Owned(s) ensures s.blocks[b].page.value in pages { assert BlockOk(s, b); }
    forall pg | pg in pages ensures exists b :: b in Owned(s) && s.blocks[b].page == Some(pg) {
      assert PageOk(s, ph, pg);
      assert s.At(pg).block in Owned(s);
    }
    forall a, b | a in Owned(s) && b in Owned(s) && s.blocks[a].page == s.blocks[b].page ensures a == b {
      assert BlockOk(s, a) && BlockOk(s, b);
    }
    MatchedSize(s.blocks, Owned(s), pages);
    PageTotalIsSize(s.tables);
  }

  function UpTo(n: nat): (s: set<nat>)
    ensures forall b: nat :: b in s <==> b < n
    ensures |s| == n
  {
    if n == 0 then {} else UpTo(n - 1) + {n - 1}
  }

  lemma SubsetSize<T>(small: set<T>, big: set<T>)
    requires small <= big
    ensures |small| <= |big| && (|small| == |big| ==> small == big)
  {
    assert big == small + (big - small);
  }

  lemma FullIff(blocks: seq<Block>, owned: set<nat>)
    requires forall b: nat :: b in owned <==> b < |blocks| && blocks[b].page.Some?
    ensures FreeBlockFrom(blocks, 0).None? <==> |owned| == |blocks|
  {
    var all := UpTo(|blocks|);
    SubsetSize(owned, all);
    match FreeBlockFrom(blocks, 0)
    case Some(b) => assert b in all && b !in owned;
    case None => assert owned == all;
  }

  /** An extension fails exactly when the pages already handed out fill the disk. */
  lemma ExtendFailsIffFull(s: State, ph: Phase)
    requires Inv(s, ph)
    ensures FreeBlockFrom(s.blocks, 0).None? <==> PageTotal(s.tables) == |s.blocks|
  {
    BlocksConserved(s, ph);
    FullIff(s.blocks, Owned(s));
  }

  /** Occupied frames and resident pages are in bijection. */
  lemma FramesAreResidentPages(s: State, f: nat, g: nat, pg: PageId)
    requires Inv(s, Idle) && f < |s.frames| && g < |s.frames|
    ensures s.frames[f].pid != INVALID_PID ==>
      s.Has(s.frames[f].page) && s.At(s.frames[f].page).valid && s.At(s.frames[f].page).frame == f
    ensures s.Has(pg) && s.At(pg).valid ==>
      s.At(pg).frame < |s.frames| && s.frames[s.At(pg).frame] == Frame(pg.pid, pg)
    ensures f != g && s.frames[f].pid != INVALID_PID && s.frames[g].pid != INVALID_PID ==>
      s.frames[f].page != s.frames[g].page
  {
    assert FrameOk(s, Idle, f) && FrameOk(s, Idle, g);
    if s.Has(pg) { assert PageOk(s, Idle, pg); }
  }

  /** Destruction gives back exactly the frames in which that process's pages were resident, and
      exactly the blocks its pages owned. */
  lemma DestroyGivesBack(s: State, pid: int, f: nat, b: nat)
    requires Inv(s, Idle) && pid in s.tables && f < |s.frames| && b < |s.blocks|
    ensures var d := DoDestroy(s, pid);
      && ((d.frames[f].pid == INVALID_PID && s.frames[f].pid != INVALID_PID)
          <==> exists i: nat :: i < |s.tables[pid]| && s.tables[pid][i].valid && s.tables[pid][i].frame == f)
      && ((d.blocks[b].page.None? && s.blocks[b].page.Some?)
          <==> exists i: nat :: i < |s.tables[pid]| && s.tables[pid][i].block == b)
  {
    assert FrameOk(s, Idle, f) && BlockOk(s, b);
    var d := DoDestroy(s, pid);
    if s.frames[f].pid == pid {
      var i := s.frames[f].page.index;
      assert s.tables[pid][i].valid && s.tables[pid][i].frame == f;
    }
    if OwnedBy(s.blocks[b], pid) {
      var i := s.blocks[b].page.value.index;
      assert s.tables[pid][i].block == b;
    }
    forall i: nat | i < |s.tables[pid]|
      ensures s.tables[pid][i].valid && s.tables[pid][i].frame == f ==> s.frames[f].pid == pid
      ensures s.tables[pid][i].block == b ==> OwnedBy(s.blocks[b], pid)
    {
      assert s.Has(PageId(pid, i)) && PageOk(s, Idle, PageId(pid, i));
    }
  }

  // ---------------------------------------------------------------- the clock over a run

  /** A fault that finds every frame taken has to evict. */
  ghost predicate Evicts(c: Machine, a: Action)
    requires Enabled(c, a)
  {
    a.Fault? && !c.s.At(a.pg).valid && FreeFrameFrom(c.s.frames, 0).None?
  }

  /** Iterations of the second-chance loop in one action. */
  ghost function Iterations(c: Machine, a: Action): nat
    requires Enabled(c, a)
  {
    if Evicts(c, a) then Clock.Sweep(c.s.bits, c.s.hand).steps else 0
  }

  ghost function TotalIterations(c: Machine, run: seq<Action>): nat
    requires Valid(c, run)
    decreases |run|
  {
    if |run| == 0 then 0
    else TotalIterations(c, run[..|run| - 1]) + Iterations(Exec(c, run[..|run| - 1]), run[|run| - 1])
  }

  ghost function Evictions(c: Machine, run: seq<Action>): nat
    requires Valid(c, run)
    decreases |run|
  {
    if |run| == 0 then 0
    else Evictions(c, run[..|run| - 1]) + if Evicts(Exec(c, run[..|run| - 1]), run[|run| - 1]) then 1 else 0
  }

  function Faults(run: seq<Action>): nat {
    if |run| == 0 then 0 else Faults(run[..|run| - 1]) + if run[|run| - 1].Fault? then 1 else 0
  }

  /** Set bits, and one more for a fault that has still to set its own. */
  function Potential(c: Machine): nat {
    Clock.Ones(c.s.bits) + if c.ph.Idle? || c.ph.Filled? then 0 else 1
  }

  lemma PotentialStep(c: Machine, a: Action)
    requires Enabled(c, a)
    ensures Iterations(c, a) + Potential(Next(c, a))
      <= Potential(c) + (if Evicts(c, a) then 1 else 0) + (if a.Fault? then 1 else 0)
  {
    if a == Piece {
      InvRunnable(c);
      match c.ph
      case Granting(pg) => Clock.OnesUpdate(c.s.bits, c.s.At(pg).frame, true);
      case Vacant(f, pg) => Clock.OnesUpdate(c.s.bits, f, true);
      case _ =>
    }
  }

  /** Amortised cost: over any run the second-chance loop iterates at most once per eviction plus
      once per fault, beyond the bits that were set to begin with. */
  lemma {:induction false} AmortisedClock(c: Machine, run: seq<Action>)
    requires Valid(c, run)
    ensures TotalIterations(c, run) + Potential(Exec(c, run))
      <= Evictions(c, run) + Faults(run) + Potential(c)
    decreases |run|
  {
    if |run| > 0 {
      AmortisedClock(c, run[..|run| - 1]);
      PotentialStep(Exec(c, run[..|run| - 1]), run[|run| - 1]);
    }
  }

  /** From the start, when no bit is set, that is evictions plus faults. */
  lemma AmortisedClockFromStart(pageSize: nat, pmem: seq<seq<Byte>>, disk: seq<seq<Byte>>, run: seq<Action>)
    requires Memory(pageSize, pmem, disk)
    requires Valid(Start(pageSize, pmem, disk), run)
    ensures var c := Start(pageSize, pmem, disk);
      TotalIterations(c, run) <= Evictions(c, run) + Faults(run)
  {
    var c := Start(pageSize, pmem, disk);
    AmortisedClock(c, run);
    Clock.OnesAllClear(|pmem|);
    assert c.s.bits == seq(|pmem|, _ => false);
  }
}
