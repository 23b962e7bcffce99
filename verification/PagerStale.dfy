/** A new page does not always start as zeroes: one frame, two blocks, and two processes suffice. */
module PagerStale {
  import opened Options
  import opened PagerState
  import opened PagerSteps
  import opened PagerRuns

  predicate Same(c: Config, d: Config)
    ensures Same(c, d) ==> c == d
  {
    && c.ph == d.ph && c.s.pageSize == d.s.pageSize && c.s.hand == d.s.hand
    && c.s.frames == d.s.frames && c.s.bits == d.s.bits && c.s.blocks == d.s.blocks
    && c.s.tables.Keys == d.s.tables.Keys
    && (forall pid :: pid in c.s.tables ==> c.s.tables[pid] == d.s.tables[pid])
    && c.s.maps == d.s.maps
    && |c.s.pmem| == |d.s.pmem| && (forall f :: 0 <= f < |c.s.pmem| ==> c.s.pmem[f] == d.s.pmem[f])
    && |c.s.disk| == |d.s.disk| && (forall b :: 0 <= b < |c.s.disk| ==> c.s.disk[b] == d.s.disk[b])
  }

  /** One action on a concrete configuration. */
  predicate Leads(c: Config, a: Action, d: Config) {
    Enabled(c, a) &&
    match a
    case Create(pid) => Same(d, Config(DoCreate(c.s, pid), Idle))
    case Extend(pid) => Same(d, Config(DoExtend(c.s, pid), Idle))
    case Destroy(pid) => Same(d, Config(DoDestroy(c.s, pid), Idle))
    case Fault(pg) =>
      && |c.s.bits| == |c.s.frames| && c.s.hand < |c.s.frames| && (c.s.At(pg).valid ==> pg in c.s.maps)
      && Same(d, FaultStart(c.s, pg))
    case Piece => Sizes(c.s) && Runnable(c) && Same(d, Advance(c))
    case Load(_, _) => d == c
    case Store(pg, off, v) =>
      && c.s.maps[pg].frame < |c.s.pmem| && off < |c.s.pmem[c.s.maps[pg].frame]|
      && Same(d, Config(c.s.Store(pg, off, v), c.ph))
  }

  lemma LeadsIsNext(c: Machine, a: Action, d: Config)
    requires Leads(c, a, d)
    ensures Enabled(c, a) && Next(c, a) == d
  {
  }

  const P0 := PageId(1, 0)
  const P1 := PageId(1, 1)

  /** One frame, two blocks, one byte a page. */
  ghost function Small(): Machine {
    Start(1, ["z"], ["?", "?"])
  }

  function PageAt(i: nat, valid: bool, dirty: bool): Page {
    Page(valid, 0, i, dirty, UVM_BASEADDR + i)
  }

  function Owner(i: nat, written: bool): Block { Block(written, Some(PageId(1, i))) }

  /** Process 1 with two pages and the one frame. */
  function Two(ph: Phase, owner: PageId, bit: bool, p0: Page, p1: Page, written: bool,
               frame: seq<Byte>, block: seq<Byte>, maps: map<PageId, Mapping>): Config
  {
    Config(State(1, [Frame(1, owner)], [bit], 0, [Owner(0, written), Owner(1, false)],
                 map[1 := [p0, p1]], [frame], [block, "?"], maps), ph)
  }

  function Sleeping(tables: map<int, seq<Page>>, blocks: seq<Block>): Config {
    Config(State(1, [Frame(INVALID_PID, PageId(INVALID_PID, 0))], [false], 0, blocks, tables,
                 ["z"], ["?", "?"], map[]), Idle)
  }

  const Free := Block(false, None)
  const Clean0 := PageAt(0, false, false)
  const Clean1 := PageAt(1, false, false)
  const Dirty0 := PageAt(0, true, true)

  /** The configurations it goes through. */
  function At(i: nat): Config {
    match i
    case 0 => Sleeping(map[], [Free, Free])
    case 1 => Sleeping(map[1 := []], [Free, Free])
    case 2 => Sleeping(map[1 := [Clean0]], [Owner(0, false), Free])
    case 3 => Sleeping(map[1 := [Clean0, Clean1]], [Owner(0, false), Owner(1, false)])
    // the first page is faulted in twice, and written
    case 4 => Sleeping(map[1 := [Clean0, Clean1]], [Owner(0, false), Owner(1, false)]).(ph := Vacant(0, P0))
    case 5 => Two(Filled(0, P0), P0, true, PageAt(0, true, false), Clean1, false, "0", "?", map[])
    case 6 => Two(Idle, P0, true, PageAt(0, true, false), Clean1, false, "0", "?", map[P0 := Mapping(0, ReadOnly)])
    case 7 => Two(Granting(P0), P0, true, PageAt(0, true, false), Clean1, false, "0", "?",
                map[P0 := Mapping(0, ReadWrite)])
    case 8 => Two(Idle, P0, true, Dirty0, Clean1, false, "0", "?", map[P0 := Mapping(0, ReadWrite)])
    case 9 => Two(Idle, P0, true, Dirty0, Clean1, false, "x", "?", map[P0 := Mapping(0, ReadWrite)])
    // the second page pushes it to disk
    case 10 => Two(Protecting(0, P1), P0, false, Dirty0, Clean1, false, "x", "?", map[P0 := Mapping(0, ReadWrite)])
    case 11 => Two(Unmapping(0, P1), P0, false, Dirty0, Clean1, false, "x", "?", map[P0 := Mapping(0, NoAccess)])
    case 12 => Two(Evicting(0, P1), P0, false, PageAt(0, false, true), Clean1, false, "x", "?",
                map[P0 := Mapping(0, NoAccess)])
    case 13 => Two(Vacant(0, P1), P0, false, PageAt(0, false, true), Clean1, true, "x", "x",
                map[P0 := Mapping(0, NoAccess)])
    case 14 => Two(Filled(0, P1), P1, true, PageAt(0, false, true), PageAt(1, true, false), true, "0", "x",
                map[P0 := Mapping(0, NoAccess)])
    case 15 => Two(Idle, P1, true, PageAt(0, false, true), PageAt(1, true, false), true, "0", "x",
                map[P0 := Mapping(0, NoAccess), P1 := Mapping(0, ReadOnly)])
    // the process dies, and another one starts
    case 16 => Gone(map[1 := []])
    case _ => Gone(map[1 := [], 2 := []])
  }

  function Gone(tables: map<int, seq<Page>>): Config {
    Config(State(1, [Frame(INVALID_PID, P1)], [true], 0, [Block(true, None), Free], tables,
                 ["0"], ["x", "?"], map[]), Idle)
  }

  function Act(i: nat): Action {
    match i
    case 0 => Create(1)
    case 1 => Extend(1)
    case 2 => Extend(1)
    case 3 => Fault(P0)
    case 4 => Piece
    case 5 => Piece
    case 6 => Fault(P0)
    case 7 => Piece
    case 8 => Store(P0, 0, 'x')
    case 9 => Fault(P1)
    case 10 => Piece
    case 11 => Piece
    case 12 => Piece
    case 13 => Piece
    case 14 => Piece
    case 15 => Destroy(1)
    case _ => Create(2)
  }

  /** The first `n` actions. */
  function Script(n: nat): (run: seq<Action>)
    ensures |run| == n
  {
    if n == 0 then [] else Script(n - 1) + [Act(n - 1)]
  }

  lemma Created()
    ensures Leads(At(0), Act(0), At(1))
  {
    assert Zeros(1) == "0";
  }

  lemma FirstPage()
    ensures Leads(At(1), Act(1), At(2))
  {
    assert Zeros(1) == "0";
  }

  lemma SecondPage()
    ensures Leads(At(2), Act(2), At(3))
  {
    assert Zeros(1) == "0";
  }

  lemma FirstFault()
    ensures Leads(At(3), Act(3), At(4))
  {
    assert Zeros(1) == "0";
  }

  lemma ZeroFilled()
    ensures Leads(At(4), Act(4), At(5))
  {
    assert Zeros(1) == "0";
  }

  lemma MappedToRead()
    ensures Leads(At(5), Act(5), At(6))
  {
    assert Zeros(1) == "0";
  }

  lemma FaultAgain()
    ensures Leads(At(6), Act(6), At(7))
  {
    assert Zeros(1) == "0";
  }

  lemma MappedToWrite()
    ensures Leads(At(7), Act(7), At(8))
  {
    assert Zeros(1) == "0";
  }

  lemma Stored()
    ensures Leads(At(8), Act(8), At(9))
  {
    assert Zeros(1) == "0";
  }

  lemma SecondFault()
    ensures Leads(At(9), Act(9), At(10))
  {
    assert Zeros(1) == "0";
  }

  lemma Protected()
    ensures Leads(At(10), Act(10), At(11))
  {
    assert Zeros(1) == "0";
  }

  lemma Unmapped()
    ensures Leads(At(11), Act(11), At(12))
  {
    assert Zeros(1) == "0";
  }

  lemma Saved()
    ensures Leads(At(12), Act(12), At(13))
  {
    assert Zeros(1) == "0";
  }

  lemma Replaced()
    ensures Leads(At(13), Act(13), At(14))
  {
    assert Zeros(1) == "0";
  }

  lemma Mapped()
    ensures Leads(At(14), Act(14), At(15))
  {
    assert Zeros(1) == "0";
  }

  lemma Died()
    ensures Leads(At(15), Act(15), At(16))
  {
    assert Zeros(1) == "0";
  }

  lemma Succeeded()
    ensures Leads(At(16), Act(16), At(17))
  {
    assert Zeros(1) == "0";
  }

  lemma StepOf(i: nat)
    requires i < 17
    ensures Leads(At(i), Act(i), At(i + 1))
  {
    match i
    case 0 => Created();
    case 1 => FirstPage();
    case 2 => SecondPage();
    case 3 => FirstFault();
    case 4 => ZeroFilled();
    case 5 => MappedToRead();
    case 6 => FaultAgain();
    case 7 => MappedToWrite();
    case 8 => Stored();
    case 9 => SecondFault();
    case 10 => Protected();
    case 11 => Unmapped();
    case 12 => Saved();
    case 13 => Replaced();
    case 14 => Mapped();
    case 15 => Died();
    case _ => Succeeded();
  }

  lemma {:induction false} ScriptRuns(n: nat)
    requires n <= 17
    ensures Valid(Small(), Script(n)) && Exec(Small(), Script(n)) == At(n)
  {
    if n == 0 {
      assert Small() == At(0);
    } else {
      ScriptRuns(n - 1);
      StepOf(n - 1);
      LeadsIsNext(At(n - 1), Act(n - 1), At(n));
      assert Script(n)[..n - 1] == Script(n - 1);
    }
  }

  lemma LastIsStale()
    ensures Enabled(At(17), Extend(2)) && FreeBlockFrom(At(17).s.blocks, 0).Some?
    ensures Initially(At(17)) == "x" != Zeros(1)
  {
    var blocks := At(17).s.blocks;
    assert blocks[0] == Block(true, None) && blocks[1] == Free;
    assert Zeros(1)[0] == ZERO;
  }

  /** Two processes, one after the other: the first page of the second starts with the byte that
      the first one left on the disk, not with a zero. */
  lemma StalePage()
    ensures Valid(Small(), Script(17))
    ensures var c := Exec(Small(), Script(17));
      Enabled(c, Extend(2)) && FreeBlockFrom(c.s.blocks, 0).Some? && Initially(c) == "x" != Zeros(1)
  {
    ScriptRuns(17);
    LastIsStale();
  }
}
