/** Runs of the block allocator by a user who writes to, and puts back, only blocks it has been given. */
module FsRuns {
  import opened FsBlocks
  import Sequences

  datatype Op =
    | Get
    | Put(b: nat)
    | Update(b: nat, block: Block)
    /** `junk` is what memory holds before the superblock is read */
    | CloseAndOpen(junk: Superblock)

  /** The file system, and the blocks the user holds. */
  datatype User = User(fs: State, owned: set<nat>)

  predicate Allowed(u: User, op: Op) {
    match op
    case Get => true
    case Put(b) => b in u.owned
    case Update(b, _) => b in u.owned || b == ROOT || b == ROOT_INFO
    case CloseAndOpen(_) => true
  }

  function Elements(xs: seq<nat>): set<nat> { set x | x in xs }

  /** The block numbers from `lo` up to, not including, `hi`. */
  function Blocks(lo: nat, hi: nat): (bs: set<nat>)
    requires lo <= hi
    ensures forall b :: b in bs <==> lo <= b < hi
    ensures |bs| == hi - lo
    decreases hi - lo
  {
    if lo == hi then {} else {lo} + Blocks(lo + 1, hi)
  }

  /** Every block from 3 on is either free or held, and none is both. */
  ghost predicate Partition(u: User) {
    && Inv(u.fs)
    && (forall b :: b in u.owned ==> 3 <= b < |u.fs.disk| && b !in FreeList(u.fs))
    && (forall b :: 3 <= b < |u.fs.disk| ==> b in u.owned || b in FreeList(u.fs))
  }

  function Step(u: User, op: Op): User
    requires Inv(u.fs) && Allowed(u, op) && forall b :: b in u.owned ==> b < |u.fs.disk|
  {
    match op
    case Get =>
      GetOk(u.fs);
      User(AfterGet(u.fs), if GetBlock(u.fs) == 0 then u.owned else u.owned + {GetBlock(u.fs)})
    case Put(b) => User(AfterPut(u.fs, b), u.owned - {b})
    case Update(b, block) => User(Write(u.fs, b, block), u.owned)
    case CloseAndOpen(junk) => User(Reopen(State(junk, u.fs.disk)), u.owned)
  }

  lemma StepOk(u: User, op: Op)
    requires Partition(u) && Allowed(u, op)
    ensures Partition(Step(u, op)) && |Step(u, op).fs.disk| == |u.fs.disk|
    ensures op.CloseAndOpen? ==> Step(u, op) == u
  {
    var free, t := FreeList(u.fs), Step(u, op);
    match op
    case Get =>
      GetOk(u.fs);
      if free != [] {
        assert free[0] in free;
        assert free == [free[0]] + FreeList(t.fs);
        assert free[0] !in FreeList(t.fs);
      }
    case Put(b) => PutOk(u.fs, b);
    case Update(b, block) =>
      assert b !in free;
      WriteOk(u.fs, b, block);
    case CloseAndOpen(junk) => ReopenFromDisk(u.fs, junk);
  }

  /** A full disk of four blocks. */
  ghost const FULL := var sb := Superblock(MAGIC, 4, MIN_BLOCK_SIZE, 0, 0, ROOT);
                      User(State(sb, [Super(sb), Raw, Raw, Raw]), {3})

  type Holder = u: User | Partition(u)
    ghost witness FULL

  ghost function Apply(u: Holder, op: Op): Holder
    requires Allowed(u, op)
  {
    StepOk(u, op);
    Step(u, op)
  }

  /** A get returns 0 exactly when the user holds every block, and otherwise a block it does not hold. */
  lemma GetGivesNew(u: Holder)
    ensures GetBlock(u.fs) == 0 <==> u.owned == Blocks(3, |u.fs.disk|)
    ensures GetBlock(u.fs) != 0 ==> 3 <= GetBlock(u.fs) < |u.fs.disk| && GetBlock(u.fs) !in u.owned
  {
    var free := FreeList(u.fs);
    GetOk(u.fs);
    if free != [] {
      assert free[0] in free;
    }
  }

  /** A get that finds a free block. */
  lemma ApplyGet(u: Holder)
    requires u.fs.sb.freeblks > 0
    ensures Apply(u, Get).fs.sb.freeblks == u.fs.sb.freeblks - 1
    ensures GetBlock(u.fs) !in u.owned && Apply(u, Get).owned == u.owned + {GetBlock(u.fs)}
    ensures FreeList(u.fs) == [GetBlock(u.fs)] + FreeList(Apply(u, Get).fs)
  {
    GetOk(u.fs);
    assert FreeList(u.fs)[0] in FreeList(u.fs);
  }

  lemma ApplyPut(u: Holder, b: nat)
    requires b in u.owned
    ensures Apply(u, Put(b)).fs.sb.freeblks == u.fs.sb.freeblks + 1
    ensures Apply(u, Put(b)).owned == u.owned - {b}
    ensures FreeList(Apply(u, Put(b)).fs) == [b] + FreeList(u.fs)
  {
    PutOk(u.fs, b);
  }

  // ---------------------------------------------------------------- whole runs

  ghost predicate Valid(u: Holder, ops: seq<Op>)
    decreases |ops|
  {
    ops == [] || (Allowed(u, ops[0]) && Valid(Apply(u, ops[0]), ops[1..]))
  }

  /** The state after a run. */
  ghost function Exec(u: Holder, ops: seq<Op>): Holder
    requires Valid(u, ops)
    decreases |ops|
  {
    if ops == [] then u else Exec(Apply(u, ops[0]), ops[1..])
  }

  /** The blocks that the gets of a run return, in order. */
  ghost function Given(u: Holder, ops: seq<Op>): seq<nat>
    requires Valid(u, ops)
    decreases |ops|
  {
    if ops == [] then [] else (if ops[0].Get? then [GetBlock(u.fs)] else []) + Given(Apply(u, ops[0]), ops[1..])
  }

  lemma StepKeepsGeometry(u: Holder, op: Op)
    requires Allowed(u, op)
    ensures var sb, sb' := u.fs.sb, Apply(u, op).fs.sb;
      sb'.blksz == sb.blksz && sb'.blks == sb.blks && sb'.root == sb.root && sb'.magic == sb.magic
  {
  }

  lemma {:induction false} KeepsGeometry(u: Holder, ops: seq<Op>)
    requires Valid(u, ops)
    ensures var sb, sb' := u.fs.sb, Exec(u, ops).fs.sb;
      sb'.blksz == sb.blksz && sb'.blks == sb.blks && sb'.root == sb.root && sb'.magic == sb.magic
    decreases |ops|
  {
    if ops != [] {
      StepKeepsGeometry(u, ops[0]);
      KeepsGeometry(Apply(u, ops[0]), ops[1..]);
    }
  }

  /** Over any run after formatting, block 0 holds the number and size of blocks that were asked for. */
  lemma GeometryIsStored(blocks: nat, blocksize: nat, ops: seq<Op>)
    requires MIN_BLOCK_COUNT <= blocks
    requires Valid(Fresh(blocks, blocksize), ops)
    ensures var disk := Exec(Fresh(blocks, blocksize), ops).fs.disk;
      |disk| == blocks && disk[0].Super? && disk[0].sb.blks == blocks && disk[0].sb.blksz == blocksize
  {
    KeepsGeometry(Fresh(blocks, blocksize), ops);
  }

  lemma {:induction false} SameSize(u: Holder, ops: seq<Op>)
    requires Valid(u, ops)
    ensures |Exec(u, ops).fs.disk| == |u.fs.disk|
    decreases |ops|
  {
    if ops != [] {
      StepOk(u, ops[0]);
      SameSize(Apply(u, ops[0]), ops[1..]);
    }
  }

  lemma {:induction false} ElementsCount(xs: seq<nat>)
    requires Distinct(xs)
    ensures |Elements(xs)| == |xs|
  {
    if xs != [] {
      ElementsCount(xs[1..]);
      assert xs == [xs[0]] + xs[1..];
      assert xs[0] !in xs[1..];
      assert Elements(xs) == {xs[0]} + Elements(xs[1..]);
    }
  }

  /** Blocks are conserved: those held and those counted free make up all but the first three. */
  lemma Conserved(u: Holder)
    ensures |u.owned| + u.fs.sb.freeblks == |u.fs.disk| - 3
    ensures Elements(FreeList(u.fs)) * u.owned == {}
    ensures Elements(FreeList(u.fs)) + u.owned == Blocks(3, |u.fs.disk|)
  {
    var free, all := FreeList(u.fs), Blocks(3, |u.fs.disk|);
    assert forall i :: 0 <= i < |free| ==> free[i] in free;
    forall b | b in free ensures 3 <= b < |u.fs.disk| {
      var i :| 0 <= i < |free| && free[i] == b;
    }
    ElementsCount(free);
    assert u.owned + Elements(free) == all;
    assert u.owned * Elements(free) == {};
  }

  lemma FreshOk(blocks: nat, blocksize: nat)
    requires MIN_BLOCK_COUNT <= blocks
    ensures Partition(User(Formatted(blocks, blocksize), {}))
  {
    FormatOk(blocks, blocksize);
    var free := FreeList(Formatted(blocks, blocksize));
    forall b: nat | 3 <= b < blocks ensures b in free {
      assert free[b - 3] == b;
    }
  }

  ghost function Fresh(blocks: nat, blocksize: nat): Holder
    requires MIN_BLOCK_COUNT <= blocks
  {
    FreshOk(blocks, blocksize);
    User(Formatted(blocks, blocksize), {})
  }

  /** After formatting and any run: the chain from `freelist` has exactly `freeblks` different blocks,
      all from 3 on, and ends in 0; free and held blocks are disjoint and together are all blocks from
      3 on. */
  lemma FreeListIntegrity(blocks: nat, blocksize: nat, ops: seq<Op>)
    requires MIN_BLOCK_COUNT <= blocks
    requires Valid(Fresh(blocks, blocksize), ops)
    ensures var u := Exec(Fresh(blocks, blocksize), ops); var free := FreeList(u.fs);
      && |free| == u.fs.sb.freeblks && Distinct(free)
      && End(u.fs.disk, u.fs.sb.freelist, u.fs.sb.freeblks) == 0
      && Elements(free) * u.owned == {} && Elements(free) + u.owned == Blocks(3, blocks)
      && |u.owned| + u.fs.sb.freeblks == blocks - 3
  {
    SameSize(Fresh(blocks, blocksize), ops);
    Conserved(Exec(Fresh(blocks, blocksize), ops));
  }

  // ---------------------------------------------------------------- persistence

  /** A run without its closings and openings. */
  function Strip(ops: seq<Op>): seq<Op> {
    if ops == [] then [] else (if ops[0].CloseAndOpen? then [] else [ops[0]]) + Strip(ops[1..])
  }

  /** Closing and opening the file system, wherever a run does it, changes neither the blocks that are
      handed out nor the state reached: everything the allocator needs is on disk after every step. */
  lemma {:induction false} Persistence(u: Holder, ops: seq<Op>)
    requires Valid(u, ops)
    ensures Valid(u, Strip(ops))
    ensures Given(u, ops) == Given(u, Strip(ops))
    ensures Exec(u, ops) == Exec(u, Strip(ops))
    decreases |ops|
  {
    if ops != [] {
      Persistence(Apply(u, ops[0]), ops[1..]);
      if ops[0].CloseAndOpen? {
        assert Strip(ops) == Strip(ops[1..]);
      } else {
        assert Strip(ops)[0] == ops[0] && Strip(ops)[1..] == Strip(ops[1..]);
      }
    }
  }

  // ---------------------------------------------------------------- draining and refilling

  /** `n` gets. */
  function Gets(n: nat): seq<Op> {
    if n == 0 then [] else [Get] + Gets(n - 1)
  }

  function Puts(bs: seq<nat>): seq<Op> {
    if bs == [] then [] else [Put(bs[0])] + Puts(bs[1..])
  }

  /** A run that begins with `op`. */
  lemma First(u: Holder, op: Op, ops: seq<Op>)
    requires Allowed(u, op) && Valid(Apply(u, op), ops)
    ensures Valid(u, [op] + ops)
    ensures Exec(u, [op] + ops) == Exec(Apply(u, op), ops)
    ensures Given(u, [op] + ops) == (if op.Get? then [GetBlock(u.fs)] else []) + Given(Apply(u, op), ops)
  {
    var all := [op] + ops;
    assert all[0] == op && all[1..] == ops;
  }

  /** Taking `n` free blocks gives the first `n` of the free list, in its order. */
  lemma {:induction false} Take(u: Holder, n: nat)
    requires n <= u.fs.sb.freeblks
    ensures Valid(u, Gets(n))
    ensures FreeList(u.fs) == Given(u, Gets(n)) + FreeList(Exec(u, Gets(n)).fs)
    ensures Exec(u, Gets(n)).fs.sb.freeblks == u.fs.sb.freeblks - n
    decreases n
  {
    if n > 0 {
      ApplyGet(u);
      var v := Apply(u, Get);
      Take(v, n - 1);
      First(u, Get, Gets(n - 1));
      Sequences.Assoc([GetBlock(u.fs)], Given(v, Gets(n - 1)), FreeList(Exec(v, Gets(n - 1)).fs));
    } else {
      assert [] + FreeList(u.fs) == FreeList(u.fs);
    }
  }

  lemma ElementsOfCons(x: nat, xs: seq<nat>)
    ensures Elements([x] + xs) == {x} + Elements(xs)
  {
    assert forall y :: y in [x] + xs <==> y == x || y in xs;
  }

  /** Draining gives exactly the free list, in its order, and then 0. */
  lemma Drain(u: Holder)
    ensures Valid(u, Gets(u.fs.sb.freeblks))
    ensures Given(u, Gets(u.fs.sb.freeblks)) == FreeList(u.fs)
    ensures GetBlock(Exec(u, Gets(u.fs.sb.freeblks)).fs) == 0
    ensures Exec(u, Gets(u.fs.sb.freeblks)).owned == Blocks(3, |u.fs.disk|)
  {
    var n := u.fs.sb.freeblks;
    Take(u, n);
    var v := Exec(u, Gets(n));
    assert FreeList(v.fs) == [];
    assert Given(u, Gets(n)) + [] == Given(u, Gets(n));
    SameSize(u, Gets(n));
    GetGivesNew(v);
  }

  function Reverse(xs: seq<nat>): (r: seq<nat>)
    ensures |r| == |xs|
  {
    if xs == [] then [] else Reverse(xs[1..]) + [xs[0]]
  }

  /** Putting held blocks back, in any order, makes all of them free again, last one first. */
  lemma {:induction false} Refill(u: Holder, bs: seq<nat>)
    requires Distinct(bs) && Elements(bs) <= u.owned
    ensures Valid(u, Puts(bs))
    ensures FreeList(Exec(u, Puts(bs)).fs) == Reverse(bs) + FreeList(u.fs)
    ensures Exec(u, Puts(bs)).fs.sb.freeblks == u.fs.sb.freeblks + |bs|
    decreases |bs|
  {
    if bs == [] {
      assert Reverse(bs) + FreeList(u.fs) == FreeList(u.fs);
    } else {
      var b, rest := bs[0], bs[1..];
      assert b in Elements(bs);
      ApplyPut(u, b);
      Rest(bs, u.owned);
      Refill(Apply(u, Put(b)), rest);
      First(u, Put(b), Puts(rest));
      Sequences.Assoc(Reverse(rest), [b], FreeList(u.fs));
    }
  }

  lemma {:induction false} RefillGivesUp(u: Holder, bs: seq<nat>)
    requires Distinct(bs) && Elements(bs) <= u.owned && Valid(u, Puts(bs))
    ensures Exec(u, Puts(bs)).owned == u.owned - Elements(bs)
    decreases |bs|
  {
    if bs != [] {
      var b, rest := bs[0], bs[1..];
      assert bs == [b] + rest;
      ElementsOfCons(b, rest);
      ApplyPut(u, b);
      Rest(bs, u.owned);
      Refill(Apply(u, Put(b)), rest);
      RefillGivesUp(Apply(u, Put(b)), rest);
      First(u, Put(b), Puts(rest));
      Minus(u.owned, b, Elements(rest));
    }
  }

  lemma Minus(s: set<nat>, x: nat, t: set<nat>)
    ensures (s - {x}) - t == s - ({x} + t)
  {
  }

  lemma Rest(bs: seq<nat>, owned: set<nat>)
    requires bs != [] && Distinct(bs) && Elements(bs) <= owned
    ensures Distinct(bs[1..]) && Elements(bs[1..]) <= owned - {bs[0]}
  {
    forall x | x in bs[1..] ensures x in owned && x != bs[0] {
      var i :| 0 < i < |bs| && bs[i] == x;
      assert x in Elements(bs);
    }
  }

  /** Putting everything back, in any order, frees all but the first three blocks. */
  lemma RefillAll(u: Holder, order: seq<nat>)
    requires Distinct(order) && Elements(order) == u.owned
    ensures Valid(u, Puts(order))
    ensures Exec(u, Puts(order)).fs.sb.freeblks == |u.fs.disk| - 3 && Exec(u, Puts(order)).owned == {}
  {
    Refill(u, order);
    RefillGivesUp(u, order);
    SameSize(u, Puts(order));
    Conserved(Exec(u, Puts(order)));
  }

  /** A new file system hands out each block from 3 on once, in order, and then 0. */
  lemma DrainNew(blocks: nat, blocksize: nat)
    requires MIN_BLOCK_COUNT <= blocks
    ensures Valid(Fresh(blocks, blocksize), Gets(blocks - 3))
    ensures Given(Fresh(blocks, blocksize), Gets(blocks - 3)) == Ascending(3, blocks)
    ensures var v := Exec(Fresh(blocks, blocksize), Gets(blocks - 3));
      GetBlock(v.fs) == 0 && v.owned == Blocks(3, blocks) && |v.fs.disk| == blocks
  {
    FreshIs(blocks, blocksize);
    DrainAll(Fresh(blocks, blocksize), blocks, Ascending(3, blocks));
  }

  lemma DrainAll(u: Holder, blocks: nat, free: seq<nat>)
    requires 3 <= blocks == |u.fs.disk| && u.fs.sb.freeblks == blocks - 3 && FreeList(u.fs) == free
    ensures Valid(u, Gets(blocks - 3)) && Given(u, Gets(blocks - 3)) == free
    ensures var v := Exec(u, Gets(blocks - 3));
      GetBlock(v.fs) == 0 && v.owned == Blocks(3, blocks) && |v.fs.disk| == blocks
  {
    Drain(u);
    SameSize(u, Gets(blocks - 3));
  }

  lemma FreshIs(blocks: nat, blocksize: nat)
    requires MIN_BLOCK_COUNT <= blocks
    ensures var s := Fresh(blocks, blocksize).fs;
      |s.disk| == blocks && s.sb.freeblks == blocks - 3 && FreeList(s) == Ascending(3, blocks)
  {
    FormatOk(blocks, blocksize);
  }

  /** The blocks a new file system hands out can be put back in any order, and then all of them are
      free as they were after formatting. */
  lemma DrainAndRefill(blocks: nat, blocksize: nat, order: seq<nat>)
    requires MIN_BLOCK_COUNT <= blocks
    requires Distinct(order) && Elements(order) == Blocks(3, blocks)
    requires Valid(Fresh(blocks, blocksize), Gets(blocks - 3))
    ensures var v := Exec(Fresh(blocks, blocksize), Gets(blocks - 3));
      Valid(v, Puts(order)) && Exec(v, Puts(order)).fs.sb.freeblks == blocks - 3 && Exec(v, Puts(order)).owned == {}
  {
    DrainNew(blocks, blocksize);
    RefillAll(Exec(Fresh(blocks, blocksize), Gets(blocks - 3)), order);
  }

  lemma {:induction false} ExecSnoc(u: Holder, ops: seq<Op>, op: Op)
    requires Valid(u, ops) && Allowed(Exec(u, ops), op)
    ensures Valid(u, ops + [op])
    ensures Exec(u, ops + [op]) == Apply(Exec(u, ops), op)
    decreases |ops|
  {
    if ops == [] {
      assert [op][1..] == [];
      assert ops + [op] == [op];
    } else {
      ExecSnoc(Apply(u, ops[0]), ops[1..], op);
      assert (ops + [op])[1..] == ops[1..] + [op];
    }
  }

  /** Putting back in the opposite order the blocks that `n` gets gave ends where it began. */
  ghost predicate Undone(u: Holder, n: nat) {
    && Valid(u, Gets(n))
    && Valid(Exec(u, Gets(n)), Puts(Reverse(Given(u, Gets(n)))))
    && Exec(Exec(u, Gets(n)), Puts(Reverse(Given(u, Gets(n))))) == u
  }

  lemma {:induction false} PutsSnoc(bs: seq<nat>, b: nat)
    ensures Puts(bs + [b]) == Puts(bs) + [Put(b)]
  {
    if bs != [] {
      PutsSnoc(bs[1..], b);
      assert (bs + [b])[1..] == bs[1..] + [b];
    } else {
      assert bs + [b] == [b] && [b][1..] == [];
    }
  }

  lemma PutsReverse(b: nat, rest: seq<nat>)
    ensures Puts(Reverse([b] + rest)) == Puts(Reverse(rest)) + [Put(b)]
  {
    assert ([b] + rest)[1..] == rest;
    PutsSnoc(Reverse(rest), b);
  }

  lemma PutBack(u: Holder)
    requires u.fs.sb.freeblks > 0
    requires GetBlock(u.fs) in Apply(u, Get).owned
    ensures Apply(Apply(u, Get), Put(GetBlock(u.fs))) == u
  {
    ApplyGet(u);
    PutUndoesGet(u.fs);
  }

  /** If `puts` undoes all gets but the first, one more put undoes that. */
  lemma UndoLast(u: Holder, w: Holder, puts: seq<Op>)
    requires u.fs.sb.freeblks > 0
    requires Valid(w, puts) && Exec(w, puts) == Apply(u, Get)
    ensures Valid(w, puts + [Put(GetBlock(u.fs))]) && Exec(w, puts + [Put(GetBlock(u.fs))]) == u
  {
    ApplyGet(u);
    ExecSnoc(w, puts, Put(GetBlock(u.fs)));
    PutBack(u);
  }

  lemma UndoStep(u: Holder, n: nat, w: Holder, rest: seq<nat>)
    requires n > 0 && u.fs.sb.freeblks > 0 && Valid(Apply(u, Get), Gets(n - 1))
    requires w == Exec(Apply(u, Get), Gets(n - 1)) && rest == Given(Apply(u, Get), Gets(n - 1))
    requires Valid(w, Puts(Reverse(rest))) && Exec(w, Puts(Reverse(rest))) == Apply(u, Get)
    ensures Undone(u, n)
  {
    First(u, Get, Gets(n - 1));
    assert Given(u, Gets(n)) == [GetBlock(u.fs)] + rest && Exec(u, Gets(n)) == w;
    PutsReverse(GetBlock(u.fs), rest);
    UndoLast(u, w, Puts(Reverse(rest)));
  }

  /** Up to the last byte of the disk, `n` gets are undone by putting their blocks back in the
      opposite order. */
  lemma {:induction false} UndoGets(u: Holder, n: nat)
    requires n <= u.fs.sb.freeblks
    ensures Undone(u, n)
    decreases n
  {
    if n > 0 {
      ApplyGet(u);
      UndoGets(Apply(u, Get), n - 1);
      UndoStep(u, n, Exec(Apply(u, Get), Gets(n - 1)), Given(Apply(u, Get), Gets(n - 1)));
    }
  }
}
