/** The on-disk block allocator: a list of free blocks threaded through the blocks themselves, its
    head and length kept in block 0. */
module FsBlocks {
  const MAGIC := 0xdcc605f5
  const MIN_BLOCK_SIZE := 128
  const MIN_BLOCK_COUNT := 32
  const IMDIR := 2
  const IMCHILD := 4
  const ROOT_INFO := 1
  const ROOT := 2

  datatype Superblock = Superblock(magic: nat, blks: nat, blksz: nat, freeblks: nat, freelist: nat, root: nat)

  /** The links an inode has room for: what four words of eight bytes leave of the block. */
  function Capacity(blocksize: nat): nat {
    if blocksize < 32 then 0 else (blocksize - 32) / 8
  }

  lemma CapacityFits(blocksize: nat)
    requires 32 <= blocksize
    ensures 32 + 8 * Capacity(blocksize) <= blocksize < 32 + 8 * (Capacity(blocksize) + 1)
  {
  }

  /** A block, as what was last written to it. */
  datatype Block =
    | Super(sb: Superblock)
    | FreePage(next: nat)
    | Inode(mode: nat, parent: nat, meta: nat, next: nat, links: seq<nat>)
    | NodeInfo(size: nat, name: string)
    | Raw

  /** The first word of a block, which is what a free page's `next` field reads. */
  function FirstWord(b: Block): nat {
    match b
    case Super(sb) => sb.magic
    case FreePage(next) => next
    case Inode(mode, _, _, _, _) => mode
    case NodeInfo(size, _) => size
    case Raw => 0
  }

  /** An open file system: the superblock in memory, and the disk. */
  datatype State = State(sb: Superblock, disk: seq<Block>)

  function Write(s: State, b: nat, block: Block): State
    requires b < |s.disk|
  {
    s.(disk := s.disk[b := block])
  }

  /** Zero for a full disk. */
  function GetBlock(s: State): nat {
    if s.sb.freeblks == 0 then 0 else s.sb.freelist
  }

  function AfterGet(s: State): State
    requires 0 < |s.disk| && (s.sb.freeblks > 0 ==> s.sb.freelist < |s.disk|)
  {
    if s.sb.freeblks == 0 then s
    else
      var sb := s.sb.(freelist := FirstWord(s.disk[s.sb.freelist]), freeblks := s.sb.freeblks - 1);
      Write(State(sb, s.disk), 0, Super(sb))
  }

  /** Closing a file system and opening it again reads the superblock back from block 0. */
  function Reopen(s: State): State
    requires 0 < |s.disk|
  {
    if s.disk[0].Super? && s.disk[0].sb.magic == MAGIC then s.(sb := s.disk[0].sb) else s
  }

  function AfterPut(s: State, b: nat): State
    requires 0 < |s.disk| && b < |s.disk|
  {
    if s.sb.magic != MAGIC then s
    else
      var t := Write(s, b, FreePage(s.sb.freelist));
      var sb := s.sb.(freelist := b, freeblks := s.sb.freeblks + 1);
      Write(State(sb, t.disk), 0, Super(sb))
  }

  // ---------------------------------------------------------------- the free list

  /** The blocks met by following `n` links from `head`. */
  function Chain(disk: seq<Block>, head: nat, n: nat): (free: seq<nat>)
    ensures |free| <= n
    decreases n
  {
    if n == 0 || head >= |disk| then [] else [head] + Chain(disk, FirstWord(disk[head]), n - 1)
  }

  /** Where following `n` links from `head` ends. */
  function End(disk: seq<Block>, head: nat, n: nat): nat
    decreases n
  {
    if n == 0 || head >= |disk| then head else End(disk, FirstWord(disk[head]), n - 1)
  }

  function FreeList(s: State): seq<nat> { Chain(s.disk, s.sb.freelist, s.sb.freeblks) }

  predicate Distinct(xs: seq<nat>) {
    forall i, j :: 0 <= i < j < |xs| ==> xs[i] != xs[j]
  }

  /** The chain has exactly `freeblks` different blocks, none of them reserved, and ends in 0; and
      block 0 holds the superblock that is in memory. */
  ghost predicate Inv(s: State) {
    && s.sb.magic == MAGIC && s.sb.blks == |s.disk| && |s.disk| > 3 && s.sb.root == ROOT
    && |FreeList(s)| == s.sb.freeblks
    && Distinct(FreeList(s))
    && (forall i :: 0 <= i < |FreeList(s)| ==> 3 <= FreeList(s)[i] < |s.disk| && s.disk[FreeList(s)[i]].FreePage?)
    && End(s.disk, s.sb.freelist, s.sb.freeblks) == 0
    && s.disk[0] == Super(s.sb)
  }

  /** A write outside the chain leaves the chain alone. */
  lemma {:induction false} ChainFrame(disk: seq<Block>, disk': seq<Block>, head: nat, n: nat)
    requires |disk'| == |disk|
    requires forall i :: 0 <= i < |Chain(disk, head, n)| ==>
      Chain(disk, head, n)[i] < |disk| && disk'[Chain(disk, head, n)[i]] == disk[Chain(disk, head, n)[i]]
    ensures Chain(disk', head, n) == Chain(disk, head, n)
    ensures End(disk', head, n) == End(disk, head, n)
    decreases n
  {
    if n > 0 && head < |disk| {
      var rest := Chain(disk, FirstWord(disk[head]), n - 1);
      assert Chain(disk, head, n) == [head] + rest;
      assert Chain(disk, head, n)[0] == head;
      assert forall i :: 0 <= i < |rest| ==> rest[i] == Chain(disk, head, n)[i + 1];
      ChainFrame(disk, disk', FirstWord(disk[head]), n - 1);
    }
  }

  /** Getting a block takes the head of the list, and leaves the rest of it. */
  lemma GetOk(s: State)
    requires Inv(s)
    ensures s.sb.freeblks > 0 ==> s.sb.freelist < |s.disk|
    ensures Inv(AfterGet(s))
    ensures if FreeList(s) == [] then GetBlock(s) == 0 && AfterGet(s) == s
            else GetBlock(s) == FreeList(s)[0] && FreeList(AfterGet(s)) == FreeList(s)[1..]
    ensures forall b :: 0 < b < |s.disk| ==> AfterGet(s).disk[b] == s.disk[b]
  {
    if s.sb.freeblks > 0 {
      var free := FreeList(s);
      assert free[0] == s.sb.freelist;
      var next := FirstWord(s.disk[s.sb.freelist]);
      var rest := Chain(s.disk, next, s.sb.freeblks - 1);
      assert free == [free[0]] + rest;
      assert forall i :: 0 <= i < |rest| ==> rest[i] == free[i + 1];
      ChainFrame(s.disk, AfterGet(s).disk, next, s.sb.freeblks - 1);
      assert FreeList(AfterGet(s)) == rest;
    }
  }

  /** Putting back a block that is not free makes it the head. */
  lemma PutOk(s: State, b: nat)
    requires Inv(s) && 3 <= b < |s.disk| && b !in FreeList(s)
    ensures Inv(AfterPut(s, b))
    ensures FreeList(AfterPut(s, b)) == [b] + FreeList(s)
    ensures forall c :: 0 < c < |s.disk| && c != b ==> AfterPut(s, b).disk[c] == s.disk[c]
  {
    var free, t := FreeList(s), AfterPut(s, b);
    assert forall i :: 0 <= i < |free| ==> free[i] in free;
    ChainFrame(s.disk, t.disk, s.sb.freelist, s.sb.freeblks);
    assert FreeList(t) == [b] + Chain(t.disk, s.sb.freelist, s.sb.freeblks);
  }

  /** A chain that passes through `b` does so again when `b` is made to lead back to its head. */
  lemma {:induction false} ChainReaches(disk: seq<Block>, disk': seq<Block>, head: nat, n: nat, p: nat, b: nat)
    requires |disk'| == |disk| && forall c :: 0 < c < |disk| && c != b ==> disk'[c] == disk[c]
    requires p < |Chain(disk, head, n)| && Chain(disk, head, n)[p] == b
    requires forall i :: 0 <= i < |Chain(disk, head, n)| ==> Chain(disk, head, n)[i] > 0
    ensures b in Chain(disk', head, n)
    decreases n
  {
    assert Chain(disk, head, n) == [head] + Chain(disk, FirstWord(disk[head]), n - 1);
    if head != b {
      var rest := Chain(disk, FirstWord(disk[head]), n - 1);
      assert Chain(disk, head, n)[0] == head;
      assert forall i :: 0 <= i < |rest| ==> rest[i] == Chain(disk, head, n)[i + 1];
      ChainReaches(disk, disk', FirstWord(disk[head]), n - 1, p - 1, b);
      assert Chain(disk', head, n) == [head] + Chain(disk', FirstWord(disk'[head]), n - 1);
    }
  }

  /** The number of a block put back is not checked: the free list stays sound exactly when the block is
      none of the first three and not free already. */
  lemma PutOkIff(s: State, b: nat)
    requires Inv(s) && b < |s.disk|
    ensures Inv(AfterPut(s, b)) <==> 3 <= b && b !in FreeList(s)
  {
    var free, t := FreeList(s), AfterPut(s, b);
    if 3 <= b && b !in free {
      PutOk(s, b);
    } else {
      var rest := Chain(t.disk, s.sb.freelist, s.sb.freeblks);
      assert FreeList(t) == [b] + Chain(t.disk, FirstWord(t.disk[b]), s.sb.freeblks);
      assert FreeList(t)[0] == b;
      if 3 <= b {
        var p :| 0 <= p < |free| && free[p] == b;
        ChainReaches(s.disk, t.disk, s.sb.freelist, s.sb.freeblks, p, b);
        var q :| 0 <= q < |rest| && rest[q] == b;
        assert FreeList(t)[q + 1] == b;
      }
    }
  }

  /** Writing to a block that is neither free nor block 0 leaves the allocator alone. */
  lemma WriteOk(s: State, b: nat, block: Block)
    requires Inv(s) && 0 < b < |s.disk| && b !in FreeList(s)
    ensures Inv(Write(s, b, block)) && FreeList(Write(s, b, block)) == FreeList(s)
  {
    assert forall i :: 0 <= i < |FreeList(s)| ==> FreeList(s)[i] in FreeList(s);
    ChainFrame(s.disk, Write(s, b, block).disk, s.sb.freelist, s.sb.freeblks);
  }

  /** Opening needs nothing from memory: whatever is there, the superblock comes back from block 0. */
  lemma ReopenFromDisk(s: State, junk: Superblock)
    requires Inv(s)
    ensures Reopen(State(junk, s.disk)) == s
  {
  }

  /** A superblock without the magic number gets nothing back into the free list. */
  lemma PutNeedsMagic(s: State, b: nat)
    requires 0 < |s.disk| && b < |s.disk| && s.sb.magic != MAGIC
    ensures AfterPut(s, b) == s
  {
  }

  // ---------------------------------------------------------------- getting and putting undo each other

  /** A get is undone, to the last byte of the disk, by putting the block back. */
  lemma PutUndoesGet(s: State)
    requires Inv(s) && s.sb.freeblks > 0
    ensures s.sb.freelist < |s.disk| && GetBlock(s) < |s.disk|
    ensures AfterPut(AfterGet(s), GetBlock(s)) == s
  {
    GetOk(s);
    var b := GetBlock(s);
    assert s.disk[b] == FreePage(FirstWord(s.disk[b]));
    assert AfterPut(AfterGet(s), b).disk == s.disk;
  }

  /** A put is undone by a get, which returns the block that was put. */
  lemma GetUndoesPut(s: State, b: nat)
    requires Inv(s) && 3 <= b < |s.disk| && b !in FreeList(s)
    ensures AfterPut(s, b).sb.freelist < |s.disk|
    ensures GetBlock(AfterPut(s, b)) == b
    ensures AfterGet(AfterPut(s, b)) == Write(s, b, FreePage(s.sb.freelist))
    ensures FreeList(AfterGet(AfterPut(s, b))) == FreeList(s)
  {
    PutOk(s, b);
    var t := AfterPut(s, b);
    GetOk(t);
    assert AfterGet(t).disk == Write(s, b, FreePage(s.sb.freelist)).disk;
  }

  // ---------------------------------------------------------------- a new file system

  /** What formatting leaves in block `i` of `n`; a directory has room for `capacity` links. */
  function NewBlock(sb: Superblock, capacity: nat, i: nat): Block
    requires i < sb.blks
  {
    if i == 0 then Super(sb)
    else if i == 1 then NodeInfo(0, "/")
    else if i == 2 then Inode(IMDIR, 2, 1, 0, seq(capacity, _ => 0))
    else if i < sb.blks - 1 then FreePage(i + 1)
    else FreePage(0)
  }

  function NewSuper(blocks: nat, blocksize: nat): Superblock
    requires 3 <= blocks
  {
    Superblock(MAGIC, blocks, blocksize, blocks - 3, 3, ROOT)
  }

  function Formatted(blocks: nat, blocksize: nat): State
    requires MIN_BLOCK_COUNT <= blocks
  {
    var sb := NewSuper(blocks, blocksize);
    State(sb, seq(blocks, i requires 0 <= i < blocks => NewBlock(sb, Capacity(blocksize), i)))
  }

  /** The numbers from `lo` up to, not including, `hi`, in order. */
  function Ascending(lo: nat, hi: nat): (xs: seq<nat>)
    requires lo <= hi
    ensures |xs| == hi - lo && forall k :: 0 <= k < |xs| ==> xs[k] == lo + k
    decreases hi - lo
  {
    if lo == hi then [] else [lo] + Ascending(lo + 1, hi)
  }

  /** The chain of a new disk from block `i` on runs through the blocks in order to the last one. */
  lemma {:induction false} NewChain(blocks: nat, blocksize: nat, i: nat)
    requires MIN_BLOCK_COUNT <= blocks && 3 <= i < blocks
    ensures Chain(Formatted(blocks, blocksize).disk, i, blocks - i) == Ascending(i, blocks)
    ensures End(Formatted(blocks, blocksize).disk, i, blocks - i) == 0
    decreases blocks - i
  {
    var disk := Formatted(blocks, blocksize).disk;
    assert disk[i] == NewBlock(NewSuper(blocks, blocksize), Capacity(blocksize), i);
    if i + 1 < blocks {
      NewChain(blocks, blocksize, i + 1);
    } else {
      assert Chain(disk, i, 1) == [i] + Chain(disk, 0, 0);
    }
  }

  /** A new file system has every block from 3 on free, in order. */
  lemma FormatOk(blocks: nat, blocksize: nat)
    requires MIN_BLOCK_COUNT <= blocks
    ensures Inv(Formatted(blocks, blocksize))
    ensures FreeList(Formatted(blocks, blocksize)) == Ascending(3, blocks)
  {
    NewChain(blocks, blocksize, 3);
  }
}
