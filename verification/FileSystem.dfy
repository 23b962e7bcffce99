/** The file system's operations as they run, on a superblock in memory and the blocks of the image,
    each proved to do what `FsBlocks` and `FsTree` say. */
module FileSystem {
  import opened FsBlocks
  import opened FsTree
  import opened Options

  datatype Error = InvalidBlockSize | NoSuchFile | NoSpace | Busy | BadMagic

  datatype Result = Ok | Err(error: Error)

  /** strtok: skip separators, then cut the next part off. */
  method Strtok(sep: char, s: string) returns (token: Option<string>, rest: string)
    ensures token.None? ==> Tokens(sep, s) == []
    ensures token.Some? ==> Tokens(sep, s) == [token.value] + Tokens(sep, rest) && |rest| < |s|
  {
    var i := 0;
    while i < |s| && s[i] == sep
      invariant 0 <= i <= |s|
      invariant Tokens(sep, s) == Tokens(sep, s[i..])
    {
      assert s[i..][1..] == s[i + 1..];
      i := i + 1;
    }
    if i == |s| {
      return None, [];
    }
    var j := i;
    while j < |s| && s[j] != sep
      invariant i <= j <= |s|
      invariant sep !in s[i..j]
    {
      j := j + 1;
    }
    assert s[i..] == s[i..j] + s[j..];
    assert s[i] in s[i..j];
    TokensOfWord(sep, s[i..j], s[j..]);
    token, rest := Some(s[i..j]), s[j..];
  }

  /** The components of a path. */
  method SubfoldersToVector(name: string) returns (files: seq<string>)
    ensures files == Tokens('/', name)
  {
    files := [];
    var token, rest := Strtok('/', name);
    while token.Some?
      invariant Tokens('/', name) == files + (if token.Some? then [token.value] + Tokens('/', rest) else [])
      decreases token.Some?, |rest|
    {
      files := files + [token.value];
      token, rest := Strtok('/', rest);
    }
  }

  class FileSystem {
    var sb: Superblock
    var disk: array<Block>
    var isOpen: bool

    /** The superblock in memory and the image, as a value. */
    ghost function Contents(): State
      reads this, disk
    {
      State(sb, disk[..])
    }

    /** An image that no file system has been opened on. */
    constructor (image: seq<Block>)
      ensures !isOpen && disk[..] == image && fresh(disk)
    {
      sb := Superblock(0, 0, 0, 0, 0, 0);
      disk := new Block[|image|](i requires 0 <= i < |image| => image[i]);
      isOpen := false;
    }

    /** `fileSize` is nothing when there is no such file. */
    method Format(fileSize: Option<nat>, blocksize: nat) returns (r: Result)
      modifies this`sb, this`disk
      ensures r == Ok || r == Err(InvalidBlockSize) || r == Err(NoSuchFile) || r == Err(NoSpace)
      ensures r.Ok? <==> blocksize >= MIN_BLOCK_SIZE && fileSize.Some? && fileSize.value / blocksize >= MIN_BLOCK_COUNT
      ensures r.Ok? ==> fresh(disk) && Contents() == Formatted(fileSize.value / blocksize, blocksize)
      ensures r.Ok? ==> sb.blksz == blocksize && sb.blks == disk.Length == fileSize.value / blocksize
      ensures r.Err? ==> Contents() == old(Contents())
      ensures r == Err(InvalidBlockSize) <==> blocksize < MIN_BLOCK_SIZE
      ensures r == Err(NoSuchFile) <==> blocksize >= MIN_BLOCK_SIZE && fileSize.None?
    {
      if blocksize < MIN_BLOCK_SIZE {
        return Err(InvalidBlockSize);
      }
      if fileSize.None? {
        return Err(NoSuchFile);
      }
      var blocks := fileSize.value / blocksize;
      if blocks < MIN_BLOCK_COUNT {
        return Err(NoSpace);
      }
      sb := Superblock(MAGIC, blocks, blocksize, blocks - 3, 3, ROOT);
      disk := WriteBlocks(sb);
      assert disk[..] == Formatted(blocks, blocksize).disk;
      r := Ok;
    }

    /** The blocks of a new image, written one after the other. */
    static method WriteBlocks(sb: Superblock) returns (image: array<Block>)
      requires MIN_BLOCK_COUNT <= sb.blks
      ensures fresh(image) && image.Length == sb.blks
      ensures forall k :: 0 <= k < sb.blks ==> image[k] == NewBlock(sb, Capacity(sb.blksz), k)
    {
      image := new Block[sb.blks](_ => Raw);
      image[0] := Super(sb);
      image[1] := NodeInfo(0, "/");
      image[2] := Inode(IMDIR, 2, 1, 0, seq(Capacity(sb.blksz), _ => 0));
      var i := 3;
      while i < sb.blks - 1
        invariant 3 <= i <= sb.blks - 1
        invariant forall k :: 0 <= k < i ==> image[k] == NewBlock(sb, Capacity(sb.blksz), k)
      {
        image[i] := FreePage(i + 1);
        i := i + 1;
      }
      image[i] := FreePage(0);
    }

    method Open() returns (r: Result)
      requires 0 < disk.Length
      modifies this`sb, this`isOpen
      ensures r == (if old(isOpen) then Err(Busy) else if FirstWord(disk[0]) != MAGIC then Err(BadMagic) else Ok)
      ensures r.Err? ==> Contents() == old(Contents()) && isOpen == old(isOpen)
      ensures r.Ok? ==> isOpen
      ensures r.Ok? && disk[0].Super? ==> Contents() == Reopen(old(Contents()))
    {
      if isOpen {
        return Err(Busy);
      }
      if FirstWord(disk[0]) != MAGIC {
        return Err(BadMagic);
      }
      if disk[0].Super? {
        sb := disk[0].sb;
      }
      isOpen := true;
      r := Ok;
    }

    method Close() returns (r: Result)
      modifies this`isOpen
      ensures r == (if sb.magic != MAGIC then Err(BadMagic) else Ok)
      ensures isOpen == (old(isOpen) && r.Err?)
    {
      if sb.magic != MAGIC {
        return Err(BadMagic);
      }
      isOpen := false;
      r := Ok;
    }

    /** Zero, for no space, or a block taken off the free list. */
    method GetBlock() returns (block: nat)
      requires 0 < disk.Length && (sb.freeblks > 0 ==> sb.freelist < disk.Length)
      modifies this`sb, disk
      ensures block == FsBlocks.GetBlock(old(Contents()))
      ensures Contents() == AfterGet(old(Contents()))
    {
      if sb.freeblks == 0 {
        return 0;
      }
      var next := FirstWord(disk[sb.freelist]);
      block := sb.freelist;
      sb := sb.(freelist := next, freeblks := sb.freeblks - 1);
      disk[0] := Super(sb);
    }

    method PutBlock(block: nat) returns (r: Result)
      requires 0 < disk.Length && block < disk.Length
      modifies this`sb, disk
      ensures r == (if old(sb.magic) != MAGIC then Err(BadMagic) else Ok)
      ensures Contents() == AfterPut(old(Contents()), block)
      ensures r.Err? ==> Contents() == old(Contents())
    {
      if sb.magic != MAGIC {
        return Err(BadMagic);
      }
      disk[block] := FreePage(sb.freelist);
      sb := sb.(freelist := block, freeblks := sb.freeblks + 1);
      disk[0] := Super(sb);
      r := Ok;
    }

    /** A path of one component; the source promises room for the link by the block's size. It always
        reports success. */
    method Mkdir(dname: string) returns (r: Result)
      requires Inv(Contents()) && HasRoot(Contents()) && Size(Contents()) < |disk[ROOT].links|
      requires |Tokens('/', dname)| == 1
      modifies this`sb, disk
      ensures r == Ok
      ensures Contents() == FsTree.Mkdir(old(Contents()), Tokens('/', dname)[0])
    {
      ghost var s := Contents();
      var files := SubfoldersToVector(dname);
      var info, root := disk[ROOT_INFO], disk[sb.root];
      FirstGet(s, files[0]);
      var blockInfo := GetBlock();
      disk[blockInfo] := NodeInfo(0, files[0]);
      assert Contents() == Write(AfterGet(s), FsBlocks.GetBlock(s), NodeInfo(0, files[0]));
      var blockInode := GetBlock();
      disk[blockInode] := Inode(IMDIR, blockInode, blockInfo, 0, seq(|root.links|, _ => 0));
      root := root.(links := root.links[info.size := blockInode]);
      info := info.(size := info.size + 1);
      disk[ROOT_INFO] := info;
      disk[ROOT] := root;
      disk[0] := Super(sb);
      r := Ok;
    }

    /** The inode that a link leads to, and its metadata, each read into its buffer. */
    method SearchInode(link: nat, buffers: Buffers) returns (next: Buffers)
      ensures next == Search(Contents(), link, buffers)
    {
      var inode := ReadBlock(link, buffers.inode);
      if FirstWord(inode) == IMCHILD {
        inode := ReadBlock(Parent(inode), inode);
      }
      var info := ReadBlock(Meta(inode), buffers.info);
      next := Buffers(inode, info);
    }

    method ReadBlock(b: nat, buffer: Block) returns (block: Block)
      ensures block == Read(Contents(), b, buffer)
    {
      block := buffer;
      if b < disk.Length {
        block := disk[b];
      }
    }

    /** A name, with a slash for a directory. */
    method Element(link: nat, buffers: Buffers) returns (text: string, next: Buffers)
      ensures next == Search(Contents(), link, buffers)
      ensures text == Shown(next).Text()
    {
      next := SearchInode(link, buffers);
      text := Name(next.info);
      if FirstWord(next.inode) == IMDIR {
        text := text + "/";
      }
    }

    /** A path of no components, the root: its elements, separated by spaces, each directory with a slash. */
    method ListDir(dname: string) returns (elements: string)
      requires HasRoot(Contents()) && Tokens('/', dname) == []
      ensures elements == Listing(Contents())
      ensures Listable(Contents()) ==>
        |Tokens(' ', elements)| == disk[ROOT_INFO].size
        && forall k :: 0 <= k < disk[ROOT_INFO].size ==> Tokens(' ', elements)[k] == TextOnDisk(Contents(), k)
    {
      var info, root := disk[ROOT_INFO], disk[sb.root];
      ghost var s, links := Contents(), Links(Contents());
      elements := "";
      var buffers := EMPTY;
      var i := 0;
      while i < info.size
        invariant 0 <= i <= info.size
        invariant elements == Join(' ', Texts(EntriesOf(s, links[..i], EMPTY))) + (if 0 < i < info.size then " " else "")
        invariant buffers == Leftover(s, links[..i], EMPTY)
      {
        var text: string;
        text, buffers := Element(root.links[i], buffers);
        elements := elements + text;
        NextElement(s, links, i);
        if i < info.size - 1 {
          elements := elements + " ";
        }
        i := i + 1;
      }
      assert links[..info.size] == links;
      if Listable(s) { ListingOnDisk(s); }
    }
  }

  lemma NextElement(s: State, links: seq<nat>, i: nat)
    requires i < |links|
    ensures Leftover(s, links[..i + 1], EMPTY) == Search(s, links[i], Leftover(s, links[..i], EMPTY))
    ensures Join(' ', Texts(EntriesOf(s, links[..i + 1], EMPTY)))
      == Join(' ', Texts(EntriesOf(s, links[..i], EMPTY))) + (if i > 0 then " " else "")
         + Shown(Leftover(s, links[..i + 1], EMPTY)).Text()
  {
    var entry := Shown(Search(s, links[i], Leftover(s, links[..i], EMPTY)));
    assert links[..i + 1] == links[..i] + [links[i]];
    EntriesSnoc(s, links[..i], links[i], EMPTY);
    TextsSnoc(EntriesOf(s, links[..i], EMPTY), entry);
    JoinSnoc(' ', Texts(EntriesOf(s, links[..i], EMPTY)), entry.Text());
  }
}
