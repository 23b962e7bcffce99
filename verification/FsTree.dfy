/** Making directories in the root, and listing the root, on top of the block allocator. */
module FsTree {
  import opened FsBlocks
  import Sequences

  // ---------------------------------------------------------------- strings

  /** How many characters come before the first `sep`. */
  function Run(sep: char, s: string): (n: nat)
    ensures n <= |s| && sep !in s[..n] && (n < |s| ==> s[n] == sep)
  {
    if s == [] || s[0] == sep then 0 else 1 + Run(sep, s[1..])
  }

  /** The non-empty parts of `s` between separators: what repeated calls of strtok return. */
  function Tokens(sep: char, s: string): seq<string> {
    if s == [] then []
    else if s[0] == sep then Tokens(sep, s[1..])
    else [s[..Run(sep, s)]] + Tokens(sep, s[Run(sep, s)..])
  }

  function Join(sep: char, parts: seq<string>): string {
    if parts == [] then []
    else if |parts| == 1 then parts[0]
    else parts[0] + [sep] + Join(sep, parts[1..])
  }

  predicate Word(sep: char, s: string) { s != [] && sep !in s }

  lemma {:induction false} RunOfWord(sep: char, w: string, rest: string)
    requires sep !in w && (rest == [] || rest[0] == sep)
    ensures Run(sep, w + rest) == |w|
  {
    if w == [] {
      assert w + rest == rest;
    } else {
      assert (w + rest)[1..] == w[1..] + rest;
      RunOfWord(sep, w[1..], rest);
    }
  }

  lemma TokensOfWord(sep: char, w: string, rest: string)
    requires Word(sep, w) && (rest == [] || rest[0] == sep)
    ensures Tokens(sep, w + rest) == [w] + Tokens(sep, rest)
  {
    RunOfWord(sep, w, rest);
    assert (w + rest)[..|w|] == w && (w + rest)[|w|..] == rest;
    assert (w + rest)[0] == w[0];
    assert w[0] in w;
  }

  /** Splitting undoes joining. */
  lemma {:induction false} TokensOfJoin(sep: char, parts: seq<string>)
    requires forall i :: 0 <= i < |parts| ==> Word(sep, parts[i])
    ensures Tokens(sep, Join(sep, parts)) == parts
  {
    if |parts| == 1 {
      assert parts[0] + [] == parts[0];
      TokensOfWord(sep, parts[0], []);
    } else if parts != [] {
      var rest := [sep] + Join(sep, parts[1..]);
      assert Join(sep, parts) == parts[0] + rest;
      TokensOfWord(sep, parts[0], rest);
      assert rest[1..] == Join(sep, parts[1..]);
      TokensOfJoin(sep, parts[1..]);
    }
  }

  lemma {:induction false} RunAcross(sep: char, s: string, rest: string)
    ensures Run(sep, s + [sep] + rest) == Run(sep, s)
  {
    if s != [] && s[0] != sep {
      assert (s + [sep] + rest)[1..] == s[1..] + [sep] + rest;
      RunAcross(sep, s[1..], rest);
    }
  }

  /** Each separator splits; with `TokensOfWord` this determines all tokens. */
  lemma {:induction false} TokensSplit(sep: char, s: string, rest: string)
    ensures Tokens(sep, s + [sep] + rest) == Tokens(sep, s) + Tokens(sep, rest)
    decreases |s|
  {
    var all := s + [sep] + rest;
    if s == [] {
      assert all[0] == sep && all[1..] == rest;
    } else if s[0] == sep {
      assert all[1..] == s[1..] + [sep] + rest;
      TokensSplit(sep, s[1..], rest);
    } else {
      var n := Run(sep, s);
      RunAcross(sep, s, rest);
      assert n > 0 && all[..n] == s[..n] && all[n..] == s[n..] + [sep] + rest;
      TokensSplit(sep, s[n..], rest);
    }
  }

  /** Every token is a non-empty word. */
  lemma {:induction false} TokensAreWords(sep: char, s: string)
    ensures forall i :: 0 <= i < |Tokens(sep, s)| ==> Word(sep, Tokens(sep, s)[i])
    decreases |s|
  {
    if s != [] {
      TokensAreWords(sep, if s[0] == sep then s[1..] else s[Run(sep, s)..]);
    }
  }

  /** A path of one component names that component. */
  lemma OneComponent(name: string)
    requires Word('/', name)
    ensures Tokens('/', "/" + name) == [name]
  {
    assert ("/" + name)[1..] == name;
    assert name + [] == name;
    TokensOfWord('/', name, []);
  }

  lemma {:induction false} JoinSnoc(sep: char, parts: seq<string>, part: string)
    ensures Join(sep, parts + [part]) == Join(sep, parts) + (if parts == [] then [] else [sep]) + part
  {
    if |parts| == 1 {
      assert (parts + [part])[1..] == [part];
    } else if parts != [] {
      assert (parts + [part])[1..] == parts[1..] + [part];
      JoinSnoc(sep, parts[1..], part);
    }
  }

  // ---------------------------------------------------------------- the tree

  /** Reading past the end of the image reads nothing, and leaves the buffer as it was. */
  function Read(s: State, b: nat, buffer: Block): Block {
    if b < |s.disk| then s.disk[b] else buffer
  }

  /** The second and third words of a block, an inode's `parent` and `meta`. */
  function Parent(b: Block): nat {
    match b
    case Inode(_, parent, _, _, _) => parent
    case Super(sb) => sb.blks
    case _ => 0
  }

  function Meta(b: Block): nat {
    match b
    case Inode(_, _, meta, _, _) => meta
    case Super(sb) => sb.blksz
    case _ => 0
  }

  function Name(b: Block): string { if b.NodeInfo? then b.name else "" }

  datatype Entry = Entry(name: string, dir: bool) {
    function Text(): string { if dir then name + "/" else name }
  }

  /** The buffers that one listing reads all its entries into. */
  datatype Buffers = Buffers(inode: Block, info: Block)

  const EMPTY := Buffers(Raw, Raw)

  /** Follow a link to its inode, where a child inode stands for its first inode, and to its metadata. */
  function Search(s: State, link: nat, buffers: Buffers): Buffers {
    var first := Read(s, link, buffers.inode);
    var inode := if FirstWord(first) == IMCHILD then Read(s, Parent(first), first) else first;
    Buffers(inode, Read(s, Meta(inode), buffers.info))
  }

  function Shown(buffers: Buffers): Entry {
    Entry(Name(buffers.info), FirstWord(buffers.inode) == IMDIR)
  }

  function EntryAt(s: State, link: nat): Entry { Shown(Search(s, link, EMPTY)) }

  /** The root's inode and its metadata are where formatting put them. */
  predicate HasRoot(s: State) {
    && |s.disk| > 3 && s.sb.root == ROOT
    && s.disk[ROOT_INFO].NodeInfo? && s.disk[ROOT].Inode? && s.disk[ROOT_INFO].size <= |s.disk[ROOT].links|
  }

  function Size(s: State): nat
    requires HasRoot(s)
  {
    s.disk[ROOT_INFO].size
  }

  function Links(s: State): seq<nat>
    requires HasRoot(s)
  {
    s.disk[ROOT].links[..Size(s)]
  }

  function EntriesOf(s: State, links: seq<nat>, buffers: Buffers): (es: seq<Entry>)
    ensures |es| == |links|
    decreases |links|
  {
    if links == [] then []
    else
      var next := Search(s, links[0], buffers);
      [Shown(next)] + EntriesOf(s, links[1..], next)
  }

  /** What the entries leave in the buffers. */
  function Leftover(s: State, links: seq<nat>, buffers: Buffers): Buffers
    decreases |links|
  {
    if links == [] then buffers else Leftover(s, links[1..], Search(s, links[0], buffers))
  }

  function Entries(s: State): seq<Entry>
    requires HasRoot(s)
  {
    EntriesOf(s, Links(s), EMPTY)
  }

  function Texts(es: seq<Entry>): (ts: seq<string>)
    ensures |ts| == |es| && forall k :: 0 <= k < |es| ==> ts[k] == es[k].Text()
  {
    if es == [] then [] else [es[0].Text()] + Texts(es[1..])
  }

  /** What listing the root returns. */
  function Listing(s: State): string
    requires HasRoot(s)
  {
    Join(' ', Texts(Entries(s)))
  }

  /** Making a directory in the root. The root was read before any block was taken. */
  function Mkdir(s: State, name: string): State
    requires Inv(s) && HasRoot(s) && Size(s) < |s.disk[ROOT].links|
  {
    GetOk(s);
    var info, root := s.disk[ROOT_INFO], s.disk[ROOT];
    var blockInfo := GetBlock(s);
    var s1 := Write(AfterGet(s), blockInfo, NodeInfo(0, name));
    FirstGet(s, name);
    var blockInode := GetBlock(s1);
    var s2 := Write(AfterGet(s1), blockInode, Inode(IMDIR, blockInode, blockInfo, 0, seq(|root.links|, _ => 0)));
    var s3 := Write(s2, ROOT_INFO, info.(size := info.size + 1));
    var s4 := Write(s3, ROOT, root.(links := root.links[info.size := blockInode]));
    Write(s4, 0, Super(s4.sb))
  }

  /** Enough to take the second block. */
  lemma FirstGet(s: State, name: string)
    requires Inv(s)
    ensures GetBlock(s) < |s.disk| && (s.sb.freeblks > 0 ==> s.sb.freelist < |s.disk|)
    ensures var s1 := Write(AfterGet(s), GetBlock(s), NodeInfo(0, name));
      && (s1.sb.freeblks > 0 ==> s1.sb.freelist < |s.disk|) && GetBlock(s1) < |s.disk|
      && (GetBlock(s) != 0 ==> Inv(s1) && FreeList(s1) == FreeList(s)[1..])
  {
    GetOk(s);
    var t := AfterGet(s);
    if s.sb.freeblks > 0 {
      assert FreeList(s) == [GetBlock(s)] + FreeList(t);
      WriteOk(t, GetBlock(s), NodeInfo(0, name));
      GetOk(Write(t, GetBlock(s), NodeInfo(0, name)));
    }
  }

  // ---------------------------------------------------------------- the tree and the free list

  /** A block that belongs to neither the allocator nor the root. */
  predicate Used(s: State, b: nat) { 3 <= b < |s.disk| && b !in FreeList(s) }

  /** A link leads to an inode with metadata, directly or through a child inode, all in used blocks. */
  predicate EntryOk(s: State, link: nat) {
    && Used(s, link) && s.disk[link].Inode?
    && (s.disk[link].mode == IMCHILD ==> Used(s, s.disk[link].parent) && s.disk[s.disk[link].parent].Inode?)
    && Used(s, Meta(Search(s, link, EMPTY).inode)) && s.disk[Meta(Search(s, link, EMPTY).inode)].NodeInfo?
  }

  ghost predicate TreeInv(s: State) {
    && Inv(s) && HasRoot(s)
    && forall k :: 0 <= k < Size(s) ==> EntryOk(s, Links(s)[k])
  }

  /** There is space for `n` more directories. */
  ghost predicate Room(s: State, n: nat) {
    TreeInv(s) && Size(s) + n <= |s.disk[ROOT].links| && 2 * n <= s.sb.freeblks
  }

  /** The used blocks of `s` are still used, with the same contents. */
  ghost predicate Keeps(s: State, t: State) {
    && |t.disk| == |s.disk|
    && (forall b: nat :: Used(s, b) ==> Used(t, b) && t.disk[b] == s.disk[b])
  }

  /** A sound entry is read whole: nothing of an earlier one shows through. */
  lemma EntryIsOwn(s: State, link: nat, buffers: Buffers)
    requires EntryOk(s, link)
    ensures Search(s, link, buffers) == Search(s, link, EMPTY)
  {
  }

  lemma EntryKept(s: State, t: State, link: nat)
    requires Keeps(s, t) && EntryOk(s, link)
    ensures EntryOk(t, link) && Search(t, link, EMPTY) == Search(s, link, EMPTY)
  {
    assert Used(s, link);
    if s.disk[link].mode == IMCHILD {
      assert Used(s, s.disk[link].parent);
    }
    assert Search(t, link, EMPTY).inode == Search(s, link, EMPTY).inode;
    assert Used(s, Meta(Search(s, link, EMPTY).inode));
  }

  lemma {:induction false} EntriesKept(s: State, t: State, links: seq<nat>, buffers: Buffers)
    requires Keeps(s, t) && forall k :: 0 <= k < |links| ==> EntryOk(s, links[k])
    ensures EntriesOf(t, links, buffers) == EntriesOf(s, links, buffers)
    ensures forall k :: 0 <= k < |links| ==> EntryOk(t, links[k])
    decreases |links|
  {
    if links != [] {
      EntryKept(s, t, links[0]);
      EntryIsOwn(s, links[0], buffers);
      EntryIsOwn(t, links[0], buffers);
      EntriesKept(s, t, links[1..], Search(s, links[0], buffers));
      assert forall k :: 0 < k < |links| ==> links[k] == links[1..][k - 1];
    }
  }

  /** What making a directory does to the blocks when two are free. */
  ghost predicate Made(s: State, t: State, name: string)
    requires HasRoot(s) && |FreeList(s)| >= 2
  {
    var a, b, links := FreeList(s)[0], FreeList(s)[1], s.disk[ROOT].links;
    && |t.disk| == |s.disk| && a < |s.disk| && b < |s.disk| && Size(s) < |links|
    && t.disk[a] == NodeInfo(0, name)
    && t.disk[b] == Inode(IMDIR, b, a, 0, seq(|links|, _ => 0))
    && t.disk[ROOT_INFO] == s.disk[ROOT_INFO].(size := Size(s) + 1)
    && t.disk[ROOT] == s.disk[ROOT].(links := links[Size(s) := b])
    && (forall c :: 3 <= c < |s.disk| && c != a && c != b ==> t.disk[c] == s.disk[c])
  }

  lemma FirstTwo(s: State)
    requires Inv(s) && s.sb.freeblks >= 2
    ensures |FreeList(s)| >= 2 && FreeList(s)[0] != FreeList(s)[1]
    ensures 3 <= FreeList(s)[0] < |s.disk| && 3 <= FreeList(s)[1] < |s.disk|
    ensures FreeList(s)[0] !in FreeList(s)[1..] && FreeList(s)[1] !in FreeList(s)[2..]
  {
  }

  /** One block taken and written. */
  lemma TakeAndWrite(s: State, block: Block)
    requires Inv(s) && s.sb.freeblks > 0
    ensures GetBlock(s) == FreeList(s)[0] && 3 <= GetBlock(s) < |s.disk| && s.sb.freelist < |s.disk|
    ensures var t := Write(AfterGet(s), GetBlock(s), block);
      && Inv(t) && FreeList(t) == FreeList(s)[1..] && t.sb.freeblks == s.sb.freeblks - 1
      && t.disk[GetBlock(s)] == block
      && forall c :: 0 < c < |s.disk| && c != GetBlock(s) ==> t.disk[c] == s.disk[c]
  {
    GetOk(s);
    assert FreeList(s) == [GetBlock(s)] + FreeList(AfterGet(s));
    WriteOk(AfterGet(s), GetBlock(s), block);
  }

  lemma Rewrite(s: State, b: nat, block: Block)
    requires Inv(s) && (b == ROOT || b == ROOT_INFO)
    ensures Inv(Write(s, b, block)) && FreeList(Write(s, b, block)) == FreeList(s)
  {
    assert forall i :: 0 <= i < |FreeList(s)| ==> FreeList(s)[i] != b;
    WriteOk(s, b, block);
  }

  lemma MkdirBlocks(s: State, name: string)
    requires Inv(s) && HasRoot(s) && Size(s) < |s.disk[ROOT].links| && s.sb.freeblks >= 2
    ensures Made(s, Mkdir(s, name), name)
    ensures Inv(Mkdir(s, name)) && FreeList(Mkdir(s, name)) == FreeList(s)[2..]
    ensures Mkdir(s, name).sb.freeblks == s.sb.freeblks - 2
  {
    FirstTwo(s);
    var info, root := s.disk[ROOT_INFO], s.disk[ROOT];
    var a := GetBlock(s);
    TakeAndWrite(s, NodeInfo(0, name));
    var s1 := Write(AfterGet(s), a, NodeInfo(0, name));
    var b := GetBlock(s1);
    var inode := Inode(IMDIR, b, a, 0, seq(|root.links|, _ => 0));
    TakeAndWrite(s1, inode);
    var s2 := Write(AfterGet(s1), b, inode);
    var s3 := Write(s2, ROOT_INFO, info.(size := info.size + 1));
    Rewrite(s2, ROOT_INFO, info.(size := info.size + 1));
    Rewrite(s3, ROOT, root.(links := root.links[info.size := b]));
    var s4 := Write(s3, ROOT, root.(links := root.links[info.size := b]));
    assert s4.disk[0 := Super(s4.sb)] == s4.disk;
    assert Mkdir(s, name) == s4;
  }

  lemma MadeKeeps(s: State, t: State, name: string)
    requires Inv(s) && HasRoot(s) && s.sb.freeblks >= 2 && Made(s, t, name) && FreeList(t) == FreeList(s)[2..]
    ensures Keeps(s, t)
  {
    forall c: nat | Used(s, c) ensures Used(t, c) && t.disk[c] == s.disk[c] {
      assert FreeList(s)[0] in FreeList(s) && FreeList(s)[1] in FreeList(s);
    }
  }

  /** With two blocks free and room for a link, the root gains a directory at the end; every earlier
      entry is as it was, and the two blocks come off the head of the free list. */
  lemma MkdirOk(s: State, name: string)
    requires Room(s, 1)
    ensures TreeInv(Mkdir(s, name))
    ensures Entries(Mkdir(s, name)) == Entries(s) + [Entry(name, true)]
    ensures FreeList(Mkdir(s, name)) == FreeList(s)[2..] && Mkdir(s, name).sb.freeblks == s.sb.freeblks - 2
    ensures Keeps(s, Mkdir(s, name)) && |Mkdir(s, name).disk[ROOT].links| == |s.disk[ROOT].links|
    ensures forall n: nat :: Room(s, n + 1) ==> Room(Mkdir(s, name), n)
  {
    var t := Mkdir(s, name);
    MkdirBlocks(s, name);
    FirstTwo(s);
    MadeKeeps(s, t, name);
    EntriesKept(s, t, Links(s), EMPTY);
    var b := FreeList(s)[1];
    assert Links(t) == Links(s) + [b];
    NewEntryOk(s, t, name);
    EntryIsOwn(t, b, Leftover(t, Links(s), EMPTY));
    EntriesSnoc(t, Links(s), b, EMPTY);
  }

  /** The listing grows by a space, if it was not empty, and the new name with a slash. */
  lemma MkdirListing(s: State, name: string)
    requires Room(s, 1)
    ensures HasRoot(Mkdir(s, name))
    ensures Listing(Mkdir(s, name)) == Listing(s) + (if Entries(s) == [] then "" else " ") + name + "/"
  {
    MkdirOk(s, name);
    TextsSnoc(Entries(s), Entry(name, true));
    JoinSnoc(' ', Texts(Entries(s)), name + "/");
  }

  lemma NewEntryOk(s: State, t: State, name: string)
    requires Inv(s) && HasRoot(s) && s.sb.freeblks >= 2 && Made(s, t, name) && FreeList(t) == FreeList(s)[2..]
    ensures EntryOk(t, FreeList(s)[1]) && EntryAt(t, FreeList(s)[1]) == Entry(name, true)
  {
    FirstTwo(s);
    var a := FreeList(s)[0];
    assert a !in FreeList(s)[2..] by {
      assert forall c :: c in FreeList(s)[2..] ==> c in FreeList(s)[1..];
    }
  }

  lemma {:induction false} EntriesSnoc(s: State, links: seq<nat>, link: nat, buffers: Buffers)
    ensures EntriesOf(s, links + [link], buffers)
      == EntriesOf(s, links, buffers) + [Shown(Search(s, link, Leftover(s, links, buffers)))]
    ensures Leftover(s, links + [link], buffers) == Search(s, link, Leftover(s, links, buffers))
    decreases |links|
  {
    if links != [] {
      assert (links + [link])[1..] == links[1..] + [link];
      EntriesSnoc(s, links[1..], link, Search(s, links[0], buffers));
    } else {
      assert [] + [link] == [link];
    }
  }

  lemma {:induction false} TextsSnoc(es: seq<Entry>, e: Entry)
    ensures Texts(es + [e]) == Texts(es) + [e.Text()]
  {
    if es != [] {
      assert (es + [e])[1..] == es[1..] + [e];
      TextsSnoc(es[1..], e);
    }
  }

  // ---------------------------------------------------------------- the listing, on the disk's blocks

  /** The block of the first inode of the root's entry `k`. */
  function Home(s: State, k: nat): nat
    requires HasRoot(s) && k < Size(s) && EntryOk(s, s.disk[ROOT].links[k])
  {
    var link := s.disk[ROOT].links[k];
    if s.disk[link].mode == 4 then s.disk[link].parent else link
  }

  /** An entry's text: the name in its metadata and, if its inode's mode word is 2, a slash. */
  function TextOnDisk(s: State, k: nat): string
    requires HasRoot(s) && k < Size(s) && EntryOk(s, s.disk[ROOT].links[k])
  {
    var inode := s.disk[Home(s, k)];
    s.disk[inode.meta].name + if inode.mode == 2 then "/" else ""
  }

  /** Files and directories alike have names that a listing can be split into. */
  ghost predicate Listable(s: State) {
    TreeInv(s) && forall k :: 0 <= k < Size(s) ==>
      EntryOk(s, s.disk[ROOT].links[k]) && s.disk[s.disk[Home(s, k)].meta].NodeInfo?
      && Word(' ', s.disk[s.disk[Home(s, k)].meta].name)
  }

  lemma EntryText(s: State, k: nat)
    requires TreeInv(s) && k < Size(s)
    ensures EntryOk(s, s.disk[ROOT].links[k])
    ensures EntryAt(s, s.disk[ROOT].links[k]).Text() == TextOnDisk(s, k)
  {
    assert s.disk[ROOT].links[k] == Links(s)[k];
  }

  lemma {:induction false} EntriesAreOwn(s: State, links: seq<nat>, buffers: Buffers)
    requires forall k :: 0 <= k < |links| ==> EntryOk(s, links[k])
    ensures forall k :: 0 <= k < |links| ==> EntriesOf(s, links, buffers)[k] == EntryAt(s, links[k])
    decreases |links|
  {
    if links != [] {
      EntryIsOwn(s, links[0], buffers);
      EntriesAreOwn(s, links[1..], Search(s, links[0], buffers));
      assert forall k :: 0 < k < |links| ==> links[k] == links[1..][k - 1];
    }
  }

  /** Splitting the listing at its spaces gives each entry's name, with a slash on exactly the
      directories. */
  lemma ListingOnDisk(s: State)
    requires Listable(s)
    ensures var tokens := Tokens(' ', Listing(s));
      |tokens| == Size(s) && forall k :: 0 <= k < Size(s) ==> tokens[k] == TextOnDisk(s, k)
  {
    EntriesAreOwn(s, Links(s), EMPTY);
    var texts := Texts(Entries(s));
    forall k | 0 <= k < Size(s) ensures texts[k] == TextOnDisk(s, k) && Word(' ', texts[k]) {
      EntryText(s, k);
      assert Links(s)[k] == s.disk[ROOT].links[k];
    }
    TokensOfJoin(' ', texts);
  }

  // ---------------------------------------------------------------- when it does not work

  /** With fewer than two free blocks the new link is 0, the superblock, which is no directory. */
  lemma MkdirFull(s: State, name: string)
    requires TreeInv(s) && Size(s) < |s.disk[ROOT].links| && s.sb.freeblks < 2
    ensures var t := Mkdir(s, name);
      && HasRoot(t) && Size(t) == Size(s) + 1 && Links(t) == Links(s) + [0] && !EntryOk(t, 0)
      && !Entries(t)[Size(s)].dir
  {
    FirstGet(s, name);
    GetOk(s);
    var s1 := Write(AfterGet(s), GetBlock(s), NodeInfo(0, name));
    assert s1.sb.freeblks == 0;
    var t := Mkdir(s, name);
    assert Links(t) == Links(s) + [0];
    EntriesSnoc(t, Links(s), 0, EMPTY);
  }

  /** Making a directory never reports an error, and does make one exactly when two blocks are free. */
  lemma MkdirWorksIff(s: State, name: string)
    requires TreeInv(s) && Size(s) < |s.disk[ROOT].links|
    ensures HasRoot(Mkdir(s, name))
    ensures s.sb.freeblks >= 2 <==> Entries(Mkdir(s, name)) == Entries(s) + [Entry(name, true)]
    ensures s.sb.freeblks >= 2 <==> TreeInv(Mkdir(s, name))
  {
    if s.sb.freeblks >= 2 {
      MkdirOk(s, name);
    } else {
      MkdirFull(s, name);
      var t := Mkdir(s, name);
      assert EntryOk(t, Links(t)[Size(s)]) <==> EntryOk(t, 0);
    }
  }

  /** No two entries have the same name. */
  predicate UniqueNames(es: seq<Entry>) {
    forall i, j :: 0 <= i < j < |es| ==> es[i].name != es[j].name
  }

  /** The name is never looked for: names stay different exactly when they were and the new one, as a
      directory's or a file's, was not there. */
  lemma UniqueNamesIff(s: State, name: string)
    requires Room(s, 1)
    ensures HasRoot(Mkdir(s, name))
    ensures UniqueNames(Entries(Mkdir(s, name)))
      <==> UniqueNames(Entries(s)) && forall k :: 0 <= k < |Entries(s)| ==> Entries(s)[k].name != name
  {
    MkdirOk(s, name);
    var es, more := Entries(s), Entries(Mkdir(s, name));
    assert more[|es|].name == name && forall k :: 0 <= k < |es| ==> more[k] == es[k];
  }

  // ---------------------------------------------------------------- many directories

  ghost function MkdirAll(s: State, names: seq<string>): State
    requires Room(s, |names|)
    decreases |names|
  {
    if names == [] then s else
      MkdirOk(s, names[0]);
      MkdirAll(Mkdir(s, names[0]), names[1..])
  }

  function Dirs(names: seq<string>): (es: seq<Entry>)
    ensures |es| == |names| && forall k :: 0 <= k < |names| ==> es[k] == Entry(names[k], true)
  {
    if names == [] then [] else [Entry(names[0], true)] + Dirs(names[1..])
  }

  lemma {:induction false} MkdirAllOk(s: State, names: seq<string>)
    requires Room(s, |names|)
    ensures TreeInv(MkdirAll(s, names)) && MkdirAll(s, names).sb.freeblks == s.sb.freeblks - 2 * |names|
    ensures Entries(MkdirAll(s, names)) == Entries(s) + Dirs(names)
    ensures |MkdirAll(s, names).disk[ROOT].links| == |s.disk[ROOT].links|
    decreases |names|
  {
    if names == [] {
      assert Entries(s) + [] == Entries(s);
    } else {
      MkdirOk(s, names[0]);
      MkdirAllOk(Mkdir(s, names[0]), names[1..]);
      Sequences.Assoc(Entries(s), [Entry(names[0], true)], Dirs(names[1..]));
    }
  }

  /** Directories made in an empty root are listed, each with its slash, in the order they were made:
      splitting the listing at its spaces gives them back. */
  lemma ListingOfAll(s: State, names: seq<string>)
    requires Room(s, |names|) && Entries(s) == []
    requires forall k :: 0 <= k < |names| ==> Word('/', names[k]) && Word(' ', names[k])
    ensures TreeInv(MkdirAll(s, names))
    ensures Tokens(' ', Listing(MkdirAll(s, names))) == Texts(Dirs(names))
  {
    MkdirAllOk(s, names);
    assert [] + Dirs(names) == Dirs(names);
    forall k | 0 <= k < |names| ensures Word(' ', Texts(Dirs(names))[k]) {
      assert Texts(Dirs(names))[k] == names[k] + "/";
    }
    TokensOfJoin(' ', Texts(Dirs(names)));
  }

  /** The root itself is a directory named "/", its own parent, at the place the superblock says. */
  lemma FormatRoot(blocks: nat, blocksize: nat)
    requires MIN_BLOCK_COUNT <= blocks
    ensures var s := Formatted(blocks, blocksize); var root := s.sb.root;
      && EntryAt(s, root) == Entry("/", true) && root < |s.disk| && Parent(s.disk[root]) == root
      && Meta(s.disk[root]) == ROOT_INFO && s.disk[root].next == 0
  {
  }

  /** A new file system has an empty root, with space for as many directories as links fit in a block
      and pairs of blocks are free. */
  lemma FormatTree(blocks: nat, blocksize: nat, n: nat)
    requires MIN_BLOCK_COUNT <= blocks
    ensures TreeInv(Formatted(blocks, blocksize)) && Entries(Formatted(blocks, blocksize)) == []
    ensures Room(Formatted(blocks, blocksize), n) <==> n <= Capacity(blocksize) && 2 * n <= blocks - 3
    ensures |Formatted(blocks, blocksize).disk[ROOT].links| == Capacity(blocksize)
    ensures Formatted(blocks, blocksize).sb.freeblks == blocks - 3
  {
    FormatOk(blocks, blocksize);
  }

  // ---------------------------------------------------------------- errors that are not reported

  /** On any new file system the same name can be made twice. */
  lemma SameNameTwice(blocks: nat, blocksize: nat, name: string)
    requires MIN_BLOCK_COUNT <= blocks && MIN_BLOCK_SIZE <= blocksize
    ensures Room(Formatted(blocks, blocksize), |[name, name]|)
    ensures HasRoot(MkdirAll(Formatted(blocks, blocksize), [name, name]))
    ensures Entries(MkdirAll(Formatted(blocks, blocksize), [name, name])) == [Entry(name, true), Entry(name, true)]
  {
    FormatTree(blocks, blocksize, 2);
    MkdirAllOk(Formatted(blocks, blocksize), [name, name]);
    var dirs := Dirs([name, name]);
    assert dirs[0] == dirs[1] == Entry(name, true);
    assert [] + dirs == dirs == [Entry(name, true), Entry(name, true)];
  }

  /** Once directories have used up all pairs of blocks, and while there is room for a link, the next one
      breaks the tree. */
  lemma DiskFillsUp(blocks: nat, blocksize: nat, names: seq<string>, name: string)
    requires MIN_BLOCK_COUNT <= blocks && |names| == (blocks - 3) / 2 < Capacity(blocksize)
    ensures Room(Formatted(blocks, blocksize), |names|)
    ensures var t := MkdirAll(Formatted(blocks, blocksize), names);
      && TreeInv(t) && t.sb.freeblks < 2 && Size(t) < |t.disk[ROOT].links|
      && HasRoot(Mkdir(t, name)) && !TreeInv(Mkdir(t, name))
  {
    var s := Formatted(blocks, blocksize);
    FormatTree(blocks, blocksize, |names|);
    MkdirAllOk(s, names);
    var t := MkdirAll(s, names);
    assert |Entries(t)| == |names|;
    MkdirWorksIff(t, name);
  }

  /** Fourteen directories do so on the smallest number of blocks. */
  lemma FourteenFill(name: string)
    ensures Room(Formatted(32, 512), |seq(14, _ => "d")|)
    ensures var t := MkdirAll(Formatted(32, 512), seq(14, _ => "d"));
      TreeInv(t) && t.sb.freeblks == 1 && Size(t) < |t.disk[ROOT].links| && !TreeInv(Mkdir(t, name))
  {
    DiskFillsUp(32, 512, seq(14, _ => "d"), name);
    MkdirAllOk(Formatted(32, 512), seq(14, _ => "d"));
  }
}
