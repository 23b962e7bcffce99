/** Size-based rotation of a log over numbered files: the newest is file 0, and opening a new one moves
    each file up by one. A file is the list of lines written to it, one for each call. */
module Rotation {
  const LINEBUF := 1024
  const TWO_31 := 0x8000_0000
  const TWO_32 := 0x1_0000_0000

  /** By number; a number that overflowed is negative. */
  type Files = map<int, seq<string>>

  /** What formatting into a fixed buffer leaves of a message. */
  function Line(msg: string): (line: string)
    ensures line <= msg && |line| == if |msg| < LINEBUF - 1 then |msg| else LINEBUF - 1
  {
    if |msg| < LINEBUF then msg else msg[..LINEBUF - 1]
  }

  function Bytes(lines: seq<string>): nat {
    if lines == [] then 0 else |lines[0]| + Bytes(lines[1..])
  }

  /** Where the renaming starts: `nbackups - 2`, computed without sign in 32 bits and stored signed. */
  function First(nbackups: nat): (i: int)
    requires nbackups < TWO_32
    ensures i >= 0 <==> 2 <= nbackups <= TWO_31 + 1
    ensures i >= 0 ==> i == nbackups - 2
  {
    var u := (nbackups + TWO_32 - 2) % TWO_32;
    if u < TWO_31 then u else u - TWO_32
  }

  /** How many places the renaming loop visits. */
  function Moves(nbackups: nat): (k: nat)
    requires nbackups < TWO_32
    ensures 2 <= nbackups <= TWO_31 + 1 ==> k == nbackups - 1
    ensures nbackups < 2 || nbackups > TWO_31 + 1 ==> k == 0
  {
    if First(nbackups) < 0 then 0 else First(nbackups) + 1
  }

  /** The number after `i`, in 32 bits with sign. */
  function Above(i: int): int {
    if i == TWO_31 - 1 then -TWO_31 else i + 1
  }

  /** How many files the rotation keeps: the ones it moves, and the last place they move to if that
      has a number. */
  function Slots(nbackups: nat): (m: nat)
    requires nbackups < TWO_32
    ensures 1 <= nbackups <= TWO_31 ==> m == nbackups
    ensures nbackups == TWO_31 + 1 ==> m == TWO_31
    ensures nbackups == 0 || nbackups > TWO_31 + 1 ==> m == 1
  {
    var k := Moves(nbackups);
    if k < TWO_31 then k + 1 else k
  }

  function Rename(files: Files, i: int, j: int): Files
    requires i in files
  {
    (files - {i})[j := files[i]]
  }

  /** File `i` moved up by one, if it exists. */
  function MoveOne(files: Files, i: int): Files {
    if i in files then Rename(files, i, Above(i)) else files
  }

  /** Files `k - 1` down to 0, those that exist, each moved up by one. */
  function Shift(files: Files, k: nat): Files
    decreases k
  {
    if k == 0 then files else Shift(MoveOne(files, k - 1), k - 1)
  }

  datatype Log = Log(nbackups: nat, maxsize: nat, files: Files, open: bool, flock: bool)

  predicate Valid(s: Log) {
    s.nbackups < TWO_32 && s.maxsize > 0 && (s.open ==> 0 in s.files)
  }

  /** A new file is due. */
  predicate Due(s: Log)
    requires Valid(s)
  {
    !(s.flock && s.open) && (!s.open || Bytes(s.files[0]) > s.maxsize)
  }

  /** Move the files up and open a new file 0, unless that fails. */
  function OpenNew(s: Log, opens: bool): Log
    requires Valid(s)
  {
    var files := Shift(s.files, Moves(s.nbackups));
    s.(files := if opens then files[0 := []] else files, open := opens)
  }

  function Append(s: Log, line: string): Log
    requires 0 in s.files
  {
    s.(files := s.files[0 := s.files[0] + [line]])
  }

  /** Printing a message; `opens` says whether a new file, if one is due, can be opened. */
  function Print(s: Log, msg: string, opens: bool): Log
    requires Valid(s)
  {
    var t := if Due(s) then OpenNew(s, opens) else s;
    if t.open then Append(t, Line(msg)) else t
  }

  predicate Written(s: Log, opens: bool)
    requires Valid(s)
  {
    opens || !Due(s)
  }

  // ---------------------------------------------------------------- what one rotation does

  function Get(files: Files, k: int): seq<string> { if k in files then files[k] else [] }

  /** The lines of files `m - 1` down to 0, oldest first. */
  function Concat(files: Files, m: nat): seq<string> {
    if m == 0 then [] else Get(files, m - 1) + Concat(files, m - 1)
  }

  lemma {:induction false} ConcatSame(f: Files, g: Files, m: nat)
    requires forall k :: 0 <= k < m ==> Get(f, k) == Get(g, k)
    ensures Concat(f, m) == Concat(g, m)
  {
    if m > 0 { ConcatSame(f, g, m - 1); }
  }

  /** Moving files below the largest number changes none beyond the last place, and file 0 is gone if
      any was moved. */
  lemma {:induction false} ShiftKeeps(files: Files, k: nat)
    requires k < TWO_31
    ensures forall j :: j > k ==> (j in Shift(files, k) <==> j in files) && Get(Shift(files, k), j) == Get(files, j)
    ensures k > 0 ==> 0 !in Shift(files, k)
    decreases k
  {
    if k > 0 {
      ShiftKeeps(MoveOne(files, k - 1), k - 1);
    }
  }

  /** Nothing is lost when there is no file `k` for the first renaming to replace. */
  lemma {:induction false} ShiftLossless(files: Files, k: nat)
    requires k < TWO_31 && k !in files
    ensures Concat(Shift(files, k), k + 1) == Concat(files, k + 1)
    decreases k
  {
    if k > 0 {
      ShiftLossless(MoveOne(files, k - 1), k - 1);
      ShiftKeeps(MoveOne(files, k - 1), k - 1);
      MoveUp(files, k);
    }
  }

  /** The first renaming replaces file `k`, and otherwise only moves lines. */
  lemma MoveUp(files: Files, k: nat)
    requires 0 < k < TWO_31
    ensures Concat(MoveOne(files, k - 1), k + 1) == if k - 1 in files then Concat(files, k) else Concat(files, k + 1)
  {
    if k - 1 in files {
      var next := MoveOne(files, k - 1);
      ConcatSame(next, files, k - 1);
      assert Concat(next, k) == Concat(files, k - 1);
    }
  }

  /** A rotation loses exactly the oldest file, and that only if there is one to take its place. */
  lemma ShiftLoses(files: Files, k: nat)
    requires 0 < k < TWO_31
    ensures Concat(Shift(files, k), k + 1) == if k - 1 in files then Concat(files, k) else Concat(files, k + 1)
  {
    MoveUp(files, k);
    ShiftLossless(MoveOne(files, k - 1), k - 1);
    ShiftKeeps(MoveOne(files, k - 1), k - 1);
  }

  /** Over all the numbers there are, the file with the largest one goes to a negative number: it is
      lost to the log, and the file above it, if there is one, stays. */
  lemma ShiftOverflows(files: Files)
    ensures Concat(Shift(files, TWO_31), TWO_31) == Concat(files, TWO_31 - 1)
    ensures Get(Shift(files, TWO_31), TWO_31) == Get(files, TWO_31)
    ensures 0 !in Shift(files, TWO_31)
  {
    var k := TWO_31 - 1;
    var next := MoveOne(files, k);
    ConcatSame(next, files, k);
    ShiftLossless(next, k);
    ShiftKeeps(next, k);
  }

  // ---------------------------------------------------------------- whole runs

  datatype Action = Message(msg: string, opens: bool) | Lock | Unlock

  function Next(s: Log, a: Action): (t: Log)
    requires Valid(s)
    ensures Valid(t) && t.nbackups == s.nbackups && t.maxsize == s.maxsize
  {
    match a
    case Message(msg, opens) => Print(s, msg, opens)
    case Lock => s.(flock := true)
    case Unlock => s.(flock := false)
  }

  function Run(s: Log, acts: seq<Action>): (t: Log)
    requires Valid(s)
    ensures Valid(t) && t.nbackups == s.nbackups && t.maxsize == s.maxsize
    decreases |acts|
  {
    if acts == [] then s else Run(Next(s, acts[0]), acts[1..])
  }

  /** The line an action writes, if it does. */
  function Out(s: Log, a: Action): seq<string>
    requires Valid(s)
  {
    if a.Message? && Written(s, a.opens) then [Line(a.msg)] else []
  }

  /** All lines written by a run. */
  function Stream(s: Log, acts: seq<Action>): seq<string>
    requires Valid(s)
    decreases |acts|
  {
    if acts == [] then [] else Out(s, acts[0]) + Stream(Next(s, acts[0]), acts[1..])
  }

  ghost predicate Suffix(xs: seq<string>, ys: seq<string>) {
    |xs| <= |ys| && xs == ys[|ys| - |xs|..]
  }

  function Kept(s: Log): seq<string>
    requires Valid(s)
  {
    Concat(s.files, Slots(s.nbackups))
  }

  lemma SuffixOfConcat(pre: seq<string>, xs: seq<string>)
    ensures Suffix(xs, pre + xs)
  {
  }

  lemma SuffixSelf(xs: seq<string>)
    ensures Suffix(xs, xs) && Suffix(xs, xs + [])
  {
  }

  lemma SuffixNone(xs: seq<string>)
    ensures Suffix([], xs)
  {
  }

  lemma SuffixSnoc(xs: seq<string>, ys: seq<string>, zs: seq<string>)
    requires Suffix(xs, ys)
    ensures Suffix(xs + zs, ys + zs)
  {
  }

  lemma SuffixTrans(xs: seq<string>, ys: seq<string>, zs: seq<string>)
    requires Suffix(xs, ys) && Suffix(ys, zs)
    ensures Suffix(xs, zs)
  {
  }

  lemma ShiftKept(files: Files, nbackups: nat)
    requires nbackups < TWO_32
    ensures Suffix(Concat(Shift(files, Moves(nbackups)), Slots(nbackups)), Concat(files, Slots(nbackups)))
    ensures Moves(nbackups) > 0 ==> 0 !in Shift(files, Moves(nbackups))
  {
    var k, m := Moves(nbackups), Slots(nbackups);
    SuffixSelf(Concat(files, m));
    if 0 < k < TWO_31 {
      ShiftLoses(files, k);
      ShiftKeeps(files, k);
      SuffixOfConcat(Get(files, k), Concat(files, k));
    } else if k == TWO_31 {
      ShiftOverflows(files);
      SuffixOfConcat(Get(files, k - 1), Concat(files, k - 1));
    }
  }

  /** Opening a new file keeps all lines, or all but the oldest file's. */
  lemma OpenKept(s: Log, opens: bool)
    requires Valid(s)
    ensures Suffix(Kept(OpenNew(s, opens)), Kept(s))
  {
    var m := Slots(s.nbackups);
    var files := Shift(s.files, Moves(s.nbackups));
    ShiftKept(s.files, s.nbackups);
    if opens && Moves(s.nbackups) > 0 {
      ConcatSame(files, files[0 := []], m);
    } else if opens {
      assert Concat(files[0 := []], 1) == [];
      SuffixNone(Kept(s));
    }
  }

  lemma {:induction false} AppendKept(files: Files, line: string, m: nat)
    requires 0 in files && m > 0
    ensures Concat(files[0 := files[0] + [line]], m) == Concat(files, m) + [line]
  {
    if m > 1 {
      AppendKept(files, line, m - 1);
    }
  }

  lemma PrintKept(s: Log, msg: string, opens: bool)
    requires Valid(s)
    ensures Suffix(Kept(Print(s, msg, opens)), Kept(s) + if Written(s, opens) then [Line(msg)] else [])
  {
    var t := if Due(s) then OpenNew(s, opens) else s;
    assert Suffix(Kept(t), Kept(s)) by {
      OpenKept(s, opens);
      SuffixSelf(Kept(s));
    }
    if t.open {
      AppendKept(t.files, Line(msg), Slots(s.nbackups));
      SuffixSnoc(Kept(t), Kept(s), [Line(msg)]);
    } else {
      SuffixSnoc(Kept(t), Kept(s), []);
      assert Kept(t) + [] == Kept(t);
    }
  }

  lemma NextKept(s: Log, a: Action)
    requires Valid(s)
    ensures Suffix(Kept(Next(s, a)), Kept(s) + Out(s, a))
  {
    if a.Message? {
      PrintKept(s, a.msg, a.opens);
    } else {
      SuffixSelf(Kept(s));
    }
  }

  lemma SuffixChain(end: seq<string>, mid: seq<string>, start: seq<string>, out: seq<string>, rest: seq<string>)
    requires Suffix(end, mid + rest) && Suffix(mid, start + out)
    ensures Suffix(end, start + (out + rest))
  {
    SuffixSnoc(mid, start + out, rest);
    SuffixTrans(end, mid + rest, (start + out) + rest);
    assert (start + out) + rest == start + (out + rest);
  }

  /** Whatever is printed, locked and unlocked, and whichever files cannot be opened: the kept files,
      oldest first, are an unbroken end of what was there at the start and all that was written since. */
  lemma {:induction false} KeepsSuffix(s: Log, acts: seq<Action>)
    requires Valid(s)
    ensures Suffix(Kept(Run(s, acts)), Kept(s) + Stream(s, acts))
    decreases |acts|
  {
    if acts == [] {
      SuffixSelf(Kept(s));
    } else {
      var t := Next(s, acts[0]);
      KeepsSuffix(t, acts[1..]);
      NextKept(s, acts[0]);
      SuffixChain(Kept(Run(s, acts)), Kept(t), Kept(s), Out(s, acts[0]), Stream(t, acts[1..]));
    }
  }
}
