/** How large the files of a rotated log are, how much of the log is kept, and for which settings. */
module RotationRuns {
  import opened Rotation
  import Sequences

  // ---------------------------------------------------------------- where each file goes

  /** Where the file at place `j` after a rotation over `k` places came from: from below; failing
      that, at and above the last place, from where it is; and the place above the largest number is
      the smallest. */
  function Moved(files: Files, k: nat, j: int): (place: set<int>)
    ensures place <= files.Keys && |place| <= 1
  {
    if 1 <= j <= k && j < TWO_31 && j - 1 in files then {j - 1}
    else if j == -TWO_31 && k >= TWO_31 && TWO_31 - 1 in files then {TWO_31 - 1}
    else if (j >= k || j < 0) && j in files then {j}
    else {}
  }

  /** The descending renamings move every file at once. */
  lemma {:induction false} ShiftIs(files: Files, k: nat, j: int)
    requires k <= TWO_31
    ensures j in Shift(files, k) <==> Moved(files, k, j) != {}
    ensures forall i :: i in Moved(files, k, j) ==> j in Shift(files, k) && Shift(files, k)[j] == files[i]
    decreases k
  {
    if k > 0 {
      ShiftIs(MoveOne(files, k - 1), k - 1, j);
    }
  }

  lemma {:induction false} BytesSnoc(lines: seq<string>, line: string)
    ensures Bytes(lines + [line]) == Bytes(lines) + |line|
  {
    if lines == [] {
      assert [line][1..] == [];
    } else {
      assert (lines + [line])[1..] == lines[1..] + [line];
      BytesSnoc(lines[1..], line);
    }
  }

  lemma {:induction false} BytesConcat(xs: seq<string>, ys: seq<string>)
    ensures Bytes(xs + ys) == Bytes(xs) + Bytes(ys)
  {
    if xs == [] {
      assert xs + ys == ys;
    } else {
      assert (xs + ys)[1..] == xs[1..] + ys;
      BytesConcat(xs[1..], ys);
    }
  }

  // ---------------------------------------------------------------- sizes

  /** Where the files `start` are after an action: they are moved, and one is truncated. */
  ghost function Carried(s: Log, a: Action, start: set<int>): (places: set<int>)
    requires Valid(s)
  {
    if a.Message? && Due(s) then
      (set j | j in Shift(s.files, Moves(s.nbackups)) && Moved(s.files, Moves(s.nbackups), j) * start != {})
      - if a.opens then {0} else {}
    else start
  }

  /** Where they are after a run. */
  ghost function CarriedFar(s: Log, acts: seq<Action>, start: set<int>): set<int>
    requires Valid(s)
    decreases |acts|
  {
    if acts == [] then start else CarriedFar(Next(s, acts[0]), acts[1..], Carried(s, acts[0], start))
  }

  /** The files at the places `start` are older than the log, and have some of the contents `texts`; the
      open file is not one of them. */
  ghost predicate Older(s: Log, start: set<int>, texts: set<seq<string>>) {
    && (forall k :: k in start ==> k in s.files && s.files[k] in texts)
    && (s.open ==> 0 !in start)
  }

  lemma CarriedOlder(s: Log, a: Action, start: set<int>, texts: set<seq<string>>)
    requires Valid(s) && Older(s, start, texts)
    ensures Older(Next(s, a), Carried(s, a, start), texts)
  {
    var t := Next(s, a);
    forall k | k in Carried(s, a, start) ensures k in t.files && t.files[k] in texts {
      ShiftIs(s.files, Moves(s.nbackups), k);
    }
  }

  /** Every other file is the open one or larger than `maxsize`. */
  ghost predicate BackupsFull(s: Log, start: set<int>) {
    forall k <- s.files :: k in start || (k == 0 && s.open) || Bytes(s.files[k]) > s.maxsize
  }

  /** Every other file goes past `maxsize` by less than one line. */
  ghost predicate Bounded(s: Log, start: set<int>) {
    forall k <- s.files :: k in start || Bytes(s.files[k]) < s.maxsize + LINEBUF
  }

  lemma PrintFull(s: Log, msg: string, opens: bool, start: set<int>)
    requires Valid(s) && BackupsFull(s, start)
    ensures BackupsFull(Print(s, msg, opens), Carried(s, Message(msg, opens), start))
  {
    if Due(s) {
      var t := Print(s, msg, opens);
      forall j <- t.files
        ensures j in Carried(s, Message(msg, opens), start) || (j == 0 && t.open) || Bytes(t.files[j]) > t.maxsize
      {
        ShiftIs(s.files, Moves(s.nbackups), j);
        if i :| i in Moved(s.files, Moves(s.nbackups), j) { assert i in s.files; }
      }
    }
  }

  lemma PrintBounded(s: Log, msg: string, opens: bool, start: set<int>)
    requires Valid(s) && Bounded(s, start) && (s.open ==> 0 !in start) && !s.flock
    ensures Bounded(Print(s, msg, opens), Carried(s, Message(msg, opens), start))
  {
    var t := if Due(s) then OpenNew(s, opens) else s;
    if t.open { BytesSnoc(t.files[0], Line(msg)); }
    var u := Print(s, msg, opens);
    forall j <- u.files
      ensures j in Carried(s, Message(msg, opens), start) || Bytes(u.files[j]) < u.maxsize + LINEBUF
    {
      ShiftIs(s.files, Moves(s.nbackups), j);
      if i :| i in Moved(s.files, Moves(s.nbackups), j) { assert i in s.files; }
    }
  }

  /** Every file the log itself has filled, and is not writing to, is larger than `maxsize`; and without
      the file lock none goes past it by a whole line. */
  lemma {:induction false} SizesOfRun(s: Log, acts: seq<Action>, start: set<int>, texts: set<seq<string>>)
    requires Valid(s) && Older(s, start, texts) && BackupsFull(s, start)
    ensures BackupsFull(Run(s, acts), CarriedFar(s, acts, start))
    ensures Older(Run(s, acts), CarriedFar(s, acts, start), texts)
    ensures Bounded(s, start) && !s.flock && Lock !in acts ==> Bounded(Run(s, acts), CarriedFar(s, acts, start))
    decreases |acts|
  {
    if acts != [] {
      var a, t := acts[0], Next(s, acts[0]);
      CarriedOlder(s, a, start, texts);
      if a.Message? {
        PrintFull(s, a.msg, a.opens, start);
        if Bounded(s, start) && !s.flock { PrintBounded(s, a.msg, a.opens, start); }
      }
      assert a in acts && (Lock !in acts ==> Lock !in acts[1..]);
      SizesOfRun(t, acts[1..], Carried(s, a, start), texts);
    }
  }

  /** Set up over files that may already be there: each file afterwards is one of those, carried to its
      place with its contents, or is within the bounds. */
  lemma SizesFromStart(s: Log, acts: seq<Action>)
    requires Valid(s) && !s.open && !s.flock
    ensures var t, older := Run(s, acts), CarriedFar(s, acts, s.files.Keys); forall k <- t.files ::
      && (k in older ==> t.files[k] in s.files.Values)
      && (k !in older ==> (k == 0 && t.open) || Bytes(t.files[k]) > s.maxsize)
      && (k !in older && Lock !in acts ==> Bytes(t.files[k]) < s.maxsize + LINEBUF)
  {
    SizesOfRun(s, acts, s.files.Keys, s.files.Values);
  }

  /** With the lock held the open file is never changed for another: all lines printed go to it. */
  lemma {:induction false} LockKeepsFile(s: Log, acts: seq<Action>)
    requires Valid(s) && s.open && s.flock && Unlock !in acts
    ensures var t := Run(s, acts); t.open && t.files == s.files[0 := s.files[0] + Stream(s, acts)]
    decreases |acts|
  {
    if acts == [] {
      assert s.files[0] + [] == s.files[0];
    } else {
      assert acts[0] in acts;
      assert s.files[0] + [] == s.files[0];
      assert Next(s, acts[0]).files == s.files[0 := s.files[0] + Out(s, acts[0])];
      LockKeepsFile(Next(s, acts[0]), acts[1..]);
      assert s.files[0] + Stream(s, acts) == (s.files[0] + Out(s, acts[0])) + Stream(Next(s, acts[0]), acts[1..]);
    }
  }

  /** From when the lock is taken, with a file open, to when it is given up. */
  lemma LockedRunKeepsFile(s: Log, acts: seq<Action>)
    requires Valid(s) && s.open && acts != [] && acts[0] == Lock && Unlock !in acts
    ensures var t := Run(s, acts); t.open && t.files == s.files[0 := s.files[0] + Stream(s, acts)]
  {
    var u := s.(flock := true);
    assert Unlock !in acts[1..] && Next(s, acts[0]) == u;
    LockKeepsFile(u, acts[1..]);
    assert Run(s, acts) == Run(u, acts[1..]);
    assert Stream(s, acts) == [] + Stream(u, acts[1..]) == Stream(u, acts[1..]);
  }

  /** Once it is given up, the next message to a file that has grown too large goes to a new one. */
  lemma UnlockLetsRotate(s: Log, msg: string)
    requires Valid(s) && s.open && Bytes(s.files[0]) > s.maxsize
    ensures var t := Run(s, [Lock, Unlock, Message(msg, true)]); 0 in t.files && t.files[0] == [Line(msg)]
  {
    var acts := [Lock, Unlock, Message(msg, true)];
    assert acts[1..] == [Unlock, Message(msg, true)] && acts[1..][1..] == [Message(msg, true)];
    var t, u := s.(flock := true), s.(flock := false);
    assert Next(s, Lock) == t && Next(t, Unlock) == u;
    assert Run(s, acts) == Run(t, acts[1..]) == Run(u, acts[1..][1..]);
    assert [Message(msg, true)][1..] == [];
    assert Run(u, [Message(msg, true)]) == Print(u, msg, true);
    assert [] + [Line(msg)] == [Line(msg)];
  }

  // ---------------------------------------------------------------- how much is kept

  /** A line that was written is the last one kept. */
  lemma LastLineKept(s: Log, msg: string, opens: bool)
    requires Valid(s) && Written(s, opens)
    ensures var kept := Kept(Print(s, msg, opens)); kept != [] && kept[|kept| - 1] == Line(msg)
  {
    var t := if Due(s) then OpenNew(s, opens) else s;
    AppendKept(t.files, Line(msg), Slots(s.nbackups));
  }

  /** Files 0 up to `n` are there, full but for the open file 0. */
  ghost predicate Stacked(s: Log, n: nat) {
    && Valid(s) && n <= Slots(s.nbackups) && s.open == (n > 0)
    && (forall k: nat :: k in s.files <==> k < n)
    && (forall k: nat :: 1 <= k < n ==> Bytes(s.files[k]) > s.maxsize)
  }

  function Min(a: nat, b: nat): nat { if a < b then a else b }

  lemma ShiftStacked(s: Log, n: nat, j: nat)
    requires Stacked(s, n) && j > 0
    ensures j in Shift(s.files, Moves(s.nbackups)) <==> j <= Min(n, Slots(s.nbackups) - 1)
    ensures j <= Min(n, Slots(s.nbackups) - 1) ==> Shift(s.files, Moves(s.nbackups))[j] == s.files[j - 1]
  {
    var k := Moves(s.nbackups);
    ShiftIs(s.files, k, j);
    if j <= Min(n, Slots(s.nbackups) - 1) { assert j - 1 in Moved(s.files, k, j); }
  }

  /** Opening a new file adds one to the stack, unless it is full. */
  lemma OpenStacked(s: Log, n: nat)
    requires Stacked(s, n) && Due(s)
    ensures Stacked(OpenNew(s, true), Min(n + 1, Slots(s.nbackups)))
  {
    var t, m := OpenNew(s, true), Min(n + 1, Slots(s.nbackups));
    forall j: nat ensures j in t.files <==> j < m {
      if j > 0 { ShiftStacked(s, n, j); }
    }
    forall j: nat | 1 <= j < m ensures Bytes(t.files[j]) > s.maxsize {
      ShiftStacked(s, n, j);
      assert Bytes(s.files[j - 1]) > s.maxsize;
    }
  }

  /** Nothing is lost until the stack is full. */
  lemma OpenLossless(s: Log, n: nat)
    requires Stacked(s, n) && n < Slots(s.nbackups)
    ensures Kept(OpenNew(s, true)) == Kept(s)
  {
    var m := Slots(s.nbackups);
    var files := Shift(s.files, Moves(s.nbackups));
    if Moves(s.nbackups) == TWO_31 { assert files == Shift(s.files, m - 1); }
    ShiftLossless(s.files, m - 1);
    ShiftIs(s.files, m - 1, 0);
    ConcatSame(files, files[0 := []], m);
  }

  ghost predicate AllOpen(acts: seq<Action>) {
    forall a <- acts :: a.Message? ==> a.opens
  }

  lemma PrintStacked(s: Log, msg: string, n: nat)
    requires Stacked(s, n)
    ensures Stacked(Print(s, msg, true), if Due(s) then Min(n + 1, Slots(s.nbackups)) else n)
    ensures n < Slots(s.nbackups) ==> Kept(Print(s, msg, true)) == Kept(s) + [Line(msg)]
  {
    if Due(s) {
      OpenStacked(s, n);
      if n < Slots(s.nbackups) { OpenLossless(s, n); }
    }
    var t := if Due(s) then OpenNew(s, true) else s;
    AppendKept(t.files, Line(msg), Slots(s.nbackups));
  }

  /** Until every slot has a file, nothing has been lost. */
  lemma {:induction false} RunStacked(s: Log, acts: seq<Action>, n: nat) returns (n': nat)
    requires Stacked(s, n) && AllOpen(acts)
    ensures Stacked(Run(s, acts), n') && n <= n'
    ensures n' == Slots(s.nbackups) || Kept(Run(s, acts)) == Kept(s) + Stream(s, acts)
    decreases |acts|
  {
    if acts == [] {
      n' := n;
      assert Kept(s) + [] == Kept(s);
    } else {
      assert acts[0] in acts;
      assert AllOpen(acts[1..]) by { assert forall a :: a in acts[1..] ==> a in acts; }
      var next := n;
      if acts[0].Message? {
        PrintStacked(s, acts[0].msg, n);
        next := if Due(s) then Min(n + 1, Slots(s.nbackups)) else n;
      }
      n' := RunStacked(Next(s, acts[0]), acts[1..], next);
      if n' < Slots(s.nbackups) {
        assert Kept(s) + [] == Kept(s);
        assert Kept(Next(s, acts[0])) == Kept(s) + Out(s, acts[0]);
        Sequences.Assoc(Kept(s), Out(s, acts[0]), Stream(Next(s, acts[0]), acts[1..]));
      }
    }
  }

  lemma {:induction false} StackBytes(s: Log, n: nat, j: nat)
    requires Stacked(s, n) && 1 <= j <= n
    ensures Bytes(Concat(s.files, j)) >= (j - 1) * (s.maxsize + 1)
    decreases j
  {
    BytesConcat(Get(s.files, j - 1), Concat(s.files, j - 1));
    if j > 1 {
      StackBytes(s, n, j - 1);
      Times(j - 1, s.maxsize + 1);
    }
  }

  lemma Times(a: nat, b: nat)
    requires a > 0
    ensures a * b == (a - 1) * b + b
  {
  }

  lemma FullStack(s: Log, acts: seq<Action>, n: nat)
    requires Valid(s) && n == Slots(s.nbackups) && Stacked(Run(s, acts), n)
    ensures Bytes(Kept(Run(s, acts))) >= (Slots(s.nbackups) - 1) * (s.maxsize + 1)
  {
    StackBytes(Run(s, acts), n, n);
  }

  /** Starting with no files, and if every file can be opened: either every line is kept, or more than
      `maxsize` bytes for every slot but one. */
  lemma KeepsEnough(s: Log, acts: seq<Action>)
    requires Valid(s) && s.files == map[] && !s.open && AllOpen(acts)
    ensures Kept(Run(s, acts)) == Stream(s, acts)
      || Bytes(Kept(Run(s, acts))) >= (Slots(s.nbackups) - 1) * (s.maxsize + 1)
  {
    var n := RunStacked(s, acts, 0);
    if n == Slots(s.nbackups) {
      FullStack(s, acts, n);
    } else {
      NoFiles(Slots(s.nbackups));
      assert [] + Stream(s, acts) == Stream(s, acts);
    }
  }

  lemma {:induction false} NoFiles(m: nat)
    ensures Concat(map[], m) == []
  {
    if m > 0 { NoFiles(m - 1); }
  }

  // ---------------------------------------------------------------- the settings that break it

  /** Over any run, the files numbered below `nbackups` are an unbroken end of the log. */
  ghost predicate AlwaysSuffix(nbackups: nat) {
    forall s: Log, acts: seq<Action> | Valid(s) && s.nbackups == nbackups ::
      Suffix(Concat(Run(s, acts).files, nbackups), Concat(s.files, nbackups) + Stream(s, acts))
  }

  lemma {:induction false} ConcatTop(files: Files, n: nat, m: nat)
    requires n <= m && forall k :: n <= k < m ==> k !in files
    ensures Concat(files, m) == Concat(files, n)
  {
    if m > n {
      ConcatTop(files, n, m - 1);
      assert [] + Concat(files, n) == Concat(files, n);
    }
  }

  lemma {:induction false} ShiftNothing(files: Files, k: nat)
    requires forall i :: 0 <= i < k ==> i !in files
    ensures Shift(files, k) == files
  {
    if k > 0 { ShiftNothing(files, k - 1); }
  }

  /** One message to a log that is not open. */
  lemma OneMessage(s: Log, msg: string)
    requires Valid(s) && !s.open && |msg| < LINEBUF
    ensures Run(s, [Message(msg, true)]).files == Shift(s.files, Moves(s.nbackups))[0 := [msg]]
    ensures Stream(s, [Message(msg, true)]) == [msg]
  {
    var acts := [Message(msg, true)];
    assert acts[1..] == [];
    assert Run(s, acts) == Print(s, msg, true);
    assert Line(msg) == msg && [] + [msg] == [msg];
  }

  /** What breaks the end of a log: its last line but one is missing. */
  lemma Gap(nbackups: nat, s: Log)
    requires Valid(s) && !s.open && s.nbackups == nbackups
    requires Concat(s.files, nbackups) == ["x", "a"]
    requires Concat(Shift(s.files, Moves(nbackups))[0 := ["b"]], nbackups) == ["x", "b"]
    ensures !AlwaysSuffix(nbackups)
  {
    var acts := [Message("b", true)];
    OneMessage(s, "b");
    var all := ["x", "a"] + ["b"];
    assert all[1..][0] == "a" && "a"[0] != "x"[0];
    assert !Suffix(["x", "b"], all);
    assert !Suffix(Concat(Run(s, acts).files, nbackups), Concat(s.files, nbackups) + Stream(s, acts));
  }

  /** A count of backups whose difference with 2 is negative as a signed number moves no file. */
  lemma TooManyBackups(nbackups: nat)
    requires TWO_31 + 1 < nbackups < TWO_32
    ensures !AlwaysSuffix(nbackups)
  {
    var files: Files := map[0 := ["a"], 1 := ["x"]];
    var moved := Shift(files, Moves(nbackups))[0 := ["b"]];
    assert moved == map[0 := ["b"], 1 := ["x"]];
    ConcatTop(files, 2, nbackups);
    ConcatTop(moved, 2, nbackups);
    Two(files, 0);
    Two(moved, 0);
    Gap(nbackups, Log(nbackups, 1, files, false, false));
  }

  /** With one backup more than there are numbers, the file with the largest number moves to a negative
      one, out of the log, under a file that stays in it. */
  lemma OneBackupTooMany()
    ensures !AlwaysSuffix(TWO_31 + 1)
  {
    var top := TWO_31 - 1;
    var files: Files := map[top := ["a"], TWO_31 := ["x"]];
    var next: Files := map[-TWO_31 := ["a"], TWO_31 := ["x"]];
    assert MoveOne(files, top) == next;
    ShiftNothing(next, top);
    assert Shift(files, TWO_31) == next;
    var moved := next[0 := ["b"]];
    ConcatTop(files, 0, top);
    ConcatTop(moved, 1, TWO_31);
    Two(files, top);
    assert Concat(moved, 1) == ["b"] + [];
    assert Concat(moved, TWO_31 + 1) == ["x"] + ["b"];
    Gap(TWO_31 + 1, Log(TWO_31 + 1, 1, files, false, false));
  }

  lemma Two(files: Files, k: nat)
    requires k in files && k + 1 in files && Concat(files, k) == []
    ensures Concat(files, k + 2) == files[k + 1] + files[k]
  {
    assert Concat(files, k + 1) == files[k] + [];
  }

  /** The files numbered below `nbackups` are an end of the log in every run exactly when each of them
      has a number that the renaming loop can count to. */
  lemma AlwaysSuffixIff(nbackups: nat)
    requires nbackups < TWO_32
    ensures AlwaysSuffix(nbackups) <==> nbackups <= TWO_31
  {
    if nbackups > TWO_31 + 1 {
      TooManyBackups(nbackups);
    } else if nbackups == TWO_31 + 1 {
      OneBackupTooMany();
    } else {
      forall s: Log, acts: seq<Action> | Valid(s) && s.nbackups == nbackups
        ensures Suffix(Concat(Run(s, acts).files, nbackups), Concat(s.files, nbackups) + Stream(s, acts))
      {
        if nbackups > 0 { KeepsSuffix(s, acts); } else { SuffixNone(Concat(s.files, 0) + Stream(s, acts)); }
      }
    }
  }
}
