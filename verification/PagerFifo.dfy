/** Without a second fault on a resident page the clock is a queue: pages leave memory in the
    order in which they were faulted in. */
module PagerFifo {
  import opened Options
  import opened PagerState
  import opened PagerSteps
  import opened PagerRuns
  import opened PagerCounts
  import Clock
  import opened Arith

  /** Nobody dies and no fault hits a resident page. */
  ghost predicate OnlyMisses(c: Machine, run: seq<Action>)
    requires Valid(c, run)
    decreases |run|
  {
    |run| == 0 ||
    var before, a := Exec(c, run[..|run| - 1]), run[|run| - 1];
    OnlyMisses(c, run[..|run| - 1]) && !a.Destroy? && (a.Fault? ==> !before.s.At(a.pg).valid)
  }

  /** The pages faulted on, in order. */
  function Faulted(run: seq<Action>): seq<PageId> {
    if |run| == 0 then []
    else Faulted(run[..|run| - 1]) + if run[|run| - 1].Fault? then [run[|run| - 1].pg] else []
  }

  /** The victims' frames and pages, in order. */
  ghost function Victims(c: Machine, run: seq<Action>): seq<(nat, PageId)>
    requires Valid(c, run)
    decreases |run|
  {
    if |run| == 0 then []
    else
      var before := Exec(c, run[..|run| - 1]);
      Victims(c, run[..|run| - 1]) +
      if Evicts(before, run[|run| - 1]) then
        var f := Clock.Sweep(before.s.bits, before.s.hand).victim;
        [(f, before.s.frames[f].page)]
      else []
  }

  predicate Pending(ph: Phase, f: nat) {
    match ph
    case Protecting(_, _) => f == 0
    case Unmapping(v, _) => f == v
    case Evicting(v, _) => f == v
    case Vacant(v, _) => f == v
    case _ => false
  }

  /** Frame `j` after the pages `faulted` came in and `gone` of them left: while frames are free
      they fill upwards; afterwards, `Ahead` of the hand is the page's place in the queue. */
  predicate Slot(s: State, faulted: seq<PageId>, gone: nat, j: nat)
    requires Sizes(s) && j < |s.frames|
  {
    var n, m := |s.frames|, |faulted|;
    if m < n then
      (if j < m then s.frames[j].page == faulted[j] && s.frames[j].pid != INVALID_PID && s.bits[j]
       else s.frames[j].pid == INVALID_PID && !s.bits[j])
    else
      gone == m - n
      && s.frames[j].page == faulted[gone + Clock.Ahead(n, s.hand, j)] && s.frames[j].pid != INVALID_PID
      && s.bits[j] == (s.hand == 0 || j < s.hand)
  }

  /** The slot that a fault in progress has still to fill. */
  predicate PendingSlot(s: State, ph: Phase, faulted: seq<PageId>, gone: nat)
    requires Sizes(s)
  {
    ph.Idle? || ph.Filled? ||
    (&& !ph.Granting? && |faulted| > 0 && ph.pg == faulted[|faulted| - 1]
     && forall f :: 0 <= f < |s.frames| && Pending(ph, f) ==>
          (if |faulted| <= |s.frames| then f == |faulted| - 1
           else s.hand == Clock.Successor(|s.frames|, f))
          && (s.frames[f].pid == INVALID_PID ==> ph.Vacant?))
  }

  /** The hand after `gone` evictions. */
  function HandAfter(n: nat, gone: nat): (h: nat)
    requires 0 < n
    ensures h < n
  {
    if gone == 0 then 0 else Clock.Successor(n, HandAfter(n, gone - 1))
  }

  lemma {:induction false} HandAfterIsMod(n: nat, gone: nat)
    requires 0 < n
    ensures HandAfter(n, gone) == gone % n
  {
    if gone > 0 {
      HandAfterIsMod(n, gone - 1);
      ModStep(n, gone - 1, (gone - 1) / n, (gone - 1) % n);
    }
  }

  lemma ModStep(n: nat, k: nat, q: nat, r: nat)
    requires 0 < n && k == n * q + r && r < n
    ensures (k + 1) % n == Clock.Successor(n, r)
  {
    if r == n - 1 {
      assert k + 1 == n * (q + 1) + 0;
      ModUnique(n, q + 1, 0);
    } else {
      ModUnique(n, q, r + 1);
    }
  }

  predicate Queue(c: Config, faulted: seq<PageId>, gone: nat)
    requires Sizes(c.s)
  {
    var s, n := c.s, |c.s.frames|;
    && gone == (if |faulted| < n then 0 else |faulted| - n)
    && s.hand == HandAfter(n, gone)
    && !c.ph.Granting?
    && PendingSlot(s, c.ph, faulted, gone)
    && forall j :: 0 <= j < n && !Pending(c.ph, j) ==> Slot(s, faulted, gone, j)
  }

  /** A miss with a free frame takes the next one up. */
  lemma MissWithRoom(s: State, pg: PageId, faulted: seq<PageId>, gone: nat)
    requires Sizes(s) && Missing(s, pg) && Queue(Config(s, Idle), faulted, gone)
    requires FreeFrameFrom(s.frames, 0).Some?
    ensures Queue(FaultStart(s, pg), faulted + [pg], 0) && gone == 0
  {
    var n, m, f := |s.frames|, |faulted|, FreeFrameFrom(s.frames, 0).value;
    assert Slot(s, faulted, gone, f);
    assert Slot(s, faulted, gone, m);
    forall j | 0 <= j < n && !Pending(Vacant(f, pg), j) ensures Slot(s, faulted + [pg], 0, j) {
      assert Slot(s, faulted, gone, j);
    }
  }

  /** A miss with every frame taken evicts the page at the head of the queue. */
  lemma MissWhenFull(s: State, pg: PageId, faulted: seq<PageId>, gone: nat)
    requires Sizes(s) && Missing(s, pg) && Queue(Config(s, Idle), faulted, gone)
    requires FreeFrameFrom(s.frames, 0).None?
    ensures Clock.Sweep(s.bits, s.hand).victim == s.hand
    ensures gone < |faulted| && s.frames[s.hand].page == faulted[gone]
    ensures Queue(FaultStart(s, pg), faulted + [pg], gone + 1)
  {
    var n, m, h := |s.frames|, |faulted|, s.hand;
    assert !Pending(Idle, m) && (m < n ==> Slot(s, faulted, gone, m));
    forall j | 0 <= j < n ensures s.bits[j] == (h == 0 || j < h) {
      assert !Pending(Idle, j) && Slot(s, faulted, gone, j);
    }
    assert Slot(s, faulted, gone, h) && Clock.Ahead(n, h, h) == 0;
    Clock.SweepQueued(s.bits, h);
    var d := FaultStart(s, pg);
    forall j | 0 <= j < n && !Pending(d.ph, j) ensures Slot(d.s, faulted + [pg], gone + 1, j) {
      assert Slot(s, faulted, gone, j);
      assert Clock.Ahead(n, d.s.hand, j) == Clock.Ahead(n, h, j) - 1;
    }
  }

  /** The pieces of a miss only fill its own slot. */
  lemma PieceKeepsQueue(c: Config, faulted: seq<PageId>, gone: nat)
    requires Sizes(c.s) && !c.ph.Idle? && Runnable(c) && Queue(c, faulted, gone)
    requires Sizes(Advance(c).s)
    ensures Queue(Advance(c), faulted, gone)
  {
    var s, d := c.s, Advance(c);
    assert c.ph.Protecting? ==> Pending(c.ph, 0);
    assert PendingSlot(d.s, d.ph, faulted, gone);
    forall j | 0 <= j < |s.frames| && !Pending(d.ph, j) ensures Slot(d.s, faulted, gone, j) {
      if !Pending(c.ph, j) { assert Slot(s, faulted, gone, j); }
    }
  }

  lemma NextPieceKeepsQueue(c: Machine, faulted: seq<PageId>, gone: nat)
    requires Enabled(c, Piece) && Queue(c, faulted, gone)
    ensures Queue(Next(c, Piece), faulted, gone) && |Next(c, Piece).s.frames| == |c.s.frames|
  {
    InvRunnable(c);
    PieceKeepsQueue(c, faulted, gone);
  }

  lemma FaultKeepsQueue(c: Machine, pg: PageId, faulted: seq<PageId>, gone: nat)
    requires Enabled(c, Fault(pg)) && !c.s.At(pg).valid && Queue(c, faulted, gone)
    ensures Evicts(c, Fault(pg)) ==>
      var v := Clock.Sweep(c.s.bits, c.s.hand).victim;
      v == HandAfter(|c.s.frames|, gone) && gone < |faulted| && c.s.frames[v].page == faulted[gone]
    ensures Queue(Next(c, Fault(pg)), faulted + [pg], gone + if Evicts(c, Fault(pg)) then 1 else 0)
  {
    assert Next(c, Fault(pg)) == FaultStart(c.s, pg);
    if FreeFrameFrom(c.s.frames, 0).Some? {
      MissWithRoom(c.s, pg, faulted, gone);
    } else {
      MissWhenFull(c.s, pg, faulted, gone);
    }
  }

  lemma StepKeepsQueue(c: Machine, a: Action, faulted: seq<PageId>, gone: nat)
    requires Enabled(c, a) && !a.Destroy? && (a.Fault? ==> !c.s.At(a.pg).valid)
    requires Queue(c, faulted, gone)
    ensures |Next(c, a).s.frames| == |c.s.frames|
    ensures Evicts(c, a) ==>
      var v := Clock.Sweep(c.s.bits, c.s.hand).victim;
      v == HandAfter(|c.s.frames|, gone) && gone < |faulted| && c.s.frames[v].page == faulted[gone]
    ensures Queue(Next(c, a), faulted + (if a.Fault? then [a.pg] else []), gone + if Evicts(c, a) then 1 else 0)
  {
    assert faulted + [] == faulted;
    if a.Fault? {
      FaultKeepsQueue(c, a.pg, faulted, gone);
    } else if a == Piece {
      NextPieceKeepsQueue(c, faulted, gone);
    } else {
      OthersKeepQueue(c, a, faulted, gone);
    }
  }

  lemma OthersKeepQueue(c: Machine, a: Action, faulted: seq<PageId>, gone: nat)
    requires Enabled(c, a) && !a.Fault? && !a.Destroy? && a != Piece
    requires Queue(c, faulted, gone)
    ensures Queue(Next(c, a), faulted, gone)
  {
    var s, d := c.s, Next(c, a);
    assert s.frames == d.s.frames && s.bits == d.s.bits && s.hand == d.s.hand && c.ph == d.ph;
    forall j | 0 <= j < |s.frames| && !Pending(d.ph, j) ensures Slot(d.s, faulted, gone, j) {
      assert Slot(s, faulted, gone, j);
    }
  }

  /** One more action on a run. */
  lemma LastStep(c: Machine, run: seq<Action>)
    requires |run| > 0 && Valid(c, run) && OnlyMisses(c, run)
    ensures var earlier, a := run[..|run| - 1], run[|run| - 1];
      && Valid(c, earlier) && OnlyMisses(c, earlier) && Enabled(Exec(c, earlier), a) && !a.Destroy?
      && (a.Fault? ==> !Exec(c, earlier).s.At(a.pg).valid) && Exec(c, run) == Next(Exec(c, earlier), a)
      && Faulted(run) == Faulted(earlier) + (if a.Fault? then [a.pg] else [])
      && |Victims(c, run)| == |Victims(c, earlier)| + if Evicts(Exec(c, earlier), a) then 1 else 0
  {
  }

  lemma {:induction false} QueueHolds(c: Machine, run: seq<Action>)
    requires Valid(c, run) && OnlyMisses(c, run) && Queue(c, [], 0)
    ensures Queue(Exec(c, run), Faulted(run), |Victims(c, run)|)
    ensures |Exec(c, run).s.frames| == |c.s.frames|
    decreases |run|
  {
    if |run| > 0 {
      var earlier := run[..|run| - 1];
      LastStep(c, run);
      QueueHolds(c, earlier);
      StepKeepsQueue(Exec(c, earlier), run[|run| - 1], Faulted(earlier), |Victims(c, earlier)|);
    }
  }

  lemma {:induction false} VictimsInOrder(c: Machine, run: seq<Action>, k: nat)
    requires Valid(c, run) && OnlyMisses(c, run) && Queue(c, [], 0)
    requires k < |Victims(c, run)|
    ensures k < |Faulted(run)| && Victims(c, run)[k] == (HandAfter(|c.s.frames|, k), Faulted(run)[k])
    decreases |run|
  {
    var before, a, earlier := Exec(c, run[..|run| - 1]), run[|run| - 1], run[..|run| - 1];
    if k < |Victims(c, earlier)| {
      VictimsInOrder(c, earlier, k);
    } else {
      QueueHolds(c, earlier);
      StepKeepsQueue(before, a, Faulted(earlier), k);
    }
  }

  /** First in, first out: the k-th eviction (from 0) takes frame k modulo the number of frames,
      and removes the page of the k-th fault. */
  lemma Fifo(pageSize: nat, pmem: seq<seq<Byte>>, disk: seq<seq<Byte>>, run: seq<Action>, k: nat)
    requires Memory(pageSize, pmem, disk)
    requires var c := Start(pageSize, pmem, disk);
      Valid(c, run) && OnlyMisses(c, run) && k < |Victims(c, run)|
    ensures var c := Start(pageSize, pmem, disk);
      k < |Faulted(run)| && Victims(c, run)[k] == (k % |pmem|, Faulted(run)[k])
  {
    VictimsInOrder(Start(pageSize, pmem, disk), run, k);
    HandAfterIsMod(|pmem|, k);
  }
}
