/** What serving one whole fault changes, whatever the other processes store in between: who may access
    what afterwards, the reference bits, the victim, and the disk. */
module PagerFaults {
  import opened Options
  import opened PagerState
  import opened PagerSteps
  import opened PagerRuns
  import opened PagerCounts
  import opened PagerDrive
  import Clock

  /** Equal but for the bytes in memory. */
  predicate SameButBytes(s: State, t: State) { t == s.(pmem := t.pmem) }

  // ---------------------------------------------------------------- the last pieces

  lemma GrantingEnds(c: Machine, users: nat -> seq<Poke>, k: nat)
    requires c.ph.Granting?
    ensures c.s.Has(c.ph.pg) && c.s.At(c.ph.pg).frame < |c.s.bits|
    ensures SameButBytes(c.s.(bits := c.s.bits[c.s.At(c.ph.pg).frame := true])
                          .With(c.ph.pg, c.s.At(c.ph.pg).(dirty := true)), Drive(c, users, k))
  {
    RoundIs(c, users(k));
    assert PageOk(c.s, c.ph, c.ph.pg);
    assert Drive(Round(c, users(k)), users, k + 1) == Round(c, users(k)).s;
  }

  /** A page put in a vacant frame. */
  function Placed(s: State, f: nat, pg: PageId): State
    requires s.Has(pg) && f < |s.frames| == |s.bits|
  {
    s.(frames := s.frames[f := Frame(pg.pid, pg)], bits := s.bits[f := true], maps := s.maps[pg := Mapping(f, ReadOnly)])
     .With(pg, s.At(pg).(valid := true, frame := f, dirty := false))
  }

  lemma VacantEnds(c: Machine, users: nat -> seq<Poke>, k: nat)
    requires c.ph.Vacant?
    ensures c.s.Has(c.ph.pg) && c.ph.f < |c.s.frames|
    ensures SameButBytes(Placed(c.s, c.ph.f, c.ph.pg), Drive(c, users, k))
  {
    RoundIs(c, users(k));
    var d := Round(c, users(k));
    assert d.ph == Filled(c.ph.f, c.ph.pg);
    RoundIs(d, users(k + 1));
    var e := Round(d, users(k + 1));
    assert Drive(d, users, k + 1) == Drive(e, users, k + 2) == e.s;
  }

  /** The page `v` taken out of frame `f`, with its block marked if it was dirty. */
  function Ousted(s: State, v: PageId): State
    requires s.Has(v) && v in s.maps && s.At(v).block < |s.blocks|
  {
    var b := s.At(v).block;
    s.With(v, s.At(v).(valid := false)).(
      maps := s.maps[v := s.maps[v].(prot := NoAccess)],
      blocks := if s.At(v).dirty then s.blocks[b := s.blocks[b].(written := true)] else s.blocks)
  }

  /** Only the victim's block is written, and only if the victim is dirty. */
  predicate DiskKept(s: State, v: PageId, t: State)
    requires s.Has(v)
  {
    |t.disk| == |s.disk| && forall b :: 0 <= b < |s.disk| && (b == s.At(v).block ==> !s.At(v).dirty) ==> t.disk[b] == s.disk[b]
  }

  lemma UnmappingGoesOn(c: Machine, users: nat -> seq<Poke>, k: nat) returns (e: Machine)
    requires c.ph.Unmapping?
    ensures c.ph.f < |c.s.frames|
    ensures var v := c.s.frames[c.ph.f].page;
      && c.s.Has(v) && v in c.s.maps && c.s.At(v).block < |c.s.blocks| && v != c.ph.pg
      && e.ph == Vacant(c.ph.f, c.ph.pg) && Drive(e, users, k + 2) == Drive(c, users, k)
      && e.s == Ousted(c.s, v).(pmem := e.s.pmem, disk := e.s.disk) && DiskKept(c.s, v, e.s)
  {
    var f := c.ph.f;
    assert FrameOk(c.s, c.ph, f) && PageOk(c.s, c.ph, c.s.frames[f].page);
    RoundIs(c, users(k));
    var d := Round(c, users(k));
    assert d.ph == Evicting(f, c.ph.pg);
    RoundIs(d, users(k + 1));
    e := Round(d, users(k + 1));
  }

  /** Every page in a frame from `i` on is made inaccessible. */
  function Silenced(s: State, i: nat): map<PageId, Mapping> {
    map q | q in s.maps ::
      if s.Has(q) && s.At(q).valid && s.At(q).frame >= i then s.maps[q].(prot := NoAccess) else s.maps[q]
  }

  lemma ProtectOne(c: Machine, pokes: seq<Poke>)
    requires c.ph.Protecting?
    ensures var i, d := c.ph.next, Round(c, pokes);
      && i < |c.s.frames|
      && var v := c.s.frames[i].page;
      && v in c.s.maps && SameButBytes(c.s.(maps := c.s.maps[v := c.s.maps[v].(prot := NoAccess)]), d.s)
      && d.ph == if i + 1 < |c.s.frames| then Protecting(i + 1, c.ph.pg) else Unmapping(0, c.ph.pg)
  {
    RoundIs(c, pokes);
  }

  /** Frame `i` holds one page, and no page is in a frame there is not. */
  lemma HeldOnce(c: Machine, i: nat, q: PageId)
    requires c.ph.Protecting? && i < |c.s.frames| && c.s.Has(q) && c.s.At(q).valid
    ensures c.s.At(q).frame < |c.s.frames| && (c.s.At(q).frame == i <==> q == c.s.frames[i].page)
  {
    assert PageOk(c.s, c.ph, q) && FrameOk(c.s, c.ph, i);
  }

  lemma SilencedOne(s: State, i: nat, v: PageId)
    requires v in s.maps && s.Has(v) && s.At(v).valid
    requires forall q :: s.Has(q) && s.At(q).valid ==> (s.At(q).frame == i <==> q == v)
    ensures Silenced(s.(maps := s.maps[v := s.maps[v].(prot := NoAccess)]), i + 1) == Silenced(s, i)
  {
  }

  lemma SilencedNone(s: State, n: nat)
    requires forall q :: s.Has(q) && s.At(q).valid ==> s.At(q).frame < n
    ensures Silenced(s, n) == s.maps
  {
  }

  lemma ProtectedOne(c: Machine, d: Machine)
    requires c.ph.Protecting? && c.ph.next < |c.s.frames|
    requires var v := c.s.frames[c.ph.next].page;
      v in c.s.maps && SameButBytes(c.s.(maps := c.s.maps[v := c.s.maps[v].(prot := NoAccess)]), d.s)
    ensures Silenced(d.s, c.ph.next + 1) == Silenced(c.s, c.ph.next)
    ensures c.ph.next + 1 == |c.s.frames| ==> d.s.maps == Silenced(c.s, c.ph.next)
  {
    var i, v := c.ph.next, c.s.frames[c.ph.next].page;
    assert FrameOk(c.s, c.ph, i);
    forall q | c.s.Has(q) && c.s.At(q).valid
      ensures c.s.At(q).frame < |c.s.frames| && (c.s.At(q).frame == i <==> q == v)
    {
      HeldOnce(c, i, q);
    }
    SilencedOne(c.s, i, v);
    var s' := c.s.(maps := c.s.maps[v := c.s.maps[v].(prot := NoAccess)]);
    assert Silenced(d.s, i + 1) == Silenced(s', i + 1);
    if i + 1 == |c.s.frames| { SilencedNone(s', i + 1); }
  }

  lemma {:induction false} ProtectingGoesOn(c: Machine, users: nat -> seq<Poke>, k: nat) returns (e: Machine, k': nat)
    requires c.ph.Protecting?
    ensures e.ph == Unmapping(0, c.ph.pg) && Drive(e, users, k') == Drive(c, users, k)
    ensures SameButBytes(c.s.(maps := Silenced(c.s, c.ph.next)), e.s)
    decreases |c.s.frames| - c.ph.next
  {
    ProtectOne(c, users(k));
    e, k' := Round(c, users(k)), k + 1;
    ProtectedOne(c, e);
    if e.ph.Protecting? { e, k' := ProtectingGoesOn(e, users, k + 1); }
  }

  // ---------------------------------------------------------------- a whole fault

  /** A fault on a resident page: it is now dirty, writable, and referenced; nothing else changes but
      bytes in memory. */
  lemma ResidentFault(s: State, pg: PageId, users: nat -> seq<Poke>)
    requires Inv(s, Idle) && s.Has(pg) && s.At(pg).valid
    ensures var t, f := ServeFault(s, pg, users), s.At(pg).frame;
      && f < |s.bits| && t.Has(pg) && t.At(pg) == s.At(pg).(dirty := true)
      && (forall q :: s.Has(q) && q != pg ==> t.Has(q) && t.At(q) == s.At(q))
      && t.frames == s.frames && t.bits == s.bits[f := true] && t.hand == s.hand
      && t.maps == s.maps[pg := Mapping(f, ReadWrite)]
      && t.blocks == s.blocks && t.disk == s.disk && t.pageSize == s.pageSize
  {
    assert PageOk(s, Idle, pg);
    GrantingEnds(Begin(s, pg), users, 0);
  }

  /** A fault on a page that is not resident, with a frame free: it takes the lowest one. */
  lemma FaultWithRoom(s: State, pg: PageId, users: nat -> seq<Poke>)
    requires Inv(s, Idle) && Missing(s, pg) && FreeFrameFrom(s.frames, 0).Some?
    ensures var t, f := ServeFault(s, pg, users), FreeFrameFrom(s.frames, 0).value;
      && f < |s.frames| && t.Has(pg) && t.At(pg) == s.At(pg).(valid := true, frame := f, dirty := false)
      && (forall q :: s.Has(q) && q != pg ==> t.Has(q) && t.At(q) == s.At(q))
      && t.frames == s.frames[f := Frame(pg.pid, pg)] && t.bits == s.bits[f := true] && t.hand == s.hand
      && t.maps == s.maps[pg := Mapping(f, ReadOnly)]
      && t.blocks == s.blocks && t.disk == s.disk && t.pageSize == s.pageSize
  {
    VacantEnds(Begin(s, pg), users, 0);
  }

  /** What a fault with all frames taken does to the page `v` in the victim's frame. */
  ghost predicate Replaces(s: State, pg: PageId, v: PageId, f: nat, t: State) {
    && s.Has(pg) && s.Has(v) && v != pg
    && t.Has(pg) && t.At(pg) == s.At(pg).(valid := true, frame := f, dirty := false)
    && t.Has(v) && t.At(v) == s.At(v).(valid := false)
    && (forall q :: s.Has(q) && q != pg && q != v ==> t.Has(q) && t.At(q) == s.At(q))
  }

  /** The victim loses access; so do all other resident pages when it is in frame 0, and no page otherwise. */
  ghost predicate Revoked(s: State, pg: PageId, v: PageId, f: nat, t: State) {
    && t.maps.Keys == s.maps.Keys + {pg} && v in s.maps
    && t.maps[pg] == Mapping(f, ReadOnly)
    && (v != pg ==> t.maps[v] == s.maps[v].(prot := NoAccess))
    && (forall q :: q in s.maps && q != pg && q != v ==>
          t.maps[q] == if f == 0 && s.Has(q) && s.At(q).valid then s.maps[q].(prot := NoAccess) else s.maps[q])
  }

  lemma MissingFault(s: State, pg: PageId, users: nat -> seq<Poke>) returns (e: Machine, k: nat)
    requires Inv(s, Idle) && Missing(s, pg) && FreeFrameFrom(s.frames, 0).None?
    ensures var c := Clock.Sweep(s.bits, s.hand);
      && e.ph == Unmapping(c.victim, pg) && Drive(e, users, k) == ServeFault(s, pg, users)
      && SameButBytes(s.(bits := c.bits, hand := c.hand,
                         maps := if c.victim == 0 then Silenced(s, 0) else s.maps), e.s)
  {
    e, k := Begin(s, pg), 0;
    if e.ph.Protecting? {
      assert Silenced(e.s, 0) == Silenced(s, 0);
      e, k := ProtectingGoesOn(e, users, 0);
    }
  }

  /** The three parts of such a fault, one after the other. */
  predicate Composed(s: State, pg: PageId, v: PageId, c: Clock.Choice, t: State) {
    && s.Has(pg) && s.Has(v) && v != pg && v in s.maps && s.At(v).block < |s.blocks|
    && |c.bits| == |s.bits| == |s.frames| && c.victim < |s.frames|
    && var s1 := s.(bits := c.bits, hand := c.hand, maps := if c.victim == 0 then Silenced(s, 0) else s.maps);
    && var s2 := Placed(Ousted(s1, v), c.victim, pg);
    t == s2.(pmem := t.pmem, disk := t.disk)
  }

  lemma ComposedReplaces(s: State, pg: PageId, v: PageId, c: Clock.Choice, t: State)
    requires Composed(s, pg, v, c, t)
    ensures Replaces(s, pg, v, c.victim, t)
  {
  }

  lemma ComposedRevokes(s: State, pg: PageId, v: PageId, c: Clock.Choice, t: State)
    requires Composed(s, pg, v, c, t)
    ensures Revoked(s, pg, v, c.victim, t)
  {
  }

  lemma Compose(s: State, pg: PageId, v: PageId, c: Clock.Choice, e: State, d: State, t: State)
    requires s.Has(pg) && s.Has(v) && v != pg && v in s.maps && s.At(v).block < |s.blocks|
    requires |c.bits| == |s.bits| == |s.frames| && c.victim < |s.frames|
    requires SameButBytes(s.(bits := c.bits, hand := c.hand, maps := if c.victim == 0 then Silenced(s, 0) else s.maps), e)
    requires d == Ousted(e, v).(pmem := d.pmem, disk := d.disk) && DiskKept(e, v, d)
    requires SameButBytes(Placed(d, c.victim, pg), t)
    ensures Composed(s, pg, v, c, t) && DiskKept(s, v, t)
  {
  }

  /** What is true of the page in the victim's frame. */
  lemma VictimIsLive(s: State, pg: PageId, f: nat)
    requires Inv(s, Idle) && Missing(s, pg) && FreeFrameFrom(s.frames, 0).None? && f < |s.frames|
    ensures var v := s.frames[f].page; s.Has(v) && v != pg && v in s.maps && s.At(v).block < |s.blocks|
  {
    assert FrameOk(s, Idle, f) && PageOk(s, Idle, s.frames[f].page);
  }

  lemma VictimLeaves(s: State, pg: PageId, users: nat -> seq<Poke>) returns (e: State, d: Machine, k: nat)
    requires Inv(s, Idle) && Missing(s, pg) && FreeFrameFrom(s.frames, 0).None?
    ensures var c := Clock.Sweep(s.bits, s.hand);
      var v := s.frames[c.victim].page;
      && SameButBytes(s.(bits := c.bits, hand := c.hand,
                         maps := if c.victim == 0 then Silenced(s, 0) else s.maps), e)
      && e.Has(v) && v in e.maps && e.At(v).block < |e.blocks|
      && d.s == Ousted(e, v).(pmem := d.s.pmem, disk := d.s.disk) && DiskKept(e, v, d.s)
      && d.ph == Vacant(c.victim, pg) && Drive(d, users, k) == ServeFault(s, pg, users)
  {
    var m: Machine;
    m, k := MissingFault(s, pg, users);
    d := UnmappingGoesOn(m, users, k);
    e, k := m.s, k + 2;
  }

  lemma FaultIsComposed(s: State, pg: PageId, users: nat -> seq<Poke>)
    requires Inv(s, Idle) && Missing(s, pg) && FreeFrameFrom(s.frames, 0).None?
    ensures var c := Clock.Sweep(s.bits, s.hand);
      var v := s.frames[c.victim].page;
      Composed(s, pg, v, c, ServeFault(s, pg, users)) && DiskKept(s, v, ServeFault(s, pg, users))
  {
    var c := Clock.Sweep(s.bits, s.hand);
    VictimIsLive(s, pg, c.victim);
    var e, d, k := VictimLeaves(s, pg, users);
    VacantEnds(d, users, k);
    Compose(s, pg, s.frames[c.victim].page, c, e, d.s, Drive(d, users, k));
  }

  /** A fault on a page that is not resident, with all frames taken: the clock's victim makes room, and is
      written to disk only if it was ever writable. */
  lemma FaultWhenFull(s: State, pg: PageId, users: nat -> seq<Poke>)
    requires Inv(s, Idle) && Missing(s, pg) && FreeFrameFrom(s.frames, 0).None?
    ensures var t, c := ServeFault(s, pg, users), Clock.Sweep(s.bits, s.hand);
      var f, v := c.victim, s.frames[c.victim].page;
      && Replaces(s, pg, v, f, t) && Revoked(s, pg, v, f, t)
      && t.frames == s.frames[f := Frame(pg.pid, pg)] && t.bits == c.bits[f := true] && t.hand == c.hand
      && s.At(v).block < |s.blocks|
      && t.blocks == (if s.At(v).dirty then s.blocks[s.At(v).block := s.blocks[s.At(v).block].(written := true)]
                      else s.blocks)
      && DiskKept(s, v, t) && t.pageSize == s.pageSize
  {
    var c := Clock.Sweep(s.bits, s.hand);
    FaultIsComposed(s, pg, users);
    ComposedReplaces(s, pg, s.frames[c.victim].page, c, ServeFault(s, pg, users));
    ComposedRevokes(s, pg, s.frames[c.victim].page, c, ServeFault(s, pg, users));
  }

  // ---------------------------------------------------------------- access afterwards

  lemma HeldAfterFault(s: State, pg: PageId, users: nat -> seq<Poke>)
    requires Inv(s, Idle) && s.Has(pg)
    ensures var t := ServeFault(s, pg, users);
      && t.Has(pg) && t.At(pg).valid && t.At(pg).frame < |t.bits| && t.bits[t.At(pg).frame]
      && pg in t.maps && t.maps[pg] == Mapping(t.At(pg).frame, if s.At(pg).valid then ReadWrite else ReadOnly)
      && t.pageSize == s.pageSize
  {
    if s.At(pg).valid {
      ResidentFault(s, pg, users);
    } else if FreeFrameFrom(s.frames, 0).Some? {
      FaultWithRoom(s, pg, users);
    } else {
      FaultWhenFull(s, pg, users);
    }
  }

  /** After a fault the page is in a frame and mapped to it: for reading only after the first one, for
      writing too after a second one on the resident page. So the access that faulted can go on, or, if it
      was a store to a page just brought in, faults once more and then can. */
  lemma AccessAfterFault(s: State, pg: PageId, users: nat -> seq<Poke>, off: nat)
    requires Inv(s, Idle) && s.Has(pg) && off < s.pageSize
    ensures var t := ServeFault(s, pg, users);
      && t.Has(pg) && t.At(pg).valid && pg in t.maps && t.maps[pg].frame == t.At(pg).frame
      && t.maps[pg].prot == (if s.At(pg).valid then ReadWrite else ReadOnly)
      && t.CanRead(pg, off) && (t.CanWrite(pg, off) <==> s.At(pg).valid)
  {
    HeldAfterFault(s, pg, users);
  }

  /** A page that makes room for another one cannot be accessed any more. */
  lemma NoAccessAfterEviction(s: State, pg: PageId, users: nat -> seq<Poke>, off: nat)
    requires Inv(s, Idle) && Missing(s, pg) && FreeFrameFrom(s.frames, 0).None?
    ensures var t, v := ServeFault(s, pg, users), s.frames[Clock.Sweep(s.bits, s.hand).victim].page;
      v in t.maps && t.maps[v].prot == NoAccess && !t.CanRead(v, off) && !t.CanWrite(v, off)
  {
    FaultWhenFull(s, pg, users);
  }

  // ---------------------------------------------------------------- the page just used is spared

  /** The frame of the page that faulted is referenced, and is not the next victim while another frame is
      not. */
  lemma ReferencedAfterFault(s: State, pg: PageId, users: nat -> seq<Poke>, clear: nat)
    requires Inv(s, Idle) && s.Has(pg)
    ensures var t := ServeFault(s, pg, users);
      && t.Has(pg) && t.At(pg).frame < |t.bits| && t.hand < |t.bits| && t.bits[t.At(pg).frame]
      && (clear < |t.bits| && !t.bits[clear] ==> Clock.Sweep(t.bits, t.hand).victim != t.At(pg).frame)
  {
    HeldAfterFault(s, pg, users);
    var t := ServeFault(s, pg, users);
    if clear < |t.bits| && !t.bits[clear] { Clock.SweepTakesNearestClear(t.bits, t.hand, clear); }
  }

  /** The hand comes to frame `f` while it looks for a victim: on its way, or on a full turn. */
  ghost predicate Reaches(c: Machine, a: Action, f: nat)
    requires Enabled(c, a) && f < |c.s.frames|
  {
    Evicts(c, a) &&
    var n, v := |c.s.frames|, Clock.Sweep(c.s.bits, c.s.hand).victim;
    (forall j :: 0 <= j < n ==> c.s.bits[j]) || Clock.Ahead(n, c.s.hand, f) <= Clock.Ahead(n, c.s.hand, v)
  }

  ghost predicate NeverReached(c: Machine, run: seq<Action>, f: nat)
    requires Valid(c, run)
    decreases |run|
  {
    |run| == 0 ||
    var earlier := run[..|run| - 1];
    NeverReached(c, earlier, f) && f < |Exec(c, earlier).s.frames| && !Reaches(Exec(c, earlier), run[|run| - 1], f)
  }

  lemma StepKeepsBit(c: Machine, a: Action, f: nat)
    requires Enabled(c, a) && f < |c.s.frames| && c.s.bits[f] && !Reaches(c, a, f)
    ensures f < |Next(c, a).s.frames| && Next(c, a).s.bits[f]
  {
    if Evicts(c, a) {
      var clear :| 0 <= clear < |c.s.bits| && !c.s.bits[clear];
      Clock.SweepTakesNearestClear(c.s.bits, c.s.hand, clear);
    } else if a == Piece {
      InvRunnable(c);
    }
  }

  /** A frame that was referenced stays so over any run in which the hand does not come to it; and as long
      as it is, it is no victim while another frame is not referenced. */
  lemma {:induction false} SparedUntilReached(c: Machine, run: seq<Action>, f: nat, clear: nat)
    requires Valid(c, run) && f < |c.s.frames| && c.s.bits[f] && NeverReached(c, run, f)
    ensures var d := Exec(c, run);
      && f < |d.s.frames| && d.s.bits[f]
      && (clear < |d.s.bits| && !d.s.bits[clear] ==> Clock.Sweep(d.s.bits, d.s.hand).victim != f)
    decreases |run|
  {
    if |run| > 0 {
      SparedUntilReached(c, run[..|run| - 1], f, clear);
      StepKeepsBit(Exec(c, run[..|run| - 1]), run[|run| - 1], f);
    }
    var d := Exec(c, run);
    if clear < |d.s.bits| && !d.s.bits[clear] { Clock.SweepTakesNearestClear(d.s.bits, d.s.hand, clear); }
  }
}
