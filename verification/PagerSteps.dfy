/** Each piece of the pager, and each user access, keeps the invariant and leaves every page's
    meaning alone, except for the one byte a store writes. */
module PagerSteps {
  import opened Options
  import opened PagerState
  import Clock

  /** Pages and their contents are the same in both configurations. */
  ghost predicate SamePages(c: Config, d: Config)
    requires Inv(c.s, c.ph) && Inv(d.s, d.ph)
  {
    forall pg :: (d.s.Has(pg) <==> c.s.Has(pg)) && (c.s.Has(pg) ==> Content(d, pg) == Content(c, pg))
  }

  /** Everything the next piece dereferences is a live page of a live process. */
  lemma InvRunnable(c: Config)
    requires Inv(c.s, c.ph)
    ensures Runnable(c)
  {
    var s := c.s;
    match c.ph
    case Granting(pg) => assert PageOk(s, c.ph, pg);
    case Protecting(i, pg) =>
      assert FrameOk(s, c.ph, i);
      assert PageOk(s, c.ph, s.frames[i].page);
    case Unmapping(f, pg) =>
      assert FrameOk(s, c.ph, f);
      assert PageOk(s, c.ph, s.frames[f].page);
    case Evicting(f, pg) => assert PageOk(s, c.ph, s.frames[f].page);
    case Vacant(f, pg) => assert PageOk(s, c.ph, pg);
    case _ =>
  }

  lemma FaultStartOk(s: State, pg: PageId)
    requires Inv(s, Idle) && s.Has(pg)
    ensures s.At(pg).valid ==> pg in s.maps
    ensures var d := FaultStart(s, pg); Inv(d.s, d.ph) && SamePages(Config(s, Idle), d)
  {
    assert PageOk(s, Idle, pg);
    FaultStartInv(s, pg);
  }

  lemma FaultStartInv(s: State, pg: PageId)
    requires Inv(s, Idle) && s.Has(pg) && (s.At(pg).valid ==> pg in s.maps)
    ensures var d := FaultStart(s, pg); Inv(d.s, d.ph)
  {
    if s.At(pg).valid { GrantInv(s, pg); } else { MissInv(s, pg); }
  }

  lemma GrantInv(s: State, pg: PageId)
    requires Inv(s, Idle) && s.Has(pg) && s.At(pg).valid && pg in s.maps
    ensures Inv(s.ChProt(pg, ReadWrite), Granting(pg))
  {
    var d, ph := s.ChProt(pg, ReadWrite), Granting(pg);
    assert PageOk(s, Idle, pg);
    forall q | s.Has(q) ensures PageOk(d, ph, q) { assert PageOk(s, Idle, q); }
    forall f | 0 <= f < |s.frames| ensures FrameOk(d, ph, f) { assert FrameOk(s, Idle, f); }
    forall b | 0 <= b < |s.blocks| ensures BlockOk(d, b) { assert BlockOk(s, b); }
    forall q | q in d.maps ensures MapOk(d, ph, q) { assert MapOk(s, Idle, q); }
  }

  lemma MissInv(s: State, pg: PageId)
    requires Inv(s, Idle) && Missing(s, pg)
    ensures var d := FaultStart(s, pg); Inv(d.s, d.ph)
  {
    var d := FaultStart(s, pg);
    forall q | s.Has(q) ensures PageOk(d.s, d.ph, q) { assert PageOk(s, Idle, q); }
    forall f | 0 <= f < |s.frames| ensures FrameOk(d.s, d.ph, f) { assert FrameOk(s, Idle, f); }
    forall b | 0 <= b < |s.blocks| ensures BlockOk(d.s, b) { assert BlockOk(s, b); }
    forall q | q in d.s.maps ensures MapOk(d.s, d.ph, q) { assert MapOk(s, Idle, q); }
  }

  lemma AdvanceOk(c: Config)
    requires Inv(c.s, c.ph) && !c.ph.Idle?
    ensures Runnable(c)
    ensures Inv(Advance(c).s, Advance(c).ph) && SamePages(c, Advance(c))
  {
    InvRunnable(c);
    AdvanceInv(c);
    forall pg | c.s.Has(pg) ensures Content(Advance(c), pg) == Content(c, pg) {
      AdvanceKeepsContent(c, pg);
    }
  }

  lemma AdvanceInv(c: Config)
    requires Inv(c.s, c.ph) && !c.ph.Idle? && Runnable(c)
    ensures Inv(Advance(c).s, Advance(c).ph)
  {
    if c.ph.Granting? { MarkDirtyInv(c); }
    else if c.ph.Protecting? { ProtectInv(c); }
    else if c.ph.Unmapping? { UnmapInv(c); }
    else if c.ph.Evicting? { SaveInv(c); }
    else if c.ph.Vacant? { FillInv(c); }
    else { MapInv(c); }
  }

  lemma AdvanceKeepsContent(c: Config, pg: PageId)
    requires Inv(c.s, c.ph) && !c.ph.Idle? && Runnable(c) && c.s.Has(pg)
    requires Inv(Advance(c).s, Advance(c).ph)
    ensures Advance(c).s.Has(pg) && Content(Advance(c), pg) == Content(c, pg)
  {
    assert PageOk(c.s, c.ph, pg);
    if c.ph.Unmapping? || c.ph.Evicting? {
      assert PageOk(c.s, c.ph, c.s.frames[c.ph.f].page) && FrameOk(c.s, c.ph, c.ph.f);
    }
  }

  lemma MarkDirtyInv(c: Config)
    requires Inv(c.s, c.ph) && c.ph.Granting? && Runnable(c)
    ensures Inv(Advance(c).s, Advance(c).ph)
  {
    var d := Advance(c);
    assert PageOk(c.s, c.ph, c.ph.pg);
    forall q | d.s.Has(q) ensures PageOk(d.s, d.ph, q) { assert PageOk(c.s, c.ph, q); }
    forall f | 0 <= f < |d.s.frames| ensures FrameOk(d.s, d.ph, f) { assert FrameOk(c.s, c.ph, f); }
    forall b | 0 <= b < |d.s.blocks| ensures BlockOk(d.s, b) { assert BlockOk(c.s, b); }
    forall q | q in d.s.maps ensures MapOk(d.s, d.ph, q) { assert MapOk(c.s, c.ph, q); }
    assert Sizes(d.s) && PhaseOk(d.s, d.ph);
  }

  lemma ProtectInv(c: Config)
    requires Inv(c.s, c.ph) && c.ph.Protecting? && Runnable(c)
    ensures Inv(Advance(c).s, Advance(c).ph)
  {
    var d := Advance(c);
    forall q | d.s.Has(q) ensures PageOk(d.s, d.ph, q) { assert PageOk(c.s, c.ph, q); }
    forall f | 0 <= f < |d.s.frames| ensures FrameOk(d.s, d.ph, f) { assert FrameOk(c.s, c.ph, f); }
    forall b | 0 <= b < |d.s.blocks| ensures BlockOk(d.s, b) { assert BlockOk(c.s, b); }
    forall q | q in d.s.maps ensures MapOk(d.s, d.ph, q) { assert MapOk(c.s, c.ph, q); }
    assert Sizes(d.s) && PhaseOk(d.s, d.ph);
  }

  lemma UnmapPages(c: Config)
    requires Inv(c.s, c.ph) && c.ph.Unmapping? && Runnable(c)
    ensures var d := Advance(c);
      (forall q :: d.s.Has(q) ==> PageOk(d.s, d.ph, q)) && forall b :: 0 <= b < |d.s.blocks| ==> BlockOk(d.s, b)
  {
    var d := Advance(c);
    assert FrameOk(c.s, c.ph, c.ph.f);
    forall q | d.s.Has(q) ensures PageOk(d.s, d.ph, q) { assert PageOk(c.s, c.ph, q); }
    forall b | 0 <= b < |d.s.blocks| ensures BlockOk(d.s, b) { assert BlockOk(c.s, b); }
  }

  lemma UnmapFrames(c: Config)
    requires Inv(c.s, c.ph) && c.ph.Unmapping? && Runnable(c)
    ensures var d := Advance(c);
      (forall f :: 0 <= f < |d.s.frames| ==> FrameOk(d.s, d.ph, f)) && forall q :: q in d.s.maps ==> MapOk(d.s, d.ph, q)
  {
    var d := Advance(c);
    assert FrameOk(c.s, c.ph, c.ph.f) && PageOk(c.s, c.ph, c.s.frames[c.ph.f].page);
    forall f | 0 <= f < |d.s.frames| ensures FrameOk(d.s, d.ph, f) { assert FrameOk(c.s, c.ph, f); }
    forall q | q in d.s.maps ensures MapOk(d.s, d.ph, q) { assert MapOk(c.s, c.ph, q); }
  }

  lemma UnmapInv(c: Config)
    requires Inv(c.s, c.ph) && c.ph.Unmapping? && Runnable(c)
    ensures Inv(Advance(c).s, Advance(c).ph)
  {
    var d := Advance(c);
    assert FrameOk(c.s, c.ph, c.ph.f) && PageOk(c.s, c.ph, c.s.frames[c.ph.f].page);
    UnmapPages(c);
    UnmapFrames(c);
    assert Sizes(d.s) && PhaseOk(d.s, d.ph);
  }

  lemma SaveInv(c: Config)
    requires Inv(c.s, c.ph) && c.ph.Evicting? && Runnable(c)
    ensures Inv(Advance(c).s, Advance(c).ph)
  {
    var d := Advance(c);
    assert PageOk(c.s, c.ph, c.s.frames[c.ph.f].page);
    forall q | d.s.Has(q) ensures PageOk(d.s, d.ph, q) { assert PageOk(c.s, c.ph, q); }
    forall f | 0 <= f < |d.s.frames| ensures FrameOk(d.s, d.ph, f) { assert FrameOk(c.s, c.ph, f); }
    forall b | 0 <= b < |d.s.blocks| ensures BlockOk(d.s, b) { assert BlockOk(c.s, b); }
    forall q | q in d.s.maps ensures MapOk(d.s, d.ph, q) { assert MapOk(c.s, c.ph, q); }
    assert Sizes(d.s) && PhaseOk(d.s, d.ph);
  }

  lemma FillInv(c: Config)
    requires Inv(c.s, c.ph) && c.ph.Vacant? && Runnable(c)
    ensures Inv(Advance(c).s, Advance(c).ph)
  {
    var d := Advance(c);
    assert PageOk(c.s, c.ph, c.ph.pg);
    forall q | d.s.Has(q) ensures PageOk(d.s, d.ph, q) { assert PageOk(c.s, c.ph, q); }
    forall f | 0 <= f < |d.s.frames| ensures FrameOk(d.s, d.ph, f) { assert FrameOk(c.s, c.ph, f); }
    forall b | 0 <= b < |d.s.blocks| ensures BlockOk(d.s, b) { assert BlockOk(c.s, b); }
    forall q | q in d.s.maps ensures MapOk(d.s, d.ph, q) { assert MapOk(c.s, c.ph, q); }
    assert Sizes(d.s) && PhaseOk(d.s, d.ph);
  }

  lemma MapInv(c: Config)
    requires Inv(c.s, c.ph) && c.ph.Filled? && Runnable(c)
    ensures Inv(Advance(c).s, Advance(c).ph)
  {
    var d := Advance(c);
    forall q | d.s.Has(q) ensures PageOk(d.s, d.ph, q) { assert PageOk(c.s, c.ph, q); }
    forall f | 0 <= f < |d.s.frames| ensures FrameOk(d.s, d.ph, f) { assert FrameOk(c.s, c.ph, f); }
    forall b | 0 <= b < |d.s.blocks| ensures BlockOk(d.s, b) { assert BlockOk(c.s, b); }
    forall q | q in d.s.maps ensures MapOk(d.s, d.ph, q) { assert q != c.ph.pg ==> MapOk(c.s, c.ph, q); }
    assert Sizes(d.s) && PhaseOk(d.s, d.ph);
  }

  // ---------------------------------------------------------------- user accesses, in any phase

  /** Whatever the pager is in the middle of, a permitted load sees the page's own bytes. */
  lemma LoadSeesContent(c: Config, pg: PageId, off: nat)
    requires Inv(c.s, c.ph) && c.s.CanRead(pg, off)
    ensures c.s.Has(pg) && c.s.maps[pg].frame < |c.s.pmem|
    ensures c.s.pmem[c.s.maps[pg].frame] == Content(c, pg) && off < |Content(c, pg)|
  {
    assert MapOk(c.s, c.ph, pg) && PageOk(c.s, c.ph, pg);
  }

  /** Two pages never share a frame, so a store through one page's mapping misses the other. */
  lemma StoreMisses(c: Config, pg: PageId, off: nat, q: PageId)
    requires Inv(c.s, c.ph) && c.s.CanWrite(pg, off) && c.s.Has(q) && q != pg
    ensures c.s.At(q).valid ==> c.s.At(q).frame != c.s.maps[pg].frame
    ensures c.ph.Evicting? ==> c.s.maps[pg].frame != c.ph.f
  {
    assert MapOk(c.s, c.ph, pg) && PageOk(c.s, c.ph, pg) && PageOk(c.s, c.ph, q);
  }

  lemma StoreKeepsInv(c: Config, pg: PageId, off: nat, v: Byte)
    requires Inv(c.s, c.ph) && c.s.CanWrite(pg, off)
    ensures c.s.maps[pg].frame < |c.s.pmem| && off < |c.s.pmem[c.s.maps[pg].frame]|
    ensures Inv(c.s.Store(pg, off, v), c.ph)
  {
    LoadSeesContent(c, pg, off);
    var s, d := c.s, c.s.Store(pg, off, v);
    assert MapOk(s, c.ph, pg) && PageOk(s, c.ph, pg);
    forall q | d.Has(q) ensures PageOk(d, c.ph, q) {
      assert s.Has(q) && PageOk(s, c.ph, q);
      if q != pg {
        StoreMisses(c, pg, off, q);
        assert s.At(q).valid && Clean(s, q) ==> Clean(d, q);
      }
    }
    if c.ph.Evicting? {
      StoreMisses(c, pg, off, s.frames[c.ph.f].page);
    }
    forall g | 0 <= g < |d.frames| ensures FrameOk(d, c.ph, g) { assert FrameOk(s, c.ph, g); }
    forall b | 0 <= b < |d.blocks| ensures BlockOk(d, b) { assert BlockOk(s, b); }
    forall q | q in d.maps ensures MapOk(d, c.ph, q) { assert MapOk(s, c.ph, q); }
    assert Sizes(d);
    assert PhaseOk(d, c.ph);
  }

  /** Whatever the pager is in the middle of, a permitted store changes that one byte of that
      one page, and no byte of any other page of any process. */
  lemma StoreOk(c: Config, pg: PageId, off: nat, v: Byte)
    requires Inv(c.s, c.ph) && c.s.CanWrite(pg, off)
    ensures c.s.Has(pg) && c.s.maps[pg].frame < |c.s.pmem| && off < |c.s.pmem[c.s.maps[pg].frame]|
    ensures var d := Config(c.s.Store(pg, off, v), c.ph);
      && Inv(d.s, d.ph)
      && (forall q :: d.s.Has(q) <==> c.s.Has(q))
      && off < |Content(c, pg)|
      && (forall q :: c.s.Has(q) ==>
            Content(d, q) == if q == pg then Content(c, q)[off := v] else Content(c, q))
  {
    LoadSeesContent(c, pg, off);
    StoreKeepsInv(c, pg, off, v);
    var d := Config(c.s.Store(pg, off, v), c.ph);
    assert MapOk(c.s, c.ph, pg) && PageOk(c.s, c.ph, pg);
    forall q | c.s.Has(q)
      ensures Content(d, q) == if q == pg then Content(c, q)[off := v] else Content(c, q)
    {
      assert PageOk(c.s, c.ph, q);
      if q != pg { StoreMisses(c, pg, off, q); }
    }
  }

  // ---------------------------------------------------------------- creation, extension, destruction

  lemma CreateOk(s: State, pid: int)
    requires Inv(s, Idle) && pid !in s.tables && pid != INVALID_PID
    ensures var d := DoCreate(s, pid); Inv(d, Idle) && SamePages(Config(s, Idle), Config(d, Idle))
  {
    var d := DoCreate(s, pid);
    forall q | d.Has(q) ensures PageOk(d, Idle, q) { assert s.Has(q) && PageOk(s, Idle, q); }
    forall f | 0 <= f < |d.frames| ensures FrameOk(d, Idle, f) { assert FrameOk(s, Idle, f); }
    forall b | 0 <= b < |d.blocks| ensures BlockOk(d, b) { assert BlockOk(s, b); }
    forall q | q in d.maps ensures MapOk(d, Idle, q) { assert MapOk(s, Idle, q); }
  }

  /** An extension adds exactly one page, at the end of its process's table, which reads as the
      block it took; without an unowned block it changes nothing. */
  lemma ExtendOk(s: State, pid: int)
    requires Inv(s, Idle) && pid in s.tables
    ensures var d, b, added := DoExtend(s, pid), FreeBlockFrom(s.blocks, 0), PageId(pid, |s.tables[pid]|);
      && Inv(d, Idle)
      && (b.None? ==> d == s)
      && (b.Some? ==>
            && (forall q :: d.Has(q) <==> s.Has(q) || q == added)
            && Content(Config(d, Idle), added) == s.Backing(b.value))
      && (forall q :: s.Has(q) ==> Content(Config(d, Idle), q) == Content(Config(s, Idle), q))
  {
    var d, r, added := DoExtend(s, pid), FreeBlockFrom(s.blocks, 0), PageId(pid, |s.tables[pid]|);
    if r.Some? {
      forall q | d.Has(q) && q != added ensures d.At(q) == s.At(q) && PageOk(d, Idle, q) {
        assert s.Has(q) && PageOk(s, Idle, q);
      }
      assert d.Has(added) && PageOk(d, Idle, added);
      forall f | 0 <= f < |d.frames| ensures FrameOk(d, Idle, f) { assert FrameOk(s, Idle, f); }
      forall b | 0 <= b < |d.blocks| ensures BlockOk(d, b) { assert BlockOk(s, b); }
      forall q | q in d.maps ensures MapOk(d, Idle, q) { assert MapOk(s, Idle, q); }
    }
  }

  /** Destruction takes that process's pages and nothing else. */
  lemma DestroyOk(s: State, pid: int)
    requires Inv(s, Idle) && pid in s.tables
    ensures var d := DoDestroy(s, pid);
      && Inv(d, Idle)
      && (forall q :: d.Has(q) <==> s.Has(q) && q.pid != pid)
      && (forall q :: d.Has(q) ==> Content(Config(d, Idle), q) == Content(Config(s, Idle), q))
  {
    var d := DoDestroy(s, pid);
    forall q | d.Has(q) ensures s.Has(q) && q.pid != pid && d.At(q) == s.At(q) && PageOk(d, Idle, q) {
      assert s.Has(q) && PageOk(s, Idle, q);
    }
    forall f | 0 <= f < |d.frames| ensures FrameOk(d, Idle, f) { assert FrameOk(s, Idle, f); }
    forall b | 0 <= b < |d.blocks| ensures BlockOk(d, b) { assert BlockOk(s, b); }
    forall q | q in d.maps ensures MapOk(d, Idle, q) { assert MapOk(s, Idle, q); }
  }
}
