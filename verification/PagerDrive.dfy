/** A whole fault, with the stores that other processes slip in between the pager's calls; and the
    list of page tables with its first-match search. */
module PagerDrive {
  import opened Options
  import opened PagerState
  import opened PagerSteps
  import opened PagerRuns

  /** A store that a process attempts. */
  datatype Poke = Poke(pg: PageId, off: nat, v: Byte)

  /** Permitted stores reach the frame; the others would fault and wait for the pager. */
  function UserStores(s: State, pokes: seq<Poke>): State
    decreases |pokes|
  {
    if |pokes| == 0 then s
    else
      var t, p := UserStores(s, pokes[..|pokes| - 1]), pokes[|pokes| - 1];
      if t.CanWrite(p.pg, p.off) && t.maps[p.pg].frame < |t.pmem| && p.off < |t.pmem[t.maps[p.pg].frame]| then
        t.Store(p.pg, p.off, p.v)
      else t
  }

  lemma {:induction false} UserStoresOk(c: Config, pokes: seq<Poke>)
    requires Inv(c.s, c.ph)
    ensures Inv(UserStores(c.s, pokes), c.ph)
    decreases |pokes|
  {
    if |pokes| > 0 {
      var t, p := UserStores(c.s, pokes[..|pokes| - 1]), pokes[|pokes| - 1];
      UserStoresOk(c, pokes[..|pokes| - 1]);
      if t.CanWrite(p.pg, p.off) {
        StoreOk(Config(t, c.ph), p.pg, p.off, p.v);
      }
    }
  }

  /** How many pieces are left. */
  function Left(c: Config): nat {
    match c.ph
    case Idle => 0
    case Granting(_) => 1
    case Filled(_, _) => 1
    case Vacant(_, _) => 2
    case Evicting(_, _) => 3
    case Unmapping(_, _) => 4
    case Protecting(i, _) => 4 + if i < |c.s.frames| then |c.s.frames| - i else 0
  }

  lemma {:induction false} UserStoresFrame(s: State, pokes: seq<Poke>)
    ensures UserStores(s, pokes) == s.(pmem := UserStores(s, pokes).pmem)
    decreases |pokes|
  {
    if |pokes| > 0 { UserStoresFrame(s, pokes[..|pokes| - 1]); }
  }

  /** One piece of the pager, after the stores that come before it. */
  ghost function Round(c: Machine, pokes: seq<Poke>): (d: Machine)
    requires !c.ph.Idle?
    ensures Left(d) < Left(c)
  {
    UserStoresOk(c, pokes);
    UserStoresFrame(c.s, pokes);
    AdvanceOk(Config(UserStores(c.s, pokes), c.ph));
    Advance(Config(UserStores(c.s, pokes), c.ph))
  }

  lemma RoundIs(c: Machine, pokes: seq<Poke>)
    requires !c.ph.Idle?
    ensures var d := Config(UserStores(c.s, pokes), c.ph);
      Inv(d.s, d.ph) && Runnable(d) && Round(c, pokes) == Advance(d)
    ensures UserStores(c.s, pokes) == c.s.(pmem := UserStores(c.s, pokes).pmem)
  {
    UserStoresOk(c, pokes);
    UserStoresFrame(c.s, pokes);
    AdvanceOk(Config(UserStores(c.s, pokes), c.ph));
  }

  /** Serve a fault to its end; `users(k)` are the stores attempted before the k-th piece. */
  ghost function Drive(c: Machine, users: nat -> seq<Poke>, k: nat): (s: State)
    ensures Inv(s, Idle)
    decreases Left(c)
  {
    if c.ph.Idle? then c.s else Drive(Round(c, users(k)), users, k + 1)
  }

  ghost function Begin(s: State, pg: PageId): Machine
    requires Inv(s, Idle) && s.Has(pg)
  {
    FaultStartOk(s, pg);
    FaultStart(s, pg)
  }

  /** The whole of a fault on `pg`. */
  ghost function ServeFault(s: State, pg: PageId, users: nat -> seq<Poke>): (t: State)
    requires Inv(s, Idle) && s.Has(pg)
    ensures Inv(t, Idle)
  {
    Drive(Begin(s, pg), users, 0)
  }

  // ---------------------------------------------------------------- it is a run

  predicate PiecesAndStores(run: seq<Action>) {
    forall i :: 0 <= i < |run| ==> run[i] == Piece || run[i].Store?
  }

  ghost predicate Extends(c: Machine, run: seq<Action>, longer: seq<Action>, d: Machine) {
    && |run| <= |longer| && longer[..|run|] == run && PiecesAndStores(longer[|run|..])
    && Valid(c, longer) && Exec(c, longer) == d
  }

  lemma Snoc(c: Machine, run: seq<Action>, longer: seq<Action>, d: Machine, a: Action)
    requires Extends(c, run, longer, d) && Enabled(d, a) && (a == Piece || a.Store?)
    ensures Extends(c, run, longer + [a], Next(d, a))
  {
    assert (longer + [a])[..|longer + [a]| - 1] == longer;
  }

  /** The stores among `pokes` that are permitted, as actions. */
  lemma {:induction false} PokesAreRun(c: Machine, run: seq<Action>, longer: seq<Action>, d: Machine, pokes: seq<Poke>)
    returns (all: seq<Action>)
    requires Extends(c, run, longer, d)
    ensures Inv(UserStores(d.s, pokes), d.ph)
    ensures Extends(c, run, all, Config(UserStores(d.s, pokes), d.ph))
    decreases |pokes|
  {
    UserStoresOk(d, pokes);
    if |pokes| == 0 {
      all := longer;
    } else {
      var earlier, p := pokes[..|pokes| - 1], pokes[|pokes| - 1];
      all := PokesAreRun(c, run, longer, d, earlier);
      var e: Machine := Config(UserStores(d.s, earlier), d.ph);
      if e.s.CanWrite(p.pg, p.off) {
        StoreOk(e, p.pg, p.off, p.v);
        Snoc(c, run, all, e, Store(p.pg, p.off, p.v));
        all := all + [Store(p.pg, p.off, p.v)];
      }
    }
  }

  lemma RoundExtends(c: Machine, run: seq<Action>, longer: seq<Action>, d: Machine, pokes: seq<Poke>)
    returns (all: seq<Action>)
    requires Extends(c, run, longer, d) && !d.ph.Idle?
    ensures Extends(c, run, all, Round(d, pokes))
  {
    all := PokesAreRun(c, run, longer, d, pokes);
    UserStoresFrame(d.s, pokes);
    Snoc(c, run, all, Config(UserStores(d.s, pokes), d.ph), Piece);
    all := all + [Piece];
  }

  lemma {:induction false} DriveExtends(c: Machine, run: seq<Action>, longer: seq<Action>, d: Machine,
                                        users: nat -> seq<Poke>, k: nat) returns (all: seq<Action>)
    requires Extends(c, run, longer, d)
    ensures Extends(c, run, all, Config(Drive(d, users, k), Idle))
    decreases Left(d)
  {
    if d.ph.Idle? {
      all := longer;
    } else {
      all := RoundExtends(c, run, longer, d, users(k));
      all := DriveExtends(c, run, all, Round(d, users(k)), users, k + 1);
    }
  }

  /** Serving a fault, whatever the other processes do meanwhile, is a run of pieces and permitted
      stores: everything proved of runs holds of it. */
  lemma DriveIsRun(c: Machine, users: nat -> seq<Poke>) returns (run: seq<Action>)
    ensures PiecesAndStores(run) && Valid(c, run) && Exec(c, run) == Config(Drive(c, users, 0), Idle)
  {
    run := DriveExtends(c, [], [], c, users, 0);
    assert run[0..] == run;
  }

  // ---------------------------------------------------------------- the page tables

  datatype Table = Table(pid: int, pages: seq<Page>)

  /** What the list means: a process's table is the first one with its pid. */
  function TableMap(list: seq<Table>): map<int, seq<Page>> {
    if |list| == 0 then map[] else TableMap(list[1..])[list[0].pid := list[0].pages]
  }

  predicate FirstAt(list: seq<Table>, pid: int, i: nat) {
    i < |list| && list[i].pid == pid && forall k :: 0 <= k < i ==> list[k].pid != pid
  }

  lemma {:induction false} TableMapLookup(list: seq<Table>, pid: int, i: nat)
    requires FirstAt(list, pid, i)
    ensures pid in TableMap(list) && TableMap(list)[pid] == list[i].pages
  {
    if i > 0 { TableMapLookup(list[1..], pid, i - 1); }
  }

  lemma {:induction false} TableMapMissing(list: seq<Table>, pid: int)
    requires forall k :: 0 <= k < |list| ==> list[k].pid != pid
    ensures pid !in TableMap(list)
  {
    if |list| > 0 { TableMapMissing(list[1..], pid); }
  }

  lemma {:induction false} TableMapUpdate(list: seq<Table>, pid: int, i: nat, pages: seq<Page>)
    requires FirstAt(list, pid, i)
    ensures TableMap(list[i := Table(pid, pages)]) == TableMap(list)[pid := pages]
  {
    var list' := list[i := Table(pid, pages)];
    if i == 0 {
      assert list'[1..] == list[1..];
    } else {
      TableMapUpdate(list[1..], pid, i - 1, pages);
      assert list'[1..] == list[1..][i - 1 := Table(pid, pages)];
    }
  }

  /** A table behind another one with its pid is never found. */
  lemma {:induction false} TableMapAppend(list: seq<Table>, pid: int, pages: seq<Page>)
    ensures TableMap(list + [Table(pid, pages)])
      == if pid in TableMap(list) then TableMap(list) else TableMap(list)[pid := pages]
  {
    var list' := list + [Table(pid, pages)];
    if |list| == 0 {
      assert list'[1..] == [];
    } else {
      assert list'[1..] == list[1..] + [Table(pid, pages)];
      TableMapAppend(list[1..], pid, pages);
    }
  }
}
