/** Nobody waits for ever: some step that serves the waiting clients is always possible, and only
    so many can be taken before all have been served. */
module ProtocolProgress {
  import opened Options
  import opened Protocol
  import opened ProtocolSafety

  /** Steps that serve what is under way; the others are a client asking for something new. */
  predicate Internal(a: Step) {
    !a.MainStarts? && !a.MainLocks? && !a.MainExits?
  }

  /** The main thread is not running user code, and neither unstarted nor gone. */
  predicate Blocked(m: Main) {
    !m.Off? && !m.Running? && !m.Exited?
  }

  predicate CanServe(s: State, a: Step) { Internal(a) && Enabled(s, a) }

  // ---------------------------------------------------------------- no state is stuck

  /** A message for the `uvm_thread` gets handled: the mutex it needs is held by nobody, or by a
      thread of the same client that can go on. */
  lemma ThreadGoesOn(s: State, i: nat) returns (a: Step)
    requires Inv(s) && i < |s.clients|
    requires var c := s.clients[i]; |c.down| > 0 && !c.thread.NoThread? && !c.thread.Done?
    ensures CanServe(s, a)
  {
    var c := s.clients[i];
    assert ClientOk(c, Awaited(s, i));
    match c.thread
    case Peeks => a := ThreadPeeks(i);
    case Wants(_) =>
      a := if c.mutex.Free? then ThreadLocks(i) else if c.main.Locked? then MainSends(i) else MainWaits(i);
    case Handles(_) => a := ThreadHandles(i);
    case Acks(_) => a := ThreadAcks(i);
    case Unlocks => a := ThreadUnlocks(i);
  }

  /** A request at the head of its channel, possibly ahead of an awaited acknowledgement, gets
      consumed: its server thread is not in the pager. */
  lemma RequestGoesOn(s: State, i: nat) returns (a: Step)
    requires Inv(s) && i < |s.clients|
    requires |s.clients[i].up| > 0 && s.clients[i].up[0].Req?
    ensures CanServe(s, a)
  {
    var c := s.clients[i];
    assert ClientOk(c, Awaited(s, i));
    a := if c.server.Listens? then ServerPeeks(i) else ServerTakes(i);
  }

  /** The holder of the pager mutex goes on, or the client that it waits for does. */
  lemma HolderGoesOn(s: State) returns (a: Step)
    requires Inv(s) && s.lock.Some?
    ensures CanServe(s, a)
  {
    var h := s.lock.value;
    var v := s.clients[h].server;
    assert ServerOk(s, h);
    if v.InPager? {
      a := ServerLeaves(h);
    } else if v.TakesAck? {
      a := ServerTakesAck(h);
    } else {
      var t, c := v.target, s.clients[v.target];
      assert Awaited(s, t) == Some(v.ack) && ClientOk(c, Awaited(s, t));
      if c.thread.Acks? {
        a := ThreadAcks(t);
      } else if |c.up| > 0 {
        if c.up[0].Req? { a := RequestGoesOn(s, t); } else { a := ServerSeesAck(h); }
      } else {
        a := ThreadGoesOn(s, t);
      }
    }
  }

  /** With the pager mutex free, a blocked client's own threads go on. */
  lemma ClientGoesOn(s: State, i: nat) returns (a: Step)
    requires Inv(s) && s.lock.None? && i < |s.clients| && Blocked(s.clients[i].main)
    ensures CanServe(s, a)
  {
    var c := s.clients[i];
    assert ClientOk(c, Awaited(s, i)) && ServerOk(s, i);
    if c.main.Locked? {
      a := MainSends(i);
    } else if c.main.Sent? {
      a := MainWaits(i);
    } else if c.main.Woken? {
      if c.mutex.Free? { a := MainResumes(i); } else { a := MutexHolderGoesOn(s, i); }
    } else if c.thread.Done? {
      a := MainJoins(i);
    } else if UpReq(c.up).Some? {
      a := RequestGoesOn(s, i);
    } else if c.server.Enters? {
      a := ServerEnters(i);
    } else if c.server.Replies? {
      a := ServerReplies(i);
    } else if c.main.AwaitCreate? {
      a := MainCreated(i);
    } else {
      a := ThreadGoesOn(s, i);
    }
  }

  lemma MutexHolderGoesOn(s: State, i: nat) returns (a: Step)
    requires Inv(s) && i < |s.clients| && s.clients[i].mutex.ByThread?
    ensures CanServe(s, a)
  {
    var c := s.clients[i];
    assert ClientOk(c, Awaited(s, i));
    a := if c.thread.Handles? then ThreadHandles(i) else if c.thread.Acks? then ThreadAcks(i) else ThreadUnlocks(i);
  }

  /** No reachable state with a waiting client is stuck. */
  lemma NeverStuck(s: State, i: nat)
    requires Inv(s) && i < |s.clients| && Blocked(s.clients[i].main)
    ensures exists a :: CanServe(s, a)
  {
    var a;
    if s.lock.Some? { a := HolderGoesOn(s); } else { a := ClientGoesOn(s, i); }
    assert CanServe(s, a);
  }

  // ---------------------------------------------------------------- and the work runs out

  function UpWork(up: seq<Up>, n: nat): nat {
    if |up| == 0 then 0 else (if up[0].Req? then 9 + 8 * n else 0) + UpWork(up[1..], n)
  }

  function DownWork(down: seq<Down>): nat {
    if |down| == 0 then 0 else (if down[0].Rep? then 4 else 5) + DownWork(down[1..])
  }

  function MainWork(m: Main, n: nat): nat {
    match m
    case Locked(_) => 12 + 8 * n
    case Sent(_) => 2
    case Waiting(_) => 1
    case Woken(_) => 1
    case ExitSent => 1
    case _ => 0
  }

  function ThreadWork(t: Thread): nat {
    match t
    case Acks(_) => 5
    case Unlocks => 4
    case Peeks => 3
    case Wants(_) => 2
    case Handles(_) => 1
    case _ => 0
  }

  function ServerWork(v: Server, n: nat): nat {
    match v
    case Listens => 2
    case Takes(_) => 1
    case Enters(_) => 9 + 8 * n
    case InPager(_, calls) => 8 + 8 * calls
    case Awaits(_, calls, _, _) => 10 + 8 * calls
    case TakesAck(_, calls, _, _) => 9 + 8 * calls
    case Replies(_) => 7
    case _ => 0
  }

  function ClientWork(c: Client, n: nat): nat {
    MainWork(c.main, n) + ThreadWork(c.thread) + ServerWork(c.server, n) + UpWork(c.up, n) + DownWork(c.down)
  }

  function WorkOf(cs: seq<Client>, n: nat): nat {
    if |cs| == 0 then 0 else ClientWork(cs[0], n) + WorkOf(cs[1..], n)
  }

  function Work(s: State): nat { WorkOf(s.clients, s.maxCalls) }

  lemma {:induction false} WorkUpdate(cs: seq<Client>, n: nat, i: nat, c: Client)
    requires i < |cs|
    ensures WorkOf(cs[i := c], n) == WorkOf(cs, n) - ClientWork(cs[i], n) + ClientWork(c, n)
  {
    if i == 0 {
      assert cs[i := c][1..] == cs[1..];
    } else {
      WorkUpdate(cs[1..], n, i - 1, c);
      assert cs[i := c][1..] == cs[1..][i - 1 := c];
    }
  }

  lemma {:induction false} UpWorkAppend(up: seq<Up>, n: nat, m: Up)
    ensures UpWork(up + [m], n) == UpWork(up, n) + if m.Req? then 9 + 8 * n else 0
  {
    if |up| > 0 {
      UpWorkAppend(up[1..], n, m);
      assert (up + [m])[1..] == up[1..] + [m];
    }
  }

  lemma {:induction false} DownWorkAppend(down: seq<Down>, m: Down)
    ensures DownWork(down + [m]) == DownWork(down) + if m.Rep? then 4 else 5
  {
    if |down| > 0 {
      DownWorkAppend(down[1..], m);
      assert (down + [m])[1..] == down[1..] + [m];
    }
  }

  lemma MainStepWork(s: State, a: Step)
    requires Inv(s) && CanServe(s, a) && Asserts(s, a) && IsMain(a)
    ensures ClientWork(Next(s, a).clients[a.i], s.maxCalls) < ClientWork(s.clients[a.i], s.maxCalls)
  {
    var c, n := s.clients[a.i], s.maxCalls;
    assert LifeOk(c) by { assert ClientOk(c, Awaited(s, a.i)); }
    if a.MainSends? { UpWorkAppend(c.up, n, Req(c.main.kind)); }
  }

  lemma ThreadAckWork(s: State, a: Step)
    requires Inv(s) && CanServe(s, a) && a.ThreadAcks?
    ensures ClientWork(Next(s, a).clients[a.i], s.maxCalls) < ClientWork(s.clients[a.i], s.maxCalls)
  {
    var c := s.clients[a.i];
    UpWorkAppend(c.up, s.maxCalls, AckOf(c.thread.ack));
  }

  lemma ThreadStepWork(s: State, a: Step)
    requires Inv(s) && CanServe(s, a) && Asserts(s, a) && IsThread(a)
    ensures ClientWork(Next(s, a).clients[a.i], s.maxCalls) < ClientWork(s.clients[a.i], s.maxCalls)
  {
    if a.ThreadAcks? { ThreadAckWork(s, a); }
  }

  lemma ReplyWork(s: State, a: Step)
    requires Inv(s) && CanServe(s, a) && Asserts(s, a) && a.ServerReplies?
    ensures ClientWork(Next(s, a).clients[a.i], s.maxCalls) < ClientWork(s.clients[a.i], s.maxCalls)
  {
    var c := s.clients[a.i];
    DownWorkAppend(c.down, Rep(c.server.kind));
  }

  lemma ServerStepWork(s: State, a: Step)
    requires Inv(s) && CanServe(s, a) && Asserts(s, a) && !IsMain(a) && !IsThread(a)
    requires !a.ServerCalls? && !a.ServerTakesAck?
    ensures ClientWork(Next(s, a).clients[a.i], s.maxCalls) < ClientWork(s.clients[a.i], s.maxCalls)
  {
    if a.ServerReplies? {
      ReplyWork(s, a);
    } else {
      assert ServerOk(s, a.i);
    }
  }

  function Caller(c: Client, t: nat, cmd: Command): Client
    requires c.server.InPager? && c.server.calls > 0
  {
    c.(server := Awaits(c.server.kind, c.server.calls - 1, t, AckFor(cmd)))
  }

  function Called(d: Client, cmd: Command): Client {
    d.(down := d.down + [Cmd(cmd)], want := Apply(d.want, cmd))
  }

  lemma CalledWork(d: Client, cmd: Command, n: nat)
    ensures ClientWork(Called(d, cmd), n) == ClientWork(d, n) + 5
  {
    DownWorkAppend(d.down, Cmd(cmd));
  }

  lemma CallIs(s: State, a: Step)
    requires Enabled(s, a) && a.ServerCalls?
    ensures a.i < |s.clients| && s.clients[a.i].server.InPager? && s.clients[a.i].server.calls > 0
    ensures a.target < |s.clients| && Next(s, a).maxCalls == s.maxCalls
    ensures var cs := s.clients[a.i := Caller(s.clients[a.i], a.target, a.cmd)];
      Next(s, a).clients == cs[a.target := Called(cs[a.target], a.cmd)]
  {
  }

  lemma CallWork(s: State, a: Step)
    requires Enabled(s, a) && a.ServerCalls?
    ensures Work(Next(s, a)) < Work(s)
  {
    CallIs(s, a);
    var c := Caller(s.clients[a.i], a.target, a.cmd);
    var cs := s.clients[a.i := c];
    WorkUpdate(s.clients, s.maxCalls, a.i, c);
    CalledWork(cs[a.target], a.cmd, s.maxCalls);
    WorkUpdate(cs, s.maxCalls, a.target, Called(cs[a.target], a.cmd));
  }

  lemma TakesAckWork(s: State, a: Step)
    requires Inv(s) && CanServe(s, a) && a.ServerTakesAck? && Asserts(s, a)
    ensures Work(Next(s, a)) < Work(s)
  {
    var i, c, n := a.i, s.clients[a.i], s.maxCalls;
    var t, c' := c.server.target, c.(server := InPager(c.server.kind, c.server.calls));
    var cs := s.clients[i := c'];
    WorkUpdate(s.clients, n, i, c');
    WorkUpdate(cs, n, t, Next(s, a).clients[t]);
  }

  lemma StepWorks(s: State, a: Step)
    requires Inv(s) && CanServe(s, a) && Asserts(s, a)
    ensures Work(Next(s, a)) < Work(s)
  {
    if a.ServerCalls? { CallWork(s, a); }
    else if a.ServerTakesAck? { TakesAckWork(s, a); }
    else {
      if IsMain(a) { MainStepWork(s, a); } else if IsThread(a) { ThreadStepWork(s, a); } else { ServerStepWork(s, a); }
      assert Next(s, a).clients == s.clients[a.i := Next(s, a).clients[a.i]];
      WorkUpdate(s.clients, s.maxCalls, a.i, Next(s, a).clients[a.i]);
    }
  }

  predicate Serving(run: seq<Step>) { forall k :: 0 <= k < |run| ==> Internal(run[k]) }

  /** However the threads are scheduled, without new requests at most `Work` steps are left. */
  lemma {:induction false} ServingIsBounded(s: State, run: seq<Step>)
    requires Inv(s) && Valid(s, run) && Serving(run)
    ensures |run| + Work(Exec(s, run)) <= Work(s)
    decreases |run|
  {
    if |run| > 0 {
      var t, a := Exec(s, run[..|run| - 1]), run[|run| - 1];
      ServingIsBounded(s, run[..|run| - 1]);
      NextInv(t, a);
      StepWorks(t, a);
    }
  }

  /** A run of serving steps that cannot be prolonged has served everybody; and as none is longer
      than `Work`, every schedule gets there. */
  lemma MaximalRunServesAll(s: State, run: seq<Step>)
    requires Inv(s) && Valid(s, run) && Serving(run)
    requires forall a :: !CanServe(Exec(s, run), a)
    ensures |run| <= Work(s)
    ensures forall i :: 0 <= i < |s.clients| ==> !Blocked(Exec(s, run).clients[i].main)
  {
    ServingIsBounded(s, run);
    forall i | 0 <= i < |s.clients| ensures !Blocked(Exec(s, run).clients[i].main) {
      if Blocked(Exec(s, run).clients[i].main) {
        NeverStuck(Exec(s, run), i);
      }
    }
  }
}
