/** Every interleaving keeps one request and one acknowledgement in flight per client, and every
    assertion of the code true. */
module ProtocolSafety {
  import opened Options
  import opened Protocol

  function Num(b: bool): nat { if b then 1 else 0 }

  function UpReq(up: seq<Up>): Option<Kind> {
    if |up| > 0 && up[0].Req? then Some(up[0].kind)
    else if |up| > 1 && up[1].Req? then Some(up[1].kind)
    else None
  }

  function UpAck(up: seq<Up>): Option<Ack> {
    if |up| > 0 && up[0].AckOf? then Some(up[0].ack)
    else if |up| > 1 && up[1].AckOf? then Some(up[1].ack)
    else None
  }

  function DownRep(down: seq<Down>): Option<Kind> {
    if |down| > 0 && down[0].Rep? then Some(down[0].kind)
    else if |down| > 1 && down[1].Rep? then Some(down[1].kind)
    else None
  }

  function DownCmd(down: seq<Down>): Option<Command> {
    if |down| > 0 && down[0].Cmd? then Some(down[0].cmd)
    else if |down| > 1 && down[1].Cmd? then Some(down[1].cmd)
    else None
  }

  /** At most one of each kind of message, in either order. */
  predicate ChannelsOk(c: Client) {
    && |c.up| <= 2 && (|c.up| == 2 ==> c.up[0].Req? != c.up[1].Req?)
    && |c.down| <= 2 && (|c.down| == 2 ==> c.down[0].Rep? != c.down[1].Rep?)
  }

  /** The request that the main thread is waiting out. */
  function Outstanding(m: Main): Option<Kind> {
    match m
    case AwaitCreate => Some(Create)
    case Sent(k) => Some(k)
    case Waiting(k) => Some(k)
    case ExitSent => Some(Exit)
    case Exited => Some(Exit)
    case _ => None
  }

  /** The request that the server thread has taken and not answered. */
  function Busy(v: Server): Option<Kind> {
    match v
    case Enters(k) => Some(k)
    case InPager(k, _) => Some(k)
    case Awaits(k, _, _, _) => Some(k)
    case TakesAck(k, _, _, _) => Some(k)
    case Replies(k) => Some(k)
    case _ => None
  }

  predicate Agrees<T(==)>(a: Option<T>, b: Option<T>) { a.Some? ==> a == b }

  /** An outstanding request is in exactly one place. */
  predicate RequestOk(c: Client) {
    var r := Outstanding(c.main);
    && Num(UpReq(c.up).Some?) + Num(Busy(c.server).Some?) + Num(DownRep(c.down).Some?) == Num(r.Some?)
    && Agrees(UpReq(c.up), r) && Agrees(Busy(c.server), r) && Agrees(DownRep(c.down), r)
  }

  /** So is an awaited command, or its acknowledgement; and until it is applied it is the only
      difference between the mappings the process has and those it was told to have. */
  predicate CommandOk(c: Client, awaited: Option<Ack>) {
    var cmd := DownCmd(c.down);
    && Num(cmd.Some?) + Num(c.thread.Acks?) + Num(UpAck(c.up).Some?) == Num(awaited.Some?)
    && (cmd.Some? ==> awaited == Some(AckFor(cmd.value)))
    && (c.thread.Acks? ==> awaited == Some(c.thread.ack))
    && Agrees(UpAck(c.up), awaited)
    && c.want == (if cmd.Some? then Apply(c.view, cmd.value) else c.view)
    && (awaited.Some? ==> c.live)
  }

  predicate MutexOk(c: Client) {
    && (c.mutex.ByMain? <==> c.main.Locked? || c.main.Sent?)
    && (c.mutex.ByThread? <==> c.thread.Handles? || c.thread.Acks? || c.thread.Unlocks?)
  }

  /** What a thread has peeked at is still the head of its channel. */
  predicate PeeksOk(c: Client) {
    && (c.server.Takes? ==> |c.up| > 0 && c.up[0] == Req(c.server.kind))
    && (c.thread.Wants? || c.thread.Handles? ==> |c.down| > 0 && TypeOf(c.down[0]) == c.thread.ty)
  }

  predicate LifeOk(c: Client) {
    && (c.main.Off? <==> c.server.NoServer?)
    && (c.main.Off? || c.main.AwaitCreate? <==> c.thread.NoThread?)
    && (c.server.Gone? <==> DownRep(c.down) == Some(Exit))
    && (c.thread.Done? ==> c.server.Gone?)
    && (c.main.Exited? ==> c.thread.Done?)
    && (c.main.Locked? || c.main.Sent? || c.main.Waiting? || c.main.Woken? ==>
          c.main.kind in {Extend, Syslog, Segv})
    && (c.live ==> !c.thread.NoThread? && !c.server.Gone? && c.server != Replies(Exit))
  }

  predicate ClientOk(c: Client, awaited: Option<Ack>) {
    ChannelsOk(c) && RequestOk(c) && CommandOk(c, awaited) && MutexOk(c) && PeeksOk(c) && LifeOk(c)
  }

  predicate Holds(v: Server) { v.InPager? || v.Awaits? || v.TakesAck? }

  predicate Waits(v: Server) { v.Awaits? || v.TakesAck? }

  /** The acknowledgement that the holder of the pager mutex awaits from client `t`. */
  function Awaited(s: State, t: nat): Option<Ack> {
    if s.lock.Some? && s.lock.value < |s.clients| && Waits(s.clients[s.lock.value].server)
       && s.clients[s.lock.value].server.target == t
    then Some(s.clients[s.lock.value].server.ack)
    else None
  }

  /** Only the holder of the pager mutex is in the pager; only a fault makes it call a client. */
  predicate ServerOk(s: State, i: nat)
    requires i < |s.clients|
  {
    var v := s.clients[i].server;
    && (Holds(v) <==> s.lock == Some(i))
    && (Waits(v) ==> v.kind.Segv? && v.target < |s.clients|)
    && (v.InPager? || Waits(v) ==> v.calls <= s.maxCalls)
    && (v.TakesAck? ==> |s.clients[v.target].up| > 0 && s.clients[v.target].up[0] == AckOf(v.ack))
  }

  ghost predicate Inv(s: State) {
    && (s.lock.Some? ==> s.lock.value < |s.clients|)
    && (forall i :: 0 <= i < |s.clients| ==> ClientOk(s.clients[i], Awaited(s, i)))
    && (forall i :: 0 <= i < |s.clients| ==> ServerOk(s, i))
  }

  /** `n` clients that have yet to start. */
  ghost function Boot(n: nat, maxCalls: nat): (s: State)
    ensures Init(s) && Inv(s)
  {
    var s := State(seq(n, _ => NewClient()), None, maxCalls);
    assert forall i :: 0 <= i < n ==> ClientOk(s.clients[i], Awaited(s, i)) && ServerOk(s, i);
    s
  }

  /** In every reachable state the message that is received is the one that was peeked at, and a
      signal finds its waiter in cond_wait: no reply wake-up is lost. */
  lemma AssertsHold(s: State, a: Step)
    requires Inv(s) && Enabled(s, a)
    ensures Asserts(s, a)
  {
    assert ClientOk(s.clients[a.i], Awaited(s, a.i)) && ServerOk(s, a.i);
  }

  // ---------------------------------------------------------------- steps of one client

  predicate IsMain(a: Step) {
    a.MainStarts? || a.MainCreated? || a.MainLocks? || a.MainSends? || a.MainWaits?
    || a.MainResumes? || a.MainExits? || a.MainJoins?
  }

  predicate IsThread(a: Step) {
    a.ThreadPeeks? || a.ThreadLocks? || a.ThreadHandles? || a.ThreadAcks? || a.ThreadUnlocks?
  }

  /** Another thread's step leaves what a server has peeked at, and what it awaits, in place. */
  predicate Undisturbed(c: Client, d: Client) {
    && c.up <= d.up
    && (d.server == c.server || (c.server.NoServer? && d.server.Listens?))
  }

  lemma MainSendsOk(s: State, a: Step)
    requires Inv(s) && Enabled(s, a) && Asserts(s, a)
    requires a.MainStarts? || a.MainSends? || a.MainExits?
    ensures ClientOk(Next(s, a).clients[a.i], Awaited(s, a.i))
    ensures Undisturbed(s.clients[a.i], Next(s, a).clients[a.i])
  {
    assert ClientOk(s.clients[a.i], Awaited(s, a.i));
  }

  lemma MainLocksOk(s: State, a: Step)
    requires Inv(s) && Enabled(s, a) && Asserts(s, a) && (a.MainLocks? || a.MainWaits? || a.MainResumes?)
    ensures ClientOk(Next(s, a).clients[a.i], Awaited(s, a.i))
    ensures Undisturbed(s.clients[a.i], Next(s, a).clients[a.i])
  {
    assert ClientOk(s.clients[a.i], Awaited(s, a.i));
  }

  lemma MainMovesOk(s: State, a: Step)
    requires Inv(s) && Enabled(s, a) && Asserts(s, a)
    requires a.MainCreated? || a.MainLocks? || a.MainWaits? || a.MainResumes? || a.MainJoins?
    ensures ClientOk(Next(s, a).clients[a.i], Awaited(s, a.i))
    ensures Undisturbed(s.clients[a.i], Next(s, a).clients[a.i])
  {
    if a.MainCreated? || a.MainJoins? {
      assert ClientOk(s.clients[a.i], Awaited(s, a.i));
    } else {
      MainLocksOk(s, a);
    }
  }

  lemma HandleOk(c: Client, awaited: Option<Ack>)
    requires ClientOk(c, awaited) && c.thread.Handles? && |c.down| > 0 && TypeOf(c.down[0]) == c.thread.ty
    requires c.down[0].Rep? && !c.down[0].kind.Exit? ==> c.main == Waiting(c.down[0].kind)
    ensures ClientOk(Handle(c), awaited) && Undisturbed(c, Handle(c))
  {
  }

  lemma ThreadOk(s: State, a: Step)
    requires Inv(s) && Enabled(s, a) && Asserts(s, a) && IsThread(a)
    ensures ClientOk(Next(s, a).clients[a.i], Awaited(s, a.i))
    ensures Undisturbed(s.clients[a.i], Next(s, a).clients[a.i])
  {
    assert ClientOk(s.clients[a.i], Awaited(s, a.i));
    if a.ThreadHandles? {
      HandleOk(s.clients[a.i], Awaited(s, a.i));
    }
  }

  predicate SameHold(v: Server, w: Server) {
    Holds(v) == Holds(w) && (Holds(v) ==> v.Awaits? && w == TakesAck(v.kind, v.calls, v.target, v.ack))
  }

  lemma ServerPeeksOk(s: State, a: Step)
    requires Inv(s) && Enabled(s, a) && Asserts(s, a) && (a.ServerPeeks? || a.ServerSeesAck?)
    ensures ClientOk(Next(s, a).clients[a.i], Awaited(s, a.i))
    ensures SameHold(s.clients[a.i].server, Next(s, a).clients[a.i].server)
  {
    assert ClientOk(s.clients[a.i], Awaited(s, a.i)) && ServerOk(s, a.i);
  }

  lemma ServerTakesOk(s: State, a: Step)
    requires Inv(s) && Enabled(s, a) && Asserts(s, a) && a.ServerTakes?
    ensures ClientOk(Next(s, a).clients[a.i], Awaited(s, a.i))
    ensures SameHold(s.clients[a.i].server, Next(s, a).clients[a.i].server)
  {
    assert ClientOk(s.clients[a.i], Awaited(s, a.i)) && ServerOk(s, a.i);
  }

  lemma ServerRepliesOk(s: State, a: Step)
    requires Inv(s) && Enabled(s, a) && Asserts(s, a) && a.ServerReplies?
    ensures ClientOk(Next(s, a).clients[a.i], Awaited(s, a.i))
    ensures SameHold(s.clients[a.i].server, Next(s, a).clients[a.i].server)
  {
    assert ClientOk(s.clients[a.i], Awaited(s, a.i)) && ServerOk(s, a.i);
  }

  lemma SameAwaited(s: State, s': State, i: nat)
    requires |s'.clients| == |s.clients| && s'.lock == s.lock && i < |s.clients|
    requires forall j :: 0 <= j < |s.clients| && j != i ==> s'.clients[j] == s.clients[j]
    requires var v, w := s.clients[i].server, s'.clients[i].server;
      Waits(v) == Waits(w) && (Waits(v) ==> v.target == w.target && v.ack == w.ack)
    ensures forall j :: 0 <= j < |s.clients| ==> Awaited(s', j) == Awaited(s, j)
  {
  }

  lemma UndisturbedInv(s: State, i: nat, d: Client)
    requires Inv(s) && i < |s.clients| && ClientOk(d, Awaited(s, i)) && Undisturbed(s.clients[i], d)
    ensures Inv(Set(s, i, d))
  {
    var s' := Set(s, i, d);
    SameAwaited(s, s', i);
    forall j | 0 <= j < |s.clients| ensures ServerOk(s', j) {
      assert ServerOk(s, j);
    }
  }

  lemma MainOrThreadInv(s: State, a: Step)
    requires Inv(s) && Enabled(s, a) && Asserts(s, a) && (IsMain(a) || IsThread(a))
    ensures Inv(Next(s, a))
  {
    if a.MainStarts? || a.MainSends? || a.MainExits? { MainSendsOk(s, a); }
    else if IsMain(a) { MainMovesOk(s, a); }
    else { ThreadOk(s, a); }
    assert Next(s, a) == Set(s, a.i, Next(s, a).clients[a.i]);
    UndisturbedInv(s, a.i, Next(s, a).clients[a.i]);
  }

  lemma ServerAloneOk(s: State, a: Step)
    requires Inv(s) && Enabled(s, a) && Asserts(s, a)
    requires a.ServerPeeks? || a.ServerTakes? || a.ServerSeesAck? || a.ServerReplies?
    ensures ClientOk(Next(s, a).clients[a.i], Awaited(s, a.i))
    ensures SameHold(s.clients[a.i].server, Next(s, a).clients[a.i].server)
  {
    if a.ServerTakes? {
      ServerTakesOk(s, a);
    } else if a.ServerReplies? {
      ServerRepliesOk(s, a);
    } else {
      ServerPeeksOk(s, a);
    }
  }

  lemma ServerAloneInv(s: State, a: Step)
    requires Inv(s) && Enabled(s, a) && Asserts(s, a)
    requires a.ServerPeeks? || a.ServerTakes? || a.ServerSeesAck? || a.ServerReplies?
    ensures Inv(Next(s, a))
  {
    var s', i := Next(s, a), a.i;
    ServerAloneOk(s, a);
    assert s'.clients == s.clients[i := s'.clients[i]];
    SameAwaited(s, s', i);
    forall j | 0 <= j < |s.clients| ensures ServerOk(s', j) {
      assert ServerOk(s, j) && ServerOk(s, i) && ClientOk(s.clients[i], Awaited(s, i));
    }
  }

  // ---------------------------------------------------------------- steps of the pager's mutex holder

  lemma EntersInv(s: State, a: Step)
    requires Inv(s) && Enabled(s, a) && a.ServerEnters?
    ensures Inv(Next(s, a))
  {
    var s', i := Next(s, a), a.i;
    forall j | 0 <= j < |s.clients| ensures ClientOk(s'.clients[j], Awaited(s', j)) && ServerOk(s', j) {
      assert ClientOk(s.clients[j], Awaited(s, j)) && ServerOk(s, j);
    }
  }

  lemma LeavesInv(s: State, a: Step)
    requires Inv(s) && Enabled(s, a) && a.ServerLeaves?
    ensures Inv(Next(s, a))
  {
    var s', i := Next(s, a), a.i;
    assert ServerOk(s, i);
    forall j | 0 <= j < |s.clients| ensures ClientOk(s'.clients[j], Awaited(s', j)) && ServerOk(s', j) {
      assert ClientOk(s.clients[j], Awaited(s, j)) && ServerOk(s, j);
    }
  }

  lemma CallsInv(s: State, a: Step)
    requires Inv(s) && Enabled(s, a) && a.ServerCalls?
    ensures Inv(Next(s, a))
  {
    var s', i, t := Next(s, a), a.i, a.target;
    assert ServerOk(s, i);
    forall j | 0 <= j < |s.clients| ensures ClientOk(s'.clients[j], Awaited(s', j)) && ServerOk(s', j) {
      assert ClientOk(s.clients[j], Awaited(s, j)) && ServerOk(s, j);
    }
  }

  lemma TakesAckInv(s: State, a: Step)
    requires Inv(s) && Enabled(s, a) && Asserts(s, a) && a.ServerTakesAck?
    ensures Inv(Next(s, a))
  {
    var s', i, t := Next(s, a), a.i, s.clients[a.i].server.target;
    assert ServerOk(s, i);
    forall j | 0 <= j < |s.clients| ensures ClientOk(s'.clients[j], Awaited(s', j)) && ServerOk(s', j) {
      assert ClientOk(s.clients[j], Awaited(s, j)) && ServerOk(s, j);
    }
  }

  lemma NextInv(s: State, a: Step)
    requires Inv(s) && Enabled(s, a)
    ensures Asserts(s, a) && Inv(Next(s, a))
  {
    AssertsHold(s, a);
    if IsMain(a) || IsThread(a) { MainOrThreadInv(s, a); }
    else if a.ServerEnters? { EntersInv(s, a); }
    else if a.ServerLeaves? { LeavesInv(s, a); }
    else if a.ServerCalls? { CallsInv(s, a); }
    else if a.ServerTakesAck? { TakesAckInv(s, a); }
    else { ServerAloneInv(s, a); }
  }

  // ---------------------------------------------------------------- whole runs

  ghost predicate Valid(s: State, run: seq<Step>)
    requires Inv(s)
    decreases |run|, 0
  {
    |run| == 0 ||
    (Valid(s, run[..|run| - 1]) && Enabled(Exec(s, run[..|run| - 1]), run[|run| - 1]))
  }

  ghost function Exec(s: State, run: seq<Step>): (t: State)
    requires Inv(s) && Valid(s, run)
    ensures Inv(t) && |t.clients| == |s.clients| && t.maxCalls == s.maxCalls
    decreases |run|, 1
  {
    if |run| == 0 then s
    else
      var t, a := Exec(s, run[..|run| - 1]), run[|run| - 1];
      NextInv(t, a);
      Next(t, a)
  }

  /** Safety over all interleavings of any number of clients: whatever step comes next, the
      assertions of the code hold, and no client ever has more than one request and one
      acknowledgement, or one reply and one command, in flight. */
  lemma Safety(n: nat, maxCalls: nat, run: seq<Step>)
    requires Valid(Boot(n, maxCalls), run)
    ensures var s := Exec(Boot(n, maxCalls), run);
      && (forall a :: Enabled(s, a) ==> Asserts(s, a))
      && (forall i :: 0 <= i < |s.clients| ==> ChannelsOk(s.clients[i]))
  {
    var s := Exec(Boot(n, maxCalls), run);
    forall a | Enabled(s, a) ensures Asserts(s, a) { AssertsHold(s, a); }
    forall i | 0 <= i < |s.clients| ensures ChannelsOk(s.clients[i]) {
      assert ClientOk(s.clients[i], Awaited(s, i));
    }
  }

  /** The calls into the memory unit are blocking: when one returns, the client it was for has
      applied every mapping it was ever told to make. */
  lemma CallReturnsApplied(s: State, a: Step)
    requires Inv(s) && Enabled(s, a) && a.ServerTakesAck?
    ensures Asserts(s, a)
    ensures var t := s.clients[a.i].server.target;
      t < |s.clients| && Next(s, a).clients[t].view == Next(s, a).clients[t].want
  {
    NextInv(s, a);
    var t := s.clients[a.i].server.target;
    assert ServerOk(s, a.i) && ClientOk(s.clients[t], Awaited(s, t));
  }

  /** And outside of such a call, every process's mappings are exactly the ones the pager asked
      for, which is how the pager's own model treats them. */
  lemma MappingsAgree(s: State, i: nat)
    requires Inv(s) && i < |s.clients|
    ensures Awaited(s, i).None? ==> s.clients[i].view == s.clients[i].want
    ensures s.lock.None? ==> s.clients[i].view == s.clients[i].want
  {
    assert ClientOk(s.clients[i], Awaited(s, i));
  }

  // ---------------------------------------------------------------- what a command does

  /** `w` is `v` but for what it says of one address. */
  predicate OnlyAt(v: map<int, Perm>, w: map<int, Perm>, addr: int) {
    v.Keys - {addr} == w.Keys - {addr} && forall b <- v.Keys - {addr} :: w[b] == v[b]
  }

  /** A remap puts its address in the given frame with the given protection; a change of protection
      leaves a mapped address in its frame. No other address is touched. */
  predicate Obeyed(v: map<int, Perm>, w: map<int, Perm>, cmd: Command) {
    match cmd
    case Remap(addr, frame, prot) => OnlyAt(v, w, addr) && addr in w && w[addr] == Perm(frame, prot)
    case Chprot(addr, prot) =>
      OnlyAt(v, w, addr) && if addr in v then addr in w && w[addr] == Perm(v[addr].frame, prot) else addr !in w
  }

  lemma ApplyObeys(v: map<int, Perm>, cmd: Command)
    ensures Obeyed(v, Apply(v, cmd), cmd)
  {
  }

  /** That is what a process does that handles the command. */
  lemma CommandHandled(s: State, i: nat, cmd: Command)
    requires Inv(s) && Enabled(s, ThreadHandles(i)) && |s.clients[i].down| > 0 && s.clients[i].down[0] == Cmd(cmd)
    ensures Asserts(s, ThreadHandles(i))
    ensures Obeyed(s.clients[i].view, Next(s, ThreadHandles(i)).clients[i].view, cmd)
    ensures var t := Next(s, ThreadHandles(i)).clients[i].thread; t == Acks(if cmd.Remap? then RemapAck else ChprotAck)
  {
    AssertsHold(s, ThreadHandles(i));
    ApplyObeys(s.clients[i].view, cmd);
  }

  /** The pager waits for client `t` on behalf of client `i`, having asked for the mappings `want`. */
  predicate Pending(s: State, i: nat, t: nat, want: map<int, Perm>) {
    && i < |s.clients| && t < |s.clients| && s.lock == Some(i)
    && Waits(s.clients[i].server) && s.clients[i].server.target == t && s.clients[t].want == want
  }

  lemma StepKeepsPending(s: State, a: Step, i: nat, t: nat, want: map<int, Perm>)
    requires Inv(s) && Enabled(s, a) && Asserts(s, a) && Pending(s, i, t, want) && a != ServerTakesAck(i)
    ensures Pending(Next(s, a), i, t, want)
  {
    assert ServerOk(s, a.i) && ServerOk(s, i);
    if IsMain(a) || IsThread(a) {
      OthersKeepServers(s, a, i);
    }
  }

  /** The same server thread for client `i`, and the same mappings asked for. */
  ghost predicate KeepsServers(s: State, s': State, i: nat)
    requires i < |s.clients|
  {
    && |s'.clients| == |s.clients| && s'.lock == s.lock && s'.clients[i].server == s.clients[i].server
    && forall j :: 0 <= j < |s.clients| ==> s'.clients[j].want == s.clients[j].want
  }

  lemma ThreadsKeepServers(s: State, a: Step, i: nat)
    requires Enabled(s, a) && Asserts(s, a) && IsThread(a) && i < |s.clients|
    ensures KeepsServers(s, Next(s, a), i)
  {
  }

  lemma MainsKeepServers(s: State, a: Step, i: nat)
    requires Enabled(s, a) && Asserts(s, a) && IsMain(a) && i < |s.clients|
    requires a.MainStarts? ==> a.i != i
    ensures KeepsServers(s, Next(s, a), i)
  {
  }

  /** The client's own threads touch no server but the one they start, and no mapping that was asked for. */
  lemma OthersKeepServers(s: State, a: Step, i: nat)
    requires Inv(s) && Enabled(s, a) && Asserts(s, a) && (IsMain(a) || IsThread(a))
    requires i < |s.clients| && Holds(s.clients[i].server)
    ensures KeepsServers(s, Next(s, a), i)
  {
    if IsThread(a) {
      ThreadsKeepServers(s, a, i);
    } else {
      assert LifeOk(s.clients[a.i]) by { assert ClientOk(s.clients[a.i], Awaited(s, a.i)); }
      MainsKeepServers(s, a, i);
    }
  }

  lemma {:induction false} RunKeepsPending(s: State, run: seq<Step>, i: nat, t: nat, want: map<int, Perm>)
    requires Inv(s) && Valid(s, run) && Pending(s, i, t, want) && ServerTakesAck(i) !in run
    ensures Pending(Exec(s, run), i, t, want)
    decreases |run|
  {
    if |run| > 0 {
      var earlier, a := run[..|run| - 1], run[|run| - 1];
      assert a in run && forall b :: b in earlier ==> b in run;
      RunKeepsPending(s, earlier, i, t, want);
      NextInv(Exec(s, earlier), a);
      StepKeepsPending(Exec(s, earlier), a, i, t, want);
    }
  }

  /** Client `i`'s server made a call for client `t`, in state `s`; after `run`, in state `u`, the call
      can return. */
  ghost predicate CallSpans(s: State, i: nat, t: nat, cmd: Command, run: seq<Step>, u: State)
    requires Inv(s)
  {
    && Enabled(s, ServerCalls(i, t, cmd))
    && Inv(Next(s, ServerCalls(i, t, cmd))) && Valid(Next(s, ServerCalls(i, t, cmd)), run)
    && u == Exec(Next(s, ServerCalls(i, t, cmd)), run)
    && ServerTakesAck(i) !in run && Enabled(u, ServerTakesAck(i))
  }

  /** The mappings a client has when a call for it returns: those it had when the call was made, and
      the command on top, whatever all threads did in between. */
  lemma CallReturnsWanted(s: State, i: nat, t: nat, cmd: Command, run: seq<Step>, u: State)
    requires Inv(s) && CallSpans(s, i, t, cmd, run, u)
    ensures Asserts(u, ServerTakesAck(i)) && t < |s.clients| && t < |Next(u, ServerTakesAck(i)).clients|
    ensures Next(u, ServerTakesAck(i)).clients[t].view == Apply(s.clients[t].view, cmd)
  {
    var s1 := Next(s, ServerCalls(i, t, cmd));
    assert ServerOk(s, i);
    MappingsAgree(s, t);
    RunKeepsPending(s1, run, i, t, Apply(s.clients[t].want, cmd));
    CallReturnsApplied(u, ServerTakesAck(i));
  }

  /** So when the pager's call to map a page or to change a protection returns, the process has done
      that, and its other pages are where they were. */
  lemma CommandArrives(s: State, i: nat, t: nat, cmd: Command, run: seq<Step>, u: State)
    requires Inv(s) && CallSpans(s, i, t, cmd, run, u)
    ensures Asserts(u, ServerTakesAck(i)) && t < |s.clients| && t < |Next(u, ServerTakesAck(i)).clients|
    ensures Obeyed(s.clients[t].view, Next(u, ServerTakesAck(i)).clients[t].view, cmd)
  {
    CallReturnsWanted(s, i, t, cmd, run, u);
    ApplyObeys(s.clients[t].view, cmd);
  }
}
