/** A client's life from start to exit can be played through: every kind of request is served, and the
    mapping that the pager asks for while serving a fault is there when the client goes on. */
module ProtocolSession {
  import opened Options
  import opened Protocol
  import opened ProtocolSafety

  // ---------------------------------------------------------------- runs, from the front

  ghost predicate Path(s: State, run: seq<Step>, t: State)
    decreases |run|
  {
    if |run| == 0 then s == t
    else Enabled(s, run[0]) && Asserts(s, run[0]) && Path(Next(s, run[0]), run[1..], t)
  }

  predicate Leads(s: State, a: Step, t: State) { Enabled(s, a) && Asserts(s, a) && Next(s, a) == t }

  lemma Prepend(s: State, a: Step, run: seq<Step>, t: State)
    requires Enabled(s, a) && Asserts(s, a) && Path(Next(s, a), run, t)
    ensures Path(s, [a] + run, t)
  {
    assert ([a] + run)[1..] == run;
  }

  lemma Rest(s: State, run: seq<Step>, t: State)
    requires Path(s, run, t) && |run| > 0
    ensures Enabled(s, run[0]) && Asserts(s, run[0]) && Path(Next(s, run[0]), run[1..], t)
  {
  }

  lemma {:induction false} Then(s: State, run: seq<Step>, t: State, more: seq<Step>, u: State)
    requires Path(s, run, t) && Path(t, more, u)
    ensures Path(s, run + more, u)
    decreases |run|
  {
    if |run| == 0 {
      assert run + more == more;
    } else {
      Rest(s, run, t);
      var a, rest := run[0], run[1..];
      Then(Next(s, a), rest, t, more, u);
      Prepend(s, a, rest + more, u);
      assert [a] + (rest + more) == run + more;
    }
  }

  lemma Three(s: State, a: Step, s1: State, b: Step, s2: State, c: Step, s3: State)
    requires Leads(s, a, s1) && Leads(s1, b, s2) && Leads(s2, c, s3)
    ensures Path(s, [a, b, c], s3)
  {
    assert [a, b, c][1..] == [b, c] && [b, c][1..] == [c] && [c][1..] == [];
    assert Path(s3, [], s3) && Path(s2, [c], s3) && Path(s1, [b, c], s3);
  }

  lemma Two(s: State, a: Step, s1: State, b: Step, s2: State)
    requires Leads(s, a, s1) && Leads(s1, b, s2)
    ensures Path(s, [a, b], s2)
  {
    assert [a, b][1..] == [b] && [b][1..] == [];
    assert Path(s2, [], s2) && Path(s1, [b], s2);
  }

  ghost predicate Reaches(s: State, run: seq<Step>, t: State) {
    Inv(s) && Valid(s, run) && Exec(s, run) == t
  }

  lemma ReachesMore(s: State, run: seq<Step>, t: State, a: Step)
    requires Reaches(s, run, t) && Enabled(t, a) && Asserts(t, a)
    ensures Reaches(s, run + [a], Next(t, a))
  {
    assert (run + [a])[..|run + [a]| - 1] == run;
  }

  lemma Shift(run: seq<Step>, more: seq<Step>)
    requires |more| > 0
    ensures (run + [more[0]]) + more[1..] == run + more
  {
  }

  /** A path from where a run got to goes on with that run. */
  lemma {:induction false} PathGoesOn(s: State, run: seq<Step>, t: State, more: seq<Step>, u: State)
    requires Reaches(s, run, t) && Path(t, more, u)
    ensures Reaches(s, run + more, u)
    decreases |more|
  {
    if |more| == 0 {
      assert run + more == run;
    } else {
      Rest(t, more, u);
      ReachesMore(s, run, t, more[0]);
      PathGoesOn(s, run + [more[0]], Next(t, more[0]), more[1..], u);
      Shift(run, more);
    }
  }

  lemma PathIsRun(s: State, run: seq<Step>, t: State)
    requires Inv(s) && Path(s, run, t)
    ensures Valid(s, run) && Exec(s, run) == t
  {
    PathGoesOn(s, [], s, run, t);
    assert [] + run == run;
  }

  lemma One(s: State, a: Step, t: State)
    requires Leads(s, a, t)
    ensures Path(s, [a], t)
  {
    assert [a][1..] == [] && Path(t, [], t);
  }

  // ---------------------------------------------------------------- the legs of a request

  /** Nothing is under way for client `i`, and nobody is in the pager. */
  predicate Quiet(s: State, i: nat) {
    i < |s.clients| && s.lock.None? &&
    var c := s.clients[i];
    && c.main.Running? && c.thread.Peeks? && c.server.Listens? && c.mutex.Free? && c.up == [] && c.down == []
  }

  /** The main thread asks, and waits. */
  lemma Asks(s: State, i: nat, k: Kind) returns (run: seq<Step>)
    requires Quiet(s, i) && k in {Extend, Syslog, Segv}
    ensures Path(s, run, Set(s, i, s.clients[i].(main := Waiting(k), up := [Req(k)])))
  {
    var c := s.clients[i];
    var s1 := Set(s, i, c.(main := Locked(k), mutex := ByMain));
    var s2 := Set(s, i, c.(main := Sent(k), mutex := ByMain, up := [Req(k)]));
    var s3 := Set(s, i, c.(main := Waiting(k), up := [Req(k)]));
    assert [] + [Req(k)] == [Req(k)];
    assert s1.clients[i := s2.clients[i]] == s2.clients && s2.clients[i := s3.clients[i]] == s3.clients;
    run := [MainLocks(i, k), MainSends(i), MainWaits(i)];
    Three(s, MainLocks(i, k), s1, MainSends(i), s2, MainWaits(i), s3);
  }

  /** Its server thread takes the request into the pager. */
  lemma Enters(s: State, i: nat, k: Kind) returns (run: seq<Step>)
    requires i < |s.clients| && s.lock.None? && s.clients[i].server.Listens? && s.clients[i].up == [Req(k)]
    ensures Path(s, run, Set(s, i, s.clients[i].(server := InPager(k, s.maxCalls), up := [])).(lock := Some(i)))
  {
    var c := s.clients[i];
    var s1 := Set(s, i, c.(server := Protocol.Enters(k), up := []));
    var s0 := Set(s, i, c.(server := Takes(k)));
    var s2 := Set(s, i, c.(server := InPager(k, s.maxCalls), up := [])).(lock := Some(i));
    assert [Req(k)][1..] == [];
    assert s0.clients[i := s1.clients[i]] == s1.clients && s1.clients[i := s2.clients[i]] == s2.clients;
    run := [ServerPeeks(i), ServerTakes(i), ServerEnters(i)];
    Three(s, ServerPeeks(i), s0, ServerTakes(i), s1, ServerEnters(i), s2);
  }

  function LiveAfter(k: Kind, live: bool): bool {
    if k == Extend then true else if k == Exit then false else live
  }

  /** It comes out of the pager and replies. */
  lemma Leaves(s: State, i: nat, k: Kind, calls: nat) returns (run: seq<Step>)
    requires i < |s.clients| && s.lock == Some(i) && s.clients[i].server == InPager(k, calls) && s.clients[i].down == []
    ensures Path(s, run, Set(s, i, s.clients[i].(server := if k.Exit? then Gone else Listens, down := [Rep(k)],
                                         live := LiveAfter(k, s.clients[i].live))).(lock := None))
  {
    var c := s.clients[i];
    var s1 := Set(s, i, c.(server := Replies(k), live := LiveAfter(k, c.live))).(lock := None);
    var s2 := Set(s, i, c.(server := if k.Exit? then Gone else Listens, down := [Rep(k)],
                           live := LiveAfter(k, c.live))).(lock := None);
    assert [] + [Rep(k)] == [Rep(k)];
    assert s1.clients[i := s2.clients[i]] == s2.clients;
    run := [ServerLeaves(i), ServerReplies(i)];
    Two(s, ServerLeaves(i), s1, ServerReplies(i), s2);
  }

  /** The client's thread takes the message at the head of the channel. */
  lemma Picks(s: State, i: nat) returns (run: seq<Step>)
    requires i < |s.clients| && s.clients[i].thread.Peeks? && s.clients[i].mutex.Free? && |s.clients[i].down| > 0
    ensures Path(s, run, Set(s, i, s.clients[i].(thread := Handles(TypeOf(s.clients[i].down[0])), mutex := ByThread)))
  {
    var c := s.clients[i];
    var s1 := Set(s, i, c.(thread := Wants(TypeOf(c.down[0]))));
    var s2 := Set(s, i, c.(thread := Handles(TypeOf(c.down[0])), mutex := ByThread));
    assert s1.clients[i := s2.clients[i]] == s2.clients;
    run := [ThreadPeeks(i), ThreadLocks(i)];
    Two(s, ThreadPeeks(i), s1, ThreadLocks(i), s2);
  }

  /** A reply wakes the main thread, which goes on. */
  lemma Resumes(s: State, i: nat, k: Kind) returns (run: seq<Step>)
    requires i < |s.clients| && s.clients[i].down == [Rep(k)] && k in {Extend, Syslog, Segv}
    requires s.clients[i].thread == Handles(RepType(k)) && s.clients[i].main == Waiting(k)
    ensures Path(s, run, Set(s, i, s.clients[i].(main := Running, thread := Peeks, mutex := Free, down := [])))
  {
    var c := s.clients[i];
    var s1 := Set(s, i, c.(main := Woken(k), thread := Unlocks, down := []));
    var s2 := Set(s, i, c.(main := Woken(k), thread := Peeks, mutex := Free, down := []));
    var s3 := Set(s, i, c.(main := Running, thread := Peeks, mutex := Free, down := []));
    assert [Rep(k)][1..] == [];
    assert s1.clients[i := s2.clients[i]] == s2.clients && s2.clients[i := s3.clients[i]] == s3.clients;
    run := [ThreadHandles(i), ThreadUnlocks(i), MainResumes(i)];
    Three(s, ThreadHandles(i), s1, ThreadUnlocks(i), s2, MainResumes(i), s3);
  }

  /** Out of the pager and back to user code. */
  lemma Returns(s: State, i: nat, k: Kind, calls: nat) returns (run: seq<Step>)
    requires i < |s.clients| && s.lock == Some(i) && k in {Extend, Syslog, Segv}
    requires var c := s.clients[i];
      && c.server == InPager(k, calls) && c.main == Waiting(k) && c.thread.Peeks? && c.mutex.Free? && c.down == []
    ensures Path(s, run, Set(s, i, s.clients[i].(main := Running, server := Listens,
                                                 live := LiveAfter(k, s.clients[i].live))).(lock := None))
  {
    var c := s.clients[i].(server := Listens, down := [Rep(k)], live := LiveAfter(k, s.clients[i].live));
    var s1 := Set(s, i, c).(lock := None);
    var s2 := Set(s1, i, c.(thread := Handles(RepType(k)), mutex := ByThread));
    var s3 := Set(s2, i, c.(main := Running, down := []));
    var out := Leaves(s, i, k, calls);
    var pick := Picks(s1, i);
    var back := Resumes(s2, i, k);
    Then(s1, pick, s2, back, s3);
    Then(s, out, s1, pick + back, s3);
    run := out + (pick + back);
    assert s3.clients == s.clients[i := s3.clients[i]];
  }

  // ---------------------------------------------------------------- whole requests

  /** Into the pager. */
  lemma Submits(s: State, i: nat, k: Kind) returns (run: seq<Step>)
    requires Quiet(s, i) && k in {Extend, Syslog, Segv}
    ensures Path(s, run, Set(s, i, s.clients[i].(main := Waiting(k), server := InPager(k, s.maxCalls))).(lock := Some(i)))
  {
    var s1 := Set(s, i, s.clients[i].(main := Waiting(k), up := [Req(k)]));
    var s2 := Set(s1, i, s1.clients[i].(server := InPager(k, s.maxCalls), up := [])).(lock := Some(i));
    var ask := Asks(s, i, k);
    var enter := Enters(s1, i, k);
    Then(s, ask, s1, enter, s2);
    run := ask + enter;
    assert s2.clients == s.clients[i := s2.clients[i]];
  }

  /** From any quiet state a request that needs no call is served, and leaves everything as it was, except
      that a client that extended its memory may be called from then on. */
  lemma RequestServed(s: State, i: nat, k: Kind) returns (run: seq<Step>)
    requires Quiet(s, i) && k in {Extend, Syslog, Segv}
    ensures Path(s, run, Set(s, i, s.clients[i].(live := LiveAfter(k, s.clients[i].live))))
  {
    var r1 := Submits(s, i, k);
    var s1 := Set(s, i, s.clients[i].(main := Waiting(k), server := InPager(k, s.maxCalls))).(lock := Some(i));
    var r2 := Returns(s1, i, k, s.maxCalls);
    var s2 := Set(s1, i, s1.clients[i].(main := Running, server := Listens, live := LiveAfter(k, s.clients[i].live))).(lock := None);
    Then(s, r1, s1, r2, s2);
    run := r1 + r2;
    assert s2.clients == s.clients[i := s2.clients[i]];
  }

  /** The client's thread applies a command and acknowledges it. */
  lemma Obeys(s: State, i: nat, cmd: Command) returns (run: seq<Step>)
    requires i < |s.clients| && s.clients[i].down == [Cmd(cmd)] && s.clients[i].up == []
    requires s.clients[i].thread == Handles(TypeOf(Cmd(cmd)))
    ensures Path(s, run, Set(s, i, s.clients[i].(thread := Peeks, mutex := Free, down := [], up := [AckOf(AckFor(cmd))],
                                         view := Apply(s.clients[i].view, cmd))))
  {
    var c := s.clients[i].(down := [], view := Apply(s.clients[i].view, cmd));
    var s1 := Set(s, i, c.(thread := Acks(AckFor(cmd))));
    var s2 := Set(s, i, c.(thread := Unlocks, up := [AckOf(AckFor(cmd))]));
    var s3 := Set(s, i, c.(thread := Peeks, mutex := Free, up := [AckOf(AckFor(cmd))]));
    assert [Cmd(cmd)][1..] == [] && [] + [AckOf(AckFor(cmd))] == [AckOf(AckFor(cmd))];
    assert s1.clients[i := s2.clients[i]] == s2.clients && s2.clients[i := s3.clients[i]] == s3.clients;
    run := [ThreadHandles(i), ThreadAcks(i), ThreadUnlocks(i)];
    Three(s, ThreadHandles(i), s1, ThreadAcks(i), s2, ThreadUnlocks(i), s3);
  }

  /** The server sees the acknowledgement and takes it. */
  lemma Acknowledged(s: State, i: nat, calls: nat, ack: Ack) returns (run: seq<Step>)
    requires i < |s.clients| && s.clients[i].server == Awaits(Segv, calls, i, ack) && s.clients[i].up == [AckOf(ack)]
    ensures Path(s, run, Set(s, i, s.clients[i].(server := InPager(Segv, calls), up := [])))
  {
    var c := s.clients[i];
    var s1 := Set(s, i, c.(server := TakesAck(Segv, calls, i, ack)));
    var s2 := Set(s, i, c.(server := InPager(Segv, calls), up := []));
    assert [AckOf(ack)][1..] == [];
    assert s1.clients[i := s2.clients[i]] == s2.clients;
    run := [ServerSeesAck(i), ServerTakesAck(i)];
    Two(s, ServerSeesAck(i), s1, ServerTakesAck(i), s2);
  }

  /** The pager's command goes out, and the client's thread takes it. */
  lemma Commands(s: State, i: nat, calls: nat, cmd: Command) returns (run: seq<Step>)
    requires i < |s.clients| && calls > 0 && s.clients[i].live && s.clients[i].server == InPager(Segv, calls)
    requires var c := s.clients[i]; c.thread.Peeks? && c.mutex.Free? && c.up == [] && c.down == []
    ensures Path(s, run, Set(s, i, s.clients[i].(
      server := Awaits(Segv, calls - 1, i, AckFor(cmd)), want := Apply(s.clients[i].want, cmd),
      down := [Cmd(cmd)], thread := Handles(TypeOf(Cmd(cmd))), mutex := ByThread)))
  {
    var c := s.clients[i].(server := Awaits(Segv, calls - 1, i, AckFor(cmd)), want := Apply(s.clients[i].want, cmd));
    var s0 := Set(s, i, s.clients[i].(server := Awaits(Segv, calls - 1, i, AckFor(cmd))));
    var s1 := Set(s, i, c.(down := [Cmd(cmd)]));
    var s2 := Set(s1, i, c.(down := [Cmd(cmd)], thread := Handles(TypeOf(Cmd(cmd))), mutex := ByThread));
    assert [] + [Cmd(cmd)] == [Cmd(cmd)] && s0.clients[i := s1.clients[i]] == s1.clients;
    One(s, ServerCalls(i, i, cmd), s1);
    var pick := Picks(s1, i);
    Then(s, [ServerCalls(i, i, cmd)], s1, pick, s2);
    run := [ServerCalls(i, i, cmd)] + pick;
    assert s2.clients == s.clients[i := s2.clients[i]];
  }

  /** The command is applied and acknowledged, and the acknowledgement taken. */
  lemma Answers(s: State, i: nat, calls: nat, cmd: Command) returns (run: seq<Step>)
    requires i < |s.clients| && s.clients[i].down == [Cmd(cmd)] && s.clients[i].up == []
    requires s.clients[i].thread == Handles(TypeOf(Cmd(cmd)))
    requires s.clients[i].server == Awaits(Segv, calls, i, AckFor(cmd))
    ensures Path(s, run, Set(s, i, s.clients[i].(thread := Peeks, mutex := Free, down := [],
      server := InPager(Segv, calls), view := Apply(s.clients[i].view, cmd))))
  {
    var c := s.clients[i].(thread := Peeks, mutex := Free, down := [], view := Apply(s.clients[i].view, cmd));
    var s1 := Set(s, i, c.(up := [AckOf(AckFor(cmd))]));
    var s2 := Set(s1, i, c.(server := InPager(Segv, calls)));
    var obey := Obeys(s, i, cmd);
    var ack := Acknowledged(s1, i, calls, AckFor(cmd));
    Then(s, obey, s1, ack, s2);
    run := obey + ack;
    assert s2.clients == s.clients[i := s2.clients[i]];
  }

  /** One call of the pager for the client that faulted. */
  lemma Called(s: State, i: nat, calls: nat, cmd: Command) returns (run: seq<Step>)
    requires i < |s.clients| && calls > 0 && s.clients[i].live && s.clients[i].server == InPager(Segv, calls)
    requires var c := s.clients[i]; c.thread.Peeks? && c.mutex.Free? && c.up == [] && c.down == []
    ensures Path(s, run, Set(s, i, s.clients[i].(
      server := InPager(Segv, calls - 1), view := Apply(s.clients[i].view, cmd), want := Apply(s.clients[i].want, cmd))))
  {
    var c := s.clients[i].(want := Apply(s.clients[i].want, cmd));
    var s1 := Set(s, i, c.(server := Awaits(Segv, calls - 1, i, AckFor(cmd)),
                           down := [Cmd(cmd)], thread := Handles(TypeOf(Cmd(cmd))), mutex := ByThread));
    var s2 := Set(s1, i, c.(server := InPager(Segv, calls - 1), view := Apply(c.view, cmd)));
    var command := Commands(s, i, calls, cmd);
    var answer := Answers(s1, i, calls - 1, cmd);
    Then(s, command, s1, answer, s2);
    run := command + answer;
    assert s2.clients == s.clients[i := s2.clients[i]];
  }

  /** A call, and out of the pager. */
  lemma CalledAndReturned(s: State, i: nat, calls: nat, cmd: Command) returns (run: seq<Step>)
    requires i < |s.clients| && s.lock == Some(i) && calls > 0 && s.clients[i].live
    requires s.clients[i].server == InPager(Segv, calls) && s.clients[i].main == Waiting(Segv)
    requires var c := s.clients[i]; c.thread.Peeks? && c.mutex.Free? && c.up == [] && c.down == []
    ensures Path(s, run, Set(s, i, s.clients[i].(main := Running, server := Listens,
      view := Apply(s.clients[i].view, cmd), want := Apply(s.clients[i].want, cmd))).(lock := None))
  {
    var c := s.clients[i].(view := Apply(s.clients[i].view, cmd), want := Apply(s.clients[i].want, cmd));
    var s1 := Set(s, i, c.(server := InPager(Segv, calls - 1)));
    var s2 := Set(s1, i, c.(main := Running, server := Listens)).(lock := None);
    var call := Called(s, i, calls, cmd);
    var back := Returns(s1, i, Segv, calls - 1);
    Then(s, call, s1, back, s2);
    run := call + back;
    assert s2.clients == s.clients[i := s2.clients[i]];
  }

  /** From any quiet state a fault in which the pager makes one call for the client that faulted is
      served; the client goes on with the command applied, and nothing else changed. */
  lemma FaultServed(s: State, i: nat, cmd: Command) returns (run: seq<Step>)
    requires Quiet(s, i) && s.clients[i].live && s.maxCalls > 0
    ensures Path(s, run, Set(s, i, s.clients[i].(view := Apply(s.clients[i].view, cmd), want := Apply(s.clients[i].want, cmd))))
  {
    var c := s.clients[i].(view := Apply(s.clients[i].view, cmd), want := Apply(s.clients[i].want, cmd));
    var s1 := Set(s, i, s.clients[i].(main := Waiting(Segv), server := InPager(Segv, s.maxCalls))).(lock := Some(i));
    var s2 := Set(s1, i, c).(lock := None);
    var submit := Submits(s, i, Segv);
    var serve := CalledAndReturned(s1, i, s.maxCalls, cmd);
    Then(s, submit, s1, serve, s2);
    run := submit + serve;
    assert s2.clients == s.clients[i := s2.clients[i]];
  }

  // ---------------------------------------------------------------- beginning and end

  lemma Registers(s: State, i: nat) returns (run: seq<Step>)
    requires i < |s.clients| && s.clients[i] == NewClient() && s.lock.None?
    ensures Path(s, run, Set(s, i, NewClient().(main := AwaitCreate, server := InPager(Create, s.maxCalls))).(lock := Some(i)))
  {
    var c := NewClient().(main := AwaitCreate, server := Listens);
    var s1 := Set(s, i, c.(up := [Req(Create)]));
    var s2 := Set(s1, i, c.(server := InPager(Create, s.maxCalls))).(lock := Some(i));
    assert [] + [Req(Create)] == [Req(Create)];
    One(s, MainStarts(i), s1);
    var enter := Enters(s1, i, Create);
    Then(s, [MainStarts(i)], s1, enter, s2);
    run := [MainStarts(i)] + enter;
    assert s2.clients == s.clients[i := s2.clients[i]];
  }

  /** A client that has not started becomes quiet. */
  lemma Starts(s: State, i: nat) returns (run: seq<Step>)
    requires i < |s.clients| && s.clients[i] == NewClient() && s.lock.None?
    ensures Path(s, run, Set(s, i, NewClient().(main := Running, thread := Peeks, server := Listens)))
  {
    var c := NewClient().(main := AwaitCreate, server := Listens);
    var s2 := Set(s, i, c.(server := InPager(Create, s.maxCalls))).(lock := Some(i));
    var s3 := Set(s2, i, c.(down := [Rep(Create)])).(lock := None);
    var s4 := Set(s3, i, NewClient().(main := Running, thread := Peeks, server := Listens));
    assert [Rep(Create)][1..] == [];
    var register := Registers(s, i);
    var leave := Leaves(s2, i, Create, s.maxCalls);
    One(s3, MainCreated(i), s4);
    Then(s2, leave, s3, [MainCreated(i)], s4);
    Then(s, register, s2, leave + [MainCreated(i)], s4);
    run := register + (leave + [MainCreated(i)]);
    assert s4.clients == s.clients[i := s4.clients[i]];
  }

  lemma SaysGoodbye(s: State, i: nat) returns (run: seq<Step>)
    requires Quiet(s, i)
    ensures Path(s, run, Set(s, i, s.clients[i].(
      main := ExitSent, server := Gone, down := [Rep(Exit)], live := false)))
  {
    var c := s.clients[i].(main := ExitSent);
    var s1 := Set(s, i, c.(up := [Req(Exit)]));
    var s2 := Set(s1, i, c.(server := InPager(Exit, s.maxCalls))).(lock := Some(i));
    var s3 := Set(s2, i, c.(server := Gone, down := [Rep(Exit)], live := false)).(lock := None);
    assert [] + [Req(Exit)] == [Req(Exit)];
    One(s, MainExits(i), s1);
    var enter := Enters(s1, i, Exit);
    var leave := Leaves(s2, i, Exit, s.maxCalls);
    Then(s1, enter, s2, leave, s3);
    Then(s, [MainExits(i)], s1, enter + leave, s3);
    run := [MainExits(i)] + (enter + leave);
    assert s3.clients == s.clients[i := s3.clients[i]];
  }

  /** The client's thread ends at the last reply, and the main thread joins it. */
  lemma Joins(s: State, i: nat) returns (run: seq<Step>)
    requires i < |s.clients| && s.clients[i].main.ExitSent? && s.clients[i].down == [Rep(Exit)]
    requires s.clients[i].thread.Peeks? && s.clients[i].mutex.Free?
    ensures Path(s, run, Set(s, i, s.clients[i].(main := Exited, thread := Done)))
  {
    var c := s.clients[i];
    var s1 := Set(s, i, c.(thread := Handles(RepType(Exit)), mutex := ByThread));
    var s2 := Set(s, i, c.(thread := Done));
    var s3 := Set(s, i, c.(thread := Done, main := Exited));
    assert s1.clients[i := s2.clients[i]] == s2.clients && s2.clients[i := s3.clients[i]] == s3.clients;
    var pick := Picks(s, i);
    Two(s1, ThreadHandles(i), s2, MainJoins(i), s3);
    Then(s, pick, s1, [ThreadHandles(i), MainJoins(i)], s3);
    run := pick + [ThreadHandles(i), MainJoins(i)];
  }

  /** A quiet client can end, and its threads with it. */
  lemma Ends(s: State, i: nat) returns (run: seq<Step>)
    requires Quiet(s, i)
    ensures Path(s, run, Set(s, i, s.clients[i].(
      main := Exited, thread := Done, server := Gone, down := [Rep(Exit)], live := false)))
  {
    var c := s.clients[i].(main := ExitSent, server := Gone, down := [Rep(Exit)], live := false);
    var s1 := Set(s, i, c);
    var s2 := Set(s1, i, c.(thread := Done, main := Exited));
    var goodbye := SaysGoodbye(s, i);
    var join := Joins(s1, i);
    Then(s, goodbye, s1, join, s2);
    run := goodbye + join;
    assert s2.clients == s.clients[i := s2.clients[i]];
  }

  /** A client that starts, extends its memory and touches it: from the boot of any number of clients there
      is a run after which it is running again with the page where the pager put it. */
  lemma Session(n: nat, maxCalls: nat, i: nat, addr: int, frame: nat, prot: nat) returns (run: seq<Step>)
    requires i < n && maxCalls > 0
    ensures Valid(Boot(n, maxCalls), run)
    ensures var t := Exec(Boot(n, maxCalls), run);
      Quiet(t, i) && t.clients[i].live && t.clients[i].view == map[addr := Perm(frame, prot)]
  {
    var s := Boot(n, maxCalls);
    var r1 := Starts(s, i);
    var c := NewClient().(main := Running, thread := Peeks, server := Listens);
    var s1 := Set(s, i, c);
    var r2 := RequestServed(s1, i, Extend);
    var s2 := Set(s1, i, c.(live := true));
    var cmd := Remap(addr, frame, prot);
    var r3 := FaultServed(s2, i, cmd);
    var s3 := Set(s2, i, c.(live := true, view := Apply(map[], cmd), want := Apply(map[], cmd)));
    Then(s1, r2, s2, r3, s3);
    Then(s, r1, s1, r2 + r3, s3);
    run := r1 + (r2 + r3);
    PathIsRun(s, run, s3);
  }
}
