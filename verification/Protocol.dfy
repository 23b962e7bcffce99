/** The message protocol between the memory unit and its clients, as a machine over the atomic
    steps of all threads: for every client a main thread, the `uvm_thread`, and the server thread
    that serves its socket; two FIFO channels; the client's own mutex; and one pager mutex. */
module Protocol {
  import opened Options

  datatype Kind = Create | Extend | Syslog | Segv | Exit
  datatype Ack = RemapAck | ChprotAck

  /** Client to server. */
  datatype Up = Req(kind: Kind) | AckOf(ack: Ack)

  datatype Perm = Perm(frame: nat, prot: nat)
  datatype Command = Remap(addr: int, frame: nat, prot: nat) | Chprot(addr: int, prot: nat)

  /** Server to client. */
  datatype Down = Rep(kind: Kind) | Cmd(cmd: Command)

  /** The message's type, as both ends peek at it. */
  datatype DownType = RepType(kind: Kind) | RemapType | ChprotType

  function TypeOf(m: Down): DownType {
    match m
    case Rep(k) => RepType(k)
    case Cmd(Remap(_, _, _)) => RemapType
    case Cmd(Chprot(_, _)) => ChprotType
  }

  function AckFor(cmd: Command): Ack {
    if cmd.Remap? then RemapAck else ChprotAck
  }

  /** The effect of a command on a process's mappings. */
  function Apply(view: map<int, Perm>, cmd: Command): map<int, Perm> {
    match cmd
    case Remap(addr, frame, prot) => view[addr := Perm(frame, prot)]
    case Chprot(addr, prot) => if addr in view then view[addr := view[addr].(prot := prot)] else view
  }

  /** The main thread: user code, and the functions that send a request and wait for its reply. */
  datatype Main =
    | Off
    | AwaitCreate
    | Running
    /** holds the mutex, about to send */
    | Locked(kind: Kind)
    /** sent, still holds the mutex */
    | Sent(kind: Kind)
    /** in cond_wait */
    | Waiting(kind: Kind)
    /** signalled, has to get the mutex back */
    | Woken(kind: Kind)
    | ExitSent
    | Exited

  datatype Thread =
    | NoThread
    | Peeks
    /** has peeked a message of this type, wants the mutex */
    | Wants(ty: DownType)
    | Handles(ty: DownType)
    /** has applied a command, about to acknowledge it */
    | Acks(ack: Ack)
    | Unlocks
    | Done

  datatype Server =
    | NoServer
    | Listens
    /** has peeked a request of this kind */
    | Takes(kind: Kind)
    /** wants the pager mutex */
    | Enters(kind: Kind)
    /** holds it, with at most `calls` calls into the memory unit to go */
    | InPager(kind: Kind, calls: nat)
    /** has sent a command to `target`, peeking for its acknowledgement */
    | Awaits(kind: Kind, calls: nat, target: nat, ack: Ack)
    | TakesAck(kind: Kind, calls: nat, target: nat, ack: Ack)
    | Replies(kind: Kind)
    | Gone

  datatype Mutex = Free | ByMain | ByThread

  datatype Client = Client(
    main: Main, thread: Thread, server: Server, mutex: Mutex,
    up: seq<Up>, down: seq<Down>,
    /** owns pages, so the pager may call on it */
    live: bool,
    /** the mappings the process has, and the ones the memory unit has asked for */
    view: map<int, Perm>, want: map<int, Perm>)

  /** `maxCalls` bounds the calls into the memory unit that serving one fault takes. */
  datatype State = State(clients: seq<Client>, lock: Option<nat>, maxCalls: nat)

  datatype Step =
    | MainStarts(i: nat)
    | MainCreated(i: nat)
    | MainLocks(i: nat, kind: Kind)
    | MainSends(i: nat)
    | MainWaits(i: nat)
    | MainResumes(i: nat)
    | MainExits(i: nat)
    | MainJoins(i: nat)
    | ThreadPeeks(i: nat)
    | ThreadLocks(i: nat)
    | ThreadHandles(i: nat)
    | ThreadAcks(i: nat)
    | ThreadUnlocks(i: nat)
    | ServerPeeks(i: nat)
    | ServerTakes(i: nat)
    | ServerEnters(i: nat)
    | ServerCalls(i: nat, target: nat, cmd: Command)
    | ServerSeesAck(i: nat)
    | ServerTakesAck(i: nat)
    | ServerLeaves(i: nat)
    | ServerReplies(i: nat)

  predicate Enabled(s: State, a: Step) {
    a.i < |s.clients| &&
    var c := s.clients[a.i];
    match a
    case MainStarts(_) => c.main.Off?
    case MainCreated(_) => c.main.AwaitCreate? && |c.down| > 0
    case MainLocks(_, k) => c.main.Running? && c.mutex.Free? && k in {Extend, Syslog, Segv}
    case MainSends(_) => c.main.Locked?
    case MainWaits(_) => c.main.Sent?
    case MainResumes(_) => c.main.Woken? && c.mutex.Free?
    case MainExits(_) => c.main.Running? || c.main.Locked?
    case MainJoins(_) => c.main.ExitSent? && c.thread.Done?
    case ThreadPeeks(_) => c.thread.Peeks? && |c.down| > 0
    case ThreadLocks(_) => c.thread.Wants? && c.mutex.Free?
    case ThreadHandles(_) => c.thread.Handles?
    case ThreadAcks(_) => c.thread.Acks?
    case ThreadUnlocks(_) => c.thread.Unlocks?
    case ServerPeeks(_) => c.server.Listens? && |c.up| > 0 && c.up[0].Req?
    case ServerTakes(_) => c.server.Takes?
    case ServerEnters(_) => c.server.Enters? && s.lock.None?
    case ServerCalls(_, t, _) =>
      c.server.InPager? && c.server.kind.Segv? && c.server.calls > 0 && t < |s.clients| && s.clients[t].live
    case ServerSeesAck(_) =>
      c.server.Awaits? && c.server.target < |s.clients|
      && |s.clients[c.server.target].up| > 0 && s.clients[c.server.target].up[0] == AckOf(c.server.ack)
    case ServerTakesAck(_) => c.server.TakesAck? && c.server.target < |s.clients|
    case ServerLeaves(_) => c.server.InPager?
    case ServerReplies(_) => c.server.Replies?
  }

  /** What the code asserts, or assumes, when it acts: the message it receives is the one it
      peeked at, and a signal finds its waiter. */
  predicate Asserts(s: State, a: Step)
    requires Enabled(s, a)
  {
    var c := s.clients[a.i];
    match a
    case MainCreated(_) => c.down[0] == Rep(Create)
    case ThreadHandles(_) =>
      && |c.down| > 0 && TypeOf(c.down[0]) == c.thread.ty && c.thread.ty != RepType(Create)
      && (c.down[0].Rep? && !c.down[0].kind.Exit? ==> c.main == Waiting(c.down[0].kind))
    case ServerTakes(_) => |c.up| > 0 && c.up[0] == Req(c.server.kind)
    case ServerTakesAck(_) =>
      |s.clients[c.server.target].up| > 0 && s.clients[c.server.target].up[0] == AckOf(c.server.ack)
    case _ => true
  }

  function Set(s: State, i: nat, c: Client): State
    requires i < |s.clients|
  {
    s.(clients := s.clients[i := c])
  }

  /** A signal wakes the main thread if it is in cond_wait, and is lost otherwise. */
  function Signal(m: Main): Main {
    if m.Waiting? then Woken(m.kind) else m
  }

  function Handle(c: Client): Client
    requires c.thread.Handles? && |c.down| > 0
  {
    match c.down[0]
    case Rep(Exit) => c.(thread := Done, mutex := Free)
    case Rep(k) => c.(down := c.down[1..], main := Signal(c.main), thread := Unlocks)
    case Cmd(cmd) => c.(down := c.down[1..], view := Apply(c.view, cmd), thread := Acks(AckFor(cmd)))
  }

  function Next(s: State, a: Step): State
    requires Enabled(s, a) && Asserts(s, a)
  {
    var i, c := a.i, s.clients[a.i];
    match a
    case MainStarts(_) => Set(s, i, c.(main := AwaitCreate, up := c.up + [Req(Create)], server := Listens))
    case MainCreated(_) => Set(s, i, c.(main := Running, down := c.down[1..], thread := Peeks))
    case MainLocks(_, k) => Set(s, i, c.(main := Locked(k), mutex := ByMain))
    case MainSends(_) => Set(s, i, c.(main := Sent(c.main.kind), up := c.up + [Req(c.main.kind)]))
    case MainWaits(_) => Set(s, i, c.(main := Waiting(c.main.kind), mutex := Free))
    case MainResumes(_) => Set(s, i, c.(main := Running))
    case MainExits(_) =>
      Set(s, i, c.(main := ExitSent, up := c.up + [Req(Exit)],
                   mutex := if c.main.Locked? then Free else c.mutex))
    case MainJoins(_) => Set(s, i, c.(main := Exited))
    case ThreadPeeks(_) => Set(s, i, c.(thread := Wants(TypeOf(c.down[0]))))
    case ThreadLocks(_) => Set(s, i, c.(thread := Handles(c.thread.ty), mutex := ByThread))
    case ThreadHandles(_) => Set(s, i, Handle(c))
    case ThreadAcks(_) => Set(s, i, c.(thread := Unlocks, up := c.up + [AckOf(c.thread.ack)]))
    case ThreadUnlocks(_) => Set(s, i, c.(thread := Peeks, mutex := Free))
    case ServerPeeks(_) => Set(s, i, c.(server := Takes(c.up[0].kind)))
    case ServerTakes(_) => Set(s, i, c.(server := Enters(c.server.kind), up := c.up[1..]))
    case ServerEnters(_) => Set(s, i, c.(server := InPager(c.server.kind, s.maxCalls))).(lock := Some(i))
    case ServerCalls(_, t, cmd) =>
      var s' := Set(s, i, c.(server := Awaits(c.server.kind, c.server.calls - 1, t, AckFor(cmd))));
      var d := s'.clients[t];
      Set(s', t, d.(down := d.down + [Cmd(cmd)], want := Apply(d.want, cmd)))
    case ServerSeesAck(_) =>
      Set(s, i, c.(server := TakesAck(c.server.kind, c.server.calls, c.server.target, c.server.ack)))
    case ServerTakesAck(_) =>
      var t := c.server.target;
      var s' := Set(s, i, c.(server := InPager(c.server.kind, c.server.calls)));
      Set(s', t, s'.clients[t].(up := s'.clients[t].up[1..]))
    case ServerLeaves(_) =>
      Set(s, i, c.(server := Replies(c.server.kind),
                   live := if c.server.kind.Extend? then true
                           else if c.server.kind.Exit? then false else c.live)).(lock := None)
    case ServerReplies(_) =>
      Set(s, i, c.(server := if c.server.kind.Exit? then Gone else Listens, down := c.down + [Rep(c.server.kind)]))
  }

  function NewClient(): Client {
    Client(Off, NoThread, NoServer, Free, [], [], false, map[], map[])
  }

  predicate Init(s: State) {
    s.lock.None? && forall i :: 0 <= i < |s.clients| ==> s.clients[i] == NewClient()
  }
}
