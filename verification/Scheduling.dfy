/** The user-level thread scheduler as a machine over its queues: what the library's calls, a timer
    that fires, and one iteration of the manager's loop do to them. */
module Scheduling {
  import opened Options

  type Tid = nat

  datatype Control =
    | Manager
    | Thread(tid: Tid)
    /** the loop found both queues empty */
    | Finished
    /** the loop popped from an empty `ready` queue and used the result */
    | Crashed

  /** `timers` are the threads with a sleep timer set: from the sleep until the thread runs again.
      `gone` remembers the threads that have exited or returned. */
  datatype State = State(
    ready: seq<Tid>, sleeping: seq<Tid>, finished: seq<Tid>, control: Control,
    waitingFor: seq<Option<Tid>>, timers: set<Tid>, gone: set<Tid>)

  datatype Step =
    | Create
    | Yield
    | Exit
    | Return
    | Wait(target: Option<Tid>)
    | Sleep
    /** a sleep timer fires, for the first time or again */
    | Wakeup(tid: Tid)
    /** one iteration of the manager's loop */
    | Iterate

  /** Calls are made by the running thread; a wait is for a thread that was created. */
  predicate Enabled(s: State, a: Step) {
    match a
    case Wakeup(t) => t in s.timers && (s.control.Manager? || s.control.Thread?)
    case Iterate => s.control.Manager?
    case Wait(t) => s.control.Thread? && (t.Some? ==> t.value < |s.waitingFor|)
    case _ => s.control.Thread?
  }

  /** The first occurrence taken out, if there is one. */
  function Without(s: seq<Tid>, t: Tid): seq<Tid> {
    if |s| == 0 then [] else if s[0] == t then s[1..] else [s[0]] + Without(s[1..], t)
  }

  /** Is the thread that `t` waits for still in a queue, now that `t` itself is not? */
  predicate StillThere(s: State, t: Tid)
    requires t < |s.waitingFor|
  {
    s.waitingFor[t].Some? && (s.waitingFor[t].value in s.ready || s.waitingFor[t].value in s.sleeping)
  }

  /** The popped thread goes on where it left; a sleeper's first act then is to delete its timer. */
  function Pop(s: State): State
    requires |s.ready| > 0 && s.ready[0] < |s.waitingFor|
  {
    var t, rest := s.ready[0], s.(ready := s.ready[1..]);
    if StillThere(rest, t) then rest.(ready := rest.ready + [t])
    else rest.(control := Thread(t), waitingFor := rest.waitingFor[t := None], timers := rest.timers - {t})
  }

  /** The timer's handler: taken out of `waiting` if there, and put in `ready` in any case. */
  function Woken(s: State, t: Tid): State {
    s.(sleeping := Without(s.sleeping, t), ready := s.ready + [t])
  }

  function Next(s: State, a: Step): State
    requires Enabled(s, a)
    requires s.control.Thread? ==> s.control.tid < |s.waitingFor|
    requires |s.ready| > 0 ==> s.ready[0] < |s.waitingFor|
  {
    match a
    case Create => s.(ready := s.ready + [|s.waitingFor|], waitingFor := s.waitingFor + [None])
    case Yield => s.(ready := s.ready + [s.control.tid], control := Manager)
    case Exit => s.(finished := s.finished + [s.control.tid], gone := s.gone + {s.control.tid}, control := Manager)
    case Return => s.(gone := s.gone + {s.control.tid}, control := Manager)
    case Wait(None) => s
    case Wait(Some(t)) =>
      s.(waitingFor := s.waitingFor[s.control.tid := Some(t)], ready := s.ready + [s.control.tid],
         control := Manager)
    case Sleep =>
      s.(sleeping := s.sleeping + [s.control.tid], timers := s.timers + {s.control.tid}, control := Manager)
    case Wakeup(t) => Woken(s, t)
    case Iterate =>
      if |s.ready| == 0 then s.(control := if |s.sleeping| == 0 then Finished else Crashed)
      else Pop(s)
  }

  /** As the loop is first reached: the main thread, thread 0, is ready. */
  function Init(): State {
    State([0], [], [], Manager, [None], {}, {})
  }

  // ---------------------------------------------------------------- nobody is lost

  function Count(queue: seq<Tid>, t: Tid): nat {
    if |queue| == 0 then 0 else (if queue[0] == t then 1 else 0) + Count(queue[1..], t)
  }

  /** In how many places `t` is: running, ready, sleeping, or gone. */
  function Places(s: State, t: Tid): nat {
    Count(s.ready, t) + Count(s.sleeping, t)
    + (if s.control == Thread(t) then 1 else 0) + (if t in s.gone then 1 else 0)
  }

  predicate Somewhere(s: State, t: Tid) {
    t in s.ready || t in s.sleeping || s.control == Thread(t) || t in s.gone
  }

  /** Exactly the threads created are somewhere; and one with a wait to resume from is not running.
      This is so however often the timers fire. */
  ghost predicate Alive(s: State) {
    && (forall t: Tid :: Somewhere(s, t) <==> t < |s.waitingFor|)
    && (forall u :: 0 <= u < |s.waitingFor| && s.waitingFor[u].Some? ==>
          s.waitingFor[u].value < |s.waitingFor| && s.control != Thread(u))
    && (forall t :: t in s.timers ==> t < |s.waitingFor|)
    && (forall t :: t in s.finished ==> t in s.gone)
  }

  lemma {:induction false} CountIn(queue: seq<Tid>, t: Tid)
    ensures Count(queue, t) > 0 <==> t in queue
  {
    if |queue| > 0 { CountIn(queue[1..], t); }
  }

  lemma {:induction false} CountAppend(queue: seq<Tid>, u: Tid, t: Tid)
    ensures Count(queue + [u], t) == Count(queue, t) + if u == t then 1 else 0
  {
    if |queue| > 0 {
      CountAppend(queue[1..], u, t);
      assert (queue + [u])[1..] == queue[1..] + [u];
    } else {
      assert queue + [u] == [u];
    }
  }

  lemma {:induction false} CountWithout(queue: seq<Tid>, u: Tid, t: Tid)
    ensures Count(Without(queue, u), t) == Count(queue, t) - if u == t && u in queue then 1 else 0
  {
    if |queue| > 0 && queue[0] != u {
      CountWithout(queue[1..], u, t);
    } else if |queue| > 0 {
      assert u in queue;
    }
  }

  lemma WithoutIn(queue: seq<Tid>, u: Tid, t: Tid)
    ensures t in Without(queue, u) ==> t in queue
    ensures t in queue && t != u ==> t in Without(queue, u)
  {
    CountWithout(queue, u, t);
    CountIn(queue, t);
    CountIn(Without(queue, u), t);
  }

  /** The queues and the running thread name created threads only, so every step is defined. */
  lemma Defined(s: State)
    requires Alive(s)
    ensures s.control.Thread? ==> s.control.tid < |s.waitingFor|
    ensures forall i :: 0 <= i < |s.ready| ==> s.ready[i] < |s.waitingFor|
  {
    if s.control.Thread? { assert Somewhere(s, s.control.tid); }
    forall i | 0 <= i < |s.ready| ensures s.ready[i] < |s.waitingFor| { assert Somewhere(s, s.ready[i]); }
  }

  lemma StepKeepsSomewhere(s: State, a: Step, t: Tid)
    requires Alive(s) && Enabled(s, a)
    requires s.control.Thread? ==> s.control.tid < |s.waitingFor|
    requires |s.ready| > 0 ==> s.ready[0] < |s.waitingFor|
    ensures Somewhere(Next(s, a), t) <==> Somewhere(s, t) || (a.Create? && t == |s.waitingFor|)
  {
    match a
    case Wakeup(u) =>
      WithoutIn(s.sleeping, u, t);
      assert Somewhere(s, u);
    case Iterate =>
      if |s.ready| > 0 { assert s.ready == [s.ready[0]] + s.ready[1..]; }
    case _ =>
  }

  lemma NextAlive(s: State, a: Step)
    requires Alive(s) && Enabled(s, a)
    ensures s.control.Thread? ==> s.control.tid < |s.waitingFor|
    ensures |s.ready| > 0 ==> s.ready[0] < |s.waitingFor|
    ensures Alive(Next(s, a))
  {
    Defined(s);
    forall t: Tid ensures Somewhere(Next(s, a), t) <==> t < |Next(s, a).waitingFor| {
      StepKeepsSomewhere(s, a, t);
    }
  }

  ghost function After(s: State, a: Step): (t: State)
    requires Alive(s) && Enabled(s, a)
    ensures Alive(t)
  {
    NextAlive(s, a);
    Next(s, a)
  }

  // ---------------------------------------------------------------- nobody is twice

  /** Every thread created is in exactly one place, and every sleeper has its timer. */
  ghost predicate Inv(s: State) {
    && Alive(s)
    && (forall t: Tid :: Places(s, t) <= 1)
    && (forall t :: t in s.sleeping ==> t in s.timers)
  }

  /** What that says of one thread. */
  lemma OnePlace(s: State, t: Tid)
    requires Inv(s)
    ensures t in s.ready ==> t < |s.waitingFor| && t !in s.sleeping && s.control != Thread(t) && t !in s.gone
    ensures t in s.sleeping ==> t < |s.waitingFor| && s.control != Thread(t) && t !in s.gone
    ensures s.control == Thread(t) ==> t < |s.waitingFor| && t !in s.gone
    ensures t < |s.waitingFor| ==> t in s.ready || t in s.sleeping || s.control == Thread(t) || t in s.gone
    ensures Count(s.ready, t) <= 1 && Count(s.sleeping, t) <= 1
  {
    assert Places(s, t) <= 1 && (Somewhere(s, t) <==> t < |s.waitingFor|);
    CountIn(s.ready, t);
    CountIn(s.sleeping, t);
  }

  lemma InitOk()
    ensures Inv(Init())
  {
    forall t: Tid ensures Places(Init(), t) <= 1 && (Somewhere(Init(), t) <==> t < 1) {
      assert [0][1..] == [];
    }
  }

  /** The only step that adds a place to a thread there was is a timer firing for one not asleep. */
  lemma StepKeepsPlaces(s: State, a: Step, t: Tid)
    requires Inv(s) && Enabled(s, a)
    ensures Places(After(s, a), t) == Places(s, t)
      + (if a.Create? && t == |s.waitingFor| then 1 else 0)
      + if a == Wakeup(t) && t !in s.sleeping then 1 else 0
  {
    Defined(s);
    if s.control.Thread? {
      OnePlace(s, s.control.tid);
      CountAppend(s.ready, s.control.tid, t);
      CountAppend(s.sleeping, s.control.tid, t);
    }
    match a
    case Create => CountAppend(s.ready, |s.waitingFor|, t);
    case Wakeup(u) => WokenPlaces(s, u, t);
    case Iterate =>
      if |s.ready| > 0 { CountAppend(s.ready[1..], s.ready[0], t); }
    case _ =>
  }

  lemma WokenPlaces(s: State, u: Tid, t: Tid)
    ensures Places(Woken(s, u), t) == Places(s, t) + if t == u && t !in s.sleeping then 1 else 0
  {
    CountWithout(s.sleeping, u, t);
    CountAppend(s.ready, u, t);
  }

  /** A step of a timer that fires once for each sleep. */
  predicate Once(s: State, a: Step) { a.Wakeup? ==> a.tid in s.sleeping }

  lemma NextInv(s: State, a: Step)
    requires Inv(s) && Enabled(s, a) && Once(s, a)
    ensures Inv(After(s, a))
  {
    forall t: Tid ensures Places(After(s, a), t) <= 1 {
      StepKeepsPlaces(s, a, t);
      NewIsNowhere(s, |s.waitingFor|);
    }
    NextTimers(s, a);
  }

  lemma NewIsNowhere(s: State, t: Tid)
    requires Alive(s) && t >= |s.waitingFor|
    ensures Places(s, t) == 0
  {
    assert !Somewhere(s, t);
    CountIn(s.ready, t);
    CountIn(s.sleeping, t);
  }

  lemma NextTimers(s: State, a: Step)
    requires Inv(s) && Enabled(s, a)
    ensures forall t :: t in After(s, a).sleeping ==> t in After(s, a).timers
  {
    Defined(s);
    forall t | t in After(s, a).sleeping ensures t in After(s, a).timers {
      if a.Wakeup? { WithoutIn(s.sleeping, a.tid, t); }
      OnePlace(s, t);
    }
  }

  /** The handler keeps every thread in one place exactly when the thread was still asleep: a second
      firing puts a thread in `ready` twice, or there while it runs or is gone. */
  lemma WokenInvIff(s: State, t: Tid)
    requires Inv(s) && t < |s.waitingFor|
    ensures Inv(Woken(s, t)) <==> t in s.sleeping
  {
    if t in s.sleeping {
      forall u: Tid ensures Places(Woken(s, t), u) <= 1 && (Somewhere(Woken(s, t), u) <==> u < |s.waitingFor|) {
        WokenPlaces(s, t, u);
        WithoutIn(s.sleeping, t, u);
        assert Somewhere(s, u) <==> u < |s.waitingFor|;
        CountIn(s.ready + [t], u);
      }
      forall u | u in Without(s.sleeping, t) ensures u in s.timers { WithoutIn(s.sleeping, t, u); }
    } else {
      WokenPlaces(s, t, t);
      assert Somewhere(s, t);
      CountIn(s.ready, t);
      CountIn(s.sleeping, t);
      assert Places(Woken(s, t), t) > 1;
    }
  }
}
