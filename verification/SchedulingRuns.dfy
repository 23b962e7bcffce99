/** Whole runs of the scheduler: waiting is safe, turns come round, and when the manager makes
    progress. */
module SchedulingRuns {
  import opened Options
  import opened Scheduling

  // ---------------------------------------------------------------- runs, whatever the timers do

  ghost predicate Valid(s: State, run: seq<Step>)
    requires Alive(s)
    decreases |run|, 0
  {
    |run| == 0 ||
    (Valid(s, run[..|run| - 1]) && Enabled(Exec(s, run[..|run| - 1]), run[|run| - 1]))
  }

  ghost function Exec(s: State, run: seq<Step>): (t: State)
    requires Alive(s) && Valid(s, run)
    ensures Alive(t)
    decreases |run|, 1
  {
    if |run| == 0 then s else After(Exec(s, run[..|run| - 1]), run[|run| - 1])
  }

  /** No timer fires for a thread that is no longer asleep. */
  ghost predicate FiresOnce(s: State, run: seq<Step>)
    requires Alive(s) && Valid(s, run)
    decreases |run|
  {
    |run| == 0 ||
    (FiresOnce(s, run[..|run| - 1]) && Once(Exec(s, run[..|run| - 1]), run[|run| - 1]))
  }

  /** Then every thread stays in exactly one place. */
  lemma {:induction false} RunInv(s: State, run: seq<Step>)
    requires Inv(s) && Valid(s, run) && FiresOnce(s, run)
    ensures Inv(Exec(s, run))
    decreases |run|
  {
    if |run| > 0 {
      RunInv(s, run[..|run| - 1]);
      NextInv(Exec(s, run[..|run| - 1]), run[|run| - 1]);
    }
  }

  // ---------------------------------------------------------------- waiting

  /** `u` still waits for `t`, or `t` is gone. */
  predicate HoldsBack(s: State, u: Tid, t: Tid) {
    u < |s.waitingFor| && (s.waitingFor[u] == Some(t) || t in s.gone)
  }

  lemma StepHoldsBack(s: State, a: Step, u: Tid, t: Tid)
    requires Alive(s) && Enabled(s, a) && HoldsBack(s, u, t) && u != t
    ensures HoldsBack(After(s, a), u, t)
  {
    Defined(s);
    if t !in s.gone {
      assert Somewhere(s, t);
      if a.Iterate? && |s.ready| > 0 && s.ready[0] == u {
        assert s.ready == [u] + s.ready[1..];
        assert t in s.ready[1..] || t in s.sleeping;
      }
    }
  }

  /** A thread blocked in a wait for another one runs again only after that one has exited or
      returned, whatever all the others do in between, and however often the timers fire. */
  lemma {:induction false} WaitIsSafe(s: State, run: seq<Step>, u: Tid, t: Tid)
    requires Alive(s) && s.control == Thread(u) && Enabled(s, Wait(Some(t))) && u != t
    requires Valid(After(s, Wait(Some(t))), run)
    ensures HoldsBack(Exec(After(s, Wait(Some(t))), run), u, t)
    ensures Exec(After(s, Wait(Some(t))), run).control == Thread(u)
      ==> t in Exec(After(s, Wait(Some(t))), run).gone
    decreases |run|
  {
    Defined(s);
    var w := After(s, Wait(Some(t)));
    if |run| > 0 {
      WaitIsSafe(s, run[..|run| - 1], u, t);
      StepHoldsBack(Exec(w, run[..|run| - 1]), run[|run| - 1], u, t);
    }
  }

  /** A wait for oneself does not block: the next turn resumes it. */
  lemma SelfWaitResumes(s: State)
    requires Inv(s) && s.control.Manager? && |s.ready| > 0
    requires s.ready[0] < |s.waitingFor| && s.waitingFor[s.ready[0]] == Some(s.ready[0])
    ensures After(s, Iterate).control == Thread(s.ready[0])
  {
    OnePlace(s, s.ready[0]);
    assert s.ready == [s.ready[0]] + s.ready[1..];
    CountIn(s.ready[1..], s.ready[0]);
  }

  /** The program exits only when every thread that was ever created has ended. */
  lemma EndsWithNobodyLeft(s: State, t: Tid)
    requires Alive(s) && Enabled(s, Iterate)
    ensures After(s, Iterate).control.Finished? ==> t < |s.waitingFor| ==> t in s.gone
  {
    Defined(s);
    assert Somewhere(s, t) <==> t < |s.waitingFor|;
  }

  /** And it does exit: the loop ends exactly when no thread is ready or asleep, however often timers
      fire; and, with every thread in one place, exactly when every thread has ended. */
  lemma EndsIffQueuesEmpty(s: State)
    requires Alive(s) && Enabled(s, Iterate)
    ensures After(s, Iterate).control.Finished? <==> s.ready == [] && s.sleeping == []
  {
    Defined(s);
  }

  lemma EndsIffAllGone(s: State)
    requires Inv(s) && Enabled(s, Iterate)
    ensures After(s, Iterate).control.Finished? <==> forall t: Tid :: t < |s.waitingFor| ==> t in s.gone
  {
    EndsIffQueuesEmpty(s);
    if s.ready == [] && s.sleeping == [] {
      forall t: Tid | t < |s.waitingFor| ensures t in s.gone { OnePlace(s, t); }
    } else if s.ready != [] {
      OnePlace(s, s.ready[0]);
      assert s.ready[0] in s.ready;
    } else {
      OnePlace(s, s.sleeping[0]);
      assert s.sleeping[0] in s.sleeping;
    }
  }

  /** A main thread that ends on its own ends the program. */
  lemma ExitAloneEnds()
    ensures Alive(Init()) && Valid(Init(), [] + [Iterate] + [Exit] + [Iterate])
    ensures Exec(Init(), [] + [Iterate] + [Exit] + [Iterate]).control.Finished?
  {
    InitOk();
    Snoc(Init(), [], Iterate);
    Snoc(Init(), [] + [Iterate], Exit);
    Snoc(Init(), [] + [Iterate] + [Exit], Iterate);
  }

  /** The loop's guard also lets an iteration through when everybody sleeps: then, and only then,
      it uses what a pop from an empty queue returned. */
  lemma CrashesIffAllSleep(s: State)
    requires Inv(s) && Enabled(s, Iterate)
    ensures After(s, Iterate).control.Crashed? <==>
      (exists t :: t in s.sleeping) && forall t: Tid :: t < |s.waitingFor| && t !in s.gone ==> t in s.sleeping
  {
    Defined(s);
    if After(s, Iterate).control.Crashed? {
      assert s.sleeping[0] in s.sleeping;
      forall t: Tid | t < |s.waitingFor| && t !in s.gone ensures t in s.sleeping { OnePlace(s, t); }
    } else if |s.ready| > 0 {
      OnePlace(s, s.ready[0]);
      assert s.ready[0] in s.ready;
    }
  }

  /** One more step. */
  lemma Snoc(s: State, run: seq<Step>, a: Step)
    requires Alive(s) && Valid(s, run) && Enabled(Exec(s, run), a)
    ensures Valid(s, run + [a]) && Exec(s, run + [a]) == After(Exec(s, run), a)
  {
    assert (run + [a])[..|run + [a]| - 1] == run;
  }

  /** A main thread that just sleeps gets there. */
  lemma SleepAloneCrashes()
    ensures Alive(Init()) && Valid(Init(), [] + [Iterate] + [Sleep] + [Iterate])
    ensures Exec(Init(), [] + [Iterate] + [Sleep] + [Iterate]).control.Crashed?
  {
    InitOk();
    Snoc(Init(), [], Iterate);
    Snoc(Init(), [] + [Iterate], Sleep);
    Snoc(Init(), [] + [Iterate] + [Sleep], Iterate);
  }

  // ---------------------------------------------------------------- who has the processor

  /** A thread keeps the processor or gives it to the manager; only the manager gives it to a thread, and
      only the manager's loop ends the program. */
  lemma ControlPasses(s: State, a: Step)
    requires Alive(s) && Enabled(s, a)
    ensures After(s, a).control != s.control && !a.Iterate? ==> After(s, a).control.Manager?
    ensures After(s, a).control.Finished? || After(s, a).control.Crashed? ==> a.Iterate?
    ensures a in {Yield, Exit, Return, Sleep} || (a.Wait? && a.target.Some?) ==> After(s, a).control.Manager?
    ensures a.Create? || a.Wakeup? ==> After(s, a).control == s.control
  {
    Defined(s);
  }

  /** A lone sleeper whose timer fires while the manager has control goes on. */
  lemma SleepAloneWakes()
    ensures Alive(Init()) && Valid(Init(), [] + [Iterate] + [Sleep] + [Wakeup(0)] + [Iterate])
    ensures Exec(Init(), [] + [Iterate] + [Sleep] + [Wakeup(0)] + [Iterate]).control == Thread(0)
  {
    InitOk();
    Snoc(Init(), [], Iterate);
    Snoc(Init(), [] + [Iterate], Sleep);
    Snoc(Init(), [] + [Iterate] + [Sleep], Wakeup(0));
    Snoc(Init(), [] + [Iterate] + [Sleep] + [Wakeup(0)], Iterate);
  }

  // ---------------------------------------------------------------- sleeping, and ending

  /** A sleeper stays asleep, and so does not run, until its timer fires. */
  lemma {:induction false} SleepsUntilWoken(s: State, run: seq<Step>, t: Tid)
    requires Inv(s) && t in s.sleeping && Valid(s, run) && FiresOnce(s, run) && Wakeup(t) !in run
    ensures t in Exec(s, run).sleeping && Exec(s, run).control != Thread(t) && t !in Exec(s, run).ready
    decreases |run|
  {
    RunInv(s, run);
    if |run| > 0 {
      var earlier, a := run[..|run| - 1], run[|run| - 1];
      assert a in run && forall b :: b in earlier ==> b in run;
      SleepsUntilWoken(s, earlier, t);
      if a.Wakeup? { WithoutIn(Exec(s, earlier).sleeping, a.tid, t); }
    }
    OnePlace(Exec(s, run), t);
  }

  /** The threads that exit over a run, in order. */
  ghost function Exiting(s: State, run: seq<Step>): seq<Tid>
    requires Alive(s) && Valid(s, run)
    decreases |run|
  {
    if |run| == 0 then []
    else
      var before, a := Exec(s, run[..|run| - 1]), run[|run| - 1];
      Exiting(s, run[..|run| - 1]) + if a == Exit && before.control.Thread? then [before.control.tid] else []
  }

  /** `finished` lists exactly those; a thread that returns is gone, but is not listed. */
  lemma {:induction false} FinishedIsExited(s: State, run: seq<Step>)
    requires Alive(s) && Valid(s, run)
    ensures Exec(s, run).finished == s.finished + Exiting(s, run)
    decreases |run|
  {
    if |run| > 0 {
      FinishedIsExited(s, run[..|run| - 1]);
    }
  }

  /** A wait for nothing returns at once. */
  lemma WaitForNothing(s: State)
    requires Alive(s) && s.control.Thread?
    ensures After(s, Wait(None)) == s
  {
    Defined(s);
  }

  // ---------------------------------------------------------------- timers that fire again

  /** Three threads; the first sleeps, and wakes while the others take their turns. */
  function Act(i: nat): Step {
    match i
    case 0 => Iterate
    case 1 => Create
    case 2 => Create
    case 3 => Sleep
    case 4 => Iterate
    case 5 => Wakeup(0)
    case 6 => Yield
    case 7 => Iterate
    case 8 => Wakeup(0)
    case 9 => Yield
    case 10 => Iterate
    case 11 => Exit
    case 12 => Iterate
    case 13 => Yield
    case _ => Iterate
  }

  function Three(ready: seq<Tid>, sleeping: seq<Tid>, control: Control, timers: set<Tid>): State {
    State(ready, sleeping, [], control, [None, None, None], timers, {})
  }

  function ZeroEnded(ready: seq<Tid>, control: Control): State {
    State(ready, [], [0], control, [None, None, None], {}, {0})
  }

  function At(i: nat): State {
    match i
    case 0 => Init()
    case 1 => State([], [], [], Thread(0), [None], {}, {})
    case 2 => State([1], [], [], Thread(0), [None, None], {}, {})
    case 3 => Three([1, 2], [], Thread(0), {})
    case 4 => Three([1, 2], [0], Manager, {0})
    case 5 => Three([2], [0], Thread(1), {0})
    case 6 => Three([2, 0], [], Thread(1), {0})
    case 7 => Three([2, 0, 1], [], Manager, {0})
    case 8 => Three([0, 1], [], Thread(2), {0})
    case 9 => Three([0, 1, 0], [], Thread(2), {0})
    case 10 => Three([0, 1, 0, 2], [], Manager, {0})
    case 11 => Three([1, 0, 2], [], Thread(0), {})
    case 12 => ZeroEnded([1, 0, 2], Manager)
    case 13 => ZeroEnded([0, 2], Thread(1))
    case 14 => ZeroEnded([0, 2, 1], Manager)
    case _ => ZeroEnded([2, 1], Thread(0))
  }

  /** The first `n` steps. */
  function Script(n: nat): (run: seq<Step>)
    ensures |run| == n
  {
    if n == 0 then [] else Script(n - 1) + [Act(n - 1)]
  }

  predicate Leads(s: State, a: Step, t: State) {
    && Enabled(s, a) && (s.control.Thread? ==> s.control.tid < |s.waitingFor|)
    && (|s.ready| > 0 ==> s.ready[0] < |s.waitingFor|) && Next(s, a) == t
  }

  lemma EarlyStep(i: nat)
    requires i < 5
    ensures Leads(At(i), Act(i), At(i + 1))
  {
  }

  lemma MiddleStep(i: nat)
    requires 5 <= i < 10
    ensures Leads(At(i), Act(i), At(i + 1))
  {
  }

  lemma LateStep(i: nat)
    requires 10 <= i < 15
    ensures Leads(At(i), Act(i), At(i + 1))
  {
  }

  lemma StepOf(i: nat)
    requires i < 15
    ensures Leads(At(i), Act(i), At(i + 1))
  {
    if i < 5 {
      EarlyStep(i);
    } else if i < 10 {
      MiddleStep(i);
    } else {
      LateStep(i);
    }
  }

  lemma Follow(run: seq<Step>, s: State, a: Step, t: State)
    requires Alive(Init()) && Valid(Init(), run) && Exec(Init(), run) == s && Leads(s, a, t)
    ensures Valid(Init(), run + [a]) && Exec(Init(), run + [a]) == t
  {
    Snoc(Init(), run, a);
  }

  lemma {:induction false} ScriptRuns(n: nat)
    requires n <= 15
    ensures Alive(Init()) && Valid(Init(), Script(n)) && Exec(Init(), Script(n)) == At(n)
  {
    InitOk();
    if n > 0 {
      ScriptRuns(n - 1);
      StepOf(n - 1);
      Follow(Script(n - 1), At(n - 1), Act(n - 1), At(n));
    }
  }

  /** Before it gets its turn its timer fires again, and it is in `ready` twice. */
  lemma ReadyTwice()
    ensures Alive(Init()) && Valid(Init(), Script(9))
    ensures Exec(Init(), Script(9)).ready == [0, 1, 0] && !Inv(Exec(Init(), Script(9)))
  {
    ScriptRuns(9);
    var queue := At(9).ready;
    assert queue[1..] == [1, 0] && queue[1..][1..] == [0];
    assert Count(queue, 0) == 2;
    assert Places(At(9), 0) > 1;
  }

  /** So a thread may be given control after it has ended. */
  lemma EndedThreadRuns()
    ensures Alive(Init()) && Valid(Init(), Script(15))
    ensures Exec(Init(), Script(15)).control == Thread(0) && 0 in Exec(Init(), Script(15)).gone
  {
    ScriptRuns(15);
  }

  // ---------------------------------------------------------------- turns

  function Pops(run: seq<Step>): nat {
    if |run| == 0 then 0 else Pops(run[..|run| - 1]) + if run[|run| - 1].Iterate? then 1 else 0
  }

  /** A thread at place k of `ready` moves up one place with every pop and is never overtaken: it is
      popped after exactly k others. */
  lemma {:induction false} TurnComes(s: State, run: seq<Step>, k: nat)
    requires Alive(s) && Valid(s, run) && k < |s.ready| && Pops(run) <= k
    ensures var t := Exec(s, run); k - Pops(run) < |t.ready| && t.ready[k - Pops(run)] == s.ready[k]
    decreases |run|
  {
    if |run| > 0 {
      TurnComes(s, run[..|run| - 1], k);
      Defined(Exec(s, run[..|run| - 1]));
    }
  }

  /** Iterations of the manager alone, until it hands control to a thread. */
  ghost function Spin(s: State, n: nat): (t: State)
    requires Inv(s)
    ensures Inv(t)
    decreases n
  {
    if n == 0 || !s.control.Manager? then s else NextInv(s, Iterate); Spin(After(s, Iterate), n - 1)
  }

  /** Popped now, would `u` be put back? */
  predicate Blocked(s: State, u: Tid)
    requires u < |s.waitingFor|
  {
    s.waitingFor[u].Some? && s.waitingFor[u].value != u
    && (s.waitingFor[u].value in s.ready || s.waitingFor[u].value in s.sleeping)
  }

  lemma IterateSkips(s: State)
    requires Inv(s) && s.control.Manager? && |s.ready| > 0 && s.ready[0] < |s.waitingFor|
    ensures Blocked(s, s.ready[0]) ==>
      After(s, Iterate) == s.(ready := s.ready[1..] + [s.ready[0]])
    ensures !Blocked(s, s.ready[0]) ==> After(s, Iterate).control == Thread(s.ready[0])
  {
    var t := s.ready[0];
    OnePlace(s, t);
    assert s.ready == [t] + s.ready[1..];
    CountIn(s.ready[1..], t);
  }

  lemma SameBlocked(s: State, t: State)
    requires t == s.(ready := t.ready) && forall u :: u in t.ready <==> u in s.ready
    ensures forall u: Tid :: u < |s.waitingFor| ==> Blocked(t, u) == Blocked(s, u)
  {
  }

  /** The first thread in `ready` that is not blocked gets control, after exactly as many
      iterations as its place in the queue says, and one. */
  lemma {:induction false} FirstUnblockedRuns(s: State, k: nat)
    requires Inv(s) && s.control.Manager? && k < |s.ready|
    requires forall j :: 0 <= j < |s.ready| ==> s.ready[j] < |s.waitingFor|
    requires !Blocked(s, s.ready[k]) && forall j :: 0 <= j < k ==> Blocked(s, s.ready[j])
    ensures Spin(s, k).control.Manager?
    ensures Spin(s, k + 1).control == Thread(s.ready[k])
    decreases k
  {
    NextInv(s, Iterate);
    IterateSkips(s);
    var t := After(s, Iterate);
    if k == 0 {
      assert Spin(t, 0) == t;
    } else {
      assert s.ready == [s.ready[0]] + s.ready[1..];
      assert forall u :: u in t.ready <==> u in s.ready;
      SameBlocked(s, t);
      FirstUnblockedRuns(t, k - 1);
    }
  }

  /** If every ready thread is blocked, the manager goes round for ever. */
  lemma {:induction false} AllBlockedSpins(s: State, n: nat)
    requires Inv(s) && s.control.Manager? && |s.ready| > 0
    requires forall j :: 0 <= j < |s.ready| ==> s.ready[j] < |s.waitingFor| && Blocked(s, s.ready[j])
    ensures Spin(s, n).control.Manager?
    decreases n
  {
    if n > 0 {
      NextInv(s, Iterate);
      IterateSkips(s);
      var t := After(s, Iterate);
      assert s.ready == [s.ready[0]] + s.ready[1..];
      assert forall u :: u in t.ready <==> u in s.ready;
      SameBlocked(s, t);
      AllBlockedSpins(t, n - 1);
    }
  }

  /** With somebody ready, and while no timer fires, a thread gets control within |ready| iterations
      exactly when some ready thread is not blocked; otherwise none does after any number of them. */
  lemma ProgressIffUnblocked(s: State)
    requires Inv(s) && s.control.Manager? && |s.ready| > 0
    requires forall j :: 0 <= j < |s.ready| ==> s.ready[j] < |s.waitingFor|
    ensures (exists k :: 0 <= k < |s.ready| && !Blocked(s, s.ready[k]))
      <==> (exists n: nat :: n <= |s.ready| && Spin(s, n).control.Thread?)
    ensures (exists k :: 0 <= k < |s.ready| && !Blocked(s, s.ready[k]))
      <==> (exists n: nat :: Spin(s, n).control.Thread?)
  {
    if k :| 0 <= k < |s.ready| && !Blocked(s, s.ready[k]) {
      var f := FirstUnblocked(s, 0, k);
      FirstUnblockedRuns(s, f);
      assert Spin(s, f + 1).control.Thread?;
    } else {
      forall n: nat ensures !Spin(s, n).control.Thread? { AllBlockedSpins(s, n); }
    }
  }

  lemma {:induction false} FirstUnblocked(s: State, i: nat, k: nat) returns (f: nat)
    requires i <= k < |s.ready|
    requires forall j :: 0 <= j < |s.ready| ==> s.ready[j] < |s.waitingFor|
    requires !Blocked(s, s.ready[k]) && forall j :: 0 <= j < i ==> Blocked(s, s.ready[j])
    ensures f <= k && !Blocked(s, s.ready[f]) && forall j :: 0 <= j < f ==> Blocked(s, s.ready[j])
    decreases k - i
  {
    if i < k && Blocked(s, s.ready[i]) { f := FirstUnblocked(s, i + 1, k); } else { f := i; }
  }

  /** `rank` shows that the wait-for graph has no cycle. */
  predicate Acyclic(s: State, rank: Tid -> nat)
  {
    forall u: Tid :: u < |s.waitingFor| && s.waitingFor[u].Some? && s.waitingFor[u].value != u ==>
      rank(s.waitingFor[u].value) < rank(u)
  }

  /** With no cycle of waits and nobody asleep, some thread gets control within |ready| iterations. */
  lemma AcyclicProgress(s: State, rank: Tid -> nat)
    requires Inv(s) && s.control.Manager? && |s.ready| > 0 && s.sleeping == [] && Acyclic(s, rank)
    ensures exists n: nat :: n <= |s.ready| && Spin(s, n).control.Thread?
  {
    Defined(s);
    var k := LeastRank(s, rank, |s.ready|);
    assert forall t :: t in s.ready ==> rank(s.ready[k]) <= rank(t);
    assert !Blocked(s, s.ready[k]);
    ProgressIffUnblocked(s);
  }

  lemma {:induction false} LeastRank(s: State, rank: Tid -> nat, n: nat) returns (k: nat)
    requires 0 < n <= |s.ready|
    ensures k < n && forall j :: 0 <= j < n ==> rank(s.ready[k]) <= rank(s.ready[j])
  {
    k := 0;
    if n > 1 {
      k := LeastRank(s, rank, n - 1);
      if rank(s.ready[n - 1]) < rank(s.ready[k]) { k := n - 1; }
    }
  }

  // ---------------------------------------------------------------- and while timers fire

  /** Nobody has run since `s`: the same threads are ready or asleep, waiting for the same ones, and
      all those ready are blocked or were asleep in `s`. */
  ghost predicate Idling(s: State, t: State) {
    && t.control.Manager? && t.waitingFor == s.waitingFor
    && (forall u :: u in t.ready || u in t.sleeping <==> u in s.ready || u in s.sleeping)
    && (forall u :: u in t.sleeping ==> u in s.sleeping)
    && (forall u :: u in t.ready && u !in s.sleeping ==> u < |s.waitingFor| && Blocked(s, u))
  }

  lemma StepIdling(s: State, t: State, a: Step)
    requires Inv(t) && Idling(s, t) && Enabled(t, a) && Once(t, a) && (a.Iterate? || a.Wakeup?)
    ensures var w := After(t, a);
      Idling(s, w) || (w.control.Thread? && w.control.tid in s.sleeping) || w.control.Crashed? || w.control.Finished?
  {
    Defined(t);
    var w := After(t, a);
    if a.Wakeup? {
      forall u ensures u in w.ready || u in w.sleeping <==> u in t.ready || u in t.sleeping {
        WithoutIn(t.sleeping, a.tid, u);
      }
      forall u | u in w.sleeping ensures u in t.sleeping { WithoutIn(t.sleeping, a.tid, u); }
    } else if |t.ready| > 0 {
      var u := t.ready[0];
      assert t.ready == [u] + t.ready[1..] && u in t.ready;
      if u !in s.sleeping {
        assert Blocked(s, u) && t.waitingFor[u].value in t.ready[1..] + t.sleeping;
      }
    }
  }

  /** Sleepers may wake at any time: if every ready thread is blocked, the first one to get control
      was asleep. */
  lemma {:induction false} FirstToRunWasAsleep(s: State, run: seq<Step>)
    requires Inv(s) && s.control.Manager? && Valid(s, run) && FiresOnce(s, run)
    requires forall j :: 0 <= j < |s.ready| ==> s.ready[j] < |s.waitingFor| && Blocked(s, s.ready[j])
    requires forall k :: 0 <= k < |run| ==> run[k].Iterate? || run[k].Wakeup?
    ensures Exec(s, run).control.Thread? ==> Exec(s, run).control.tid in s.sleeping
    ensures Exec(s, run).control.Manager? ==> Idling(s, Exec(s, run))
    decreases |run|
  {
    if |run| > 0 {
      var earlier, a := run[..|run| - 1], run[|run| - 1];
      assert forall k :: 0 <= k < |earlier| ==> earlier[k] == run[k];
      FirstToRunWasAsleep(s, earlier);
      RunInv(s, earlier);
      if Exec(s, earlier).control.Manager? { StepIdling(s, Exec(s, earlier), a); }
    }
  }
}
