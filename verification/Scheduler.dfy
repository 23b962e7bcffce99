/** The scheduler over three pointer lists; every operation is its step of `Scheduling`. */
module Scheduler {
  import opened DList
  import opened Options
  import opened Scheduling

  function Ids(items: seq<Option<Tid>>): (s: seq<Tid>)
    ensures |s| == |items|
  {
    seq(|items|, i requires 0 <= i < |items| => if items[i].Some? then items[i].value else 0)
  }

  lemma IdsAppend(items: seq<Option<Tid>>, t: Tid)
    ensures Ids(items + [Some(t)]) == Ids(items) + [t]
  {
  }

  lemma IdsTail(items: seq<Option<Tid>>)
    requires |items| > 0
    ensures Ids(items[1..]) == Ids(items)[1..]
  {
  }

  /** The queues compare handles. */
  function Is(t: Tid): Tid -> bool { x => x == t }

  predicate Present(items: seq<Option<Tid>>) {
    forall i :: 0 <= i < |items| ==> items[i].Some?
  }

  class Scheduler {
    const ready: DList<Tid>
    const waiting: DList<Tid>
    const finished: DList<Tid>
    /** who has the processor; a thread's number while that thread does */
    var control: Control
    var waitingFor: seq<Option<Tid>>
    /** the threads whose sleep timer is set */
    var timers: set<Tid>
    ghost var gone: set<Tid>

    ghost predicate Separate()
      reads this, ready, waiting, finished
    {
      && ready.Repr !! waiting.Repr !! finished.Repr
      && this !in ready.Repr && this !in waiting.Repr && this !in finished.Repr
    }

    ghost predicate Shape()
      reads this, ready, ready.Repr, waiting, waiting.Repr, finished, finished.Repr
    {
      && Separate() && ready.Valid() && waiting.Valid() && finished.Valid()
      && Present(ready.Items()) && Present(waiting.Items()) && Present(finished.Items())
    }

    ghost function View(): State
      reads this, ready, ready.Repr, waiting, waiting.Repr, finished, finished.Repr
      requires Shape()
    {
      State(Ids(ready.Items()), Ids(waiting.Items()), Ids(finished.Items()), control, waitingFor, timers, gone)
    }

    ghost predicate Valid()
      reads this, ready, ready.Repr, waiting, waiting.Repr, finished, finished.Repr
    {
      Shape() && Alive(View())
    }

    /** Three empty queues. */
    constructor ()
      ensures Shape() && View() == State([], [], [], Manager, [], {}, {})
      ensures fresh(ready.Repr) && fresh(waiting.Repr) && fresh(finished.Repr)
    {
      ready := new DList<Tid>();
      waiting := new DList<Tid>();
      finished := new DList<Tid>();
      control := Manager;
      waitingFor := [];
      timers := {};
      gone := {};
    }

    /** The main thread, made before the loop starts. */
    method CreateMain()
      requires Shape() && View() == State([], [], [], Manager, [], {}, {})
      modifies this, ready.Repr
      ensures Valid() && View() == Scheduling.Init()
    {
      waitingFor := [None];
      PushReady(0);
      assert View().ready == [0];
      InitOk();
    }

    // -------------------------------------------------------------- the parts of the state

    method GiveControl(c: Control)
      requires Shape()
      modifies this`control
      ensures Shape() && View() == old(View()).(control := c)
    {
      control := c;
    }

    method SetWaitingFor(t: Tid, target: Option<Tid>)
      requires Shape() && t < |waitingFor|
      modifies this`waitingFor
      ensures Shape() && View() == old(View()).(waitingFor := old(View()).waitingFor[t := target])
    {
      waitingFor := waitingFor[t := target];
    }

    method SetTimer(t: Tid)
      requires Shape()
      modifies this`timers
      ensures Shape() && View() == old(View()).(timers := old(View()).timers + {t})
    {
      timers := timers + {t};
    }

    method DeleteTimer(t: Tid)
      requires Shape()
      modifies this`timers
      ensures Shape() && View() == old(View()).(timers := old(View()).timers - {t})
    {
      timers := timers - {t};
    }

    method PushReady(t: Tid)
      requires Shape()
      modifies ready.Repr
      ensures Shape() && View() == old(View()).(ready := old(View()).ready + [t])
    {
      IdsAppend(ready.Items(), t);
      ready.PushRight(Some(t));
    }

    method PushWaiting(t: Tid)
      requires Shape()
      modifies waiting.Repr
      ensures Shape() && View() == old(View()).(sleeping := old(View()).sleeping + [t])
    {
      IdsAppend(waiting.Items(), t);
      waiting.PushRight(Some(t));
    }

    method PushFinished(t: Tid)
      requires Shape()
      modifies finished.Repr
      ensures Shape() && View() == old(View()).(finished := old(View()).finished + [t])
    {
      IdsAppend(finished.Items(), t);
      finished.PushRight(Some(t));
    }

    method PopReady() returns (t: Option<Tid>)
      requires Shape()
      modifies ready.Repr
      ensures Shape()
      ensures old(View()).ready == [] ==> t.None? && View() == old(View())
      ensures old(View()).ready != [] ==>
        t == Some(old(View()).ready[0]) && View() == old(View()).(ready := old(View()).ready[1..])
      ensures ready.Repr == old(ready.Repr)
    {
      if ready.Items() != [] { IdsTail(ready.Items()); }
      t := ready.PopLeft();
    }

    // -------------------------------------------------------------- the library's calls

    method CreateThread() returns (t: Tid)
      requires Valid() && control.Thread?
      modifies this, ready.Repr
      ensures Valid() && View() == After(old(View()), Create) && t == |old(waitingFor)|
    {
      ghost var goal := After(View(), Create);
      t := |waitingFor|;
      waitingFor := waitingFor + [None];
      PushReady(t);
    }

    method YieldThread()
      requires Valid() && control.Thread?
      modifies this, ready.Repr
      ensures Valid() && View() == After(old(View()), Yield)
    {
      ghost var goal := After(View(), Yield);
      PushReady(control.tid);
      control := Manager;
    }

    method ExitThread()
      requires Valid() && control.Thread?
      modifies this, finished.Repr
      ensures Valid() && View() == After(old(View()), Exit)
    {
      ghost var goal := After(View(), Exit);
      PushFinished(control.tid);
      gone := gone + {control.tid};
      control := Manager;
    }

    /** The thread's function returns; its context links to the manager's. */
    method ReturnThread()
      requires Valid() && control.Thread?
      modifies this
      ensures Valid() && View() == After(old(View()), Return)
    {
      ghost var goal := After(View(), Return);
      gone := gone + {control.tid};
      control := Manager;
    }

    method WaitFor(t: Option<Tid>)
      requires Valid() && control.Thread? && (t.Some? ==> t.value < |waitingFor|)
      modifies this, ready.Repr
      ensures Valid() && View() == After(old(View()), Wait(t))
    {
      ghost var goal := After(View(), Wait(t));
      Defined(View());
      if t.None? { return; }
      SetWaitingFor(control.tid, t);
      PushReady(control.tid);
      GiveControl(Manager);
    }

    method SleepThread()
      requires Valid() && control.Thread?
      modifies this, waiting.Repr
      ensures Valid() && View() == After(old(View()), Sleep)
    {
      ghost var goal := After(View(), Sleep);
      SetTimer(control.tid);
      PushWaiting(control.tid);
      GiveControl(Manager);
    }

    /** The signal handler of a sleep timer, which pushes the thread whether or not it was asleep. */
    method WakeThread(t: Tid)
      requires Valid() && Enabled(View(), Wakeup(t))
      modifies this, ready.Repr, waiting.Repr
      ensures Valid() && View() == After(old(View()), Wakeup(t))
    {
      ghost var goal := After(View(), Wakeup(t));
      RemoveWaiting(t);
      PushReady(t);
    }

    method RemoveWaiting(t: Tid)
      requires Shape()
      modifies waiting.Repr
      ensures Shape() && View() == old(View()).(sleeping := Without(old(View()).sleeping, t))
    {
      ghost var items := waiting.Items();
      RemoveIsWithout(items, t);
      var r := waiting.FindRemove(Is(t));
    }

    // -------------------------------------------------------------- the manager

    method IsInList(list: DList<Tid>, t: Tid) returns (r: bool)
      requires list.Valid() && Present(list.Items())
      ensures r <==> t in Ids(list.Items())
    {
      InIds(list.Items(), t);
      r := list.Contains(t);
    }

    /** Give the popped thread the processor, unless the one it waits for is still in a queue. */
    method Dispatch(t: Tid)
      requires Shape() && t < |waitingFor|
      modifies this, ready.Repr
      ensures Shape()
      ensures View() ==
        if StillThere(old(View()), t) then old(View()).(ready := old(View()).ready + [t])
        else old(View()).(control := Thread(t), waitingFor := old(View()).waitingFor[t := None],
                          timers := old(View()).timers - {t})
    {
      var there := InAQueue(waitingFor[t]);
      if there {
        PushReady(t);
      } else {
        SetWaitingFor(t, None);
        DeleteTimer(t);
        GiveControl(Thread(t));
      }
    }

    method InAQueue(target: Option<Tid>) returns (r: bool)
      requires Shape()
      ensures r <==> target.Some? && (target.value in View().ready || target.value in View().sleeping)
    {
      if target.None? { return false; }
      r := IsInList(ready, target.value);
      if !r { r := IsInList(waiting, target.value); }
    }

    method BothEmpty() returns (r: bool)
      requires Shape()
      ensures r <==> View().ready == [] && View().sleeping == []
    {
      var noneReady := ready.Empty();
      var noneAsleep := waiting.Empty();
      r := noneReady && noneAsleep;
    }

    /** One iteration of the loop, the guard included. */
    method ManagerIteration()
      requires Valid() && control.Manager?
      modifies this, ready.Repr
      ensures Valid() && View() == After(old(View()), Iterate)
    {
      ghost var s := View();
      ghost var goal := After(s, Iterate);
      Defined(s);
      var over := BothEmpty();
      if over {
        GiveControl(Finished);
        return;
      }
      var popped := PopReady();
      if popped.None? {
        GiveControl(Crashed);
        return;
      }
      Dispatch(popped.value);
    }
  }

  lemma InIds(items: seq<Option<Tid>>, t: Tid)
    requires Present(items)
    ensures Some(t) in items <==> t in Ids(items)
  {
    if Some(t) in items {
      var i :| 0 <= i < |items| && items[i] == Some(t);
      assert Ids(items)[i] == t;
    }
    if t in Ids(items) {
      var i :| 0 <= i < |items| && Ids(items)[i] == t;
      assert items[i] == Some(t);
    }
  }

  lemma {:induction false} WithoutAt(queue: seq<Tid>, t: Tid, p: nat)
    requires p < |queue| && queue[p] == t && t !in queue[..p]
    ensures Without(queue, t) == queue[..p] + queue[p + 1..]
  {
    if p > 0 {
      assert queue[0] in queue[..p];
      assert queue[1..][..p - 1] == queue[..p][1..];
      WithoutAt(queue[1..], t, p - 1);
    }
  }

  lemma {:induction false} WithoutNone(queue: seq<Tid>, t: Tid)
    requires t !in queue
    ensures Without(queue, t) == queue
  {
    if |queue| > 0 { WithoutNone(queue[1..], t); }
  }

  /** Removing the first match from the list removes the first occurrence from the queue. */
  lemma RemoveIsWithout(items: seq<Option<Tid>>, t: Tid)
    requires Present(items)
    ensures var p := FirstMatch(items, Is(t), 0);
      Without(Ids(items), t) == Ids(if p.Some? then items[..p.value] + items[p.value + 1..] else items)
  {
    match FirstMatch(items, Is(t), 0)
    case Some(p) =>
      assert Ids(items)[p] == t && t !in Ids(items)[..p];
      WithoutAt(Ids(items), t, p);
      assert Ids(items[..p] + items[p + 1..]) == Ids(items)[..p] + Ids(items)[p + 1..];
    case None =>
      assert t !in Ids(items);
      WithoutNone(Ids(items), t);
  }
}
