/** The doubly linked list under the thread queues, node by node, against a sequence. */
module DList {
  import opened Options

  /** The first place at or after `i` whose element matches; absent data never does. */
  function FirstMatch<T>(s: seq<Option<T>>, matches: T -> bool, i: nat): (r: Option<nat>)
    requires i <= |s|
    ensures r.Some? ==>
      i <= r.value < |s| && s[r.value].Some? && matches(s[r.value].value)
    ensures forall k :: i <= k < (if r.Some? then r.value else |s|) ==> s[k].None? || !matches(s[k].value)
    decreases |s| - i
  {
    if i == |s| then None
    else if s[i].Some? && matches(s[i].value) then Some(i)
    else FirstMatch(s, matches, i + 1)
  }

  /** Places count from the left, or, when negative, from the right. */
  function Place(n: nat, idx: int): (r: Option<nat>)
    ensures r.Some? <==> 0 <= idx + n && idx < n
    ensures r.Some? ==> r.value < n
  {
    if 0 <= idx < n then Some(idx)
    else if idx < 0 <= idx + n then Some(idx + n)
    else None
  }

  /** Index -1 is the last place, and -k the k-th from the right. */
  lemma PlaceFromRight(n: nat, k: int)
    ensures 0 < k <= n ==> Place(n, -k) == Place(n, n - k) == Some(n - k)
    ensures n > 0 ==> Place(n, -1) == Some(n - 1) && Place(n, 0) == Some(0)
  {
  }

  class Node<T> {
    var prev: Node?<T>
    var next: Node?<T>
    var data: Option<T>
    constructor (data: Option<T>, prev: Node?<T>)
      ensures this.data == data && this.prev == prev && next == null
    {
      this.data, this.prev, this.next := data, prev, null;
    }
  }

  class DList<T(==)> {
    var head: Node?<T>
    var tail: Node?<T>
    var count: int
    /** the nodes from head to tail */
    ghost var nodes: seq<Node<T>>
    /** the list's own objects */
    ghost var Repr: set<object>

    /** Backward and forward links are each other's inverses, all along the list. */
    ghost predicate Valid()
      reads this, Repr
      ensures Valid() ==> this in Repr
    {
      && this in Repr && (forall i :: 0 <= i < |nodes| ==> nodes[i] in Repr)
      && count == |nodes|
      && (forall i, j :: 0 <= i < j < |nodes| ==> nodes[i] != nodes[j])
      && (|nodes| == 0 ==> head == null && tail == null)
      && (|nodes| > 0 ==>
            && head == nodes[0] && head.prev == null
            && tail == nodes[|nodes| - 1] && tail.next == null)
      && (forall i, j :: 0 <= i && j == i + 1 && j < |nodes| ==>
            nodes[i].next == nodes[j] && nodes[j].prev == nodes[i])
    }

    /** The data, from left to right. */
    ghost function Items(): (s: seq<Option<T>>)
      reads this, nodes
      ensures |s| == |nodes|
    {
      seq(|nodes|, i requires 0 <= i < |nodes| reads this, nodes => nodes[i].data)
    }

    constructor ()
      ensures Valid() && Items() == [] && Repr == {this}
    {
      head, tail, count := null, null, 0;
      nodes := [];
      Repr := {this};
    }

    method Empty() returns (r: bool)
      requires Valid()
      ensures r <==> Items() == []
    {
      if head == null {
        assert tail == null;
        assert count == 0;
        r := true;
      } else {
        assert tail != null;
        assert count > 0;
        r := false;
      }
    }

    method PushRight(data: Option<T>)
      requires Valid()
      modifies Repr
      ensures Valid() && Items() == old(Items()) + [data]
      ensures fresh(Repr - old(Repr))
    {
      var node := new Node(data, tail);
      if tail != null {
        tail.next := node;
      }
      tail := node;
      if head == null {
        head := node;
      }
      count := count + 1;
      nodes := nodes + [node];
      Repr := Repr + {node};
    }

    /** None for an empty list, as for absent data. */
    method PopLeft() returns (r: Option<T>)
      requires Valid()
      modifies Repr
      ensures Valid() && Repr == old(Repr)
      ensures old(Items()) == [] ==> r == None && Items() == []
      ensures old(Items()) != [] ==> r == old(Items())[0] && Items() == old(Items())[1..]
    {
      var empty := Empty();
      if empty { return None; }
      var node := head;
      assert if |nodes| > 1 then node.next == nodes[1] else node.next == null;
      head := node.next;
      if head == null { tail := null; }
      if node.next != null { node.next.prev := null; }
      r := node.data;
      count := count - 1;
      nodes := nodes[1..];
      assert forall i :: 0 <= i < |nodes| ==> nodes[i] == old(nodes)[i + 1];
      assert count >= 0;
    }

    /** The next element for the caller's function. */
    method HandOver(given: seq<Option<T>>) returns (more: seq<Option<T>>)
      requires Valid() && Items() != []
      modifies Repr
      ensures Valid() && Repr == old(Repr) && |Items()| < |old(Items())|
      ensures more + Items() == given + old(Items())
    {
      ghost var items := Items();
      var data := PopLeft();
      assert items == [data] + Items();
      more := given + [data];
    }

    /** Destroying the list hands every element, from the left, to the caller's function. */
    method Destroy() returns (given: seq<Option<T>>)
      requires Valid()
      modifies Repr
      ensures Valid() && Repr == old(Repr) && Items() == []
      ensures given == old(Items())
    {
      ghost var items := Items();
      given := [];
      var empty := Empty();
      while !empty
        modifies Repr
        invariant Valid() && Repr == old(Repr)
        invariant given + Items() == items
        invariant empty <==> Items() == []
        decreases |Items()|
      {
        given := HandOver(given);
        empty := Empty();
      }
    }

    method PopRight() returns (r: Option<T>)
      requires Valid()
      modifies Repr
      ensures Valid() && Repr == old(Repr)
      ensures old(Items()) == [] ==> r == None && Items() == []
      ensures var was := old(Items());
        was != [] ==> r == was[|was| - 1] && Items() == was[..|was| - 1]
    {
      var empty := Empty();
      if empty { return None; }
      var node := tail;
      assert if |nodes| > 1 then node.prev == nodes[|nodes| - 2] else node.prev == null;
      tail := node.prev;
      if tail == null { head := null; }
      if node.prev != null { node.prev.next := null; }
      r := node.data;
      count := count - 1;
      nodes := nodes[..|nodes| - 1];
      assert count >= 0;
    }

    /** Remove the first element that matches, and return it. */
    method FindRemove(matches: T -> bool) returns (r: Option<T>)
      requires Valid()
      modifies Repr
      ensures Valid() && Repr == old(Repr)
      ensures var was, p := old(Items()), FirstMatch(old(Items()), matches, 0);
        if p.None? then r == None && Items() == was
        else r == was[p.value] && Items() == was[..p.value] + was[p.value + 1..]
    {
      var curr := head;
      ghost var i := 0;
      while curr != null
        invariant 0 <= i <= |nodes| && curr == if i < |nodes| then nodes[i] else null
        invariant FirstMatch(Items(), matches, i) == FirstMatch(Items(), matches, 0)
        decreases |nodes| - i
      {
        if curr.data.Some? && matches(curr.data.value) {
          r := curr.data;
          Unlink(curr, i);
          return;
        }
        curr := curr.next;
        i := i + 1;
      }
      return None;
    }

    method Unlink(curr: Node<T>, ghost i: nat)
      requires Valid() && i < |nodes| && curr == nodes[i]
      modifies Repr
      ensures Valid() && Repr == old(Repr) && nodes == old(nodes)[..i] + old(nodes)[i + 1..]
      ensures Items() == old(Items())[..i] + old(Items())[i + 1..]
    {
      assert curr.prev == if i == 0 then null else nodes[i - 1];
      assert curr.next == if i == |nodes| - 1 then null else nodes[i + 1];
      if head == curr { head := curr.next; }
      if tail == curr { tail := curr.prev; }
      if curr.prev != null { curr.prev.next := curr.next; }
      if curr.next != null { curr.next.prev := curr.prev; }
      count := count - 1;
      nodes := nodes[..i] + nodes[i + 1..];
    }

    /** The node at a place, found from whichever end the index counts from. */
    method NodeAt(idx: int) returns (curr: Node?<T>)
      requires Valid()
      ensures var p := Place(|nodes|, idx); curr == if p.Some? then nodes[p.value] else null
    {
      var k := idx;
      if k >= 0 {
        curr := head;
        ghost var i := 0;
        while curr != null && k != 0
          invariant 0 <= i <= |nodes| && k == idx - i && k >= 0
          invariant curr == if i < |nodes| then nodes[i] else null
          decreases |nodes| - i
        {
          k := k - 1;
          curr := curr.next;
          i := i + 1;
        }
      } else {
        curr := tail;
        ghost var i := |nodes| - 1;
        k := k + 1;
        while curr != null && k != 0
          invariant -1 <= i < |nodes| && k == idx + |nodes| - i && k <= 0
          invariant curr == if i >= 0 then nodes[i] else null
          decreases i
        {
          curr := curr.prev;
          i := i - 1;
          k := k + 1;
        }
      }
    }

    method GetIndex(idx: int) returns (r: Option<T>)
      requires Valid()
      ensures var p := Place(|Items()|, idx); r == if p.Some? then Items()[p.value] else None
      ensures 0 <= idx < |Items()| ==> r == Items()[idx]
      ensures idx < 0 <= idx + |Items()| ==> r == Items()[|Items()| + idx]
    {
      var curr := NodeAt(idx);
      if curr == null { return None; }
      return curr.data;
    }

    /** Nothing happens when the place does not exist. */
    method SetIndex(idx: int, data: Option<T>)
      requires Valid()
      modifies Repr
      ensures Valid() && Repr == old(Repr)
      ensures var p := Place(|old(Items())|, idx);
        Items() == if p.Some? then old(Items())[p.value := data] else old(Items())
    {
      var curr := NodeAt(idx);
      if curr == null { return; }
      curr.data := data;
    }

    /** Is some element the given one? */
    method Contains(x: T) returns (r: bool)
      requires Valid()
      ensures r <==> Some(x) in Items()
    {
      if count == 0 { return false; }
      var curr := head;
      ghost var i := 0;
      while curr != null
        invariant 0 <= i <= |nodes| && curr == if i < |nodes| then nodes[i] else null
        invariant forall k :: 0 <= k < i ==> Items()[k] != Some(x)
        decreases |nodes| - i
      {
        if curr.data == Some(x) {
          assert Items()[i] == Some(x);
          return true;
        }
        curr := curr.next;
        i := i + 1;
      }
      return false;
    }
  }
}
