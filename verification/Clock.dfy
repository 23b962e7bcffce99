/** The second-chance ("clock") sweep over the frames' reference bits. */
module Clock {

  /** How many reference bits are set; the potential of the amortised bound. */
  function Ones(bits: seq<bool>): nat {
    if |bits| == 0 then 0 else (if bits[0] then 1 else 0) + Ones(bits[1..])
  }

  lemma {:induction false} OnesUpdate(bits: seq<bool>, i: nat, v: bool)
    requires i < |bits|
    ensures Ones(bits[i := v]) == Ones(bits) - (if bits[i] then 1 else 0) + (if v then 1 else 0)
  {
    if i == 0 {
      assert bits[i := v][1..] == bits[1..];
    } else {
      OnesUpdate(bits[1..], i - 1, v);
      assert bits[i := v][1..] == bits[1..][i - 1 := v];
    }
  }

  lemma {:induction false} OnesAllClear(n: nat)
    ensures Ones(seq(n, _ => false)) == 0
  {
    if n > 0 {
      OnesAllClear(n - 1);
      assert seq(n, _ => false)[1..] == seq(n - 1, _ => false);
    }
  }

  /** What one search leaves behind: the bits, the victim, the hand, and the loop iterations it took. */
  datatype Choice = Choice(bits: seq<bool>, victim: nat, hand: nat, steps: nat)

  /** The hand's next place; the source writes it `(hand + 1) % n`. */
  function Successor(n: nat, hand: nat): (h: nat)
    requires hand < n
    ensures h < n
  {
    if hand + 1 == n then 0 else hand + 1
  }

  lemma SuccessorIsMod(n: nat, hand: nat)
    requires hand < n
    ensures (hand + 1) % n == Successor(n, hand)
  {
  }

  function Sweep(bits: seq<bool>, hand: nat): (c: Choice)
    requires hand < |bits|
    ensures |c.bits| == |bits| && c.victim < |bits| && c.hand == Successor(|bits|, c.victim)
    ensures c.steps + Ones(c.bits) == Ones(bits) + 1
    decreases Ones(bits)
  {
    if !bits[hand] then
      Choice(bits, hand, Successor(|bits|, hand), 1)
    else
      OnesUpdate(bits, hand, false);
      var c := Sweep(bits[hand := false], Successor(|bits|, hand));
      c.(steps := c.steps + 1)
  }

  /** How many places ahead of the hand frame `j` stands. */
  function Ahead(n: nat, hand: nat, j: nat): nat
    requires hand < n && j < n
  {
    if j >= hand then j - hand else j + n - hand
  }

  /** One place on, every other frame is one place nearer, and the one left behind is the farthest. */
  lemma AheadOfSuccessor(n: nat, hand: nat, j: nat)
    requires hand < n && j < n
    ensures Ahead(n, Successor(n, hand), j) == if j == hand then n - 1 else Ahead(n, hand, j) - 1
  {
  }

  /** The victim is the clear bit nearest ahead of the hand, and exactly the bits that were passed over
      are cleared. */
  ghost predicate Nearest(bits: seq<bool>, hand: nat, c: Choice)
    requires hand < |bits|
  {
    var n := |bits|;
    && |c.bits| == n && c.victim < n && !bits[c.victim]
    && c.steps == Ahead(n, hand, c.victim) + 1
    && (forall j :: 0 <= j < n && Ahead(n, hand, j) < Ahead(n, hand, c.victim) ==> bits[j])
    && (forall j :: 0 <= j < n ==> c.bits[j] == (bits[j] && Ahead(n, hand, j) > Ahead(n, hand, c.victim)))
  }

  lemma PassOver(bits: seq<bool>, hand: nat, c: Choice)
    requires hand < |bits| && bits[hand]
    requires Nearest(bits[hand := false], Successor(|bits|, hand), c) && c.victim != hand
    ensures Nearest(bits, hand, c.(steps := c.steps + 1))
  {
    var n, rest := |bits|, bits[hand := false];
    AheadOfSuccessor(n, hand, c.victim);
    forall j | 0 <= j < n
      ensures Ahead(n, hand, j) < Ahead(n, hand, c.victim) ==> bits[j]
      ensures c.bits[j] == (bits[j] && Ahead(n, hand, j) > Ahead(n, hand, c.victim))
    {
      AheadOfSuccessor(n, hand, j);
      assert j != hand ==> rest[j] == bits[j];
    }
  }

  lemma {:induction false} SweepTakesNearestClear(bits: seq<bool>, hand: nat, clear: nat)
    requires hand < |bits| && clear < |bits| && !bits[clear]
    ensures Nearest(bits, hand, Sweep(bits, hand))
    decreases Ahead(|bits|, hand, clear)
  {
    if bits[hand] {
      var n, rest, next := |bits|, bits[hand := false], Successor(|bits|, hand);
      AheadOfSuccessor(n, hand, clear);
      SweepTakesNearestClear(rest, next, clear);
      // the hand's own, just cleared, bit is now the farthest, so `clear` is found before it
      AheadOfSuccessor(n, hand, hand);
      var c := Sweep(rest, next);
      assert !rest[clear];
      PassOver(bits, hand, c);
    }
  }

  /** With every bit set the hand goes once round: its own frame is taken and all bits are cleared. */
  lemma SweepAllSet(bits: seq<bool>, hand: nat)
    requires hand < |bits| && forall j :: 0 <= j < |bits| ==> bits[j]
    ensures var c := Sweep(bits, hand);
      c.victim == hand && c.steps == |bits| + 1 && c.bits == seq(|bits|, _ => false)
  {
    var n, one := |bits|, bits[hand := false];
    SweepTakesNearestClear(one, Successor(n, hand), hand);
    var c := Sweep(one, Successor(n, hand));
    assert c.victim == hand;
    assert Ahead(n, Successor(n, hand), hand) == n - 1;
  }

  /** The search ends within size + 1 iterations, whatever the bits. */
  lemma SweepBound(bits: seq<bool>, hand: nat)
    requires hand < |bits|
    ensures 1 <= Sweep(bits, hand).steps <= |bits| + 1
  {
    if clear :| 0 <= clear < |bits| && !bits[clear] {
      SweepTakesNearestClear(bits, hand, clear);
    } else {
      SweepAllSet(bits, hand);
    }
  }

  /** With the bits set exactly below the hand (or all of them, with the hand at 0), the hand's own
      frame is taken, and the bits stay set exactly below it. */
  lemma SweepQueued(bits: seq<bool>, hand: nat)
    requires hand < |bits| && forall j :: 0 <= j < |bits| ==> bits[j] == (hand == 0 || j < hand)
    ensures Sweep(bits, hand).victim == hand
    ensures forall j :: 0 <= j < |bits| ==> Sweep(bits, hand).bits[j] == (j < hand)
  {
    if hand == 0 {
      SweepAllSet(bits, hand);
    } else {
      SweepTakesNearestClear(bits, hand, hand);
    }
  }
}
