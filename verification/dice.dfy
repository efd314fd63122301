/**
 * The die-degradation table of the EXIM actor sheet (`_degradeDie`).
 *
 * A die is the string stored on an aspect ("d20", "d8", ...). The table is
 * walked one step towards the small end; the last entry "d4" becomes the
 * exhaustion marker "d0", and any string that is not in the table, the
 * marker included, is left as it is.
 */
module Dice {

  /** The fixed order of the table, largest die first. */
  const Order: seq<string> := ["d20", "d12", "d10", "d8", "d6", "d4"]

  /** What the last die of the table degrades to. */
  const Exhausted: string := "d0"

  /** JavaScript's `Array.prototype.indexOf`: the first position of `x` in `s`, or -1. */
  function IndexOf(s: seq<string>, x: string): (r: int)
    ensures -1 <= r < |s|
    ensures r == -1 <==> x !in s
    ensures 0 <= r ==> s[r] == x && x !in s[..r]
  {
    if |s| == 0 then -1
    else if s[0] == x then 0
    else
      var k := IndexOf(s[1..], x);
      if k < 0 then -1
      else
        assert s[..k + 1] == [s[0]] + s[1..][..k];
        k + 1
  }

  /** No die appears twice in the table, and the marker is not in it. */
  lemma OrderWellFormed()
    ensures forall i, j :: 0 <= i < j < |Order| ==> Order[i] != Order[j]
    ensures Exhausted !in Order
  {
    assert Order[0][1] == '2' && Order[1][1] == '1' && Order[2][1] == '1';
    assert Order[1][2] == '2' && Order[2][2] == '0';
  }

  /** The position of a table die is its place in the order. */
  lemma IndexOfOrder(i: int)
    requires 0 <= i < |Order|
    ensures IndexOf(Order, Order[i]) == i
  {
    OrderWellFormed();
  }

  /** One degradation step of a die. */
  function Degrade(die: string): (r: string)
    ensures die !in Order ==> r == die
    ensures die == Order[|Order| - 1] ==> r == Exhausted
    ensures forall i :: 0 <= i < |Order| - 1 && die == Order[i] ==> r == Order[i + 1]
  {
    OrderWellFormed();
    var idx := IndexOf(Order, die);
    if idx < 0 then die
    else if idx == |Order| - 1 then Exhausted
    else Order[idx + 1]
  }

  /** The table row by row. */
  lemma DegradeTable()
    ensures Degrade("d20") == "d12"
    ensures Degrade("d12") == "d10"
    ensures Degrade("d10") == "d8"
    ensures Degrade("d8") == "d6"
    ensures Degrade("d6") == "d4"
    ensures Degrade("d4") == "d0"
  {
    OrderWellFormed();
    assert Order[0] == "d20" && Order[1] == "d12" && Order[2] == "d10";
    assert Order[3] == "d8" && Order[4] == "d6" && Order[5] == "d4";
  }

  /** The marker and the "no die" dash are fixed points, like every string off the table. */
  lemma DegradeFixedPoints()
    ensures Degrade(Exhausted) == Exhausted
    ensures Degrade("-") == "-"
    ensures Degrade("") == ""
  {
    OrderWellFormed();
  }

  /**
   * How many degradation steps a die has left before it reaches the marker:
   * 6 for a d20 down to 1 for a d4, and 0 for anything off the table.
   */
  function StepsLeft(die: string): (n: nat)
    ensures n <= |Order|
    ensures n > 0 <==> die in Order
    ensures forall i :: 0 <= i < |Order| && die == Order[i] ==> n == |Order| - i
  {
    OrderWellFormed();
    var idx := IndexOf(Order, die);
    if idx < 0 then 0 else |Order| - idx
  }

  /** A table die loses exactly one step and stays on the table or becomes the marker. */
  lemma DegradeLowersSteps(die: string)
    requires die in Order
    ensures StepsLeft(Degrade(die)) == StepsLeft(die) - 1
    ensures Degrade(die) in Order || Degrade(die) == Exhausted
  {
    OrderWellFormed();
    var i := IndexOf(Order, die);
    IndexOfOrder(i);
    if i < |Order| - 1 {
      IndexOfOrder(i + 1);
    }
  }

  /** `n` successive applications of `step`. */
  function Iterate(step: string -> string, x: string, n: nat): string
    decreases n
  {
    if n == 0 then x else Iterate(step, step(x), n - 1)
  }

  /** `n` successive degradations. */
  function DegradeTimes(die: string, n: nat): string
  {
    Iterate(Degrade, die, n)
  }

  /** A fixed point of a step stays put however often the step is applied. */
  lemma {:induction false} IterateFixed(step: string -> string, x: string, n: nat)
    requires step(x) == x
    ensures Iterate(step, x, n) == x
    decreases n
  {
    if n > 0 {
      IterateFixed(step, x, n - 1);
    }
  }

  /** Once off the table (the marker included), degradation never moves a die again. */
  lemma OffTableStays(die: string, n: nat)
    requires die !in Order
    ensures DegradeTimes(die, n) == die
  {
    IterateFixed(Degrade, die, n);
  }

  /** The chain of values a die walks through: the table, then the marker. */
  function Chain(i: nat): (d: string)
  {
    if i < |Order| then Order[i] else Exhausted
  }

  /** Where a walk along a chain of `last + 1` places stands after `n` steps from place `i`. */
  function Advance(i: nat, n: nat, last: nat): nat
  {
    if i + n < last then i + n else last
  }

  /**
   * A step that moves one place down a chain and keeps its last place, applied
   * `n` times from place `i <= last`, lands `n` places further on, stopping at the last.
   */
  lemma {:induction false} IterateAlongChain(step: string -> string, chain: nat -> string, last: nat, i: nat, n: nat)
    requires i <= last
    requires forall k :: 0 <= k < last ==> step(chain(k)) == chain(k + 1)
    requires step(chain(last)) == chain(last)
    ensures Iterate(step, chain(i), n) == chain(Advance(i, n, last))
    decreases n
  {
    if n > 0 {
      var j := if i < last then i + 1 else i;
      assert step(chain(i)) == chain(j);
      IterateAlongChain(step, chain, last, j, n - 1);
      assert Advance(j, n - 1, last) == Advance(i, n, last);
    }
  }

  /** One degradation moves one place down the chain, and the marker stays put. */
  lemma DegradeChain(i: nat)
    requires i <= |Order|
    ensures Degrade(Chain(i)) == Chain(if i < |Order| then i + 1 else i)
  {
    if i == |Order| {
      OrderWellFormed();
    }
  }

  /** `n` degradations move `n` places down the chain, stopping at the marker. */
  lemma DegradeTimesChain(i: nat, n: nat)
    requires i <= |Order|
    ensures DegradeTimes(Chain(i), n) == Chain(Advance(i, n, |Order|))
  {
    forall k | 0 <= k <= |Order|
      ensures Degrade(Chain(k)) == Chain(if k < |Order| then k + 1 else k)
    {
      DegradeChain(k);
    }
    IterateAlongChain(Degrade, Chain, |Order|, i, n);
  }

  /**
   * From a table die or the marker, `n` degradations reach the marker exactly
   * when `n` is at least the number of steps the die has left.
   */
  lemma ReachesExhaustion(die: string, n: nat)
    requires die in Order || die == Exhausted
    ensures DegradeTimes(die, n) == Exhausted <==> n >= StepsLeft(die)
  {
    OrderWellFormed();
    var i := if die in Order then IndexOf(Order, die) else |Order|;
    assert die == Chain(i);
    assert StepsLeft(die) == |Order| - i;
    DegradeTimesChain(i, n);
  }

  /**
   * Every table die is exhausted after at most six degradations, and stays
   * exhausted under every further one; a d20 needs all six.
   */
  lemma ExhaustedWithinSix(die: string, n: nat)
    requires die in Order
    requires n >= |Order|
    ensures DegradeTimes(die, n) == Exhausted
    ensures DegradeTimes("d20", |Order| - 1) != Exhausted
  {
    ReachesExhaustion(die, n);
    assert Order[0] == "d20";
    ReachesExhaustion("d20", |Order| - 1);
  }
}
