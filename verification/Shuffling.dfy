/** The service's source of chance, and what shuffling with it does. */
module Shuffling {
  import opened Common

  /** A 64-bit xorshift register. */
  class XorShift64 {
    var state: bv64

    constructor (seed: bv64)
      ensures state == if seed == 0 then 0x5eed else seed
    {
      state := if seed == 0 then 0x5eed else seed;
    }

    method Next() returns (x: bv64)
      modifies this
      ensures x == state == Step(old(state))
    {
      hide Step;
      x := Step(state);
      state := x;
    }

    /** Some index below `len`: `draw`, reduced. */
    method Index(len: nat) returns (index: nat, ghost draw: nat)
      requires len > 0
      modifies this
      ensures index == Reduced(draw, len)
    {
      hide Step;
      var x := Next();
      var number := Number(x);
      draw := number;
      index := Reduced(number, len);
    }

    /** Shuffle in place, from the last place down. */
    method Shuffle(values: array<nat>) returns (ghost draws: seq<nat>)
      modifies this, values
      ensures Enough(old(values[..]), draws)
      ensures values[..] == Shuffled(old(values[..]), draws)
    {
      hide Shuffled;
      draws := [];
      NothingShuffled(values[..]);
      var index := values.Length;
      while index > 1
        invariant 0 <= index <= values.Length && (values.Length > 0 ==> index > 0)
        invariant |draws| == values.Length - index
        invariant values[..] == Shuffled(old(values[..]), draws)
      {
        index := index - 1;
        var chosen;
        ghost var draw;
        chosen, draw := Index(index + 1);
        ghost var was, drawn := values[..], draws;
        values[index], values[chosen] := values[chosen], values[index];
        draws := drawn + [draw];
        ShuffledStep(old(values[..]), draws);
        assert draws[..|drawn|] == drawn;
        assert values[..] == Swapped(was, index, chosen);
      }
    }
  }

  /** A draw, reduced to an index below `len`. */
  function Reduced(draw: nat, len: nat): (index: nat)
    requires len > 0
    ensures index < len
    ensures draw < len ==> index == draw
  {
    draw % len
  }

  function Number(x: bv64): nat {
    x as nat
  }

  function Step(state: bv64): bv64 {
    ShiftedAgain(ShiftedBack(Shifted(state)))
  }

  function Shifted(x: bv64): bv64 {
    x ^ (x << 13)
  }

  function ShiftedBack(x: bv64): bv64 {
    x ^ (x >> 7)
  }

  function ShiftedAgain(x: bv64): bv64 {
    x ^ (x << 17)
  }

  lemma ShiftedKeepsSome(x: bv64)
    requires x != 0
    ensures Shifted(x) != 0
  {
  }

  lemma ShiftedBackKeepsSome(x: bv64)
    requires x != 0
    ensures ShiftedBack(x) != 0
  {
  }

  lemma ShiftedAgainKeepsSome(x: bv64)
    requires x != 0
    ensures ShiftedAgain(x) != 0
  {
  }

  /** The register never runs dry: only zero leads to zero. */
  lemma NeverRunsDry(state: bv64)
    requires state != 0
    ensures Step(state) != 0
  {
    hide Shifted, ShiftedBack, ShiftedAgain;
    ShiftedKeepsSome(state);
    ShiftedBackKeepsSome(Shifted(state));
    ShiftedAgainKeepsSome(ShiftedBack(Shifted(state)));
  }

  function Swapped(s: seq<nat>, i: nat, j: nat): (r: seq<nat>)
    requires i < |s| && j < |s|
    ensures |r| == |s|
  {
    s[i := s[j]][j := s[i]]
  }

  /** Draws for every place but the first. */
  predicate Enough(s: seq<nat>, draws: seq<nat>) {
    |draws| == if s == [] then 0 else |s| - 1
  }

  /** Each place, the last first, swapped with one not after it. */
  function Shuffled(s: seq<nat>, draws: seq<nat>): (r: seq<nat>)
    requires |draws| <= |s|
    ensures |r| == |s|
  {
    if draws == [] then s
    else
      var k := |draws| - 1;
      var last := |s| - 1 - k;
      Swapped(Shuffled(s, draws[..k]), last, Reduced(draws[k], last + 1))
  }

  lemma SwappedKeeps(s: seq<nat>, i: nat, j: nat)
    requires i < |s| && j < |s|
    ensures multiset(Swapped(s, i, j)) == multiset(s)
  {
  }

  lemma {:induction false} ShufflingKeeps(s: seq<nat>, draws: seq<nat>)
    requires |draws| <= |s|
    ensures multiset(Shuffled(s, draws)) == multiset(s)
  {
    hide Swapped;
    if draws != [] {
      var k := |draws| - 1;
      var last := |s| - 1 - k;
      ShufflingKeeps(s, draws[..k]);
      SwappedKeeps(Shuffled(s, draws[..k]), last, Reduced(draws[k], last + 1));
    }
  }

  lemma NothingShuffled(s: seq<nat>)
    ensures Shuffled(s, []) == s
  {
  }

  lemma ShuffledStep(s: seq<nat>, draws: seq<nat>)
    requires 0 < |draws| <= |s|
    ensures var k := |draws| - 1;
            var last := |s| - 1 - k;
            Shuffled(s, draws) == Swapped(Shuffled(s, draws[..k]), last, Reduced(draws[k], last + 1))
  {
    hide Swapped, Reduced;
  }

  lemma {:induction false} CountedOnce(s: seq<nat>)
    ensures NoRepeats(s) <==> forall x :: multiset(s)[x] <= 1
  {
    if s != [] {
      CountedOnce(s[1..]);
      assert s == [s[0]] + s[1..];
      assert forall x :: multiset(s)[x] == multiset(s[1..])[x] + if x == s[0] then 1 else 0;
      assert s[0] in s[1..] <==> multiset(s[1..])[s[0]] > 0;
      assert NoRepeats(s) <==> s[0] !in s[1..] && NoRepeats(s[1..]) by {
        assert NoRepeats(s) ==> s[0] !in s[1..];
        assert forall i :: 0 <= i < |s| - 1 ==> s[1..][i] == s[i + 1];
        assert forall j :: 0 < j < |s| ==> s[j] == s[1..][j - 1];
      }
    }
  }

  /** A shuffle has what it was dealt from, each as often. */
  lemma ShuffledIsAPermutation(s: seq<nat>, draws: seq<nat>)
    requires |draws| <= |s|
    ensures |Shuffled(s, draws)| == |s|
    ensures forall x :: x in Shuffled(s, draws) <==> x in s
    ensures NoRepeats(s) ==> NoRepeats(Shuffled(s, draws))
  {
    hide Shuffled;
    ShufflingKeeps(s, draws);
    CountedOnce(s);
    CountedOnce(Shuffled(s, draws));
    forall x
      ensures x in Shuffled(s, draws) <==> x in s
    {
      assert x in multiset(Shuffled(s, draws)) <==> x in multiset(s);
    }
  }

  /** Every order can be dealt: some draws make the last `k` places of `s`
      those of any permutation of it, so `|s| - 1` draws make all of them. */
  lemma {:induction false} EveryOrderCanBeDealt(s: seq<nat>, target: seq<nat>, k: nat) returns (draws: seq<nat>)
    requires multiset(s) == multiset(target) && |s| == |target| && k <= |s|
    ensures |draws| == k
    ensures Shuffled(s, draws)[|s| - k..] == target[|s| - k..]
    ensures k + 1 >= |s| ==> Shuffled(s, draws) == target
    decreases k
  {
    hide Swapped;
    draws := [];
    if k > 0 {
      var before := EveryOrderCanBeDealt(s, target, k - 1);
      ShufflingKeeps(s, before);
      var chosen := DealtNext(Shuffled(s, before), target, |s| - k);
      draws := before + [chosen];
      assert draws[..k - 1] == before;
    }
    if k + 1 >= |s| && |s| > 0 {
      ShufflingKeeps(s, draws);
      AllButTheFirst(Shuffled(s, draws), target, |s| - k);
    }
  }

  lemma DealtNext(was: seq<nat>, target: seq<nat>, last: nat) returns (chosen: nat)
    requires multiset(was) == multiset(target) && last < |was| == |target|
    requires was[last + 1..] == target[last + 1..]
    ensures chosen <= last && Swapped(was, last, chosen)[last..] == target[last..]
  {
    SamePrefix(was, target, last + 1);
    chosen := Found(was[..last + 1], target[..last + 1], last);
    var now := was[last := was[chosen]][chosen := was[last]];
    assert now[last] == target[last];
    assert now[last + 1..] == was[last + 1..];
    assert now[last..] == [target[last]] + now[last + 1..];
    assert target[last..] == [target[last]] + target[last + 1..];
  }

  lemma Found(s: seq<nat>, target: seq<nat>, at: nat) returns (chosen: nat)
    requires multiset(s) == multiset(target) && at < |target|
    ensures chosen < |s| && s[chosen] == target[at]
  {
    assert target[at] in multiset(target);
    assert target[at] in s;
    chosen :| 0 <= chosen < |s| && s[chosen] == target[at];
  }

  lemma AllButTheFirst(s: seq<nat>, target: seq<nat>, n: nat)
    requires multiset(s) == multiset(target) && |s| == |target| && n <= |s| && n <= 1
    requires s[n..] == target[n..]
    ensures s == target
  {
    SamePrefix(s, target, n);
    assert s == s[..n] + s[n..] && target == target[..n] + target[n..];
    if n == 1 {
      assert s[..1] == [s[0]] && target[..1] == [target[0]];
      assert s[0] in multiset(target[..1]);
    }
  }

  lemma SamePrefix(s: seq<nat>, target: seq<nat>, n: nat)
    requires multiset(s) == multiset(target) && n <= |s| && n <= |target|
    requires s[n..] == target[n..]
    ensures multiset(s[..n]) == multiset(target[..n])
  {
    var a, b := s[..n], target[..n];
    assert s == a + s[n..] && target == b + s[n..];
    assert multiset(s) == multiset(a) + multiset(s[n..]);
    assert multiset(target) == multiset(b) + multiset(s[n..]);
    assert multiset(a) == multiset(s) - multiset(s[n..]);
    assert multiset(b) == multiset(target) - multiset(s[n..]);
  }
}
