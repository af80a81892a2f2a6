/** A playlist's cursor: the order its entries come in, the place in it, and
    what Previous goes back to and Next comes back to. */
module Cursors {
  import opened Common
  import opened Shuffling

  const HISTORY_LIMIT := 128

  datatype Cursor = Cursor(order: seq<nat>, position: nat, history: seq<nat>, forward: seq<nat>)

  /** One per entry of the playlist: whether it can play. */
  type Playable = seq<bool>

  predicate CanPlay(playable: Playable, index: nat) {
    index < |playable| && playable[index]
  }

  function Current(c: Cursor): Option<nat> {
    if c.position < |c.order| then Some(c.order[c.position]) else None
  }

  function PushBounded(values: seq<nat>, value: nat): seq<nat> {
    (if |values| == HISTORY_LIMIT then values[1..] else values) + [value]
  }

  // ---- Searches ----

  /** The first place of `index` in `order`. */
  function Find(order: seq<nat>, index: nat): (r: Option<nat>)
    ensures r.Some? ==> r.value < |order| && order[r.value] == index && index !in order[..r.value]
    ensures r.None? <==> index !in order
  {
    if order == [] then None
    else if order[0] == index then Some(0)
    else
      var rest := Find(order[1..], index);
      assert index in order <==> index in order[1..];
      if rest.None? then None
      else
        assert order[..rest.value + 1] == [order[0]] + order[1..][..rest.value];
        Some(rest.value + 1)
  }

  /** The first place of `order` at or after `from` whose entry can play. */
  function NextPlayable(order: seq<nat>, from: nat, playable: Playable): (r: Option<nat>)
    ensures r.Some? ==> from <= r.value < |order| && CanPlay(playable, order[r.value])
    ensures forall p :: from <= p < (if r.Some? then r.value else |order|) ==> !CanPlay(playable, order[p])
    decreases |order| - from
  {
    if from >= |order| then None
    else if CanPlay(playable, order[from]) then Some(from)
    else NextPlayable(order, from + 1, playable)
  }

  /** The newest of `stack` that can play and isn't `but`. */
  function Newest(stack: seq<nat>, playable: Playable, but: Option<nat>): (r: Option<nat>)
    ensures r.Some? ==> r.value < |stack| && CanPlay(playable, stack[r.value]) && Some(stack[r.value]) != but
    ensures forall i :: (if r.Some? then r.value + 1 else 0) <= i < |stack| ==>
      !CanPlay(playable, stack[i]) || Some(stack[i]) == but
  {
    if stack == [] then None
    else
      var last := |stack| - 1;
      if CanPlay(playable, stack[last]) && Some(stack[last]) != but then Some(last)
      else Newest(stack[..last], playable, but)
  }

  /** The nearest offset, from `offset` on, at which the order, taken as a ring
      from `position`, has another entry that can play. */
  function NextAround(order: seq<nat>, position: nat, playable: Playable, offset: nat): (r: Option<nat>)
    requires position < |order|
    ensures r.Some? ==> offset <= r.value <= |order| && Another(order, position, playable, r.value)
    ensures forall o :: offset <= o < (if r.Some? then r.value else |order| + 1) ==> !Another(order, position, playable, o)
    decreases |order| + 1 - offset
  {
    if offset > |order| then None
    else if Another(order, position, playable, offset) then Some(offset)
    else NextAround(order, position, playable, offset + 1)
  }

  predicate Another(order: seq<nat>, position: nat, playable: Playable, offset: nat)
    requires position < |order|
  {
    var index := order[(position + offset) % |order|];
    CanPlay(playable, index) && index != order[position]
  }

  /** The entries below `n` that can play, in their own order. */
  function Playables(playable: Playable, n: nat): (r: seq<nat>)
    requires n <= |playable|
    ensures NoRepeats(r) && forall i: nat :: i in r <==> i < n && CanPlay(playable, i)
    ensures forall i, j :: 0 <= i < j < |r| ==> r[i] < r[j]
  {
    if n == 0 then []
    else
      var rest := Playables(playable, n - 1);
      assert n - 1 !in rest && forall i :: 0 <= i < |rest| ==> rest[i] in rest;
      if playable[n - 1] then rest + [n - 1] else rest
  }

  /** The places of `order` from `from` below `to` whose entries can play. */
  function Remaining(order: seq<nat>, from: nat, end: nat, playable: Playable): (r: seq<nat>)
    requires end <= |order|
    ensures forall p: nat :: p in r <==> from <= p < end && CanPlay(playable, order[p])
    decreases end
  {
    if end <= from then []
    else
      var rest := Remaining(order, from, end - 1, playable);
      if CanPlay(playable, order[end - 1]) then rest + [end - 1] else rest
  }

  // ---- What each move does ----

  /** A new deal: every entry that can play, once, in some order. */
  ghost predicate IsDeal(deal: seq<nat>, playable: Playable) {
    NoRepeats(deal) && forall i: nat :: i in deal <==> CanPlay(playable, i)
  }

  /** The deal, not starting with the entry just played. */
  function NotAgain(deal: seq<nat>, current: nat): seq<nat> {
    if |deal| > 1 && deal[0] == current then Swapped(deal, 0, 1) else deal
  }

  function MovedTo(c: Cursor, order: seq<nat>, position: nat, forward: seq<nat>): Cursor
    requires c.position < |c.order|
  {
    Cursor(order, position, PushBounded(c.history, c.order[c.position]), forward)
  }

  function Deal(c: Cursor, deal: seq<nat>): (Cursor, bool)
    requires c.position < |c.order|
  {
    var next := NotAgain(deal, c.order[c.position]);
    if next == [] || next[0] == c.order[c.position] then (c, false) else (MovedTo(c, next, 0, []), true)
  }

  /** Next: the newest entry Previous unwound that can play, else the next of
      the order. */
  function Forward(c: Cursor, playable: Playable, shuffle: bool, deal: seq<nat>): (Cursor, bool) {
    if c.position >= |c.order| then (c, false)
    else
      var current := c.order[c.position];
      var unwound := Newest(c.forward, playable, None);
      if unwound.Some? then
        var index := c.forward[unwound.value];
        var found := Find(c.order, index);
        var position := if found.Some? then found.value else c.position;
        (MovedTo(c, c.order, position, c.forward[..unwound.value]), index != current)
      else
        Onward(c.(forward := []), playable, shuffle, deal)
  }

  function Onward(c: Cursor, playable: Playable, shuffle: bool, deal: seq<nat>): (Cursor, bool)
    requires c.position < |c.order|
  {
    if shuffle then
      var next := NextPlayable(c.order, c.position + 1, playable);
      if next.Some? then (MovedTo(c, c.order, next.value, []), c.order[next.value] != c.order[c.position])
      else Deal(c, deal)
    else
      var next := NextAround(c.order, c.position, playable, 1);
      if next.Some? then (MovedTo(c, c.order, (c.position + next.value) % |c.order|, []), true)
      else (c, false)
  }

  /** Previous: the newest entry of the history that can play and isn't the
      current one. */
  function Backward(c: Cursor, playable: Playable): (Cursor, bool) {
    if c.position >= |c.order| then (c, false)
    else
      var current := c.order[c.position];
      var last := Newest(c.history, playable, Some(current));
      if last.None? then (c.(history := []), false)
      else
        var previous := c.history[last.value];
        var found := Find(c.order, previous);
        var order := if found.Some? then c.order else c.order + [previous];
        var position := if found.Some? then found.value else |c.order|;
        (Cursor(order, position, c.history[..last.value], PushBounded(c.forward, current)), true)
  }

  /** Some other entry that can play: of what is left of a shuffled order, and
      of a new deal once nothing is. */
  function AtRandom(c: Cursor, playable: Playable, shuffle: bool, deal: seq<nat>, draw: nat): (Cursor, bool) {
    if c.position >= |c.order| then (c, false)
    else if shuffle then
      var remaining := Remaining(c.order, c.position + 1, |c.order|, playable);
      if remaining == [] then Deal(c, deal)
      else
        var chosen := remaining[Reduced(draw, |remaining|)];
        assert chosen in remaining;
        (MovedTo(c, Swapped(c.order, c.position + 1, chosen), c.position + 1, []), true)
    else
      var candidates := Without(Playables(playable, |playable|), c.order[c.position]);
      if candidates == [] then (c, false)
      else
        var found := Find(c.order, candidates[Reduced(draw, |candidates|)]);
        (MovedTo(c, c.order, if found.Some? then found.value else c.position, []), true)
  }

  /** Back to the first entry of the order that can play, with no history. */
  function Reset(c: Cursor, playable: Playable): (Cursor, bool) {
    var first := NextPlayable(c.order, 0, playable);
    if first.None? then (c, false) else (Cursor(c.order, first.value, [], []), true)
  }

  function Identity(n: nat): (r: seq<nat>)
    ensures |r| == n && forall i :: 0 <= i < n ==> r[i] == i
  {
    seq(n, i => i)
  }

  lemma IdentityHasAll(n: nat)
    ensures NoRepeats(Identity(n)) && forall i: nat :: i in Identity(n) <==> i < n
  {
    forall i: nat | i < n
      ensures i in Identity(n)
    {
      assert Identity(n)[i] == i;
    }
  }

  /** A new cursor of `entries` entries resting on `current`; shuffled, the
      others follow it as dealt in `rest`. */
  function Built(entries: nat, current: nat, shuffle: bool, rest: seq<nat>): Cursor {
    if shuffle && entries > 0 then Cursor([current] + rest, 0, [], []) else Cursor(Identity(entries), current, [], [])
  }

  ghost predicate IsRest(rest: seq<nat>, entries: nat, current: nat) {
    NoRepeats(rest) && forall i: nat :: i in rest <==> i < entries && i != current
  }

  // ---- The cursor ----

  method Dealing(from: seq<nat>, rng: XorShift64) returns (deal: seq<nat>)
    requires NoRepeats(from)
    modifies rng
    ensures NoRepeats(deal) && forall i :: i in deal <==> i in from
  {
    hide Shuffled;
    var values := new nat[|from|](i requires 0 <= i < |from| => from[i]);
    assert values[..] == from;
    ghost var draws := rng.Shuffle(values);
    deal := values[..];
    ShuffledIsAPermutation(from, draws);
  }

  class PlaylistCursor {
    var order: seq<nat>
    var position: nat
    var history: seq<nat>
    var forward: seq<nat>

    function Value(): Cursor
      reads this
    {
      Cursor(order, position, history, forward)
    }

    constructor (entries: nat, current: nat, shuffle: bool, rng: XorShift64)
      requires current < entries || current == entries == 0
      modifies rng
      ensures exists rest :: IsRest(rest, entries, current) && Value() == Built(entries, current, shuffle, rest)
    {
      var rest := Without(Identity(entries), current);
      new;
      history, forward := [], [];
      IdentityHasAll(entries);
      WithoutKeepsOnce(Identity(entries), current);
      if shuffle && entries > 0 {
        rest := Dealing(rest, rng);
        order, position := [current] + rest, 0;
      } else {
        order, position := Identity(entries), current;
      }
      assert IsRest(rest, entries, current);
      assert Value() == Built(entries, current, shuffle, rest);
    }

    method DealAnew(playable: Playable, rng: XorShift64) returns (moved: bool, ghost deal: seq<nat>)
      requires position < |order|
      modifies this, rng
      ensures IsDeal(deal, playable)
      ensures (Value(), moved) == Deal(old(Value()), deal)
    {
      var current := order[position];
      var next := Dealing(Playables(playable, |playable|), rng);
      deal := next;
      if |next| > 1 && next[0] == current {
        next := next[0 := next[1]][1 := next[0]];
      }
      assert next == NotAgain(deal, current);
      if next == [] || next[0] == current {
        return false, deal;
      }
      history := PushBounded(history, current);
      order, position, forward := next, 0, [];
      moved := true;
    }

    /** Pop what Previous unwound, down to and with one that can play. */
    method Unwound(playable: Playable) returns (index: Option<nat>)
      modifies this`forward
      ensures var newest := Newest(old(forward), playable, None);
        if newest.Some? then index == Some(old(forward)[newest.value]) && forward == old(forward)[..newest.value]
        else index == None && forward == []
    {
      while forward != []
        invariant |forward| <= |old(forward)| && forward == old(forward)[..|forward|]
        invariant forall i :: |forward| <= i < |old(forward)| ==> !CanPlay(playable, old(forward)[i])
        decreases |forward|
      {
        var last := forward[|forward| - 1];
        forward := forward[..|forward| - 1];
        if CanPlay(playable, last) {
          return Some(last);
        }
      }
      index := None;
    }

    method MoveForward(playable: Playable, shuffle: bool, rng: XorShift64) returns (moved: bool, ghost deal: seq<nat>)
      modifies this, rng
      ensures IsDeal(deal, playable)
      ensures (Value(), moved) == Forward(old(Value()), playable, shuffle, deal)
    {
      hide Onward;
      deal := Playables(playable, |playable|);
      if position >= |order| {
        return false, deal;
      }
      var current := order[position];
      var index := Unwound(playable);
      if index.Some? {
        history := PushBounded(history, current);
        var found := Find(order, index.value);
        if found.Some? {
          position := found.value;
        }
        return index.value != current, deal;
      }
      assert Value() == old(Value()).(forward := []);
      moved, deal := MoveOnward(playable, shuffle, rng);
    }

    /** Next, with nothing unwound to come back to. */
    method MoveOnward(playable: Playable, shuffle: bool, rng: XorShift64) returns (moved: bool, ghost deal: seq<nat>)
      requires position < |order|
      modifies this, rng
      ensures IsDeal(deal, playable)
      ensures (Value(), moved) == Onward(old(Value()), playable, shuffle, deal)
    {
      hide Swapped, Deal, NotAgain, Another, PushBounded;
      deal := Playables(playable, |playable|);
      var current := order[position];
      if shuffle {
        var next := position + 1;
        while next < |order| && !CanPlay(playable, order[next])
          invariant position < next <= |order|
          invariant forall p :: position < p < next ==> !CanPlay(playable, order[p])
        {
          next := next + 1;
        }
        if next < |order| {
          assert NextPlayable(order, position + 1, playable) == Some(next);
          history := PushBounded(history, current);
          position, forward := next, [];
          return order[position] != current, deal;
        }
        assert NextPlayable(order, position + 1, playable) == None;
        moved, deal := DealAnew(playable, rng);
      } else {
        for offset := 1 to |order| + 1
          invariant Value() == old(Value())
          invariant forall o :: 1 <= o < offset ==> !Another(order, position, playable, o)
        {
          var place := (position + offset) % |order|;
          AnotherAt(order, position, playable, offset);
          if CanPlay(playable, order[place]) && order[place] != current {
            assert NextAround(order, position, playable, 1) == Some(offset);
            history := PushBounded(history, current);
            position, forward := place, [];
            return true, deal;
          }
        }
        assert NextAround(order, position, playable, 1) == None;
        moved := false;
      }
    }

    /** Pop the history, down to and with another entry that can play. */
    method Left(playable: Playable, current: nat) returns (previous: Option<nat>)
      modifies this`history
      ensures var newest := Newest(old(history), playable, Some(current));
        if newest.Some? then previous == Some(old(history)[newest.value]) && history == old(history)[..newest.value]
        else previous == None && history == []
    {
      while history != []
        invariant |history| <= |old(history)| && history == old(history)[..|history|]
        invariant forall i :: |history| <= i < |old(history)| ==>
          !CanPlay(playable, old(history)[i]) || old(history)[i] == current
        decreases |history|
      {
        var last := history[|history| - 1];
        history := history[..|history| - 1];
        if !CanPlay(playable, last) || last == current {
          continue;
        }
        return Some(last);
      }
      previous := None;
    }

    method MoveBackward(playable: Playable) returns (moved: bool)
      modifies this
      ensures (Value(), moved) == Backward(old(Value()), playable)
    {
      if position >= |order| {
        return false;
      }
      var current := order[position];
      var previous := Left(playable, current);
      if previous.None? {
        return false;
      }
      forward := PushBounded(forward, current);
      var found := Find(order, previous.value);
      if found.Some? {
        position := found.value;
      } else {
        order := order + [previous.value];
        position := |order| - 1;
      }
      moved := true;
    }

    method MoveRandom(playable: Playable, shuffle: bool, rng: XorShift64)
      returns (moved: bool, ghost deal: seq<nat>, ghost draw: nat)
      modifies this, rng
      ensures IsDeal(deal, playable)
      ensures (Value(), moved) == AtRandom(old(Value()), playable, shuffle, deal, draw)
    {
      hide Deal, NotAgain;
      deal, draw := Playables(playable, |playable|), 0;
      if position >= |order| {
        return false, deal, draw;
      }
      var current := order[position];
      if shuffle {
        var remaining := Remaining(order, position + 1, |order|, playable);
        if remaining == [] {
          moved, deal := DealAnew(playable, rng);
          return moved, deal, draw;
        }
        var pick;
        pick, draw := rng.Index(|remaining|);
        var chosen := remaining[pick];
        assert chosen in remaining;
        var next := position + 1;
        order := order[next := order[chosen]][chosen := order[next]];
        history, forward := PushBounded(history, current), [];
        position := next;
      } else {
        var candidates := Without(Playables(playable, |playable|), current);
        if candidates == [] {
          return false, deal, draw;
        }
        var pick;
        pick, draw := rng.Index(|candidates|);
        history, forward := PushBounded(history, current), [];
        var found := Find(order, candidates[pick]);
        position := if found.Some? then found.value else position;
      }
      moved := true;
    }

    method ResetAutomatic(playable: Playable) returns (moved: bool)
      modifies this
      ensures (Value(), moved) == Reset(old(Value()), playable)
    {
      var first := NextPlayable(order, 0, playable);
      if first.None? {
        return false;
      }
      position, history, forward := first.value, [], [];
      moved := true;
    }
  }

  lemma AnotherAt(order: seq<nat>, position: nat, playable: Playable, offset: nat)
    requires position < |order|
    ensures var index := order[(position + offset) % |order|];
            Another(order, position, playable, offset) <==> CanPlay(playable, index) && index != order[position]
  {
  }
}
