/** The order in which left-out pieces are tried: the summary's own first, then
    the rows' ids and errors together, the shortest first. Each group of a kind
    keeps its own order in it, so counting what came back of a group says which
    of its pieces those are. */
module Pieces {
  import opened Common
  import opened GiveBack

  /** A row's piece: its bytes, its rows' group, its kind, and its place among
      the pieces of both. */
  datatype Slot = Slot(cost: nat, group: nat, kind: nat, place: nat)

  predicate Before(a: Slot, b: Slot) {
    || a.cost < b.cost
    || (a.cost == b.cost && a.group < b.group)
    || (a.cost == b.cost && a.group == b.group && a.kind < b.kind)
    || (a.cost == b.cost && a.group == b.group && a.kind == b.kind && a.place < b.place)
  }

  predicate Sorted(slots: seq<Slot>) {
    forall i, j :: 0 <= i < j < |slots| ==> Before(slots[i], slots[j])
  }

  function Insert(slots: seq<Slot>, s: Slot): (r: seq<Slot>)
    requires Sorted(slots) && s !in slots
    ensures Sorted(r)
    ensures forall t :: t in r <==> t == s || t in slots
  {
    if slots == [] || Before(s, slots[0]) then
      [s] + slots
    else
      Members(slots);
      var rest := Insert(slots[1..], s);
      InFront(slots[0], s, slots[1..], rest);
      [slots[0]] + rest
  }

  lemma Members(slots: seq<Slot>)
    requires slots != [] && Sorted(slots)
    ensures slots[0] in slots && Sorted(slots[1..])
    ensures forall t :: t in slots <==> t == slots[0] || t in slots[1..]
    ensures forall t :: t in slots[1..] ==> Before(slots[0], t)
  {
  }

  lemma InFront(head: Slot, s: Slot, tail: seq<Slot>, rest: seq<Slot>)
    requires Sorted(rest) && Before(head, s)
    requires forall t :: t in rest ==> t == s || t in tail
    requires forall t :: t in tail ==> Before(head, t)
    ensures Sorted([head] + rest)
  {
    forall i | 0 <= i < |rest|
      ensures Before(head, rest[i])
    {
      assert rest[i] in rest;
    }
  }

  /** `t` is a slot of the `n` first costs of one group and kind. */
  predicate SlotOf(t: Slot, costs: seq<nat>, group: nat, kind: nat, n: nat)
    requires n <= |costs|
  {
    t.group == group && t.kind == kind && t.place < n && t.cost == costs[t.place]
  }

  method AddSlots(slots: seq<Slot>, costs: seq<nat>, group: nat, kind: nat) returns (r: seq<Slot>)
    requires Sorted(slots) && forall t :: t in slots ==> !(t.group == group && t.kind == kind)
    ensures Sorted(r)
    ensures forall t :: t in r <==> t in slots || SlotOf(t, costs, group, kind, |costs|)
  {
    r := slots;
    for n := 0 to |costs|
      invariant Sorted(r)
      invariant forall t :: t in r <==> t in slots || SlotOf(t, costs, group, kind, n)
    {
      r := Insert(r, Slot(costs[n], group, kind, n));
    }
  }

  /** The slots of all four lists of costs, and nothing else. */
  ghost predicate AllSlots(order: seq<Slot>, rules: seq<seq<nat>>, errors: seq<seq<nat>>)
    requires |rules| == |errors| == 2
  {
    forall t :: t in order <==>
      exists group, kind :: 0 <= group < 2 && 0 <= kind < 2
        && SlotOf(t, CostsOf(rules, errors, group, kind), group, kind, |CostsOf(rules, errors, group, kind)|)
  }

  /** All row pieces, in the order they are given back. */
  method Ordered(rules: seq<seq<nat>>, errors: seq<seq<nat>>) returns (order: seq<Slot>)
    requires |rules| == |errors| == 2
    ensures Sorted(order) && AllSlots(order, rules, errors)
  {
    order := AddSlots([], rules[0], 0, 0);
    order := AddSlots(order, errors[0], 0, 1);
    order := AddSlots(order, rules[1], 1, 0);
    order := AddSlots(order, errors[1], 1, 1);
    forall t
      ensures t in order <==>
        exists group, kind :: 0 <= group < 2 && 0 <= kind < 2
          && SlotOf(t, CostsOf(rules, errors, group, kind), group, kind, |CostsOf(rules, errors, group, kind)|)
    {
      assert t in order <==>
        SlotOf(t, CostsOf(rules, errors, 0, 0), 0, 0, |rules[0]|) || SlotOf(t, CostsOf(rules, errors, 0, 1), 0, 1, |errors[0]|)
        || SlotOf(t, CostsOf(rules, errors, 1, 0), 1, 0, |rules[1]|) || SlotOf(t, CostsOf(rules, errors, 1, 1), 1, 1, |errors[1]|);
    }
  }

  function CostsOf(rules: seq<seq<nat>>, errors: seq<seq<nat>>, group: nat, kind: nat): seq<nat>
    requires |rules| == |errors| == 2 && group < 2
  {
    if kind == 0 then rules[group] else errors[group]
  }

  // ---- One group's slots keep their own order ----

  function Filter(slots: seq<Slot>, group: nat, kind: nat): (r: seq<Slot>)
    ensures forall t :: t in r <==> t in slots && t.group == group && t.kind == kind
  {
    if slots == [] then []
    else
      var rest := Filter(slots[1..], group, kind);
      if slots[0].group == group && slots[0].kind == kind then [slots[0]] + rest else rest
  }

  lemma {:induction false} FilterSorted(slots: seq<Slot>, group: nat, kind: nat)
    requires Sorted(slots)
    ensures Sorted(Filter(slots, group, kind))
  {
    if slots != [] {
      FilterSorted(slots[1..], group, kind);
      var rest := Filter(slots[1..], group, kind);
      assert forall i :: 0 <= i < |rest| ==> rest[i] in rest && rest[i] in slots[1..];
    }
  }

  lemma HeadAmong(a: seq<Slot>, b: seq<Slot>)
    requires forall t :: t in a ==> t in b
    ensures a != [] ==> a[0] in b
  {
  }

  /** A sorted list without repeats is determined by what is in it. */
  lemma {:induction false} SortedIsUnique(a: seq<Slot>, b: seq<Slot>)
    requires Sorted(a) && Sorted(b) && forall t :: t in a <==> t in b
    ensures a == b
    decreases |a|
  {
    HeadAmong(a, b);
    HeadAmong(b, a);
    if a != [] && b != [] {
      assert a[0] in a && a[0] in b;
      assert b[0] in b && b[0] in a;
      assert a[0] == b[0];
      forall t
        ensures t in a[1..] <==> t in b[1..]
      {
        assert t in a <==> t == a[0] || t in a[1..];
        assert t in b <==> t == b[0] || t in b[1..];
        assert a[0] !in a[1..] && b[0] !in b[1..];
      }
      SortedIsUnique(a[1..], b[1..]);
    }
  }

  ghost predicate Ascending(costs: seq<nat>) {
    forall i, j :: 0 <= i < j < |costs| ==> costs[i] <= costs[j]
  }

  lemma GroupKeepsItsOrder(order: seq<Slot>, costs: seq<nat>, group: nat, kind: nat)
    requires Sorted(order) && Ascending(costs)
    requires forall t :: t in order && t.group == group && t.kind == kind <==> SlotOf(t, costs, group, kind, |costs|)
    ensures Filter(order, group, kind) == seq(|costs|, i requires 0 <= i < |costs| => Slot(costs[i], group, kind, i))
  {
    FilterSorted(order, group, kind);
    var own := seq(|costs|, i requires 0 <= i < |costs| => Slot(costs[i], group, kind, i));
    forall t
      ensures t in own <==> SlotOf(t, costs, group, kind, |costs|)
    {
      if SlotOf(t, costs, group, kind, |costs|) {
        assert own[t.place] == t;
      }
    }
    SortedIsUnique(Filter(order, group, kind), own);
  }

  // ---- The list the loop is run on ----

  /** The summary's two (`last_error`, then `output_discovery_error`), each
      when there is one, then the rows'. */
  function Given(lastError: Option<nat>, discovery: Option<nat>, order: seq<Slot>): seq<Piece> {
    (if lastError.Some? then [Piece(lastError.value, 1, Summary(1))] else [])
    + ((if discovery.Some? then [Piece(discovery.value, 1, Summary(0))] else [])
    + RowPieces(order))
  }

  function RowPieces(order: seq<Slot>): (r: seq<Piece>)
    ensures |r| == |order|
    ensures forall i :: 0 <= i < |r| ==> r[i] == Piece(order[i].cost, order[i].kind, Row(order[i].group))
  {
    seq(|order|, i requires 0 <= i < |order| => Piece(order[i].cost, order[i].kind, Row(order[i].group)))
  }

  /** The costs of one kind's pieces at one place, in the order given back. */
  function GroupCosts(given: seq<Piece>, kind: nat, place: Place): seq<nat> {
    if given == [] then []
    else (if given[0].kind == kind && given[0].place == place then [given[0].cost] else []) + GroupCosts(given[1..], kind, place)
  }

  function CountBack(given: seq<Piece>, back: seq<bool>, kind: nat, place: Place): nat
    requires |given| == |back|
  {
    if given == [] then 0
    else
      (if back[0] && given[0].kind == kind && given[0].place == place then 1 else 0)
      + CountBack(given[1..], back[1..], kind, place)
  }

  function GroupOut(given: seq<Piece>, back: seq<bool>, kind: nat, place: Place): nat
    requires |given| == |back|
  {
    if given == [] then 0
    else
      (if !back[0] && given[0].kind == kind && given[0].place == place then given[0].cost else 0)
      + GroupOut(given[1..], back[1..], kind, place)
  }

  function Sum(costs: seq<nat>): nat {
    if costs == [] then 0 else costs[0] + Sum(costs[1..])
  }

  lemma {:induction false} NoneBack(given: seq<Piece>, back: seq<bool>, kind: nat, place: Place)
    requires |given| == |back|
    requires forall i :: 0 <= i < |given| && given[i].kind == kind && given[i].place == place ==> !back[i]
    ensures CountBack(given, back, kind, place) == 0
    ensures GroupOut(given, back, kind, place) == Sum(GroupCosts(given, kind, place))
    decreases |given|
  {
    if given != [] {
      NoneBack(given[1..], back[1..], kind, place);
      var rest := GroupCosts(given[1..], kind, place);
      assert ([given[0].cost] + rest)[1..] == rest && [] + rest == rest;
    }
  }

  /** Where what came back of a group is a prefix, what is still out of it is
      the rest of its costs: a count says which pieces came back. */
  lemma {:induction false} CountSaysWhich(given: seq<Piece>, back: seq<bool>, kind: nat, place: Place)
    requires |given| == |back| && PrefixBack(given, back)
    ensures var c := CountBack(given, back, kind, place);
            var costs := GroupCosts(given, kind, place);
            c <= |costs| && GroupOut(given, back, kind, place) == Sum(costs[c..])
    decreases |given|
  {
    if given != [] {
      var costs, rest := GroupCosts(given, kind, place), GroupCosts(given[1..], kind, place);
      CountSaysWhich(given[1..], back[1..], kind, place);
      if given[0].kind == kind && given[0].place == place {
        var c := CountBack(given[1..], back[1..], kind, place);
        assert costs[c + 1..] == rest[c..];
        if !back[0] {
          forall i | 0 <= i < |given[1..]| && given[1..][i].kind == kind && given[1..][i].place == place
            ensures !back[1..][i]
          {
            assert SameGroup(given[0], given[i + 1]);
          }
          NoneBack(given[1..], back[1..], kind, place);
          assert costs[0..] == costs;
        }
      } else {
        assert costs == rest;
      }
    }
  }

  /** The next piece of a group still has every one before it back. */
  lemma {:induction false} NextOfGroup(given: seq<Piece>, back: seq<bool>, kind: nat, place: Place) returns (i: nat)
    requires |given| == |back| && PrefixBack(given, back)
    requires CountBack(given, back, kind, place) < |GroupCosts(given, kind, place)|
    ensures i < |given| && !back[i] && !BeforeOut(given, back, i)
    ensures given[i].kind == kind && given[i].place == place
    ensures given[i].cost == GroupCosts(given, kind, place)[CountBack(given, back, kind, place)]
    decreases |given|
  {
    var mine := given[0].kind == kind && given[0].place == place;
    if mine && !back[0] {
      forall j | 0 <= j < |given[1..]| && given[1..][j].kind == kind && given[1..][j].place == place
        ensures !back[1..][j]
      {
        assert SameGroup(given[0], given[j + 1]);
      }
      NoneBack(given[1..], back[1..], kind, place);
      i := 0;
    } else {
      var k := NextOfGroup(given[1..], back[1..], kind, place);
      i := k + 1;
      forall j | 0 <= j < i
        ensures back[j] || given[j].kind != kind || given[j].place != place
      {
        if j > 0 {
          assert back[1..][j - 1] || given[1..][j - 1].kind != given[1..][k].kind || given[1..][j - 1].place != given[1..][k].place;
        }
      }
    }
  }

  // ---- Out by kind is out by group ----

  lemma {:induction false} RuleIdsOut(given: seq<Piece>, back: seq<bool>)
    requires |given| == |back|
    requires forall p :: p in given ==> p.kind == 0 ==> p.place == Row(0) || p.place == Row(1)
    ensures OutOf(given, back, 0) == GroupOut(given, back, 0, Row(0)) + GroupOut(given, back, 0, Row(1))
    decreases |given|
  {
    if given != [] {
      assert given[0] in given;
      RuleIdsOut(given[1..], back[1..]);
    }
  }

  lemma {:induction false} DiagnosticsOut(given: seq<Piece>, back: seq<bool>)
    requires |given| == |back|
    requires forall p :: p in given ==> p.kind == 1 ==> p.place in [Row(0), Row(1), Summary(0), Summary(1)]
    ensures OutOf(given, back, 1) ==
      GroupOut(given, back, 1, Row(0)) + GroupOut(given, back, 1, Row(1))
      + GroupOut(given, back, 1, Summary(0)) + GroupOut(given, back, 1, Summary(1))
    decreases |given|
  {
    if given != [] {
      assert given[0] in given;
      DiagnosticsOut(given[1..], back[1..]);
    }
  }

  // ---- Each group's costs in the list ----

  function SlotCosts(slots: seq<Slot>): seq<nat> {
    seq(|slots|, i requires 0 <= i < |slots| => slots[i].cost)
  }

  lemma {:induction false} RowPieceCosts(order: seq<Slot>, group: nat, kind: nat)
    ensures GroupCosts(RowPieces(order), kind, Row(group)) == SlotCosts(Filter(order, group, kind))
  {
    if order != [] {
      RowPieceCosts(order[1..], group, kind);
      var pieces, rest := RowPieces(order), Filter(order[1..], group, kind);
      assert pieces[1..] == RowPieces(order[1..]);
      assert SlotCosts([order[0]] + rest) == [order[0].cost] + SlotCosts(rest);
    }
  }

  lemma {:induction false} NoSummaryInRows(pieces: seq<Piece>, unit: nat)
    requires forall p :: p in pieces ==> p.place.Row?
    ensures GroupCosts(pieces, 1, Summary(unit)) == []
  {
    if pieces != [] {
      assert pieces[0] in pieces;
      NoSummaryInRows(pieces[1..], unit);
    }
  }

  /** In the list, each group has its own costs in its own order. */
  lemma GivenGroups(lastError: Option<nat>, discovery: Option<nat>, order: seq<Slot>, costs: seq<nat>, group: nat, kind: nat)
    requires Sorted(order) && Ascending(costs)
    requires forall t :: t in order && t.group == group && t.kind == kind <==> SlotOf(t, costs, group, kind, |costs|)
    ensures GroupCosts(Given(lastError, discovery, order), kind, Row(group)) == costs
  {
    GroupKeepsItsOrder(order, costs, group, kind);
    RowPieceCosts(order, group, kind);
    assert GroupCosts(RowPieces(order), kind, Row(group)) == costs;
    SkipSummary(lastError, discovery, order, kind, Row(group));
  }

  lemma SkipSummary(lastError: Option<nat>, discovery: Option<nat>, order: seq<Slot>, kind: nat, place: Place)
    requires place.Row?
    ensures GroupCosts(Given(lastError, discovery, order), kind, place) == GroupCosts(RowPieces(order), kind, place)
  {
    var rows := RowPieces(order);
    var mid := (if discovery.Some? then [Piece(discovery.value, 1, Summary(0))] else []) + rows;
    assert GroupCosts(mid, kind, place) == GroupCosts(rows, kind, place) by {
      if discovery.Some? { assert mid[1..] == rows; } else { assert mid == rows; }
    }
    var all := Given(lastError, discovery, order);
    if lastError.Some? { assert all[1..] == mid; } else { assert all == mid; }
  }

  lemma SummaryGroups(lastError: Option<nat>, discovery: Option<nat>, order: seq<Slot>)
    ensures GroupCosts(Given(lastError, discovery, order), 1, Summary(1)) == if lastError.Some? then [lastError.value] else []
    ensures GroupCosts(Given(lastError, discovery, order), 1, Summary(0)) == if discovery.Some? then [discovery.value] else []
  {
    var rows := RowPieces(order);
    NoSummaryInRows(rows, 0);
    NoSummaryInRows(rows, 1);
    var mid := (if discovery.Some? then [Piece(discovery.value, 1, Summary(0))] else []) + rows;
    if discovery.Some? { assert mid[1..] == rows; } else { assert mid == rows; }
    var all := Given(lastError, discovery, order);
    if lastError.Some? { assert all[1..] == mid; } else { assert all == mid; }
  }
}
