/** The status, within the reply's size limit: what is left out, in what order,
    and what comes back. All builds of one reply describe one moment. */
module StatusReply {
  import opened Common
  import opened Wire
  import opened Status
  import opened StatusSizes
  import opened ReplyParts
  import opened AbridgedFloor

  /** What a moment also keeps: without a refusal nothing stands in. */
  ghost predicate Consistent(m: Moment) {
    && Valid(m)
    && (m.refusedTotal == 0 ==> m.standInFor.None? && forall row :: row in m.rows ==> row.standInFor.None?)
  }

  const LEAN := WHOLE.(lean := true)
  /** The reply 0.4.0 would fit: lean, without what 0.4.1 added. */
  const PLAIN := LEAN.(refused := 0, standInFor := false)
  const WITHOUT_OUTPUTS := PLAIN.(outputs := false)
  /** What is left with every array that can go left out. */
  const FLOOR := WITHOUT_OUTPUTS.(taboo := 0, missing := Left)

  /** No more taboo records fit beside the floor, on the rows settled on, with
      everything that gives way to them absent. */
  ghost predicate TabooIsMost(m: Moment, shape: Shape) {
    forall k :: shape.taboo < k <= |m.taboo| ==> !Fits(m, FLOOR.(rows := shape.rows, taboo := k))
  }

  /** Some shape the service tries before its last one fits. */
  ghost predicate SomePlainFits(m: Moment, withAdditions: bool) {
    (withAdditions && Fits(m, PLAIN)) || Fits(m, WITHOUT_OUTPUTS) || Fits(m, FLOOR) || Fits(m, FLOOR.(rows := NO_ROWS))
  }

  /** Some shape the service tries fits. */
  ghost predicate SomeTriedFits(m: Moment) {
    || Fits(m, WHOLE) || Fits(m, LEAN) || Fits(m, PLAIN) || Fits(m, WITHOUT_OUTPUTS) || Fits(m, FLOOR)
    || Fits(m, FLOOR.(rows := NO_ROWS))
  }

  /** The arrays are back as far as they fit: the renderers whole, or else
      without their paths, and then the displays. */
  ghost predicate ArraysAreMost(m: Moment, shape: Shape) {
    var bare := shape.(outputs := false, missing := Left);
    && (shape.missing != Full ==> !Fits(m, bare.(missing := Full)))
    && (shape.missing == Left ==> !Fits(m, bare.(missing := WithoutPaths)))
    && (!shape.outputs ==> !Fits(m, shape.(outputs := true)))
  }

  /** Which of the shapes without additions a reply that fits has. */
  ghost predicate IsFirstPlain(m: Moment, shape: Shape, withAdditions: bool) {
    if withAdditions && Fits(m, PLAIN) then shape == PLAIN
    else if Fits(m, WITHOUT_OUTPUTS) then shape == WITHOUT_OUTPUTS
    else
      && shape == FLOOR.(rows := shape.rows, taboo := shape.taboo, outputs := shape.outputs, missing := shape.missing)
      && (Fits(m, FLOOR) ==> shape.rows == WHOLE_ROWS)
      && ArraysAreMost(m, shape)
  }

  /** What is given back in the room left: the renderers whole or without
      their paths, then the displays. */
  method GiveArraysBack(m: Moment, shape: Shape, best: string) returns (given: Shape, reply: string, ghost builds: nat)
    requires Valid(m) && !shape.outputs && shape.missing == Left
    requires best == StatusJson(m, shape) && SuccessFits(best)
    ensures given == shape.(outputs := given.outputs, missing := given.missing)
    ensures reply == StatusJson(m, given) && SuccessFits(reply)
    ensures given.missing != Full ==> !Fits(m, shape.(missing := Full))
    ensures given.missing == Left ==> !Fits(m, shape.(missing := WithoutPaths))
    ensures !given.outputs ==> !Fits(m, given.(outputs := true))
    ensures builds <= 1
  {
    hide StatusJson, Size, ArrayCost;
    var room := MAX_RESPONSE_BYTES - SuccessLen(best);
    SizeOfReply(m, shape);
    var left, added := room, 0;
    given := shape;
    ArraysGivenBack(m, shape, false, Full);
    ArraysGivenBack(m, shape, false, WithoutPaths);
    ArraysGivenBack(m, shape, false, Left);
    NothingMissing(m);
    assert shape.(outputs := false, missing := Left) == shape;
    assert shape.(outputs := false, missing := Full) == shape.(missing := Full);
    assert shape.(outputs := false, missing := WithoutPaths) == shape.(missing := WithoutPaths);
    var full, short := ArrayCost(MissingRows(m, Full)), ArrayCost(MissingRows(m, WithoutPaths));
    if full <= room {
      given, left, added := shape.(missing := Full), room - full, full;
    } else if short <= room {
      given, left, added := shape.(missing := WithoutPaths), room - short, short;
    }
    var cost := ArrayCost(m.outputs);
    ArraysGivenBack(m, shape, true, given.missing);
    assert shape.(outputs := true, missing := given.missing) == given.(outputs := true);
    if cost <= left {
      given, added := given.(outputs := true), added + cost;
    }
    SizeOfReply(m, given);
    builds := 0;
    if added == 0 {
      SameBytes(m, shape, given);
      return given, best, builds;
    }
    reply := StatusJson(m, given);
    builds := 1;
  }

  lemma PrintTakesBytes(j: Json)
    ensures Print(j) != ""
  {
  }

  lemma FreeArrayIsEmpty(items: seq<Json>)
    ensures ArrayCost(items) == 0 ==> items == []
  {
    hide Print;
    ArrayMeasured(items);
    if items != [] {
      PrintTakesBytes(items[0]);
      EscapedIsNoShorter(Print(items[0]));
    }
  }

  /** Arrays that take no byte are empty: the reply is the same. */
  lemma SameBytes(m: Moment, shape: Shape, given: Shape)
    requires !shape.outputs && shape.missing == Left
    requires given == shape.(outputs := given.outputs, missing := given.missing)
    requires given.outputs ==> ArrayCost(m.outputs) == 0
    requires ArrayCost(MissingRows(m, given.missing)) == 0
    ensures StatusJson(m, given) == StatusJson(m, shape)
  {
    hide Print, ArrayCost, Abridged, FlagFields;
    FreeArrayIsEmpty(m.outputs);
    FreeArrayIsEmpty(MissingRows(m, given.missing));
    SameAbridged(m.rows, given, shape);
    SameFlags(m, given, shape);
  }

  /** The reply without what 0.4.1 added: `outputs` left out first, then as
      many taboo records kept as fit without the missing renderers; then what
      room is left is given back. When not even the floor fits, the floor
      abridged takes its place. */
  method FittingWithoutAdditions(m: Moment, withAdditions: bool) returns (shape: Shape, reply: string, ghost builds: nat)
    requires Consistent(m)
    ensures reply == StatusJson(m, shape)
    ensures shape.lean && shape.refused == 0 && !shape.standInFor
    ensures SuccessFits(reply) <==> SomePlainFits(m, withAdditions)
    ensures SuccessFits(reply) ==> TabooIsMost(m, shape) && IsFirstPlain(m, shape, withAdditions)
    ensures SuccessFits(reply) && shape.rows != WHOLE_ROWS ==>
      NothingMoreFits(m, FLOOR, shape.rows)
    ensures builds <= if withAdditions then 6 else 5
  {
    hide StatusJson, Size, Abridged, NothingMoreFits, RuleUnits, ErrorUnits, ListsExactly;
    builds := 0;
    SizeOfReply(m, PLAIN);
    SizeOfReply(m, WITHOUT_OUTPUTS);
    SizeOfReply(m, FLOOR);
    if withAdditions {
      reply := StatusJson(m, PLAIN);
      builds := 1;
      if SuccessFits(reply) {
        return PLAIN, reply, builds;
      }
    }
    reply := StatusJson(m, WITHOUT_OUTPUTS);
    builds := builds + 1;
    if SuccessFits(reply) {
      return WITHOUT_OUTPUTS, reply, builds;
    }
    shape := FLOOR;
    var floor := StatusJson(m, shape);
    builds := builds + 1;
    if !SuccessFits(floor) {
      var rules := [UnitsOf(m, 0, 0), UnitsOf(m, 0, 1)];
      var errors := [UnitsOf(m, 1, 0), UnitsOf(m, 1, 1)];
      var detail;
      ghost var abridging;
      detail, floor, abridging := Abridge(m, shape, floor, rules, errors);
      builds := builds + abridging;
      shape := shape.(rows := detail);
      if !SuccessFits(floor) {
        return shape, floor, builds;
      }
    }
    var settled := shape;
    SizeOfReply(m, settled);
    TabooListsExactly(m, settled);
    assert settled.(taboo := 0) == settled;
    var records, best;
    ghost var listing;
    var listed := (k: nat) => settled.(taboo := k);
    records, best, listing := MostListedThatFit(m, floor, m.taboo, m.tabooTotal, None, listed);
    builds := builds + listing;
    shape := settled.(taboo := records);
    ghost var givingBack;
    ghost var bare := shape;
    shape, reply, givingBack := GiveArraysBack(m, shape, best);
    builds := builds + givingBack;
    assert shape.(outputs := false, missing := Left) == bare;
    assert ArraysAreMost(m, shape);
    forall k | shape.taboo < k <= |m.taboo|
      ensures !Fits(m, FLOOR.(rows := shape.rows, taboo := k))
    {
      assert FLOOR.(rows := shape.rows, taboo := k) == listed(k);
    }
  }

  lemma LeanOfNothingRefused(m: Moment)
    requires Consistent(m) && m.refusedTotal == 0
    ensures StatusJson(m, PLAIN) == StatusJson(m, LEAN)
  {
    hide Print, RuleUnits, ErrorUnits;
    assert ClearStandIns(m.rows) == m.rows by {
      forall i | 0 <= i < |m.rows|
        ensures ClearStandIns(m.rows)[i] == m.rows[i]
      {
        assert m.rows[i] in m.rows;
      }
    }
    assert Abridged(m.rows, PLAIN) == Abridged(m.rows, LEAN);
    assert forall i :: 0 <= i < |m.rows| ==> m.rows[i] in m.rows;
    assert FlagFields(m, PLAIN) == FlagFields(m, LEAN);
    assert RefusedFields(m, true, 0) == RefusedFields(m, true, MAX_REFUSED);
  }

  /** The status within its limit. It fits exactly when one of the shapes
      tried does; it lists as many taboo records as fit beside the floor it
      settled on; and it takes at most nine builds, six with nothing
      refused. */
  method StatusReply(m: Moment) returns (reply: string, ghost shape: Shape, ghost builds: nat)
    requires Consistent(m)
    ensures reply == StatusJson(m, shape)
    ensures SuccessFits(reply) <==> SomeTriedFits(m)
    ensures Fits(m, WHOLE) ==> shape == WHOLE
    ensures !Fits(m, WHOLE) && Fits(m, LEAN) ==> shape == LEAN
    ensures SuccessFits(reply) && !Fits(m, WHOLE) && !Fits(m, LEAN) ==>
      IsFirstPlain(m, shape.(refused := 0, standInFor := false), m.refusedTotal > 0)
    ensures SuccessFits(reply) ==> shape.taboo >= |m.taboo| || TabooIsMost(m, shape)
    ensures SuccessFits(reply) ==> forall k :: shape.refused < k <= |m.refused| ==> !Fits(m, shape.(refused := k))
    ensures SuccessFits(reply) && !shape.standInFor ==> !Fits(m, shape.(refused := 0, standInFor := true)) || m.refusedTotal == 0
    ensures builds <= if m.refusedTotal > 0 then 9 else 6
  {
    hide StatusJson, Size, Abridged, NothingMoreFits, ListsExactly, LeanSaving, TabooIsMost, IsFirstPlain;
    SizeOfReply(m, WHOLE);
    SizeOfReply(m, LEAN);
    SizeOfReply(m, PLAIN);
    if m.refusedTotal == 0 {
      LeanOfNothingRefused(m);
    }
    var everything := StatusJson(m, WHOLE);
    builds := 1;
    if SuccessFits(everything) {
      return everything, WHOLE, builds;
    }
    LeanSavingIsExact(m, WHOLE);
    assert WHOLE.(lean := false) == WHOLE;
    if SuccessLen(everything) - MAX_RESPONSE_BYTES <= LeanSaving(m, WHOLE) {
      return StatusJson(m, LEAN), LEAN, builds + 1;
    }
    var additions := m.refusedTotal > 0;
    var fitted, best;
    ghost var fitting;
    fitted, best, fitting := FittingWithoutAdditions(m, additions);
    builds := builds + fitting;
    SizeOfReply(m, fitted);
    assert fitted.(refused := 0, standInFor := false) == fitted;
    if !SuccessFits(best) || !additions {
      return best, fitted, builds;
    }
    var withStandIns := fitted.(standInFor := true);
    var candidate := StatusJson(m, withStandIns);
    builds := builds + 1;
    SizeOfReply(m, withStandIns);
    var settled := fitted;
    if SuccessFits(candidate) {
      settled, best := withStandIns, candidate;
    }
    RefusedListsExactly(m, settled);
    assert settled.(refused := 0) == settled;
    var rows, replied;
    ghost var listing;
    var listed := (k: nat) => settled.(refused := k);
    rows, replied, listing :=
      MostListedThatFit(m, best, m.refused, m.refusedTotal, RefusedLeanKeys(settled.lean), listed);
    forall k | rows < k <= |m.refused|
      ensures !Fits(m, settled.(refused := rows).(refused := k))
    {
      assert settled.(refused := rows).(refused := k) == listed(k);
    }
    builds := builds + listing;
    assert settled.(refused := rows).(refused := 0, standInFor := true) == withStandIns;
    SameTaboo(m, fitted, settled.(refused := rows));
    assert settled.(refused := rows).(refused := 0, standInFor := false) == fitted;
    return replied, settled.(refused := rows), builds;
  }

  lemma SameTaboo(m: Moment, a: Shape, b: Shape)
    requires TabooIsMost(m, a) && a.rows == b.rows && a.taboo == b.taboo
    ensures TabooIsMost(m, b)
  {
  }
}
