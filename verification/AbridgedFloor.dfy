/** The floor of a reply that doesn't fit, with as little left out of its rows
    and its summary as it then needs. */
module AbridgedFloor {
  import opened Common
  import opened Wire
  import opened Status
  import opened StatusSizes
  import opened ReplyParts
  import GB = GiveBack
  import P = Pieces

  const RULE_FLAG := "schedule_rule_id_omitted"
  const ERROR_FLAG := "diagnostics_omitted"

  function Costs(units: seq<Unit>): (costs: seq<nat>)
    ensures |costs| == |units| && forall i :: 0 <= i < |costs| ==> costs[i] == units[i].cost
  {
    seq(|units|, i requires 0 <= i < |units| => units[i].cost)
  }

  function UnitsOf(m: Moment, kind: nat, group: nat): seq<Unit> {
    if kind == 0 then RuleUnits(m.rows, group, |m.rows|) else ErrorUnits(m.rows, group, |m.rows|)
  }

  function SummaryUnit(text: string): Option<nat> {
    if text == "" then None else Some(UnitLen(text))
  }

  function SummaryCosts(text: string): seq<nat> {
    if text == "" then [] else [UnitLen(text)]
  }

  /** The list the loop is run on, for the units of `m`. */
  ghost predicate IsGiven(m: Moment, given: seq<GB.Piece>) {
    && (forall p :: p in given ==> p.kind < 2 && p.place in [GB.Row(0), GB.Row(1), GB.Summary(0), GB.Summary(1)])
    && (forall p :: p in given ==> p.kind == 0 ==> p.place.Row?)
    && (forall kind, group :: 0 <= kind < 2 && 0 <= group < 2 ==>
          P.GroupCosts(given, kind, GB.Row(group)) == Costs(UnitsOf(m, kind, group)))
    && P.GroupCosts(given, 1, GB.Summary(1)) == SummaryCosts(m.lastError)
    && P.GroupCosts(given, 1, GB.Summary(0)) == SummaryCosts(m.discoveryError)
  }

  /** The detail a choice of what comes back amounts to. */
  function DetailOf(given: seq<GB.Piece>, back: seq<bool>): RowDetail
    requires |given| == |back|
  {
    RowDetail(
      Counts(P.CountBack(given, back, 0, GB.Row(0)), P.CountBack(given, back, 0, GB.Row(1))),
      Counts(P.CountBack(given, back, 1, GB.Row(0)), P.CountBack(given, back, 1, GB.Row(1))),
      P.CountBack(given, back, 1, GB.Summary(0)) > 0,
      P.CountBack(given, back, 1, GB.Summary(1)) > 0)
  }

  // ---- Every unit takes at least a byte ----

  lemma {:induction false} EscapedKeepsLength(s: string)
    ensures |s| <= |Escape(s)|
  {
    if s != "" {
      EscapedKeepsLength(s[1..]);
    }
  }

  lemma UnitsTakeBytes(text: string)
    requires text != ""
    ensures UnitLen(text) > 0
  {
    StringMeasured(text);
    EscapedKeepsLength(text);
    EscapedIsNoShorter(Escape(text));
  }

  lemma {:induction false} CostIsSum(units: seq<Unit>, c: nat)
    requires c <= |units|
    ensures Cost(units[c..]) == P.Sum(Costs(units)[c..])
    decreases |units| - c
  {
    if c < |units| {
      CostIsSum(units, c + 1);
      assert units[c..][1..] == units[c + 1..];
      assert Costs(units)[c..][1..] == Costs(units)[c + 1..];
    }
  }

  lemma UnitsOfTakeBytes(m: Moment, kind: nat, group: nat)
    requires Valid(m)
    ensures forall u :: u in UnitsOf(m, kind, group) ==> u.cost > 0
  {
    hide UnitLen;
    forall u | u in UnitsOf(m, kind, group)
      ensures u.cost > 0
    {
      assert m.rows[u.index] in m.rows;
      if kind == 0 {
        UnitsTakeBytes(m.rows[u.index].scheduleRuleId.value);
      } else {
        UnitsTakeBytes(m.rows[u.index].lastError);
      }
    }
  }

  /** A flag stands in a reply exactly while something of its kind is out. */
  lemma FlagsSayWhatIsOut(m: Moment, detail: RowDetail)
    requires Valid(m)
    ensures OmitsRuleId(m.rows, detail) <==> RuleOut(m.rows, detail) > 0
    ensures OmitsDiagnostic(m, detail) <==> RowErrorOut(m.rows, detail) + SummaryErrorOut(m, detail) > 0
  {
    hide UnitLen, RuleUnits, ErrorUnits;
    DroppedTakesBytes(m, 0, 0, detail.ruleIds.connected);
    DroppedTakesBytes(m, 0, 1, detail.ruleIds.others);
    DroppedTakesBytes(m, 1, 0, detail.errors.connected);
    DroppedTakesBytes(m, 1, 1, detail.errors.others);
    if m.lastError != "" { UnitsTakeBytes(m.lastError); }
    if m.discoveryError != "" { UnitsTakeBytes(m.discoveryError); }
    EmptyUnit();
  }

  lemma EmptyUnit()
    ensures UnitLen("") == 0
  {
    LiteralsMeasured();
  }

  lemma DroppedTakesBytes(m: Moment, kind: nat, group: nat, count: nat)
    requires Valid(m)
    ensures DropsSome(UnitsOf(m, kind, group), count) <==> Cost(Dropped(UnitsOf(m, kind, group), count)) > 0
  {
    var units := UnitsOf(m, kind, group);
    UnitsOfTakeBytes(m, kind, group);
    if count < |units| {
      assert units[count..][0] == units[count] && units[count] in units;
    }
  }

  // ---- The size a choice describes ----

  lemma GroupOutIsDropped(m: Moment, given: seq<GB.Piece>, back: seq<bool>, kind: nat, group: nat)
    requires |given| == |back| && IsGiven(m, given) && GB.PrefixBack(given, back)
    requires kind < 2 && group < 2
    ensures P.CountBack(given, back, kind, GB.Row(group)) <= |UnitsOf(m, kind, group)|
    ensures P.GroupOut(given, back, kind, GB.Row(group))
         == Cost(Dropped(UnitsOf(m, kind, group), P.CountBack(given, back, kind, GB.Row(group))))
  {
    hide RuleUnits, ErrorUnits;
    P.CountSaysWhich(given, back, kind, GB.Row(group));
    CostIsSum(UnitsOf(m, kind, group), P.CountBack(given, back, kind, GB.Row(group)));
  }

  lemma SummaryOutIsMeasured(m: Moment, given: seq<GB.Piece>, back: seq<bool>)
    requires |given| == |back| && IsGiven(m, given) && GB.PrefixBack(given, back)
    ensures P.GroupOut(given, back, 1, GB.Summary(0)) + P.GroupOut(given, back, 1, GB.Summary(1))
         == SummaryErrorOut(m, DetailOf(given, back))
  {
    hide UnitLen;
    P.CountSaysWhich(given, back, 1, GB.Summary(0));
    P.CountSaysWhich(given, back, 1, GB.Summary(1));
    EmptyUnit();
    OneOrNone(SummaryCosts(m.lastError), P.CountBack(given, back, 1, GB.Summary(1)));
    OneOrNone(SummaryCosts(m.discoveryError), P.CountBack(given, back, 1, GB.Summary(0)));
  }

  lemma OneOrNone(costs: seq<nat>, c: nat)
    requires |costs| <= 1 && c <= |costs|
    ensures P.Sum(costs[c..]) == if c == 0 && |costs| == 1 then costs[0] else 0
  {
    if c == 0 {
      assert costs[0..] == costs;
      if |costs| == 1 {
        assert costs[1..] == [];
      }
    }
  }

  function Price(out: nat, flag: string): nat {
    if out > 0 then AbsentLen(flag, "true") else 0
  }

  /** What is out of each kind, and the size that makes: everything's size
      less what is out, plus a flag for each kind that has something out. */
  lemma ChoiceSize(m: Moment, shape: Shape, given: seq<GB.Piece>, back: seq<bool>)
    requires Valid(m) && |given| == |back| && IsGiven(m, given) && GB.PrefixBack(given, back)
    ensures var detail := DetailOf(given, back);
            var ids, errors := GB.OutOf(given, back, 0), GB.OutOf(given, back, 1);
            && ids == RuleOut(m.rows, detail)
            && errors == RowErrorOut(m.rows, detail) + SummaryErrorOut(m, detail)
            && Size(m, shape.(rows := detail))
               == Size(m, shape.(rows := WHOLE_ROWS)) - ids - errors + Price(ids, RULE_FLAG) + Price(errors, ERROR_FLAG)
  {
    hide Size, AbsentLen, UnitLen, RuleUnits, ErrorUnits, Cost, Dropped, OmitsRuleId, OmitsDiagnostic;
    var detail := DetailOf(given, back);
    P.RuleIdsOut(given, back);
    P.DiagnosticsOut(given, back);
    GroupOutIsDropped(m, given, back, 0, 0);
    GroupOutIsDropped(m, given, back, 0, 1);
    GroupOutIsDropped(m, given, back, 1, 0);
    GroupOutIsDropped(m, given, back, 1, 1);
    SummaryOutIsMeasured(m, given, back);
    RowDetailIsExact(m, shape.(rows := detail));
    FlagsSayWhatIsOut(m, detail);
  }

  // ---- Building the list, and reading the choice off it ----

  lemma UnitsAscend(m: Moment, kind: nat, group: nat)
    ensures P.Ascending(Costs(UnitsOf(m, kind, group)))
  {
    hide UnitLen;
  }

  /** The pieces in the order they are given back. */
  method ListPieces(m: Moment, rules: seq<seq<Unit>>, errors: seq<seq<Unit>>) returns (given: seq<GB.Piece>)
    requires Valid(m)
    requires rules == [UnitsOf(m, 0, 0), UnitsOf(m, 0, 1)] && errors == [UnitsOf(m, 1, 0), UnitsOf(m, 1, 1)]
    ensures IsGiven(m, given) && GB.Pieces(given)
  {
    hide *;
    var order := P.Ordered([Costs(rules[0]), Costs(rules[1])], [Costs(errors[0]), Costs(errors[1])]);
    given := P.Given(SummaryUnit(m.lastError), SummaryUnit(m.discoveryError), order);
    ListIsGiven(m, order, given);
  }

  lemma ListIsGiven(m: Moment, order: seq<P.Slot>, given: seq<GB.Piece>)
    requires Valid(m) && P.Sorted(order)
    requires P.AllSlots(order, [Costs(UnitsOf(m, 0, 0)), Costs(UnitsOf(m, 0, 1))], [Costs(UnitsOf(m, 1, 0)), Costs(UnitsOf(m, 1, 1))])
    requires given == P.Given(SummaryUnit(m.lastError), SummaryUnit(m.discoveryError), order)
    ensures IsGiven(m, given) && GB.Pieces(given)
  {
    hide UnitLen, UnitsOf, P.AllSlots, P.Given, P.GroupCosts;
    var rules, errors := [Costs(UnitsOf(m, 0, 0)), Costs(UnitsOf(m, 0, 1))], [Costs(UnitsOf(m, 1, 0)), Costs(UnitsOf(m, 1, 1))];
    var lastError, discovery := SummaryUnit(m.lastError), SummaryUnit(m.discoveryError);
    forall kind, group | 0 <= kind < 2 && 0 <= group < 2
      ensures P.CostsOf(rules, errors, group, kind) == Costs(UnitsOf(m, kind, group))
      ensures P.GroupCosts(given, kind, GB.Row(group)) == Costs(UnitsOf(m, kind, group))
    {
      UnitsAscend(m, kind, group);
      SlotsOfOneGroup(rules, errors, order, group, kind);
      P.GivenGroups(lastError, discovery, order, Costs(UnitsOf(m, kind, group)), group, kind);
    }
    P.SummaryGroups(lastError, discovery, order);
    PiecesTakeBytes(m, rules, errors, order, given);
  }

  lemma SlotsOfOneGroup(rules: seq<seq<nat>>, errors: seq<seq<nat>>, order: seq<P.Slot>, group: nat, kind: nat)
    requires |rules| == |errors| == 2 && group < 2 && kind < 2
    requires P.AllSlots(order, rules, errors)
    ensures var costs := P.CostsOf(rules, errors, group, kind);
            forall t :: t in order && t.group == group && t.kind == kind <==> P.SlotOf(t, costs, group, kind, |costs|)
  {
  }

  lemma PiecesTakeBytes(
    m: Moment, rules: seq<seq<nat>>, errors: seq<seq<nat>>, order: seq<P.Slot>, given: seq<GB.Piece>
  )
    requires Valid(m) && |rules| == |errors| == 2
    requires forall kind, group :: 0 <= kind < 2 && 0 <= group < 2 ==>
      P.CostsOf(rules, errors, group, kind) == Costs(UnitsOf(m, kind, group))
    requires P.AllSlots(order, rules, errors)
    requires given == P.Given(SummaryUnit(m.lastError), SummaryUnit(m.discoveryError), order)
    ensures GB.Pieces(given)
    ensures forall p :: p in given ==> p.place in [GB.Row(0), GB.Row(1), GB.Summary(0), GB.Summary(1)]
    ensures forall p :: p in given ==> p.kind == 0 ==> p.place.Row?
  {
    hide UnitLen, UnitsOf;
    if m.lastError != "" { UnitsTakeBytes(m.lastError); }
    if m.discoveryError != "" { UnitsTakeBytes(m.discoveryError); }
    forall t | t in order
      ensures t.cost > 0 && t.group < 2 && t.kind < 2
    {
      var g, k :| 0 <= g < 2 && 0 <= k < 2
        && P.SlotOf(t, P.CostsOf(rules, errors, g, k), g, k, |P.CostsOf(rules, errors, g, k)|);
      UnitsOfTakeBytes(m, k, g);
      assert UnitsOf(m, k, g)[t.place] in UnitsOf(m, k, g);
    }
    assert forall i :: 0 <= i < |order| ==> order[i] in order;
  }

  method Tally(given: seq<GB.Piece>, back: seq<bool>) returns (detail: RowDetail)
    requires |given| == |back|
    requires forall p :: p in given ==> p.kind < 2 && p.place in [GB.Row(0), GB.Row(1), GB.Summary(0), GB.Summary(1)]
    requires forall p :: p in given ==> p.kind == 0 ==> p.place.Row?
    ensures detail == DetailOf(given, back)
  {
    var ids0, ids1, errors0, errors1 := 0, 0, 0, 0;
    var discovery, last := false, false;
    ghost var all := (kind: nat, place) => P.CountBack(given, back, kind, place);
    for i := 0 to |given|
      invariant ids0 + P.CountBack(given[i..], back[i..], 0, GB.Row(0)) == all(0, GB.Row(0))
      invariant ids1 + P.CountBack(given[i..], back[i..], 0, GB.Row(1)) == all(0, GB.Row(1))
      invariant errors0 + P.CountBack(given[i..], back[i..], 1, GB.Row(0)) == all(1, GB.Row(0))
      invariant errors1 + P.CountBack(given[i..], back[i..], 1, GB.Row(1)) == all(1, GB.Row(1))
      invariant discovery || P.CountBack(given[i..], back[i..], 1, GB.Summary(0)) > 0 <==> all(1, GB.Summary(0)) > 0
      invariant last || P.CountBack(given[i..], back[i..], 1, GB.Summary(1)) > 0 <==> all(1, GB.Summary(1)) > 0
    {
      assert given[i] in given;
      assert given[i..][1..] == given[i + 1..] && back[i..][1..] == back[i + 1..];
      if back[i] {
        match given[i].place {
          case Summary(unit) => if unit == 0 { discovery := true; } else { last := true; }
          case Row(group) =>
            if given[i].kind == 0 {
              if group == 0 { ids0 := ids0 + 1; } else { ids1 := ids1 + 1; }
            } else {
              if group == 0 { errors0 := errors0 + 1; } else { errors1 := errors1 + 1; }
            }
        }
      }
    }
    detail := RowDetail(Counts(ids0, ids1), Counts(errors0, errors1), discovery, last);
  }

  // ---- As little left out as the room needs ----

  function OneMoreId(detail: RowDetail, group: nat): RowDetail {
    detail.(ruleIds := if group == 0 then detail.ruleIds.(connected := detail.ruleIds.connected + 1)
                       else detail.ruleIds.(others := detail.ruleIds.others + 1))
  }

  function OneMoreError(detail: RowDetail, group: nat): RowDetail {
    detail.(errors := if group == 0 then detail.errors.(connected := detail.errors.connected + 1)
                      else detail.errors.(others := detail.errors.others + 1))
  }

  /** No single further piece fits, and no kind whole in exchange for its
      flag. */
  ghost predicate NothingMoreFits(m: Moment, shape: Shape, detail: RowDetail) {
    && (forall group :: 0 <= group < 2 && detail.ruleIds.Of(group) < |UnitsOf(m, 0, group)|
          ==> !Fits(m, shape.(rows := OneMoreId(detail, group))))
    && (forall group :: 0 <= group < 2 && detail.errors.Of(group) < |UnitsOf(m, 1, group)|
          ==> !Fits(m, shape.(rows := OneMoreError(detail, group))))
    && (!detail.discoveryError && m.discoveryError != "" ==> !Fits(m, shape.(rows := detail.(discoveryError := true))))
    && (!detail.lastError && m.lastError != "" ==> !Fits(m, shape.(rows := detail.(lastError := true))))
    && (OmitsRuleId(m.rows, detail) ==> !Fits(m, shape.(rows := detail.(ruleIds := Counts(MANY, MANY)))))
    && (OmitsDiagnostic(m, detail) ==>
          !Fits(m, shape.(rows := detail.(errors := Counts(MANY, MANY), discoveryError := true, lastError := true))))
  }

  function IdsOut(m: Moment, detail: RowDetail): nat { RuleOut(m.rows, detail) }
  function DiagnosticsOut(m: Moment, detail: RowDetail): nat { RowErrorOut(m.rows, detail) + SummaryErrorOut(m, detail) }

  /** The size of any detail, by what it leaves out of each kind. */
  lemma DetailSize(m: Moment, shape: Shape, detail: RowDetail)
    requires Valid(m)
    ensures Size(m, shape.(rows := detail)) ==
      Size(m, shape.(rows := WHOLE_ROWS)) - IdsOut(m, detail) - DiagnosticsOut(m, detail)
      + Price(IdsOut(m, detail), RULE_FLAG) + Price(DiagnosticsOut(m, detail), ERROR_FLAG)
  {
    hide Size, AbsentLen, RuleOut, RowErrorOut, SummaryErrorOut, OmitsRuleId, OmitsDiagnostic;
    RowDetailIsExact(m, shape.(rows := detail));
    FlagsSayWhatIsOut(m, detail);
  }

  lemma {:induction false} DroppedLess(units: seq<Unit>, c: nat)
    requires c < |units|
    ensures Cost(Dropped(units, c)) == Cost(Dropped(units, c + 1)) + units[c].cost
  {
    assert units[c..][1..] == units[c + 1..];
  }

  /** What one more of each sort takes out of what is left out. */
  lemma OneMoreLeavesOutLess(m: Moment, detail: RowDetail, group: nat)
    requires group < 2
    ensures detail.ruleIds.Of(group) < |UnitsOf(m, 0, group)| ==>
      var more := OneMoreId(detail, group);
      && IdsOut(m, more) + UnitsOf(m, 0, group)[detail.ruleIds.Of(group)].cost == IdsOut(m, detail)
      && DiagnosticsOut(m, more) == DiagnosticsOut(m, detail)
    ensures detail.errors.Of(group) < |UnitsOf(m, 1, group)| ==>
      var more := OneMoreError(detail, group);
      && DiagnosticsOut(m, more) + UnitsOf(m, 1, group)[detail.errors.Of(group)].cost == DiagnosticsOut(m, detail)
      && IdsOut(m, more) == IdsOut(m, detail)
  {
    hide UnitLen, RuleUnits, ErrorUnits, Cost, Dropped;
    if detail.ruleIds.Of(group) < |UnitsOf(m, 0, group)| {
      DroppedLess(UnitsOf(m, 0, group), detail.ruleIds.Of(group));
    }
    if detail.errors.Of(group) < |UnitsOf(m, 1, group)| {
      DroppedLess(UnitsOf(m, 1, group), detail.errors.Of(group));
    }
  }

  /** Where the loop is stuck, a kind that has something out doesn't fit
      whole, and the next piece of a group doesn't fit. */
  ghost predicate StuckEverywhere(given: seq<GB.Piece>, back: seq<bool>, out: seq<nat>, flags: seq<nat>, room: int)
    requires |given| == |back| && |out| == |flags| == 2 && GB.Pieces(given)
  {
    forall index :: 0 <= index < |given| ==> GB.Stuck(given, back, out, flags, room, index)
  }

  lemma StuckGroup(
    m: Moment, given: seq<GB.Piece>, back: seq<bool>, out: seq<nat>, flags: seq<nat>, room: int, kind: nat, place: GB.Place
  )
    requires GB.Pieces(given) && |given| == |back| && |out| == |flags| == 2 && GB.PrefixBack(given, back)
    requires StuckEverywhere(given, back, out, flags, room) && kind < 2
    requires P.CountBack(given, back, kind, place) < |P.GroupCosts(given, kind, place)|
    ensures room < P.GroupCosts(given, kind, place)[P.CountBack(given, back, kind, place)]
    ensures room + flags[kind] < out[kind]
  {
    var i := P.NextOfGroup(given, back, kind, place);
    assert GB.Stuck(given, back, out, flags, room, i);
  }

  lemma {:induction false} SomethingOut(given: seq<GB.Piece>, back: seq<bool>, kind: nat) returns (i: nat)
    requires |given| == |back| && GB.OutOf(given, back, kind) > 0
    ensures i < |given| && !back[i] && given[i].kind == kind
    decreases |given|
  {
    if !back[0] && given[0].kind == kind {
      i := 0;
    } else {
      var k := SomethingOut(given[1..], back[1..], kind);
      i := k + 1;
    }
  }

  lemma StuckKind(given: seq<GB.Piece>, back: seq<bool>, out: seq<nat>, flags: seq<nat>, room: int, kind: nat)
    requires GB.Pieces(given) && |given| == |back| && |out| == |flags| == 2
    requires StuckEverywhere(given, back, out, flags, room) && kind < 2
    requires GB.OutOf(given, back, kind) > 0
    ensures room + flags[kind] < out[kind]
  {
    var i := SomethingOut(given, back, kind);
    assert GB.Stuck(given, back, out, flags, room, i);
  }

  lemma {:induction false} OutNoMore(given: seq<GB.Piece>, back: seq<bool>, kind: nat)
    requires |given| == |back|
    ensures GB.OutOf(given, back, kind) <= GB.OutOf(given, seq(|given|, _ => false), kind)
    decreases |given|
  {
    if given != [] {
      OutNoMore(given[1..], back[1..], kind);
      assert seq(|given|, _ => false)[1..] == seq(|given[1..]|, _ => false);
    }
  }

  /** The loop's end, as the books say it. */
  ghost predicate Ended(
    m: Moment, shape: Shape, given: seq<GB.Piece>, back: seq<bool>, out: seq<nat>, flags: seq<nat>, room: int
  )
  {
    && |given| == |back| && |out| == |flags| == 2
    && IsGiven(m, given) && GB.Pieces(given) && GB.PrefixBack(given, back)
    && out[0] == GB.OutOf(given, back, 0) && out[1] == GB.OutOf(given, back, 1)
    && flags[0] == Price(out[0], RULE_FLAG) && flags[1] == Price(out[1], ERROR_FLAG)
    && room == MAX_RESPONSE_BYTES - Size(m, shape.(rows := WHOLE_ROWS)) + out[0] + out[1] - flags[0] - flags[1]
    && StuckEverywhere(given, back, out, flags, room)
  }

  lemma EndedChoice(
    m: Moment, shape: Shape, given: seq<GB.Piece>, back: seq<bool>, out: seq<nat>, flags: seq<nat>, room: int
  )
    requires Valid(m) && Ended(m, shape, given, back, out, flags, room)
    ensures var detail := DetailOf(given, back);
            && out[0] == IdsOut(m, detail) && out[1] == DiagnosticsOut(m, detail)
            && room == MAX_RESPONSE_BYTES - Size(m, shape.(rows := detail))
    ensures out[0] > 0 ==> room + flags[0] < out[0]
    ensures out[1] > 0 ==> room + flags[1] < out[1]
  {
    hide Size, AbsentLen, IsGiven, GB.PrefixBack, RuleOut, RowErrorOut, SummaryErrorOut, StuckEverywhere;
    ChoiceSize(m, shape, given, back);
    if out[0] > 0 { StuckKind(given, back, out, flags, room, 0); }
    if out[1] > 0 { StuckKind(given, back, out, flags, room, 1); }
  }

  lemma NextIdDoesNotFit(
    m: Moment, shape: Shape, given: seq<GB.Piece>, back: seq<bool>, out: seq<nat>, flags: seq<nat>, room: int, group: nat
  )
    requires Valid(m) && Ended(m, shape, given, back, out, flags, room) && group < 2
    requires DetailOf(given, back).ruleIds.Of(group) < |UnitsOf(m, 0, group)|
    ensures !Fits(m, shape.(rows := OneMoreId(DetailOf(given, back), group)))
  {
    hide Size, AbsentLen, IsGiven, UnitsOf, IdsOut, DiagnosticsOut, StuckEverywhere;
    var detail := DetailOf(given, back);
    EndedChoice(m, shape, given, back, out, flags, room);
    OneMoreLeavesOutLess(m, detail, group);
    DetailSize(m, shape, detail);
    DetailSize(m, shape, OneMoreId(detail, group));
    GroupCostsAre(m, given, 0, group);
    StuckGroup(m, given, back, out, flags, room, 0, GB.Row(group));
  }

  lemma NextErrorDoesNotFit(
    m: Moment, shape: Shape, given: seq<GB.Piece>, back: seq<bool>, out: seq<nat>, flags: seq<nat>, room: int, group: nat
  )
    requires Valid(m) && Ended(m, shape, given, back, out, flags, room) && group < 2
    requires DetailOf(given, back).errors.Of(group) < |UnitsOf(m, 1, group)|
    ensures !Fits(m, shape.(rows := OneMoreError(DetailOf(given, back), group)))
  {
    hide Size, AbsentLen, IsGiven, UnitsOf, IdsOut, DiagnosticsOut, StuckEverywhere;
    var detail := DetailOf(given, back);
    EndedChoice(m, shape, given, back, out, flags, room);
    OneMoreLeavesOutLess(m, detail, group);
    DetailSize(m, shape, detail);
    DetailSize(m, shape, OneMoreError(detail, group));
    GroupCostsAre(m, given, 1, group);
    StuckGroup(m, given, back, out, flags, room, 1, GB.Row(group));
  }

  lemma GroupCostsAre(m: Moment, given: seq<GB.Piece>, kind: nat, group: nat)
    requires IsGiven(m, given) && kind < 2 && group < 2
    ensures P.GroupCosts(given, kind, GB.Row(group)) == Costs(UnitsOf(m, kind, group))
  {
  }

  lemma SummaryDoesNotFit(
    m: Moment, shape: Shape, given: seq<GB.Piece>, back: seq<bool>, out: seq<nat>, flags: seq<nat>, room: int
  )
    requires Valid(m) && Ended(m, shape, given, back, out, flags, room)
    ensures var detail := DetailOf(given, back);
            && (!detail.discoveryError && m.discoveryError != "" ==> !Fits(m, shape.(rows := detail.(discoveryError := true))))
            && (!detail.lastError && m.lastError != "" ==> !Fits(m, shape.(rows := detail.(lastError := true))))
  {
    hide Size, AbsentLen, UnitLen, RuleOut, RowErrorOut, StuckEverywhere, RuleUnits, ErrorUnits;
    var detail := DetailOf(given, back);
    EndedChoice(m, shape, given, back, out, flags, room);
    DetailSize(m, shape, detail);
    if !detail.discoveryError && m.discoveryError != "" {
      DetailSize(m, shape, detail.(discoveryError := true));
      SameRowsOut(m, detail, detail.(discoveryError := true));
      StuckGroup(m, given, back, out, flags, room, 1, GB.Summary(0));
    }
    if !detail.lastError && m.lastError != "" {
      DetailSize(m, shape, detail.(lastError := true));
      SameRowsOut(m, detail, detail.(lastError := true));
      StuckGroup(m, given, back, out, flags, room, 1, GB.Summary(1));
    }
  }

  lemma SameRowsOut(m: Moment, a: RowDetail, b: RowDetail)
    ensures a.ruleIds == b.ruleIds ==> RuleOut(m.rows, a) == RuleOut(m.rows, b)
    ensures a.errors == b.errors ==> RowErrorOut(m.rows, a) == RowErrorOut(m.rows, b)
  {
  }

  lemma WholeKindDoesNotFit(
    m: Moment, shape: Shape, given: seq<GB.Piece>, back: seq<bool>, out: seq<nat>, flags: seq<nat>, room: int
  )
    requires Valid(m) && Ended(m, shape, given, back, out, flags, room)
    ensures var detail := DetailOf(given, back);
            && (OmitsRuleId(m.rows, detail) ==> !Fits(m, shape.(rows := detail.(ruleIds := Counts(MANY, MANY)))))
            && (OmitsDiagnostic(m, detail) ==>
                  !Fits(m, shape.(rows := detail.(errors := Counts(MANY, MANY), discoveryError := true, lastError := true))))
  {
    hide Size, AbsentLen, UnitLen, RuleOut, RowErrorOut, SummaryErrorOut, StuckEverywhere, OmitsRuleId, OmitsDiagnostic;
    var detail := DetailOf(given, back);
    EndedChoice(m, shape, given, back, out, flags, room);
    FlagsSayWhatIsOut(m, detail);
    DetailSize(m, shape, detail);
    WholeDropsNothing(m);
    var ids := detail.(ruleIds := Counts(MANY, MANY));
    DetailSize(m, shape, ids);
    SameRowsOut(m, ids, WHOLE_ROWS);
    SameRowsOut(m, ids, detail);
    SameSummaryOut(m, ids, detail);
    var errors := detail.(errors := Counts(MANY, MANY), discoveryError := true, lastError := true);
    DetailSize(m, shape, errors);
    SameRowsOut(m, errors, WHOLE_ROWS);
    SameRowsOut(m, errors, detail);
    SameSummaryOut(m, errors, WHOLE_ROWS);
  }

  lemma SameSummaryOut(m: Moment, a: RowDetail, b: RowDetail)
    requires a.lastError == b.lastError && a.discoveryError == b.discoveryError
    ensures SummaryErrorOut(m, a) == SummaryErrorOut(m, b)
  {
  }

  lemma NothingMore(
    m: Moment, shape: Shape, given: seq<GB.Piece>, back: seq<bool>, out: seq<nat>, flags: seq<nat>, room: int
  )
    requires Valid(m) && Ended(m, shape, given, back, out, flags, room)
    ensures NothingMoreFits(m, shape, DetailOf(given, back))
  {
    hide Fits, Ended, UnitsOf, OmitsRuleId, OmitsDiagnostic;
    EndedShape(m, shape, given, back, out, flags, room);
    var detail := DetailOf(given, back);
    forall group | 0 <= group < 2 && detail.ruleIds.Of(group) < |UnitsOf(m, 0, group)|
      ensures !Fits(m, shape.(rows := OneMoreId(detail, group)))
    {
      NextIdDoesNotFit(m, shape, given, back, out, flags, room, group);
    }
    forall group | 0 <= group < 2 && detail.errors.Of(group) < |UnitsOf(m, 1, group)|
      ensures !Fits(m, shape.(rows := OneMoreError(detail, group)))
    {
      NextErrorDoesNotFit(m, shape, given, back, out, flags, room, group);
    }
    SummaryDoesNotFit(m, shape, given, back, out, flags, room);
    WholeKindDoesNotFit(m, shape, given, back, out, flags, room);
  }

  lemma EndedShape(
    m: Moment, shape: Shape, given: seq<GB.Piece>, back: seq<bool>, out: seq<nat>, flags: seq<nat>, room: int
  )
    requires Ended(m, shape, given, back, out, flags, room)
    ensures |given| == |back|
  {
  }

  // ---- The whole step ----

  function NoneBack(given: seq<GB.Piece>): (back: seq<bool>)
    ensures |back| == |given|
  {
    seq(|given|, _ => false)
  }

  /** With nothing given back, everything measured is out. */
  lemma NothingBackYet(m: Moment, given: seq<GB.Piece>)
    requires Valid(m) && IsGiven(m, given)
    ensures GB.PrefixBack(given, NoneBack(given))
    ensures GB.OutOf(given, NoneBack(given), 0) == P.Sum(Costs(UnitsOf(m, 0, 0))) + P.Sum(Costs(UnitsOf(m, 0, 1)))
    ensures GB.OutOf(given, NoneBack(given), 1) == P.Sum(Costs(UnitsOf(m, 1, 0))) + P.Sum(Costs(UnitsOf(m, 1, 1)))
      + P.Sum(SummaryCosts(m.discoveryError)) + P.Sum(SummaryCosts(m.lastError))
    ensures DetailOf(given, NoneBack(given)) == NO_ROWS
  {
    hide UnitLen, UnitsOf;
    var back := NoneBack(given);
    P.RuleIdsOut(given, back);
    P.DiagnosticsOut(given, back);
    P.NoneBack(given, back, 0, GB.Row(0));
    P.NoneBack(given, back, 0, GB.Row(1));
    P.NoneBack(given, back, 1, GB.Row(0));
    P.NoneBack(given, back, 1, GB.Row(1));
    P.NoneBack(given, back, 1, GB.Summary(0));
    P.NoneBack(given, back, 1, GB.Summary(1));
  }

  lemma FlagTakesBytes(flag: string)
    ensures AbsentLen(flag, "true") > 0
  {
    EscapedIsNoShorter(",\"" + flag + "\":" + "true");
  }

  /** The end of the loop, for the books it was started with. */
  lemma LoopEnded(
    m: Moment, shape: Shape, given: seq<GB.Piece>, back: seq<bool>, out: seq<nat>, flags: seq<nat>, room: int,
    prices: seq<nat>, balance: int
  )
    requires Valid(m) && IsGiven(m, given) && GB.Pieces(given)
    requires balance == MAX_RESPONSE_BYTES - Size(m, shape.(rows := WHOLE_ROWS))
    requires |prices| == 2
    requires prices[0] == Price(GB.OutOf(given, NoneBack(given), 0), RULE_FLAG)
    requires prices[1] == Price(GB.OutOf(given, NoneBack(given), 1), ERROR_FLAG)
    requires GB.Books(given, back, out, flags, room, balance, prices) && GB.FlagsSettled(out, flags)
    requires StuckEverywhere(given, back, out, flags, room)
    ensures Ended(m, shape, given, back, out, flags, room)
  {
    hide Size, IsGiven, StuckEverywhere, AbsentLen, GB.OutOf, GB.Pieces;
    OutNoMore(given, back, 0);
    OutNoMore(given, back, 1);
    FlagTakesBytes(RULE_FLAG);
    FlagTakesBytes(ERROR_FLAG);
  }

  /** The floor abridged: measured with every piece out, each is given back,
      the last first, wherever it still fits. It fits exactly when the floor
      with every piece out does, and then nothing more does. */
  method Abridge(m: Moment, shape: Shape, floor: string, rules: seq<seq<Unit>>, errors: seq<seq<Unit>>)
    returns (detail: RowDetail, reply: string, ghost builds: nat)
    requires Valid(m) && shape.rows == WHOLE_ROWS
    requires floor == StatusJson(m, shape) && !SuccessFits(floor)
    requires rules == [UnitsOf(m, 0, 0), UnitsOf(m, 0, 1)] && errors == [UnitsOf(m, 1, 0), UnitsOf(m, 1, 1)]
    ensures reply == StatusJson(m, shape.(rows := detail)) && builds == 1
    ensures SuccessFits(reply) <==> Fits(m, shape.(rows := NO_ROWS))
    ensures SuccessFits(reply) ==> NothingMoreFits(m, shape, detail)
    ensures !SuccessFits(reply) ==> detail == NO_ROWS
  {
    hide StatusJson, UnitsOf, UnitLen, AbsentLen, IsGiven, NothingMoreFits, GB.Books, GB.OutOf, P.Sum, Ended, StuckEverywhere, GB.FlagsSettled;
    var ruleTotal := P.Sum(Costs(rules[0])) + P.Sum(Costs(rules[1]));
    var errorTotal := P.Sum(Costs(errors[0])) + P.Sum(Costs(errors[1]))
      + P.Sum(SummaryCosts(m.discoveryError)) + P.Sum(SummaryCosts(m.lastError));
    var ruleFlag, errorFlag := Price(ruleTotal, RULE_FLAG), Price(errorTotal, ERROR_FLAG);
    var excess := SuccessLen(floor) - MAX_RESPONSE_BYTES;
    var given := ListPieces(m, rules, errors);
    NothingBackYet(m, given);
    ChoiceSize(m, shape, given, NoneBack(given));
    assert shape.(rows := WHOLE_ROWS) == shape;
    if ruleTotal + errorTotal >= excess + ruleFlag + errorFlag {
      var room := ruleTotal + errorTotal - (excess + ruleFlag + errorFlag);
      // The floor doesn't fit, so not everything can come back.
      assert room + ruleFlag + errorFlag < ruleTotal + errorTotal;
      ghost var balance := -excess;
      StartOfBooks(given, [ruleTotal, errorTotal], [ruleFlag, errorFlag], room, balance);
      var back;
      ghost var out, flags;
      back, out, flags, room := GB.GiveBack(given, [ruleTotal, errorTotal], [ruleFlag, errorFlag], room, balance);
      BooksShape(given, back, out, flags, room, balance, [ruleFlag, errorFlag]);
      StuckAll(given, back, out, flags, room);
      LoopEnded(m, shape, given, back, out, flags, room, [ruleFlag, errorFlag], balance);
      PiecesPlaced(m, given);
      detail := Tally(given, back);
      NothingMore(m, shape, given, back, out, flags, room);
      EndedChoice(m, shape, given, back, out, flags, room);
    } else {
      detail := NO_ROWS;
    }
    reply := StatusJson(m, shape.(rows := detail));
    builds := 1;
  }

  lemma StartOfBooks(given: seq<GB.Piece>, totals: seq<nat>, prices: seq<nat>, room: nat, balance: int)
    requires |totals| == |prices| == 2
    requires totals[0] == GB.OutOf(given, NoneBack(given), 0) && totals[1] == GB.OutOf(given, NoneBack(given), 1)
    requires prices[0] == Price(totals[0], RULE_FLAG) && prices[1] == Price(totals[1], ERROR_FLAG)
    requires room == balance + totals[0] + totals[1] - prices[0] - prices[1]
    ensures GB.Books(given, seq(|given|, _ => false), totals, prices, room, balance, prices)
    ensures GB.FlagsSettled(totals, prices)
  {
    hide AbsentLen, GB.OutOf;
  }

  lemma BooksShape(
    given: seq<GB.Piece>, back: seq<bool>, out: seq<nat>, flags: seq<nat>, room: int, balance: int, prices: seq<nat>
  )
    requires GB.Books(given, back, out, flags, room, balance, prices)
    ensures |given| == |back| && |out| == |flags| == 2 && room >= 0
  {
  }

  lemma StuckAll(given: seq<GB.Piece>, back: seq<bool>, out: seq<nat>, flags: seq<nat>, room: int)
    requires GB.Pieces(given) && |given| == |back| && |out| == |flags| == 2
    requires forall index :: 0 <= index < |given| ==> GB.Stuck(given, back, out, flags, room, index)
    ensures StuckEverywhere(given, back, out, flags, room)
  {
  }

  lemma PiecesPlaced(m: Moment, given: seq<GB.Piece>)
    requires IsGiven(m, given)
    ensures forall p :: p in given ==> p.kind < 2 && p.place in [GB.Row(0), GB.Row(1), GB.Summary(0), GB.Summary(1)]
    ensures forall p :: p in given ==> p.kind == 0 ==> p.place.Row?
  {
  }
}
