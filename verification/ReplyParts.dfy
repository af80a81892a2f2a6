/** The two workers of a reply's fitting: rows abridged in place, and the most
    rows of an array that still fit. */
module ReplyParts {
  import opened Common
  import opened Wire
  import opened Status
  import opened StatusSizes

  predicate Fits(m: Moment, shape: Shape) {
    Size(m, shape) <= MAX_RESPONSE_BYTES
  }

  // ---- Abridging the rows in place ----

  /** Rows that carry the same ids and errors, in the same groups. */
  ghost predicate SameTexts(a: seq<Row>, b: seq<Row>) {
    && |a| == |b|
    && forall i :: 0 <= i < |a| ==> (
        && a[i].connected == b[i].connected
        && a[i].scheduleRuleId == b[i].scheduleRuleId
        && a[i].lastError == b[i].lastError)
  }

  lemma {:induction false} SameRuleIds(a: seq<Row>, b: seq<Row>, group: nat, n: nat)
    requires SameTexts(a, b) && n <= |a|
    ensures RuleUnits(a, group, n) == RuleUnits(b, group, n)
    decreases n
  {
    hide UnitLen, Place, Sorted;
    if n > 0 {
      SameRuleIds(a, b, group, n - 1);
      assert GroupOf(a[n - 1]) == GroupOf(b[n - 1]);
      assert a[n - 1].scheduleRuleId == b[n - 1].scheduleRuleId;
    }
  }

  lemma {:induction false} SameErrors(a: seq<Row>, b: seq<Row>, group: nat, n: nat)
    requires SameTexts(a, b) && n <= |a|
    ensures ErrorUnits(a, group, n) == ErrorUnits(b, group, n)
    decreases n
  {
    hide UnitLen, Place, Sorted;
    if n > 0 {
      SameErrors(a, b, group, n - 1);
      assert GroupOf(a[n - 1]) == GroupOf(b[n - 1]);
      assert a[n - 1].lastError == b[n - 1].lastError;
    }
  }

  lemma StandInsHoldNoTexts(rows: seq<Row>)
    ensures SameTexts(ClearStandIns(rows), rows)
  {
  }

  /** Leaving out the stand-ins changes no unit. */
  lemma StandInsHoldNoUnits(rows: seq<Row>)
    ensures |ClearStandIns(rows)| == |rows|
    ensures forall group :: RuleUnits(ClearStandIns(rows), group, |rows|) == RuleUnits(rows, group, |rows|)
    ensures forall group :: ErrorUnits(ClearStandIns(rows), group, |rows|) == ErrorUnits(rows, group, |rows|)
  {
    hide RuleUnits, ErrorUnits, ClearStandIns;
    StandInsHoldNoTexts(rows);
    forall group: nat
      ensures RuleUnits(ClearStandIns(rows), group, |rows|) == RuleUnits(rows, group, |rows|)
      ensures ErrorUnits(ClearStandIns(rows), group, |rows|) == ErrorUnits(rows, group, |rows|)
    {
      SameRuleIds(ClearStandIns(rows), rows, group, |rows|);
      SameErrors(ClearStandIns(rows), rows, group, |rows|);
    }
  }

  lemma {:induction false} ClearOneRuleMore(rows: seq<Row>, units: seq<Unit>, n: nat)
    requires n < |units| && forall u :: u in units ==> u.index < |rows|
    ensures var r := ClearRules(rows, units[..n]);
            ClearRules(rows, units[..n + 1]) == r[units[n].index := r[units[n].index].(scheduleRuleId := None)]
    decreases |units|
  {
    if n == 0 {
      assert units[..1][1..] == [] && units[..0] == [];
    } else {
      var i := units[0].index;
      ClearOneRuleMore(rows[i := rows[i].(scheduleRuleId := None)], units[1..], n - 1);
      assert units[..n][1..] == units[1..][..n - 1] && units[..n + 1][1..] == units[1..][..n];
    }
  }

  lemma {:induction false} ClearOneErrorMore(rows: seq<Row>, units: seq<Unit>, n: nat)
    requires n < |units| && forall u :: u in units ==> u.index < |rows|
    ensures var r := ClearErrors(rows, units[..n]);
            ClearErrors(rows, units[..n + 1]) == r[units[n].index := r[units[n].index].(lastError := "")]
    decreases |units|
  {
    if n == 0 {
      assert units[..1][1..] == [] && units[..0] == [];
    } else {
      var i := units[0].index;
      ClearOneErrorMore(rows[i := rows[i].(lastError := "")], units[1..], n - 1);
      assert units[..n][1..] == units[1..][..n - 1] && units[..n + 1][1..] == units[1..][..n];
    }
  }

  method DropRuleIds(displays: array<Row>, units: seq<Unit>, count: nat) returns (omitted: bool)
    requires forall u :: u in units ==> u.index < displays.Length
    modifies displays
    ensures displays[..] == ClearRules(old(displays[..]), Dropped(units, count))
    ensures omitted == DropsSome(units, count)
  {
    omitted := false;
    var left := Dropped(units, count);
    assert left[..0] == [];
    for n := 0 to |left|
      invariant displays[..] == ClearRules(old(displays[..]), left[..n])
      invariant omitted == (n > 0)
    {
      ClearOneRuleMore(old(displays[..]), left, n);
      var i := left[n].index;
      displays[i] := displays[i].(scheduleRuleId := None);
      omitted := true;
    }
    assert left[..|left|] == left;
  }

  method DropErrors(displays: array<Row>, units: seq<Unit>, count: nat) returns (omitted: bool)
    requires forall u :: u in units ==> u.index < displays.Length
    modifies displays
    ensures displays[..] == ClearErrors(old(displays[..]), Dropped(units, count))
    ensures omitted == DropsSome(units, count)
  {
    omitted := false;
    var left := Dropped(units, count);
    assert left[..0] == [];
    for n := 0 to |left|
      invariant displays[..] == ClearErrors(old(displays[..]), left[..n])
      invariant omitted == (n > 0)
    {
      ClearOneErrorMore(old(displays[..]), left, n);
      var i := left[n].index;
      displays[i] := displays[i].(lastError := "");
      omitted := true;
    }
    assert left[..|left|] == left;
  }

  method DropStandIns(displays: array<Row>) returns (omitted: bool)
    modifies displays
    ensures displays[..] == ClearStandIns(old(displays[..]))
    ensures omitted == exists i :: 0 <= i < displays.Length && old(displays[i].standInFor.Some?)
  {
    omitted := false;
    for i := 0 to displays.Length
      invariant forall j :: 0 <= j < i ==> displays[j] == old(displays[j]).(standInFor := None)
      invariant forall j :: i <= j < displays.Length ==> displays[j] == old(displays[j])
      invariant omitted == exists j :: 0 <= j < i && old(displays[j].standInFor.Some?)
    {
      omitted := omitted || displays[i].standInFor.Some?;
      displays[i] := displays[i].(standInFor := None);
    }
  }

  /** Leave out of the rows what `shape` doesn't carry, in place, and say what
      was left out. The units are measured before any is left out. */
  method AbridgeRows(displays: array<Row>, shape: Shape, m: Moment)
    returns (standIn: bool, ruleId: bool, diagnostic: bool, rules: seq<seq<Unit>>, errors: seq<seq<Unit>>)
    requires displays[..] == m.rows
    modifies displays
    ensures displays[..] == Abridged(m.rows, shape)
    ensures standIn == OmitsStandIn(m, shape)
    ensures ruleId == OmitsRuleId(m.rows, shape.rows)
    ensures diagnostic == OmitsDiagnostic(m, shape.rows)
    ensures rules == [RuleUnits(m.rows, 0, |m.rows|), RuleUnits(m.rows, 1, |m.rows|)]
    ensures errors == [ErrorUnits(m.rows, 0, |m.rows|), ErrorUnits(m.rows, 1, |m.rows|)]
  {
    hide RuleUnits, ErrorUnits, ClearRules, ClearErrors, ClearStandIns, Dropped, UnitLen;
    standIn := false;
    var n := displays.Length;
    assert forall i :: 0 <= i < n ==> displays[i] == m.rows[i];
    if !shape.standInFor {
      standIn := DropStandIns(displays);
      StandInsHoldNoUnits(m.rows);
    }
    rules := [RuleUnits(displays[..], 0, n), RuleUnits(displays[..], 1, n)];
    errors := [ErrorUnits(displays[..], 0, n), ErrorUnits(displays[..], 1, n)];
    var rule0 := DropRuleIds(displays, rules[0], shape.rows.ruleIds.connected);
    var error0 := DropErrors(displays, errors[0], shape.rows.errors.connected);
    var rule1 := DropRuleIds(displays, rules[1], shape.rows.ruleIds.others);
    var error1 := DropErrors(displays, errors[1], shape.rows.errors.others);
    ruleId := rule0 || rule1;
    diagnostic := error0 || error1
      || (!shape.rows.discoveryError && m.discoveryError != "")
      || (!shape.rows.lastError && m.lastError != "");
  }

  // ---- The most rows of an array that fit ----

  function CountKey(leanKeys: Option<(string, string)>): Option<string> {
    if leanKeys.Some? then Some(leanKeys.value.1) else None
  }

  function Opening(leanKeys: Option<(string, string)>): nat {
    if leanKeys.Some? then AbsentLen(leanKeys.value.0, "[]") else 0
  }

  lemma ListedSize(
    m: Moment, rows: seq<Json>, total: nat, leanKeys: Option<(string, string)>, shape: nat -> Shape, k: nat
  )
    requires ListsExactly(m, rows, total, leanKeys, shape) && k <= |rows|
    ensures k <= total
    ensures Size(m, shape(k)) == Size(m, shape(0)) + Added(rows, k, Opening(leanKeys)) - CountSaving(total, k, CountKey(leanKeys))
  {
  }

  lemma CountSavingIsMeasured(total: nat, listed: nat, key: Option<string>)
    requires 0 < listed <= total
    ensures DecimalDigits(total - listed) <= DecimalDigits(total)
    ensures CountSaving(total, listed, key) ==
      if key.Some? && total - listed == 0 then AbsentLen(key.value, Digits(total))
      else DecimalDigits(total) - DecimalDigits(total - listed)
  {
    FewerDigits(total - listed, total);
  }

  /** How many of `rows` fit in the room beside none of them. */
  method MostThatFit(
    m: Moment, room: nat, rows: seq<Json>, total: nat, leanKeys: Option<(string, string)>, shape: nat -> Shape
  ) returns (most: nat)
    requires room == MAX_RESPONSE_BYTES - Size(m, shape(0))
    requires ListsExactly(m, rows, total, leanKeys, shape)
    ensures most <= |rows| && Fits(m, shape(most))
    ensures forall k :: most < k <= |rows| ==> !Fits(m, shape(k))
  {
    hide Size, AbsentLen, ListsExactly, Added, CountSaving, DecimalDigits, EscapedLen, Print, Digits;
    var opening := Opening(leanKeys);
    var added := 0;
    most := 0;
    NothingAdded(rows, opening);
    ListedSize(m, rows, total, leanKeys, shape, 0);
    for index := 0 to |rows|
      invariant added == Added(rows, index, opening)
      invariant most <= index
      invariant Fits(m, shape(most))
      invariant forall k :: most < k <= index ==> !Fits(m, shape(k))
    {
      AddOneMore(rows, index, opening);
      added := added + EscapedLen(Print(rows[index])) + if index > 0 then 1 else opening;
      var listed := index + 1;
      ListedSize(m, rows, total, leanKeys, shape, listed);
      var left := total - listed;
      CountSavingIsMeasured(total, listed, CountKey(leanKeys));
      var saved :=
        if leanKeys.Some? && left == 0 then AbsentLen(leanKeys.value.1, Digits(total))
        else DecimalDigits(total) - DecimalDigits(left);
      if (if added < saved then 0 else added - saved) <= room {
        most := listed;
      }
    }
  }

  lemma NothingAdded(rows: seq<Json>, opening: nat)
    ensures Added(rows, 0, opening) == 0
  {
  }

  /** The most of `rows` that fit beside `zero`, the reply with none of them:
      measured, not tried. The measure being exact, the first reply built for
      it fits, and one fewer is never tried. */
  method MostListedThatFit(
    m: Moment, zero: string, rows: seq<Json>, total: nat, leanKeys: Option<(string, string)>, shape: nat -> Shape
  ) returns (most: nat, reply: string, ghost builds: nat)
    requires zero == StatusJson(m, shape(0)) && SuccessFits(zero)
    requires ListsExactly(m, rows, total, leanKeys, shape)
    ensures most <= |rows|
    ensures reply == StatusJson(m, shape(most)) && SuccessFits(reply)
    ensures forall k :: most < k <= |rows| ==> !Fits(m, shape(k))
    ensures builds <= 1
  {
    hide StatusJson, ListsExactly;
    most := MostThatFit(m, MAX_RESPONSE_BYTES - SuccessLen(zero), rows, total, leanKeys, shape);
    builds := 0;
    reply := zero;
    if most > 0 {
      reply := StatusJson(m, shape(most));
      builds := 1;
    }
  }

  lemma SizeOfReply(m: Moment, shape: Shape)
    ensures SuccessLen(StatusJson(m, shape)) == Size(m, shape)
  {
  }

  lemma AddOneMore(rows: seq<Json>, index: nat, opening: nat)
    requires index < |rows|
    ensures Added(rows, index + 1, opening) ==
      Added(rows, index, opening) + EscapedLen(Print(rows[index])) + if index > 0 then 1 else opening
  {
    hide EscapedLen, Print;
    assert rows[..index + 1] == rows[..index] + [rows[index]];
    ItemsLenAdds(rows[..index], [rows[index]]);
    assert [rows[index]][1..] == [];
    assert ItemsLen([rows[index]]) == WireLen(rows[index]) + 1;
  }
}
