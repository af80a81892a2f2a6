/** How the size of a reply changes from shape to shape: each measure the
    service adds up instead of building a reply again is exact. */
module StatusSizes {
  import opened Common
  import opened Wire
  import opened Status

  lemma OneField(key: string, value: Json)
    ensures FieldsLen([Field(key, value)]) == FieldLen(Field(key, value)) + 1
    ensures FieldsLen([Field(key, value)]) == AbsentLen(key, Print(value))
    ensures FieldsLen([]) == 0
  {
    AbsentLenIsFieldLen(key, value);
    assert [Field(key, value)][1..] == [];
  }

  lemma TwoFields(a: Field, b: Field)
    ensures FieldsLen([a, b]) == FieldLen(a) + FieldLen(b) + 2
  {
    hide FieldLen;
    assert [a, b][1..] == [b];
    assert FieldsLen([b]) == FieldLen(b) + 1 + FieldsLen([b][1..]);
    assert [b][1..] == [];
  }

  // ---- 0: what a lean reply saves ----

  function Saved(quiet: bool, key: string, value: string): nat {
    if quiet then AbsentLen(key, value) else 0
  }

  /** What leaving out the summary's fields that say nothing saves. */
  function SummarySaving(m: Moment, refused: nat): nat {
    Saved(m.nothingToPlay.None?, "nothing_to_play", "null")
    + Saved(!m.allowWeb, "allow_web_wallpapers", "false")
    + Saved(Take(m.refused, refused) == [], "refused", "[]")
    + Saved(RefusedOmitted(m, refused) == 0, "refused_omitted", "0")
    + Saved(m.overridesSha.None?, "loaded_overrides_sha256", "null")
    + Saved(m.overridesIgnored.None?, "overrides_ignored", "null")
  }

  function RowSaving(row: Row): nat {
    Saved(row.nothingToPlay.None?, "nothing_to_play", "null") + Saved(row.entryName.None?, "entry_name", "null")
  }

  function RowsSaving(rows: seq<Row>): nat {
    if rows == [] then 0 else RowSaving(rows[0]) + RowsSaving(rows[1..])
  }

  /** `Measured.lean_saving`, as a reply of any shape measures it. */
  function LeanSaving(m: Moment, shape: Shape): nat {
    RowsSaving(Abridged(m.rows, shape)) + SummarySaving(m, shape.refused)
  }

  lemma PlainValues()
    ensures Print(Null) == "null" && Print(Bool(false)) == "false" && Print(Arr([])) == "[]" && Print(Num(0)) == "0"
  {
  }

  lemma WhenSaves(quiet: bool, key: string, value: Json, printed: string)
    requires quiet ==> Print(value) == printed
    ensures FieldsLen(When(true, key, value)) == FieldsLen(When(!quiet, key, value)) + Saved(quiet, key, printed)
  {
    OneField(key, value);
  }

  /** The bytes a row adds to the list of rows, its comma included. */
  function RowCost(row: Row, lean: bool): nat {
    WireLen(Obj(RowFields(row, lean))) + 1
  }

  function RowBase(row: Row): nat {
    2 + FieldsLen(row.opening) + FieldsLen(row.route) + FieldsLen(row.playback) + FieldsLen(row.retry) + FieldsLen(row.timing)
  }

  lemma RowIsASum(row: Row, lean: bool)
    requires row.opening != []
    ensures RowCost(row, lean) ==
      RowBase(row)
      + FieldsLen(When(row.standInFor.Some?, "stand_in_for", Nullable(row.standInFor)))
      + FieldsLen([Field("schedule_rule_id", Nullable(row.scheduleRuleId))])
      + FieldsLen([Field("last_error", Str(row.lastError))])
      + FieldsLen(When(!(lean && row.nothingToPlay.None?), "nothing_to_play", Nullable(row.nothingToPlay)))
      + FieldsLen(When(!(lean && row.entryName.None?), "entry_name", Nullable(row.entryName)))
  {
    hide FieldsLen, EscapedLen, PrintFields, When, Nullable;
    var t9 := row.timing;
    var t8 := When(!(lean && row.entryName.None?), "entry_name", Nullable(row.entryName)) + t9;
    var t7 := When(!(lean && row.nothingToPlay.None?), "nothing_to_play", Nullable(row.nothingToPlay)) + t8;
    var t6 := row.retry + t7;
    var t5 := [Field("last_error", Str(row.lastError))] + t6;
    var t4 := row.playback + t5;
    var t3 := [Field("schedule_rule_id", Nullable(row.scheduleRuleId))] + t4;
    var t2 := row.route + t3;
    var t1 := When(row.standInFor.Some?, "stand_in_for", Nullable(row.standInFor)) + t2;
    assert RowFields(row, lean) == row.opening + t1;
    ObjectMeasured(RowFields(row, lean));
    FieldsLenAdds(row.opening, t1);
    FieldsLenAdds(When(row.standInFor.Some?, "stand_in_for", Nullable(row.standInFor)), t2);
    FieldsLenAdds(row.route, t3);
    FieldsLenAdds([Field("schedule_rule_id", Nullable(row.scheduleRuleId))], t4);
    FieldsLenAdds(row.playback, t5);
    FieldsLenAdds([Field("last_error", Str(row.lastError))], t6);
    FieldsLenAdds(row.retry, t7);
    FieldsLenAdds(When(!(lean && row.nothingToPlay.None?), "nothing_to_play", Nullable(row.nothingToPlay)), t8);
    FieldsLenAdds(When(!(lean && row.entryName.None?), "entry_name", Nullable(row.entryName)), t9);
  }

  lemma RowLean(row: Row)
    requires row.opening != []
    ensures RowCost(row, false) == RowCost(row, true) + RowSaving(row)
  {
    RowIsASum(row, false);
    RowIsASum(row, true);
    PlainValues();
    WhenSaves(row.nothingToPlay.None?, "nothing_to_play", Nullable(row.nothingToPlay), "null");
    WhenSaves(row.entryName.None?, "entry_name", Nullable(row.entryName), "null");
  }

  /** All rows and a comma after each. */
  function RowsCost(rows: seq<Row>, lean: bool): nat {
    if rows == [] then 0 else RowCost(rows[0], lean) + RowsCost(rows[1..], lean)
  }

  ghost predicate Opened(rows: seq<Row>) {
    forall row :: row in rows ==> row.opening != []
  }

  lemma {:induction false} RowsLean(rows: seq<Row>)
    requires Opened(rows)
    ensures RowsCost(rows, false) == RowsCost(rows, true) + RowsSaving(rows)
  {
    if rows != [] {
      RowLean(rows[0]);
      RowsLean(rows[1..]);
    }
  }

  lemma {:induction false} RowsMeasured(rows: seq<Row>, lean: bool)
    ensures ItemsLen(RowsJson(rows, lean)) == RowsCost(rows, lean)
  {
    hide WireLen, RowFields;
    if rows != [] {
      RowsMeasured(rows[1..], lean);
      assert RowsJson(rows, lean)[1..] == RowsJson(rows[1..], lean);
    }
  }

  lemma DisplaysMeasured(rows: seq<Row>, lean: bool)
    ensures FieldsLen([Field("displays", Arr(RowsJson(rows, lean)))])
         == FieldsLen([Field("displays", Arr([]))]) + if rows == [] then 0 else RowsCost(rows, lean) - 1
  {
    OneField("displays", Arr(RowsJson(rows, lean)));
    OneField("displays", Arr([]));
    ArrayMeasured(RowsJson(rows, lean));
    ArrayMeasured([]);
    RowsMeasured(rows, lean);
  }

  lemma {:induction false} ClearRulesKeeps(rows: seq<Row>, units: seq<Unit>)
    requires forall u :: u in units ==> u.index < |rows|
    ensures var r := ClearRules(rows, units);
            forall i :: 0 <= i < |rows| ==> r[i] == rows[i].(scheduleRuleId := r[i].scheduleRuleId)
    decreases |units|
  {
    if units != [] {
      var i := units[0].index;
      ClearRulesKeeps(rows[i := rows[i].(scheduleRuleId := None)], units[1..]);
    }
  }

  lemma {:induction false} ClearErrorsKeeps(rows: seq<Row>, units: seq<Unit>)
    requires forall u :: u in units ==> u.index < |rows|
    ensures var r := ClearErrors(rows, units);
            forall i :: 0 <= i < |rows| ==> r[i] == rows[i].(lastError := r[i].lastError)
    decreases |units|
  {
    if units != [] {
      var i := units[0].index;
      ClearErrorsKeeps(rows[i := rows[i].(lastError := "")], units[1..]);
    }
  }

  lemma AbridgedKeepsOpening(rows: seq<Row>, shape: Shape)
    requires Opened(rows)
    ensures Opened(Abridged(rows, shape))
  {
    var n := |rows|;
    var r0 := if shape.standInFor then rows else ClearStandIns(rows);
    var d0 := Dropped(RuleUnits(rows, 0, n), shape.rows.ruleIds.connected);
    var e0 := Dropped(ErrorUnits(rows, 0, n), shape.rows.errors.connected);
    var d1 := Dropped(RuleUnits(rows, 1, n), shape.rows.ruleIds.others);
    var e1 := Dropped(ErrorUnits(rows, 1, n), shape.rows.errors.others);
    ClearRulesKeeps(r0, d0);
    var r1 := ClearRules(r0, d0);
    ClearErrorsKeeps(r1, e0);
    var r2 := ClearErrors(r1, e0);
    ClearRulesKeeps(r2, d1);
    var r3 := ClearRules(r2, d1);
    ClearErrorsKeeps(r3, e1);
    assert Opened(r0);
  }

  /** The lean reply of a shape is shorter than the same reply said in full by
      precisely what was measured. */
  lemma LeanSavingIsExact(m: Moment, shape: Shape)
    requires Valid(m)
    ensures Size(m, shape.(lean := false)) == Size(m, shape.(lean := true)) + LeanSaving(m, shape)
  {
    hide FieldsLen, AbsentLen, WireLen, Abridged, Size, Print;
    var full, lean := shape.(lean := false), shape.(lean := true);
    SizeIsASum(m, full);
    SizeIsASum(m, lean);
    SameAbridged(m.rows, full, lean);
    SameAbridged(m.rows, full, shape);
    var rows := Abridged(m.rows, full);
    AbridgedKeepsOpening(m.rows, full);
    DisplaysMeasured(rows, false);
    DisplaysMeasured(rows, true);
    RowsLean(rows);
    OverridesLean(m);
    QuietLean(m);
    RefusedLean(m, shape.refused);
    SameFlags(m, full, lean);
  }

  lemma SameAbridged(rows: seq<Row>, a: Shape, b: Shape)
    requires a.standInFor == b.standInFor && a.rows == b.rows
    ensures Abridged(rows, a) == Abridged(rows, b)
  {
  }

  lemma SameFlags(m: Moment, a: Shape, b: Shape)
    requires a.standInFor == b.standInFor && a.rows == b.rows
    ensures FlagFields(m, a) == FlagFields(m, b)
  {
  }

  lemma OverridesLean(m: Moment)
    ensures FieldsLen(OverrideFields(m, false)) == FieldsLen(OverrideFields(m, true))
      + Saved(m.overridesSha.None?, "loaded_overrides_sha256", "null")
      + Saved(m.overridesIgnored.None?, "overrides_ignored", "null")
  {
    hide AbsentLen;
    PlainValues();
    WhenSaves(m.overridesSha.None?, "loaded_overrides_sha256", Nullable(m.overridesSha), "null");
    WhenSaves(m.overridesIgnored.None?, "overrides_ignored", Nullable(m.overridesIgnored), "null");
    TwoGroups("loaded_overrides_sha256", Nullable(m.overridesSha), "overrides_ignored", Nullable(m.overridesIgnored));
  }

  lemma QuietLean(m: Moment)
    ensures FieldsLen(QuietFields(m, false)) == FieldsLen(QuietFields(m, true))
      + Saved(m.nothingToPlay.None?, "nothing_to_play", "null")
      + Saved(!m.allowWeb, "allow_web_wallpapers", "false")
  {
    hide AbsentLen;
    PlainValues();
    WhenSaves(m.nothingToPlay.None?, "nothing_to_play", Nullable(m.nothingToPlay), "null");
    WhenSaves(!m.allowWeb, "allow_web_wallpapers", Bool(m.allowWeb), "false");
    TwoGroups("nothing_to_play", Nullable(m.nothingToPlay), "allow_web_wallpapers", Bool(m.allowWeb));
  }

  lemma RefusedLean(m: Moment, refused: nat)
    ensures FieldsLen(RefusedFields(m, false, refused)) == FieldsLen(RefusedFields(m, true, refused))
      + Saved(Take(m.refused, refused) == [], "refused", "[]")
      + Saved(RefusedOmitted(m, refused) == 0, "refused_omitted", "0")
  {
    hide AbsentLen;
    PlainValues();
    WhenSaves(Take(m.refused, refused) == [], "refused", Arr(Take(m.refused, refused)), "[]");
    WhenSaves(RefusedOmitted(m, refused) == 0, "refused_omitted", Num(RefusedOmitted(m, refused)), "0");
    TwoGroups("refused", Arr(Take(m.refused, refused)), "refused_omitted", Num(RefusedOmitted(m, refused)));
  }

  lemma TwoGroups(k: string, v: Json, l: string, w: Json)
    ensures forall a: bool, b: bool :: FieldsLen(When(a, k, v) + When(b, l, w)) == FieldsLen(When(a, k, v)) + FieldsLen(When(b, l, w))
  {
    forall a: bool, b: bool
      ensures FieldsLen(When(a, k, v) + When(b, l, w)) == FieldsLen(When(a, k, v)) + FieldsLen(When(b, l, w))
    {
      FieldsLenAdds(When(a, k, v), When(b, l, w));
    }
  }

  // ---- Listing more of an array's rows ----

  /** What the first `k` rows add to an empty array, with `opening` for its
      key when an empty one is left out. */
  function Added(rows: seq<Json>, k: nat, opening: nat): int
    requires k <= |rows|
  {
    if k == 0 then 0 else opening + ItemsLen(rows[..k]) - 1
  }

  /** What listing `k` of `total` saves in the count of those left out, whose
      key is `count` when a lean reply leaves the count out at 0. */
  function CountSaving(total: nat, k: nat, count: Option<string>): int
    requires k <= total
  {
    if k == 0 then 0
    else if count.Some? && k == total then AbsentLen(count.value, Digits(total))
    else DecimalDigits(total) - DecimalDigits(total - k)
  }

  /** Listing rows of one array changes the size by exactly what is added up:
      the rows and their commas, less the digits, or the key, its count
      loses. */
  ghost predicate ListsExactly(
    m: Moment, rows: seq<Json>, total: nat, leanKeys: Option<(string, string)>, shape: nat -> Shape
  )
  {
    && |rows| <= total
    && forall k: nat :: k <= |rows| ==>
         Size(m, shape(k)) == Size(m, shape(0))
           + Added(rows, k, if leanKeys.Some? then AbsentLen(leanKeys.value.0, "[]") else 0)
           - CountSaving(total, k, if leanKeys.Some? then Some(leanKeys.value.1) else None)
  }

  lemma TabooFieldsMeasured(m: Moment, k: nat)
    requires Valid(m) && k <= |m.taboo|
    ensures FieldsLen(TabooFields(m, k)) == FieldsLen(TabooFields(m, 0))
      + Added(m.taboo, k, 0) - CountSaving(m.tabooTotal, k, None)
  {
    hide EscapedLen, Print;
    forall n: nat | n <= |m.taboo|
      ensures FieldsLen(TabooFields(m, n)) ==
        FieldLen(Field("taboo_entries", Arr(m.taboo[..n]))) + FieldLen(Field("taboo_entries_omitted", Num(m.tabooTotal - n))) + 2
    {
      TwoFields(Field("taboo_entries", Arr(m.taboo[..n])), Field("taboo_entries_omitted", Num(m.tabooTotal - n)));
    }
    ArrayMeasured(m.taboo[..k]);
    ArrayMeasured(m.taboo[..0]);
    DigitsMeasured(m.tabooTotal - k);
    DigitsMeasured(m.tabooTotal);
  }

  lemma TabooListsExactly(m: Moment, shape: Shape)
    requires Valid(m)
    ensures ListsExactly(m, m.taboo, m.tabooTotal, None, (k: nat) => shape.(taboo := k))
  {
    hide Size, FieldsLen, Abridged, FlagFields, Added, CountSaving;
    forall k: nat | k <= |m.taboo|
      ensures Size(m, shape.(taboo := k)) == Size(m, shape.(taboo := 0))
        + Added(m.taboo, k, 0) - CountSaving(m.tabooTotal, k, None)
    {
      TabooFieldsMeasured(m, k);
      var a, b := shape.(taboo := k), shape.(taboo := 0);
      SizeIsASum(m, a);
      SizeIsASum(m, b);
      SameAbridged(m.rows, a, b);
      SameFlags(m, a, b);
    }
  }

  lemma RefusedFieldsMeasured(m: Moment, lean: bool, k: nat)
    requires Valid(m) && k <= |m.refused|
    ensures FieldsLen(RefusedFields(m, lean, k)) == FieldsLen(RefusedFields(m, lean, 0))
      + Added(m.refused, k, if lean then AbsentLen("refused", "[]") else 0)
      - CountSaving(m.refusedTotal, k, if lean then Some("refused_omitted") else None)
  {
    hide EscapedLen, Print;
    if k > 0 {
      var listed, omitted := m.refused[..k], m.refusedTotal - k;
      assert Take(m.refused, k) == listed && RefusedOmitted(m, k) == omitted;
      assert Take(m.refused, 0) == [] && RefusedOmitted(m, 0) == m.refusedTotal;
      TwoGroups("refused", Arr(listed), "refused_omitted", Num(omitted));
      TwoGroups("refused", Arr([]), "refused_omitted", Num(m.refusedTotal));
      OneField("refused", Arr(listed));
      OneField("refused", Arr([]));
      OneField("refused_omitted", Num(omitted));
      OneField("refused_omitted", Num(m.refusedTotal));
      ArrayMeasured(listed);
      ArrayMeasured([]);
      DigitsMeasured(omitted);
      DigitsMeasured(m.refusedTotal);
      RefusedKeys(m);
    }
  }

  lemma RefusedKeys(m: Moment)
    ensures AbsentLen("refused", "[]") == FieldLen(Field("refused", Arr([]))) + 1
    ensures AbsentLen("refused_omitted", Digits(m.refusedTotal)) == FieldLen(Field("refused_omitted", Num(m.refusedTotal))) + 1
  {
    PlainValues();
    AbsentLenIsFieldLen("refused", Arr([]));
    AbsentLenIsFieldLen("refused_omitted", Num(m.refusedTotal));
    assert Print(Num(m.refusedTotal)) == Digits(m.refusedTotal);
  }

  /** The names of the array and of its count, when the reply is lean. */
  function RefusedLeanKeys(lean: bool): Option<(string, string)> {
    if lean then Some(("refused", "refused_omitted")) else None
  }

  lemma RefusedListsExactly(m: Moment, shape: Shape)
    requires Valid(m)
    ensures ListsExactly(m, m.refused, m.refusedTotal, RefusedLeanKeys(shape.lean), (k: nat) => shape.(refused := k))
  {
    hide Size, FieldsLen, Abridged, FlagFields, Added, CountSaving, AbsentLen;
    forall k: nat | k <= |m.refused|
      ensures Size(m, shape.(refused := k)) == Size(m, shape.(refused := 0))
        + Added(m.refused, k, if shape.lean then AbsentLen("refused", "[]") else 0)
        - CountSaving(m.refusedTotal, k, if shape.lean then Some("refused_omitted") else None)
    {
      RefusedFieldsMeasured(m, shape.lean, k);
      var a, b := shape.(refused := k), shape.(refused := 0);
      SizeIsASum(m, a);
      SizeIsASum(m, b);
      SameAbridged(m.rows, a, b);
      SameFlags(m, a, b);
    }
  }

  // ---- Giving a whole array back ----

  /** What an array adds to `[]`. */
  function ArrayCost(items: seq<Json>): nat {
    if WireLen(Arr(items)) < 2 then 0 else WireLen(Arr(items)) - 2
  }

  lemma ArraysGivenBack(m: Moment, shape: Shape, outputs: bool, missing: MissingDetail)
    requires Valid(m)
    ensures Size(m, shape.(outputs := outputs, missing := missing)) ==
      Size(m, shape.(outputs := false, missing := Left))
      + (if outputs then ArrayCost(m.outputs) else 0) + ArrayCost(MissingRows(m, missing))
  {
    hide Size, FieldsLen, Abridged, FlagFields, MissingRows;
    var a, b := shape.(outputs := outputs, missing := missing), shape.(outputs := false, missing := Left);
    SizeIsASum(m, a);
    SizeIsASum(m, b);
    SameAbridged(m.rows, a, b);
    SameFlags(m, a, b);
    NothingMissing(m);
    GivenBack("outputs", if outputs then m.outputs else []);
    GivenBack("missing_renderers", MissingRows(m, missing));
  }

  lemma NothingMissing(m: Moment)
    ensures MissingRows(m, Left) == []
    ensures ArrayCost([]) == 0
  {
    ArrayMeasured([]);
  }

  lemma GivenBack(key: string, items: seq<Json>)
    ensures FieldsLen([Field(key, Arr(items))]) == FieldsLen([Field(key, Arr([]))]) + ArrayCost(items)
  {
    OneField(key, Arr(items));
    OneField(key, Arr([]));
    ArrayMeasured(items);
    ArrayMeasured([]);
  }

  // ---- What the rows leave out ----

  lemma {:induction false} RowsCostUpdate(rows: seq<Row>, i: nat, row: Row, lean: bool)
    requires i < |rows|
    ensures RowsCost(rows[i := row], lean) == RowsCost(rows, lean) - RowCost(rows[i], lean) + RowCost(row, lean)
    decreases |rows|
  {
    hide RowCost;
    if i > 0 {
      RowsCostUpdate(rows[1..], i - 1, row, lean);
      assert rows[i := row][1..] == rows[1..][i - 1 := row];
    } else {
      assert rows[i := row][1..] == rows[1..];
    }
  }

  lemma RuleIdCost(row: Row, id: string, lean: bool)
    requires row.opening != [] && row.scheduleRuleId == Some(id)
    ensures RowCost(row, lean) == RowCost(row.(scheduleRuleId := None), lean) + UnitLen(id)
  {
    hide FieldsLen, RowCost;
    RowIsASum(row, lean);
    RowIsASum(row.(scheduleRuleId := None), lean);
    FieldCost("schedule_rule_id", id, Null);
  }

  lemma ErrorCost(row: Row, lean: bool)
    requires row.opening != []
    ensures RowCost(row, lean) == RowCost(row.(lastError := ""), lean) + UnitLen(row.lastError)
  {
    hide FieldsLen, RowCost;
    RowIsASum(row, lean);
    RowIsASum(row.(lastError := ""), lean);
    FieldCost("last_error", row.lastError, Str(""));
  }

  lemma FieldCost(key: string, text: string, left: Json)
    requires left == Null || left == Str("")
    ensures FieldsLen([Field(key, Str(text))]) == FieldsLen([Field(key, left)]) + UnitLen(text)
  {
    hide EscapedLen;
    OneField(key, Str(text));
    OneField(key, left);
    StringMeasured(text);
    LiteralsMeasured();
  }

  ghost predicate Distinct(units: seq<Unit>) {
    forall i, j :: 0 <= i < j < |units| ==> units[i].index != units[j].index
  }

  ghost predicate AreRuleUnits(rows: seq<Row>, units: seq<Unit>) {
    && Distinct(units)
    && forall u :: u in units ==>
         && u.index < |rows| && rows[u.index].scheduleRuleId.Some?
         && u.cost == UnitLen(rows[u.index].scheduleRuleId.value)
  }

  ghost predicate AreErrorUnits(rows: seq<Row>, units: seq<Unit>) {
    && Distinct(units)
    && forall u :: u in units ==> u.index < |rows| && u.cost == UnitLen(rows[u.index].lastError)
  }

  lemma {:induction false} ClearRulesCost(rows: seq<Row>, units: seq<Unit>, lean: bool)
    requires Opened(rows) && AreRuleUnits(rows, units)
    ensures RowsCost(ClearRules(rows, units), lean) + Cost(units) == RowsCost(rows, lean)
    ensures Opened(ClearRules(rows, units))
    ensures forall i :: 0 <= i < |rows| && (forall u :: u in units ==> u.index != i) ==> ClearRules(rows, units)[i] == rows[i]
    decreases |units|
  {
    hide RowsCost, RowCost, UnitLen;
    if units != [] {
      var i := units[0].index;
      var cleared := rows[i := rows[i].(scheduleRuleId := None)];
      RuleIdCost(rows[i], rows[i].scheduleRuleId.value, lean);
      RowsCostUpdate(rows, i, cleared[i], lean);
      assert units[0] in units;
      assert forall u :: u in units[1..] ==> u in units && u.index != i;
      ClearRulesCost(cleared, units[1..], lean);
    }
  }

  lemma {:induction false} ClearErrorsCost(rows: seq<Row>, units: seq<Unit>, lean: bool)
    requires Opened(rows) && AreErrorUnits(rows, units)
    ensures RowsCost(ClearErrors(rows, units), lean) + Cost(units) == RowsCost(rows, lean)
    ensures Opened(ClearErrors(rows, units))
    ensures forall i :: 0 <= i < |rows| && (forall u :: u in units ==> u.index != i) ==> ClearErrors(rows, units)[i] == rows[i]
    decreases |units|
  {
    hide RowsCost, RowCost, UnitLen;
    if units != [] {
      var i := units[0].index;
      var cleared := rows[i := rows[i].(lastError := "")];
      ErrorCost(rows[i], lean);
      RowsCostUpdate(rows, i, cleared[i], lean);
      assert units[0] in units;
      assert forall u :: u in units[1..] ==> u in units && u.index != i;
      ClearErrorsCost(cleared, units[1..], lean);
    }
  }

  lemma RuleUnitsFit(rows: seq<Row>, group: nat, count: nat)
    ensures AreRuleUnits(rows, Dropped(RuleUnits(rows, group, |rows|), count))
    ensures forall u :: u in Dropped(RuleUnits(rows, group, |rows|), count) ==> GroupOf(rows[u.index]) == group
  {
    hide UnitLen;
    var units := RuleUnits(rows, group, |rows|);
    forall i, j | 0 <= i < j < |units|
      ensures units[i].index != units[j].index
    {
      assert units[i] in units && units[j] in units;
    }
  }

  lemma ErrorUnitsFit(rows: seq<Row>, group: nat, count: nat)
    ensures AreErrorUnits(rows, Dropped(ErrorUnits(rows, group, |rows|), count))
    ensures forall u :: u in Dropped(ErrorUnits(rows, group, |rows|), count) ==> GroupOf(rows[u.index]) == group
  {
    hide UnitLen;
    var units := ErrorUnits(rows, group, |rows|);
    forall i, j | 0 <= i < j < |units|
      ensures units[i].index != units[j].index
    {
      assert units[i] in units && units[j] in units;
    }
  }

  /** What the rows' ids and errors left out would take. */
  function RuleOut(rows: seq<Row>, detail: RowDetail): nat {
    Cost(Dropped(RuleUnits(rows, 0, |rows|), detail.ruleIds.connected))
    + Cost(Dropped(RuleUnits(rows, 1, |rows|), detail.ruleIds.others))
  }

  function RowErrorOut(rows: seq<Row>, detail: RowDetail): nat {
    Cost(Dropped(ErrorUnits(rows, 0, |rows|), detail.errors.connected))
    + Cost(Dropped(ErrorUnits(rows, 1, |rows|), detail.errors.others))
  }

  function SummaryErrorOut(m: Moment, detail: RowDetail): nat {
    (if detail.lastError then 0 else UnitLen(m.lastError))
    + if detail.discoveryError then 0 else UnitLen(m.discoveryError)
  }

  lemma StandInsKept(rows: seq<Row>)
    requires Opened(rows)
    ensures Opened(ClearStandIns(rows))
    ensures forall i :: 0 <= i < |rows| ==> ClearStandIns(rows)[i] == rows[i].(standInFor := None)
  {
  }

  lemma SameRuleUnits(a: seq<Row>, b: seq<Row>, units: seq<Unit>)
    requires |a| == |b| && AreRuleUnits(a, units)
    requires forall u :: u in units ==> u.index < |a| && a[u.index].scheduleRuleId == b[u.index].scheduleRuleId
    ensures AreRuleUnits(b, units)
  {
  }

  lemma SameErrorUnits(a: seq<Row>, b: seq<Row>, units: seq<Unit>)
    requires |a| == |b| && AreErrorUnits(a, units)
    requires forall u :: u in units ==> u.index < |a| && a[u.index].lastError == b[u.index].lastError
    ensures AreErrorUnits(b, units)
  {
  }

  lemma AbridgedCost(rows: seq<Row>, shape: Shape, lean: bool)
    requires Opened(rows)
    ensures RowsCost(Abridged(rows, shape), lean) + RuleOut(rows, shape.rows) + RowErrorOut(rows, shape.rows)
         == RowsCost(if shape.standInFor then rows else ClearStandIns(rows), lean)
  {
    hide RowsCost, RuleUnits, ErrorUnits, Cost, Dropped, AreRuleUnits, AreErrorUnits, ClearRules, ClearErrors;
    var n := |rows|;
    StandInsKept(rows);
    var r0 := if shape.standInFor then rows else ClearStandIns(rows);
    var d0 := Dropped(RuleUnits(rows, 0, n), shape.rows.ruleIds.connected);
    var e0 := Dropped(ErrorUnits(rows, 0, n), shape.rows.errors.connected);
    var d1 := Dropped(RuleUnits(rows, 1, n), shape.rows.ruleIds.others);
    var e1 := Dropped(ErrorUnits(rows, 1, n), shape.rows.errors.others);
    RuleUnitsFit(rows, 0, shape.rows.ruleIds.connected);
    ErrorUnitsFit(rows, 0, shape.rows.errors.connected);
    RuleUnitsFit(rows, 1, shape.rows.ruleIds.others);
    ErrorUnitsFit(rows, 1, shape.rows.errors.others);
    UnitsInRange(rows, d0, d1, e0, e1);
    SameRuleUnits(rows, r0, d0);
    ClearRulesCost(r0, d0, lean);
    ClearRulesKeeps(r0, d0);
    var r1 := ClearRules(r0, d0);
    SameErrorUnits(rows, r1, e0);
    ClearErrorsCost(r1, e0, lean);
    ClearErrorsKeeps(r1, e0);
    var r2 := ClearErrors(r1, e0);
    SameRuleUnits(rows, r2, d1);
    ClearRulesCost(r2, d1, lean);
    ClearRulesKeeps(r2, d1);
    var r3 := ClearRules(r2, d1);
    SameErrorUnits(rows, r3, e1);
    ClearErrorsCost(r3, e1, lean);
  }

  lemma UnitsInRange(rows: seq<Row>, d0: seq<Unit>, d1: seq<Unit>, e0: seq<Unit>, e1: seq<Unit>)
    requires AreRuleUnits(rows, d0) && AreRuleUnits(rows, d1) && AreErrorUnits(rows, e0) && AreErrorUnits(rows, e1)
    ensures forall u :: u in d0 || u in d1 || u in e0 || u in e1 ==> u.index < |rows|
  {
  }

  /** Leaving units of the rows and of the summary out makes the reply shorter
      by exactly what they were measured at, and longer by the flags that say
      so. */
  lemma RowDetailIsExact(m: Moment, shape: Shape)
    requires Valid(m)
    ensures Size(m, shape)
            + RuleOut(m.rows, shape.rows) + RowErrorOut(m.rows, shape.rows) + SummaryErrorOut(m, shape.rows)
         == Size(m, shape.(rows := WHOLE_ROWS))
            + (if OmitsRuleId(m.rows, shape.rows) then AbsentLen("schedule_rule_id_omitted", "true") else 0)
            + (if OmitsDiagnostic(m, shape.rows) then AbsentLen("diagnostics_omitted", "true") else 0)
  {
    hide Size, FieldsLen, RowsCost, Abridged, RuleOut, RowErrorOut, SummaryErrorOut, FlagFields,
      OmitsRuleId, OmitsDiagnostic, SummaryErrors, RowsJson, AbsentLen;
    var whole := shape.(rows := WHOLE_ROWS);
    SizeIsASum(m, shape);
    SizeIsASum(m, whole);
    AbridgedCost(m.rows, shape, shape.lean);
    AbridgedCost(m.rows, whole, shape.lean);
    WholeDropsNothing(m);
    DisplaysMeasured(Abridged(m.rows, shape), shape.lean);
    DisplaysMeasured(Abridged(m.rows, whole), shape.lean);
    SummaryMeasured(m, shape.rows);
    FlagsMeasured(m, shape);
    FlagsMeasured(m, whole);
    NoRowsNothingOut(m.rows, shape.rows);
  }

  lemma NoRowsNothingOut(rows: seq<Row>, detail: RowDetail)
    ensures rows == [] ==> RuleOut(rows, detail) == 0 && RowErrorOut(rows, detail) == 0
    ensures |rows| > 0 ==> rows != []
  {
  }

  lemma WholeDropsNothing(m: Moment)
    requires Valid(m)
    ensures RuleOut(m.rows, WHOLE_ROWS) == 0 && RowErrorOut(m.rows, WHOLE_ROWS) == 0
    ensures SummaryErrorOut(m, WHOLE_ROWS) == 0
    ensures !OmitsRuleId(m.rows, WHOLE_ROWS) && !OmitsDiagnostic(m, WHOLE_ROWS)
  {
  }

  lemma SummaryMeasured(m: Moment, detail: RowDetail)
    ensures FieldsLen(SummaryErrors(m, detail)) + SummaryErrorOut(m, detail) == FieldsLen(SummaryErrors(m, WHOLE_ROWS))
  {
    hide FieldLen, UnitLen;
    forall d: RowDetail
      ensures FieldsLen(SummaryErrors(m, d)) ==
        FieldsLen([Field("last_error", Str(if d.lastError then m.lastError else ""))])
        + FieldsLen([Field("output_discovery_error", Str(if d.discoveryError then m.discoveryError else ""))])
    {
      var a := Field("last_error", Str(if d.lastError then m.lastError else ""));
      var b := Field("output_discovery_error", Str(if d.discoveryError then m.discoveryError else ""));
      FieldsLenAdds([a], [b]);
      assert [a] + [b] == SummaryErrors(m, d);
    }
    FieldCost("last_error", m.lastError, Str(""));
    FieldCost("output_discovery_error", m.discoveryError, Str(""));
  }

  lemma FlagsMeasured(m: Moment, shape: Shape)
    ensures FieldsLen(FlagFields(m, shape)) ==
      (if OmitsStandIn(m, shape) then AbsentLen("stand_in_for_omitted", "true") else 0)
      + (if OmitsRuleId(m.rows, shape.rows) then AbsentLen("schedule_rule_id_omitted", "true") else 0)
      + (if OmitsDiagnostic(m, shape.rows) then AbsentLen("diagnostics_omitted", "true") else 0)
  {
    hide FieldLen, AbsentLen, OmitsStandIn, OmitsRuleId, OmitsDiagnostic;
    var a := When(OmitsStandIn(m, shape), "stand_in_for_omitted", Bool(true));
    var b := When(OmitsRuleId(m.rows, shape.rows), "schedule_rule_id_omitted", Bool(true));
    var c := When(OmitsDiagnostic(m, shape.rows), "diagnostics_omitted", Bool(true));
    FieldsLenAdds(a, b + c);
    FieldsLenAdds(b, c);
    assert Print(Bool(true)) == "true";
    OneField("stand_in_for_omitted", Bool(true));
    OneField("schedule_rule_id_omitted", Bool(true));
    OneField("diagnostics_omitted", Bool(true));
  }
}
