/** Which shape of a status is the smallest, and whether the service tries one
    as small: so whether a reply fits whenever some shape would. */
module SmallestShape {
  import opened Common
  import opened Wire
  import opened Status
  import opened StatusSizes
  import opened ReplyParts
  import opened AbridgedFloor
  import opened StatusReply

  const STAND_IN_FLAG := "stand_in_for_omitted"

  /** What is left with every piece of the rows and every stand-in out. */
  const BARE := FLOOR.(rows := NO_ROWS)

  const TRIED := [WHOLE, LEAN, PLAIN, WITHOUT_OUTPUTS, FLOOR, BARE]

  ghost predicate IsRefusedRow(j: Json) {
    exists item, web, reason ::
      j == Obj([Field("scene_id", Str(item)), Field("web_page", Bool(web)), Field("reason", Str(reason))])
  }

  /** A moment as the service makes it: its records are objects, its refused
      rows the three fields they have. */
  ghost predicate Made(m: Moment) {
    && Consistent(m)
    && (forall i :: 0 <= i < |m.taboo| ==> m.taboo[i].Obj?)
    && (forall i :: 0 <= i < |m.refused| ==> IsRefusedRow(m.refused[i]))
  }

  // ---- What each kind of pieces changes, all back against all out ----

  /** The stand-ins of the rows and the summary. */
  function StandInsLen(m: Moment): int {
    RowsCost(m.rows, true) - RowsCost(ClearStandIns(m.rows), true)
    + FieldsLen(When(m.standInFor.Some?, "stand_in_for", Nullable(m.standInFor)))
  }

  predicate HasStandIn(m: Moment) {
    exists i :: 0 <= i < |m.rows| && m.rows[i].standInFor.Some?
  }

  /** All stand-ins, less the flag for leaving them out. */
  function StandInChange(m: Moment): int {
    StandInsLen(m) - if HasStandIn(m) then AbsentLen(STAND_IN_FLAG, "true") else 0
  }

  /** All ids of rules, less their flag. */
  function IdChange(m: Moment): int {
    IdsOut(m, NO_ROWS) - Price(IdsOut(m, NO_ROWS), RULE_FLAG)
  }

  /** All errors, less their flag. */
  function ErrorChange(m: Moment): int {
    DiagnosticsOut(m, NO_ROWS) - Price(DiagnosticsOut(m, NO_ROWS), ERROR_FLAG)
  }

  function Below(change: int): int {
    if change < 0 then change else 0
  }

  /** The shape with each kind back exactly where that takes less. */
  function Best(m: Moment): Shape {
    var ids := if IdChange(m) < 0 then MANY else 0;
    var errors := if ErrorChange(m) < 0 then MANY else 0;
    BARE.(
      rows := RowDetail(Counts(ids, ids), Counts(errors, errors), ErrorChange(m) < 0, ErrorChange(m) < 0),
      standInFor := StandInChange(m) < 0)
  }

  // ---- The parts of a size ----

  lemma {:induction false} RowsWithoutStandIns(rows: seq<Row>)
    requires Opened(rows)
    ensures RowsCost(ClearStandIns(rows), true) <= RowsCost(rows, true)
  {
    hide FieldsLen, RowCost, RowBase;
    if rows != [] {
      RowsWithoutStandIns(rows[1..]);
      assert ClearStandIns(rows)[1..] == ClearStandIns(rows[1..]);
      RowIsASum(rows[0], true);
      RowIsASum(rows[0].(standInFor := None), true);
      NothingWhenAbsent(rows[0]);
    }
  }

  lemma NothingWhenAbsent(row: Row)
    ensures FieldsLen(When(false, "stand_in_for", Null)) == 0
    ensures RowBase(row.(standInFor := None)) == RowBase(row)
  {
  }

  lemma StandInsMeasured(m: Moment, shape: Shape)
    requires Valid(m) && shape.lean
    ensures Size(m, shape.(standInFor := true)) == Size(m, shape.(standInFor := false)) + StandInChange(m)
  {
    hide Size, FieldsLen, RowsCost, Abridged, RuleOut, RowErrorOut, FlagFields, OmitsRuleId, OmitsDiagnostic, SummaryErrors,
      RowsJson, AbsentLen, ClearStandIns, TabooFields, RefusedFields, QuietFields, OverrideFields;
    var a, b := shape.(standInFor := true), shape.(standInFor := false);
    SizeIsASum(m, a);
    SizeIsASum(m, b);
    AbridgedCost(m.rows, a, true);
    AbridgedCost(m.rows, b, true);
    DisplaysMeasured(Abridged(m.rows, a), true);
    DisplaysMeasured(Abridged(m.rows, b), true);
    FlagsMeasured(m, a);
    FlagsMeasured(m, b);
    NoneOfNoRows(m, a);
    NoSummaryStandIn(m);
  }

  lemma NoSummaryStandIn(m: Moment)
    ensures FieldsLen(When(false, "stand_in_for", Nullable(m.standInFor))) == 0
  {
  }

  lemma NoneOfNoRows(m: Moment, shape: Shape)
    ensures m.rows == [] ==>
      RowsCost(m.rows, true) == 0 && RowsCost(ClearStandIns(m.rows), true) == 0
      && RuleOut(m.rows, shape.rows) == 0 && RowErrorOut(m.rows, shape.rows) == 0
    ensures Abridged(m.rows, shape) == [] <==> m.rows == []
  {
  }

  // ---- Listed rows only add ----

  lemma {:induction false} DigitsDrop(total: nat, k: nat)
    requires k <= total
    ensures DecimalDigits(total) <= DecimalDigits(total - k) + k
    decreases k
  {
    if k > 0 {
      DigitsDrop(total - 1, k - 1);
      OneMoreDigit(total - 1);
    }
  }

  lemma {:induction false} OneMoreDigit(n: nat)
    ensures DecimalDigits(n + 1) <= DecimalDigits(n) + 1
  {
    if n + 1 >= 10 && n >= 10 {
      if (n + 1) / 10 == n / 10 + 1 {
        OneMoreDigit(n / 10);
      }
    }
  }

  lemma {:induction false} FewDigits(n: nat)
    requires n < 100
    ensures DecimalDigits(n) <= 2
  {
  }

  lemma ObjectTakesTwo(j: Json)
    requires j.Obj?
    ensures WireLen(j) >= 2
  {
    EscapedIsNoShorter(Print(j));
  }

  lemma RefusedRowTakes(j: Json)
    requires IsRefusedRow(j)
    ensures WireLen(j) >= 20
  {
    var item, web, reason :|
      j == Obj([Field("scene_id", Str(item)), Field("web_page", Bool(web)), Field("reason", Str(reason))]);
    EscapedIsNoShorter(Print(j));
    var fields := [Field("scene_id", Str(item)), Field("web_page", Bool(web)), Field("reason", Str(reason))];
    assert Print(j) == "{" + PrintFields(fields) + "}";
    assert PrintFields(fields) == PrintField(fields[0]) + "," + PrintFields(fields[1..]);
    assert fields[1..][0] == fields[1];
    assert PrintFields(fields[1..]) == PrintField(fields[1]) + "," + PrintFields(fields[1..][1..]);
    assert |PrintField(fields[0])| >= 11 && |PrintField(fields[1])| >= 11;
  }

  lemma {:induction false} ItemsTake(items: seq<Json>, each: nat)
    requires forall i :: 0 <= i < |items| ==> WireLen(items[i]) >= each
    ensures ItemsLen(items) >= |items| * (each + 1)
  {
    hide WireLen;
    if items != [] {
      ItemsTake(items[1..], each);
      assert |items| * (each + 1) == (|items| - 1) * (each + 1) + each + 1;
    }
  }

  /** Any number of taboo records takes at least what none does. */
  lemma TabooOnlyAdds(m: Moment, shape: Shape)
    requires Made(m)
    ensures Size(m, shape.(taboo := 0)) <= Size(m, shape)
  {
    hide Size, Added, CountSaving, WireLen, ItemsLen, DecimalDigits, TabooFields;
    var k := if shape.taboo <= |m.taboo| then shape.taboo else |m.taboo|;
    SameTaken(m, shape, k);
    TabooListsExactly(m, shape);
    var listed := (n: nat) => shape.(taboo := n);
    assert Size(m, listed(k)) == Size(m, listed(0)) + Added(m.taboo, k, 0) - CountSaving(m.tabooTotal, k, None);
    if k > 0 {
      forall i | 0 <= i < k
        ensures WireLen(m.taboo[..k][i]) >= 2
      {
        ObjectTakesTwo(m.taboo[i]);
      }
      ItemsTake(m.taboo[..k], 2);
      DigitsDrop(m.tabooTotal, k);
    }
    AddedIs(m.taboo, k, 0);
    SavingIs(m.tabooTotal, k, None);
  }

  lemma AddedIs(rows: seq<Json>, k: nat, opening: nat)
    requires k <= |rows|
    ensures Added(rows, k, opening) == if k == 0 then 0 else opening + ItemsLen(rows[..k]) - 1
  {
  }

  lemma SavingIs(total: nat, k: nat, count: Option<string>)
    requires k <= total
    ensures CountSaving(total, k, count) ==
      if k == 0 then 0
      else if count.Some? && k == total then AbsentLen(count.value, Digits(total))
      else DecimalDigits(total) - DecimalDigits(total - k)
  {
  }

  lemma SameTaken(m: Moment, shape: Shape, k: nat)
    requires Valid(m) && k == if shape.taboo <= |m.taboo| then shape.taboo else |m.taboo|
    ensures Size(m, shape.(taboo := k)) == Size(m, shape)
  {
    hide Size, FieldsLen, Abridged, FlagFields, RefusedFields;
    assert Take(m.taboo, k) == Take(m.taboo, shape.taboo);
    SizeIsASum(m, shape);
    SizeIsASum(m, shape.(taboo := k));
    SameAbridged(m.rows, shape, shape.(taboo := k));
    SameFlags(m, shape, shape.(taboo := k));
  }

  lemma SameRefused(m: Moment, shape: Shape, k: nat)
    requires Valid(m) && k == if shape.refused <= |m.refused| then shape.refused else |m.refused|
    ensures Size(m, shape.(refused := k)) == Size(m, shape)
  {
    hide Size, FieldsLen, Abridged, FlagFields, TabooFields;
    assert Take(m.refused, k) == Take(m.refused, shape.refused);
    SizeIsASum(m, shape);
    SizeIsASum(m, shape.(refused := k));
    SameAbridged(m.rows, shape, shape.(refused := k));
    SameFlags(m, shape, shape.(refused := k));
  }

  /** Any refused rows take more than none do. */
  lemma RefusedOnlyAdd(m: Moment, shape: Shape)
    requires Made(m) && shape.lean
    ensures Size(m, shape.(refused := 0)) <= Size(m, shape)
    ensures shape.refused > 0 && m.refused != [] ==> Size(m, shape.(refused := 0)) < Size(m, shape)
  {
    hide Size, Added, CountSaving, WireLen, ItemsLen, DecimalDigits, RefusedFields, AbsentLen, Digits;
    var k := if shape.refused <= |m.refused| then shape.refused else |m.refused|;
    SameRefused(m, shape, k);
    RefusedListsExactly(m, shape);
    var listed := (n: nat) => shape.(refused := n);
    assert Size(m, listed(k)) ==
      Size(m, listed(0)) + Added(m.refused, k, AbsentLen("refused", "[]")) - CountSaving(m.refusedTotal, k, Some("refused_omitted"));
    AddedIs(m.refused, k, AbsentLen("refused", "[]"));
    SavingIs(m.refusedTotal, k, Some("refused_omitted"));
    if k > 0 {
      RefusedRowsTake(m, k);
      SavedByListing(m.refusedTotal, k);
      RefusedKeyTakes();
    }
  }

  lemma RefusedRowsTake(m: Moment, k: nat)
    requires Made(m) && 0 < k <= |m.refused|
    ensures ItemsLen(m.refused[..k]) >= 20 + k
  {
    hide WireLen;
    forall i | 0 <= i < k
      ensures WireLen(m.refused[..k][i]) >= 20
    {
      RefusedRowTakes(m.refused[i]);
    }
    ItemsTake(m.refused[..k], 20);
  }

  lemma SavedByListing(total: nat, k: nat)
    requires 0 < k <= total && k <= MAX_REFUSED
    ensures CountSaving(total, k, Some("refused_omitted")) <= 23 + k
  {
    hide AbsentLen, DecimalDigits, Digits;
    DigitsDrop(total, k);
    if k == total {
      CountKeyTakes(total);
    }
  }

  lemma RefusedKeyTakes()
    ensures AbsentLen("refused", "[]") >= 15
  {
    PlainName("refused");
    PlainKeyTakes("refused", "[]");
    EscapedIsNoShorter("[]");
  }

  /** The count's key, at two digits at most. */
  lemma CountKeyTakes(total: nat)
    requires total < 100
    ensures AbsentLen("refused_omitted", Digits(total)) <= 23
  {
    hide DecimalDigits, Digits;
    DigitsMeasured(total);
    FewDigits(total);
    PlainName("refused_omitted");
    PlainKeyTakes("refused_omitted", Digits(total));
  }

  // ---- The smallest shape ----

  /** What a detail of the rows takes beside none of them. */
  function RowsPart(m: Moment, detail: RowDetail): int {
    IdsOut(m, NO_ROWS) - IdsOut(m, detail) + Price(IdsOut(m, detail), RULE_FLAG) - Price(IdsOut(m, NO_ROWS), RULE_FLAG)
    + DiagnosticsOut(m, NO_ROWS) - DiagnosticsOut(m, detail)
    + Price(DiagnosticsOut(m, detail), ERROR_FLAG) - Price(DiagnosticsOut(m, NO_ROWS), ERROR_FLAG)
  }

  lemma {:induction false} DroppedIsLess(units: seq<Unit>, count: nat)
    ensures Cost(Dropped(units, count)) <= Cost(Dropped(units, 0))
    decreases count
  {
    if 0 < count <= |units| {
      DroppedIsLess(units, count - 1);
      DroppedLess(units, count - 1);
    }
  }

  lemma LessIsOut(m: Moment, detail: RowDetail)
    ensures IdsOut(m, detail) <= IdsOut(m, NO_ROWS) && DiagnosticsOut(m, detail) <= DiagnosticsOut(m, NO_ROWS)
  {
    hide UnitLen, RuleUnits, ErrorUnits, Cost, Dropped;
    DroppedIsLess(RuleUnits(m.rows, 0, |m.rows|), detail.ruleIds.connected);
    DroppedIsLess(RuleUnits(m.rows, 1, |m.rows|), detail.ruleIds.others);
    DroppedIsLess(ErrorUnits(m.rows, 0, |m.rows|), detail.errors.connected);
    DroppedIsLess(ErrorUnits(m.rows, 1, |m.rows|), detail.errors.others);
  }

  lemma RowsPartIsAtLeast(m: Moment, detail: RowDetail)
    ensures RowsPart(m, detail) >= Below(IdChange(m)) + Below(ErrorChange(m))
  {
    hide IdsOut, DiagnosticsOut, AbsentLen;
    LessIsOut(m, detail);
  }

  lemma RowsPartIs(m: Moment)
    requires Valid(m)
    ensures RowsPart(m, NO_ROWS) == 0
    ensures RowsPart(m, WHOLE_ROWS) == IdChange(m) + ErrorChange(m)
    ensures RowsPart(m, Best(m).rows) == Below(IdChange(m)) + Below(ErrorChange(m))
  {
    hide RuleOut, RowErrorOut, SummaryErrorOut, AbsentLen;
    WholeDropsNothing(m);
    OutByKind(m.rows, Best(m).rows, if IdChange(m) < 0 then WHOLE_ROWS else NO_ROWS, if ErrorChange(m) < 0 then WHOLE_ROWS else NO_ROWS);
    SummaryOutByKind(m, Best(m).rows, if ErrorChange(m) < 0 then WHOLE_ROWS else NO_ROWS);
  }

  lemma OutByKind(rows: seq<Row>, detail: RowDetail, ids: RowDetail, errors: RowDetail)
    requires detail.ruleIds == ids.ruleIds && detail.errors == errors.errors
    ensures RuleOut(rows, detail) == RuleOut(rows, ids) && RowErrorOut(rows, detail) == RowErrorOut(rows, errors)
  {
  }

  lemma SummaryOutByKind(m: Moment, detail: RowDetail, errors: RowDetail)
    requires detail.lastError == errors.lastError && detail.discoveryError == errors.discoveryError
    ensures SummaryErrorOut(m, detail) == SummaryErrorOut(m, errors)
  {
  }

  lemma FloorOfRows(m: Moment, shape: Shape, detail: RowDetail)
    requires Valid(m)
    ensures Size(m, shape.(rows := detail)) == Size(m, shape.(rows := NO_ROWS)) + RowsPart(m, detail)
  {
    hide Size, IdsOut, DiagnosticsOut, AbsentLen;
    DetailSize(m, shape, detail);
    DetailSize(m, shape, NO_ROWS);
  }

  /** What a lean shape takes beside the bare one, of rows and stand-ins. */
  lemma WithoutLists(m: Moment, shape: Shape)
    requires Valid(m) && shape == BARE.(rows := shape.rows, standInFor := shape.standInFor)
    ensures Size(m, shape) == Size(m, BARE) + RowsPart(m, shape.rows) + if shape.standInFor then StandInChange(m) else 0
  {
    hide Size, RowsPart, StandInChange;
    StandInsMeasured(m, shape);
    FloorOfRows(m, BARE, shape.rows);
    assert shape.(standInFor := false) == BARE.(rows := shape.rows);
    assert BARE.(rows := NO_ROWS) == BARE;
  }

  /** Every shape takes at least what its rows and stand-ins do; one that lists
      refused rows takes more. */
  lemma EveryShapeTakes(m: Moment, shape: Shape)
    requires Made(m)
    ensures var least := Size(m, BARE) + RowsPart(m, shape.rows) + if shape.standInFor then StandInChange(m) else 0;
      Size(m, shape) >= least && (shape.refused > 0 && m.refused != [] ==> Size(m, shape) > least)
  {
    hide Size, RowsPart, StandInChange, LeanSaving, ArrayCost, Made;
    assert Valid(m) by { MadeIsValid(m); }
    LeanSavingIsExact(m, shape);
    var lean := shape.(lean := true);
    assert shape == lean || shape == shape.(lean := false);
    TabooOnlyAdds(m, lean);
    var bare := lean.(taboo := 0);
    RefusedOnlyAdd(m, bare);
    var less := bare.(refused := 0);
    ArraysGivenBack(m, less, less.outputs, less.missing);
    assert less.(outputs := less.outputs, missing := less.missing) == less;
    WithoutLists(m, less.(outputs := false, missing := Left));
  }

  lemma MadeIsValid(m: Moment)
    requires Made(m)
    ensures Valid(m) && Consistent(m)
  {
  }

  /** The smallest shape of all: each kind back exactly where that takes less
      than its flag. */
  lemma BestIsSmallest(m: Moment, shape: Shape)
    requires Made(m)
    ensures Size(m, Best(m)) == Size(m, BARE) + Below(IdChange(m)) + Below(ErrorChange(m)) + Below(StandInChange(m))
    ensures Size(m, Best(m)) <= Size(m, shape)
  {
    hide Size, RowsPart, StandInChange, IdChange, ErrorChange, Made;
    MadeIsValid(m);
    EveryShapeTakes(m, shape);
    RowsPartIsAtLeast(m, shape.rows);
    RowsPartIs(m);
    WithoutLists(m, Best(m));
  }

  /** The bare floor is the smallest reply exactly when no kind has pieces that
      take less than the flag for leaving them out. */
  lemma NoRowsIsSmallest(m: Moment)
    requires Made(m)
    ensures (forall shape :: Size(m, BARE) <= Size(m, shape)) <==>
      IdChange(m) >= 0 && ErrorChange(m) >= 0 && StandInChange(m) >= 0
  {
    hide Size, StandInChange, IdChange, ErrorChange, Made, Best;
    BestIsSmallest(m, BARE);
    forall shape: Shape
      ensures Size(m, Best(m)) <= Size(m, shape)
    {
      BestIsSmallest(m, shape);
    }
    assert Size(m, BARE) <= Size(m, Best(m)) <==> IdChange(m) >= 0 && ErrorChange(m) >= 0 && StandInChange(m) >= 0;
  }

  // ---- Whether the reply fits when some shape does ----

  /** A reply fits whenever some shape of it would. */
  ghost predicate FitsWheneverSome(m: Moment) {
    (exists shape :: Fits(m, shape)) ==> SomeTriedFits(m)
  }

  /** The service tries a smallest shape: stand-ins take their flag, and ids
      and errors both do or both don't, being tried together. */
  predicate TriesASmallest(m: Moment) {
    && StandInChange(m) >= 0
    && !(IdChange(m) < 0 < ErrorChange(m)) && !(ErrorChange(m) < 0 < IdChange(m))
  }

  lemma TriedWhenSmallest(m: Moment)
    requires Made(m) && TriesASmallest(m)
    ensures FitsWheneverSome(m)
  {
    hide Size, StandInChange, IdChange, ErrorChange, Made, Best, RowsPart;
    MadeIsValid(m);
    forall shape: Shape | Fits(m, shape)
      ensures SomeTriedFits(m)
    {
      BestIsSmallest(m, shape);
      RowsPartIs(m);
      WithoutLists(m, FLOOR);
    }
  }

  /** The same status with one more text in it, of so many bytes. */
  function Padded(m: Moment, bytes: nat): Moment {
    m.(opening := m.opening + [Field("padding", Str(Filler(bytes)))])
  }

  function Filler(bytes: nat): string {
    if bytes == 0 then "" else "a" + Filler(bytes - 1)
  }

  /** What the text's field takes, empty. */
  const PADDING := FieldLen(Field("padding", Str(""))) + 1

  lemma {:induction false} FillerTakes(bytes: nat)
    ensures Escape(Filler(bytes)) == Filler(bytes) && EscapedLen(Filler(bytes)) == bytes
  {
    if bytes > 0 {
      FillerTakes(bytes - 1);
      assert Filler(bytes)[1..] == Filler(bytes - 1);
    }
  }

  lemma PaddedSize(m: Moment, bytes: nat, shape: Shape)
    requires m.opening != []
    ensures Size(Padded(m, bytes), shape) == Size(m, shape) + PADDING + bytes
  {
    hide Size, FieldsLen, Abridged, FlagFields, EscapedLen, TabooFields, RefusedFields, QuietFields, OverrideFields, SummaryErrors, Filler;
    var p := Padded(m, bytes);
    SizeIsASum(m, shape);
    SizeIsASum(p, shape);
    SameRest(m, bytes, shape);
    OnePadding(m.opening, bytes);
  }

  lemma SameRest(m: Moment, bytes: nat, shape: Shape)
    ensures var p := Padded(m, bytes);
      && FlagFields(p, shape) == FlagFields(m, shape) && TabooFields(p, shape.taboo) == TabooFields(m, shape.taboo)
      && RefusedFields(p, shape.lean, shape.refused) == RefusedFields(m, shape.lean, shape.refused)
      && QuietFields(p, shape.lean) == QuietFields(m, shape.lean) && OverrideFields(p, shape.lean) == OverrideFields(m, shape.lean)
      && SummaryErrors(p, shape.rows) == SummaryErrors(m, shape.rows)
  {
    hide RuleUnits, ErrorUnits, Filler;
  }

  lemma OnePadding(opening: seq<Field>, bytes: nat)
    ensures FieldsLen(opening + [Field("padding", Str(Filler(bytes)))]) == FieldsLen(opening) + PADDING + bytes
  {
    hide EscapedLen, Filler;
    var field := Field("padding", Str(Filler(bytes)));
    FieldsLenAdds(opening, [field]);
    FillerTakes(bytes);
    StringMeasured(Filler(bytes));
    StringMeasured("");
    LiteralsMeasured();
    assert FieldsLen([field]) == FieldLen(field) + 1;
  }

  lemma PaddedIsMade(m: Moment, bytes: nat)
    requires Made(m)
    ensures Made(Padded(m, bytes))
    ensures TriesASmallest(Padded(m, bytes)) == TriesASmallest(m) && Best(Padded(m, bytes)) == Best(m)
  {
    hide RowsCost, FieldsLen, AbsentLen, Filler, StandInChange, IdChange, ErrorChange;
    SameChanges(m, Padded(m, bytes));
  }

  lemma SameChanges(m: Moment, p: Moment)
    requires p == m.(opening := p.opening)
    ensures IdChange(p) == IdChange(m) && ErrorChange(p) == ErrorChange(m) && StandInChange(p) == StandInChange(m)
  {
    hide RowsCost, FieldsLen, AbsentLen, RuleOut, RowErrorOut, UnitLen;
    assert HasStandIn(p) == HasStandIn(m);
  }

  /** Every shape the service tries takes more than the smallest, where it
      tries no smallest. */
  lemma TriedTakeMore(m: Moment, shape: Shape)
    requires Made(m) && !TriesASmallest(m)
    requires shape in TRIED
    ensures Size(m, Best(m)) < Size(m, shape)
  {
    hide Size, StandInChange, IdChange, ErrorChange, Made, Best, RowsPart;
    MadeIsValid(m);
    BestIsSmallest(m, shape);
    EveryShapeTakes(m, shape);
    RowsPartIs(m);
    assert shape.rows == WHOLE_ROWS || shape.rows == NO_ROWS;
    if StandInChange(m) < 0 && shape.standInFor {
      RefusedWithStandIns(m);
    }
  }

  /** A stand-in needs a refused item. */
  lemma RefusedWithStandIns(m: Moment)
    requires Made(m) && StandInChange(m) < 0
    ensures m.refused != []
  {
    hide AbsentLen, RowsCost;
    assert Opened(m.rows);
    RowsWithoutStandIns(m.rows);
    assert !HasStandIn(m) ==> StandInChange(m) >= 0;
  }

  /** Whatever else a status says, its reply fits whenever some shape of it
      would exactly when the service tries a smallest shape: otherwise some
      text makes a status whose smallest shape fits to the byte, and whose
      reply doesn't. */
  lemma FitsWheneverSomeExactly(m: Moment)
    requires Made(m) && Size(m, Best(m)) + PADDING <= MAX_RESPONSE_BYTES
    ensures (forall bytes: nat :: FitsWheneverSome(Padded(m, bytes))) <==> TriesASmallest(m)
  {
    hide Size, Made, Best, TriesASmallest, SomeTriedFits, Padded, PADDING;
    if TriesASmallest(m) {
      forall bytes: nat
        ensures FitsWheneverSome(Padded(m, bytes))
      {
        PaddedIsMade(m, bytes);
        TriedWhenSmallest(Padded(m, bytes));
      }
    } else {
      var bytes := MAX_RESPONSE_BYTES - Size(m, Best(m)) - PADDING;
      Missed(m, bytes);
      assert !FitsWheneverSome(Padded(m, bytes));
    }
  }

  lemma Missed(m: Moment, bytes: nat)
    requires Made(m) && !TriesASmallest(m) && Size(m, Best(m)) + PADDING + bytes == MAX_RESPONSE_BYTES
    ensures !FitsWheneverSome(Padded(m, bytes))
  {
    hide Size, Made, TriesASmallest, Padded, PADDING, Best, SomeTriedFits, TRIED;
    var p := Padded(m, bytes);
    PaddedIsMade(m, bytes);
    assert m.opening != [] by { MadeIsValid(m); }
    PaddedSize(m, bytes, Best(m));
    assert Fits(p, Best(m));
    forall shape | shape in TRIED
      ensures !Fits(p, shape)
    {
      TriedTakeMore(p, shape);
    }
    NoneTried(p);
  }

  lemma NoneTried(m: Moment)
    requires forall shape | shape in TRIED :: !Fits(m, shape)
    ensures !SomeTriedFits(m)
  {
    hide Size;
    assert TRIED[0] == WHOLE && TRIED[1] == LEAN && TRIED[2] == PLAIN && TRIED[3] == WITHOUT_OUTPUTS && TRIED[4] == FLOOR
      && TRIED[5] == BARE;
  }

  // ---- Two statuses whose reply is missed ----

  const OPENING := [Field("o", Null)]

  function RowWith(standIn: Option<string>, id: Option<string>, error: string): Row {
    Row(OPENING, true, standIn, [], id, [], error, [], None, None, [])
  }

  /** A status of one display, one refused item and nothing else. */
  function OneRow(row: Row): Moment {
    Moment(OPENING, None, None, [], None, [], "", "", [], [], 0, [], [row], [], [], [], None, false,
      [Obj([Field("scene_id", Str("1")), Field("web_page", Bool(true)), Field("reason", Str("")) ])], 1)
  }

  lemma OneRowIsMade(standIn: Option<string>, id: Option<string>, error: string)
    requires id != Some("")
    ensures Made(OneRow(RowWith(standIn, id, error)))
  {
    var m := OneRow(RowWith(standIn, id, error));
    assert IsRefusedRow(m.refused[0]);
  }

  lemma NamedField(key: string, value: Json)
    requires forall i :: 0 <= i < |key| ==> 'a' <= key[i] <= 'z' || key[i] == '_'
    ensures FieldsLen([Field(key, value)]) == |key| + 6 + WireLen(value)
  {
    hide WireLen;
    PlainName(key);
    PlainLen(key);
    assert "\"" + key + "\":" == "\"" + (key + "\":");
    EscapedLenAdds("\"", key + "\":");
    EscapedLenAdds(key, "\":");
    TwoPunctuations();
    assert EscapedLen("\"") == 2;
    assert FieldsLen([Field(key, value)]) == FieldLen(Field(key, value)) + 1 + FieldsLen([]);
  }

  lemma ShortRow(id: Option<string>, error: string)
    requires id == None || id == Some("a")
    requires |error| <= 40 && error == Filler(|error|)
    ensures RowCost(RowWith(None, id, error), true) <= 500
  {
    hide WireLen, Filler, FieldsLen, RowCost, RowBase, Nullable, When;
    var row := RowWith(None, id, error);
    RowIsASum(row, true);
    ShortBase(row);
    ShortId(id);
    ShortError(error);
    NothingWhenFalse("stand_in_for", Nullable(row.standInFor));
    NothingWhenFalse("nothing_to_play", Nullable(row.nothingToPlay));
    NothingWhenFalse("entry_name", Nullable(row.entryName));
  }

  lemma ShortError(error: string)
    requires |error| <= 40 && error == Filler(|error|)
    ensures FieldsLen([Field("last_error", Str(error))]) <= 100
  {
    hide WireLen, Filler, FieldsLen, EscapedLen, Escape;
    NamedField("last_error", Str(error));
    FillerTakes(|error|);
    StringMeasured(error);
  }

  lemma ShortBase(row: Row)
    requires row == RowWith(row.standInFor, row.scheduleRuleId, row.lastError)
    ensures RowBase(row) <= 20
  {
    hide WireLen;
    NamedField("o", Null);
    LiteralsMeasured();
  }

  lemma ShortId(id: Option<string>)
    requires id == None || id == Some("a")
    ensures FieldsLen([Field("schedule_rule_id", Nullable(id))]) <= 100
  {
    hide WireLen, FieldsLen, EscapedLen, Escape, Filler;
    NamedField("schedule_rule_id", Nullable(id));
    LiteralsMeasured();
    OneCharacter();
  }

  lemma OneCharacter()
    ensures WireLen(Str("a")) == 5
  {
    hide WireLen, Filler;
    StringMeasured("a");
    FillerTakes(1);
    OneLetter();
  }

  lemma NothingWhenFalse(key: string, value: Json)
    ensures FieldsLen(When(false, key, value)) == 0
  {
  }

  lemma OneLetter()
    ensures Filler(1) == "a"
  {
    assert Filler(0) == "";
  }

  lemma OneRowIsSmall(standIn: Option<string>, id: Option<string>, error: string)
    requires id == None || id == Some("a")
    requires |error| <= 40 && error == Filler(|error|)
    ensures Size(OneRow(RowWith(standIn, id, error)), BARE) + PADDING <= MAX_RESPONSE_BYTES
  {
    hide Size, FieldsLen, RowsCost, AbsentLen, Filler, TabooFields, RefusedFields, QuietFields, OverrideFields, SummaryErrors,
      FixedLen, ClearStandIns, RowWith, PADDING, Valid;
    var row := RowWith(standIn, id, error);
    OneRowIsMade(standIn, id, error);
    MadeIsValid(OneRow(row));
    BareSize(OneRow(row));
    OneRowsCost(standIn, id, error);
    SmallSummary(row);
    SmallArrays(row);
    SmallFlags();
  }

  /** The parts of the bare floor's size, its rows' pieces counted though out. */
  lemma BareSize(m: Moment)
    requires Valid(m)
    ensures Size(m, BARE) <=
      FixedLen(m) + FieldsLen(OverrideFields(m, true)) + FieldsLen(SummaryErrors(m, NO_ROWS)) + FieldsLen(TabooFields(m, 0))
      + FieldsLen([Field("displays", Arr([]))]) + RowsCost(ClearStandIns(m.rows), true)
      + FieldsLen([Field("outputs", Arr([]))]) + FieldsLen([Field("missing_renderers", Arr([]))])
      + FieldsLen(QuietFields(m, true)) + FieldsLen(RefusedFields(m, true, 0))
      + AbsentLen(STAND_IN_FLAG, "true") + AbsentLen(RULE_FLAG, "true") + AbsentLen(ERROR_FLAG, "true")
  {
    hide Size, FieldsLen, RowsCost, Abridged, RuleOut, RowErrorOut, AbsentLen, RowsJson, FlagFields, OmitsStandIn, OmitsRuleId,
      OmitsDiagnostic, TabooFields, RefusedFields, QuietFields, OverrideFields, SummaryErrors, FixedLen, Nullable, ClearStandIns;
    SizeIsASum(m, BARE);
    assert Opened(m.rows);
    AbridgedCost(m.rows, BARE, true);
    DisplaysMeasured(Abridged(m.rows, BARE), true);
    FlagsMeasured(m, BARE);
    NoSummaryStandIn(m);
  }

  lemma OneRowsCost(standIn: Option<string>, id: Option<string>, error: string)
    requires id == None || id == Some("a")
    requires |error| <= 40 && error == Filler(|error|)
    ensures RowsCost(ClearStandIns([RowWith(standIn, id, error)]), true) <= 500
  {
    hide RowCost, Filler;
    ShortRow(id, error);
    var cleared := ClearStandIns([RowWith(standIn, id, error)]);
    assert cleared == [RowWith(None, id, error)];
    assert cleared[1..] == [];
  }

  lemma SmallSummary(row: Row)
    ensures var m := OneRow(row);
      && FixedLen(m) <= 100 && FieldsLen(OverrideFields(m, true)) == 0 && FieldsLen(QuietFields(m, true)) == 0
      && FieldsLen(SummaryErrors(m, NO_ROWS)) <= 100
  {
    hide WireLen;
    LiteralsMeasured();
    NamedField("o", Null);
    TwoFieldsLen("last_error", Str(""), "output_discovery_error", Str(""));
  }

  lemma SmallArrays(row: Row)
    ensures var m := OneRow(row);
      FieldsLen(TabooFields(m, 0)) <= 100 && FieldsLen(RefusedFields(m, true, 0)) <= 100
    ensures FieldsLen([Field("displays", Arr([]))]) <= 100 && FieldsLen([Field("outputs", Arr([]))]) <= 100
    ensures FieldsLen([Field("missing_renderers", Arr([]))]) <= 100
  {
    hide WireLen, FieldsLen;
    var m := OneRow(row);
    LiteralsMeasured();
    TwoFieldsLen("taboo_entries", Arr([]), "taboo_entries_omitted", Num(0));
    DigitsMeasured(0);
    DigitsMeasured(1);
    NamedField("refused_omitted", Num(1));
    NamedField("displays", Arr([]));
    NamedField("outputs", Arr([]));
    NamedField("missing_renderers", Arr([]));
    assert TabooFields(m, 0) == [Field("taboo_entries", Arr([])), Field("taboo_entries_omitted", Num(0))];
    assert RefusedFields(m, true, 0) == [Field("refused_omitted", Num(1))];
  }

  lemma SmallFlags()
    ensures AbsentLen(STAND_IN_FLAG, "true") <= 100 && AbsentLen(RULE_FLAG, "true") <= 100 && AbsentLen(ERROR_FLAG, "true") <= 100
    ensures PADDING <= 100
  {
    hide WireLen, AbsentLen, FieldLen;
    LiteralsMeasured();
    NamedField("padding", Str(""));
    Flags();
    assert FieldsLen([Field("padding", Str(""))]) == FieldLen(Field("padding", Str(""))) + 1 + FieldsLen([]);
  }

  lemma TwoFieldsLen(a: string, v: Json, b: string, w: Json)
    requires forall i :: 0 <= i < |a| ==> 'a' <= a[i] <= 'z' || a[i] == '_'
    requires forall i :: 0 <= i < |b| ==> 'a' <= b[i] <= 'z' || b[i] == '_'
    ensures FieldsLen([Field(a, v), Field(b, w)]) == |a| + 6 + WireLen(v) + |b| + 6 + WireLen(w)
  {
    hide WireLen, FieldLen;
    NamedField(a, v);
    NamedField(b, w);
    FieldsLenAdds([Field(a, v)], [Field(b, w)]);
    assert [Field(a, v)] + [Field(b, w)] == [Field(a, v), Field(b, w)];
  }

  /** What the flags take. */
  lemma Flags()
    ensures AbsentLen(STAND_IN_FLAG, "true") == 30 && AbsentLen(RULE_FLAG, "true") == 34 && AbsentLen(ERROR_FLAG, "true") == 29
  {
    hide EscapedLen;
    TrueTakesFour();
    PlainName(STAND_IN_FLAG);
    PlainKeyTakes(STAND_IN_FLAG, "true");
    PlainName(RULE_FLAG);
    PlainKeyTakes(RULE_FLAG, "true");
    PlainName(ERROR_FLAG);
    PlainKeyTakes(ERROR_FLAG, "true");
  }

  lemma TrueTakesFour()
    ensures EscapedLen("true") == 4
  {
    PlainName("true");
    PlainLen("true");
  }

  /** One display plays a stand-in for the playlist "a": its field takes 23
      bytes and the flag for leaving it out 30. Some text makes a status whose
      smallest shape, with the stand-in, fits to the byte; none that is tried
      does. */
  lemma SmallStandInsAreMissed()
    ensures var m := OneRow(RowWith(Some("a"), None, ""));
      Made(m) && StandInChange(m) == -7 && exists bytes: nat :: !FitsWheneverSome(Padded(m, bytes))
  {
    hide Made, Best, FitsWheneverSome, Padded, PADDING, Size, IdChange, ErrorChange, Filler;
    var m := OneRow(RowWith(Some("a"), None, ""));
    OneRowIsMade(Some("a"), None, "");
    NoFiller();
    OneRowIsSmall(Some("a"), None, "");
    OneStandIn();
    BestIsSmallest(m, BARE);
    FitsWheneverSomeExactly(m);
  }

  lemma NoFiller()
    ensures Filler(0) == ""
  {
  }

  lemma OneStandIn()
    ensures StandInChange(OneRow(RowWith(Some("a"), None, ""))) == -7
  {
    hide WireLen, RowCost, RowBase, AbsentLen;
    var with, without := RowWith(Some("a"), None, ""), RowWith(None, None, "");
    var m := OneRow(with);
    assert ClearStandIns(m.rows) == [without];
    assert m.rows[0].standInFor.Some?;
    assert [without][1..] == [] && m.rows[1..] == [];
    RowIsASum(with, true);
    RowIsASum(without, true);
    NothingWhenAbsent(with);
    NamedField("stand_in_for", Str("a"));
    StringMeasured("a");
    FillerTakes(1);
    OneLetter();
    Flags();
    assert RowsCost(m.rows, true) == RowCost(with, true) + RowsCost([], true);
    assert RowsCost([without], true) == RowCost(without, true) + RowsCost([], true);
  }

  /** One display has a rule named "a", one byte beside its flag's 34, and an
      error of 40. Ids and errors are tried back or out together; the smallest
      shape has the id back and the error out. */
  lemma SmallIdsAreMissed()
    ensures var m := OneRow(RowWith(None, Some("a"), Filler(40)));
      Made(m) && IdChange(m) < 0 < ErrorChange(m) && exists bytes: nat :: !FitsWheneverSome(Padded(m, bytes))
  {
    hide Made, Best, FitsWheneverSome, Padded, PADDING, Size, IdChange, ErrorChange, Filler;
    var m := OneRow(RowWith(None, Some("a"), Filler(40)));
    FillerTakes(40);
    FillerLen(40);
    OneRowIsMade(None, Some("a"), Filler(40));
    OneRowIsSmall(None, Some("a"), Filler(40));
    OneIdOneError();
    BestIsSmallest(m, BARE);
    FitsWheneverSomeExactly(m);
  }

  lemma {:induction false} FillerLen(n: nat)
    ensures |Filler(n)| == n
  {
    if n > 0 {
      FillerLen(n - 1);
    }
  }

  lemma OneIdOneError()
    ensures var m := OneRow(RowWith(None, Some("a"), Filler(40))); IdChange(m) == -33 && ErrorChange(m) == 11
  {
    hide WireLen, AbsentLen, Filler, UnitLen, RuleUnits, ErrorUnits, EscapedLen;
    var m := OneRow(RowWith(None, Some("a"), Filler(40)));
    OneUnitEach();
    EmptyUnit();
    Flags();
    var rules, errors := [Unit(1, 0)], [Unit(40, 0)];
    assert rules[0..] == rules && errors[0..] == errors && rules[1..] == [] && errors[1..] == [];
  }

  lemma OneUnitEach()
    ensures var rows := [RowWith(None, Some("a"), Filler(40))];
      && RuleUnits(rows, 0, 1) == [Unit(1, 0)] && RuleUnits(rows, 1, 1) == []
      && ErrorUnits(rows, 0, 1) == [Unit(40, 0)] && ErrorUnits(rows, 1, 1) == []
  {
    hide WireLen, Filler, UnitLen, EscapedLen;
    var rows := [RowWith(None, Some("a"), Filler(40))];
    FillerLen(40);
    SmallUnits();
    assert RuleUnits(rows, 0, 0) == [] && RuleUnits(rows, 1, 0) == [];
    assert ErrorUnits(rows, 0, 0) == [] && ErrorUnits(rows, 1, 0) == [];
  }

  lemma SmallUnits()
    ensures UnitLen("a") == 1 && UnitLen(Filler(40)) == 40
  {
    hide WireLen, Filler;
    OneCharacter();
    FillerTakes(40);
    StringMeasured(Filler(40));
  }

  // ---- Plain text ----

  /** Text that needs no escape. */
  predicate Plain(s: string) {
    forall i :: 0 <= i < |s| ==> CharLen(s[i]) == 1
  }

  lemma {:induction false} PlainLen(s: string)
    requires Plain(s)
    ensures EscapedLen(s) == |s|
  {
    if s != "" {
      PlainLen(s[1..]);
    }
  }

  lemma PlainKeyTakes(key: string, value: string)
    requires Plain(key)
    ensures AbsentLen(key, value) == |key| + EscapedLen(value) + 6
  {
    assert ",\"" + key + "\":" + value == ",\"" + (key + ("\":" + value));
    EscapedLenAdds(",\"", key + ("\":" + value));
    EscapedLenAdds(key, "\":" + value);
    EscapedLenAdds("\":", value);
    PlainLen(key);
    TwoPunctuations();
  }

  lemma TwoPunctuations()
    ensures EscapedLen(",\"") == 3 && EscapedLen("\":") == 3
  {
    EscapedLenAdds(",", "\"");
    EscapedLenAdds("\"", ":");
    assert ",\"" == "," + "\"" && "\":" == "\"" + ":";
    assert EscapedLen(",") == 1 && EscapedLen("\"") == 2 && EscapedLen(":") == 1;
  }

  /** A key of small letters and underscores. */
  lemma PlainName(s: string)
    requires forall i :: 0 <= i < |s| ==> 'a' <= s[i] <= 'z' || s[i] == '_'
    ensures Plain(s)
  {
    forall i | 0 <= i < |s|
      ensures CharLen(s[i]) == 1
    {
      PlainLetter(s[i]);
    }
  }

  lemma PlainLetter(c: char)
    requires 'a' <= c <= 'z' || c == '_'
    ensures CharLen(c) == 1
  {
  }
}
