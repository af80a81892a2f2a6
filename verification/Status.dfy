/** The status document, as a reply of some shape carries it, and exact sizes
    of the differences between shapes.

    Everything that is the same in every reply of one moment is kept as given
    fields; what a shape can leave out is spelled out. */
module Status {
  import opened Common
  import opened Wire

  const MAX_TABOO := 64
  const MAX_REFUSED := 16
  const MANY := 18_446_744_073_709_551_615

  /** One display row: the fields every reply carries, in order, around those
      a reply can leave out. */
  datatype Row = Row(
    opening: seq<Field>,
    connected: bool,
    standInFor: Option<string>,
    route: seq<Field>,
    scheduleRuleId: Option<string>,
    playback: seq<Field>,
    lastError: string,
    retry: seq<Field>,
    nothingToPlay: Option<string>,
    entryName: Option<string>,
    timing: seq<Field>
  )

  /** A number for the connected rows and one for the others. */
  datatype Counts = Counts(connected: nat, others: nat) {
    function Of(group: nat): nat {
      if group == 0 then connected else others
    }
  }

  /** How many rows keep their rule's id and how many their error, of each
      group, the shortest first; and the summary's own two. */
  datatype RowDetail = RowDetail(ruleIds: Counts, errors: Counts, discoveryError: bool, lastError: bool)

  const WHOLE_ROWS := RowDetail(Counts(MANY, MANY), Counts(MANY, MANY), true, true)
  const NO_ROWS := RowDetail(Counts(0, 0), Counts(0, 0), false, false)

  datatype MissingDetail = Full | WithoutPaths | Left

  datatype Shape = Shape(
    lean: bool,
    taboo: nat,
    outputs: bool,
    missing: MissingDetail,
    refused: nat,
    standInFor: bool,
    rows: RowDetail
  )

  const WHOLE := Shape(false, MAX_TABOO, true, Full, MAX_REFUSED, true, WHOLE_ROWS)

  /** What the service would say at one moment. */
  datatype Moment = Moment(
    opening: seq<Field>,
    overridesSha: Option<string>,
    overridesIgnored: Option<string>,
    identity: seq<Field>,
    standInFor: Option<string>,
    playback: seq<Field>,
    lastError: string,
    discoveryError: string,
    retry: seq<Field>,
    taboo: seq<Json>,          // the listed records, newest first
    tabooTotal: nat,
    playlists: seq<Field>,
    rows: seq<Row>,
    outputs: seq<Json>,
    missing: seq<Json>,
    missingWithoutPaths: seq<Json>,
    nothingToPlay: Option<string>,
    allowWeb: bool,
    refused: seq<Json>,        // the listed rows, in the order learned
    refusedTotal: nat
  )

  ghost predicate Valid(m: Moment) {
    && m.opening != []
    && |m.rows| <= MANY
    && (forall row :: row in m.rows ==> row.opening != [] && row.scheduleRuleId != Some(""))
    && |m.taboo| <= MAX_TABOO && |m.taboo| <= m.tabooTotal
    && |m.refused| == if m.refusedTotal < MAX_REFUSED then m.refusedTotal else MAX_REFUSED
  }

  // ---- The rows' units ----

  /** What a rule's id or an error adds beside the `null` or `""` left in its
      place; and the row it is on. */
  datatype Unit = Unit(cost: nat, index: nat)

  function UnitLen(text: string): nat {
    if WireLen(Str(text)) < 4 then 0 else WireLen(Str(text)) - 4
  }

  function GroupOf(row: Row): nat {
    if row.connected then 0 else 1
  }

  /** Shorter first, ties in row order. */
  predicate Before(a: Unit, b: Unit) {
    a.cost < b.cost || (a.cost == b.cost && a.index < b.index)
  }

  predicate Sorted(units: seq<Unit>) {
    forall i, j :: 0 <= i < j < |units| ==> Before(units[i], units[j])
  }

  function Place(units: seq<Unit>, u: Unit): (r: seq<Unit>)
    requires Sorted(units) && forall v :: v in units ==> v.index != u.index
    ensures Sorted(r) && |r| == |units| + 1
    ensures forall v :: v in r <==> v == u || v in units
  {
    if units == [] || Before(u, units[0]) then [u] + units
    else
      var rest := Place(units[1..], u);
      assert forall v :: v in units <==> v == units[0] || v in units[1..];
      assert forall i :: 0 <= i < |rest| ==> rest[i] in rest && Before(units[0], rest[i]);
      [units[0]] + rest
  }

  /** The units of one group among the first `n` rows. */
  function RuleUnits(rows: seq<Row>, group: nat, n: nat): (units: seq<Unit>)
    requires n <= |rows|
    ensures Sorted(units) && |units| <= n
    ensures forall u :: u in units ==>
      u.index < n && rows[u.index].scheduleRuleId.Some? && u.cost == UnitLen(rows[u.index].scheduleRuleId.value)
      && GroupOf(rows[u.index]) == group
  {
    if n == 0 then []
    else
      var units := RuleUnits(rows, group, n - 1);
      var row := rows[n - 1];
      if GroupOf(row) == group && row.scheduleRuleId.Some?
      then Place(units, Unit(UnitLen(row.scheduleRuleId.value), n - 1))
      else units
  }

  function ErrorUnits(rows: seq<Row>, group: nat, n: nat): (units: seq<Unit>)
    requires n <= |rows|
    ensures Sorted(units) && |units| <= n
    ensures forall u :: u in units ==>
      u.index < n && rows[u.index].lastError != "" && u.cost == UnitLen(rows[u.index].lastError)
      && GroupOf(rows[u.index]) == group
  {
    if n == 0 then []
    else
      var units := ErrorUnits(rows, group, n - 1);
      var row := rows[n - 1];
      if GroupOf(row) == group && row.lastError != ""
      then Place(units, Unit(UnitLen(row.lastError), n - 1))
      else units
  }

  /** The ones left out when `count` are kept. */
  function Dropped(units: seq<Unit>, count: nat): seq<Unit> {
    if count <= |units| then units[count..] else []
  }

  function Cost(units: seq<Unit>): nat {
    if units == [] then 0 else units[0].cost + Cost(units[1..])
  }

  function ClearRules(rows: seq<Row>, units: seq<Unit>): (r: seq<Row>)
    requires forall u :: u in units ==> u.index < |rows|
    ensures |r| == |rows|
    decreases |units|
  {
    if units == [] then rows
    else
      var i := units[0].index;
      ClearRules(rows[i := rows[i].(scheduleRuleId := None)], units[1..])
  }

  function ClearErrors(rows: seq<Row>, units: seq<Unit>): (r: seq<Row>)
    requires forall u :: u in units ==> u.index < |rows|
    ensures |r| == |rows|
    decreases |units|
  {
    if units == [] then rows
    else
      var i := units[0].index;
      ClearErrors(rows[i := rows[i].(lastError := "")], units[1..])
  }

  function ClearStandIns(rows: seq<Row>): (r: seq<Row>)
    ensures |r| == |rows|
  {
    seq(|rows|, i requires 0 <= i < |rows| => rows[i].(standInFor := None))
  }

  /** The rows as a reply of `shape` carries them. */
  function Abridged(rows: seq<Row>, shape: Shape): (r: seq<Row>)
    ensures |r| == |rows|
  {
    var n := |rows|;
    var r := if shape.standInFor then rows else ClearStandIns(rows);
    var r := ClearRules(r, Dropped(RuleUnits(rows, 0, n), shape.rows.ruleIds.connected));
    var r := ClearErrors(r, Dropped(ErrorUnits(rows, 0, n), shape.rows.errors.connected));
    var r := ClearRules(r, Dropped(RuleUnits(rows, 1, n), shape.rows.ruleIds.others));
    ClearErrors(r, Dropped(ErrorUnits(rows, 1, n), shape.rows.errors.others))
  }

  predicate DropsSome(units: seq<Unit>, count: nat) {
    count < |units|
  }

  predicate OmitsRuleId(rows: seq<Row>, detail: RowDetail) {
    || DropsSome(RuleUnits(rows, 0, |rows|), detail.ruleIds.connected)
    || DropsSome(RuleUnits(rows, 1, |rows|), detail.ruleIds.others)
  }

  predicate OmitsDiagnostic(m: Moment, detail: RowDetail) {
    || DropsSome(ErrorUnits(m.rows, 0, |m.rows|), detail.errors.connected)
    || DropsSome(ErrorUnits(m.rows, 1, |m.rows|), detail.errors.others)
    || (!detail.discoveryError && m.discoveryError != "")
    || (!detail.lastError && m.lastError != "")
  }

  predicate OmitsStandIn(m: Moment, shape: Shape) {
    !shape.standInFor && exists i :: 0 <= i < |m.rows| && m.rows[i].standInFor.Some?
  }

  // ---- The document ----

  function Nullable(value: Option<string>): Json {
    match value
    case None => Null
    case Some(text) => Str(text)
  }

  function When(present: bool, key: string, value: Json): seq<Field> {
    if present then [Field(key, value)] else []
  }

  function RowFields(row: Row, lean: bool): seq<Field> {
    row.opening
    + (When(row.standInFor.Some?, "stand_in_for", Nullable(row.standInFor))
    + (row.route
    + ([Field("schedule_rule_id", Nullable(row.scheduleRuleId))]
    + (row.playback
    + ([Field("last_error", Str(row.lastError))]
    + (row.retry
    + (When(!(lean && row.nothingToPlay.None?), "nothing_to_play", Nullable(row.nothingToPlay))
    + (When(!(lean && row.entryName.None?), "entry_name", Nullable(row.entryName))
    + row.timing))))))))
  }

  function RowsJson(rows: seq<Row>, lean: bool): (items: seq<Json>)
    ensures |items| == |rows|
  {
    if rows == [] then [] else [Obj(RowFields(rows[0], lean))] + RowsJson(rows[1..], lean)
  }

  function Take<T>(items: seq<T>, count: nat): seq<T> {
    if count <= |items| then items[..count] else items
  }

  function MissingRows(m: Moment, detail: MissingDetail): seq<Json> {
    match detail
    case Full => m.missing
    case WithoutPaths => m.missingWithoutPaths
    case Left => []
  }

  function RefusedOmitted(m: Moment, refused: nat): nat {
    var listed := if refused < MAX_REFUSED then refused else MAX_REFUSED;
    if listed < m.refusedTotal then m.refusedTotal - listed else 0
  }

  function OverrideFields(m: Moment, lean: bool): seq<Field> {
    When(!(lean && m.overridesSha.None?), "loaded_overrides_sha256", Nullable(m.overridesSha))
    + When(!(lean && m.overridesIgnored.None?), "overrides_ignored", Nullable(m.overridesIgnored))
  }

  function SummaryErrors(m: Moment, detail: RowDetail): seq<Field> {
    [Field("last_error", Str(if detail.lastError then m.lastError else "")),
     Field("output_discovery_error", Str(if detail.discoveryError then m.discoveryError else ""))]
  }

  function TabooFields(m: Moment, count: nat): seq<Field> {
    var listed := Take(m.taboo, count);
    [Field("taboo_entries", Arr(listed)),
     Field("taboo_entries_omitted", Num(if |listed| <= m.tabooTotal then m.tabooTotal - |listed| else 0))]
  }

  function RefusedFields(m: Moment, lean: bool, refused: nat): seq<Field> {
    var listed := Take(m.refused, refused);
    var omitted := RefusedOmitted(m, refused);
    When(!(lean && listed == []), "refused", Arr(listed))
    + When(!(lean && omitted == 0), "refused_omitted", Num(omitted))
  }

  function QuietFields(m: Moment, lean: bool): seq<Field> {
    When(!(lean && m.nothingToPlay.None?), "nothing_to_play", Nullable(m.nothingToPlay))
    + When(!(lean && !m.allowWeb), "allow_web_wallpapers", Bool(m.allowWeb))
  }

  function FlagFields(m: Moment, shape: Shape): seq<Field> {
    When(OmitsStandIn(m, shape), "stand_in_for_omitted", Bool(true))
    + (When(OmitsRuleId(m.rows, shape.rows), "schedule_rule_id_omitted", Bool(true))
    + When(OmitsDiagnostic(m, shape.rows), "diagnostics_omitted", Bool(true)))
  }

  function StatusFields(m: Moment, shape: Shape): seq<Field> {
    m.opening
    + (OverrideFields(m, shape.lean)
    + (m.identity
    + (When(shape.standInFor && m.standInFor.Some?, "stand_in_for", Nullable(m.standInFor))
    + (m.playback
    + (SummaryErrors(m, shape.rows)
    + (m.retry
    + (TabooFields(m, shape.taboo)
    + (m.playlists
    + ([Field("displays", Arr(RowsJson(Abridged(m.rows, shape), shape.lean)))]
    + ([Field("outputs", Arr(if shape.outputs then m.outputs else []))]
    + ([Field("missing_renderers", Arr(MissingRows(m, shape.missing)))]
    + (QuietFields(m, shape.lean)
    + (RefusedFields(m, shape.lean, shape.refused)
    + FlagFields(m, shape))))))))))))))
  }

  /** The status of `shape`: the text a reply carries as its message. */
  function StatusJson(m: Moment, shape: Shape): string {
    Print(Obj(StatusFields(m, shape)))
  }

  /** The bytes a reply of `shape` takes on the wire. */
  function Size(m: Moment, shape: Shape): nat {
    SuccessLen(StatusJson(m, shape))
  }

  // ---- What it says ----

  /** How many of a list of so many are shown, at most so many. */
  function Shown(total: nat, most: nat): nat {
    if total < most then total else most
  }

  ghost predicate Among(part: seq<Field>, all: seq<Field>) {
    forall f :: f in part ==> f in all
  }

  lemma AmongJoined(part: seq<Field>, rest: seq<Field>, all: seq<Field>)
    requires Among(part + rest, all)
    ensures Among(part, all) && Among(rest, all)
  {
    assert forall f :: f in part || f in rest ==> f in part + rest;
  }

  lemma PartsAreAmong(m: Moment, shape: Shape)
    ensures var s := StatusFields(m, shape);
      && Among(OverrideFields(m, shape.lean), s)
      && Among(When(shape.standInFor && m.standInFor.Some?, "stand_in_for", Nullable(m.standInFor)), s)
      && Among(SummaryErrors(m, shape.rows), s)
      && Among(TabooFields(m, shape.taboo), s)
      && Among([Field("displays", Arr(RowsJson(Abridged(m.rows, shape), shape.lean)))], s)
      && Among([Field("outputs", Arr(if shape.outputs then m.outputs else []))], s)
      && Among([Field("missing_renderers", Arr(MissingRows(m, shape.missing)))], s)
      && Among(QuietFields(m, shape.lean), s)
      && Among(RefusedFields(m, shape.lean, shape.refused), s)
      && Among(FlagFields(m, shape), s)
  {
    hide RowsJson, Abridged, FlagFields, RefusedFields, QuietFields, TabooFields, SummaryErrors, OverrideFields, MissingRows, Nullable,
      When, Among;
    var t14 := FlagFields(m, shape);
    var t13 := RefusedFields(m, shape.lean, shape.refused) + t14;
    var t12 := QuietFields(m, shape.lean) + t13;
    var t11 := [Field("missing_renderers", Arr(MissingRows(m, shape.missing)))] + t12;
    var t10 := [Field("outputs", Arr(if shape.outputs then m.outputs else []))] + t11;
    var t9 := [Field("displays", Arr(RowsJson(Abridged(m.rows, shape), shape.lean)))] + t10;
    var t8 := m.playlists + t9;
    var t7 := TabooFields(m, shape.taboo) + t8;
    var t6 := m.retry + t7;
    var t5 := SummaryErrors(m, shape.rows) + t6;
    var t4 := m.playback + t5;
    var t3 := When(shape.standInFor && m.standInFor.Some?, "stand_in_for", Nullable(m.standInFor)) + t4;
    var t2 := m.identity + t3;
    var t1 := OverrideFields(m, shape.lean) + t2;
    var all := StatusFields(m, shape);
    assert all == m.opening + t1;
    assert Among(m.opening + t1, all) by { AmongItself(all); }
    AmongJoined(m.opening, t1, all);
    AmongJoined(OverrideFields(m, shape.lean), t2, all);
    AmongJoined(m.identity, t3, all);
    AmongJoined(When(shape.standInFor && m.standInFor.Some?, "stand_in_for", Nullable(m.standInFor)), t4, all);
    AmongJoined(m.playback, t5, all);
    AmongJoined(SummaryErrors(m, shape.rows), t6, all);
    AmongJoined(m.retry, t7, all);
    AmongJoined(TabooFields(m, shape.taboo), t8, all);
    AmongJoined(m.playlists, t9, all);
    AmongJoined([Field("displays", Arr(RowsJson(Abridged(m.rows, shape), shape.lean)))], t10, all);
    AmongJoined([Field("outputs", Arr(if shape.outputs then m.outputs else []))], t11, all);
    AmongJoined([Field("missing_renderers", Arr(MissingRows(m, shape.missing)))], t12, all);
    AmongJoined(QuietFields(m, shape.lean), t13, all);
    AmongJoined(RefusedFields(m, shape.lean, shape.refused), t14, all);
  }

  lemma AmongItself(all: seq<Field>)
    ensures Among(all, all)
  {
  }

  /** Under each name stands what the moment has of it, or nothing where the
      shape leaves that out. */
  lemma SummarySays(m: Moment, shape: Shape)
    ensures var s := StatusFields(m, shape);
      && Field("last_error", Str(if shape.rows.lastError then m.lastError else "")) in s
      && Field("output_discovery_error", Str(if shape.rows.discoveryError then m.discoveryError else "")) in s
      && (m.overridesSha.Some? ==> Field("loaded_overrides_sha256", Str(m.overridesSha.value)) in s)
      && (m.overridesIgnored.Some? ==> Field("overrides_ignored", Str(m.overridesIgnored.value)) in s)
      && (shape.standInFor && m.standInFor.Some? ==> Field("stand_in_for", Str(m.standInFor.value)) in s)
      && (m.nothingToPlay.Some? ==> Field("nothing_to_play", Str(m.nothingToPlay.value)) in s)
      && (m.allowWeb || !shape.lean ==> Field("allow_web_wallpapers", Bool(m.allowWeb)) in s)
  {
    hide StatusFields, RowsJson, Abridged, FlagFields, RefusedFields, TabooFields, MissingRows;
    PartsAreAmong(m, shape);
    var errors := SummaryErrors(m, shape.rows);
    assert errors[0] in errors && errors[1] in errors;
    var overrides, quiet := OverrideFields(m, shape.lean), QuietFields(m, shape.lean);
    assert m.overridesSha.Some? ==> overrides[0] == Field("loaded_overrides_sha256", Str(m.overridesSha.value));
    assert m.overridesIgnored.Some? ==> overrides[|overrides| - 1] == Field("overrides_ignored", Str(m.overridesIgnored.value));
    assert m.nothingToPlay.Some? ==> quiet[0] == Field("nothing_to_play", Str(m.nothingToPlay.value));
    assert m.allowWeb || !shape.lean ==> quiet[|quiet| - 1] == Field("allow_web_wallpapers", Bool(m.allowWeb));
  }

  /** The lists, each from its own beginning; and with every list that is cut,
      how many of it are not shown. */
  lemma ListsSay(m: Moment, shape: Shape)
    requires Valid(m)
    ensures var s := StatusFields(m, shape);
      && (var n := Shown(|m.taboo|, shape.taboo);
          && Field("taboo_entries", Arr(m.taboo[..n])) in s
          && Field("taboo_entries_omitted", Num(m.tabooTotal - n)) in s)
      && (var n := Shown(|m.refused|, shape.refused);
          && (n > 0 || !shape.lean ==> Field("refused", Arr(m.refused[..n])) in s)
          && (n < m.refusedTotal || !shape.lean ==> Field("refused_omitted", Num(m.refusedTotal - n)) in s))
      && Field("outputs", Arr(if shape.outputs then m.outputs else [])) in s
      && (shape.missing.Full? ==> Field("missing_renderers", Arr(m.missing)) in s)
      && (shape.missing.WithoutPaths? ==> Field("missing_renderers", Arr(m.missingWithoutPaths)) in s)
      && (shape.missing.Left? ==> Field("missing_renderers", Arr([])) in s)
      && Field("displays", Arr(RowsJson(Abridged(m.rows, shape), shape.lean))) in s
  {
    hide StatusFields, RowsJson, Abridged, FlagFields, QuietFields, OverrideFields, SummaryErrors, RefusedFields;
    PartsAreAmong(m, shape);
    var displays := [Field("displays", Arr(RowsJson(Abridged(m.rows, shape), shape.lean)))];
    var outputs := [Field("outputs", Arr(if shape.outputs then m.outputs else []))];
    var missing := [Field("missing_renderers", Arr(MissingRows(m, shape.missing)))];
    assert displays[0] in displays && outputs[0] in outputs && missing[0] in missing;
    var taboo := TabooFields(m, shape.taboo);
    assert taboo[0] in taboo && taboo[1] in taboo;
    TakeIs(m.taboo, shape.taboo);
    RefusedSays(m, shape.lean, shape.refused);
  }

  lemma TakeIs<T>(items: seq<T>, count: nat)
    ensures Take(items, count) == items[..Shown(|items|, count)]
  {
  }

  lemma RefusedSays(m: Moment, lean: bool, refused: nat)
    requires Valid(m)
    ensures var s, n := RefusedFields(m, lean, refused), Shown(|m.refused|, refused);
      && (n > 0 || !lean ==> Field("refused", Arr(m.refused[..n])) in s)
      && (n < m.refusedTotal || !lean ==> Field("refused_omitted", Num(m.refusedTotal - n)) in s)
  {
    TakeIs(m.refused, refused);
    var s, n := RefusedFields(m, lean, refused), Shown(|m.refused|, refused);
    assert RefusedOmitted(m, refused) == m.refusedTotal - n;
    assert n > 0 || !lean ==> s[0] == Field("refused", Arr(m.refused[..n]));
    assert n < m.refusedTotal || !lean ==> s[|s| - 1] == Field("refused_omitted", Num(m.refusedTotal - n));
  }

  /** A row's own. */
  lemma RowSays(row: Row, lean: bool)
    ensures var s := RowFields(row, lean);
      && Field("last_error", Str(row.lastError)) in s
      && Field("schedule_rule_id", if row.scheduleRuleId.Some? then Str(row.scheduleRuleId.value) else Null) in s
      && (row.standInFor.Some? ==> Field("stand_in_for", Str(row.standInFor.value)) in s)
      && (row.nothingToPlay.Some? ==> Field("nothing_to_play", Str(row.nothingToPlay.value)) in s)
      && (row.entryName.Some? ==> Field("entry_name", Str(row.entryName.value)) in s)
  {
    var rule, error := Field("schedule_rule_id", Nullable(row.scheduleRuleId)), Field("last_error", Str(row.lastError));
    assert [rule][0] == rule && [error][0] == error;
  }

  // ---- Its size as a sum ----

  /** What every reply takes, whatever its shape. */
  function FixedLen(m: Moment): nat {
    26 + FieldsLen(m.opening) + FieldsLen(m.identity) + FieldsLen(m.playback) + FieldsLen(m.retry) + FieldsLen(m.playlists)
  }

  lemma SizeIsASum(m: Moment, shape: Shape)
    requires m.opening != []
    ensures Size(m, shape) ==
      FixedLen(m)
      + FieldsLen(OverrideFields(m, shape.lean))
      + FieldsLen(When(shape.standInFor && m.standInFor.Some?, "stand_in_for", Nullable(m.standInFor)))
      + FieldsLen(SummaryErrors(m, shape.rows))
      + FieldsLen(TabooFields(m, shape.taboo))
      + FieldsLen([Field("displays", Arr(RowsJson(Abridged(m.rows, shape), shape.lean)))])
      + FieldsLen([Field("outputs", Arr(if shape.outputs then m.outputs else []))])
      + FieldsLen([Field("missing_renderers", Arr(MissingRows(m, shape.missing)))])
      + FieldsLen(QuietFields(m, shape.lean))
      + FieldsLen(RefusedFields(m, shape.lean, shape.refused))
      + FieldsLen(FlagFields(m, shape))
  {
    hide FieldsLen, EscapedLen, PrintFields, RowsJson, Abridged, FlagFields, RefusedFields, QuietFields, TabooFields,
      SummaryErrors, OverrideFields, MissingRows, Nullable, When;
    var t14 := FlagFields(m, shape);
    var t13 := RefusedFields(m, shape.lean, shape.refused) + t14;
    var t12 := QuietFields(m, shape.lean) + t13;
    var t11 := [Field("missing_renderers", Arr(MissingRows(m, shape.missing)))] + t12;
    var t10 := [Field("outputs", Arr(if shape.outputs then m.outputs else []))] + t11;
    var t9 := [Field("displays", Arr(RowsJson(Abridged(m.rows, shape), shape.lean)))] + t10;
    var t8 := m.playlists + t9;
    var t7 := TabooFields(m, shape.taboo) + t8;
    var t6 := m.retry + t7;
    var t5 := SummaryErrors(m, shape.rows) + t6;
    var t4 := m.playback + t5;
    var t3 := When(shape.standInFor && m.standInFor.Some?, "stand_in_for", Nullable(m.standInFor)) + t4;
    var t2 := m.identity + t3;
    var t1 := OverrideFields(m, shape.lean) + t2;
    assert StatusFields(m, shape) == m.opening + t1;
    ObjectMeasured(StatusFields(m, shape));
    FieldsLenAdds(m.opening, t1);
    FieldsLenAdds(OverrideFields(m, shape.lean), t2);
    FieldsLenAdds(m.identity, t3);
    FieldsLenAdds(When(shape.standInFor && m.standInFor.Some?, "stand_in_for", Nullable(m.standInFor)), t4);
    FieldsLenAdds(m.playback, t5);
    FieldsLenAdds(SummaryErrors(m, shape.rows), t6);
    FieldsLenAdds(m.retry, t7);
    FieldsLenAdds(TabooFields(m, shape.taboo), t8);
    FieldsLenAdds(m.playlists, t9);
    FieldsLenAdds([Field("displays", Arr(RowsJson(Abridged(m.rows, shape), shape.lean)))], t10);
    FieldsLenAdds([Field("outputs", Arr(if shape.outputs then m.outputs else []))], t11);
    FieldsLenAdds([Field("missing_renderers", Arr(MissingRows(m, shape.missing)))], t12);
    FieldsLenAdds(QuietFields(m, shape.lean), t13);
    FieldsLenAdds(RefusedFields(m, shape.lean, shape.refused), t14);
  }
}
