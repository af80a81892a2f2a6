/** Which displays the compositor has: what one connection has said so far, and
    the snapshot made of it. */
module Outputs {
  import opened Common
  import opened Names

  const MAX_OUTPUTS := 64
  const MAX_TRACKED := 256
  const MAX_TRACKED_MODES := 4096
  const MAX_ANNOUNCED_HEADS := 512
  const MAX_ANNOUNCED_MODES := 8192
  const MAX_NAME := 256
  const MAX_REFRESH := 1_000_000

  datatype Mode = Mode(width: int, height: int, refresh: int)
  /** What one output said. */
  datatype Said = Said(name: string, mode: Option<Mode>)
  datatype Output = Output(global: nat, pending: Said, current: Option<Said>, logicalName: string)
  datatype Head = Head(id: nat, name: string, enabled: bool, mode: Option<Mode>, modes: seq<nat>)

  datatype Inventory = Inventory(
    outputs: seq<Output>, heads: seq<Head>,
    manager: bool, managed: bool, complete: bool, useWlr: bool,
    tooMany: bool, overflow: bool, churned: bool, announcedHeads: nat, announcedModes: nat)

  function Fresh(useWlr: bool): Inventory {
    Inventory([], [], false, false, false, useWlr, false, false, false, 0, 0)
  }

  datatype Event =
    | OutputAdded(global: nat)
    | OutputRemoved(global: nat)
    | OutputNamed(global: nat, name: string)
    | OutputMode(global: nat, mode: Mode)
    | OutputDone(global: nat)
    | LogicalNamed(global: nat, name: string)
    | ManagerOffered
      // What wlr-output-management says, once bound.
    | HeadAnnounced(id: nat)
    | ManagerDone
    | ManagerFinished
    | HeadFinished(id: nat)
    | HeadNamed(id: nat, name: string)
    | HeadEnabled(id: nat, enabled: bool)
    | HeadCurrentMode(id: nat, mode: Mode)
    | ModeAnnounced(head: nat, listed: nat)
    | ModeFinished(listed: nat)

  /** Events of wlr-output-management reach a client only through the objects
      it got by binding the manager. */
  predicate OfWlr(e: Event) {
    e.HeadAnnounced? || e.ManagerDone? || e.ManagerFinished? || e.HeadFinished? || e.HeadNamed? || e.HeadEnabled?
    || e.HeadCurrentMode? || e.ModeAnnounced? || e.ModeFinished?
  }

  /** The first place of a list that holds. */
  function FirstOf<T>(s: seq<T>, holds: T -> bool): (r: Option<nat>)
    ensures r.Some? ==> r.value < |s| && holds(s[r.value]) && forall i :: 0 <= i < r.value ==> !holds(s[i])
    ensures r.None? ==> forall i :: 0 <= i < |s| ==> !holds(s[i])
  {
    if s == [] then None
    else if holds(s[0]) then Some(0)
    else
      var rest := FirstOf(s[1..], holds);
      if rest.None? then None else Some(rest.value + 1)
  }

  function OutputAt(outputs: seq<Output>, global: nat): (r: Option<nat>)
    ensures r.Some? ==> r.value < |outputs| && outputs[r.value].global == global
  {
    FirstOf(outputs, (o: Output) => o.global == global)
  }

  function HeadAt(heads: seq<Head>, id: nat): (r: Option<nat>)
    ensures r.Some? ==> r.value < |heads| && heads[r.value].id == id
  {
    FirstOf(heads, (h: Head) => h.id == id)
  }

  function SwapRemoved<T>(s: seq<T>, index: nat): (r: seq<T>)
    requires index < |s|
    ensures |r| == |s| - 1
  {
    s[index := s[|s| - 1]][..|s| - 1]
  }

  function Modes(heads: seq<Head>): nat {
    if heads == [] then 0 else |heads[0].modes| + Modes(heads[1..])
  }

  function Dropped(modes: seq<nat>, mode: nat): (r: seq<nat>)
    ensures |r| <= |modes|
  {
    if modes == [] then []
    else if modes[0] == mode then Dropped(modes[1..], mode)
    else [modes[0]] + Dropped(modes[1..], mode)
  }

  function WithoutMode(heads: seq<Head>, mode: nat): (r: seq<Head>)
    ensures |r| == |heads| && Modes(r) <= Modes(heads)
  {
    if heads == [] then []
    else
      var rest := WithoutMode(heads[1..], mode);
      var r := [heads[0].(modes := Dropped(heads[0].modes, mode))] + rest;
      assert r[1..] == rest;
      r
  }

  /** A name as sent, cut when it is already too long to use. */
  function Connector(text: string): string {
    if |text| > MAX_NAME + 1 then text[..MAX_NAME + 1] else text
  }

  function WithOutput(v: Inventory, global: nat, change: Output -> Output): Inventory {
    var at := OutputAt(v.outputs, global);
    if at.None? then v else v.(outputs := v.outputs[at.value := change(v.outputs[at.value])])
  }

  function WithHead(v: Inventory, id: nat, change: Head -> Head): Inventory {
    var at := HeadAt(v.heads, id);
    if at.None? then v else v.(heads := v.heads[at.value := change(v.heads[at.value])])
  }

  function HeadTold(v: Inventory, id: nat): Inventory {
    var counted := v.(announcedHeads := v.announcedHeads + 1, churned := v.churned || v.announcedHeads + 1 > MAX_ANNOUNCED_HEADS);
    if |v.heads| >= MAX_TRACKED then counted.(overflow := true)
    else counted.(heads := v.heads + [Head(id, "", false, None, [])])
  }

  function ModeTold(v: Inventory, head: nat, mode: nat): Inventory {
    var counted := v.(announcedModes := v.announcedModes + 1, churned := v.churned || v.announcedModes + 1 > MAX_ANNOUNCED_MODES);
    var at := HeadAt(v.heads, head);
    if at.None? then counted
    else if Modes(v.heads) < MAX_TRACKED_MODES then
      counted.(heads := v.heads[at.value := v.heads[at.value].(modes := v.heads[at.value].modes + [mode])])
    else counted.(overflow := true)
  }

  /** What an event makes of what is known. */
  function Told(v: Inventory, e: Event): Inventory {
    if OfWlr(e) && !v.managed then v
    else
      match e
      case OutputAdded(global) =>
        if |v.outputs| >= MAX_TRACKED then v.(tooMany := true)
        else v.(outputs := v.outputs + [Output(global, Said("", None), None, "")])
      case OutputRemoved(global) =>
        var at := OutputAt(v.outputs, global);
        if at.None? then v else v.(outputs := SwapRemoved(v.outputs, at.value))
      case OutputNamed(global, name) =>
        WithOutput(v, global, (o: Output) => o.(pending := o.pending.(name := Connector(name))))
      case OutputMode(global, mode) =>
        WithOutput(v, global, (o: Output) => o.(pending := o.pending.(mode := Some(mode))))
      case OutputDone(global) => WithOutput(v, global, (o: Output) => o.(current := Some(o.pending)))
      case LogicalNamed(global, name) => WithOutput(v, global, (o: Output) => o.(logicalName := Connector(name)))
      case ManagerOffered => if v.useWlr && !v.manager then v.(manager := true, managed := true) else v
      case HeadAnnounced(id) => HeadTold(v, id)
      case ManagerDone => v.(complete := true)
      case ManagerFinished => v.(heads := [], manager := false, complete := false)
      case HeadFinished(id) =>
        var at := HeadAt(v.heads, id);
        if at.None? then v else v.(heads := SwapRemoved(v.heads, at.value))
      case HeadNamed(id, name) => WithHead(v, id, (h: Head) => h.(name := Connector(name)))
      case HeadEnabled(id, enabled) => WithHead(v, id, (h: Head) => h.(enabled := enabled))
      case HeadCurrentMode(id, mode) => WithHead(v, id, (h: Head) => h.(mode := Some(mode)))
      case ModeAnnounced(head, mode) => ModeTold(v, head, mode)
      case ModeFinished(mode) => v.(heads := WithoutMode(v.heads, mode))
  }

  // ---- The state a connection keeps ----

  class State {
    var known: Inventory

    constructor (useWlr: bool)
      ensures known == Fresh(useWlr)
    {
      known := Fresh(useWlr);
    }

    method AddOutput(global: nat)
      modifies this
      ensures known == Told(old(known), OutputAdded(global))
    {
      if |known.outputs| >= MAX_TRACKED {
        known := known.(tooMany := true);
        return;
      }
      known := known.(outputs := known.outputs + [Output(global, Said("", None), None, "")]);
    }

    method RemoveOutput(global: nat)
      modifies this
      ensures known == Told(old(known), OutputRemoved(global))
    {
      var index := OutputAt(known.outputs, global);
      if index.None? {
        return;
      }
      known := known.(outputs := SwapRemoved(known.outputs, index.value));
    }

    method AddHead(id: nat)
      requires known.managed
      modifies this
      ensures known == Told(old(known), HeadAnnounced(id))
    {
      known := known.(announcedHeads := known.announcedHeads + 1);
      known := known.(churned := known.churned || known.announcedHeads > MAX_ANNOUNCED_HEADS);
      if |known.heads| >= MAX_TRACKED {
        known := known.(overflow := true);
        return;
      }
      known := known.(heads := known.heads + [Head(id, "", false, None, [])]);
    }

    method AddMode(head: nat, mode: nat)
      requires known.managed
      modifies this
      ensures known == Told(old(known), ModeAnnounced(head, mode))
    {
      known := known.(announcedModes := known.announcedModes + 1);
      known := known.(churned := known.churned || known.announcedModes > MAX_ANNOUNCED_MODES);
      var tracked := 0;
      for n := 0 to |known.heads|
        invariant tracked + Modes(known.heads[n..]) == Modes(known.heads)
        invariant known == old(known).(announcedModes := known.announcedModes, churned := known.churned)
      {
        assert known.heads[n..][1..] == known.heads[n + 1..];
        tracked := tracked + |known.heads[n].modes|;
      }
      var index := HeadAt(known.heads, head);
      if index.None? {
        return;
      }
      var at := known.heads[index.value];
      if tracked < MAX_TRACKED_MODES {
        known := known.(heads := known.heads[index.value := at.(modes := at.modes + [mode])]);
      } else {
        known := known.(overflow := true);
      }
    }

    method FinishHead(id: nat)
      requires known.managed
      modifies this
      ensures known == Told(old(known), HeadFinished(id))
    {
      var index := HeadAt(known.heads, id);
      if index.Some? {
        known := known.(heads := SwapRemoved(known.heads, index.value));
      }
    }

    method FinishManager()
      requires known.managed
      modifies this
      ensures known == Told(old(known), ManagerFinished)
    {
      known := known.(heads := []);
      known := known.(manager := false);
      known := known.(complete := false);
    }

    /** Every display known now, by name; an error when there are too many. */
    method Snapshot() returns (rows: Option<seq<Row>>)
      ensures rows == Snapshots(known)
    {
      if known.tooMany {
        return None;
      }
      var found: seq<Row> := [];
      for n := 0 to |known.outputs|
        invariant found == EnabledRows(known.outputs[..n])
      {
        assert known.outputs[..n + 1][..n] == known.outputs[..n];
        var entry := known.outputs[n];
        if entry.current.Some? && Usable(NameOf(entry)) && !Lists(found, NameOf(entry)) {
          found := found + [RowOf(entry)];
        }
      }
      assert known.outputs[..|known.outputs|] == known.outputs;
      if |found| > MAX_OUTPUTS {
        return None;
      }
      var heads, on := Complete(known), found;
      for n := 0 to |heads|
        invariant found == WithOff(on, heads[..n])
      {
        assert heads[..n + 1][..n] == heads[..n];
        if |found| < MAX_OUTPUTS && !heads[n].enabled && Usable(Trim(heads[n].name)) && !Lists(found, Trim(heads[n].name)) {
          found := found + [OffRow(heads[n])];
        }
      }
      assert heads[..|heads|] == heads;
      rows := Some(SortedRows(found));
    }
  }

  // ---- Snapshots ----

  datatype Row = Row(name: string, enabled: bool, width: nat, height: nat, refresh: Option<nat>)

  predicate IsControl(c: char) {
    c < ' ' || c == '\U{7f}'
  }

  predicate Usable(name: string) {
    name != [] && |name| <= MAX_NAME && forall c :: c in name ==> !IsSpace(c) && !IsControl(c)
  }

  function NameOf(entry: Output): string
    requires entry.current.Some?
  {
    if Trim(entry.current.value.name) == [] then Trim(entry.logicalName) else Trim(entry.current.value.name)
  }

  function Dimension(value: int): nat {
    if value < 0 then 0 else value
  }

  function Refresh(value: int): Option<nat> {
    if 0 < value <= MAX_REFRESH then Some(value) else None
  }

  function Described(name: string, enabled: bool, mode: Option<Mode>): Row {
    var m := if mode.Some? then mode.value else Mode(0, 0, 0);
    Row(name, enabled, Dimension(m.width), Dimension(m.height), Refresh(m.refresh))
  }

  function RowOf(entry: Output): Row
    requires entry.current.Some?
  {
    Described(NameOf(entry), true, entry.current.value.mode)
  }

  function OffRow(head: Head): Row {
    Described(Trim(head.name), false, head.mode)
  }

  predicate Lists(rows: seq<Row>, name: string) {
    exists row :: row in rows && row.name == name
  }

  /** Each usable name once, as the first output of that name says. */
  function EnabledRows(outputs: seq<Output>): seq<Row> {
    if outputs == [] then []
    else
      var rest, entry := EnabledRows(outputs[..|outputs| - 1]), outputs[|outputs| - 1];
      if entry.current.Some? && Usable(NameOf(entry)) && !Lists(rest, NameOf(entry)) then rest + [RowOf(entry)] else rest
  }

  /** The heads, where they are a complete set. */
  function Complete(v: Inventory): seq<Head> {
    if v.complete && v.manager && !v.overflow then v.heads else []
  }

  function WithOff(found: seq<Row>, heads: seq<Head>): seq<Row> {
    if heads == [] then found
    else
      var rest, head := WithOff(found, heads[..|heads| - 1]), heads[|heads| - 1];
      if |rest| < MAX_OUTPUTS && !head.enabled && Usable(Trim(head.name)) && !Lists(rest, Trim(head.name))
      then rest + [OffRow(head)] else rest
  }

  function Placed(rows: seq<Row>, row: Row): seq<Row> {
    if rows == [] || Less(row.name, rows[0].name) then [row] + rows else [rows[0]] + Placed(rows[1..], row)
  }

  function SortedRows(rows: seq<Row>): seq<Row> {
    if rows == [] then [] else Placed(SortedRows(rows[..|rows| - 1]), rows[|rows| - 1])
  }

  function Snapshots(v: Inventory): Option<seq<Row>> {
    if v.tooMany || |EnabledRows(v.outputs)| > MAX_OUTPUTS then None
    else Some(SortedRows(WithOff(EnabledRows(v.outputs), Complete(v))))
  }
}
