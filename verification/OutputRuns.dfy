/** What a connection keeps over every sequence of events, and what one
    question to the compositor comes to. */
module OutputRuns {
  import opened Common
  import opened Names
  import opened Outputs

  // ---- Ceilings ----

  ghost predicate Bounded(v: Inventory) {
    && |v.outputs| <= MAX_TRACKED && |v.heads| <= MAX_TRACKED && Modes(v.heads) <= MAX_TRACKED_MODES
    && (v.managed ==> v.useWlr)
    && (!v.managed ==> !v.overflow && !v.churned && v.heads == [] && !v.manager
                       && v.announcedHeads == v.announcedModes == 0)
  }

  lemma {:induction false} ModesAppend(heads: seq<Head>, head: Head)
    ensures Modes(heads + [head]) == Modes(heads) + |head.modes|
  {
    if heads != [] {
      ModesAppend(heads[1..], head);
      assert (heads + [head])[1..] == heads[1..] + [head];
    }
  }

  lemma {:induction false} ModesUpdate(heads: seq<Head>, at: nat, head: Head)
    requires at < |heads|
    ensures Modes(heads[at := head]) + |heads[at].modes| == Modes(heads) + |head.modes|
  {
    if at == 0 {
      assert heads[0 := head][1..] == heads[1..];
    } else {
      ModesUpdate(heads[1..], at - 1, head);
      assert heads[at := head][1..] == heads[1..][at - 1 := head];
    }
  }

  lemma ModesSwapRemoved(heads: seq<Head>, at: nat)
    requires at < |heads|
    ensures Modes(SwapRemoved(heads, at)) + |heads[at].modes| == Modes(heads)
  {
    var last := |heads| - 1;
    var moved := heads[at := heads[last]];
    ModesUpdate(heads, at, heads[last]);
    ModesAppend(moved[..last], moved[last]);
    assert moved == moved[..last] + [moved[last]];
  }

  lemma HeadIsBounded(v: Inventory, id: nat)
    requires Bounded(v) && v.managed
    ensures Bounded(HeadTold(v, id)) && HeadTold(v, id).useWlr == v.useWlr
  {
    ModesAppend(v.heads, Head(id, "", false, None, []));
  }

  lemma ModeIsBounded(v: Inventory, head: nat, mode: nat)
    requires Bounded(v) && v.managed
    ensures Bounded(ModeTold(v, head, mode)) && ModeTold(v, head, mode).useWlr == v.useWlr
  {
    var at := HeadAt(v.heads, head);
    if at.Some? {
      ModesUpdate(v.heads, at.value, v.heads[at.value].(modes := v.heads[at.value].modes + [mode]));
    }
  }

  lemma HeadChangeIsBounded(v: Inventory, id: nat, change: Head -> Head)
    requires Bounded(v) && v.managed && forall h :: change(h).modes == h.modes
    ensures Bounded(WithHead(v, id, change)) && WithHead(v, id, change).useWlr == v.useWlr
  {
    var at := HeadAt(v.heads, id);
    if at.Some? {
      ModesUpdate(v.heads, at.value, change(v.heads[at.value]));
    }
  }

  lemma HeadGoneIsBounded(v: Inventory, at: nat)
    requires Bounded(v) && v.managed && at < |v.heads|
    ensures Bounded(v.(heads := SwapRemoved(v.heads, at)))
  {
    ModesSwapRemoved(v.heads, at);
  }

  lemma EventIsBounded(v: Inventory, e: Event)
    requires Bounded(v)
    ensures Bounded(Told(v, e)) && Told(v, e).useWlr == v.useWlr
  {
    hide Modes, SwapRemoved, WithoutMode, OutputAt, HeadAt, Connector, HeadTold, ModeTold, Bounded;
    if OfWlr(e) {
      if v.managed {
        WlrEventIsBounded(v, e);
      }
    } else {
      OutputEventIsBounded(v, e);
    }
  }

  lemma OutputEventIsBounded(v: Inventory, e: Event)
    requires Bounded(v) && !OfWlr(e)
    ensures Bounded(Told(v, e)) && Told(v, e).useWlr == v.useWlr
  {
    hide Modes, SwapRemoved, WithoutMode, OutputAt, HeadAt, Connector, HeadTold, ModeTold, WithHead;
  }

  lemma WlrEventIsBounded(v: Inventory, e: Event)
    requires Bounded(v) && v.managed && OfWlr(e)
    ensures Bounded(Told(v, e)) && Told(v, e).useWlr == v.useWlr
  {
    hide Modes, SwapRemoved, WithoutMode, OutputAt, HeadAt, Connector, HeadTold, ModeTold, WithHead, WithOutput, Bounded;
    match e {
      case HeadAnnounced(id) => HeadIsBounded(v, id);
      case HeadFinished(id) =>
        var at := HeadAt(v.heads, id);
        if at.Some? {
          HeadGoneIsBounded(v, at.value);
        }
      case HeadNamed(id, name) => HeadChangeIsBounded(v, id, (h: Head) => h.(name := Connector(name)));
      case HeadEnabled(id, enabled) => HeadChangeIsBounded(v, id, (h: Head) => h.(enabled := enabled));
      case HeadCurrentMode(id, mode) => HeadChangeIsBounded(v, id, (h: Head) => h.(mode := Some(mode)));
      case ModeAnnounced(head, mode) => ModeIsBounded(v, head, mode);
      case ManagerDone => DoneIsBounded(v, e);
      case ManagerFinished => DoneIsBounded(v, e);
      case ModeFinished(mode) => DoneIsBounded(v, e);
    }
  }

  lemma DoneIsBounded(v: Inventory, e: Event)
    requires Bounded(v) && v.managed && (e.ManagerDone? || e.ManagerFinished? || e.ModeFinished?)
    ensures Bounded(Told(v, e)) && Told(v, e).useWlr == v.useWlr
  {
  }

  function ToldAll(v: Inventory, events: seq<Event>): Inventory
    decreases |events|
  {
    if events == [] then v else ToldAll(Told(v, events[0]), events[1..])
  }

  /** Over every sequence of events: at most 256 outputs and 256 heads are
      tracked, and 4096 modes over all heads; and a connection that leaves
      wlr-output-management out is never flooded or worn out. */
  lemma {:induction false} EveryConnectionIsBounded(v: Inventory, events: seq<Event>)
    requires Bounded(v)
    ensures var r := ToldAll(v, events);
      Bounded(r) && r.useWlr == v.useWlr && (!r.useWlr ==> !r.overflow && !r.churned)
    decreases |events|
  {
    hide Told;
    if events != [] {
      EventIsBounded(v, events[0]);
      EveryConnectionIsBounded(Told(v, events[0]), events[1..]);
    }
  }

  // ---- Snapshots ----

  ghost predicate DifferentNames(rows: seq<Row>) {
    forall i, j :: 0 <= i < j < |rows| ==> rows[i].name != rows[j].name
  }

  ghost predicate InOrder(rows: seq<Row>) {
    forall i, j :: 0 <= i < j < |rows| ==> Less(rows[i].name, rows[j].name)
  }

  /** An output that is the first to give its name. */
  ghost predicate FirstOfName(outputs: seq<Output>, i: nat) {
    && i < |outputs| && outputs[i].current.Some? && Usable(NameOf(outputs[i]))
    && forall j :: 0 <= j < i && outputs[j].current.Some? ==> NameOf(outputs[j]) != NameOf(outputs[i])
  }

  ghost predicate IsFirstRow(outputs: seq<Output>, row: Row) {
    exists i: nat :: FirstOfName(outputs, i) && row == RowOf(outputs[i])
  }

  ghost predicate NamesListed(outputs: seq<Output>, rows: seq<Row>) {
    forall i :: 0 <= i < |outputs| && outputs[i].current.Some? && Usable(NameOf(outputs[i])) ==> Lists(rows, NameOf(outputs[i]))
  }

  /** The rows of displays that are on: one for each usable name an output
      gives, as the first output of that name says. */
  lemma {:induction false} EnabledRowsAre(outputs: seq<Output>)
    ensures DifferentNames(EnabledRows(outputs))
    ensures forall row :: row in EnabledRows(outputs) <==> IsFirstRow(outputs, row)
    ensures NamesListed(outputs, EnabledRows(outputs))
  {
    hide Usable, NameOf, Dimension, Refresh, IsFirstRow, NamesListed, DifferentNames;
    if outputs == [] {
      NoOutputs();
    } else {
      var last := |outputs| - 1;
      var before, entry := outputs[..last], outputs[last];
      var rest := EnabledRows(before);
      EnabledRowsAre(before);
      LastIsFirst(outputs, rest);
      forall row
        ensures IsFirstRow(outputs, row) <==> IsFirstRow(before, row) || (FirstOfName(outputs, last) && row == RowOf(entry))
      {
        FirstRowsOfMore(outputs, row);
      }
      if entry.current.Some? && Usable(NameOf(entry)) && !Lists(rest, NameOf(entry)) {
        AppendDifferent(rest, RowOf(entry));
        ListedStill(outputs, rest, rest + [RowOf(entry)]);
      } else {
        ListedStill(outputs, rest, rest);
      }
    }
  }

  lemma NoOutputs()
    ensures DifferentNames([]) && NamesListed([], []) && forall row :: !IsFirstRow([], row)
  {
  }

  lemma AppendDifferent(rows: seq<Row>, row: Row)
    requires DifferentNames(rows) && !Lists(rows, row.name)
    ensures DifferentNames(rows + [row])
  {
    forall i | 0 <= i < |rows|
      ensures rows[i].name != row.name
    {
      assert rows[i] in rows;
    }
  }

  lemma FirstRowsOfMore(outputs: seq<Output>, row: Row)
    requires outputs != []
    ensures var last := |outputs| - 1;
      IsFirstRow(outputs, row) <==> IsFirstRow(outputs[..last], row) || (FirstOfName(outputs, last) && row == RowOf(outputs[last]))
  {
    hide Usable, NameOf, RowOf;
    var last := |outputs| - 1;
    var before := outputs[..last];
    forall i: nat | i < last
      ensures FirstOfName(outputs, i) <==> FirstOfName(before, i)
    {
      assert outputs[i] == before[i];
    }
    if IsFirstRow(before, row) {
      var i: nat :| FirstOfName(before, i) && row == RowOf(before[i]);
      assert FirstOfName(outputs, i);
    }
    if IsFirstRow(outputs, row) {
      var i: nat :| FirstOfName(outputs, i) && row == RowOf(outputs[i]);
      if i < last {
        assert FirstOfName(before, i);
      }
    }
  }

  lemma ListedStill(outputs: seq<Output>, rest: seq<Row>, rows: seq<Row>)
    requires outputs != [] && NamesListed(outputs[..|outputs| - 1], rest)
    requires rows == rest || (|rows| == |rest| + 1 && rows[..|rest|] == rest)
    requires var entry := outputs[|outputs| - 1];
      entry.current.Some? && Usable(NameOf(entry)) ==> Lists(rest, NameOf(entry)) || rows == rest + [RowOf(entry)]
    ensures NamesListed(outputs, rows)
  {
    hide Usable, NameOf, Dimension, Refresh;
    var last := |outputs| - 1;
    assert forall row :: row in rest ==> row in rows by {
      assert forall k :: 0 <= k < |rest| ==> rest[k] == rows[k];
    }
    forall i | 0 <= i < |outputs| && outputs[i].current.Some? && Usable(NameOf(outputs[i]))
      ensures Lists(rows, NameOf(outputs[i]))
    {
      if i < last {
        assert outputs[i] == outputs[..last][i];
        assert Lists(rest, NameOf(outputs[i]));
      } else if rows == rest + [RowOf(outputs[last])] {
        assert RowOf(outputs[last]) in rows && RowOf(outputs[last]).name == NameOf(outputs[last]);
      }
    }
  }

  /** The last output is the first of its name when no row has it yet. */
  lemma LastIsFirst(outputs: seq<Output>, rest: seq<Row>)
    requires outputs != []
    requires var before := outputs[..|outputs| - 1];
      (forall row :: row in rest <==> IsFirstRow(before, row)) && NamesListed(before, rest)
    ensures var entry := outputs[|outputs| - 1];
      FirstOfName(outputs, |outputs| - 1) <==>
        entry.current.Some? && Usable(NameOf(entry)) && !Lists(rest, NameOf(entry))
  {
    hide Usable, NameOf, Dimension, Refresh;
    var last := |outputs| - 1;
    var before, entry := outputs[..last], outputs[last];
    if entry.current.Some? && Usable(NameOf(entry)) {
      var name := NameOf(entry);
      if Lists(rest, name) {
        var row :| row in rest && row.name == name;
        assert IsFirstRow(before, row);
        var i: nat :| FirstOfName(before, i) && row == RowOf(before[i]);
        assert outputs[i] == before[i] && NameOf(outputs[i]) == name;
      } else {
        forall j | 0 <= j < last && outputs[j].current.Some?
          ensures NameOf(outputs[j]) != name
        {
          assert outputs[j] == before[j];
          assert Usable(NameOf(before[j])) ==> Lists(rest, NameOf(before[j]));
        }
      }
    }
  }

  /** A head that may be listed as off. */
  predicate Off(h: Head) {
    !h.enabled && Usable(Trim(h.name))
  }

  ghost predicate IsOffRow(heads: seq<Head>, row: Row) {
    exists h :: h in heads && Off(h) && row == OffRow(h)
  }

  ghost predicate OffListed(heads: seq<Head>, rows: seq<Row>) {
    forall h :: h in heads && Off(h) ==> Lists(rows, Trim(h.name))
  }

  ghost predicate AddsOff(found: seq<Row>, heads: seq<Head>, rows: seq<Row>) {
    && |found| <= |rows| <= MAX_OUTPUTS && rows[..|found|] == found && DifferentNames(rows)
    && (forall k :: |found| <= k < |rows| ==> IsOffRow(heads, rows[k]))
    && (|rows| < MAX_OUTPUTS ==> OffListed(heads, rows))
  }

  /** Rows of displays that are off come after, each a head that is off and
      has a name no row has; with room left, every such name is listed. */
  lemma {:induction false} WithOffAre(found: seq<Row>, heads: seq<Head>)
    requires DifferentNames(found) && |found| <= MAX_OUTPUTS
    ensures AddsOff(found, heads, WithOff(found, heads))
  {
    hide Usable, Trim, Dimension, Refresh, AddsOff;
    if heads == [] {
      NothingOff(found);
    } else {
      var last := |heads| - 1;
      var head, rest := heads[last], WithOff(found, heads[..last]);
      WithOffAre(found, heads[..last]);
      if |rest| < MAX_OUTPUTS && Off(head) && !Lists(rest, Trim(head.name)) {
        OneMoreOff(found, heads, rest);
      } else {
        NoMoreOff(found, heads, rest);
      }
    }
  }

  lemma NothingOff(found: seq<Row>)
    requires DifferentNames(found) && |found| <= MAX_OUTPUTS
    ensures AddsOff(found, [], found)
  {
  }

  lemma NoMoreOff(found: seq<Row>, heads: seq<Head>, rest: seq<Row>)
    requires heads != [] && AddsOff(found, heads[..|heads| - 1], rest)
    requires var head := heads[|heads| - 1]; |rest| < MAX_OUTPUTS && Off(head) ==> Lists(rest, Trim(head.name))
    ensures AddsOff(found, heads, rest)
  {
    hide Off, Trim, DifferentNames;
    var last := |heads| - 1;
    assert forall h :: h in heads <==> h in heads[..last] || h == heads[last];
    assert forall row :: IsOffRow(heads[..last], row) ==> IsOffRow(heads, row);
  }

  lemma OneMoreOff(found: seq<Row>, heads: seq<Head>, rest: seq<Row>)
    requires heads != [] && AddsOff(found, heads[..|heads| - 1], rest)
    requires var head := heads[|heads| - 1]; |rest| < MAX_OUTPUTS && Off(head) && !Lists(rest, Trim(head.name))
    ensures AddsOff(found, heads, rest + [OffRow(heads[|heads| - 1])])
  {
    hide Off, Trim, Dimension, Refresh;
    var last := |heads| - 1;
    var r := rest + [OffRow(heads[last])];
    assert forall h :: h in heads <==> h in heads[..last] || h == heads[last];
    assert forall row :: IsOffRow(heads[..last], row) ==> IsOffRow(heads, row);
    assert IsOffRow(heads, OffRow(heads[last]));
    assert forall row :: row in rest ==> row in r;
    assert r[|rest|] in r && r[|rest|].name == Trim(heads[last].name);
    AppendDifferent(rest, OffRow(heads[last]));
  }

  lemma {:induction false} PlacedAre(rows: seq<Row>, row: Row)
    requires InOrder(rows) && !Lists(rows, row.name)
    ensures InOrder(Placed(rows, row)) && |Placed(rows, row)| == |rows| + 1
    ensures forall r :: r in Placed(rows, row) <==> r == row || r in rows
  {
    if rows != [] {
      LessIsTotal(row.name, rows[0].name);
      assert rows[0] in rows;
      if Less(row.name, rows[0].name) {
        forall i | 0 <= i < |rows|
          ensures Less(row.name, rows[i].name)
        {
          if i > 0 {
            LessIsTransitive(row.name, rows[0].name, rows[i].name);
          }
        }
      } else {
        assert forall r :: r in rows <==> r == rows[0] || r in rows[1..];
        PlacedAre(rows[1..], row);
        var rest := Placed(rows[1..], row);
        forall i | 0 <= i < |rest|
          ensures Less(rows[0].name, rest[i].name)
        {
          assert rest[i] in rest;
        }
      }
    }
  }

  lemma {:induction false} SortedRowsAre(rows: seq<Row>)
    requires DifferentNames(rows)
    ensures InOrder(SortedRows(rows)) && |SortedRows(rows)| == |rows|
    ensures forall r :: r in SortedRows(rows) <==> r in rows
  {
    if rows != [] {
      var last := |rows| - 1;
      SortedRowsAre(rows[..last]);
      assert forall r :: r in rows <==> r in rows[..last] || r == rows[last];
      PlacedAre(SortedRows(rows[..last]), rows[last]);
    }
  }

  /** What a snapshot is of everything known: none when outputs were left
      untracked or more than 64 names are on; otherwise 64 rows at most, in
      order of name, each name once: every display that is on, as its first
      output says, and those that are off and not among them, all of them
      while there is room. */
  lemma SnapshotIs(v: Inventory)
    ensures Snapshots(v).None? <==> v.tooMany || |EnabledRows(v.outputs)| > MAX_OUTPUTS
    ensures Snapshots(v).Some? ==>
      var rows := Snapshots(v).value;
      && |rows| <= MAX_OUTPUTS && InOrder(rows)
      && (forall row :: IsFirstRow(v.outputs, row) ==> row in rows)
      && (forall row :: row in rows ==>
            || IsFirstRow(v.outputs, row)
            || (IsOffRow(Complete(v), row) && !Lists(EnabledRows(v.outputs), row.name)))
      && (|rows| < MAX_OUTPUTS ==> OffListed(Complete(v), rows))
  {
    hide IsFirstRow, IsOffRow, EnabledRows, WithOff, SortedRows, Complete, InOrder, Off, Trim;
    if Snapshots(v).Some? {
      var on := EnabledRows(v.outputs);
      EnabledRowsAre(v.outputs);
      WithOffAre(on, Complete(v));
      var all := WithOff(on, Complete(v));
      SortedRowsAre(all);
      forall row | row in all
        ensures row in on || (IsOffRow(Complete(v), row) && !Lists(on, row.name))
      {
        var k :| 0 <= k < |all| && all[k] == row;
        if k >= |on| {
          NameIsNew(on, all, k);
        } else {
          assert all[k] == on[k];
        }
      }
      forall row | row in on
        ensures row in all
      {
        var k :| 0 <= k < |on| && on[k] == row;
        assert all[k] == on[k];
      }
    }
  }

  lemma NameIsNew(on: seq<Row>, all: seq<Row>, k: nat)
    requires DifferentNames(all) && |on| <= k < |all| && all[..|on|] == on
    ensures !Lists(on, all[k].name)
  {
    forall row | row in on
      ensures row.name != all[k].name
    {
      var i :| 0 <= i < |on| && on[i] == row;
      assert all[i] == all[..|on|][i];
    }
  }

  // ---- One question ----

  datatype Ending = Flooded | Away | Otherwise

  /** What comes of a connection until its question is answered: its events,
      whether it fails beside, by being closed or otherwise, and whether the
      question's time is up by then. */
  datatype Outcome = Outcome(events: seq<Event>, failed: bool, closed: bool, late: bool)

  datatype Attempt = Refused(away: bool) | Connected(outcome: Outcome)

  /** A question: what comes of the connection there is, and of each new one;
      and which socket it is. */
  datatype Question = Question(existing: Outcome, attempts: nat -> Attempt, socket: Option<nat>)

  datatype Watch = Watch(session: Option<Inventory>, withoutWlr: bool, floodedSocket: Option<nat>)

  predicate Fails(v: Inventory, o: Outcome) {
    o.failed || v.overflow || v.churned
  }

  function EndingOf(v: Inventory, o: Outcome): Ending {
    if v.overflow then Flooded else if o.closed then Away else Otherwise
  }

  function Lost(w: Watch, ending: Ending, socket: Option<nat>): Watch {
    match ending
    case Flooded => Watch(None, true, socket)
    case Away => w.(session := None, withoutWlr := false)
    case Otherwise => w.(session := None)
  }

  /** The answer from a connection that is up to date. */
  function Answered(w: Watch, v: Inventory): (Watch, Option<seq<Row>>) {
    (w.(session := if v.tooMany then None else Some(v)), Snapshots(v))
  }

  datatype Answer = Answer(watch: Watch, rows: Option<seq<Row>>, made: nat)

  /** New connections, until one answers. */
  function Try(w: Watch, q: Question, made: nat): Answer
    decreases if w.withoutWlr then 0 else 1
  {
    match q.attempts(made)
    case Refused(away) => Answer(Lost(w, if away then Away else Otherwise, q.socket), None, made)
    case Connected(o) =>
      assert Bounded(Fresh(!w.withoutWlr));
      EveryConnectionIsBounded(Fresh(!w.withoutWlr), o.events);
      var v := ToldAll(Fresh(!w.withoutWlr), o.events);
      if !Fails(v, o) then
        var (after, rows) := Answered(w, v);
        Answer(after, rows, made + 1)
      else
        var after := Lost(w, EndingOf(v, o), q.socket);
        if EndingOf(v, o) != Flooded || o.late then Answer(after, None, made + 1) else Try(after, q, made + 1)
  }

  /** Another socket in the flooding compositor's place is another's. */
  function Forgiven(w: Watch, socket: Option<nat>): Watch {
    if w.withoutWlr && socket != w.floodedSocket then w.(withoutWlr := false) else w
  }

  function Asked(w: Watch, q: Question): Answer {
    if w.session.None? then Try(Forgiven(w, q.socket), q, 0)
    else
      var v := ToldAll(w.session.value, q.existing.events);
      if !Fails(v, q.existing) then
        var (after, rows) := Answered(w, v);
        Answer(after, rows, 0)
      else
        var after := Lost(w, EndingOf(v, q.existing), q.socket);
        if q.existing.late then Answer(after, None, 0) else Try(Forgiven(after, q.socket), q, 0)
  }

  class WaylandOutputs {
    var session: Option<Inventory>
    var withoutWlr: bool
    var floodedSocket: Option<nat>

    function Value(): Watch
      reads this
    {
      Watch(session, withoutWlr, floodedSocket)
    }

    constructor ()
      ensures Value() == Watch(None, false, None)
    {
      session, withoutWlr, floodedSocket := None, false, None;
    }

    method Lose(ending: Ending, socket: Option<nat>)
      modifies this
      ensures Value() == Lost(old(Value()), ending, socket)
    {
      session := None;
      match ending {
        case Flooded => withoutWlr, floodedSocket := true, socket;
        case Away => withoutWlr := false;
        case Otherwise =>
      }
    }

    method Snapshot(known: Inventory) returns (rows: Option<seq<Row>>)
      modifies this
      ensures (Value(), rows) == Answered(old(Value()), known)
    {
      session := Some(known);
      rows := Snapshots(known);
      if known.tooMany {
        session := None;
      }
    }

    /** Ask the compositor, over the connection there is or new ones; the loop
        ends because only a connection that used wlr-output-management can be
        flooded. */
    method Ask(q: Question) returns (rows: Option<seq<Row>>, made: nat)
      requires session.Some? ==> Bounded(session.value)
      modifies this
      ensures Answer(Value(), rows, made) == Asked(old(Value()), q)
    {
      hide ToldAll, Snapshots;
      made := 0;
      if session.Some? {
        var known := ToldAll(session.value, q.existing.events);
        if !Fails(known, q.existing) {
          rows := Snapshot(known);
          return;
        }
        Lose(EndingOf(known, q.existing), q.socket);
        if q.existing.late {
          return None, made;
        }
      }
      if withoutWlr && q.socket != floodedSocket {
        withoutWlr := false;
      }
      ghost var start := Value();
      while true
        invariant Asked(old(Value()), q) == Try(Value(), q, made)
        decreases if withoutWlr then 0 else 1
      {
        match q.attempts(made) {
          case Refused(away) =>
            Lose(if away then Away else Otherwise, q.socket);
            return None, made;
          case Connected(o) =>
            var known := ToldAll(Fresh(!withoutWlr), o.events);
            EveryConnectionIsBounded(Fresh(!withoutWlr), o.events);
            made := made + 1;
            if !Fails(known, o) {
              rows := Snapshot(known);
              return;
            }
            var ending := EndingOf(known, o);
            Lose(ending, q.socket);
            if ending != Flooded || o.late {
              return None, made;
            }
        }
      }
    }
  }

  /** A session in use is bounded, and uses wlr-output-management exactly
      while that isn't left out. */
  ghost predicate Sound(w: Watch) {
    w.session.Some? ==> Bounded(w.session.value) && w.session.value.useWlr == !w.withoutWlr
  }

  lemma TryIsSound(w: Watch, q: Question, made: nat)
    requires w.session.None?
    ensures var a := Try(w, q, made);
      && Sound(a.watch)
      && made <= a.made <= made + (if w.withoutWlr then 1 else 2)
      && (a.rows.Some? ==> a.watch.session.Some? && a.rows == Snapshots(a.watch.session.value))
      && (w.withoutWlr || a.made == made + 2 ==> a.watch.session.Some? ==> !a.watch.session.value.useWlr)
    decreases if w.withoutWlr then 0 else 1
  {
    hide ToldAll, Snapshots;
    match q.attempts(made) {
      case Refused(_) =>
      case Connected(o) =>
        var v := ToldAll(Fresh(!w.withoutWlr), o.events);
        EveryConnectionIsBounded(Fresh(!w.withoutWlr), o.events);
        NoSnapshotOfTooMany(v);
        if Fails(v, o) && EndingOf(v, o) == Flooded && !o.late {
          TryIsSound(Lost(w, Flooded, q.socket), q, made + 1);
        }
    }
  }

  lemma NoSnapshotOfTooMany(v: Inventory)
    ensures v.tooMany ==> Snapshots(v).None?
  {
  }

  /** One question opens at most two connections, whatever the compositor
      does, and one at most while wlr-output-management is left out; what it
      answers is the snapshot of the connection it keeps. */
  lemma OneQuestionOpensTwoAtMost(w: Watch, q: Question)
    requires Sound(w)
    ensures var a := Asked(w, q);
      && Sound(a.watch) && a.made <= 2
      && (a.made == 2 ==> a.watch.session.Some? ==> !a.watch.session.value.useWlr)
      && (a.rows.Some? ==> a.watch.session.Some? && a.rows == Snapshots(a.watch.session.value))
  {
    hide ToldAll, Snapshots, Try;
    if w.session.None? {
      TryIsSound(Forgiven(w, q.socket), q, 0);
    } else {
      var v := ToldAll(w.session.value, q.existing.events);
      EveryConnectionIsBounded(w.session.value, q.existing.events);
      NoSnapshotOfTooMany(v);
      TryIsSound(Forgiven(Lost(w, EndingOf(v, q.existing), q.socket), q.socket), q, 0);
    }
  }

  /** A connection that is up to date answers, and is kept. */
  lemma TheOpenConnectionAnswers(w: Watch, q: Question)
    requires w.session.Some? && !Fails(ToldAll(w.session.value, q.existing.events), q.existing)
    ensures var a, v := Asked(w, q), ToldAll(w.session.value, q.existing.events);
      && a.made == 0 && a.rows == Snapshots(v)
      && a.watch == w.(session := if v.tooMany then None else Some(v))
  {
    hide ToldAll, Snapshots;
  }

  /** From a new connection on, wlr-output-management is left out exactly of the
      compositor that flooded it last: of another's socket, or of one that went
      away, it isn't. */
  lemma OnlyTheFlooderIsLeftOut(w: Watch, q: Question, made: nat)
    requires w.session.None? && (w.withoutWlr ==> w.floodedSocket == q.socket)
    ensures var a := Try(w, q, made);
      && (a.watch.withoutWlr ==> a.watch.floodedSocket == q.socket)
      && (q.attempts(made) == Refused(true) ==> !a.watch.withoutWlr)
      && (q.attempts(made).Refused? ==> a.rows.None? && a.made == made)
      && (q.attempts(made) == Refused(false) ==> a.watch.withoutWlr == w.withoutWlr)
    decreases if w.withoutWlr then 0 else 1
  {
    hide ToldAll, Snapshots;
    if q.attempts(made).Connected? {
      var o := q.attempts(made).outcome;
      var v := ToldAll(Fresh(!w.withoutWlr), o.events);
      EveryConnectionIsBounded(Fresh(!w.withoutWlr), o.events);
      if Fails(v, o) && EndingOf(v, o) == Flooded && !o.late {
        OnlyTheFlooderIsLeftOut(Lost(w, Flooded, q.socket), q, made + 1);
      }
    }
  }

  /** A flood is met by one more connection without that protocol, in time; any
      other failure ends the question, without an answer and unconnected. */
  lemma OnlyAFloodIsRetried(w: Watch, q: Question, made: nat)
    requires w.session.None? && q.attempts(made).Connected?
    ensures var o := q.attempts(made).outcome; var v, a := ToldAll(Fresh(!w.withoutWlr), o.events), Try(w, q, made);
      && (!Fails(v, o) ==>
            a.made == made + 1 && a.rows == Snapshots(v) && a.watch == w.(session := if v.tooMany then None else Some(v)))
      && (Fails(v, o) && (!v.overflow || o.late) ==> a.made == made + 1 && a.rows.None? && a.watch.session.None?)
      && (v.overflow ==> !w.withoutWlr)
      && (v.overflow && !o.late ==> a == Try(Watch(None, true, q.socket), q, made + 1))
      && (v.overflow && o.late ==> a.watch == Watch(None, true, q.socket))
      && (Fails(v, o) && !v.overflow ==> (a.watch.withoutWlr <==> w.withoutWlr && !o.closed))
  {
    hide ToldAll, Snapshots;
    EveryConnectionIsBounded(Fresh(!w.withoutWlr), q.attempts(made).outcome.events);
  }
}
