/** What each event of one connection tells, and when it shows. */
module OutputEvents {
  import opened Common
  import opened Outputs
  import Names

  /** The first output of a global. */
  ghost predicate FirstWith(outputs: seq<Output>, global: nat, i: nat) {
    i < |outputs| && outputs[i].global == global && forall j :: 0 <= j < i ==> outputs[j].global != global
  }

  ghost predicate FirstHead(heads: seq<Head>, id: nat, i: nat) {
    i < |heads| && heads[i].id == id && forall j :: 0 <= j < i ==> heads[j].id != id
  }

  // ---- What goes ----

  lemma SwapRemovedIs<T>(s: seq<T>, i: nat)
    requires i < |s|
    ensures multiset(SwapRemoved(s, i)) == multiset(s) - multiset{s[i]}
    ensures forall k :: 0 <= k < |s| - 1 && k != i ==> SwapRemoved(s, i)[k] == s[k]
    ensures i < |s| - 1 ==> SwapRemoved(s, i)[i] == s[|s| - 1]
  {
    var last := |s| - 1;
    var moved := s[i := s[last]];
    assert s == s[..last] + [s[last]];
    assert moved == moved[..last] + [moved[last]];
    assert multiset(moved) == multiset(s) - multiset{s[i]} + multiset{s[last]};
  }

  /** When an output goes, the first of its global does and no other, and nothing
      else changes. */
  lemma RemovedIs(v: Inventory, global: nat, i: nat)
    ensures FirstWith(v.outputs, global, i) ==>
      var after := Told(v, OutputRemoved(global));
      && multiset(after.outputs) == multiset(v.outputs) - multiset{v.outputs[i]}
      && after == v.(outputs := after.outputs)
    ensures (forall k :: 0 <= k < |v.outputs| ==> v.outputs[k].global != global) ==> Told(v, OutputRemoved(global)) == v
  {
    hide SwapRemoved;
    if FirstWith(v.outputs, global, i) {
      assert OutputAt(v.outputs, global) == Some(i);
      SwapRemovedIs(v.outputs, i);
    }
  }

  /** The same of a head, where the manager was bound. */
  lemma FinishedIs(v: Inventory, id: nat, i: nat)
    requires v.managed
    ensures FirstHead(v.heads, id, i) ==>
      var after := Told(v, HeadFinished(id));
      && multiset(after.heads) == multiset(v.heads) - multiset{v.heads[i]}
      && after == v.(heads := after.heads)
    ensures (forall k :: 0 <= k < |v.heads| ==> v.heads[k].id != id) ==> Told(v, HeadFinished(id)) == v
  {
    hide SwapRemoved;
    if FirstHead(v.heads, id, i) {
      assert HeadAt(v.heads, id) == Some(i);
      SwapRemovedIs(v.heads, i);
    }
  }

  lemma {:induction false} DroppedIs(modes: seq<nat>, mode: nat)
    ensures mode !in Dropped(modes, mode)
    ensures mode !in modes ==> Dropped(modes, mode) == modes
    ensures forall other :: other != mode ==> multiset(Dropped(modes, mode))[other] == multiset(modes)[other]
  {
    if modes != [] {
      DroppedIs(modes[1..], mode);
      assert modes == [modes[0]] + modes[1..];
    }
  }

  /** When a mode goes, no head has it any more, and nothing else of any head
      changes. */
  lemma {:induction false} ModeGoneIs(heads: seq<Head>, mode: nat, i: nat)
    requires i < |heads|
    ensures var after := WithoutMode(heads, mode)[i];
      && mode !in after.modes && after == heads[i].(modes := after.modes)
      && forall other :: other != mode ==> multiset(after.modes)[other] == multiset(heads[i].modes)[other]
  {
    DroppedIs(heads[0].modes, mode);
    if i > 0 {
      ModeGoneIs(heads[1..], mode, i - 1);
    }
  }

  // ---- What shows ----

  lemma {:induction false} SameRows(a: seq<Output>, b: seq<Output>)
    requires |a| == |b|
    requires forall i :: 0 <= i < |a| ==> a[i].current == b[i].current && a[i].logicalName == b[i].logicalName
    ensures EnabledRows(a) == EnabledRows(b)
  {
    hide Usable, Lists, RowOf, NameOf;
    if a != [] {
      var last := |a| - 1;
      SameRows(a[..last], b[..last]);
      SameRow(a[last], b[last]);
    }
  }

  lemma SameRow(a: Output, b: Output)
    requires a.current == b.current && a.logicalName == b.logicalName
    ensures a.current.Some? ==> NameOf(a) == NameOf(b) && RowOf(a) == RowOf(b)
  {
  }

  lemma WithOutputIs(v: Inventory, global: nat, change: Output -> Output, i: nat)
    ensures var after := WithOutput(v, global, change);
      && |after.outputs| == |v.outputs| && after == v.(outputs := after.outputs)
      && (FirstWith(v.outputs, global, i) ==>
            && after.outputs[i] == change(v.outputs[i])
            && forall k :: 0 <= k < |v.outputs| && k != i ==> after.outputs[k] == v.outputs[k])
      && ((forall k :: 0 <= k < |v.outputs| ==> v.outputs[k].global != global) ==> after == v)
  {
    if FirstWith(v.outputs, global, i) {
      assert OutputAt(v.outputs, global) == Some(i);
    }
  }

  lemma NamedIs(v: Inventory, global: nat, name: string, i: nat)
    ensures var after := Told(v, OutputNamed(global, name));
      && |after.outputs| == |v.outputs| && after == v.(outputs := after.outputs)
      && (FirstWith(v.outputs, global, i) ==>
            && after.outputs[i] == v.outputs[i].(pending := v.outputs[i].pending.(name := Connector(name)))
            && forall k :: 0 <= k < |v.outputs| && k != i ==> after.outputs[k] == v.outputs[k])
      && ((forall k :: 0 <= k < |v.outputs| ==> v.outputs[k].global != global) ==> after == v)
  {
    hide WithOutput, Connector;
    WithOutputIs(v, global, (o: Output) => o.(pending := o.pending.(name := Connector(name))), i);
  }

  lemma ModedIs(v: Inventory, global: nat, mode: Mode, i: nat)
    ensures var after := Told(v, OutputMode(global, mode));
      && |after.outputs| == |v.outputs| && after == v.(outputs := after.outputs)
      && (FirstWith(v.outputs, global, i) ==>
            && after.outputs[i] == v.outputs[i].(pending := v.outputs[i].pending.(mode := Some(mode)))
            && forall k :: 0 <= k < |v.outputs| && k != i ==> after.outputs[k] == v.outputs[k])
      && ((forall k :: 0 <= k < |v.outputs| ==> v.outputs[k].global != global) ==> after == v)
  {
    hide WithOutput;
    WithOutputIs(v, global, (o: Output) => o.(pending := o.pending.(mode := Some(mode))), i);
  }

  lemma DoneIs(v: Inventory, global: nat, i: nat)
    requires FirstWith(v.outputs, global, i)
    ensures var after := Told(v, OutputDone(global));
      && |after.outputs| == |v.outputs| && after == v.(outputs := after.outputs)
      && after.outputs[i] == v.outputs[i].(current := Some(v.outputs[i].pending))
      && forall k :: 0 <= k < |v.outputs| && k != i ==> after.outputs[k] == v.outputs[k]
  {
    hide WithOutput;
    WithOutputIs(v, global, (o: Output) => o.(current := Some(o.pending)), i);
  }

  lemma SomeFirst(outputs: seq<Output>, global: nat) returns (i: nat)
    ensures FirstWith(outputs, global, i) || forall k :: 0 <= k < |outputs| ==> outputs[k].global != global
  {
    var at := OutputAt(outputs, global);
    i := if at.Some? then at.value else 0;
  }

  /** What an output says of its name and mode doesn't show until it is done. */
  lemma PendingIsNotShown(v: Inventory, global: nat, name: string, mode: Mode)
    ensures Snapshots(Told(v, OutputNamed(global, name))) == Snapshots(v)
    ensures Snapshots(Told(v, OutputMode(global, mode))) == Snapshots(v)
  {
    hide EnabledRows, WithOff, SortedRows, Connector, Told;
    var i := SomeFirst(v.outputs, global);
    NamedIs(v, global, name, i);
    ModedIs(v, global, mode, i);
    SameRows(Told(v, OutputNamed(global, name)).outputs, v.outputs);
    SameRows(Told(v, OutputMode(global, mode)).outputs, v.outputs);
  }

  /** Then it shows as last said, and no other output changes. */
  lemma DoneShowsTheLastSaid(v: Inventory, global: nat, name: string, mode: Mode, i: nat)
    requires FirstWith(v.outputs, global, i)
    ensures var after := Told(Told(Told(v, OutputNamed(global, name)), OutputMode(global, mode)), OutputDone(global));
      && |after.outputs| == |v.outputs|
      && after.outputs[i].current == Some(Said(Connector(name), Some(mode)))
      && after.outputs[i].logicalName == v.outputs[i].logicalName && after.outputs[i].global == global
      && (forall k :: 0 <= k < |v.outputs| && k != i ==> after.outputs[k] == v.outputs[k])
      && after == v.(outputs := after.outputs)
  {
    hide Connector, Told;
    var named := Told(v, OutputNamed(global, name));
    NamedIs(v, global, name, i);
    assert FirstWith(named.outputs, global, i);
    var moded := Told(named, OutputMode(global, mode));
    ModedIs(named, global, mode, i);
    assert FirstWith(moded.outputs, global, i);
    DoneIs(moded, global, i);
  }

  /** A name of xdg-output counts only where the output has none itself. */
  lemma LogicalNameCounts(v: Inventory, global: nat, name: string, i: nat)
    requires FirstWith(v.outputs, global, i) && v.outputs[i].current.Some?
    ensures var after := Told(v, LogicalNamed(global, name)).outputs;
      && |after| == |v.outputs| && after[i].current == v.outputs[i].current
      && NameOf(after[i]) ==
           (if Names.Trim(v.outputs[i].current.value.name) == [] then Names.Trim(Connector(name))
            else Names.Trim(v.outputs[i].current.value.name))
      && forall k :: 0 <= k < |after| && k != i ==> after[k] == v.outputs[k]
  {
    hide Connector, Names.Trim, WithOutput;
    WithOutputIs(v, global, (o: Output) => o.(logicalName := Connector(name)), i);
  }

  lemma WithHeadIs(v: Inventory, id: nat, change: Head -> Head, i: nat)
    requires FirstHead(v.heads, id, i)
    ensures WithHead(v, id, change) == v.(heads := v.heads[i := change(v.heads[i])])
  {
    assert HeadAt(v.heads, id) == Some(i);
  }

  lemma HeadSays(v: Inventory, id: nat, name: string, enabled: bool, mode: Mode, i: nat)
    requires v.managed && FirstHead(v.heads, id, i)
    ensures Told(v, HeadNamed(id, name)) == v.(heads := v.heads[i := v.heads[i].(name := Connector(name))])
    ensures Told(v, HeadEnabled(id, enabled)) == v.(heads := v.heads[i := v.heads[i].(enabled := enabled)])
    ensures Told(v, HeadCurrentMode(id, mode)) == v.(heads := v.heads[i := v.heads[i].(mode := Some(mode))])
  {
    hide WithHead, Connector;
    WithHeadIs(v, id, (h: Head) => h.(name := Connector(name)), i);
    WithHeadIs(v, id, (h: Head) => h.(enabled := enabled), i);
    WithHeadIs(v, id, (h: Head) => h.(mode := Some(mode)), i);
  }

  lemma AnnouncedIs(v: Inventory, id: nat)
    requires v.managed && |v.heads| < MAX_TRACKED
    ensures var after := Told(v, HeadAnnounced(id));
      && after.heads == v.heads + [Head(id, "", false, None, [])] && after.managed
      && after.outputs == v.outputs && after.tooMany == v.tooMany && after.overflow == v.overflow
  {
  }

  /** A head is what was said of it since it was announced. */
  lemma HeadIsAsSaid(v: Inventory, id: nat, name: string, enabled: bool, mode: Mode)
    requires v.managed && |v.heads| < MAX_TRACKED && forall h :: h in v.heads ==> h.id != id
    ensures var after := Told(Told(Told(Told(v, HeadAnnounced(id)), HeadNamed(id, name)), HeadEnabled(id, enabled)), HeadCurrentMode(id, mode));
      && after.heads == v.heads + [Head(id, Connector(name), enabled, Some(mode), [])]
      && after.outputs == v.outputs && after.tooMany == v.tooMany && after.overflow == v.overflow
  {
    hide Connector, Told;
    var n := |v.heads|;
    var a := Told(v, HeadAnnounced(id));
    AnnouncedIs(v, id);
    forall k | 0 <= k < n
      ensures a.heads[k].id != id
    {
      assert a.heads[k] == v.heads[k] && v.heads[k] in v.heads;
    }
    HeadSays(a, id, name, enabled, mode, n);
    var b := Told(a, HeadNamed(id, name));
    HeadSays(b, id, name, enabled, mode, n);
    var c := Told(b, HeadEnabled(id, enabled));
    HeadSays(c, id, name, enabled, mode, n);
  }

  // ---- What is too much ----

  /** Each flag is set by the event that goes past its ceiling and no other, and
      stays. */
  lemma FlagsAre(v: Inventory, e: Event)
    ensures Told(v, e).tooMany <==> v.tooMany || (e.OutputAdded? && |v.outputs| >= MAX_TRACKED)
    ensures Told(v, e).overflow <==>
      v.overflow
      || (v.managed && e.HeadAnnounced? && |v.heads| >= MAX_TRACKED)
      || (v.managed && e.ModeAnnounced? && HeadAt(v.heads, e.head).Some? && Modes(v.heads) >= MAX_TRACKED_MODES)
    ensures Told(v, e).churned <==>
      v.churned
      || (v.managed && e.HeadAnnounced? && v.announcedHeads >= MAX_ANNOUNCED_HEADS)
      || (v.managed && e.ModeAnnounced? && v.announcedModes >= MAX_ANNOUNCED_MODES)
  {
    hide Told, Modes, HeadAt;
    if !OfWlr(e) {
      OutputKeepsFlags(v, e);
    } else if v.managed {
      if e.HeadAnnounced? {
        HeadSetsFlags(v, e.id);
      } else if e.ModeAnnounced? {
        ModeSetsFlags(v, e.head, e.listed);
      } else {
        HeadKeepsFlags(v, e);
      }
    } else {
      Unbound(v, e);
    }
  }

  ghost predicate SameFlags(v: Inventory, after: Inventory) {
    after.tooMany == v.tooMany && after.overflow == v.overflow && after.churned == v.churned
  }

  lemma Unbound(v: Inventory, e: Event)
    requires OfWlr(e) && !v.managed
    ensures Told(v, e) == v
  {
  }

  lemma OutputKeepsFlags(v: Inventory, e: Event)
    requires !OfWlr(e)
    ensures Told(v, e).overflow == v.overflow && Told(v, e).churned == v.churned && Told(v, e).complete == v.complete
    ensures Told(v, e).tooMany <==> v.tooMany || (e.OutputAdded? && |v.outputs| >= MAX_TRACKED)
  {
    hide Told;
    match e
    case OutputAdded(global) => AddedIs(v, global);
    case OutputRemoved(global) =>
      var i := SomeFirst(v.outputs, global);
      RemovedIs(v, global, i);
    case OutputNamed(global, name) => NamedIs(v, global, name, 0);
    case OutputMode(global, mode) => ModedIs(v, global, mode, 0);
    case OutputDone(global) => DoneKeeps(v, global);
    case LogicalNamed(global, name) => LogicalKeeps(v, global, name);
    case ManagerOffered => OfferedKeeps(v);
  }

  lemma AddedIs(v: Inventory, global: nat)
    ensures var after := Told(v, OutputAdded(global));
      if |v.outputs| >= MAX_TRACKED then after == v.(tooMany := true)
      else after == v.(outputs := v.outputs + [Output(global, Said("", None), None, "")])
  {
  }

  lemma DoneKeeps(v: Inventory, global: nat)
    ensures var after := Told(v, OutputDone(global)); after == v.(outputs := after.outputs)
  {
    hide WithOutput;
    WithOutputIs(v, global, (o: Output) => o.(current := Some(o.pending)), 0);
  }

  lemma LogicalKeeps(v: Inventory, global: nat, name: string)
    ensures var after := Told(v, LogicalNamed(global, name)); after == v.(outputs := after.outputs)
  {
    hide WithOutput, Connector;
    WithOutputIs(v, global, (o: Output) => o.(logicalName := Connector(name)), 0);
  }

  lemma OfferedKeeps(v: Inventory)
    ensures var after := Told(v, ManagerOffered); after == v.(manager := after.manager, managed := after.managed)
  {
  }

  lemma HeadSetsFlags(v: Inventory, id: nat)
    requires v.managed
    ensures var after := Told(v, HeadAnnounced(id));
      && after.tooMany == v.tooMany && after.complete == v.complete
      && (after.overflow <==> v.overflow || |v.heads| >= MAX_TRACKED)
      && (after.churned <==> v.churned || v.announcedHeads >= MAX_ANNOUNCED_HEADS)
  {
  }

  lemma ModeSetsFlags(v: Inventory, head: nat, listed: nat)
    requires v.managed
    ensures var after := Told(v, ModeAnnounced(head, listed));
      && after.tooMany == v.tooMany && after.complete == v.complete
      && (after.overflow <==> v.overflow || (HeadAt(v.heads, head).Some? && Modes(v.heads) >= MAX_TRACKED_MODES))
      && (after.churned <==> v.churned || v.announcedModes >= MAX_ANNOUNCED_MODES)
  {
    hide HeadAt, Modes;
  }

  lemma HeadKeepsFlags(v: Inventory, e: Event)
    requires v.managed && OfWlr(e) && !e.HeadAnnounced? && !e.ModeAnnounced?
    ensures SameFlags(v, Told(v, e))
    ensures Told(v, e).complete != v.complete ==> e.ManagerDone? || e.ManagerFinished?
  {
    hide SwapRemoved, HeadAt, Connector, HeadTold, ModeTold, WithOutput, WithoutMode, OutputAt;
  }

  /** Heads count from the manager's `done` on, until it finishes. */
  lemma HeadsCount(v: Inventory, e: Event)
    requires v.managed
    ensures Complete(Told(v, ManagerFinished)) == []
    ensures Complete(Told(v, ManagerDone)) == if v.manager && !v.overflow then v.heads else []
    ensures Told(v, e).complete != v.complete ==> e.ManagerDone? || e.ManagerFinished?
  {
    DoneCounts(v);
    hide Told;
    if !OfWlr(e) {
      OutputKeepsFlags(v, e);
    } else if e.HeadAnnounced? {
      HeadSetsFlags(v, e.id);
    } else if e.ModeAnnounced? {
      ModeSetsFlags(v, e.head, e.listed);
    } else {
      HeadKeepsFlags(v, e);
    }
  }

  lemma DoneCounts(v: Inventory)
    requires v.managed
    ensures Complete(Told(v, ManagerFinished)) == []
    ensures Complete(Told(v, ManagerDone)) == if v.manager && !v.overflow then v.heads else []
  {
  }
}
