/** What Previous undoes, and Next does again, while what can play stays the
    same. */
module CursorUndo {
  import opened Common
  import opened Shuffling
  import opened Cursors
  import opened CursorRuns

  // ---- One press of each ----

  /** `s` ends with `tail`. */
  ghost predicate EndsWith(s: seq<nat>, tail: seq<nat>) {
    |tail| <= |s| && s[|s| - |tail|..] == tail
  }

  lemma LastIsNewest(stack: seq<nat>, playable: Playable, but: Option<nat>)
    requires stack != [] && CanPlay(playable, stack[|stack| - 1]) && Some(stack[|stack| - 1]) != but
    ensures Newest(stack, playable, but) == Some(|stack| - 1)
  {
  }

  lemma PushEndsWith(s: seq<nat>, tail: seq<nat>, value: nat)
    requires EndsWith(s, tail) && |tail| < HISTORY_LIMIT
    ensures EndsWith(PushBounded(s, value), tail + [value])
  {
    var kept := if |s| == HISTORY_LIMIT then s[1..] else s;
    assert kept[|kept| - |tail|..] == tail;
    var r := kept + [value];
    assert r[|r| - |tail| - 1..] == kept[|kept| - |tail|..] + [value];
  }

  lemma PopEndsWith(s: seq<nat>, tail: seq<nat>, value: nat)
    requires EndsWith(s, tail + [value])
    ensures s != [] && s[|s| - 1] == value && EndsWith(s[..|s| - 1], tail)
  {
    var t := s[|s| - |tail| - 1..];
    assert t == tail + [value] && t[|tail|] == value;
    assert s[..|s| - 1][|s| - 1 - |tail|..] == t[..|tail|] == tail;
  }

  /** Previous goes to the newest of the history. */
  lemma PreviousGoesBack(c: Cursor, playable: Playable, shuffle: bool, older: seq<nat>, newer: seq<nat>, entry: nat)
    requires Sound(c, playable, shuffle) && c.position < |c.order|
    requires EndsWith(c.history, older + [entry]) && EndsWith(c.forward, newer) && |newer| < HISTORY_LIMIT
    requires Other(playable, Current(c), entry)
    ensures var (after, moved) := Backward(c, playable);
            && moved && Sound(after, playable, shuffle) && Current(after) == Some(entry)
            && EndsWith(after.history, older)
            && EndsWith(after.forward, newer + [c.order[c.position]])
  {
    hide Sound, Newest, PushBounded;
    PopEndsWith(c.history, older, entry);
    LastIsNewest(c.history, playable, Current(c));
    PushEndsWith(c.forward, newer, c.order[c.position]);
    BackwardIsSound(c, playable, shuffle);
  }

  /** Next comes back to the newest that Previous unwound. */
  lemma NextComesBack(c: Cursor, playable: Playable, shuffle: bool, deal: seq<nat>, newer: seq<nat>, entry: nat)
    requires Sound(c, playable, shuffle) && c.position < |c.order| && IsDeal(deal, playable)
    requires EndsWith(c.forward, newer + [entry]) && CanPlay(playable, entry)
    ensures var (after, moved) := Forward(c, playable, shuffle, deal);
            && Sound(after, playable, shuffle) && Current(after) == Some(entry)
            && EndsWith(after.forward, newer)
            && (moved <==> Some(entry) != Current(c))
  {
    hide Newest, PushBounded, Onward;
    PopEndsWith(c.forward, newer, entry);
    LastIsNewest(c.forward, playable, None);
    assert entry in c.forward;
    ForwardIsSound(c, playable, shuffle, deal);
  }

  // ---- Previous, then Next ----

  /** Previous then Next is exactly where it was exactly when nothing was
      skipped, the current entry can play, the order still has the previous
      one, and there was room for what Next comes back to. */
  lemma PreviousThenNext(c: Cursor, playable: Playable, shuffle: bool, deal: seq<nat>)
    requires Sound(c, playable, shuffle) && c.position < |c.order|
    requires Backward(c, playable).1 && IsDeal(deal, playable)
    ensures c.history != []
    ensures var newest := c.history[|c.history| - 1];
      Forward(Backward(c, playable).0, playable, shuffle, deal).0 == c
      <==> (
        && Other(playable, Current(c), newest)
        && CanPlay(playable, c.order[c.position])
        && newest in c.order
        && |c.forward| < HISTORY_LIMIT)
  {
    hide Onward;
    var current := c.order[c.position];
    var last := Newest(c.history, playable, Some(current));
    var b := Backward(c, playable).0;
    var f := Forward(b, playable, shuffle, deal).0;
    BackwardIsSound(c, playable, shuffle);
    if CanPlay(playable, current) {
      LastIsNewest(b.forward, playable, None);
      FoundAgain(b.order, c.position);
      assert f.position == c.position && f.order == b.order;
      assert f.history == PushBounded(c.history[..last.value], c.history[last.value]);
      assert f.forward == b.forward[..|b.forward| - 1];
      assert b.order == c.order <==> c.history[last.value] in c.order;
      ForwardRestored(c.forward, current);
      HistoryRestored(c.history, last.value);
    } else {
      CantComeBack(c, b, playable, shuffle, deal);
    }
  }

  lemma ForwardRestored(forward: seq<nat>, current: nat)
    ensures |forward| <= HISTORY_LIMIT ==>
      var pushed := PushBounded(forward, current);
      (pushed[..|pushed| - 1] == forward <==> |forward| < HISTORY_LIMIT)
  {
  }

  lemma HistoryRestored(history: seq<nat>, last: nat)
    requires last < |history| <= HISTORY_LIMIT
    ensures PushBounded(history[..last], history[last]) == history <==> last == |history| - 1
  {
    if last == |history| - 1 {
      assert history == history[..last] + [history[last]];
    }
  }

  /** An entry that can't play isn't come back to. */
  lemma CantComeBack(c: Cursor, b: Cursor, playable: Playable, shuffle: bool, deal: seq<nat>)
    requires Sound(b, playable, shuffle) && IsDeal(deal, playable)
    requires Current(c).Some? && !CanPlay(playable, Current(c).value)
    requires Current(b).Some? && CanPlay(playable, Current(b).value)
    ensures Forward(b, playable, shuffle, deal).0 != c
  {
    hide Forward, Sound;
    ForwardIsSound(b, playable, shuffle, deal);
  }

  // ---- Any number of moves, undone and done again ----

  function Step(c: Cursor, playable: Playable, shuffle: bool, op: Op): (Cursor, bool) {
    match op
    case Next(deal) => Forward(c, playable, shuffle, deal)
    case Random(deal, draw) => AtRandom(c, playable, shuffle, deal, draw)
    case _ => (c, false)
  }

  function After(c: Cursor, playable: Playable, shuffle: bool, ops: seq<Op>): Cursor {
    if ops == [] then c
    else
      var k := |ops| - 1;
      Step(After(c, playable, shuffle, ops[..k]), playable, shuffle, ops[k]).0
  }

  /** Every one of them is a fair Next or Random, and moves. */
  ghost predicate AllMove(c: Cursor, playable: Playable, shuffle: bool, ops: seq<Op>) {
    ops != [] ==>
      var k := |ops| - 1;
      && AllMove(c, playable, shuffle, ops[..k])
      && Fair(ops[k], playable)
      && Step(After(c, playable, shuffle, ops[..k]), playable, shuffle, ops[k]).1
  }

  /** The entries played, from the first to the current one. */
  function Visited(c: Cursor, playable: Playable, shuffle: bool, ops: seq<Op>): seq<Option<nat>> {
    if ops == [] then [Current(c)]
    else Visited(c, playable, shuffle, ops[..|ops| - 1]) + [Current(After(c, playable, shuffle, ops))]
  }

  function Backs(c: Cursor, playable: Playable, j: nat): (Cursor, bool) {
    if j == 0 then (c, true)
    else
      var (before, all) := Backs(c, playable, j - 1);
      var (after, moved) := Backward(before, playable);
      (after, all && moved)
  }

  function Nexts(c: Cursor, playable: Playable, shuffle: bool, deals: nat -> seq<nat>, l: nat): (Cursor, bool) {
    if l == 0 then (c, true)
    else
      var (before, all) := Nexts(c, playable, shuffle, deals, l - 1);
      var (after, moved) := Forward(before, playable, shuffle, deals(l - 1));
      (after, all && moved)
  }

  /** Entries that can play, none of them twice running. */
  ghost predicate Trail(entries: seq<nat>, playable: Playable) {
    && entries != []
    && (forall i :: 0 <= i < |entries| ==> CanPlay(playable, entries[i]))
    && (forall i {:trigger entries[i]} :: 0 < i < |entries| ==> entries[i - 1] != entries[i])
  }

  lemma TrailAt(entries: seq<nat>, playable: Playable, at: nat)
    requires Trail(entries, playable) && at < |entries|
    ensures CanPlay(playable, entries[at])
    ensures at + 1 < |entries| ==> entries[at] != entries[at + 1]
  {
  }

  lemma TrailGrows(entries: seq<nat>, playable: Playable, entry: nat)
    requires Trail(entries, playable) && CanPlay(playable, entry) && entry != entries[|entries| - 1]
    ensures Trail(entries + [entry], playable)
  {
  }

  lemma AnyEndsWithNothing(s: seq<nat>)
    ensures EndsWith(s, [])
  {
  }

  lemma Tails(entries: seq<nat>, at: nat)
    requires at < |entries|
    ensures entries[..at + 1] == entries[..at] + [entries[at]]
    ensures Reversed(entries[at..]) == Reversed(entries[at + 1..]) + [entries[at]]
  {
    assert entries[at..][1..] == entries[at + 1..] && entries[at..][0] == entries[at];
  }

  lemma StepRemembers(c: Cursor, playable: Playable, shuffle: bool, op: Op)
    requires Sound(c, playable, shuffle) && Fair(op, playable)
    requires Step(c, playable, shuffle, op).1
    ensures var after := Step(c, playable, shuffle, op).0;
            && Current(c).Some? && Current(after).Some?
            && Sound(after, playable, shuffle) && Honest(c, after, true, playable)
            && after.history == PushBounded(c.history, Current(c).value)
  {
    hide Sound, Honest, IsDeal, Reduced, Swapped, Newest, Find, NextPlayable, NextAround, Remaining, PushBounded;
    match op {
      case Next(deal) => ForwardIsSound(c, playable, shuffle, deal); HonestIsSomewhere(c, Step(c, playable, shuffle, op).0, playable);
      case Random(deal, draw) => RandomIsSound(c, playable, shuffle, deal, draw); HonestIsSomewhere(c, Step(c, playable, shuffle, op).0, playable);
      case _ =>
    }
  }

  lemma HonestIsSomewhere(c: Cursor, after: Cursor, playable: Playable)
    requires Honest(c, after, true, playable)
    ensures Current(after).Some?
  {
  }

  /** The history ends with the entries visited before the current one. */
  lemma {:induction false} MovesAreRemembered(c: Cursor, playable: Playable, shuffle: bool, ops: seq<Op>)
    returns (entries: seq<nat>)
    requires Sound(c, playable, shuffle) && Current(c).Some? && CanPlay(playable, Current(c).value)
    requires AllMove(c, playable, shuffle, ops) && |ops| <= HISTORY_LIMIT
    ensures Trail(entries, playable) && |entries| == |ops| + 1
    ensures |Visited(c, playable, shuffle, ops)| == |entries|
    ensures forall i :: 0 <= i < |entries| ==> Visited(c, playable, shuffle, ops)[i] == Some(entries[i])
    ensures var after := After(c, playable, shuffle, ops);
            && Sound(after, playable, shuffle) && Current(after) == Some(entries[|ops|])
            && EndsWith(after.history, entries[..|ops|])
    decreases |ops|
  {
    hide Sound, PushBounded, Step, EndsWith, Trail, Fair, Honest;
    if ops == [] {
      entries := [Current(c).value];
      OneIsATrail(Current(c).value, playable);
      AnyEndsWithNothing(c.history);
    } else {
      var k := |ops| - 1;
      var before := MovesAreRemembered(c, playable, shuffle, ops[..k]);
      var was := After(c, playable, shuffle, ops[..k]);
      StepRemembers(was, playable, shuffle, ops[k]);
      var now := After(c, playable, shuffle, ops);
      HonestIsElsewhere(was, now, playable);
      TrailGrows(before, playable, Current(now).value);
      entries := before + [Current(now).value];
      PushEndsWith(was.history, before[..k], before[k]);
      assert entries[..k + 1] == before[..k] + [before[k]];
    }
  }

  lemma OneIsATrail(entry: nat, playable: Playable)
    requires CanPlay(playable, entry)
    ensures Trail([entry], playable)
  {
  }

  lemma HonestIsElsewhere(c: Cursor, after: Cursor, playable: Playable)
    requires Honest(c, after, true, playable)
    ensures Current(after) != Current(c) && Current(after).Some? && CanPlay(playable, Current(after).value)
  {
  }

  lemma {:induction false} BacksRetrace(c: Cursor, playable: Playable, shuffle: bool, entries: seq<nat>, j: nat)
    requires Sound(c, playable, shuffle) && Trail(entries, playable) && j < |entries| <= HISTORY_LIMIT + 1
    requires Current(c) == Some(entries[|entries| - 1]) && EndsWith(c.history, entries[..|entries| - 1])
    ensures var (after, all) := Backs(c, playable, j);
            var at := |entries| - 1 - j;
            && all && Sound(after, playable, shuffle)
            && Current(after) == Some(entries[at])
            && EndsWith(after.history, entries[..at])
            && EndsWith(after.forward, Reversed(entries[at + 1..]))
    decreases j
  {
    hide Sound, Backward, PushBounded, EndsWith, Trail, CanPlay, Reversed;
    var at := |entries| - 1 - j;
    if j == 0 {
      AnyEndsWithNothing(c.forward);
      NothingReversed();
      assert entries[at + 1..] == [];
    } else {
      BacksRetrace(c, playable, shuffle, entries, j - 1);
      var before := Backs(c, playable, j - 1).0;
      Tails(entries, at);
      Tails(entries, at + 1);
      TrailAt(entries, playable, at);
      PreviousGoesBack(before, playable, shuffle, entries[..at], Reversed(entries[at + 2..]), entries[at]);
    }
  }

  lemma NothingReversed()
    ensures Reversed<nat>([]) == []
  {
  }

  lemma {:induction false} NextsReplay(
    b: Cursor, playable: Playable, shuffle: bool, deals: nat -> seq<nat>, entries: seq<nat>, at: nat, l: nat
  )
    requires Sound(b, playable, shuffle) && Trail(entries, playable) && at + l < |entries|
    requires forall k :: IsDeal(deals(k), playable)
    requires Current(b) == Some(entries[at]) && EndsWith(b.forward, Reversed(entries[at + 1..]))
    ensures var (after, all) := Nexts(b, playable, shuffle, deals, l);
            && all && Sound(after, playable, shuffle)
            && Current(after) == Some(entries[at + l])
            && EndsWith(after.forward, Reversed(entries[at + l + 1..]))
    decreases l
  {
    hide Sound, Forward, PushBounded, IsDeal, EndsWith, Trail, CanPlay, Reversed;
    if l > 0 {
      NextsReplay(b, playable, shuffle, deals, entries, at, l - 1);
      var goal := at + l;
      TrailAt(entries, playable, goal - 1);
      TrailAt(entries, playable, goal);
      Tails(entries, goal);
      NextComesBack(Nexts(b, playable, shuffle, deals, l - 1).0, playable, shuffle, deals(l - 1), Reversed(entries[goal + 1..]), entries[goal]);
    }
  }

  /** After up to 128 moves, deals among them, that many presses of Previous
      revisit what was played, newest first, and as many of Next replay it in
      order. */
  lemma PreviousRetracesAndNextReplays(
    c: Cursor, playable: Playable, shuffle: bool, ops: seq<Op>, deals: nat -> seq<nat>, j: nat, l: nat
  )
    requires Sound(c, playable, shuffle) && Current(c).Some? && CanPlay(playable, Current(c).value)
    requires AllMove(c, playable, shuffle, ops) && l <= j <= |ops| <= HISTORY_LIMIT
    requires forall k :: IsDeal(deals(k), playable)
    ensures var visited := Visited(c, playable, shuffle, ops);
            var (back, wentBack) := Backs(After(c, playable, shuffle, ops), playable, j);
            var (again, cameBack) := Nexts(back, playable, shuffle, deals, l);
            && |visited| == |ops| + 1
            && wentBack && Current(back) == visited[|ops| - j]
            && cameBack && Current(again) == visited[|ops| - j + l]
  {
    hide Sound, Forward, Backward, Visited, AllMove, IsDeal, After;
    var entries := MovesAreRemembered(c, playable, shuffle, ops);
    var after := After(c, playable, shuffle, ops);
    BacksRetrace(after, playable, shuffle, entries, j);
    NextsReplay(Backs(after, playable, j).0, playable, shuffle, deals, entries, |ops| - j, l);
  }
}
