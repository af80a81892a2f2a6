/** What displays show when the driver won't start some items: which entries
    can play, what stands in for a playlist that has none left, and the order
    a cursor comes to its entries in. */
module Refusals {
  import opened Common
  import opened Documents
  import opened Cursors
  import opened CursorRuns

  /** A configuration with the session's taboo keys. A reference to a playlist
      is the place its lookup finds; `default` and `allMedia` are the default
      playlist's and All media's. */
  datatype Document = Document(
    config: Config, default: nat, allMedia: Option<nat>, taboo: set<Key>, shuffle: seq<bool>)

  ghost predicate Proper(d: Document) {
    && Valid(d.config)
    && d.default < |d.config| && (d.allMedia.Some? ==> d.allMedia.value < |d.config|)
    && |d.shuffle| == |d.config|
  }

  function Entries(d: Document, p: nat): seq<Entry>
    requires p < |d.config|
  {
    d.config[p].entries
  }

  /** The place of the playlist that the id of the one at `p` finds. */
  function Holder(d: Document, p: nat): (h: nat)
    requires p < |d.config|
    ensures h <= p
  {
    Finds(d.config, p)
  }

  function Items(d: Document): set<string> {
    set p, i | 0 <= p < |d.config| && 0 <= i < |d.config[p].entries| && ItemOf(d.config[p].entries[i]).Some? ::
      ItemOf(d.config[p].entries[i]).value
  }

  predicate IsRefused(e: Entry, refused: set<string>) {
    ItemOf(e).Some? && ItemOf(e).value in refused
  }

  /** An entry, under the id of the playlist at `p`. */
  function KeyOf(d: Document, p: nat, e: Entry): Key
    requires p < |d.config|
  {
    Key(d.config[p].id, e.id)
  }

  predicate CantPlay(d: Document, refused: set<string>, p: nat, e: Entry)
    requires p < |d.config|
  {
    KeyOf(d, p, e) in d.taboo || IsRefused(e, refused)
  }

  /** What of the entries of the playlist at `h` can play under the id of the
      one at `p`. */
  function PlayableAs(d: Document, refused: set<string>, p: nat, h: nat): (r: Playable)
    requires p < |d.config| && h < |d.config|
    ensures |r| == |Entries(d, h)| && forall i :: 0 <= i < |r| ==> r[i] == !CantPlay(d, refused, p, Entries(d, h)[i])
  {
    seq(|Entries(d, h)|, i requires 0 <= i < |Entries(d, h)| => !CantPlay(d, refused, p, Entries(d, h)[i]))
  }

  function PlayableOf(d: Document, refused: set<string>, p: nat): Playable
    requires p < |d.config|
  {
    PlayableAs(d, refused, p, p)
  }

  /** Nothing of the playlist can play, and not only for being taboo. */
  predicate RefusedThroughout(d: Document, refused: set<string>, p: nat)
    requires p < |d.config|
  {
    && refused != {}
    && (forall i :: 0 <= i < |Entries(d, p)| ==> CantPlay(d, refused, p, Entries(d, p)[i]))
    && (exists i :: 0 <= i < |Entries(d, p)| && IsRefused(Entries(d, p)[i], refused))
  }

  /** The first of some playlists, none of them `p` or empty, that isn't refused
      throughout. */
  function FirstOf(d: Document, refused: set<string>, p: nat, candidates: seq<Option<nat>>): (r: Option<nat>)
    requires forall c :: c in candidates && c.Some? ==> c.value < |d.config|
    ensures r.Some? ==> r in candidates && r.value != p && Entries(d, r.value) != [] && !RefusedThroughout(d, refused, r.value)
    ensures r.None? <==> forall c :: c in candidates && c.Some? ==>
      c.value == p || Entries(d, c.value) == [] || RefusedThroughout(d, refused, c.value)
  {
    if candidates == [] then None
    else
      assert forall c :: c in candidates <==> c == candidates[0] || c in candidates[1..];
      var first := candidates[0];
      if first.Some? && first.value != p && Entries(d, first.value) != [] && !RefusedThroughout(d, refused, first.value)
      then first
      else FirstOf(d, refused, p, candidates[1..])
  }

  /** What a display that asks for `p` plays. */
  function StandIn(d: Document, refused: set<string>, p: nat): (r: Option<nat>)
    requires Proper(d) && p < |d.config|
    ensures r.Some? ==> r.value < |d.config| && !RefusedThroughout(d, refused, r.value)
  {
    if !RefusedThroughout(d, refused, p) then Some(p) else FirstOf(d, refused, p, [Some(d.default), d.allMedia])
  }

  function Shown(d: Document, refused: set<string>, p: nat): (r: nat)
    requires Proper(d) && p < |d.config|
    ensures r < |d.config|
  {
    if StandIn(d, refused, p).Some? then StandIn(d, refused, p).value else p
  }

  /** It is empty, or nothing stands in for the playlist its id finds. */
  predicate PlaysNothing(d: Document, refused: set<string>, p: nat)
    requires Proper(d) && p < |d.config|
  {
    Entries(d, p) == [] || StandIn(d, refused, Holder(d, p)).None?
  }

  /** A playlist gives no display anything to play for being refused or empty,
      or for being the one asked for. */
  ghost predicate NoHelp(d: Document, refused: set<string>, p: nat, candidate: Option<nat>)
    requires candidate.Some? ==> candidate.value < |d.config|
  {
    candidate.None? || candidate.value == p || Entries(d, candidate.value) == [] || RefusedThroughout(d, refused, candidate.value)
  }

  /** Nothing is shown exactly when the playlist asked for is refused
      throughout and neither the default nor All media can help. */
  lemma NothingStandsIn(d: Document, refused: set<string>, p: nat)
    requires Proper(d) && p < |d.config|
    ensures StandIn(d, refused, p).None? <==>
      RefusedThroughout(d, refused, p) && NoHelp(d, refused, p, Some(d.default)) && NoHelp(d, refused, p, d.allMedia)
  {
    var candidates := [Some(d.default), d.allMedia];
    assert Some(d.default) == candidates[0] && d.allMedia == candidates[1];
  }

  /** What stands in is the first that helps: the playlist asked for, then the
      default, then All media. */
  lemma StandInIs(d: Document, refused: set<string>, p: nat)
    requires Proper(d) && p < |d.config|
    ensures var defaultHelps, othersHelp := !NoHelp(d, refused, p, Some(d.default)), !NoHelp(d, refused, p, d.allMedia);
      && (!RefusedThroughout(d, refused, p) ==> StandIn(d, refused, p) == Some(p) && Shown(d, refused, p) == p)
      && (RefusedThroughout(d, refused, p) && defaultHelps ==>
            StandIn(d, refused, p) == Some(d.default) && Shown(d, refused, p) == d.default)
      && (RefusedThroughout(d, refused, p) && !defaultHelps && othersHelp ==>
            StandIn(d, refused, p) == d.allMedia && Some(Shown(d, refused, p)) == d.allMedia)
      && (RefusedThroughout(d, refused, p) && !defaultHelps && !othersHelp ==>
            StandIn(d, refused, p) == None && Shown(d, refused, p) == p)
  {
    hide RefusedThroughout;
    NothingStandsIn(d, refused, p);
    var candidates := [Some(d.default), d.allMedia];
    assert candidates[1..] == [d.allMedia];
  }

  /** A playlist that isn't refused throughout and has a refused entry has one
      that can play. */
  lemma SomethingPlays(d: Document, refused: set<string>, p: nat, i: nat)
    requires p < |d.config| && i < |Entries(d, p)| && IsRefused(Entries(d, p)[i], refused)
    requires !RefusedThroughout(d, refused, p)
    ensures HasAnother(PlayableOf(d, refused, p), Some(i))
  {
    assert refused != {};
    var j :| 0 <= j < |Entries(d, p)| && !CantPlay(d, refused, p, Entries(d, p)[j]);
    assert Other(PlayableOf(d, refused, p), Some(i), j);
  }

  /** Where fewer entries can play, a sound cursor stays sound. */
  lemma SoundWithFewer(before: Playable, after: Playable, c: Cursor, shuffle: bool)
    requires Sound(c, before, shuffle) && |after| == |before|
    requires forall i: nat :: CanPlay(after, i) ==> CanPlay(before, i)
    ensures Sound(c, after, shuffle)
  {
  }

  // ---- The order a cursor comes to its entries in ----

  /** The first time each index below `count` comes. */
  function Firsts(indexes: seq<nat>, count: nat): (r: seq<nat>)
    ensures NoRepeats(r)
    ensures forall i :: i in r <==> i in indexes && i < count
  {
    if indexes == [] then []
    else
      var rest, last := Firsts(indexes[..|indexes| - 1], count), indexes[|indexes| - 1];
      assert forall i :: i in indexes <==> i in indexes[..|indexes| - 1] || i == last;
      if last < count && last !in rest then rest + [last] else rest
  }

  /** The current entry, those Previous unwound, newest first, then the rest of
      the order, around. */
  function Coming(c: Cursor): seq<nat> {
    (if c.position < |c.order| then [c.order[c.position]] else [])
    + Reversed(c.forward)
    + (if c.position < |c.order| then c.order[c.position + 1..] else [])
    + (if c.position < |c.order| then c.order[..c.position] else c.order)
  }

  function Visiting(c: Cursor): seq<nat> {
    Firsts(Coming(c), |c.order|)
  }

  method Visit(seen: array<bool>, found: seq<nat>, index: nat, ghost visited: seq<nat>) returns (r: seq<nat>)
    requires found == Firsts(visited, seen.Length)
    requires forall i :: 0 <= i < seen.Length ==> (seen[i] <==> i in found)
    modifies seen
    ensures r == Firsts(visited + [index], seen.Length)
    ensures forall i :: 0 <= i < seen.Length ==> (seen[i] <==> i in r)
  {
    assert (visited + [index])[..|visited|] == visited;
    r := found;
    if index < seen.Length && !seen[index] {
      seen[index] := true;
      r := r + [index];
    }
  }

  method VisitEach(seen: array<bool>, before: seq<nat>, indexes: seq<nat>, ghost visited: seq<nat>) returns (found: seq<nat>)
    requires before == Firsts(visited, seen.Length)
    requires forall i :: 0 <= i < seen.Length ==> (seen[i] <==> i in before)
    modifies seen
    ensures found == Firsts(visited + indexes, seen.Length)
    ensures forall i :: 0 <= i < seen.Length ==> (seen[i] <==> i in found)
  {
    hide Firsts;
    found := before;
    assert visited + indexes[..0] == visited;
    for n := 0 to |indexes|
      invariant found == Firsts(visited + indexes[..n], seen.Length)
      invariant forall i :: 0 <= i < seen.Length ==> (seen[i] <==> i in found)
    {
      found := Visit(seen, found, indexes[n], visited + indexes[..n]);
      assert visited + indexes[..n + 1] == visited + indexes[..n] + [indexes[n]];
    }
    assert indexes[..|indexes|] == indexes;
  }

  method VisitingOrder(c: Cursor) returns (found: seq<nat>)
    ensures found == Visiting(c)
  {
    hide Firsts, Reversed;
    var seen := new bool[|c.order|](_ => false);
    var current := if c.position < |c.order| then [c.order[c.position]] else [];
    var after := if c.position < |c.order| then c.order[c.position + 1..] else [];
    var before := if c.position < |c.order| then c.order[..c.position] else c.order;
    NothingFirst(|c.order|);
    found := VisitEach(seen, [], current, []);
    found := VisitEach(seen, found, Reversed(c.forward), [] + current);
    found := VisitEach(seen, found, after, [] + current + Reversed(c.forward));
    found := VisitEach(seen, found, before, [] + current + Reversed(c.forward) + after);
    assert [] + current == current;
    assert Coming(c) == [] + current + Reversed(c.forward) + after + before;
  }

  lemma NothingFirst(count: nat)
    ensures Firsts([], count) == []
  {
  }

  /** The order of visits comes to every entry of the order that is below its
      length, each once, the current one first. After a deal that leaves out
      entries that can't play, others are not below it, and aren't visited. */
  lemma VisitingIs(c: Cursor)
    requires forall index :: index in c.forward ==> index in c.order
    ensures NoRepeats(Visiting(c))
    ensures forall index :: index in Visiting(c) <==> index in c.order && index < |c.order|
    ensures Current(c).Some? && Current(c).value < |c.order| ==> Visiting(c) != [] && Visiting(c)[0] == Current(c).value
  {
    hide Firsts;
    ReversedHas(c.forward);
    var coming := Coming(c);
    if c.position < |c.order| {
      assert c.order == c.order[..c.position] + [c.order[c.position]] + c.order[c.position + 1..];
    }
    assert forall index :: index in coming <==> index in c.order;
    if Current(c).Some? && Current(c).value < |c.order| {
      FirstComesFirst(coming, |c.order|);
    }
  }

  lemma {:induction false} ReversedHas(s: seq<nat>)
    ensures forall x :: x in Reversed(s) <==> x in s
  {
    if s != [] {
      ReversedHas(s[1..]);
      assert s == [s[0]] + s[1..];
    }
  }

  lemma {:induction false} FirstComesFirst(indexes: seq<nat>, count: nat)
    requires indexes != [] && indexes[0] < count
    ensures Firsts(indexes, count) != [] && Firsts(indexes, count)[0] == indexes[0]
  {
    if |indexes| > 1 {
      FirstComesFirst(indexes[..|indexes| - 1], count);
    } else {
      assert Firsts(indexes[..0], count) == [];
    }
  }

  /** The visits follow Next: of the entries visited after the current one, the
      first that can play is where Next goes, whichever can, where it doesn't
      deal anew and the entries of the order are below its length. */
  lemma NextIsVisitedFirst(c: Cursor, playable: Playable, shuffle: bool, deal: seq<nat>) returns (k: nat)
    requires Sound(c, playable, shuffle) && Current(c).Some? && Forward(c, playable, shuffle, deal).1
    requires forall index :: index in c.order ==> index < |c.order|
    requires shuffle ==>
      (exists index :: index in c.forward && CanPlay(playable, index)) || NextPlayable(c.order, c.position + 1, playable).Some?
    ensures 0 < k < |Visiting(c)| && Current(Forward(c, playable, shuffle, deal).0) == Some(Visiting(c)[k])
    ensures CanPlay(playable, Visiting(c)[k])
    ensures forall j :: 0 < j < k ==> !CanPlay(playable, Visiting(c)[j])
  {
    hide Firsts, Coming;
    var m := NextInComing(c, playable, shuffle, deal);
    k := FirstAmong(Coming(c), |c.order|, m);
    VisitingIs(c);
    assert Current(c).value in c.order;
    assert Visiting(c)[0] == Current(c).value;
  }

  /** Where in the order of visits a first coming stands: after none but earlier
      comings. */
  lemma {:induction false} FirstAmong(indexes: seq<nat>, count: nat, m: nat) returns (k: nat)
    requires m < |indexes| && indexes[m] < count && indexes[m] !in indexes[..m]
    ensures k < |Firsts(indexes, count)| && Firsts(indexes, count)[k] == indexes[m]
    ensures forall j :: 0 <= j < k ==> Firsts(indexes, count)[j] in indexes[..m]
  {
    var last := |indexes| - 1;
    if m < last {
      assert indexes[..last][..m] == indexes[..m];
      k := FirstAmong(indexes[..last], count, m);
    } else {
      k := |Firsts(indexes[..last], count)|;
      assert forall j :: 0 <= j < k ==> Firsts(indexes[..last], count)[j] in Firsts(indexes[..last], count);
    }
  }

  /** The first coming that can play, but for the current entry. */
  lemma NextInComing(c: Cursor, playable: Playable, shuffle: bool, deal: seq<nat>) returns (m: nat)
    requires Sound(c, playable, shuffle) && Current(c).Some? && Forward(c, playable, shuffle, deal).1
    requires shuffle ==>
      (exists index :: index in c.forward && CanPlay(playable, index)) || NextPlayable(c.order, c.position + 1, playable).Some?
    ensures var coming, after := Coming(c), Forward(c, playable, shuffle, deal).0;
      && m < |coming| && Current(after) == Some(coming[m])
      && CanPlay(playable, coming[m]) && Some(coming[m]) != Current(c)
      && coming[0] == Current(c).value
      && forall j :: 0 <= j < m ==> !CanPlay(playable, coming[j]) || Some(coming[j]) == Current(c)
  {
    hide Coming, Onward, PushBounded;
    var n, unwound := |c.forward|, Newest(c.forward, playable, None);
    ComingFirst(c);
    if unwound.Some? {
      m := n - unwound.value;
      assert c.forward[unwound.value] in c.forward;
      forall j | 0 < j <= m
        ensures Coming(c)[j] == c.forward[n - j]
      {
        ComingUnwound(c, j);
      }
    } else {
      assert forall index :: index in c.forward ==> !CanPlay(playable, index);
      m := OnwardInComing(c, playable, shuffle, deal);
    }
  }

  lemma ComingUnwound(c: Cursor, j: nat)
    requires c.position < |c.order| && 0 < j <= |c.forward|
    ensures |Coming(c)| == |c.forward| + |c.order| && Coming(c)[j] == c.forward[|c.forward| - j]
  {
    hide Reversed;
    ReversedAt(c.forward, j - 1);
    assert Coming(c)[j] == Reversed(c.forward)[j - 1];
  }

  /** The entry `o` places on, around the order. */
  function RingAt(c: Cursor, o: nat): nat
    requires c.position < |c.order| && o <= |c.order|
  {
    if c.position + o < |c.order| then c.order[c.position + o] else c.order[c.position + o - |c.order|]
  }

  lemma RingIs(c: Cursor, o: nat)
    requires c.position < |c.order| && o <= |c.order|
    ensures RingAt(c, o) == c.order[(c.position + o) % |c.order|]
  {
    Wraps(c.position + o, |c.order|);
  }

  lemma Wraps(x: nat, n: nat)
    requires 0 < n && x < 2 * n
    ensures x % n == if x < n then x else x - n
  {
    if x >= n {
      assert x == n + (x - n);
    }
  }

  /** How far Next goes, with nothing unwound. */
  lemma OnwardOffset(c: Cursor, playable: Playable, shuffle: bool, deal: seq<nat>) returns (o: nat)
    requires c.position < |c.order| && NoRepeats(c.order) && c.forward == [] && Onward(c, playable, shuffle, deal).1
    requires shuffle ==> NextPlayable(c.order, c.position + 1, playable).Some?
    ensures 1 <= o < |c.order| && Current(Onward(c, playable, shuffle, deal).0) == Some(RingAt(c, o))
    ensures CanPlay(playable, RingAt(c, o)) && RingAt(c, o) != c.order[c.position]
    ensures forall p :: 1 <= p < o ==> !CanPlay(playable, RingAt(c, p)) || RingAt(c, p) == c.order[c.position]
  {
    hide Deal, PushBounded;
    if shuffle {
      o := NextPlayable(c.order, c.position + 1, playable).value - c.position;
    } else {
      o := NextAround(c.order, c.position, playable, 1).value;
      RingIs(c, o);
      forall p | 1 <= p < o
        ensures !CanPlay(playable, RingAt(c, p)) || RingAt(c, p) == c.order[c.position]
      {
        RingIs(c, p);
        assert !Another(c.order, c.position, playable, p);
      }
    }
  }

  lemma OnwardInComing(c: Cursor, playable: Playable, shuffle: bool, deal: seq<nat>) returns (m: nat)
    requires Sound(c, playable, shuffle) && Current(c).Some? && Onward(c.(forward := []), playable, shuffle, deal).1
    requires shuffle ==> NextPlayable(c.order, c.position + 1, playable).Some?
    requires forall index :: index in c.forward ==> !CanPlay(playable, index)
    ensures var coming, after := Coming(c), Onward(c.(forward := []), playable, shuffle, deal).0;
      && m < |coming| && Current(after) == Some(coming[m])
      && CanPlay(playable, coming[m]) && Some(coming[m]) != Current(c)
      && forall j :: 0 <= j < m ==> !CanPlay(playable, coming[j]) || Some(coming[j]) == Current(c)
  {
    hide Coming, Onward;
    var o := OnwardOffset(c.(forward := []), playable, shuffle, deal);
    m := |c.forward| + o;
    ComingFirst(c);
    ComingAround(c, o);
    forall j | 0 <= j < m
      ensures !CanPlay(playable, Coming(c)[j]) || Some(Coming(c)[j]) == Current(c)
    {
      if j > |c.forward| {
        ComingAround(c, j - |c.forward|);
        assert RingAt(c.(forward := []), j - |c.forward|) == RingAt(c, j - |c.forward|);
      }
    }
  }

  lemma ComingFirst(c: Cursor)
    requires c.position < |c.order|
    ensures |Coming(c)| == |c.forward| + |c.order| && Coming(c)[0] == c.order[c.position]
    ensures forall j :: 0 < j <= |c.forward| ==> Coming(c)[j] in c.forward
  {
    hide Reversed;
    ReversedHas(c.forward);
    var coming, back := Coming(c), Reversed(c.forward);
    assert forall j :: 0 < j <= |c.forward| ==> coming[j] == back[j - 1] && back[j - 1] in back;
  }

  lemma ComingAround(c: Cursor, o: nat)
    requires c.position < |c.order| && 1 <= o < |c.order|
    ensures |Coming(c)| == |c.forward| + |c.order| && Coming(c)[|c.forward| + o] == RingAt(c, o)
  {
    hide Reversed;
    var n, size, coming := |c.forward|, |c.order|, Coming(c);
    var front := [c.order[c.position]] + Reversed(c.forward);
    assert coming == front + c.order[c.position + 1..] + c.order[..c.position];
  }

  lemma {:induction false} ReversedAt(s: seq<nat>, k: nat)
    requires k < |s|
    ensures Reversed(s)[k] == s[|s| - 1 - k]
  {
    if k < |s| - 1 {
      ReversedAt(s[1..], k);
    }
  }

  /** A cursor whose current entry isn't visited: dealt [2, 1] of three. */
  lemma SomeAreNotVisited()
    ensures exists c: Cursor, playable ::
      Sound(c, playable, true) && Current(c).Some? && CanPlay(playable, Current(c).value) && Current(c).value !in Visiting(c)
  {
    var c := Cursor([2, 1], 0, [], []);
    var playable := [false, true, true];
    assert c.order[0] == 2 && c.order[1] == 1;
    assert 2 !in Visiting(c) by {
      hide Coming;
    }
    assert Sound(c, playable, true);
  }
}
