/** Automatic changes of what mirrored displays show, tried three times before
    what fails is taken for broken. */
module Retry {
  import opened Common
  import opened Documents
  import opened Cursors
  import opened CursorRuns
  import opened Refusals
  import opened RefusalWalk

  const ATTEMPTS := 3
  const DELAY := 2_000

  /** What an attempt installs: the playlist and rule in force, the cursors, and
      the source of chance. */
  datatype Selection = Selection(active: nat, rule: Option<nat>, cursors: seq<Cursor>, chance: bv64)

  /** What a display showed when its start failed: the playlist shown, and the
      entry of the playlist its id finds. */
  datatype Failure = Failure(playlist: nat, index: nat)

  datatype Pending = Pending(
    baseline: Selection, candidate: Selection, attempts: nat, nextAttempt: nat, restoreBaseline: bool, failures: seq<Failure>)

  /** The keys of all entries. */
  function AllKeys(d: Document): set<Key> {
    set p, i | 0 <= p < |d.config| && 0 <= i < |d.config[p].entries| :: Key(d.config[p].id, d.config[p].entries[i].id)
  }

  ghost predicate TabooIsOfEntries(d: Document) {
    d.taboo <= AllKeys(d)
  }

  function Marked(d: Document, key: Key): Document {
    d.(taboo := d.taboo + SetOf(Equivalent(d.config, key)))
  }

  /** A key the service marks: it finds an entry, or is one's own. */
  predicate Markable(d: Document, key: Key) {
    Lookup(d.config, key).Some? || key in AllKeys(d)
  }

  lemma EquivalentAreEntries(d: Document, key: Key)
    requires Markable(d, key)
    ensures SetOf(Equivalent(d.config, key)) <= AllKeys(d)
  {
    forall k | k in Equivalent(d.config, key)
      ensures k in AllKeys(d)
    {
      if Lookup(d.config, key).Some? {
        var media := MediaAt(d.config, key).value;
        PickIs(Occurrences(d.config), media, k);
        var o :| o in Occurrences(d.config) && o.key == k && MediaOf(o.entry) == Some(media);
        OccurrencesAre(d.config, o);
        var playlist :| playlist in d.config && o.entry in playlist.entries && o.key == Key(playlist.id, o.entry.id);
        var p :| 0 <= p < |d.config| && d.config[p] == playlist;
        var i :| 0 <= i < |d.config[p].entries| && d.config[p].entries[i] == o.entry;
      }
    }
  }

  // ---- What every round uses up ----

  /** Playlists whose cursor rests on a taboo entry. */
  function Resting(d: Document, cursors: seq<Cursor>): set<nat>
    requires |cursors| == |d.config|
  {
    set p: nat | p < |cursors| && RestsOnTaboo(d, cursors[p], p)
  }

  function Unspent(d: Document, refused: set<string>): nat {
    |AllKeys(d) - d.taboo| + |Items(d) - refused|
  }

  /** Entries not taboo, items not refused, and, below those, cursors resting on
      taboo entries. */
  function Measure(d: Document, refused: set<string>, cursors: seq<Cursor>): nat
    requires |cursors| == |d.config|
  {
    Weighed(Unspent(d, refused), |cursors|, |Resting(d, cursors)|)
  }

  /** What is unspent weighs more than all that rests. */
  function Weighed(unspent: nat, width: nat, resting: nat): nat {
    unspent * (width + 1) + resting
  }

  lemma RestingIsFew(d: Document, cursors: seq<Cursor>)
    requires |cursors| == |d.config|
    ensures |Resting(d, cursors)| <= |cursors|
  {
    SubsetSize(Resting(d, cursors), Below(|cursors|));
  }

  function Below(n: nat): (r: set<nat>)
    ensures |r| == n && forall p: nat :: p in r <==> p < n
  {
    if n == 0 then {} else Below(n - 1) + {n - 1}
  }

  lemma Lower(before: nat, after: nat, width: nat, high: nat, low: nat)
    requires after < before && low <= width
    ensures Weighed(after, width, low) < Weighed(before, width, high)
  {
    assert (after + 1) * (width + 1) <= before * (width + 1);
  }

  lemma SameItems(d: Document, more: set<Key>)
    ensures Items(d.(taboo := more)) == Items(d) && AllKeys(d.(taboo := more)) == AllKeys(d)
  {
  }

  lemma UnspentShrinks(d: Document, more: set<Key>, refused: set<string>, moreRefused: set<string>)
    requires d.taboo <= more <= AllKeys(d) && refused <= moreRefused <= Items(d)
    ensures Unspent(d.(taboo := more), moreRefused) <= Unspent(d, refused)
    ensures more != d.taboo || refused != moreRefused ==> Unspent(d.(taboo := more), moreRefused) < Unspent(d, refused)
  {
    SameItems(d, more);
    var keys, items := AllKeys(d), Items(d);
    SubsetSize(keys - more, keys - d.taboo);
    SubsetSize(items - moreRefused, items - refused);
    if more != d.taboo {
      var key :| key in more && key !in d.taboo;
      assert key in keys - d.taboo && key !in keys - more;
    }
    if moreRefused != refused {
      var item :| item in moreRefused && item !in refused;
      assert item in items - refused && item !in items - moreRefused;
    }
  }

  lemma RestingShrinks(d: Document, before: seq<Cursor>, after: seq<Cursor>)
    requires NoNewTaboo(d, before, after)
    ensures Resting(d, after) <= Resting(d, before) && |Resting(d, after)| <= |Resting(d, before)|
  {
    SubsetSize(Resting(d, after), Resting(d, before));
  }

  lemma SameLength(d: Document, before: seq<Cursor>, after: seq<Cursor>)
    ensures NoNewTaboo(d, before, after) ==> |after| == |before| == |d.config|
  {
  }

  /** Learning more, of taboo entries or refused items, never raises the measure
      of a selection, nor does moving its cursors off taboo entries. */
  lemma LearningSpends(
    d: Document, taboo: set<Key>, refused: set<string>, more: set<string>, before: seq<Cursor>, after: seq<Cursor>
  )
    requires d.taboo <= taboo <= AllKeys(d) && refused <= more <= Items(d) && |before| == |d.config|
    requires before == after || (taboo == d.taboo && NoNewTaboo(d, before, after))
    ensures |after| == |before| && Measure(d.(taboo := taboo), more, after) <= Measure(d, refused, before)
  {
    hide AllKeys, Items, Unspent, Resting, NoNewTaboo;
    var d' := d.(taboo := taboo);
    assert before != after ==> |after| == |before| by { SameLength(d, before, after); }
    UnspentShrinks(d, taboo, refused, more);
    RestingIsFew(d', after);
    if taboo == d.taboo {
      assert d' == d;
      if before != after {
        RestingShrinks(d, before, after);
      }
    }
    if Unspent(d', more) < Unspent(d, refused) {
      Lower(Unspent(d, refused), Unspent(d', more), |before|, |Resting(d, before)|, |Resting(d', after)|);
    }
  }

  /** What stands in for the playlist an id finds is another than the id's. */
  predicate StandsElsewhere(d: Document, refused: set<string>, p: nat)
    requires Proper(d) && p < |d.config|
  {
    var other := StandIn(d, refused, Holder(d, p));
    other.Some? && other.value != p
  }

  /** A failed playlist went on: its cursor left the entry, or another stands
      in. */
  ghost predicate WentOn(d: Document, refused: set<string>, before: seq<Cursor>, after: seq<Cursor>, p: nat)
    requires Proper(d) && p < |d.config| == |before| == |after|
  {
    Current(after[Holder(d, p)]) != Current(before[Holder(d, p)]) || StandsElsewhere(d, refused, p)
  }

  lemma KnownPlaylists(d: Document, failures: seq<Failure>)
    requires forall f :: f in failures ==> InDocument(d, f)
    ensures forall p :: p in PlaylistsOf(failures) ==> p < |d.config|
  {
    hide Holder;
  }

  /** One press of Next moved this playlist's cursor. */
  ghost predicate Pressed(d: Document, refused: set<string>, before: seq<Cursor>, after: seq<Cursor>, p: nat)
    requires |d.shuffle| == |d.config| == |before| == |after|
  {
    p < |d.config| &&
    exists deal ::
      IsDeal(deal, PlayableOf(d, refused, p)) && after[p] == Forward(before[p], PlayableOf(d, refused, p), d.shuffle[p], deal).0
  }

  /** What moving on the first `n` of some playlists did. */
  ghost predicate EachMovedOn(
    d: Document, refused: set<string>, before: seq<Cursor>, after: seq<Cursor>, playlists: seq<nat>, n: nat, moved: bool
  )
  {
    && Proper(d) && |d.config| == |before| == |after| && n <= |playlists|
    && (forall k :: 0 <= k < |playlists| ==> playlists[k] < |d.config|)
    && (forall h :: 0 <= h < |after| && !Held(d, playlists, h) ==> after[h] == before[h])
    && (forall k :: 0 <= k < n && StandsElsewhere(d, refused, playlists[k]) ==> moved)
    && ((forall k :: 0 <= k < |playlists| ==> FoundByItself(d, playlists[k])) ==>
          && (forall k :: n <= k < |playlists| ==> after[playlists[k]] == before[playlists[k]])
          && (forall k :: 0 <= k < n ==> Pressed(d, refused, before, after, playlists[k]))
          && (moved <==> exists k :: 0 <= k < n && WentOn(d, refused, before, after, playlists[k])))
  }

  lemma NoneMovedOn(d: Document, refused: set<string>, cursors: seq<Cursor>, playlists: seq<nat>)
    requires Proper(d) && |cursors| == |d.config| && forall p :: p in playlists ==> p < |d.config|
    ensures EachMovedOn(d, refused, cursors, cursors, playlists, 0, false)
  {
    hide StandsElsewhere, Held;
    assert forall k :: 0 <= k < |playlists| ==> playlists[k] in playlists;
  }

  lemma OneMoreMovedOn(
    d: Document, refused: set<string>, before: seq<Cursor>, were: seq<Cursor>, after: seq<Cursor>, playlists: seq<nat>, n: nat,
    moved: bool, went: bool
  )
    requires NoRepeats(playlists) && n < |playlists| && |were| == |after|
    requires EachMovedOn(d, refused, before, were, playlists, n, moved)
    requires playlists[n] < |d.config|
    requires var h := Holder(d, playlists[n]);
      && (forall q :: 0 <= q < |after| && q != h ==> after[q] == were[q])
      && (went <==> Current(after[h]) != Current(were[h]))
      && exists deal ::
           IsDeal(deal, PlayableOf(d, refused, h)) && after[h] == Forward(were[h], PlayableOf(d, refused, h), d.shuffle[h], deal).0
    ensures EachMovedOn(d, refused, before, after, playlists, n + 1, moved || went || StandsElsewhere(d, refused, playlists[n]))
  {
    hide StandsElsewhere, Forward, IsDeal, Pressed, WentOn, Holder;
    var p := playlists[n];
    assert p in playlists;
    assert Held(d, playlists, Holder(d, p));
    if forall k :: 0 <= k < |playlists| ==> FoundByItself(d, playlists[k]) {
      assert FoundByItself(d, p);
      JustWent(d, refused, before, were, after, p);
      JustPressed(d, refused, before, were, after, p);
      forall k | 0 <= k < n
        ensures Pressed(d, refused, before, after, playlists[k])
        ensures WentOn(d, refused, before, after, playlists[k]) <==> WentOn(d, refused, before, were, playlists[k])
      {
        assert FoundByItself(d, playlists[k]);
        WentOnStill(d, refused, before, were, after, playlists[k], p);
      }
    }
  }

  /** Only what the ids of failed playlists find moved; where they find their
      own, each by one press of Next. */
  ghost predicate MovedOn(d: Document, refused: set<string>, before: seq<Cursor>, after: seq<Cursor>, failures: seq<Failure>) {
    && |d.shuffle| == |d.config| == |before| == |after|
    && (forall h :: 0 <= h < |after| && !Held(d, PlaylistsOf(failures), h) ==> after[h] == before[h])
    && (AreFound(d, failures) ==> forall f :: f in failures ==> Pressed(d, refused, before, after, f.playlist))
  }

  lemma FailedMovedOn(
    d: Document, refused: set<string>, before: seq<Cursor>, after: seq<Cursor>, failures: seq<Failure>, moved: bool
  )
    requires EachMovedOn(d, refused, before, after, PlaylistsOf(failures), |PlaylistsOf(failures)|, moved)
    requires forall f :: f in failures ==> f.playlist < |d.config|
    ensures MovedOn(d, refused, before, after, failures)
    ensures (exists f :: f in failures && f.playlist < |d.config| && StandsElsewhere(d, refused, f.playlist)) ==> moved
    ensures AreFound(d, failures) ==>
      (moved <==> exists f :: f in failures && f.playlist < |d.config| && WentOn(d, refused, before, after, f.playlist))
  {
    hide StandsElsewhere, Pressed, WentOn, Holder;
    var playlists := PlaylistsOf(failures);
    forall k | 0 <= k < |playlists|
      ensures AreFound(d, failures) ==> FoundByItself(d, playlists[k])
    {
      assert playlists[k] in playlists;
    }
    forall f | f in failures
      ensures StandsElsewhere(d, refused, f.playlist) ==> moved
      ensures AreFound(d, failures) ==>
        Pressed(d, refused, before, after, f.playlist) && (WentOn(d, refused, before, after, f.playlist) ==> moved)
    {
      assert f.playlist in playlists;
      var k :| 0 <= k < |playlists| && playlists[k] == f.playlist;
    }
    if AreFound(d, failures) && moved {
      assert forall k :: 0 <= k < |playlists| ==> playlists[k] in playlists;
      var k :| 0 <= k < |playlists| && WentOn(d, refused, before, after, playlists[k]);
      assert playlists[k] in playlists;
      var f :| f in failures && f.playlist == playlists[k];
    }
  }

  lemma JustPressed(d: Document, refused: set<string>, before: seq<Cursor>, were: seq<Cursor>, after: seq<Cursor>, p: nat)
    requires |d.shuffle| == |d.config| == |before| == |were| == |after| && p < |d.config| && were[p] == before[p]
    requires exists deal ::
      && IsDeal(deal, PlayableOf(d, refused, p))
      && after[p] == Forward(were[p], PlayableOf(d, refused, p), d.shuffle[p], deal).0
    ensures Pressed(d, refused, before, after, p)
  {
    hide Forward, IsDeal;
  }

  lemma JustWent(d: Document, refused: set<string>, before: seq<Cursor>, were: seq<Cursor>, after: seq<Cursor>, p: nat)
    requires Proper(d) && p < |d.config| == |before| == |were| == |after| && FoundByItself(d, p) && were[p] == before[p]
    ensures Current(after[p]) != Current(were[p]) || StandsElsewhere(d, refused, p) <==> WentOn(d, refused, before, after, p)
  {
    hide StandsElsewhere;
  }

  lemma WentOnStill(
    d: Document, refused: set<string>, before: seq<Cursor>, were: seq<Cursor>, after: seq<Cursor>, went: nat, p: nat
  )
    requires Proper(d) && went < |d.config| == |before| == |were| == |after| && FoundByItself(d, went) && went != p
    requires forall q :: 0 <= q < |after| && q != p ==> after[q] == were[q]
    ensures WentOn(d, refused, before, were, went) <==> WentOn(d, refused, before, after, went)
    ensures Pressed(d, refused, before, were, went) <==> Pressed(d, refused, before, after, went)
  {
    hide StandsElsewhere, Forward, IsDeal;
  }

  /** A third failure of a playlist found by its own id, after which it went on,
      leaves less to spend: new entries are taboo, or a cursor left a taboo
      entry for one that isn't. */
  lemma ThirdFailureSpends(
    d: Document, marked: set<Key>, refused: set<string>, before: seq<Cursor>, after: seq<Cursor>, failed: Failure
  )
    requires Proper(d) && d.taboo <= marked <= AllKeys(d) && refused <= Items(d)
    requires |before| == |after| == |d.config| && NoNewTaboo(d.(taboo := marked), before, after)
    requires failed.playlist < |d.config| && FoundByItself(d, failed.playlist)
    requires failed.index < |Entries(d, failed.playlist)| && Current(before[failed.playlist]) == Some(failed.index)
    requires KeyOf(d, failed.playlist, Entries(d, failed.playlist)[failed.index]) in marked
    requires !RefusedThroughout(d, refused, failed.playlist)
    requires WentOn(d.(taboo := marked), refused, before, after, failed.playlist)
    ensures Measure(d.(taboo := marked), refused, after) < Measure(d, refused, before)
  {
    hide RefusedThroughout, AllKeys, Items, Unspent, NoNewTaboo, Resting;
    var d' := d.(taboo := marked);
    UnspentShrinks(d, marked, refused, refused);
    RestingIsFew(d', after);
    if marked != d.taboo {
      Lower(Unspent(d, refused), Unspent(d', refused), |before|, |Resting(d, before)|, |Resting(d', after)|);
    } else {
      assert d' == d;
      assert !StandsElsewhere(d, refused, failed.playlist);
      LeftTaboo(d, before, after, failed.playlist);
    }
  }

  lemma LeftTaboo(d: Document, before: seq<Cursor>, after: seq<Cursor>, p: nat)
    requires NoNewTaboo(d, before, after) && p < |d.config|
    requires RestsOnTaboo(d, before[p], p) && Current(after[p]) != Current(before[p])
    ensures |Resting(d, after)| < |Resting(d, before)|
  {
    RestingShrinks(d, before, after);
    assert p in Resting(d, before) && p !in Resting(d, after);
    SubsetSize(Resting(d, after), Resting(d, before));
  }

  // ---- Attempts ----

  ghost predicate FitsDocument(d: Document, refused: set<string>, s: Selection) {
    s.active < |d.config| && |d.shuffle| == |d.config| && AllSound(d, refused, s.cursors)
  }

  lemma FitsStill(d: Document, taboo: set<Key>, refused: set<string>, more: set<string>, s: Selection)
    requires FitsDocument(d, refused, s) && d.taboo <= taboo && refused <= more
    ensures FitsDocument(d.(taboo := taboo), more, s)
  {
    hide Sound;
    AllSoundStill(d, refused, more, s.cursors);
    MoreTaboo(d, taboo, more, s.cursors);
  }

  lemma MoreTaboo(d: Document, taboo: set<Key>, refused: set<string>, cursors: seq<Cursor>)
    requires |d.shuffle| == |d.config| && AllSound(d, refused, cursors) && d.taboo <= taboo
    ensures AllSound(d.(taboo := taboo), refused, cursors)
  {
    hide Sound;
    var d' := d.(taboo := taboo);
    forall p | 0 <= p < |cursors|
      ensures Sound(cursors[p], PlayableOf(d', refused, p), d.shuffle[p])
    {
      SoundWithFewer(PlayableOf(d, refused, p), PlayableOf(d', refused, p), cursors[p], d.shuffle[p]);
    }
  }

  /** The playlists some failures are of, each once. */
  function PlaylistsOf(failures: seq<Failure>): (r: seq<nat>)
    ensures NoRepeats(r)
    ensures forall p :: p in r <==> exists f :: f in failures && f.playlist == p
  {
    if failures == [] then []
    else
      var rest, p := PlaylistsOf(failures[..|failures| - 1]), failures[|failures| - 1].playlist;
      assert forall f :: f in failures <==> f in failures[..|failures| - 1] || f == failures[|failures| - 1];
      if p in rest then rest else rest + [p]
  }

  /** Some lookup finds this playlist. */
  ghost predicate Askable(config: Config, p: nat) {
    exists value :: PlaceOf(config, value) == Some(p)
  }

  /** What displays ask for, and what stands in, is what lookups find. */
  ghost predicate AreLookedUp(config: Config, w: Wanted, default: nat, allMedia: Option<nat>) {
    && (forall display :: 0 <= display < Displays(w) ==> Askable(config, WantedOn(w, display)))
    && Askable(config, default) && (allMedia.Some? ==> Askable(config, allMedia.value))
  }

  /** A failure is of a display's target: a playlist that some lookup finds and
      that isn't refused throughout, and what its id's playlist rests on. */
  ghost predicate IsShown(d: Document, refused: set<string>, cursors: seq<Cursor>, f: Failure)
    requires |cursors| == |d.config|
  {
    && f.playlist < |d.config| && Askable(d.config, f.playlist) && !RefusedThroughout(d, refused, f.playlist)
    && f.index < |Entries(d, Holder(d, f.playlist))|
    && Current(cursors[Holder(d, f.playlist)]) == Some(f.index)
  }

  ghost predicate AreShown(d: Document, refused: set<string>, cursors: seq<Cursor>, failures: seq<Failure>)
    requires |cursors| == |d.config|
  {
    forall f :: f in failures ==> IsShown(d, refused, cursors, f)
  }

  predicate InDocument(d: Document, f: Failure) {
    f.playlist < |d.config| && f.index < |Entries(d, Holder(d, f.playlist))|
  }

  function FailedKey(d: Document, f: Failure): Key
    requires InDocument(d, f)
  {
    KeyOf(d, f.playlist, Entries(d, Holder(d, f.playlist))[f.index])
  }

  /** What a failure marks: all entries alike to the one it put up; and that
      very one under its own key, where the playlist is found by its id. */
  lemma FailureMarks(d: Document, f: Failure)
    requires Proper(d) && InDocument(d, f)
    ensures Lookup(d.config, FailedKey(d, f)) == Some(Entries(d, Holder(d, f.playlist))[f.index])
    ensures FoundByItself(d, f.playlist) ==> FailedKey(d, f) in Equivalent(d.config, FailedKey(d, f))
  {
    ShownKeyIsMarked(d.config, f.playlist, Entries(d, Holder(d, f.playlist))[f.index]);
  }

  /** Every playlist that a lookup finds, and that can put something up, is found
      by its own id. */
  ghost predicate ShownAreFound(d: Document) {
    forall p: nat :: p < |d.config| && Askable(d.config, p) ==> FoundByItself(d, p) || Entries(d, Holder(d, p)) == []
  }

  ghost predicate AreFound(d: Document, failures: seq<Failure>) {
    forall f :: f in failures ==> f.playlist < |d.config| && FoundByItself(d, f.playlist)
  }

  lemma FailuresAreFound(d: Document, refused: set<string>, cursors: seq<Cursor>, failures: seq<Failure>)
    requires |cursors| == |d.config| && AreShown(d, refused, cursors, failures)
    ensures ShownAreFound(d) ==> AreFound(d, failures)
  {
    hide RefusedThroughout, Holder, Askable;
  }

  lemma OwnIdsAreFound(d: Document)
    requires Proper(d) && OwnIds(d.config)
    ensures ShownAreFound(d)
  {
    hide Finds;
    OwnIdsFindThemselves(d.config);
    assert forall p: nat :: p < |d.config| ==> Holder(d, p) == Finds(d.config, p);
  }

  /** The condition takes more: of two playlists each named as the other's id,
      every lookup finds the first, so the second is never shown. */
  lemma NamedAsEachOther(d: Document, first: seq<Entry>, second: seq<Entry>)
    requires d.config == [Playlist("a", "b", first), Playlist("b", "a", second)]
    ensures !OwnIds(d.config) && ShownAreFound(d)
  {
    assert d.config[0].name == d.config[1].id;
    assert !Askable(d.config, 1);
    assert FoundByItself(d, 0);
  }

  /** In a document that loads they may not be: asked for by its name, the
      second playlist is shown by an id that finds the first. */
  lemma NameKeepsAStartupGoing(first: Entry, second: Entry)
    requires first.id != second.id && MediaOf(first).Some? && MediaOf(second).Some?
    ensures var d := Document(Hiding(first, second), 1, None, {}, [false, false]);
      && Proper(d) && PlaceOf(d.config, "c") == Some(1) && !ShownAreFound(d)
      && !FoundByItself(d, 1) && Entries(d, Holder(d, 1)) == [first]
      && KeyOf(d, 1, first) !in Equivalent(d.config, KeyOf(d, 1, first))
  {
    hide Equivalent;
    NameHidesAnId(first, second);
    assert Askable(Hiding(first, second), 1);
    assert !FoundByItself(Document(Hiding(first, second), 1, None, {}, [false, false]), 1);
  }

  /** Every entry that failed, and all alike, are taboo, and no more are; the one put up under its
      own key, where its playlist is found by its id. */
  ghost predicate AreMarked(before: Document, after: Document, failures: seq<Failure>) {
    && before.taboo <= after.taboo && after == before.(taboo := after.taboo)
    && (forall f :: f in failures ==>
          && InDocument(after, f)
          && SetOf(Equivalent(after.config, FailedKey(after, f))) <= after.taboo
          && (FoundByItself(after, f.playlist) ==> FailedKey(after, f) in after.taboo))
    && (forall k :: k in after.taboo && k !in before.taboo ==>
          exists f :: f in failures && InDocument(after, f) && k in Equivalent(after.config, FailedKey(after, f)))
  }

  lemma MarkedAreInDocument(before: Document, after: Document, failures: seq<Failure>)
    requires AreMarked(before, after, failures)
    ensures before.taboo <= after.taboo && after == before.(taboo := after.taboo)
    ensures forall f :: f in failures ==> InDocument(after, f) && (FoundByItself(after, f.playlist) ==> FailedKey(after, f) in after.taboo)
  {
    hide InDocument, FailedKey, Equivalent;
  }

  /** The service's automatic changes, and the world they meet: the driver fails
      the start of a display at the n-th apply as `fails` says, and an apply
      beside its displays as `failsBeside` says; `wants` is what the displays
      ask for then, of the playlist and rule in force. Between attempts, in the
      n-th tick, renderers crash for good on the entries of `crashes`, and a
      probe of the outputs applies again when `probes` says. */
  class Automatic {
    const walk: Walk
    const wants: (nat, nat, bool) -> Wanted
    const fails: (nat, nat) -> bool
    const failsBeside: nat -> bool
    const crashes: nat -> seq<Key>
    const probes: nat -> bool
    var active: nat
    var rule: Option<nat>
    var pending: Option<Pending>
    var lastCycle: nat
    var ticks: nat

    ghost predicate Ready()
      reads this, walk, walk.rng
    {
      && walk.Ready() && active < |walk.d.config| && TabooIsOfEntries(walk.d) && Asking()
      && (pending.Some? ==>
            && FitsDocument(walk.d, walk.refused, pending.value.candidate)
            && FitsDocument(walk.d, walk.refused, pending.value.baseline)
            && pending.value.attempts < ATTEMPTS)
    }

    /** Every display asks for playlists that lookups find. */
    ghost predicate Asking()
      reads this, walk
    {
      forall n: nat, a: nat, ruled: bool :: a < |walk.d.config| ==>
        Asks(walk.d, wants(n, a, ruled)) && AreLookedUp(walk.d.config, wants(n, a, ruled), walk.d.default, walk.d.allMedia)
    }

    constructor (
      walk: Walk, wants: (nat, nat, bool) -> Wanted, fails: (nat, nat) -> bool, failsBeside: nat -> bool,
      crashes: nat -> seq<Key>, probes: nat -> bool, active: nat
    )
      requires walk.Ready() && active < |walk.d.config| && TabooIsOfEntries(walk.d)
      requires forall n: nat, a: nat, ruled: bool :: a < |walk.d.config| ==>
        Asks(walk.d, wants(n, a, ruled)) && AreLookedUp(walk.d.config, wants(n, a, ruled), walk.d.default, walk.d.allMedia)
      ensures Ready() && pending == None && this.walk == walk
    {
      this.walk, this.wants, this.fails, this.failsBeside := walk, wants, fails, failsBeside;
      this.crashes, this.probes := crashes, probes;
      this.active, rule, pending, lastCycle, ticks := active, None, None, 0, 0;
    }

    method SelectionState() returns (s: Selection)
      requires Ready()
      ensures s == Selection(active, rule, walk.cursors, walk.rng.state)
      ensures FitsDocument(walk.d, walk.refused, s)
    {
      s := Selection(active, rule, walk.cursors, walk.rng.state);
    }

    method RestoreSelection(s: Selection)
      requires walk.Ready() && FitsDocument(walk.d, walk.refused, s)
      modifies this`active, this`rule, walk`cursors, walk.rng
      ensures active == s.active && rule == s.rule && walk.cursors == s.cursors && walk.rng.state == s.chance
      ensures walk.Ready()
    {
      active, rule := s.active, s.rule;
      walk.cursors := s.cursors;
      walk.rng.state := s.chance;
    }

    /** An apply, as the displays ask then; true when it succeeds: every start
        does, or there is nothing to play. Otherwise, what failed. */
    method Apply() returns (ok: bool, failures: seq<Failure>)
      requires walk.Ready() && active < |walk.d.config| && Asking()
      modifies walk`refused, walk`cleared, walk`questions, walk`asks, walk`cursors, walk`applies, walk.rng
      ensures walk.Ready() && old(walk.refused) <= walk.refused && NoNewTaboo(walk.d, old(walk.cursors), walk.cursors)
      ensures OnlyRefusedMoved(walk.d, walk.refused, old(walk.cursors), walk.cursors) && walk.applies > old(walk.applies)
      ensures AreShown(walk.d, walk.refused, walk.cursors, failures)
      ensures var w := wants(old(walk.applies), active, rule.Some?);
        && (OwnIds(walk.d.config) ==> NoneRefused(walk.d, walk.refused, walk.cursors, w))
        && (ok <==> Succeeds(walk.d, walk.refused, walk.cursors, w, fails, failsBeside, walk.applies))
        && failures == FailuresOf(walk.d, walk.refused, walk.cursors, w, fails, walk.applies)
      ensures NeverRefuses(walk) ==> walk.refused == old(walk.refused)
    {
      hide ShownBy, NoneRefused, AllSound, Items, AskedOnce, NoNewTaboo, NothingToPlay, AreShown, Settled, OnlyRefusedMoved;
      var w := wants(walk.applies, active, rule.Some?);
      walk.ApplyCurrent(w);
      var d, refused, cursors, n := walk.d, walk.refused, walk.cursors, walk.applies;
      ok := Succeeds(d, refused, cursors, w, fails, failsBeside, n);
      failures := FailuresOf(d, refused, cursors, w, fails, n);
      ShownByIsShown(d, refused, cursors, w, (display: nat) => fails(n, display), Displays(w));
      ShownByIsShown(d, refused, cursors, w, (display: nat) => true, Displays(w));
    }

    /** Take some entries for broken, with all that is alike. */
    method MarkTaboo(keys: seq<Key>)
      requires walk.Ready() && TabooIsOfEntries(walk.d) && forall key :: key in keys ==> Markable(walk.d, key)
      modifies walk`d
      ensures walk.d == old(walk.d).(taboo := walk.d.taboo) && old(walk.d).taboo <= walk.d.taboo
      ensures walk.Ready() && TabooIsOfEntries(walk.d)
      ensures forall key :: key in keys ==> SetOf(Equivalent(walk.d.config, key)) <= walk.d.taboo
      ensures forall k :: k in walk.d.taboo && k !in old(walk.d).taboo ==> exists key :: key in keys && k in Equivalent(walk.d.config, key)
    {
      hide AllSound, AskedOnce, Items, AllKeys, Equivalent, Lookup;
      ghost var d := walk.d;
      for n := 0 to |keys|
        invariant walk.Ready() && TabooIsOfEntries(walk.d)
        invariant walk.d == d.(taboo := walk.d.taboo) && d.taboo <= walk.d.taboo
        invariant forall k :: 0 <= k < n ==> SetOf(Equivalent(d.config, keys[k])) <= walk.d.taboo
        invariant forall k :: k in walk.d.taboo && k !in d.taboo ==> exists key :: key in keys && k in Equivalent(d.config, key)
      {
        assert keys[n] in keys;
        SameItems(d, walk.d.taboo);
        ghost var before := walk.d;
        EquivalentAreEntries(before, keys[n]);
        walk.d := Marked(walk.d, keys[n]);
        SameItems(before, walk.d.taboo);
        MoreTaboo(before, walk.d.taboo, walk.refused, walk.cursors);
      }
    }

    /** Move each playlist that holds a failed entry on; true when one moved, or
        another stands in for what its id finds. */
    method MoveOn(failures: seq<Failure>) returns (moved: bool)
      requires walk.Ready() && forall f :: f in failures ==> InDocument(walk.d, f)
      modifies walk`cursors, walk.rng
      ensures walk.Ready() && NoNewTaboo(walk.d, old(walk.cursors), walk.cursors)
      ensures MovedOn(walk.d, walk.refused, old(walk.cursors), walk.cursors, failures)
      ensures (exists f :: f in failures && f.playlist < |walk.d.config| && StandsElsewhere(walk.d, walk.refused, f.playlist)) ==> moved
      ensures AreFound(walk.d, failures) ==>
        && |old(walk.cursors)| == |walk.d.config| == |walk.cursors|
        && (moved <==>
              exists f :: f in failures && f.playlist < |walk.d.config| && WentOn(walk.d, walk.refused, old(walk.cursors), walk.cursors, f.playlist))
    {
      hide AllSound, AskedOnce, Items, NoNewTaboo, WentOn, Holder, StandsElsewhere, Forward;
      KnownPlaylists(walk.d, failures);
      moved := MoveEachOn(PlaylistsOf(failures));
      FailedMovedOn(walk.d, walk.refused, old(walk.cursors), walk.cursors, failures, moved);
    }

    method MoveEachOn(playlists: seq<nat>) returns (moved: bool)
      requires walk.Ready() && NoRepeats(playlists) && forall p :: p in playlists ==> p < |walk.d.config|
      modifies walk`cursors, walk.rng
      ensures walk.Ready() && NoNewTaboo(walk.d, old(walk.cursors), walk.cursors)
      ensures EachMovedOn(walk.d, walk.refused, old(walk.cursors), walk.cursors, playlists, |playlists|, moved)
    {
      hide AllSound, AskedOnce, Items, RefusedThroughout, Forward, StandsElsewhere, Holder, RestsOnRefused, NoNewTaboo, EachMovedOn;
      moved := false;
      NoNewTabooYet(walk.d, walk.cursors);
      ghost var before := walk.cursors;
      NoneMovedOn(walk.d, walk.refused, before, playlists);
      for n := 0 to |playlists|
        invariant walk.Ready() && |before| == |walk.d.config| == |walk.cursors| && NoNewTaboo(walk.d, before, walk.cursors)
        invariant EachMovedOn(walk.d, walk.refused, before, walk.cursors, playlists, n, moved)
      {
        var p := playlists[n];
        assert p in playlists;
        ghost var were := walk.cursors;
        var went := walk.Move(Holder(walk.d, p));
        NoNewTabooThen(walk.d, before, were, walk.cursors);
        OneMoreMovedOn(walk.d, walk.refused, before, were, walk.cursors, playlists, n, moved, went);
        moved := moved || went || StandsElsewhere(walk.d, walk.refused, p);
      }
    }

    /** Install what a change is to show, and apply it. */
    method Try(candidate: Selection) returns (ok: bool, failures: seq<Failure>, ghost trial: Trial)
      requires walk.Ready() && Asking() && FitsDocument(walk.d, walk.refused, candidate)
      modifies this`active, this`rule, walk`refused, walk`cleared, walk`questions, walk`asks, walk`cursors, walk`applies, walk.rng
      ensures walk.Ready() && old(walk.refused) <= walk.refused
      ensures active == candidate.active && rule == candidate.rule
      ensures IsTrial(walk.d, trial, ok, failures, fails, failsBeside)
      ensures trial.refused == walk.refused && trial.cursors == walk.cursors && trial.apply == walk.applies > old(walk.applies)
      ensures trial.wanted == wants(old(walk.applies), candidate.active, candidate.rule.Some?)
      ensures OnlyRefusedMoved(walk.d, walk.refused, candidate.cursors, walk.cursors)
      ensures |candidate.cursors| == |walk.cursors| == |walk.d.config| && walk.refused <= Items(walk.d)
      ensures AreShown(walk.d, walk.refused, walk.cursors, failures)
      ensures TabooIsOfEntries(walk.d) ==>
        Measure(walk.d, walk.refused, walk.cursors) <= Measure(walk.d, old(walk.refused), candidate.cursors)
      ensures NeverRefuses(walk) ==> walk.refused == old(walk.refused)
    {
      hide AllSound, AskedOnce, Items, NoNewTaboo, AreShown, Measure, FailuresOf, Succeeds, NoneRefused, AllKeys, NeverRefuses,
        OnlyRefusedMoved, IsTrial;
      CandidateFits(walk.d, walk.refused, candidate);
      RestoreSelection(candidate);
      ok, failures := Apply();
      trial := Trial(wants(old(walk.applies), candidate.active, candidate.rule.Some?), walk.refused, walk.cursors, walk.applies);
      TrialIs(walk.d, trial, ok, failures, fails, failsBeside);
      if TabooIsOfEntries(walk.d) {
        LearningSpends(walk.d, walk.d.taboo, old(walk.refused), walk.refused, candidate.cursors, walk.cursors);
      }
      assert walk.d.(taboo := walk.d.taboo) == walk.d;
    }

    /** One attempt of a pending change. It succeeds, and what it tried stays; or
        it fails, and what was shown before is put back and applied again, where
        it is kept. Then it waits for another, unless it was the third: then
        every entry that failed, and all alike, are taboo, and a change that
        keeps no baseline moves on, to be tried anew, if anything can. What was
        tried is told as `trial`. */
    method Attempt(p: Pending, now: nat) returns (ok: bool, failures: seq<Failure>, ghost trial: Trial)
      requires Ready() && pending == None
      requires FitsDocument(walk.d, walk.refused, p.candidate) && FitsDocument(walk.d, walk.refused, p.baseline)
      requires p.attempts < ATTEMPTS
      modifies this`active, this`rule, this`pending, this`lastCycle, walk, walk.rng
      ensures Ready() && old(walk.refused) <= walk.refused
      ensures IsTrial(old(walk.d), trial, ok, failures, fails, failsBeside) && trial.refused <= walk.refused
      ensures trial.wanted == wants(old(walk.applies), p.candidate.active, p.candidate.rule.Some?)
      ensures trial.apply > old(walk.applies) && OnlyRefusedMoved(old(walk.d), trial.refused, p.candidate.cursors, trial.cursors)
      ensures ok || !p.restoreBaseline ==> active == p.candidate.active && rule == p.candidate.rule
      ensures ok ==> walk.cursors == trial.cursors && walk.applies == trial.apply
      ensures !ok && p.restoreBaseline ==>
        && active == p.baseline.active && rule == p.baseline.rule && walk.applies > trial.apply
        && OnlyRefusedMoved(old(walk.d), walk.refused, p.baseline.cursors, walk.cursors)
      ensures ok ==> pending == None && lastCycle == now && walk.d == old(walk.d)
      ensures !ok ==> lastCycle == old(lastCycle)
      ensures !ok && p.attempts + 1 < ATTEMPTS ==>
        && pending == Some(p.(attempts := p.attempts + 1, nextAttempt := now + DELAY, failures := failures))
        && walk.d == old(walk.d)
      ensures !ok && p.attempts + 1 == ATTEMPTS ==>
        && AreMarked(old(walk.d), walk.d, failures)
        && (p.restoreBaseline ==> pending == None)
        && (pending.Some? ==>
              var now' := Selection(active, rule, walk.cursors, walk.rng.state);
              pending == Some(Pending(now', now', 0, now + DELAY, false, [])))
        && (!p.restoreBaseline && (exists f :: f in failures && f.playlist < |walk.d.config| && StandsElsewhere(walk.d, trial.refused, f.playlist)) ==>
              pending.Some?)
        && (pending.None? && walk.applies == trial.apply ==>
              !ShowsNothing(walk.d, walk.refused, walk.cursors, wants(walk.applies, active, rule.Some?)))
      ensures ShownAreFound(old(walk.d)) ==> AreFound(old(walk.d), failures)
      ensures !p.restoreBaseline && pending.Some? && AreFound(old(walk.d), failures) ==>
        && Measure(walk.d, walk.refused, pending.value.candidate.cursors) <= Measure(old(walk.d), old(walk.refused), p.candidate.cursors)
        && (pending.value.attempts == 0 ==>
              Measure(walk.d, walk.refused, pending.value.candidate.cursors) < Measure(old(walk.d), old(walk.refused), p.candidate.cursors))
      ensures NeverRefuses(walk) ==> walk.refused == old(walk.refused)
    {
      hide AllSound, AskedOnce, Items, NoNewTaboo, AreShown, Measure, FailuresOf, Succeeds, NoneRefused, AllKeys, InDocument,
        ShownAreFound, AreFound, NeverRefuses, FailedKey, StandsElsewhere, IsTrial, Equivalent, AreMarked, OnlyRefusedMoved, ShowsNothing;
      ok, failures, trial := Try(p.candidate);
      ghost var d, refused, tried := walk.d, walk.refused, walk.cursors;
      FailuresAreFound(d, refused, tried, failures);
      CandidateSpends(d, d.taboo, old(walk.refused), refused, p.candidate);
      FitsStill(d, d.taboo, old(walk.refused), refused, p.candidate);
      FitsStill(d, d.taboo, old(walk.refused), refused, p.baseline);
      assert d.(taboo := d.taboo) == d;
      if ok {
        lastCycle := now;
        return;
      }
      if p.restoreBaseline {
        RollBack(p.baseline);
      }
      if p.attempts + 1 < ATTEMPTS {
        FitsStill(d, d.taboo, refused, walk.refused, p.candidate);
        FitsStill(d, d.taboo, refused, walk.refused, p.baseline);
        pending := Some(p.(attempts := p.attempts + 1, nextAttempt := now + DELAY, failures := failures));
        return;
      }
      ShownAreInDocument(d, refused, tried, failures);
      Mark(failures);
      MarkedAreInDocument(d, walk.d, failures);
      if !p.restoreBaseline {
        GiveUp(failures, now, d, refused);
      }
    }

    method Mark(failures: seq<Failure>)
      requires walk.Ready() && TabooIsOfEntries(walk.d) && forall f :: f in failures ==> InDocument(walk.d, f)
      modifies walk`d
      ensures walk.Ready() && TabooIsOfEntries(walk.d) && AreMarked(old(walk.d), walk.d, failures)
    {
      hide AllSound, AskedOnce, Items, InDocument, FailedKey, AllKeys, Equivalent, Lookup;
      ghost var d := walk.d;
      var keys := KeysOf(failures);
      MarkTaboo(keys);
      FailuresMarked(d, walk.d.taboo, failures, keys);
    }

    /** After a third failure whose entries are marked: move on, and try anew,
        if anything can. */
    method GiveUp(failures: seq<Failure>, now: nat, ghost d: Document, ghost refused: set<string>)
      requires Ready() && pending == None && walk.refused == refused
      requires AreMarked(d, walk.d, failures) && AreShown(d, refused, walk.cursors, failures)
      requires |walk.cursors| == |d.config|
      modifies this`pending, walk`refused, walk`cleared, walk`questions, walk`asks, walk`cursors, walk`applies, walk.rng
      ensures Ready() && refused <= walk.refused
      ensures pending.Some? ==>
        var now' := Selection(active, rule, walk.cursors, walk.rng.state);
        && pending == Some(Pending(now', now', 0, now + DELAY, false, []))
        && MovedOn(walk.d, refused, old(walk.cursors), walk.cursors, failures)
      ensures (exists f :: f in failures && f.playlist < |walk.d.config| && StandsElsewhere(walk.d, refused, f.playlist)) ==> pending.Some?
      ensures pending.None? && walk.applies == old(walk.applies) ==>
        !ShowsNothing(walk.d, walk.refused, walk.cursors, wants(walk.applies, active, rule.Some?))
      ensures pending.Some? && AreFound(d, failures) ==>
        Measure(walk.d, walk.refused, pending.value.candidate.cursors) < Measure(d, refused, old(walk.cursors))
      ensures NeverRefuses(walk) ==> walk.refused == refused
    {
      hide AllSound, AskedOnce, Items, NoNewTaboo, AreShown, Measure, FailuresOf, Succeeds, NoneRefused, AllKeys, InDocument,
        AreFound, NeverRefuses, FailedKey, StandsElsewhere, Equivalent, ShowsNothing;
      ghost var tried := walk.cursors;
      MarkedAreInDocument(d, walk.d, failures);
      var moved := MoveOn(failures);
      if moved {
        var candidate := SelectionState();
        pending := Some(Pending(candidate, candidate, 0, now + DELAY, false, []));
        if AreFound(d, failures) {
          SameItems(d, walk.d.taboo);
          SomeWentOn(d, walk.d.taboo, refused, tried, walk.cursors, failures);
        }
      } else if ShowsNothing(walk.d, walk.refused, walk.cursors, wants(walk.applies, active, rule.Some?)) {
        var _, _ := Apply();
      }
    }

    /** The keys of what failed. */
    method KeysOf(failures: seq<Failure>) returns (keys: seq<Key>)
      requires Proper(walk.d) && forall f :: f in failures ==> InDocument(walk.d, f)
      ensures |keys| == |failures| && forall i :: 0 <= i < |keys| ==> InDocument(walk.d, failures[i]) && keys[i] == FailedKey(walk.d, failures[i])
      ensures forall key :: key in keys ==> Markable(walk.d, key)
    {
      hide InDocument, FailedKey, Lookup, AllKeys;
      keys := [];
      for n := 0 to |failures|
        invariant |keys| == n
        invariant forall i :: 0 <= i < n ==> InDocument(walk.d, failures[i]) && keys[i] == FailedKey(walk.d, failures[i])
        invariant forall key :: key in keys ==> Markable(walk.d, key)
      {
        assert failures[n] in failures;
        FailureMarks(walk.d, failures[n]);
        keys := keys + [FailedKey(walk.d, failures[n])];
      }
    }

    /** After a start whose apply failed: two more attempts of what it tried. */
    method ScheduleInitialRetry(failures: seq<Failure>, now: nat) returns (scheduled: bool)
      requires Ready()
      modifies this`pending
      ensures Ready() && (scheduled <==> failures != [])
      ensures scheduled ==>
        var now' := Selection(active, rule, walk.cursors, walk.rng.state);
        pending == Some(Pending(now', now', 1, now + DELAY, false, failures))
      ensures !scheduled ==> pending == old(pending)
    {
      hide AllSound, AskedOnce, Items;
      if failures == [] {
        return false;
      }
      var selection := SelectionState();
      pending := Some(Pending(selection, selection, 1, now + DELAY, false, failures));
      scheduled := true;
    }

    /** Put back what was shown, for a change that keeps a baseline. */
    method RollBack(baseline: Selection)
      requires walk.Ready() && FitsDocument(walk.d, walk.refused, baseline) && Asking()
      modifies this`active, this`rule, walk`refused, walk`cleared, walk`questions, walk`asks, walk`cursors, walk`applies, walk.rng
      ensures walk.Ready() && old(walk.refused) <= walk.refused && active == baseline.active && rule == baseline.rule
      ensures OnlyRefusedMoved(walk.d, walk.refused, baseline.cursors, walk.cursors) && walk.applies > old(walk.applies)
      ensures NeverRefuses(walk) ==> walk.refused == old(walk.refused)
    {
      hide AllSound, AskedOnce, Items, NoNewTaboo, AreShown, FailuresOf, Succeeds, NoneRefused, NeverRefuses, OnlyRefusedMoved;
      RestoreSelection(baseline);
      var _, _ := Apply();
    }

    /** What a tick does beside an attempt: renderers that crash for good make
        entries taboo, and a probe of the outputs may apply again. */
    method Tick()
      requires Ready()
      modifies this`ticks, walk, walk.rng
      ensures Ready() && pending == old(pending)
      ensures walk.d == old(walk.d).(taboo := walk.d.taboo) && ticks == old(ticks) + 1
      ensures forall key :: key in crashes(old(ticks)) && Markable(old(walk.d), key) ==>
        SetOf(Equivalent(walk.d.config, key)) <= walk.d.taboo
      ensures forall k :: k in walk.d.taboo && k !in old(walk.d).taboo ==>
        exists key :: key in crashes(old(ticks)) && k in Equivalent(walk.d.config, key)
      ensures if probes(old(ticks)) then walk.applies > old(walk.applies) else walk.cursors == old(walk.cursors) && walk.refused == old(walk.refused)
      ensures pending.Some? && |old(pending).value.candidate.cursors| == |walk.d.config| ==>
        Measure(walk.d, walk.refused, pending.value.candidate.cursors)
        <= Measure(old(walk.d), old(walk.refused), pending.value.candidate.cursors)
      ensures NeverRefuses(walk) ==> walk.refused == old(walk.refused)
    {
      hide AllSound, AskedOnce, Items, NoNewTaboo, AreShown, Measure, FailuresOf, Succeeds, NoneRefused, AllKeys, Lookup, Equivalent, NeverRefuses;
      ghost var d, refused := walk.d, walk.refused;
      var keys := [];
      for n := 0 to |crashes(ticks)|
        invariant forall key :: key in keys <==> Markable(walk.d, key) && key in crashes(ticks)[..n]
      {
        assert crashes(ticks)[..n + 1] == crashes(ticks)[..n] + [crashes(ticks)[n]];
        if Markable(walk.d, crashes(ticks)[n]) {
          keys := keys + [crashes(ticks)[n]];
        }
      }
      assert crashes(ticks)[..|crashes(ticks)|] == crashes(ticks);
      var probing := probes(ticks);
      ticks := ticks + 1;
      MarkTaboo(keys);
      if probing {
        var _, _ := Apply();
      }
      SameItems(d, walk.d.taboo);
      if pending.Some? {
        FitsStill(d, walk.d.taboo, refused, walk.refused, pending.value.candidate);
        FitsStill(d, walk.d.taboo, refused, walk.refused, pending.value.baseline);
        CandidateSpends(d, walk.d.taboo, refused, walk.refused, pending.value.candidate);
      }
    }

    /** A startup's attempts, `waits` ticks before each. Whatever the driver
        answers, and whatever crashes and is probed in between, they end, where
        playlists are found by their own ids: each round of three that goes on
        has spent something. */
    method RunOut(now: nat, waits: nat -> nat) returns (attempts: nat)
      requires Ready() && ShownAreFound(walk.d) && (pending.Some? ==> !pending.value.restoreBaseline)
      modifies this`active, this`rule, this`pending, this`lastCycle, this`ticks, walk, walk.rng
      ensures Ready() && pending == None
      ensures old(pending).Some? ==>
        |old(pending).value.candidate.cursors| == |old(walk.d).config|
        && attempts <= ATTEMPTS * (Measure(old(walk.d), old(walk.refused), old(pending).value.candidate.cursors) + 1)
    {
      hide FitsDocument, Measure, AllKeys, ShownAreFound, IsTrial, InDocument, StandsElsewhere, FailedKey, NeverRefuses, Equivalent, FoundByItself;
      attempts := 0;
      if pending.None? {
        return;
      }
      CandidateFits(walk.d, walk.refused, pending.value.candidate);
      ghost var d, budget := walk.d, Measure(walk.d, walk.refused, pending.value.candidate.cursors);
      while pending.Some?
        invariant Ready() && (pending.Some? ==> !pending.value.restoreBaseline)
        invariant walk.d == d.(taboo := walk.d.taboo)
        invariant pending.Some? ==>
          && |pending.value.candidate.cursors| == |walk.d.config|
          && attempts + ATTEMPTS * (Measure(walk.d, walk.refused, pending.value.candidate.cursors) + 1) - pending.value.attempts
             <= ATTEMPTS * (budget + 1)
        invariant pending.None? ==> attempts <= ATTEMPTS * (budget + 1)
        decreases if pending.Some? then Measure(walk.d, walk.refused, pending.value.candidate.cursors) + 1 else 0,
                  if pending.Some? then ATTEMPTS - pending.value.attempts else 0
      {
        ghost var waiting, left := pending, Measure(walk.d, walk.refused, pending.value.candidate.cursors);
        for n := 0 to waits(attempts)
          invariant Ready() && pending == waiting && walk.d == d.(taboo := walk.d.taboo)
          invariant |waiting.value.candidate.cursors| == |walk.d.config|
          invariant Measure(walk.d, walk.refused, waiting.value.candidate.cursors) <= left
        {
          Tick();
        }
        FoundStill(d, walk.d.taboo);
        var p := pending.value;
        pending := None;
        var _, _, _ := Attempt(p, now);
        attempts := attempts + 1;
        if pending.Some? {
          CandidateFits(walk.d, walk.refused, pending.value.candidate);
        }
      }
    }

    /** A start: its apply, and after a failure its chain of attempts. */
    method Startup(now: nat, waits: nat -> nat) returns (attempts: nat)
      requires Ready() && ShownAreFound(walk.d) && pending == None
      modifies this`active, this`rule, this`pending, this`lastCycle, this`ticks, walk, walk.rng
      ensures Ready() && pending == None
    {
      hide AllSound, AskedOnce, Items, NoNewTaboo, AreShown, Measure, FailuresOf, Succeeds, NoneRefused, ShownAreFound, NeverRefuses;
      var ok, failures := Apply();
      attempts := 0;
      if !ok {
        var scheduled := ScheduleInitialRetry(failures, now);
        if scheduled {
          attempts := RunOut(now, waits);
        }
      }
    }

    /** The attempts of a driver that fails whatever it is given, `limit` at most,
        with ticks before each: where the displays ask for one playlist, they
        are over within three for each unit that can be spent exactly when that
        playlist is found by its own id; else one is pending after any number. */
    method RunFor(s: nat, limit: nat, now: nat, waits: nat -> nat) returns (attempts: nat)
      requires Ready() && pending.Some? && !pending.value.restoreBaseline
      requires s < |walk.d.config| && Entries(walk.d, Holder(walk.d, s)) != []
      requires AlwaysFails(s) && NeverRefuses(walk) && walk.refused == {}
      modifies this`active, this`rule, this`pending, this`lastCycle, this`ticks, walk, walk.rng
      ensures Ready() && attempts <= limit
      ensures !FoundByItself(old(walk.d), s) ==> pending.Some? && attempts == limit
      ensures |old(pending).value.candidate.cursors| == |old(walk.d).config|
      ensures limit >= ATTEMPTS * (Measure(old(walk.d), old(walk.refused), old(pending).value.candidate.cursors) + 1) ==>
        (pending.None? <==> FoundByItself(old(walk.d), s))
    {
      hide FitsDocument, AllKeys, Equivalent, Measure, FoundByItself, FailedKey, InDocument, NeverRefuses, ShownAreFound, AreFound, IsTrial,
        StandsElsewhere, AlwaysFails, Holder, Entries;
      attempts := 0;
      CandidateFits(walk.d, walk.refused, pending.value.candidate);
      ghost var d, budget := walk.d, Measure(walk.d, walk.refused, pending.value.candidate.cursors);
      while pending.Some? && attempts < limit
        invariant Ready() && walk.refused == {} && (pending.Some? ==> !pending.value.restoreBaseline)
        invariant walk.d == d.(taboo := walk.d.taboo) && attempts <= limit
        invariant !FoundByItself(d, s) ==> pending.Some?
        invariant pending.Some? ==>
          && |pending.value.candidate.cursors| == |walk.d.config|
          && (FoundByItself(d, s) ==>
                attempts + ATTEMPTS * (Measure(walk.d, walk.refused, pending.value.candidate.cursors) + 1) - pending.value.attempts
                <= ATTEMPTS * (budget + 1))
        decreases limit - attempts
      {
        ghost var waiting, left := pending, Measure(walk.d, walk.refused, pending.value.candidate.cursors);
        for n := 0 to waits(attempts)
          invariant Ready() && pending == waiting && walk.d == d.(taboo := walk.d.taboo) && walk.refused == {}
          invariant |waiting.value.candidate.cursors| == |walk.d.config|
          invariant Measure(walk.d, walk.refused, waiting.value.candidate.cursors) <= left
        {
          Tick();
        }
        var p := pending.value;
        pending := None;
        ghost var before := walk.d;
        SameLookups(d, before.taboo, s);
        var ok, failures;
        ghost var trial;
        ok, failures, trial := Attempt(p, now);
        SameLookups(d, walk.d.taboo, s);
        attempts := attempts + 1;
        Wants(s);
        FailsOnly(before, trial, ok, failures, fails, failsBeside, s);
        if FoundByItself(d, s) {
          OnlyThisFound(before, failures, s);
        } else {
          Elsewhere(walk.d, failures, s);
        }
        if pending.Some? {
          CandidateFits(walk.d, walk.refused, pending.value.candidate);
        }
      }
    }

    lemma Wants(s: nat)
      requires AlwaysFails(s)
      ensures forall n: nat, a: nat, ruled: bool :: wants(n, a, ruled) == Everywhere(s, 1)
      ensures forall n: nat, display: nat :: fails(n, display)
    {
    }

    ghost predicate AlwaysFails(s: nat) {
      && (forall n: nat, a: nat, ruled: bool :: wants(n, a, ruled) == Everywhere(s, 1))
      && (forall n: nat, display: nat :: fails(n, display))
    }
  }

  ghost predicate NeverRefuses(walk: Walk) {
    (forall n :: !walk.refuses(n)) && (forall n, display :: !walk.refusedAt(n, display))
  }

  /** What an attempt tried: what was asked for, what was refused by then, where
      the cursors were, and which apply it was. */
  datatype Trial = Trial(wanted: Wanted, refused: set<string>, cursors: seq<Cursor>, apply: nat)

  ghost predicate IsTrial(
    d: Document, t: Trial, ok: bool, failures: seq<Failure>, fails: (nat, nat) -> bool, failsBeside: nat -> bool
  )
  {
    && Proper(d) && AllSound(d, t.refused, t.cursors) && Asks(d, t.wanted)
    && (ok <==> Succeeds(d, t.refused, t.cursors, t.wanted, fails, failsBeside, t.apply))
    && failures == FailuresOf(d, t.refused, t.cursors, t.wanted, fails, t.apply)
  }

  lemma TrialIs(
    d: Document, t: Trial, ok: bool, failures: seq<Failure>, fails: (nat, nat) -> bool, failsBeside: nat -> bool
  )
    requires Proper(d) && AllSound(d, t.refused, t.cursors) && Asks(d, t.wanted)
    requires ok <==> Succeeds(d, t.refused, t.cursors, t.wanted, fails, failsBeside, t.apply)
    requires failures == FailuresOf(d, t.refused, t.cursors, t.wanted, fails, t.apply)
    ensures IsTrial(d, t, ok, failures, fails, failsBeside)
  {
  }

  lemma CandidateFits(d: Document, refused: set<string>, s: Selection)
    requires FitsDocument(d, refused, s)
    ensures |s.cursors| == |d.config|
  {
  }

  lemma CandidateSpends(d: Document, taboo: set<Key>, refused: set<string>, more: set<string>, s: Selection)
    requires FitsDocument(d, refused, s) && d.taboo <= taboo <= AllKeys(d) && refused <= more <= Items(d)
    ensures |s.cursors| == |d.config| && Measure(d.(taboo := taboo), more, s.cursors) <= Measure(d, refused, s.cursors)
  {
    LearningSpends(d, taboo, refused, more, s.cursors, s.cursors);
  }

  lemma FoundStill(d: Document, taboo: set<Key>)
    ensures ShownAreFound(d) ==> ShownAreFound(d.(taboo := taboo))
  {
    hide Finds;
    if ShownAreFound(d) {
      var d' := d.(taboo := taboo);
      forall p: nat | p < |d'.config| && Askable(d'.config, p)
        ensures FoundByItself(d', p) || Entries(d', Holder(d', p)) == []
      {
        assert FoundByItself(d, p) || Entries(d, Holder(d, p)) == [];
      }
    }
  }

  lemma ShownAreInDocument(d: Document, refused: set<string>, cursors: seq<Cursor>, failures: seq<Failure>)
    requires |cursors| == |d.config| && AreShown(d, refused, cursors, failures)
    ensures forall f :: f in failures ==> InDocument(d, f)
  {
    hide RefusedThroughout, Holder;
  }

  lemma FailuresMarked(d: Document, taboo: set<Key>, failures: seq<Failure>, keys: seq<Key>)
    requires Proper(d) && |keys| == |failures| && forall f :: f in failures ==> InDocument(d, f)
    requires forall i :: 0 <= i < |keys| ==> InDocument(d, failures[i]) && keys[i] == FailedKey(d, failures[i])
    requires forall key :: key in keys ==> SetOf(Equivalent(d.config, key)) <= taboo
    requires d.taboo <= taboo && forall k :: k in taboo && k !in d.taboo ==> exists key :: key in keys && k in Equivalent(d.config, key)
    ensures AreMarked(d, d.(taboo := taboo), failures)
  {
    hide Equivalent, Holder, Lookup, FailedKey, Valid, FoundByItself;
    var after := d.(taboo := taboo);
    forall f | f in failures
      ensures InDocument(after, f) && SetOf(Equivalent(after.config, FailedKey(after, f))) <= taboo
      ensures FoundByItself(after, f.playlist) ==> FailedKey(after, f) in taboo
    {
      var i :| 0 <= i < |failures| && failures[i] == f;
      assert keys[i] in keys;
      FailureMarks(d, f);
      SameFailedKey(d, taboo, f);
    }
    forall k | k in taboo && k !in d.taboo
      ensures exists f :: f in failures && InDocument(after, f) && k in Equivalent(after.config, FailedKey(after, f))
    {
      var key :| key in keys && k in Equivalent(d.config, key);
      var i :| 0 <= i < |keys| && keys[i] == key;
      assert failures[i] in failures;
      SameFailedKey(d, taboo, failures[i]);
    }
  }

  lemma SameFailedKey(d: Document, taboo: set<Key>, f: Failure)
    requires InDocument(d, f)
    ensures InDocument(d.(taboo := taboo), f) && FailedKey(d.(taboo := taboo), f) == FailedKey(d, f)
    ensures FoundByItself(d.(taboo := taboo), f.playlist) == FoundByItself(d, f.playlist)
  {
  }

  lemma SomeWentOn(
    d: Document, taboo: set<Key>, refused: set<string>, before: seq<Cursor>, after: seq<Cursor>, failures: seq<Failure>
  )
    requires Proper(d) && AreFound(d, failures) && d.taboo <= taboo <= AllKeys(d) && refused <= Items(d)
    requires |before| == |after| == |d.config| && AreShown(d, refused, before, failures)
    requires NoNewTaboo(d.(taboo := taboo), before, after)
    requires var d' := d.(taboo := taboo);
      forall f :: f in failures ==> InDocument(d', f) && (FoundByItself(d', f.playlist) ==> FailedKey(d', f) in taboo)
    requires var d' := d.(taboo := taboo);
      AreFound(d', failures) ==>
        exists f :: f in failures && f.playlist < |d.config| && WentOn(d', refused, before, after, f.playlist)
    ensures Measure(d.(taboo := taboo), refused, after) < Measure(d, refused, before)
  {
    hide RefusedThroughout, Items, Measure, NoNewTaboo, WentOn, AllKeys, Finds;
    var d' := d.(taboo := taboo);
    assert forall f :: f in failures ==> f.playlist < |d.config| && FoundByItself(d', f.playlist) == FoundByItself(d, f.playlist);
    assert AreFound(d', failures);
    var f :| f in failures && f.playlist < |d.config| && WentOn(d', refused, before, after, f.playlist);
    assert IsShown(d, refused, before, f);
    ThirdFailureSpends(d, taboo, refused, before, after, f);
  }

  /** With nothing refused, all a driver that always fails meets is the playlist
      the displays ask for. */
  lemma FailsOnly(
    d: Document, t: Trial, ok: bool, failures: seq<Failure>, fails: (nat, nat) -> bool, failsBeside: nat -> bool, s: nat
  )
    requires IsTrial(d, t, ok, failures, fails, failsBeside) && t.wanted == Everywhere(s, 1) && t.refused == {}
    requires s < |d.config| && Entries(d, Holder(d, s)) != []
    requires forall n: nat, display: nat :: fails(n, display)
    ensures !ok && failures != [] && forall f :: f in failures ==> f.playlist == s
  {
    hide Sound;
    var h := Holder(d, s);
    assert Sound(t.cursors[h], PlayableOf(d, {}, h), d.shuffle[h]);
    CursorRests(t.cursors[h], PlayableOf(d, {}, h), d.shuffle[h]);
    var target := TargetOf(d, {}, t.cursors, t.wanted, 0);
    assert target.Some?;
    var which := (display: nat) => fails(t.apply, display);
    assert ShownBy(d, {}, t.cursors, t.wanted, which, 0) == [];
    assert ShownBy(d, {}, t.cursors, t.wanted, which, 1) == [Failure(s, target.value.index)];
    assert ShownBy(d, {}, t.cursors, t.wanted, (display: nat) => true, 1) == [Failure(s, target.value.index)];
  }

  lemma OnlyThisFound(d: Document, failures: seq<Failure>, s: nat)
    requires s < |d.config| && FoundByItself(d, s) && forall f :: f in failures ==> f.playlist == s
    ensures AreFound(d, failures)
  {
  }

  /** With nothing refused, what an id finds stands in for itself. */
  lemma Elsewhere(d: Document, failures: seq<Failure>, s: nat)
    requires Proper(d) && s < |d.config| && !FoundByItself(d, s) && failures != [] && forall f :: f in failures ==> f.playlist == s
    ensures exists f :: f in failures && f.playlist < |d.config| && StandsElsewhere(d, {}, f.playlist)
  {
    assert failures[0] in failures && StandsElsewhere(d, {}, failures[0].playlist);
  }

  lemma CursorRests(c: Cursor, playable: Playable, shuffle: bool)
    requires Sound(c, playable, shuffle) && playable != []
    ensures Current(c).Some? && Current(c).value < |playable|
  {
  }

  lemma SameLookups(d: Document, taboo: set<Key>, s: nat)
    requires s < |d.config|
    ensures var d' := d.(taboo := taboo);
      FoundByItself(d', s) == FoundByItself(d, s) && Entries(d', Holder(d', s)) == Entries(d, Holder(d, s))
  {
  }

  // ---- How an apply ends ----

  /** What the displays below `n` that `which` holds of show. */
  function ShownBy(d: Document, refused: set<string>, cursors: seq<Cursor>, w: Wanted, which: nat -> bool, n: nat): seq<Failure>
    requires Proper(d) && |cursors| == |d.config| && Asks(d, w) && n <= Displays(w)
  {
    if n == 0 then []
    else
      var rest, t := ShownBy(d, refused, cursors, w, which, n - 1), TargetOf(d, refused, cursors, w, n - 1);
      if t.Some? && which(n - 1) then rest + [Failure(t.value.playlist, t.value.index)] else rest
  }

  lemma {:induction false} ShownByIsShown(
    d: Document, refused: set<string>, cursors: seq<Cursor>, w: Wanted, which: nat -> bool, n: nat
  )
    requires Proper(d) && |cursors| == |d.config| && Asks(d, w) && AreLookedUp(d.config, w, d.default, d.allMedia) && n <= Displays(w)
    ensures AreShown(d, refused, cursors, ShownBy(d, refused, cursors, w, which, n))
    decreases n
  {
    hide RefusedThroughout, StandIn, Holder, Askable, AreLookedUp;
    if n > 0 {
      ShownByIsShown(d, refused, cursors, w, which, n - 1);
      StandInIsLookedUp(d, refused, w, n - 1);
    }
  }

  lemma StandInIsLookedUp(d: Document, refused: set<string>, w: Wanted, display: nat)
    requires Proper(d) && Asks(d, w) && AreLookedUp(d.config, w, d.default, d.allMedia) && display < Displays(w)
    ensures var r := StandIn(d, refused, WantedOn(w, display)); r.Some? ==> Askable(d.config, r.value)
  {
    hide RefusedThroughout, Askable;
  }

  /** A display shows this entry of this playlist. */
  predicate Shows(d: Document, refused: set<string>, cursors: seq<Cursor>, w: Wanted, display: nat, f: Failure)
    requires Proper(d) && |cursors| == |d.config| && Asks(d, w) && display < Displays(w)
  {
    var t := TargetOf(d, refused, cursors, w, display);
    t.Some? && f == Failure(t.value.playlist, t.value.index)
  }

  /** Some display of those below `n` that `which` holds of shows something. */
  ghost predicate SomeShow(d: Document, refused: set<string>, cursors: seq<Cursor>, w: Wanted, which: nat -> bool, n: nat)
    requires Proper(d) && |cursors| == |d.config| && Asks(d, w) && n <= Displays(w)
  {
    exists display: nat :: display < n && which(display) && TargetOf(d, refused, cursors, w, display).Some?
  }

  /** Some display of those below `n` that `which` holds of shows this. */
  ghost predicate SomeShows(
    d: Document, refused: set<string>, cursors: seq<Cursor>, w: Wanted, which: nat -> bool, n: nat, f: Failure
  )
    requires Proper(d) && |cursors| == |d.config| && Asks(d, w) && n <= Displays(w)
  {
    exists display: nat :: display < n && which(display) && Shows(d, refused, cursors, w, display, f)
  }

  lemma OneMoreShows(
    d: Document, refused: set<string>, cursors: seq<Cursor>, w: Wanted, which: nat -> bool, n: nat, f: Failure
  )
    requires Proper(d) && |cursors| == |d.config| && Asks(d, w) && 0 < n <= Displays(w)
    ensures SomeShows(d, refused, cursors, w, which, n, f) <==>
      SomeShows(d, refused, cursors, w, which, n - 1, f) || (which(n - 1) && Shows(d, refused, cursors, w, n - 1, f))
    ensures SomeShow(d, refused, cursors, w, which, n) <==>
      SomeShow(d, refused, cursors, w, which, n - 1) || (which(n - 1) && TargetOf(d, refused, cursors, w, n - 1).Some?)
  {
    hide Shows, TargetOf, Valid;
  }

  lemma {:induction false} ShownByIs(
    d: Document, refused: set<string>, cursors: seq<Cursor>, w: Wanted, which: nat -> bool, n: nat, f: Failure
  )
    requires Proper(d) && |cursors| == |d.config| && Asks(d, w) && n <= Displays(w)
    ensures f in ShownBy(d, refused, cursors, w, which, n) <==> SomeShows(d, refused, cursors, w, which, n, f)
    ensures ShownBy(d, refused, cursors, w, which, n) != [] <==> SomeShow(d, refused, cursors, w, which, n)
    decreases n
  {
    hide TargetOf, Valid, SomeShow, SomeShows;
    if n > 0 {
      ShownByIs(d, refused, cursors, w, which, n - 1, f);
      OneMoreShows(d, refused, cursors, w, which, n, f);
    } else {
      NoneShow(d, refused, cursors, w, which, f);
    }
  }

  lemma NoneShow(d: Document, refused: set<string>, cursors: seq<Cursor>, w: Wanted, which: nat -> bool, f: Failure)
    requires Proper(d) && |cursors| == |d.config| && Asks(d, w)
    ensures !SomeShows(d, refused, cursors, w, which, 0, f) && !SomeShow(d, refused, cursors, w, which, 0)
  {
    hide Shows, TargetOf, Valid;
  }

  /** What failed is what the displays show whose start failed; where none did
      and the apply failed otherwise, all that is shown. An apply succeeds with
      something shown if no start fails and nothing beside, and with nothing
      shown if every playlist in force plays nothing. */
  lemma FailuresAre(
    d: Document, refused: set<string>, cursors: seq<Cursor>, w: Wanted, fails: (nat, nat) -> bool, failsBeside: nat -> bool, n: nat, f: Failure
  )
    requires Proper(d) && |cursors| == |d.config| && Asks(d, w)
    ensures var someFails := SomeShow(d, refused, cursors, w, (display: nat) => fails(n, display), Displays(w));
      && (f in FailuresOf(d, refused, cursors, w, fails, n) <==>
            exists display: nat ::
              display < Displays(w) && Shows(d, refused, cursors, w, display, f) && (fails(n, display) || !someFails))
      && (Succeeds(d, refused, cursors, w, fails, failsBeside, n) <==>
            if SomeShow(d, refused, cursors, w, (display: nat) => true, Displays(w))
            then !someFails && !failsBeside(n)
            else NothingToPlay(d, refused, w))
  {
    hide TargetOf, NothingToPlay, ShownBy, Shows, SomeShow, Valid;
    ShownByIs(d, refused, cursors, w, (display: nat) => fails(n, display), Displays(w), f);
    ShownByIs(d, refused, cursors, w, (display: nat) => true, Displays(w), f);
  }

  /** Every playlist in force plays nothing. */
  predicate NothingToPlay(d: Document, refused: set<string>, w: Wanted)
    requires Proper(d) && Asks(d, w)
  {
    var effective := Effective(d, refused, w);
    effective != [] && forall i :: 0 <= i < |effective| ==>
      effective[i] in effective && PlaysNothing(d, refused, Holder(d, effective[i]))
  }

  predicate ShowsNothing(d: Document, refused: set<string>, cursors: seq<Cursor>, w: Wanted)
    requires Proper(d) && |cursors| == |d.config| && Asks(d, w)
  {
    ShownBy(d, refused, cursors, w, (display: nat) => true, Displays(w)) == []
  }

  predicate Succeeds(
    d: Document, refused: set<string>, cursors: seq<Cursor>, w: Wanted, fails: (nat, nat) -> bool, failsBeside: nat -> bool, n: nat
  )
    requires Proper(d) && |cursors| == |d.config| && Asks(d, w)
  {
    if ShowsNothing(d, refused, cursors, w) then NothingToPlay(d, refused, w)
    else ShownBy(d, refused, cursors, w, (display: nat) => fails(n, display), Displays(w)) == [] && !failsBeside(n)
  }

  /** The entries whose start failed; all shown when the apply failed otherwise. */
  function FailuresOf(
    d: Document, refused: set<string>, cursors: seq<Cursor>, w: Wanted, fails: (nat, nat) -> bool, n: nat
  ): seq<Failure>
    requires Proper(d) && |cursors| == |d.config| && Asks(d, w)
  {
    var failed := ShownBy(d, refused, cursors, w, (display: nat) => fails(n, display), Displays(w));
    if failed != [] then failed else ShownBy(d, refused, cursors, w, (display: nat) => true, Displays(w))
  }
}
