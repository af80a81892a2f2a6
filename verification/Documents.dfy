/** The playlists of a configuration: their entries, the media and items those
    are of, and how a playlist or an entry is looked up. */
module Documents {
  import opened Common

  datatype Media = Still(path: string) | Video(path: string) | Scene(id: string)
  datatype Kind = StillKind | VideoKind | SceneKind
  /** What the configuration says of an entry it marks itself. */
  datatype Authored = Authored(reason: string, source: string)
  datatype Entry = Entry(
    id: string, kind: Kind, still: string, motion: Option<string>, sceneId: Option<string>, sceneBase: Option<string>,
    taboo: Option<Authored>)
  datatype Playlist = Playlist(id: string, name: string, entries: seq<Entry>)
  type Config = seq<Playlist>

  datatype Key = Key(playlist: string, entry: string)

  // ---- Lookups ----

  function MediaOf(entry: Entry): Option<Media> {
    match entry.kind
    case SceneKind => if entry.sceneId.Some? then Some(Scene(entry.sceneId.value)) else None
    case VideoKind => if entry.motion.Some? then Some(Video(entry.motion.value)) else None
    case StillKind => Some(Still(entry.still))
  }

  /** The item a scene renders: a preset's base, or its own. */
  function ItemOf(entry: Entry): Option<string> {
    if entry.kind != SceneKind then None else if entry.sceneBase.Some? then entry.sceneBase else entry.sceneId
  }

  /** The place of the first playlist of that id or that name. */
  function PlaceOf(config: Config, value: string): (r: Option<nat>)
    ensures r.Some? ==> r.value < |config| && (config[r.value].id == value || config[r.value].name == value)
    ensures forall q :: 0 <= q < (if r.Some? then r.value else |config|) ==> config[q].id != value && config[q].name != value
  {
    if config == [] then None
    else if config[0].id == value || config[0].name == value then Some(0)
    else
      var rest := PlaceOf(config[1..], value);
      assert forall q :: 0 < q < |config| ==> config[q] == config[1..][q - 1];
      if rest.None? then None else Some(rest.value + 1)
  }

  function PlaylistOf(config: Config, value: string): Option<Playlist> {
    var place := PlaceOf(config, value);
    if place.None? then None else Some(config[place.value])
  }

  /** The place of the playlist a lookup of a playlist's own id finds. */
  function Finds(config: Config, p: nat): (r: nat)
    requires p < |config|
    ensures r <= p && (config[r].id == config[p].id || config[r].name == config[p].id)
  {
    var place := PlaceOf(config, config[p].id);
    if place.None? then p else place.value
  }

  function EntryOf(entries: seq<Entry>, id: string): (r: Option<Entry>)
    ensures r.Some? ==> r.value in entries && r.value.id == id
    ensures r.None? ==> forall e :: e in entries ==> e.id != id
  {
    if entries == [] then None
    else if entries[0].id == id then Some(entries[0])
    else EntryOf(entries[1..], id)
  }

  function Lookup(config: Config, key: Key): Option<Entry> {
    var playlist := PlaylistOf(config, key.playlist);
    if playlist.None? then None else EntryOf(playlist.value.entries, key.entry)
  }

  function MediaAt(config: Config, key: Key): Option<Media> {
    var entry := Lookup(config, key);
    if entry.None? then None else MediaOf(entry.value)
  }

  datatype Occurrence = Occurrence(key: Key, entry: Entry)

  function InPlaylist(playlist: string, entries: seq<Entry>): seq<Occurrence> {
    if entries == [] then []
    else [Occurrence(Key(playlist, entries[0].id), entries[0])] + InPlaylist(playlist, entries[1..])
  }

  /** Every entry of every playlist, in the document's order. */
  function Occurrences(config: Config): seq<Occurrence> {
    if config == [] then [] else InPlaylist(config[0].id, config[0].entries) + Occurrences(config[1..])
  }

  /** The keys of one media's occurrences. */
  function Pick(occurrences: seq<Occurrence>, media: Media): seq<Key> {
    if occurrences == [] then []
    else
      var rest := Pick(occurrences[1..], media);
      if MediaOf(occurrences[0].entry) == Some(media) then [occurrences[0].key] + rest else rest
  }

  /** The keys of the entries that resolve to what `key`'s does. */
  function Equivalent(config: Config, key: Key): seq<Key> {
    var source := Lookup(config, key);
    if source.None? then [key]
    else if MediaOf(source.value).None? then []
    else Pick(Occurrences(config), MediaOf(source.value).value)
  }

  // ---- Configurations ----

  /** What a loaded configuration keeps: ids of playlists, and of entries
      within each, are unique, and every entry names its media. */
  ghost predicate Valid(config: Config) {
    && (forall i, j :: 0 <= i < j < |config| ==> config[i].id != config[j].id)
    && (forall p, i, j :: p in config && 0 <= i < j < |p.entries| ==> p.entries[i].id != p.entries[j].id)
    && (forall p, e :: p in config && e in p.entries ==> MediaOf(e).Some?)
  }

  /** No playlist is named as a later one's id: a lookup takes either. */
  ghost predicate OwnIds(config: Config) {
    forall i, j :: 0 <= i < j < |config| ==> config[i].name != config[j].id
  }

  ghost predicate Occurs(config: Config, o: Occurrence) {
    exists p :: p in config && o.entry in p.entries && o.key == Key(p.id, o.entry.id)
  }

  lemma {:induction false} InPlaylistIs(playlist: string, entries: seq<Entry>, o: Occurrence)
    ensures o in InPlaylist(playlist, entries) <==> o.entry in entries && o.key == Key(playlist, o.entry.id)
  {
    if entries != [] {
      InPlaylistIs(playlist, entries[1..], o);
      assert o.entry in entries <==> o.entry == entries[0] || o.entry in entries[1..];
    }
  }

  lemma {:induction false} OccurrencesAre(config: Config, o: Occurrence)
    ensures o in Occurrences(config) <==> Occurs(config, o)
  {
    if config != [] {
      InPlaylistIs(config[0].id, config[0].entries, o);
      OccurrencesAre(config[1..], o);
      assert forall p :: p in config <==> p == config[0] || p in config[1..];
    }
  }

  lemma {:induction false} PickIs(occurrences: seq<Occurrence>, media: Media, k: Key)
    ensures k in Pick(occurrences, media) <==> exists o :: o in occurrences && o.key == k && MediaOf(o.entry) == Some(media)
  {
    if occurrences != [] {
      PickIs(occurrences[1..], media, k);
      assert forall o :: o in occurrences <==> o == occurrences[0] || o in occurrences[1..];
    }
  }

  /** Two entries are of one media exactly when they are of one kind and what that
      kind shows is the same: a still's picture, a video's motion, a scene. */
  lemma SameMediaIs(a: Entry, b: Entry)
    requires MediaOf(a).Some? && MediaOf(b).Some?
    ensures MediaOf(a) == MediaOf(b) <==>
      && a.kind == b.kind
      && (a.kind.StillKind? ==> a.still == b.still)
      && (a.kind.VideoKind? ==> a.motion == b.motion)
      && (a.kind.SceneKind? ==> a.sceneId == b.sceneId)
  {
  }

  /** Only scenes have an item: two presets of one base have the same, whatever
      their own. */
  lemma ItemIs(a: Entry, b: Entry)
    ensures ItemOf(a).Some? ==> a.kind.SceneKind?
    ensures a.kind.SceneKind? && b.kind.SceneKind? && a.sceneBase == b.sceneBase && a.sceneBase.Some? ==> ItemOf(a) == ItemOf(b)
    ensures a.kind.SceneKind? && a.sceneBase.None? ==> ItemOf(a) == a.sceneId
  {
  }

  /** Ids are their own exactly when each playlist's id finds it. */
  lemma OwnIdsFindThemselves(config: Config)
    requires Valid(config)
    ensures OwnIds(config) <==> forall p: nat :: p < |config| ==> Finds(config, p) == p
  {
    if OwnIds(config) {
      forall p: nat | p < |config|
        ensures Finds(config, p) == p
      {
        var place := PlaceOf(config, config[p].id);
      }
    } else {
      var i, j :| 0 <= i < j < |config| && config[i].name == config[j].id;
      assert Finds(config, j) != j;
    }
  }

  lemma OwnPlaylist(config: Config, p: Playlist)
    requires Valid(config) && OwnIds(config) && p in config
    ensures PlaylistOf(config, p.id) == Some(p)
  {
    OwnIdsFindThemselves(config);
    var i: nat :| i < |config| && config[i] == p;
    assert Finds(config, i) == i;
  }

  lemma {:induction false} OwnEntry(entries: seq<Entry>, e: Entry)
    requires e in entries && forall i, j :: 0 <= i < j < |entries| ==> entries[i].id != entries[j].id
    ensures EntryOf(entries, e.id) == Some(e)
  {
    assert e == entries[0] || e in entries[1..];
    if e != entries[0] {
      var j :| 0 <= j < |entries[1..]| && entries[1..][j] == e;
      assert entries[j + 1] == e;
      OwnEntry(entries[1..], e);
    }
  }

  /** Its key finds an occurrence. */
  lemma FoundByKey(config: Config, o: Occurrence)
    requires Valid(config) && OwnIds(config) && o in Occurrences(config)
    ensures Lookup(config, o.key) == Some(o.entry) && MediaAt(config, o.key) == MediaOf(o.entry)
    ensures MediaOf(o.entry).Some?
  {
    OccurrencesAre(config, o);
    var p :| p in config && o.entry in p.entries && o.key == Key(p.id, o.entry.id);
    OwnPlaylist(config, p);
    OwnEntry(p.entries, o.entry);
  }

  lemma OneEntryPerKey(config: Config, a: Occurrence, b: Occurrence)
    requires Valid(config) && a in Occurrences(config) && b in Occurrences(config) && a.key == b.key
    ensures a == b
  {
    OccurrencesAre(config, a);
    OccurrencesAre(config, b);
    var p :| p in config && a.entry in p.entries && a.key == Key(p.id, a.entry.id);
    var q :| q in config && b.entry in q.entries && b.key == Key(q.id, b.entry.id);
    var i :| 0 <= i < |config| && config[i] == p;
    var j :| 0 <= j < |config| && config[j] == q;
    assert i == j;
    var k :| 0 <= k < |p.entries| && p.entries[k] == a.entry;
    var l :| 0 <= l < |p.entries| && p.entries[l] == b.entry;
  }

  // ---- A mark reaches every entry of the media ----

  ghost predicate ReachesItsMedia(config: Config, o: Occurrence) {
    forall b :: b in Occurrences(config) && MediaOf(b.entry) == MediaOf(o.entry) ==> b.key in Equivalent(config, o.key)
  }

  ghost predicate OnlyOccurrence(config: Config, o: Occurrence) {
    forall b :: b in Occurrences(config) && MediaOf(b.entry) == MediaOf(o.entry) ==> b.key == o.key
  }

  lemma HasMedia(config: Config, o: Occurrence)
    requires Valid(config) && o in Occurrences(config)
    ensures MediaOf(o.entry).Some?
  {
    OccurrencesAre(config, o);
  }

  /** Which entries resolve to what a key does: those of the media its lookup
      finds; where it finds nothing, only one of that very key. */
  lemma EquivalentAre(config: Config, key: Key, b: Occurrence)
    requires Valid(config) && b in Occurrences(config)
    ensures b.key in Equivalent(config, key) <==>
      if Lookup(config, key).Some? then MediaOf(b.entry) == MediaAt(config, key) else b.key == key
  {
    hide Lookup;
    HasMedia(config, b);
    var media := MediaAt(config, key);
    if media.Some? {
      PickIs(Occurrences(config), media.value, b.key);
      forall c | c in Occurrences(config) && c.key == b.key
        ensures c == b
      {
        OneEntryPerKey(config, b, c);
      }
    }
  }

  /** A mark reaches every entry of the media exactly when the lookup of its
      key finds that media, or finds nothing and the media is nowhere else. */
  lemma MarkReachesItsMedia(config: Config, o: Occurrence)
    requires Valid(config) && o in Occurrences(config)
    ensures ReachesItsMedia(config, o) <==>
      if Lookup(config, o.key).Some? then MediaAt(config, o.key) == MediaOf(o.entry) else OnlyOccurrence(config, o)
  {
    hide Lookup, MediaAt, MediaOf, Equivalent, Occurrences;
    forall b | b in Occurrences(config)
      ensures b.key in Equivalent(config, o.key) <==>
        if Lookup(config, o.key).Some? then MediaOf(b.entry) == MediaAt(config, o.key) else b.key == o.key
    {
      EquivalentAre(config, o.key, b);
    }
  }

  /** What a display shows goes by the id of the playlist shown and the id of an
      entry of the playlist that id finds. A mark of it makes that very key
      taboo exactly when the playlist shown has an entry of that id and media:
      always when its id finds it. */
  lemma ShownKeyIsMarked(config: Config, s: nat, e: Entry)
    requires Valid(config) && s < |config| && e in config[Finds(config, s)].entries
    ensures var key := Key(config[s].id, e.id);
      && Lookup(config, key) == Some(e)
      && (key in Equivalent(config, key) <==>
            exists own :: own in config[s].entries && own.id == e.id && MediaOf(own) == MediaOf(e))
      && (Finds(config, s) == s ==> key in Equivalent(config, key))
  {
    var key := Key(config[s].id, e.id);
    assert config[Finds(config, s)] in config && config[s] in config;
    OwnEntry(config[Finds(config, s)].entries, e);
    PickIs(Occurrences(config), MediaOf(e).value, key);
    if key in Equivalent(config, key) {
      var o :| o in Occurrences(config) && o.key == key && MediaOf(o.entry) == MediaOf(e);
      OccurrencesAre(config, o);
      var p :| p in config && o.entry in p.entries && o.key == Key(p.id, o.entry.id);
      var i :| 0 <= i < |config| && config[i] == p;
      assert i == s;
    }
    if own :| own in config[s].entries && own.id == e.id && MediaOf(own) == MediaOf(e) {
      OccurrencesAre(config, Occurrence(key, own));
    }
  }

  // ---- A playlist named as another's id ----

  /** Two playlists; the first is named as the second's id. */
  function Hiding(first: Entry, second: Entry): Config {
    [Playlist("a", "b", [first]), Playlist("b", "c", [second])]
  }

  /** A configuration the service loads in which a mark of what is shown misses
      it: asked for by its name, the second playlist is shown, but its id finds
      the first, whose entry is put up and marked under the first's id. */
  lemma NameHidesAnId(first: Entry, second: Entry)
    requires first.id != second.id && MediaOf(first).Some? && MediaOf(second).Some?
    ensures var config := Hiding(first, second);
      && Valid(config) && !OwnIds(config) && config[0].name != config[1].name
      && PlaceOf(config, "c") == Some(1) && Finds(config, 1) == 0
      && Lookup(config, Key("b", first.id)) == Some(first)
      && Key("a", first.id) in Equivalent(config, Key("b", first.id))
      && Key("b", first.id) !in Equivalent(config, Key("b", first.id))
  {
    var config := Hiding(first, second);
    assert config[0].id != config[1].id;
    assert config[0].name == config[1].id;
    assert Valid(config);
    assert Finds(config, 1) == 0;
    assert config[0].entries[0] == first;
    ShownKeyIsMarked(config, 1, first);
    var o := Occurrence(Key("a", first.id), first);
    OccurrencesAre(config, o);
    assert config[0] in config;
    PickIs(Occurrences(config), MediaOf(first).value, o.key);
  }
}
