/** What the findings keep over every run of marks and reloads. */
module TabooRuns {
  import opened Common
  import opened Documents
  import opened Taboo

  // ---- Each step ----

  /** The status order: each key once, at most 64, each taboo. */
  ghost predicate Listed(order: seq<Key>, taboo: map<Key, Record>) {
    NoRepeats(order) && |order| <= STATUS_LIMIT && forall k :: k in order ==> k in taboo
  }

  /** Where one entry of a media carries a finding, every one is taboo. */
  ghost predicate Spread(s: State) {
    forall a, b | a in Occurrences(s.config) && b in Occurrences(s.config) ::
      MediaOf(a.entry) == MediaOf(b.entry) && Session(s, a.key) ==> b.key in s.taboo
  }

  /** Each entry's key finds some entry, or its media is nowhere else. */
  ghost predicate FoundOrOnly(config: Config) {
    forall o :: o in Occurrences(config) ==> Lookup(config, o.key).Some? || OnlyOccurrence(config, o)
  }

  ghost predicate Sound(s: State) {
    Valid(s.config) && FoundOrOnly(s.config) && Listed(s.order, s.taboo) && Spread(s)
  }

  /** Where playlists' ids are their own, every key finds its entry. */
  lemma OwnKeysFind(config: Config)
    requires Valid(config) && OwnIds(config)
    ensures FoundOrOnly(config)
  {
    hide Valid, OwnIds, Lookup, OnlyOccurrence;
    forall o | o in Occurrences(config)
      ensures Lookup(config, o.key).Some?
    {
      FoundByKey(config, o);
    }
  }

  lemma AppendedOnce(order: seq<Key>, key: Key)
    requires NoRepeats(order) && key !in order
    ensures NoRepeats(order + [key])
  {
  }

  lemma PromotedOnce(order: seq<Key>, key: Key)
    requires NoRepeats(order)
    ensures NoRepeats(Without(order, key) + [key])
    ensures forall k :: k in Without(order, key) + [key] <==> k in order || k == key
  {
    WithoutKeepsOnce(order, key);
    AppendedOnce(Without(order, key), key);
  }

  lemma {:induction false} MarkedEachOnly(s: State, keys: seq<Key>, reason: string, source: string)
    requires Listed(s.order, s.taboo)
    ensures var r := MarkedEach(s, keys, reason, source);
            && r.config == s.config && r.epoch == s.epoch
            && Listed(r.order, r.taboo)
            && (forall k :: k in r.taboo <==> k in s.taboo || k in keys)
            && (forall k :: k in s.taboo && s.taboo[k].durable ==> r.taboo[k] == s.taboo[k])
            && (forall k :: k in s.taboo && k !in keys ==> r.taboo[k] == s.taboo[k])
            && (forall k :: k in keys && !(k in s.taboo && s.taboo[k].durable) ==> r.taboo[k] == Record(reason, source, false, s.epoch))
  {
    if keys != [] {
      var last := |keys| - 1;
      MarkedEachOnly(s, keys[..last], reason, source);
      var before := MarkedEach(s, keys[..last], reason, source);
      assert forall k :: k in keys <==> k in keys[..last] || k == keys[last];
      MarkedOnePromotes(before, keys[last], reason, source);
    }
  }

  lemma MarkedOnePromotes(s: State, key: Key, reason: string, source: string)
    requires Listed(s.order, s.taboo)
    ensures var r := MarkedOne(s, key, reason, source); Listed(r.order, r.taboo)
  {
    var rest := Without(s.order, key);
    WithoutKeepsOnce(s.order, key);
    var order := Promoted(s.order, key);
    assert forall k :: k in order ==> k == key || k in rest;
  }

  /** What a mark of a key is a mark of. */
  ghost predicate MarkReaches(config: Config, key: Key, b: Occurrence) {
    if Lookup(config, key).Some? then MediaOf(b.entry) == MediaAt(config, key) else b.key == key
  }

  /** A mark of a key makes exactly the entries of the media its lookup finds
      taboo, the key's own where it finds nothing; it changes no other, and
      overrules nothing the configuration marks. */
  lemma MarkIsExact(s: State, key: Key, reason: string, source: string, b: Occurrence)
    requires Valid(s.config) && Listed(s.order, s.taboo) && b in Occurrences(s.config)
    ensures var r := Marked(s, key, reason, source);
      if MarkReaches(s.config, key, b) && !(b.key in s.taboo && s.taboo[b.key].durable)
      then Session(r, b.key) && r.taboo[b.key] == Record(reason, source, false, s.epoch)
      else if b.key in s.taboo then b.key in r.taboo && r.taboo[b.key] == s.taboo[b.key]
      else b.key !in r.taboo
  {
    hide MarkedEach, Listed, Occurrences, Valid, Equivalent, Lookup, MediaAt, MediaOf;
    EquivalentAre(s.config, key, b);
    MarkedEachOnly(s, Equivalent(s.config, key), reason, source);
  }

  lemma MarkListed(s: State, key: Key, reason: string, source: string)
    requires Listed(s.order, s.taboo)
    ensures var r := Marked(s, key, reason, source);
      r.config == s.config && Listed(r.order, r.taboo) && (forall k :: k in s.taboo ==> k in r.taboo)
  {
    hide MarkedEach, Listed, Equivalent;
    MarkedEachOnly(s, Equivalent(s.config, key), reason, source);
  }

  lemma MarkIsSound(s: State, key: Key, reason: string, source: string)
    requires Sound(s)
    ensures Sound(Marked(s, key, reason, source))
  {
    hide Marked, Listed, Occurrences, Valid, Lookup, MediaAt, MediaOf;
    var r := Marked(s, key, reason, source);
    MarkListed(s, key, reason, source);
    forall a, b | a in Occurrences(s.config) && b in Occurrences(s.config) && MediaOf(a.entry) == MediaOf(b.entry) && Session(r, a.key)
      ensures b.key in r.taboo
    {
      MarkIsExact(s, key, reason, source, a);
      MarkIsExact(s, key, reason, source, b);
    }
  }

  /** A mark of any key leaves a finding on every entry of a media or on none,
      whatever was found before. */
  ghost predicate MarksSpread(config: Config, reason: string, source: string) {
    forall s: State, key | s.config == config && Listed(s.order, s.taboo) && Spread(s) ::
      Spread(Marked(s, key, reason, source))
  }

  /** They do so exactly where each entry's key finds some entry or its media is
      nowhere else. */
  lemma MarksSpreadExactly(config: Config, reason: string, source: string)
    requires Valid(config)
    ensures MarksSpread(config, reason, source) <==> FoundOrOnly(config)
  {
    hide Marked, Occurrences, Valid, Lookup, MediaAt, MediaOf;
    if FoundOrOnly(config) {
      forall s: State, key | s.config == config && Listed(s.order, s.taboo) && Spread(s)
        ensures Spread(Marked(s, key, reason, source))
      {
        MarkIsSound(s, key, reason, source);
      }
    } else {
      var o :| o in Occurrences(config) && Lookup(config, o.key).None? && !OnlyOccurrence(config, o);
      var b :| b in Occurrences(config) && MediaOf(b.entry) == MediaOf(o.entry) && b.key != o.key;
      var s := State(config, 1, map[], []);
      MarkListed(s, o.key, reason, source);
      MarkIsExact(s, o.key, reason, source, o);
      MarkIsExact(s, o.key, reason, source, b);
      assert !Spread(Marked(s, o.key, reason, source));
    }
  }

  // ---- A reload ----

  lemma {:induction false} ConfiguredAre(occurrences: seq<Occurrence>, epoch: nat, k: Key)
    ensures k in ConfiguredRecords(occurrences, epoch) <==>
      exists o :: o in occurrences && o.key == k && o.entry.taboo.Some?
    ensures k in ConfiguredRecords(occurrences, epoch) ==>
      && ConfiguredRecords(occurrences, epoch)[k].durable
      && exists o :: o in occurrences && o.key == k && o.entry.taboo.Some?
           && ConfiguredRecords(occurrences, epoch)[k] == Record(o.entry.taboo.value.reason, o.entry.taboo.value.source, true, epoch)
    ensures k in ConfiguredOrder(occurrences) ==> k in ConfiguredRecords(occurrences, epoch)
  {
    if occurrences != [] {
      var last := |occurrences| - 1;
      ConfiguredAre(occurrences[..last], epoch, k);
      assert forall o :: o in occurrences <==> o in occurrences[..last] || o == occurrences[last];
    }
  }

  lemma {:induction false} WithFindingsAre(
    taboo: map<Key, Record>, occurrences: seq<Occurrence>, records: map<Media, Record>, epoch: nat, k: Key
  )
    ensures var r := WithFindings(taboo, occurrences, records, epoch);
            && (k in taboo ==> k in r && r[k] == taboo[k])
            && (k !in taboo ==> (k in r <==>
                 exists o :: o in occurrences && o.key == k && MediaOf(o.entry).Some? && MediaOf(o.entry).value in records))
            && (k !in taboo && k in r ==>
                 exists o :: o in occurrences && o.key == k && MediaOf(o.entry).Some? && MediaOf(o.entry).value in records
                   && r[k] == records[MediaOf(o.entry).value].(durable := false, epoch := epoch))
  {
    hide MediaOf;
    if occurrences != [] {
      var last := |occurrences| - 1;
      WithFindingsAre(taboo, occurrences[..last], records, epoch, k);
      assert forall o :: o in occurrences <==> o in occurrences[..last] || o == occurrences[last];
    }
  }

  ghost predicate Within(order: seq<Key>, taboo: map<Key, Record>) {
    NoRepeats(order) && forall k :: k in order ==> k in taboo
  }

  lemma {:induction false} PromotedFindingsWithin(taboo: map<Key, Record>, keys: seq<Key>, order: seq<Key>)
    requires Within(order, taboo)
    ensures Within(PromotedFindings(taboo, keys, order), taboo)
  {
    if keys != [] {
      var last := |keys| - 1;
      PromotedFindingsWithin(taboo, keys[..last], order);
      PromotedOnce(PromotedFindings(taboo, keys[..last], order), keys[last]);
    }
  }

  lemma {:induction false} PromotedMediaWithin(
    taboo: map<Key, Record>, occurrences: seq<Occurrence>, media: seq<Media>, order: seq<Key>
  )
    requires Within(order, taboo)
    ensures Within(PromotedMedia(taboo, occurrences, media, order), taboo)
  {
    hide PromotedFindings, Pick, Within;
    if media != [] {
      var last := |media| - 1;
      PromotedMediaWithin(taboo, occurrences, media[..last], order);
      PromotedFindingsWithin(taboo, Pick(occurrences, media[last]), PromotedMedia(taboo, occurrences, media[..last], order));
    }
  }

  lemma NewestWithin(order: seq<Key>, taboo: map<Key, Record>)
    requires Within(order, taboo)
    ensures Listed(Newest(order), taboo)
  {
    if |order| > STATUS_LIMIT {
      var from := |order| - STATUS_LIMIT;
      assert forall i :: 0 <= i < STATUS_LIMIT ==> order[from..][i] == order[from + i];
      assert forall k :: k in order[from..] ==> k in order;
    }
  }

  lemma {:induction false} ThoseWithin(order: seq<Key>, keys: set<Key>)
    requires NoRepeats(order)
    ensures NoRepeats(Those(order, keys))
  {
    if order != [] {
      ThoseWithin(order[1..], keys);
      assert order[0] !in order[1..];
      assert order[0] !in Those(order[1..], keys);
    }
  }

  ghost predicate EachOnce(occurrences: seq<Occurrence>) {
    forall i, j :: 0 <= i < j < |occurrences| ==> occurrences[i].key != occurrences[j].key
  }

  /** Keys of a configuration appear once, so those it marks do. */
  lemma {:induction false} ConfiguredOnce(occurrences: seq<Occurrence>)
    requires EachOnce(occurrences)
    ensures NoRepeats(ConfiguredOrder(occurrences))
    ensures forall k :: k in ConfiguredOrder(occurrences) ==> exists o :: o in occurrences && o.key == k
  {
    if occurrences != [] {
      var last := |occurrences| - 1;
      ConfiguredOnce(occurrences[..last]);
      assert forall o :: o in occurrences[..last] ==> o in occurrences && o.key != occurrences[last].key;
      assert occurrences[last] in occurrences;
      if occurrences[last].entry.taboo.Some? {
        AppendedOnce(ConfiguredOrder(occurrences[..last]), occurrences[last].key);
      }
    }
  }

  lemma {:induction false} EntriesOnce(playlist: string, entries: seq<Entry>)
    requires forall i, j :: 0 <= i < j < |entries| ==> entries[i].id != entries[j].id
    ensures EachOnce(InPlaylist(playlist, entries))
  {
    if entries != [] {
      EntriesOnce(playlist, entries[1..]);
      var rest := InPlaylist(playlist, entries[1..]);
      forall j | 0 <= j < |rest|
        ensures rest[j].key != Key(playlist, entries[0].id)
      {
        InPlaylistIs(playlist, entries[1..], rest[j]);
        assert rest[j] in rest;
        var k :| 0 <= k < |entries[1..]| && entries[1..][k] == rest[j].entry;
        assert entries[k + 1] == rest[j].entry;
      }
    }
  }

  lemma {:induction false} OccurOnce(config: Config)
    requires Valid(config)
    ensures EachOnce(Occurrences(config))
  {
    if config != [] {
      assert config[0] in config;
      assert Valid(config[1..]) by {
        assert forall p :: p in config[1..] ==> p in config;
      }
      OccurOnce(config[1..]);
      var first, rest := InPlaylist(config[0].id, config[0].entries), Occurrences(config[1..]);
      EntriesOnce(config[0].id, config[0].entries);
      forall i, j | 0 <= i < |first| && 0 <= j < |rest|
        ensures first[i].key != rest[j].key
      {
        InPlaylistIs(config[0].id, config[0].entries, first[i]);
        assert first[i] in first;
        OccurrencesAre(config[1..], rest[j]);
        assert rest[j] in rest;
        var p :| p in config[1..] && rest[j].entry in p.entries && rest[j].key == Key(p.id, rest[j].entry.id);
        var k :| 0 <= k < |config[1..]| && config[1..][k] == p;
        assert config[k + 1] == p;
      }
    }
  }

  lemma ReconciledListed(next: Config, epoch: nat, f: Findings)
    requires Valid(next)
    ensures var r := Reconciled(next, epoch, f); Listed(r.order, r.taboo)
  {
    hide Valid, ConfiguredRecords, ConfiguredOrder, PromotedMedia, Occurrences, Newest, WithFindings;
    var occurrences := Occurrences(next);
    var configured := ConfiguredRecords(occurrences, epoch);
    var taboo := WithFindings(configured, occurrences, f.records, epoch);
    OccurOnce(next);
    ConfiguredOnce(occurrences);
    forall k
      ensures k in configured ==> k in taboo
      ensures k in ConfiguredOrder(occurrences) ==> k in configured
    {
      WithFindingsAre(configured, occurrences, f.records, epoch, k);
      ConfiguredAre(occurrences, epoch, k);
    }
    NewestWithin(ConfiguredOrder(occurrences), taboo);
    PromotedMediaWithin(taboo, occurrences, f.order, Newest(ConfiguredOrder(occurrences)));
    NewestWithin(PromotedMedia(taboo, occurrences, f.order, Newest(ConfiguredOrder(occurrences))), taboo);
  }

  lemma ReloadedListed(s: State, next: Config, f: Findings)
    requires Valid(next)
    ensures var r := Reloaded(s, next, f); Listed(r.order, r.taboo)
  {
    hide Valid, Reconciled, OnlyFound;
    ReconciledListed(next, s.epoch + 1, f);
    var r := Reconciled(next, s.epoch + 1, f);
    ThoseWithin(r.order, OnlyFound(next, r.taboo).Keys);
  }

  /** An accepted reload keeps a finding at exactly the entries whose media had
      one, that the configuration doesn't mark itself, and whose key finds some
      entry; those it marks and finds carry its own record; no other entry is
      taboo. */
  lemma ReloadIsExact(s: State, next: Config, f: Findings, o: Occurrence)
    requires Valid(next) && IsSnapshot(s, f) && o in Occurrences(next)
    ensures MediaOf(o.entry).Some?
    ensures var r, media := Reloaded(s, next, f), MediaOf(o.entry).value;
            && (Session(r, o.key) <==>
                  o.entry.taboo.None? && Lookup(next, o.key).Some? && exists key :: Carries(s, key, media))
            && (o.key in r.taboo && r.taboo[o.key].durable <==> o.entry.taboo.Some? && Lookup(next, o.key).Some?)
            && (Session(r, o.key) ==>
                  exists key :: Carries(s, key, media) && r.taboo[o.key] == s.taboo[key].(durable := false, epoch := s.epoch + 1))
            && (o.key in r.taboo && r.taboo[o.key].durable ==>
                  r.taboo[o.key] == Record(o.entry.taboo.value.reason, o.entry.taboo.value.source, true, s.epoch + 1))
  {
    hide Valid, Occurrences, MediaOf, Lookup, ConfiguredRecords, WithFindings, ConfiguredOrder, PromotedMedia, Newest;
    var occurrences, epoch := Occurrences(next), s.epoch + 1;
    var configured := ConfiguredRecords(occurrences, epoch);
    HasMedia(next, o);
    ConfiguredAre(occurrences, epoch, o.key);
    WithFindingsAre(configured, occurrences, f.records, epoch, o.key);
    forall b | b in occurrences && b.key == o.key
      ensures b == o
    {
      OneEntryPerKey(next, o, b);
    }
  }

  /** Where one entry of a media keeps a finding, the keys of the others find
      some entry too. */
  ghost predicate FoundAlike(config: Config) {
    forall a, b | a in Occurrences(config) && b in Occurrences(config) && MediaOf(a.entry) == MediaOf(b.entry) ::
      a.entry.taboo.None? && Lookup(config, a.key).Some? ==> Lookup(config, b.key).Some?
  }

  lemma ReloadSpreads(s: State, next: Config, f: Findings)
    requires Valid(next) && FoundAlike(next) && IsSnapshot(s, f)
    ensures Spread(Reloaded(s, next, f))
  {
    hide Valid, Occurrences, IsSnapshot, MediaOf, Lookup, Reloaded;
    var r := Reloaded(s, next, f);
    assert r.config == next by { ReloadedConfig(s, next, f); }
    forall a, b | a in Occurrences(next) && b in Occurrences(next) && MediaOf(a.entry) == MediaOf(b.entry) && Session(r, a.key)
      ensures b.key in r.taboo
    {
      ReloadIsExact(s, next, f, a);
      ReloadIsExact(s, next, f, b);
    }
  }

  lemma FoundOrOnlyIsAlike(config: Config)
    requires Valid(config) && FoundOrOnly(config)
    ensures FoundAlike(config)
  {
    hide Valid, Occurrences, MediaOf, Lookup;
    forall a, b | a in Occurrences(config) && b in Occurrences(config) && MediaOf(a.entry) == MediaOf(b.entry)
      ensures Lookup(config, a.key).Some? ==> Lookup(config, b.key).Some?
    {
      if a.key == b.key {
        OneEntryPerKey(config, a, b);
      }
    }
  }

  /** An accepted reload leaves a finding on every entry of a media or on none,
      whatever sound state it comes from. */
  ghost predicate ReloadsSpread(next: Config) {
    forall s, f | Sound(s) && IsSnapshot(s, f) :: Spread(Reloaded(s, next, f))
  }

  /** It does so exactly where no entry that would keep a finding shares its
      media with one whose key finds nothing. */
  lemma ReloadsSpreadExactly(next: Config)
    requires Valid(next)
    ensures ReloadsSpread(next) <==> FoundAlike(next)
  {
    hide Valid, Sound, Occurrences, IsSnapshot, MediaOf, Lookup, Reloaded, Spread;
    if FoundAlike(next) {
      forall s, f | Sound(s) && IsSnapshot(s, f)
        ensures Spread(Reloaded(s, next, f))
      {
        ReloadSpreads(s, next, f);
      }
    } else {
      var a, b :| a in Occurrences(next) && b in Occurrences(next) && MediaOf(a.entry) == MediaOf(b.entry)
                  && a.entry.taboo.None? && Lookup(next, a.key).Some? && Lookup(next, b.key).None?;
      HasMedia(next, a);
      var s, f := OneFound(a.entry);
      ReloadLoses(s, next, f, a, b);
    }
  }

  lemma ReloadLoses(s: State, next: Config, f: Findings, a: Occurrence, b: Occurrence)
    requires Valid(next) && IsSnapshot(s, f) && a in Occurrences(next) && b in Occurrences(next)
    requires MediaOf(a.entry).Some? && MediaOf(b.entry) == MediaOf(a.entry) && exists key :: Carries(s, key, MediaOf(a.entry).value)
    requires a.entry.taboo.None? && Lookup(next, a.key).Some? && Lookup(next, b.key).None?
    ensures Session(Reloaded(s, next, f), a.key) && b.key !in Reloaded(s, next, f).taboo
    ensures !Spread(Reloaded(s, next, f))
  {
    hide Valid, Occurrences, IsSnapshot, MediaOf, Lookup, Reloaded;
    ReloadedConfig(s, next, f);
    ReloadIsExact(s, next, f, a);
    ReloadIsExact(s, next, f, b);
  }

  /** A session in which this entry's media was found, and what it remembers. */
  lemma OneFound(entry: Entry) returns (s: State, f: Findings)
    requires MediaOf(entry).Some?
    ensures Sound(s) && IsSnapshot(s, f) && exists key :: Carries(s, key, MediaOf(entry).value)
  {
    var media, key, record := MediaOf(entry).value, Key("p", entry.id), Record("", "", false, 1);
    var config := [Playlist("p", "q", [entry])];
    s, f := State(config, 1, map[key := record], [key]), Findings(map[media := record], [media]);
    assert config[0].entries[0] == entry;
    assert Lookup(config, key) == Some(entry) && MediaAt(config, key) == Some(media);
    assert FoundOrOnly(config) by {
      forall o | o in Occurrences(config)
        ensures Lookup(config, o.key).Some?
      {
        OccurrencesAre(config, o);
      }
    }
    assert Spread(s) by {
      forall o | o in Occurrences(config)
        ensures o.key == key
      {
        OccurrencesAre(config, o);
      }
    }
    assert Carries(s, key, media);
    assert f.order == FoundOrder(s, s.order) by {
      assert s.order[..0] == [] && FoundOrder(s, []) == [];
      assert Without([], media) == [];
    }
    forall m, k | Carries(s, k, m)
      ensures k == key && m == media
    {
    }
    assert IsSnapshot(s, f);
  }

  lemma ReloadIsSound(s: State, next: Config, f: Findings)
    requires Valid(next) && FoundOrOnly(next) && IsSnapshot(s, f)
    ensures Sound(Reloaded(s, next, f))
  {
    hide Valid, FoundOrOnly, FoundAlike, Listed, IsSnapshot, Reloaded, Spread;
    ReloadedListed(s, next, f);
    ReloadedConfig(s, next, f);
    FoundOrOnlyIsAlike(next);
    ReloadSpreads(s, next, f);
  }

  lemma ReloadedConfig(s: State, next: Config, f: Findings)
    ensures Reloaded(s, next, f).config == next
  {
  }

  lemma FirstIsSound(config: Config)
    requires Valid(config) && FoundOrOnly(config)
    ensures Sound(Reconciled(config, 1, Findings(map[], [])))
  {
    hide Valid, FoundOrOnly, Listed, Occurrences, Newest, ConfiguredRecords, ConfiguredOrder;
    NothingFound(config);
    ReconciledListed(config, 1, Findings(map[], []));
    forall k
      ensures k in ConfiguredRecords(Occurrences(config), 1) ==> ConfiguredRecords(Occurrences(config), 1)[k].durable
    {
      ConfiguredAre(Occurrences(config), 1, k);
    }
  }

  // ---- Every run ----

  datatype Op = Mark(key: Key, reason: string, source: string) | Reload(next: Config, accepted: bool)

  ghost predicate Step(s: State, op: Op, after: State) {
    match op
    case Mark(key, reason, source) => after == Marked(s, key, reason, source)
    case Reload(next, accepted) =>
      if accepted then Valid(next) && FoundOrOnly(next) && exists f :: IsSnapshot(s, f) && after == Reloaded(s, next, f)
      else after == s
  }

  ghost predicate Run(states: seq<State>, ops: seq<Op>) {
    && |states| == |ops| + 1
    && forall i :: 0 <= i < |ops| ==> Step(states[i], ops[i], states[i + 1])
  }

  lemma {:induction false} RunIsSound(states: seq<State>, ops: seq<Op>)
    requires Run(states, ops) && Sound(states[0])
    ensures Sound(states[|ops|])
    decreases |ops|
  {
    hide Sound, Reloaded, Marked, IsSnapshot, Valid, FoundOrOnly;
    if ops != [] {
      var last := |ops| - 1;
      var s, after := states[last], states[last + 1];
      assert Run(states[..last + 1], ops[..last]);
      RunIsSound(states[..last + 1], ops[..last]);
      assert Step(s, ops[last], after);
      StepIsSound(s, ops[last], after);
    }
  }

  /** From a start, over every run of marks of any keys and of reloads, accepted
      or not: a finding on one entry of a media makes them all taboo, and the
      status order lists taboo keys, each once, 64 at most. */
  lemma EveryRunIsSound(config: Config, states: seq<State>, ops: seq<Op>)
    requires Valid(config) && FoundOrOnly(config)
    requires Run(states, ops) && states[0] == Reconciled(config, 1, Findings(map[], []))
    ensures Sound(states[|ops|])
  {
    hide Sound, Step, Valid, FoundOrOnly, Reconciled;
    FirstIsSound(config);
    RunIsSound(states, ops);
  }

  lemma StepIsSound(s: State, op: Op, after: State)
    requires Sound(s) && Step(s, op, after)
    ensures Sound(after)
  {
    hide Sound, Reloaded, Marked, IsSnapshot, Valid, FoundOrOnly;
    match op {
      case Mark(key, reason, source) => MarkIsSound(s, key, reason, source);
      case Reload(next, accepted) =>
        if accepted {
          var f :| IsSnapshot(s, f) && after == Reloaded(s, next, f);
          ReloadIsSound(s, next, f);
        }
    }
  }

  // ---- Where a finding is lost ----

  /** A document that loads, its first playlist named as its second's id, with
      one media in both: a mark of the first's entry makes both taboo, and a
      reload of the same document drops the second's. */
  lemma NameLosesAFinding(first: Entry, second: Entry, reason: string, source: string)
    requires first.id != second.id && first.taboo.None? && second.taboo.None?
    requires MediaOf(first).Some? && MediaOf(second) == MediaOf(first)
    ensures var config, one, other := Hiding(first, second), Key("a", first.id), Key("b", second.id);
      && Valid(config) && !FoundOrOnly(config)
      && var s := Marked(Reconciled(config, 1, Findings(map[], [])), one, reason, source);
         && Spread(s) && Session(s, one) && Session(s, other)
         && forall f | IsSnapshot(s, f) ::
              var r := Reloaded(s, config, f);
              Session(r, one) && other !in r.taboo && !Spread(r)
  {
    hide Valid, Occurrences, MediaOf, Reloaded, Marked, IsSnapshot, Lookup, Hiding, Reconciled, Listed;
    var config := Hiding(first, second);
    var a, b := Occurrence(Key("a", first.id), first), Occurrence(Key("b", second.id), second);
    HidingIs(first, second);
    var start := Reconciled(config, 1, Findings(map[], []));
    NothingMarkedAtFirst(config);
    ReconciledListed(config, 1, Findings(map[], []));
    var s := Marked(start, a.key, reason, source);
    MarkListed(start, a.key, reason, source);
    MarkIsExact(start, a.key, reason, source, a);
    MarkIsExact(start, a.key, reason, source, b);
    assert Carries(s, a.key, MediaOf(first).value);
    forall f | IsSnapshot(s, f)
      ensures var r := Reloaded(s, config, f); Session(r, a.key) && b.key !in r.taboo && !Spread(r)
    {
      ReloadLoses(s, config, f, a, b);
    }
  }

  lemma HidingIs(first: Entry, second: Entry)
    requires first.id != second.id && MediaOf(first).Some? && MediaOf(second).Some?
    ensures var config := Hiding(first, second);
      && Valid(config)
      && Occurrences(config) == [Occurrence(Key("a", first.id), first), Occurrence(Key("b", second.id), second)]
      && Lookup(config, Key("a", first.id)) == Some(first) && Lookup(config, Key("b", second.id)) == None
  {
    NameHidesAnId(first, second);
    var config := Hiding(first, second);
    assert config[1..] == [config[1]] && config[0].entries == [first] && config[1].entries == [second];
    assert InPlaylist("a", [first]) == [Occurrence(Key("a", first.id), first)];
    assert InPlaylist("b", [second]) == [Occurrence(Key("b", second.id), second)];
    assert Occurrences(config[1..]) == InPlaylist("b", [second]);
    assert Occurrences(config) == InPlaylist("a", [first]) + Occurrences(config[1..]);
    assert PlaceOf(config, "b") == Some(0);
  }

  lemma NothingMarkedAtFirst(config: Config)
    requires forall o :: o in Occurrences(config) ==> o.entry.taboo.None?
    ensures var s := Reconciled(config, 1, Findings(map[], [])); s.config == config && s.taboo == map[]
  {
    hide Occurrences, ConfiguredRecords;
    NothingFound(config);
    forall k
      ensures k !in ConfiguredRecords(Occurrences(config), 1)
    {
      ConfiguredAre(Occurrences(config), 1, k);
    }
  }
}
