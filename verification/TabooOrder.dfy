/** The order status lists taboo keys in: what a mark and a reload do to it. */
module TabooOrder {
  import opened Common
  import opened Documents
  import opened Taboo
  import opened TabooRuns

  ghost predicate Older<T(!new)>(order: seq<T>, a: T, b: T) {
    exists i, j :: 0 <= i < j < |order| && order[i] == a && order[j] == b
  }

  // ---- Orders in parts ----

  lemma {:induction false} ThoseInParts(a: seq<Key>, b: seq<Key>, keys: set<Key>)
    ensures Those(a + b, keys) == Those(a, keys) + Those(b, keys)
  {
    if a == [] {
      assert a + b == b;
    } else {
      assert (a + b)[1..] == a[1..] + b;
      ThoseInParts(a[1..], b, keys);
    }
  }

  lemma {:induction false} ThoseAll(order: seq<Key>, keys: set<Key>)
    requires forall k :: k in order ==> k in keys
    ensures Those(order, keys) == order
  {
    if order != [] {
      ThoseAll(order[1..], keys);
    }
  }

  /** What is kept of an order keeps its order. */
  lemma {:induction false} ThoseInOrder(order: seq<Key>, keys: set<Key>, a: Key, b: Key)
    ensures Older(Those(order, keys), a, b) <==> a in keys && b in keys && Older(order, a, b)
  {
    if order != [] {
      var first, rest := [order[0]], order[1..];
      assert order == first + rest;
      ThoseInOrder(rest, keys, a, b);
      OlderInParts(first, rest, a, b);
      assert Those(order, keys) == (if order[0] in keys then first else []) + Those(rest, keys);
      if order[0] in keys {
        OlderInParts(first, Those(rest, keys), a, b);
      } else {
        assert Those(order, keys) == Those(rest, keys);
      }
    }
  }

  lemma OlderInParts<T(!new)>(s: seq<T>, t: seq<T>, a: T, b: T)
    ensures Older(s + t, a, b) <==> Older(s, a, b) || Older(t, a, b) || (a in s && b in t)
  {
    var all := s + t;
    if Older(all, a, b) {
      var i, j :| 0 <= i < j < |all| && all[i] == a && all[j] == b;
      if i >= |s| {
        assert t[i - |s|] == a && t[j - |s|] == b;
      }
    }
    if Older(s, a, b) {
      var i, j :| 0 <= i < j < |s| && s[i] == a && s[j] == b;
      assert all[i] == a && all[j] == b;
    }
    if Older(t, a, b) {
      var i, j :| 0 <= i < j < |t| && t[i] == a && t[j] == b;
      assert all[i + |s|] == a && all[j + |s|] == b;
    }
    if a in s && b in t {
      var i :| 0 <= i < |s| && s[i] == a;
      var j :| 0 <= j < |t| && t[j] == b;
      assert all[i] == a && all[j + |s|] == b;
    }
  }

  lemma {:induction false} WithoutAbsent<T(!new)>(s: seq<T>, x: T)
    requires x !in s
    ensures Without(s, x) == s
  {
    if s != [] {
      WithoutAbsent(s[1..], x);
    }
  }

  lemma {:induction false} WithoutInParts<T(!new)>(s: seq<T>, t: seq<T>, x: T)
    ensures Without(s + t, x) == Without(s, x) + Without(t, x)
  {
    if s == [] {
      assert s + t == t;
    } else {
      assert (s + t)[1..] == s[1..] + t;
      WithoutInParts(s[1..], t, x);
    }
  }

  lemma {:induction false} WithoutOne<T(!new)>(s: seq<T>, x: T)
    requires NoRepeats(s) && x in s
    ensures |Without(s, x)| == |s| - 1
  {
    if s[0] == x {
      assert x !in s[1..];
      WithoutAbsent(s[1..], x);
    } else {
      WithoutOne(s[1..], x);
    }
  }

  lemma {:induction false} WithoutThose(order: seq<Key>, keys: set<Key>, x: Key)
    ensures Without(Those(order, keys), x) == Those(order, keys - {x})
  {
    if order != [] {
      var rest := order[1..];
      WithoutThose(rest, keys, x);
      if order[0] in keys {
        WithoutInParts([order[0]], Those(rest, keys), x);
      } else {
        assert Those(order, keys) == Those(rest, keys);
      }
      if order[0] !in keys - {x} {
        assert Those(order, keys - {x}) == Those(rest, keys - {x});
      }
    }
  }

  // ---- Marks ----

  /** The keys a mark finds something new on. */
  function NewlyMarked(s: State, keys: seq<Key>): seq<Key> {
    Those(keys, set k | k in keys && !(k in s.taboo && s.taboo[k].durable))
  }

  function AllBut(order: seq<Key>, keys: seq<Key>): seq<Key> {
    Those(order, SetOf(order) - SetOf(keys))
  }

  /** Promoting within the newest is taking the newest of what is promoted. */
  lemma PromotedIsNewest(all: seq<Key>, key: Key)
    requires NoRepeats(all)
    ensures Promoted(Newest(all), key) == Newest(Without(all, key) + [key])
  {
    hide Without, NoRepeats;
    if |all| > STATUS_LIMIT {
      PromotedAmongMany(all, key);
    } else if |Without(all, key)| == STATUS_LIMIT {
      var rest := Without(all, key);
      NewestTail([rest[0]], rest[1..] + [key]);
      assert [rest[0]] + (rest[1..] + [key]) == rest + [key];
    }
  }

  lemma PromotedAmongMany(all: seq<Key>, key: Key)
    requires NoRepeats(all) && |all| > STATUS_LIMIT
    ensures Promoted(Newest(all), key) == Newest(Without(all, key) + [key])
  {
    hide Without, NoRepeats, Newest, Promoted;
    var n := |all| - STATUS_LIMIT;
    var dropped, kept := all[..n], all[n..];
    assert all == dropped + kept;
    NewestTail(dropped, kept);
    SplitOnce(all, n, key);
    WithoutInParts(dropped, kept, key);
    PromotedInFull(kept, key);
    if key in kept {
      WithoutAbsent(dropped, key);
      NewestTail(dropped, Without(kept, key) + [key]);
      assert dropped + (Without(kept, key) + [key]) == Without(all, key) + [key];
    } else {
      WithoutAbsent(kept, key);
      NewestTail(Without(dropped, key) + [kept[0]], kept[1..] + [key]);
      assert (Without(dropped, key) + [kept[0]]) + (kept[1..] + [key]) == Without(dropped, key) + kept + [key];
    }
  }

  lemma PromotedInFull(kept: seq<Key>, key: Key)
    requires NoRepeats(kept) && |kept| == STATUS_LIMIT
    ensures |Promoted(kept, key)| == STATUS_LIMIT
    ensures Promoted(kept, key) == if key in kept then Without(kept, key) + [key] else kept[1..] + [key]
  {
    hide Without, NoRepeats;
    if key in kept {
      WithoutOne(kept, key);
    } else {
      WithoutAbsent(kept, key);
    }
  }

  lemma SplitOnce(all: seq<Key>, n: nat, key: Key)
    requires NoRepeats(all) && n <= |all|
    ensures NoRepeats(all[n..]) && (key in all[n..] ==> key !in all[..n])
  {
  }

  lemma NewestTail(a: seq<Key>, b: seq<Key>)
    requires |b| == STATUS_LIMIT
    ensures Newest(a + b) == b
  {
  }

  lemma {:induction false} MarkedEachOrder(s: State, keys: seq<Key>, reason: string, source: string)
    requires Listed(s.order, s.taboo) && NoRepeats(keys)
    ensures var now := NewlyMarked(s, keys);
      && MarkedEach(s, keys, reason, source).order == Newest(AllBut(s.order, now) + now)
      && NoRepeats(AllBut(s.order, now) + now)
  {
    hide Listed, Promoted, Newest, Those;
    if keys == [] {
      NothingMarked(s);
      assert AllBut(s.order, []) + [] == AllBut(s.order, []);
      ThoseAll(s.order, SetOf(s.order) - SetOf([]));
      ListedIs(s.order, s.taboo);
    } else {
      var last := |keys| - 1;
      var key, first := keys[last], keys[..last];
      assert keys == first + [key] && key !in first;
      MarkedEachOrder(s, first, reason, source);
      MarkedEachOnly(s, first, reason, source);
      var before, now := MarkedEach(s, first, reason, source), NewlyMarked(s, first);
      MarkOneMore(s, first, key);
      if !(key in s.taboo && s.taboo[key].durable) {
        PromotedIsNewest(AllBut(s.order, now) + now, key);
        PromotedOnce(AllBut(s.order, now) + now, key);
      }
    }
  }

  lemma NothingMarked(s: State)
    ensures NewlyMarked(s, []) == []
  {
  }

  lemma ThoseOne(key: Key, keys: set<Key>)
    ensures Those([key], keys) == if key in keys then [key] else []
  {
  }

  lemma ListedIs(order: seq<Key>, taboo: map<Key, Record>)
    requires Listed(order, taboo)
    ensures NoRepeats(order) && Newest(order) == order
  {
  }

  lemma MarkOneMore(s: State, keys: seq<Key>, key: Key)
    requires key !in keys
    ensures var before, after := NewlyMarked(s, keys), NewlyMarked(s, keys + [key]);
      if key in s.taboo && s.taboo[key].durable then after == before
      else && after == before + [key]
           && AllBut(s.order, after) + after == Without(AllBut(s.order, before) + before, key) + [key]
  {
    hide Those, Without;
    ThoseOne(key, set k | k in keys + [key] && !(k in s.taboo && s.taboo[k].durable));
    var found := set k | k in keys + [key] && !(k in s.taboo && s.taboo[k].durable);
    var were := set k | k in keys && !(k in s.taboo && s.taboo[k].durable);
    ThoseInParts(keys, [key], found);
    SameThose(keys, found, were);
    var before := NewlyMarked(s, keys);
    if key in found {
      WithoutInParts(AllBut(s.order, before), before, key);
      WithoutAbsent(before, key);
      WithoutThose(s.order, SetOf(s.order) - SetOf(before), key);
      assert SetOf(before + [key]) == SetOf(before) + {key};
      assert SetOf(s.order) - SetOf(before + [key]) == SetOf(s.order) - SetOf(before) - {key};
      assert AllBut(s.order, before + [key]) + (before + [key]) == AllBut(s.order, before + [key]) + before + [key];
    }
  }

  lemma {:induction false} SameThose(order: seq<Key>, a: set<Key>, b: set<Key>)
    requires forall k :: k in order ==> (k in a <==> k in b)
    ensures Those(order, a) == Those(order, b)
  {
    if order != [] {
      SameThose(order[1..], a, b);
    }
  }

  lemma {:induction false} PickOnce(occurrences: seq<Occurrence>, media: Media)
    requires EachOnce(occurrences)
    ensures NoRepeats(Pick(occurrences, media))
  {
    if occurrences != [] {
      var rest := occurrences[1..];
      assert EachOnce(rest) by {
        assert forall i :: 0 <= i < |rest| ==> rest[i] == occurrences[i + 1];
      }
      PickOnce(rest, media);
      PickIs(rest, media, occurrences[0].key);
      forall o | o in rest
        ensures o.key != occurrences[0].key
      {
        var i :| 0 <= i < |rest| && rest[i] == o;
        assert occurrences[i + 1] == o;
      }
      PrependOnce(occurrences[0].key, Pick(rest, media));
    }
  }

  lemma PrependOnce<T>(x: T, s: seq<T>)
    requires x !in s && NoRepeats(s)
    ensures NoRepeats([x] + s)
  {
  }

  lemma AppendOnce<T>(s: seq<T>, x: T)
    requires x !in s && NoRepeats(s)
    ensures NoRepeats(s + [x])
  {
  }

  lemma EquivalentOnce(config: Config, key: Key)
    requires Valid(config)
    ensures NoRepeats(Equivalent(config, key))
  {
    hide Lookup;
    OccurOnce(config);
    var source := Lookup(config, key);
    if source.Some? && MediaOf(source.value).Some? {
      PickOnce(Occurrences(config), MediaOf(source.value).value);
    }
  }

  /** A mark lists what it marks last, in the document's order, after all that
      was listed, in its order; of these the 64 newest stay. */
  lemma MarkOrder(s: State, key: Key, reason: string, source: string)
    requires Valid(s.config) && Listed(s.order, s.taboo)
    ensures var now := NewlyMarked(s, Equivalent(s.config, key));
      && Marked(s, key, reason, source).order == Newest(AllBut(s.order, now) + now)
      && NoRepeats(AllBut(s.order, now) + now)
  {
    hide Valid, Listed, Equivalent, MarkedEach, Those, Newest;
    EquivalentOnce(s.config, key);
    MarkedEachOrder(s, Equivalent(s.config, key), reason, source);
  }

  // ---- What a snapshot remembers ----

  /** The last place of an order with a finding of this media. */
  ghost predicate LastAt(s: State, order: seq<Key>, media: Media, i: nat) {
    i < |order| && Carries(s, order[i], media) && forall j :: i < j < |order| ==> !Carries(s, order[j], media)
  }

  /** A snapshot's order has each media with a listed finding once, and the one
      last listed last. */
  lemma {:induction false} FoundOrderIs(s: State, order: seq<Key>, a: Media, b: Media)
    ensures NoRepeats(FoundOrder(s, order))
    ensures a in FoundOrder(s, order) <==> exists i: nat :: LastAt(s, order, a, i)
    ensures Older(FoundOrder(s, order), a, b) <==>
      exists i: nat, j: nat :: i < j && LastAt(s, order, a, i) && LastAt(s, order, b, j)
  {
    hide MediaAt, Session, LastAt;
    if order != [] {
      var last := |order| - 1;
      var rest, key := order[..last], order[last];
      assert order == rest + [key];
      FoundOrderIs(s, rest, a, b);
      LastOfMore(s, rest, key, a);
      LastOfMore(s, rest, key, b);
      LastBelow(s, rest, a);
      LastBelow(s, rest, b);
      if Session(s, key) && MediaAt(s.config, key).Some? {
        var media := MediaAt(s.config, key).value;
        var found := FoundOrder(s, rest);
        FoundOrderIs(s, rest, b, a);
        WithoutKeepsOnce(found, media);
        AppendOnce(Without(found, media), media);
        WithoutInOrder(found, media, a, b);
        OlderInParts(Without(found, media), [media], a, b);
        assert FoundOrder(s, order) == Without(found, media) + [media];
        assert Carries(s, key, media);
        assert forall m :: Carries(s, key, m) ==> m == media;
        if a == media {
          assert LastAt(s, order, a, last);
        }
        if b == media {
          assert LastAt(s, order, b, last);
        }
      } else {
        assert FoundOrder(s, order) == FoundOrder(s, rest);
        assert forall m :: !Carries(s, key, m);
      }
    } else {
      LastBelow(s, order, a);
    }
  }

  lemma LastBelow(s: State, order: seq<Key>, media: Media)
    ensures forall i: nat :: LastAt(s, order, media, i) ==> i < |order|
  {
  }

  lemma LastOfMore(s: State, order: seq<Key>, key: Key, media: Media)
    ensures forall i: nat :: LastAt(s, order + [key], media, i) <==>
      if Carries(s, key, media) then i == |order| else LastAt(s, order, media, i)
  {
    hide Carries;
    var all := order + [key];
    assert forall j :: 0 <= j < |order| ==> all[j] == order[j];
    assert all[|order|] == key;
    forall i: nat
      ensures LastAt(s, all, media, i) <==> if Carries(s, key, media) then i == |order| else LastAt(s, order, media, i)
    {
    }
  }

  lemma {:induction false} WithoutInOrder(order: seq<Media>, x: Media, a: Media, b: Media)
    ensures Older(Without(order, x), a, b) <==> a != x && b != x && Older(order, a, b)
  {
    if order != [] {
      var first, rest := [order[0]], order[1..];
      assert order == first + rest;
      WithoutInOrder(rest, x, a, b);
      OlderInParts(first, rest, a, b);
      if order[0] != x {
        OlderInParts(first, Without(rest, x), a, b);
      }
    }
  }

  // ---- The document's order ----

  /** How many entries come before a playlist's. */
  function Before(config: Config, p: nat): nat
    requires p <= |config|
  {
    if p == 0 then 0 else |config[0].entries| + Before(config[1..], p - 1)
  }

  lemma {:induction false} InPlaylistAt(playlist: string, entries: seq<Entry>, i: nat)
    requires i < |entries|
    ensures |InPlaylist(playlist, entries)| == |entries|
    ensures InPlaylist(playlist, entries)[i] == Occurrence(Key(playlist, entries[i].id), entries[i])
  {
    if i > 0 {
      InPlaylistAt(playlist, entries[1..], i - 1);
    } else if |entries| > 1 {
      InPlaylistAt(playlist, entries[1..], 0);
    }
  }

  /** The occurrences are the entries playlist by playlist. */
  lemma {:induction false} OccurrencesAt(config: Config, p: nat, i: nat)
    requires p < |config| && i < |config[p].entries|
    ensures Before(config, p) + i < |Occurrences(config)|
    ensures Occurrences(config)[Before(config, p) + i]
      == Occurrence(Key(config[p].id, config[p].entries[i].id), config[p].entries[i])
  {
    if config[0].entries != [] {
      InPlaylistAt(config[0].id, config[0].entries, if p == 0 then i else 0);
    }
    if p > 0 {
      OccurrencesAt(config[1..], p - 1, i);
    }
  }

  /** One entry of a media comes before another in the document. */
  ghost predicate Earlier(occurrences: seq<Occurrence>, media: Media, a: Key, b: Key) {
    exists i, j :: 0 <= i < j < |occurrences| && Is(occurrences[i], media, a) && Is(occurrences[j], media, b)
  }

  predicate Is(o: Occurrence, media: Media, key: Key) {
    o.key == key && MediaOf(o.entry) == Some(media)
  }

  lemma {:induction false} PickInOrder(occurrences: seq<Occurrence>, media: Media, a: Key, b: Key)
    ensures Older(Pick(occurrences, media), a, b) <==> Earlier(occurrences, media, a, b)
  {
    hide MediaOf;
    if occurrences != [] {
      var first, rest := occurrences[0], occurrences[1..];
      PickInOrder(rest, media, a, b);
      PickIs(rest, media, b);
      if MediaOf(first.entry) == Some(media) {
        OlderInParts([first.key], Pick(rest, media), a, b);
      }
      if Earlier(occurrences, media, a, b) {
        var i, j :| 0 <= i < j < |occurrences| && Is(occurrences[i], media, a) && Is(occurrences[j], media, b);
        assert rest[j - 1] in rest && Is(rest[j - 1], media, b);
        if i > 0 {
          assert Is(rest[i - 1], media, a);
        }
      }
      if Earlier(rest, media, a, b) {
        var i, j :| 0 <= i < j < |rest| && Is(rest[i], media, a) && Is(rest[j], media, b);
        assert Is(occurrences[i + 1], media, a) && Is(occurrences[j + 1], media, b);
      }
      if Is(first, media, a) && b in Pick(rest, media) {
        var o :| o in rest && Is(o, media, b);
        var j :| 0 <= j < |rest| && rest[j] == o;
        assert Is(occurrences[0], media, a) && Is(occurrences[j + 1], media, b);
      }
    }
  }

  lemma {:induction false} ConfiguredInOrder(occurrences: seq<Occurrence>, a: Key, b: Key)
    ensures Older(ConfiguredOrder(occurrences), a, b) <==>
      exists i, j :: 0 <= i < j < |occurrences| && Marks(occurrences[i], a) && Marks(occurrences[j], b)
  {
    if occurrences != [] {
      var last := |occurrences| - 1;
      var rest, o := occurrences[..last], occurrences[last];
      ConfiguredInOrder(rest, a, b);
      ConfiguredAre(rest, 0, a);
      ConfiguredHas(rest, a);
      OlderInParts(ConfiguredOrder(rest), if o.entry.taboo.Some? then [o.key] else [], a, b);
      assert forall i :: 0 <= i < last ==> rest[i] == occurrences[i];
      if a in ConfiguredOrder(rest) && Marks(o, b) {
        var i :| 0 <= i < last && Marks(rest[i], a);
        assert Marks(occurrences[i], a) && Marks(occurrences[last], b);
      }
    }
  }

  predicate Marks(o: Occurrence, key: Key) {
    o.key == key && o.entry.taboo.Some?
  }

  lemma {:induction false} ConfiguredHas(occurrences: seq<Occurrence>, k: Key)
    ensures k in ConfiguredOrder(occurrences) <==> exists i :: 0 <= i < |occurrences| && Marks(occurrences[i], k)
  {
    if occurrences != [] {
      var last := |occurrences| - 1;
      ConfiguredHas(occurrences[..last], k);
      assert forall i :: 0 <= i < last ==> occurrences[..last][i] == occurrences[i];
    }
  }

  // ---- Reloads ----

  predicate IsFinding(taboo: map<Key, Record>, key: Key) {
    key in taboo && !taboo[key].durable
  }

  function FindingsOf(taboo: map<Key, Record>, keys: seq<Key>): seq<Key> {
    Those(keys, set k | k in keys && IsFinding(taboo, k))
  }

  /** The findings as a reload lists them: media by media as remembered, and
      within one in the document's order. */
  function FoundKeys(taboo: map<Key, Record>, occurrences: seq<Occurrence>, media: seq<Media>): seq<Key> {
    if media == [] then []
    else
      var last := |media| - 1;
      FoundKeys(taboo, occurrences, media[..last]) + FindingsOf(taboo, Pick(occurrences, media[last]))
  }

  lemma {:induction false} FoundKeysAre(taboo: map<Key, Record>, occurrences: seq<Occurrence>, media: seq<Media>, k: Key)
    ensures k in FoundKeys(taboo, occurrences, media) <==>
      IsFinding(taboo, k) && exists m :: m in media && k in Pick(occurrences, m)
  {
    hide FindingsOf, IsFinding, Pick;
    if media != [] {
      var last := |media| - 1;
      FoundKeysAre(taboo, occurrences, media[..last], k);
      FindingsWithin(taboo, Pick(occurrences, media[last]));
      assert FoundKeys(taboo, occurrences, media)
        == FoundKeys(taboo, occurrences, media[..last]) + FindingsOf(taboo, Pick(occurrences, media[last]));
      assert media[last] in media;
      assert forall m :: m in media <==> m in media[..last] || m == media[last];
    }
  }

  lemma OneMedia(occurrences: seq<Occurrence>, a: Media, b: Media, k: Key)
    requires EachOnce(occurrences) && k in Pick(occurrences, a) && k in Pick(occurrences, b)
    ensures a == b
  {
    hide MediaOf;
    PickIs(occurrences, a, k);
    PickIs(occurrences, b, k);
    var o :| o in occurrences && o.key == k && MediaOf(o.entry) == Some(a);
    var q :| q in occurrences && q.key == k && MediaOf(q.entry) == Some(b);
    var i :| 0 <= i < |occurrences| && occurrences[i] == o;
    var j :| 0 <= j < |occurrences| && occurrences[j] == q;
    assert i == j;
  }

  lemma FindingsOfMore(taboo: map<Key, Record>, keys: seq<Key>, key: Key)
    ensures FindingsOf(taboo, keys + [key]) == FindingsOf(taboo, keys) + if IsFinding(taboo, key) then [key] else []
  {
    hide Those, IsFinding;
    var all := set k | k in keys + [key] && IsFinding(taboo, k);
    ThoseInParts(keys, [key], all);
    ThoseOne(key, all);
    SameThose(keys, all, set k | k in keys && IsFinding(taboo, k));
  }

  lemma {:induction false} PromotedFindingsAppend(taboo: map<Key, Record>, keys: seq<Key>, order: seq<Key>)
    requires NoRepeats(keys) && forall k :: k in keys && k in order ==> !IsFinding(taboo, k)
    ensures PromotedFindings(taboo, keys, order) == order + FindingsOf(taboo, keys)
  {
    hide FindingsOf;
    if keys == [] {
      assert FindingsOf(taboo, []) == [] by {
        NoFindingsYet(taboo);
      }
    } else {
      var last := |keys| - 1;
      var first, key := keys[..last], keys[last];
      assert keys == first + [key] && key !in first;
      PromotedFindingsAppend(taboo, first, order);
      FindingsOfMore(taboo, first, key);
      FindingsWithin(taboo, first);
      if IsFinding(taboo, key) {
        WithoutAbsent(order + FindingsOf(taboo, first), key);
      }
    }
  }

  lemma NoFindingsYet(taboo: map<Key, Record>)
    ensures FindingsOf(taboo, []) == []
  {
  }

  lemma FindingsWithin(taboo: map<Key, Record>, keys: seq<Key>)
    ensures forall k :: k in FindingsOf(taboo, keys) <==> k in keys && IsFinding(taboo, k)
  {
  }

  lemma {:induction false} PromotedMediaAppend(
    taboo: map<Key, Record>, occurrences: seq<Occurrence>, media: seq<Media>, order: seq<Key>
  )
    requires EachOnce(occurrences) && NoRepeats(media) && forall k :: k in order ==> !IsFinding(taboo, k)
    ensures PromotedMedia(taboo, occurrences, media, order) == order + FoundKeys(taboo, occurrences, media)
  {
    hide EachOnce, Pick, PromotedFindings, FindingsOf, IsFinding;
    if media != [] {
      var last := |media| - 1;
      var first, m := media[..last], media[last];
      PromotedMediaAppend(taboo, occurrences, first, order);
      PickOnce(occurrences, m);
      var found := order + FoundKeys(taboo, occurrences, first);
      forall k | k in Pick(occurrences, m) && k in found
        ensures !IsFinding(taboo, k)
      {
        FoundKeysAre(taboo, occurrences, first, k);
        if k !in order {
          var other :| other in first && k in Pick(occurrences, other);
          OneMedia(occurrences, other, m, k);
        }
      }
      PromotedFindingsAppend(taboo, Pick(occurrences, m), found);
    }
  }

  /** The findings of a reload, as it lists them. */
  function ListedFindings(s: State, next: Config, f: Findings): seq<Key> {
    FoundKeys(Reconciled(next, s.epoch + 1, f).taboo, Occurrences(next), f.order)
  }

  /** A reload lists what the configuration marks, the 64 newest, then the
      findings; of these the 64 newest; and of these those it still finds. */
  lemma ReloadOrder(s: State, next: Config, f: Findings)
    requires Valid(next) && IsSnapshot(s, f)
    ensures var r := Reloaded(s, next, f);
      r.order == Those(Newest(Newest(ConfiguredOrder(Occurrences(next))) + ListedFindings(s, next, f)), r.taboo.Keys)
  {
    hide Valid, Occurrences, Newest, PromotedMedia, WithFindings, ConfiguredRecords, ConfiguredOrder, FoundKeys, FoundOrder, EachOnce;
    var occurrences, epoch := Occurrences(next), s.epoch + 1;
    var configured := ConfiguredRecords(occurrences, epoch);
    var taboo := WithFindings(configured, occurrences, f.records, epoch);
    OccurOnce(next);
    MediaOnce(s, f);
    NewestHas(ConfiguredOrder(occurrences));
    forall k | k in ConfiguredOrder(occurrences)
      ensures !IsFinding(taboo, k)
    {
      ConfiguredAre(occurrences, epoch, k);
      WithFindingsAre(configured, occurrences, f.records, epoch, k);
    }
    PromotedMediaAppend(taboo, occurrences, f.order, Newest(ConfiguredOrder(occurrences)));
  }

  lemma MediaOnce(s: State, f: Findings)
    requires IsSnapshot(s, f)
    ensures NoRepeats(f.order)
  {
    FoundOrderIs(s, s.order, Still(""), Still(""));
  }

  lemma NewestHas(order: seq<Key>)
    ensures forall k :: k in Newest(order) ==> k in order
  {
  }

  lemma {:induction false} FoundKeysOnce(taboo: map<Key, Record>, occurrences: seq<Occurrence>, media: seq<Media>)
    requires EachOnce(occurrences) && NoRepeats(media)
    ensures NoRepeats(FoundKeys(taboo, occurrences, media))
  {
    hide EachOnce, Pick, FindingsOf, IsFinding;
    if media != [] {
      var last := |media| - 1;
      var first, m := media[..last], media[last];
      FoundKeysOnce(taboo, occurrences, first);
      PickOnce(occurrences, m);
      FindingsOnce(taboo, Pick(occurrences, m));
      FindingsWithin(taboo, Pick(occurrences, m));
      forall k | k in FoundKeys(taboo, occurrences, first)
        ensures k !in Pick(occurrences, m)
      {
        FoundKeysAre(taboo, occurrences, first, k);
        var other :| other in first && k in Pick(occurrences, other);
        if k in Pick(occurrences, m) {
          OneMedia(occurrences, other, m, k);
        }
      }
      JoinedOnce(FoundKeys(taboo, occurrences, first), FindingsOf(taboo, Pick(occurrences, m)));
    }
  }

  lemma FindingsOnce(taboo: map<Key, Record>, keys: seq<Key>)
    requires NoRepeats(keys)
    ensures NoRepeats(FindingsOf(taboo, keys))
  {
    ThoseWithin(keys, set k | k in keys && IsFinding(taboo, k));
  }

  lemma JoinedOnce<T(!new)>(a: seq<T>, b: seq<T>)
    requires NoRepeats(a) && NoRepeats(b) && forall x :: x in a ==> x !in b
    ensures NoRepeats(a + b)
  {
    var all := a + b;
    forall i, j | 0 <= i < j < |all|
      ensures all[i] != all[j]
    {
      if i < |a| <= j {
        assert a[i] in a && b[j - |a|] in b;
      }
    }
  }

  lemma NewestIndex(order: seq<Key>, j: nat)
    requires NoRepeats(order) && j < |order|
    ensures order[j] in Newest(order) <==> |order| - j <= STATUS_LIMIT
  {
    if |order| > STATUS_LIMIT {
      var from := |order| - STATUS_LIMIT;
      assert j >= from ==> order[from..][j - from] == order[j];
    }
  }

  lemma NewestInOrder(order: seq<Key>, a: Key, b: Key)
    requires NoRepeats(order) && Older(order, a, b) && a in Newest(order)
    ensures Older(Newest(order), a, b)
  {
    var i, j :| 0 <= i < j < |order| && order[i] == a && order[j] == b;
    if |order| > STATUS_LIMIT {
      var from := |order| - STATUS_LIMIT;
      NewestIndex(order, i);
      assert Newest(order)[i - from] == a && Newest(order)[j - from] == b;
    }
  }

  /** A media with a listed finding has a last one. */
  lemma {:induction false} SomeLast(s: State, order: seq<Key>, media: Media, key: Key) returns (i: nat)
    requires key in order && Carries(s, key, media)
    ensures LastAt(s, order, media, i)
  {
    hide Carries;
    var last := |order| - 1;
    if Carries(s, order[last], media) {
      i := last;
    } else {
      i := SomeLast(s, order[..last], media, key);
    }
  }

  lemma IsListed(s: State, next: Config, f: Findings, o: Occurrence, media: Media, key: Key)
    requires Valid(next) && IsSnapshot(s, f) && o in Occurrences(next) && MediaOf(o.entry) == Some(media)
    requires Session(Reloaded(s, next, f), o.key) && key in s.order && Carries(s, key, media)
    ensures o.key in ListedFindings(s, next, f)
  {
    hide Valid, Occurrences, FoundKeys, Reconciled, Lookup;
    var taboo := Reconciled(next, s.epoch + 1, f).taboo;
    var i := SomeLast(s, s.order, media, key);
    FoundOrderIs(s, s.order, media, media);
    PickIs(Occurrences(next), media, o.key);
    assert IsFinding(taboo, o.key);
    FoundKeysAre(taboo, Occurrences(next), f.order, o.key);
  }

  /** The marks a reload lists, and its findings after them, each once. */
  lemma ListedOnce(s: State, next: Config, f: Findings)
    requires Valid(next) && IsSnapshot(s, f)
    ensures var marks, found := Newest(ConfiguredOrder(Occurrences(next))), ListedFindings(s, next, f);
      && NoRepeats(marks + found)
      && forall k :: k in found ==> IsFinding(Reconciled(next, s.epoch + 1, f).taboo, k)
  {
    hide Valid, Occurrences, FoundKeys, FoundOrder, EachOnce, Newest, NoRepeats, PromotedMedia, WithFindings, ConfiguredRecords,
      ConfiguredOrder;
    var occurrences, epoch := Occurrences(next), s.epoch + 1;
    var configured := ConfiguredRecords(occurrences, epoch);
    var taboo := WithFindings(configured, occurrences, f.records, epoch);
    var marks, found := Newest(ConfiguredOrder(occurrences)), ListedFindings(s, next, f);
    OccurOnce(next);
    MediaOnce(s, f);
    ConfiguredOnce(occurrences);
    NewestHas(ConfiguredOrder(occurrences));
    NewestOnce(ConfiguredOrder(occurrences));
    FoundKeysOnce(taboo, occurrences, f.order);
    forall k | k in found
      ensures IsFinding(taboo, k) && k !in marks
    {
      FoundKeysAre(taboo, occurrences, f.order, k);
      ConfiguredAre(occurrences, epoch, k);
      WithFindingsAre(configured, occurrences, f.records, epoch, k);
    }
    JoinedOnce(marks, found);
  }

  lemma NewestOnce(order: seq<Key>)
    requires NoRepeats(order)
    ensures NoRepeats(Newest(order))
  {
    if |order| > STATUS_LIMIT {
      assert forall i :: 0 <= i < STATUS_LIMIT ==> Newest(order)[i] == order[|order| - STATUS_LIMIT + i];
    }
  }

  /** Each entry that keeps a finding, and whose media had a listed one, is
      listed, unless 64 newer findings are; after all that the configuration
      marks. */
  lemma ReloadListsFindings(s: State, next: Config, f: Findings, o: Occurrence, media: Media, key: Key) returns (i: nat)
    requires Valid(next) && IsSnapshot(s, f) && o in Occurrences(next) && MediaOf(o.entry) == Some(media)
    requires Session(Reloaded(s, next, f), o.key) && key in s.order && Carries(s, key, media)
    ensures var found, r := ListedFindings(s, next, f), Reloaded(s, next, f);
      && i < |found| && found[i] == o.key
      && (o.key in r.order <==> |found| - i <= STATUS_LIMIT)
      && (o.key in r.order ==> forall k :: k in r.order && k in r.taboo && r.taboo[k].durable ==> Older(r.order, k, o.key))
  {
    hide Valid, Occurrences, Reconciled, ListedFindings, Newest, ConfiguredOrder, NoRepeats, Older, MediaOf, Lookup, IsSnapshot, Those;
    var r, found := Reloaded(s, next, f), ListedFindings(s, next, f);
    var marks := Newest(ConfiguredOrder(Occurrences(next)));
    ReloadOrder(s, next, f);
    ListedOnce(s, next, f);
    IsListed(s, next, f, o, media, key);
    i :| i < |found| && found[i] == o.key;
    NewestIndex(marks + found, |marks| + i);
    NewestHas(marks + found);
    if o.key in r.order {
      forall k | k in r.order && k in r.taboo && r.taboo[k].durable
        ensures Older(r.order, k, o.key)
      {
        assert k !in found;
        OlderInParts(marks, found, k, o.key);
        NewestInOrder(marks + found, k, o.key);
        ThoseInOrder(Newest(marks + found), r.taboo.Keys, k, o.key);
      }
    }
  }

  /** Findings are listed in the order of their media, as last observed, and
      those of one media in the document's. */
  lemma {:induction false} FoundKeysInOrder(
    taboo: map<Key, Record>, occurrences: seq<Occurrence>, media: seq<Media>, a: Key, b: Key
  )
    ensures Older(FoundKeys(taboo, occurrences, media), a, b) <==>
      && IsFinding(taboo, a) && IsFinding(taboo, b)
      && ((exists m :: m in media && Older(Pick(occurrences, m), a, b))
          || (exists m, n :: Older(media, m, n) && a in Pick(occurrences, m) && b in Pick(occurrences, n)))
  {
    hide Pick, FindingsOf, IsFinding, Older;
    if media != [] {
      var last := |media| - 1;
      var first, m := media[..last], media[last];
      assert media == first + [m];
      var found, more := FoundKeys(taboo, occurrences, first), FindingsOf(taboo, Pick(occurrences, m));
      FoundKeysInOrder(taboo, occurrences, first, a, b);
      FoundKeysAre(taboo, occurrences, first, a);
      FindingsWithin(taboo, Pick(occurrences, m));
      FindingsInOrder(taboo, Pick(occurrences, m), a, b);
      OlderInParts(found, more, a, b);
      assert forall n :: n in media <==> n in first || n == m;
      forall k, n
        ensures Older(media, k, n) <==> Older(first, k, n) || (k in first && n == m)
      {
        OlderInParts(first, [m], k, n);
        NothingOlder([m], k, n);
      }
      assert FoundKeys(taboo, occurrences, media) == found + more;
      assert m in media;
      if IsFinding(taboo, a) && IsFinding(taboo, b) {
        if a in found && b in more {
          var k :| k in first && a in Pick(occurrences, k);
          assert Older(media, k, m);
        }
        if k, n :| Older(media, k, n) && a in Pick(occurrences, k) && b in Pick(occurrences, n) {
          assert Older(first, k, n) || (k in first && n == m);
        }
      }
    } else {
      forall k, n
        ensures !Older(media, k, n)
      {
        NothingOlder(media, k, n);
      }
      NothingOlder(FoundKeys(taboo, occurrences, media), a, b);
    }
  }

  lemma NothingOlder<T(!new)>(order: seq<T>, a: T, b: T)
    requires |order| <= 1
    ensures !Older(order, a, b)
  {
  }

  lemma FindingsInOrder(taboo: map<Key, Record>, keys: seq<Key>, a: Key, b: Key)
    ensures Older(FindingsOf(taboo, keys), a, b) <==> IsFinding(taboo, a) && IsFinding(taboo, b) && Older(keys, a, b)
  {
    ThoseInOrder(keys, (set k | k in keys && IsFinding(taboo, k)), a, b);
  }

  /** Listed findings keep that order. */
  lemma ReloadKeepsOrder(s: State, next: Config, f: Findings, a: Key, b: Key)
    requires Valid(next) && IsSnapshot(s, f) && Older(ListedFindings(s, next, f), a, b)
    requires a in Reloaded(s, next, f).order && b in Reloaded(s, next, f).taboo
    ensures Older(Reloaded(s, next, f).order, a, b)
  {
    hide Valid, Occurrences, Reconciled, ListedFindings, Newest, ConfiguredOrder, NoRepeats, Older, IsSnapshot, Those;
    var r, found := Reloaded(s, next, f), ListedFindings(s, next, f);
    var marks := Newest(ConfiguredOrder(Occurrences(next)));
    ReloadOrder(s, next, f);
    ListedOnce(s, next, f);
    OlderInParts(marks, found, a, b);
    NewestInOrder(marks + found, a, b);
    ThoseInOrder(Newest(marks + found), r.taboo.Keys, a, b);
  }
}
