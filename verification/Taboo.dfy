/** Entries the service won't start again: what the configuration marks, what
    the session found, and what a reload keeps of the findings. */
module Taboo {
  import opened Common
  import opened Documents

  const STATUS_LIMIT := 64

  datatype Record = Record(reason: string, source: string, durable: bool, epoch: nat)
  datatype Findings = Findings(records: map<Media, Record>, order: seq<Media>)
  datatype State = State(config: Config, epoch: nat, taboo: map<Key, Record>, order: seq<Key>)

  // ---- Marks ----

  function Promoted(order: seq<Key>, key: Key): seq<Key> {
    var rest := Without(order, key);
    (if |rest| == STATUS_LIMIT then rest[1..] else rest) + [key]
  }

  function MarkedOne(s: State, key: Key, reason: string, source: string): State {
    if key in s.taboo && s.taboo[key].durable then s
    else s.(taboo := s.taboo[key := Record(reason, source, false, s.epoch)], order := Promoted(s.order, key))
  }

  function MarkedEach(s: State, keys: seq<Key>, reason: string, source: string): State {
    if keys == [] then s
    else MarkedOne(MarkedEach(s, keys[..|keys| - 1], reason, source), keys[|keys| - 1], reason, source)
  }

  function Marked(s: State, key: Key, reason: string, source: string): State {
    MarkedEach(s, Equivalent(s.config, key), reason, source)
  }

  // ---- What a reload keeps ----

  predicate Session(s: State, key: Key) {
    key in s.taboo && !s.taboo[key].durable
  }

  /** A key carries a finding of this media. */
  predicate Carries(s: State, key: Key, media: Media) {
    Session(s, key) && MediaAt(s.config, key) == Some(media)
  }

  /** A snapshot of the findings. The records are walked in any order, so
      where several share a media any of them may be kept. */
  ghost predicate IsSnapshot(s: State, f: Findings) {
    && (forall media :: media in f.records <==> exists key :: Carries(s, key, media))
    && (forall media :: media in f.records ==> exists key :: Carries(s, key, media) && f.records[media] == s.taboo[key])
    && f.order == FoundOrder(s, s.order)
  }

  function FoundOrder(s: State, order: seq<Key>): seq<Media> {
    if order == [] then []
    else
      var rest, key := FoundOrder(s, order[..|order| - 1]), order[|order| - 1];
      if Session(s, key) && MediaAt(s.config, key).Some?
      then Without(rest, MediaAt(s.config, key).value) + [MediaAt(s.config, key).value]
      else rest
  }

  function ConfiguredRecords(occurrences: seq<Occurrence>, epoch: nat): map<Key, Record> {
    if occurrences == [] then map[]
    else
      var last := |occurrences| - 1;
      var rest, o := ConfiguredRecords(occurrences[..last], epoch), occurrences[last];
      if o.entry.taboo.None? then rest
      else rest[o.key := Record(o.entry.taboo.value.reason, o.entry.taboo.value.source, true, epoch)]
  }

  function ConfiguredOrder(occurrences: seq<Occurrence>): seq<Key> {
    if occurrences == [] then []
    else
      var last := |occurrences| - 1;
      ConfiguredOrder(occurrences[..last]) + if occurrences[last].entry.taboo.Some? then [occurrences[last].key] else []
  }

  function Newest(order: seq<Key>): seq<Key> {
    if |order| > STATUS_LIMIT then order[|order| - STATUS_LIMIT..] else order
  }

  /** The findings, at every occurrence of their media that isn't marked. */
  function WithFindings(
    taboo: map<Key, Record>, occurrences: seq<Occurrence>, records: map<Media, Record>, epoch: nat
  ): map<Key, Record>
  {
    if occurrences == [] then taboo
    else
      var last := |occurrences| - 1;
      var rest, o := WithFindings(taboo, occurrences[..last], records, epoch), occurrences[last];
      var media := MediaOf(o.entry);
      if media.None? || media.value !in records || o.key in rest then rest
      else rest[o.key := records[media.value].(durable := false, epoch := epoch)]
  }

  function PromotedFindings(taboo: map<Key, Record>, keys: seq<Key>, order: seq<Key>): seq<Key> {
    if keys == [] then order
    else
      var last := |keys| - 1;
      var rest := PromotedFindings(taboo, keys[..last], order);
      if keys[last] in taboo && !taboo[keys[last]].durable then Without(rest, keys[last]) + [keys[last]] else rest
  }

  function PromotedMedia(
    taboo: map<Key, Record>, occurrences: seq<Occurrence>, media: seq<Media>, order: seq<Key>
  ): seq<Key>
  {
    if media == [] then order
    else
      var last := |media| - 1;
      PromotedFindings(taboo, Pick(occurrences, media[last]), PromotedMedia(taboo, occurrences, media[..last], order))
  }

  function Reconciled(next: Config, epoch: nat, f: Findings): State {
    var occurrences := Occurrences(next);
    var taboo := WithFindings(ConfiguredRecords(occurrences, epoch), occurrences, f.records, epoch);
    var order := PromotedMedia(taboo, occurrences, f.order, Newest(ConfiguredOrder(occurrences)));
    State(next, epoch, taboo, Newest(order))
  }

  function OnlyFound(config: Config, taboo: map<Key, Record>): map<Key, Record> {
    map key | key in taboo && Lookup(config, key).Some? :: taboo[key]
  }

  function Those(order: seq<Key>, keys: set<Key>): (r: seq<Key>)
    ensures |r| <= |order|
    ensures forall k :: k in r <==> k in order && k in keys
  {
    if order == [] then []
    else
      assert forall k :: k in order <==> k == order[0] || k in order[1..];
      (if order[0] in keys then [order[0]] else []) + Those(order[1..], keys)
  }

  /** An accepted reload: the next configuration, what it marks, the findings,
      and only keys that are found in it. */
  function Reloaded(s: State, next: Config, f: Findings): State {
    var r := Reconciled(next, s.epoch + 1, f);
    var taboo := OnlyFound(next, r.taboo);
    r.(taboo := taboo, order := Those(r.order, taboo.Keys))
  }

  // ---- The service's own steps ----

  class Quarantine {
    var config: Config
    var epoch: nat
    var taboo: map<Key, Record>
    var order: seq<Key>

    function Value(): State
      reads this
    {
      State(config, epoch, taboo, order)
    }

    constructor (config: Config)
      ensures Value() == Reconciled(config, 1, Findings(map[], []))
    {
      this.config, epoch := config, 1;
      new;
      NothingFound(config);
      var found, marked := ConfiguredTaboo();
      taboo, order := found, marked;
    }

    method ConfiguredTaboo() returns (records: map<Key, Record>, newest: seq<Key>)
      ensures records == ConfiguredRecords(Occurrences(config), epoch)
      ensures newest == Newest(ConfiguredOrder(Occurrences(config)))
    {
      var occurrences := Occurrences(config);
      hide Occurrences;
      records, newest := map[], [];
      for n := 0 to |occurrences|
        invariant records == ConfiguredRecords(occurrences[..n], epoch)
        invariant newest == ConfiguredOrder(occurrences[..n])
      {
        var o := occurrences[n];
        assert occurrences[..n + 1][..n] == occurrences[..n];
        if o.entry.taboo.Some? {
          records := records[o.key := Record(o.entry.taboo.value.reason, o.entry.taboo.value.source, true, epoch)];
          newest := newest + [o.key];
        }
      }
      assert occurrences[..|occurrences|] == occurrences;
      newest := Newest(newest);
    }

    method MarkOne(key: Key, reason: string, source: string)
      modifies this
      ensures Value() == MarkedOne(old(Value()), key, reason, source)
    {
      var promote := false;
      if key in taboo {
        if !taboo[key].durable {
          taboo := taboo[key := Record(reason, source, false, epoch)];
          promote := true;
        }
      } else {
        taboo := taboo[key := Record(reason, source, false, epoch)];
        promote := true;
      }
      if !promote {
        return;
      }
      order := Without(order, key);
      if |order| == STATUS_LIMIT {
        order := order[1..];
      }
      order := order + [key];
    }

    method Mark(key: Key, reason: string, source: string)
      modifies this
      ensures Value() == Marked(old(Value()), key, reason, source)
    {
      hide MarkedOne;
      var keys := Equivalent(config, key);
      for n := 0 to |keys|
        invariant Value() == MarkedEach(old(Value()), keys[..n], reason, source)
      {
        MarkOne(keys[n], reason, source);
        assert keys[..n + 1][..n] == keys[..n];
      }
      assert keys[..|keys|] == keys;
    }

    method Snapshot() returns (f: Findings)
      ensures IsSnapshot(Value(), f)
    {
      var records: map<Media, Record> := map[];
      var left := taboo.Keys;
      while left != {}
        invariant left <= taboo.Keys
        invariant forall media :: media in records <==> exists key :: key !in left && Carries(Value(), key, media)
        invariant forall media :: media in records ==>
          exists key :: key !in left && Carries(Value(), key, media) && records[media] == taboo[key]
        decreases left
      {
        var key :| key in left;
        ghost var was, before := left, records;
        left := left - {key};
        var media := MediaAt(config, key);
        if !taboo[key].durable && media.Some? {
          records := records[media.value := taboo[key]];
        }
        OneMoreRecord(Value(), was, left, key, before, records);
      }
      var found: seq<Media> := [];
      for n := 0 to |order|
        invariant found == FoundOrder(Value(), order[..n])
      {
        assert order[..n + 1][..n] == order[..n];
        var media := MediaAt(config, order[n]);
        if order[n] in taboo && !taboo[order[n]].durable && media.Some? {
          found := Without(found, media.value) + [media.value];
        }
      }
      assert order[..|order|] == order;
      f := Findings(records, found);
    }

    method KeepFindings(occurrences: seq<Occurrence>, previous: map<Media, Record>, configured: map<Key, Record>)
      returns (records: map<Key, Record>)
      ensures records == WithFindings(configured, occurrences, previous, epoch)
    {
      records := configured;
      for n := 0 to |occurrences|
        invariant records == WithFindings(configured, occurrences[..n], previous, epoch)
      {
        assert occurrences[..n + 1][..n] == occurrences[..n];
        var o := occurrences[n];
        var media := MediaOf(o.entry);
        if media.Some? && media.value in previous && o.key !in records {
          records := records[o.key := previous[media.value].(durable := false, epoch := epoch)];
        }
      }
      assert occurrences[..|occurrences|] == occurrences;
    }

    method PromoteFindings(records: map<Key, Record>, keys: seq<Key>, marked: seq<Key>) returns (newest: seq<Key>)
      ensures newest == PromotedFindings(records, keys, marked)
    {
      newest := marked;
      for k := 0 to |keys|
        invariant newest == PromotedFindings(records, keys[..k], marked)
      {
        assert keys[..k + 1][..k] == keys[..k];
        if keys[k] in records && !records[keys[k]].durable {
          newest := Without(newest, keys[k]) + [keys[k]];
        }
      }
      assert keys[..|keys|] == keys;
    }

    method Reconcile(previous: Findings)
      modifies this`taboo, this`order
      ensures Value() == Reconciled(config, epoch, previous)
    {
      hide Occurrences, ConfiguredRecords, WithFindings, PromotedFindings, Pick, Newest;
      var occurrences := Occurrences(config);
      var records, marked := ConfiguredTaboo();
      records := KeepFindings(occurrences, previous.records, records);
      var newest := marked;
      for n := 0 to |previous.order|
        invariant newest == PromotedMedia(records, occurrences, previous.order[..n], marked)
      {
        assert previous.order[..n + 1][..n] == previous.order[..n];
        newest := PromoteFindings(records, Pick(occurrences, previous.order[n]), newest);
      }
      assert previous.order[..|previous.order|] == previous.order;
      taboo, order := records, Newest(newest);
    }

    /** A reload that a later step accepts or rejects. */
    method Reload(next: Config, accepted: bool) returns (ghost f: Findings)
      modifies this
      ensures IsSnapshot(old(Value()), f)
      ensures Value() == if accepted then Reloaded(old(Value()), next, f) else old(Value())
    {
      hide IsSnapshot, Reconciled;
      var findings := Snapshot();
      f := findings;
      var oldConfig, oldEpoch, oldTaboo, oldOrder := config, epoch, taboo, order;
      config, epoch := next, epoch + 1;
      Reconcile(findings);
      if !accepted {
        config, epoch, taboo, order := oldConfig, oldEpoch, oldTaboo, oldOrder;
        return;
      }
      taboo := OnlyFound(config, taboo);
      order := Those(order, taboo.Keys);
    }
  }

  lemma OneMoreRecord(s: State, was: set<Key>, left: set<Key>, key: Key, before: map<Media, Record>, after: map<Media, Record>)
    requires key in was && left == was - {key} && was <= s.taboo.Keys
    requires forall media :: media in before <==> exists k :: k !in was && Carries(s, k, media)
    requires forall media :: media in before ==> exists k :: k !in was && Carries(s, k, media) && before[media] == s.taboo[k]
    requires after == (var media := MediaAt(s.config, key);
      if !s.taboo[key].durable && media.Some? then before[media.value := s.taboo[key]] else before)
    ensures forall media :: media in after <==> exists k :: k !in left && Carries(s, k, media)
    ensures forall media :: media in after ==> exists k :: k !in left && Carries(s, k, media) && after[media] == s.taboo[k]
  {
    hide MediaAt;
    assert forall k :: k !in left <==> k == key || k !in was;
    forall media
      ensures media in after <==> exists k :: k !in left && Carries(s, k, media)
      ensures media in after ==> exists k :: k !in left && Carries(s, k, media) && after[media] == s.taboo[k]
    {
      if media in before {
        var k :| k !in was && Carries(s, k, media) && before[media] == s.taboo[k];
        assert k !in left;
      }
      if Carries(s, key, media) {
        assert key !in left;
        assert after[media] == s.taboo[key];
      }
    }
  }

  lemma NothingFound(config: Config)
    ensures Reconciled(config, 1, Findings(map[], [])) ==
      State(config, 1, ConfiguredRecords(Occurrences(config), 1), Newest(ConfiguredOrder(Occurrences(config))))
  {
    NoFindings(ConfiguredRecords(Occurrences(config), 1), Occurrences(config), 1);
  }

  lemma {:induction false} NoFindings(taboo: map<Key, Record>, occurrences: seq<Occurrence>, epoch: nat)
    ensures WithFindings(taboo, occurrences, map[], epoch) == taboo
  {
    if occurrences != [] {
      NoFindings(taboo, occurrences[..|occurrences| - 1], epoch);
    }
  }
}
