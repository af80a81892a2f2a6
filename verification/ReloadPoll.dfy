/** When the service loads its document again. What the document and its
    overrides hold is given over time, so any replacement may fall between any
    two looks at them; every look of the service has a time of its own. */
module ReloadPoll {
  import opened Common

  /** What a file is at a moment: which generation, or that it is absent. A
      generation's fingerprint is taken to be its own. */
  type Version = Option<nat>

  datatype Files = Files(document: nat -> Version, overrides: nat -> Version, valid: nat -> bool)

  datatype Fingerprint = Fingerprint(document: Version, overrides: Version)

  /** What a load read; the overrides only after a document that decodes. */
  datatype Load = Load(document: Version, overrides: Option<Version>)

  /** When a step looks: the two fingerprints, then the two reads. */
  datatype Times = Times(documentSeen: nat, overridesSeen: nat, documentRead: nat, overridesRead: nat)

  predicate Ordered(now: nat, t: Times) {
    now <= t.documentSeen <= t.overridesSeen <= t.documentRead <= t.overridesRead
  }

  function Captured(files: Files, t: Times): Fingerprint {
    Fingerprint(files.document(t.documentSeen), files.overrides(t.overridesSeen))
  }

  function Decodes(files: Files, document: Version): bool {
    document.Some? && files.valid(document.value)
  }

  function Read(files: Files, t: Times): Load {
    var document := files.document(t.documentRead);
    Load(document, if Decodes(files, document) then Some(files.overrides(t.overridesRead)) else None)
  }

  /** A generation once replaced or removed doesn't come back. */
  ghost predicate NeverRepeats(file: nat -> Version) {
    forall a: nat, b: nat, c: nat :: a <= b <= c && file(a).Some? && file(a) == file(c) ==> file(b) == file(a)
  }

  datatype Event =
      /** A client's request: a `reload`, with an argument or without, or
          another verb. */
    | Serve(reload: bool, argument: bool, at: Times)
    | Poll(at: Times)

  /** What the loop keeps: the fingerprint it takes as loaded, and the last
      load; and when their parts were looked at. */
  datatype State = State(known: Fingerprint, load: Load, at: Times)

  /** The first load: the fingerprint is taken before the read. */
  function Started(files: Files, at: Times): State {
    State(Captured(files, at), Read(files, at), at)
  }

  function Loaded(s: State, files: Files, at: Times): State {
    State(Captured(files, at), Read(files, at), at)
  }

  function Finds(s: State, files: Files, at: Times): bool {
    var current := Captured(files, at);
    current.document.Some? && current != s.known
  }

  function Stepped(s: State, files: Files, event: Event): State {
    match event
    case Serve(reload, argument, at) =>
      if !reload then s
      else if argument then s.(known := Captured(files, at))
      else Loaded(s, files, at)
    case Poll(at) =>
      if Finds(s, files, at) then Loaded(s, files, at) else s
  }

  /** The service's loop, with what its looks find. */
  class Watcher {
    var known: Fingerprint
    var load: Load
    ghost var at: Times

    ghost function Value(): State
      reads this
    {
      State(known, load, at)
    }

    constructor (files: Files, times: Times)
      ensures Value() == Started(files, times)
    {
      known := Captured(files, times);
      load := Read(files, times);
      at := times;
    }

    /** One accepted request; its fingerprint is taken before it is served. */
    method Accept(files: Files, reload: bool, argument: bool, times: Times)
      modifies this
      ensures Value() == Stepped(old(Value()), files, Serve(reload, argument, times))
    {
      var observed := Captured(files, times);
      if reload && !argument {
        load := Read(files, times);
        at := times;
      }
      if reload {
        known := observed;
      }
    }

    method Look(files: Files, times: Times)
      modifies this
      ensures Value() == Stepped(old(Value()), files, Poll(times))
    {
      var current := Captured(files, times);
      if current.document.Some? && current != known {
        load := Read(files, times);
        at := times;
        known := current;
      }
    }
  }

  // ---- Every run ----

  function Run(files: Files, first: Times, events: seq<Event>): State {
    if events == [] then Started(files, first)
    else Stepped(Run(files, first, events[..|events| - 1]), files, events[|events| - 1])
  }

  function End(first: Times, events: seq<Event>): nat {
    if events == [] then first.overridesRead else events[|events| - 1].at.overridesRead
  }

  ghost predicate InTime(first: Times, events: seq<Event>) {
    if events == [] then Ordered(0, first)
    else
      var before := events[..|events| - 1];
      InTime(first, before) && Ordered(End(first, before), events[|events| - 1].at)
  }

  /** No `reload` came with an argument. */
  ghost predicate Plain(events: seq<Event>) {
    forall e :: e in events ==> e.Serve? && e.reload ==> !e.argument
  }

  /** The known fingerprint was taken before the last load's reads. */
  ghost predicate TakenBeforeRead(s: State, files: Files, now: nat) {
    && Ordered(0, s.at) && s.at.overridesRead <= now
    && s.known == Captured(files, s.at) && s.load == Read(files, s.at)
  }

  lemma {:induction false} EveryRunTakesItBefore(files: Files, first: Times, events: seq<Event>)
    requires InTime(first, events) && Plain(events)
    ensures TakenBeforeRead(Run(files, first, events), files, End(first, events))
  {
    if events != [] {
      var before := events[..|events| - 1];
      assert events[|events| - 1] in events;
      assert Plain(before);
      EveryRunTakesItBefore(files, first, before);
    }
  }

  /** A poll takes the document for loaded: it found one, and no change. */
  predicate Skips(s: State, files: Files, at: Times) {
    Captured(files, at) == s.known
  }

  /** Whenever a poll finds no change, the last load read exactly what is
      there: the document it finds, and the overrides, where it finds any. */
  lemma NothingIsLost(files: Files, first: Times, events: seq<Event>, poll: Times)
    requires InTime(first, events) && Plain(events) && Ordered(End(first, events), poll)
    requires NeverRepeats(files.document) && NeverRepeats(files.overrides)
    requires Skips(Run(files, first, events), files, poll)
    ensures var load, found := Run(files, first, events).load, Captured(files, poll);
      && (found.document.Some? ==> load.document == found.document && (load.overrides.Some? <==> Decodes(files, found.document)))
      && (found.overrides.Some? && load.overrides.Some? ==> load.overrides == Some(found.overrides))
  {
    EveryRunTakesItBefore(files, first, events);
    var at := Run(files, first, events).at;
    BetweenTwoSights(files.document, at.documentSeen, at.documentRead, poll.documentSeen);
    BetweenTwoSights(files.overrides, at.overridesSeen, at.overridesRead, poll.overridesSeen);
  }

  lemma BetweenTwoSights(file: nat -> Version, seen: nat, read: nat, again: nat)
    requires NeverRepeats(file) && seen <= read <= again && file(seen) == file(again)
    ensures file(seen).Some? ==> file(read) == file(again)
  {
  }

  /** Nothing is replaced from a moment to another. */
  ghost predicate Quiet(files: Files, from: nat, end: nat) {
    forall t: nat :: from <= t <= end ==> files.document(t) == files.document(from) && files.overrides(t) == files.overrides(from)
  }

  /** After a poll of files that are left alone meanwhile, the last load is of
      them, when there is a document, and overrides or none ever seen. */
  lemma AQuietPollSettles(files: Files, first: Times, events: seq<Event>, poll: Times)
    requires InTime(first, events) && Plain(events) && Ordered(End(first, events), poll)
    requires NeverRepeats(files.document) && NeverRepeats(files.overrides)
    requires Quiet(files, poll.documentSeen, poll.overridesRead) && files.document(poll.documentSeen).Some?
    ensures var s, now := Run(files, first, events + [Poll(poll)]), poll.documentSeen;
      && s.load.document == files.document(now)
      && (s.load.overrides.Some? <==> Decodes(files, files.document(now)))
      && (s.load.overrides.Some? && files.overrides(now).Some? ==> s.load.overrides == Some(files.overrides(now)))
  {
    assert (events + [Poll(poll)])[..|events|] == events;
    var s := Run(files, first, events);
    assert files.overrides(poll.overridesSeen) == files.overrides(poll.documentSeen);
    assert files.overrides(poll.overridesRead) == files.overrides(poll.documentSeen);
    assert files.document(poll.documentRead) == files.document(poll.documentSeen);
    if !Finds(s, files, poll) {
      NothingIsLost(files, first, events, poll);
    }
  }

  // ---- Absent overrides ----

  /** The looks that can be the last load's: the last reload asked for, or else
      the first load, and every poll since. */
  function LastLoads(first: Times, events: seq<Event>): seq<Times> {
    if events == [] then [first]
    else
      var before, last := LastLoads(first, events[..|events| - 1]), events[|events| - 1];
      if last.Serve? && last.reload then [last.at]
      else if last.Poll? then before + [last.at]
      else before
  }

  /** Each step looks later than all before it. */
  ghost predicate Later(first: Times, events: seq<Event>) {
    if events == [] then true
    else Later(first, events[..|events| - 1]) && End(first, events[..|events| - 1]) < events[|events| - 1].at.documentSeen
  }

  lemma {:induction false} LastLoadIsOne(files: Files, first: Times, events: seq<Event>)
    requires Plain(events)
    ensures Run(files, first, events).at in LastLoads(first, events)
  {
    if events != [] {
      assert events[|events| - 1] in events;
      assert Plain(events[..|events| - 1]);
      LastLoadIsOne(files, first, events[..|events| - 1]);
    }
  }

  /** A history in which a load finds a new document, and overrides only just
      when it reads them. */
  function Glimpse(load: Times): Files {
    Files(
      (t: nat) => if t < load.documentSeen then Some(0) else Some(1),
      (t: nat) => if t == load.overridesRead then Some(1) else None,
      (v: nat) => true)
  }

  /** Before that load the service knows the old document, and after it takes
      the overrides for loaded, though it knows none. */
  lemma {:induction false} GlimpseIsLoaded(load: Times, first: Times, events: seq<Event>)
    requires InTime(first, events) && Later(first, events) && Plain(events)
    requires load.documentSeen <= load.overridesSeen < load.overridesRead && load.documentSeen <= load.documentRead
    ensures var s := Run(Glimpse(load), first, events);
      && (End(first, events) < load.documentSeen ==> s.known == Fingerprint(Some(0), None))
      && (load in LastLoads(first, events) ==>
            && load.overridesRead <= End(first, events)
            && s == State(Fingerprint(Some(1), None), Load(Some(1), Some(Some(1))), load))
    decreases |events|
  {
    if events != [] {
      var before, last := events[..|events| - 1], events[|events| - 1];
      assert last in events;
      assert Plain(before);
      GlimpseIsLoaded(load, first, before);
    }
  }

  ghost predicate LoadIsFound(files: Files, s: State, poll: Times) {
    var found := Captured(files, poll);
    && (found.document.Some? ==> s.load.document == found.document)
    && (s.load.overrides.Some? ==> s.load.overrides == Some(found.overrides))
  }

  /** For some history a poll finds no change, and yet the last load read
      something else. */
  ghost predicate MayLose(first: Times, events: seq<Event>, poll: Times) {
    exists files :: Loses(files, first, events, poll)
  }

  ghost predicate Loses(files: Files, first: Times, events: seq<Event>, poll: Times) {
    && NeverRepeats(files.document) && NeverRepeats(files.overrides)
    && Skips(Run(files, first, events), files, poll)
    && !LoadIsFound(files, Run(files, first, events), poll)
  }

  /** Absence alone comes back. A run can lose overrides exactly when some look
      that can be the last load's leaves a gap between seeing and reading them:
      they appear in it and are gone by the poll. */
  lemma OnlyAGapLoses(first: Times, events: seq<Event>, poll: Times)
    requires InTime(first, events) && Later(first, events) && Plain(events)
    requires End(first, events) < poll.documentSeen <= poll.overridesSeen <= poll.documentRead <= poll.overridesRead
    ensures MayLose(first, events, poll) <==> exists load :: load in LastLoads(first, events) && load.overridesSeen < load.overridesRead
  {
    hide Run, InTime, Later, LastLoads;
    forall files | Loses(files, first, events, poll)
      ensures exists load :: load in LastLoads(first, events) && load.overridesSeen < load.overridesRead
    {
      EveryRunTakesItBefore(files, first, events);
      NothingIsLost(files, first, events, poll);
      LastLoadIsOne(files, first, events);
      assert Run(files, first, events).at in LastLoads(first, events);
    }
    if load :| load in LastLoads(first, events) && load.overridesSeen < load.overridesRead {
      AGapLoses(first, events, poll, load);
    }
  }

  lemma AGapLoses(first: Times, events: seq<Event>, poll: Times, load: Times)
    requires InTime(first, events) && Later(first, events) && Plain(events)
    requires End(first, events) < poll.documentSeen <= poll.overridesSeen <= poll.documentRead <= poll.overridesRead
    requires load in LastLoads(first, events) && load.overridesSeen < load.overridesRead
    ensures MayLose(first, events, poll)
  {
    hide Run, InTime, Later, LastLoads;
    LoadsAreOrdered(first, events, load);
    GlimpseIsLoaded(load, first, events);
    var files := Glimpse(load);
    assert NeverRepeats(files.document) && NeverRepeats(files.overrides);
    assert Captured(files, poll) == Fingerprint(Some(1), None);
    assert Loses(files, first, events, poll);
  }

  lemma {:induction false} LoadsAreOrdered(first: Times, events: seq<Event>, load: Times)
    requires InTime(first, events) && load in LastLoads(first, events)
    ensures Ordered(0, load) && load.overridesRead <= End(first, events)
    decreases |events|
  {
    if events != [] {
      var before, last := events[..|events| - 1], events[|events| - 1];
      if load in LastLoads(first, before) {
        LoadsAreOrdered(first, before, load);
      }
    }
  }

  /** A `reload` with an argument is refused, and yet the document it finds is
      taken for loaded: no poll loads it. */
  lemma AnArgumentLosesADocument(first: Times, asked: Times, poll: Times)
    requires Ordered(0, first) && Ordered(first.overridesRead, asked) && Ordered(asked.overridesRead, poll)
    requires first.documentRead < asked.documentSeen
    ensures exists files: Files ::
      && NeverRepeats(files.document) && NeverRepeats(files.overrides)
      && var s := Run(files, first, [Serve(true, true, asked)]);
         && Skips(s, files, poll) && files.document(poll.documentSeen) == Some(1) && s.load.document == Some(0)
  {
    var document := (t: nat) => if t < asked.documentSeen then Some(0) else Some(1);
    var files := Files(document, (t: nat) => None, (v: nat) => true);
    assert NeverRepeats(files.document);
    var s := Run(files, first, [Serve(true, true, asked)]);
    assert [Serve(true, true, asked)][..0] == [];
    assert Run(files, first, []) == Started(files, first);
    assert s == Started(files, first).(known := Captured(files, asked));
  }
}
