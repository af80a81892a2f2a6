/** The mailbox between the thread that asks for the power source and the one
    that decides with it. Each step below is one section under the mailbox's
    lock, or what the worker does between two of them; a run is any
    interleaving of them. */
module PowerMailbox {
  import opened Common
  import opened Power

  const GENERATIONS := 0x1_0000_0000_0000_0000

  datatype Mailbox = Mailbox(enabled: bool, shutdown: bool, generation: nat, sampled: nat, observation: Observation)

  const EMPTY := Mailbox(false, false, 0, 0, NOTHING)

  /** Where the worker is. */
  datatype Place =
    | NotStarted
    | Waiting
    | Opening
    | Top
    | Asking
    | Publishing
    | Listening
    | Gone

  datatype Worker = Worker(
    place: Place, generation: nat, stable: Stable, connected: bool, nextQuery: int, lastQuery: int, again: nat)

  /** What happened, beside what is held: the readings since the worker's
      last start, and those the mailbox's observation is of; the step at which
      the question under way was asked, and the last enabling or disabling;
      how many of those there were, up to now and when the worker looked. */
  datatype Past = Past(
    readings: seq<Reading>, published: seq<Reading>, asked: nat, changedAt: nat, changes: nat, saw: nat, step: nat, clock: nat)

  datatype System = System(mailbox: Mailbox, worker: Worker, past: Past)

  const IDLE := Worker(NotStarted, 0, FRESH, false, 0, 0, 0)
  const START := System(EMPTY, IDLE, Past([], [], 0, 0, 0, 0, 1, 0))

  /** The steps, with what the world answers to each. */
  datatype Step =
    | Synchronize(enabled: bool, spawned: bool)
    | Shutdown
    | WakeUp(initialized: bool)
    | Open(connected: bool, now: nat)
    | Check(now: nat)
    | Answer(source: Source, now: nat)
    | Publish
    | Hear(changed: Option<bool>, now: nat)
    | Rest(reopened: bool, now: nat)

  function Ticked(s: System): System {
    s.(past := s.past.(step := s.past.step + 1))
  }

  function Synchronized(s: System, enabled: bool, spawned: bool): System {
    if s.mailbox.enabled == enabled then s
    else
      System(
        s.mailbox.(enabled := enabled, generation := (s.mailbox.generation + 1) % GENERATIONS, observation := NOTHING),
        if enabled && s.worker.place == NotStarted && spawned then s.worker.(place := Waiting) else s.worker,
        s.past.(published := [], changedAt := s.past.step, changes := s.past.changes + 1))
  }

  function At(s: System, place: Place): System {
    s.(worker := s.worker.(place := place))
  }

  function Taken(s: System, step: Step): System {
    var w := s.worker;
    match step
    case Synchronize(enabled, spawned) => Synchronized(s, enabled, spawned)
    case Shutdown => s.(mailbox := s.mailbox.(shutdown := true))
    case WakeUp(initialized) =>
      if w.place != Waiting then s
      else if !initialized || s.mailbox.shutdown then At(s, Gone)
      else if !s.mailbox.enabled then s
      else s.(worker := w.(place := Opening, generation := s.mailbox.generation), past := s.past.(saw := s.past.changes))
    case Open(connected, now) =>
      if w.place != Opening then s
      else
        s.(worker := Worker(Top, w.generation, FRESH, connected, now, now - 1000, 0), past := s.past.(readings := [], clock := now))
    case Check(now) =>
      if w.place != Top then s
      else if s.mailbox.shutdown then At(s, Gone)
      else if !s.mailbox.enabled || s.mailbox.generation != w.generation then At(s, Waiting)
      else if now >= w.nextQuery then At(s, Asking).(past := s.past.(asked := s.past.step, clock := now))
      else At(s, Listening)
    case Answer(source, now) =>
      if w.place != Asking then s
      else
        var read := if w.connected then source else Unknown;
        s.(worker := w.(
             place := Publishing, lastQuery := now, stable := Sampled(w.stable, read, now), again := RefreshAfter(w.stable, read, now)),
           past := s.past.(readings := s.past.readings + [Reading(read, now, s.past.asked)], clock := now))
    case Publish =>
      if w.place != Publishing then s
      else
        var after := w.(place := Listening, nextQuery := w.lastQuery + w.again);
        if s.mailbox.generation == w.generation && s.mailbox.enabled then
          System(s.mailbox.(observation := w.stable.observation, sampled := w.generation), after, s.past.(published := s.past.readings))
        else s.(worker := after)
    case Hear(changed, now) =>
      if w.place != Listening || !w.connected then s
      else
        (match changed
         case Some(true) =>
           var soonest := if now < w.lastQuery + 250 then w.lastQuery + 250 else now;
           s.(worker := w.(place := Top, nextQuery := if soonest < w.nextQuery then soonest else w.nextQuery))
         case Some(false) => At(s, Top)
         case None => s.(worker := w.(place := Top, connected := false, nextQuery := now)))
    case Rest(reopened, now) =>
      if w.place != Listening || w.connected then s
      else if s.mailbox.shutdown then At(s, Gone)
      else s.(worker := w.(place := Top, connected := now >= w.nextQuery && reopened))
  }

  /** The observer, as both threads change it. */
  class PowerObserver {
    var mailbox: Mailbox
    var worker: Worker
    ghost var past: Past

    ghost function Value(): System
      reads this
    {
      System(mailbox, worker, past)
    }

    constructor ()
      ensures Value() == START
    {
      mailbox, worker, past := EMPTY, IDLE, START.past;
    }

    /** The runtime's step: enable or disable, then what is held. */
    method SynchronizeNow(enabled: bool, spawned: bool)
      modifies this
      ensures Value() == Taken(old(Value()), Synchronize(enabled, spawned))
    {
      if mailbox.enabled != enabled {
        mailbox := mailbox.(enabled := enabled);
        mailbox := mailbox.(generation := (mailbox.generation + 1) % GENERATIONS);
        mailbox := mailbox.(observation := NOTHING);
        past := past.(published := [], changedAt := past.step, changes := past.changes + 1);
        if enabled && worker.place == NotStarted && spawned {
          worker := worker.(place := Waiting);
        }
      }
    }

    /** Ahead of a reload: enabling takes effect at once; disabling waits for
        the reload to be accepted, and changes nothing. */
    method Prepare(enabled: bool, spawned: bool) returns (held: Observation)
      modifies this
      ensures Value() == if enabled then Taken(old(Value()), Synchronize(true, spawned)) else old(Value())
      ensures held == mailbox.observation
    {
      if enabled {
        SynchronizeNow(true, spawned);
      }
      held := mailbox.observation;
    }

    method Ask(source: Source, now: nat)
      requires worker.place == Asking
      modifies this
      ensures Value() == Taken(old(Value()), Answer(source, now))
    {
      var read := if worker.connected then source else Unknown;
      var again := RefreshAfter(worker.stable, read, now);
      worker := worker.(lastQuery := now, stable := Sampled(worker.stable, read, now), again := again);
      worker := worker.(place := Publishing);
      past := past.(readings := past.readings + [Reading(read, now, past.asked)], clock := now);
    }

    method Deliver()
      requires worker.place == Publishing
      modifies this
      ensures Value() == Taken(old(Value()), Publish)
    {
      if mailbox.generation == worker.generation && mailbox.enabled {
        mailbox := mailbox.(observation := worker.stable.observation);
        mailbox := mailbox.(sampled := worker.generation);
        past := past.(published := past.readings);
      }
      worker := worker.(place := Listening, nextQuery := worker.lastQuery + worker.again);
    }
  }

  // ---- What every interleaving keeps ----

  /** The worker has looked at a generation and may still publish for it. */
  predicate Active(place: Place) {
    place in {Opening, Top, Asking, Publishing, Listening}
  }

  /** All were asked for after that step. */
  ghost predicate AskedAfter(readings: seq<Reading>, step: nat) {
    forall r :: r in readings ==> step < r.asked
  }

  ghost predicate ReadSoFar(readings: seq<Reading>, clock: nat) {
    InOrder(readings) && forall r :: r in readings ==> r.at <= clock
  }

  ghost predicate WorkerSound(s: System) {
    && s.past.saw <= s.past.changes
    && (Active(s.worker.place) ==> s.worker.generation == s.past.saw % GENERATIONS)
    && (Active(s.worker.place) && s.past.saw == s.past.changes && s.worker.place != Opening ==>
          AskedAfter(s.past.readings, s.past.changedAt))
    && (s.worker.place == Asking && s.past.saw == s.past.changes ==> s.past.changedAt < s.past.asked)
    && (Active(s.worker.place) && s.worker.place != Opening ==> s.worker.stable == After(s.past.readings))
    && (Active(s.worker.place) && s.worker.place != Opening ==> ReadSoFar(s.past.readings, s.past.clock))
  }

  ghost predicate MailboxSound(s: System) {
    && s.past.changedAt < s.past.step
    && s.mailbox.generation == s.past.changes % GENERATIONS
    && s.mailbox.observation == After(s.past.published).observation
    && InOrder(s.past.published) && AskedAfter(s.past.published, s.past.changedAt)
    && (s.past.published != [] ==> s.mailbox.enabled && s.mailbox.sampled == s.mailbox.generation)
  }

  ghost predicate Sound(s: System) {
    WorkerSound(s) && MailboxSound(s)
  }

  /** The clock the worker reads never goes back. */
  predicate Timely(s: System, step: Step) {
    match step
    case Open(_, now) => now >= s.past.clock
    case Check(now) => now >= s.past.clock
    case Answer(_, now) => now >= s.past.clock
    case _ => true
  }

  lemma OneMoreReading(s: System, r: Reading)
    requires ReadSoFar(s.past.readings, s.past.clock) && s.past.clock <= r.at
    ensures var more := s.past.readings + [r];
      && ReadSoFar(more, r.at)
      && After(more) == Sampled(After(s.past.readings), r.source, r.at)
      && (AskedAfter(s.past.readings, s.past.changedAt) && s.past.changedAt < r.asked ==> AskedAfter(more, s.past.changedAt))
  {
    var more := s.past.readings + [r];
    assert more[..|more| - 1] == s.past.readings;
    assert forall i :: 0 <= i < |s.past.readings| ==> s.past.readings[i] in s.past.readings;
  }

  lemma NoReadingsYet()
    ensures After([]) == FRESH && InOrder([])
    ensures forall clock: nat :: ReadSoFar([], clock)
    ensures forall step: nat :: AskedAfter([], step)
  {
  }

  lemma StepIsSound(s: System, step: Step)
    requires Sound(s) && Timely(s, step) && Taken(s, step).past.changes < GENERATIONS
    ensures Sound(Ticked(Taken(s, step)))
  {
    hide After, ReadSoFar, AskedAfter, InOrder, Sampled, RefreshAfter;
    NoReadingsYet();
    match step {
      case Answer(source, now) =>
        if s.worker.place == Asking {
          var read := if s.worker.connected then source else Unknown;
          OneMoreReading(s, Reading(read, now, s.past.asked));
        }
      case Check(now) => LaterClock(s.past.readings, s.past.clock, now);
      case Publish => SoFarInOrder(s.past.readings, s.past.clock);
      case _ =>
    }
  }

  lemma LaterClock(readings: seq<Reading>, clock: nat, now: nat)
    requires clock <= now
    ensures ReadSoFar(readings, clock) ==> ReadSoFar(readings, now)
  {
  }

  lemma SoFarInOrder(readings: seq<Reading>, clock: nat)
    ensures ReadSoFar(readings, clock) ==> InOrder(readings)
  {
  }

  function Run(steps: seq<Step>): System {
    if steps == [] then START else Ticked(Taken(Run(steps[..|steps| - 1]), steps[|steps| - 1]))
  }

  ghost predicate TimelyRun(steps: seq<Step>) {
    steps != [] ==> TimelyRun(steps[..|steps| - 1]) && Timely(Run(steps[..|steps| - 1]), steps[|steps| - 1])
  }

  lemma ChangesGrow(s: System, step: Step)
    ensures s.past.changes <= Taken(s, step).past.changes
  {
  }

  lemma {:induction false} EveryRunIsSound(steps: seq<Step>)
    requires TimelyRun(steps) && Run(steps).past.changes < GENERATIONS
    ensures Sound(Run(steps))
  {
    hide Taken, Sound, Timely;
    if steps == [] {
      StartIsSound();
    } else {
      var before := Run(steps[..|steps| - 1]);
      ChangesGrow(before, steps[|steps| - 1]);
      EveryRunIsSound(steps[..|steps| - 1]);
      StepIsSound(before, steps[|steps| - 1]);
    }
  }

  lemma StartIsSound()
    ensures Sound(START)
  {
  }

  /** For every interleaving of the two threads, with fewer than 2^64 changes
      of the setting: what the mailbox holds is of readings all asked for
      after the setting last changed, and only while it is on; and it tells
      battery power exactly while those readings do. */
  lemma OnlyCurrentReadingsAreHeld(steps: seq<Step>)
    requires TimelyRun(steps) && Run(steps).past.changes < GENERATIONS
    ensures var s := Run(steps);
      && AskedAfter(s.past.published, s.past.changedAt)
      && s.mailbox.observation == After(s.past.published).observation
      && (s.mailbox.observation != NOTHING ==>
            s.past.published != [] && s.mailbox.enabled && s.mailbox.sampled == s.mailbox.generation)
      && (s.mailbox.observation.lastKnown == Battery <==> OnBattery(s.past.published))
  {
    hide Run, TimelyRun, OnBattery, RunStart, WorkerSound, AskedAfter;
    EveryRunIsSound(steps);
    BatteryIsToldUntilAcIsStable(Run(steps).past.published);
  }

  /** Between a disabling and the next enabling nothing is held, whatever the
      worker still does with an answer it waits for. */
  lemma {:induction false} NothingIsHeldWhileDisabled(steps: seq<Step>, after: seq<Step>)
    requires TimelyRun(steps + after) && Run(steps + after).past.changes < GENERATIONS
    requires !Run(steps).mailbox.enabled && forall step :: step in after ==> !(step.Synchronize? && step.enabled)
    ensures Run(steps + after).mailbox.observation == NOTHING && !Run(steps + after).mailbox.enabled
    decreases |after|
  {
    hide Sound, Timely;
    if after == [] {
      assert steps + after == steps;
    } else {
      var last := |after| - 1;
      assert (steps + after)[..|steps + after| - 1] == steps + after[..last];
      var before := Run(steps + after[..last]);
      ChangesGrow(before, after[last]);
      NothingIsHeldWhileDisabled(steps, after[..last]);
      assert after[last] in after;
      StaysDisabled(before, after[last]);
    }
    OnlyCurrentReadingsAreHeld(steps + after);
  }

  lemma StaysDisabled(s: System, step: Step)
    requires !s.mailbox.enabled && !(step.Synchronize? && step.enabled)
    ensures !Taken(s, step).mailbox.enabled
  {
  }
}
