/** Whether the machine is on battery, as the service is told: debounced, and
    passed from the thread that asks to the one that decides. */
module Power {
  import opened Common

  datatype Source = Ac | Battery | Unknown
  datatype Observation = Observation(source: Source, lastKnown: Source)

  const NOTHING := Observation(Unknown, Unknown)
  const DEBOUNCE := 500
  const RETRY := 5_000
  const REFRESH := 3_600_000

  function Observed(o: Observation, source: Source): Observation {
    Observation(source, if source == Unknown then o.lastKnown else source)
  }

  // ---- The debounce ----

  datatype Stable = Stable(observation: Observation, acSince: Option<nat>)

  const FRESH := Stable(NOTHING, None)

  function Held(s: Stable, source: Source, now: nat): nat {
    if source == Ac && s.observation.lastKnown == Battery then
      var since := if s.acSince.Some? then s.acSince.value else now;
      var passed := if now < since then 0 else now - since;
      if DEBOUNCE < passed then 0 else DEBOUNCE - passed
    else 0
  }

  function Sampled(s: Stable, source: Source, now: nat): Stable {
    if Held(s, source, now) > 0 then s.(acSince := if s.acSince.Some? then s.acSince else Some(now))
    else Stable(Observed(s.observation, source), None)
  }

  class StablePower {
    var observation: Observation
    var acSince: Option<nat>

    function Value(): Stable
      reads this
    {
      Stable(observation, acSince)
    }

    constructor ()
      ensures Value() == FRESH
    {
      observation, acSince := NOTHING, None;
    }

    /** One reading; and after how many milliseconds to read again. */
    method Sample(source: Source, now: nat) returns (told: Observation, again: nat)
      modifies this
      ensures Value() == Sampled(old(Value()), source, now) && told == observation
      ensures again == RefreshAfter(old(Value()), source, now)
    {
      if source == Ac && observation.lastKnown == Battery {
        if acSince.None? {
          acSince := Some(now);
        }
        var since := acSince.value;
        var passed := if now < since then 0 else now - since;
        var remaining := if DEBOUNCE < passed then 0 else DEBOUNCE - passed;
        if remaining != 0 {
          return observation, remaining;
        }
      }
      acSince := None;
      observation := Observed(observation, source);
      return observation, if source == Unknown then RETRY else REFRESH;
    }
  }

  function RefreshAfter(s: Stable, source: Source, now: nat): nat {
    if Held(s, source, now) > 0 then Held(s, source, now) else if source == Unknown then RETRY else REFRESH
  }

  /** A reading: what it said, when, and at which step of the run it was asked
      for. */
  datatype Reading = Reading(source: Source, at: nat, asked: nat)

  function After(readings: seq<Reading>): Stable {
    if readings == [] then FRESH
    else
      var last := readings[|readings| - 1];
      Sampled(After(readings[..|readings| - 1]), last.source, last.at)
  }

  ghost predicate InOrder(readings: seq<Reading>) {
    forall i, j :: 0 <= i < j < |readings| ==> readings[i].at <= readings[j].at
  }

  /** Only AC was read from `i` to `j`. */
  ghost predicate AcRun(readings: seq<Reading>, i: nat, j: nat) {
    i <= j < |readings| && forall k :: i <= k <= j ==> readings[k].source == Ac
  }

  /** A battery was read, and no run of AC readings since lasted 500 ms. */
  ghost predicate OnBatterySince(readings: seq<Reading>, b: nat) {
    && b < |readings| && readings[b].source == Battery
    && forall i: nat, j: nat :: b < i && AcRun(readings, i, j) ==> readings[j].at - readings[i].at < DEBOUNCE
  }

  ghost predicate OnBattery(readings: seq<Reading>) {
    exists b :: OnBatterySince(readings, b)
  }

  /** Where the last readings that are all AC start. */
  function RunStart(readings: seq<Reading>): (i: nat)
    ensures i <= |readings|
    ensures forall k :: i <= k < |readings| ==> readings[k].source == Ac
    ensures i > 0 ==> readings[i - 1].source != Ac
  {
    if readings == [] || readings[|readings| - 1].source != Ac then |readings|
    else RunStart(readings[..|readings| - 1])
  }

  /** Battery power is told exactly while a battery was read and no run of AC
      readings since lasted 500 ms: at once, and until AC is stable. */
  lemma {:induction false} BatteryIsToldUntilAcIsStable(readings: seq<Reading>)
    requires InOrder(readings)
    ensures var s := After(readings);
      && (s.observation.lastKnown == Battery <==> OnBattery(readings))
      && (s.acSince == if s.observation.lastKnown == Battery && RunStart(readings) < |readings|
                       then Some(readings[RunStart(readings)].at) else None)
    ensures After(readings).observation.lastKnown == Unknown <==> forall r :: r in readings ==> r.source == Unknown
  {
    hide OnBattery, OnBatterySince;
    if readings == [] {
      NoReadings();
    } else {
      var last := |readings| - 1;
      var before, r := readings[..last], readings[last];
      BatteryIsToldUntilAcIsStable(before);
      assert forall x :: x in readings <==> x in before || x == r;
      match r.source {
        case Battery => BatteryRead(readings);
        case Unknown => UnknownRead(readings);
        case Ac =>
          AcRead(readings);
          assert RunStart(readings) == RunStart(before);
      }
    }
  }

  lemma NoReadings()
    ensures !OnBattery([])
  {
  }

  lemma BatteryRead(readings: seq<Reading>)
    requires readings != [] && readings[|readings| - 1].source == Battery
    ensures OnBattery(readings)
  {
    assert OnBatterySince(readings, |readings| - 1);
  }

  lemma RunsOfPrefix(readings: seq<Reading>, i: nat, j: nat)
    requires readings != [] && j < |readings| - 1
    ensures AcRun(readings, i, j) <==> AcRun(readings[..|readings| - 1], i, j)
  {
  }

  lemma UnknownRead(readings: seq<Reading>)
    requires readings != [] && readings[|readings| - 1].source == Unknown
    ensures OnBattery(readings) <==> OnBattery(readings[..|readings| - 1])
  {
    var last := |readings| - 1;
    forall b
      ensures OnBatterySince(readings, b) <==> OnBatterySince(readings[..last], b)
    {
      forall i: nat, j: nat
        ensures AcRun(readings, i, j) <==> AcRun(readings[..last], i, j)
      {
      }
    }
  }

  /** One more AC reading ends it when its run has lasted 500 ms. */
  lemma AcRead(readings: seq<Reading>)
    requires InOrder(readings) && readings != [] && readings[|readings| - 1].source == Ac
    ensures var last := |readings| - 1;
      RunStart(readings) <= last
      && (OnBattery(readings) <==> OnBattery(readings[..last]) && readings[last].at - readings[RunStart(readings)].at < DEBOUNCE)
  {
    var last, start := |readings| - 1, RunStart(readings);
    forall b
      ensures OnBatterySince(readings, b) <==>
        OnBatterySince(readings[..last], b) && readings[last].at - readings[start].at < DEBOUNCE
    {
      AcReadSince(readings, b);
    }
  }

  lemma AcReadSince(readings: seq<Reading>, b: nat)
    requires InOrder(readings) && readings != [] && readings[|readings| - 1].source == Ac
    ensures OnBatterySince(readings, b) <==>
      OnBatterySince(readings[..|readings| - 1], b)
      && readings[|readings| - 1].at - readings[RunStart(readings)].at < DEBOUNCE
  {
    hide OnBatterySince;
    if OnBatterySince(readings, b) {
      StillSince(readings, b);
    }
    if OnBatterySince(readings[..|readings| - 1], b) && readings[|readings| - 1].at - readings[RunStart(readings)].at < DEBOUNCE {
      NotYetStable(readings, b);
    }
  }

  lemma StillSince(readings: seq<Reading>, b: nat)
    requires readings != [] && readings[|readings| - 1].source == Ac && OnBatterySince(readings, b)
    ensures OnBatterySince(readings[..|readings| - 1], b)
    ensures readings[|readings| - 1].at - readings[RunStart(readings)].at < DEBOUNCE
  {
    hide RunStart;
    var last, start := |readings| - 1, RunStart(readings);
    var before := readings[..last];
    assert b < start;
    assert AcRun(readings, start, last);
    forall i: nat, j: nat | b < i && AcRun(before, i, j)
      ensures before[j].at - before[i].at < DEBOUNCE
    {
      RunsOfPrefix(readings, i, j);
    }
  }

  lemma NotYetStable(readings: seq<Reading>, b: nat)
    requires InOrder(readings) && readings != [] && readings[|readings| - 1].source == Ac
    requires OnBatterySince(readings[..|readings| - 1], b)
    requires readings[|readings| - 1].at - readings[RunStart(readings)].at < DEBOUNCE
    ensures OnBatterySince(readings, b)
  {
    hide RunStart, AcRun, InOrder;
    var last := |readings| - 1;
    forall i: nat, j: nat | b < i && AcRun(readings, i, j)
      ensures i <= j <= last && readings[j].at - readings[i].at < DEBOUNCE
    {
      InTheRun(readings, i, j);
      if j < last {
        RunsOfPrefix(readings, i, j);
        ShortRun(readings[..last], b, i, j);
      } else {
        LastRun(readings, i);
      }
    }
  }

  lemma InTheRun(readings: seq<Reading>, i: nat, j: nat)
    requires AcRun(readings, i, j)
    ensures i <= j < |readings| && (j == |readings| - 1 ==> RunStart(readings) <= i)
  {
    var start := RunStart(readings);
    assert start > 0 ==> readings[start - 1].source != Ac;
  }

  lemma ShortRun(readings: seq<Reading>, b: nat, i: nat, j: nat)
    requires OnBatterySince(readings, b) && b < i && AcRun(readings, i, j)
    ensures i <= j < |readings| && readings[j].at - readings[i].at < DEBOUNCE
  {
  }

  lemma LastRun(readings: seq<Reading>, i: nat)
    requires InOrder(readings) && RunStart(readings) <= i < |readings|
    ensures readings[RunStart(readings)].at <= readings[i].at
  {
  }

  /** While AC is held back it is read again just when it is stable: sooner
      it would still be held back, then it no longer is. */
  lemma HeldAcIsReadAgainInTime(s: Stable, now: nat, later: nat)
    requires Held(s, Ac, now) > 0 && (s.acSince.Some? ==> s.acSince.value <= now)
    ensures var again := RefreshAfter(s, Ac, now);
      && 0 < again <= DEBOUNCE
      && Sampled(Sampled(s, Ac, now), Ac, now + later).observation
         == if later < again then s.observation else Observation(Ac, Ac)
  {
  }
}
