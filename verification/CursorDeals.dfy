/** What a shuffled playlist plays while nobody does anything but Next and
    nothing changes what can play. */
module CursorDeals {
  import opened Common
  import opened Shuffling
  import opened Cursors
  import opened CursorRuns

  /** The cursor after `n` presses of Next; the deal the k-th would use is
      `deals(k)`. */
  function Nexts(c: Cursor, playable: Playable, deals: nat -> seq<nat>, n: nat): Cursor {
    if n == 0 then c else Forward(Nexts(c, playable, deals, n - 1), playable, true, deals(n - 1)).0
  }

  /** What is played after `from` presses, and after each of the next. */
  function Played(c: Cursor, playable: Playable, deals: nat -> seq<nat>, from: nat, count: nat): seq<Option<nat>> {
    seq(count, k requires 0 <= k < count => Current(Nexts(c, playable, deals, from + k)))
  }

  ghost predicate AreDeals(deals: nat -> seq<nat>, playable: Playable) {
    forall k :: IsDeal(deals(k), playable)
  }

  /** Just dealt: the order is the deal, its first entry is played. */
  ghost predicate JustDealt(c: Cursor, playable: Playable) {
    IsDeal(c.order, playable) && c.position == 0 && c.forward == []
  }

  /** In the middle of an order: the same order, somewhere in it. */
  predicate At(c: Cursor, order: seq<nat>, position: nat) {
    c.order == order && c.position == position && c.forward == []
  }

  function LengthOf(playable: Playable): nat {
    |Playables(playable, |playable|)|
  }

  /** Every deal is as long as there are entries that can play. */
  lemma DealLength(deal: seq<nat>, playable: Playable)
    requires IsDeal(deal, playable)
    ensures |deal| == LengthOf(playable)
  {
    var all := Playables(playable, |playable|);
    SizeOfNoRepeats(deal);
    SizeOfNoRepeats(all);
    forall i
      ensures i in deal <==> i in all
    {
    }
    assert SetOf(deal) == SetOf(all);
  }

  // ---- One press ----

  lemma NextStaysInOrder(c: Cursor, playable: Playable, deal: seq<nat>)
    requires c.position < |c.order| && c.forward == []
    requires NextPlayable(c.order, c.position + 1, playable).Some?
    ensures At(Forward(c, playable, true, deal).0, c.order, NextPlayable(c.order, c.position + 1, playable).value)
  {
  }

  lemma NextDealsAnew(c: Cursor, playable: Playable, deal: seq<nat>)
    requires c.position < |c.order| && c.forward == []
    requires NextPlayable(c.order, c.position + 1, playable).None?
    requires IsDeal(deal, playable) && |deal| > 1
    ensures var after := Forward(c, playable, true, deal).0;
            JustDealt(after, playable) && after.order[0] != c.order[c.position]
  {
    NotAgainIsDeal(deal, c.order[c.position], playable);
    SwappedIsAPermutation(deal, 0, 1);
  }

  // ---- What is left of an order is played in order ----

  lemma {:induction false} RemainingHead(order: seq<nat>, from: nat, end: nat, playable: Playable)
    requires from < end <= |order|
    ensures Remaining(order, from, end, playable) ==
      (if CanPlay(playable, order[from]) then [from] else []) + Remaining(order, from + 1, end, playable)
    decreases end
  {
    if from + 1 < end {
      RemainingHead(order, from, end - 1, playable);
    }
  }

  lemma {:induction false} RemainingNext(order: seq<nat>, from: nat, playable: Playable)
    requires from <= |order|
    ensures var remaining, next := Remaining(order, from, |order|, playable), NextPlayable(order, from, playable);
            if next.None? then remaining == []
            else remaining == [next.value] + Remaining(order, next.value + 1, |order|, playable)
    decreases |order| - from
  {
    if from < |order| {
      RemainingHead(order, from, |order|, playable);
      RemainingNext(order, from + 1, playable);
    }
  }

  /** From any place of an order, each press goes to the next of it that can
      play, until none is left. */
  lemma {:induction false} PlaysWhatRemains(c: Cursor, playable: Playable, deals: nat -> seq<nat>, from: nat, k: nat)
    requires var b := Nexts(c, playable, deals, from);
             && b.position < |b.order| && b.forward == []
             && k <= |Remaining(b.order, b.position + 1, |b.order|, playable)|
    ensures var b, r := Nexts(c, playable, deals, from), Nexts(c, playable, deals, from + k);
            var remaining := Remaining(b.order, b.position + 1, |b.order|, playable);
            && (k > 0 ==> remaining[k - 1] < |b.order|)
            && At(r, b.order, if k == 0 then b.position else remaining[k - 1])
            && Remaining(b.order, r.position + 1, |b.order|, playable) == remaining[k..]
    decreases k
  {
    hide Forward, Remaining, NextPlayable;
    if k > 0 {
      PlaysWhatRemains(c, playable, deals, from, k - 1);
      var r := Nexts(c, playable, deals, from + k - 1);
      RemainingNext(r.order, r.position + 1, playable);
      NextStaysInOrder(r, playable, deals(from + k - 1));
    }
  }

  lemma {:induction false} AllOfADealRemains(deal: seq<nat>, playable: Playable, from: nat)
    requires IsDeal(deal, playable) && from <= |deal|
    ensures Remaining(deal, from, |deal|, playable) == seq(|deal| - from, k requires k >= 0 => k + from)
    decreases |deal| - from
  {
    hide Remaining;
    if from < |deal| {
      AllOfADealRemains(deal, playable, from + 1);
      RemainingHead(deal, from, |deal|, playable);
      assert deal[from] in deal;
    } else {
      NothingRemains(deal, playable);
    }
  }

  lemma NothingRemains(deal: seq<nat>, playable: Playable)
    ensures Remaining(deal, |deal|, |deal|, playable) == []
  {
  }

  // ---- Every deal ----

  /** The presses from `from` on play a deal, entry by entry. */
  ghost predicate PlaysADeal(c: Cursor, playable: Playable, deals: nat -> seq<nat>, from: nat) {
    var deal, n := Nexts(c, playable, deals, from).order, LengthOf(playable);
    && IsDeal(deal, playable) && |deal| == n
    && forall k :: 0 <= k < n ==> Played(c, playable, deals, from, n)[k] == Some(deal[k])
  }

  lemma PlaceInDeal(c: Cursor, playable: Playable, deals: nat -> seq<nat>, from: nat, k: nat)
    requires JustDealt(Nexts(c, playable, deals, from), playable) && k < LengthOf(playable)
    ensures At(Nexts(c, playable, deals, from + k), Nexts(c, playable, deals, from).order, k)
    ensures |Nexts(c, playable, deals, from).order| == LengthOf(playable)
    ensures k == LengthOf(playable) - 1 ==>
      var b := Nexts(c, playable, deals, from);
      NextPlayable(b.order, k + 1, playable).None?
  {
    hide Forward, Remaining, NextPlayable, Nexts, LengthOf;
    var b := Nexts(c, playable, deals, from);
    DealLength(b.order, playable);
    AllOfADealRemains(b.order, playable, 1);
    PlaysWhatRemains(c, playable, deals, from, k);
    RemainingNext(b.order, k + 1, playable);
  }

  lemma DealIsPlayedOut(c: Cursor, playable: Playable, deals: nat -> seq<nat>, from: nat)
    requires JustDealt(Nexts(c, playable, deals, from), playable) && LengthOf(playable) > 1
    ensures PlaysADeal(c, playable, deals, from)
  {
    hide Nexts, LengthOf, IsDeal;
    var n := LengthOf(playable);
    PlaceInDeal(c, playable, deals, from, 0);
    forall k | 0 <= k < n
      ensures Played(c, playable, deals, from, n)[k] == Some(Nexts(c, playable, deals, from).order[k])
    {
      PlaceInDeal(c, playable, deals, from, k);
    }
  }

  /** With nothing left of its order, the next press deals. */
  lemma OrderRunsOut(c: Cursor, playable: Playable, deals: nat -> seq<nat>, n: nat)
    requires var last := Nexts(c, playable, deals, n);
             last.position < |last.order| && last.forward == []
             && NextPlayable(last.order, last.position + 1, playable).None?
    requires AreDeals(deals, playable) && LengthOf(playable) > 1
    ensures JustDealt(Nexts(c, playable, deals, n + 1), playable)
    ensures NotAgainAt(c, playable, deals, n + 1)
  {
    hide Forward, NextPlayable, Nexts, LengthOf;
    var last := Nexts(c, playable, deals, n);
    DealLength(deals(n), playable);
    NextDealsAnew(last, playable, deals(n));
    OneMoreNext(c, playable, deals, n);
    var after := Nexts(c, playable, deals, n + 1);
    DealLength(after.order, playable);
    assert Current(after) == Some(after.order[0]);
  }

  lemma AnotherDealFollows(c: Cursor, playable: Playable, deals: nat -> seq<nat>, from: nat)
    requires JustDealt(Nexts(c, playable, deals, from), playable) && AreDeals(deals, playable)
    requires LengthOf(playable) > 1
    ensures JustDealt(Nexts(c, playable, deals, from + LengthOf(playable)), playable)
    ensures NotAgainAt(c, playable, deals, from + LengthOf(playable))
  {
    hide Forward, NextPlayable, Nexts, LengthOf, IsDeal, AreDeals, JustDealt, NotAgainAt;
    var n := LengthOf(playable);
    PlaceInDeal(c, playable, deals, from, n - 1);
    OrderRunsOut(c, playable, deals, from + n - 1);
  }

  lemma OneMoreNext(c: Cursor, playable: Playable, deals: nat -> seq<nat>, n: nat)
    ensures Nexts(c, playable, deals, n + 1) == Forward(Nexts(c, playable, deals, n), playable, true, deals(n)).0
  {
  }

  /** Where the q-th deal starts. */
  function StartOf(q: nat, n: nat): nat {
    if q == 0 then 0 else StartOf(q - 1, n) + n
  }

  /** With at least two entries that can play, every deal plays each of them
      exactly once before any comes again, and starts with another than the
      one just played: for all draws, however many deals. */
  lemma {:induction false} EveryDealPlaysEachOnce(c: Cursor, playable: Playable, deals: nat -> seq<nat>, q: nat)
    requires JustDealt(c, playable) && AreDeals(deals, playable) && LengthOf(playable) > 1
    ensures JustDealt(Nexts(c, playable, deals, StartOf(q, LengthOf(playable))), playable)
    ensures PlaysADeal(c, playable, deals, StartOf(q, LengthOf(playable)))
    ensures q > 0 ==> NotAgainAt(c, playable, deals, StartOf(q, LengthOf(playable)))
    decreases q
  {
    hide Forward, LengthOf, Nexts, Played, JustDealt, PlaysADeal, NotAgainAt;
    NoPressYet(c, playable, deals);
    var n := LengthOf(playable);
    if q > 0 {
      EveryDealPlaysEachOnce(c, playable, deals, q - 1);
      AnotherDealFollows(c, playable, deals, StartOf(q - 1, n));
    }
    DealIsPlayedOut(c, playable, deals, StartOf(q, n));
  }

  /** What is played after `n` presses isn't what was played before the last. */
  ghost predicate NotAgainAt(c: Cursor, playable: Playable, deals: nat -> seq<nat>, n: nat) {
    n > 0 && Current(Nexts(c, playable, deals, n)) != Current(Nexts(c, playable, deals, n - 1))
  }

  /** Places of an order that can play, as entries. */
  function EntriesAt(order: seq<nat>, places: seq<nat>): seq<nat>
    requires forall p :: p in places ==> p < |order|
  {
    seq(|places|, k requires 0 <= k < |places| => assert places[k] in places; order[places[k]])
  }

  /** What a rebuilt cursor's first order holds to play: its current entry, if
      that can, and the others that can, in order. */
  function FirstEntries(c: Cursor, playable: Playable): seq<nat>
    requires c.order != []
  {
    (if CanPlay(playable, c.order[0]) then [c.order[0]] else [])
    + EntriesAt(c.order, Remaining(c.order, 1, |c.order|, playable))
  }

  /** The first order of a rebuilt cursor, which also holds the entries that
      can't play, perhaps the one it rests on, is played the same: each that
      can, once, then a deal. */
  lemma FirstOrderPlaysEachOnce(playable: Playable, current: nat, rest: seq<nat>, deals: nat -> seq<nat>)
    requires current < |playable| && IsRest(rest, |playable|, current)
    requires AreDeals(deals, playable) && LengthOf(playable) > 1
    ensures var c := Built(|playable|, current, true, rest);
            var others := EntriesAt(c.order, Remaining(c.order, 1, |c.order|, playable));
            var presses := |others| + 1;
            && IsDeal(FirstEntries(c, playable), playable)
            && Current(c) == Some(current)
            && (forall k :: 0 <= k < |others| ==> Played(c, playable, deals, 0, presses)[k + 1] == Some(others[k]))
            && JustDealt(Nexts(c, playable, deals, presses), playable)
            && NotAgainAt(c, playable, deals, presses)
  {
    hide Forward, Remaining, NextPlayable, Nexts, AreDeals, IsDeal, LengthOf, JustDealt, NotAgainAt, NoRepeats, IsRest;
    var c := Built(|playable|, current, true, rest);
    var places := Remaining(c.order, 1, |c.order|, playable);
    FirstEntriesAreADeal(playable, current, rest);
    NoPressYet(c, playable, deals);
    forall k | 0 <= k < |places|
      ensures Current(Nexts(c, playable, deals, 0 + (k + 1))) == Some(EntriesAt(c.order, places)[k])
    {
      PlaysWhatRemains(c, playable, deals, 0, k + 1);
    }
    PlaysWhatRemains(c, playable, deals, 0, |places|);
    var last := Nexts(c, playable, deals, |places|);
    RemainingNext(last.order, last.position + 1, playable);
    OrderRunsOut(c, playable, deals, |places|);
  }

  lemma FirstEntriesAreADeal(playable: Playable, current: nat, rest: seq<nat>)
    requires current < |playable| && IsRest(rest, |playable|, current)
    ensures IsDeal(FirstEntries(Built(|playable|, current, true, rest), playable), playable)
  {
    hide Remaining;
    var c := Built(|playable|, current, true, rest);
    BuiltIsSound(playable, current, true, rest);
    var places := Remaining(c.order, 1, |c.order|, playable);
    RemainingOnce(c.order, 1, |c.order|, playable);
    EachOnce(c, places, playable);
  }

  lemma NoPressYet(c: Cursor, playable: Playable, deals: nat -> seq<nat>)
    ensures Nexts(c, playable, deals, 0) == c
  {
  }

  lemma {:induction false} RemainingOnce(order: seq<nat>, from: nat, end: nat, playable: Playable)
    requires end <= |order|
    ensures NoRepeats(Remaining(order, from, end, playable))
    decreases end
  {
    if from < end {
      RemainingOnce(order, from, end - 1, playable);
      var rest := Remaining(order, from, end - 1, playable);
      assert end - 1 !in rest;
    }
  }

  lemma EachOnce(c: Cursor, places: seq<nat>, playable: Playable)
    requires c.order != [] && NoRepeats(c.order) && NoRepeats(places)
    requires forall i: nat :: CanPlay(playable, i) ==> i in c.order
    requires places == Remaining(c.order, 1, |c.order|, playable)
    ensures IsDeal(FirstEntries(c, playable), playable)
  {
    var order, rest := c.order, EntriesAt(c.order, places);
    assert forall p: nat :: p in places <==> 1 <= p < |order| && CanPlay(playable, order[p]);
    forall i, j | 0 <= i < j < |rest|
      ensures rest[i] != rest[j]
    {
      assert places[i] in places && places[j] in places && places[i] != places[j];
    }
    forall j | 0 <= j < |rest|
      ensures rest[j] != order[0] && CanPlay(playable, rest[j])
    {
      assert places[j] in places;
    }
    forall i: nat
      ensures i in FirstEntries(c, playable) <==> CanPlay(playable, i)
    {
      if CanPlay(playable, i) {
        var p :| 0 <= p < |order| && order[p] == i;
        if p > 0 {
          assert p in places;
          var k :| 0 <= k < |places| && places[k] == p;
          assert rest[k] == i;
        }
      }
    }
  }
}
