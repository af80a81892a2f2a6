/** The greedy loop that gives left-out pieces of the display rows back to a
    reply while they fit. A piece costs bytes; as long as anything of a kind
    stays out, a flag that says so costs bytes too. */
module GiveBack {
  datatype Place = Summary(unit: nat) | Row(group: nat)

  /** One piece: its bytes, its kind (0 a rule's id, 1 a diagnostic) and where
      it is. Pieces of one kind and place come back shortest first. */
  datatype Piece = Piece(cost: nat, kind: nat, place: Place)

  ghost predicate Pieces(given: seq<Piece>) {
    forall p :: p in given ==> p.kind < 2 && p.cost > 0
  }

  /** What of `kind` is still out. */
  function OutOf(given: seq<Piece>, back: seq<bool>, kind: nat): nat
    requires |given| == |back|
  {
    if given == [] then 0
    else (if !back[0] && given[0].kind == kind then given[0].cost else 0) + OutOf(given[1..], back[1..], kind)
  }

  function StillOut(back: seq<bool>): nat {
    if back == [] then 0 else (if back[0] then 0 else 1) + StillOut(back[1..])
  }

  ghost predicate SameGroup(a: Piece, b: Piece) {
    a.kind == b.kind && a.place == b.place
  }

  /** What came back of each group is a prefix of it. */
  ghost predicate PrefixBack(given: seq<Piece>, back: seq<bool>)
    requires |given| == |back|
  {
    forall i, j :: 0 <= i < j < |given| && SameGroup(given[i], given[j]) && back[j] ==> back[i]
  }

  /** One before `index`, of its group, is still out. */
  predicate BeforeOut(given: seq<Piece>, back: seq<bool>, index: nat)
    requires |given| == |back| && index < |given|
  {
    exists j :: 0 <= j < index && !back[j] && given[j].kind == given[index].kind && given[j].place == given[index].place
  }

  function WithKind(given: seq<Piece>, back: seq<bool>, kind: nat): seq<bool>
    requires |given| == |back|
  {
    seq(|given|, i requires 0 <= i < |given| => back[i] || given[i].kind == kind)
  }

  // ---- How the sums move ----

  lemma {:induction false} OneBack(given: seq<Piece>, back: seq<bool>, i: nat, kind: nat)
    requires |given| == |back| && i < |back| && !back[i]
    ensures OutOf(given, back, kind) == OutOf(given, back[i := true], kind) + if given[i].kind == kind then given[i].cost else 0
    ensures StillOut(back) == StillOut(back[i := true]) + 1
    decreases |given|
  {
    if i == 0 {
      assert back[i := true][1..] == back[1..];
    } else {
      OneBack(given[1..], back[1..], i - 1, kind);
      assert back[i := true][1..] == back[1..][i - 1 := true];
    }
  }

  lemma {:induction false} KindBack(given: seq<Piece>, back: seq<bool>, kind: nat, other: nat)
    requires |given| == |back|
    ensures OutOf(given, WithKind(given, back, kind), kind) == 0
    ensures other != kind ==> OutOf(given, WithKind(given, back, kind), other) == OutOf(given, back, other)
    ensures StillOut(WithKind(given, back, kind)) <= StillOut(back)
    decreases |given|
  {
    if given != [] {
      KindBack(given[1..], back[1..], kind, other);
      assert WithKind(given, back, kind)[1..] == WithKind(given[1..], back[1..], kind);
    }
  }

  lemma {:induction false} KindBackMoves(given: seq<Piece>, back: seq<bool>, kind: nat, i: nat)
    requires |given| == |back| && i < |given| && !back[i] && given[i].kind == kind
    ensures StillOut(WithKind(given, back, kind)) < StillOut(back)
    decreases |given|
  {
    assert WithKind(given, back, kind)[1..] == WithKind(given[1..], back[1..], kind);
    if i == 0 {
      KindBack(given[1..], back[1..], kind, kind);
    } else {
      KindBackMoves(given[1..], back[1..], kind, i - 1);
    }
  }

  lemma {:induction false} OutCounts(given: seq<Piece>, back: seq<bool>, i: nat)
    requires |given| == |back| && i < |given| && !back[i] && Pieces(given)
    ensures OutOf(given, back, given[i].kind) >= given[i].cost > 0
    decreases |given|
  {
    assert given[i] in given;
    if i > 0 {
      assert forall p :: p in given[1..] ==> p in given;
      OutCounts(given[1..], back[1..], i - 1);
    }
  }

  // ---- The loop ----

  /** The books: `balance` is the room a reply with everything would leave
      (it may be short of room). */
  ghost predicate Books(
    given: seq<Piece>, back: seq<bool>, out: seq<nat>, flags: seq<nat>, room: int, balance: int, prices: seq<nat>
  )
  {
    && |given| == |back| && |out| == |flags| == |prices| == 2
    && out[0] == OutOf(given, back, 0) && out[1] == OutOf(given, back, 1)
    && (forall k :: 0 <= k < 2 ==> flags[k] == prices[k] || (flags[k] == 0 && out[k] == 0))
    && room == balance + out[0] + out[1] - flags[0] - flags[1]
    && room >= 0
    && PrefixBack(given, back)
  }

  /** Each flag is charged exactly while something of its kind is out. */
  ghost predicate FlagsSettled(out: seq<nat>, flags: seq<nat>)
    requires |out| == |flags| == 2
  {
    forall k :: 0 <= k < 2 ==> out[k] == 0 ==> flags[k] == 0
  }

  /** Neither `index` alone, where it is its group's next, nor its kind whole
      fits in the room. */
  ghost predicate Stuck(given: seq<Piece>, back: seq<bool>, out: seq<nat>, flags: seq<nat>, room: int, index: nat)
    requires |given| == |back| && |out| == |flags| == 2 && Pieces(given) && index < |given|
  {
    back[index] ||
    (var p := given[index];
     assert p in given;
     (BeforeOut(given, back, index) || room < p.cost) && room + flags[p.kind] < out[p.kind])
  }

  function Charged(flags: seq<nat>): nat
    requires |flags| == 2
  {
    (if flags[0] > 0 then 1 else 0) + if flags[1] > 0 then 1 else 0
  }

  lemma GiveOne(
    given: seq<Piece>, back: seq<bool>, out: seq<nat>, flags: seq<nat>, room: int, balance: int, prices: seq<nat>, i: nat
  )
    requires Pieces(given) && Books(given, back, out, flags, room, balance, prices)
    requires i < |given| && !back[i] && !BeforeOut(given, back, i) && given[i].cost <= room
    ensures given[i].kind < 2 && given[i].cost <= out[given[i].kind]
    ensures Books(given, back[i := true], out[given[i].kind := out[given[i].kind] - given[i].cost], flags,
                  room - given[i].cost, balance, prices)
    ensures StillOut(back[i := true]) < StillOut(back)
  {
    assert given[i] in given;
    OutCounts(given, back, i);
    OneBack(given, back, i, 0);
    OneBack(given, back, i, 1);
  }

  lemma GiveKind(
    given: seq<Piece>, back: seq<bool>, out: seq<nat>, flags: seq<nat>, room: int, balance: int, prices: seq<nat>, i: nat
  )
    requires Pieces(given) && Books(given, back, out, flags, room, balance, prices)
    requires i < |given| && !back[i]
    requires given[i] in given && out[given[i].kind] <= room + flags[given[i].kind]
    ensures var kind := given[i].kind;
            && Books(given, WithKind(given, back, kind), out[kind := 0], flags[kind := 0],
                     room + flags[kind] - out[kind], balance, prices)
            && StillOut(WithKind(given, back, kind)) < StillOut(back)
            && Charged(flags[kind := 0]) <= Charged(flags)
  {
    var kind := given[i].kind;
    KindBackMoves(given, back, kind, i);
    KindBack(given, back, kind, 0);
    KindBack(given, back, kind, 1);
  }

  /** Give back what fits, piece by piece or a kind whole in exchange for its
      flag, until neither moves. */
  method GiveBack(given: seq<Piece>, totals: seq<nat>, prices: seq<nat>, start: nat, ghost balance: int)
    returns (back: seq<bool>, out: seq<nat>, flags: seq<nat>, room: nat)
    requires Pieces(given)
    requires |totals| == |prices| == 2
    requires var none := seq(|given|, _ => false);
             Books(given, none, totals, prices, start, balance, prices) && FlagsSettled(totals, prices)
    ensures Books(given, back, out, flags, room, balance, prices) && FlagsSettled(out, flags)
    ensures forall index :: 0 <= index < |given| ==> Stuck(given, back, out, flags, room, index)
  {
    hide OutOf, PrefixBack, StillOut;
    back := seq(|given|, _ => false);
    room := start;
    out, flags := totals, prices;
    while true
      invariant Books(given, back, out, flags, room, balance, prices) && FlagsSettled(out, flags)
      decreases StillOut(back) + Charged(flags)
    {
      var changed := false;
      ghost var before := StillOut(back) + Charged(flags);
      for index := 0 to |given|
        invariant Books(given, back, out, flags, room, balance, prices)
        invariant StillOut(back) + Charged(flags) <= before
        invariant changed ==> StillOut(back) + Charged(flags) < before
        invariant !changed ==> FlagsSettled(out, flags)
        invariant !changed ==> forall i :: 0 <= i < index ==> Stuck(given, back, out, flags, room, i)
      {
        if !back[index] {
          assert given[index] in given;
          var cost, kind := given[index].cost, given[index].kind;
          if !BeforeOut(given, back, index) && cost <= room {
            GiveOne(given, back, out, flags, room, balance, prices, index);
            back, room, changed := back[index := true], room - cost, true;
            out := out[kind := out[kind] - cost];
          } else if out[kind] <= room + flags[kind] {
            GiveKind(given, back, out, flags, room, balance, prices, index);
            back := WithKind(given, back, kind);
            room, changed := room + flags[kind] - out[kind], true;
            out, flags := out[kind := 0], flags[kind := 0];
          }
        }
      }
      for kind := 0 to 2
        invariant Books(given, back, out, flags, room, balance, prices)
        invariant StillOut(back) + Charged(flags) <= before
        invariant changed ==> StillOut(back) + Charged(flags) < before
        invariant forall k :: 0 <= k < kind ==> out[k] == 0 ==> flags[k] == 0
        invariant !changed ==> FlagsSettled(out, flags)
        invariant !changed ==> forall i :: 0 <= i < |given| ==> Stuck(given, back, out, flags, room, i)
      {
        if out[kind] == 0 && flags[kind] > 0 {
          room := room + flags[kind];
          flags := flags[kind := 0];
          changed := true;
        }
      }
      if !changed {
        return;
      }
    }
  }
}
