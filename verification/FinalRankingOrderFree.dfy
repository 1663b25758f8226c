// A final ranking does not depend on the order its slots and pool entries are listed in.
module FinalRankingOrderFree {
  import opened Options
  import opened Sorting
  import opened FinalRankingCore
  import opened FinalRanking
  import opened FinalRankingLaws
  import opened FinalRankingMembers

  // ---- picking from a list, and its order ----

  function Gather<A, B>(xs: seq<A>, pick: A -> Option<B>): seq<B>
  {
    if xs == [] then []
    else
      var earlier := Gather(xs[..|xs| - 1], pick);
      match pick(xs[|xs| - 1])
      case None => earlier
      case Some(b) => earlier + [b]
  }

  lemma {:induction false} GatherSplits<A, B>(xs: seq<A>, ys: seq<A>, pick: A -> Option<B>)
    ensures Gather(xs + ys, pick) == Gather(xs, pick) + Gather(ys, pick)
  {
    if ys == [] {
      assert xs + ys == xs;
    } else {
      var rest := ys[..|ys| - 1];
      GatherSplits(xs, rest, pick);
      assert (xs + ys)[..|xs + ys| - 1] == xs + rest;
    }
  }

  lemma {:induction false} GatherTakesOneOut<A, B>(before: seq<A>, x: A, behind: seq<A>, pick: A -> Option<B>)
    ensures multiset(Gather(before + [x] + behind, pick)) == multiset(Gather(before + behind, pick)) + multiset(Gather([x], pick))
  {
    GatherSplits(before, behind, pick);
    GatherSplits(before + [x], behind, pick);
    GatherSplits(before, [x], pick);
  }

  lemma {:induction false} GatherForgetsOrder<A, B>(xs: seq<A>, ys: seq<A>, pick: A -> Option<B>)
    requires multiset(xs) == multiset(ys)
    ensures multiset(Gather(xs, pick)) == multiset(Gather(ys, pick))
  {
    assert |xs| == |multiset(xs)| == |multiset(ys)| == |ys|;
    if xs != [] {
      var x, rest := xs[|xs| - 1], xs[..|xs| - 1];
      assert xs == rest + [x];
      SameMultisetSameMembers(xs, ys, x);
      var k :| 0 <= k < |ys| && ys[k] == x;
      var before, behind := ys[..k], ys[k + 1..];
      assert ys == before + [x] + behind;
      WithoutOne(rest, x, before, behind);
      GatherForgetsOrder(rest, before + behind, pick);
      GatherTakesOneOut(before, x, behind, pick);
      GatherTakesOneOut(rest, x, [], pick);
      assert rest + [x] + [] == xs && rest + [] == rest;
    }
  }

  lemma {:induction false} WithoutOne<A>(rest: seq<A>, x: A, before: seq<A>, behind: seq<A>)
    requires multiset(rest + [x]) == multiset(before + [x] + behind)
    ensures multiset(rest) == multiset(before + behind)
  {
    assert multiset(rest) == multiset(rest + [x]) - multiset{x};
    assert multiset(before + behind) == multiset(before + [x] + behind) - multiset{x};
  }

  lemma {:induction false} FilterIsGather<T>(xs: seq<T>, keep: T -> bool)
    ensures Filter(xs, keep) == Gather(xs, (x: T) => if keep(x) then Some(x) else None)
  {
    if xs != [] {
      FilterIsGather(xs[..|xs| - 1], keep);
    }
  }

  lemma {:induction false} FilterForgetsOrder<T>(xs: seq<T>, ys: seq<T>, keep: T -> bool)
    requires multiset(xs) == multiset(ys)
    ensures multiset(Filter(xs, keep)) == multiset(Filter(ys, keep))
  {
    FilterIsGather(xs, keep);
    FilterIsGather(ys, keep);
    GatherForgetsOrder(xs, ys, (x: T) => if keep(x) then Some(x) else None);
  }

  function FreeLoserAt(entries: seq<Entry>, round: int): Slot -> Option<Side>
  {
    (s: Slot) => if s.round == round then FreeLoser(s, entries) else None
  }

  lemma {:induction false} LosersInIsGather(slots: seq<Slot>, entries: seq<Entry>, round: int)
    ensures LosersIn(slots, entries, round) == Gather(slots, FreeLoserAt(entries, round))
  {
    if slots != [] {
      LosersInIsGather(slots[..|slots| - 1], entries, round);
    }
  }

  function WinnerAt(): Slot -> Option<Side>
  {
    (s: Slot) => if WinnerLoser(s).Some? then Some(WinnerLoser(s).value.winner) else None
  }

  lemma {:induction false} WinnersIsGather(slots: seq<Slot>)
    ensures Winners(slots) == Gather(slots, WinnerAt())
  {
    if slots != [] {
      WinnersIsGather(slots[..|slots| - 1]);
    }
  }

  // ---- who may tie ----

  /** A side that stands in some slot or comes from the pools. */
  predicate Fights(slots: seq<Slot>, pools: seq<PoolEntry>, side: Side)
  {
    || (exists s :: s in slots && WinnerLoser(s).Some? && (WinnerLoser(s).value.winner == side || WinnerLoser(s).value.loser == side))
    || (exists e :: e in pools && SideOfPool(e) == side)
  }

  /** No two fighters are level on pool score and name. */
  ghost predicate NoFightersTie(ctx: Context, slots: seq<Slot>, pools: seq<PoolEntry>)
  {
    forall x, y :: Fights(slots, pools, x) && Fights(slots, pools, y) && !ScoresBefore(ctx, x, y) && !ScoresBefore(ctx, y, x) ==> x == y
  }

  /** Some sides that all fight sort the same way whatever order they come in. */
  lemma {:induction false} FightersSortTheSame(ctx: Context, slots: seq<Slot>, pools: seq<PoolEntry>, a: seq<Side>, b: seq<Side>)
    requires NoFightersTie(ctx, slots, pools) && multiset(a) == multiset(b)
    requires forall x :: x in a ==> Fights(slots, pools, x)
    ensures SortBy(a, ByPoolScore(ctx)) == SortBy(b, ByPoolScore(ctx))
  {
    ByPoolScoreIsOrder(ctx);
    assert NoTies(a, ByPoolScore(ctx));
    SortForgetsOrder(a, b, ByPoolScore(ctx));
  }

  lemma {:induction false} GatherIsOf<A, B>(xs: seq<A>, pick: A -> Option<B>, b: B)
    requires b in Gather(xs, pick)
    ensures exists x :: x in xs && pick(x) == Some(b)
  {
    var rest, x := xs[..|xs| - 1], xs[|xs| - 1];
    assert x in xs;
    if pick(x) != Some(b) {
      GatherIsOf(rest, pick, b);
    }
  }

  lemma {:induction false} GroupSortsTheSame(ctx: Context, all: seq<Slot>, pools: seq<PoolEntry>, slots: seq<Slot>, others: seq<Slot>,
                                             entries: seq<Entry>, round: int)
    requires NoFightersTie(ctx, all, pools) && multiset(slots) == multiset(others)
    requires forall s :: s in slots ==> s in all
    ensures SortBy(LosersIn(slots, entries, round), ByPoolScore(ctx)) == SortBy(LosersIn(others, entries, round), ByPoolScore(ctx))
    ensures LosersIn(slots, entries, round) != [] <==> LosersIn(others, entries, round) != []
  {
    var pick := FreeLoserAt(entries, round);
    var a, b := LosersIn(slots, entries, round), LosersIn(others, entries, round);
    LosersInIsGather(slots, entries, round);
    LosersInIsGather(others, entries, round);
    GatherForgetsOrder(slots, others, pick);
    assert |a| == |multiset(a)| == |multiset(b)| == |b|;
    forall x | x in a
      ensures Fights(all, pools, x)
    {
      GatherIsOf(slots, pick, x);
    }
    FightersSortTheSame(ctx, all, pools, a, b);
  }

  lemma {:induction false} WinnersSortTheSame(ctx: Context, all: seq<Slot>, pools: seq<PoolEntry>, slots: seq<Slot>, others: seq<Slot>)
    requires NoFightersTie(ctx, all, pools) && multiset(slots) == multiset(others)
    requires forall s :: s in slots ==> s in all
    ensures SortBy(Winners(slots), ByPoolScore(ctx)) == SortBy(Winners(others), ByPoolScore(ctx))
  {
    WinnersIsGather(slots);
    WinnersIsGather(others);
    GatherForgetsOrder(slots, others, WinnerAt());
    forall x | x in Winners(slots)
      ensures Fights(all, pools, x)
    {
      GatherIsOf(slots, WinnerAt(), x);
    }
    FightersSortTheSame(ctx, all, pools, Winners(slots), Winners(others));
  }

  // ---- rounds ----

  lemma {:induction false} TopIsShared(a: seq<int>, b: seq<int>)
    requires Descending(a) && Descending(b) && a != [] && b != []
    requires forall x :: x in a <==> x in b
    ensures a[0] == b[0]
  {
    assert a[0] in a && b[0] in b;
    var i :| 0 <= i < |b| && b[i] == a[0];
    var j :| 0 <= j < |a| && a[j] == b[0];
  }

  lemma {:induction false} RestOfDescending(a: seq<int>, x: int)
    requires Descending(a) && a != []
    ensures Descending(a[1..])
    ensures x in a[1..] <==> x in a && x != a[0]
  {
    assert a == [a[0]] + a[1..];
    if x in a[1..] {
      var k :| 0 <= k < |a[1..]| && a[1..][k] == x;
      assert a[0] > a[k + 1];
    }
  }

  lemma {:induction false} SameMembersBothEmpty(a: seq<int>, b: seq<int>)
    requires forall x :: x in a <==> x in b
    ensures a == [] <==> b == []
  {
    if a != [] {
      var x := a[0];
      assert x in a && x in b;
    }
    if b != [] {
      var x := b[0];
      assert x in b && x in a;
    }
  }

  lemma {:induction false} DescendingIsUnique(a: seq<int>, b: seq<int>)
    requires Descending(a) && Descending(b)
    requires forall x :: x in a <==> x in b
    ensures a == b
  {
    SameMembersBothEmpty(a, b);
    if a != [] {
      TopIsShared(a, b);
      forall x
        ensures x in a[1..] <==> x in b[1..]
        ensures Descending(a[1..]) && Descending(b[1..])
      {
        RestOfDescending(a, x);
        RestOfDescending(b, x);
      }
      DescendingIsUnique(a[1..], b[1..]);
      assert a == [a[0]] + a[1..] && b == [b[0]] + b[1..];
    }
  }

  lemma {:induction false} PushRoundsTheSame(ctx: Context, entries: seq<Entry>, rounds: seq<int>, group: int -> seq<Side>,
                                             other: int -> seq<Side>, exitOf: int -> Exit, podiumKinds: bool)
    requires forall round :: SortBy(group(round), ByPoolScore(ctx)) == SortBy(other(round), ByPoolScore(ctx))
    ensures PushRounds(ctx, entries, rounds, group, exitOf, podiumKinds)
            == PushRounds(ctx, entries, rounds, other, exitOf, podiumKinds)
  {
    if rounds != [] {
      PushRoundsTheSame(ctx, entries, rounds[..|rounds| - 1], group, other, exitOf, podiumKinds);
    }
  }

  lemma {:induction false} LosersForgetOrder(ctx: Context, all: seq<Slot>, pools: seq<PoolEntry>, entries: seq<Entry>,
                                             slots: seq<Slot>, others: seq<Slot>, exitOf: int -> Exit, podiumKinds: bool)
    requires NoFightersTie(ctx, all, pools) && multiset(slots) == multiset(others)
    requires forall s :: s in slots ==> s in all
    ensures PushLosers(ctx, entries, slots, exitOf, podiumKinds) == PushLosers(ctx, entries, others, exitOf, podiumKinds)
  {
    var group, other := round => LosersIn(slots, entries, round), round => LosersIn(others, entries, round);
    var a, b := SortBy(LoserRounds(slots, entries), Deeper), SortBy(LoserRounds(others, entries), Deeper);
    LoserRoundsAreDistinct(slots, entries);
    LoserRoundsAreDistinct(others, entries);
    SortedRoundsDescend(LoserRounds(slots, entries));
    SortedRoundsDescend(LoserRounds(others, entries));
    SortKeepsMembers(LoserRounds(slots, entries), Deeper);
    SortKeepsMembers(LoserRounds(others, entries), Deeper);
    forall round
      ensures round in a <==> round in b
      ensures SortBy(group(round), ByPoolScore(ctx)) == SortBy(other(round), ByPoolScore(ctx))
    {
      GroupSortsTheSame(ctx, all, pools, slots, others, entries, round);
      NoGroupNoLosers(slots, entries, round);
      NoGroupNoLosers(others, entries, round);
    }
    DescendingIsUnique(a, b);
    PushRoundsTheSame(ctx, entries, a, group, other, exitOf, podiumKinds);
  }

  // ---- finding a slot ----

  ghost predicate AtMostOne(slots: seq<Slot>, wanted: Slot -> bool)
  {
    forall a, b :: a in slots && b in slots && wanted(a) && wanted(b) ==> a == b
  }

  lemma {:induction false} FindForgetsOrder(slots: seq<Slot>, others: seq<Slot>, wanted: Slot -> bool)
    requires multiset(slots) == multiset(others) && AtMostOne(slots, wanted)
    ensures Find(slots, wanted) == Find(others, wanted)
  {
    FindFinds(slots, wanted);
    FindFinds(others, wanted);
    forall s
      ensures s in slots <==> s in others
    {
      SameMultisetSameMembers(slots, others, s);
    }
  }

  lemma {:induction false} MaxRoundIsMax(slots: seq<Slot>)
    ensures MaxRound(slots) >= 0 && forall s :: s in slots ==> s.round <= MaxRound(slots)
    ensures MaxRound(slots) == 0 || exists s :: s in slots && s.round == MaxRound(slots)
  {
    if slots != [] {
      var rest, slot := slots[..|slots| - 1], slots[|slots| - 1];
      MaxRoundIsMax(rest);
      assert slots == rest + [slot];
      assert slot in slots;
      if MaxRound(slots) != slot.round && MaxRound(slots) != 0 {
        var s :| s in rest && s.round == MaxRound(rest);
        assert s in slots;
      }
    }
  }

  lemma {:induction false} MaxRoundForgetsOrder(slots: seq<Slot>, others: seq<Slot>)
    requires multiset(slots) == multiset(others)
    ensures MaxRound(slots) == MaxRound(others)
  {
    MaxRoundIsMax(slots);
    MaxRoundIsMax(others);
    forall s
      ensures s in slots <==> s in others
    {
      SameMultisetSameMembers(slots, others, s);
    }
  }

  /** A slot is told by its id, and by its round and position. */
  ghost predicate SlotsAreDistinct(slots: seq<Slot>)
  {
    && (forall a, b :: a in slots && b in slots && a.id == b.id ==> a == b)
    && (forall a, b :: a in slots && b in slots && a.round == b.round && a.position == b.position ==> a == b)
  }

  lemma {:induction false} AtForgetsOrder(slots: seq<Slot>, others: seq<Slot>, round: int, position: int)
    requires multiset(slots) == multiset(others) && SlotsAreDistinct(slots)
    ensures At(slots, round, position) == At(others, round, position)
  {
    FindForgetsOrder(slots, others, (s: Slot) => s.round == round && s.position == position);
  }

  // ---- single elimination ----

  lemma {:induction false} BronzeForgetsOrder(slots: seq<Slot>, others: seq<Slot>, bronzeSlotId: Option<string>)
    requires multiset(slots) == multiset(others) && SlotsAreDistinct(slots)
    ensures BronzeSlot(slots, bronzeSlotId) == BronzeSlot(others, bronzeSlotId)
  {
    FindForgetsOrder(slots, others, (s: Slot) => Some(s.id) == bronzeSlotId);
    MaxRoundForgetsOrder(slots, others);
    AtForgetsOrder(slots, others, MaxRound(slots), 2);
  }

  lemma {:induction false} MainForgetsOrder(slots: seq<Slot>, others: seq<Slot>, bronze: Option<Slot>)
    requires multiset(slots) == multiset(others)
    ensures multiset(MainSlots(slots, bronze)) == multiset(MainSlots(others, bronze))
  {
    if bronze.Some? {
      var id := bronze.value.id;
      FilterForgetsOrder(slots, others, (s: Slot) => s.id != id);
    }
  }

  /** One slot of the last round can be the final: the one in position 1, or the only one. */
  ghost predicate OneFinal(main: seq<Slot>, maxRound: int)
  {
    At(main, maxRound, 1).Some? || AtMostOne(main, (s: Slot) => s.round == maxRound)
  }

  lemma {:induction false} FinalForgetsOrder(main: seq<Slot>, others: seq<Slot>, maxRound: int)
    requires multiset(main) == multiset(others) && SlotsAreDistinct(main) && OneFinal(main, maxRound)
    ensures FinalSlot(main, maxRound) == FinalSlot(others, maxRound)
  {
    AtForgetsOrder(main, others, maxRound, 1);
    if At(main, maxRound, 1).None? {
      FindForgetsOrder(main, others, (s: Slot) => s.round == maxRound);
    }
  }

  lemma {:induction false} SingleElimForgetsOrder(ctx: Context, slots: seq<Slot>, others: seq<Slot>, pools: seq<PoolEntry>,
                                                  bronzeSlotId: Option<string>)
    requires multiset(slots) == multiset(others) && SlotsAreDistinct(slots) && NoFightersTie(ctx, slots, pools)
    requires OneFinal(MainSlots(slots, BronzeSlot(slots, bronzeSlotId)), MaxRound(slots))
    ensures OrderSingleElim(ctx, slots, bronzeSlotId) == OrderSingleElim(ctx, others, bronzeSlotId)
  {
    var maxRound, bronze := MaxRound(slots), BronzeSlot(slots, bronzeSlotId);
    var main, otherMain := MainSlots(slots, bronze), MainSlots(others, bronze);
    MaxRoundForgetsOrder(slots, others);
    BronzeForgetsOrder(slots, others, bronzeSlotId);
    MainForgetsOrder(slots, others, bronze);
    MainIsOfSlots(slots, bronze);
    FinalForgetsOrder(main, otherMain, maxRound);
    var final := DecidedBy(FinalSlot(main, maxRound));
    var podium := PushPair(ctx, PushPair(ctx, [], final, Champion, RunnerUp), DecidedBy(bronze), Third, Fourth);
    FilterForgetsOrder(main, otherMain, (s: Slot) => s.round != maxRound);
    FilterIsOf(main, (s: Slot) => s.round != maxRound);
    LosersForgetOrder(ctx, slots, pools, podium, BeforeRound(main, maxRound), BeforeRound(otherMain, maxRound), PlainExit(), false);
  }

  // ---- double elimination ----

  /** The bronze match is the only slot of the last losers round. */
  ghost predicate OneBronze(slots: seq<Slot>, layout: Layout)
  {
    layout.bronzeMatch ==> AtMostOne(slots, (s: Slot) => s.round == layout.LastLbRound())
  }

  lemma {:induction false} DecidingForgetsOrder(slots: seq<Slot>, others: seq<Slot>, layout: Layout)
    requires multiset(slots) == multiset(others) && SlotsAreDistinct(slots)
    ensures DecidingSlot(slots, layout) == DecidingSlot(others, layout)
  {
    var grandFinal := layout.LastLbRound() + 1;
    AtForgetsOrder(slots, others, layout.wbRounds, 1);
    AtForgetsOrder(slots, others, grandFinal, 1);
    AtForgetsOrder(slots, others, grandFinal + 1, 1);
  }

  lemma {:induction false} FirstForgetsOrder(a: seq<Slot>, b: seq<Slot>)
    requires multiset(a) == multiset(b) && forall x, y :: x in a && y in a ==> x == y
    ensures a == [] <==> b == []
    ensures a != [] ==> a[0] == b[0]
  {
    assert |a| == |multiset(a)| == |multiset(b)| == |b|;
    if a != [] {
      SameMultisetSameMembers(a, b, b[0]);
      assert a[0] in a && b[0] in b;
    }
  }

  lemma {:induction false} PodiumForgetsOrder(ctx: Context, entries: seq<Entry>, slots: seq<Slot>, others: seq<Slot>,
                                              pools: seq<PoolEntry>, layout: Layout)
    requires multiset(slots) == multiset(others) && NoFightersTie(ctx, slots, pools) && OneBronze(slots, layout)
    ensures BronzePodium(ctx, entries, slots, layout) == BronzePodium(ctx, entries, others, layout)
  {
    var keep := (s: Slot) => s.round == layout.LastLbRound();
    var last, otherLast := LastLosersRound(slots, layout), LastLosersRound(others, layout);
    FilterForgetsOrder(slots, others, keep);
    FilterIsOf(slots, keep);
    WinnersSortTheSame(ctx, slots, pools, last, otherLast);
    if layout.bronzeMatch {
      forall x, y | x in last && y in last
        ensures x == y
      {
        FilterHas(slots, keep, x);
        FilterHas(slots, keep, y);
      }
      FirstForgetsOrder(last, otherLast);
    }
  }

  /** The losers of the slots a filter keeps. */
  lemma {:induction false} PartForgetsOrder(ctx: Context, entries: seq<Entry>, slots: seq<Slot>, others: seq<Slot>, pools: seq<PoolEntry>,
                                            keep: Slot -> bool, exitOf: int -> Exit, podiumKinds: bool)
    requires multiset(slots) == multiset(others) && NoFightersTie(ctx, slots, pools)
    ensures PushLosers(ctx, entries, Filter(slots, keep), exitOf, podiumKinds)
            == PushLosers(ctx, entries, Filter(others, keep), exitOf, podiumKinds)
  {
    FilterForgetsOrder(slots, others, keep);
    FilterIsOf(slots, keep);
    LosersForgetOrder(ctx, slots, pools, entries, Filter(slots, keep), Filter(others, keep), exitOf, podiumKinds);
  }

  lemma {:induction false} PlayInForgetsOrder(ctx: Context, entries: seq<Entry>, slots: seq<Slot>, others: seq<Slot>,
                                              pools: seq<PoolEntry>)
    requires multiset(slots) == multiset(others) && NoFightersTie(ctx, slots, pools)
    ensures PlayInPart(ctx, entries, slots) == PlayInPart(ctx, entries, others)
  {
    var keep := (s: Slot) => s.round == 0;
    FilterForgetsOrder(slots, others, keep);
    FilterIsOf(slots, keep);
    GroupSortsTheSame(ctx, slots, pools, PlayInSlots(slots), PlayInSlots(others), entries, 0);
  }

  lemma {:induction false} DoubleElimForgetsOrder(ctx: Context, slots: seq<Slot>, others: seq<Slot>, pools: seq<PoolEntry>,
                                                  layout: Layout, deciding: Option<Decided>)
    requires multiset(slots) == multiset(others) && NoFightersTie(ctx, slots, pools) && OneBronze(slots, layout)
    ensures DoubleElimParts(ctx, slots, layout, deciding) == DoubleElimParts(ctx, others, layout, deciding)
  {
    var title := PushPair(ctx, [], deciding, Champion, RunnerUp);
    PodiumForgetsOrder(ctx, title, slots, others, pools, layout);
    var podium := BronzePodium(ctx, title, slots, layout);
    PartForgetsOrder(ctx, podium, slots, others, pools, (s: Slot) => s.round > layout.wbRounds && s.round <= layout.LastLbRound(),
                     LosersExit(layout.wbRounds), !layout.isBronze);
    var losers := LosersPart(ctx, podium, slots, layout);
    PartForgetsOrder(ctx, losers, slots, others, pools, (s: Slot) => s.round >= 1 && s.round < layout.entryRound, WinnersExit(), false);
    PlayInForgetsOrder(ctx, WinnersPart(ctx, losers, slots, layout), slots, others, pools);
  }

  // ---- pools ----

  ghost predicate PoolsAreDistinct(pools: seq<PoolEntry>)
  {
    forall a, b :: a in pools && b in pools && a.registrationId == b.registrationId ==> a == b
  }

  lemma {:induction false} PoolScoresCome(pools: seq<PoolEntry>, id: string)
    requires id in PoolScores(pools)
    ensures exists e :: e in pools && e.registrationId == id && e.poolScore == Some(PoolScores(pools)[id])
  {
    var rest, e := pools[..|pools| - 1], pools[|pools| - 1];
    assert e in pools;
    if !(e.poolScore.Some? && e.registrationId == id) {
      PoolScoresCome(rest, id);
    }
  }

  lemma {:induction false} PoolScoresHold(pools: seq<PoolEntry>, e: PoolEntry)
    requires e in pools && e.poolScore.Some?
    ensures e.registrationId in PoolScores(pools)
  {
    var rest := pools[..|pools| - 1];
    assert pools == rest + [pools[|pools| - 1]];
    if e in rest {
      PoolScoresHold(rest, e);
    }
  }

  lemma {:induction false} PoolScoreIsShared(pools: seq<PoolEntry>, others: seq<PoolEntry>, id: string)
    requires multiset(pools) == multiset(others) && PoolsAreDistinct(pools) && id in PoolScores(pools)
    ensures id in PoolScores(others) && PoolScores(others)[id] == PoolScores(pools)[id]
  {
    PoolScoresCome(pools, id);
    var e :| e in pools && e.registrationId == id && e.poolScore == Some(PoolScores(pools)[id]);
    SameMultisetSameMembers(pools, others, e);
    PoolScoresHold(others, e);
    PoolScoresCome(others, id);
    var f :| f in others && f.registrationId == id && f.poolScore == Some(PoolScores(others)[id]);
    SameMultisetSameMembers(pools, others, f);
  }

  lemma {:induction false} PoolScoresForgetOrder(pools: seq<PoolEntry>, others: seq<PoolEntry>)
    requires multiset(pools) == multiset(others) && PoolsAreDistinct(pools)
    ensures PoolScores(pools) == PoolScores(others)
  {
    forall e
      ensures e in pools <==> e in others
    {
      SameMultisetSameMembers(pools, others, e);
    }
    assert PoolsAreDistinct(others);
    forall id
      ensures id in PoolScores(pools) <==> id in PoolScores(others)
      ensures id in PoolScores(pools) ==> PoolScores(pools)[id] == PoolScores(others)[id]
    {
      if id in PoolScores(pools) {
        PoolScoreIsShared(pools, others, id);
      }
      if id in PoolScores(others) {
        PoolScoreIsShared(others, pools, id);
      }
    }
  }

  lemma {:induction false} InBracketForgetsOrder(slots: seq<Slot>, others: seq<Slot>, id: string)
    requires multiset(slots) == multiset(others) && InBracket(slots, id)
    ensures InBracket(others, id)
  {
    var i :| 0 <= i < |slots| && (slots[i].redRegistrationId == Some(id) || slots[i].blueRegistrationId == Some(id));
    assert slots[i] in slots;
    SameMultisetSameMembers(slots, others, slots[i]);
    var k :| 0 <= k < |others| && others[k] == slots[i];
  }

  function PoolOnlyPick(slots: seq<Slot>, entries: seq<Entry>): PoolEntry -> Option<Side>
  {
    (e: PoolEntry) => if InBracket(slots, e.registrationId) || Has(entries, e.registrationId) then None else Some(SideOfPool(e))
  }

  lemma {:induction false} PoolOnlyIsGather(slots: seq<Slot>, others: seq<Slot>, pools: seq<PoolEntry>, entries: seq<Entry>)
    requires forall id :: InBracket(slots, id) <==> InBracket(others, id)
    ensures PoolOnly(others, pools, entries) == Gather(pools, PoolOnlyPick(slots, entries))
  {
    if pools != [] {
      PoolOnlyIsGather(slots, others, pools[..|pools| - 1], entries);
    }
  }

  lemma {:induction false} TailForgetsOrder(ctx: Context, slots: seq<Slot>, others: seq<Slot>, pools: seq<PoolEntry>,
                                            otherPools: seq<PoolEntry>, bracket: seq<Entry>)
    requires multiset(slots) == multiset(others) && multiset(pools) == multiset(otherPools) && NoFightersTie(ctx, slots, pools)
    ensures WithTail(ctx, slots, pools, Some(bracket)) == WithTail(ctx, others, otherPools, Some(bracket))
  {
    forall id
      ensures InBracket(slots, id) <==> InBracket(others, id)
    {
      if InBracket(slots, id) {
        InBracketForgetsOrder(slots, others, id);
      }
      if InBracket(others, id) {
        InBracketForgetsOrder(others, slots, id);
      }
    }
    var pick := PoolOnlyPick(slots, bracket);
    PoolOnlyIsGather(slots, slots, pools, bracket);
    PoolOnlyIsGather(slots, others, otherPools, bracket);
    GatherForgetsOrder(pools, otherPools, pick);
    forall x | x in PoolOnly(slots, pools, bracket)
      ensures Fights(slots, pools, x)
    {
      GatherIsOf(pools, pick, x);
    }
    FightersSortTheSame(ctx, slots, pools, PoolOnly(slots, pools, bracket), PoolOnly(others, otherPools, bracket));
  }

  // ---- the whole ranking ----

  /** Each deciding match is the only one that could be meant. */
  ghost predicate DecidersAreUnique(slots: seq<Slot>, bronzeSlotId: Option<string>, shape: Shape)
  {
    if shape.phaseType == DoubleElim then OneBronze(slots, ReadLayout(shape))
    else OneFinal(MainSlots(slots, BronzeSlot(slots, bronzeSlotId)), MaxRound(slots))
  }

  lemma {:induction false} OrderDoubleElimForgetsOrder(ctx: Context, slots: seq<Slot>, others: seq<Slot>, pools: seq<PoolEntry>,
                                                       shape: Shape)
    requires multiset(slots) == multiset(others) && SlotsAreDistinct(slots) && OneBronze(slots, ReadLayout(shape))
    requires NoFightersTie(ctx, slots, pools)
    ensures OrderDoubleElim(ctx, slots, shape) == OrderDoubleElim(ctx, others, shape)
  {
    var layout := ReadLayout(shape);
    DecidingForgetsOrder(slots, others, layout);
    DoubleElimForgetsOrder(ctx, slots, others, pools, layout, DecidedBy(DecidingSlot(slots, layout)));
  }

  lemma {:induction false} BracketForgetsOrder(ctx: Context, slots: seq<Slot>, others: seq<Slot>, pools: seq<PoolEntry>,
                                               bronzeSlotId: Option<string>, shape: Shape)
    requires multiset(slots) == multiset(others) && SlotsAreDistinct(slots) && DecidersAreUnique(slots, bronzeSlotId, shape)
    requires NoFightersTie(ctx, slots, pools)
    ensures BracketOrder(ctx, slots, bronzeSlotId, shape) == BracketOrder(ctx, others, bronzeSlotId, shape)
  {
    if shape.phaseType == DoubleElim {
      OrderDoubleElimForgetsOrder(ctx, slots, others, pools, shape);
    } else {
      SingleElimForgetsOrder(ctx, slots, others, pools, bronzeSlotId);
    }
  }

  /** Listing the slots or the pool entries in another order changes nothing. */
  lemma {:induction false} RankingForgetsOrder(slots: seq<Slot>, others: seq<Slot>, pools: seq<PoolEntry>, otherPools: seq<PoolEntry>,
                                               bronzeSlotId: Option<string>, shape: Shape, collate: string -> real)
    requires shape.phaseType != Swiss
    requires multiset(slots) == multiset(others) && multiset(pools) == multiset(otherPools)
    requires SlotsAreDistinct(slots) && PoolsAreDistinct(pools) && DecidersAreUnique(slots, bronzeSlotId, shape)
    requires NoFightersTie(Context(PoolScores(pools), collate), slots, pools)
    ensures FinalOrder(slots, pools, bronzeSlotId, shape, collate) == FinalOrder(others, otherPools, bronzeSlotId, shape, collate)
  {
    var ctx := Context(PoolScores(pools), collate);
    PoolScoresForgetOrder(pools, otherPools);
    BracketForgetsOrder(ctx, slots, others, pools, bronzeSlotId, shape);
    var bracket := BracketOrder(ctx, slots, bronzeSlotId, shape);
    if bracket.Some? {
      TailForgetsOrder(ctx, slots, others, pools, otherPools, bracket.value);
    }
  }
}
