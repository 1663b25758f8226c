// Who is in a final ranking, and where the pool-only fighters stand.
module FinalRankingMembers {
  import opened Options
  import opened Sorting
  import opened FinalRankingCore
  import opened FinalRanking
  import opened FinalRankingLaws

  // ---- who loses and wins a slot ----

  predicate Loses(slot: Slot, id: string)
  {
    WinnerLoser(slot).Some? && WinnerLoser(slot).value.loser.registrationId == id
  }

  predicate Wins(slot: Slot, id: string)
  {
    WinnerLoser(slot).Some? && WinnerLoser(slot).value.winner.registrationId == id
  }

  /** Someone loses one of these slots. */
  predicate LosesIn(slots: seq<Slot>, id: string)
  {
    exists i :: 0 <= i < |slots| && Loses(slots[i], id)
  }

  predicate WinsIn(slots: seq<Slot>, id: string)
  {
    exists i :: 0 <= i < |slots| && Wins(slots[i], id)
  }

  predicate InPools(pools: seq<PoolEntry>, id: string)
  {
    exists i :: 0 <= i < |pools| && pools[i].registrationId == id
  }

  predicate OneOf(wl: Option<Decided>, id: string)
  {
    wl.Some? && (wl.value.winner.registrationId == id || wl.value.loser.registrationId == id)
  }

  lemma {:induction false} FilterHas<T>(xs: seq<T>, keep: T -> bool, x: T)
    ensures x in Filter(xs, keep) <==> x in xs && keep(x)
  {
    if xs != [] {
      FilterHas(xs[..|xs| - 1], keep, x);
      assert xs == xs[..|xs| - 1] + [xs[|xs| - 1]];
    }
  }

  lemma {:induction false} FindFinds(slots: seq<Slot>, wanted: Slot -> bool)
    ensures Find(slots, wanted).Some? ==> Find(slots, wanted).value in slots && wanted(Find(slots, wanted).value)
    ensures Find(slots, wanted).None? ==> forall s :: s in slots ==> !wanted(s)
  {
    if slots != [] {
      FindFinds(slots[1..], wanted);
      assert slots == [slots[0]] + slots[1..];
    }
  }

  lemma {:induction false} SidesAreInBracket(slots: seq<Slot>, slot: Slot, id: string)
    requires slot in slots && OneOf(WinnerLoser(slot), id)
    ensures InBracket(slots, id)
  {
    var i :| 0 <= i < |slots| && slots[i] == slot;
    assert slots[i].redRegistrationId == Some(id) || slots[i].blueRegistrationId == Some(id);
  }

  lemma {:induction false} PartIsInBracket(slots: seq<Slot>, part: seq<Slot>, id: string)
    requires LosesIn(part, id) || WinsIn(part, id)
    requires forall s :: s in part ==> s in slots
    ensures InBracket(slots, id)
  {
    if LosesIn(part, id) {
      var i :| 0 <= i < |part| && Loses(part[i], id);
      SidesAreInBracket(slots, part[i], id);
    } else {
      var i :| 0 <= i < |part| && Wins(part[i], id);
      SidesAreInBracket(slots, part[i], id);
    }
  }

  // ---- who a part of the ranking adds ----

  lemma {:induction false} SnocHasSide(sides: seq<Side>, side: Side, id: string)
    ensures HasSide(sides + [side], id) <==> HasSide(sides, id) || side.registrationId == id
  {
    var more := sides + [side];
    if HasSide(sides, id) {
      var i :| 0 <= i < |sides| && sides[i].registrationId == id;
      assert more[i].registrationId == id;
    }
    assert more[|sides|] == side;
  }

  lemma {:induction false} SortedHasSide(sides: seq<Side>, ctx: Context, id: string)
    ensures HasSide(SortBy(sides, ByPoolScore(ctx)), id) <==> HasSide(sides, id)
  {
    var sorted := SortBy(sides, ByPoolScore(ctx));
    SortKeepsMembers(sides, ByPoolScore(ctx));
    if HasSide(sides, id) {
      var i :| 0 <= i < |sides| && sides[i].registrationId == id;
      assert sides[i] in sorted;
      var k :| 0 <= k < |sorted| && sorted[k] == sides[i];
    }
    if HasSide(sorted, id) {
      var i :| 0 <= i < |sorted| && sorted[i].registrationId == id;
      assert sorted[i] in sides;
      var k :| 0 <= k < |sides| && sides[k] == sorted[i];
    }
  }

  /** An unplaced loser of one of these slots, in this round. */
  predicate FreeIn(slots: seq<Slot>, entries: seq<Entry>, round: int, id: string)
  {
    exists i :: 0 <= i < |slots| && slots[i].round == round && Loses(slots[i], id) && !Has(entries, id)
  }

  lemma {:induction false} FreeInOneMore(slots: seq<Slot>, slot: Slot, entries: seq<Entry>, round: int, id: string)
    ensures FreeIn(slots + [slot], entries, round, id)
            <==> FreeIn(slots, entries, round, id) || (slot.round == round && Loses(slot, id) && !Has(entries, id))
  {
    var more := slots + [slot];
    if FreeIn(slots, entries, round, id) {
      var i :| 0 <= i < |slots| && slots[i].round == round && Loses(slots[i], id) && !Has(entries, id);
      assert more[i].round == round && Loses(more[i], id);
    }
    if slot.round == round && Loses(slot, id) && !Has(entries, id) {
      assert more[|slots|].round == round && Loses(more[|slots|], id);
    }
  }

  lemma {:induction false} LosersInHas(slots: seq<Slot>, entries: seq<Entry>, round: int, id: string)
    ensures HasSide(LosersIn(slots, entries, round), id) <==> FreeIn(slots, entries, round, id)
  {
    if slots != [] {
      var rest, slot := slots[..|slots| - 1], slots[|slots| - 1];
      LosersInHas(rest, entries, round, id);
      assert slots == rest + [slot];
      FreeInOneMore(rest, slot, entries, round, id);
      if FreeLoser(slot, entries).Some? && slot.round == round {
        SnocHasSide(LosersIn(rest, entries, round), FreeLoser(slot, entries).value, id);
      }
    }
  }

  predicate InGroups(rounds: seq<int>, group: int -> seq<Side>, id: string)
  {
    exists k :: 0 <= k < |rounds| && HasSide(group(rounds[k]), id)
  }

  lemma {:induction false} PushRoundsHas(ctx: Context, entries: seq<Entry>, rounds: seq<int>, group: int -> seq<Side>,
                                         exitOf: int -> Exit, podiumKinds: bool, id: string)
    ensures Has(PushRounds(ctx, entries, rounds, group, exitOf, podiumKinds), id)
            <==> Has(entries, id) || InGroups(rounds, group, id)
  {
    if rounds != [] {
      var rest, round := rounds[..|rounds| - 1], rounds[|rounds| - 1];
      PushRoundsHas(ctx, entries, rest, group, exitOf, podiumKinds, id);
      PushEachExtends(ctx, PushRounds(ctx, entries, rest, group, exitOf, podiumKinds),
                      SortBy(group(round), ByPoolScore(ctx)), exitOf(round), podiumKinds);
      SortedHasSide(group(round), ctx, id);
      if InGroups(rest, group, id) {
        var k :| 0 <= k < |rest| && HasSide(group(rest[k]), id);
        assert rounds[k] == rest[k];
      }
      if InGroups(rounds, group, id) {
        var k :| 0 <= k < |rounds| && HasSide(group(rounds[k]), id);
        assert k < |rest| ==> rest[k] == rounds[k];
      }
    }
  }

  /** The losers of some slots are placed, every one and nobody else. */
  lemma {:induction false} PushLosersHas(ctx: Context, entries: seq<Entry>, slots: seq<Slot>, exitOf: int -> Exit,
                                         podiumKinds: bool, id: string)
    ensures Has(PushLosers(ctx, entries, slots, exitOf, podiumKinds), id) <==> Has(entries, id) || LosesIn(slots, id)
  {
    var rounds := SortBy(LoserRounds(slots, entries), Deeper);
    var group := round => LosersIn(slots, entries, round);
    PushRoundsHas(ctx, entries, rounds, group, exitOf, podiumKinds, id);
    SortKeepsMembers(LoserRounds(slots, entries), Deeper);
    if LosesIn(slots, id) && !Has(entries, id) {
      var i :| 0 <= i < |slots| && Loses(slots[i], id);
      assert FreeIn(slots, entries, slots[i].round, id);
      LosersInHas(slots, entries, slots[i].round, id);
      NoGroupNoLosers(slots, entries, slots[i].round);
      assert slots[i].round in rounds;
      var k :| 0 <= k < |rounds| && rounds[k] == slots[i].round;
      assert HasSide(group(rounds[k]), id);
    }
    if InGroups(rounds, group, id) {
      var k :| 0 <= k < |rounds| && HasSide(group(rounds[k]), id);
      LosersInHas(slots, entries, rounds[k], id);
    }
  }

  lemma {:induction false} PairHas(ctx: Context, entries: seq<Entry>, wl: Option<Decided>, first: ResultKind, second: ResultKind,
                                   id: string)
    ensures Has(PushPair(ctx, entries, wl, first, second), id) <==> Has(entries, id) || OneOf(wl, id)
  {
    if wl.Some? {
      PairExtends(ctx, entries, wl.value, first, second);
      var d := wl.value;
      assert [d.winner, d.loser][0] == d.winner && [d.winner, d.loser][1] == d.loser;
      assert HasSide([d.winner, d.loser], id) <==> OneOf(wl, id);
    }
  }

  lemma {:induction false} WinnersHas(slots: seq<Slot>, id: string)
    ensures HasSide(Winners(slots), id) <==> WinsIn(slots, id)
  {
    if slots != [] {
      var rest, slot := slots[..|slots| - 1], slots[|slots| - 1];
      WinnersHas(rest, id);
      assert slots == rest + [slot];
      if WinsIn(rest, id) {
        var i :| 0 <= i < |rest| && Wins(rest[i], id);
        assert Wins(slots[i], id);
      }
      if Wins(slot, id) {
        assert Wins(slots[|rest|], id);
      }
      if WinnerLoser(slot).Some? {
        SnocHasSide(Winners(rest), WinnerLoser(slot).value.winner, id);
      }
    }
  }

  // ---- single elimination ----

  /** The members of a decided single elimination: the final's two, the bronze match's two, every earlier loser. */
  lemma {:induction false} SingleElimMembers(ctx: Context, slots: seq<Slot>, bronzeSlotId: Option<string>, id: string)
    requires OrderSingleElim(ctx, slots, bronzeSlotId).Some?
    ensures
      Has(OrderSingleElim(ctx, slots, bronzeSlotId).value, id) <==>
      || OneOf(DecidedBy(FinalSlot(MainSlots(slots, BronzeSlot(slots, bronzeSlotId)), MaxRound(slots))), id)
      || OneOf(DecidedBy(BronzeSlot(slots, bronzeSlotId)), id)
      || LosesIn(BeforeRound(MainSlots(slots, BronzeSlot(slots, bronzeSlotId)), MaxRound(slots)), id)
  {
    var maxRound, bronze := MaxRound(slots), BronzeSlot(slots, bronzeSlotId);
    var main := MainSlots(slots, bronze);
    var final := DecidedBy(FinalSlot(main, maxRound));
    var title := PushPair(ctx, [], final, Champion, RunnerUp);
    PairHas(ctx, [], final, Champion, RunnerUp, id);
    PairHas(ctx, title, DecidedBy(bronze), Third, Fourth, id);
    PushLosersHas(ctx, PushPair(ctx, title, DecidedBy(bronze), Third, Fourth), BeforeRound(main, maxRound), PlainExit(), false, id);
  }

  lemma {:induction false} MainIsOfSlots(slots: seq<Slot>, bronze: Option<Slot>)
    ensures forall s :: s in MainSlots(slots, bronze) ==> s in slots
  {
    if bronze.Some? {
      var other := bronze.value.id;
      forall s
        ensures s in MainSlots(slots, bronze) ==> s in slots
      {
        FilterHas(slots, (s: Slot) => s.id != other, s);
      }
    }
  }

  lemma {:induction false} BronzeIsOfSlots(slots: seq<Slot>, bronzeSlotId: Option<string>)
    ensures BronzeSlot(slots, bronzeSlotId).Some? ==> BronzeSlot(slots, bronzeSlotId).value in slots
  {
    FindFinds(slots, (s: Slot) => Some(s.id) == bronzeSlotId);
    var round := MaxRound(slots);
    FindFinds(slots, (s: Slot) => s.round == round && s.position == 2);
  }

  lemma {:induction false} FinalIsLast(main: seq<Slot>, maxRound: int)
    ensures FinalSlot(main, maxRound).Some? ==>
              FinalSlot(main, maxRound).value in main && FinalSlot(main, maxRound).value.round == maxRound
  {
    FindFinds(main, (s: Slot) => s.round == maxRound && s.position == 1);
    FindFinds(main, (s: Slot) => s.round == maxRound);
  }

  lemma {:induction false} SingleElimIsOfBracket(ctx: Context, slots: seq<Slot>, bronzeSlotId: Option<string>, id: string)
    requires OrderSingleElim(ctx, slots, bronzeSlotId).Some?
    requires Has(OrderSingleElim(ctx, slots, bronzeSlotId).value, id)
    ensures InBracket(slots, id)
  {
    var maxRound, bronze := MaxRound(slots), BronzeSlot(slots, bronzeSlotId);
    var main := MainSlots(slots, bronze);
    SingleElimMembers(ctx, slots, bronzeSlotId, id);
    MainIsOfSlots(slots, bronze);
    BronzeIsOfSlots(slots, bronzeSlotId);
    FinalIsLast(main, maxRound);
    if OneOf(DecidedBy(FinalSlot(main, maxRound)), id) {
      SidesAreInBracket(slots, FinalSlot(main, maxRound).value, id);
    } else if OneOf(DecidedBy(bronze), id) {
      SidesAreInBracket(slots, bronze.value, id);
    } else {
      forall s | s in BeforeRound(main, maxRound)
        ensures s in slots
      {
        FilterHas(main, (s: Slot) => s.round != maxRound, s);
      }
      PartIsInBracket(slots, BeforeRound(main, maxRound), id);
    }
  }

  /**
   * A knockout where everyone but the champion loses a main slot, and the last round holds one main
   * slot: the final.
   */
  ghost predicate DecidedKnockout(slots: seq<Slot>, bronzeSlotId: Option<string>)
  {
    var main := MainSlots(slots, BronzeSlot(slots, bronzeSlotId));
    var final := FinalSlot(main, MaxRound(slots));
    && DecidedBy(final).Some?
    && (forall s :: s in main && s.round == MaxRound(slots) ==> s == final.value)
    && (forall id :: InBracket(slots, id) ==> Wins(final.value, id) || LosesIn(main, id))
  }

  /** A decided knockout places every entrant of its bracket, and nobody else. */
  lemma {:induction false} KnockoutIsComplete(ctx: Context, slots: seq<Slot>, bronzeSlotId: Option<string>, id: string)
    requires DecidedKnockout(slots, bronzeSlotId)
    ensures OrderSingleElim(ctx, slots, bronzeSlotId).Some?
    ensures Has(OrderSingleElim(ctx, slots, bronzeSlotId).value, id) <==> InBracket(slots, id)
  {
    var maxRound, bronze := MaxRound(slots), BronzeSlot(slots, bronzeSlotId);
    var main := MainSlots(slots, bronze);
    var final := FinalSlot(main, maxRound);
    SingleElimMembers(ctx, slots, bronzeSlotId, id);
    if Has(OrderSingleElim(ctx, slots, bronzeSlotId).value, id) {
      SingleElimIsOfBracket(ctx, slots, bronzeSlotId, id);
    }
    if InBracket(slots, id) && !Wins(final.value, id) {
      var i :| 0 <= i < |main| && Loses(main[i], id);
      if main[i].round == maxRound {
        assert main[i] in main;
      } else {
        var early := BeforeRound(main, maxRound);
        FilterHas(main, (s: Slot) => s.round != maxRound, main[i]);
        var k :| 0 <= k < |early| && early[k] == main[i];
        assert Loses(early[k], id);
      }
    }
  }

  // ---- double elimination ----

  ghost predicate OnPodium(slots: seq<Slot>, layout: Layout, id: string)
  {
    var last := LastLosersRound(slots, layout);
    && layout.isBronze
    && if layout.bronzeMatch then last != [] && OneOf(WinnerLoser(last[0]), id) else WinsIn(last, id)
  }

  lemma {:induction false} PodiumHas(ctx: Context, entries: seq<Entry>, slots: seq<Slot>, layout: Layout, id: string)
    ensures Has(BronzePodium(ctx, entries, slots, layout), id) <==> Has(entries, id) || OnPodium(slots, layout, id)
  {
    var last := LastLosersRound(slots, layout);
    if layout.isBronze {
      if layout.bronzeMatch {
        PairHas(ctx, entries, if last == [] then None else WinnerLoser(last[0]), Third, Fourth, id);
      } else {
        SurvivorsExtend(ctx, entries, SortBy(Winners(last), ByPoolScore(ctx)));
        SortedHasSide(Winners(last), ctx, id);
        WinnersHas(last, id);
      }
    }
  }

  lemma {:induction false} PlayInHas(ctx: Context, entries: seq<Entry>, slots: seq<Slot>, id: string)
    ensures Has(PlayInPart(ctx, entries, slots), id) <==> Has(entries, id) || LosesIn(PlayInSlots(slots), id)
  {
    var part := PlayInSlots(slots);
    var losers := LosersIn(part, entries, 0);
    PushEachExtends(ctx, entries, SortBy(losers, ByPoolScore(ctx)), PLAY_IN_EXIT, false);
    SortedHasSide(losers, ctx, id);
    LosersInHas(part, entries, 0, id);
    if LosesIn(part, id) && !Has(entries, id) {
      var i :| 0 <= i < |part| && Loses(part[i], id);
      assert part[i] in part;
      FilterHas(slots, (s: Slot) => s.round == 0, part[i]);
      assert FreeIn(part, entries, 0, id);
    }
  }

  lemma {:induction false} WinnersPartHas(ctx: Context, entries: seq<Entry>, slots: seq<Slot>, layout: Layout, id: string)
    ensures Has(WinnersPart(ctx, entries, slots, layout), id)
            <==> Has(entries, id) || (layout.entryRound > 1 && LosesIn(PreCutoffSlots(slots, layout), id))
  {
    if layout.entryRound > 1 {
      PushLosersHas(ctx, entries, PreCutoffSlots(slots, layout), WinnersExit(), false, id);
    }
  }

  /**
   * The members of a decided double elimination: the title's two, the bronze podium, and the losers
   * of the losers bracket, of the winners rounds before the repechage, and of the play-in.
   */
  lemma {:induction false} DoubleElimMembers(ctx: Context, slots: seq<Slot>, layout: Layout, deciding: Option<Decided>, id: string)
    ensures
      Has(DoubleElimParts(ctx, slots, layout, deciding), id) <==>
      || OneOf(deciding, id)
      || OnPodium(slots, layout, id)
      || LosesIn(LosersSlots(slots, layout), id)
      || (layout.entryRound > 1 && LosesIn(PreCutoffSlots(slots, layout), id))
      || LosesIn(PlayInSlots(slots), id)
  {
    var title := PushPair(ctx, [], deciding, Champion, RunnerUp);
    PairHas(ctx, [], deciding, Champion, RunnerUp, id);
    var podium := BronzePodium(ctx, title, slots, layout);
    PodiumHas(ctx, title, slots, layout, id);
    var losers := LosersPart(ctx, podium, slots, layout);
    PushLosersHas(ctx, podium, LosersSlots(slots, layout), LosersExit(layout.wbRounds), !layout.isBronze, id);
    var winners := WinnersPart(ctx, losers, slots, layout);
    WinnersPartHas(ctx, losers, slots, layout, id);
    PlayInHas(ctx, winners, slots, id);
  }

  lemma {:induction false} FilterIsOf(slots: seq<Slot>, keep: Slot -> bool)
    ensures forall s :: s in Filter(slots, keep) ==> s in slots
  {
    forall s
      ensures s in Filter(slots, keep) ==> s in slots
    {
      FilterHas(slots, keep, s);
    }
  }

  lemma {:induction false} PodiumIsOfBracket(slots: seq<Slot>, layout: Layout, id: string)
    requires OnPodium(slots, layout, id)
    ensures InBracket(slots, id)
  {
    var last := LastLosersRound(slots, layout);
    FilterIsOf(slots, (s: Slot) => s.round == layout.LastLbRound());
    if layout.bronzeMatch {
      assert last[0] in last;
      SidesAreInBracket(slots, last[0], id);
    } else {
      PartIsInBracket(slots, last, id);
    }
  }

  lemma {:induction false} DecidingIsOfSlots(slots: seq<Slot>, layout: Layout)
    ensures DecidingSlot(slots, layout).Some? ==> DecidingSlot(slots, layout).value in slots
  {
    var lb := layout.LastLbRound();
    FindFinds(slots, (s: Slot) => s.round == layout.wbRounds && s.position == 1);
    FindFinds(slots, (s: Slot) => s.round == lb + 2 && s.position == 1);
    FindFinds(slots, (s: Slot) => s.round == lb + 1 && s.position == 1);
    assert layout.isBronze ==> DecidingSlot(slots, layout) == At(slots, layout.wbRounds, 1);
    assert lb + 1 + 1 == lb + 2;
    assert !layout.isBronze ==>
        DecidingSlot(slots, layout) == At(slots, lb + 2, 1) || DecidingSlot(slots, layout) == At(slots, lb + 1, 1);
  }

  lemma {:induction false} DoubleElimIsOfBracket(ctx: Context, slots: seq<Slot>, layout: Layout, id: string)
    requires Has(DoubleElimParts(ctx, slots, layout, DecidedBy(DecidingSlot(slots, layout))), id)
    ensures InBracket(slots, id)
  {
    var deciding := DecidedBy(DecidingSlot(slots, layout));
    DoubleElimMembers(ctx, slots, layout, deciding, id);
    if OneOf(deciding, id) {
      DecidingIsOfSlots(slots, layout);
      SidesAreInBracket(slots, DecidingSlot(slots, layout).value, id);
    } else if OnPodium(slots, layout, id) {
      PodiumIsOfBracket(slots, layout, id);
    } else if LosesIn(LosersSlots(slots, layout), id) {
      FilterIsOf(slots, (s: Slot) => s.round > layout.wbRounds && s.round <= layout.LastLbRound());
      PartIsInBracket(slots, LosersSlots(slots, layout), id);
    } else if LosesIn(PlayInSlots(slots), id) {
      FilterIsOf(slots, (s: Slot) => s.round == 0);
      PartIsInBracket(slots, PlayInSlots(slots), id);
    } else {
      FilterIsOf(slots, (s: Slot) => s.round >= 1 && s.round < layout.entryRound);
      PartIsInBracket(slots, PreCutoffSlots(slots, layout), id);
    }
  }

  // ---- the tail ----

  lemma {:induction false} BracketIsOfSlots(ctx: Context, slots: seq<Slot>, bronzeSlotId: Option<string>, shape: Shape, id: string)
    requires BracketOrder(ctx, slots, bronzeSlotId, shape).Some?
    requires Has(BracketOrder(ctx, slots, bronzeSlotId, shape).value, id)
    ensures InBracket(slots, id)
  {
    if shape.phaseType == DoubleElim {
      DoubleElimIsOfBracket(ctx, slots, ReadLayout(shape), id);
    } else {
      SingleElimIsOfBracket(ctx, slots, bronzeSlotId, id);
    }
  }

  lemma {:induction false} PoolOnlyHas(slots: seq<Slot>, pools: seq<PoolEntry>, entries: seq<Entry>, id: string)
    ensures HasSide(PoolOnly(slots, pools, entries), id) <==> InPools(pools, id) && !InBracket(slots, id) && !Has(entries, id)
  {
    if pools != [] {
      var rest, e := pools[..|pools| - 1], pools[|pools| - 1];
      PoolOnlyHas(slots, rest, entries, id);
      SnocHasSide(PoolOnly(slots, rest, entries), SideOfPool(e), id);
      assert pools == rest + [e];
      if InPools(rest, id) {
        var i :| 0 <= i < |rest| && rest[i].registrationId == id;
        assert pools[i] == rest[i];
      }
      assert pools[|rest|] == e;
    }
  }

  /** `all` is the bracket's entries, each an entrant, then as `InPool` exactly the pool fighters who never reached it. */
  ghost predicate PoolTail(slots: seq<Slot>, pools: seq<PoolEntry>, bracket: seq<Entry>, all: seq<Entry>)
  {
    && bracket <= all
    && (forall i :: 0 <= i < |all| ==> (InBracket(slots, all[i].registrationId) <==> i < |bracket|))
    && (forall i :: |bracket| <= i < |all| ==> all[i].kind == InPool)
    && (forall id :: Has(all, id) <==> Has(bracket, id) || (InPools(pools, id) && !InBracket(slots, id)))
  }

  lemma {:induction false} TailHas(ctx: Context, slots: seq<Slot>, pools: seq<PoolEntry>, bracket: seq<Entry>, id: string)
    ensures HasSide(SortBy(PoolOnly(slots, pools, bracket), ByPoolScore(ctx)), id)
            <==> InPools(pools, id) && !InBracket(slots, id) && !Has(bracket, id)
  {
    SortedHasSide(PoolOnly(slots, pools, bracket), ctx, id);
    PoolOnlyHas(slots, pools, bracket, id);
  }

  lemma {:induction false} TailEntryIsOfPools(ctx: Context, slots: seq<Slot>, pools: seq<PoolEntry>, bracket: seq<Entry>, e: Entry)
    requires Came(ctx, e, SortBy(PoolOnly(slots, pools, bracket), ByPoolScore(ctx)), NO_EXIT)
    ensures !InBracket(slots, e.registrationId)
  {
    var tail := SortBy(PoolOnly(slots, pools, bracket), ByPoolScore(ctx));
    var k :| 0 <= k < |tail| && tail[k] == Side(e.registrationId, e.fighterName, e.clubAbbrev);
    assert HasSide(tail, e.registrationId);
    TailHas(ctx, slots, pools, bracket, e.registrationId);
  }

  lemma {:induction false} TailStandsLast(ctx: Context, slots: seq<Slot>, pools: seq<PoolEntry>, bracket: seq<Entry>)
    requires forall id :: Has(bracket, id) ==> InBracket(slots, id)
    ensures PoolTail(slots, pools, bracket, WithTail(ctx, slots, pools, Some(bracket)))
  {
    var tail := SortBy(PoolOnly(slots, pools, bracket), ByPoolScore(ctx));
    var all := PushTail(ctx, bracket, tail);
    TailExtends(ctx, bracket, tail);
    forall id
      ensures Has(all, id) <==> Has(bracket, id) || (InPools(pools, id) && !InBracket(slots, id))
    {
      TailHas(ctx, slots, pools, bracket, id);
    }
    forall i | 0 <= i < |all|
      ensures InBracket(slots, all[i].registrationId) <==> i < |bracket|
    {
      if i < |bracket| {
        assert bracket[i] == all[i];
        assert Has(bracket, all[i].registrationId);
      } else {
        TailEntryIsOfPools(ctx, slots, pools, bracket, all[i]);
      }
    }
  }

  /**
   * The ranking of a decided bracket is the bracket's own entries, every one an entrant of it, and
   * then the pool fighters who never reached it: all of them, as `InPool`, strictly last.
   */
  lemma {:induction false} PoolFightersStandLast(slots: seq<Slot>, pools: seq<PoolEntry>, bronzeSlotId: Option<string>, shape: Shape,
                                                 collate: string -> real)
    requires shape.phaseType != Swiss
    requires BracketOrder(Context(PoolScores(pools), collate), slots, bronzeSlotId, shape).Some?
    ensures PoolTail(slots, pools, BracketOrder(Context(PoolScores(pools), collate), slots, bronzeSlotId, shape).value,
                     FinalOrder(slots, pools, bronzeSlotId, shape, collate))
  {
    var ctx := Context(PoolScores(pools), collate);
    var bracket := BracketOrder(ctx, slots, bronzeSlotId, shape);
    forall id | Has(bracket.value, id)
      ensures InBracket(slots, id)
    {
      BracketIsOfSlots(ctx, slots, bronzeSlotId, shape, id);
    }
    TailStandsLast(ctx, slots, pools, bracket.value);
    assert bracket == Some(bracket.value);
  }

  /** The ranking of a decided knockout holds every bracket entrant and every pool fighter, and nobody else. */
  lemma {:induction false} KnockoutRankingIsComplete(slots: seq<Slot>, pools: seq<PoolEntry>, bronzeSlotId: Option<string>,
                                                     shape: Shape, collate: string -> real, id: string)
    requires shape.phaseType == SingleElim && DecidedKnockout(slots, bronzeSlotId)
    ensures Has(FinalOrder(slots, pools, bronzeSlotId, shape, collate), id) <==> InBracket(slots, id) || InPools(pools, id)
  {
    var ctx := Context(PoolScores(pools), collate);
    KnockoutIsComplete(ctx, slots, bronzeSlotId, id);
    PoolFightersStandLast(slots, pools, bronzeSlotId, shape, collate);
  }
}
