// A decided double elimination ranks its whole bracket (packages/types/src/final-ranking-double-elim.ts).
module FinalRankingDoubleElim {
  import opened Options
  import opened FinalRankingCore
  import opened FinalRanking
  import opened FinalRankingMembers

  /** Rounds: the play-in, the winners bracket, the losers bracket, and past them, in gold mode, the grand finals. */
  ghost predicate RoundsFit(slots: seq<Slot>, layout: Layout)
  {
    forall s :: s in slots ==> 0 <= s.round && (layout.isBronze ==> s.round <= layout.LastLbRound())
  }

  /** Nobody but the winner of the deciding match goes out without a loss, or, in bronze mode, without the last losers round. */
  ghost predicate EveryoneGoesOut(slots: seq<Slot>, layout: Layout, decider: Slot)
  {
    forall id :: InBracket(slots, id) ==>
      Wins(decider, id) || LosesIn(slots, id) || (layout.isBronze && WinsIn(LastLosersRound(slots, layout), id))
  }

  /** A winners-bracket slot whose loser has a second chance. */
  predicate Drops(layout: Layout, decider: Slot, slot: Slot)
  {
    slot != decider && 1 <= slot.round <= layout.wbRounds && layout.entryRound <= slot.round
  }

  /** Its loser goes on in the losers bracket. */
  ghost predicate LosersDrop(slots: seq<Slot>, layout: Layout, decider: Slot)
  {
    forall s, id :: s in slots && Drops(layout, decider, s) && Loses(s, id) ==> InBracket(LosersSlots(slots, layout), id)
  }

  /** Whoever is in the losers bracket goes out there, or wins its last round. */
  ghost predicate LosersBracketIsPlayed(slots: seq<Slot>, layout: Layout)
  {
    forall id :: InBracket(LosersSlots(slots, layout), id) ==>
      LosesIn(LosersSlots(slots, layout), id) || WinsIn(LastLosersRound(slots, layout), id)
  }

  /** Gold mode: the winner of the losers bracket, and whoever loses a grand final, is in the deciding one. */
  ghost predicate GrandFinalIsPlayed(slots: seq<Slot>, layout: Layout, decider: Slot)
  {
    && (forall id :: WinsIn(LastLosersRound(slots, layout), id) ==> OneOf(WinnerLoser(decider), id))
    && (forall s, id :: s in slots && s.round > layout.LastLbRound() && Loses(s, id) ==> OneOf(WinnerLoser(decider), id))
  }

  /** Bronze mode with a bronze match: that match is the whole last losers round. */
  predicate BronzeIsOneMatch(slots: seq<Slot>, layout: Layout)
  {
    layout.bronzeMatch ==> |LastLosersRound(slots, layout)| <= 1
  }

  /** A double elimination wired as it is drawn, and played to its end. */
  ghost predicate DecidedDoubleElim(slots: seq<Slot>, layout: Layout)
  {
    var decider := DecidingSlot(slots, layout);
    && DecidedBy(decider).Some?
    && RoundsFit(slots, layout)
    && EveryoneGoesOut(slots, layout, decider.value)
    && LosersDrop(slots, layout, decider.value)
    && LosersBracketIsPlayed(slots, layout)
    && if layout.isBronze then BronzeIsOneMatch(slots, layout) else GrandFinalIsPlayed(slots, layout, decider.value)
  }

  lemma {:induction false} LosesInPart(slots: seq<Slot>, keep: Slot -> bool, slot: Slot, id: string)
    requires slot in slots && keep(slot) && Loses(slot, id)
    ensures LosesIn(Filter(slots, keep), id)
  {
    var part := Filter(slots, keep);
    FilterHas(slots, keep, slot);
    var k :| 0 <= k < |part| && part[k] == slot;
  }

  /** Who wins the last losers round stands on the podium in bronze mode, and in the grand final in gold mode. */
  lemma {:induction false} LastWinnerIsRanked(slots: seq<Slot>, layout: Layout, id: string)
    requires DecidedDoubleElim(slots, layout) && WinsIn(LastLosersRound(slots, layout), id)
    ensures OnPodium(slots, layout, id) || OneOf(DecidedBy(DecidingSlot(slots, layout)), id)
  {
    var last := LastLosersRound(slots, layout);
    var i :| 0 <= i < |last| && Wins(last[i], id);
  }

  lemma {:induction false} DropperIsRanked(slots: seq<Slot>, layout: Layout, slot: Slot, id: string)
    requires DecidedDoubleElim(slots, layout) && slot in slots && Loses(slot, id)
    requires Drops(layout, DecidingSlot(slots, layout).value, slot)
    ensures LosesIn(LosersSlots(slots, layout), id) || OnPodium(slots, layout, id) || OneOf(DecidedBy(DecidingSlot(slots, layout)), id)
  {
    if !LosesIn(LosersSlots(slots, layout), id) {
      LastWinnerIsRanked(slots, layout, id);
    }
  }

  /** A loser is ranked in the part of the bracket he lost in, or further on. */
  lemma {:induction false} LoserIsRanked(ctx: Context, slots: seq<Slot>, layout: Layout, slot: Slot, id: string)
    requires DecidedDoubleElim(slots, layout) && slot in slots && Loses(slot, id)
    ensures Has(DoubleElimParts(ctx, slots, layout, DecidedBy(DecidingSlot(slots, layout))), id)
  {
    DoubleElimMembers(ctx, slots, layout, DecidedBy(DecidingSlot(slots, layout)), id);
    if slot.round == 0 {
      LosesInPart(slots, (s: Slot) => s.round == 0, slot, id);
    } else if slot.round > layout.wbRounds {
      if slot.round <= layout.LastLbRound() {
        LosesInPart(slots, (s: Slot) => s.round > layout.wbRounds && s.round <= layout.LastLbRound(), slot, id);
      }
    } else if slot.round < layout.entryRound {
      LosesInPart(slots, (s: Slot) => s.round >= 1 && s.round < layout.entryRound, slot, id);
    } else if slot != DecidingSlot(slots, layout).value {
      DropperIsRanked(slots, layout, slot, id);
    }
  }

  /** A decided double elimination ranks every entrant of its bracket, and nobody else. */
  lemma {:induction false} DoubleElimIsComplete(ctx: Context, slots: seq<Slot>, layout: Layout, id: string)
    requires DecidedDoubleElim(slots, layout)
    ensures Has(DoubleElimParts(ctx, slots, layout, DecidedBy(DecidingSlot(slots, layout))), id) <==> InBracket(slots, id)
  {
    var deciding := DecidedBy(DecidingSlot(slots, layout));
    if Has(DoubleElimParts(ctx, slots, layout, deciding), id) {
      DoubleElimIsOfBracket(ctx, slots, layout, id);
    } else if InBracket(slots, id) {
      DoubleElimMembers(ctx, slots, layout, deciding, id);
      if LosesIn(slots, id) {
        var i :| 0 <= i < |slots| && Loses(slots[i], id);
        LoserIsRanked(ctx, slots, layout, slots[i], id);
      } else if WinsIn(LastLosersRound(slots, layout), id) {
        LastWinnerIsRanked(slots, layout, id);
      }
    }
  }

  /** The ranking of a decided double elimination holds every bracket entrant and every pool fighter, and nobody else. */
  lemma {:induction false} DoubleElimRankingIsComplete(slots: seq<Slot>, pools: seq<PoolEntry>, bronzeSlotId: Option<string>,
                                                       shape: Shape, collate: string -> real, id: string)
    requires shape.phaseType == DoubleElim && DecidedDoubleElim(slots, ReadLayout(shape))
    ensures Has(FinalOrder(slots, pools, bronzeSlotId, shape, collate), id) <==> InBracket(slots, id) || InPools(pools, id)
  {
    var ctx := Context(PoolScores(pools), collate);
    DoubleElimIsComplete(ctx, slots, ReadLayout(shape), id);
    PoolFightersStandLast(slots, pools, bronzeSlotId, shape, collate);
  }
}
