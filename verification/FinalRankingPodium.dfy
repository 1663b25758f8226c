// Who stands where in a final ranking: the title, the podium, and what a loser's entry says.
module FinalRankingPodium {
  import opened Options
  import opened Sorting
  import opened FinalRankingCore
  import opened FinalRanking
  import opened FinalRankingLaws
  import opened FinalRankingMembers

  // ---- who won a slot ----

  function SideIds(slot: Slot): set<Option<string>>
  {
    {slot.redRegistrationId, slot.blueRegistrationId}
  }

  /**
   * A slot is decided for one of its two sides, against the other: for the recorded winner, whatever
   * the scores, and without one for the higher score.
   */
  lemma {:induction false} WinnerIsRecordedOrAhead(slot: Slot)
    requires WinnerLoser(slot).Some?
    ensures
      var d := WinnerLoser(slot).value;
      && {Some(d.winner.registrationId), Some(d.loser.registrationId)} == SideIds(slot)
      && (slot.winnerRegistrationId in SideIds(slot) ==> slot.winnerRegistrationId == Some(d.winner.registrationId))
      && (slot.winnerRegistrationId !in SideIds(slot) ==>
            && slot.redScore.Some? && slot.blueScore.Some?
            && if slot.redScore.value > slot.blueScore.value then d.winner == RedOf(slot) && d.loser == BlueOf(slot)
               else slot.blueScore.value > slot.redScore.value && d.winner == BlueOf(slot) && d.loser == RedOf(slot))
  {
  }

  // ---- the first entries ----

  lemma {:induction false} RoundsKeepThePrefix(ctx: Context, entries: seq<Entry>, rounds: seq<int>, group: int -> seq<Side>,
                                               exitOf: int -> Exit, podiumKinds: bool)
    ensures entries <= PushRounds(ctx, entries, rounds, group, exitOf, podiumKinds)
  {
    if rounds != [] {
      var earlier := PushRounds(ctx, entries, rounds[..|rounds| - 1], group, exitOf, podiumKinds);
      var round := rounds[|rounds| - 1];
      RoundsKeepThePrefix(ctx, entries, rounds[..|rounds| - 1], group, exitOf, podiumKinds);
      PushEachExtends(ctx, earlier, SortBy(group(round), ByPoolScore(ctx)), exitOf(round), podiumKinds);
    }
  }

  lemma {:induction false} LosersKeepThePrefix(ctx: Context, entries: seq<Entry>, slots: seq<Slot>, exitOf: int -> Exit, podiumKinds: bool)
    ensures entries <= PushLosers(ctx, entries, slots, exitOf, podiumKinds)
  {
    RoundsKeepThePrefix(ctx, entries, SortBy(LoserRounds(slots, entries), Deeper), round => LosersIn(slots, entries, round),
                        exitOf, podiumKinds);
  }

  lemma {:induction false} PodiumKeepsThePrefix(ctx: Context, entries: seq<Entry>, slots: seq<Slot>, layout: Layout)
    ensures entries <= BronzePodium(ctx, entries, slots, layout)
  {
    var last := LastLosersRound(slots, layout);
    if layout.isBronze {
      if layout.bronzeMatch {
        var wl := if last == [] then None else WinnerLoser(last[0]);
        if wl.Some? {
          PairExtends(ctx, entries, wl.value, Third, Fourth);
        }
      } else {
        SurvivorsExtend(ctx, entries, SortBy(Winners(last), ByPoolScore(ctx)));
      }
    }
  }

  /** This side stands at an index, in this kind. */
  predicate Stands(entries: seq<Entry>, i: nat, side: Side, kind: ResultKind)
  {
    i < |entries| && SideOf(entries[i]) == side && entries[i].kind == kind
  }

  predicate TitleFirst(entries: seq<Entry>, d: Decided)
  {
    && Stands(entries, 0, d.winner, Champion)
    && (d.winner.registrationId != d.loser.registrationId ==> Stands(entries, 1, d.loser, RunnerUp))
  }

  lemma {:induction false} TitleIsFirst(ctx: Context, d: Decided)
    ensures TitleFirst(PushPair(ctx, [], Some(d), Champion, RunnerUp), d)
    ensures |PushPair(ctx, [], Some(d), Champion, RunnerUp)| == (if d.winner.registrationId != d.loser.registrationId then 2 else 1)
  {
    var one := Push(ctx, [], d.winner, Champion, NO_EXIT);
    assert |one| == 1 && one[0].registrationId == d.winner.registrationId;
    assert Has(one, d.loser.registrationId) <==> d.winner.registrationId == d.loser.registrationId;
  }

  lemma {:induction false} DoubleElimTitle(ctx: Context, slots: seq<Slot>, layout: Layout, d: Decided)
    ensures TitleFirst(DoubleElimParts(ctx, slots, layout, Some(d)), d)
  {
    TitleIsFirst(ctx, d);
    PartsKeepThePrefix(ctx, PushPair(ctx, [], Some(d), Champion, RunnerUp), slots, layout, Some(d));
  }

  lemma {:induction false} SingleElimPodium(ctx: Context, slots: seq<Slot>, bronzeSlotId: Option<string>)
    requires OrderSingleElim(ctx, slots, bronzeSlotId).Some?
    ensures PushPair(ctx, PushPair(ctx, [], FinalOf(slots, bronzeSlotId), Champion, RunnerUp),
                     DecidedBy(BronzeSlot(slots, bronzeSlotId)), Third, Fourth)
            <= OrderSingleElim(ctx, slots, bronzeSlotId).value
  {
    var maxRound, bronze := MaxRound(slots), BronzeSlot(slots, bronzeSlotId);
    var main := MainSlots(slots, bronze);
    var title := PushPair(ctx, [], FinalOf(slots, bronzeSlotId), Champion, RunnerUp);
    LosersKeepThePrefix(ctx, PushPair(ctx, title, DecidedBy(bronze), Third, Fourth), BeforeRound(main, maxRound), PlainExit(), false);
  }

  /** How the match that decides a single elimination ended. */
  function FinalOf(slots: seq<Slot>, bronzeSlotId: Option<string>): Option<Decided>
  {
    DecidedBy(FinalSlot(MainSlots(slots, BronzeSlot(slots, bronzeSlotId)), MaxRound(slots)))
  }

  /** The bronze match is between two fighters who are not in the final. */
  predicate BronzeIsApart(final: Decided, bronze: Decided)
  {
    && bronze.winner.registrationId != bronze.loser.registrationId
    && bronze.winner.registrationId != final.winner.registrationId && bronze.winner.registrationId != final.loser.registrationId
    && bronze.loser.registrationId != final.winner.registrationId && bronze.loser.registrationId != final.loser.registrationId
  }

  lemma {:induction false} PairIsAdded(ctx: Context, entries: seq<Entry>, d: Decided, first: ResultKind, second: ResultKind)
    requires !Has(entries, d.winner.registrationId) && !Has(entries, d.loser.registrationId)
    requires d.winner.registrationId != d.loser.registrationId
    ensures Stands(PushPair(ctx, entries, Some(d), first, second), |entries|, d.winner, first)
    ensures Stands(PushPair(ctx, entries, Some(d), first, second), |entries| + 1, d.loser, second)
  {
    var one := Push(ctx, entries, d.winner, first, NO_EXIT);
    HasOneMore(entries, one[|entries|], d.loser.registrationId);
  }

  /** The final's winner and loser are 1st and 2nd, the bronze match's winner and loser 3rd and 4th. */
  lemma {:induction false} PodiumOfSingleElim(ctx: Context, slots: seq<Slot>, bronzeSlotId: Option<string>)
    requires OrderSingleElim(ctx, slots, bronzeSlotId).Some?
    ensures TitleFirst(OrderSingleElim(ctx, slots, bronzeSlotId).value, FinalOf(slots, bronzeSlotId).value)
    ensures
      var ranking, final := OrderSingleElim(ctx, slots, bronzeSlotId).value, FinalOf(slots, bronzeSlotId).value;
      var bronze := DecidedBy(BronzeSlot(slots, bronzeSlotId));
      bronze.Some? && BronzeIsApart(final, bronze.value) && final.winner.registrationId != final.loser.registrationId ==>
        Stands(ranking, 2, bronze.value.winner, Third) && Stands(ranking, 3, bronze.value.loser, Fourth)
  {
    var final, bronze := FinalOf(slots, bronzeSlotId).value, DecidedBy(BronzeSlot(slots, bronzeSlotId));
    var title := PushPair(ctx, [], Some(final), Champion, RunnerUp);
    TitleIsFirst(ctx, final);
    SingleElimPodium(ctx, slots, bronzeSlotId);
    if bronze.Some? {
      PairExtends(ctx, title, bronze.value, Third, Fourth);
      if BronzeIsApart(final, bronze.value) {
        PairHas(ctx, [], Some(final), Champion, RunnerUp, bronze.value.winner.registrationId);
        PairHas(ctx, [], Some(final), Champion, RunnerUp, bronze.value.loser.registrationId);
        PairIsAdded(ctx, title, bronze.value, Third, Fourth);
      }
    }
  }

  /** In bronze mode the bronze match's winner and loser are 3rd and 4th. */
  lemma {:induction false} PodiumOfBronzeMode(ctx: Context, slots: seq<Slot>, layout: Layout, final: Decided, bronze: Decided)
    requires layout.isBronze && layout.bronzeMatch
    requires LastLosersRound(slots, layout) != [] && WinnerLoser(LastLosersRound(slots, layout)[0]) == Some(bronze)
    requires BronzeIsApart(final, bronze) && final.winner.registrationId != final.loser.registrationId
    ensures Stands(DoubleElimParts(ctx, slots, layout, Some(final)), 2, bronze.winner, Third)
    ensures Stands(DoubleElimParts(ctx, slots, layout, Some(final)), 3, bronze.loser, Fourth)
  {
    var title := PushPair(ctx, [], Some(final), Champion, RunnerUp);
    TitleIsFirst(ctx, final);
    PairHas(ctx, [], Some(final), Champion, RunnerUp, bronze.winner.registrationId);
    PairHas(ctx, [], Some(final), Champion, RunnerUp, bronze.loser.registrationId);
    PairIsAdded(ctx, title, bronze, Third, Fourth);
    PartsKeepThePrefix(ctx, title, slots, layout, Some(final));
  }

  /** None of the sides is in the final, and none stands there twice. */
  ghost predicate AreApart(final: Decided, sides: seq<Side>)
  {
    && (forall s :: s in sides ==> s.registrationId != final.winner.registrationId && s.registrationId != final.loser.registrationId)
    && (forall s, t :: s in sides && t in sides && s.registrationId == t.registrationId ==> s == t)
    && (forall s :: s in sides ==> multiset(sides)[s] == 1)
  }

  lemma {:induction false} ApartInAnyOrder(final: Decided, sides: seq<Side>, sorted: seq<Side>)
    requires AreApart(final, sides) && multiset(sides) == multiset(sorted)
    ensures AreApart(final, sorted)
  {
    forall s
      ensures s in sorted <==> s in sides
    {
      SameMultisetSameMembers(sorted, sides, s);
    }
  }

  lemma {:induction false} TwiceIsCounted(sides: seq<Side>, i: nat, j: nat)
    requires i < j < |sides| && sides[i] == sides[j]
    ensures multiset(sides)[sides[j]] > 1
  {
    assert sides == sides[..j] + [sides[j]] + sides[j + 1..];
    assert sides[..j][i] == sides[j] && sides[j] in multiset(sides[..j]);
  }

  lemma {:induction false} ApartIsDistinct(final: Decided, sides: seq<Side>, n: nat, id: string)
    requires AreApart(final, sides) && n < |sides| && HasSide(sides[..n], id)
    ensures id != sides[n].registrationId
  {
    var i :| 0 <= i < n && sides[..n][i].registrationId == id;
    assert sides[i] in sides && sides[n] in sides;
    if sides[i] == sides[n] {
      TwiceIsCounted(sides, i, n);
    }
  }

  /** The first `n` survivors stand behind the title, one after another. */
  ghost predicate SurvivorsStand(entries: seq<Entry>, sides: seq<Side>, n: nat)
    requires n <= |sides|
  {
    |entries| == n + 2 && forall i :: 0 <= i < n ==> Stands(entries, i + 2, sides[i], if i == 0 then Third else Fourth)
  }

  lemma {:induction false} EachSurvivorStands(ctx: Context, title: seq<Entry>, final: Decided, sides: seq<Side>, n: nat)
    requires n <= |sides| && AreApart(final, sides) && |title| == 2
    requires forall id :: Has(title, id) <==> OneOf(Some(final), id)
    ensures SurvivorsStand(PushSurvivors(ctx, title, sides[..n]), sides, n)
  {
    if n > 0 {
      var earlier, side := PushSurvivors(ctx, title, sides[..n - 1]), sides[n - 1];
      EachSurvivorStands(ctx, title, final, sides, n - 1);
      assert sides[..n][..n - 1] == sides[..n - 1];
      NextSurvivorIsNew(ctx, title, final, sides, n - 1);
      NextSurvivorStands(ctx, earlier, sides, n - 1);
    }
  }

  lemma {:induction false} NextSurvivorIsNew(ctx: Context, title: seq<Entry>, final: Decided, sides: seq<Side>, n: nat)
    requires n < |sides| && AreApart(final, sides)
    requires forall id :: Has(title, id) <==> OneOf(Some(final), id)
    ensures !Has(PushSurvivors(ctx, title, sides[..n]), sides[n].registrationId)
  {
    var id := sides[n].registrationId;
    SurvivorsExtend(ctx, title, sides[..n]);
    assert sides[n] in sides;
    if HasSide(sides[..n], id) {
      ApartIsDistinct(final, sides, n, id);
    }
  }

  lemma {:induction false} NextSurvivorStands(ctx: Context, earlier: seq<Entry>, sides: seq<Side>, n: nat)
    requires n < |sides| && SurvivorsStand(earlier, sides, n) && !Has(earlier, sides[n].registrationId)
    ensures SurvivorsStand(Push(ctx, earlier, sides[n], if |earlier| == 2 then Third else Fourth, NO_EXIT), sides, n + 1)
  {
  }

  /**
   * In bronze mode without a bronze match, the winners of the last losers round stand behind the
   * title by pool score, then by name: 3rd, 4th, and any more behind them.
   */
  lemma {:induction false} PodiumOfSurvivors(ctx: Context, slots: seq<Slot>, layout: Layout, final: Decided) returns (survivors: seq<Side>)
    requires layout.isBronze && !layout.bronzeMatch && final.winner.registrationId != final.loser.registrationId
    requires AreApart(final, Winners(LastLosersRound(slots, layout)))
    ensures multiset(survivors) == multiset(Winners(LastLosersRound(slots, layout))) && SortedBy(survivors, ByPoolScore(ctx))
    ensures forall i :: 0 <= i < |survivors| ==>
              Stands(DoubleElimParts(ctx, slots, layout, Some(final)), i + 2, survivors[i], if i == 0 then Third else Fourth)
  {
    var winners := Winners(LastLosersRound(slots, layout));
    var title := PushPair(ctx, [], Some(final), Champion, RunnerUp);
    survivors := SortBy(winners, ByPoolScore(ctx));
    SortKeeps(winners, ByPoolScore(ctx));
    ByPoolScoreIsOrder(ctx);
    SortSorts(winners, ByPoolScore(ctx));
    ApartInAnyOrder(final, winners, survivors);
    TitleIsFirst(ctx, final);
    forall id
      ensures Has(title, id) <==> OneOf(Some(final), id)
    {
      PairHas(ctx, [], Some(final), Champion, RunnerUp, id);
    }
    EachSurvivorStands(ctx, title, final, survivors, |survivors|);
    assert survivors[..|survivors|] == survivors;
    PartsKeepThePrefix(ctx, title, slots, layout, Some(final));
  }

  /** What follows the bronze podium leaves it where it stands. */
  lemma {:induction false} PartsKeepThePrefix(ctx: Context, title: seq<Entry>, slots: seq<Slot>, layout: Layout, deciding: Option<Decided>)
    requires title == PushPair(ctx, [], deciding, Champion, RunnerUp)
    ensures BronzePodium(ctx, title, slots, layout) <= DoubleElimParts(ctx, slots, layout, deciding)
    ensures title <= DoubleElimParts(ctx, slots, layout, deciding)
  {
    var podium := BronzePodium(ctx, title, slots, layout);
    PodiumKeepsThePrefix(ctx, title, slots, layout);
    var losers := LosersPart(ctx, podium, slots, layout);
    LosersKeepThePrefix(ctx, podium, LosersSlots(slots, layout), LosersExit(layout.wbRounds), !layout.isBronze);
    var winners := WinnersPart(ctx, losers, slots, layout);
    LosersKeepThePrefix(ctx, losers, PreCutoffSlots(slots, layout), WinnersExit(), false);
    PushEachExtends(ctx, winners, SortBy(LosersIn(PlayInSlots(slots), winners, 0), ByPoolScore(ctx)), PLAY_IN_EXIT, false);
  }

  /** Each new entry's kind is the one of its place: where a part decides the podium, 3rd and 4th are medals. */
  ghost predicate KindsByPlace(before: seq<Entry>, after: seq<Entry>, podiumKinds: bool)
  {
    before <= after && forall i :: |before| <= i < |after| ==> after[i].kind == RoundKind(i, podiumKinds)
  }

  lemma {:induction false} EachHasItsKind(ctx: Context, entries: seq<Entry>, sides: seq<Side>, exit: Exit, podiumKinds: bool)
    ensures KindsByPlace(entries, PushEach(ctx, entries, sides, exit, podiumKinds), podiumKinds)
  {
    if sides != [] {
      EachHasItsKind(ctx, entries, sides[..|sides| - 1], exit, podiumKinds);
    }
  }

  lemma {:induction false} RoundsHaveTheirKinds(ctx: Context, entries: seq<Entry>, rounds: seq<int>, group: int -> seq<Side>,
                                                exitOf: int -> Exit, podiumKinds: bool)
    ensures KindsByPlace(entries, PushRounds(ctx, entries, rounds, group, exitOf, podiumKinds), podiumKinds)
  {
    if rounds != [] {
      var rest, round := rounds[..|rounds| - 1], rounds[|rounds| - 1];
      RoundsHaveTheirKinds(ctx, entries, rest, group, exitOf, podiumKinds);
      EachHasItsKind(ctx, PushRounds(ctx, entries, rest, group, exitOf, podiumKinds), SortBy(group(round), ByPoolScore(ctx)),
                     exitOf(round), podiumKinds);
    }
  }

  /** The losers bracket of gold mode gives the medals of 3rd and 4th to whoever comes there; every other loser's kind is `round`. */
  lemma {:induction false} LosersHaveTheirKinds(ctx: Context, entries: seq<Entry>, slots: seq<Slot>, exitOf: int -> Exit, podiumKinds: bool)
    ensures KindsByPlace(entries, PushLosers(ctx, entries, slots, exitOf, podiumKinds), podiumKinds)
  {
    RoundsHaveTheirKinds(ctx, entries, SortBy(LoserRounds(slots, entries), Deeper), round => LosersIn(slots, entries, round),
                         exitOf, podiumKinds);
  }

  /** How the match that decides a bracket ended. */
  function DeciderOf(slots: seq<Slot>, bronzeSlotId: Option<string>, shape: Shape): Option<Decided>
  {
    if shape.phaseType == DoubleElim then DecidedBy(DecidingSlot(slots, ReadLayout(shape))) else FinalOf(slots, bronzeSlotId)
  }

  lemma {:induction false} BracketTitle(ctx: Context, slots: seq<Slot>, bronzeSlotId: Option<string>, shape: Shape)
    ensures BracketOrder(ctx, slots, bronzeSlotId, shape).Some? <==> DeciderOf(slots, bronzeSlotId, shape).Some?
    ensures BracketOrder(ctx, slots, bronzeSlotId, shape).Some? ==>
              TitleFirst(BracketOrder(ctx, slots, bronzeSlotId, shape).value, DeciderOf(slots, bronzeSlotId, shape).value)
  {
    if BracketOrder(ctx, slots, bronzeSlotId, shape).Some? {
      if shape.phaseType == DoubleElim {
        DoubleElimTitle(ctx, slots, ReadLayout(shape), DeciderOf(slots, bronzeSlotId, shape).value);
      } else {
        PodiumOfSingleElim(ctx, slots, bronzeSlotId);
      }
    }
  }

  lemma {:induction false} TailKeepsTheTitle(ctx: Context, slots: seq<Slot>, pools: seq<PoolEntry>, bracket: seq<Entry>, d: Decided)
    requires TitleFirst(bracket, d)
    ensures TitleFirst(WithTail(ctx, slots, pools, Some(bracket)), d)
  {
    TailExtends(ctx, bracket, SortBy(PoolOnly(slots, pools, bracket), ByPoolScore(ctx)));
  }

  /**
   * A bracket is ranked exactly when its deciding match is decided, and then that match's winner
   * comes first, as champion, and its loser second.
   */
  lemma {:induction false} DeciderGivesTheTitle(slots: seq<Slot>, pools: seq<PoolEntry>, bronzeSlotId: Option<string>, shape: Shape,
                                                collate: string -> real)
    requires shape.phaseType != Swiss
    ensures DeciderOf(slots, bronzeSlotId, shape).None? ==> FinalOrder(slots, pools, bronzeSlotId, shape, collate) == []
    ensures DeciderOf(slots, bronzeSlotId, shape).Some? ==>
              TitleFirst(FinalOrder(slots, pools, bronzeSlotId, shape, collate), DeciderOf(slots, bronzeSlotId, shape).value)
  {
    var ctx := Context(PoolScores(pools), collate);
    BracketTitle(ctx, slots, bronzeSlotId, shape);
    var bracket, decider := BracketOrder(ctx, slots, bronzeSlotId, shape), DeciderOf(slots, bronzeSlotId, shape);
    if decider.Some? {
      TailKeepsTheTitle(ctx, slots, pools, bracket.value, decider.value);
      assert bracket == Some(bracket.value);
    }
  }

  // ---- what a loser's entry says ----

  predicate LosesAt(slots: seq<Slot>, round: int, id: string)
  {
    exists i :: 0 <= i < |slots| && slots[i].round == round && Loses(slots[i], id)
  }

  /** The entry stands under a round its fighter lost in, and under the deepest one. */
  ghost predicate IsDeepestLoss(slots: seq<Slot>, exitOf: int -> Exit, e: Entry, round: int)
  {
    && LosesAt(slots, round, e.registrationId)
    && (forall deeper :: deeper > round ==> !LosesAt(slots, deeper, e.registrationId))
    && e.eliminationRound == exitOf(round).round && e.section == exitOf(round).section
  }

  /** Entry `i` came from the group of the k-th round, and its fighter is in no group before it. */
  ghost predicate FromGroup(after: seq<Entry>, i: nat, rounds: seq<int>, group: int -> seq<Side>, exitOf: int -> Exit, k: nat)
    requires i < |after|
  {
    && k < |rounds| && HasSide(group(rounds[k]), after[i].registrationId)
    && (forall j :: 0 <= j < k ==> !HasSide(group(rounds[j]), after[i].registrationId))
    && after[i].eliminationRound == exitOf(rounds[k]).round && after[i].section == exitOf(rounds[k]).section
  }

  lemma {:induction false} EntryIsFromItsGroup(ctx: Context, entries: seq<Entry>, rounds: seq<int>, group: int -> seq<Side>,
                                               exitOf: int -> Exit, podiumKinds: bool, i: nat) returns (k: nat)
    requires |entries| <= i < |PushRounds(ctx, entries, rounds, group, exitOf, podiumKinds)| && Placed(entries)
    ensures FromGroup(PushRounds(ctx, entries, rounds, group, exitOf, podiumKinds), i, rounds, group, exitOf, k)
  {
    var rest, round := rounds[..|rounds| - 1], rounds[|rounds| - 1];
    var earlier := PushRounds(ctx, entries, rest, group, exitOf, podiumKinds);
    var after := PushRounds(ctx, entries, rounds, group, exitOf, podiumKinds);
    var sorted := SortBy(group(round), ByPoolScore(ctx));
    PushEachExtends(ctx, earlier, sorted, exitOf(round), podiumKinds);
    if i < |earlier| {
      k := EntryIsFromItsGroup(ctx, entries, rest, group, exitOf, podiumKinds, i);
      assert earlier[i] == after[i];
      assert forall j :: 0 <= j < |rest| ==> rest[j] == rounds[j];
    } else {
      k := |rest|;
      var id := after[i].registrationId;
      RoundsKeepPlaces(ctx, entries, rest, group, exitOf, podiumKinds);
      SortedHasSide(group(round), ctx, id);
      forall j | 0 <= j < k
        ensures !HasSide(group(rounds[j]), id)
      {
        PushRoundsHas(ctx, entries, rest, group, exitOf, podiumKinds, id);
        assert rest[j] == rounds[j];
        assert HasSide(group(rest[j]), id) ==> InGroups(rest, group, id);
      }
    }
  }

  lemma {:induction false} FreeAtIsLosing(slots: seq<Slot>, entries: seq<Entry>, round: int, id: string)
    requires !Has(entries, id)
    ensures HasSide(LosersIn(slots, entries, round), id) <==> LosesAt(slots, round, id)
    ensures LosesAt(slots, round, id) ==> round in LoserRounds(slots, entries)
  {
    LosersInHas(slots, entries, round, id);
    NoGroupNoLosers(slots, entries, round);
    if LosesAt(slots, round, id) {
      var i :| 0 <= i < |slots| && slots[i].round == round && Loses(slots[i], id);
      assert FreeIn(slots, entries, round, id);
    }
  }

  /** Every loser a part places stands under the deepest round of that part in which he lost. */
  lemma {:induction false} LosersStandUnderTheirDeepestLoss(ctx: Context, entries: seq<Entry>, slots: seq<Slot>, exitOf: int -> Exit,
                                                            podiumKinds: bool, i: nat)
    requires Placed(entries) && |entries| <= i < |PushLosers(ctx, entries, slots, exitOf, podiumKinds)|
    ensures exists round :: IsDeepestLoss(slots, exitOf, PushLosers(ctx, entries, slots, exitOf, podiumKinds)[i], round)
  {
    var rounds := SortBy(LoserRounds(slots, entries), Deeper);
    var group := round => LosersIn(slots, entries, round);
    var after := PushLosers(ctx, entries, slots, exitOf, podiumKinds);
    LosersKeepPlaces(ctx, entries, slots, exitOf, podiumKinds);
    LosersKeepThePrefix(ctx, entries, slots, exitOf, podiumKinds);
    var k := EntryIsFromItsGroup(ctx, entries, rounds, group, exitOf, podiumKinds, i);
    var id := after[i].registrationId;
    LoserRoundsAreDistinct(slots, entries);
    SortedRoundsDescend(LoserRounds(slots, entries));
    SortKeepsMembers(LoserRounds(slots, entries), Deeper);
    FreeAtIsLosing(slots, entries, rounds[k], id);
    forall deeper | deeper > rounds[k]
      ensures !LosesAt(slots, deeper, id)
    {
      FreeAtIsLosing(slots, entries, deeper, id);
      if deeper in rounds {
        var j :| 0 <= j < |rounds| && rounds[j] == deeper;
        assert j < k;
        assert !HasSide(group(rounds[j]), id);
      }
    }
    assert IsDeepestLoss(slots, exitOf, after[i], rounds[k]);
  }

  // ---- Swiss ----

  /** A Swiss ranking is its standings, in their order. */
  lemma {:induction false} SwissKeepsItsStandings(ctx: Context, standings: seq<PoolEntry>)
    requires forall i, j :: 0 <= i < j < |standings| ==> standings[i].registrationId != standings[j].registrationId
    ensures |OrderSwiss(ctx, standings)| == |standings|
    ensures forall i :: 0 <= i < |standings| ==> Stands(OrderSwiss(ctx, standings), i, SideOfPool(standings[i]), SwissKind(i))
  {
    if standings != [] {
      SwissKeepsItsStandings(ctx, standings[..|standings| - 1]);
      var earlier, last := OrderSwiss(ctx, standings[..|standings| - 1]), standings[|standings| - 1];
      assert !Has(earlier, last.registrationId) by {
        forall i | 0 <= i < |earlier|
          ensures earlier[i].registrationId != last.registrationId
        {
          assert Stands(earlier, i, SideOfPool(standings[i]), SwissKind(i));
        }
      }
    }
  }
}
