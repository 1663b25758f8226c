// What every final ranking keeps: places, order, and who is in it.
module FinalRankingLaws {
  import opened Options
  import opened Sorting
  import opened FinalRankingCore
  import opened FinalRanking

  // ---- what a run of pushes adds ----

  predicate HasSide(sides: seq<Side>, id: string)
  {
    exists i :: 0 <= i < |sides| && sides[i].registrationId == id
  }

  /** An entry made from one of these sides, under this exit. */
  predicate Came(ctx: Context, e: Entry, sides: seq<Side>, exit: Exit)
  {
    && Side(e.registrationId, e.fighterName, e.clubAbbrev) in sides
    && e.poolScore == ScoreOf(ctx, e.registrationId)
    && e.eliminationRound == exit.round && e.section == exit.section
  }

  /** `after` is `before` with more entries at its end, each from one of these sides. */
  ghost predicate Extends(ctx: Context, before: seq<Entry>, after: seq<Entry>, sides: seq<Side>, exit: Exit, kinds: set<ResultKind>)
  {
    && before <= after
    && (Placed(before) ==> Placed(after))
    && (forall i :: |before| <= i < |after| ==> Came(ctx, after[i], sides, exit) && after[i].kind in kinds)
    && (forall id :: Has(after, id) <==> Has(before, id) || HasSide(sides, id))
  }

  lemma {:induction false} PushExtends(ctx: Context, entries: seq<Entry>, side: Side, kind: ResultKind, exit: Exit)
    ensures Extends(ctx, entries, Push(ctx, entries, side, kind, exit), [side], exit, {kind})
  {
    var after := Push(ctx, entries, side, kind, exit);
    assert HasSide([side], side.registrationId) by { assert [side][0] == side; }
    forall id
      ensures Has(after, id) <==> Has(entries, id) || HasSide([side], id)
    {
      if !Has(entries, side.registrationId) {
        HasOneMore(entries, after[|entries|], id);
      }
    }
  }

  const ROUND_KINDS: set<ResultKind> := {InRound, Third, Fourth}

  lemma {:induction false} PushEachExtends(ctx: Context, entries: seq<Entry>, sides: seq<Side>, exit: Exit, podiumKinds: bool)
    ensures Extends(ctx, entries, PushEach(ctx, entries, sides, exit, podiumKinds), sides, exit,
                    if podiumKinds then ROUND_KINDS else {InRound})
  {
    if sides != [] {
      var rest := sides[..|sides| - 1];
      var earlier := PushEach(ctx, entries, rest, exit, podiumKinds);
      PushEachExtends(ctx, entries, rest, exit, podiumKinds);
      PushExtends(ctx, earlier, sides[|sides| - 1], RoundKind(|earlier|, podiumKinds), exit);
      assert sides == rest + [sides[|sides| - 1]];
    }
  }

  lemma {:induction false} SurvivorsExtend(ctx: Context, entries: seq<Entry>, sides: seq<Side>)
    ensures Extends(ctx, entries, PushSurvivors(ctx, entries, sides), sides, NO_EXIT, {Third, Fourth})
  {
    if sides != [] {
      var rest, last := sides[..|sides| - 1], sides[|sides| - 1];
      var earlier := PushSurvivors(ctx, entries, rest);
      var kind := if |earlier| == 2 then Third else Fourth;
      SurvivorsExtend(ctx, entries, rest);
      PushExtends(ctx, earlier, last, kind, NO_EXIT);
      assert sides == rest + [last];
    }
  }

  lemma {:induction false} TailExtends(ctx: Context, entries: seq<Entry>, sides: seq<Side>)
    ensures Extends(ctx, entries, PushTail(ctx, entries, sides), sides, NO_EXIT, {InPool})
  {
    if sides != [] {
      var rest, last := sides[..|sides| - 1], sides[|sides| - 1];
      TailExtends(ctx, entries, rest);
      PushExtends(ctx, PushTail(ctx, entries, rest), last, InPool, NO_EXIT);
      assert sides == rest + [last];
    }
  }

  // ---- order ----

  /** The part of the ranking an entry stands in: title, podium, losers, early winners, play-in, pools. */
  function Level(e: Entry): nat
  {
    match e.section
    case Some(LosersBracket) => 2
    case Some(WinnersBracket) => 3
    case Some(PlayIn) => 4
    case None =>
      match e.kind
      case Champion => 0
      case RunnerUp => 0
      case Third => 1
      case Fourth => 1
      case InRound => 2
      case InSwiss => 2
      case InPool => 5
  }

  function RoundOf(e: Entry): int
  {
    if e.eliminationRound.Some? then e.eliminationRound.value else 0
  }

  function SideOf(e: Entry): Side
  {
    Side(e.registrationId, e.fighterName, e.clubAbbrev)
  }

  /** The medals of the title and the podium, best first. */
  function Medal(e: Entry): nat
  {
    match e.kind
    case Champion => 0
    case RunnerUp => 1
    case Third => 2
    case Fourth => 3
    case _ => 4
  }

  /**
   * The order of the ranking: the part first; then the medal in the title and the podium, and the
   * deeper round below them; then the pool score with a missing one last, then the name.
   */
  predicate MayPrecede(ctx: Context, a: Entry, b: Entry)
  {
    || Level(a) < Level(b)
    || (Level(a) == Level(b) && Level(a) < 2 && Medal(a) < Medal(b))
    || (Level(a) == Level(b) && RoundOf(a) > RoundOf(b))
    || (Level(a) == Level(b) && RoundOf(a) == RoundOf(b) && !ScoresBefore(ctx, SideOf(b), SideOf(a)))
  }

  ghost predicate InOrder(ctx: Context, entries: seq<Entry>)
  {
    forall i, j :: 0 <= i < j < |entries| ==> MayPrecede(ctx, entries[i], entries[j])
  }

  /** Every entry stands before whatever comes at `level` from `round` on. */
  ghost predicate AllBefore(entries: seq<Entry>, level: nat, round: int)
  {
    forall i :: 0 <= i < |entries| ==>
      Level(entries[i]) < level || (Level(entries[i]) == level && RoundOf(entries[i]) > round)
  }

  ghost predicate AllWithin(entries: seq<Entry>, level: nat, round: int)
  {
    forall i :: 0 <= i < |entries| ==>
      Level(entries[i]) < level || (Level(entries[i]) == level && RoundOf(entries[i]) >= round)
  }

  /** Pushing a sorted group that all stand behind keeps the order. */
  lemma {:induction false} GroupKeepsOrder(ctx: Context, entries: seq<Entry>, sides: seq<Side>, exit: Exit, podiumKinds: bool,
                                           level: nat, round: int)
    requires InOrder(ctx, entries) && AllBefore(entries, level, round) && SortedBy(sides, ByPoolScore(ctx))
    requires level >= 2 && exit.round == Some(round)
    requires exit.section.None? ==> level == 2 && !podiumKinds
    requires exit.section == Some(LosersBracket) ==> level == 2
    requires exit.section == Some(WinnersBracket) ==> level == 3
    requires exit.section == Some(PlayIn) ==> level == 4
    ensures InOrder(ctx, PushEach(ctx, entries, sides, exit, podiumKinds))
    ensures AllWithin(PushEach(ctx, entries, sides, exit, podiumKinds), level, round)
    ensures forall i :: |entries| <= i < |PushEach(ctx, entries, sides, exit, podiumKinds)| ==>
              SideOf(PushEach(ctx, entries, sides, exit, podiumKinds)[i]) in sides
  {
    if sides != [] {
      var rest, last := sides[..|sides| - 1], sides[|sides| - 1];
      GroupKeepsOrder(ctx, entries, rest, exit, podiumKinds, level, round);
      var earlier := PushEach(ctx, entries, rest, exit, podiumKinds);
      PushEachExtends(ctx, entries, rest, exit, podiumKinds);
      assert forall i :: 0 <= i < |rest| ==> rest[i] == sides[i] && !ByPoolScore(ctx)(last, sides[i]);
      NextKeepsOrder(ctx, entries, earlier, rest, last, exit, RoundKind(|earlier|, podiumKinds), level, round);
    }
  }

  /** Where an entry of a round stands. */
  predicate AtLevel(e: Entry, level: nat, round: int)
  {
    Level(e) == level && RoundOf(e) == round
  }

  /** One more side of a group, behind everything above and the sides before it. */
  lemma {:induction false} NextKeepsOrder(ctx: Context, entries: seq<Entry>, earlier: seq<Entry>, rest: seq<Side>, last: Side, exit: Exit,
                                          kind: ResultKind, level: nat, round: int)
    requires entries <= earlier && InOrder(ctx, earlier) && AllBefore(entries, level, round) && AllWithin(earlier, level, round)
    requires forall i :: |entries| <= i < |earlier| ==> SideOf(earlier[i]) in rest
    requires forall i :: 0 <= i < |rest| ==> !ByPoolScore(ctx)(last, rest[i])
    requires exit.round == Some(round) && forall e: Entry :: e.kind == kind && e.section == exit.section && e.eliminationRound == exit.round
                                                             ==> AtLevel(e, level, round)
    ensures InOrder(ctx, Push(ctx, earlier, last, kind, exit)) && AllWithin(Push(ctx, earlier, last, kind, exit), level, round)
    ensures forall i :: |entries| <= i < |Push(ctx, earlier, last, kind, exit)| ==>
              SideOf(Push(ctx, earlier, last, kind, exit)[i]) in rest + [last]
  {
    var after := Push(ctx, earlier, last, kind, exit);
    if |after| > |earlier| {
      var e := after[|earlier|];
      assert AtLevel(e, level, round) && SideOf(e) == last;
      forall i | 0 <= i < |earlier|
        ensures MayPrecede(ctx, earlier[i], e)
      {
        if i < |entries| {
          assert earlier[i] == entries[i];
        } else {
          var k :| 0 <= k < |rest| && rest[k] == SideOf(earlier[i]);
        }
      }
    }
  }

  /** Deepest round first: a strictly descending list of rounds. */
  ghost predicate Descending(rounds: seq<int>)
  {
    forall i, j :: 0 <= i < j < |rounds| ==> rounds[i] > rounds[j]
  }

  /** What the groups of one part are pushed under. */
  ghost predicate ExitsAt(exitOf: int -> Exit, level: nat, shift: int, podiumKinds: bool)
  {
    && level >= 2
    && forall round ::
         && exitOf(round).round == Some(round - shift)
         && (exitOf(round).section.None? ==> level == 2 && !podiumKinds)
         && (exitOf(round).section == Some(LosersBracket) ==> level == 2)
         && (exitOf(round).section == Some(WinnersBracket) ==> level == 3)
         && (exitOf(round).section == Some(PlayIn) ==> level == 4)
  }

  lemma {:induction false} RoundsKeepOrder(ctx: Context, entries: seq<Entry>, rounds: seq<int>, group: int -> seq<Side>,
                                           exitOf: int -> Exit, podiumKinds: bool, level: nat, shift: int)
    requires InOrder(ctx, entries) && ExitsAt(exitOf, level, shift, podiumKinds) && Descending(rounds)
    requires forall i :: 0 <= i < |entries| ==> Level(entries[i]) < level
    ensures InOrder(ctx, PushRounds(ctx, entries, rounds, group, exitOf, podiumKinds))
    ensures rounds == [] ==> PushRounds(ctx, entries, rounds, group, exitOf, podiumKinds) == entries
    ensures rounds != [] ==>
              AllWithin(PushRounds(ctx, entries, rounds, group, exitOf, podiumKinds), level, rounds[|rounds| - 1] - shift)
  {
    if rounds != [] {
      var rest, round := rounds[..|rounds| - 1], rounds[|rounds| - 1];
      RoundsKeepOrder(ctx, entries, rest, group, exitOf, podiumKinds, level, shift);
      var earlier := PushRounds(ctx, entries, rest, group, exitOf, podiumKinds);
      assert rest != [] ==> rounds[|rest| - 1] > round;
      ByPoolScoreIsOrder(ctx);
      SortSorts(group(round), ByPoolScore(ctx));
      assert AllBefore(earlier, level, round - shift);
      GroupKeepsOrder(ctx, earlier, SortBy(group(round), ByPoolScore(ctx)), exitOf(round), podiumKinds, level, round - shift);
    }
  }

  // ---- the rounds of some losers ----

  ghost predicate DistinctInts(xs: seq<int>)
  {
    forall i, j :: 0 <= i < j < |xs| ==> xs[i] != xs[j]
  }

  lemma {:induction false} LoserRoundsAreDistinct(slots: seq<Slot>, entries: seq<Entry>)
    ensures DistinctInts(LoserRounds(slots, entries))
  {
    if slots != [] {
      LoserRoundsAreDistinct(slots[..|slots| - 1], entries);
    }
  }

  lemma {:induction false} InsertDescends(x: int, sorted: seq<int>)
    requires Descending(sorted) && x !in sorted
    ensures Descending(Insert(x, sorted, Deeper))
    ensures forall y :: y in Insert(x, sorted, Deeper) <==> y == x || y in sorted
  {
    if sorted != [] && Deeper(sorted[0], x) {
      assert Descending(sorted[1..]);
      InsertDescends(x, sorted[1..]);
      var r := Insert(x, sorted, Deeper);
      forall i, j | 0 <= i < j < |r|
        ensures r[i] > r[j]
      {
        if i == 0 {
          assert r[j] in Insert(x, sorted[1..], Deeper);
          if r[j] != x {
            var k :| 0 <= k < |sorted[1..]| && sorted[1..][k] == r[j];
            assert sorted[0] > sorted[k + 1];
          }
        }
      }
    } else if sorted != [] {
      assert sorted[0] in sorted;
    }
  }

  lemma {:induction false} SortedRoundsDescend(rounds: seq<int>)
    requires DistinctInts(rounds)
    ensures Descending(SortBy(rounds, Deeper))
  {
    if rounds != [] {
      SortedRoundsDescend(rounds[1..]);
      SortKeepsMembers(rounds[1..], Deeper);
      assert rounds[0] !in rounds[1..];
      InsertDescends(rounds[0], SortBy(rounds[1..], Deeper));
    }
  }

  /** The losers of a part, pushed behind everything above that part, keep the order. */
  lemma {:induction false} LosersKeepOrder(ctx: Context, entries: seq<Entry>, slots: seq<Slot>, exitOf: int -> Exit,
                                           podiumKinds: bool, level: nat, shift: int)
    requires InOrder(ctx, entries) && ExitsAt(exitOf, level, shift, podiumKinds)
    requires forall i :: 0 <= i < |entries| ==> Level(entries[i]) < level
    ensures InOrder(ctx, PushLosers(ctx, entries, slots, exitOf, podiumKinds))
    ensures forall i :: 0 <= i < |PushLosers(ctx, entries, slots, exitOf, podiumKinds)| ==>
              Level(PushLosers(ctx, entries, slots, exitOf, podiumKinds)[i]) <= level
  {
    LoserRoundsAreDistinct(slots, entries);
    SortedRoundsDescend(LoserRounds(slots, entries));
    RoundsKeepOrder(ctx, entries, SortBy(LoserRounds(slots, entries), Deeper), round => LosersIn(slots, entries, round),
                    exitOf, podiumKinds, level, shift);
  }

  lemma {:induction false} PairExtends(ctx: Context, entries: seq<Entry>, d: Decided, first: ResultKind, second: ResultKind)
    ensures Extends(ctx, entries, PushPair(ctx, entries, Some(d), first, second), [d.winner, d.loser], NO_EXIT, {first, second})
  {
    var one := Push(ctx, entries, d.winner, first, NO_EXIT);
    PushExtends(ctx, entries, d.winner, first, NO_EXIT);
    PushExtends(ctx, one, d.loser, second, NO_EXIT);
    assert Extends(ctx, entries, one, [d.winner], NO_EXIT, {first, second});
    assert [d.winner] + [d.loser] == [d.winner, d.loser];
  }

  ghost predicate AtMost(entries: seq<Entry>, level: nat)
  {
    forall i :: 0 <= i < |entries| ==> Level(entries[i]) <= level
  }

  /** A pair pushed behind everything above its part stands as its two kinds say. */
  lemma {:induction false} PairKeepsOrder(ctx: Context, entries: seq<Entry>, d: Decided, first: ResultKind, second: ResultKind)
    requires InOrder(ctx, entries)
    requires (first == Champion && second == RunnerUp && entries == []) || (first == Third && second == Fourth && AtMost(entries, 0))
    ensures InOrder(ctx, PushPair(ctx, entries, Some(d), first, second))
    ensures AtMost(PushPair(ctx, entries, Some(d), first, second), if first == Champion then 0 else 1)
  {
    var one := Push(ctx, entries, d.winner, first, NO_EXIT);
    var two := Push(ctx, one, d.loser, second, NO_EXIT);
    assert forall i :: |entries| <= i < |one| ==> one[i].kind == first && one[i].section.None?;
    assert forall i :: |one| <= i < |two| ==> two[i].kind == second && two[i].section.None?;
  }

  lemma {:induction false} TitleIsInOrder(ctx: Context, d: Decided)
    ensures InOrder(ctx, PushPair(ctx, [], Some(d), Champion, RunnerUp))
    ensures AtMost(PushPair(ctx, [], Some(d), Champion, RunnerUp), 0)
  {
    PairKeepsOrder(ctx, [], d, Champion, RunnerUp);
  }

  lemma {:induction false} MedalPairKeepsOrder(ctx: Context, entries: seq<Entry>, wl: Option<Decided>)
    requires InOrder(ctx, entries) && AtMost(entries, 0)
    ensures InOrder(ctx, PushPair(ctx, entries, wl, Third, Fourth)) && AtMost(PushPair(ctx, entries, wl, Third, Fourth), 1)
  {
    if wl.Some? {
      PairKeepsOrder(ctx, entries, wl.value, Third, Fourth);
    }
  }

  /** Survivors pushed in the order of their pool scores stand so. */
  lemma {:induction false} SurvivorsKeepOrder(ctx: Context, entries: seq<Entry>, sides: seq<Side>)
    requires InOrder(ctx, entries) && AtMost(entries, 0) && SortedBy(sides, ByPoolScore(ctx))
    ensures InOrder(ctx, PushSurvivors(ctx, entries, sides)) && AtMost(PushSurvivors(ctx, entries, sides), 1)
  {
    if sides != [] {
      var rest, last := sides[..|sides| - 1], sides[|sides| - 1];
      var earlier, after := PushSurvivors(ctx, entries, rest), PushSurvivors(ctx, entries, sides);
      SurvivorsKeepOrder(ctx, entries, rest);
      SurvivorsExtend(ctx, entries, rest);
      if |after| > |earlier| {
        forall i | 0 <= i < |earlier|
          ensures MayPrecede(ctx, earlier[i], after[|earlier|])
        {
          if i >= |entries| {
            assert Came(ctx, earlier[i], rest, NO_EXIT);
            var k :| 0 <= k < |rest| && rest[k] == SideOf(earlier[i]);
            assert sides[k] == rest[k] && !ByPoolScore(ctx)(last, sides[k]);
          }
        }
      }
    }
  }

  lemma {:induction false} TailKeepsOrder(ctx: Context, entries: seq<Entry>, sides: seq<Side>)
    requires InOrder(ctx, entries) && AtMost(entries, 4) && SortedBy(sides, ByPoolScore(ctx))
    ensures InOrder(ctx, PushTail(ctx, entries, sides))
  {
    if sides != [] {
      var rest, last := sides[..|sides| - 1], sides[|sides| - 1];
      TailKeepsOrder(ctx, entries, rest);
      TailExtends(ctx, entries, rest);
      var earlier, after := PushTail(ctx, entries, rest), PushTail(ctx, entries, sides);
      if |after| > |earlier| {
        forall i | 0 <= i < |earlier|
          ensures MayPrecede(ctx, earlier[i], after[|earlier|])
        {
          if i >= |entries| {
            assert Came(ctx, earlier[i], rest, NO_EXIT) && earlier[i].kind == InPool;
            var k :| 0 <= k < |rest| && rest[k] == SideOf(earlier[i]);
            assert sides[k] == rest[k] && !ByPoolScore(ctx)(last, sides[k]);
          }
        }
      }
    }
  }

  lemma {:induction false} SingleElimIsInOrder(ctx: Context, slots: seq<Slot>, bronzeSlotId: Option<string>)
    requires OrderSingleElim(ctx, slots, bronzeSlotId).Some?
    ensures InOrder(ctx, OrderSingleElim(ctx, slots, bronzeSlotId).value)
    ensures AtMost(OrderSingleElim(ctx, slots, bronzeSlotId).value, 2)
  {
    var maxRound, bronze := MaxRound(slots), BronzeSlot(slots, bronzeSlotId);
    var main := MainSlots(slots, bronze);
    var final := DecidedBy(FinalSlot(main, maxRound));
    var title := PushPair(ctx, [], final, Champion, RunnerUp);
    TitleIsInOrder(ctx, final.value);
    MedalPairKeepsOrder(ctx, title, DecidedBy(bronze));
    LosersKeepOrder(ctx, PushPair(ctx, title, DecidedBy(bronze), Third, Fourth), BeforeRound(main, maxRound), PlainExit(),
                    false, 2, 0);
  }

  lemma {:induction false} PodiumIsInOrder(ctx: Context, entries: seq<Entry>, slots: seq<Slot>, layout: Layout)
    requires InOrder(ctx, entries) && AtMost(entries, 0)
    ensures InOrder(ctx, BronzePodium(ctx, entries, slots, layout)) && AtMost(BronzePodium(ctx, entries, slots, layout), 1)
  {
    var last := LastLosersRound(slots, layout);
    if layout.isBronze {
      if layout.bronzeMatch {
        MedalPairKeepsOrder(ctx, entries, if last == [] then None else WinnerLoser(last[0]));
      } else {
        var survivors := SortBy(Winners(last), ByPoolScore(ctx));
        ByPoolScoreIsOrder(ctx);
        SortSorts(Winners(last), ByPoolScore(ctx));
        SurvivorsKeepOrder(ctx, entries, survivors);
      }
    }
  }

  lemma {:induction false} PlayInKeepsOrder(ctx: Context, entries: seq<Entry>, slots: seq<Slot>)
    requires InOrder(ctx, entries) && AtMost(entries, 3)
    ensures InOrder(ctx, PlayInPart(ctx, entries, slots)) && AtMost(PlayInPart(ctx, entries, slots), 4)
  {
    var losers := LosersIn(PlayInSlots(slots), entries, 0);
    ByPoolScoreIsOrder(ctx);
    SortSorts(losers, ByPoolScore(ctx));
    GroupKeepsOrder(ctx, entries, SortBy(losers, ByPoolScore(ctx)), PLAY_IN_EXIT, false, 4, 0);
  }

  lemma {:induction false} DoubleElimIsInOrder(ctx: Context, slots: seq<Slot>, layout: Layout, d: Decided)
    ensures InOrder(ctx, DoubleElimParts(ctx, slots, layout, Some(d)))
    ensures AtMost(DoubleElimParts(ctx, slots, layout, Some(d)), 4)
  {
    var title := PushPair(ctx, [], Some(d), Champion, RunnerUp);
    var podium := BronzePodium(ctx, title, slots, layout);
    TitleIsInOrder(ctx, d);
    PodiumIsInOrder(ctx, title, slots, layout);
    var losers := LosersPart(ctx, podium, slots, layout);
    LosersKeepOrder(ctx, podium, LosersSlots(slots, layout), LosersExit(layout.wbRounds), !layout.isBronze, 2, layout.wbRounds);
    var winners := WinnersPart(ctx, losers, slots, layout);
    if layout.entryRound > 1 {
      LosersKeepOrder(ctx, losers, PreCutoffSlots(slots, layout), WinnersExit(), false, 3, 0);
    }
    PlayInKeepsOrder(ctx, winners, slots);
  }

  /**
   * Every bracket ranking runs title, podium, losers, pre-cutoff winners, play-in, pools: in the
   * first two by medal, in each later part the deeper round first, then by pool score and name.
   */
  lemma {:induction false} RankingIsInOrder(slots: seq<Slot>, pools: seq<PoolEntry>, bronzeSlotId: Option<string>, shape: Shape,
                                            collate: string -> real)
    requires shape.phaseType != Swiss
    ensures InOrder(Context(PoolScores(pools), collate), FinalOrder(slots, pools, bronzeSlotId, shape, collate))
  {
    var ctx := Context(PoolScores(pools), collate);
    var bracket := BracketOrder(ctx, slots, bronzeSlotId, shape);
    if bracket.Some? {
      if shape.phaseType == DoubleElim {
        var layout := ReadLayout(shape);
        DoubleElimIsInOrder(ctx, slots, layout, DecidedBy(DecidingSlot(slots, layout)).value);
      } else {
        SingleElimIsInOrder(ctx, slots, bronzeSlotId);
      }
      var tail := PoolOnly(slots, pools, bracket.value);
      ByPoolScoreIsOrder(ctx);
      SortSorts(tail, ByPoolScore(ctx));
      TailKeepsOrder(ctx, bracket.value, SortBy(tail, ByPoolScore(ctx)));
    }
  }

  // ---- places ----

  lemma {:induction false} RoundsKeepPlaces(ctx: Context, entries: seq<Entry>, rounds: seq<int>, group: int -> seq<Side>,
                                            exitOf: int -> Exit, podiumKinds: bool)
    requires Placed(entries)
    ensures Placed(PushRounds(ctx, entries, rounds, group, exitOf, podiumKinds))
  {
    if rounds != [] {
      var rest, round := rounds[..|rounds| - 1], rounds[|rounds| - 1];
      RoundsKeepPlaces(ctx, entries, rest, group, exitOf, podiumKinds);
      PushEachExtends(ctx, PushRounds(ctx, entries, rest, group, exitOf, podiumKinds),
                      SortBy(group(round), ByPoolScore(ctx)), exitOf(round), podiumKinds);
    }
  }

  lemma {:induction false} LosersKeepPlaces(ctx: Context, entries: seq<Entry>, slots: seq<Slot>, exitOf: int -> Exit, podiumKinds: bool)
    requires Placed(entries)
    ensures Placed(PushLosers(ctx, entries, slots, exitOf, podiumKinds))
  {
    RoundsKeepPlaces(ctx, entries, SortBy(LoserRounds(slots, entries), Deeper), round => LosersIn(slots, entries, round),
                     exitOf, podiumKinds);
  }

  lemma {:induction false} PairKeepsPlaces(ctx: Context, entries: seq<Entry>, wl: Option<Decided>, first: ResultKind, second: ResultKind)
    requires Placed(entries)
    ensures Placed(PushPair(ctx, entries, wl, first, second))
  {
    if wl.Some? {
      PairExtends(ctx, entries, wl.value, first, second);
    }
  }

  lemma {:induction false} SwissIsPlaced(ctx: Context, standings: seq<PoolEntry>)
    ensures Placed(OrderSwiss(ctx, standings))
  {
    if standings != [] {
      var earlier := OrderSwiss(ctx, standings[..|standings| - 1]);
      SwissIsPlaced(ctx, standings[..|standings| - 1]);
      PushExtends(ctx, earlier, SideOfPool(standings[|standings| - 1]), SwissKind(|earlier|), NO_EXIT);
    }
  }

  lemma {:induction false} SingleElimIsPlaced(ctx: Context, slots: seq<Slot>, bronzeSlotId: Option<string>)
    requires OrderSingleElim(ctx, slots, bronzeSlotId).Some?
    ensures Placed(OrderSingleElim(ctx, slots, bronzeSlotId).value)
  {
    var maxRound, bronze := MaxRound(slots), BronzeSlot(slots, bronzeSlotId);
    var main := MainSlots(slots, bronze);
    var final := DecidedBy(FinalSlot(main, maxRound));
    var title := PushPair(ctx, [], final, Champion, RunnerUp);
    PairKeepsPlaces(ctx, [], final, Champion, RunnerUp);
    PairKeepsPlaces(ctx, title, DecidedBy(bronze), Third, Fourth);
    LosersKeepPlaces(ctx, PushPair(ctx, title, DecidedBy(bronze), Third, Fourth), BeforeRound(main, maxRound), PlainExit(), false);
  }

  lemma {:induction false} PodiumIsPlaced(ctx: Context, entries: seq<Entry>, slots: seq<Slot>, layout: Layout)
    requires Placed(entries)
    ensures Placed(BronzePodium(ctx, entries, slots, layout))
  {
    var last := LastLosersRound(slots, layout);
    if layout.isBronze {
      if layout.bronzeMatch {
        PairKeepsPlaces(ctx, entries, if last == [] then None else WinnerLoser(last[0]), Third, Fourth);
      } else {
        SurvivorsExtend(ctx, entries, SortBy(Winners(last), ByPoolScore(ctx)));
      }
    }
  }

  lemma {:induction false} WinnersPartIsPlaced(ctx: Context, entries: seq<Entry>, slots: seq<Slot>, layout: Layout)
    requires Placed(entries)
    ensures Placed(WinnersPart(ctx, entries, slots, layout))
  {
    if layout.entryRound > 1 {
      LosersKeepPlaces(ctx, entries, PreCutoffSlots(slots, layout), WinnersExit(), false);
    }
  }

  lemma {:induction false} DoubleElimIsPlaced(ctx: Context, slots: seq<Slot>, layout: Layout, deciding: Option<Decided>)
    ensures Placed(DoubleElimParts(ctx, slots, layout, deciding))
  {
    var title := PushPair(ctx, [], deciding, Champion, RunnerUp);
    PairKeepsPlaces(ctx, [], deciding, Champion, RunnerUp);
    var podium := BronzePodium(ctx, title, slots, layout);
    PodiumIsPlaced(ctx, title, slots, layout);
    var losers := LosersPart(ctx, podium, slots, layout);
    LosersKeepPlaces(ctx, podium, LosersSlots(slots, layout), LosersExit(layout.wbRounds), !layout.isBronze);
    var winners := WinnersPart(ctx, losers, slots, layout);
    WinnersPartIsPlaced(ctx, losers, slots, layout);
    PushEachExtends(ctx, winners, SortBy(LosersIn(PlayInSlots(slots), winners, 0), ByPoolScore(ctx)), PLAY_IN_EXIT, false);
  }

  lemma {:induction false} BracketIsPlaced(ctx: Context, slots: seq<Slot>, bronzeSlotId: Option<string>, shape: Shape)
    requires BracketOrder(ctx, slots, bronzeSlotId, shape).Some?
    ensures Placed(BracketOrder(ctx, slots, bronzeSlotId, shape).value)
  {
    if shape.phaseType == DoubleElim {
      var layout := ReadLayout(shape);
      DoubleElimIsPlaced(ctx, slots, layout, DecidedBy(DecidingSlot(slots, layout)));
    } else {
      SingleElimIsPlaced(ctx, slots, bronzeSlotId);
    }
  }

  /** Places are always 1..n, and no registration is placed twice, whatever the slots and pools. */
  lemma {:induction false} RankingIsPlaced(slots: seq<Slot>, pools: seq<PoolEntry>, bronzeSlotId: Option<string>, shape: Shape,
                                           collate: string -> real)
    ensures Placed(FinalOrder(slots, pools, bronzeSlotId, shape, collate))
  {
    var ctx := Context(PoolScores(pools), collate);
    if shape.phaseType == Swiss {
      SwissIsPlaced(ctx, pools);
    } else {
      var bracket := BracketOrder(ctx, slots, bronzeSlotId, shape);
      if bracket.Some? {
        BracketIsPlaced(ctx, slots, bronzeSlotId, shape);
        TailExtends(ctx, bracket.value, SortBy(PoolOnly(slots, pools, bracket.value), ByPoolScore(ctx)));
      }
    }
  }
}
