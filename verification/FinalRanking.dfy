// The final ranking of a Tournament: single elimination, double elimination and Swiss
// (packages/types/src/final-ranking.ts, packages/types/src/final-ranking-double-elim.ts).
module FinalRanking {
  import opened Options
  import opened Sorting
  import opened FinalRankingCore

  datatype PhaseType = SingleElim | DoubleElim | Swiss

  datatype Shape = Shape(
    phaseType: PhaseType,
    wbRounds: Option<int>,
    lbRounds: Option<int>,
    bronzeTarget: bool,
    bronzeMatch: Option<bool>,
    repechageEntryRound: Option<int>)

  // ---- searching the slots ----

  function Find(slots: seq<Slot>, wanted: Slot -> bool): Option<Slot>
  {
    if slots == [] then None else if wanted(slots[0]) then Some(slots[0]) else Find(slots[1..], wanted)
  }

  function Filter<T>(xs: seq<T>, keep: T -> bool): seq<T>
  {
    if xs == [] then []
    else
      var earlier := Filter(xs[..|xs| - 1], keep);
      if keep(xs[|xs| - 1]) then earlier + [xs[|xs| - 1]] else earlier
  }

  function MaxRound(slots: seq<Slot>): int
  {
    if slots == [] then 0
    else
      var earlier := MaxRound(slots[..|slots| - 1]);
      if slots[|slots| - 1].round > earlier then slots[|slots| - 1].round else earlier
  }

  function At(slots: seq<Slot>, round: int, position: int): Option<Slot>
  {
    Find(slots, (s: Slot) => s.round == round && s.position == position)
  }

  // ---- single elimination ----

  function BronzeSlot(slots: seq<Slot>, bronzeSlotId: Option<string>): Option<Slot>
  {
    if Given(bronzeSlotId) then Find(slots, (s: Slot) => Some(s.id) == bronzeSlotId) else At(slots, MaxRound(slots), 2)
  }

  /** Everything but the bronze match, so a fighter loses at most once in it. */
  function MainSlots(slots: seq<Slot>, bronze: Option<Slot>): seq<Slot>
  {
    if bronze.Some? then
      var id := bronze.value.id;
      Filter(slots, (s: Slot) => s.id != id)
    else slots
  }

  function FinalSlot(main: seq<Slot>, maxRound: int): Option<Slot>
  {
    var first := At(main, maxRound, 1);
    if first.Some? then first else Find(main, (s: Slot) => s.round == maxRound)
  }

  function DecidedBy(slot: Option<Slot>): Option<Decided>
  {
    if slot.Some? then WinnerLoser(slot.value) else None
  }

  function PushPair(ctx: Context, entries: seq<Entry>, wl: Option<Decided>, first: ResultKind, second: ResultKind): seq<Entry>
  {
    match wl
    case None => entries
    case Some(d) => Push(ctx, Push(ctx, entries, d.winner, first, NO_EXIT), d.loser, second, NO_EXIT)
  }

  function BeforeRound(slots: seq<Slot>, round: int): seq<Slot>
  {
    Filter(slots, (s: Slot) => s.round != round)
  }

  function PlainExit(): int -> Exit
  {
    round => Exit(Some(round), None)
  }

  /** `orderSingleElim`: none until the final is decided. */
  function OrderSingleElim(ctx: Context, slots: seq<Slot>, bronzeSlotId: Option<string>): Option<seq<Entry>>
  {
    var maxRound, bronze := MaxRound(slots), BronzeSlot(slots, bronzeSlotId);
    var main := MainSlots(slots, bronze);
    var final := DecidedBy(FinalSlot(main, maxRound));
    if final.None? then None
    else
      var title := PushPair(ctx, [], final, Champion, RunnerUp);
      var podium := PushPair(ctx, title, DecidedBy(bronze), Third, Fourth);
      Some(PushLosers(ctx, podium, BeforeRound(main, maxRound), PlainExit(), false))
  }

  // ---- double elimination ----

  datatype Layout = Layout(wbRounds: int, lbRounds: int, isBronze: bool, bronzeMatch: bool, entryRound: int)
  {
    function LastLbRound(): int
    {
      wbRounds + lbRounds
    }
  }

  function OrElse(n: Option<int>, other: int): int
  {
    if n.Some? then n.value else other
  }

  function ReadLayout(shape: Shape): Layout
  {
    Layout(OrElse(shape.wbRounds, 0), OrElse(shape.lbRounds, 0), shape.bronzeTarget,
           shape.bronzeTarget && shape.bronzeMatch != Some(false), OrElse(shape.repechageEntryRound, 1))
  }

  /** The match that decides 1st and 2nd: in gold mode the reset only once it was played. */
  function DecidingSlot(slots: seq<Slot>, layout: Layout): Option<Slot>
  {
    if layout.isBronze then At(slots, layout.wbRounds, 1)
    else
      var grandFinal := layout.LastLbRound() + 1;
      var reset := At(slots, grandFinal + 1, 1);
      if DecidedBy(reset).Some? then reset else At(slots, grandFinal, 1)
  }

  function LastLosersRound(slots: seq<Slot>, layout: Layout): seq<Slot>
  {
    Filter(slots, (s: Slot) => s.round == layout.LastLbRound())
  }

  function Winners(slots: seq<Slot>): seq<Side>
  {
    if slots == [] then []
    else
      var earlier := Winners(slots[..|slots| - 1]);
      match WinnerLoser(slots[|slots| - 1])
      case None => earlier
      case Some(wl) => earlier + [wl.winner]
  }

  function PushSurvivors(ctx: Context, entries: seq<Entry>, survivors: seq<Side>): seq<Entry>
  {
    if survivors == [] then entries
    else
      var earlier := PushSurvivors(ctx, entries, survivors[..|survivors| - 1]);
      Push(ctx, earlier, survivors[|survivors| - 1], if |earlier| == 2 then Third else Fourth, NO_EXIT)
  }

  /** Bronze mode's 3rd and 4th: the bronze match, or the last losers round's winners by pool score. */
  function BronzePodium(ctx: Context, entries: seq<Entry>, slots: seq<Slot>, layout: Layout): seq<Entry>
  {
    var last := LastLosersRound(slots, layout);
    if !layout.isBronze then entries
    else if layout.bronzeMatch then
      PushPair(ctx, entries, if last == [] then None else WinnerLoser(last[0]), Third, Fourth)
    else PushSurvivors(ctx, entries, SortBy(Winners(last), ByPoolScore(ctx)))
  }

  function LosersExit(wbRounds: int): int -> Exit
  {
    round => Exit(Some(round - wbRounds), Some(LosersBracket))
  }

  function WinnersExit(): int -> Exit
  {
    round => Exit(Some(round), Some(WinnersBracket))
  }

  const PLAY_IN_EXIT := Exit(Some(0), Some(PlayIn))

  function LosersSlots(slots: seq<Slot>, layout: Layout): seq<Slot>
  {
    Filter(slots, (s: Slot) => s.round > layout.wbRounds && s.round <= layout.LastLbRound())
  }

  function PreCutoffSlots(slots: seq<Slot>, layout: Layout): seq<Slot>
  {
    Filter(slots, (s: Slot) => s.round >= 1 && s.round < layout.entryRound)
  }

  function PlayInSlots(slots: seq<Slot>): seq<Slot>
  {
    Filter(slots, (s: Slot) => s.round == 0)
  }

  /** Losers-bracket exits, deepest round first; in gold mode the last two are 3rd and 4th. */
  function LosersPart(ctx: Context, entries: seq<Entry>, slots: seq<Slot>, layout: Layout): seq<Entry>
  {
    PushLosers(ctx, entries, LosersSlots(slots, layout), LosersExit(layout.wbRounds), !layout.isBronze)
  }

  /** Winners-bracket exits before the repechage cutoff, the only single losses that are final. */
  function WinnersPart(ctx: Context, entries: seq<Entry>, slots: seq<Slot>, layout: Layout): seq<Entry>
  {
    if layout.entryRound <= 1 then entries
    else PushLosers(ctx, entries, PreCutoffSlots(slots, layout), WinnersExit(), false)
  }

  function PlayInPart(ctx: Context, entries: seq<Entry>, slots: seq<Slot>): seq<Entry>
  {
    PushRound(ctx, entries, LosersIn(PlayInSlots(slots), entries, 0), PLAY_IN_EXIT, false)
  }

  function DoubleElimParts(ctx: Context, slots: seq<Slot>, layout: Layout, deciding: Option<Decided>): seq<Entry>
  {
    var title := PushPair(ctx, [], deciding, Champion, RunnerUp);
    var podium := BronzePodium(ctx, title, slots, layout);
    var losers := LosersPart(ctx, podium, slots, layout);
    var winners := WinnersPart(ctx, losers, slots, layout);
    PlayInPart(ctx, winners, slots)
  }

  /** `orderDoubleElim`: title, bronze podium, losers bracket, pre-cutoff winners bracket, play-in. */
  function OrderDoubleElim(ctx: Context, slots: seq<Slot>, shape: Shape): Option<seq<Entry>>
  {
    var layout := ReadLayout(shape);
    var deciding := DecidedBy(DecidingSlot(slots, layout));
    if deciding.None? then None else Some(DoubleElimParts(ctx, slots, layout, deciding))
  }

  // ---- the whole ranking ----

  function SideOfPool(e: PoolEntry): Side
  {
    Side(e.registrationId, e.fighterName, e.clubAbbrev)
  }

  predicate InBracket(slots: seq<Slot>, id: string)
  {
    id != "" && exists i :: 0 <= i < |slots| && (slots[i].redRegistrationId == Some(id) || slots[i].blueRegistrationId == Some(id))
  }

  /** The pool fighters who never reached the bracket. */
  function PoolOnly(slots: seq<Slot>, pools: seq<PoolEntry>, entries: seq<Entry>): seq<Side>
  {
    if pools == [] then []
    else
      var earlier, e := PoolOnly(slots, pools[..|pools| - 1], entries), pools[|pools| - 1];
      if InBracket(slots, e.registrationId) || Has(entries, e.registrationId) then earlier else earlier + [SideOfPool(e)]
  }

  function PushTail(ctx: Context, entries: seq<Entry>, sides: seq<Side>): seq<Entry>
  {
    if sides == [] then entries
    else Push(ctx, PushTail(ctx, entries, sides[..|sides| - 1]), sides[|sides| - 1], InPool, NO_EXIT)
  }

  function SwissKind(placed: nat): ResultKind
  {
    if placed == 0 then Champion else if placed == 1 then RunnerUp
    else if placed == 2 then Third else if placed == 3 then Fourth else InSwiss
  }

  function OrderSwiss(ctx: Context, standings: seq<PoolEntry>): seq<Entry>
  {
    if standings == [] then []
    else
      var earlier := OrderSwiss(ctx, standings[..|standings| - 1]);
      Push(ctx, earlier, SideOfPool(standings[|standings| - 1]), SwissKind(|earlier|), NO_EXIT)
  }

  function BracketOrder(ctx: Context, slots: seq<Slot>, bronzeSlotId: Option<string>, shape: Shape): Option<seq<Entry>>
  {
    if shape.phaseType == DoubleElim then OrderDoubleElim(ctx, slots, shape) else OrderSingleElim(ctx, slots, bronzeSlotId)
  }

  /** The bracket's order, then the pool fighters who never reached it, by pool score. */
  function WithTail(ctx: Context, slots: seq<Slot>, pools: seq<PoolEntry>, bracket: Option<seq<Entry>>): seq<Entry>
  {
    match bracket
    case None => []
    case Some(entries) => PushTail(ctx, entries, SortBy(PoolOnly(slots, pools, entries), ByPoolScore(ctx)))
  }

  function FinalOrder(slots: seq<Slot>, pools: seq<PoolEntry>, bronzeSlotId: Option<string>, shape: Shape,
                      collate: string -> real): seq<Entry>
  {
    var ctx := Context(PoolScores(pools), collate);
    if shape.phaseType == Swiss then OrderSwiss(ctx, pools)
    else WithTail(ctx, slots, pools, BracketOrder(ctx, slots, bronzeSlotId, shape))
  }

  // ---- the orderings as they run on the accumulator ----

  method AddPair(r: Ranking, wl: Option<Decided>, first: ResultKind, second: ResultKind)
    requires r.Valid()
    modifies r`entries, r`placed
    ensures r.Valid() && r.entries == PushPair(r.Ctx(), old(r.entries), wl, first, second)
  {
    if wl.Some? {
      r.Add(wl.value.winner, first, NO_EXIT);
      r.Add(wl.value.loser, second, NO_EXIT);
    }
  }

  method RunSingleElim(slots: seq<Slot>, bronzeSlotId: Option<string>, r: Ranking) returns (decided: bool)
    requires r.Valid() && r.entries == []
    modifies r`entries, r`placed
    ensures r.Valid()
    ensures decided <==> OrderSingleElim(r.Ctx(), slots, bronzeSlotId).Some?
    ensures decided ==> OrderSingleElim(r.Ctx(), slots, bronzeSlotId) == Some(r.entries)
  {
    var maxRound, bronze := MaxRound(slots), BronzeSlot(slots, bronzeSlotId);
    var main := MainSlots(slots, bronze);
    var final := DecidedBy(FinalSlot(main, maxRound));
    if final.None? {
      return false;
    }
    AddPair(r, final, Champion, RunnerUp);
    AddPair(r, DecidedBy(bronze), Third, Fourth);
    AddLosers(r, BeforeRound(main, maxRound), PlainExit(), false);
    decided := true;
  }

  method PlaceBronzePodium(slots: seq<Slot>, layout: Layout, r: Ranking)
    requires r.Valid()
    modifies r`entries, r`placed
    ensures r.Valid() && r.entries == BronzePodium(r.Ctx(), old(r.entries), slots, layout)
  {
    if !layout.isBronze {
      return;
    }
    var last := LastLosersRound(slots, layout);
    if layout.bronzeMatch {
      AddPair(r, if |last| == 0 then None else WinnerLoser(last[0]), Third, Fourth);
      return;
    }
    var survivors := GatherWinners(last);
    AddSurvivors(SortBy(survivors, ByPoolScore(Context(r.poolScoreByReg, r.collate))), r);
  }

  method GatherWinners(slots: seq<Slot>) returns (winners: seq<Side>)
    ensures winners == Winners(slots)
  {
    winners := [];
    for i := 0 to |slots|
      invariant winners == Winners(slots[..i])
    {
      assert slots[..i + 1][..i] == slots[..i];
      var wl := WinnerLoser(slots[i]);
      if wl.Some? {
        winners := winners + [wl.value.winner];
      }
    }
    assert slots[..|slots|] == slots;
  }

  method AddSurvivors(sorted: seq<Side>, r: Ranking)
    requires r.Valid()
    modifies r`entries, r`placed
    ensures r.Valid() && r.entries == PushSurvivors(r.Ctx(), old(r.entries), sorted)
  {
    for i := 0 to |sorted|
      invariant r.Valid() && r.entries == PushSurvivors(r.Ctx(), old(r.entries), sorted[..i])
    {
      assert sorted[..i + 1][..i] == sorted[..i];
      r.Add(sorted[i], if |r.entries| == 2 then Third else Fourth, NO_EXIT);
    }
    assert sorted[..|sorted|] == sorted;
  }

  method RunDoubleElim(slots: seq<Slot>, shape: Shape, r: Ranking) returns (decided: bool)
    requires r.Valid() && r.entries == []
    modifies r`entries, r`placed
    ensures r.Valid()
    ensures decided <==> OrderDoubleElim(r.Ctx(), slots, shape).Some?
    ensures decided ==> OrderDoubleElim(r.Ctx(), slots, shape) == Some(r.entries)
  {
    var layout := ReadLayout(shape);
    var deciding := DecidedBy(DecidingSlot(slots, layout));
    if deciding.None? {
      return false;
    }
    PlaceAll(slots, layout, deciding, r);
    decided := true;
  }

  method PlaceAll(slots: seq<Slot>, layout: Layout, deciding: Option<Decided>, r: Ranking)
    requires r.Valid() && r.entries == []
    modifies r`entries, r`placed
    ensures r.Valid() && r.entries == DoubleElimParts(r.Ctx(), slots, layout, deciding)
  {
    ghost var ctx := r.Ctx();
    AddPair(r, deciding, Champion, RunnerUp);
    ghost var title := r.entries;
    PlaceBronzePodium(slots, layout, r);
    ghost var podium := r.entries;
    PlaceLosersBracket(slots, layout, r);
    ghost var losers := r.entries;
    PlacePreCutoffWinners(slots, layout, r);
    ghost var winners := r.entries;
    PlacePlayIn(slots, r);
    assert r.Ctx() == ctx;
  }

  method PlaceLosersBracket(slots: seq<Slot>, layout: Layout, r: Ranking)
    requires r.Valid()
    modifies r`entries, r`placed
    ensures r.Valid() && r.entries == LosersPart(r.Ctx(), old(r.entries), slots, layout)
  {
    AddLosers(r, LosersSlots(slots, layout), LosersExit(layout.wbRounds), !layout.isBronze);
  }

  method PlacePreCutoffWinners(slots: seq<Slot>, layout: Layout, r: Ranking)
    requires r.Valid()
    modifies r`entries, r`placed
    ensures r.Valid() && r.entries == WinnersPart(r.Ctx(), old(r.entries), slots, layout)
  {
    if layout.entryRound > 1 {
      AddLosers(r, PreCutoffSlots(slots, layout), WinnersExit(), false);
    }
  }

  method PlacePlayIn(slots: seq<Slot>, r: Ranking)
    requires r.Valid()
    modifies r`entries, r`placed
    ensures r.Valid() && r.entries == PlayInPart(r.Ctx(), old(r.entries), slots)
  {
    var playIn, rounds := LosersByRound(PlayInSlots(slots), r);
    NoGroupNoLosers(PlayInSlots(slots), r.entries, 0);
    r.AddRound(if 0 in playIn then playIn[0] else [], PLAY_IN_EXIT, false);
  }

  /** A round without a group has no losers to place. */
  lemma {:induction false} NoGroupNoLosers(slots: seq<Slot>, entries: seq<Entry>, round: int)
    ensures round in LoserRounds(slots, entries) <==> LosersIn(slots, entries, round) != []
  {
    if slots != [] {
      NoGroupNoLosers(slots[..|slots| - 1], entries, round);
    }
  }

  method ComputeFinalRanking(slots: seq<Slot>, pools: seq<PoolEntry>, bronzeSlotId: Option<string>, shape: Shape,
                             collate: string -> real) returns (entries: seq<Entry>)
    ensures entries == FinalOrder(slots, pools, bronzeSlotId, shape, collate)
  {
    var r := new Ranking(pools, collate);
    if shape.phaseType == Swiss {
      RunSwiss(pools, r);
      return r.entries;
    }
    var decided: bool;
    if shape.phaseType == DoubleElim {
      decided := RunDoubleElim(slots, shape, r);
    } else {
      decided := RunSingleElim(slots, bronzeSlotId, r);
    }
    if !decided {
      return [];
    }
    AddTail(slots, pools, r);
    entries := r.entries;
  }

  method RunSwiss(standings: seq<PoolEntry>, r: Ranking)
    requires r.Valid() && r.entries == []
    modifies r`entries, r`placed
    ensures r.Valid() && r.entries == OrderSwiss(r.Ctx(), standings)
  {
    ghost var ctx := r.Ctx();
    for i := 0 to |standings|
      invariant r.Valid() && r.Ctx() == ctx
      invariant r.entries == OrderSwiss(ctx, standings[..i])
    {
      assert standings[..i + 1][..i] == standings[..i];
      r.Add(SideOfPool(standings[i]), SwissKind(|r.entries|), NO_EXIT);
    }
    assert standings[..|standings|] == standings;
  }

  method AddTail(slots: seq<Slot>, pools: seq<PoolEntry>, r: Ranking)
    requires r.Valid()
    modifies r`entries, r`placed
    ensures r.Valid()
    ensures r.entries == WithTail(r.Ctx(), slots, pools, Some(old(r.entries)))
  {
    var ctx := Context(r.poolScoreByReg, r.collate);
    var nonBracket := SortBy(PoolOnly(slots, pools, r.entries), ByPoolScore(ctx));
    for i := 0 to |nonBracket|
      invariant r.Valid() && r.Ctx() == ctx
      invariant r.entries == PushTail(ctx, old(r.entries), nonBracket[..i])
    {
      assert nonBracket[..i + 1][..i] == nonBracket[..i];
      r.Add(nonBracket[i], InPool, NO_EXIT);
    }
    assert nonBracket[..|nonBracket|] == nonBracket;
  }
}
